/** The three-lane event engine (event/engine.py) as atomic steps at its lock boundaries. */
module EventEngine {
  import opened Options

  datatype Lane = Market | Execution | Cold

  datatype PerLane<T> = PerLane(market: T, execution: T, cold: T) {
    function At(lane: Lane): T {
      match lane case Market => market case Execution => execution case Cold => cold
    }

    function With(lane: Lane, value: T): PerLane<T> {
      match lane
      case Market => this.(market := value)
      case Execution => this.(execution := value)
      case Cold => this.(cold := value)
    }
  }

  /** The lanes an event type has handlers on; registration happens before start. */
  datatype Kind = Kind(market: bool, execution: bool, cold: bool)

  /** A queue holds dispatches and, at shutdown, a stop token. */
  datatype Item = Work(id: nat) | Token

  /** Where a lane's worker thread is. `Absent`: no live thread. `TimedOut`: get() raised Empty
      and the worker has not looked at `_active` yet. */
  datatype Phase =
    | Absent
    | Idle
    | TimedOut
    | Running(id: nat)
    | Leaving(id: nat)
    | EnqueuingCold(id: nat)
    | Completing(id: nat)

  /** A put() in progress: hot lanes still to try, and what must happen first. */
  datatype PutStage = Enqueuing | RefusedAt(lane: Lane) | HandingOver
  datatype Put = Put(todo: seq<Lane>, stage: PutStage)

  /** The thread inside stop(): it seals admission, looks for live workers (with none, `bySelf`, it
      drains the queues itself), waits for idle, sends the stop tokens and joins. */
  datatype Stopper =
    | NotStopping
    | Sealing
    | Draining(bySelf: bool)
    | SendingTokens(todo: seq<Lane>)
    | Joining
    | TokenOverflow

  /** The engine's own fields. */
  datatype Shared = Shared(
    queues: PerLane<seq<Item>>,
    pendingCold: map<nat, int>,
    pendingWork: int,
    dispatchSeq: nat,
    accepting: bool,
    active: bool)

  /** Fields, threads, and the history the theorems speak about: which kind each dispatch had,
      how often each lane finished or refused it, and how often its cold enqueue was attempted. */
  datatype State = State(
    shared: Shared,
    workers: PerLane<Phase>,
    puts: map<nat, Put>,
    stopper: Stopper,
    starts: nat,
    kinds: map<nat, Kind>,
    finished: PerLane<multiset<nat>>,
    refused: PerLane<multiset<nat>>,
    attempts: multiset<nat>)

  const LANES: seq<Lane> := [Market, Execution, Cold]

  const INITIAL_SHARED: Shared := Shared(PerLane([], [], []), map[], 0, 0, true, false)

  const INITIAL: State :=
    State(INITIAL_SHARED, PerLane(Absent, Absent, Absent), map[], NotStopping, 0, map[],
          PerLane(multiset{}, multiset{}, multiset{}), PerLane(multiset{}, multiset{}, multiset{}), multiset{})

  /** [lane for lane in HOT_LANES if event.type in handlers[lane]] */
  function HotLanes(kind: Kind): seq<Lane> {
    (if kind.market then [Market] else []) + (if kind.execution then [Execution] else [])
  }

  // ---------------------------------------------------------------- critical sections

  predicate HasRoom(caps: PerLane<nat>, s: Shared, lane: Lane) { |s.queues.At(lane)| < caps.At(lane) }

  /** _enqueue: on Full the count is taken back and nothing is queued. */
  function Enqueued(caps: PerLane<nat>, s: Shared, lane: Lane, id: nat): Shared {
    if HasRoom(caps, s, lane)
    then s.(queues := s.queues.With(lane, s.queues.At(lane) + [Work(id)]), pendingWork := s.pendingWork + 1)
    else s
  }

  /** The locked part of _handoff_to_cold; true when this caller must enqueue on the cold lane. */
  function HandedOff(s: Shared, id: nat): (Shared, bool) {
    if id !in s.pendingCold then (s, false)
    else if s.pendingCold[id] - 1 > 0 then (s.(pendingCold := s.pendingCold[id := s.pendingCold[id] - 1]), false)
    else (s.(pendingCold := s.pendingCold - {id}), true)
  }

  function Dequeued(s: Shared, lane: Lane): Shared
    requires s.queues.At(lane) != []
  {
    s.(queues := s.queues.With(lane, s.queues.At(lane)[1..]))
  }

  function Completed(s: Shared): Shared { s.(pendingWork := s.pendingWork - 1) }

  // ---------------------------------------------------------------- put()

  function Begin(s: State, kind: Kind): State {
    var id := s.shared.dispatchSeq + 1;
    var hot := HotLanes(kind);
    var counted := s.shared.(dispatchSeq := id);
    if hot == [] && !kind.cold then s.(shared := counted, kinds := s.kinds[id := kind])
    else if hot == [] then
      s.(shared := counted, kinds := s.kinds[id := kind], puts := s.puts[id := Put([], HandingOver)])
    else
      s.(shared := if kind.cold then counted.(pendingCold := counted.pendingCold[id := |hot|]) else counted,
         kinds := s.kinds[id := kind],
         puts := s.puts[id := Put(hot, Enqueuing)])
  }

  function PutEnqueue(caps: PerLane<nat>, s: State, id: nat): State
    requires id in s.puts && s.puts[id].todo != [] && id in s.kinds
  {
    var p := s.puts[id];
    var lane := p.todo[0];
    if HasRoom(caps, s.shared, lane) then
      s.(shared := Enqueued(caps, s.shared, lane, id), puts := s.puts[id := Put(p.todo[1..], Enqueuing)])
    else
      s.(refused := s.refused.With(lane, s.refused.At(lane) + multiset{id}),
         puts := s.puts[id := Put(p.todo[1..], if s.kinds[id].cold then RefusedAt(lane) else Enqueuing)])
  }

  function PutHandoff(s: State, id: nat): State
    requires id in s.puts
  {
    var (shared, mine) := HandedOff(s.shared, id);
    s.(shared := shared, puts := s.puts[id := Put(s.puts[id].todo, if mine then HandingOver else Enqueuing)])
  }

  /** An attempt to enqueue on the cold lane, by a put or by a worker. */
  function ColdAttempt(caps: PerLane<nat>, s: State, id: nat): State {
    s.(shared := Enqueued(caps, s.shared, Cold, id),
       attempts := s.attempts + multiset{id},
       refused := if HasRoom(caps, s.shared, Cold) then s.refused
                  else s.refused.With(Cold, s.refused.cold + multiset{id}))
  }

  function PutEnqueueCold(caps: PerLane<nat>, s: State, id: nat): State
    requires id in s.puts
  {
    ColdAttempt(caps, s, id).(puts := s.puts[id := Put(s.puts[id].todo, Enqueuing)])
  }

  // ---------------------------------------------------------------- workers

  function Take(s: State, lane: Lane): State
    requires s.shared.queues.At(lane) != []
  {
    var head := s.shared.queues.At(lane)[0];
    s.(shared := Dequeued(s.shared, lane),
       workers := s.workers.With(lane, if head.Work? then Running(head.id) else Absent))
  }

  function Finish(s: State, lane: Lane): State
    requires s.workers.At(lane).Running?
  {
    var id := s.workers.At(lane).id;
    s.(workers := s.workers.With(lane, Leaving(id)),
       finished := s.finished.With(lane, s.finished.At(lane) + multiset{id}))
  }

  function Handoff(s: State, lane: Lane): State
    requires s.workers.At(lane).Leaving?
  {
    var id := s.workers.At(lane).id;
    var (shared, mine) := HandedOff(s.shared, id);
    s.(shared := shared, workers := s.workers.With(lane, if mine then EnqueuingCold(id) else Completing(id)))
  }

  function EnqueueCold(caps: PerLane<nat>, s: State, lane: Lane): State
    requires s.workers.At(lane).EnqueuingCold?
  {
    var id := s.workers.At(lane).id;
    ColdAttempt(caps, s, id).(workers := s.workers.With(lane, Completing(id)))
  }

  function Complete(s: State, lane: Lane, survives: bool): State {
    s.(shared := Completed(s.shared), workers := s.workers.With(lane, if survives then Idle else Absent))
  }

  // ---------------------------------------------------------------- start() and stop()

  predicate NoWorker(s: State) { s.workers == PerLane(Absent, Absent, Absent) }

  function Launched(p: Phase): Phase { if p.Absent? then Idle else p }

  function Start(s: State): State {
    s.(shared := s.shared.(active := true, accepting := true),
       workers := PerLane(Launched(s.workers.market), Launched(s.workers.execution), Launched(s.workers.cold)),
       starts := s.starts + 1)
  }

  function Seal(s: State): State {
    s.(shared := s.shared.(accepting := false), stopper := Sealing)
  }

  /** put_nowait(stop token) for a live worker; Full escapes from stop(). */
  function PutToken(caps: PerLane<nat>, s: State): State
    requires s.stopper.SendingTokens? && s.stopper.todo != []
  {
    var lane, rest := s.stopper.todo[0], s.stopper.todo[1..];
    if s.workers.At(lane).Absent? then s.(stopper := SendingTokens(rest))
    else if HasRoom(caps, s.shared, lane) then
      s.(shared := s.shared.(queues := s.shared.queues.With(lane, s.shared.queues.At(lane) + [Token])),
         stopper := SendingTokens(rest))
    else s.(stopper := TokenOverflow)
  }

  // ---------------------------------------------------------------- the machine

  datatype Step =
    | DoBegin(kind: Kind)
    | DoPutEnqueue(put: nat)
    | DoPutHandoff(put: nat)
    | DoPutEnqueueCold(put: nat)
    | DoPutReturn(put: nat)
    | DoTake(lane: Lane)
    | DoDrainTake(lane: Lane)
    | DoTimeOut(lane: Lane)
    | DoRecheck(lane: Lane)
    | DoFinish(lane: Lane)
    | DoHandoff(lane: Lane)
    | DoSkipHandoff
    | DoEnqueueCold(lane: Lane)
    | DoComplete(lane: Lane, survives: bool)
    | DoStart
    | DoSeal
    | DoLookForWorkers
    | DoGiveUp
    | DoDrainRaises(lane: Lane)
    | DoObserveIdle
    | DoPutToken
    | DoDeactivate
    | DoJoin

  /** Steps of put(). Any number of puts may be in progress, which covers a failure callback
      that calls put() again. */
  predicate PutEnabled(s: State, step: Step) {
    match step
    case DoBegin(kind) => s.shared.accepting
    case DoPutEnqueue(id) => id in s.puts && id in s.kinds && s.puts[id].stage.Enqueuing? && s.puts[id].todo != []
    case DoPutHandoff(id) => id in s.puts && s.puts[id].stage.RefusedAt?
    case DoPutEnqueueCold(id) => id in s.puts && s.puts[id].stage.HandingOver?
    case DoPutReturn(id) => id in s.puts && s.puts[id].stage.Enqueuing? && s.puts[id].todo == []
    case _ => false
  }

  function PutNext(caps: PerLane<nat>, s: State, step: Step): State
    requires PutEnabled(s, step)
  {
    match step
    case DoBegin(kind) => Begin(s, kind)
    case DoPutEnqueue(id) => PutEnqueue(caps, s, id)
    case DoPutHandoff(id) => PutHandoff(s, id)
    case DoPutEnqueueCold(id) => PutEnqueueCold(caps, s, id)
    case DoPutReturn(id) => s.(puts := s.puts - {id})
  }

  /** Steps of a lane worker, or of process_existing_events() acting for a lane. The worker of
      the cold lane skips the handoff, process_existing_events() performs it. */
  predicate WorkerEnabled(s: State, step: Step) {
    match step
    case DoTake(lane) => s.workers.At(lane).Idle? && s.shared.queues.At(lane) != []
    case DoDrainTake(lane) =>
      s.stopper == Draining(true) && NoWorker(s) && s.shared.queues.At(lane) != [] && s.shared.queues.At(lane)[0].Work?
    case DoTimeOut(lane) => s.workers.At(lane).Idle? && s.shared.queues.At(lane) == []
    case DoRecheck(lane) => s.workers.At(lane).TimedOut?
    case DoFinish(lane) => s.workers.At(lane).Running?
    case DoHandoff(lane) => s.workers.At(lane).Leaving?
    case DoSkipHandoff => s.workers.cold.Leaving?
    case DoEnqueueCold(lane) => s.workers.At(lane).EnqueuingCold?
    case DoComplete(lane, survives) => s.workers.At(lane).Completing? && (s.stopper == Draining(true) ==> !survives)
    case _ => false
  }

  function WorkerNext(caps: PerLane<nat>, s: State, step: Step): State
    requires WorkerEnabled(s, step)
  {
    match step
    case DoTake(lane) => Take(s, lane)
    case DoDrainTake(lane) => Take(s, lane)
    case DoTimeOut(lane) => s.(workers := s.workers.With(lane, TimedOut))
    case DoRecheck(lane) => s.(workers := s.workers.With(lane, if s.shared.active then Idle else Absent))
    case DoFinish(lane) => Finish(s, lane)
    case DoHandoff(lane) => Handoff(s, lane)
    case DoSkipHandoff => s.(workers := s.workers.With(Cold, Completing(s.workers.cold.id)))
    case DoEnqueueCold(lane) => EnqueueCold(caps, s, lane)
    case DoComplete(lane, survives) => Complete(s, lane, survives)
  }

  /** Steps of the one thread that starts and stops the engine. Sealing needs the admission lock,
      so no put is in progress then. It gives up when the wait times out; its own drain takes a
      leftover stop token out of the queue and raises when it unpacks it. */
  predicate ControlEnabled(s: State, step: Step) {
    match step
    case DoStart => s.stopper.NotStopping? && !s.shared.active
    case DoSeal => (s.stopper.NotStopping? || s.stopper.TokenOverflow?) && s.puts == map[]
    case DoLookForWorkers => s.stopper.Sealing?
    case DoGiveUp => s.stopper.Draining? && (s.stopper.bySelf ==> NoWorker(s))
    case DoDrainRaises(lane) =>
      s.stopper == Draining(true) && NoWorker(s) && s.shared.queues.At(lane) != [] && s.shared.queues.At(lane)[0].Token?
    case DoObserveIdle => s.stopper.Draining? && s.shared.pendingWork == 0
    case DoPutToken => s.stopper.SendingTokens? && s.stopper.todo != []
    case DoDeactivate => s.stopper == SendingTokens([])
    case DoJoin => s.stopper.Joining? && NoWorker(s)
    case _ => false
  }

  function ControlNext(caps: PerLane<nat>, s: State, step: Step): State
    requires ControlEnabled(s, step)
  {
    match step
    case DoStart => Start(s)
    case DoSeal => Seal(s)
    case DoLookForWorkers => s.(stopper := Draining(NoWorker(s)))
    case DoGiveUp => s.(stopper := NotStopping)
    case DoDrainRaises(lane) => s.(shared := Dequeued(s.shared, lane), stopper := NotStopping)
    case DoObserveIdle => s.(stopper := SendingTokens(LANES))
    case DoPutToken => PutToken(caps, s)
    case DoDeactivate => s.(shared := s.shared.(active := false), stopper := Joining)
    case DoJoin => s.(stopper := NotStopping)
  }

  function Next(caps: PerLane<nat>, s: State, step: Step): Option<State> {
    if PutEnabled(s, step) then Some(PutNext(caps, s, step))
    else if WorkerEnabled(s, step) then Some(WorkerNext(caps, s, step))
    else if ControlEnabled(s, step) then Some(ControlNext(caps, s, step))
    else None
  }

  /** A run from `s`; None when some step was not enabled. */
  function Run(caps: PerLane<nat>, s: State, steps: seq<Step>): Option<State> {
    if steps == [] then Some(s)
    else
      var before := Run(caps, s, steps[..|steps| - 1]);
      if before.None? then None else Next(caps, before.value, steps[|steps| - 1])
  }

  /** Some run leads from `s` to `t`. */
  ghost predicate Leads(caps: PerLane<nat>, s: State, t: State) {
    exists steps :: Run(caps, s, steps) == Some(t)
  }

  ghost predicate Reachable(caps: PerLane<nat>, s: State) { Leads(caps, INITIAL, s) }

  lemma LeadsNowhere(caps: PerLane<nat>, s: State)
    ensures Leads(caps, s, s)
  {
    assert Run(caps, s, []) == Some(s);
  }

  lemma LeadsOn(caps: PerLane<nat>, s: State, t: State, step: Step)
    requires Leads(caps, s, t) && Next(caps, t, step).Some?
    ensures Leads(caps, s, Next(caps, t, step).value)
  {
    hide Next;
    var steps :| Run(caps, s, steps) == Some(t);
    assert (steps + [step])[..|steps|] == steps;
    assert Run(caps, s, steps + [step]) == Next(caps, t, step);
  }
}
