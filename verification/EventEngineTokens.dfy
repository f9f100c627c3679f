/** The stop tokens: how many a queue can hold over any number of restarts, when sending one can
    meet a full queue, and when a started lane can be without its worker. */
module EventEngineTokens {
  import opened Options
  import opened EventEngine
  import opened EventEngineTheorems
  import opened EventEngineDrain

  ghost predicate Positive(caps: PerLane<nat>) { caps.market >= 1 && caps.execution >= 1 && caps.cold >= 1 }

  ghost predicate Roomy(caps: PerLane<nat>) { caps.market >= 2 && caps.execution >= 2 && caps.cold >= 2 }

  // ---------------------------------------------------------------- where tokens can be

  /** The stop in progress has already dealt with this lane's token. */
  ghost predicate Sent(k: Stopper, lane: Lane) { (k.SendingTokens? && lane !in k.todo) || k.Joining? }

  ghost predicate NoIdle(p: Phase) { p.Absent? || InFlight(p) }

  /** The first `n` items are stop tokens. */
  ghost predicate Led(q: seq<Item>, n: int) { forall i :: 0 <= i < n ==> i < |q| && q[i] == Token }

  /** The tokens of a lane stand in front of everything else; there are at most two, and two only
      while a stop is under way and the worker still has to take them. */
  ghost predicate LaneRule(q: seq<Item>, p: Phase, k: Stopper, starts: nat, lane: Lane) {
    var n := Count(q, Token);
    && 0 <= n <= 2 && Led(q, n)
    && (n >= 1 ==> !InFlight(p))
    && (n == 2 ==> p.Idle? && Sent(k, lane))
    && (n >= 1 && !Sent(k, lane) ==> !p.TimedOut? && (starts <= 1 ==> p.Absent?))
    && (starts == 0 ==> n == 0 && NoIdle(p) && (InFlight(p) ==> k == Draining(true)))
    && (k == Draining(true) ==> NoIdle(p))
  }

  ghost predicate TokenRule(s: State, lane: Lane) {
    LaneRule(s.shared.queues.At(lane), s.workers.At(lane), s.stopper, s.starts, lane)
  }

  ghost predicate Distinct(todo: seq<Lane>) { forall i, j :: 0 <= i < j < |todo| ==> todo[i] != todo[j] }

  ghost predicate TokensOk(s: State) {
    && (forall lane :: TokenRule(s, lane))
    && (s.stopper.SendingTokens? ==> Distinct(s.stopper.todo))
    && !s.stopper.TokenOverflow?
  }

  /** Two slots everywhere, or no restart yet. */
  ghost predicate Calm(caps: PerLane<nat>, s: State) { Positive(caps) && (Roomy(caps) || s.starts <= 1) }

  lemma InitialTokens()
    ensures TokensOk(INITIAL)
  {
    forall lane ensures TokenRule(INITIAL, lane) {}
  }

  // ---------------------------------------------------------------- what steps do to one lane's queue

  lemma WorkAppended(q: seq<Item>, id: nat, p: Phase, k: Stopper, starts: nat, lane: Lane)
    requires LaneRule(q, p, k, starts, lane)
    ensures LaneRule(q + [Work(id)], p, k, starts, lane)
  {
    QueueGrows(q, Work(id), Token);
  }

  lemma HeadTaken(q: seq<Item>)
    requires q != [] && Led(q, Count(q, Token))
    ensures Count(q[1..], Token) == Count(q, Token) - (if q[0].Token? then 1 else 0)
    ensures Led(q[1..], Count(q[1..], Token))
    ensures Count(q[1..], Token) >= 0 && (q[0].Work? ==> Count(q, Token) <= 0)
  {
    CountTail(q, Token);
  }

  lemma {:induction false} AllTokens(q: seq<Item>)
    requires forall i :: 0 <= i < |q| ==> q[i] == Token
    ensures Count(q, Token) == |q|
  {
    if q != [] {
      AllTokens(q[1..]);
      CountTail(q, Token);
    }
  }

  lemma PutKeepsRule(caps: PerLane<nat>, s: State, step: Step, lane: Lane)
    requires PutEnabled(s, step) && TokenRule(s, lane)
    ensures TokenRule(PutNext(caps, s, step), lane)
  {
    hide LaneRule;
    PutQueues(caps, s, step, lane);
    if step.DoPutEnqueue? || step.DoPutEnqueueCold? {
      WorkAppended(s.shared.queues.At(lane), step.put, s.workers.At(lane), s.stopper, s.starts, lane);
    }
  }

  lemma PutQueues(caps: PerLane<nat>, s: State, step: Step, lane: Lane)
    requires PutEnabled(s, step)
    ensures var q, t := s.shared.queues.At(lane), PutNext(caps, s, step);
            && (t.shared.queues.At(lane) == q
                || ((step.DoPutEnqueue? || step.DoPutEnqueueCold?) && t.shared.queues.At(lane) == q + [Work(step.put)]))
            && t.workers == s.workers && t.stopper == s.stopper && t.starts == s.starts
  {
    hide HotLanes;
  }

  /** A worker step moves its own lane's phase, and appends work to the cold lane at most. */
  lemma WorkerQueues(caps: PerLane<nat>, s: State, step: Step, lane: Lane)
    requires WorkerEnabled(s, step)
    ensures var q, t := s.shared.queues.At(lane), WorkerNext(caps, s, step);
            var moved := if lane == ActorLane(step) then MovedQueue(s, step) else q;
            && (t.shared.queues.At(lane) == moved
                || (step.DoEnqueueCold? && t.shared.queues.At(lane) == q + [Work(s.workers.At(step.lane).id)]))
            && t.workers.At(lane) == if lane == ActorLane(step) then MovedPhase(s, step) else s.workers.At(lane)
  {
    if step.DoEnqueueCold? { ColdAttemptQueues(caps, s, s.workers.At(step.lane).id, lane); }
  }

  lemma ColdAttemptQueues(caps: PerLane<nat>, s: State, id: nat, lane: Lane)
    ensures var q, r := s.shared.queues.At(lane), ColdAttempt(caps, s, id).shared.queues.At(lane);
            r == q || r == q + [Work(id)]
  {
  }

  lemma PhaseKeepsRule(s: State, step: Step)
    requires WorkerEnabled(s, step) && TokenRule(s, ActorLane(step))
    ensures LaneRule(MovedQueue(s, step), MovedPhase(s, step), s.stopper, s.starts, ActorLane(step))
  {
    hide PerLane.With, HandedOff, Count;
    var q := s.shared.queues.At(ActorLane(step));
    if step.DoTake? || step.DoDrainTake? { HeadTaken(q); }
    if step.DoTimeOut? { AllTokens(q); }
  }

  lemma WorkerKeepsRule(caps: PerLane<nat>, s: State, step: Step, lane: Lane)
    requires WorkerEnabled(s, step) && TokenRule(s, lane)
    ensures TokenRule(WorkerNext(caps, s, step), lane)
  {
    hide WorkerNext, LaneRule, MovedPhase, Count;
    WorkerQueues(caps, s, step, lane);
    WorkerLeavesControl(caps, s, step);
    if lane == ActorLane(step) { PhaseKeepsRule(s, step); }
    if step.DoEnqueueCold? {
      var t := WorkerNext(caps, s, step);
      WorkAppended(s.shared.queues.At(lane), s.workers.At(step.lane).id, t.workers.At(lane), s.stopper, s.starts, lane);
    }
  }

  // ---------------------------------------------------------------- start() and stop()

  lemma ControlKeepsRule(caps: PerLane<nat>, s: State, step: Step, lane: Lane)
    requires ControlEnabled(s, step) && TokenRule(s, lane) && !s.stopper.TokenOverflow?
    requires step.DoPutToken? ==> LaneQuiet(s, lane) && Distinct(s.stopper.todo)
    requires step.DoObserveIdle? ==> LaneQuiet(s, lane)
    requires !ControlNext(caps, s, step).stopper.TokenOverflow?
    ensures TokenRule(ControlNext(caps, s, step), lane)
  {
    hide Count;
    match step
    case DoPutToken => PutTokenKeepsRule(caps, s, lane);
    case DoDrainRaises(actor) => DrainRaisesKeepsRule(caps, s, actor, lane);
    case _ =>
  }

  lemma DrainRaisesKeepsRule(caps: PerLane<nat>, s: State, actor: Lane, lane: Lane)
    requires ControlEnabled(s, DoDrainRaises(actor)) && TokenRule(s, lane)
    ensures TokenRule(ControlNext(caps, s, DoDrainRaises(actor)), lane)
  {
    hide Count;
    if lane == actor { HeadTaken(s.shared.queues.At(lane)); }
  }

  lemma PutTokenKeepsRule(caps: PerLane<nat>, s: State, lane: Lane)
    requires s.stopper.SendingTokens? && s.stopper.todo != [] && Distinct(s.stopper.todo) && TokenRule(s, lane)
    requires LaneQuiet(s, lane) && !PutToken(caps, s).stopper.TokenOverflow?
    ensures TokenRule(PutToken(caps, s), lane)
  {
    hide Count;
    var head, rest, q := s.stopper.todo[0], s.stopper.todo[1..], s.shared.queues.At(lane);
    assert head !in rest;
    assert lane in s.stopper.todo <==> lane == head || lane in rest;
    QueueGrows(q, Token, Token);
    AllTokens(q);
  }

  /** A token finds room: in a first life the queue of a live worker is empty by then, and with
      two slots there is room beside the one leftover. */
  lemma TokenFindsRoom(caps: PerLane<nat>, s: State)
    requires s.stopper.SendingTokens? && s.stopper.todo != []
    requires Counted(s) && Sealed(s) && Calm(caps, s) && TokenRule(s, s.stopper.todo[0])
    ensures !PutToken(caps, s).stopper.TokenOverflow?
  {
    hide Counted, PerLane.With, Count;
    var lane := s.stopper.todo[0];
    ZeroCountIsQuiet(s, lane);
    AllTokens(s.shared.queues.At(lane));
  }

  lemma TokensKept(caps: PerLane<nat>, s: State, step: Step)
    requires Counted(s) && Sealed(s) && TokensOk(s) && Next(caps, s, step).Some?
    requires Calm(caps, Next(caps, s, step).value)
    ensures TokensOk(Next(caps, s, step).value)
  {
    hide Counted, TokenRule, PutEnabled, PutNext, WorkerEnabled, WorkerNext;
    var t := Next(caps, s, step).value;
    if PutEnabled(s, step) {
      PutQueues(caps, s, step, Cold);
    } else if WorkerEnabled(s, step) {
      WorkerLeavesControl(caps, s, step);
    } else if step.DoPutToken? {
      TokenFindsRoom(caps, s);
    }
    forall lane ensures TokenRule(t, lane) { RuleKept(caps, s, step, lane); }
  }

  lemma RuleKept(caps: PerLane<nat>, s: State, step: Step, lane: Lane)
    requires Counted(s) && Sealed(s) && TokensOk(s) && Next(caps, s, step).Some?
    requires !Next(caps, s, step).value.stopper.TokenOverflow?
    ensures TokenRule(Next(caps, s, step).value, lane)
  {
    hide Counted, PutEnabled, PutNext, WorkerEnabled, WorkerNext, ControlNext, LaneQuiet, LaneRule;
    assert TokenRule(s, lane);
    if PutEnabled(s, step) {
      PutKeepsRule(caps, s, step, lane);
    } else if WorkerEnabled(s, step) {
      WorkerKeepsRule(caps, s, step, lane);
    } else {
      if step.DoObserveIdle? || step.DoPutToken? { ZeroCountIsQuiet(s, lane); }
      ControlKeepsRule(caps, s, step, lane);
    }
  }

  lemma StartsOnlyGrow(caps: PerLane<nat>, s: State, step: Step)
    requires Next(caps, s, step).Some?
    ensures Next(caps, s, step).value.starts >= s.starts
  {
    hide PerLane.With, PerLane.At, HotLanes, HandedOff, Enqueued;
  }

  lemma {:induction false} RunTokens(caps: PerLane<nat>, steps: seq<Step>)
    requires Run(caps, INITIAL, steps).Some? && Calm(caps, Run(caps, INITIAL, steps).value)
    ensures TokensOk(Run(caps, INITIAL, steps).value)
  {
    hide TokensOk, Next, Books, Counted, Sealed;
    if steps == [] {
      InitialTokens();
    } else {
      var front := steps[..|steps| - 1];
      var s := Run(caps, INITIAL, front).value;
      StartsOnlyGrow(caps, s, steps[|steps| - 1]);
      RunTokens(caps, front);
      ReachableInv(caps, front);
      TokensKept(caps, s, steps[|steps| - 1]);
    }
  }

  /** With room for two everywhere, or before a restart, no stop token ever meets a full queue. */
  lemma TokensFit(caps: PerLane<nat>, steps: seq<Step>)
    requires Run(caps, INITIAL, steps).Some? && Calm(caps, Run(caps, INITIAL, steps).value)
    ensures !Run(caps, INITIAL, steps).value.stopper.TokenOverflow?
  {
    hide Run;
    RunTokens(caps, steps);
  }

  // ---------------------------------------------------------------- runs with a restart

  /** An engine that never saw a dispatch. */
  ghost function Unused(queues: PerLane<seq<Item>>, workers: PerLane<Phase>, stopper: Stopper, starts: nat,
                        accepting: bool, active: bool): State {
    INITIAL.(shared := INITIAL_SHARED.(queues := queues, accepting := accepting, active := active),
             workers := workers, stopper := stopper, starts := starts)
  }

  const EMPTY: PerLane<seq<Item>> := PerLane([], [], [])
  const FULL: PerLane<seq<Item>> := PerLane([Token], [Token], [Token])
  const IDLE: PerLane<Phase> := PerLane(Idle, Idle, Idle)
  const GONE: PerLane<Phase> := PerLane(Absent, Absent, Absent)

  lemma ReachableNext(caps: PerLane<nat>, s: State, step: Step, t: State)
    requires Reachable(caps, s) && Next(caps, s, step) == Some(t)
    ensures Reachable(caps, t)
  {
    hide Leads, Next;
    LeadsOn(caps, INITIAL, s, step);
  }

  lemma FirstStart(caps: PerLane<nat>)
    ensures Reachable(caps, Unused(EMPTY, IDLE, NotStopping, 1, true, true))
  {
    hide Leads;
    LeadsNowhere(caps, INITIAL);
    ReachableNext(caps, INITIAL, DoStart, Unused(EMPTY, IDLE, NotStopping, 1, true, true));
  }

  /** From a running engine to the point where stop() sends its tokens. */
  lemma StopIdleEngine(caps: PerLane<nat>, q: PerLane<seq<Item>>, w: PerLane<Phase>, starts: nat)
    requires Reachable(caps, Unused(q, w, NotStopping, starts, true, true)) && w != GONE
    ensures Reachable(caps, Unused(q, w, SendingTokens(LANES), starts, false, true))
  {
    hide Leads;
    var s1 := Unused(q, w, Sealing, starts, false, true);
    var s2 := Unused(q, w, Draining(false), starts, false, true);
    ReachableNext(caps, Unused(q, w, NotStopping, starts, true, true), DoSeal, s1);
    ReachableNext(caps, s1, DoLookForWorkers, s2);
    ReachableNext(caps, s2, DoObserveIdle, Unused(q, w, SendingTokens(LANES), starts, false, true));
  }

  lemma LanesInTurn()
    ensures LANES[0] == Market && LANES[1..] == [Execution, Cold] && [Execution, Cold][1..] == [Cold]
    ensures [Cold][1..] == []
    ensures [] + [Token] == [Token] && [Token][1..] == []
  {
  }

  lemma AllTokensSent(caps: PerLane<nat>, w: PerLane<Phase>)
    requires Positive(caps) && !w.market.Absent? && !w.execution.Absent? && !w.cold.Absent?
    requires Reachable(caps, Unused(EMPTY, w, SendingTokens(LANES), 1, false, true))
    ensures Reachable(caps, Unused(FULL, w, Joining, 1, false, false))
  {
    hide Leads;
    LanesInTurn();
    var s1 := Unused(PerLane([Token], [], []), w, SendingTokens([Execution, Cold]), 1, false, true);
    var s2 := Unused(PerLane([Token], [Token], []), w, SendingTokens([Cold]), 1, false, true);
    var s3 := Unused(FULL, w, SendingTokens([]), 1, false, true);
    ReachableNext(caps, Unused(EMPTY, w, SendingTokens(LANES), 1, false, true), DoPutToken, s1);
    ReachableNext(caps, s1, DoPutToken, s2);
    ReachableNext(caps, s2, DoPutToken, s3);
    ReachableNext(caps, s3, DoDeactivate, Unused(FULL, w, Joining, 1, false, false));
  }

  /** The two lanes other than `lane`. */
  function Others(lane: Lane): (Lane, Lane) {
    match lane case Market => (Execution, Cold) case Execution => (Market, Cold) case Cold => (Market, Execution)
  }

  /** A worker that takes the token of its lane while stop() joins. */
  lemma TokenTaken(caps: PerLane<nat>, q: PerLane<seq<Item>>, w: PerLane<Phase>, lane: Lane)
    requires Reachable(caps, Unused(q, w, Joining, 1, false, false)) && q.At(lane) == [Token] && w.At(lane).Idle?
    ensures Reachable(caps, Unused(q.With(lane, []), w.With(lane, Absent), Joining, 1, false, false))
  {
    hide Leads, PerLane.With;
    LanesInTurn();
    var s := Unused(q, w, Joining, 1, false, false);
    ReachableNext(caps, s, DoTake(lane), Take(s, lane));
  }

  lemma OthersGone(lane: Lane)
    ensures var (a, b) := Others(lane);
            && FULL.With(a, []).With(b, []) == EMPTY.With(lane, [Token])
            && IDLE.With(lane, Absent).With(a, Absent).With(b, Absent) == GONE
            && IDLE.With(lane, Absent).At(a).Idle? && IDLE.With(lane, Absent).With(a, Absent).At(b).Idle?
            && FULL.At(a) == [Token] && FULL.With(a, []).At(b) == [Token]
  {
  }

  /** The timed-out worker sees `_active` cleared and exits; the others take their tokens. */
  lemma WorkersGone(caps: PerLane<nat>, lane: Lane)
    requires Reachable(caps, Unused(FULL, IDLE.With(lane, TimedOut), Joining, 1, false, false))
    ensures Reachable(caps, Unused(EMPTY.With(lane, [Token]), GONE, NotStopping, 1, false, false))
  {
    hide Leads;
    var (a, b) := Others(lane);
    var w := IDLE.With(lane, Absent);
    ReachableNext(caps, Unused(FULL, IDLE.With(lane, TimedOut), Joining, 1, false, false), DoRecheck(lane),
                  Unused(FULL, w, Joining, 1, false, false));
    hide PerLane.With;
    OthersGone(lane);
    TokenTaken(caps, FULL, w, a);
    TokenTaken(caps, FULL.With(a, []), w.With(a, Absent), b);
    ReachableNext(caps, Unused(EMPTY.With(lane, [Token]), GONE, Joining, 1, false, false), DoJoin,
                  Unused(EMPTY.With(lane, [Token]), GONE, NotStopping, 1, false, false));
  }

  /** At any capacities and on any lane: a worker whose get() timed out just before the stop exits
      without taking its token. */
  lemma LeftoverToken(caps: PerLane<nat>, lane: Lane)
    requires Positive(caps)
    ensures Reachable(caps, Unused(EMPTY.With(lane, [Token]), GONE, NotStopping, 1, false, false))
  {
    hide Leads;
    FirstStart(caps);
    var w := IDLE.With(lane, TimedOut);
    ReachableNext(caps, Unused(EMPTY, IDLE, NotStopping, 1, true, true), DoTimeOut(lane),
                  Unused(EMPTY, w, NotStopping, 1, true, true));
    StopIdleEngine(caps, EMPTY, w, 1);
    AllTokensSent(caps, w);
    WorkersGone(caps, lane);
  }

  lemma Restarted(caps: PerLane<nat>, lane: Lane)
    requires Positive(caps)
    ensures Reachable(caps, Unused(EMPTY.With(lane, [Token]), IDLE, NotStopping, 2, true, true))
  {
    hide Leads;
    LeftoverToken(caps, lane);
    ReachableNext(caps, Unused(EMPTY.With(lane, [Token]), GONE, NotStopping, 1, false, false), DoStart,
                  Unused(EMPTY.With(lane, [Token]), IDLE, NotStopping, 2, true, true));
  }

  /** A lane with a single slot has a run in which the next stop's token meets a full queue. */
  lemma OverflowAtOne(caps: PerLane<nat>, lane: Lane)
    requires Positive(caps) && caps.At(lane) == 1
    ensures exists s :: Reachable(caps, s) && s.stopper.TokenOverflow?
  {
    hide Leads;
    LanesInTurn();
    Restarted(caps, lane);
    var q := EMPTY.With(lane, [Token]);
    StopIdleEngine(caps, q, IDLE, 2);
    var s1 := Unused(q, IDLE, SendingTokens(LANES), 2, false, true);
    var s2 := Unused(q.With(Market, [Token]), IDLE, SendingTokens([Execution, Cold]), 2, false, true);
    var s3 := Unused(q.With(Market, [Token]).With(Execution, [Token]), IDLE, SendingTokens([Cold]), 2, false, true);
    match lane
    case Market =>
      ReachableNext(caps, s1, DoPutToken, s1.(stopper := TokenOverflow));
    case Execution =>
      ReachableNext(caps, s1, DoPutToken, s2);
      ReachableNext(caps, s2, DoPutToken, s2.(stopper := TokenOverflow));
    case Cold =>
      ReachableNext(caps, s1, DoPutToken, s2);
      ReachableNext(caps, s2, DoPutToken, s3);
      ReachableNext(caps, s3, DoPutToken, s3.(stopper := TokenOverflow));
  }

  /** Stop tokens and full queues, exactly: over all runs and restarts a token can meet a full
      queue if and only if some lane is configured with a single slot. */
  lemma TokenOverflowExactly(caps: PerLane<nat>)
    requires Positive(caps)
    ensures (exists s :: Reachable(caps, s) && s.stopper.TokenOverflow?)
            <==> caps.market == 1 || caps.execution == 1 || caps.cold == 1
  {
    hide Run, Leads;
    if caps.market == 1 {
      OverflowAtOne(caps, Market);
    } else if caps.execution == 1 {
      OverflowAtOne(caps, Execution);
    } else if caps.cold == 1 {
      OverflowAtOne(caps, Cold);
    } else {
      forall s | Reachable(caps, s) ensures !s.stopper.TokenOverflow? { RoomyFits(caps, s); }
    }
  }

  lemma RoomyFits(caps: PerLane<nat>, s: State)
    requires Roomy(caps) && Reachable(caps, s)
    ensures !s.stopper.TokenOverflow?
  {
    hide Run;
    var steps :| Run(caps, INITIAL, steps) == Some(s);
    TokensFit(caps, steps);
  }

  // ---------------------------------------------------------------- lanes without a worker

  /** After a restart the new worker can take the leftover token and exit: an active, accepting
      engine with a dead lane, at any capacities and although no handler ever ran. */
  lemma DeadLaneAfterRestart(caps: PerLane<nat>, lane: Lane)
    requires Positive(caps)
    ensures exists s :: Reachable(caps, s) && s.shared.active && s.shared.accepting && s.stopper.NotStopping?
                        && s.workers.At(lane).Absent? && s.kinds == map[] && s.starts == 2
  {
    hide Leads;
    LanesInTurn();
    Restarted(caps, lane);
    var t := Unused(EMPTY, IDLE.With(lane, Absent), NotStopping, 2, true, true);
    ReachableNext(caps, Unused(EMPTY.With(lane, [Token]), IDLE, NotStopping, 2, true, true), DoTake(lane), t);
    assert t.workers.At(lane).Absent?;
  }

  /** The step is a worker dying of an exception that its handlers did not catch. */
  predicate Crash(step: Step) { step.DoComplete? && !step.survives }

  /** No worker crashes, and no stop() has come to send its tokens yet. */
  ghost predicate Undisturbed(steps: seq<Step>) {
    forall i :: 0 <= i < |steps| ==> !Crash(steps[i]) && !steps[i].DoPutToken?
  }

  /** The lane has its worker throughout every undisturbed continuation. */
  ghost predicate KeepsWorker(caps: PerLane<nat>, s: State, lane: Lane) {
    forall steps :: Undisturbed(steps) && Run(caps, s, steps).Some? ==>
      !Run(caps, s, steps).value.workers.At(lane).Absent?
  }

  // ---------------------------------------------------------------- no token: the worker stays

  ghost predicate SafeLane(s: State, lane: Lane) {
    && s.shared.active && !s.workers.At(lane).Absent? && Token !in s.shared.queues.At(lane)
    && !s.stopper.Joining? && !s.stopper.TokenOverflow? && s.stopper != Draining(true)
    && (s.stopper.SendingTokens? ==> s.stopper.todo == LANES)
  }

  lemma PutKeepsSafe(caps: PerLane<nat>, s: State, step: Step, lane: Lane)
    requires PutEnabled(s, step) && SafeLane(s, lane)
    ensures SafeLane(PutNext(caps, s, step), lane)
  {
    hide PutNext, PutEnabled;
    PutQueues(caps, s, step, lane);
    PutLeavesActive(caps, s, step);
  }

  lemma PutLeavesActive(caps: PerLane<nat>, s: State, step: Step)
    requires PutEnabled(s, step)
    ensures PutNext(caps, s, step).shared.active == s.shared.active
  {
    hide HotLanes;
  }

  lemma WorkerKeepsSafe(caps: PerLane<nat>, s: State, step: Step, lane: Lane)
    requires WorkerEnabled(s, step) && SafeLane(s, lane) && !Crash(step)
    ensures SafeLane(WorkerNext(caps, s, step), lane)
  {
    hide WorkerNext, PerLane.With;
    WorkerQueues(caps, s, step, lane);
    WorkerLeavesControl(caps, s, step);
  }

  lemma SafeKept(caps: PerLane<nat>, s: State, step: Step, lane: Lane)
    requires SafeLane(s, lane) && Next(caps, s, step).Some? && !Crash(step) && !step.DoPutToken?
    ensures SafeLane(Next(caps, s, step).value, lane)
  {
    hide PutNext, PutEnabled, WorkerNext, WorkerEnabled;
    if PutEnabled(s, step) {
      PutKeepsSafe(caps, s, step, lane);
    } else if WorkerEnabled(s, step) {
      WorkerKeepsSafe(caps, s, step, lane);
    }
  }

  lemma {:induction false} RunKeepsSafe(caps: PerLane<nat>, s: State, steps: seq<Step>, lane: Lane)
    requires SafeLane(s, lane) && Undisturbed(steps) && Run(caps, s, steps).Some?
    ensures SafeLane(Run(caps, s, steps).value, lane)
  {
    hide SafeLane, Next;
    if steps != [] {
      var front := steps[..|steps| - 1];
      RunKeepsSafe(caps, s, front, lane);
      SafeKept(caps, Run(caps, s, front).value, steps[|steps| - 1], lane);
    }
  }

  // ---------------------------------------------------------------- a token: the worker can go

  ghost predicate LeadsCalmly(caps: PerLane<nat>, s: State, t: State) {
    exists steps :: Undisturbed(steps) && Run(caps, s, steps) == Some(t)
  }

  lemma CalmlyNowhere(caps: PerLane<nat>, s: State)
    ensures LeadsCalmly(caps, s, s)
  {
    assert Undisturbed([]) && Run(caps, s, []) == Some(s);
  }

  lemma CalmlyOn(caps: PerLane<nat>, s: State, t: State, step: Step, u: State)
    requires LeadsCalmly(caps, s, t) && Next(caps, t, step) == Some(u) && !Crash(step) && !step.DoPutToken?
    ensures LeadsCalmly(caps, s, u)
  {
    hide Next;
    var steps :| Undisturbed(steps) && Run(caps, s, steps) == Some(t);
    assert (steps + [step])[..|steps|] == steps;
    assert Undisturbed(steps + [step]) && Run(caps, s, steps + [step]) == Some(u);
  }

  /** The worker deals with the work at the head of its queue and comes back for the next item. */
  lemma HeadDone(caps: PerLane<nat>, s: State, t: State, lane: Lane) returns (u: State)
    requires LeadsCalmly(caps, s, t) && t.workers.At(lane).Idle? && t.stopper.NotStopping?
    requires t.shared.queues.At(lane) != [] && t.shared.queues.At(lane)[0].Work?
    ensures LeadsCalmly(caps, s, u) && u.workers.At(lane).Idle? && u.stopper.NotStopping?
    ensures u.shared.queues.At(lane) == t.shared.queues.At(lane)[1..]
  {
    hide LeadsCalmly, HandedOff, Enqueued, HasRoom;
    var taken := Take(t, lane);
    CalmlyOn(caps, s, t, DoTake(lane), taken);
    var finished := Finish(taken, lane);
    CalmlyOn(caps, s, taken, DoFinish(lane), finished);
    var handed := HandoffDone(caps, s, finished, lane);
    u := Complete(handed, lane, true);
    CalmlyOn(caps, s, handed, DoComplete(lane, true), u);
  }

  lemma HandoffDone(caps: PerLane<nat>, s: State, t: State, lane: Lane) returns (u: State)
    requires LeadsCalmly(caps, s, t) && t.workers.At(lane).Leaving? && t.stopper.NotStopping?
    ensures LeadsCalmly(caps, s, u) && u.workers.At(lane).Completing? && u.stopper.NotStopping?
    ensures u.shared.queues.At(lane) == t.shared.queues.At(lane)
  {
    hide LeadsCalmly;
    if lane == Cold {
      u := t.(workers := t.workers.With(Cold, Completing(t.workers.cold.id)));
      CalmlyOn(caps, s, t, DoSkipHandoff, u);
    } else {
      u := Handoff(t, lane);
      CalmlyOn(caps, s, t, DoHandoff(lane), u);
      if u.workers.At(lane).EnqueuingCold? {
        var w := u;
        u := EnqueueCold(caps, w, lane);
        CalmlyOn(caps, s, w, DoEnqueueCold(lane), u);
      }
    }
  }

  /** Wherever the worker is, it comes back for the next item. */
  lemma BackToIdle(caps: PerLane<nat>, s: State, t: State, lane: Lane) returns (u: State)
    requires LeadsCalmly(caps, s, t) && !t.workers.At(lane).Absent? && t.stopper.NotStopping? && t.shared.active
    requires Token in t.shared.queues.At(lane)
    ensures LeadsCalmly(caps, s, u) && u.workers.At(lane).Idle? && u.stopper.NotStopping?
    ensures Token in u.shared.queues.At(lane)
  {
    hide LeadsCalmly, HandedOff, Enqueued, HasRoom;
    u := t;
    if u.workers.At(lane).TimedOut? {
      u := t.(workers := t.workers.With(lane, Idle));
      CalmlyOn(caps, s, t, DoRecheck(lane), u);
    } else if u.workers.At(lane).Running? {
      u := Finish(t, lane);
      CalmlyOn(caps, s, t, DoFinish(lane), u);
    } else if u.workers.At(lane).EnqueuingCold? {
      u := ColdDone(caps, s, t, lane);
    }
    if u.workers.At(lane).Leaving? { u := HandoffDone(caps, s, u, lane); }
    if u.workers.At(lane).Completing? {
      var done := u;
      u := Complete(done, lane, true);
      CalmlyOn(caps, s, done, DoComplete(lane, true), u);
    }
  }

  lemma ColdDone(caps: PerLane<nat>, s: State, t: State, lane: Lane) returns (u: State)
    requires LeadsCalmly(caps, s, t) && t.workers.At(lane).EnqueuingCold? && t.stopper.NotStopping?
    requires Token in t.shared.queues.At(lane)
    ensures LeadsCalmly(caps, s, u) && u.workers.At(lane).Completing? && u.stopper.NotStopping?
    ensures Token in u.shared.queues.At(lane)
  {
    hide LeadsCalmly, WorkerNext;
    u := WorkerNext(caps, t, DoEnqueueCold(lane));
    CalmlyOn(caps, s, t, DoEnqueueCold(lane), u);
    WorkerQueues(caps, t, DoEnqueueCold(lane), lane);
    WorkerLeavesControl(caps, t, DoEnqueueCold(lane));
  }

  lemma {:induction false} TokenTakesWorker(caps: PerLane<nat>, s: State, t: State, lane: Lane) returns (u: State)
    requires LeadsCalmly(caps, s, t) && t.workers.At(lane).Idle? && t.stopper.NotStopping?
    requires Token in t.shared.queues.At(lane)
    ensures LeadsCalmly(caps, s, u) && u.workers.At(lane).Absent?
    decreases |t.shared.queues.At(lane)|
  {
    hide LeadsCalmly, PerLane.With;
    var q := t.shared.queues.At(lane);
    if q[0].Token? {
      u := Take(t, lane);
      WithAt(t.workers, lane, Absent, lane);
      CalmlyOn(caps, s, t, DoTake(lane), u);
    } else {
      var next := HeadDone(caps, s, t, lane);
      assert q == [q[0]] + q[1..];
      u := TokenTakesWorker(caps, s, next, lane);
    }
  }

  /** When a started lane keeps its worker, exactly: after start() no undisturbed continuation loses
      the lane's worker if and only if no stop token is left in the lane's queue. */
  lemma StartKeepsWorkerIff(caps: PerLane<nat>, s: State, lane: Lane)
    requires ControlEnabled(s, DoStart)
    ensures KeepsWorker(caps, Start(s), lane) <==> Token !in s.shared.queues.At(lane)
  {
    hide Run;
    var t := Start(s);
    if Token in s.shared.queues.At(lane) {
      CalmlyNowhere(caps, t);
      var idle := BackToIdle(caps, t, t, lane);
      var u := TokenTakesWorker(caps, t, idle, lane);
      var steps :| Undisturbed(steps) && Run(caps, t, steps) == Some(u);
    } else {
      forall steps | Undisturbed(steps) && Run(caps, t, steps).Some?
        ensures !Run(caps, t, steps).value.workers.At(lane).Absent?
      {
        RunKeepsSafe(caps, t, steps, lane);
      }
    }
  }

  /** The first start() of an engine is always such a start. */
  lemma FirstStartKeepsWorker(caps: PerLane<nat>, steps: seq<Step>, lane: Lane)
    requires Positive(caps) && Run(caps, INITIAL, steps).Some?
    requires var s := Run(caps, INITIAL, steps).value; s.starts == 0 && ControlEnabled(s, DoStart)
    ensures KeepsWorker(caps, Start(Run(caps, INITIAL, steps).value), lane)
  {
    hide Run, KeepsWorker, Start;
    RunTokens(caps, steps);
    var s := Run(caps, INITIAL, steps).value;
    assert TokenRule(s, lane);
    CountsTokens(s.shared.queues.At(lane));
    StartKeepsWorkerIff(caps, s, lane);
  }

  lemma CountsTokens(q: seq<Item>)
    ensures Token in q <==> Count(q, Token) > 0
  {
  }
}
