/** The lane queues over whole runs: they never exceed their capacity, and every lane gets its items
    in the order in which they were put in, none lost and none twice. */
module EventEngineQueues {
  import opened Options
  import opened EventEngine
  import opened EventEngineTheorems

  // ---------------------------------------------------------------- what a step moves

  /** What a step puts into the lane's queue: its item if there is a free slot, and nothing otherwise. */
  ghost function PutIn(caps: PerLane<nat>, s: State, step: Step, lane: Lane): seq<Item> {
    if |s.shared.queues.At(lane)| >= caps.At(lane) then []
    else
      match step
      case DoPutEnqueue(id) =>
        if id in s.puts && s.puts[id].todo != [] && s.puts[id].todo[0] == lane then [Work(id)] else []
      case DoPutEnqueueCold(id) => if lane == Cold then [Work(id)] else []
      case DoEnqueueCold(from) =>
        if lane == Cold && s.workers.At(from).EnqueuingCold? then [Work(s.workers.At(from).id)] else []
      case DoPutToken =>
        if s.stopper.SendingTokens? && s.stopper.todo != [] && s.stopper.todo[0] == lane
           && !s.workers.At(lane).Absent? then [Token] else []
      case _ => []
  }

  /** What the lane's worker, or the drain in its place, is left with after a step that leads to `t`. */
  ghost function TakenOut(t: State, step: Step, lane: Lane): seq<Item> {
    match step
    case DoTake(l) => if l == lane then [InHand(t.workers.At(lane))] else []
    case DoDrainTake(l) => if l == lane then [InHand(t.workers.At(lane))] else []
    case DoDrainRaises(l) => if l == lane then [Token] else []
    case _ => []
  }

  /** A worker that runs has a dispatch in hand; one that is gone has taken a stop token. */
  ghost function InHand(p: Phase): Item { if p.Running? then Work(p.id) else Token }

  ghost predicate InStep(caps: PerLane<nat>, s: State, step: Step, t: State, lane: Lane) {
    s.shared.queues.At(lane) + PutIn(caps, s, step, lane) == TakenOut(t, step, lane) + t.shared.queues.At(lane)
  }

  lemma PutInStep(caps: PerLane<nat>, s: State, step: Step, lane: Lane)
    requires PutEnabled(s, step)
    ensures InStep(caps, s, step, PutNext(caps, s, step), lane)
  {
    hide HotLanes;
    match step
    case DoPutEnqueueCold(id) => AttemptAdds(caps, s, id, lane);
    case _ =>
  }

  lemma AttemptAdds(caps: PerLane<nat>, s: State, id: nat, lane: Lane)
    ensures ColdAttempt(caps, s, id).shared.queues.At(lane)
            == s.shared.queues.At(lane)
               + if lane == Cold && |s.shared.queues.cold| < caps.cold then [Work(id)] else []
  {
  }

  lemma WorkerInStep(caps: PerLane<nat>, s: State, step: Step, lane: Lane)
    requires WorkerEnabled(s, step)
    ensures InStep(caps, s, step, WorkerNext(caps, s, step), lane)
  {
    hide HandedOff, Take, ColdAttempt;
    match step
    case DoTake(from) => TakeGivesHead(s, from, lane);
    case DoDrainTake(from) => TakeGivesHead(s, from, lane);
    case DoHandoff(from) => HandoffKeepsQueues(s.shared, s.workers.At(from).id);
    case DoEnqueueCold(from) => AttemptAdds(caps, s, s.workers.At(from).id, lane);
    case _ =>
  }

  lemma HandoffKeepsQueues(s: Shared, id: nat)
    ensures HandedOff(s, id).0.queues == s.queues
  {
  }

  lemma TakeGivesHead(s: State, from: Lane, lane: Lane)
    requires s.shared.queues.At(from) != []
    ensures var t := Take(s, from);
            s.shared.queues.At(lane)
            == (if lane == from then [InHand(t.workers.At(lane))] else []) + t.shared.queues.At(lane)
  {
    var q := s.shared.queues.At(from);
    assert q == [q[0]] + q[1..];
  }

  lemma ControlInStep(caps: PerLane<nat>, s: State, step: Step, lane: Lane)
    requires ControlEnabled(s, step)
    ensures InStep(caps, s, step, ControlNext(caps, s, step), lane)
  {
    hide PerLane.With;
    match step
    case DoDrainRaises(from) => DrainGivesHead(s, from, lane);
    case DoPutToken => TokenAdded(caps, s, lane);
    case _ =>
  }

  lemma DrainGivesHead(s: State, from: Lane, lane: Lane)
    requires s.shared.queues.At(from) != []
    ensures s.shared.queues.At(lane)
            == (if lane == from then [s.shared.queues.At(from)[0]] else []) + Dequeued(s.shared, from).queues.At(lane)
  {
    var q := s.shared.queues.At(from);
    assert q == [q[0]] + q[1..];
  }

  lemma TokenAdded(caps: PerLane<nat>, s: State, lane: Lane)
    requires s.stopper.SendingTokens? && s.stopper.todo != []
    ensures PutToken(caps, s).shared.queues.At(lane) == s.shared.queues.At(lane) + PutIn(caps, s, DoPutToken, lane)
  {
    hide PerLane.With, PerLane.At;
    var to := s.stopper.todo[0];
    WithAt(s.shared.queues, to, s.shared.queues.At(to) + [Token], lane);
  }

  lemma StepInOrder(caps: PerLane<nat>, s: State, step: Step, lane: Lane)
    requires Next(caps, s, step).Some?
    ensures InStep(caps, s, step, Next(caps, s, step).value, lane)
  {
    hide PutEnabled, PutNext, WorkerEnabled, WorkerNext, ControlEnabled, ControlNext, InStep;
    if PutEnabled(s, step) {
      PutInStep(caps, s, step, lane);
    } else if WorkerEnabled(s, step) {
      WorkerInStep(caps, s, step, lane);
    } else {
      ControlInStep(caps, s, step, lane);
    }
  }

  // ---------------------------------------------------------------- over whole runs

  /** Everything put into the lane's queue along a run from the initial state, in order. */
  ghost function AllPut(caps: PerLane<nat>, steps: seq<Step>, lane: Lane): seq<Item>
    requires Run(caps, INITIAL, steps).Some?
  {
    if steps == [] then []
    else
      var front := steps[..|steps| - 1];
      AllPut(caps, front, lane) + PutIn(caps, Run(caps, INITIAL, front).value, steps[|steps| - 1], lane)
  }

  /** Everything the lane has taken out of it, in order. */
  ghost function AllTaken(caps: PerLane<nat>, steps: seq<Step>, lane: Lane): seq<Item>
    requires Run(caps, INITIAL, steps).Some?
  {
    if steps == [] then []
    else
      AllTaken(caps, steps[..|steps| - 1], lane)
      + TakenOut(Run(caps, INITIAL, steps).value, steps[|steps| - 1], lane)
  }

  lemma Joined(taken: seq<Item>, q: seq<Item>, put: seq<Item>, out: seq<Item>, q': seq<Item>)
    requires q + put == out + q'
    ensures (taken + q) + put == (taken + out) + q'
  {
    assert (taken + q) + put == taken + (q + put);
    assert (taken + out) + q' == taken + (out + q');
  }

  /** First in, first out: what was put in is what was taken out followed by what is still queued. */
  lemma {:induction false} FirstInFirstOut(caps: PerLane<nat>, steps: seq<Step>, lane: Lane)
    requires Run(caps, INITIAL, steps).Some?
    ensures AllPut(caps, steps, lane)
            == AllTaken(caps, steps, lane) + Run(caps, INITIAL, steps).value.shared.queues.At(lane)
  {
    hide Next, PutIn, TakenOut;
    if steps != [] {
      var front, step := steps[..|steps| - 1], steps[|steps| - 1];
      FirstInFirstOut(caps, front, lane);
      var s, t := Run(caps, INITIAL, front).value, Run(caps, INITIAL, steps).value;
      StepInOrder(caps, s, step, lane);
      Joined(AllTaken(caps, front, lane), s.shared.queues.At(lane), PutIn(caps, s, step, lane),
             TakenOut(t, step, lane), t.shared.queues.At(lane));
    }
  }

  lemma AtMostOne(caps: PerLane<nat>, s: State, step: Step, lane: Lane)
    ensures |PutIn(caps, s, step, lane)| <= if |s.shared.queues.At(lane)| < caps.At(lane) then 1 else 0
  {
  }

  /** No queue ever holds more than its capacity. */
  lemma {:induction false} QueuesFit(caps: PerLane<nat>, steps: seq<Step>, lane: Lane)
    requires Run(caps, INITIAL, steps).Some?
    ensures |Run(caps, INITIAL, steps).value.shared.queues.At(lane)| <= caps.At(lane)
  {
    hide Next, PutIn, TakenOut;
    if steps != [] {
      var front, step := steps[..|steps| - 1], steps[|steps| - 1];
      var s, t := Run(caps, INITIAL, front).value, Run(caps, INITIAL, steps).value;
      QueuesFit(caps, front, lane);
      StepInOrder(caps, s, step, lane);
      AtMostOne(caps, s, step, lane);
      var before, put := s.shared.queues.At(lane), PutIn(caps, s, step, lane);
      assert |before + put| == |TakenOut(t, step, lane) + t.shared.queues.At(lane)|;
    }
  }
}
