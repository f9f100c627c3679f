/** The drain barrier of stop(): what a zero pending-work count means. */
module EventEngineDrain {
  import opened Options
  import opened EventEngine
  import opened EventEngineTheorems

  // ---------------------------------------------------------------- the pending-work count

  function WorkIn(q: seq<Item>): nat {
    if q == [] then 0 else (if q[0].Work? then 1 else 0) + WorkIn(q[1..])
  }

  predicate InFlight(p: Phase) { p.Running? || p.Leaving? || p.EnqueuingCold? || p.Completing? }

  function Load(q: seq<Item>, p: Phase): int { WorkIn(q) + One(InFlight(p)) }

  ghost function LoadAt(s: State, lane: Lane): int { Load(s.shared.queues.At(lane), s.workers.At(lane)) }

  /** _pending_work is the number of queued dispatches plus the dispatches in flight. */
  ghost predicate Counted(s: State) {
    s.shared.pendingWork == LoadAt(s, Market) + LoadAt(s, Execution) + LoadAt(s, Cold)
  }

  lemma {:induction false} WorkInAppend(q: seq<Item>, x: Item)
    ensures WorkIn(q + [x]) == WorkIn(q) + One(x.Work?)
  {
    if q == [] {
      assert q + [x] == [x];
    } else {
      assert (q + [x])[1..] == q[1..] + [x];
      WorkInAppend(q[1..], x);
    }
  }

  lemma {:induction false} WorkInZero(q: seq<Item>)
    ensures WorkIn(q) == 0 <==> forall i :: 0 <= i < |q| ==> q[i] == Token
  {
    if q != [] {
      WorkInZero(q[1..]);
      assert forall i :: 0 < i < |q| ==> q[i] == q[1..][i - 1];
      assert forall i :: 0 <= i < |q[1..]| ==> q[1..][i] == q[i + 1];
    }
  }

  /** A change confined to one lane moves the total by that lane's change. */
  lemma OneLaneLoad(s: State, t: State, lane: Lane)
    requires forall m :: m != lane ==> LoadAt(t, m) == LoadAt(s, m)
    ensures LoadAt(t, Market) + LoadAt(t, Execution) + LoadAt(t, Cold)
            == LoadAt(s, Market) + LoadAt(s, Execution) + LoadAt(s, Cold) + LoadAt(t, lane) - LoadAt(s, lane)
  {
    hide LoadAt;
    match lane case Market => case Execution => case Cold =>
  }

  lemma LaneSetLoad(s: State, t: State, lane: Lane, q: seq<Item>, p: Phase)
    requires t.shared.queues == s.shared.queues.With(lane, q) && t.workers == s.workers.With(lane, p)
    ensures forall m :: LoadAt(t, m) == if m == lane then Load(q, p) else LoadAt(s, m)
  {
    hide Load, PerLane.With, PerLane.At;
    forall m ensures LoadAt(t, m) == if m == lane then Load(q, p) else LoadAt(s, m) {
      WithAt(s.shared.queues, lane, q, m);
      WithAt(s.workers, lane, p, m);
    }
  }

  lemma WithSame<T>(a: PerLane<T>, lane: Lane)
    ensures a.With(lane, a.At(lane)) == a
  {
  }

  /** The one counting argument: a step that replaces one lane's queue and phase and moves the
      counter by the same amount keeps the count. */
  lemma CountMoves(s: State, t: State, lane: Lane, q: seq<Item>, p: Phase)
    requires Counted(s)
    requires t.shared.queues == s.shared.queues.With(lane, q) && t.workers == s.workers.With(lane, p)
    requires t.shared.pendingWork - s.shared.pendingWork == Load(q, p) - LoadAt(s, lane)
    ensures Counted(t)
  {
    hide LoadAt, Load;
    LaneSetLoad(s, t, lane, q, p);
    OneLaneLoad(s, t, lane);
  }

  lemma EnqueueCounts(caps: PerLane<nat>, s: State, lane: Lane, id: nat, p: Phase)
    ensures var r := Enqueued(caps, s.shared, lane, id);
            && r.queues == s.shared.queues.With(lane, r.queues.At(lane))
            && r.pendingWork - s.shared.pendingWork == Load(r.queues.At(lane), p) - Load(s.shared.queues.At(lane), p)
  {
    WorkInAppend(s.shared.queues.At(lane), Work(id));
  }

  lemma PutCounts(caps: PerLane<nat>, s: State, step: Step)
    requires Counted(s) && PutEnabled(s, step)
    ensures Counted(PutNext(caps, s, step))
  {
    hide Load;
    match step
    case DoPutEnqueue(id) =>
      var lane := s.puts[id].todo[0];
      EnqueueCounts(caps, s, lane, id, s.workers.At(lane));
      WithSame(s.workers, lane);
      WithSame(s.shared.queues, lane);
      var t := PutNext(caps, s, step);
      CountMoves(s, t, lane, t.shared.queues.At(lane), s.workers.At(lane));
    case DoPutEnqueueCold(id) =>
      EnqueueCounts(caps, s, Cold, id, s.workers.cold);
      var t := PutNext(caps, s, step);
      CountMoves(s, t, Cold, t.shared.queues.cold, s.workers.cold);
    case _ =>
  }

  lemma WorkerCounts(caps: PerLane<nat>, s: State, step: Step)
    requires Counted(s) && WorkerEnabled(s, step)
    ensures Counted(WorkerNext(caps, s, step))
  {
    hide PerLane.With;
    var lane := ActorLane(step);
    var t := WorkerNext(caps, s, step);
    if step.DoEnqueueCold? {
      EnqueueColdCounts(caps, s, lane);
    } else {
      WithSame(s.shared.queues, lane);
      CountMoves(s, t, lane, MovedQueue(s, step), MovedPhase(s, step));
    }
  }

  function ActorLane(step: Step): Lane {
    match step
    case DoTake(lane) => lane
    case DoDrainTake(lane) => lane
    case DoTimeOut(lane) => lane
    case DoRecheck(lane) => lane
    case DoFinish(lane) => lane
    case DoHandoff(lane) => lane
    case DoEnqueueCold(lane) => lane
    case DoComplete(lane, _) => lane
    case _ => Cold
  }

  ghost function MovedQueue(s: State, step: Step): seq<Item>
    requires WorkerEnabled(s, step)
  {
    var q := s.shared.queues.At(ActorLane(step));
    if step.DoTake? || step.DoDrainTake? then q[1..] else q
  }

  ghost function MovedPhase(s: State, step: Step): Phase
    requires WorkerEnabled(s, step)
  {
    match step
    case DoTake(lane) => TakenPhase(s, lane)
    case DoDrainTake(lane) => TakenPhase(s, lane)
    case DoTimeOut(_) => TimedOut
    case DoRecheck(_) => if s.shared.active then Idle else Absent
    case DoFinish(lane) => Leaving(s.workers.At(lane).id)
    case DoHandoff(lane) =>
      var id := s.workers.At(lane).id;
      if HandedOff(s.shared, id).1 then EnqueuingCold(id) else Completing(id)
    case DoSkipHandoff => Completing(s.workers.cold.id)
    case DoEnqueueCold(lane) => Completing(s.workers.At(lane).id)
    case DoComplete(_, survives) => if survives then Idle else Absent
  }

  ghost function TakenPhase(s: State, lane: Lane): Phase
    requires s.shared.queues.At(lane) != []
  {
    var head := s.shared.queues.At(lane)[0];
    if head.Work? then Running(head.id) else Absent
  }

  lemma EnqueueColdCounts(caps: PerLane<nat>, s: State, lane: Lane)
    requires Counted(s) && s.workers.At(lane).EnqueuingCold?
    ensures Counted(EnqueueCold(caps, s, lane))
  {
    hide PerLane.With, LoadAt;
    var id := s.workers.At(lane).id;
    var mid := ColdAttempt(caps, s, id);
    EnqueueCounts(caps, s, Cold, id, s.workers.cold);
    WithSame(s.workers, Cold);
    LoadUnfold(s, Cold);
    CountMoves(s, mid, Cold, mid.shared.queues.cold, s.workers.cold);
    WithSame(mid.shared.queues, lane);
    LoadUnfold(mid, lane);
    CountMoves(mid, EnqueueCold(caps, s, lane), lane, mid.shared.queues.At(lane), Completing(id));
  }

  lemma LoadUnfold(s: State, lane: Lane)
    ensures LoadAt(s, lane) == Load(s.shared.queues.At(lane), s.workers.At(lane))
  {
  }

  lemma ControlCounts(caps: PerLane<nat>, s: State, step: Step)
    requires Counted(s) && ControlEnabled(s, step)
    ensures Counted(ControlNext(caps, s, step))
  {
    match step
    case DoPutToken => TokenCounts(caps, s);
    case DoDrainRaises(lane) => DrainRaisesCounts(caps, s, lane);
    case _ =>
  }

  lemma TokenCounts(caps: PerLane<nat>, s: State)
    requires Counted(s) && s.stopper.SendingTokens? && s.stopper.todo != []
    ensures Counted(PutToken(caps, s))
  {
    hide PerLane.With, LoadAt;
    var lane := s.stopper.todo[0];
    var t := PutToken(caps, s);
    WorkInAppend(s.shared.queues.At(lane), Token);
    WithSame(s.workers, lane);
    WithSame(s.shared.queues, lane);
    LoadUnfold(s, lane);
    WithAt(s.shared.queues, lane, s.shared.queues.At(lane) + [Token], lane);
    CountMoves(s, t, lane, t.shared.queues.At(lane), s.workers.At(lane));
  }

  lemma DrainRaisesCounts(caps: PerLane<nat>, s: State, lane: Lane)
    requires Counted(s) && ControlEnabled(s, DoDrainRaises(lane))
    ensures Counted(ControlNext(caps, s, DoDrainRaises(lane)))
  {
    hide PerLane.With, LoadAt;
    var q := s.shared.queues.At(lane);
    WithSame(s.workers, lane);
    LoadUnfold(s, lane);
    CountMoves(s, ControlNext(caps, s, DoDrainRaises(lane)), lane, q[1..], s.workers.At(lane));
  }

  lemma CountedKept(caps: PerLane<nat>, s: State, step: Step)
    requires Counted(s) && Next(caps, s, step).Some?
    ensures Counted(Next(caps, s, step).value)
  {
    hide Counted, PutEnabled, WorkerEnabled, ControlEnabled, PutNext, WorkerNext, ControlNext;
    if PutEnabled(s, step) {
      PutCounts(caps, s, step);
    } else if WorkerEnabled(s, step) {
      WorkerCounts(caps, s, step);
    } else {
      ControlCounts(caps, s, step);
    }
  }

  // ---------------------------------------------------------------- sealing, the stopper and its tokens

  /** After the seal no put is in progress; tokens are sent only in a drained, sealed engine. */
  ghost predicate Sealed(s: State) {
    && (!s.shared.accepting ==> s.puts == map[])
    && (!s.stopper.NotStopping? ==> !s.shared.accepting)
    && (s.stopper.SendingTokens? || s.stopper.Joining? || s.stopper.TokenOverflow? ==> s.shared.pendingWork == 0)
  }

  /** All of it: what holds in every reachable state. */
  ghost predicate Inv(s: State) { Books(s) && Counted(s) && Sealed(s) }

  /** Sealed with a zero count: nothing is queued or in flight on any lane. */
  ghost predicate LaneQuiet(s: State, lane: Lane) {
    && !InFlight(s.workers.At(lane))
    && forall i :: 0 <= i < |s.shared.queues.At(lane)| ==> s.shared.queues.At(lane)[i] == Token
  }

  lemma ZeroCountIsQuiet(s: State, lane: Lane)
    requires Counted(s) && s.shared.pendingWork == 0
    ensures LaneQuiet(s, lane)
  {
    WorkInZero(s.shared.queues.At(lane));
  }

  lemma DrainedPut(caps: PerLane<nat>, s: State, step: Step)
    requires Sealed(s) && !s.shared.accepting
    ensures !PutEnabled(s, step)
  {
  }

  lemma DrainedWorker(caps: PerLane<nat>, s: State, step: Step)
    requires Counted(s) && s.shared.pendingWork == 0 && WorkerEnabled(s, step)
    ensures WorkerNext(caps, s, step).shared.pendingWork == 0
  {
    hide Counted, PerLane.With;
    ZeroCountIsQuiet(s, ActorLane(step));
  }

  lemma WorkerLeavesControl(caps: PerLane<nat>, s: State, step: Step)
    requires WorkerEnabled(s, step)
    ensures var t := WorkerNext(caps, s, step);
            && t.shared.accepting == s.shared.accepting && t.shared.active == s.shared.active
            && t.puts == s.puts && t.stopper == s.stopper && t.starts == s.starts
  {
    hide PerLane.With, PerLane.At;
  }

  lemma SealedKept(caps: PerLane<nat>, s: State, step: Step)
    requires Counted(s) && Sealed(s) && Next(caps, s, step).Some?
    ensures Sealed(Next(caps, s, step).value)
  {
    hide Counted, WorkerNext, WorkerEnabled, PerLane.With, PerLane.At, HandedOff, Enqueued, HotLanes;
    if WorkerEnabled(s, step) {
      WorkerLeavesControl(caps, s, step);
      WorkerNotPut(s, step);
      if s.shared.pendingWork == 0 { DrainedWorker(caps, s, step); }
    } else {
      PutLeavesControl(caps, s, step);
    }
  }

  lemma WorkerNotPut(s: State, step: Step)
    ensures WorkerEnabled(s, step) ==> !PutEnabled(s, step)
  {
  }

  lemma PutLeavesControl(caps: PerLane<nat>, s: State, step: Step)
    ensures PutEnabled(s, step) ==>
              var t := PutNext(caps, s, step);
              t.shared.accepting == s.shared.accepting && t.stopper == s.stopper
  {
    hide PerLane.With, PerLane.At, HandedOff, HotLanes;
    if PutEnabled(s, step) {
      match step
      case DoPutHandoff(id) => HandoffKeepsFlags(s.shared, id);
      case _ =>
    }
  }

  lemma HandoffKeepsFlags(s: Shared, id: nat)
    ensures HandedOff(s, id).0.accepting == s.accepting
  {
  }

  lemma InvKept(caps: PerLane<nat>, s: State, step: Step)
    requires Inv(s) && Next(caps, s, step).Some?
    ensures Inv(Next(caps, s, step).value)
  {
    hide Books, Counted, Sealed, Next;
    BooksKept(caps, s, step);
    CountedKept(caps, s, step);
    SealedKept(caps, s, step);
  }

  lemma {:induction false} RunKeepsInv(caps: PerLane<nat>, s: State, steps: seq<Step>)
    requires Inv(s) && Run(caps, s, steps).Some?
    ensures Inv(Run(caps, s, steps).value)
  {
    hide Inv, Next;
    if steps != [] {
      RunKeepsInv(caps, s, steps[..|steps| - 1]);
      InvKept(caps, Run(caps, s, steps[..|steps| - 1]).value, steps[|steps| - 1]);
    }
  }

  lemma ReachableInv(caps: PerLane<nat>, steps: seq<Step>)
    requires Run(caps, INITIAL, steps).Some?
    ensures Inv(Run(caps, INITIAL, steps).value)
  {
    hide Books, Run;
    InitialBooks();
    RunKeepsInv(caps, INITIAL, steps);
  }

  // ---------------------------------------------------------------- the barrier

  /** _pending_work always equals queued dispatches plus dispatches in flight. */
  lemma PendingWorkIsExact(caps: PerLane<nat>, steps: seq<Step>)
    requires Run(caps, INITIAL, steps).Some?
    ensures var s := Run(caps, INITIAL, steps).value;
            s.shared.pendingWork
            == WorkIn(s.shared.queues.market) + WorkIn(s.shared.queues.execution) + WorkIn(s.shared.queues.cold)
               + One(InFlight(s.workers.market)) + One(InFlight(s.workers.execution)) + One(InFlight(s.workers.cold))
  {
    hide Run, Books;
    ReachableInv(caps, steps);
  }

  /** The engine is quiescent: no dispatch is queued, in flight, pending for the cold lane or
      being put, and every dispatch ever begun has been settled on every one of its lanes. */
  ghost predicate Quiescent(s: State) {
    && LaneQuiet(s, Market) && LaneQuiet(s, Execution) && LaneQuiet(s, Cold)
    && s.puts == map[] && s.shared.pendingCold == map[]
    && forall id :: id in s.kinds ==> FullySettled(s, id, s.kinds[id])
  }

  ghost predicate FullySettled(s: State, id: nat, kind: Kind) {
    HotSettled(s, id, kind) && (kind.cold ==> s.attempts[id] == 1 && SettledOnce(s, id, Cold))
  }

  /** Nothing of the dispatch is on its way on this lane. */
  ghost predicate QuietLedger(l: Ledger) {
    l.todo == 0 && l.queued == 0 && !l.running && !l.leaving && !l.enqueuing && !l.refusing
  }

  lemma QuietLaneLedger(s: State, id: nat, lane: Lane)
    requires LaneQuiet(s, lane) && s.puts == map[]
    ensures QuietLedger(BookOf(s, id).lanes.At(lane)) && !BookOf(s, id).handing
  {
    assert Work(id) !in s.shared.queues.At(lane);
  }

  /** Balanced books with nothing on its way: every delivery is settled and no handoff is pending. */
  lemma QuietBalanced(b: Book)
    requires b.Balanced() && !b.handing
    requires QuietLedger(b.lanes.market) && QuietLedger(b.lanes.execution) && QuietLedger(b.lanes.cold)
    ensures b.pending.None? && b.attempts == One(b.kind.cold)
    ensures b.lanes.market.finished + b.lanes.market.refused == One(b.kind.market)
    ensures b.lanes.execution.finished + b.lanes.execution.refused == One(b.kind.execution)
    ensures b.lanes.cold.finished + b.lanes.cold.refused == b.attempts
  {
  }

  /** The book's totals are the state's. */
  lemma BookTotals(s: State, id: nat)
    ensures var b := BookOf(s, id);
            && (id in s.shared.pendingCold <==> b.pending.Some?) && b.attempts == s.attempts[id]
            && (id in s.kinds ==> b.kind == s.kinds[id])
            && b.lanes.market.finished == s.finished.market[id] && b.lanes.market.refused == s.refused.market[id]
            && b.lanes.execution.finished == s.finished.execution[id]
            && b.lanes.execution.refused == s.refused.execution[id]
            && b.lanes.cold.finished == s.finished.cold[id] && b.lanes.cold.refused == s.refused.cold[id]
  {
  }

  lemma QuietBook(s: State, id: nat)
    requires Books(s) && LaneQuiet(s, Market) && LaneQuiet(s, Execution) && LaneQuiet(s, Cold) && s.puts == map[]
    ensures id !in s.shared.pendingCold
    ensures id in s.kinds ==> FullySettled(s, id, s.kinds[id])
  {
    hide LaneQuiet, BookOf, Book.Balanced;
    QuietLaneLedger(s, id, Market);
    QuietLaneLedger(s, id, Execution);
    QuietLaneLedger(s, id, Cold);
    QuietBalanced(BookOf(s, id));
    BookTotals(s, id);
  }

  lemma BarrierState(s: State)
    requires Inv(s) && !s.shared.accepting && s.shared.pendingWork == 0
    ensures Quiescent(s)
  {
    hide LaneQuiet, Books, Counted;
    ZeroCountIsQuiet(s, Market);
    ZeroCountIsQuiet(s, Execution);
    ZeroCountIsQuiet(s, Cold);
    forall id: nat ensures id !in s.shared.pendingCold && (id in s.kinds ==> FullySettled(s, id, s.kinds[id])) {
      QuietBook(s, id);
    }
    assert s.shared.pendingCold == map[];
  }

  lemma {:induction false} ZeroStays(caps: PerLane<nat>, s: State, steps: seq<Step>)
    requires Inv(s) && !s.shared.accepting && s.shared.pendingWork == 0
    requires Run(caps, s, steps).Some? && DoStart !in steps
    ensures var t := Run(caps, s, steps).value;
            Inv(t) && !t.shared.accepting && t.shared.pendingWork == 0
  {
    hide Inv, Next;
    if steps != [] {
      var front, last := steps[..|steps| - 1], steps[|steps| - 1];
      ZeroStays(caps, s, front);
      var mid := Run(caps, s, front).value;
      InvKept(caps, mid, last);
      ZeroStep(caps, mid, last);
    }
  }

  lemma ZeroStep(caps: PerLane<nat>, s: State, step: Step)
    requires Inv(s) && !s.shared.accepting && s.shared.pendingWork == 0
    requires Next(caps, s, step).Some? && step != DoStart
    ensures !Next(caps, s, step).value.shared.accepting && Next(caps, s, step).value.shared.pendingWork == 0
  {
    hide Books, Counted, PutEnabled, WorkerEnabled, WorkerNext, PutNext, PerLane.With, PerLane.At;
    DrainedPut(caps, s, step);
    if WorkerEnabled(s, step) {
      DrainedWorker(caps, s, step);
      WorkerLeavesControl(caps, s, step);
    }
  }

  /** Drain barrier: once admission is sealed and the count reads zero the engine is quiescent,
      and it stays so in every continuation until start() is called again. */
  lemma DrainBarrier(caps: PerLane<nat>, before: seq<Step>, after: seq<Step>)
    requires Run(caps, INITIAL, before).Some? && Run(caps, Run(caps, INITIAL, before).value, after).Some?
    requires var s := Run(caps, INITIAL, before).value; !s.shared.accepting && s.shared.pendingWork == 0
    requires DoStart !in after
    ensures Quiescent(Run(caps, Run(caps, INITIAL, before).value, after).value)
  {
    hide Run, Inv, Quiescent;
    ReachableInv(caps, before);
    var s := Run(caps, INITIAL, before).value;
    ZeroStays(caps, s, after);
    BarrierState(Run(caps, s, after).value);
  }
}
