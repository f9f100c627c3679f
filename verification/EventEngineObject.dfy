/** The engine object: its critical sections, and the drain that stop() performs itself when no
    worker thread is alive. */
module EventEngineObject {
  import opened Options
  import opened EventEngine
  import opened EventEngineTheorems
  import opened EventEngineDrain

  // ---------------------------------------------------------------- one drained dispatch

  /** process_existing_events() between two dispatches: sealed, no thread, this thread drains. */
  ghost predicate SelfDraining(s: State) {
    Inv(s) && NoWorker(s) && s.stopper == Draining(true)
  }

  /** The states one iteration passes through after taking the head of `lane`. */
  ghost function AfterFinish(s: State, lane: Lane): State
    requires s.shared.queues.At(lane) != [] && s.shared.queues.At(lane)[0].Work?
  {
    Finish(Take(s, lane), lane)
  }

  ghost function AfterHandoff(caps: PerLane<nat>, s: State, lane: Lane): State
    requires s.shared.queues.At(lane) != [] && s.shared.queues.At(lane)[0].Work?
  {
    var h := Handoff(AfterFinish(s, lane), lane);
    if h.workers.At(lane).EnqueuingCold? then EnqueueCold(caps, h, lane) else h
  }

  ghost function AfterDispatch(caps: PerLane<nat>, s: State, lane: Lane): State
    requires s.shared.queues.At(lane) != [] && s.shared.queues.At(lane)[0].Work?
  {
    Complete(AfterHandoff(caps, s, lane), lane, false)
  }

  /** What _handoff_to_cold and _mark_work_complete do to the fields. */
  function HandoffAll(caps: PerLane<nat>, s: Shared, id: nat): Shared {
    var (r, mine) := HandedOff(s, id);
    if mine then Enqueued(caps, r, Cold, id) else r
  }

  lemma DispatchFields(caps: PerLane<nat>, s: State, lane: Lane)
    requires s.shared.queues.At(lane) != [] && s.shared.queues.At(lane)[0].Work?
    ensures AfterDispatch(caps, s, lane).shared
            == Completed(HandoffAll(caps, Dequeued(s.shared, lane), s.shared.queues.At(lane)[0].id))
    ensures NoWorker(s) ==> NoWorker(AfterDispatch(caps, s, lane))
    ensures AfterDispatch(caps, s, lane).stopper == s.stopper
  {
  }

  ghost predicate HeadIsWork(s: State, lane: Lane) {
    s.shared.queues.At(lane) != [] && s.shared.queues.At(lane)[0].Work?
  }

  lemma TakeAndFinish(caps: PerLane<nat>, s0: State, s: State, lane: Lane)
    requires Leads(caps, s0, s) && SelfDraining(s) && HeadIsWork(s, lane)
    ensures var t := AfterFinish(s, lane);
            && Leads(caps, s0, t) && Inv(t)
            && t.workers.At(lane) == Leaving(s.shared.queues.At(lane)[0].id) && t.stopper == s.stopper
  {
    hide Inv, Run, Leads;
    assert Next(caps, s, DoDrainTake(lane)) == Some(Take(s, lane));
    LeadsOn(caps, s0, s, DoDrainTake(lane));
    InvKept(caps, s, DoDrainTake(lane));
    var t := Take(s, lane);
    assert Next(caps, t, DoFinish(lane)) == Some(Finish(t, lane));
    LeadsOn(caps, s0, t, DoFinish(lane));
    InvKept(caps, t, DoFinish(lane));
  }

  lemma HandOver(caps: PerLane<nat>, s0: State, t: State, lane: Lane)
    requires Leads(caps, s0, t) && Inv(t) && t.workers.At(lane).Leaving? && t.stopper == Draining(true)
    ensures var h := Handoff(t, lane);
            var u := if h.workers.At(lane).EnqueuingCold? then EnqueueCold(caps, h, lane) else h;
            Leads(caps, s0, u) && Inv(u) && u.workers.At(lane).Completing? && u.stopper == t.stopper
  {
    hide Inv, Run, Leads, HandedOff, Enqueued, HasRoom;
    var h := Handoff(t, lane);
    assert Next(caps, t, DoHandoff(lane)) == Some(h);
    LeadsOn(caps, s0, t, DoHandoff(lane));
    InvKept(caps, t, DoHandoff(lane));
    if h.workers.At(lane).EnqueuingCold? {
      assert Next(caps, h, DoEnqueueCold(lane)) == Some(EnqueueCold(caps, h, lane));
      LeadsOn(caps, s0, h, DoEnqueueCold(lane));
      InvKept(caps, h, DoEnqueueCold(lane));
    }
  }

  /** One iteration of the drain is a run of the machine. */
  lemma DispatchRuns(caps: PerLane<nat>, s0: State, s: State, lane: Lane)
    requires Leads(caps, s0, s) && SelfDraining(s) && HeadIsWork(s, lane)
    ensures Leads(caps, s0, AfterDispatch(caps, s, lane)) && SelfDraining(AfterDispatch(caps, s, lane))
  {
    hide Inv, Run, Leads, Handoff, EnqueueCold, Take, Finish;
    TakeAndFinish(caps, s0, s, lane);
    HandOver(caps, s0, AfterFinish(s, lane), lane);
    var u := AfterHandoff(caps, s, lane);
    assert Next(caps, u, DoComplete(lane, false)) == Some(Complete(u, lane, false));
    LeadsOn(caps, s0, u, DoComplete(lane, false));
    InvKept(caps, u, DoComplete(lane, false));
    DispatchFields(caps, s, lane);
  }

  /** A dispatch on the cold lane has no pending entry any more, so its handoff does nothing. */
  lemma ColdHandoffIsIdle(s: State, id: nat)
    requires Books(s) && Work(id) in s.shared.queues.cold
    ensures id !in s.shared.pendingCold
  {
    assert BookOf(s, id).Balanced();
    assert multiset(s.shared.queues.cold)[Work(id)] > 0;
  }

  /** The iteration shortens its own queue, may lengthen the cold queue by one dispatch, and
      brings no token. */
  lemma DispatchQueues(caps: PerLane<nat>, s: State, lane: Lane)
    requires SelfDraining(s) && HeadIsWork(s, lane)
    ensures var q, r := s.shared.queues, AfterDispatch(caps, s, lane).shared.queues;
            && r.At(lane) == q.At(lane)[1..]
            && (forall m :: m != lane && m != Cold ==> r.At(m) == q.At(m))
            && (lane != Cold ==> r.cold == q.cold || r.cold == q.cold + [Work(q.At(lane)[0].id)])
            && forall m :: Token in r.At(m) <==> Token in q.At(m)
  {
    hide Counted, Sealed, AfterDispatch, BookOf, Book.Balanced;
    var id := s.shared.queues.At(lane)[0].id;
    DispatchFields(caps, s, lane);
    if lane == Cold { ColdHandoffIsIdle(s, id); }
    var q := s.shared.queues.At(lane);
    assert q == [q[0]] + q[1..];
    assert Token in q <==> Token in q[1..];
  }

  // ---------------------------------------------------------------- put() without interference

  /** Every hot lane has room, or the cold lane has when it is the only one. */
  ghost predicate WillFit(caps: PerLane<nat>, s: Shared, kind: Kind) {
    && (kind.market ==> HasRoom(caps, s, Market)) && (kind.execution ==> HasRoom(caps, s, Execution))
    && (kind.cold && !kind.market && !kind.execution ==> HasRoom(caps, s, Cold))
  }

  lemma FitMeans(caps: PerLane<nat>, s: Shared, kind: Kind)
    ensures WillFit(caps, s, kind)
            <==> (forall j :: 0 <= j < |HotLanes(kind)| ==> HasRoom(caps, s, HotLanes(kind)[j]))
                 && (kind.cold && HotLanes(kind) == [] ==> HasRoom(caps, s, Cold))
  {
    var hot := HotLanes(kind);
    if kind.market { assert hot[0] == Market; }
    if kind.execution { assert hot[|hot| - 1] == Execution; }
  }

  lemma DistinctHot(kind: Kind)
    ensures forall i, j :: 0 <= i < j < |HotLanes(kind)| ==> HotLanes(kind)[i] != HotLanes(kind)[j]
    ensures forall i :: 0 <= i < |HotLanes(kind)| ==> HotLanes(kind)[i] != Cold
  {
  }

  /** The put of dispatch `id` is open in `t` with `todo` still to try. */
  ghost predicate OpenPut(s: State, t: State, id: nat, kind: Kind, todo: seq<Lane>) {
    && id in t.puts && t.puts - {id} == s.puts && id in t.kinds && t.kinds[id] == kind
    && t.puts[id] == EventEngine.Put(todo, if HotLanes(kind) == [] then HandingOver else Enqueuing)
  }

  lemma BeginPut(caps: PerLane<nat>, s: State, kind: Kind)
    requires Known(s) && s.shared.accepting
    ensures var id, hot, t := s.shared.dispatchSeq + 1, HotLanes(kind), Begin(s, kind);
            && Leads(caps, s, t)
            && t.shared == s.shared.(dispatchSeq := id,
                                     pendingCold := if kind.cold && hot != [] then s.shared.pendingCold[id := |hot|]
                                                    else s.shared.pendingCold)
            && if hot == [] && !kind.cold then t.puts == s.puts else OpenPut(s, t, id, kind, hot)
  {
    hide Leads, HotLanes, Known;
    NextIsNew(s);
    LeadsNowhere(caps, s);
    assert Next(caps, s, DoBegin(kind)) == Some(Begin(s, kind));
    LeadsOn(caps, s, s, DoBegin(kind));
    var t := Begin(s, kind);
    assert s.shared.dispatchSeq + 1 in t.puts ==> t.puts - {s.shared.dispatchSeq + 1} == s.puts;
  }

  /** One turn of the loop over the hot lanes. */
  ghost function PutTurn(caps: PerLane<nat>, t: State, id: nat): State
    requires id in t.puts && t.puts[id].todo != [] && id in t.kinds
  {
    var p := PutEnqueue(caps, t, id);
    if !p.puts[id].stage.RefusedAt? then p
    else
      var h := PutHandoff(p, id);
      if h.puts[id].stage.HandingOver? then PutEnqueueCold(caps, h, id) else h
  }

  lemma TurnRuns(caps: PerLane<nat>, s: State, t: State, id: nat, kind: Kind, todo: seq<Lane>)
    requires Leads(caps, s, t) && OpenPut(s, t, id, kind, todo) && todo != [] && HotLanes(kind) != []
    ensures var u := PutTurn(caps, t, id);
            && Leads(caps, s, u) && OpenPut(s, u, id, kind, todo[1..])
            && u.shared == TurnFields(caps, t.shared, id, todo[0], kind.cold)
  {
    hide Leads, HotLanes;
    assert Next(caps, t, DoPutEnqueue(id)) == Some(PutEnqueue(caps, t, id));
    LeadsOn(caps, s, t, DoPutEnqueue(id));
    var p := PutEnqueue(caps, t, id);
    if p.puts[id].stage.RefusedAt? {
      RefusedTurn(caps, s, p, id);
    }
    assert PutTurn(caps, t, id).puts - {id} == s.puts;
  }

  lemma RefusedTurn(caps: PerLane<nat>, s: State, p: State, id: nat)
    requires Leads(caps, s, p) && id in p.puts && p.puts[id].stage.RefusedAt?
    ensures var h := PutHandoff(p, id);
            Leads(caps, s, if h.puts[id].stage.HandingOver? then PutEnqueueCold(caps, h, id) else h)
  {
    hide Leads, HandedOff;
    var h := PutHandoff(p, id);
    assert Next(caps, p, DoPutHandoff(id)) == Some(h);
    LeadsOn(caps, s, p, DoPutHandoff(id));
    if h.puts[id].stage.HandingOver? {
      assert Next(caps, h, DoPutEnqueueCold(id)) == Some(PutEnqueueCold(caps, h, id));
      LeadsOn(caps, s, h, DoPutEnqueueCold(id));
    }
  }

  ghost function TurnFields(caps: PerLane<nat>, s: Shared, id: nat, lane: Lane, cold: bool): Shared {
    if HasRoom(caps, s, lane) then Enqueued(caps, s, lane, id)
    else if cold then HandoffAll(caps, s, id)
    else s
  }

  lemma ColdOnlyRuns(caps: PerLane<nat>, s: State, t: State, id: nat)
    requires Leads(caps, s, t) && id in t.puts && t.puts[id] == EventEngine.Put([], HandingOver)
    requires t.puts - {id} == s.puts
    ensures var u := PutEnqueueCold(caps, t, id);
            && Leads(caps, s, u) && u.shared == Enqueued(caps, t.shared, Cold, id)
            && id in u.puts && u.puts[id] == EventEngine.Put([], Enqueuing) && u.puts - {id} == s.puts
  {
    hide Leads, Enqueued;
    var u := PutEnqueueCold(caps, t, id);
    assert Next(caps, t, DoPutEnqueueCold(id)) == Some(u);
    LeadsOn(caps, s, t, DoPutEnqueueCold(id));
    assert u.puts - {id} == s.puts;
  }

  lemma PutReturns(caps: PerLane<nat>, s: State, t: State, id: nat)
    requires Leads(caps, s, t) && id in t.puts && t.puts[id] == EventEngine.Put([], Enqueuing)
    ensures Leads(caps, s, t.(puts := t.puts - {id}))
  {
    hide Leads;
    assert Next(caps, t, DoPutReturn(id)) == Some(t.(puts := t.puts - {id}));
    LeadsOn(caps, s, t, DoPutReturn(id));
  }

  // ---------------------------------------------------------------- the object

  class Engine {
    const caps: PerLane<nat>
    var queues: PerLane<seq<Item>>
    var pendingCold: map<nat, int>
    var pendingWork: int
    var dispatchSeq: nat
    var accepting: bool
    var active: bool

    ghost function View(): Shared
      reads this
    {
      Shared(queues, pendingCold, pendingWork, dispatchSeq, accepting, active)
    }

    constructor (caps: PerLane<nat>)
      ensures View() == INITIAL_SHARED && this.caps == caps
    {
      this.caps, queues, pendingCold := caps, PerLane([], [], []), map[];
      pendingWork, dispatchSeq, accepting, active := 0, 0, true, false;
    }

    /** The count goes up first and is taken back when the queue is full. */
    method Enqueue(lane: Lane, id: nat) returns (ok: bool)
      modifies this`queues, this`pendingWork
      ensures View() == Enqueued(caps, old(View()), lane, id)
      ensures ok <==> HasRoom(caps, old(View()), lane)
    {
      pendingWork := pendingWork + 1;
      if |queues.At(lane)| < caps.At(lane) {
        queues := queues.With(lane, queues.At(lane) + [Work(id)]);
        return true;
      }
      pendingWork := pendingWork - 1;
      return false;
    }

    method HandoffSection(id: nat) returns (mine: bool)
      modifies this`pendingCold
      ensures (View(), mine) == HandedOff(old(View()), id)
    {
      if id !in pendingCold { return false; }
      pendingCold := pendingCold[id := pendingCold[id] - 1];
      if pendingCold[id] > 0 { return false; }
      pendingCold := pendingCold - {id};
      assert pendingCold == old(pendingCold) - {id};
      return true;
    }

    method HandoffToCold(id: nat) returns (ok: bool)
      modifies this`queues, this`pendingCold, this`pendingWork
      ensures View() == HandoffAll(caps, old(View()), id)
      ensures ok <==> HandedOff(old(View()), id).1 ==> HasRoom(caps, HandedOff(old(View()), id).0, Cold)
    {
      var mine := HandoffSection(id);
      if mine { ok := Enqueue(Cold, id); } else { ok := true; }
    }

    method MarkWorkComplete()
      modifies this`pendingWork
      ensures View() == Completed(old(View()))
    {
      pendingWork := pendingWork - 1;
    }

    /** The loop over the hot lanes: a refused lane hands off at once. */
    method TryHotLanes(kind: Kind, id: nat, ghost s: State, ghost begun: State) returns (accepted: bool, ghost t: State)
      requires View() == begun.shared && begun.shared.queues == s.shared.queues && Leads(caps, s, begun)
      requires HotLanes(kind) != [] && OpenPut(s, begun, id, kind, HotLanes(kind))
      modifies this`queues, this`pendingCold, this`pendingWork
      ensures View() == t.shared && Leads(caps, s, t) && OpenPut(s, t, id, kind, [])
      ensures accepted <==> forall j :: 0 <= j < |HotLanes(kind)| ==> HasRoom(caps, s.shared, HotLanes(kind)[j])
    {
      hide Leads, PutTurn, HotLanes;
      t := begun;
      var hot := HotLanes(kind);
      DistinctHot(kind);
      accepted := true;
      for i := 0 to |hot|
        invariant View() == t.shared && Leads(caps, s, t) && OpenPut(s, t, id, kind, hot[i..])
        invariant forall j :: i <= j < |hot| ==> queues.At(hot[j]) == s.shared.queues.At(hot[j])
        invariant accepted <==> forall j :: 0 <= j < i ==> HasRoom(caps, s.shared, hot[j])
      {
        TurnRuns(caps, s, t, id, kind, hot[i..]);
        assert hot[i..][0] == hot[i] && hot[i..][1..] == hot[i + 1..];
        t := PutTurn(caps, t, id);
        var ok := TryLane(hot[i], id, kind.cold);
        accepted := accepted && ok;
      }
    }

    method TryLane(lane: Lane, id: nat, cold: bool) returns (ok: bool)
      modifies this`queues, this`pendingCold, this`pendingWork
      ensures View() == TurnFields(caps, old(View()), id, lane, cold)
      ensures ok <==> HasRoom(caps, old(View()), lane)
      ensures forall m :: m != lane && m != Cold ==> queues.At(m) == old(queues.At(m))
    {
      ok := Enqueue(lane, id);
      if !ok && cold { var _ := HandoffToCold(id); }
    }

    /** put() when no other thread interleaves: the machine's put steps, one after the other. */
    method Put(kind: Kind, ghost s: State) returns (accepted: bool, ghost t: State)
      requires View() == s.shared && Known(s)
      modifies this
      ensures View() == t.shared && Leads(caps, s, t) && t.puts == s.puts
      ensures accepted <==> s.shared.accepting && WillFit(caps, s.shared, kind)
    {
      hide Leads, Begin, PutEnqueueCold, HotLanes, WillFit, Enqueued;
      LeadsNowhere(caps, s);
      t := s;
      if !accepting { return false, t; }
      BeginPut(caps, s, kind);
      FitMeans(caps, s.shared, kind);
      dispatchSeq := dispatchSeq + 1;
      var id := dispatchSeq;
      t := Begin(s, kind);
      var hot := HotLanes(kind);
      if hot == [] && !kind.cold { return true, t; }
      if hot != [] {
        if kind.cold { pendingCold := pendingCold[id := |hot|]; }
        accepted, t := TryHotLanes(kind, id, s, t);
      } else {
        ColdOnlyRuns(caps, s, t, id);
        t := PutEnqueueCold(caps, t, id);
        accepted := Enqueue(Cold, id);
      }
      PutReturns(caps, s, t, id);
      t := t.(puts := t.puts - {id});
    }

    /** One queued dispatch of `lane`: take it, run its handlers, hand off, mark complete. */
    method DrainOne(lane: Lane, ghost s0: State, ghost s: State) returns (ghost t: State)
      requires View() == s.shared && Leads(caps, s0, s) && SelfDraining(s) && HeadIsWork(s, lane)
      modifies this
      ensures t == AfterDispatch(caps, s, lane)
      ensures View() == t.shared && Leads(caps, s0, t) && SelfDraining(t)
    {
      hide SelfDraining, Leads, AfterDispatch, HandoffAll;
      DispatchFields(caps, s, lane);
      var id := queues.At(lane)[0].id;
      queues := queues.With(lane, queues.At(lane)[1..]);
      var _ := HandoffToCold(id);
      MarkWorkComplete();
      t := AfterDispatch(caps, s, lane);
      DispatchRuns(caps, s0, s, lane);
    }

    /** The drain loop of one lane; unpacking a leftover stop token raises. */
    method DrainLane(lane: Lane, ghost s0: State, ghost s: State) returns (ok: bool, ghost t: State)
      requires View() == s.shared && Leads(caps, s0, s) && SelfDraining(s)
      modifies this
      ensures ok <==> Token !in s.shared.queues.At(lane)
      ensures ok ==> View() == t.shared && Leads(caps, s0, t) && SelfDraining(t) && KeepsOtherLanes(s, t, lane)
                     && t.shared.queues.At(lane) == []
      ensures !ok ==> View() == t.shared && Leads(caps, s0, t) && t.stopper.NotStopping?
    {
      hide SelfDraining, Leads, AfterDispatch;
      t := s;
      while queues.At(lane) != []
        invariant View() == t.shared && Leads(caps, s0, t) && SelfDraining(t) && KeepsOtherLanes(s, t, lane)
        invariant Token in t.shared.queues.At(lane) <==> Token in s.shared.queues.At(lane)
        decreases |queues.At(lane)|
      {
        if queues.At(lane)[0].Token? {
          RaiseRuns(caps, s0, t, lane);
          queues := queues.With(lane, queues.At(lane)[1..]);
          return false, ControlNext(caps, t, DoDrainRaises(lane));
        }
        DispatchQueues(caps, t, lane);
        t := DrainOne(lane, s0, t);
      }
      ok := true;
    }

    /** Every lane in turn. Without leftover tokens the engine ends quiescent, at a state that a
        run of the machine reaches. */
    method ProcessExistingEvents(ghost s: State) returns (ok: bool, ghost t: State)
      requires View() == s.shared && SelfDraining(s)
      modifies this
      ensures ok <==> forall lane :: Token !in s.shared.queues.At(lane)
      ensures ok ==> View() == t.shared && Leads(caps, s, t) && Quiescent(t)
      ensures ok ==> queues == PerLane([], [], []) && pendingCold == map[] && pendingWork == 0
      ensures !ok ==> View() == t.shared && Leads(caps, s, t) && t.stopper.NotStopping?
    {
      hide SelfDraining, Leads, Quiescent;
      LeadsNowhere(caps, s);
      ok, t := DrainLane(Market, s, s);
      if !ok { return; }
      ok, t := DrainLane(Execution, s, t);
      if !ok { return; }
      ok, t := DrainLane(Cold, s, t);
      if !ok { return; }
      EmptyIsQuiescent(t);
    }
  }

  /** Taking a leftover stop token out and raising is a step of the machine. */
  lemma RaiseRuns(caps: PerLane<nat>, s0: State, s: State, lane: Lane)
    requires Leads(caps, s0, s) && SelfDraining(s)
    requires s.shared.queues.At(lane) != [] && s.shared.queues.At(lane)[0].Token?
    ensures ControlEnabled(s, DoDrainRaises(lane))
    ensures Leads(caps, s0, ControlNext(caps, s, DoDrainRaises(lane)))
  {
    hide Leads;
    LeadsOn(caps, s0, s, DoDrainRaises(lane));
  }

  /** Other hot lanes keep their queue, and no lane gains or loses a stop token. */
  ghost predicate KeepsOtherLanes(s: State, t: State, lane: Lane) {
    forall m :: m != lane ==>
      && (m != Cold ==> t.shared.queues.At(m) == s.shared.queues.At(m))
      && (Token in t.shared.queues.At(m) <==> Token in s.shared.queues.At(m))
  }

  lemma EmptyIsQuiescent(t: State)
    requires SelfDraining(t) && t.shared.queues == PerLane([], [], [])
    ensures Quiescent(t) && t.shared.pendingWork == 0 && t.shared.pendingCold == map[]
  {
    hide Books, LaneQuiet;
    BarrierState(t);
  }
}
