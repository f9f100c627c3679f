/** Hot-to-cold handoff and the drain barrier, over every interleaving of the engine's steps. */
module EventEngineTheorems {
  import opened Options
  import opened EventEngine

  // ---------------------------------------------------------------- one dispatch's books

  function One(b: bool): int { if b then 1 else 0 }

  ghost function Count<T>(q: seq<T>, x: T): int { multiset(q)[x] }

  /** One dispatch on one lane: still to be enqueued, queued, being handled, handled with its
      handoff due, handing over to the cold lane, refused with its handoff due, and the totals. */
  datatype Ledger = Ledger(todo: int, queued: int, running: bool, leaving: bool, enqueuing: bool, refusing: bool,
                           finished: int, refused: int)
  {
    /** The lane's handoff has not happened yet. */
    ghost function Owes(): int { todo + queued + One(running) + One(leaving) + One(refusing) }

    ghost predicate Balanced(due: int) {
      && todo + queued + One(running) + finished + refused == due
      && (leaving ==> finished >= 1) && (refusing ==> refused >= 1)
      && todo >= 0 && queued >= 0 && finished >= 0 && refused >= 0
    }
  }

  datatype Book = Book(kind: Kind, lanes: PerLane<Ledger>, handing: bool, attempts: int, pending: Option<int>) {
    /** Someone has taken the pending entry out and must now attempt the cold enqueue. */
    ghost predicate Electing() {
      handing || lanes.market.enqueuing || lanes.execution.enqueuing || lanes.cold.enqueuing
    }

    ghost predicate Balanced() {
      && lanes.market.Balanced(One(kind.market)) && lanes.execution.Balanced(One(kind.execution))
      && lanes.cold.Balanced(attempts) && lanes.cold.todo == 0 && !lanes.cold.refusing && attempts >= 0
      && attempts + One(pending.Some?) + One(handing) + One(lanes.market.enqueuing) + One(lanes.execution.enqueuing)
         + One(lanes.cold.enqueuing) == One(kind.cold)
      && (kind.cold ==> lanes.market.Owes() + lanes.execution.Owes() == pending.GetOr(0))
      && (pending.Some? ==> pending.value >= 1)
    }
  }

  // ---------------------------------------------------------------- the moves of the books

  ghost function Taken(l: Ledger): Ledger { l.(queued := l.queued - 1, running := true) }

  ghost function Handled(l: Ledger): Ledger { l.(running := false, leaving := true, finished := l.finished + 1) }

  ghost function HandedOver(l: Ledger, mine: bool): Ledger { l.(leaving := false, enqueuing := mine) }

  /** What one attempt does to the cold lane's ledger. */
  ghost function Attempted(l: Ledger, room: bool): Ledger {
    if room then l.(queued := l.queued + 1) else l.(refused := l.refused + 1)
  }

  ghost function Tried(l: Ledger, room: bool, cold: bool): Ledger {
    if room then l.(todo := l.todo - 1, queued := l.queued + 1)
    else l.(todo := l.todo - 1, refused := l.refused + 1, refusing := cold)
  }

  ghost function WithLedger(b: Book, lane: Lane, l: Ledger): Book { b.(lanes := b.lanes.With(lane, l)) }

  /** The handoff of this dispatch elects its caller. */
  ghost predicate Elects(b: Book) { b.pending.Some? && b.pending.value <= 1 }

  ghost function PendingAfter(b: Book): Option<int> {
    if b.pending.Some? && b.pending.value > 1 then Some(b.pending.value - 1) else None
  }

  ghost function BookTaken(b: Book, lane: Lane): Book { WithLedger(b, lane, Taken(b.lanes.At(lane))) }

  ghost function BookHandled(b: Book, lane: Lane): Book { WithLedger(b, lane, Handled(b.lanes.At(lane))) }

  ghost function BookHandedOver(b: Book, lane: Lane): Book {
    WithLedger(b, lane, HandedOver(b.lanes.At(lane), Elects(b))).(pending := PendingAfter(b))
  }

  ghost function BookAttempted(b: Book, room: bool): Book {
    WithLedger(b, Cold, Attempted(b.lanes.cold, room)).(attempts := b.attempts + 1)
  }

  ghost function BookSettled(b: Book, lane: Lane): Book {
    WithLedger(b, lane, b.lanes.At(lane).(enqueuing := false))
  }

  ghost function BookSkipped(b: Book): Book { WithLedger(b, Cold, b.lanes.cold.(leaving := false)) }

  ghost function BookBegun(b: Book, kind: Kind): Book {
    var hot := One(kind.market) + One(kind.execution);
    Book(kind,
         PerLane(b.lanes.market.(todo := One(kind.market)), b.lanes.execution.(todo := One(kind.execution)),
                 b.lanes.cold.(todo := 0)),
         hot == 0 && kind.cold, b.attempts, if hot > 0 && kind.cold then Some(hot) else b.pending)
  }

  ghost function BookTried(b: Book, lane: Lane, room: bool): Book {
    WithLedger(b, lane, Tried(b.lanes.At(lane), room, b.kind.cold))
  }

  ghost function BookRefused(b: Book, lane: Lane): Book {
    WithLedger(b, lane, b.lanes.At(lane).(refusing := false)).(handing := Elects(b), pending := PendingAfter(b))
  }

  lemma TakenBalanced(b: Book, lane: Lane)
    requires b.Balanced() && b.lanes.At(lane).queued >= 1 && !b.lanes.At(lane).running
    ensures BookTaken(b, lane).Balanced()
  {
  }

  lemma HandledBalanced(b: Book, lane: Lane)
    requires b.Balanced() && b.lanes.At(lane).running
    ensures BookHandled(b, lane).Balanced()
  {
  }

  lemma HandedOverBalanced(b: Book, lane: Lane)
    requires b.Balanced() && b.lanes.At(lane).leaving && !b.lanes.At(lane).enqueuing
    ensures BookHandedOver(b, lane).Balanced()
  {
  }

  lemma AttemptBalanced(b: Book, lane: Lane, room: bool)
    requires b.Balanced() && b.lanes.At(lane).enqueuing
    ensures BookSettled(BookAttempted(b, room), lane).Balanced()
  {
  }

  lemma BegunBalanced(b: Book, kind: Kind)
    requires b.Balanced() && b.kind == Kind(false, false, false) && !b.lanes.market.refusing
    ensures BookBegun(b, kind).Balanced()
  {
  }

  lemma TriedBalanced(b: Book, lane: Lane, room: bool)
    requires b.Balanced() && b.lanes.At(lane).todo >= 1 && !b.lanes.At(lane).refusing
    ensures BookTried(b, lane, room).Balanced()
  {
  }

  lemma RefusedBalanced(b: Book, lane: Lane)
    requires b.Balanced() && b.lanes.At(lane).refusing && !b.handing
    ensures BookRefused(b, lane).Balanced()
  {
  }

  lemma PutAttemptBalanced(b: Book, room: bool)
    requires b.Balanced() && b.handing
    ensures BookAttempted(b, room).(handing := false).Balanced()
  {
  }

  lemma SkippedBalanced(b: Book)
    requires b.Balanced()
    ensures BookSkipped(b).Balanced()
  {
  }

  // ---------------------------------------------------------------- the books of a state

  ghost function LedgerOf(s: State, id: nat, lane: Lane): Ledger {
    Ledger(if id in s.puts then Count(s.puts[id].todo, lane) else 0,
           Count(s.shared.queues.At(lane), Work(id)),
           s.workers.At(lane) == Running(id),
           s.workers.At(lane) == Leaving(id),
           s.workers.At(lane) == EnqueuingCold(id),
           id in s.puts && s.puts[id].stage == RefusedAt(lane),
           s.finished.At(lane)[id],
           s.refused.At(lane)[id])
  }

  ghost function BookOf(s: State, id: nat): Book {
    Book(if id in s.kinds then s.kinds[id] else Kind(false, false, false),
         PerLane(LedgerOf(s, id, Market), LedgerOf(s, id, Execution), LedgerOf(s, id, Cold)),
         id in s.puts && s.puts[id].stage == HandingOver,
         s.attempts[id],
         if id in s.shared.pendingCold then Some(s.shared.pendingCold[id]) else None)
  }

  ghost predicate Known(s: State) {
    && s.puts.Keys <= s.kinds.Keys
    && (forall id :: id in s.kinds ==> id <= s.shared.dispatchSeq)
  }

  ghost predicate Books(s: State) {
    Known(s) && forall id: nat :: BookOf(s, id).Balanced()
  }

  lemma InitialBooks()
    ensures Books(INITIAL)
  {
    hide BookOf, Book.Balanced;
    forall id: nat ensures BookOf(INITIAL, id).Balanced() { InitialBook(id); }
  }

  lemma InitialBook(id: nat)
    ensures BookOf(INITIAL, id).Balanced()
  {
    hide LedgerOf, Book.Balanced;
    InitialLedger(id, Market);
    InitialLedger(id, Execution);
    InitialLedger(id, Cold);
    BlankBalanced(BookOf(INITIAL, id));
  }

  ghost predicate Blank(l: Ledger) {
    l.todo == 0 && l.queued == 0 && l.finished == 0 && l.refused == 0
    && !l.running && !l.leaving && !l.enqueuing && !l.refusing
  }

  lemma BlankBalanced(b: Book)
    requires Blank(b.lanes.market) && Blank(b.lanes.execution) && Blank(b.lanes.cold)
    requires !b.kind.market && !b.kind.execution && !b.kind.cold && !b.handing && b.attempts == 0 && b.pending.None?
    ensures b.Balanced()
  {
  }

  lemma InitialLedger(id: nat, lane: Lane)
    ensures Blank(LedgerOf(INITIAL, id, lane))
  {
  }

  lemma QueueGrows(q: seq<Item>, x: Item, y: Item)
    ensures Count(q + [x], y) == Count(q, y) + One(x == y)
  {
  }

  lemma CountTail<T>(q: seq<T>, x: T)
    requires q != []
    ensures Count(q[1..], x) == Count(q, x) - One(q[0] == x)
  {
    assert q == [q[0]] + q[1..];
  }

  lemma WithAt<T>(a: PerLane<T>, lane: Lane, value: T, m: Lane)
    ensures a.With(lane, value).At(m) == if m == lane then value else a.At(m)
  {
  }

  // ---------------------------------------------------------------- workers keep the books

  ghost predicate Free(p: Phase) { p.Idle? || p.Absent? }

  lemma AbsentIsFree(s: State, lane: Lane)
    requires NoWorker(s)
    ensures Free(s.workers.At(lane))
  {
  }

  /** What taking changes on a lane. */
  lemma TakeMoves(s: State, lane: Lane, m: Lane)
    requires s.shared.queues.At(lane) != []
    ensures var t, q := Take(s, lane), s.shared.queues.At(lane);
            && t.shared.queues.At(m) == (if m == lane then q[1..] else s.shared.queues.At(m))
            && t.workers.At(m)
               == (if m != lane then s.workers.At(m) else if q[0].Work? then Running(q[0].id) else Absent)
            && t.puts == s.puts && t.finished == s.finished && t.refused == s.refused
  {
  }

  lemma TakeLedger(s: State, lane: Lane, id: nat, m: Lane)
    requires s.shared.queues.At(lane) != [] && Free(s.workers.At(lane))
    ensures LedgerOf(Take(s, lane), id, m)
            == if m == lane && s.shared.queues.At(lane)[0] == Work(id) then Taken(LedgerOf(s, id, m))
               else LedgerOf(s, id, m)
  {
    hide PerLane.With, PerLane.At, Count, Take;
    TakeMoves(s, lane, m);
    CountTail(s.shared.queues.At(lane), Work(id));
  }

  lemma FreeLedger(s: State, id: nat, lane: Lane)
    requires s.shared.queues.At(lane) != [] && Free(s.workers.At(lane))
    ensures !LedgerOf(s, id, lane).running
    ensures s.shared.queues.At(lane)[0] == Work(id) ==> LedgerOf(s, id, lane).queued >= 1
  {
    CountTail(s.shared.queues.At(lane), Work(id));
  }

  /** Taking moves the dispatch at the head from queued to running on this lane. */
  lemma TakeBook(s: State, lane: Lane, id: nat)
    requires s.shared.queues.At(lane) != [] && Free(s.workers.At(lane))
    ensures BookOf(Take(s, lane), id)
            == if s.shared.queues.At(lane)[0] == Work(id) then BookTaken(BookOf(s, id), lane) else BookOf(s, id)
  {
    hide LedgerOf;
    TakeLedger(s, lane, id, Market);
    TakeLedger(s, lane, id, Execution);
    TakeLedger(s, lane, id, Cold);
  }

  lemma FinishLedger(s: State, lane: Lane, id: nat, m: Lane)
    requires s.workers.At(lane).Running?
    ensures LedgerOf(Finish(s, lane), id, m)
            == if m == lane && s.workers.At(lane).id == id then Handled(LedgerOf(s, id, m)) else LedgerOf(s, id, m)
  {
    hide PerLane.With, PerLane.At;
    var actor := s.workers.At(lane).id;
    WithAt(s.workers, lane, Leaving(actor), m);
    WithAt(s.finished, lane, s.finished.At(lane) + multiset{actor}, m);
  }

  lemma FinishBook(s: State, lane: Lane, id: nat)
    requires s.workers.At(lane).Running?
    ensures BookOf(Finish(s, lane), id)
            == if s.workers.At(lane).id == id then BookHandled(BookOf(s, id), lane) else BookOf(s, id)
  {
    hide LedgerOf;
    FinishLedger(s, lane, id, Market);
    FinishLedger(s, lane, id, Execution);
    FinishLedger(s, lane, id, Cold);
  }

  lemma RunningLedger(s: State, lane: Lane)
    requires s.workers.At(lane).Running?
    ensures LedgerOf(s, s.workers.At(lane).id, lane).running
  {
  }

  lemma HandoffLedger(s: State, lane: Lane, id: nat, m: Lane)
    requires s.workers.At(lane).Leaving?
    ensures var actor := s.workers.At(lane).id;
            LedgerOf(Handoff(s, lane), id, m)
            == if m == lane && actor == id then HandedOver(LedgerOf(s, id, m), HandedOff(s.shared, actor).1)
               else LedgerOf(s, id, m)
  {
    hide PerLane.With, PerLane.At;
    var actor := s.workers.At(lane).id;
    WithAt(s.workers, lane, if HandedOff(s.shared, actor).1 then EnqueuingCold(actor) else Completing(actor), m);
  }

  /** The locked handoff: one lane less is due, and its caller is elected exactly when none is left. */
  lemma HandoffBook(s: State, lane: Lane, id: nat)
    requires s.workers.At(lane).Leaving?
    ensures BookOf(Handoff(s, lane), id)
            == if s.workers.At(lane).id == id then BookHandedOver(BookOf(s, id), lane) else BookOf(s, id)
  {
    hide LedgerOf;
    HandoffLedger(s, lane, id, Market);
    HandoffLedger(s, lane, id, Execution);
    HandoffLedger(s, lane, id, Cold);
  }

  lemma LeavingLedger(s: State, lane: Lane)
    requires s.workers.At(lane).Leaving?
    ensures LedgerOf(s, s.workers.At(lane).id, lane).leaving
    ensures !LedgerOf(s, s.workers.At(lane).id, lane).enqueuing
  {
  }

  lemma AttemptLedger(caps: PerLane<nat>, s: State, actor: nat, id: nat, m: Lane)
    ensures LedgerOf(ColdAttempt(caps, s, actor), id, m)
            == if m == Cold && actor == id then Attempted(LedgerOf(s, id, m), HasRoom(caps, s.shared, Cold))
               else LedgerOf(s, id, m)
  {
    QueueGrows(s.shared.queues.cold, Work(actor), Work(id));
  }

  lemma EnqueueColdLedger(caps: PerLane<nat>, s: State, lane: Lane, id: nat, m: Lane)
    requires s.workers.At(lane).EnqueuingCold?
    ensures var actor := s.workers.At(lane).id;
            var l := LedgerOf(ColdAttempt(caps, s, actor), id, m);
            LedgerOf(EnqueueCold(caps, s, lane), id, m)
            == if m == lane && actor == id then l.(enqueuing := false) else l
  {
    hide PerLane.With, PerLane.At;
    var actor := s.workers.At(lane).id;
    WithAt(s.workers, lane, Completing(actor), m);
  }

  lemma EnqueueColdBook(caps: PerLane<nat>, s: State, lane: Lane, id: nat)
    requires s.workers.At(lane).EnqueuingCold?
    ensures BookOf(EnqueueCold(caps, s, lane), id)
            == if s.workers.At(lane).id == id
               then BookSettled(BookAttempted(BookOf(s, id), HasRoom(caps, s.shared, Cold)), lane)
               else BookOf(s, id)
  {
    hide LedgerOf, Enqueued, HasRoom;
    var actor := s.workers.At(lane).id;
    EnqueueKeepsPending(caps, s.shared, Cold, actor);
    AttemptLedger(caps, s, actor, id, Market);
    AttemptLedger(caps, s, actor, id, Execution);
    AttemptLedger(caps, s, actor, id, Cold);
    EnqueueColdLedger(caps, s, lane, id, Market);
    EnqueueColdLedger(caps, s, lane, id, Execution);
    EnqueueColdLedger(caps, s, lane, id, Cold);
  }

  lemma EnqueuingLedger(s: State, lane: Lane)
    requires s.workers.At(lane).EnqueuingCold?
    ensures LedgerOf(s, s.workers.At(lane).id, lane).enqueuing
  {
  }

  lemma EnqueueKeepsPending(caps: PerLane<nat>, s: Shared, lane: Lane, id: nat)
    ensures Enqueued(caps, s, lane, id).pendingCold == s.pendingCold
    ensures Enqueued(caps, s, lane, id).dispatchSeq == s.dispatchSeq
  {
  }

  // ---------------------------------------------------------------- put() keeps the books

  lemma BeginLedger(s: State, kind: Kind, id: nat, m: Lane)
    requires s.shared.dispatchSeq + 1 !in s.puts
    ensures LedgerOf(Begin(s, kind), id, m)
            == if id == s.shared.dispatchSeq + 1 then LedgerOf(s, id, m).(todo := Count(HotLanes(kind), m))
               else LedgerOf(s, id, m)
  {
    hide PerLane.With, PerLane.At;
  }

  lemma HotLanesCounts(kind: Kind)
    ensures Count(HotLanes(kind), Market) == One(kind.market)
    ensures Count(HotLanes(kind), Execution) == One(kind.execution)
    ensures Count(HotLanes(kind), Cold) == 0
    ensures |HotLanes(kind)| == One(kind.market) + One(kind.execution)
  {
  }

  /** Opening a dispatch books one delivery per hot lane and, with a cold lane, one pending handoff. */
  lemma BeginBook(s: State, kind: Kind, id: nat)
    requires s.shared.dispatchSeq + 1 !in s.puts
    ensures BookOf(Begin(s, kind), id)
            == if id == s.shared.dispatchSeq + 1 then BookBegun(BookOf(s, id), kind) else BookOf(s, id)
  {
    hide LedgerOf, HotLanes;
    HotLanesCounts(kind);
    BeginLedger(s, kind, id, Market);
    BeginLedger(s, kind, id, Execution);
    BeginLedger(s, kind, id, Cold);
  }

  lemma NewBook(s: State, id: nat)
    requires id !in s.kinds && id !in s.puts
    ensures BookOf(s, id).kind == Kind(false, false, false) && !BookOf(s, id).lanes.market.refusing
  {
  }

  lemma PutEnqueueLedger(caps: PerLane<nat>, s: State, put: nat, id: nat, m: Lane)
    requires PutEnabled(s, DoPutEnqueue(put))
    ensures var lane := s.puts[put].todo[0];
            LedgerOf(PutEnqueue(caps, s, put), id, m)
            == if m == lane && put == id
               then Tried(LedgerOf(s, id, m), HasRoom(caps, s.shared, lane), s.kinds[put].cold)
               else LedgerOf(s, id, m)
  {
    hide PerLane.With, PerLane.At, Count;
    var p := s.puts[put];
    var lane := p.todo[0];
    CountTail(p.todo, m);
    QueueGrows(s.shared.queues.At(lane), Work(put), Work(id));
    WithAt(s.shared.queues, lane, s.shared.queues.At(lane) + [Work(put)], m);
    WithAt(s.refused, lane, s.refused.At(lane) + multiset{put}, m);
  }

  lemma PutEnqueueBook(caps: PerLane<nat>, s: State, put: nat, id: nat)
    requires PutEnabled(s, DoPutEnqueue(put))
    ensures var lane := s.puts[put].todo[0];
            BookOf(PutEnqueue(caps, s, put), id)
            == if put == id then BookTried(BookOf(s, id), lane, HasRoom(caps, s.shared, lane)) else BookOf(s, id)
  {
    hide LedgerOf, Enqueued, HasRoom;
    var lane := s.puts[put].todo[0];
    EnqueueKeepsPending(caps, s.shared, lane, put);
    PutEnqueueLedger(caps, s, put, id, Market);
    PutEnqueueLedger(caps, s, put, id, Execution);
    PutEnqueueLedger(caps, s, put, id, Cold);
  }

  lemma TodoLedger(s: State, put: nat)
    requires PutEnabled(s, DoPutEnqueue(put))
    ensures LedgerOf(s, put, s.puts[put].todo[0]).todo >= 1
    ensures forall m :: !LedgerOf(s, put, m).refusing
  {
    CountTail(s.puts[put].todo, s.puts[put].todo[0]);
  }

  lemma PutHandoffLedger(s: State, put: nat, id: nat, m: Lane)
    requires PutEnabled(s, DoPutHandoff(put))
    ensures LedgerOf(PutHandoff(s, put), id, m) == if put == id then LedgerOf(s, id, m).(refusing := false)
                                                   else LedgerOf(s, id, m)
  {
    hide PerLane.With, PerLane.At;
  }

  lemma RefusingLedger(s: State, put: nat, m: Lane)
    requires PutEnabled(s, DoPutHandoff(put))
    ensures LedgerOf(s, put, m).refusing <==> m == s.puts[put].stage.lane
    ensures !BookOf(s, put).handing
  {
  }

  lemma PutHandoffBook(s: State, put: nat, id: nat)
    requires PutEnabled(s, DoPutHandoff(put))
    ensures BookOf(PutHandoff(s, put), id)
            == if put == id then BookRefused(BookOf(s, id), s.puts[put].stage.lane) else BookOf(s, id)
  {
    hide LedgerOf;
    RefusingLedger(s, put, Market);
    RefusingLedger(s, put, Execution);
    RefusingLedger(s, put, Cold);
    PutHandoffLedger(s, put, id, Market);
    PutHandoffLedger(s, put, id, Execution);
    PutHandoffLedger(s, put, id, Cold);
  }

  lemma PutEnqueueColdLedger(caps: PerLane<nat>, s: State, put: nat, id: nat, m: Lane)
    requires PutEnabled(s, DoPutEnqueueCold(put))
    ensures LedgerOf(PutEnqueueCold(caps, s, put), id, m) == LedgerOf(ColdAttempt(caps, s, put), id, m)
    ensures BookOf(s, put).handing
  {
    hide PerLane.With, PerLane.At;
  }

  lemma PutEnqueueColdBook(caps: PerLane<nat>, s: State, put: nat, id: nat)
    requires PutEnabled(s, DoPutEnqueueCold(put))
    ensures BookOf(PutEnqueueCold(caps, s, put), id)
            == if put == id then BookAttempted(BookOf(s, id), HasRoom(caps, s.shared, Cold)).(handing := false)
               else BookOf(s, id)
  {
    hide LedgerOf, Enqueued, HasRoom;
    EnqueueKeepsPending(caps, s.shared, Cold, put);
    AttemptLedger(caps, s, put, id, Market);
    AttemptLedger(caps, s, put, id, Execution);
    AttemptLedger(caps, s, put, id, Cold);
    PutEnqueueColdLedger(caps, s, put, id, Market);
    PutEnqueueColdLedger(caps, s, put, id, Execution);
    PutEnqueueColdLedger(caps, s, put, id, Cold);
  }

  // ---------------------------------------------------------------- every step keeps the books

  /** The ledger of a lane is the book's entry for it. */
  lemma BookEntry(s: State, id: nat, lane: Lane)
    ensures BookOf(s, id).lanes.At(lane) == LedgerOf(s, id, lane)
  {
  }

  lemma PutStepKeeps(caps: PerLane<nat>, s: State, step: Step, id: nat)
    requires Known(s) && PutEnabled(s, step) && BookOf(s, id).Balanced()
    ensures BookOf(PutNext(caps, s, step), id).Balanced()
  {
    hide BookOf, LedgerOf, Book.Balanced, Begin, PutEnqueue, PutHandoff, PutEnqueueCold, Known, PerLane.At, HasRoom,
         BookBegun, BookTried, BookRefused, BookAttempted;
    var b := BookOf(s, id);
    match step
    case DoBegin(kind) =>
      NextIsNew(s);
      BeginBook(s, kind, id);
      NewBook(s, s.shared.dispatchSeq + 1);
      if id == s.shared.dispatchSeq + 1 { BegunBalanced(b, kind); }
    case DoPutEnqueue(put) =>
      var lane := s.puts[put].todo[0];
      PutEnqueueBook(caps, s, put, id);
      TodoLedger(s, put);
      BookEntry(s, put, lane);
      if put == id { TriedBalanced(b, lane, HasRoom(caps, s.shared, lane)); }
    case DoPutHandoff(put) =>
      var lane := s.puts[put].stage.lane;
      PutHandoffBook(s, put, id);
      RefusingLedger(s, put, lane);
      BookEntry(s, put, lane);
      if put == id { RefusedBalanced(b, lane); }
    case DoPutEnqueueCold(put) =>
      PutEnqueueColdBook(caps, s, put, id);
      PutEnqueueColdLedger(caps, s, put, id, Cold);
      if put == id { PutAttemptBalanced(b, HasRoom(caps, s.shared, Cold)); }
    case DoPutReturn(put) => PutReturnKeeps(s, put, id);
  }

  lemma NextIsNew(s: State)
    requires Known(s)
    ensures s.shared.dispatchSeq + 1 !in s.kinds && s.shared.dispatchSeq + 1 !in s.puts
  {
  }

  lemma PutReturnKeeps(s: State, put: nat, id: nat)
    requires PutEnabled(s, DoPutReturn(put))
    ensures BookOf(s.(puts := s.puts - {put}), id) == BookOf(s, id)
  {
    hide PerLane.With, PerLane.At;
  }

  lemma WorkerStepKeeps(caps: PerLane<nat>, s: State, step: Step, id: nat)
    requires WorkerEnabled(s, step) && BookOf(s, id).Balanced()
    ensures BookOf(WorkerNext(caps, s, step), id).Balanced()
  {
    hide BookOf, LedgerOf, Book.Balanced, Take, Finish, Handoff, EnqueueCold, Complete, PerLane.With, PerLane.At,
         HasRoom, BookTaken, BookHandled, BookHandedOver, BookAttempted, BookSettled, BookSkipped;
    var b := BookOf(s, id);
    match step
    case DoTake(lane) =>
      TakeBook(s, lane, id);
      FreeLedger(s, id, lane);
      BookEntry(s, id, lane);
      if s.shared.queues.At(lane)[0] == Work(id) { TakenBalanced(b, lane); }
    case DoDrainTake(lane) =>
      AbsentIsFree(s, lane);
      TakeBook(s, lane, id);
      FreeLedger(s, id, lane);
      BookEntry(s, id, lane);
      if s.shared.queues.At(lane)[0] == Work(id) { TakenBalanced(b, lane); }
    case DoTimeOut(lane) => QuietPhaseKeeps(s, s.shared, lane, TimedOut, id);
    case DoRecheck(lane) => QuietPhaseKeeps(s, s.shared, lane, if s.shared.active then Idle else Absent, id);
    case DoFinish(lane) =>
      FinishBook(s, lane, id);
      RunningLedger(s, lane);
      BookEntry(s, s.workers.At(lane).id, lane);
      if s.workers.At(lane).id == id { HandledBalanced(b, lane); }
    case DoHandoff(lane) =>
      HandoffBook(s, lane, id);
      LeavingLedger(s, lane);
      BookEntry(s, s.workers.At(lane).id, lane);
      if s.workers.At(lane).id == id { HandedOverBalanced(b, lane); }
    case DoSkipHandoff =>
      SkipBook(s, id);
      SkippedBalanced(b);
    case DoEnqueueCold(lane) =>
      EnqueueColdBook(caps, s, lane, id);
      EnqueuingLedger(s, lane);
      BookEntry(s, s.workers.At(lane).id, lane);
      if s.workers.At(lane).id == id { AttemptBalanced(b, lane, HasRoom(caps, s.shared, Cold)); }
    case DoComplete(lane, survives) => CompleteKeeps(s, lane, survives, id);
  }

  /** A phase that no book speaks about. */
  ghost predicate Quiet(p: Phase) { p.Absent? || p.Idle? || p.TimedOut? || p.Completing? }

  lemma QuietLedger(s: State, t: State, lane: Lane, phase: Phase, id: nat, m: Lane)
    requires Quiet(s.workers.At(lane)) && Quiet(phase)
    requires t.shared.queues == s.shared.queues
    requires t == s.(workers := s.workers.With(lane, phase), shared := t.shared)
    ensures LedgerOf(t, id, m) == LedgerOf(s, id, m)
  {
    hide PerLane.With, PerLane.At;
    WithAt(s.workers, lane, phase, m);
  }

  lemma QuietPhaseKeeps(s: State, shared: Shared, lane: Lane, phase: Phase, id: nat)
    requires Quiet(s.workers.At(lane)) && Quiet(phase)
    requires shared.queues == s.shared.queues && shared.pendingCold == s.shared.pendingCold
    ensures BookOf(s.(workers := s.workers.With(lane, phase), shared := shared), id) == BookOf(s, id)
  {
    hide LedgerOf, PerLane.With, PerLane.At;
    var t := s.(workers := s.workers.With(lane, phase), shared := shared);
    QuietLedger(s, t, lane, phase, id, Market);
    QuietLedger(s, t, lane, phase, id, Execution);
    QuietLedger(s, t, lane, phase, id, Cold);
  }

  lemma CompleteKeeps(s: State, lane: Lane, survives: bool, id: nat)
    requires s.workers.At(lane).Completing?
    ensures BookOf(Complete(s, lane, survives), id) == BookOf(s, id)
  {
    QuietPhaseKeeps(s, Completed(s.shared), lane, if survives then Idle else Absent, id);
  }

  lemma SkipLedger(s: State, id: nat, m: Lane)
    requires s.workers.cold.Leaving?
    ensures LedgerOf(s.(workers := s.workers.With(Cold, Completing(s.workers.cold.id))), id, m)
            == if m == Cold && s.workers.cold.id == id then LedgerOf(s, id, m).(leaving := false)
               else LedgerOf(s, id, m)
  {
  }

  lemma SkipBook(s: State, id: nat)
    requires s.workers.cold.Leaving?
    ensures BookOf(s.(workers := s.workers.With(Cold, Completing(s.workers.cold.id))), id)
            == if s.workers.cold.id == id then BookSkipped(BookOf(s, id)) else BookOf(s, id)
  {
    hide LedgerOf;
    SkipLedger(s, id, Market);
    SkipLedger(s, id, Execution);
    SkipLedger(s, id, Cold);
  }

  lemma ControlStepKeeps(caps: PerLane<nat>, s: State, step: Step, id: nat)
    requires ControlEnabled(s, step)
    ensures BookOf(ControlNext(caps, s, step), id) == BookOf(s, id)
  {
    hide LedgerOf, PerLane.With, PerLane.At;
    ControlLedger(caps, s, step, id, Market);
    ControlLedger(caps, s, step, id, Execution);
    ControlLedger(caps, s, step, id, Cold);
  }

  lemma ControlLedger(caps: PerLane<nat>, s: State, step: Step, id: nat, m: Lane)
    requires ControlEnabled(s, step)
    ensures LedgerOf(ControlNext(caps, s, step), id, m) == LedgerOf(s, id, m)
  {
    match step
    case DoPutToken => TokenLedger(caps, s, id, m);
    case DoDrainRaises(lane) => DrainRaisesLedger(caps, s, lane, id, m);
    case _ =>
  }

  lemma TokenLedger(caps: PerLane<nat>, s: State, id: nat, m: Lane)
    requires s.stopper.SendingTokens? && s.stopper.todo != []
    ensures LedgerOf(PutToken(caps, s), id, m) == LedgerOf(s, id, m)
  {
    hide PerLane.With, PerLane.At, Count;
    var lane := s.stopper.todo[0];
    QueueGrows(s.shared.queues.At(lane), Token, Work(id));
    WithAt(s.shared.queues, lane, s.shared.queues.At(lane) + [Token], m);
  }

  lemma DrainRaisesLedger(caps: PerLane<nat>, s: State, lane: Lane, id: nat, m: Lane)
    requires ControlEnabled(s, DoDrainRaises(lane))
    ensures LedgerOf(ControlNext(caps, s, DoDrainRaises(lane)), id, m) == LedgerOf(s, id, m)
  {
    hide PerLane.With, PerLane.At, Count;
    CountTail(s.shared.queues.At(lane), Work(id));
    WithAt(s.shared.queues, lane, s.shared.queues.At(lane)[1..], m);
  }

  lemma KnownByPut(caps: PerLane<nat>, s: State, step: Step)
    requires Known(s) && PutEnabled(s, step)
    ensures Known(PutNext(caps, s, step))
  {
    hide PerLane.With, PerLane.At, HotLanes;
  }

  lemma KnownByWorker(caps: PerLane<nat>, s: State, step: Step)
    requires Known(s) && WorkerEnabled(s, step)
    ensures Known(WorkerNext(caps, s, step))
  {
    hide PerLane.With, PerLane.At;
  }

  lemma KnownKept(caps: PerLane<nat>, s: State, step: Step)
    requires Known(s) && Next(caps, s, step).Some?
    ensures Known(Next(caps, s, step).value)
  {
    hide PerLane.With, PerLane.At, PutEnabled, PutNext, WorkerEnabled, WorkerNext;
    if PutEnabled(s, step) {
      KnownByPut(caps, s, step);
    } else if WorkerEnabled(s, step) {
      KnownByWorker(caps, s, step);
    }
  }

  lemma BooksKept(caps: PerLane<nat>, s: State, step: Step)
    requires Books(s) && Next(caps, s, step).Some?
    ensures Books(Next(caps, s, step).value)
  {
    hide BookOf, Book.Balanced, PutNext, WorkerNext, ControlNext, PutEnabled, WorkerEnabled, ControlEnabled, Known;
    KnownKept(caps, s, step);
    forall id: nat ensures BookOf(Next(caps, s, step).value, id).Balanced() {
      assert BookOf(s, id).Balanced();
      if PutEnabled(s, step) {
        PutStepKeeps(caps, s, step, id);
      } else if WorkerEnabled(s, step) {
        WorkerStepKeeps(caps, s, step, id);
      } else {
        ControlStepKeeps(caps, s, step, id);
      }
    }
  }

  lemma {:induction false} RunBooks(caps: PerLane<nat>, steps: seq<Step>)
    requires Run(caps, INITIAL, steps).Some?
    ensures Books(Run(caps, INITIAL, steps).value)
  {
    hide Books, Next;
    if steps == [] {
      InitialBooks();
    } else {
      RunBooks(caps, steps[..|steps| - 1]);
      BooksKept(caps, Run(caps, INITIAL, steps[..|steps| - 1]).value, steps[|steps| - 1]);
    }
  }

  // ---------------------------------------------------------------- hot-to-cold handoff

  /** The lane was given the dispatch once and has finished its handlers, or refused it. */
  ghost predicate SettledOnce(s: State, id: nat, lane: Lane) {
    s.finished.At(lane)[id] + s.refused.At(lane)[id] == 1
  }

  ghost predicate HotSettled(s: State, id: nat, kind: Kind) {
    (kind.market ==> SettledOnce(s, id, Market)) && (kind.execution ==> SettledOnce(s, id, Execution))
  }

  predicate Holds(p: Phase, id: nat) {
    p == Running(id) || p == Leaving(id) || p == EnqueuingCold(id)
  }

  /** Some thread still has to do something for the hot part of the dispatch. */
  predicate InProgress(s: State, id: nat) {
    || id in s.puts
    || Work(id) in s.shared.queues.market || Work(id) in s.shared.queues.execution
    || Holds(s.workers.market, id) || Holds(s.workers.execution, id) || Holds(s.workers.cold, id)
  }

  lemma BalancedHandoff(s: State, id: nat)
    requires id in s.kinds && s.kinds[id].cold
    ensures BookOf(s, id).Balanced() ==>
              && s.attempts[id] <= 1
              && (s.attempts[id] == 1 || BookOf(s, id).Electing() ==> HotSettled(s, id, s.kinds[id]))
              && (!InProgress(s, id) ==> s.attempts[id] == 1)
  {
    var b := BookOf(s, id);
    if b.Balanced() && !InProgress(s, id) {
      assert b.lanes.market.Owes() == 0 && b.lanes.execution.Owes() == 0;
    }
  }

  /** In every reachable state: at most one cold attempt, none before every hot lane has finished
      or refused the event, and exactly one once nothing is left to do for the dispatch. */
  lemma HandoffExactlyOnce(caps: PerLane<nat>, steps: seq<Step>, id: nat)
    requires Run(caps, INITIAL, steps).Some? && id in Run(caps, INITIAL, steps).value.kinds
    requires Run(caps, INITIAL, steps).value.kinds[id].cold
    ensures var s := Run(caps, INITIAL, steps).value;
            && s.attempts[id] <= 1
            && (s.attempts[id] == 1 ==> HotSettled(s, id, s.kinds[id]))
            && (!InProgress(s, id) ==> s.attempts[id] == 1)
  {
    hide Run, BookOf, HotSettled, InProgress;
    RunBooks(caps, steps);
    BalancedHandoff(Run(caps, INITIAL, steps).value, id);
  }

  /** A lane without handlers for the event never sees it, and no lane handles it twice. */
  lemma LaneHandlesOnce(caps: PerLane<nat>, steps: seq<Step>, id: nat)
    requires Run(caps, INITIAL, steps).Some? && id in Run(caps, INITIAL, steps).value.kinds
    ensures var s := Run(caps, INITIAL, steps).value;
            var kind := s.kinds[id];
            && s.finished.market[id] + s.refused.market[id] <= One(kind.market)
            && s.finished.execution[id] + s.refused.execution[id] <= One(kind.execution)
            && s.finished.cold[id] + s.refused.cold[id] <= s.attempts[id] <= One(kind.cold)
  {
    hide Run;
    RunBooks(caps, steps);
    assert BookOf(Run(caps, INITIAL, steps).value, id).Balanced();
  }

  /** The step that makes the attempt finds every hot lane already settled. */
  lemma AttemptFindsHotSettled(caps: PerLane<nat>, steps: seq<Step>, step: Step, id: nat)
    requires Run(caps, INITIAL, steps).Some? && Next(caps, Run(caps, INITIAL, steps).value, step).Some?
    requires var s := Run(caps, INITIAL, steps).value;
             Next(caps, s, step).value.attempts[id] != s.attempts[id]
    ensures var s := Run(caps, INITIAL, steps).value;
            s.attempts[id] == 0 && id in s.kinds && s.kinds[id].cold && HotSettled(s, id, s.kinds[id])
  {
    hide Run, Next, BookOf, Book.Balanced, Book.Electing, HotSettled, InProgress;
    RunBooks(caps, steps);
    var s := Run(caps, INITIAL, steps).value;
    AttemptStep(caps, s, step, id);
    ElectingIsFirst(BookOf(s, id));
    BookSays(s, id);
    BalancedHandoff(s, id);
  }

  lemma AttemptStep(caps: PerLane<nat>, s: State, step: Step, id: nat)
    requires Next(caps, s, step).Some? && Next(caps, s, step).value.attempts[id] != s.attempts[id]
    ensures BookOf(s, id).Electing()
  {
    hide PutEnabled, PutNext, WorkerEnabled, WorkerNext;
    if PutEnabled(s, step) {
      PutAttempts(caps, s, step, id);
    } else if WorkerEnabled(s, step) {
      WorkerAttempts(caps, s, step, id);
    }
  }

  lemma PutAttempts(caps: PerLane<nat>, s: State, step: Step, id: nat)
    requires PutEnabled(s, step)
    ensures PutNext(caps, s, step).attempts[id] != s.attempts[id] ==> BookOf(s, id).Electing()
  {
    hide PerLane.With, HotLanes, Enqueued, HandedOff;
  }

  lemma WorkerAttempts(caps: PerLane<nat>, s: State, step: Step, id: nat)
    requires WorkerEnabled(s, step)
    ensures WorkerNext(caps, s, step).attempts[id] != s.attempts[id] ==> BookOf(s, id).Electing()
  {
    hide PerLane.With, Enqueued, HandedOff, Dequeued;
  }

  lemma ElectingIsFirst(b: Book)
    requires b.Balanced() && b.Electing()
    ensures b.attempts == 0 && b.kind.cold
  {
  }

  lemma BookSays(s: State, id: nat)
    ensures BookOf(s, id).attempts == s.attempts[id]
    ensures BookOf(s, id).kind.cold ==> id in s.kinds && s.kinds[id].cold
  {
  }
}
