/** The window around the equity curve: positions at its boundaries, the flatness checks, the
    merged event order, and what they bound. */
module EquityWindow {
  import opened Options
  import opened RealArithmetic
  import opened EquityCurve
  import opened EquityAccount

  // ---------------------------------------------------------------- net positions

  /** What one execution adds to the position in `s`. */
  function SignedFor(e: Execution, s: Symbol): real {
    if e.symbol != s then 0.0 else if e.isBuy then e.quantity else -e.quantity
  }

  function Net(es: seq<Execution>, s: Symbol): real {
    if es == [] then 0.0 else Net(es[..|es| - 1], s) + SignedFor(es[|es| - 1], s)
  }

  function Before(es: seq<Execution>, cutoff: real): seq<Execution> {
    if es == [] then []
    else
      var front := Before(es[..|es| - 1], cutoff);
      if es[|es| - 1].time < cutoff then front + [es[|es| - 1]] else front
  }

  function Within(es: seq<Execution>, from: real, to: real): seq<Execution> {
    if es == [] then []
    else
      var front := Within(es[..|es| - 1], from, to);
      if from <= es[|es| - 1].time <= to then front + [es[|es| - 1]] else front
  }

  /** The funding payments inside the window. */
  function PaidWithin(flows: seq<Funding>, from: real, to: real): seq<Funding> {
    if flows == [] then []
    else
      var front := PaidWithin(flows[..|flows| - 1], from, to);
      if from <= flows[|flows| - 1].time <= to then front + [flows[|flows| - 1]] else front
  }

  /** What the three selections keep: everything on its side of the boundaries, nothing else. */
  lemma {:induction false} SelectedExecutions(es: seq<Execution>, from: real, to: real, e: Execution)
    ensures multiset(Before(es, from))[e] == if e.time < from then multiset(es)[e] else 0
    ensures multiset(Within(es, from, to))[e] == if from <= e.time <= to then multiset(es)[e] else 0
  {
    if es != [] {
      SelectedExecutions(es[..|es| - 1], from, to, e);
      assert es == es[..|es| - 1] + [es[|es| - 1]];
    }
  }

  lemma {:induction false} SelectedFunding(flows: seq<Funding>, from: real, to: real, f: Funding)
    ensures multiset(PaidWithin(flows, from, to))[f] == if from <= f.time <= to then multiset(flows)[f] else 0
  {
    if flows != [] {
      SelectedFunding(flows[..|flows| - 1], from, to, f);
      assert flows == flows[..|flows| - 1] + [flows[|flows| - 1]];
    }
  }

  ghost predicate ByTime(es: seq<Execution>) { forall i, j :: 0 <= i < j < |es| ==> es[i].time <= es[j].time }

  lemma {:induction false} AllBefore(es: seq<Execution>, cutoff: real)
    requires forall i :: 0 <= i < |es| ==> es[i].time < cutoff
    ensures Before(es, cutoff) == es
  {
    if es != [] {
      AllBefore(es[..|es| - 1], cutoff);
    }
  }

  /** In time order, everything before the cutoff is the part in front of the first that is not. */
  lemma {:induction false} BeforeIsPrefix(es: seq<Execution>, k: nat, cutoff: real)
    requires ByTime(es) && k <= |es| && (forall i :: 0 <= i < k ==> es[i].time < cutoff)
    requires k < |es| ==> es[k].time >= cutoff
    ensures Before(es, cutoff) == es[..k]
  {
    if k == |es| {
      AllBefore(es, cutoff);
      assert es[..k] == es;
    } else {
      var front := es[..|es| - 1];
      assert es[|es| - 1].time >= es[k].time || k == |es| - 1;
      if k < |front| {
        BeforeIsPrefix(front, k, cutoff);
        assert front[..k] == es[..k];
      } else {
        AllBefore(front, cutoff);
        assert front == es[..k];
      }
    }
  }

  /** _position_at: it stops at the first execution at or after the cutoff, which on
      time-ordered executions misses nothing. */
  method PositionAt(es: seq<Execution>, cutoff: real) returns (p: map<Symbol, real>)
    requires ByTime(es)
    ensures forall s :: Get(p, s) == Net(Before(es, cutoff), s)
  {
    p := map[];
    var k := 0;
    while k < |es| && es[k].time < cutoff
      invariant k <= |es| && (forall i :: 0 <= i < k ==> es[i].time < cutoff)
      invariant forall s :: Get(p, s) == Net(es[..k], s)
    {
      assert es[..k + 1][..k] == es[..k];
      p := p[es[k].symbol := Get(p, es[k].symbol) + es[k].Signed()];
      k := k + 1;
    }
    BeforeIsPrefix(es, k, cutoff);
  }

  /** The loop that carries the start positions through the window's executions. */
  method FinalPositions(start: map<Symbol, real>, es: seq<Execution>) returns (p: map<Symbol, real>)
    ensures forall s :: Get(p, s) == Get(start, s) + Net(es, s)
  {
    p := start;
    for k := 0 to |es|
      invariant forall s :: Get(p, s) == Get(start, s) + Net(es[..k], s)
    {
      assert es[..k + 1][..k] == es[..k];
      p := p[es[k].symbol := Get(p, es[k].symbol) + es[k].Signed()];
    }
    assert es[..|es|] == es;
  }

  predicate Flat(p: map<Symbol, real>, symbols: set<Symbol>, tolerance: real) {
    forall s :: s in symbols ==> Abs(Get(p, s)) <= tolerance
  }

  /** Splitting at the start time: the window's executions continue the positions before it. */
  lemma {:induction false} WindowContinues(es: seq<Execution>, from: real, to: real, s: Symbol)
    requires from <= to
    ensures Net(Before(es, from), s) + Net(Within(es, from, to), s) == NetUpTo(es, to, s)
  {
    hide SignedFor;
    if es != [] {
      var front, e := es[..|es| - 1], es[|es| - 1];
      WindowContinues(front, from, to, s);
      NetAppend(Before(front, from), e, s);
      NetAppend(Within(front, from, to), e, s);
    }
  }

  /** The position after every execution up to and including `to`. */
  function NetUpTo(es: seq<Execution>, to: real, s: Symbol): real {
    if es == [] then 0.0
    else NetUpTo(es[..|es| - 1], to, s) + if es[|es| - 1].time <= to then SignedFor(es[|es| - 1], s) else 0.0
  }

  lemma NetAppend(es: seq<Execution>, e: Execution, s: Symbol)
    ensures Net(es + [e], s) == Net(es, s) + SignedFor(e, s)
  {
    assert (es + [e])[..|es|] == es;
  }

  // ---------------------------------------------------------------- the fills inside an event order

  lemma {:induction false} PositionIsNet(b: Book, evs: seq<Event>, s: Symbol)
    ensures Get(After(b, evs).positions, s) == Get(b.positions, s) + Net(FillsOf(evs), s)
  {
    if evs != [] {
      PositionIsNet(b, evs[..|evs| - 1], s);
      if evs[|evs| - 1].Fill? { NetAppend(FillsOf(evs[..|evs| - 1]), evs[|evs| - 1].fill, s); }
    }
  }

  /** The net position is what was bought less what was sold. */
  lemma {:induction false} NetIsTraded(es: seq<Execution>, s: Symbol)
    ensures Net(es, s) == Traded(es, s, true) - Traded(es, s, false)
  {
    if es != [] { NetIsTraded(es[..|es| - 1], s); }
  }

  /** Net positions do not depend on the order of the executions. */
  lemma NetPermutation(a: seq<Execution>, b: seq<Execution>, s: Symbol)
    requires multiset(a) == multiset(b)
    ensures Net(a, s) == Net(b, s)
  {
    NetIsTraded(a, s);
    NetIsTraded(b, s);
    TotalPermutation(a, b, (x: Execution) => Lot(x, s, true));
    TotalPermutation(a, b, (x: Execution) => Lot(x, s, false));
  }

  // ---------------------------------------------------------------- what flat boundaries bound

  function MarkSum(held: seq<Symbol>, marks: map<Symbol, real>): real {
    if held == [] then 0.0 else MarkSum(held[..|held| - 1], marks) + Get(marks, held[|held| - 1])
  }

  lemma BoundedValue(q: real, price: real, bound: real)
    requires Abs(q) <= bound && price >= 0.0
    ensures Abs(Value(q, price)) <= Value(bound, price)
  {
    NonNegativeProduct(bound - q, price);
    NonNegativeProduct(bound + q, price);
    assert (bound - q) * price == bound * price - q * price;
    assert (bound + q) * price == bound * price + q * price;
  }

  lemma ValueOfSum(bound: real, a: real, b: real)
    ensures Value(bound, a + b) == Value(bound, a) + Value(bound, b)
    ensures Value(bound, 0.0) == 0.0
  {
  }

  lemma {:induction false} BoundedHoldings(held: seq<Symbol>, p: map<Symbol, real>, m: map<Symbol, real>, bound: real)
    requires forall i :: 0 <= i < |held| ==> Abs(Get(p, held[i])) <= bound && Get(m, held[i]) >= 0.0
    ensures Abs(Holdings(held, p, m)) <= Value(bound, MarkSum(held, m))
  {
    hide Value, Get;
    if held == [] {
      ValueOfSum(bound, 0.0, 0.0);
    } else {
      var front, s := held[..|held| - 1], held[|held| - 1];
      BoundedHoldings(front, p, m, bound);
      BoundedValue(Get(p, s), Get(m, s), bound);
      ValueOfSum(bound, MarkSum(front, m), Get(m, s));
    }
  }

  ghost predicate NonNegativeMarks(m: map<Symbol, real>) { forall s :: s in m ==> m[s] >= 0.0 }

  ghost predicate NonNegativeMoves(evs: seq<Event>) {
    forall i :: 0 <= i < |evs| && evs[i].Move? ==> evs[i].mark.price >= 0.0
  }

  lemma {:induction false} MarksStayNonNegative(b: Book, evs: seq<Event>)
    requires NonNegativeMarks(b.marks) && NonNegativeMoves(evs)
    ensures NonNegativeMarks(After(b, evs).marks)
  {
    if evs != [] { MarksStayNonNegative(b, evs[..|evs| - 1]); }
  }

  ghost predicate FillsOn(evs: seq<Event>, symbols: set<Symbol>) {
    forall i :: 0 <= i < |evs| && evs[i].Fill? ==> evs[i].fill.symbol in symbols
  }

  lemma {:induction false} HeldAreTraded(b: Book, evs: seq<Event>, symbols: set<Symbol>)
    requires forall i :: 0 <= i < |b.held| ==> b.held[i] in symbols
    requires FillsOn(evs, symbols)
    ensures forall i :: 0 <= i < |After(b, evs).held| ==> After(b, evs).held[i] in symbols
  {
    if evs != [] { HeldAreTraded(b, evs[..|evs| - 1], symbols); }
  }

  /** Flat at both boundaries: the reported cash differs from the final equity by at most twice
      the tolerance times the final marks of the traded symbols. */
  lemma FlatBoundaryBound(marks: map<Symbol, real>, evs: seq<Event>, window: seq<Execution>,
                          start: map<Symbol, real>, end: map<Symbol, real>, symbols: set<Symbol>, tolerance: real)
    requires NonNegativeMarks(marks) && NonNegativeMoves(evs)
    requires multiset(FillsOf(evs)) == multiset(window)
    requires FillsOn(evs, symbols)
    requires Flat(start, symbols, tolerance) && Flat(end, symbols, tolerance)
    requires forall s :: Get(end, s) == Get(start, s) + Net(window, s)
    ensures var b := After(Opening(marks), evs);
            Abs(Equity(b) - b.cash) <= Value(2.0 * tolerance, MarkSum(b.held, b.marks))
  {
    hide Value, Net, FillsOf;
    var b := After(Opening(marks), evs);
    MarksStayNonNegative(Opening(marks), evs);
    HeldAreTraded(Opening(marks), evs, symbols);
    forall i | 0 <= i < |b.held| ensures Abs(Get(b.positions, b.held[i])) <= 2.0 * tolerance {
      var s := b.held[i];
      PositionIsNet(Opening(marks), evs, s);
      NetPermutation(FillsOf(evs), window, s);
      assert s in symbols;
    }
    BoundedHoldings(b.held, b.positions, b.marks, 2.0 * tolerance);
  }

  // ---------------------------------------------------------------- the merged order

  function Time(ev: Event): real {
    match ev case Fill(e) => e.time case Cash(f) => f.time case Move(m) => m.time
  }

  /** At equal times funding comes first, then fills, then marks. */
  function Rank(ev: Event): int { match ev case Cash(_) => 0 case Fill(_) => 1 case Move(_) => 2 }

  predicate NotAfter(a: Event, b: Event) { Time(a) < Time(b) || (Time(a) == Time(b) && Rank(a) <= Rank(b)) }

  ghost predicate InOrder(evs: seq<Event>) { forall i, j :: 0 <= i < j < |evs| ==> NotAfter(evs[i], evs[j]) }

  /** Stable insertion: behind everything that is not after it. */
  function Insert(evs: seq<Event>, ev: Event): seq<Event> {
    if evs == [] || NotAfter(evs[|evs| - 1], ev) then evs + [ev]
    else Insert(evs[..|evs| - 1], ev) + [evs[|evs| - 1]]
  }

  function Sorted(evs: seq<Event>): seq<Event> {
    if evs == [] then [] else Insert(Sorted(evs[..|evs| - 1]), evs[|evs| - 1])
  }

  lemma {:induction false} InsertContents(evs: seq<Event>, ev: Event)
    ensures multiset(Insert(evs, ev)) == multiset(evs) + multiset{ev}
    ensures forall x: Event :: x in Insert(evs, ev) ==> x in evs || x == ev
  {
    hide NotAfter;
    if !(evs == [] || NotAfter(evs[|evs| - 1], ev)) {
      InsertContents(evs[..|evs| - 1], ev);
      assert evs == evs[..|evs| - 1] + [evs[|evs| - 1]];
    }
  }

  lemma NotAfterTransitive(a: Event, b: Event, c: Event)
    requires NotAfter(a, b) && NotAfter(b, c)
    ensures NotAfter(a, c)
  {
  }

  lemma NotAfterTotal(a: Event, b: Event)
    ensures NotAfter(a, b) || NotAfter(b, a)
  {
  }

  lemma OrderedAppend(evs: seq<Event>, last: Event)
    requires InOrder(evs) && forall x: Event :: x in evs ==> NotAfter(x, last)
    ensures InOrder(evs + [last])
  {
    hide NotAfter;
  }

  lemma LastIsLatest(evs: seq<Event>, x: Event)
    requires InOrder(evs) && x in evs
    ensures NotAfter(x, evs[|evs| - 1])
  {
    var k :| 0 <= k < |evs| && evs[k] == x;
    if k == |evs| - 1 { NotAfterTotal(x, x); }
  }

  lemma {:induction false} InsertOrdered(evs: seq<Event>, ev: Event)
    requires InOrder(evs)
    ensures InOrder(Insert(evs, ev))
  {
    hide NotAfter;
    if evs == [] {
    } else if NotAfter(evs[|evs| - 1], ev) {
      forall x: Event | x in evs ensures NotAfter(x, ev) {
        LastIsLatest(evs, x);
        NotAfterTransitive(x, evs[|evs| - 1], ev);
      }
      OrderedAppend(evs, ev);
    } else {
      var front, last := evs[..|evs| - 1], evs[|evs| - 1];
      InsertOrdered(front, ev);
      InsertContents(front, ev);
      NotAfterTotal(last, ev);
      forall x: Event | x in Insert(front, ev) ensures NotAfter(x, last) {
        if x in front { LastIsLatest(evs, x); }
      }
      OrderedAppend(Insert(front, ev), last);
    }
  }

  /** The processed order is in time, funding before fills before marks, and holds every event once. */
  lemma {:induction false} SortedIsOrder(evs: seq<Event>)
    ensures InOrder(Sorted(evs)) && multiset(Sorted(evs)) == multiset(evs)
  {
    if evs != [] {
      SortedIsOrder(evs[..|evs| - 1]);
      assert evs == evs[..|evs| - 1] + [evs[|evs| - 1]];
      InsertOrdered(Sorted(evs[..|evs| - 1]), evs[|evs| - 1]);
      InsertContents(Sorted(evs[..|evs| - 1]), evs[|evs| - 1]);
    }
  }

  /** The order spelled out: by time, and at one time funding, then fills, then marks. */
  ghost predicate Precedes(a: Event, b: Event) {
    match (a, b)
    case (Cash(f), Cash(g)) => f.time <= g.time
    case (Cash(f), Fill(e)) => f.time <= e.time
    case (Cash(f), Move(m)) => f.time <= m.time
    case (Fill(e), Cash(f)) => e.time < f.time
    case (Fill(e), Fill(g)) => e.time <= g.time
    case (Fill(e), Move(m)) => e.time <= m.time
    case (Move(m), Cash(f)) => m.time < f.time
    case (Move(m), Fill(e)) => m.time < e.time
    case (Move(m), Move(n)) => m.time <= n.time
  }

  lemma ProcessedInOrder(evs: seq<Event>, i: nat, j: nat)
    requires i < j < |Sorted(evs)|
    ensures Precedes(Sorted(evs)[i], Sorted(evs)[j])
  {
    SortedIsOrder(evs);
    assert NotAfter(Sorted(evs)[i], Sorted(evs)[j]);
  }

  predicate Ties(a: Event, b: Event) { NotAfter(a, b) && NotAfter(b, a) }

  /** The events that sort equal to `ev`, in their order. */
  function TiedWith(evs: seq<Event>, ev: Event): seq<Event> {
    if evs == [] then []
    else
      var front := TiedWith(evs[..|evs| - 1], ev);
      if Ties(evs[|evs| - 1], ev) then front + [evs[|evs| - 1]] else front
  }

  lemma TiedAppend(evs: seq<Event>, x: Event, ev: Event)
    ensures TiedWith(evs + [x], ev) == TiedWith(evs, ev) + if Ties(x, ev) then [x] else []
  {
    assert (evs + [x])[..|evs|] == evs;
  }

  lemma {:induction false} InsertStable(evs: seq<Event>, x: Event, ev: Event)
    ensures TiedWith(Insert(evs, x), ev) == TiedWith(evs, ev) + if Ties(x, ev) then [x] else []
  {
    TiedAppend(evs, x, ev);
    if !(evs == [] || NotAfter(evs[|evs| - 1], x)) {
      InsertStable(evs[..|evs| - 1], x, ev);
      TiedAppend(Insert(evs[..|evs| - 1], x), evs[|evs| - 1], ev);
    }
  }

  /** The sort is stable: events that tie keep the order in which they were collected. */
  lemma {:induction false} SortedIsStable(evs: seq<Event>, ev: Event)
    ensures TiedWith(Sorted(evs), ev) == TiedWith(evs, ev)
  {
    if evs != [] {
      SortedIsStable(evs[..|evs| - 1], ev);
      InsertStable(Sorted(evs[..|evs| - 1]), evs[|evs| - 1], ev);
    }
  }

  lemma {:induction false} FlowsCount(evs: seq<Event>, f: Funding)
    ensures multiset(FlowsOf(evs))[f] == multiset(evs)[Cash(f)]
  {
    if evs != [] {
      FlowsCount(evs[..|evs| - 1], f);
      assert evs == evs[..|evs| - 1] + [evs[|evs| - 1]];
    }
  }

  lemma {:induction false} FillsCount(evs: seq<Event>, e: Execution)
    ensures multiset(FillsOf(evs))[e] == multiset(evs)[Fill(e)]
  {
    if evs != [] {
      FillsCount(evs[..|evs| - 1], e);
      assert evs == evs[..|evs| - 1] + [evs[|evs| - 1]];
    }
  }

  /** [fills] + [funding] + [marks inside the window], before sorting. */
  function EventsOf(es: seq<Execution>, flows: seq<Funding>, marks: seq<Mark>, from: real, to: real): seq<Event> {
    FillEvents(es) + CashEvents(flows) + MoveEvents(marks, from, to)
  }

  function FillEvents(es: seq<Execution>): seq<Event> {
    if es == [] then [] else FillEvents(es[..|es| - 1]) + [Fill(es[|es| - 1])]
  }

  function CashEvents(flows: seq<Funding>): seq<Event> {
    if flows == [] then [] else CashEvents(flows[..|flows| - 1]) + [Cash(flows[|flows| - 1])]
  }

  function MoveEvents(marks: seq<Mark>, from: real, to: real): seq<Event> {
    if marks == [] then []
    else
      var front, m := MoveEvents(marks[..|marks| - 1], from, to), marks[|marks| - 1];
      if from < m.time <= to then front + [Move(m)] else front
  }

  lemma {:induction false} FillEventsCount(es: seq<Execution>, ev: Event)
    ensures multiset(FillEvents(es))[ev] == if ev.Fill? then multiset(es)[ev.fill] else 0
  {
    if es != [] {
      FillEventsCount(es[..|es| - 1], ev);
      assert es == es[..|es| - 1] + [es[|es| - 1]];
    }
  }

  lemma {:induction false} CashEventsHaveNoFill(flows: seq<Funding>)
    ensures forall ev :: ev in CashEvents(flows) ==> ev.Cash?
  {
    if flows != [] { CashEventsHaveNoFill(flows[..|flows| - 1]); }
  }

  lemma {:induction false} MoveEventsAreMarks(marks: seq<Mark>, from: real, to: real)
    ensures forall ev :: ev in MoveEvents(marks, from, to) ==> ev.Move? && ev.mark in marks
  {
    if marks != [] { MoveEventsAreMarks(marks[..|marks| - 1], from, to); }
  }

  lemma {:induction false} CashEventsCount(flows: seq<Funding>, ev: Event)
    ensures multiset(CashEvents(flows))[ev] == if ev.Cash? then multiset(flows)[ev.flow] else 0
  {
    if flows != [] {
      CashEventsCount(flows[..|flows| - 1], ev);
      assert flows == flows[..|flows| - 1] + [flows[|flows| - 1]];
    }
  }

  lemma {:induction false} MoveEventsCount(marks: seq<Mark>, from: real, to: real, ev: Event)
    ensures multiset(MoveEvents(marks, from, to))[ev]
            == if ev.Move? && from < ev.mark.time <= to then multiset(marks)[ev.mark] else 0
  {
    if marks != [] {
      MoveEventsCount(marks[..|marks| - 1], from, to, ev);
      assert marks == marks[..|marks| - 1] + [marks[|marks| - 1]];
    }
  }

  /** The processed order holds every execution and payment it is given, and every mark later than
      the start and no later than the end, each as often as it is there, and nothing else. */
  lemma OrderHasTheEvents(es: seq<Execution>, flows: seq<Funding>, marks: seq<Mark>, from: real, to: real, ev: Event)
    ensures multiset(Sorted(EventsOf(es, flows, marks, from, to)))[ev]
            == match ev
               case Fill(e) => multiset(es)[e]
               case Cash(f) => multiset(flows)[f]
               case Move(m) => if from < m.time <= to then multiset(marks)[m] else 0
  {
    hide Sorted, FillEvents, CashEvents, MoveEvents, InOrder;
    SortedIsOrder(EventsOf(es, flows, marks, from, to));
    FillEventsCount(es, ev);
    CashEventsCount(flows, ev);
    MoveEventsCount(marks, from, to, ev);
  }

  /** The processed order contains exactly the window's executions and payments. */
  lemma OrderHasTheFills(es: seq<Execution>, flows: seq<Funding>, marks: seq<Mark>, from: real, to: real)
    ensures multiset(FillsOf(Sorted(EventsOf(es, flows, marks, from, to)))) == multiset(es)
    ensures multiset(FlowsOf(Sorted(EventsOf(es, flows, marks, from, to)))) == multiset(flows)
  {
    hide Sorted, EventsOf, NotAfter;
    var evs := Sorted(EventsOf(es, flows, marks, from, to));
    forall e: Execution ensures multiset(FillsOf(evs))[e] == multiset(es)[e] {
      FillsCount(evs, e);
      OrderHasTheEvents(es, flows, marks, from, to, Fill(e));
    }
    forall f: Funding ensures multiset(FlowsOf(evs))[f] == multiset(flows)[f] {
      FlowsCount(evs, f);
      OrderHasTheEvents(es, flows, marks, from, to, Cash(f));
    }
  }

  lemma EventSource(es: seq<Execution>, flows: seq<Funding>, marks: seq<Mark>, from: real, to: real, ev: Event)
    requires ev in Sorted(EventsOf(es, flows, marks, from, to))
    ensures ev.Fill? ==> ev.fill in es
    ensures ev.Move? ==> ev.mark in marks
  {
    hide Sorted, NotAfter, FillEvents, CashEvents, MoveEvents;
    SortedHasSame(EventsOf(es, flows, marks, from, to), ev);
    CashEventsHaveNoFill(flows);
    MoveEventsAreMarks(marks, from, to);
    FillEventsAreFills(es);
    var inMoves := ev in MoveEvents(marks, from, to);
    assert ev in FillEvents(es) || ev in CashEvents(flows) || inMoves;
  }

  lemma SortedHasSame(evs: seq<Event>, ev: Event)
    requires ev in Sorted(evs)
    ensures ev in evs
  {
    hide Sorted, NotAfter;
    SortedIsOrder(evs);
    assert ev in multiset(Sorted(evs)) && ev in multiset(evs);
  }

  lemma {:induction false} FillEventsAreFills(es: seq<Execution>)
    ensures forall ev :: ev in FillEvents(es) ==> ev.Fill? && ev.fill in es
  {
    if es != [] { FillEventsAreFills(es[..|es| - 1]); }
  }

  // ---------------------------------------------------------------- the whole computation

  ghost predicate MarksByTime(marks: seq<Mark>) {
    forall i, j :: 0 <= i < j < |marks| ==> marks[i].time <= marks[j].time
  }

  /** The price of the last mark of `s` no later than `t`, if there is one. */
  function LastMark(marks: seq<Mark>, t: real, s: Symbol): Option<real> {
    if marks == [] then None
    else
      var m := marks[|marks| - 1];
      if m.time <= t && m.symbol == s then Some(m.price) else LastMark(marks[..|marks| - 1], t, s)
  }

  ghost predicate InForce(m: Mark, t: real, s: Symbol) { m.symbol == s && m.time <= t }

  lemma {:induction false} LastMarkIsLast(marks: seq<Mark>, t: real, s: Symbol)
    ensures match LastMark(marks, t, s)
            case None => forall i :: 0 <= i < |marks| ==> !InForce(marks[i], t, s)
            case Some(price) =>
              exists i :: 0 <= i < |marks| && InForce(marks[i], t, s) && marks[i].price == price
                          && forall j :: i < j < |marks| ==> !InForce(marks[j], t, s)
  {
    if marks != [] {
      var front, m := marks[..|marks| - 1], marks[|marks| - 1];
      LastMarkIsLast(front, t, s);
      if !InForce(m, t, s) && LastMark(front, t, s).Some? {
        var i :| 0 <= i < |front| && InForce(front[i], t, s) && front[i].price == LastMark(front, t, s).value
                 && forall j :: i < j < |front| ==> !InForce(front[j], t, s);
        assert InForce(marks[i], t, s) && forall j :: i < j < |marks| ==> !InForce(marks[j], t, s);
      }
    }
  }

  lemma {:induction false} LaterMarksIgnored(marks: seq<Mark>, k: nat, t: real, s: Symbol)
    requires k <= |marks| && forall i :: k <= i < |marks| ==> marks[i].time > t
    ensures LastMark(marks, t, s) == LastMark(marks[..k], t, s)
    decreases |marks|
  {
    if k < |marks| {
      var front := marks[..|marks| - 1];
      assert marks[|marks| - 1].time > t;
      LaterMarksIgnored(front, k, t, s);
      assert front[..k] == marks[..k];
    } else {
      assert marks[..k] == marks;
    }
  }

  ghost predicate AreLastMarks(latest: map<Symbol, real>, marks: seq<Mark>, t: real) {
    forall s :: LastMark(marks, t, s) == if s in latest then Some(latest[s]) else None
  }

  /** The loop that finds the marks in force at the start. */
  method MarksAtStart(marks: seq<Mark>, from: real) returns (latest: map<Symbol, real>)
    requires MarksByTime(marks)
    ensures AreLastMarks(latest, marks, from)
  {
    latest := map[];
    var k := 0;
    while k < |marks| && marks[k].time <= from
      invariant k <= |marks| && AreLastMarks(latest, marks[..k], from)
    {
      assert marks[..k + 1][..k] == marks[..k];
      latest := latest[marks[k].symbol := marks[k].price];
      k := k + 1;
    }
    forall s ensures LastMark(marks, from, s) == if s in latest then Some(latest[s]) else None {
      assert LastMark(marks[..k], from, s) == if s in latest then Some(latest[s]) else None;
      LaterMarksIgnored(marks, k, from, s);
    }
  }

  ghost predicate PositiveMarks(marks: seq<Mark>) { forall i :: 0 <= i < |marks| ==> marks[i].price > 0.0 }

  lemma {:induction false} LastMarkPositive(marks: seq<Mark>, t: real, s: Symbol)
    requires PositiveMarks(marks)
    ensures LastMark(marks, t, s).Some? ==> LastMark(marks, t, s).value > 0.0
  {
    if marks != [] { LastMarkPositive(marks[..|marks| - 1], t, s); }
  }

  ghost predicate OnSymbols(es: seq<Execution>, symbols: set<Symbol>) {
    forall i :: 0 <= i < |es| ==> es[i].symbol in symbols
  }

  lemma {:induction false} WithinIsPart(es: seq<Execution>, from: real, to: real, symbols: set<Symbol>)
    requires OnSymbols(es, symbols)
    ensures OnSymbols(Within(es, from, to), symbols)
  {
    if es != [] { WithinIsPart(es[..|es| - 1], from, to, symbols); }
  }

  ghost predicate NoRepeat(symbols: seq<Symbol>) {
    forall i, j :: 0 <= i < j < |symbols| ==> symbols[i] != symbols[j]
  }

  /** Distinct, and at least one. */
  ghost predicate ProperSymbols(symbols: seq<Symbol>) {
    symbols != [] && NoRepeat(symbols)
  }

  function SetOf(symbols: seq<Symbol>): set<Symbol> { set s | s in symbols }

  lemma NoRepeatStep(symbols: seq<Symbol>)
    requires symbols != []
    ensures var front, last := symbols[..|symbols| - 1], symbols[|symbols| - 1];
            && SetOf(symbols) == SetOf(front) + {last}
            && (NoRepeat(symbols) <==> NoRepeat(front) && last !in SetOf(front))
  {
    var front, last := symbols[..|symbols| - 1], symbols[|symbols| - 1];
    assert symbols == front + [last];
    if last in SetOf(front) {
      var i :| 0 <= i < |front| && front[i] == last;
      assert symbols[i] == symbols[|symbols| - 1];
    }
  }

  /** len(frozenset(symbols)) == len(symbols) */
  lemma {:induction false} DistinctBySize(symbols: seq<Symbol>)
    ensures |SetOf(symbols)| <= |symbols|
    ensures |SetOf(symbols)| == |symbols| <==> NoRepeat(symbols)
  {
    if symbols != [] {
      hide NoRepeat, SetOf;
      NoRepeatStep(symbols);
      DistinctBySize(symbols[..|symbols| - 1]);
    }
  }

  predicate ObservedInWindow(m: Mark, symbols: set<Symbol>, from: real, to: real) {
    m.symbol in symbols && from <= m.time <= to
  }

  /** Everything a caller can check beforehand: the order of the dates, configured symbols only, a
      window with executions and marks, without external cash flows and flat at both ends, and a
      mark in force for every symbol at its start. */
  ghost predicate Reconstructible(es: seq<Execution>, marks: seq<Mark>, transfers: seq<real>, symbols: seq<Symbol>,
                                  trained: real, from: real, to: real, tolerance: real) {
    && ProperSymbols(symbols) && trained < from < to
    && OnSymbols(es, SetOf(symbols)) && Within(es, from, to) != []
    && (forall i :: 0 <= i < |transfers| ==> !(from <= transfers[i] <= to))
    && (exists i :: 0 <= i < |marks| && ObservedInWindow(marks[i], SetOf(symbols), from, to))
    && forall s :: s in SetOf(symbols) ==> && Abs(Net(Before(es, from), s)) <= tolerance
                                           && Abs(NetUpTo(es, to, s)) <= tolerance
                                           && LastMark(marks, from, s).Some?
  }

  lemma {:induction false} MarksOnlyGrow(b: Book, evs: seq<Event>)
    ensures b.marks.Keys <= After(b, evs).marks.Keys
  {
    if evs != [] { MarksOnlyGrow(b, evs[..|evs| - 1]); }
  }

  /** With a mark for every configured symbol at the start, no position is ever without one: the
      "missing mark while position is open" error cannot happen. */
  lemma NeverMissingMark(latest: map<Symbol, real>, evs: seq<Event>, symbols: set<Symbol>)
    requires symbols <= latest.Keys
    requires FillsOn(evs, symbols)
    ensures NeverUnmarked(Opening(latest), evs)
  {
    var b0 := Opening(latest);
    forall i | 0 < i <= |evs| ensures Marked(After(b0, evs[..i])) {
      HeldAreTraded(b0, evs[..i], symbols);
      MarksOnlyGrow(b0, evs[..i]);
    }
  }

  /** What an accepted reconstruction has established about its own figures. */
  ghost predicate Sound(r: Result, b: Book, evs: seq<Event>, tolerance: real) {
    var end := After(b, evs);
    && r.cash == end.cash && IsMaxDrawdown(r.maxDrawdown, Curve(b, evs)) && NeverUnmarked(b, evs)
    && Equity(end) == Attribution(b, evs)
    && Abs(Equity(end) - r.cash) <= Value(2.0 * tolerance, MarkSum(end.held, end.marks))
  }

  /** The PnL part of reconstruct_oos_evidence. The reported PnL is what the window's sales bring less
      what its purchases cost, less commissions, plus its funding; `transfers` are the times of
      external cash flows, `trained` the end of the training period. */
  method Reconstruct(es: seq<Execution>, flows: seq<Funding>, marks: seq<Mark>, transfers: seq<real>,
                     symbols: seq<Symbol>,
                     trained: real, from: real, to: real, tolerance: real)
    returns (r: Option<Result>, ghost b: Book, ghost evs: seq<Event>)
    requires ByTime(es) && MarksByTime(marks) && PositiveMarks(marks)
    ensures r.Some? ==> Sound(r.value, b, evs, tolerance)
    ensures r.Some? ==> r.value.cash == Proceeds(Within(es, from, to), PaidWithin(flows, from, to))
    ensures r.Some? ==> AreLastMarks(b.marks, marks, from) && b == Opening(b.marks)
                        && evs == Sorted(EventsOf(Within(es, from, to), PaidWithin(flows, from, to), marks, from, to))
    ensures r.Some? <==> Reconstructible(es, marks, transfers, symbols, trained, from, to, tolerance)
  {
    hide Net, NetUpTo, Before, Within, PaidWithin, Sorted, EventsOf, LastMark, Proceeds;
    b, evs := Opening(map[]), [];
    var configured := SetOf(symbols);
    DistinctBySize(symbols);
    if symbols == [] || |configured| != |symbols| || !(trained < from < to) { return None, b, evs; }
    if exists i :: 0 <= i < |es| && es[i].symbol !in configured { return None, b, evs; }
    var window := Within(es, from, to);
    if window == [] || exists i :: 0 <= i < |transfers| && from <= transfers[i] <= to { return None, b, evs; }
    if forall i :: 0 <= i < |marks| ==> !ObservedInWindow(marks[i], configured, from, to) { return None, b, evs; }
    r, b, evs := ReconstructWindow(es, flows, marks, configured, from, to, tolerance);
  }

  /** The flatness checks, the marks in force and the ledger. */
  method ReconstructWindow(es: seq<Execution>, flows: seq<Funding>, marks: seq<Mark>, symbols: set<Symbol>,
                           from: real, to: real, tolerance: real)
    returns (r: Option<Result>, ghost b: Book, ghost evs: seq<Event>)
    requires ByTime(es) && MarksByTime(marks) && PositiveMarks(marks) && OnSymbols(es, symbols) && from < to
    ensures r.Some? ==> Sound(r.value, b, evs, tolerance)
    ensures r.Some? ==> r.value.cash == Proceeds(Within(es, from, to), PaidWithin(flows, from, to))
    ensures r.Some? ==> AreLastMarks(b.marks, marks, from) && b == Opening(b.marks)
                        && evs == Sorted(EventsOf(Within(es, from, to), PaidWithin(flows, from, to), marks, from, to))
    ensures r.Some? <==> forall s :: s in symbols ==> && Abs(Net(Before(es, from), s)) <= tolerance
                                                      && Abs(NetUpTo(es, to, s)) <= tolerance
                                                      && LastMark(marks, from, s).Some?
  {
    hide Value, IsMaxDrawdown, Curve, NeverUnmarked, Equity, Net, NetUpTo, Before, Within, PaidWithin, Sorted, EventsOf,
         LastMark, Attribution, Proceeds;
    b, evs := Opening(map[]), [];
    var window, paid := Within(es, from, to), PaidWithin(flows, from, to);
    var start := PositionAt(es, from);
    if !Flat(start, symbols, tolerance) { return None, b, evs; }
    var end := FinalPositions(start, window);
    forall s ensures Get(end, s) == NetUpTo(es, to, s) { WindowContinues(es, from, to, s); }
    if !Flat(end, symbols, tolerance) { return None, b, evs; }
    var latest := MarksAtStart(marks, from);
    if exists s :: s in symbols && s !in latest { return None, b, evs; }
    b, evs := Opening(latest), Sorted(EventsOf(window, paid, marks, from, to));
    r := EquityLoop(latest, Sorted(EventsOf(window, paid, marks, from, to)));
    FillsOnSymbols(es, paid, marks, symbols, from, to, window, evs);
    NeverMissingMark(latest, evs, symbols);
    FinalEquityAttributed(latest, evs);
    CashOfWindow(window, paid, marks, from, to, latest);
    WindowBound(es, paid, marks, symbols, from, to, tolerance, start, end, latest);
  }

  lemma CashOfWindow(window: seq<Execution>, paid: seq<Funding>, marks: seq<Mark>, from: real, to: real,
                     latest: map<Symbol, real>)
    ensures After(Opening(latest), Sorted(EventsOf(window, paid, marks, from, to))).cash == Proceeds(window, paid)
  {
    hide Sorted, EventsOf, Proceeds;
    var evs := Sorted(EventsOf(window, paid, marks, from, to));
    CashIsProceeds(Opening(latest), evs);
    OrderHasTheFills(window, paid, marks, from, to);
    ProceedsPermutation(FillsOf(evs), window, FlowsOf(evs), paid);
  }

  lemma FillsOnSymbols(es: seq<Execution>, flows: seq<Funding>, marks: seq<Mark>, symbols: set<Symbol>, from: real,
                       to: real,
                       window: seq<Execution>, evs: seq<Event>)
    requires OnSymbols(es, symbols) && window == Within(es, from, to)
    requires evs == Sorted(EventsOf(window, flows, marks, from, to))
    ensures FillsOn(evs, symbols)
  {
    hide Sorted, EventsOf, Within;
    WithinIsPart(es, from, to, symbols);
    forall i | 0 <= i < |evs| && evs[i].Fill? ensures evs[i].fill.symbol in symbols {
      EventSource(window, flows, marks, from, to, evs[i]);
    }
  }

  lemma WindowBound(es: seq<Execution>, flows: seq<Funding>, marks: seq<Mark>, symbols: set<Symbol>, from: real,
                    to: real,
                    tolerance: real, start: map<Symbol, real>, end: map<Symbol, real>, latest: map<Symbol, real>)
    requires PositiveMarks(marks) && OnSymbols(es, symbols) && AreLastMarks(latest, marks, from)
    requires Flat(start, symbols, tolerance) && Flat(end, symbols, tolerance)
    requires forall s :: Get(end, s) == Get(start, s) + Net(Within(es, from, to), s)
    ensures var b := After(Opening(latest), Sorted(EventsOf(Within(es, from, to), flows, marks, from, to)));
            Abs(Equity(b) - b.cash) <= Value(2.0 * tolerance, MarkSum(b.held, b.marks))
  {
    hide Value, Net, Sorted, EventsOf, LastMark, Equity, FillsOf, Flat, MarkSum;
    var window := Within(es, from, to);
    var evs := Sorted(EventsOf(window, flows, marks, from, to));
    WithinIsPart(es, from, to, symbols);
    OrderHasTheFills(window, flows, marks, from, to);
    forall i | 0 <= i < |evs|
      ensures (evs[i].Fill? ==> evs[i].fill.symbol in symbols) && (evs[i].Move? ==> evs[i].mark.price >= 0.0)
    {
      EventSource(window, flows, marks, from, to, evs[i]);
    }
    forall s | s in latest ensures latest[s] >= 0.0 {
      LastMarkPositive(marks, from, s);
    }
    FlatBoundaryBound(latest, evs, window, start, end, symbols, tolerance);
  }
}
