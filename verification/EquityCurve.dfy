/** The out-of-sample equity reconstruction of data/oos_reconstruction.py, exact over the reals. */
module EquityCurve {
  import opened Options

  datatype Symbol = Symbol(name: string)

  datatype Execution = Execution(symbol: Symbol, isBuy: bool, quantity: real, price: real, time: real,
                                 commission: real) {
    function Signed(): real { if isBuy then quantity else -quantity }
  }

  datatype Mark = Mark(symbol: Symbol, time: real, price: real)
  datatype Funding = Funding(time: real, amount: real)

  datatype Event = Fill(fill: Execution) | Cash(flow: Funding) | Move(mark: Mark)

  /** The running ledger; `held` lists the symbols ever traded, in the dictionary's order. */
  datatype Book = Book(held: seq<Symbol>, positions: map<Symbol, real>, marks: map<Symbol, real>, cash: real)

  function Get(m: map<Symbol, real>, s: Symbol): real { if s in m then m[s] else 0.0 }

  function Value(quantity: real, price: real): real { quantity * price }

  function Applied(b: Book, ev: Event): Book {
    match ev
    case Fill(e) =>
      b.(held := if e.symbol in b.held then b.held else b.held + [e.symbol],
         positions := b.positions[e.symbol := Get(b.positions, e.symbol) + e.Signed()],
         cash := b.cash - Value(e.Signed(), e.price) - e.commission)
    case Cash(f) => b.(cash := b.cash + f.amount)
    case Move(m) => b.(marks := b.marks[m.symbol := m.price])
  }

  function Holdings(held: seq<Symbol>, positions: map<Symbol, real>, marks: map<Symbol, real>): real {
    if held == [] then 0.0
    else
      var s := held[|held| - 1];
      Holdings(held[..|held| - 1], positions, marks) + Value(Get(positions, s), Get(marks, s))
  }

  function Equity(b: Book): real { b.cash + Holdings(b.held, b.positions, b.marks) }

  /** No open position lacks a mark. */
  predicate Marked(b: Book) {
    forall i :: 0 <= i < |b.held| && Get(b.positions, b.held[i]) != 0.0 ==> b.held[i] in b.marks
  }

  function After(b: Book, evs: seq<Event>): Book {
    if evs == [] then b else Applied(After(b, evs[..|evs| - 1]), evs[|evs| - 1])
  }

  function Opening(marks: map<Symbol, real>): Book { Book([], map[], marks, 0.0) }

  ghost predicate Distinct(held: seq<Symbol>) { forall i, j :: 0 <= i < j < |held| ==> held[i] != held[j] }

  /** Every traded symbol is listed once. */
  ghost predicate Listed(b: Book) {
    Distinct(b.held) && forall s :: s in b.positions <==> s in b.held
  }

  lemma AppliedListed(b: Book, ev: Event)
    requires Listed(b)
    ensures Listed(Applied(b, ev))
  {
    if ev.Fill? && ev.fill.symbol !in b.held {
      var held := b.held + [ev.fill.symbol];
      forall i, j | 0 <= i < j < |held| ensures held[i] != held[j] {
        if j < |b.held| { assert b.held[i] != b.held[j]; }
      }
    }
  }

  lemma {:induction false} AfterListed(b: Book, evs: seq<Event>)
    requires Listed(b)
    ensures Listed(After(b, evs))
  {
    if evs != [] {
      AfterListed(b, evs[..|evs| - 1]);
      AppliedListed(After(b, evs[..|evs| - 1]), evs[|evs| - 1]);
    }
  }

  // ---------------------------------------------------------------- drawdown

  ghost predicate IsMaximum(x: real, e: seq<real>) {
    (exists i :: 0 <= i < |e| && e[i] == x) && forall i :: 0 <= i < |e| ==> e[i] <= x
  }

  ghost predicate IsDrop(x: real, e: seq<real>, i: int, j: int) {
    0 <= i <= j < |e| && e[i] - e[j] == x
  }

  /** The largest fall from an earlier (or the same) point of the curve. */
  ghost predicate IsMaxDrawdown(x: real, e: seq<real>) {
    (exists i, j :: IsDrop(x, e, i, j)) && forall i, j :: 0 <= i <= j < |e| ==> e[i] - e[j] <= x
  }

  function Max(a: real, b: real): real { if a >= b then a else b }

  /** Keeping the peak and the deepest fall in one pass loses nothing. */
  lemma DrawdownGrows(e: seq<real>, peak: real, drawdown: real, x: real)
    requires IsMaximum(peak, e) && IsMaxDrawdown(drawdown, e)
    ensures var p := Max(peak, x);
            IsMaximum(p, e + [x]) && IsMaxDrawdown(Max(drawdown, p - x), e + [x])
  {
    var f, p := e + [x], Max(peak, x);
    var n := |e|;
    assert forall i :: 0 <= i < n ==> f[i] == e[i];
    var top :| 0 <= top < n && e[top] == peak;
    assert f[if p == peak then top else n] == p;
    var i, j :| IsDrop(drawdown, e, i, j);
    if drawdown >= p - x {
      assert IsDrop(drawdown, f, i, j);
    } else {
      assert IsDrop(p - x, f, if p == peak then top else n, n);
    }
  }

  lemma DrawdownStarts()
    ensures IsMaximum(0.0, [0.0]) && IsMaxDrawdown(0.0, [0.0])
  {
    assert IsDrop(0.0, [0.0], 0, 0);
    assert [0.0][0] == 0.0;
  }

  // ---------------------------------------------------------------- the loop

  /** e_0 = 0, then the equity after each event. */
  ghost function Curve(b: Book, evs: seq<Event>): seq<real> {
    if evs == [] then [0.0] else Curve(b, evs[..|evs| - 1]) + [Equity(After(b, evs))]
  }

  ghost predicate NeverUnmarked(b: Book, evs: seq<Event>) {
    forall i :: 0 < i <= |evs| ==> Marked(After(b, evs[..i]))
  }

  /** The valuation loop over positions.items(). */
  method Valuation(b: Book) returns (r: Option<real>)
    ensures r.Some? <==> Marked(b)
    ensures r.Some? ==> r.value == Equity(b)
  {
    hide Value;
    var equity := b.cash;
    for i := 0 to |b.held|
      invariant equity == b.cash + Holdings(b.held[..i], b.positions, b.marks)
      invariant forall k :: 0 <= k < i && Get(b.positions, b.held[k]) != 0.0 ==> b.held[k] in b.marks
    {
      assert b.held[..i + 1][..i] == b.held[..i];
      var s := b.held[i];
      ValueOfNothing(Get(b.positions, s));
      if Get(b.positions, s) != 0.0 && s !in b.marks { return None; }
      if s in b.marks { equity := equity + Value(Get(b.positions, s), b.marks[s]); }
    }
    assert b.held[..|b.held|] == b.held;
    r := Some(equity);
  }

  lemma ValueOfNothing(q: real)
    ensures Value(q, 0.0) == 0.0
  {
  }

  datatype Result = Result(cash: real, maxDrawdown: real)

  /** The ledger loop over any sequence of events. */
  method EquityLoop(marks: map<Symbol, real>, evs: seq<Event>) returns (r: Option<Result>)
    ensures r.Some? <==> NeverUnmarked(Opening(marks), evs)
    ensures r.Some? ==> r.value.cash == After(Opening(marks), evs).cash
                        && IsMaxDrawdown(r.value.maxDrawdown, Curve(Opening(marks), evs))
  {
    hide Value, Marked, Applied, Equity, IsMaximum, IsMaxDrawdown;
    var b, peak, drawdown := Opening(marks), 0.0, 0.0;
    ghost var b0 := Opening(marks);
    DrawdownStarts();
    for k := 0 to |evs|
      invariant b == After(b0, evs[..k]) && NeverUnmarked(b0, evs[..k])
      invariant IsMaximum(peak, Curve(b0, evs[..k])) && IsMaxDrawdown(drawdown, Curve(b0, evs[..k]))
    {
      var before := evs[..k];
      assert evs[..k + 1][..k] == before;
      b := Applied(b, evs[k]);
      var equity := Valuation(b);
      PrefixUnmarked(b0, evs, k + 1);
      if equity.None? { return None; }
      DrawdownGrows(Curve(b0, before), peak, drawdown, equity.value);
      peak := Max(peak, equity.value);
      drawdown := Max(drawdown, peak - equity.value);
    }
    assert evs[..|evs|] == evs;
    r := Some(Result(b.cash, drawdown));
  }

  lemma PrefixUnmarked(b: Book, evs: seq<Event>, k: nat)
    requires 0 < k <= |evs|
    ensures NeverUnmarked(b, evs[..k]) <==> NeverUnmarked(b, evs[..k - 1]) && Marked(After(b, evs[..k]))
    ensures NeverUnmarked(b, evs) ==> NeverUnmarked(b, evs[..k])
  {
    hide Marked, After;
    var all, front := evs[..k], evs[..k - 1];
    assert all[..k] == all;
    if NeverUnmarked(b, front) && Marked(After(b, all)) {
      forall i | 0 < i <= k ensures Marked(After(b, all[..i])) {
        if i < k { assert all[..i] == front[..i]; }
      }
    }
    if NeverUnmarked(b, all) {
      forall i | 0 < i <= k - 1 ensures Marked(After(b, front[..i])) { assert all[..i] == front[..i]; }
    }
    if NeverUnmarked(b, evs) {
      forall i | 0 < i <= k ensures Marked(After(b, all[..i])) { assert all[..i] == evs[..i]; }
    }
  }

  // ---------------------------------------------------------------- attribution

  /** What one event adds to equity, given the ledger before it. */
  function Contribution(b: Book, ev: Event): real {
    match ev
    case Fill(e) =>
      var mark := Get(b.marks, e.symbol);
      Value(e.quantity, if e.isBuy then mark - e.price else e.price - mark) - e.commission
    case Cash(f) => f.amount
    case Move(m) => Value(Get(b.positions, m.symbol), m.price - Get(b.marks, m.symbol))
  }

  function Attribution(b: Book, evs: seq<Event>): real {
    if evs == [] then 0.0
    else Attribution(b, evs[..|evs| - 1]) + Contribution(After(b, evs[..|evs| - 1]), evs[|evs| - 1])
  }

  lemma {:induction false} HoldingsElsewhere(held: seq<Symbol>, p: map<Symbol, real>, q: map<Symbol, real>,
                                             m: map<Symbol, real>, n: map<Symbol, real>)
    requires forall i :: 0 <= i < |held| ==> Get(p, held[i]) == Get(q, held[i]) && Get(m, held[i]) == Get(n, held[i])
    ensures Holdings(held, p, m) == Holdings(held, q, n)
  {
    hide Get, Value;
    if held != [] { HoldingsElsewhere(held[..|held| - 1], p, q, m, n); }
  }

  /** Replacing one symbol's position and mark moves the total by that symbol's change. */
  lemma {:induction false} HoldingsChange(held: seq<Symbol>, k: nat, p: map<Symbol, real>, q: map<Symbol, real>,
                                          m: map<Symbol, real>, n: map<Symbol, real>)
    requires Distinct(held) && k < |held|
    requires forall s :: s != held[k] ==> Get(p, s) == Get(q, s) && Get(m, s) == Get(n, s)
    ensures Holdings(held, q, n) - Holdings(held, p, m)
            == Value(Get(q, held[k]), Get(n, held[k])) - Value(Get(p, held[k]), Get(m, held[k]))
  {
    hide Get, Value;
    var front, last := held[..|held| - 1], held[|held| - 1];
    if k == |held| - 1 {
      HoldingsElsewhere(front, p, q, m, n);
    } else {
      assert front[k] == held[k] && last != held[k];
      HoldingsChange(front, k, p, q, m, n);
    }
  }

  lemma HoldingsAppend(held: seq<Symbol>, s: Symbol, p: map<Symbol, real>, m: map<Symbol, real>)
    ensures Holdings(held + [s], p, m) == Holdings(held, p, m) + Value(Get(p, s), Get(m, s))
  {
    assert (held + [s])[..|held|] == held;
  }

  lemma ValueSplits(a: real, b: real, price: real)
    ensures Value(a + b, price) == Value(a, price) + Value(b, price)
    ensures Value(0.0, price) == 0.0
  {
  }

  /** A purchase gains what the mark is above its price, a sale what its price is above the mark. */
  lemma EdgeOfFill(e: Execution, mark: real)
    ensures Value(e.Signed(), mark) - Value(e.Signed(), e.price)
            == Value(e.quantity, if e.isBuy then mark - e.price else e.price - mark)
  {
  }

  lemma ValueOfMove(q: real, before: real, after: real)
    ensures Value(q, after - before) == Value(q, after) - Value(q, before)
  {
  }

  lemma FillContributes(b: Book, e: Execution)
    requires Listed(b)
    ensures Equity(Applied(b, Fill(e))) == Equity(b) + Contribution(b, Fill(e))
  {
    hide Value;
    var t, s := Applied(b, Fill(e)), e.symbol;
    var before, price := Get(b.positions, s), Get(b.marks, s);
    ValueSplits(before, e.Signed(), price);
    EdgeOfFill(e, price);
    if s in b.held {
      var k :| 0 <= k < |b.held| && b.held[k] == s;
      HoldingsChange(b.held, k, b.positions, t.positions, b.marks, b.marks);
    } else {
      HoldingsAppend(b.held, s, t.positions, b.marks);
      HoldingsElsewhere(b.held, b.positions, t.positions, b.marks, b.marks);
    }
  }

  lemma MoveContributes(b: Book, m: Mark)
    requires Listed(b)
    ensures Equity(Applied(b, Move(m))) == Equity(b) + Contribution(b, Move(m))
  {
    hide Value;
    var t, s := Applied(b, Move(m)), m.symbol;
    ValueSplits(0.0, 0.0, m.price);
    ValueSplits(0.0, 0.0, Get(b.marks, s));
    ValueOfMove(Get(b.positions, s), Get(b.marks, s), m.price);
    if s in b.held {
      var k :| 0 <= k < |b.held| && b.held[k] == s;
      HoldingsChange(b.held, k, b.positions, b.positions, b.marks, t.marks);
    } else {
      HoldingsElsewhere(b.held, b.positions, b.positions, b.marks, t.marks);
    }
  }

  /** Attribution: equity is funding, minus commissions, plus each fill's edge against the mark
      at that moment, plus each mark move times the position it finds. */
  lemma {:induction false} EquityIsAttributed(b: Book, evs: seq<Event>)
    requires Listed(b)
    ensures Equity(After(b, evs)) == Equity(b) + Attribution(b, evs)
  {
    hide Value, Equity, Listed, Contribution;
    if evs != [] {
      var front, ev := evs[..|evs| - 1], evs[|evs| - 1];
      EquityIsAttributed(b, front);
      AfterListed(b, front);
      StepContributes(After(b, front), ev);
    }
  }

  lemma StepContributes(b: Book, ev: Event)
    requires Listed(b)
    ensures Equity(Applied(b, ev)) == Equity(b) + Contribution(b, ev)
  {
    match ev
    case Fill(e) => FillContributes(b, e);
    case Cash(f) =>
    case Move(m) => MoveContributes(b, m);
  }

  /** The identity for the whole curve, which opens with no position and no cash. */
  lemma FinalEquityAttributed(marks: map<Symbol, real>, evs: seq<Event>)
    ensures Equity(After(Opening(marks), evs)) == Attribution(Opening(marks), evs)
  {
    EquityIsAttributed(Opening(marks), evs);
  }

  /** In an accepted run no fill and no mark move is ever valued at a missing mark. */
  lemma NothingValuedWithoutMark(marks: map<Symbol, real>, evs: seq<Event>, i: nat)
    requires NeverUnmarked(Opening(marks), evs) && i < |evs|
    ensures var b := After(Opening(marks), evs[..i]);
            match evs[i]
            case Fill(e) => e.Signed() != 0.0 ==> e.symbol in b.marks
            case Cash(_) => true
            case Move(m) => Get(b.positions, m.symbol) != 0.0 ==> m.symbol in b.marks
  {
    var b0 := Opening(marks);
    var b := After(b0, evs[..i]);
    AfterListed(b0, evs[..i]);
    assert evs[..i + 1][..i] == evs[..i];
    assert Marked(After(b0, evs[..i + 1]));
    if i > 0 { assert Marked(b); }
    match evs[i]
    case Fill(e) => if e.Signed() != 0.0 { FillNeedsMark(b, e); }
    case Cash(_) =>
    case Move(m) =>
  }

  lemma FillNeedsMark(b: Book, e: Execution)
    requires Listed(b) && Marked(b) && Marked(Applied(b, Fill(e))) && e.Signed() != 0.0
    ensures e.symbol in b.marks
  {
    var t := Applied(b, Fill(e));
    var k :| 0 <= k < |t.held| && t.held[k] == e.symbol;
    if Get(b.positions, e.symbol) != 0.0 {
      assert e.symbol in b.held;
    } else {
      assert Get(t.positions, e.symbol) != 0.0;
    }
  }
}
