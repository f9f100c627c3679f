/** What the ledger amounts to, told by the side, quantity and price of every execution. */
module EquityAccount {
  import opened EquityCurve

  // ---------------------------------------------------------------- totals

  function Total<T>(xs: seq<T>, f: T -> real): real {
    if xs == [] then 0.0 else Total(xs[..|xs| - 1], f) + f(xs[|xs| - 1])
  }

  lemma TotalAppend<T>(xs: seq<T>, x: T, f: T -> real)
    ensures Total(xs + [x], f) == Total(xs, f) + f(x)
  {
    assert (xs + [x])[..|xs|] == xs;
  }

  lemma {:induction false} TotalRemove<T>(xs: seq<T>, k: nat, f: T -> real)
    requires k < |xs|
    ensures Total(xs, f) == Total(xs[..k] + xs[k + 1..], f) + f(xs[k])
  {
    var front, x := xs[..|xs| - 1], xs[|xs| - 1];
    if k == |xs| - 1 {
      assert xs[..k] + xs[k + 1..] == front;
    } else {
      TotalRemove(front, k, f);
      assert xs[..k] + xs[k + 1..] == (front[..k] + front[k + 1..]) + [x];
      TotalAppend(front[..k] + front[k + 1..], x, f);
    }
  }

  /** A total does not depend on the order. */
  lemma {:induction false} TotalPermutation<T>(a: seq<T>, b: seq<T>, f: T -> real)
    requires multiset(a) == multiset(b)
    ensures Total(a, f) == Total(b, f)
    decreases |a|
  {
    if a == [] {
      EmptyMultiset(b);
    } else {
      var front, x := a[..|a| - 1], a[|a| - 1];
      assert a == front + [x];
      assert x in multiset(b);
      var k :| 0 <= k < |b| && b[k] == x;
      var rest := b[..k] + b[k + 1..];
      assert b == b[..k] + [b[k]] + b[k + 1..];
      TotalRemove(b, k, f);
      assert multiset(a) == multiset(front) + multiset{x};
      assert multiset(b) == multiset(rest) + multiset{x};
      CancelOne(multiset(front), multiset(rest), x);
      TotalPermutation(front, rest, f);
    }
  }

  lemma CancelOne<T>(a: multiset<T>, b: multiset<T>, x: T)
    requires a + multiset{x} == b + multiset{x}
    ensures a == b
  {
    assert a == (a + multiset{x}) - multiset{x} && b == (b + multiset{x}) - multiset{x};
  }

  lemma EmptyMultiset<T>(b: seq<T>)
    requires multiset(b) == multiset{}
    ensures b == []
  {
    assert |multiset(b)| == |b|;
  }

  // ---------------------------------------------------------------- fills and payments of a run

  function FillsOf(evs: seq<Event>): seq<Execution> {
    if evs == [] then []
    else
      var front := FillsOf(evs[..|evs| - 1]);
      if evs[|evs| - 1].Fill? then front + [evs[|evs| - 1].fill] else front
  }

  function FlowsOf(evs: seq<Event>): seq<Funding> {
    if evs == [] then []
    else
      var front := FlowsOf(evs[..|evs| - 1]);
      if evs[|evs| - 1].Cash? then front + [evs[|evs| - 1].flow] else front
  }

  function Amount(e: Execution, buys: bool): real { if e.isBuy == buys then e.quantity * e.price else 0.0 }

  /** Quantity times price, over the purchases or over the sales. */
  function Turnover(es: seq<Execution>, buys: bool): real { Total(es, (e: Execution) => Amount(e, buys)) }

  function Fees(es: seq<Execution>): real { Total(es, (e: Execution) => e.commission) }

  function Payments(flows: seq<Funding>): real { Total(flows, (f: Funding) => f.amount) }

  /** What the sales bring less what the purchases cost, less commissions, plus the payments. */
  function Proceeds(es: seq<Execution>, flows: seq<Funding>): real {
    Turnover(es, false) - Turnover(es, true) - Fees(es) + Payments(flows)
  }

  function Lot(e: Execution, s: Symbol, buys: bool): real {
    if e.symbol == s && e.isBuy == buys then e.quantity else 0.0
  }

  /** The quantity of a symbol that was bought, or sold. */
  function Traded(es: seq<Execution>, s: Symbol, buys: bool): real { Total(es, (e: Execution) => Lot(e, s, buys)) }

  lemma ProceedsOfFill(es: seq<Execution>, e: Execution, flows: seq<Funding>)
    ensures Proceeds(es + [e], flows) == Proceeds(es, flows) - Value(e.Signed(), e.price) - e.commission
  {
    TotalAppend(es, e, (x: Execution) => Amount(x, true));
    TotalAppend(es, e, (x: Execution) => Amount(x, false));
    TotalAppend(es, e, (x: Execution) => x.commission);
  }

  lemma ProceedsOfFlow(es: seq<Execution>, flows: seq<Funding>, f: Funding)
    ensures Proceeds(es, flows + [f]) == Proceeds(es, flows) + f.amount
  {
    TotalAppend(flows, f, (x: Funding) => x.amount);
  }

  /** The cash of any run: what was sold less what was bought, less commissions, plus payments. */
  lemma {:induction false} CashIsProceeds(b: Book, evs: seq<Event>)
    ensures After(b, evs).cash == b.cash + Proceeds(FillsOf(evs), FlowsOf(evs))
  {
    hide Value, Proceeds;
    if evs == [] {
      NoProceeds();
    } else {
      var front, ev := evs[..|evs| - 1], evs[|evs| - 1];
      CashIsProceeds(b, front);
      match ev
      case Fill(e) => ProceedsOfFill(FillsOf(front), e, FlowsOf(front));
      case Cash(f) => ProceedsOfFlow(FillsOf(front), FlowsOf(front), f);
      case Move(_) =>
    }
  }

  lemma NoProceeds()
    ensures Proceeds([], []) == 0.0
  {
  }

  /** The position of any run: what was bought less what was sold. */
  lemma {:induction false} PositionIsTraded(b: Book, evs: seq<Event>, s: Symbol)
    ensures Get(After(b, evs).positions, s)
            == Get(b.positions, s) + Traded(FillsOf(evs), s, true) - Traded(FillsOf(evs), s, false)
  {
    if evs != [] {
      var front, ev := evs[..|evs| - 1], evs[|evs| - 1];
      PositionIsTraded(b, front, s);
      if ev.Fill? {
        TotalAppend(FillsOf(front), ev.fill, (x: Execution) => Lot(x, s, true));
        TotalAppend(FillsOf(front), ev.fill, (x: Execution) => Lot(x, s, false));
      }
    }
  }

  lemma ProceedsPermutation(a: seq<Execution>, b: seq<Execution>, f: seq<Funding>, g: seq<Funding>)
    requires multiset(a) == multiset(b) && multiset(f) == multiset(g)
    ensures Proceeds(a, f) == Proceeds(b, g)
  {
    TotalPermutation(a, b, (x: Execution) => Amount(x, true));
    TotalPermutation(a, b, (x: Execution) => Amount(x, false));
    TotalPermutation(a, b, (x: Execution) => x.commission);
    TotalPermutation(f, g, (x: Funding) => x.amount);
  }

  // ---------------------------------------------------------------- profit and loss

  lemma AfterTwo(b: Book, x: Event, y: Event)
    ensures After(b, [x, y]) == Applied(Applied(b, x), y)
  {
    assert [x, y][..1] == [x] && [x][..0] == [];
    assert After(b, []) == b && After(b, [x]) == Applied(b, x);
  }

  /** Buying and then selling the same quantity earns the price difference, less both commissions. */
  lemma RoundTripProfit(b: Book, s: Symbol, q: real, bought: Execution, sold: Execution)
    requires bought.symbol == sold.symbol == s && bought.isBuy && !sold.isBuy && bought.quantity == sold.quantity == q
    ensures var t := After(b, [Fill(bought), Fill(sold)]);
            && t.cash == b.cash + q * (sold.price - bought.price) - bought.commission - sold.commission
            && Get(t.positions, s) == Get(b.positions, s)
  {
    AfterTwo(b, Fill(bought), Fill(sold));
    assert q * (sold.price - bought.price) == q * sold.price - q * bought.price;
  }

  /** From a flat position: a purchase gains, and a sale loses, what the mark then rises. */
  lemma MarkedGain(b: Book, e: Execution, m: Mark)
    requires Listed(b) && Get(b.positions, e.symbol) == 0.0 && m.symbol == e.symbol
    ensures Equity(After(b, [Fill(e), Move(m)]))
            == Equity(b) - e.commission + e.quantity * (if e.isBuy then m.price - e.price else e.price - m.price)
  {
    hide Equity;
    var fill, move := Fill(e), Move(m);
    var t := Applied(b, fill);
    AfterTwo(b, fill, move);
    AppliedListed(b, fill);
    StepContributes(b, fill);
    StepContributes(t, move);
    Gain(e.quantity, e.price, Get(b.marks, e.symbol), m.price);
  }

  lemma Gain(q: real, price: real, before: real, after: real)
    ensures Value(q, before - price) + Value(q, after - before) == q * (after - price)
    ensures Value(q, price - before) + Value(-q, after - before) == q * (price - after)
  {
  }
}
