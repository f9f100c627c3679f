/** One side of a price-level book: best quote, sorted top levels, and the frontier test that
    decides whether a delta can change them (data/orderbook.py). */
module BookLevels {
  import opened Options

  /** price -> quantity */
  type Levels = map<real, real>
  datatype Level = Level(price: real, qty: real)

  /** Bids rank descending, asks ascending. */
  predicate Better(desc: bool, a: real, b: real) { if desc then a > b else a < b }

  ghost predicate Positive(book: Levels) {
    forall p :: p in book ==> p > 0.0 && book[p] > 0.0
  }

  ghost predicate IsBest(desc: bool, keys: set<real>, price: real) {
    price in keys && forall p :: p in keys ==> p == price || Better(desc, price, p)
  }

  /** The cached best quote: zeros for an empty side, else the best price with its quantity. */
  ghost predicate BestOk(desc: bool, book: Levels, price: real, volume: real) {
    if book.Keys == {} then price == 0.0 && volume == 0.0
    else IsBest(desc, book.Keys, price) && volume == book[price]
  }

  ghost predicate Listed(levels: seq<Level>, p: real) {
    exists i :: 0 <= i < |levels| && levels[i].price == p
  }

  ghost predicate Ranked(desc: bool, levels: seq<Level>) {
    forall i, j :: 0 <= i < j < |levels| ==> Better(desc, levels[i].price, levels[j].price)
  }

  ghost predicate InBook(book: Levels, levels: seq<Level>) {
    forall i :: 0 <= i < |levels| ==> levels[i].price in book && levels[i].qty == book[levels[i].price]
  }

  /** Everything not listed ranks below a full list. */
  ghost predicate Covers(desc: bool, book: Levels, levels: seq<Level>, n: nat) {
    forall p {:trigger Listed(levels, p)} {:trigger p in book} :: p in book ==>
      Listed(levels, p) || (0 < n == |levels| && Better(desc, levels[n - 1].price, p))
  }

  /** `levels` is the top-n of the book, best first. */
  ghost predicate IsTop(desc: bool, book: Levels, levels: seq<Level>, n: nat) {
    |levels| <= n && InBook(book, levels) && Ranked(desc, levels) && Covers(desc, book, levels, n)
  }

  // ---------------------------------------------------------------- uniqueness of the top list

  lemma TopAgreesAt(desc: bool, book: Levels, a: seq<Level>, b: seq<Level>, n: nat, k: nat)
    requires IsTop(desc, book, a, n) && IsTop(desc, book, b, n)
    requires k < |a| && k < |b| && a[..k] == b[..k]
    ensures !Better(desc, b[k].price, a[k].price)
  {
    var q := b[k].price;
    assert q in book;
    assert forall i :: 0 <= i < k ==> a[i] == a[..k][i] && b[i] == b[..k][i];
    if Listed(a, q) {
      var i :| 0 <= i < |a| && a[i].price == q;
    }
  }

  lemma {:induction false} TopPrefix(desc: bool, book: Levels, a: seq<Level>, b: seq<Level>, n: nat, k: nat)
    requires IsTop(desc, book, a, n) && IsTop(desc, book, b, n)
    requires k <= |a|
    ensures k <= |b| && a[..k] == b[..k]
  {
    if k > 0 {
      TopPrefix(desc, book, a, b, n, k - 1);
      var p := a[k - 1].price;
      assert p in book;
      if |b| < k {
        NotListedBefore(desc, a, b, k - 1);
      } else {
        TopAgreesAt(desc, book, a, b, n, k - 1);
        TopAgreesAt(desc, book, b, a, n, k - 1);
        assert a[k - 1] == b[k - 1];
        assert a[..k] == a[..k - 1] + [a[k - 1]] && b[..k] == b[..k - 1] + [b[k - 1]];
      }
    }
  }

  lemma NotListedBefore(desc: bool, a: seq<Level>, b: seq<Level>, k: nat)
    requires Ranked(desc, a) && k < |a| && |b| == k && a[..k] == b[..k]
    ensures !Listed(b, a[k].price)
  {
    forall i | 0 <= i < |b| ensures b[i].price != a[k].price {
      assert a[..k][i] == b[..k][i];
    }
  }

  /** There is one top-n list, so exact caches are the true sorted top-n. */
  lemma TopUnique(desc: bool, book: Levels, a: seq<Level>, b: seq<Level>, n: nat)
    requires IsTop(desc, book, a, n) && IsTop(desc, book, b, n)
    ensures a == b
  {
    TopPrefix(desc, book, a, b, n, |a|);
    TopPrefix(desc, book, b, a, n, |b|);
    assert a[..|a|] == a && b[..|b|] == b;
  }

  /** The head of the top list is the cached best quote. */
  lemma TopHeadIsBest(desc: bool, book: Levels, levels: seq<Level>, n: nat, price: real, volume: real)
    requires IsTop(desc, book, levels, n) && n > 0 && BestOk(desc, book, price, volume)
    ensures if levels == [] then book.Keys == {} else levels[0] == Level(price, volume)
  {
    if levels == [] {
      forall p ensures p !in book { assert p in book ==> Listed(levels, p); }
    } else {
      var head := levels[0].price;
      assert head in book;
      if Listed(levels, price) {
        var i :| 0 <= i < |levels| && levels[i].price == price;
      }
    }
  }

  // ---------------------------------------------------------------- applying a delta

  /** Set every positive quantity, delete every zero one. */
  function Apply(book: Levels, upd: Levels): Levels {
    map p | p in book.Keys + upd.Keys && (p in upd ==> upd[p] > 0.0) :: if p in upd then upd[p] else book[p]
  }

  lemma ApplyNothing(book: Levels)
    ensures Apply(book, map[]) == book
  {
  }

  /** Applying one more entry of the delta. */
  lemma ApplyOne(book: Levels, done: Levels, price: real, qty: real)
    requires price !in done && qty >= 0.0
    ensures Apply(book, done[price := qty])
            == if qty == 0.0 then Apply(book, done) - {price} else Apply(book, done)[price := qty]
  {
    var all := Apply(book, done[price := qty]);
    var step := if qty == 0.0 then Apply(book, done) - {price} else Apply(book, done)[price := qty];
    assert all.Keys == step.Keys;
    assert forall p :: p in all ==> all[p] == step[p];
  }

  /** _level_frontier_impacted */
  predicate FrontierImpacted(desc: bool, price: real, levels: seq<Level>, n: nat, emitFull: bool) {
    emitFull || levels == [] || (exists i :: 0 <= i < |levels| && levels[i].price == price)
    || |levels| < n || !Better(desc, levels[|levels| - 1].price, price)
  }

  /** A delta none of whose prices touches the frontier leaves the top list as it was, although
      the test looks only at the list from before the delta. */
  lemma UntouchedFrontier(desc: bool, book: Levels, levels: seq<Level>, n: nat, upd: Levels)
    requires IsTop(desc, book, levels, n)
    requires forall p :: p in upd ==> !FrontierImpacted(desc, p, levels, n, false)
    ensures IsTop(desc, Apply(book, upd), levels, n)
  {
    var book' := Apply(book, upd);
    forall i | 0 <= i < |levels|
      ensures levels[i].price in book' && levels[i].qty == book'[levels[i].price]
    {
      assert levels[i].price !in upd;
    }
    forall p | p in book'
      ensures Listed(levels, p) || (0 < n == |levels| && Better(desc, levels[n - 1].price, p))
    {
      if p in upd {
        assert !FrontierImpacted(desc, p, levels, n, false);
      } else {
        assert p in book;
      }
    }
  }

  // ---------------------------------------------------------------- best quote upkeep

  /** After setting a level, the cached quote moves exactly when the price is no worse. */
  lemma BestAfterSet(desc: bool, book: Levels, best: real, volume: real, price: real, qty: real)
    requires BestOk(desc, book, best, volume)
    ensures var book' := book[price := qty];
            if book.Keys == {} || price == best || Better(desc, price, best) then BestOk(desc, book', price, qty)
            else BestOk(desc, book', best, volume)
  {
    var book' := book[price := qty];
    assert price in book'.Keys;
    assert forall p :: p in book' <==> p in book || p == price;
  }

  /** Deleting any other level keeps the cached quote. */
  lemma BestAfterDelete(desc: bool, book: Levels, best: real, volume: real, price: real)
    requires BestOk(desc, book, best, volume) && price in book && price != best
    ensures BestOk(desc, book - {price}, best, volume)
  {
    var book' := book - {price};
    assert best in book.Keys;
    assert best in book'.Keys;
  }

  /** max(keys) for bids, min(keys) for asks */
  method BestPrice(desc: bool, keys: set<real>) returns (best: real)
    requires keys != {}
    ensures IsBest(desc, keys, best)
  {
    ghost var any := AnElement(keys);
    best :| best in keys;
    var rest := keys - {best};
    while rest != {}
      invariant rest <= keys && best in keys
      invariant forall p :: p in keys && p !in rest ==> p == best || Better(desc, best, p)
      decreases rest
    {
      ghost var any := AnElement(rest);
      var p :| p in rest;
      if Better(desc, p, best) { best := p; }
      rest := rest - {p};
    }
  }

  /** heapq.nlargest / heapq.nsmallest of the levels by price */
  method TopLevels(desc: bool, book: Levels, n: nat) returns (levels: seq<Level>)
    requires n > 0
    ensures IsTop(desc, book, levels, n)
  {
    levels := [];
    var rest := book.Keys;
    while rest != {} && |levels| < n
      invariant rest <= book.Keys && |levels| <= n
      invariant InBook(book, levels) && Ranked(desc, levels)
      invariant forall p :: p in book ==> Listed(levels, p) || p in rest
      invariant forall i, p :: 0 <= i < |levels| && p in rest ==> Better(desc, levels[i].price, p)
      decreases rest
    {
      var best := BestPrice(desc, rest);
      ghost var before := levels;
      levels := levels + [Level(best, book[best])];
      rest := rest - {best};
      forall p | p in book ensures Listed(levels, p) || p in rest {
        ListedGrows(before, Level(best, book[best]), p);
      }
    }
  }

  lemma ListedGrows(levels: seq<Level>, l: Level, p: real)
    ensures Listed(levels, p) || p == l.price ==> Listed(levels + [l], p)
  {
    if p == l.price {
      assert (levels + [l])[|levels|].price == p;
    } else if Listed(levels, p) {
      var i :| 0 <= i < |levels| && levels[i].price == p;
      assert (levels + [l])[i].price == p;
    }
  }
}
