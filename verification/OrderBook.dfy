/** The locally maintained order book (LocalOrderBook in data/orderbook.py). */
module OrderBook {
  import opened BookLevels
  import opened Options

  // ---------------------------------------------------------------- messages

  /** One [price, qty] entry; Malformed stands for a short entry or a non-finite number. */
  datatype RawLevel = RawLevel(price: real, qty: real) | Malformed

  datatype RawSnapshot = RawSnapshot(lastUpdateId: int, bids: seq<RawLevel>, asks: seq<RawLevel>)

  /** `wellTyped` is false when a field is missing or of the wrong type. */
  datatype RawDelta = RawDelta(wellTyped: bool, first: int, last: int, prev: int, bids: seq<RawLevel>,
                               asks: seq<RawLevel>)

  datatype Delta = Delta(first: int, last: int, prev: int, bids: Levels, asks: Levels)
  datatype Outcome = Accepted | Skipped | Gap | IntegrityFailure

  function AddEntry(levels: Option<Levels>, e: RawLevel, keepZero: bool): Option<Levels> {
    if levels.None? || e.Malformed? || e.price <= 0.0 || e.qty < 0.0 then None
    else if e.qty > 0.0 || keepZero then Some(levels.value[e.price := e.qty])
    else levels
  }

  /** The dictionary the entries build, in order, or None if one of them is invalid. */
  function Parsed(entries: seq<RawLevel>, keepZero: bool): (r: Option<Levels>)
    ensures r.Some? ==> |r.value| <= |entries|
                        && forall p :: p in r.value ==> p > 0.0 && r.value[p] >= 0.0 && (keepZero || r.value[p] > 0.0)
  {
    if entries == [] then Some(map[])
    else
      var front := Parsed(entries[..|entries| - 1], keepZero);
      var e := entries[|entries| - 1];
      assert front.Some? && e.RawLevel? ==> front.value[e.price := e.qty].Keys == front.value.Keys + {e.price};
      AddEntry(front, e, keepZero)
  }

  /** The entry gives `p` a quantity: zero counts only where zeros are kept. */
  ghost predicate Sets(e: RawLevel, p: real, keepZero: bool) {
    e.RawLevel? && e.price == p && (e.qty > 0.0 || (keepZero && e.qty == 0.0))
  }

  /** Entry `i` is the last to give `p` a quantity. */
  ghost predicate SetsLast(entries: seq<RawLevel>, i: nat, p: real, keepZero: bool) {
    i < |entries| && Sets(entries[i], p, keepZero) && forall j :: i < j < |entries| ==> !Sets(entries[j], p, keepZero)
  }

  /** Parsing fails exactly when an entry is malformed, has no positive price or a negative quantity. */
  lemma {:induction false} ParseFails(entries: seq<RawLevel>, keepZero: bool)
    ensures Parsed(entries, keepZero).None?
            <==> exists i :: 0 <= i < |entries|
                             && (entries[i].Malformed? || entries[i].price <= 0.0 || entries[i].qty < 0.0)
  {
    if entries != [] {
      ParseFails(entries[..|entries| - 1], keepZero);
    }
  }

  lemma SetsLastGrows(entries: seq<RawLevel>, e: RawLevel, p: real, keepZero: bool)
    ensures forall i: nat :: i < |entries| ==>
              (SetsLast(entries + [e], i, p, keepZero)
               <==> SetsLast(entries, i, p, keepZero) && !Sets(e, p, keepZero))
    ensures SetsLast(entries + [e], |entries|, p, keepZero) <==> Sets(e, p, keepZero)
  {
    hide Sets;
    forall i: nat | i < |entries|
      ensures SetsLast(entries + [e], i, p, keepZero) <==> SetsLast(entries, i, p, keepZero) && !Sets(e, p, keepZero)
    {
      var all := entries + [e];
      assert all[i] == entries[i] && all[|entries|] == e;
      assert forall j :: i < j < |entries| ==> all[j] == entries[j];
    }
  }

  lemma SetsLastInside(entries: seq<RawLevel>, p: real, keepZero: bool)
    ensures forall i: nat :: SetsLast(entries, i, p, keepZero) ==> i < |entries| && entries[i].RawLevel?
  {
  }

  /** What parsing builds: a price is a key iff some entry sets it, with the last such quantity. */
  lemma {:induction false} ParsedLevel(entries: seq<RawLevel>, keepZero: bool, p: real)
    requires Parsed(entries, keepZero).Some?
    ensures p in Parsed(entries, keepZero).value <==> exists i: nat :: SetsLast(entries, i, p, keepZero)
    ensures forall i: nat :: SetsLast(entries, i, p, keepZero) ==>
              i < |entries| && entries[i].RawLevel? && p in Parsed(entries, keepZero).value
              && Parsed(entries, keepZero).value[p] == entries[i].qty
  {
    hide SetsLast;
    SetsLastInside(entries, p, keepZero);
    if entries != [] {
      var front, e := entries[..|entries| - 1], entries[|entries| - 1];
      assert front + [e] == entries;
      ParsedLevel(front, keepZero, p);
      SetsLastGrows(front, e, p, keepZero);
    }
  }

  method ParseLevels(entries: seq<RawLevel>, keepZero: bool) returns (r: Option<Levels>)
    ensures r == Parsed(entries, keepZero)
  {
    r := Some(map[]);
    for i := 0 to |entries|
      invariant r == Parsed(entries[..i], keepZero)
    {
      assert entries[..i + 1][..i] == entries[..i];
      r := AddEntry(r, entries[i], keepZero);
    }
    assert entries[..|entries|] == entries;
  }

  /** Positive prices, non-negative quantities: what a parsed delta holds. */
  ghost predicate Entries(upd: Levels) { forall p :: p in upd ==> p > 0.0 && upd[p] >= 0.0 }

  ghost predicate Uncrossed(bids: Levels, asks: Levels) {
    bids.Keys != {} && asks.Keys != {} && forall b, a :: b in bids && a in asks ==> b < a
  }

  method ValidateBook(bids: Levels, asks: Levels) returns (ok: bool)
    ensures ok <==> Uncrossed(bids, asks)
  {
    if bids.Keys == {} || asks.Keys == {} { return false; }
    var bestBid := BestPrice(true, bids.Keys);
    var bestAsk := BestPrice(false, asks.Keys);
    ok := bestBid < bestAsk;
  }

  // ---------------------------------------------------------------- what a history builds

  ghost function Update(bid: bool, d: Delta): Levels { if bid then d.bids else d.asks }

  ghost function Fold(bid: bool, base: Levels, deltas: seq<Delta>): Levels {
    if deltas == [] then base else Apply(Fold(bid, base, deltas[..|deltas| - 1]), Update(bid, deltas[|deltas| - 1]))
  }

  datatype Base = Base(id: int, bids: Levels, asks: Levels)

  /** The first delta bridges the snapshot; each later one follows the one before. */
  ghost predicate Chained(base: Base, deltas: seq<Delta>) {
    && (deltas != [] ==> deltas[0].last >= base.id
                         && (deltas[0].prev == base.id || deltas[0].first <= base.id <= deltas[0].last))
    && (forall i :: 0 < i < |deltas| ==>
          deltas[i].prev == deltas[i - 1].last && deltas[i].last >= deltas[i - 1].last)
  }

  ghost function LastId(base: Base, deltas: seq<Delta>): int {
    if deltas == [] then base.id else deltas[|deltas| - 1].last
  }

  lemma EmptyHistory(base: Base)
    ensures Chained(base, []) && LastId(base, []) == base.id
    ensures Fold(true, base.bids, []) == base.bids && Fold(false, base.asks, []) == base.asks
  {
  }

  lemma HistoryGrows(base: Base, deltas: seq<Delta>, d: Delta)
    requires Chained(base, deltas) && d.last >= LastId(base, deltas)
    requires d.prev == LastId(base, deltas) || (deltas == [] && d.first <= base.id <= d.last)
    ensures Chained(base, deltas + [d]) && LastId(base, deltas + [d]) == d.last
    ensures Fold(true, base.bids, deltas + [d]) == Apply(Fold(true, base.bids, deltas), d.bids)
    ensures Fold(false, base.asks, deltas + [d]) == Apply(Fold(false, base.asks, deltas), d.asks)
  {
    assert (deltas + [d])[..|deltas|] == deltas;
  }

  /** Delta `i` is the last that names the price. */
  ghost predicate NamesLast(bid: bool, deltas: seq<Delta>, i: nat, p: real) {
    i < |deltas| && p in Update(bid, deltas[i]) && forall j :: i < j < |deltas| ==> p !in Update(bid, deltas[j])
  }

  lemma NamesLastGrows(bid: bool, deltas: seq<Delta>, d: Delta, p: real)
    ensures forall i: nat :: i < |deltas| ==>
              (NamesLast(bid, deltas + [d], i, p) <==> NamesLast(bid, deltas, i, p) && p !in Update(bid, d))
    ensures NamesLast(bid, deltas + [d], |deltas|, p) <==> p in Update(bid, d)
  {
    hide Update;
    forall i: nat | i < |deltas|
      ensures NamesLast(bid, deltas + [d], i, p) <==> NamesLast(bid, deltas, i, p) && p !in Update(bid, d)
    {
      var all := deltas + [d];
      assert all[i] == deltas[i] && all[|deltas|] == d;
      assert forall j :: i < j < |deltas| ==> all[j] == deltas[j];
    }
  }

  lemma NamesLastInside(bid: bool, deltas: seq<Delta>, p: real)
    ensures forall i: nat :: NamesLast(bid, deltas, i, p) ==> i < |deltas| && p in Update(bid, deltas[i])
  {
  }

  /** What the folded history holds at a price: the snapshot's quantity until a delta names the price,
      then the quantity of the last delta that does, where zero means that the level is gone. */
  lemma {:induction false} FoldedLevel(bid: bool, base: Levels, deltas: seq<Delta>, p: real)
    ensures var book := Fold(bid, base, deltas);
            && ((forall i: nat :: !NamesLast(bid, deltas, i, p)) ==>
                  (p in book <==> p in base) && (p in book ==> book[p] == base[p]))
            && forall i: nat :: NamesLast(bid, deltas, i, p) ==>
                 i < |deltas| && p in Update(bid, deltas[i])
                 && (p in book <==> Update(bid, deltas[i])[p] > 0.0)
                 && (p in book ==> book[p] == Update(bid, deltas[i])[p])
  {
    hide NamesLast, Update;
    NamesLastInside(bid, deltas, p);
    if deltas != [] {
      var front, d := deltas[..|deltas| - 1], deltas[|deltas| - 1];
      assert front + [d] == deltas;
      FoldedLevel(bid, base, front, p);
      NamesLastGrows(bid, front, d, p);
    }
  }

  /** Update ids never go back along an accepted history. */
  lemma {:induction false} IdsNeverDecrease(base: Base, deltas: seq<Delta>, i: nat, j: nat)
    requires Chained(base, deltas) && i <= j < |deltas|
    ensures base.id <= deltas[i].last <= deltas[j].last
    decreases j
  {
    if i < j {
      IdsNeverDecrease(base, deltas, i, j - 1);
    } else if i > 0 {
      IdsNeverDecrease(base, deltas, i - 1, i - 1);
    }
  }

  // ---------------------------------------------------------------- the book

  class LocalOrderBook {
    const depth: nat
    const emitFull: bool
    const maxLevels: nat
    const maxDeltaLevels: nat
    var bids: Levels
    var asks: Levels
    var lastUpdateId: int
    var initialized: bool
    var awaitingFirstDelta: bool
    var bestBidPrice: real
    var bestBidVolume: real
    var bestAskPrice: real
    var bestAskVolume: real
    var topBids: seq<Level>
    var topAsks: seq<Level>
    ghost var base: Base
    ghost var accepted: seq<Delta>

    /** Cached quotes and top lists say what the level maps say. */
    ghost predicate CachesExact()
      reads this
    {
      && BestOk(true, bids, bestBidPrice, bestBidVolume)
      && BestOk(false, asks, bestAskPrice, bestAskVolume)
      && IsTop(true, bids, topBids, depth)
      && IsTop(false, asks, topAsks, depth)
    }

    ghost predicate SoundBook()
      reads this
    {
      Positive(bids) && Positive(asks) && Fits(bids, asks)
    }

    /** Within capacity, neither side empty, and not crossed. */
    ghost predicate Fits(b: Levels, a: Levels) {
      |b| <= maxLevels && |a| <= maxLevels && Uncrossed(b, a)
    }

    /** Ids in order and not negative, no more levels than allowed, prices and quantities in range. */
    ghost predicate Proper(d: Delta) {
      && 0 <= d.first <= d.last && d.prev >= 0
      && |d.bids| <= maxDeltaLevels && |d.asks| <= maxDeltaLevels && Entries(d.bids) && Entries(d.asks)
    }

    ghost predicate AllProper(deltas: seq<Delta>) { forall i :: 0 <= i < |deltas| ==> Proper(deltas[i]) }

    lemma AllProperGrows(deltas: seq<Delta>, d: Delta)
      requires AllProper(deltas) && Proper(d)
      ensures AllProper(deltas + [d])
    {
      hide Proper;
    }

    /** The maps are the snapshot with the accepted deltas folded in, in order. */
    ghost predicate FollowsHistory()
      reads this
    {
      && Chained(base, accepted)
      && bids == Fold(true, base.bids, accepted) && asks == Fold(false, base.asks, accepted)
      && lastUpdateId == LastId(base, accepted) && 0 <= base.id <= lastUpdateId
      && AllProper(accepted)
      && (awaitingFirstDelta <==> accepted == [])
    }

    ghost predicate Valid()
      reads this
    {
      && 1 <= depth <= maxLevels && 1 <= maxDeltaLevels
      && (initialized ==> CachesExact() && SoundBook() && FollowsHistory())
    }

    constructor (publishDepth: int, emitFull: bool, maxLevelsPerSide: int, maxDeltaLevelsPerSide: int)
      ensures Valid() && !initialized
      ensures depth == if publishDepth < 1 then 1 else publishDepth
      ensures maxLevels == if maxLevelsPerSide > depth then maxLevelsPerSide else depth
      ensures maxDeltaLevels == if maxDeltaLevelsPerSide < 1 then 1 else maxDeltaLevelsPerSide
      ensures this.emitFull == emitFull && bids == map[] && asks == map[] && topBids == [] && topAsks == []
      ensures lastUpdateId == 0 && awaitingFirstDelta
      ensures bestBidPrice == bestBidVolume == bestAskPrice == bestAskVolume == 0.0
    {
      depth := if publishDepth < 1 then 1 else publishDepth;
      this.emitFull := emitFull;
      maxLevels := if maxLevelsPerSide == 0 || maxLevelsPerSide < publishDepth || maxLevelsPerSide < 1
      then (if publishDepth < 1 then 1 else publishDepth) else maxLevelsPerSide;
      maxDeltaLevels := if maxDeltaLevelsPerSide < 1 then 1 else maxDeltaLevelsPerSide;
      bids, asks, lastUpdateId, initialized, awaitingFirstDelta := map[], map[], 0, false, true;
      bestBidPrice, bestBidVolume, bestAskPrice, bestAskVolume := 0.0, 0.0, 0.0, 0.0;
      topBids, topAsks := [], [];
      base, accepted := Base(0, map[], map[]), [];
    }

    /** What a snapshot must satisfy to be loaded. */
    ghost predicate SnapshotGood(s: RawSnapshot) {
      && |s.bids| <= maxLevels && |s.asks| <= maxLevels
      && Parsed(s.bids, false).Some? && Parsed(s.asks, false).Some?
      && s.lastUpdateId >= 0
      && Uncrossed(Parsed(s.bids, false).value, Parsed(s.asks, false).value)
    }

    method InitSnapshot(s: RawSnapshot) returns (ok: bool)
      requires Valid()
      modifies this
      ensures Valid() && ok == initialized
      ensures ok <==> SnapshotGood(s)
      ensures ok ==> base == Base(s.lastUpdateId, Parsed(s.bids, false).value, Parsed(s.asks, false).value)
                     && accepted == []
      ensures !ok ==> bids == old(bids) && asks == old(asks) && lastUpdateId == old(lastUpdateId)
    {
      hide IsTop, BestOk, Uncrossed, Parsed, Positive;
      initialized := false;
      if |s.bids| > maxLevels || |s.asks| > maxLevels { return false; }
      var newBids := ParseLevels(s.bids, false);
      if newBids.None? { return false; }
      var newAsks := ParseLevels(s.asks, false);
      if newAsks.None? { return false; }
      if s.lastUpdateId < 0 { return false; }
      var sound := ValidateBook(newBids.value, newAsks.value);
      if !sound { return false; }
      Load(newBids.value, newAsks.value, s.lastUpdateId);
      return true;
    }

    method Load(newBids: Levels, newAsks: Levels, id: int)
      requires 1 <= depth <= maxLevels && 1 <= maxDeltaLevels
      requires id >= 0 && Uncrossed(newBids, newAsks) && |newBids| <= maxLevels && |newAsks| <= maxLevels
      requires forall p :: p in newBids ==> p > 0.0 && newBids[p] > 0.0
      requires forall p :: p in newAsks ==> p > 0.0 && newAsks[p] > 0.0
      modifies this
      ensures Valid() && initialized && base == Base(id, newBids, newAsks) && accepted == []
    {
      hide IsTop, BestOk, Uncrossed, Chained, Fold, LastId;
      EmptyHistory(Base(id, newBids, newAsks));
      bids, asks := newBids, newAsks;
      lastUpdateId, initialized, awaitingFirstDelta := id, true, true;
      base, accepted := Base(id, bids, asks), [];
      RecomputeAll();
    }

    method RecomputeAll()
      requires depth > 0
      modifies this`bestBidPrice, this`bestBidVolume, this`bestAskPrice, this`bestAskVolume, this`topBids, this`topAsks
      ensures CachesExact()
    {
      hide IsTop, BestOk;
      RecomputeBestBid();
      RecomputeBestAsk();
      topBids := TopLevels(true, bids, depth);
      topAsks := TopLevels(false, asks, depth);
    }

    method RecomputeBestBid()
      modifies this`bestBidPrice, this`bestBidVolume
      ensures BestOk(true, bids, bestBidPrice, bestBidVolume)
    {
      if bids.Keys == {} {
        bestBidPrice, bestBidVolume := 0.0, 0.0;
      } else {
        bestBidPrice := BestPrice(true, bids.Keys);
        bestBidVolume := bids[bestBidPrice];
      }
    }

    method RecomputeBestAsk()
      modifies this`bestAskPrice, this`bestAskVolume
      ensures BestOk(false, asks, bestAskPrice, bestAskVolume)
    {
      if asks.Keys == {} {
        bestAskPrice, bestAskVolume := 0.0, 0.0;
      } else {
        bestAskPrice := BestPrice(false, asks.Keys);
        bestAskVolume := asks[bestAskPrice];
      }
    }

    method ApplyBidUpdate(price: real, qty: real) returns (dirty: bool)
      requires BestOk(true, bids, bestBidPrice, bestBidVolume) && Positive(bids) && price > 0.0 && qty >= 0.0
      modifies this`bids, this`bestBidPrice, this`bestBidVolume
      ensures dirty == FrontierImpacted(true, price, topBids, depth, emitFull)
      ensures bids == if qty == 0.0 then old(bids) - {price} else old(bids)[price := qty]
      ensures BestOk(true, bids, bestBidPrice, bestBidVolume) && Positive(bids)
    {
      var currentBest := bestBidPrice;
      dirty := FrontierImpacted(true, price, topBids, depth, emitFull);
      if qty == 0.0 {
        if price in bids {
          if price != currentBest { BestAfterDelete(true, bids, bestBidPrice, bestBidVolume, price); }
          bids := bids - {price};
          if price == currentBest { RecomputeBestBid(); }
        } else {
          assert bids - {price} == bids;
        }
        return;
      }
      BestAfterSet(true, bids, bestBidPrice, bestBidVolume, price, qty);
      bids := bids[price := qty];
      if price >= currentBest {
        bestBidPrice, bestBidVolume := price, qty;
      }
    }

    method ApplyAskUpdate(price: real, qty: real) returns (dirty: bool)
      requires BestOk(false, asks, bestAskPrice, bestAskVolume) && Positive(asks) && price > 0.0 && qty >= 0.0
      modifies this`asks, this`bestAskPrice, this`bestAskVolume
      ensures dirty == FrontierImpacted(false, price, topAsks, depth, emitFull)
      ensures asks == if qty == 0.0 then old(asks) - {price} else old(asks)[price := qty]
      ensures BestOk(false, asks, bestAskPrice, bestAskVolume) && Positive(asks)
    {
      var currentBest := bestAskPrice;
      dirty := FrontierImpacted(false, price, topAsks, depth, emitFull);
      if qty == 0.0 {
        if price in asks {
          if price != currentBest { BestAfterDelete(false, asks, bestAskPrice, bestAskVolume, price); }
          asks := asks - {price};
          if currentBest == 0.0 || price == currentBest { RecomputeBestAsk(); }
        } else {
          assert asks - {price} == asks;
        }
        return;
      }
      BestAfterSet(false, asks, bestAskPrice, bestAskVolume, price, qty);
      asks := asks[price := qty];
      if currentBest == 0.0 || price <= currentBest {
        bestAskPrice, bestAskVolume := price, qty;
      }
    }

    /** The bid loop of a delta, in whatever order the dictionary yields its entries. */
    method ApplyBids(upd: Levels) returns (dirty: bool)
      requires BestOk(true, bids, bestBidPrice, bestBidVolume) && Positive(bids)
      requires Entries(upd)
      modifies this`bids, this`bestBidPrice, this`bestBidVolume
      ensures bids == Apply(old(bids), upd)
      ensures BestOk(true, bids, bestBidPrice, bestBidVolume) && Positive(bids)
      ensures dirty <==> exists p :: p in upd && FrontierImpacted(true, p, topBids, depth, emitFull)
    {
      dirty := false;
      var rest := upd.Keys;
      ghost var done: Levels := map[];
      ApplyNothing(bids);
      while rest != {}
        invariant rest <= upd.Keys && done == map p | p in upd && p !in rest :: upd[p]
        invariant bids == Apply(old(bids), done)
        invariant BestOk(true, bids, bestBidPrice, bestBidVolume) && Positive(bids)
        invariant dirty <==> exists p :: p in done && FrontierImpacted(true, p, topBids, depth, emitFull)
        decreases rest
      {
        ghost var any := AnElement(rest);
        var price :| price in rest;
        ApplyOne(old(bids), done, price, upd[price]);
        var one := ApplyBidUpdate(price, upd[price]);
        dirty := one || dirty;
        rest := rest - {price};
        done := done[price := upd[price]];
      }
      assert done == upd;
    }

    method ApplyAsks(upd: Levels) returns (dirty: bool)
      requires BestOk(false, asks, bestAskPrice, bestAskVolume) && Positive(asks)
      requires Entries(upd)
      modifies this`asks, this`bestAskPrice, this`bestAskVolume
      ensures asks == Apply(old(asks), upd)
      ensures BestOk(false, asks, bestAskPrice, bestAskVolume) && Positive(asks)
      ensures dirty <==> exists p :: p in upd && FrontierImpacted(false, p, topAsks, depth, emitFull)
    {
      dirty := false;
      var rest := upd.Keys;
      ghost var done: Levels := map[];
      ApplyNothing(asks);
      while rest != {}
        invariant rest <= upd.Keys && done == map p | p in upd && p !in rest :: upd[p]
        invariant asks == Apply(old(asks), done)
        invariant BestOk(false, asks, bestAskPrice, bestAskVolume) && Positive(asks)
        invariant dirty <==> exists p :: p in done && FrontierImpacted(false, p, topAsks, depth, emitFull)
        decreases rest
      {
        ghost var any := AnElement(rest);
        var price :| price in rest;
        ApplyOne(old(asks), done, price, upd[price]);
        var one := ApplyAskUpdate(price, upd[price]);
        dirty := one || dirty;
        rest := rest - {price};
        done := done[price := upd[price]];
      }
      assert done == upd;
    }

    /** A delta that parses, with its dictionaries. */
    ghost function Decoded(d: RawDelta): Option<Delta> {
      if !d.wellTyped || |d.bids| > maxDeltaLevels || |d.asks| > maxDeltaLevels
         || d.first < 0 || d.last < d.first || d.prev < 0
         || Parsed(d.bids, true).None? || Parsed(d.asks, true).None? then None
      else Some(Delta(d.first, d.last, d.prev, Parsed(d.bids, true).value, Parsed(d.asks, true).value))
    }

    ghost predicate Follows(d: Delta)
      reads this
    {
      d.prev == lastUpdateId || (awaitingFirstDelta && d.first <= lastUpdateId <= d.last)
    }

    method ProcessDelta(raw: RawDelta) returns (r: Outcome)
      requires Valid()
      modifies this
      ensures Valid()
      ensures r == (if Decoded(raw).None? then IntegrityFailure
                    else if !old(initialized) || raw.last < old(lastUpdateId) then Skipped
                    else if !old(Follows(Decoded(raw).value)) then Gap
                    else if !Fits(Apply(old(bids), Decoded(raw).value.bids), Apply(old(asks), Decoded(raw).value.asks))
                    then IntegrityFailure
                    else Accepted)
      ensures r.Gap? || r.IntegrityFailure? ==> !initialized
      ensures r.Skipped? ==> initialized == old(initialized) && bids == old(bids) && asks == old(asks)
                             && lastUpdateId == old(lastUpdateId) && accepted == old(accepted) && base == old(base)
      ensures r.Accepted? ==> initialized && base == old(base) && accepted == old(accepted) + [Decoded(raw).value]
    {
      hide CachesExact, SoundBook, FollowsHistory, Fits, Apply;
      var bidUpdates, askUpdates := Decode(raw);
      if bidUpdates.None? || askUpdates.None? {
        initialized := false;
        return IntegrityFailure;
      }
      if !initialized || raw.last < lastUpdateId { return Skipped; }
      var sequenceValid := if awaitingFirstDelta
      then raw.prev == lastUpdateId || raw.first <= lastUpdateId <= raw.last
      else raw.prev == lastUpdateId;
      if !sequenceValid {
        initialized := false;
        return Gap;
      }
      r := Install(Delta(raw.first, raw.last, raw.prev, bidUpdates.value, askUpdates.value));
    }

    method Decode(raw: RawDelta) returns (b: Option<Levels>, a: Option<Levels>)
      ensures b.Some? && a.Some? <==> Decoded(raw).Some?
      ensures Decoded(raw).Some? ==>
                Decoded(raw).value == Delta(raw.first, raw.last, raw.prev, b.value, a.value)
    {
      b, a := None, None;
      if !raw.wellTyped || |raw.bids| > maxDeltaLevels || |raw.asks| > maxDeltaLevels { return; }
      if raw.first < 0 || raw.last < raw.first || raw.prev < 0 { return; }
      b := ParseLevels(raw.bids, true);
      a := ParseLevels(raw.asks, true);
    }

    /** Recompute the published bids only when some price of the delta touched the frontier. */
    method RefreshBids(dirty: bool, ghost before: Levels, ghost upd: Levels)
      requires IsTop(true, before, topBids, depth) && bids == Apply(before, upd) && depth > 0
      requires dirty <==> exists p :: p in upd && FrontierImpacted(true, p, topBids, depth, emitFull)
      modifies this`topBids
      ensures IsTop(true, bids, topBids, depth)
    {
      if dirty {
        topBids := TopLevels(true, bids, depth);
      } else {
        UntouchedFrontier(true, before, topBids, depth, upd);
      }
    }

    method RefreshAsks(dirty: bool, ghost before: Levels, ghost upd: Levels)
      requires IsTop(false, before, topAsks, depth) && asks == Apply(before, upd) && depth > 0
      requires dirty <==> exists p :: p in upd && FrontierImpacted(false, p, topAsks, depth, emitFull)
      modifies this`topAsks
      ensures IsTop(false, asks, topAsks, depth)
    {
      if dirty {
        topAsks := TopLevels(false, asks, depth);
      } else {
        UntouchedFrontier(false, before, topAsks, depth, upd);
      }
    }

    /** Apply a delta in sequence, refresh what it made stale, and check the result. */
    method Install(d: Delta) returns (r: Outcome)
      requires Valid() && initialized && Follows(d) && d.last >= lastUpdateId && Proper(d)
      modifies this
      ensures Valid() && base == old(base)
      ensures r == if Fits(Apply(old(bids), d.bids), Apply(old(asks), d.asks)) then Accepted else IntegrityFailure
      ensures r.Accepted? ==> initialized && accepted == old(accepted) + [d]
      ensures r.IntegrityFailure? ==> !initialized
    {
      hide Valid, SoundBook, FollowsHistory, Follows, CachesExact, Positive, Fits, Entries, Chained, LastId, Apply,
           Fold;
      OpenBook(d);
      ghost var b0, a0 := bids, asks;
      var sound := ApplyDelta(d);
      if sound {
        Commit(d, b0, a0);
        r := Accepted;
      } else {
        Withdraw();
        r := IntegrityFailure;
      }
    }

    /** What an open book offers a delta that follows it. */
    lemma OpenBook(d: Delta)
      requires Valid() && initialized && Follows(d)
      ensures d.prev == LastId(base, accepted) || (accepted == [] && d.first <= base.id <= d.last)
      ensures Chained(base, accepted) && lastUpdateId == LastId(base, accepted)
      ensures bids == Fold(true, base.bids, accepted) && asks == Fold(false, base.asks, accepted)
      ensures 1 <= depth <= maxLevels && 1 <= maxDeltaLevels
      ensures CachesExact() && Positive(bids) && Positive(asks)
      ensures 0 <= base.id <= LastId(base, accepted) && AllProper(accepted)
    {
    }

    /** Hide the book until the next snapshot. */
    method Withdraw()
      requires 1 <= depth <= maxLevels && 1 <= maxDeltaLevels
      modifies this`initialized
      ensures Valid() && !initialized
    {
      initialized := false;
    }

    /** Both update loops, the capacity check, the refresh of stale top lists, the final check. */
    method ApplyDelta(d: Delta) returns (sound: bool)
      requires CachesExact() && Positive(bids) && Positive(asks) && depth > 0
      requires Entries(d.bids) && Entries(d.asks)
      modifies this`bids, this`asks, this`topBids, this`topAsks,
               this`bestBidPrice, this`bestBidVolume, this`bestAskPrice, this`bestAskVolume
      ensures bids == Apply(old(bids), d.bids) && asks == Apply(old(asks), d.asks)
      ensures Positive(bids) && Positive(asks)
      ensures sound <==> Fits(bids, asks)
      ensures sound ==> CachesExact()
    {
      hide IsTop, BestOk, Positive, FrontierImpacted, Apply, Uncrossed;
      var bidsDirty := ApplyBids(d.bids);
      var asksDirty := ApplyAsks(d.asks);
      if |bids| > maxLevels || |asks| > maxLevels { return false; }
      RefreshBids(bidsDirty, old(bids), d.bids);
      RefreshAsks(asksDirty, old(asks), d.asks);
      sound := ValidateBook(bids, asks);
    }

    lemma ProperIds(d: Delta)
      requires Proper(d)
      ensures 0 <= d.last
    {
    }

    method Commit(d: Delta, ghost b0: Levels, ghost a0: Levels)
      requires 1 <= depth <= maxLevels && 1 <= maxDeltaLevels && initialized && CachesExact()
      requires Positive(bids) && Positive(asks) && Fits(bids, asks)
      requires Chained(base, accepted) && d.last >= LastId(base, accepted)
      requires d.prev == LastId(base, accepted) || (accepted == [] && d.first <= base.id <= d.last)
      requires b0 == Fold(true, base.bids, accepted) && bids == Apply(b0, d.bids)
      requires a0 == Fold(false, base.asks, accepted) && asks == Apply(a0, d.asks)
      requires 0 <= base.id <= LastId(base, accepted) && Proper(d)
      requires AllProper(accepted)
      modifies this`lastUpdateId, this`awaitingFirstDelta, this`accepted
      ensures Valid() && accepted == old(accepted) + [d]
    {
      hide IsTop, BestOk, Positive, Uncrossed, Apply, Proper, AllProper, Chained, Fold;
      AllProperGrows(accepted, d);
      ProperIds(d);
      HistoryGrows(base, accepted, d);
      lastUpdateId, awaitingFirstDelta := d.last, false;
      accepted := accepted + [d];
    }

    /** What consumers see: nothing unless the book is initialized. */
    method GenerateEventData() returns (r: Option<(Levels, Levels, seq<Level>, seq<Level>)>)
      requires Valid()
      ensures r.Some? <==> initialized
      ensures r.Some? ==> var (b, a, tb, ta) := r.value;
                          && IsTop(true, bids, tb, depth) && IsTop(false, asks, ta, depth)
                          && (emitFull ==> b == bids && a == asks)
                          && (!emitFull ==> (forall p :: p in b <==> Listed(tb, p))
                                            && (forall p :: p in a <==> Listed(ta, p)))
                          && (forall p :: p in b ==> p in bids && b[p] == bids[p])
                          && (forall p :: p in a ==> p in asks && a[p] == asks[p])
                          && tb != [] && ta != []
                          && tb[0] == Level(bestBidPrice, bestBidVolume) && ta[0] == Level(bestAskPrice, bestAskVolume)
                          && bestBidPrice < bestAskPrice
    {
      if !initialized { return None; }
      TopHeadIsBest(true, bids, topBids, depth, bestBidPrice, bestBidVolume);
      TopHeadIsBest(false, asks, topAsks, depth, bestAskPrice, bestAskVolume);
      if emitFull { return Some((bids, asks, topBids, topAsks)); }
      var b := Published(bids, topBids);
      var a := Published(asks, topAsks);
      return Some((b, a, topBids, topAsks));
    }
  }

  /** {price: volume for price, volume in levels} */
  method Published(book: Levels, levels: seq<Level>) returns (m: Levels)
    requires InBook(book, levels)
    ensures forall p :: p in m <==> Listed(levels, p)
    ensures forall p :: p in m ==> p in book && m[p] == book[p]
  {
    m := map[];
    for i := 0 to |levels|
      invariant forall p :: p in m <==> exists j :: 0 <= j < i && levels[j].price == p
      invariant forall p :: p in m ==> p in book && m[p] == book[p]
    {
      m := m[levels[i].price := levels[i].qty];
    }
  }
}
