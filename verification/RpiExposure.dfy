/** Depth exposure of one acknowledged RPI order (RPIOrderExposure in alpha/rpi_intensity.py)
    and the artifact checks its result has to meet (governance/calibration_artifact.py). */
module RpiExposure {
  import opened Options
  import opened RealArithmetic

  // ---------------------------------------------------------------- text normalisation

  /** The characters that str.strip() removes. */
  predicate IsSpace(c: char) {
    || '\t' <= c <= '\r' || '\U{1c}' <= c <= ' ' || c == '\U{85}' || c == '\U{a0}' || c == '\U{1680}'
    || '\U{2000}' <= c <= '\U{200a}' || c == '\U{2028}' || c == '\U{2029}' || c == '\U{202f}' || c == '\U{205f}'
    || c == '\U{3000}'
  }

  function StripLeft(s: string): (r: string)
    ensures r == "" || !IsSpace(r[0])
    ensures r == "" <==> forall i :: 0 <= i < |s| ==> IsSpace(s[i])
  {
    if s == "" then ""
    else if IsSpace(s[0]) then
      var r := StripLeft(s[1..]);
      assert forall i :: 0 < i < |s| ==> s[i] == s[1..][i - 1];
      r
    else s
  }

  function StripRight(s: string): (r: string)
    ensures r != "" ==> !IsSpace(r[|r| - 1])
    ensures r == "" <==> forall i :: 0 <= i < |s| ==> IsSpace(s[i])
    decreases |s|
  {
    if s == "" then ""
    else if IsSpace(s[|s| - 1]) then StripRight(s[..|s| - 1])
    else s
  }

  /** `r` is `s` without the blanks at its two ends. */
  ghost predicate IsStripped(s: string, r: string) {
    && (r != "" ==> !IsSpace(r[0]) && !IsSpace(r[|r| - 1]))
    && exists k :: BlankAround(s, r, k)
  }

  /** `r` is the part of `s` from position k on, with only blanks around it. */
  ghost predicate BlankAround(s: string, r: string, k: nat) {
    && k + |r| <= |s| && r == s[k..k + |r|]
    && (forall i :: 0 <= i < k ==> IsSpace(s[i])) && forall i :: k + |r| <= i < |s| ==> IsSpace(s[i])
  }

  function Strip(s: string): (r: string)
    ensures r != "" ==> !IsSpace(r[|r| - 1])
    ensures r == "" <==> forall i :: 0 <= i < |s| ==> IsSpace(s[i])
  {
    var left := StripLeft(s);
    assert left != "" ==> !IsSpace(left[0]);
    StripRight(left)
  }

  lemma {:induction false} LeftEnd(s: string)
    ensures var r := StripLeft(s);
            |r| <= |s| && r == s[|s| - |r|..] && forall i :: 0 <= i < |s| - |r| ==> IsSpace(s[i])
  {
    if s != "" && IsSpace(s[0]) {
      LeftEnd(s[1..]);
      assert forall i :: 0 < i < |s| ==> s[i] == s[1..][i - 1];
    }
  }

  lemma {:induction false} RightEnd(s: string)
    ensures var r := StripRight(s); r <= s && forall i :: |r| <= i < |s| ==> IsSpace(s[i])
    decreases |s|
  {
    if s != "" && IsSpace(s[|s| - 1]) { RightEnd(s[..|s| - 1]); }
  }

  /** strip(): the text without the blanks at its two ends, and nothing else taken away. */
  lemma StripsExactly(s: string)
    ensures IsStripped(s, Strip(s))
  {
    var left := StripLeft(s);
    LeftEnd(s);
    RightEnd(left);
    BothEnds(s, left, StripRight(left));
  }

  lemma BothEnds(s: string, left: string, r: string)
    requires |left| <= |s| && left == s[|s| - |left|..] && r <= left
    requires forall i :: 0 <= i < |s| - |left| ==> IsSpace(s[i])
    requires forall i :: |r| <= i < |left| ==> IsSpace(left[i])
    requires r != "" ==> !IsSpace(left[0]) && !IsSpace(r[|r| - 1])
    ensures IsStripped(s, r)
  {
    var k := |s| - |left|;
    assert s[k..k + |r|] == left[..|r|];
    assert r == s[k..k + |r|] by { assert r == left[..|r|]; }
    forall i | k + |r| <= i < |s| ensures IsSpace(s[i]) { assert s[i] == left[i - k]; }
    assert BlankAround(s, r, k);
  }

  // ---------------------------------------------------------------- quantised depth

  /** The nearest multiple of `width`, as its index; None for a missing or negative depth. */
  function Quantized(depth: Option<real>, width: real): (r: Option<int>)
    requires width > 0.0
    ensures r.None? <==> depth.None? || depth.value < 0.0
    ensures r.Some? ==> r.value >= 0
                        && -(width / 2.0) <= depth.value - r.value as real * width < width / 2.0
  {
    if depth.None? || depth.value < 0.0 then None
    else
      var scaled := depth.value / width;
      assert scaled * width == depth.value;
      var n := (scaled + 0.5).Floor;
      NearestMultiple(depth.value, width, scaled, n);
      Some(n)
  }

  lemma NearestMultiple(depth: real, width: real, scaled: real, n: int)
    requires width > 0.0 && depth >= 0.0 && scaled * width == depth && n == (scaled + 0.5).Floor
    ensures n >= 0 && -(width / 2.0) <= depth - n as real * width < width / 2.0
  {
    var nr := n as real;
    var x, d := scaled - nr, depth - nr * width;
    if scaled < 0.0 { ScaledBounds(scaled, width, depth); }
    assert x * width == scaled * width - nr * width;
    ScaledBounds(x, width, d);
  }

  lemma ScaledBounds(x: real, width: real, d: real)
    requires width > 0.0 && d == x * width
    ensures x < 0.0 ==> d < 0.0
    ensures -0.5 <= x < 0.5 ==> -(width / 2.0) <= d < width / 2.0
  {
    if x < 0.0 { Product(-x, width); }
    if -0.5 <= x < 0.5 {
      Product(0.5 - x, width);
      NonNegativeProduct(x + 0.5, width);
      assert (0.5 - x) * width == width / 2.0 - d;
      assert (x + 0.5) * width == d + width / 2.0;
    }
  }

  // ---------------------------------------------------------------- conservation over a log

  /** One accrual (positive duration) or one fill (one fill, no duration) at a depth. */
  datatype Entry = Entry(depth: int, duration: real, fills: nat)

  ghost function DurationOf(e: Entry): real { e.duration }
  ghost function FillsOf(e: Entry): real { e.fills as real }
  ghost function SamplesOf(e: Entry): real { if e.fills == 0 then 1.0 else 0.0 }

  ghost function AmountAt(log: seq<Entry>, d: int, amount: Entry -> real): real {
    if log == [] then 0.0
    else
      var e := log[|log| - 1];
      AmountAt(log[..|log| - 1], d, amount) + (if e.depth == d then amount(e) else 0.0)
  }

  ghost function Total(log: seq<Entry>, amount: Entry -> real): real {
    if log == [] then 0.0 else Total(log[..|log| - 1], amount) + amount(log[|log| - 1])
  }

  ghost function SumOver(keys: seq<int>, log: seq<Entry>, amount: Entry -> real): real {
    if keys == [] then 0.0 else AmountAt(log, keys[0], amount) + SumOver(keys[1..], log, amount)
  }

  predicate Increasing(keys: seq<int>) { forall i, j :: 0 <= i < j < |keys| ==> keys[i] < keys[j] }

  lemma AppendEntry(log: seq<Entry>, e: Entry, d: int, amount: Entry -> real)
    ensures AmountAt(log + [e], d, amount) == AmountAt(log, d, amount) + (if e.depth == d then amount(e) else 0.0)
    ensures Total(log + [e], amount) == Total(log, amount) + amount(e)
  {
    assert (log + [e])[..|log|] == log;
  }

  lemma {:induction false} SumOverEmptyLog(keys: seq<int>, amount: Entry -> real)
    ensures SumOver(keys, [], amount) == 0.0
  {
    if keys != [] { SumOverEmptyLog(keys[1..], amount); }
  }

  lemma {:induction false} SumOverAppend(keys: seq<int>, log: seq<Entry>, e: Entry, amount: Entry -> real)
    requires Increasing(keys)
    ensures SumOver(keys, log + [e], amount)
            == SumOver(keys, log, amount) + (if e.depth in keys then amount(e) else 0.0)
  {
    if keys != [] {
      AppendEntry(log, e, keys[0], amount);
      SumOverAppend(keys[1..], log, e, amount);
      assert keys == [keys[0]] + keys[1..];
    }
  }

  /** Grouping by depth loses nothing: the per-depth sums add up to the total. */
  lemma {:induction false} GroupingConserves(keys: seq<int>, log: seq<Entry>, amount: Entry -> real)
    requires Increasing(keys)
    requires forall i :: 0 <= i < |log| ==> log[i].depth in keys
    ensures SumOver(keys, log, amount) == Total(log, amount)
  {
    if log == [] {
      SumOverEmptyLog(keys, amount);
    } else {
      var front, e := log[..|log| - 1], log[|log| - 1];
      assert log == front + [e];
      GroupingConserves(keys, front, amount);
      SumOverAppend(keys, front, e, amount);
    }
  }

  /** The log after the current depth was exposed from `from` to `to`. */
  ghost function Exposed(log: seq<Entry>, bin: int, from: real, to: real): seq<Entry> {
    if to > from then log + [Entry(bin, to - from, 0)] else log
  }

  // ---------------------------------------------------------------- published bins

  datatype Slot = Slot(exposure: real, fills: nat, samples: nat)
  datatype PublishedBin = PublishedBin(depth: int, slot: Slot)

  function Publish(keys: seq<int>, bins: map<int, Slot>): (r: seq<PublishedBin>)
    requires forall i :: 0 <= i < |keys| ==> keys[i] in bins
  {
    if keys == [] then []
    else if bins[keys[0]].exposure > 0.0 then [PublishedBin(keys[0], bins[keys[0]])] + Publish(keys[1..], bins)
    else Publish(keys[1..], bins)
  }

  /** The published bins are the exposed depths, each with its own slot, and nothing else. */
  lemma {:induction false} PublishedExactly(keys: seq<int>, bins: map<int, Slot>, b: PublishedBin)
    requires forall i :: 0 <= i < |keys| ==> keys[i] in bins
    ensures b in Publish(keys, bins)
            <==> b.depth in keys && b.slot == bins[b.depth] && b.slot.exposure > 0.0
  {
    if keys != [] {
      assert forall i :: 0 < i < |keys| ==> keys[i] == keys[1..][i - 1];
      PublishedExactly(keys[1..], bins, b);
      assert keys == [keys[0]] + keys[1..];
      assert b in [PublishedBin(keys[0], bins[keys[0]])] + Publish(keys[1..], bins)
             <==> b == PublishedBin(keys[0], bins[keys[0]]) || b in Publish(keys[1..], bins);
    }
  }

  /** Each published bin carries what the log credits to its depth, and every exposed depth is there. */
  ghost predicate CarriesLog(r: seq<PublishedBin>, log: seq<Entry>) {
    && (forall i :: 0 <= i < |r| ==>
          && r[i].slot.exposure == AmountAt(log, r[i].depth, DurationOf)
          && r[i].slot.fills as real == AmountAt(log, r[i].depth, FillsOf)
          && r[i].slot.samples as real == AmountAt(log, r[i].depth, SamplesOf))
    && forall d :: AmountAt(log, d, DurationOf) > 0.0 ==> exists i :: 0 <= i < |r| && r[i].depth == d
  }

  lemma PublishedCarriesLog(keys: seq<int>, bins: map<int, Slot>, log: seq<Entry>)
    requires Tallied(bins, log) && forall k :: k in keys <==> k in bins
    requires forall i :: 0 <= i < |keys| ==> keys[i] in bins
    ensures CarriesLog(Publish(keys, bins), log)
  {
    var r := Publish(keys, bins);
    forall i | 0 <= i < |r| ensures r[i].depth in bins && r[i].slot == bins[r[i].depth] {
      PublishedExactly(keys, bins, r[i]);
      assert r[i] in r;
    }
    forall d | AmountAt(log, d, DurationOf) > 0.0 ensures exists i :: 0 <= i < |r| && r[i].depth == d {
      if d !in bins { NothingElsewhere(log, d, DurationOf); }
      PublishedExactly(keys, bins, PublishedBin(d, bins[d]));
    }
  }

  function SumExposure(bins: seq<PublishedBin>): real {
    if bins == [] then 0.0 else bins[0].slot.exposure + SumExposure(bins[1..])
  }

  function SumFills(bins: seq<PublishedBin>): nat {
    if bins == [] then 0 else bins[0].slot.fills + SumFills(bins[1..])
  }

  /** The bins record exactly what the log says about each depth. */
  ghost predicate Tallied(bins: map<int, Slot>, log: seq<Entry>) {
    && (forall i :: 0 <= i < |log| ==> log[i].depth in bins)
    && (forall d :: d in bins ==>
          && d >= 0
          && bins[d].exposure == AmountAt(log, d, DurationOf) >= 0.0
          && bins[d].fills as real == AmountAt(log, d, FillsOf)
          && bins[d].samples as real == AmountAt(log, d, SamplesOf)
          && (bins[d].exposure > 0.0 ==> bins[d].samples > 0))
  }

  ghost predicate Stranded(bins: map<int, Slot>) {
    exists d :: d in bins && bins[d].fills > 0 && bins[d].exposure == 0.0
  }

  /** Publication keeps all exposure; it keeps all fills exactly when none sits at a depth
      that was never exposed. */
  lemma {:induction false} PublishSums(keys: seq<int>, bins: map<int, Slot>, log: seq<Entry>)
    requires forall i :: 0 <= i < |keys| ==> keys[i] in bins
    requires Tallied(bins, log)
    ensures SumExposure(Publish(keys, bins)) == SumOver(keys, log, DurationOf)
    ensures SumFills(Publish(keys, bins)) as real <= SumOver(keys, log, FillsOf)
    ensures SumFills(Publish(keys, bins)) as real == SumOver(keys, log, FillsOf)
            <==> forall i :: 0 <= i < |keys| ==> bins[keys[i]].fills == 0 || bins[keys[i]].exposure > 0.0
    ensures Publish(keys, bins) == [] ==> SumOver(keys, log, DurationOf) == 0.0
    ensures Publish(keys, bins) != [] ==> SumOver(keys, log, DurationOf) > 0.0
  {
    if keys != [] {
      PublishSums(keys[1..], bins, log);
      assert forall i :: 0 < i < |keys| ==> keys[i] == keys[1..][i - 1];
      if bins[keys[0]].exposure > 0.0 {
        var rest := Publish(keys[1..], bins);
        assert Publish(keys, bins)[1..] == rest;
      }
    }
  }

  // ---------------------------------------------------------------- sorted dictionary keys

  method SortedKeys(s: set<int>) returns (keys: seq<int>)
    ensures Increasing(keys) && forall k :: k in keys <==> k in s
  {
    keys := [];
    var rest := s;
    while rest != {}
      invariant rest <= s && Increasing(keys)
      invariant forall k :: k in keys <==> k in s && k !in rest
      invariant forall k, r :: k in keys && r in rest ==> k < r
      decreases rest
    {
      ghost var any := AnElement(rest);
      var some :| some in rest;
      HasLeast(rest, some);
      var least :| least in rest && forall r :: r in rest ==> least <= r;
      assert forall i :: 0 <= i < |keys| ==> keys[i] in keys;
      keys, rest := keys + [least], rest - {least};
    }
  }

  lemma {:induction false} HasLeast(s: set<int>, x: int)
    requires x in s
    ensures exists m :: m in s && forall r :: r in s ==> m <= r
    decreases s
  {
    if y :| y in s && y < x {
      HasLeast(s - {x}, y);
      var m :| m in s - {x} && forall r :: r in s - {x} ==> m <= r;
      assert m in s;
      forall r | r in s ensures m <= r {
        assert r == x || r in s - {x};
        assert y in s - {x};
      }
    }
  }

  // ---------------------------------------------------------------- the order's exposure

  /** Why an order is censored: text handed in by a caller, or one of the fixed labels. */
  datatype Reason =
    | Uncensored
    | Given(text: string)
    | InvalidInitialDepth
    | Unspecified
    | InvalidBookMonotonic
    | NonMonotonicBookTime
    | InvalidContemporaneousDepth
    | MissingTradeId
    | InvalidTerminalMonotonic
    | TerminalBeforeLastBook
    | NoPositiveExposure
    | FillWithoutPositiveExposure

  /** str(reason or default).strip(), where only a caller's text can come out empty */
  function FromText(text: string, whenEmpty: Reason): Reason {
    if text == "" then whenEmpty else if Strip(text) == "" then Uncensored else Given(Strip(text))
  }

  predicate WellFormed(r: Reason) { r.Given? ==> Strip(r.text) != "" }

  lemma FromTextWellFormed(text: string, whenEmpty: Reason)
    requires !whenEmpty.Given?
    ensures WellFormed(FromText(text, whenEmpty))
  {
    var t := Strip(text);
    assert t != "" ==> !IsSpace(t[|t| - 1]);
  }

  datatype ExposureResult = ExposureResult(censored: bool, censorReason: Reason, acknowledgedAt: real,
                                           terminalAt: real, fillCount: nat, bins: seq<PublishedBin>)

  class RPIOrderExposure {
    const acknowledgedAt: real
    const binWidth: real
    var lastObservation: real
    var bins: map<int, Slot>
    var seenTradeIds: set<string>
    var fillCount: nat
    var censorReason: Reason
    var currentBin: Option<int>
    ghost var log: seq<Entry>

    ghost predicate Valid()
      reads this
    {
      && 0.0 < acknowledgedAt <= lastObservation && binWidth > 0.0
      && Tallied(bins, log)
      && Total(log, DurationOf) == lastObservation - acknowledgedAt
      && Total(log, FillsOf) == fillCount as real
      && fillCount == |seenTradeIds|
      && WellFormed(censorReason)
      && (censorReason.Uncensored? ==> currentBin.Some?)
      && (currentBin.Some? ==> currentBin.value >= 0)
    }

    predicate Censored()
      reads this
    {
      !censorReason.Uncensored?
    }

    constructor (acknowledgedAt: real, initialDepth: Option<real>, binWidth: real, reason: string)
      requires acknowledgedAt > 0.0 && binWidth > 0.0
      ensures Valid() && log == [] && seenTradeIds == {}
      ensures this.acknowledgedAt == acknowledgedAt == lastObservation && this.binWidth == binWidth
      ensures Censored() <==> Strip(reason) != "" || Quantized(initialDepth, binWidth).None?
    {
      this.acknowledgedAt, this.binWidth := acknowledgedAt, binWidth;
      lastObservation := acknowledgedAt;
      bins, seenTradeIds, fillCount, log := map[], {}, 0, [];
      currentBin := Quantized(initialDepth, binWidth);
      censorReason := FromText(reason, Uncensored);
      new;
      FromTextWellFormed(reason, Uncensored);
      if currentBin.None? && censorReason.Uncensored? {
        censorReason := InvalidInitialDepth;
      }
    }

    /** The first reason stays. A reason of blanks only leaves the order uncensored. */
    method MarkCensored(text: string)
      requires Valid()
      modifies this`censorReason
      ensures Valid()
      ensures old(Censored()) ==> censorReason == old(censorReason)
      ensures !old(Censored()) ==> censorReason == FromText(text, Unspecified)
      ensures Censored() <==> old(Censored()) || text == "" || exists i :: 0 <= i < |text| && !IsSpace(text[i])
    {
      FromTextWellFormed(text, Unspecified);
      Mark(FromText(text, Unspecified));
    }

    method Mark(reason: Reason)
      requires Valid() && WellFormed(reason)
      modifies this`censorReason
      ensures Valid() && censorReason == if old(Censored()) then old(censorReason) else reason
    {
      if censorReason.Uncensored? { censorReason := reason; }
    }

    method ObserveDepth(observedAt: Option<real>, depth: Option<real>) returns (ok: bool)
      requires Valid()
      modifies this
      ensures Valid() && seenTradeIds == old(seenTradeIds)
      ensures old(Censored()) ==> !ok && censorReason == old(censorReason) && bins == old(bins)
      ensures ok <==> !old(Censored()) && observedAt.Some? && observedAt.value >= old(lastObservation)
                      && Quantized(depth, binWidth).Some?
      ensures !ok ==> Censored()
      ensures ok ==> !Censored() && lastObservation == observedAt.value && currentBin == Quantized(depth, binWidth)
      ensures ok ==> log == Exposed(old(log), old(currentBin).value, old(lastObservation), observedAt.value)
    {
      assert Exposed(log, currentBin.GetOr(0), lastObservation, lastObservation) == log;
      hide Quantized, Tallied, Exposed;
      if !censorReason.Uncensored? { return false; }
      if observedAt.None? || observedAt.value <= 0.0 {
        Mark(InvalidBookMonotonic);
        return false;
      }
      if observedAt.value < lastObservation {
        Mark(NonMonotonicBookTime);
        return false;
      }
      if observedAt.value > lastObservation {
        Accrue(observedAt.value);
      }
      var next := Quantized(depth, binWidth);
      if next.None? {
        Mark(InvalidContemporaneousDepth);
        return false;
      }
      currentBin := next;
      return true;
    }

    method RecordFill(tradeId: string) returns (ok: bool)
      requires Valid()
      modifies this`bins, this`seenTradeIds, this`fillCount, this`censorReason, this`log
      ensures Valid() && (!Censored() || old(Censored()) || Strip(tradeId) == "")
      ensures ok <==> !old(Censored()) && Strip(tradeId) != "" && Strip(tradeId) !in old(seenTradeIds)
      ensures ok ==> seenTradeIds == old(seenTradeIds) + {Strip(tradeId)}
      ensures !ok ==> seenTradeIds == old(seenTradeIds) && bins == old(bins) && log == old(log)
      ensures old(Censored()) ==> censorReason == old(censorReason)
      ensures ok ==> log == old(log) + [Entry(currentBin.value, 0.0, 1)]
    {
      hide Strip, Tallied, IsSpace;
      if !censorReason.Uncensored? { return false; }
      var id := Strip(tradeId);
      if id == "" {
        Mark(MissingTradeId);
        return false;
      }
      if id in seenTradeIds { return false; }
      seenTradeIds := seenTradeIds + {id};
      Credit(Entry(currentBin.value, 0.0, 1));
      fillCount := fillCount + 1;
      return true;
    }

    /** Add an accrual or a fill to the bin of its depth, creating the bin if needed. */
    method Credit(e: Entry)
      requires Tallied(bins, log) && e.depth >= 0
      requires (e.duration > 0.0 && e.fills == 0) || (e.duration == 0.0 && e.fills == 1)
      modifies this`bins, this`log
      ensures log == old(log) + [e] && Tallied(bins, log)
      ensures Total(log, DurationOf) == Total(old(log), DurationOf) + e.duration
      ensures Total(log, FillsOf) == Total(old(log), FillsOf) + e.fills as real
    {
      var slot := if e.depth in bins then bins[e.depth] else Slot(0.0, 0, 0);
      var samples := if e.fills == 0 then slot.samples + 1 else slot.samples;
      CreditTally(bins, log, e, slot, samples);
      AppendEntry(log, e, e.depth, DurationOf);
      AppendEntry(log, e, e.depth, FillsOf);
      bins := bins[e.depth := Slot(slot.exposure + e.duration, slot.fills + e.fills, samples)];
      log := log + [e];
    }

    method Accrue(observedAt: real)
      requires Valid() && !Censored() && observedAt > lastObservation
      modifies this`bins, this`lastObservation, this`log
      ensures Valid() && lastObservation == observedAt
      ensures log == Exposed(old(log), currentBin.value, old(lastObservation), observedAt)
    {
      Credit(Entry(currentBin.value, observedAt - lastObservation, 0));
      lastObservation := observedAt;
    }

    /** The clock part of finish: censor a bad terminal time, or expose up to a good one. */
    method Settle(terminalAt: Option<real>) returns (terminal: real)
      requires Valid()
      modifies this
      ensures Valid() && seenTradeIds == old(seenTradeIds)
      ensures old(Censored()) ==> censorReason == old(censorReason)
      ensures !Censored() <==> !old(Censored()) && terminalAt.Some? && terminalAt.value >= old(lastObservation)
      ensures !Censored() ==> terminal == terminalAt.value == lastObservation
                              && log == Exposed(old(log), old(currentBin).value, old(lastObservation), terminal)
    {
      assert Exposed(log, currentBin.GetOr(0), lastObservation, lastObservation) == log;
      hide Tallied, Exposed;
      terminal := lastObservation;
      if terminalAt.None? || terminalAt.value <= 0.0 {
        Mark(InvalidTerminalMonotonic);
      } else {
        terminal := terminalAt.value;
        if terminal < lastObservation {
          Mark(TerminalBeforeLastBook);
        } else if terminal > lastObservation && censorReason.Uncensored? {
          Accrue(terminal);
        }
      }
    }

    /** The result is uncensored exactly when nothing censored the order before, the terminal
        time is present, not before the last book and after the acknowledgement, and no fill
        sits at a depth that was never exposed. */
    method Finish(terminalAt: Option<real>) returns (r: ExposureResult)
      requires Valid()
      modifies this
      ensures Valid() && r.censored == Censored() && r.censorReason == censorReason && WellFormed(r.censorReason)
      ensures r.acknowledgedAt == acknowledgedAt && r.fillCount == |seenTradeIds| && seenTradeIds == old(seenTradeIds)
      ensures old(Censored()) ==> r.censored && r.censorReason == old(censorReason)
      ensures r.censored ==> r.bins == []
      ensures !r.censored <==> !old(Censored()) && terminalAt.Some? && terminalAt.value >= old(lastObservation)
                               && terminalAt.value > acknowledgedAt && !Stranded(bins)
      ensures !r.censored ==> r.terminalAt == terminalAt.value
                              && SumExposure(r.bins) == r.terminalAt - r.acknowledgedAt > 0.0
                              && SumFills(r.bins) == r.fillCount
      ensures !r.censored ==> CarriesLog(r.bins, log)
                              && log == Exposed(old(log), old(currentBin).value, old(lastObservation), r.terminalAt)
      ensures Shaped(r.bins, -1) && SampleAccepted(r)
    {
      hide Tallied, Stranded, CarriesLog, Exposed;
      var terminal := Settle(terminalAt);
      var keys := SortedKeys(bins.Keys);
      forall i | 0 <= i < |keys| ensures keys[i] in bins { assert keys[i] in keys; }
      assert forall i :: 0 <= i < |keys| ==> keys[i] >= 0 by { KeysNonNegative(keys, bins, log); }
      var published := Publish(keys, bins);
      PublicationConserves(keys, bins, log);
      PublishedCarriesLog(keys, bins, log);
      if censorReason.Uncensored? && published == [] {
        Mark(NoPositiveExposure);
      }
      if censorReason.Uncensored? && SumFills(published) != fillCount {
        Mark(FillWithoutPositiveExposure);
      }
      r := ExposureResult(!censorReason.Uncensored?, censorReason, acknowledgedAt, terminal, fillCount,
                          if !censorReason.Uncensored? then [] else published);
      FinishedSampleAccepted(r);
    }
  }

  lemma KeysNonNegative(keys: seq<int>, bins: map<int, Slot>, log: seq<Entry>)
    requires Tallied(bins, log) && forall i :: 0 <= i < |keys| ==> keys[i] in bins
    ensures forall i :: 0 <= i < |keys| ==> keys[i] >= 0
  {
  }

  /** What sorting and publishing keeps of a tallied log. */
  lemma PublicationConserves(keys: seq<int>, bins: map<int, Slot>, log: seq<Entry>)
    requires Increasing(keys) && Tallied(bins, log) && forall k :: k in keys <==> k in bins
    requires forall i :: 0 <= i < |keys| ==> keys[i] in bins && keys[i] >= 0
    ensures var r := Publish(keys, bins);
            && SumExposure(r) == Total(log, DurationOf) >= 0.0
            && (r == [] <==> Total(log, DurationOf) == 0.0)
            && (SumFills(r) as real == Total(log, FillsOf) <==> !Stranded(bins))
            && Shaped(r, -1)
  {
    GroupingConserves(keys, log, DurationOf);
    GroupingConserves(keys, log, FillsOf);
    PublishSums(keys, bins, log);
    PublishedShape(keys, bins, log, -1);
    if Stranded(bins) {
      var d :| d in bins && bins[d].fills > 0 && bins[d].exposure == 0.0;
      var i :| 0 <= i < |keys| && keys[i] == d;
      assert !(bins[keys[i]].fills == 0 || bins[keys[i]].exposure > 0.0);
    } else {
      forall i | 0 <= i < |keys| ensures bins[keys[i]].fills == 0 || bins[keys[i]].exposure > 0.0 {
        assert keys[i] in bins;
      }
    }
  }

  lemma CreditTally(bins: map<int, Slot>, log: seq<Entry>, e: Entry, slot: Slot, samples: nat)
    requires Tallied(bins, log) && e.depth >= 0
    requires (e.duration > 0.0 && e.fills == 0) || (e.duration == 0.0 && e.fills == 1)
    requires slot == if e.depth in bins then bins[e.depth] else Slot(0.0, 0, 0)
    requires samples == if e.fills == 0 then slot.samples + 1 else slot.samples
    ensures Tallied(bins[e.depth := Slot(slot.exposure + e.duration, slot.fills + e.fills, samples)], log + [e])
  {
    var bins', log' := bins[e.depth := Slot(slot.exposure + e.duration, slot.fills + e.fills, samples)], log + [e];
    assert forall i :: 0 <= i < |log'| ==> log'[i] == if i < |log| then log[i] else e;
    if e.depth !in bins {
      NothingElsewhere(log, e.depth, DurationOf);
      NothingElsewhere(log, e.depth, FillsOf);
      NothingElsewhere(log, e.depth, SamplesOf);
    }
    forall d | d in bins'
      ensures d >= 0 && bins'[d].exposure == AmountAt(log', d, DurationOf) >= 0.0
              && bins'[d].fills as real == AmountAt(log', d, FillsOf)
              && bins'[d].samples as real == AmountAt(log', d, SamplesOf)
              && (bins'[d].exposure > 0.0 ==> bins'[d].samples > 0)
    {
      AppendEntry(log, e, d, DurationOf);
      AppendEntry(log, e, d, FillsOf);
      AppendEntry(log, e, d, SamplesOf);
    }
  }

  lemma {:induction false} NothingElsewhere(log: seq<Entry>, d: int, amount: Entry -> real)
    requires forall i :: 0 <= i < |log| ==> log[i].depth != d
    ensures AmountAt(log, d, amount) == 0.0
  {
    if log != [] { NothingElsewhere(log[..|log| - 1], d, amount); }
  }

  /** Positive exposure and sample count in every bin, at strictly increasing depths above `low`. */
  ghost predicate Shaped(r: seq<PublishedBin>, low: int) {
    && (forall i :: 0 <= i < |r| ==> low < r[i].depth && r[i].slot.exposure > 0.0 && r[i].slot.samples > 0)
    && (forall i, j :: 0 <= i < j < |r| ==> r[i].depth < r[j].depth)
  }

  lemma {:induction false} PublishedShape(keys: seq<int>, bins: map<int, Slot>, log: seq<Entry>, low: int)
    requires Increasing(keys) && Tallied(bins, log)
    requires forall i :: 0 <= i < |keys| ==> keys[i] in bins && low < keys[i]
    ensures Shaped(Publish(keys, bins), low)
  {
    if keys != [] {
      assert forall i :: 0 < i < |keys| ==> keys[i] == keys[1..][i - 1];
      PublishedShape(keys[1..], bins, log, keys[0]);
      var b := PublishedBin(keys[0], bins[keys[0]]);
      ShapedLowered(Publish(keys[1..], bins), keys[0], low);
      if b.slot.exposure > 0.0 { ShapedCons(b, Publish(keys[1..], bins), low); }
    }
  }

  lemma ShapedLowered(r: seq<PublishedBin>, low: int, low': int)
    requires Shaped(r, low) && low' <= low
    ensures Shaped(r, low')
  {
  }

  lemma ShapedCons(b: PublishedBin, rest: seq<PublishedBin>, low: int)
    requires Shaped(rest, b.depth) && low < b.depth && b.slot.exposure > 0.0 && b.slot.samples > 0
    ensures Shaped([b] + rest, low)
  {
    var r := [b] + rest;
    assert forall i :: 0 < i < |r| ==> r[i] == rest[i - 1];
  }

  /** A reason of blanks, and nothing else, marks an order and leaves it uncensored. */
  lemma BlankReasonDoesNotCensor(text: string)
    ensures FromText(text, Unspecified) == Uncensored
            <==> text != "" && forall i :: 0 <= i < |text| ==> IsSpace(text[i])
  {
  }

  // ---------------------------------------------------------------- the artifact's checks

  const TOLERANCE: real := 0.000000001

  predicate NumbersMatch(left: real, right: real) {
    Abs(left - right) <= TOLERANCE
    || Abs(left - right) <= Abs(left) * TOLERANCE
    || Abs(left - right) <= Abs(right) * TOLERANCE
  }

  /** The exposure part of _validated_sample: what a journalled sample has to satisfy. */
  predicate SampleAccepted(r: ExposureResult) {
    && r.censored == (!r.censorReason.Uncensored? && WellFormed(r.censorReason))
    && (forall i :: 0 <= i < |r.bins| ==> r.bins[i].slot.exposure > 0.0 && r.bins[i].slot.samples > 0)
    && if r.censored then r.bins == []
       else
         && r.bins != []
         && r.acknowledgedAt > 0.0 && r.terminalAt > 0.0
         && r.terminalAt > r.acknowledgedAt
         && SumFills(r.bins) == r.fillCount
         && NumbersMatch(SumExposure(r.bins), r.terminalAt - r.acknowledgedAt)
  }

  /** Whatever Finish returns passes the exposure checks of the artifact. */
  lemma FinishedSampleAccepted(r: ExposureResult)
    requires r.acknowledgedAt > 0.0 && Shaped(r.bins, -1)
    requires r.censored == !r.censorReason.Uncensored? && WellFormed(r.censorReason)
    requires r.censored ==> r.bins == []
    requires !r.censored ==> SumExposure(r.bins) == r.terminalAt - r.acknowledgedAt > 0.0
                             && SumFills(r.bins) == r.fillCount
    ensures SampleAccepted(r)
  {
  }
}
