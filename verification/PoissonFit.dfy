/** The Poisson intensity fit (alpha/rpi_intensity.py): a bisection on a monotone score.
    `exp` and `log` are parameters with the laws of the real exponential. */
module PoissonFit {
  import opened RealArithmetic

  datatype Bin = Bin(depth: real, exposure: real, fills: nat, samples: nat)

  // ---------------------------------------------------------------- exponential laws

  ghost predicate AddLaw(exp: real -> real, a: real, b: real, sum: real) {
    sum == a + b ==> exp(sum) == exp(a) * exp(b)
  }
  ghost predicate TangentLaw(exp: real -> real, a: real) { exp(a) > 0.0 && exp(a) >= 1.0 + a }

  ghost predicate IsExp(exp: real -> real) {
    && (forall a, b, sum {:trigger AddLaw(exp, a, b, sum)} :: AddLaw(exp, a, b, sum))
    && (forall a {:trigger TangentLaw(exp, a)} :: TangentLaw(exp, a))
  }

  ghost predicate InverseLaw(exp: real -> real, log: real -> real, t: real) { exp(log(t)) == t }

  ghost predicate IsLog(exp: real -> real, log: real -> real) {
    forall t {:trigger InverseLaw(exp, log, t)} :: t > 0.0 ==> InverseLaw(exp, log, t)
  }

  lemma ExpAdd(exp: real -> real, a: real, b: real, sum: real)
    requires IsExp(exp) && sum == a + b
    ensures exp(sum) == exp(a) * exp(b) && exp(a) > 0.0 && exp(b) > 0.0 && exp(sum) > 0.0
  {
    assert AddLaw(exp, a, b, sum) && TangentLaw(exp, a) && TangentLaw(exp, b) && TangentLaw(exp, sum);
  }

  lemma ExpIncreasing(exp: real -> real, a: real, b: real)
    requires IsExp(exp) && a < b
    ensures 0.0 < exp(a) < exp(b)
  {
    var gap := b - a;
    ExpAdd(exp, a, gap, b);
    assert TangentLaw(exp, gap);
    GrowsBy(exp(a), exp(gap));
  }

  lemma GrowsBy(x: real, f: real)
    requires x > 0.0 && f > 1.0
    ensures x * f > x
  {
    assert x * (f - 1.0) > 0.0;
  }

  // ---------------------------------------------------------------- weights and sums

  ghost predicate GoodBins(bins: seq<Bin>) {
    forall i :: 0 <= i < |bins| ==> bins[i].exposure > 0.0
  }

  ghost function Decay(k: real, depth: real): real { -(k * depth) }

  /** T * e^(-k d): the expected share of a bin, up to the common factor A */
  ghost function Weight(exp: real -> real, b: Bin, k: real): real { b.exposure * exp(Decay(k, b.depth)) }

  ghost function WeightDepth(exp: real -> real, b: Bin, k: real): real { Weight(exp, b, k) * b.depth }

  ghost function SumW(exp: real -> real, bins: seq<Bin>, k: real): real {
    if bins == [] then 0.0 else Weight(exp, bins[0], k) + SumW(exp, bins[1..], k)
  }

  ghost function SumWD(exp: real -> real, bins: seq<Bin>, k: real): real {
    if bins == [] then 0.0 else WeightDepth(exp, bins[0], k) + SumWD(exp, bins[1..], k)
  }

  /** The exposure-weighted depth at k, as the model defines it. */
  ghost function Score(exp: real -> real, bins: seq<Bin>, k: real): real
    requires IsExp(exp) && GoodBins(bins) && bins != []
  {
    SumWPositive(exp, bins, k);
    SumWD(exp, bins, k) / SumW(exp, bins, k)
  }

  lemma WeightPositive(exp: real -> real, b: Bin, k: real)
    requires IsExp(exp) && b.exposure > 0.0
    ensures Weight(exp, b, k) > 0.0
  {
    assert TangentLaw(exp, Decay(k, b.depth));
    Product(b.exposure, exp(Decay(k, b.depth)));
  }

  lemma {:induction false} SumWPositive(exp: real -> real, bins: seq<Bin>, k: real)
    requires IsExp(exp) && GoodBins(bins)
    ensures SumW(exp, bins, k) >= 0.0
    ensures bins != [] ==> SumW(exp, bins, k) > 0.0
  {
    if bins != [] {
      WeightPositive(exp, bins[0], k);
      SumWPositive(exp, bins[1..], k);
    }
  }

  // ---------------------------------------------------------------- monotone score

  /** One pair's share of how much the score drops between k1 and k2, from the weights
      b1, b2 at depth d and c1, c2 at depth e. */
  ghost function Skew(b1: real, b2: real, d: real, c1: real, c2: real, e: real): real {
    (d - e) * (b1 * c2 - b2 * c1)
  }

  ghost function Cross(exp: real -> real, b: Bin, c: Bin, k1: real, k2: real): real {
    Skew(Weight(exp, b, k1), Weight(exp, b, k2), b.depth, Weight(exp, c, k1), Weight(exp, c, k2), c.depth)
  }

  /** What one bin (weights b1, b2 at depth d) adds to the drop over a list with sums w and v. */
  ghost function Mix(b1: real, b2: real, d: real, w1: real, w2: real, v1: real, v2: real): real {
    b1 * d * w2 + v1 * b2 - b2 * d * w1 - v2 * b1
  }

  ghost function CrossSum(exp: real -> real, b: Bin, bins: seq<Bin>, k1: real, k2: real): real {
    if bins == [] then 0.0 else Cross(exp, b, bins[0], k1, k2) + CrossSum(exp, b, bins[1..], k1, k2)
  }

  /** The cross-multiplied score difference between k1 and k2. */
  ghost function Drop(exp: real -> real, bins: seq<Bin>, k1: real, k2: real): real {
    SumWD(exp, bins, k1) * SumW(exp, bins, k2) - SumWD(exp, bins, k2) * SumW(exp, bins, k1)
  }

  lemma MixedWeights(exp: real -> real, b: Bin, c: Bin, k1: real, k2: real, e: real)
    requires IsExp(exp) && e == Decay(k1, b.depth) + Decay(k2, c.depth)
    ensures Weight(exp, b, k1) * Weight(exp, c, k2) == (b.exposure * c.exposure) * exp(e)
  {
    var x, y := Decay(k1, b.depth), Decay(k2, c.depth);
    ExpAdd(exp, x, y, e);
    Regroup(b.exposure, exp(x), c.exposure, exp(y), Weight(exp, b, k1), Weight(exp, c, k2), exp(e));
  }

  lemma Regroup(a: real, x: real, b: real, y: real, p: real, q: real, z: real)
    requires p == a * x && q == b * y && z == x * y
    ensures p * q == (a * b) * z
  {
    assert p * q == (a * x) * (b * y);
    assert (a * x) * (b * y) == (a * b) * (x * y);
  }

  lemma CrossSign(exp: real -> real, b: Bin, c: Bin, k1: real, k2: real)
    requires IsExp(exp) && b.exposure > 0.0 && c.exposure > 0.0 && k1 < k2
    ensures Cross(exp, b, c, k1, k2) >= 0.0
    ensures b.depth != c.depth ==> Cross(exp, b, c, k1, k2) > 0.0
  {
    hide Weight, Skew;
    var e1, e2 := Decay(k1, b.depth) + Decay(k2, c.depth), Decay(k2, b.depth) + Decay(k1, c.depth);
    MixedWeights(exp, b, c, k1, k2, e1);
    MixedWeights(exp, b, c, k2, k1, e2);
    ExponentGap(k1, k2, b.depth, c.depth);
    Product(b.exposure, c.exposure);
    if b.depth > c.depth {
      ExpIncreasing(exp, e2, e1);
    } else if b.depth < c.depth {
      ExpIncreasing(exp, e1, e2);
    }
    SkewSign(b.exposure * c.exposure, exp(e1), exp(e2), Weight(exp, b, k1), Weight(exp, b, k2), b.depth,
             Weight(exp, c, k1), Weight(exp, c, k2), c.depth);
  }

  lemma ExponentGap(k1: real, k2: real, d: real, e: real)
    requires k1 < k2
    ensures d > e ==> Decay(k1, d) + Decay(k2, e) > Decay(k2, d) + Decay(k1, e)
    ensures d < e ==> Decay(k1, d) + Decay(k2, e) < Decay(k2, d) + Decay(k1, e)
  {
    if d > e { Product(k2 - k1, d - e); }
    if d < e { Product(k2 - k1, e - d); }
  }

  lemma SkewSign(t: real, x: real, y: real, b1: real, b2: real, d: real, c1: real, c2: real, e: real)
    requires t > 0.0 && b1 * c2 == t * x && b2 * c1 == t * y
    requires (d > e ==> x > y) && (d < e ==> x < y)
    ensures Skew(b1, b2, d, c1, c2, e) >= 0.0
    ensures d != e ==> Skew(b1, b2, d, c1, c2, e) > 0.0
  {
    var gap, step, s := b1 * c2 - b2 * c1, d - e, Skew(b1, b2, d, c1, c2, e);
    assert s == step * gap;
    hide Skew;
    assert gap == t * (x - y);
    if d > e {
      Product(t, x - y);
      Product(step, gap);
    } else if d < e {
      Product(t, y - x);
      assert gap == -(t * (y - x));
      Product(step, gap);
    }
  }

  lemma {:induction false} CrossSumSign(exp: real -> real, b: Bin, bins: seq<Bin>, k1: real, k2: real)
    requires IsExp(exp) && b.exposure > 0.0 && GoodBins(bins) && k1 < k2
    ensures CrossSum(exp, b, bins, k1, k2) >= 0.0
    ensures (exists i :: 0 <= i < |bins| && bins[i].depth != b.depth) ==> CrossSum(exp, b, bins, k1, k2) > 0.0
  {
    if bins != [] {
      CrossSign(exp, b, bins[0], k1, k2);
      CrossSumSign(exp, b, bins[1..], k1, k2);
      if i :| 0 <= i < |bins| && bins[i].depth != b.depth && bins[0].depth == b.depth {
        assert bins[1..][i - 1].depth != b.depth;
      }
    }
  }

  lemma {:induction false} CrossSumIsDrop(exp: real -> real, b: Bin, bins: seq<Bin>, k1: real, k2: real)
    ensures CrossSum(exp, b, bins, k1, k2)
            == Mix(Weight(exp, b, k1), Weight(exp, b, k2), b.depth, SumW(exp, bins, k1), SumW(exp, bins, k2),
                   SumWD(exp, bins, k1), SumWD(exp, bins, k2))
  {
    if bins != [] {
      hide Weight, WeightDepth, Skew, Mix;
      var c, rest := bins[0], bins[1..];
      CrossSumIsDrop(exp, b, rest, k1, k2);
      Distribute(exp, b, c, k1, k2, SumW(exp, rest, k1), SumW(exp, rest, k2), SumWD(exp, rest, k1),
                 SumWD(exp, rest, k2),
                 SumW(exp, bins, k1), SumW(exp, bins, k2), SumWD(exp, bins, k1), SumWD(exp, bins, k2));
    }
  }

  lemma Distribute(exp: real -> real, b: Bin, c: Bin, k1: real, k2: real, w1: real, w2: real, v1: real, v2: real,
                   w1': real, w2': real, v1': real, v2': real)
    requires w1' == Weight(exp, c, k1) + w1 && w2' == Weight(exp, c, k2) + w2
    requires v1' == WeightDepth(exp, c, k1) + v1 && v2' == WeightDepth(exp, c, k2) + v2
    ensures Mix(Weight(exp, b, k1), Weight(exp, b, k2), b.depth, w1', w2', v1', v2')
            == Cross(exp, b, c, k1, k2) + Mix(Weight(exp, b, k1), Weight(exp, b, k2), b.depth, w1, w2, v1, v2)
  {
    hide Weight;
    var b1, b2, d := Weight(exp, b, k1), Weight(exp, b, k2), b.depth;
    var c1, c2, e := Weight(exp, c, k1), Weight(exp, c, k2), c.depth;
    assert b1 * d * (c2 + w2) + (c1 * e + v1) * b2 - b2 * d * (c1 + w1) - (c2 * e + v2) * b1
        == (d - e) * (b1 * c2 - b2 * c1) + (b1 * d * w2 + v1 * b2 - b2 * d * w1 - v2 * b1);
  }

  lemma {:induction false} DropSign(exp: real -> real, bins: seq<Bin>, k1: real, k2: real)
    requires IsExp(exp) && GoodBins(bins) && k1 < k2
    ensures Drop(exp, bins, k1, k2) >= 0.0
    ensures (exists i, j :: 0 <= i < j < |bins| && bins[i].depth != bins[j].depth) ==> Drop(exp, bins, k1, k2) > 0.0
  {
    if bins != [] {
      var b, rest := bins[0], bins[1..];
      DropSign(exp, rest, k1, k2);
      CrossSumSign(exp, b, rest, k1, k2);
      DropStep(exp, bins, k1, k2);
      hide Drop, CrossSum;
      if i, j :| 0 <= i < j < |bins| && bins[i].depth != bins[j].depth {
        assert bins[j] == rest[j - 1];
        assert i > 0 ==> bins[i] == rest[i - 1];
      }
    }
  }

  lemma DropStep(exp: real -> real, bins: seq<Bin>, k1: real, k2: real)
    requires bins != []
    ensures Drop(exp, bins, k1, k2) == Drop(exp, bins[1..], k1, k2) + CrossSum(exp, bins[0], bins[1..], k1, k2)
  {
    var b, rest := bins[0], bins[1..];
    CrossSumIsDrop(exp, b, rest, k1, k2);
    hide Weight, Mix, CrossSum;
    Expand(Weight(exp, b, k1), Weight(exp, b, k2), b.depth,
           SumW(exp, rest, k1), SumW(exp, rest, k2), SumWD(exp, rest, k1), SumWD(exp, rest, k2),
           SumW(exp, bins, k1), SumW(exp, bins, k2), SumWD(exp, bins, k1), SumWD(exp, bins, k2));
  }

  lemma Expand(b1: real, b2: real, d: real, w1: real, w2: real, v1: real, v2: real,
               w1': real, w2': real, v1': real, v2': real)
    requires w1' == b1 + w1 && w2' == b2 + w2 && v1' == b1 * d + v1 && v2' == b2 * d + v2
    ensures v1' * w2' - v2' * w1' == (v1 * w2 - v2 * w1) + Mix(b1, b2, d, w1, w2, v1, v2)
  {
    assert (b1 * d + v1) * (b2 + w2) - (b2 * d + v2) * (b1 + w1)
        == (v1 * w2 - v2 * w1) + (b1 * d * w2 + v1 * b2 - b2 * d * w1 - v2 * b1);
  }

  /** With two depths present the exposure-weighted depth strictly decreases in k. */
  lemma ScoreDecreases(exp: real -> real, bins: seq<Bin>, k1: real, k2: real)
    requires IsExp(exp) && GoodBins(bins) && k1 < k2
    requires exists i, j :: 0 <= i < j < |bins| && bins[i].depth != bins[j].depth
    ensures Score(exp, bins, k1) > Score(exp, bins, k2)
  {
    DropSign(exp, bins, k1, k2);
    SumWPositive(exp, bins, k1);
    SumWPositive(exp, bins, k2);
    QuotientOrder(SumWD(exp, bins, k1), SumW(exp, bins, k1), SumWD(exp, bins, k2), SumW(exp, bins, k2));
  }

  lemma QuotientOrder(a: real, b: real, c: real, d: real)
    requires b > 0.0 && d > 0.0 && a * d - c * b > 0.0
    ensures a / b > c / d
  {
    var p, q := a / b, c / d;
    Product(b, d);
    CrossMultiply(p, b, q, d, a, c);
    if p <= q { NonPositive(p - q, b * d); }
  }

  lemma CrossMultiply(p: real, b: real, q: real, d: real, a: real, c: real)
    requires a == p * b && c == q * d
    ensures a * d - c * b == (p - q) * (b * d)
  {
  }

  lemma NonPositive(x: real, y: real)
    requires x <= 0.0 && y > 0.0
    ensures x * y <= 0.0
  {
  }

  // ---------------------------------------------------------------- the numerically stable form

  function LogWeight(log: real -> real, b: Bin, k: real): real { log(b.exposure) - k * b.depth }

  /** The largest log weight: once it is subtracted, no exponent is positive. */
  function Anchor(log: real -> real, bins: seq<Bin>, k: real): (anchor: real)
    requires bins != []
    ensures forall i :: 0 <= i < |bins| ==> LogWeight(log, bins[i], k) - anchor <= 0.0
    ensures exists i :: 0 <= i < |bins| && LogWeight(log, bins[i], k) == anchor
  {
    var head := LogWeight(log, bins[0], k);
    if |bins| == 1 then head
    else
      var tail := Anchor(log, bins[1..], k);
      if tail > head then tail else head
  }

  function StableSum(exp: real -> real, log: real -> real, bins: seq<Bin>, k: real, anchor: real): real {
    if bins == [] then 0.0
    else exp(LogWeight(log, bins[0], k) - anchor) + StableSum(exp, log, bins[1..], k, anchor)
  }

  function Offset(weight: real, depth: real, ref: real): real { weight * (depth - ref) }

  function StableOffset(exp: real -> real, log: real -> real, bins: seq<Bin>, k: real, anchor: real, ref: real): real {
    if bins == [] then 0.0
    else Offset(exp(LogWeight(log, bins[0], k) - anchor), bins[0].depth, ref)
         + StableOffset(exp, log, bins[1..], k, anchor, ref)
  }

  function ExposureWeightedDepth(exp: real -> real, log: real -> real, bins: seq<Bin>, k: real): (value: real)
    requires IsExp(exp) && IsLog(exp, log) && GoodBins(bins) && bins != []
    ensures value == Score(exp, bins, k)
  {
    var anchor, ref := Anchor(log, bins, k), bins[0].depth;
    StableDepthIsScore(exp, log, bins, k, anchor, ref);
    ref + StableOffset(exp, log, bins, k, anchor, ref) / StableSum(exp, log, bins, k, anchor)
  }

  lemma StableWeight(exp: real -> real, log: real -> real, b: Bin, k: real, anchor: real, shifted: real)
    requires IsExp(exp) && IsLog(exp, log) && b.exposure > 0.0
    requires shifted == LogWeight(log, b, k) - anchor
    ensures exp(shifted) == Weight(exp, b, k) * exp(0.0 - anchor)
  {
    var neg := 0.0 - anchor;
    var u, lt, dk := LogWeight(log, b, k), log(b.exposure), Decay(k, b.depth);
    assert InverseLaw(exp, log, b.exposure);
    ExpAdd(exp, lt, dk, u);
    ExpAdd(exp, u, neg, shifted);
  }

  /** The weighted depths taken from `ref`, with every weight scaled by c. */
  ghost function Centred(sw: real, swd: real, ref: real, c: real): real { (swd - ref * sw) * c }

  lemma {:induction false} ScaledSums(exp: real -> real, log: real -> real, bins: seq<Bin>, k: real, anchor: real,
                                      ref: real, c: real)
    requires IsExp(exp) && IsLog(exp, log) && GoodBins(bins) && c == exp(0.0 - anchor)
    ensures StableSum(exp, log, bins, k, anchor) == Times(SumW(exp, bins, k), c)
    ensures StableOffset(exp, log, bins, k, anchor, ref) == Centred(SumW(exp, bins, k), SumWD(exp, bins, k), ref, c)
  {
    hide Times, Centred, IsExp, IsLog, LogWeight, Weight, WeightDepth, Offset;
    if bins == [] {
      ScaleNothing(ref, c);
    } else {
      var b, rest := bins[0], bins[1..];
      ScaledTerm(exp, log, b, k, anchor, ref, c);
      ScaledSums(exp, log, rest, k, anchor, ref, c);
      ScaleSums(Weight(exp, b, k), WeightDepth(exp, b, k), ref, c, SumW(exp, rest, k), SumWD(exp, rest, k));
    }
  }

  lemma ScaledTerm(exp: real -> real, log: real -> real, b: Bin, k: real, anchor: real, ref: real, c: real)
    requires IsExp(exp) && IsLog(exp, log) && b.exposure > 0.0 && c == exp(0.0 - anchor)
    ensures exp(LogWeight(log, b, k) - anchor) == Times(Weight(exp, b, k), c)
    ensures Offset(exp(LogWeight(log, b, k) - anchor), b.depth, ref)
            == Centred(Weight(exp, b, k), WeightDepth(exp, b, k), ref, c)
  {
    hide Weight, LogWeight, IsExp, IsLog;
    var shifted := LogWeight(log, b, k) - anchor;
    StableWeight(exp, log, b, k, anchor, shifted);
    MoveFactor(exp(shifted), Weight(exp, b, k), b.depth, ref, c);
  }

  lemma MoveFactor(e: real, w: real, d: real, ref: real, c: real)
    requires e == w * c
    ensures e * (d - ref) == (w * d - ref * w) * c
  {
  }

  lemma ScaleNothing(ref: real, c: real)
    ensures Times(0.0, c) == 0.0 && Centred(0.0, 0.0, ref, c) == 0.0
  {
  }

  lemma ScaleSums(w: real, wd: real, ref: real, c: real, sw: real, swd: real)
    ensures Times(w, c) + Times(sw, c) == Times(w + sw, c)
    ensures Centred(w, wd, ref, c) + Centred(sw, swd, ref, c) == Centred(w + sw, wd + swd, ref, c)
  {
  }

  /** The anchor only scales every weight by the same positive factor. */
  lemma StableSums(exp: real -> real, log: real -> real, bins: seq<Bin>, k: real, anchor: real, ref: real, c: real)
    requires IsExp(exp) && IsLog(exp, log) && GoodBins(bins) && c == exp(0.0 - anchor)
    ensures StableSum(exp, log, bins, k, anchor) == SumW(exp, bins, k) * c
    ensures StableOffset(exp, log, bins, k, anchor, ref) == (SumWD(exp, bins, k) - ref * SumW(exp, bins, k)) * c
  {
    hide StableSum, StableOffset, SumW, SumWD;
    ScaledSums(exp, log, bins, k, anchor, ref, c);
  }

  lemma StableDepthIsScore(exp: real -> real, log: real -> real, bins: seq<Bin>, k: real, anchor: real, ref: real)
    requires IsExp(exp) && IsLog(exp, log) && GoodBins(bins) && bins != []
    ensures StableSum(exp, log, bins, k, anchor) > 0.0
    ensures ref + StableOffset(exp, log, bins, k, anchor, ref) / StableSum(exp, log, bins, k, anchor)
            == Score(exp, bins, k)
  {
    var c := exp(0.0 - anchor);
    assert TangentLaw(exp, 0.0 - anchor);
    StableSums(exp, log, bins, k, anchor, ref, c);
    SumWPositive(exp, bins, k);
    Product(SumW(exp, bins, k), c);
    CancelScale(ref, c, SumW(exp, bins, k), SumWD(exp, bins, k),
                StableSum(exp, log, bins, k, anchor), StableOffset(exp, log, bins, k, anchor, ref));
  }

  lemma CancelScale(ref: real, c: real, w: real, wd: real, s: real, o: real)
    requires w > 0.0 && c > 0.0 && s == w * c && s > 0.0 && o == (wd - ref * w) * c
    ensures ref + o / s == wd / w
  {
    var q := wd / w;
    assert wd == q * w;
    assert o == (q - ref) * s;
  }

  // ---------------------------------------------------------------- the fit

  function TotalFills(bins: seq<Bin>): nat {
    if bins == [] then 0 else bins[0].fills + TotalFills(bins[1..])
  }

  /** sum of n_i (d_i - ref) / total over the bins that have fills */
  function MeanOffset(bins: seq<Bin>, total: nat, ref: real): real
    requires total > 0
  {
    if bins == [] then 0.0
    else if bins[0].fills == 0 then MeanOffset(bins[1..], total, ref)
    else (bins[0].fills as real / total as real) * (bins[0].depth - ref) + MeanOffset(bins[1..], total, ref)
  }

  function EventDepthMean(bins: seq<Bin>): real
    requires bins != [] && TotalFills(bins) > 0
  {
    bins[0].depth + MeanOffset(bins, TotalFills(bins), bins[0].depth)
  }

  function Max(a: real, b: real): (m: real)
    ensures m >= a && m >= b && (m == a || m == b)
  {
    if b > a then b else a
  }

  ghost function Pow2(n: nat): (p: real)
    ensures p >= 1.0
  {
    if n == 0 then 1.0 else 2.0 * Pow2(n - 1)
  }

  datatype FitResult = NotStrictlyDecaying | UnboundedSlope | Fitted(A: real, k: real)

  /** Bins as the caller groups them: positive exposures at strictly increasing depths. */
  ghost predicate Grouped(bins: seq<Bin>) {
    && GoodBins(bins) && |bins| >= 2
    && (forall i, j :: 0 <= i < j < |bins| ==> bins[i].depth < bins[j].depth)
  }

  /** `n` halvings of a bracket of width `w` */
  ghost predicate Halved(lower: real, upper: real, n: nat, w: real) {
    (upper - lower) * Pow2(n) == w
  }

  /** Where the bisection stands after `n` halvings. */
  ghost predicate Bracket(exp: real -> real, bins: seq<Bin>, mean: real, maxK: real, lower: real, upper: real, n: nat)
    requires IsExp(exp) && Grouped(bins)
  {
    && 0.0 <= lower < upper <= maxK
    && Halved(lower, upper, n, maxK)
    && Score(exp, bins, lower) > mean >= Score(exp, bins, upper)
  }

  const ROUNDS: nat := 160

  method Bisect(exp: real -> real, log: real -> real, bins: seq<Bin>, mean: real, maxK: real)
    returns (k: real, lower: real, upper: real, n: nat)
    requires IsExp(exp) && IsLog(exp, log) && Grouped(bins) && maxK > 0.0
    requires Score(exp, bins, 0.0) > mean > Score(exp, bins, maxK)
    ensures Bracket(exp, bins, mean, maxK, lower, upper, n) && k == (lower + upper) / 2.0
    ensures 0 < n <= 160 && (n == 160 || upper - lower <= 0.0000000000001 * Max(1.0, upper))
    ensures n == 1 || 2.0 * (upper - lower) > 0.0000000000001
  {
    assert GoodBins(bins) && bins != [];
    assert Halved(0.0, maxK, 0, maxK);
    hide Score, ExposureWeightedDepth, IsExp, IsLog, Grouped, GoodBins, Halved;
    var lo, hi, i := 0.0, maxK, 0;
    while i < ROUNDS
      invariant i <= ROUNDS && Bracket(exp, bins, mean, maxK, lo, hi, i)
      invariant i == 0 || hi - lo > 0.0000000000001
    {
      var midpoint := (lo + hi) / 2.0;
      Halve(lo, hi, midpoint, i, maxK);
      if ExposureWeightedDepth(exp, log, bins, midpoint) > mean {
        lo := midpoint;
      } else {
        hi := midpoint;
      }
      i := i + 1;
      if hi - lo <= 0.0000000000001 * Max(1.0, midpoint) { break; }
    }
    k := (lo + hi) / 2.0;
    lower, upper, n := lo, hi, i;
  }

  lemma Halve(lo: real, hi: real, mid: real, n: nat, w: real)
    requires lo < hi && mid == (lo + hi) / 2.0 && Halved(lo, hi, n, w)
    ensures lo < mid < hi && Halved(lo, mid, n + 1, w) && Halved(mid, hi, n + 1, w)
  {
    assert Pow2(n + 1) == 2.0 * Pow2(n);
  }

  function LogExposureSum(exp: real -> real, log: real -> real, bins: seq<Bin>, k: real): real
    requires bins != []
  {
    var anchor := Anchor(log, bins, k);
    anchor + log(StableSum(exp, log, bins, k, anchor))
  }

  /** _fit_profile_poisson up to floating-point range checks: the two refusals, the bracketed
      slope, and the scale that makes the expected number of fills equal the observed one. */
  method FitProfilePoisson(exp: real -> real, log: real -> real, bins: seq<Bin>, maxK: real)
    returns (r: FitResult, ghost lower: real, ghost upper: real, ghost n: nat)
    requires IsExp(exp) && IsLog(exp, log) && Grouped(bins) && maxK > 0.0 && TotalFills(bins) > 0
    ensures var tolerance := 0.000000000001 * Max(1.0, bins[|bins| - 1].depth - bins[0].depth);
            && (r.NotStrictlyDecaying? <==> Score(exp, bins, 0.0) - EventDepthMean(bins) <= tolerance)
            && (r.UnboundedSlope? <==> Score(exp, bins, 0.0) - EventDepthMean(bins) > tolerance
                                       && Score(exp, bins, maxK) - EventDepthMean(bins) >= -tolerance)
    ensures r.Fitted? ==>
              && Bracket(exp, bins, EventDepthMean(bins), maxK, lower, upper, n) && 0 < n <= 160
              && (n == 160 || upper - lower <= 0.0000000000001 * Max(1.0, upper))
              && (n == 1 || 2.0 * (upper - lower) > 0.0000000000001)
              && r.k == (lower + upper) / 2.0
              && r.A > 0.0 && r.A * SumW(exp, bins, r.k) == TotalFills(bins) as real
  {
    hide Score, ExposureWeightedDepth, IsExp, IsLog, SumW, LogExposureSum, TotalFills, EventDepthMean, Bracket;
    lower, upper, n := 0.0, 0.0, 0;
    var total := TotalFills(bins);
    var mean := EventDepthMean(bins);
    var tolerance := 0.000000000001 * Max(1.0, bins[|bins| - 1].depth - bins[0].depth);
    assert tolerance > 0.0;
    if ExposureWeightedDepth(exp, log, bins, 0.0) - mean <= tolerance {
      return NotStrictlyDecaying, lower, upper, n;
    }
    if ExposureWeightedDepth(exp, log, bins, maxK) - mean >= -tolerance {
      return UnboundedSlope, lower, upper, n;
    }
    var k;
    k, lower, upper, n := Bisect(exp, log, bins, mean, maxK);
    var logA := log(total as real) - LogExposureSum(exp, log, bins, k);
    ScaleMatchesFills(exp, log, bins, k, total as real, logA);
    r := Fitted(exp(logA), k);
  }

  lemma ExpZero(exp: real -> real)
    requires IsExp(exp)
    ensures exp(0.0) == 1.0
  {
    var e := exp(0.0);
    ExpAdd(exp, 0.0, 0.0, 0.0);
    assert e * (e - 1.0) == 0.0;
    if e > 1.0 { Product(e, e - 1.0); } else if e < 1.0 { Product(e, 1.0 - e); }
  }

  /** exp(log n - log-sum) * (sum of weights) == n */
  lemma ScaleMatchesFills(exp: real -> real, log: real -> real, bins: seq<Bin>, k: real, total: real, logA: real)
    requires IsExp(exp) && IsLog(exp, log) && GoodBins(bins) && bins != [] && total > 0.0
    requires logA == log(total) - LogExposureSum(exp, log, bins, k)
    ensures exp(logA) > 0.0 && exp(logA) * SumW(exp, bins, k) == total
  {
    hide SumW, SumWD, StableSum, StableOffset, Anchor;
    var anchor := Anchor(log, bins, k);
    var neg, s := 0.0 - anchor, StableSum(exp, log, bins, k, anchor);
    var c, ls, all := exp(neg), log(s), LogExposureSum(exp, log, bins, k);
    StableSums(exp, log, bins, k, anchor, 0.0, c);
    StableDepthIsScore(exp, log, bins, k, anchor, 0.0);
    assert InverseLaw(exp, log, s) && InverseLaw(exp, log, total);
    ExpAdd(exp, anchor, neg, 0.0);
    ExpZero(exp);
    ExpAdd(exp, anchor, ls, all);
    var lt := log(total);
    ExpAdd(exp, logA, all, lt);
    CancelAnchor(exp(logA), exp(anchor), c, s, SumW(exp, bins, k), exp(all), total);
  }

  lemma CancelAnchor(a: real, x: real, c: real, s: real, w: real, all: real, total: real)
    requires x * c == 1.0 && s == w * c && all == x * s && total == a * all
    ensures a * w == total
  {
    assert all == w * (x * c);
  }

  /** No further from r than half of a bracket of width maxK / 2^n. */
  ghost predicate WithinHalfBracket(k: real, r: real, maxK: real, n: nat) {
    -maxK <= (k - r) * (2.0 * Pow2(n)) <= maxK
  }

  /** Signs outside the bracket: every k at or below `lower` scores above the mean, every k from
      `upper` on scores at most the mean. A root can only lie in (lower, upper], there is at
      most one, and the returned midpoint is within half the bracket of it. */
  lemma BracketLocatesRoot(exp: real -> real, bins: seq<Bin>, mean: real, maxK: real, lower: real, upper: real, n: nat,
                           k: real, r: real)
    requires IsExp(exp) && Grouped(bins) && Bracket(exp, bins, mean, maxK, lower, upper, n)
    requires k == (lower + upper) / 2.0
    ensures r <= lower ==> Score(exp, bins, r) > mean
    ensures r > upper ==> Score(exp, bins, r) < mean
    ensures Score(exp, bins, r) == mean ==> lower < r <= upper
    ensures Score(exp, bins, r) == mean ==> WithinHalfBracket(k, r, maxK, n)
    ensures forall q :: Score(exp, bins, r) == mean && Score(exp, bins, q) == mean ==> q == r
  {
    assert bins[0].depth != bins[1].depth;
    if r < lower { ScoreDecreases(exp, bins, r, lower); }
    if r > upper { ScoreDecreases(exp, bins, upper, r); }
    if lower < r <= upper { WithinHalf(lower, upper, k, r, n, maxK); }
    forall q | Score(exp, bins, r) == mean && Score(exp, bins, q) == mean ensures q == r {
      if q < r { ScoreDecreases(exp, bins, q, r); } else if q > r { ScoreDecreases(exp, bins, r, q); }
    }
  }

  lemma WithinHalf(lower: real, upper: real, k: real, r: real, n: nat, w: real)
    requires lower < r <= upper && k == (lower + upper) / 2.0 && Halved(lower, upper, n, w)
    ensures WithinHalfBracket(k, r, w, n)
  {
    HalfProduct(lower, upper, k, r, Pow2(n), w);
  }

  lemma HalfProduct(lower: real, upper: real, k: real, r: real, p: real, w: real)
    requires lower < r <= upper && k == (lower + upper) / 2.0 && p >= 1.0 && (upper - lower) * p == w
    ensures -w <= (k - r) * (2.0 * p) <= w
  {
    assert (k - r) * (2.0 * p) == w - 2.0 * ((r - lower) * p);
    assert (r - lower) * p >= 0.0 && (upper - r) * p >= 0.0;
    assert (r - lower) * p + (upper - r) * p == w;
  }
}
