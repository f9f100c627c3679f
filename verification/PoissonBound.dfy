/** How good the pair that the fit returns is, with no root assumed: the score changes at most in
    proportion to k, so a narrow bracket bounds the likelihood that any other pair could gain. */
module PoissonBound {
  import opened RealArithmetic
  import opened PoissonFit
  import opened PoissonLikelihood

  // ---------------------------------------------------------------- the score moves slowly

  /** One pair of weight products p and q whose ratio differs from 1 by at most delta * s. */
  lemma PairBound(p: real, q: real, s: real, span: real, delta: real, c: real)
    requires p > 0.0 && q > 0.0 && 0.0 <= s <= span && delta > 0.0 && c == delta * (span * span)
    requires q >= p * (1.0 - delta * s)
    ensures s * (p - q) <= c * (p + q) && c >= 0.0
  {
    var ds := delta * s;
    NonNegativeProduct(span, span);
    NonNegativeProduct(delta, span * span);
    NonNegativeProduct(s, p * ds - (p - q));
    assert s * (p * ds - (p - q)) == p * (delta * (s * s)) - s * (p - q);
    NonNegativeProduct(span - s, span + s);
    assert (span - s) * (span + s) == span * span - s * s;
    NonNegativeProduct(delta, span * span - s * s);
    NonNegativeProduct(p, delta * (span * span - s * s));
    assert p * (delta * (span * span - s * s)) == p * c - p * (delta * (s * s));
    NonNegativeProduct(c, q);
  }

  /** The products of the weights of two bins at two slopes differ by a factor e^-((k2 - k1)(d - e)). */
  lemma RatioBound(exp: real -> real, b: Bin, c: Bin, k1: real, k2: real)
    requires IsExp(exp) && b.exposure > 0.0 && c.exposure > 0.0
    ensures var p, q := Weight(exp, b, k1) * Weight(exp, c, k2), Weight(exp, b, k2) * Weight(exp, c, k1);
            p > 0.0 && q > 0.0 && q >= p * (1.0 - (k2 - k1) * (b.depth - c.depth))
  {
    hide Weight;
    var p, q := Weight(exp, b, k1) * Weight(exp, c, k2), Weight(exp, b, k2) * Weight(exp, c, k1);
    var e1, e2 := Decay(k1, b.depth) + Decay(k2, c.depth), Decay(k2, b.depth) + Decay(k1, c.depth);
    var g, t := e2 - e1, b.exposure * c.exposure;
    MixedWeights(exp, b, c, k1, k2, e1);
    MixedWeights(exp, b, c, k2, k1, e2);
    WeightPositive(exp, b, k1);
    WeightPositive(exp, c, k2);
    WeightPositive(exp, b, k2);
    WeightPositive(exp, c, k1);
    Product(Weight(exp, b, k1), Weight(exp, c, k2));
    Product(Weight(exp, b, k2), Weight(exp, c, k1));
    ExpAdd(exp, e1, g, e2);
    assert TangentLaw(exp, g);
    assert g == -((k2 - k1) * (b.depth - c.depth));
    Scaled(t, exp(e1), exp(g), exp(e2), p, q, g);
  }

  lemma Scaled(t: real, x: real, f: real, y: real, p: real, q: real, g: real)
    requires p == t * x && q == t * y && y == x * f && f >= 1.0 + g && p > 0.0
    ensures q >= p * (1.0 + g)
  {
    assert q == p * f;
    NonNegativeProduct(p, f - (1.0 + g));
    assert p * (f - (1.0 + g)) == p * f - p * (1.0 + g);
  }

  /** r times the sum of the two mixed products. */
  ghost function Share(r: real, b1: real, b2: real, c1: real, c2: real): real { r * (b1 * c2 + b2 * c1) }

  lemma CrossBound(exp: real -> real, b: Bin, c: Bin, k1: real, k2: real, span: real, r: real)
    requires IsExp(exp) && b.exposure > 0.0 && c.exposure > 0.0 && k1 < k2
    requires -span <= b.depth - c.depth <= span && r == (k2 - k1) * (span * span)
    ensures Cross(exp, b, c, k1, k2)
            <= Share(r, Weight(exp, b, k1), Weight(exp, b, k2), Weight(exp, c, k1), Weight(exp, c, k2))
  {
    hide Weight;
    RatioBound(exp, b, c, k1, k2);
    RatioBound(exp, c, b, k1, k2);
    SkewBound(Weight(exp, b, k1), Weight(exp, b, k2), b.depth, Weight(exp, c, k1), Weight(exp, c, k2), c.depth,
              k2 - k1, span, r);
  }

  lemma SkewBound(b1: real, b2: real, d: real, c1: real, c2: real, e: real, delta: real, span: real, r: real)
    requires b1 * c2 > 0.0 && b2 * c1 > 0.0 && delta > 0.0 && -span <= d - e <= span && r == delta * (span * span)
    requires b2 * c1 >= b1 * c2 * (1.0 - delta * (d - e)) && c2 * b1 >= c1 * b2 * (1.0 - delta * (e - d))
    ensures Skew(b1, b2, d, c1, c2, e) <= Share(r, b1, b2, c1, c2)
  {
    SignedBound(b1 * c2, b2 * c1, d - e, e - d, span, delta, r);
  }

  lemma SignedBound(p: real, q: real, s: real, t: real, span: real, delta: real, r: real)
    requires p > 0.0 && q > 0.0 && delta > 0.0 && -span <= s <= span && t == -s && r == delta * (span * span)
    requires q >= p * (1.0 - delta * s) && p >= q * (1.0 - delta * t)
    ensures s * (p - q) <= r * (p + q)
  {
    if s >= 0.0 {
      PairBound(p, q, s, span, delta, r);
    } else {
      PairBound(q, p, t, span, delta, r);
      assert s * (p - q) == t * (q - p);
    }
  }

  /** All depths within `span` of each other. */
  ghost predicate Within(bins: seq<Bin>, span: real) {
    forall i, j :: 0 <= i < |bins| && 0 <= j < |bins| ==> -span <= bins[i].depth - bins[j].depth <= span
  }

  lemma {:induction false} CrossSumBound(exp: real -> real, b: Bin, bins: seq<Bin>, k1: real, k2: real, span: real,
                                         r: real)
    requires IsExp(exp) && b.exposure > 0.0 && GoodBins(bins) && k1 < k2 && r == (k2 - k1) * (span * span)
    requires forall i :: 0 <= i < |bins| ==> -span <= b.depth - bins[i].depth <= span
    ensures CrossSum(exp, b, bins, k1, k2)
            <= Share(r, Weight(exp, b, k1), Weight(exp, b, k2), SumW(exp, bins, k1), SumW(exp, bins, k2))
  {
    hide Weight, Cross, Share;
    if bins == [] {
      NoShare(r, Weight(exp, b, k1), Weight(exp, b, k2));
    } else {
      var c, rest := bins[0], bins[1..];
      CrossBound(exp, b, c, k1, k2, span, r);
      CrossSumBound(exp, b, rest, k1, k2, span, r);
      AddShares(r, Weight(exp, b, k1), Weight(exp, b, k2), Weight(exp, c, k1), Weight(exp, c, k2),
                SumW(exp, rest, k1), SumW(exp, rest, k2), SumW(exp, bins, k1), SumW(exp, bins, k2));
    }
  }

  lemma NoShare(r: real, b1: real, b2: real)
    ensures Share(r, b1, b2, 0.0, 0.0) == 0.0
  {
  }

  lemma AddShares(r: real, b1: real, b2: real, c1: real, c2: real, w1: real, w2: real, v1: real, v2: real)
    requires v1 == c1 + w1 && v2 == c2 + w2
    ensures Share(r, b1, b2, v1, v2) == Share(r, b1, b2, c1, c2) + Share(r, b1, b2, w1, w2)
  {
    assert b1 * v2 + b2 * v1 == (b1 * c2 + b2 * c1) + (b1 * w2 + b2 * w1);
  }

  lemma {:induction false} DropBound(exp: real -> real, bins: seq<Bin>, k1: real, k2: real, span: real, r: real)
    requires IsExp(exp) && GoodBins(bins) && Within(bins, span) && k1 < k2 && r == (k2 - k1) * (span * span) && r >= 0.0
    ensures Drop(exp, bins, k1, k2) <= r * (SumW(exp, bins, k1) * SumW(exp, bins, k2))
  {
    if bins != [] {
      var b, rest := bins[0], bins[1..];
      DropBound(exp, rest, k1, k2, span, r);
      CrossSumBound(exp, b, rest, k1, k2, span, r);
      DropStep(exp, bins, k1, k2);
      WeightPositive(exp, b, k1);
      WeightPositive(exp, b, k2);
      hide Weight, Drop, CrossSum, Share;
      JoinShares(r, Weight(exp, b, k1), Weight(exp, b, k2), SumW(exp, rest, k1), SumW(exp, rest, k2),
                 SumW(exp, bins, k1), SumW(exp, bins, k2));
    }
  }

  lemma JoinShares(r: real, b1: real, b2: real, w1: real, w2: real, v1: real, v2: real)
    requires v1 == b1 + w1 && v2 == b2 + w2 && b1 > 0.0 && b2 > 0.0 && r >= 0.0
    ensures r * (w1 * w2) + Share(r, b1, b2, w1, w2) <= r * (v1 * v2)
  {
    Product(b1, b2);
    NonNegativeProduct(r, b1 * b2);
    assert v1 * v2 == w1 * w2 + (b1 * w2 + b2 * w1) + b1 * b2;
    assert r * (v1 * v2) == r * (w1 * w2) + r * (b1 * w2 + b2 * w1) + r * (b1 * b2);
  }

  /** Between two slopes the exposure-weighted depth falls by at most their distance times the
      square of the depth span. */
  lemma ScoreFallsSlowly(exp: real -> real, bins: seq<Bin>, k1: real, k2: real, span: real)
    requires IsExp(exp) && GoodBins(bins) && bins != [] && Within(bins, span) && k1 < k2
    ensures Score(exp, bins, k1) - Score(exp, bins, k2) <= (k2 - k1) * (span * span)
  {
    var r := (k2 - k1) * (span * span);
    assert -span <= bins[0].depth - bins[0].depth <= span;
    NonNegativeProduct(span, span);
    NonNegativeProduct(k2 - k1, span * span);
    DropBound(exp, bins, k1, k2, span, r);
    SumWPositive(exp, bins, k1);
    SumWPositive(exp, bins, k2);
    DivideDrop(SumWD(exp, bins, k1), SumW(exp, bins, k1), SumWD(exp, bins, k2), SumW(exp, bins, k2), r);
  }

  lemma DivideDrop(a: real, b: real, c: real, d: real, r: real)
    requires b > 0.0 && d > 0.0 && a * d - c * b <= r * (b * d)
    ensures a / b - c / d <= r
  {
    var p, q := a / b, c / d;
    Product(b, d);
    CrossMultiply(p, b, q, d, a, c);
    assert (p - q - r) * (b * d) == (p - q) * (b * d) - r * (b * d);
    if p - q - r > 0.0 { Product(p - q - r, b * d); }
  }

  // ---------------------------------------------------------------- the returned pair

  /** n times |dk| times g: the most that any pair at slope distance dk can gain. */
  ghost function Slack(n: real, dk: real, g: real): real { n * (Abs(dk) * g) }

  lemma GainIsSmall(n: real, a: real, w: real, fd: real, wd: real, s: real, m: real, dt: real, dk: real, g: real)
    requires n >= 0.0 && a * w == n && a * wd == s * n && fd == m * n && -g <= s - m <= g
    ensures Gain(n, a, w, fd, wd, dt, dk) >= -Slack(n, dk, g)
  {
    var z := dk * (s - m);
    assert Gain(n, a, w, fd, wd, dt, dk) == n * z by {
      assert fd - a * wd == (m - s) * n;
      assert dk * ((m - s) * n) == -(n * (dk * (s - m)));
    }
    if dk >= 0.0 {
      NonNegativeProduct(dk, g + (s - m));
      assert dk * (g + (s - m)) == dk * g + z;
    } else {
      NonNegativeProduct(-dk, g - (s - m));
      assert (-dk) * (g - (s - m)) == (-dk) * g + z;
    }
    NonNegativeProduct(n, z + Abs(dk) * g);
    assert n * (z + Abs(dk) * g) == n * z + n * (Abs(dk) * g);
  }

  /** A slope whose score is within g of the event mean, with its own scale, loses to another pair
      at most g per fill and unit of slope distance. */
  lemma NearStationary(exp: real -> real, log: real -> real, bins: seq<Bin>, theta: real, k: real, theta': real,
                       k': real,
                       g: real)
    requires IsExp(exp) && IsLog(exp, log) && GoodBins(bins) && bins != [] && TotalFills(bins) > 0
    requires exp(theta) * SumW(exp, bins, k) == TotalFills(bins) as real
    requires -g <= Score(exp, bins, k) - EventDepthMean(bins) <= g
    ensures LogLikelihood(exp, log, bins, theta, k)
            >= LogLikelihood(exp, log, bins, theta', k') - Slack(TotalFills(bins) as real, k - k', g)
  {
    hide LogLikelihood, SumW, SumWD, MeanOffset, TotalFills, FillDepth, Slack, Gain;
    var n, dt, dk := TotalFills(bins) as real, theta - theta', k - k';
    MeanTimesTotal(bins, TotalFills(bins), bins[0].depth);
    SumWPositive(exp, bins, k);
    MeanShare(exp(theta), SumW(exp, bins, k), SumWD(exp, bins, k), Score(exp, bins, k), n);
    var ref, off := bins[0].depth, MeanOffset(bins, TotalFills(bins), bins[0].depth);
    assert FillDepth(bins) == (ref + off) * n;
    LikelihoodGap(exp, log, bins, theta, k, theta', k', dt, dk);
    GainIsSmall(n, exp(theta), SumW(exp, bins, k), FillDepth(bins), SumWD(exp, bins, k), Score(exp, bins, k),
                EventDepthMean(bins), dt, dk, g);
  }

  lemma MeanShare(a: real, w: real, wd: real, s: real, n: real)
    requires w > 0.0 && s == wd / w && a * w == n
    ensures a * wd == s * n
  {
    assert wd == s * w;
    assert a * wd == s * (a * w);
  }

  lemma GroupedWithin(bins: seq<Bin>, span: real)
    requires Grouped(bins) && span == bins[|bins| - 1].depth - bins[0].depth
    ensures Within(bins, span)
  {
    forall i | 0 <= i < |bins| ensures bins[0].depth <= bins[i].depth <= bins[|bins| - 1].depth {}
  }

  /** What the fit returns, with no root assumed: no other scale and slope has a likelihood larger by
      more than the number of fills times the slope distance times the bracket width times the
      square of the depth span. */
  lemma FittedPairNearMaximum(exp: real -> real, log: real -> real, bins: seq<Bin>, maxK: real,
                              lower: real, upper: real, n: nat, k: real, theta: real, theta': real, k': real,
                              span: real, g: real)
    requires IsExp(exp) && IsLog(exp, log) && Grouped(bins) && TotalFills(bins) > 0
    requires Bracket(exp, bins, EventDepthMean(bins), maxK, lower, upper, n) && k == (lower + upper) / 2.0
    requires exp(theta) * SumW(exp, bins, k) == TotalFills(bins) as real
    requires span == bins[|bins| - 1].depth - bins[0].depth && g == (upper - lower) * (span * span)
    ensures LogLikelihood(exp, log, bins, theta, k)
            >= LogLikelihood(exp, log, bins, theta', k') - Slack(TotalFills(bins) as real, k - k', g)
  {
    hide LogLikelihood, SumW, SumWD, TotalFills, EventDepthMean, Slack;
    GroupedWithin(bins, span);
    ScoreFallsSlowly(exp, bins, lower, upper, span);
    assert bins[0].depth != bins[1].depth;
    ScoreDecreases(exp, bins, lower, k);
    ScoreDecreases(exp, bins, k, upper);
    NearStationary(exp, log, bins, theta, k, theta', k', g);
  }
}
