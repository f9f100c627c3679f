/** The root that the bisection closes in on exists. Like the exponential, the least upper bound of
    a set of reals is a parameter with its law. */
module PoissonRoot {
  import opened RealArithmetic
  import opened PoissonFit
  import opened PoissonLikelihood
  import opened PoissonBound

  ghost predicate UpperBound(s: real -> bool, u: real) { forall x :: s(x) ==> x <= u }

  /** A set with a member and an upper bound has the least upper bound sup(s). */
  ghost predicate SupLaw(sup: (real -> bool) -> real, s: real -> bool) {
    (exists m :: s(m)) && (exists u :: UpperBound(s, u)) ==>
      UpperBound(s, sup(s)) && forall u :: UpperBound(s, u) ==> sup(s) <= u
  }

  ghost predicate IsSup(sup: (real -> bool) -> real) { forall s {:trigger SupLaw(sup, s)} :: SupLaw(sup, s) }

  lemma LeastUpperBound(sup: (real -> bool) -> real, s: real -> bool, m: real, u: real)
    requires IsSup(sup) && s(m) && UpperBound(s, u)
    ensures m <= sup(s) <= u && UpperBound(s, sup(s))
    ensures forall v :: UpperBound(s, v) ==> sup(s) <= v
  {
    assert SupLaw(sup, s);
  }

  /** Where the score is still above the mean. */
  ghost predicate Above(exp: real -> real, bins: seq<Bin>, mean: real, lower: real, upper: real, k: real)
    requires IsExp(exp) && Grouped(bins)
  {
    lower <= k <= upper && Score(exp, bins, k) > mean
  }

  /** A step so small that the score falls by less than `gap`. */
  lemma SmallStep(gap: real, span: real, room: real) returns (step: real)
    requires gap > 0.0 && span > 0.0 && room > 0.0
    ensures 0.0 < step <= room && step * (span * span) < gap
  {
    var square := span * span;
    Product(span, span);
    step := gap / (2.0 * square);
    assert step * (2.0 * square) == gap;
    if step <= 0.0 { NonNegativeProduct(-step, 2.0 * square); }
    if step > room {
      NonNegativeProduct(step - room, square);
      assert (step - room) * square == step * square - room * square;
      step := room;
    }
    assert 2.0 * (step * square) <= gap;
  }

  lemma SameProduct(x: real, y: real, c: real)
    requires x == y
    ensures x * c == y * c
  {
  }

  lemma ShortFall(exp: real -> real, bins: seq<Bin>, a: real, b: real, step: real, span: real, gap: real)
    requires IsExp(exp) && Grouped(bins) && Within(bins, span) && a < b && step == b - a && step * (span * span) < gap
    ensures Score(exp, bins, a) - Score(exp, bins, b) < gap
  {
    hide Score, Within;
    ScoreFallsSlowly(exp, bins, a, b, span);
    SameProduct(b - a, step, span * span);
  }

  lemma NoneBeyond(s: real -> bool, u: real, k: real)
    requires UpperBound(s, u) && k > u
    ensures !s(k)
  {
  }

  /** The least upper bound of the slopes that score above the mean is a root. */
  lemma RootExists(exp: real -> real, sup: (real -> bool) -> real, bins: seq<Bin>, mean: real, lower: real, upper: real)
    returns (r: real)
    requires IsExp(exp) && IsSup(sup) && Grouped(bins) && lower < upper
    requires Score(exp, bins, lower) > mean >= Score(exp, bins, upper)
    ensures lower < r <= upper && Score(exp, bins, r) == mean
  {
    hide Score, IsExp, IsSup, Grouped;
    var s := (k: real) => IsExp(exp) && Grouped(bins) && Above(exp, bins, mean, lower, upper, k);
    assert s(lower) && UpperBound(s, upper);
    LeastUpperBound(sup, s, lower, upper);
    r := sup(s);
    NotAboveAtBound(exp, bins, mean, lower, upper, s, r);
    NotBelowAtBound(exp, bins, mean, lower, upper, s, r);
  }

  lemma NotAboveAtBound(exp: real -> real, bins: seq<Bin>, mean: real, lower: real, upper: real, s: real -> bool,
                        r: real)
    requires IsExp(exp) && Grouped(bins) && Score(exp, bins, upper) <= mean && lower <= r <= upper
    requires forall k :: s(k) <==> Above(exp, bins, mean, lower, upper, k)
    requires UpperBound(s, r)
    ensures Score(exp, bins, r) <= mean
  {
    var span := DepthSpan(bins);
    var gap := Score(exp, bins, r) - mean;
    if gap > 0.0 {
      hide Score;
      var step := SmallStep(gap, span, upper - r);
      var k := r + step;
      ShortFall(exp, bins, r, k, step, span, gap);
      NoneBeyond(s, r, k);
    }
  }

  /** A slope that scores below the mean bounds those that score above it. */
  lemma BelowBounds(exp: real -> real, bins: seq<Bin>, mean: real, lower: real, upper: real, s: real -> bool, v: real)
    requires IsExp(exp) && Grouped(bins) && Score(exp, bins, v) < mean
    requires forall k :: s(k) <==> Above(exp, bins, mean, lower, upper, k)
    ensures UpperBound(s, v)
  {
    hide Score;
    var span := DepthSpan(bins);
    forall x | s(x) ensures x <= v {
      if x > v { ScoreDecreases(exp, bins, v, x); }
    }
  }

  lemma NotBelowAtBound(exp: real -> real, bins: seq<Bin>, mean: real, lower: real, upper: real, s: real -> bool,
                        r: real)
    requires IsExp(exp) && Grouped(bins) && Score(exp, bins, lower) > mean && lower <= r
    requires forall k :: s(k) <==> Above(exp, bins, mean, lower, upper, k)
    requires forall v :: UpperBound(s, v) ==> r <= v
    ensures Score(exp, bins, r) >= mean
  {
    hide Score, UpperBound, Above, Within, IsExp;
    var span := DepthSpan(bins);
    var gap := mean - Score(exp, bins, r);
    if gap > 0.0 {
      var step := SmallStep(gap, span, r - lower);
      var v := r - step;
      ShortFall(exp, bins, v, r, step, span, gap);
      BelowBounds(exp, bins, mean, lower, upper, s, v);
    }
  }

  /** The depths of the bins span a positive width, and lie within it. */
  lemma DepthSpan(bins: seq<Bin>) returns (span: real)
    requires Grouped(bins)
    ensures span == bins[|bins| - 1].depth - bins[0].depth && span > 0.0 && Within(bins, span)
    ensures exists i, j :: 0 <= i < j < |bins| && bins[i].depth != bins[j].depth
  {
    span := bins[|bins| - 1].depth - bins[0].depth;
    GroupedWithin(bins, span);
    assert bins[0].depth != bins[1].depth;
  }

  /** The bracket of the bisection contains one root, and there is no other anywhere. */
  lemma BracketContainsUniqueRoot(exp: real -> real, sup: (real -> bool) -> real, bins: seq<Bin>, mean: real,
                                  maxK: real, lower: real, upper: real, n: nat)
    requires IsExp(exp) && IsSup(sup) && Grouped(bins) && Bracket(exp, bins, mean, maxK, lower, upper, n)
    ensures exists r :: lower < r <= upper && Score(exp, bins, r) == mean
                        && forall q :: Score(exp, bins, q) == mean ==> q == r
  {
    var r := RootInBracket(exp, sup, bins, mean, maxK, lower, upper, n);
    BracketLocatesRoot(exp, bins, mean, maxK, lower, upper, n, (lower + upper) / 2.0, r);
  }

  ghost predicate MaximisesLikelihood(exp: real -> real, log: real -> real, bins: seq<Bin>, theta: real, k: real) {
    forall theta', k' :: LogLikelihood(exp, log, bins, theta, k) >= LogLikelihood(exp, log, bins, theta', k')
  }

  /** End to end, with no root assumed: the likelihood has a global maximum, its slope lies in the
      bracket, and the slope that the fit returns is within half the bracket of it. */
  lemma MaximumExists(exp: real -> real, log: real -> real, sup: (real -> bool) -> real, bins: seq<Bin>, maxK: real,
                      lower: real, upper: real, n: nat, k: real)
    requires IsExp(exp) && IsLog(exp, log) && IsSup(sup) && Grouped(bins) && TotalFills(bins) > 0
    requires Bracket(exp, bins, EventDepthMean(bins), maxK, lower, upper, n) && k == (lower + upper) / 2.0
    ensures exists theta, r :: lower < r <= upper && MaximisesLikelihood(exp, log, bins, theta, r)
                               && WithinHalfBracket(k, r, maxK, n)
  {
    hide LogLikelihood, Score, SumW, LogExposureSum, TotalFills, EventDepthMean, Bracket, WithinHalfBracket;
    var r := RootInBracket(exp, sup, bins, EventDepthMean(bins), maxK, lower, upper, n);
    var total := TotalFills(bins) as real;
    var theta := log(total) - LogExposureSum(exp, log, bins, r);
    ScaleMatchesFills(exp, log, bins, r, total, theta);
    FittedSlopeNearMaximum(exp, log, bins, maxK, lower, upper, n, k, r, theta);
    assert MaximisesLikelihood(exp, log, bins, theta, r) && WithinHalfBracket(k, r, maxK, n);
  }

  lemma RootInBracket(exp: real -> real, sup: (real -> bool) -> real, bins: seq<Bin>, mean: real, maxK: real,
                      lower: real, upper: real, n: nat) returns (r: real)
    requires IsExp(exp) && IsSup(sup) && Grouped(bins) && Bracket(exp, bins, mean, maxK, lower, upper, n)
    ensures lower < r <= upper && Score(exp, bins, r) == mean
  {
    r := RootExists(exp, sup, bins, mean, lower, upper);
  }
}
