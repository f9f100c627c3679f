/** What the fitted pair is worth: the likelihood terms of alpha/rpi_intensity.py
    (the log-factorial of the counts, which no parameter moves, left out). */
module PoissonLikelihood {
  import opened PoissonFit
  import opened RealArithmetic

  ghost function LogMean(log: real -> real, b: Bin, theta: real, k: real): real {
    log(b.exposure) + theta - k * b.depth
  }

  /** n * log_mean - mean of one bin, with theta = log A */
  ghost function Term(exp: real -> real, log: real -> real, b: Bin, theta: real, k: real): real {
    b.fills as real * LogMean(log, b, theta, k) - exp(LogMean(log, b, theta, k))
  }

  ghost function LogLikelihood(exp: real -> real, log: real -> real, bins: seq<Bin>, theta: real, k: real): real {
    if bins == [] then 0.0 else Term(exp, log, bins[0], theta, k) + LogLikelihood(exp, log, bins[1..], theta, k)
  }

  ghost function BinFillDepth(b: Bin): real { b.fills as real * b.depth }

  ghost function FillDepth(bins: seq<Bin>): real {
    if bins == [] then 0.0 else BinFillDepth(bins[0]) + FillDepth(bins[1..])
  }

  /** exp(log_mean) is A times the bin's weight. */
  lemma MeanIsScaledWeight(exp: real -> real, log: real -> real, b: Bin, theta: real, k: real, u: real)
    requires IsExp(exp) && IsLog(exp, log) && b.exposure > 0.0 && u == LogMean(log, b, theta, k)
    ensures exp(u) == exp(theta) * Weight(exp, b, k)
  {
    var lt, dk := log(b.exposure), Decay(k, b.depth);
    var part := lt + dk;
    assert InverseLaw(exp, log, b.exposure);
    ExpAdd(exp, lt, dk, part);
    ExpAdd(exp, theta, part, u);
  }

  /** First-order gain of one bin and of a list, for a step (dt, dk) in (log A, k). */
  ghost function BinGain(n: real, a: real, w: real, d: real, dt: real, dk: real): real {
    (n - a * w) * (dt - dk * d)
  }

  ghost function Gain(total: real, a: real, w: real, fd: real, wd: real, dt: real, dk: real): real {
    dt * (total - a * w) - dk * (fd - a * wd)
  }

  /** The tangent of the exponential bounds one bin's loss of likelihood from below. */
  lemma TermGap(exp: real -> real, log: real -> real, b: Bin, theta: real, k: real, theta': real, k': real,
                dt: real, dk: real)
    requires IsExp(exp) && IsLog(exp, log) && b.exposure > 0.0 && dt == theta - theta' && dk == k - k'
    ensures Term(exp, log, b, theta, k) - Term(exp, log, b, theta', k')
            >= BinGain(b.fills as real, exp(theta), Weight(exp, b, k), b.depth, dt, dk)
  {
    hide Weight;
    var u, v := LogMean(log, b, theta, k), LogMean(log, b, theta', k');
    var d, n, m := v - u, b.fills as real, exp(theta) * Weight(exp, b, k);
    MeanIsScaledWeight(exp, log, b, theta, k, u);
    ExpAdd(exp, u, d, v);
    assert TangentLaw(exp, d);
    TangentGap(n, m, u, v, exp(v), exp(d), d);
    assert u - v == dt - dk * b.depth;
  }

  lemma TangentGap(n: real, m: real, u: real, v: real, mv: real, e: real, d: real)
    requires m > 0.0 && mv == m * e && e >= 1.0 + d && d == v - u
    ensures (n * u - m) - (n * v - mv) >= (n - m) * (u - v)
  {
    var slack := e - (1.0 + d);
    if slack > 0.0 { Product(m, slack); }
    assert m * slack >= 0.0;
    assert m * e - m * (1.0 + d) == m * (e - (1.0 + d));
    assert n * u - n * v == n * (u - v);
  }

  lemma {:induction false} LikelihoodGap(exp: real -> real, log: real -> real, bins: seq<Bin>,
                                         theta: real, k: real, theta': real, k': real, dt: real, dk: real)
    requires IsExp(exp) && IsLog(exp, log) && GoodBins(bins) && dt == theta - theta' && dk == k - k'
    ensures LogLikelihood(exp, log, bins, theta, k) - LogLikelihood(exp, log, bins, theta', k')
            >= Gain(TotalFills(bins) as real, exp(theta), SumW(exp, bins, k), FillDepth(bins), SumWD(exp, bins, k), dt,
                    dk)
  {
    if bins != [] {
      hide Weight, WeightDepth, BinFillDepth, Term, BinGain, Gain;
      var b, rest := bins[0], bins[1..];
      TermGap(exp, log, b, theta, k, theta', k', dt, dk);
      LikelihoodGap(exp, log, rest, theta, k, theta', k', dt, dk);
      GainSplit(exp, b, k, exp(theta), dt, dk,
                TotalFills(rest) as real, SumW(exp, rest, k), FillDepth(rest), SumWD(exp, rest, k),
                TotalFills(bins) as real, SumW(exp, bins, k), FillDepth(bins), SumWD(exp, bins, k));
    }
  }

  lemma GainSplit(exp: real -> real, b: Bin, k: real, a: real, dt: real, dk: real,
                  ns: real, ws: real, fd: real, wd: real, ns': real, ws': real, fd': real, wd': real)
    requires ns' == b.fills as real + ns && ws' == Weight(exp, b, k) + ws
    requires fd' == BinFillDepth(b) + fd && wd' == WeightDepth(exp, b, k) + wd
    ensures Gain(ns', a, ws', fd', wd', dt, dk)
            == BinGain(b.fills as real, a, Weight(exp, b, k), b.depth, dt, dk) + Gain(ns, a, ws, fd, wd, dt, dk)
  {
    hide Weight;
    var n, d, w := b.fills as real, b.depth, Weight(exp, b, k);
    assert dt * ((n + ns) - a * (w + ws)) - dk * ((n * d + fd) - a * (w * d + wd))
        == (n - a * w) * (dt - dk * d) + (dt * (ns - a * ws) - dk * (fd - a * wd));
  }

  /** Where the likelihood equations hold, nothing beats the pair in the directions they cover. */
  lemma StationaryGap(exp: real -> real, log: real -> real, bins: seq<Bin>, theta: real, k: real, theta': real,
                      k': real)
    requires IsExp(exp) && IsLog(exp, log) && GoodBins(bins)
    requires exp(theta) * SumW(exp, bins, k) == TotalFills(bins) as real
    requires k == k' || exp(theta) * SumWD(exp, bins, k) == FillDepth(bins)
    ensures LogLikelihood(exp, log, bins, theta, k) >= LogLikelihood(exp, log, bins, theta', k')
  {
    hide LogLikelihood, TotalFills, FillDepth, SumW, SumWD, Gain;
    var dt, dk := theta - theta', k - k';
    LikelihoodGap(exp, log, bins, theta, k, theta', k', dt, dk);
    NoGain(TotalFills(bins) as real, exp(theta), SumW(exp, bins, k), FillDepth(bins), SumWD(exp, bins, k), dt, dk);
  }

  lemma NoGain(total: real, a: real, w: real, fd: real, wd: real, dt: real, dk: real)
    requires a * w == total && (dk == 0.0 || a * wd == fd)
    ensures Gain(total, a, w, fd, wd, dt, dk) == 0.0
  {
  }

  /** The scale the fit computes is the best one for its slope. */
  lemma ScaleIsProfileOptimum(exp: real -> real, log: real -> real, bins: seq<Bin>, theta: real, k: real, theta': real)
    requires IsExp(exp) && IsLog(exp, log) && GoodBins(bins)
    requires exp(theta) * SumW(exp, bins, k) == TotalFills(bins) as real
    ensures LogLikelihood(exp, log, bins, theta, k) >= LogLikelihood(exp, log, bins, theta', k)
  {
    StationaryGap(exp, log, bins, theta, k, theta', k);
  }

  /** A slope at which the score equals the event mean, with its profiled scale, is a global
      maximum of the Poisson likelihood over all scales and slopes. */
  lemma RootMaximisesLikelihood(exp: real -> real, log: real -> real, bins: seq<Bin>,
                                theta: real, k: real, theta': real, k': real)
    requires IsExp(exp) && IsLog(exp, log) && GoodBins(bins) && bins != [] && TotalFills(bins) > 0
    requires exp(theta) * SumW(exp, bins, k) == TotalFills(bins) as real
    requires Score(exp, bins, k) == EventDepthMean(bins)
    ensures LogLikelihood(exp, log, bins, theta, k) >= LogLikelihood(exp, log, bins, theta', k')
  {
    hide LogLikelihood, SumW, SumWD, MeanOffset, TotalFills, FillDepth;
    MeanTimesTotal(bins, TotalFills(bins), bins[0].depth);
    SumWPositive(exp, bins, k);
    DepthBalance(exp(theta), SumW(exp, bins, k), SumWD(exp, bins, k), Score(exp, bins, k),
                 TotalFills(bins) as real, FillDepth(bins), bins[0].depth,
                 MeanOffset(bins, TotalFills(bins), bins[0].depth));
    StationaryGap(exp, log, bins, theta, k, theta', k');
  }

  lemma DepthBalance(a: real, w: real, wd: real, s: real, n: real, fd: real, ref: real, off: real)
    requires w > 0.0 && s == wd / w && a * w == n && s == ref + off && off * n == fd - ref * n
    ensures a * wd == fd
  {
    assert wd == s * w;
    assert a * wd == s * (a * w);
    assert s * n == ref * n + off * n;
  }

  lemma {:induction false} MeanTimesTotal(bins: seq<Bin>, total: nat, ref: real)
    requires total > 0
    ensures MeanOffset(bins, total, ref) * total as real == FillDepth(bins) - ref * TotalFills(bins) as real
  {
    if bins != [] {
      MeanTimesTotal(bins[1..], total, ref);
      ShareTimesTotal(bins[0].fills as real, total as real, bins[0].depth, ref, MeanOffset(bins[1..], total, ref),
                      FillDepth(bins[1..]), TotalFills(bins[1..]) as real);
    }
  }

  lemma ShareTimesTotal(n: real, total: real, d: real, ref: real, rest: real, fd: real, ns: real)
    requires total > 0.0 && rest * total == fd - ref * ns
    ensures ((n / total) * (d - ref) + rest) * total == (n * d + fd) - ref * (n + ns)
    ensures n == 0.0 ==> rest * total == (n * d + fd) - ref * (n + ns)
  {
    var q := n / total;
    assert q * total == n;
    assert (q * (d - ref)) * total == (q * total) * (d - ref);
  }

  /** End to end: when the fit returns, its scale is the best for its slope, and if the
      likelihood equation has a root r, then r with its own scale is the global maximum
      and the returned slope lies within the halved bracket of r. */
  lemma FittedSlopeNearMaximum(exp: real -> real, log: real -> real, bins: seq<Bin>, maxK: real,
                               lower: real, upper: real, n: nat, k: real, r: real, theta: real)
    requires IsExp(exp) && IsLog(exp, log) && Grouped(bins) && TotalFills(bins) > 0
    requires Bracket(exp, bins, EventDepthMean(bins), maxK, lower, upper, n) && k == (lower + upper) / 2.0
    requires Score(exp, bins, r) == EventDepthMean(bins)
    requires exp(theta) * SumW(exp, bins, r) == TotalFills(bins) as real
    ensures WithinHalfBracket(k, r, maxK, n)
    ensures forall theta', k' :: LogLikelihood(exp, log, bins, theta, r) >= LogLikelihood(exp, log, bins, theta', k')
  {
    BracketLocatesRoot(exp, bins, EventDepthMean(bins), maxK, lower, upper, n, k, r);
    forall theta', k'
      ensures LogLikelihood(exp, log, bins, theta, r) >= LogLikelihood(exp, log, bins, theta', k')
    {
      RootMaximisesLikelihood(exp, log, bins, theta, r, theta', k');
    }
  }
}
