/** The predictors of alpha/signal.py: one recursive ridge model, and the wrapper that feeds
    three of them from one bounded history. */
module SignalPredictors {
  import opened LinearAlgebra
  import opened RealArithmetic
  import opened RidgeSignal

  const CLAMP: real := 20.0
  const PENALTY: real := 1.0
  const HISTORY: nat := 100
  const SHORT: nat := 1
  const MID: nat := 10
  const LONG: nat := 60

  function Clamp(x: real): (r: real)
    ensures -CLAMP <= r <= CLAMP
    ensures -CLAMP <= x <= CLAMP ==> r == x
    ensures x < -CLAMP ==> r == -CLAMP
    ensures x > CLAMP ==> r == CLAMP
  {
    if x < -CLAMP then -CLAMP else if x > CLAMP then CLAMP else x
  }

  class OnlineRidgePredictor {
    const numFeatures: nat
    ghost const penalty: real
    var w: Vec
    var P: Mat
    var sampleCount: nat
    /** every sample the model was trained on, in order */
    ghost var samples: seq<Sample>

    ghost predicate Valid()
      reads this
    {
      Solves(penalty, numFeatures, samples, P, w) && sampleCount == |samples|
    }

    constructor (numFeatures: nat, penalty: real)
      requires penalty > 0.0
      ensures Valid() && samples == [] && this.numFeatures == numFeatures && this.penalty == penalty
    {
      this.numFeatures, this.penalty := numFeatures, penalty;
      w, P := Zero(numFeatures), ScaledEye(numFeatures, 1.0 / penalty);
      sampleCount, samples := 0, [];
      InitialSolves(penalty, numFeatures);
    }

    /** 1 + x^T P x, by which learning a sample at `x` divides its residual. */
    ghost function LearningDenominator(x: Vec): real
      requires Valid() && |x| == numFeatures
      reads this
    {
      Denominator(P, x)
    }

    method Update(x: Vec, yTrue: real)
      requires Valid() && |x| == numFeatures
      modifies this
      ensures Valid() && samples == old(samples) + [Sample(x, yTrue)]
      ensures old(LearningDenominator(x)) >= 1.0
      ensures yTrue - Dot(x, w) == (yTrue - old(Dot(x, w))) / old(LearningDenominator(x))
      ensures old(Dot(x, w)) <= yTrue ==> old(Predict(x)) <= Predict(x) <= Max(old(Predict(x)), yTrue)
      ensures old(Dot(x, w)) >= yTrue ==> Min(old(Predict(x)), yTrue) <= Predict(x) <= old(Predict(x))
    {
      ghost var t := Sample(x, yTrue);
      DenominatorAtLeastOne(penalty, numFeatures, samples, P, w, x);
      assert Square(P, |x|) && |w| == |x|;
      hide Solves, Dot, MatVec, Scale, Axpy, NextP;
      var num := MatVec(P, x);
      var den := 1.0 + Dot(x, num);
      var k := Scale(1.0 / den, num);
      var err := yTrue - Dot(x, w);
      assert k == Gain(P, x);
      ResidualShrinks(penalty, numFeatures, samples, P, w, t, err);
      PredictionApproaches(penalty, numFeatures, samples, P, w, t);
      UpdateSolves(penalty, numFeatures, samples, P, w, t, k, err);
      w := Axpy(w, err, k);
      P := NextP(P, k, x);
      sampleCount := sampleCount + 1;
      samples := samples + [t];
    }

    function Predict(x: Vec): (r: real)
      requires Valid() && |x| == numFeatures
      reads this
      ensures -20.0 <= r <= 20.0
      ensures -20.0 <= Dot(x, w) <= 20.0 ==> r == Dot(x, w)
      ensures Dot(x, w) < -20.0 ==> r == -20.0
      ensures Dot(x, w) > 20.0 ==> r == 20.0
    {
      Clamp(Dot(x, w))
    }
  }

  /** The weights are the unique minimiser of the batch ridge loss of everything seen. */
  lemma PredictorIsBatchRidge(m: OnlineRidgePredictor, u: Vec)
    requires m.Valid() && |u| == m.numFeatures && u != m.w
    ensures Loss(m.penalty, m.samples, u) > Loss(m.penalty, m.samples, m.w)
  {
    RidgeOptimal(m.penalty, m.numFeatures, m.samples, m.P, m.w, u);
  }

  /** Learning a sample never moves the prediction for it away from its label, clamped or not. */
  lemma PredictionApproaches(penalty: real, n: nat, s: seq<Sample>, P: Mat, w: Vec, t: Sample)
    requires Solves(penalty, n, s, P, w) && |t.x| == n && Denominator(P, t.x) >= 1.0
    ensures var before, after := Clamp(Dot(t.x, w)), Clamp(Dot(t.x, Axpy(w, t.y - Dot(t.x, w), Gain(P, t.x))));
            && (Dot(t.x, w) <= t.y ==> before <= after <= Max(before, t.y))
            && (Dot(t.x, w) >= t.y ==> Min(before, t.y) <= after <= before)
  {
    hide Dot, Axpy, Gain;
    var err, den := t.y - Dot(t.x, w), Denominator(P, t.x);
    ResidualShrinks(penalty, n, s, P, w, t, err);
    Shrunk(err, den);
  }

  lemma Shrunk(err: real, den: real)
    requires den >= 1.0
    ensures if err >= 0.0 then 0.0 <= err / den <= err else err <= err / den <= 0.0
  {
    var share := err / den;
    assert share * den == err;
    if err >= 0.0 {
      if share < 0.0 { Product(-share, den); }
      NonNegativeProduct(share, den - 1.0);
    } else {
      if share > 0.0 { Product(share, den); }
      NonNegativeProduct(-share, den - 1.0);
    }
  }

  function Max(a: real, b: real): real { if a >= b then a else b }
  function Min(a: real, b: real): real { if a <= b then a else b }

  // ---------------------------------------------------------------- several horizons

  datatype Observation = Observation(price: real, feats: Vec)
  datatype Predictions = Predictions(short: real, mid: real, long: real)

  ghost predicate GoodStream(s: seq<Observation>, n: nat) {
    forall i :: 0 <= i < |s| ==> s[i].price > 0.0 && |s[i].feats| == n
  }

  /** The return since `past`, in basis points. */
  function ReturnBps(now: real, past: real): (bps: real)
    requires past > 0.0
    ensures past + past * bps / 10000.0 == now
  {
    (now / past - 1.0) * 10000.0
  }

  /** The training pairs of horizon `h`: features at t - h labelled with the return up to t. */
  ghost function Lagged(s: seq<Observation>, h: nat, n: nat): (r: seq<Sample>)
    requires GoodStream(s, n)
    ensures AllOfSize(r, n)
  {
    seq(if |s| <= h then 0 else |s| - h,
        i requires 0 <= i < |s| - h => Sample(s[i].feats, ReturnBps(s[i + h].price, s[i].price)))
  }

  ghost function LastOf(s: seq<Observation>, k: nat): seq<Observation> {
    if |s| <= k then s else s[|s| - k..]
  }

  /** collections.deque(maxlen=k).append */
  function BoundedAppend(s: seq<Observation>, o: Observation, k: nat): seq<Observation>
    requires k > 0
  {
    if |s| < k then s + [o] else s[|s| - k + 1..] + [o]
  }

  lemma BoundedAppendIsLastOf(s: seq<Observation>, o: Observation, k: nat)
    requires k > 0
    ensures BoundedAppend(LastOf(s, k), o, k) == LastOf(s + [o], k)
  {
    var kept := LastOf(s, k);
    if |s| >= k {
      assert kept[1..] + [o] == (s + [o])[|s| + 1 - k..];
    }
  }

  lemma LaggedGrows(s: seq<Observation>, o: Observation, h: nat, n: nat)
    requires h > 0 && GoodStream(s, n) && o.price > 0.0 && |o.feats| == n
    ensures GoodStream(s + [o], n)
    ensures |s| < h ==> Lagged(s + [o], h, n) == Lagged(s, h, n)
    ensures |s| >= h ==> Lagged(s + [o], h, n)
                         == Lagged(s, h, n) + [Sample(s[|s| - h].feats, ReturnBps(o.price, s[|s| - h].price))]
  {
    var t := s + [o];
    assert forall i :: 0 <= i < |s| ==> t[i] == s[i];
    if |s| >= h {
      var a, b := Lagged(t, h, n), Lagged(s, h, n) + [Sample(s[|s| - h].feats, ReturnBps(o.price, s[|s| - h].price))];
      assert |a| == |b|;
      forall i | 0 <= i < |a| ensures a[i] == b[i] {
        assert i < |s| - h ==> t[i + h] == s[i + h];
      }
    }
  }

  class MultiHorizonPredictor {
    const numFeatures: nat
    const short: OnlineRidgePredictor
    const mid: OnlineRidgePredictor
    const long: OnlineRidgePredictor
    var history: seq<Observation>
    var observationCount: nat
    /** every accepted observation, in order */
    ghost var stream: seq<Observation>

    ghost predicate Trained(m: OnlineRidgePredictor, h: nat)
      reads this, m
    {
      m.Valid() && m.numFeatures == numFeatures
      && GoodStream(stream, numFeatures) && m.samples == Lagged(stream, h, numFeatures)
    }

    ghost predicate Valid()
      reads this, short, mid, long
    {
      && short != mid && mid != long && short != long
      && short.penalty == PENALTY && mid.penalty == PENALTY && long.penalty == PENALTY
      && Trained(short, SHORT) && Trained(mid, MID) && Trained(long, LONG)
      && history == LastOf(stream, HISTORY) && observationCount == |stream|
    }

    constructor (numFeatures: nat)
      ensures Valid() && stream == [] && this.numFeatures == numFeatures
      ensures fresh(short) && fresh(mid) && fresh(long)
    {
      this.numFeatures := numFeatures;
      short := new OnlineRidgePredictor(numFeatures, PENALTY);
      mid := new OnlineRidgePredictor(numFeatures, PENALTY);
      long := new OnlineRidgePredictor(numFeatures, PENALTY);
      history, observationCount, stream := [], 0, [];
    }

    /** The body of the training loop for one horizon, after the observation was stored. */
    method Train(m: OnlineRidgePredictor, h: nat, ghost before: seq<Observation>, price: real)
      requires 0 < h < HISTORY && m.Valid() && m.numFeatures == numFeatures
      requires GoodStream(stream, numFeatures) && history == LastOf(stream, HISTORY)
      requires |stream| == |before| + 1 && stream[..|before|] == before && price == stream[|before|].price
      requires GoodStream(before, numFeatures) && m.samples == Lagged(before, h, numFeatures)
      modifies m
      ensures Trained(m, h)
    {
      LaggedGrows(before, stream[|before|], h, numFeatures);
      assert stream == before + [stream[|before|]];
      var pastIdx := |history| - 1 - h;
      if pastIdx >= 0 {
        var past := history[pastIdx];
        assert past == stream[|before| - h];
        m.Update(past.feats, ReturnBps(price, past.price));
      }
    }

    /** Store the observation and train every horizon that reaches back far enough. */
    method Learn(features: Vec, currentMid: real)
      requires Valid() && |features| == numFeatures && currentMid > 0.0
      modifies this, short, mid, long
      ensures Valid() && stream == old(stream) + [Observation(currentMid, features)]
    {
      hide Solves, Lagged, LastOf, BoundedAppend;
      ghost var before := stream;
      var o := Observation(currentMid, features);
      BoundedAppendIsLastOf(stream, o, HISTORY);
      observationCount := observationCount + 1;
      history := BoundedAppend(history, o, HISTORY);
      stream := stream + [o];
      Train(short, SHORT, before, currentMid);
      Train(mid, MID, before, currentMid);
      Train(long, LONG, before, currentMid);
    }

    method UpdateAndPredict(features: Vec, currentMid: real) returns (r: Predictions)
      requires Valid() && |features| == numFeatures
      modifies this, short, mid, long
      ensures Valid()
      ensures currentMid <= 0.0 ==> r == Predictions(0.0, 0.0, 0.0) && stream == old(stream)
      ensures currentMid > 0.0 ==> stream == old(stream) + [Observation(currentMid, features)]
      ensures currentMid > 0.0 ==>
                r == Predictions(short.Predict(features), mid.Predict(features), long.Predict(features))
    {
      if currentMid <= 0.0 {
        return Predictions(0.0, 0.0, 0.0);
      }
      hide Solves, Lagged, LastOf, Clamp;
      Learn(features, currentMid);
      r := Predictions(short.Predict(features), mid.Predict(features), long.Predict(features));
    }

    /** The smallest of the three sample counts. */
    method SampleCount() returns (c: nat)
      requires Valid()
      ensures c == if |stream| <= 60 then 0 else |stream| - 60
    {
      c := short.sampleCount;
      if mid.sampleCount < c { c := mid.sampleCount; }
      if long.sampleCount < c { c := long.sampleCount; }
    }
  }

  /** After any call sequence, each horizon's weights beat every other candidate on the batch
      loss of exactly the pairs (t - h, t) of the whole observation stream. */
  lemma HorizonIsBatchRidge(p: MultiHorizonPredictor, u: Vec)
    requires p.Valid() && |u| == p.numFeatures
    ensures u != p.short.w ==> Loss(1.0, Lagged(p.stream, 1, p.numFeatures), u)
                               > Loss(1.0, Lagged(p.stream, 1, p.numFeatures), p.short.w)
    ensures u != p.mid.w ==> Loss(1.0, Lagged(p.stream, 10, p.numFeatures), u)
                             > Loss(1.0, Lagged(p.stream, 10, p.numFeatures), p.mid.w)
    ensures u != p.long.w ==> Loss(1.0, Lagged(p.stream, 60, p.numFeatures), u)
                              > Loss(1.0, Lagged(p.stream, 60, p.numFeatures), p.long.w)
  {
    if u != p.short.w { PredictorIsBatchRidge(p.short, u); }
    if u != p.mid.w { PredictorIsBatchRidge(p.mid, u); }
    if u != p.long.w { PredictorIsBatchRidge(p.long, u); }
  }
}
