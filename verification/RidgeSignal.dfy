/** Recursive ridge regression and the multi-horizon ring buffer (alpha/signal.py).
    A rank-one update of (P, w) is proved to equal the batch ridge solution. */
module RidgeSignal {
  import opened LinearAlgebra
  import opened RealArithmetic

  datatype Sample = Sample(x: Vec, y: real)

  ghost predicate AllOfSize(s: seq<Sample>, n: nat) {
    forall i :: 0 <= i < |s| ==> |s[i].x| == n
  }

  // ---------------------------------------------------------------- the batch problem

  /** penalty * I + sum of x x^T: the normal-equation matrix of the batch problem */
  ghost function Gram(penalty: real, n: nat, s: seq<Sample>): (a: Mat)
    requires AllOfSize(s, n)
    ensures Square(a, n)
  {
    if |s| == 0 then ScaledEye(n, penalty)
    else
      var last := s[|s| - 1];
      MatAxpy(Gram(penalty, n, s[..|s| - 1]), 1.0, Outer(last.x, last.x), n)
  }

  /** sum of y x */
  ghost function Rhs(n: nat, s: seq<Sample>): (b: Vec)
    requires AllOfSize(s, n)
    ensures |b| == n
  {
    if |s| == 0 then Zero(n)
    else
      var last := s[|s| - 1];
      Axpy(Rhs(n, s[..|s| - 1]), last.y, last.x)
  }

  /** penalty |u|^2 + sum of (y - x.u)^2: what ridge regression minimises */
  ghost function Loss(penalty: real, s: seq<Sample>, u: Vec): real
    requires AllOfSize(s, |u|)
  {
    if |s| == 0 then Times(penalty, Dot(u, u))
    else
      var last := s[|s| - 1];
      Loss(penalty, s[..|s| - 1], u) + Sq(last.y - Dot(last.x, u))
  }

  ghost function SumSqY(s: seq<Sample>): real {
    if |s| == 0 then 0.0 else SumSqY(s[..|s| - 1]) + Sq(s[|s| - 1].y)
  }

  lemma GramStep(penalty: real, n: nat, s: seq<Sample>, v: Vec)
    requires AllOfSize(s, n) && |s| > 0 && |v| == n
    ensures var last := s[|s| - 1];
            AllOfSize(s[..|s| - 1], n) &&
            MatVec(Gram(penalty, n, s), v)
            == Axpy(MatVec(Gram(penalty, n, s[..|s| - 1]), v), Dot(last.x, v), last.x)
  {
    var last := s[|s| - 1];
    var a := MatVec(Gram(penalty, n, s[..|s| - 1]), v);
    MatAxpyVec(Gram(penalty, n, s[..|s| - 1]), 1.0, Outer(last.x, last.x), v);
    OuterVec(last.x, last.x, v);
    AxpyOfScale(a, Dot(last.x, v), last.x);
  }

  lemma AxpyOfScale(a: Vec, c: real, x: Vec)
    requires |a| == |x|
    ensures Axpy(a, 1.0, Scale(c, x)) == Axpy(a, c, x)
  {
    forall i | 0 <= i < |a| ensures Axpy(a, 1.0, Scale(c, x))[i] == Axpy(a, c, x)[i] {
      assert 1.0 * (c * x[i]) == c * x[i];
    }
  }

  lemma {:induction false} GramSymmetric(penalty: real, n: nat, s: seq<Sample>, u: Vec, v: Vec)
    requires AllOfSize(s, n) && |u| == |v| == n
    ensures Dot(u, MatVec(Gram(penalty, n, s), v)) == Dot(v, MatVec(Gram(penalty, n, s), u))
  {
    hide Dot, Axpy, MatVec;
    if |s| == 0 {
      EyeVec(penalty, u);
      EyeVec(penalty, v);
      DotScale(u, penalty, v);
      DotScale(v, penalty, u);
      DotComm(u, v);
    } else {
      var last, a := s[|s| - 1], Gram(penalty, n, s[..|s| - 1]);
      GramSymmetric(penalty, n, s[..|s| - 1], u, v);
      GramStep(penalty, n, s, u);
      GramStep(penalty, n, s, v);
      DotAxpy(u, MatVec(a, v), Dot(last.x, v), last.x);
      DotAxpy(v, MatVec(a, u), Dot(last.x, u), last.x);
      DotComm(u, last.x);
      DotComm(v, last.x);
    }
  }

  /** The normal-equation matrix dominates penalty * I. */
  lemma {:induction false} GramPositive(penalty: real, n: nat, s: seq<Sample>, v: Vec)
    requires AllOfSize(s, n) && |v| == n
    ensures Dot(v, MatVec(Gram(penalty, n, s), v)) >= Times(penalty, Dot(v, v))
  {
    hide Dot, Axpy, MatVec;
    if |s| == 0 {
      EyeVec(penalty, v);
      DotScale(v, penalty, v);
    } else {
      var last, a := s[|s| - 1], Gram(penalty, n, s[..|s| - 1]);
      GramPositive(penalty, n, s[..|s| - 1], v);
      GramStep(penalty, n, s, v);
      DotAxpy(v, MatVec(a, v), Dot(last.x, v), last.x);
      DotComm(v, last.x);
      SquareZero(Dot(last.x, v));
    }
  }

  // ---------------------------------------------------------------- the recursive form

  /** (P, w) solves the batch problem of the samples: A P = I and A w = b. */
  ghost predicate Solves(penalty: real, n: nat, s: seq<Sample>, P: Mat, w: Vec) {
    && penalty > 0.0
    && AllOfSize(s, n) && Square(P, n) && |w| == n
    && (forall v {:trigger MatVec(P, v)} :: |v| == n ==> MatVec(Gram(penalty, n, s), MatVec(P, v)) == v)
    && MatVec(Gram(penalty, n, s), w) == Rhs(n, s)
  }

  function Denominator(P: Mat, x: Vec): real
    requires Square(P, |x|)
  {
    1.0 + Dot(x, MatVec(P, x))
  }

  function Gain(P: Mat, x: Vec): (k: Vec)
    requires Square(P, |x|) && Denominator(P, x) != 0.0
    ensures |k| == |x|
  {
    Scale(1.0 / Denominator(P, x), MatVec(P, x))
  }

  /** (I - K x^T) P */
  function NextP(P: Mat, k: Vec, x: Vec): (r: Mat)
    requires |k| == |x| && Square(P, |x|)
    ensures Square(r, |x|)
  {
    MatMul(MatAxpy(ScaledEye(|x|, 1.0), -1.0, Outer(k, x), |x|), P, |x|)
  }

  /** The inverse of a matrix that dominates penalty * I is positive semidefinite. */
  lemma DenominatorAtLeastOne(penalty: real, n: nat, s: seq<Sample>, P: Mat, w: Vec, x: Vec)
    requires Solves(penalty, n, s, P, w) && |x| == n
    ensures Denominator(P, x) >= 1.0
  {
    hide Dot, Times, MatVec;
    var z := MatVec(P, x);
    GramPositive(penalty, n, s, z);
    assert MatVec(Gram(penalty, n, s), z) == x;
    DotComm(z, x);
    DotSelf(z);
    NonNegativeProduct(penalty, Dot(z, z));
  }

  lemma NextPVec(P: Mat, k: Vec, x: Vec, v: Vec, d: real)
    requires |k| == |x| == |v| && Square(P, |x|)
    requires d == -Dot(x, MatVec(P, v))
    ensures MatVec(NextP(P, k, x), v) == Axpy(MatVec(P, v), d, k)
  {
    hide Dot, MatVec, MatMul, MatAxpy, Outer, ScaledEye, Axpy, Scale;
    var pv, eye, outer := MatVec(P, v), ScaledEye(|x|, 1.0), Outer(k, x);
    var c := Dot(x, pv);
    MatMulVec(MatAxpy(eye, -1.0, outer, |x|), P, v);
    MatAxpyVec(eye, -1.0, outer, pv);
    EyeVec(1.0, pv);
    OuterVec(k, x, pv);
    NegatedScale(pv, c, d, k);
    calc {
      MatVec(NextP(P, k, x), v);
      MatVec(MatAxpy(eye, -1.0, outer, |x|), pv);
      Axpy(MatVec(eye, pv), -1.0, MatVec(outer, pv));
      Axpy(Scale(1.0, pv), -1.0, Scale(c, k));
      Axpy(pv, d, k);
    }
  }

  lemma NegatedScale(a: Vec, c: real, d: real, k: Vec)
    requires |a| == |k| && d == -c
    ensures Axpy(Scale(1.0, a), -1.0, Scale(c, k)) == Axpy(a, d, k)
  {
    var left, right := Axpy(Scale(1.0, a), -1.0, Scale(c, k)), Axpy(a, d, k);
    forall i | 0 <= i < |a| ensures left[i] == right[i] {
      assert -1.0 * (c * k[i]) == d * k[i];
    }
  }

  /** A' (a + c k) for the enlarged A' = A + x x^T, when A k = x / den and den = 1 + den * (x.k). */
  lemma EnlargedAction(penalty: real, n: nat, s: seq<Sample>, t: Sample, P: Mat, w: Vec, a: Vec, c: real)
    requires Solves(penalty, n, s, P, w) && |t.x| == n && |a| == n && Denominator(P, t.x) >= 1.0
    ensures AllOfSize(s + [t], n)
    ensures MatVec(Gram(penalty, n, s + [t]), Axpy(a, c, Gain(P, t.x)))
            == Axpy(MatVec(Gram(penalty, n, s), a), c + Dot(t.x, a), t.x)
  {
    hide Dot, MatVec, Gram;
    var A, k, den, q := Gram(penalty, n, s), Gain(P, t.x), Denominator(P, t.x), Dot(t.x, MatVec(P, t.x));
    assert (s + [t])[..|s|] == s;
    GramStep(penalty, n, s + [t], Axpy(a, c, k));
    MatVecAxpy(A, a, c, k);
    MatVecScale(A, 1.0 / den, MatVec(P, t.x));
    assert MatVec(A, k) == Scale(1.0 / den, t.x);
    DotAxpy(t.x, a, c, k);
    DotScale(t.x, 1.0 / den, MatVec(P, t.x));
    UnitShare(q, 1.0 / den, Dot(t.x, k));
    CombineSteps(MatVec(A, a), t.x, c, Dot(t.x, a), 1.0 / den, Dot(t.x, k), Dot(t.x, Axpy(a, c, k)));
  }

  lemma UnitShare(q: real, r: real, xk: real)
    requires 1.0 + q >= 1.0 && r == 1.0 / (1.0 + q) && xk == r * q
    ensures xk == 1.0 - r
  {
    assert r * (1.0 + q) == 1.0;
  }

  lemma CombineSteps(base: Vec, x: Vec, c: real, xa: real, r: real, xk: real, e: real)
    requires |base| == |x| && xk == 1.0 - r && e == xa + c * xk
    ensures Axpy(Axpy(base, c, Scale(r, x)), e, x) == Axpy(base, c + xa, x)
  {
    var left, right := Axpy(Axpy(base, c, Scale(r, x)), e, x), Axpy(base, c + xa, x);
    forall i | 0 <= i < |x| ensures left[i] == right[i] {
      Coefficients(base[i], x[i], c, xa, r, xk);
    }
  }

  lemma Coefficients(base: real, xi: real, c: real, xa: real, r: real, xk: real)
    requires xk == 1.0 - r
    ensures base + c * (r * xi) + (xa + c * xk) * xi == base + (c + xa) * xi
  {
    assert c * xk == c - c * r;
    assert c * (r * xi) == (c * r) * xi;
    assert (xa + (c - c * r)) * xi == xa * xi + c * xi - (c * r) * xi;
  }

  /** One recursive least-squares step carries the batch solution of `s` to that of `s + [t]`. */
  lemma UpdateSolves(penalty: real, n: nat, s: seq<Sample>, P: Mat, w: Vec, t: Sample, k: Vec, err: real)
    requires Solves(penalty, n, s, P, w) && |t.x| == n && Denominator(P, t.x) >= 1.0
    requires k == Gain(P, t.x) && err == t.y - Dot(t.x, w)
    ensures Solves(penalty, n, s + [t], NextP(P, k, t.x), Axpy(w, err, k))
  {
    var s' := s + [t];
    var P' := NextP(P, k, t.x);
    forall v {:trigger MatVec(P', v)} | |v| == n ensures MatVec(Gram(penalty, n, s'), MatVec(P', v)) == v {
      UpdateInverse(penalty, n, s, P, w, t, v);
    }
    UpdateWeights(penalty, n, s, P, w, t, err);
  }

  lemma UpdateInverse(penalty: real, n: nat, s: seq<Sample>, P: Mat, w: Vec, t: Sample, v: Vec)
    requires Solves(penalty, n, s, P, w) && |t.x| == n && |v| == n && Denominator(P, t.x) >= 1.0
    ensures AllOfSize(s + [t], n)
    ensures MatVec(Gram(penalty, n, s + [t]), MatVec(NextP(P, Gain(P, t.x), t.x), v)) == v
  {
    hide Dot;
    var k, pv := Gain(P, t.x), MatVec(P, v);
    var c := -Dot(t.x, pv);
    NextPVec(P, k, t.x, v, c);
    EnlargedAction(penalty, n, s, t, P, w, pv, c);
    assert c + Dot(t.x, pv) == 0.0;
    forall i | 0 <= i < n ensures Axpy(v, 0.0, t.x)[i] == v[i] {
      assert 0.0 * t.x[i] == 0.0;
    }
    assert Axpy(v, 0.0, t.x) == v;
  }

  lemma UpdateWeights(penalty: real, n: nat, s: seq<Sample>, P: Mat, w: Vec, t: Sample, err: real)
    requires Solves(penalty, n, s, P, w) && |t.x| == n && Denominator(P, t.x) >= 1.0
    requires err == t.y - Dot(t.x, w)
    ensures AllOfSize(s + [t], n)
    ensures MatVec(Gram(penalty, n, s + [t]), Axpy(w, err, Gain(P, t.x))) == Rhs(n, s + [t])
  {
    hide Dot, MatVec, Axpy, Gain, Gram, Rhs;
    RhsGrows(n, s, t);
    EnlargedAction(penalty, n, s, t, P, w, w, err);
    assert err + Dot(t.x, w) == t.y;
  }

  /** What one step does to the sample it learns from: the residual shrinks by the denominator. */
  lemma ResidualShrinks(penalty: real, n: nat, s: seq<Sample>, P: Mat, w: Vec, t: Sample, err: real)
    requires Solves(penalty, n, s, P, w) && |t.x| == n && Denominator(P, t.x) >= 1.0
    requires err == t.y - Dot(t.x, w)
    ensures t.y - Dot(t.x, Axpy(w, err, Gain(P, t.x))) == (t.y - Dot(t.x, w)) / Denominator(P, t.x)
  {
    hide Dot, MatVec, Axpy;
    var pv := MatVec(P, t.x);
    var q, r := Dot(t.x, pv), 1.0 / Denominator(P, t.x);
    DotAxpy(t.x, w, err, Scale(r, pv));
    DotScale(t.x, r, pv);
    UnitShare(q, r, Dot(t.x, Scale(r, pv)));
    LastShare(err, Dot(t.x, Scale(r, pv)), r, Denominator(P, t.x));
  }

  lemma LastShare(err: real, xk: real, r: real, den: real)
    requires den >= 1.0 && r == 1.0 / den && xk == 1.0 - r
    ensures err - err * xk == err / den
  {
    assert err * xk == err - err * r;
    assert err / den == err * r;
  }

  lemma RhsGrows(n: nat, s: seq<Sample>, t: Sample)
    requires AllOfSize(s, n) && |t.x| == n
    ensures AllOfSize(s + [t], n) && Rhs(n, s + [t]) == Axpy(Rhs(n, s), t.y, t.x)
  {
    assert (s + [t])[..|s|] == s;
  }

  /** P = I / penalty and w = 0 solve the empty batch. */
  lemma InitialSolves(penalty: real, n: nat)
    requires penalty > 0.0
    ensures Solves(penalty, n, [], ScaledEye(n, 1.0 / penalty), Zero(n))
  {
    var P := ScaledEye(n, 1.0 / penalty);
    forall v {:trigger MatVec(P, v)} | |v| == n ensures MatVec(Gram(penalty, n, []), MatVec(P, v)) == v {
      EyeVec(1.0 / penalty, v);
      EyeVec(penalty, MatVec(P, v));
      forall i | 0 <= i < n ensures Scale(penalty, Scale(1.0 / penalty, v))[i] == v[i] {
        assert penalty * (1.0 / penalty * v[i]) == (penalty * (1.0 / penalty)) * v[i];
      }
    }
    EyeVec(penalty, Zero(n));
    assert Scale(penalty, Zero(n)) == Zero(n);
  }

  // ---------------------------------------------------------------- what a solution is worth

  /** A is injective, so P is also a left inverse of A. */
  lemma LeftInverse(penalty: real, n: nat, s: seq<Sample>, P: Mat, w: Vec, v: Vec)
    requires Solves(penalty, n, s, P, w) && |v| == n
    ensures MatVec(P, MatVec(Gram(penalty, n, s), v)) == v
  {
    var A := Gram(penalty, n, s);
    var u := MatVec(P, MatVec(A, v));
    var d := Axpy(u, -1.0, v);
    MatVecAxpy(A, u, -1.0, v);
    assert MatVec(A, d) == Zero(n);
    GramPositive(penalty, n, s, d);
    DotZero(d);
    DotSelf(d);
    if Dot(d, d) > 0.0 { Product(penalty, Dot(d, d)); } else { NonNegativeProduct(penalty, Dot(d, d)); }
    assert d == Zero(n);
    forall i | 0 <= i < n ensures u[i] == v[i] { assert d[i] == u[i] + -1.0 * v[i]; }
  }

  /** The inverse is symmetric, as the rank-one update needs no symmetry to keep. */
  lemma InverseSymmetric(penalty: real, n: nat, s: seq<Sample>, P: Mat, w: Vec, u: Vec, v: Vec)
    requires Solves(penalty, n, s, P, w) && |u| == |v| == n
    ensures Dot(u, MatVec(P, v)) == Dot(v, MatVec(P, u))
  {
    hide Dot;
    var A := Gram(penalty, n, s);
    GramSymmetric(penalty, n, s, MatVec(P, v), MatVec(P, u));
    assert MatVec(A, MatVec(P, u)) == u && MatVec(A, MatVec(P, v)) == v;
    DotComm(u, MatVec(P, v));
    DotComm(v, MatVec(P, u));
  }

  lemma {:induction false} LossIsQuadratic(penalty: real, n: nat, s: seq<Sample>, u: Vec)
    requires AllOfSize(s, n) && |u| == n
    ensures Loss(penalty, s, u)
            == Dot(u, MatVec(Gram(penalty, n, s), u)) - 2.0 * Dot(u, Rhs(n, s)) + SumSqY(s)
  {
    hide Dot, Axpy, MatVec;
    if |s| == 0 {
      EyeVec(penalty, u);
      DotScale(u, penalty, u);
      DotZero(u);
    } else {
      var last, s0 := s[|s| - 1], s[..|s| - 1];
      LossIsQuadratic(penalty, n, s0, u);
      GramStep(penalty, n, s, u);
      DotAxpy(u, MatVec(Gram(penalty, n, s0), u), Dot(last.x, u), last.x);
      DotAxpy(u, Rhs(n, s0), last.y, last.x);
      DotComm(u, last.x);
      var e := Dot(last.x, u);
      assert Sq(last.y - e) == Sq(last.y) - 2.0 * (last.y * e) + e * e;
    }
  }

  /** The loss of any candidate exceeds that of the recursive weights by a quadratic form
      in the difference, so the recursive weights are the unique ridge minimiser. */
  lemma RidgeOptimal(penalty: real, n: nat, s: seq<Sample>, P: Mat, w: Vec, u: Vec)
    requires Solves(penalty, n, s, P, w) && |u| == n
    ensures Loss(penalty, s, u) >= Loss(penalty, s, w) + Times(penalty, Dot(Axpy(u, -1.0, w), Axpy(u, -1.0, w)))
    ensures Loss(penalty, s, u) > Loss(penalty, s, w) || u == w
  {
    var A, b, d := Gram(penalty, n, s), Rhs(n, s), Axpy(u, -1.0, w);
    assert Axpy(w, 1.0, d) == u;
    LossIsQuadratic(penalty, n, s, u);
    LossIsQuadratic(penalty, n, s, w);
    LossGap(penalty, n, s, w, d);
    GramPositive(penalty, n, s, d);
    DotSelf(d);
    if Dot(d, d) > 0.0 { Product(penalty, Dot(d, d)); } else { NonNegativeProduct(penalty, Dot(d, d)); }
    if d == Zero(n) {
      forall i | 0 <= i < n ensures u[i] == w[i] { assert d[i] == u[i] + -1.0 * w[i]; }
    }
  }

  lemma LossGap(penalty: real, n: nat, s: seq<Sample>, w: Vec, d: Vec)
    requires AllOfSize(s, n) && |w| == |d| == n
    requires MatVec(Gram(penalty, n, s), w) == Rhs(n, s)
    ensures var A, b, u := Gram(penalty, n, s), Rhs(n, s), Axpy(w, 1.0, d);
            Dot(u, MatVec(A, u)) - 2.0 * Dot(u, b) == Dot(w, MatVec(A, w)) - 2.0 * Dot(w, b) + Dot(d, MatVec(A, d))
  {
    hide Dot, Axpy, MatVec;
    var A, b, u := Gram(penalty, n, s), Rhs(n, s), Axpy(w, 1.0, d);
    MatVecAxpy(A, w, 1.0, d);
    var Ad := MatVec(A, d);
    DotAxpy(u, b, 1.0, Ad);
    DotAxpyLeft(w, 1.0, d, b);
    DotAxpyLeft(w, 1.0, d, Ad);
    GramSymmetric(penalty, n, s, w, d);
  }
}
