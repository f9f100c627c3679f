/** Real vectors and matrices of any dimension, with the few laws the ridge proofs use. */
module LinearAlgebra {
  import opened RealArithmetic

  type Vec = seq<real>
  type Mat = seq<Vec>

  predicate Square(m: Mat, n: nat) {
    |m| == n && forall i :: 0 <= i < n ==> |m[i]| == n
  }

  function Zero(n: nat): (z: Vec)
    ensures |z| == n
  {
    seq(n, _ => 0.0)
  }

  /** u + c * v */
  function Axpy(u: Vec, c: real, v: Vec): (r: Vec)
    requires |u| == |v|
    ensures |r| == |u| && forall i :: 0 <= i < |r| ==> r[i] == u[i] + c * v[i]
  {
    seq(|u|, i requires 0 <= i < |u| => u[i] + c * v[i])
  }

  function Scale(c: real, v: Vec): (r: Vec)
    ensures |r| == |v| && forall i :: 0 <= i < |r| ==> r[i] == c * v[i]
  {
    seq(|v|, i requires 0 <= i < |v| => c * v[i])
  }

  function Dot(u: Vec, v: Vec): real
    requires |u| == |v|
  {
    if |u| == 0 then 0.0 else u[0] * v[0] + Dot(u[1..], v[1..])
  }

  function MatVec(m: Mat, v: Vec): (r: Vec)
    requires Square(m, |v|)
    ensures |r| == |v|
  {
    seq(|v|, i requires 0 <= i < |v| => Dot(m[i], v))
  }

  /** The rows of `rows` combined with coefficients `c`: one row of a matrix product. */
  function Combine(c: Vec, rows: seq<Vec>, n: nat): (r: Vec)
    requires |c| == |rows| && forall i :: 0 <= i < |rows| ==> |rows[i]| == n
    ensures |r| == n
  {
    if |c| == 0 then Zero(n) else Axpy(Combine(c[1..], rows[1..], n), c[0], rows[0])
  }

  function MatMul(a: Mat, b: Mat, n: nat): (r: Mat)
    requires Square(a, n) && Square(b, n)
    ensures Square(r, n)
  {
    seq(n, i requires 0 <= i < n => Combine(a[i], b, n))
  }

  /** a + c * b */
  function MatAxpy(a: Mat, c: real, b: Mat, n: nat): (r: Mat)
    requires Square(a, n) && Square(b, n)
    ensures Square(r, n)
  {
    seq(n, i requires 0 <= i < n => Axpy(a[i], c, b[i]))
  }

  function Outer(u: Vec, v: Vec): (r: Mat)
    requires |u| == |v|
    ensures Square(r, |u|)
  {
    seq(|u|, i requires 0 <= i < |u| => Scale(u[i], v))
  }

  function UnitRow(n: nat, k: int, c: real): (r: Vec)
    ensures |r| == n
  {
    seq(n, j requires 0 <= j < n => if j == k then c else 0.0)
  }

  /** c on the diagonal, zero elsewhere */
  function ScaledEye(n: nat, c: real): (r: Mat)
    ensures Square(r, n)
  {
    seq(n, i requires 0 <= i < n => UnitRow(n, i, c))
  }

  // ---------------------------------------------------------------- dot product

  lemma {:induction false} DotComm(u: Vec, v: Vec)
    requires |u| == |v|
    ensures Dot(u, v) == Dot(v, u)
  {
    if |u| > 0 { DotComm(u[1..], v[1..]); }
  }

  lemma AxpyTail(u: Vec, c: real, v: Vec)
    requires |u| == |v| > 0
    ensures Axpy(u, c, v)[1..] == Axpy(u[1..], c, v[1..])
  {
    var a, b := Axpy(u, c, v)[1..], Axpy(u[1..], c, v[1..]);
    forall i | 0 <= i < |b| ensures a[i] == b[i] {
      assert u[1..][i] == u[i + 1] && v[1..][i] == v[i + 1];
    }
  }

  lemma ScaleTail(c: real, v: Vec)
    requires |v| > 0
    ensures Scale(c, v)[1..] == Scale(c, v[1..])
  {
    var a, b := Scale(c, v)[1..], Scale(c, v[1..]);
    forall i | 0 <= i < |b| ensures a[i] == b[i] {
      assert v[1..][i] == v[i + 1];
    }
  }

  lemma {:induction false} DotAxpy(x: Vec, u: Vec, c: real, v: Vec)
    requires |x| == |u| == |v|
    ensures Dot(x, Axpy(u, c, v)) == Dot(x, u) + c * Dot(x, v)
  {
    if |x| > 0 {
      AxpyTail(u, c, v);
      DotAxpy(x[1..], u[1..], c, v[1..]);
      assert x[0] * (u[0] + c * v[0]) == x[0] * u[0] + c * (x[0] * v[0]);
      assert c * (x[0] * v[0] + Dot(x[1..], v[1..])) == c * (x[0] * v[0]) + c * Dot(x[1..], v[1..]);
    }
  }

  lemma DotAxpyLeft(u: Vec, c: real, v: Vec, x: Vec)
    requires |x| == |u| == |v|
    ensures Dot(Axpy(u, c, v), x) == Dot(u, x) + c * Dot(v, x)
  {
    hide Dot, Axpy;
    DotComm(Axpy(u, c, v), x);
    DotAxpy(x, u, c, v);
    DotComm(u, x);
    DotComm(v, x);
    assert c * Dot(x, v) == c * Dot(v, x);
  }

  lemma {:induction false} DotScale(x: Vec, c: real, v: Vec)
    requires |x| == |v|
    ensures Dot(x, Scale(c, v)) == c * Dot(x, v)
  {
    if |x| > 0 {
      ScaleTail(c, v);
      DotScale(x[1..], c, v[1..]);
      assert x[0] * (c * v[0]) == c * (x[0] * v[0]);
      assert c * (x[0] * v[0] + Dot(x[1..], v[1..])) == c * (x[0] * v[0]) + c * Dot(x[1..], v[1..]);
    }
  }

  lemma DotScaleLeft(c: real, v: Vec, x: Vec)
    requires |x| == |v|
    ensures Dot(Scale(c, v), x) == Dot(v, x) * c
  {
    hide Dot, Scale;
    DotComm(Scale(c, v), x);
    DotScale(x, c, v);
    DotComm(x, v);
  }

  lemma {:induction false} DotZero(x: Vec)
    ensures Dot(x, Zero(|x|)) == 0.0
  {
    if |x| > 0 {
      assert Zero(|x|)[1..] == Zero(|x[1..]|);
      DotZero(x[1..]);
    }
  }

  lemma {:induction false} DotSelf(v: Vec)
    ensures Dot(v, v) >= 0.0
    ensures Dot(v, v) > 0.0 || v == Zero(|v|)
  {
    if |v| > 0 {
      DotSelf(v[1..]);
      SquareZero(v[0]);
      if !(Dot(v, v) > 0.0) {
        SquareSumZero(v[0], Dot(v[1..], v[1..]));
        assert v[1..] == Zero(|v| - 1);
        forall i | 0 <= i < |v| ensures v[i] == 0.0 {
          assert i > 0 ==> v[i] == v[1..][i - 1];
        }
      }
    }
  }

  function Sq(x: real): real { Times(x, x) }

  lemma SquareZero(x: real)
    ensures Sq(x) >= 0.0
    ensures Sq(x) > 0.0 || x == 0.0
  {
    if x != 0.0 {
      hide Times;
      Product(x, x);
    }
  }

  lemma SquareSumZero(x: real, rest: real)
    requires rest >= 0.0 && !(Sq(x) + rest > 0.0)
    ensures x == 0.0 && !(rest > 0.0)
  {
    hide Sq;
    SquareZero(x);
  }

  lemma {:induction false} DotUnit(n: nat, k: int, c: real, v: Vec)
    requires |v| == n
    ensures Dot(UnitRow(n, k, c), v) == if 0 <= k < n then c * v[k] else 0.0
  {
    if n > 0 {
      assert UnitRow(n, k, c)[1..] == UnitRow(n - 1, k - 1, c);
      DotUnit(n - 1, k - 1, c, v[1..]);
    }
  }

  // ---------------------------------------------------------------- matrices acting on vectors

  lemma MatVecAxpy(m: Mat, u: Vec, c: real, v: Vec)
    requires |u| == |v| && Square(m, |u|)
    ensures MatVec(m, Axpy(u, c, v)) == Axpy(MatVec(m, u), c, MatVec(m, v))
  {
    forall i | 0 <= i < |u|
      ensures MatVec(m, Axpy(u, c, v))[i] == Axpy(MatVec(m, u), c, MatVec(m, v))[i]
    {
      DotAxpy(m[i], u, c, v);
    }
  }

  lemma MatVecScale(m: Mat, c: real, v: Vec)
    requires Square(m, |v|)
    ensures MatVec(m, Scale(c, v)) == Scale(c, MatVec(m, v))
  {
    forall i | 0 <= i < |v| ensures MatVec(m, Scale(c, v))[i] == Scale(c, MatVec(m, v))[i] {
      DotScale(m[i], c, v);
    }
  }

  lemma {:induction false} DotCombine(c: Vec, rows: seq<Vec>, v: Vec, images: Vec)
    requires |c| == |rows| == |images| && forall i :: 0 <= i < |rows| ==> |rows[i]| == |v|
    requires forall i :: 0 <= i < |rows| ==> images[i] == Dot(rows[i], v)
    ensures Dot(Combine(c, rows, |v|), v) == Dot(c, images)
  {
    if |c| == 0 {
      DotComm(Zero(|v|), v);
      DotZero(v);
    } else {
      DotCombine(c[1..], rows[1..], v, images[1..]);
      DotAxpyLeft(Combine(c[1..], rows[1..], |v|), c[0], rows[0], v);
    }
  }

  lemma MatMulVec(a: Mat, b: Mat, v: Vec)
    requires Square(a, |v|) && Square(b, |v|)
    ensures MatVec(MatMul(a, b, |v|), v) == MatVec(a, MatVec(b, v))
  {
    forall i | 0 <= i < |v| ensures MatVec(MatMul(a, b, |v|), v)[i] == MatVec(a, MatVec(b, v))[i] {
      DotCombine(a[i], b, v, MatVec(b, v));
    }
  }

  lemma MatAxpyVec(a: Mat, c: real, b: Mat, v: Vec)
    requires Square(a, |v|) && Square(b, |v|)
    ensures MatVec(MatAxpy(a, c, b, |v|), v) == Axpy(MatVec(a, v), c, MatVec(b, v))
  {
    forall i | 0 <= i < |v|
      ensures MatVec(MatAxpy(a, c, b, |v|), v)[i] == Axpy(MatVec(a, v), c, MatVec(b, v))[i]
    {
      DotAxpyLeft(a[i], c, b[i], v);
    }
  }

  lemma OuterVec(u: Vec, x: Vec, v: Vec)
    requires |u| == |x| == |v|
    ensures MatVec(Outer(u, x), v) == Scale(Dot(x, v), u)
  {
    forall i | 0 <= i < |v| ensures MatVec(Outer(u, x), v)[i] == Scale(Dot(x, v), u)[i] {
      OuterRow(u, x, v, i);
    }
  }

  lemma OuterRow(u: Vec, x: Vec, v: Vec, i: nat)
    requires |u| == |x| == |v| && i < |v|
    ensures MatVec(Outer(u, x), v)[i] == Dot(x, v) * u[i]
  {
    hide Dot, Scale;
    DotScaleLeft(u[i], x, v);
    assert Outer(u, x)[i] == Scale(u[i], x);
  }

  lemma EyeVec(c: real, v: Vec)
    ensures MatVec(ScaledEye(|v|, c), v) == Scale(c, v)
  {
    forall i | 0 <= i < |v| ensures MatVec(ScaledEye(|v|, c), v)[i] == Scale(c, v)[i] {
      DotUnit(|v|, i, c, v);
    }
  }
}
