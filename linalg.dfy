/** Two-dimensional real linear algebra: the small part of Eigen the core uses
    (2-vectors, 2x2 matrices, column sums and means of 2xN matrices).
    A 2xN matrix is a sequence of its columns. */
module Linalg {

  datatype Vec2 = Vec2(x: real, y: real)

  /** Row-major 2x2 matrix. */
  datatype Mat2 = Mat2(m00: real, m01: real, m10: real, m11: real)

  const Zero: Vec2 := Vec2(0.0, 0.0)
  const Identity: Mat2 := Mat2(1.0, 0.0, 0.0, 1.0)

  function Add(a: Vec2, b: Vec2): Vec2 { Vec2(a.x + b.x, a.y + b.y) }
  function Sub(a: Vec2, b: Vec2): Vec2 { Vec2(a.x - b.x, a.y - b.y) }
  function Scale(k: real, a: Vec2): Vec2 { Vec2(k * a.x, k * a.y) }
  function SquaredNorm(a: Vec2): real { Dot(a, a) }

  function Diag(a: real, b: real): Mat2 { Mat2(a, 0.0, 0.0, b) }
  function Transpose(m: Mat2): Mat2 { Mat2(m.m00, m.m10, m.m01, m.m11) }
  function ScaleMat(k: real, m: Mat2): Mat2 { Mat2(k * m.m00, k * m.m01, k * m.m10, k * m.m11) }
  function AddMat(a: Mat2, b: Mat2): Mat2 { Mat2(a.m00 + b.m00, a.m01 + b.m01, a.m10 + b.m10, a.m11 + b.m11) }
  function Det(m: Mat2): real { m.m00 * m.m11 - m.m01 * m.m10 }
  function Trace(m: Mat2): real { m.m00 + m.m11 }

  /** A row (p, q) times a column (u, w). */
  function RowCol(p: real, q: real, u: real, w: real): real { p * u + q * w }

  function Mul(a: Mat2, b: Mat2): Mat2 {
    Mat2(RowCol(a.m00, a.m01, b.m00, b.m10), RowCol(a.m00, a.m01, b.m01, b.m11),
         RowCol(a.m10, a.m11, b.m00, b.m10), RowCol(a.m10, a.m11, b.m01, b.m11))
  }

  function Dot(a: Vec2, b: Vec2): real { RowCol(a.x, a.y, b.x, b.y) }

  function MulVec(m: Mat2, v: Vec2): Vec2 {
    Vec2(RowCol(m.m00, m.m01, v.x, v.y), RowCol(m.m10, m.m11, v.x, v.y))
  }

  /** a * b^T: the contribution of one column pair to a cross-covariance. */
  function Outer(a: Vec2, b: Vec2): Mat2 { Mat2(a.x * b.x, a.x * b.y, a.y * b.x, a.y * b.y) }

  predicate Orthogonal(m: Mat2) {
    Mul(Transpose(m), m) == Identity && Mul(m, Transpose(m)) == Identity
  }

  /** Orthogonal with determinant one: a rotation without reflection. */
  predicate ProperRotation(m: Mat2) {
    Orthogonal(m) && Det(m) == 1.0
  }

  // ---------------------------------------------------------------- columns

  /** Sum of the columns, accumulated left to right. */
  function Sum(s: seq<Vec2>): Vec2
    decreases |s|
  {
    if |s| == 0 then Zero else Add(Sum(s[..|s| - 1]), s[|s| - 1])
  }

  /** Eigen's rowwise().mean(). */
  function Mean(s: seq<Vec2>): Vec2
    requires |s| > 0
  {
    Vec2(Sum(s).x / |s| as real, Sum(s).y / |s| as real)
  }

  /** Eigen's colwise() - c. */
  function Centered(s: seq<Vec2>, c: Vec2): (r: seq<Vec2>)
    ensures |r| == |s|
  {
    seq(|s|, i requires 0 <= i < |s| => Sub(s[i], c))
  }

  /** Sum of the squared norms of the columns (Eigen's squaredNorm of the matrix). */
  function SumSquares(s: seq<Vec2>): real
    decreases |s|
  {
    if |s| == 0 then 0.0 else SumSquares(s[..|s| - 1]) + SquaredNorm(s[|s| - 1])
  }

  /** Sum over k of a_k * b_k^T (the matrix product A * B^T of two 2xN matrices). */
  function OuterSum(a: seq<Vec2>, b: seq<Vec2>): Mat2
    requires |a| == |b|
    decreases |a|
  {
    if |a| == 0 then Mat2(0.0, 0.0, 0.0, 0.0)
    else AddMat(OuterSum(a[..|a| - 1], b[..|b| - 1]), Outer(a[|a| - 1], b[|b| - 1]))
  }

  /** Sum over k of b_k . (m a_k). */
  function MappedDotSum(m: Mat2, a: seq<Vec2>, b: seq<Vec2>): real
    requires |a| == |b|
    decreases |a|
  {
    if |a| == 0 then 0.0
    else MappedDotSum(m, a[..|a| - 1], b[..|b| - 1]) + Dot(b[|b| - 1], MulVec(m, a[|a| - 1]))
  }

  // ---------------------------------------------------------------- lemmas

  /** Shifting every column by c shifts the sum by |s| * c. */
  lemma {:induction false} SumCentered(s: seq<Vec2>, c: Vec2)
    ensures Sum(Centered(s, c)) == Sub(Sum(s), Scale(|s| as real, c))
    decreases |s|
  {
    if |s| > 0 {
      var n := |s| - 1;
      assert Centered(s, c)[..n] == Centered(s[..n], c);
      SumCentered(s[..n], c);
      ScaleSucc(n as real, c);
    }
  }

  lemma ScaleSucc(k: real, c: Vec2)
    ensures Scale(k + 1.0, c) == Add(Scale(k, c), c)
  {
    assert (k + 1.0) * c.x == k * c.x + c.x;
    assert (k + 1.0) * c.y == k * c.y + c.y;
  }

  /** Columns centred on their own mean sum to the zero vector. */
  lemma CenteredOnMeanSumsToZero(s: seq<Vec2>)
    requires |s| > 0
    ensures Sum(Centered(s, Mean(s))) == Zero
  {
    SumCentered(s, Mean(s));
    var m := |s| as real;
    assert m * (Sum(s).x / m) == Sum(s).x;
    assert m * (Sum(s).y / m) == Sum(s).y;
  }

  lemma SquaredNormNonNegative(v: Vec2)
    ensures SquaredNorm(v) >= 0.0
    ensures SquaredNorm(v) == 0.0 <==> v == Zero
  {
    SquareNonNegative(v.x);
    SquareNonNegative(v.y);
  }

  lemma SquareNonNegative(r: real)
    ensures r * r >= 0.0
    ensures r * r == 0.0 <==> r == 0.0
  {
    if r < 0.0 {
      assert r * r == (-r) * (-r);
    }
    if r * r == 0.0 {
      ProductZero(r, r);
    }
  }

  lemma {:induction false} SumSquaresNonNegative(s: seq<Vec2>)
    ensures SumSquares(s) >= 0.0
    decreases |s|
  {
    if |s| > 0 {
      var n := |s| - 1;
      assert SumSquares(s) == SumSquares(s[..n]) + SquaredNorm(s[n]);
      SumSquaresNonNegative(s[..n]);
      SquaredNormNonNegative(s[n]);
    }
  }

  /** Trace(m * A * B^T) == sum of b_k . (m a_k). */
  lemma {:induction false} TraceOfOuterSum(m: Mat2, a: seq<Vec2>, b: seq<Vec2>)
    requires |a| == |b|
    ensures Trace(Mul(m, OuterSum(a, b))) == MappedDotSum(m, a, b)
    decreases |a|
  {
    if |a| > 0 {
      var n := |a| - 1;
      var prev, last := OuterSum(a[..n], b[..n]), Outer(a[n], b[n]);
      assert OuterSum(a, b) == AddMat(prev, last);
      TraceOfOuterSum(m, a[..n], b[..n]);
      MulDistributes(m, prev, last);
      TraceOfOuter(m, a[n], b[n]);
      assert MappedDotSum(m, a, b) == MappedDotSum(m, a[..n], b[..n]) + Dot(b[n], MulVec(m, a[n]));
    }
  }

  lemma TraceOfOuter(m: Mat2, a: Vec2, b: Vec2)
    ensures Trace(Mul(m, Outer(a, b))) == Dot(b, MulVec(m, a))
  {
    BilinearForm(m.m00, m.m01, m.m10, m.m11, a.x, a.y, b.x, b.y);
  }

  /** The scalar identity behind TraceOfOuter. */
  lemma BilinearForm(p: real, q: real, r: real, t: real, ax: real, ay: real, u: real, w: real)
    ensures RowCol(p, q, ax * u, ay * u) + RowCol(r, t, ax * w, ay * w)
         == RowCol(u, w, RowCol(p, q, ax, ay), RowCol(r, t, ax, ay))
  {
    assert u * (p * ax + q * ay) == p * (ax * u) + q * (ay * u);
    assert w * (r * ax + t * ay) == r * (ax * w) + t * (ay * w);
  }

  lemma MulDistributes(m: Mat2, a: Mat2, b: Mat2)
    ensures Trace(Mul(m, AddMat(a, b))) == Trace(Mul(m, a)) + Trace(Mul(m, b))
  {}

  /** A scalar factor on the right-hand matrix comes out of the trace. */
  lemma TraceScale(m: Mat2, k: real, a: Mat2)
    ensures Trace(Mul(m, ScaleMat(k, a))) == k * Trace(Mul(m, a))
  {
    assert m.m00 * (k * a.m00) + m.m01 * (k * a.m10) == k * (m.m00 * a.m00 + m.m01 * a.m10);
    assert m.m10 * (k * a.m01) + m.m11 * (k * a.m11) == k * (m.m10 * a.m01 + m.m11 * a.m11);
  }

  lemma MulAssoc(a: Mat2, b: Mat2, c: Mat2)
    ensures Mul(Mul(a, b), c) == Mul(a, Mul(b, c))
  {
    RowColAssoc(a.m00, a.m01, b, c.m00, c.m10);
    RowColAssoc(a.m00, a.m01, b, c.m01, c.m11);
    RowColAssoc(a.m10, a.m11, b, c.m00, c.m10);
    RowColAssoc(a.m10, a.m11, b, c.m01, c.m11);
  }

  /** One entry of (A B) C against the same entry of A (B C): (p q) is a row of A,
      (u w) a column of C. */
  lemma RowColAssoc(p: real, q: real, b: Mat2, u: real, w: real)
    ensures RowCol(RowCol(p, q, b.m00, b.m10), RowCol(p, q, b.m01, b.m11), u, w)
         == RowCol(p, q, RowCol(b.m00, b.m01, u, w), RowCol(b.m10, b.m11, u, w))
  {
    assert (p * b.m00 + q * b.m10) * u == p * b.m00 * u + q * b.m10 * u;
    assert (p * b.m01 + q * b.m11) * w == p * b.m01 * w + q * b.m11 * w;
    assert p * (b.m00 * u + b.m01 * w) == p * b.m00 * u + p * b.m01 * w;
    assert q * (b.m10 * u + b.m11 * w) == q * b.m10 * u + q * b.m11 * w;
  }

  lemma MulIdentity(a: Mat2)
    ensures Mul(a, Identity) == a && Mul(Identity, a) == a
  {}

  lemma MulVecIdentity(v: Vec2)
    ensures MulVec(Identity, v) == v
  {}

  /** A matrix acts linearly on the sum of two vectors. */
  lemma MulVecDistributes(m: Mat2, u: Vec2, v: Vec2)
    ensures MulVec(m, Add(u, v)) == Add(MulVec(m, u), MulVec(m, v))
  {
    assert m.m00 * (u.x + v.x) + m.m01 * (u.y + v.y) == (m.m00 * u.x + m.m01 * u.y) + (m.m00 * v.x + m.m01 * v.y);
    assert m.m10 * (u.x + v.x) + m.m11 * (u.y + v.y) == (m.m10 * u.x + m.m11 * u.y) + (m.m10 * v.x + m.m11 * v.y);
  }

  lemma DetMul(a: Mat2, b: Mat2)
    ensures Det(Mul(a, b)) == Det(a) * Det(b)
  {}

  /** det((A B) C) = det A det B det C. */
  lemma DetOfTriple(a: Mat2, b: Mat2, c: Mat2)
    ensures Det(Mul(Mul(a, b), c)) == Det(a) * Det(b) * Det(c)
  {
    DetMul(Mul(a, b), c);
    DetMul(a, b);
    ProductCongruence(Det(Mul(a, b)), Det(c), Det(a) * Det(b), Det(c));
  }

  /** det((A B) C^T) = det A det B det C. */
  lemma DetOfTripleTransposedLast(a: Mat2, b: Mat2, c: Mat2)
    ensures Det(Mul(Mul(a, b), Transpose(c))) == Det(a) * Det(b) * Det(c)
  {
    DetOfTriple(a, b, Transpose(c));
    DetTranspose(c);
    ProductCongruence(Det(a) * Det(b), Det(Transpose(c)), Det(a) * Det(b), Det(c));
  }

  /** det((A^T B) C) = det A det B det C. */
  lemma DetOfTripleTransposedFirst(a: Mat2, b: Mat2, c: Mat2)
    ensures Det(Mul(Mul(Transpose(a), b), c)) == Det(a) * Det(b) * Det(c)
  {
    DetOfTriple(Transpose(a), b, c);
    DetTranspose(a);
    ProductCongruence(Det(Transpose(a)), Det(b), Det(a), Det(b));
    ProductCongruence(Det(Transpose(a)) * Det(b), Det(c), Det(a) * Det(b), Det(c));
  }

  /** Equal factors give equal products. */
  lemma ProductCongruence(x: real, y: real, x': real, y': real)
    requires x == x' && y == y'
    ensures x * y == x' * y'
  {}

  lemma DetTranspose(a: Mat2)
    ensures Det(Transpose(a)) == Det(a)
  {}

  lemma TraceCommutes(a: Mat2, b: Mat2)
    ensures Trace(Mul(a, b)) == Trace(Mul(b, a))
  {}

  lemma TransposeMul(a: Mat2, b: Mat2)
    ensures Transpose(Mul(a, b)) == Mul(Transpose(b), Transpose(a))
  {}

  lemma ProductZero(a: real, b: real)
    requires a * b == 0.0
    ensures a == 0.0 || b == 0.0
  {
    if a != 0.0 {
      assert b == (a * b) / a;
    }
  }

  /** An orthogonal matrix has determinant one or minus one. */
  lemma OrthogonalDet(m: Mat2)
    requires Orthogonal(m)
    ensures Det(m) == 1.0 || Det(m) == -1.0
  {
    DetMul(Transpose(m), m);
    DetTranspose(m);
    var d := Det(m);
    assert d * d == 1.0;
    assert (d - 1.0) * (d + 1.0) == 0.0;
    ProductZero(d - 1.0, d + 1.0);
  }

  /** The adjugate: adj(m) * m = det(m) * I. */
  function Adjugate(m: Mat2): Mat2 { Mat2(m.m11, -m.m01, -m.m10, m.m00) }

  /** A proper rotation has the form [[c, -s], [s, c]]: its inverse is both its transpose and its adjugate. */
  lemma ProperRotationForm(m: Mat2)
    requires ProperRotation(m)
    ensures m.m11 == m.m00 && m.m10 == -m.m01
  {
    var a, t := Adjugate(m), Transpose(m);
    assert Mul(a, m) == Identity;
    MulIdentity(a);
    MulAssoc(a, m, t);
    MulIdentity(t);
    assert a == t;
  }

  /** Two matrices of the rotation form commute. */
  lemma RotationFormsCommute(a: Mat2, b: Mat2)
    requires a.m11 == a.m00 && a.m10 == -a.m01
    requires b.m11 == b.m00 && b.m10 == -b.m01
    ensures Mul(a, b) == Mul(b, a)
  {}

  /** An orthogonal matrix with determinant -1 has the form [[c, s], [s, -c]]. */
  lemma ReflectionForm(m: Mat2)
    requires Orthogonal(m) && Det(m) == -1.0
    ensures m.m11 == -m.m00 && m.m10 == m.m01
  {
    var a, t := Adjugate(m), Transpose(m);
    assert Mul(a, m) == Diag(-1.0, -1.0);
    MulIdentity(a);
    MulAssoc(a, m, t);
    assert Mul(Diag(-1.0, -1.0), t) == Mat2(-m.m00, -m.m10, -m.m01, -m.m11);
  }

  /** The diagonal entries of an orthogonal matrix lie in [-1, 1]. */
  lemma OrthogonalDiagonalBounded(m: Mat2)
    requires Orthogonal(m)
    ensures -1.0 <= m.m00 <= 1.0 && -1.0 <= m.m11 <= 1.0
  {
    assert m.m00 * m.m00 + m.m10 * m.m10 == 1.0 by { assert Mul(Transpose(m), m).m00 == 1.0; }
    assert m.m01 * m.m01 + m.m11 * m.m11 == 1.0 by { assert Mul(Transpose(m), m).m11 == 1.0; }
    SquareNonNegative(m.m10);
    SquareNonNegative(m.m01);
    SquareAtMostOne(m.m00);
    SquareAtMostOne(m.m11);
  }

  lemma SquareAtMostOne(r: real)
    requires r * r <= 1.0
    ensures -1.0 <= r <= 1.0
  {
    // 2 r <= r^2 + 1 and -2 r <= r^2 + 1, as (r - 1)^2 and (r + 1)^2 are non-negative
    SquareNonNegative(r - 1.0);
    SquareNonNegative(r + 1.0);
  }

  /** trace(m * diag(d0, d1)) weighs d0 and d1 by m's diagonal. */
  lemma TraceWithDiag(m: Mat2, d0: real, d1: real)
    ensures Trace(Mul(m, Diag(d0, d1))) == m.m00 * d0 + m.m11 * d1
  {}

  lemma OrthogonalTranspose(m: Mat2)
    requires Orthogonal(m)
    ensures Orthogonal(Transpose(m))
  {
    assert Transpose(Transpose(m)) == m;
  }

  /** The product of two orthogonal matrices is orthogonal. */
  lemma OrthogonalMul(a: Mat2, b: Mat2)
    requires Orthogonal(a) && Orthogonal(b)
    ensures Orthogonal(Mul(a, b))
  {
    // (A B)^T (A B) = B^T (A^T A) B = I
    TransposeMul(a, b);
    assert Transpose(Mul(a, b)) == Mul(Transpose(b), Transpose(a));
    MulAssoc(Transpose(b), Transpose(a), Mul(a, b));
    MulAssoc(Transpose(a), a, b);
    assert Mul(Mul(Transpose(a), a), b) == b by { MulIdentity(b); }
    assert Mul(Transpose(Mul(a, b)), Mul(a, b)) == Identity;
    // (A B)(A B)^T = A (B B^T) A^T = I
    MulAssoc(a, b, Mul(Transpose(b), Transpose(a)));
    MulAssoc(b, Transpose(b), Transpose(a));
    assert Mul(Mul(b, Transpose(b)), Transpose(a)) == Transpose(a) by { MulIdentity(Transpose(a)); }
    assert Mul(Mul(a, b), Transpose(Mul(a, b))) == Identity;
  }

  /** A product of three orthogonal matrices is orthogonal. */
  lemma OrthogonalTriple(a: Mat2, b: Mat2, c: Mat2)
    requires Orthogonal(a) && Orthogonal(b) && Orthogonal(c)
    ensures Orthogonal(Mul(Mul(a, b), c))
  {
    OrthogonalMul(a, b);
    assert Orthogonal(Mul(a, b));
    OrthogonalMul(Mul(a, b), c);
  }
}
