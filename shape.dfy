/** Landmark geometry of one shape: the nearest-landmark scan, the encoding of
    points relative to their nearest landmark, and the similarity transform
    (scale, rotation, translation) that aligns one shape with another.
    The singular value decomposition is an input of the transform. */
module Shape {
  import opened Linalg

  /** std::numeric_limits<float>::max(): the scan's initial best distance. */
  const FloatMax: real := 340282346638528859811704183484516925440.0

  function SquaredDistance(a: Vec2, b: Vec2): real { SquaredNorm(Sub(a, b)) }

  // ---------------------------------------------------------------- nearest landmark

  /** No landmark of s lies strictly closer to x than the scan's sentinel. */
  predicate NoneWithinSentinel(s: seq<Vec2>, x: Vec2) {
    forall j :: 0 <= j < |s| ==> SquaredDistance(s[j], x) >= FloatMax
  }

  /** i is a nearest landmark of x below the sentinel, and every landmark before
      it is strictly farther (a later one at the same distance never wins). */
  predicate IsClosest(s: seq<Vec2>, x: Vec2, i: int) {
    && 0 <= i < |s|
    && SquaredDistance(s[i], x) < FloatMax
    && (forall j :: 0 <= j < |s| ==> SquaredDistance(s[i], x) <= SquaredDistance(s[j], x))
    && (forall j :: 0 <= j < i ==> SquaredDistance(s[i], x) < SquaredDistance(s[j], x))
  }

  /** Linear scan with a strict comparison, starting from index -1 and distance FloatMax. */
  method FindClosestLandmarkIndex(s: seq<Vec2>, x: Vec2) returns (best: int)
    ensures -1 <= best < |s|
    ensures best == -1 <==> NoneWithinSentinel(s, x)
    ensures best != -1 ==> IsClosest(s, x, best)
  {
    best := -1;
    var bestD2 := FloatMax;
    for i := 0 to |s|
      invariant -1 <= best < i
      invariant best == -1 ==> bestD2 == FloatMax && NoneWithinSentinel(s[..i], x)
      invariant best != -1 ==> bestD2 == SquaredDistance(s[best], x) < FloatMax
      invariant forall j :: 0 <= j < i ==> bestD2 <= SquaredDistance(s[j], x)
      invariant forall j :: 0 <= j < best ==> bestD2 < SquaredDistance(s[j], x)
    {
      var d2 := SquaredDistance(s[i], x);
      if d2 < bestD2 {
        bestD2 := d2;
        best := i;
      }
    }
    assert s[..|s|] == s;
  }

  /** The scan's answer is determined: at most one index is the closest landmark. */
  lemma ClosestIsUnique(s: seq<Vec2>, x: Vec2, i: int, j: int)
    requires IsClosest(s, x, i) && IsClosest(s, x, j)
    ensures i == j
  {}

  // ---------------------------------------------------------------- relative coordinates

  /** rel and closest encode abs against s: each point is its nearest landmark plus an offset. */
  predicate Encodes(s: seq<Vec2>, abs: seq<Vec2>, rel: seq<Vec2>, closest: seq<int>) {
    && |rel| == |abs| && |closest| == |abs|
    && (forall i :: 0 <= i < |abs| ==> IsClosest(s, abs[i], closest[i]))
    && (forall i :: 0 <= i < |abs| ==> 0 <= closest[i] < |s| && Add(rel[i], s[closest[i]]) == abs[i])
  }

  /** Encodes each absolute point as (point - nearest landmark, landmark index).
      A point with no landmark below the sentinel would index column -1 of s. */
  method ShapeRelativePixelCoordinates(s: seq<Vec2>, abs: seq<Vec2>) returns (rel: seq<Vec2>, closest: seq<int>)
    requires forall i :: 0 <= i < |abs| ==> !NoneWithinSentinel(s, abs[i])
    ensures Encodes(s, abs, rel, closest)
  {
    rel, closest := [], [];
    for i := 0 to |abs|
      invariant Encodes(s, abs[..i], rel, closest)
    {
      var idx := FindClosestLandmarkIndex(s, abs[i]);
      rel := rel + [Sub(abs[i], s[idx])];
      closest := closest + [idx];
    }
    assert abs[..|abs|] == abs;
  }

  /** The encoding is unique: any two encodings of the same points agree. */
  lemma EncodingIsUnique(s: seq<Vec2>, abs: seq<Vec2>, rel: seq<Vec2>, closest: seq<int>,
                         rel': seq<Vec2>, closest': seq<int>)
    requires Encodes(s, abs, rel, closest) && Encodes(s, abs, rel', closest')
    ensures rel == rel' && closest == closest'
  {
    forall i | 0 <= i < |abs|
      ensures closest[i] == closest'[i] && rel[i] == rel'[i]
    {
      ClosestIsUnique(s, abs[i], closest[i], closest'[i]);
    }
  }

  // ---------------------------------------------------------------- similarity transform

  /** The factors of a singular value decomposition: u, v and the two singular values. */
  datatype Svd = Svd(u: Mat2, v: Mat2, sv0: real, sv1: real)

  /** d decomposes m: m = U diag(sv0, sv1) V^T with orthogonal U, V and non-negative singular values. */
  predicate IsSvd(m: Mat2, d: Svd) {
    && Orthogonal(d.u) && Orthogonal(d.v)
    && 0.0 <= d.sv0 && 0.0 <= d.sv1
    && m == Mul(Mul(d.u, Diag(d.sv0, d.sv1)), Transpose(d.v))
  }

  /** Eigen's AffineCompact2f: a linear part and a translation. */
  datatype Similarity = Similarity(linear: Mat2, translation: Vec2)

  function Apply(t: Similarity, p: Vec2): Vec2 { Add(MulVec(t.linear, p), t.translation) }

  /** Cross-covariance of the centred shapes: centredFrom * centredTo^T / n. */
  function Covariance(from: seq<Vec2>, to: seq<Vec2>): Mat2
    requires |from| == |to| > 0
  {
    ScaleMat(1.0 / |from| as real, OuterSum(Centered(from, Mean(from)), Centered(to, Mean(to))))
  }

  /** sFrom: the mean squared norm of the centred from shape. */
  function Spread(from: seq<Vec2>): real
    requires |from| > 0
  {
    SumSquares(Centered(from, Mean(from))) / |from| as real
  }

  /** The reflection test on detCov = det cov and detUV = det U * det V. */
  predicate NeedsReflectionFix(detCov: real, detUV: real) {
    detCov < 0.0 || (detCov == 0.0 && detUV < 0.0)
  }

  /** The sign matrix s: the identity, or with -1 at the smaller singular value when the test fires. */
  function SignMatrix(detCov: real, detUV: real, sv0: real, sv1: real): Mat2 {
    if !NeedsReflectionFix(detCov, detUV) then Identity
    else if sv1 < sv0 then Diag(1.0, -1.0)
    else Diag(-1.0, 1.0)
  }

  /** The sign matrix for cov and its decomposition d. */
  function Sign(cov: Mat2, d: Svd): Mat2 {
    SignMatrix(Det(cov), Det(d.u) * Det(d.v), d.sv0, d.sv1)
  }

  /** The scale c: trace(D s) / sFrom, or 1 when sFrom is not positive. */
  function ScaleFactor(spread: real, sv0: real, sv1: real, sign: Mat2): real {
    if spread > 0.0 then 1.0 / spread * Trace(Mul(Diag(sv0, sv1), sign)) else 1.0
  }

  /** The transform with linear part c * rot whose translation sends meanFrom to meanTo. */
  function Compose(meanFrom: Vec2, meanTo: Vec2, c: real, rot: Mat2): (r: Similarity)
    ensures Apply(r, meanFrom) == meanTo
    ensures r.linear == ScaleMat(c, rot)
  {
    var linear := ScaleMat(c, rot);
    Similarity(linear, Sub(meanTo, MulVec(linear, meanFrom)))
  }

  /** The rotation as the code forms it: U^T s V. */
  function RotationAsWritten(cov: Mat2, d: Svd): Mat2 {
    Mul(Mul(Transpose(d.u), Sign(cov, d)), d.v)
  }

  /** estimateSimilarityTransform with the rotation formed as the code forms it. */
  function EstimateSimilarityTransformAsWritten(from: seq<Vec2>, to: seq<Vec2>, svdOf: Mat2 -> Svd): (r: Similarity)
    requires |from| == |to| > 0
    ensures Apply(r, Mean(from)) == Mean(to)
  {
    var cov := Covariance(from, to);
    var d := svdOf(cov);
    Compose(Mean(from), Mean(to), ScaleFactor(Spread(from), d.sv0, d.sv1, Sign(cov, d)), RotationAsWritten(cov, d))
  }

  /** The rotation that maximises trace(rot * cov) for cov = U D V^T: V s U^T. */
  function Rotation(cov: Mat2, d: Svd): Mat2 {
    Mul(Mul(d.v, Sign(cov, d)), Transpose(d.u))
  }

  /** estimateSimilarityTransform with the rotation V s U^T (see Findings in README.md). */
  function EstimateSimilarityTransform(from: seq<Vec2>, to: seq<Vec2>, svdOf: Mat2 -> Svd): (r: Similarity)
    requires |from| == |to| > 0
    ensures Apply(r, Mean(from)) == Mean(to)
  {
    var cov := Covariance(from, to);
    var d := svdOf(cov);
    Compose(Mean(from), Mean(to), ScaleFactor(Spread(from), d.sv0, d.sv1, Sign(cov, d)), Rotation(cov, d))
  }

  // ---------------------------------------------------------------- properties of the transform

  /** The sign matrix is orthogonal, with determinant -1 exactly when the reflection test fires. */
  lemma SignMatrixChoice(detCov: real, detUV: real, sv0: real, sv1: real)
    ensures Orthogonal(SignMatrix(detCov, detUV, sv0, sv1))
    ensures Det(SignMatrix(detCov, detUV, sv0, sv1)) == (if NeedsReflectionFix(detCov, detUV) then -1.0 else 1.0)
  {
    if !NeedsReflectionFix(detCov, detUV) {
      assert SignMatrix(detCov, detUV, sv0, sv1) == Identity;
    } else if sv1 < sv0 {
      assert SignMatrix(detCov, detUV, sv0, sv1) == Diag(1.0, -1.0);
    } else {
      assert SignMatrix(detCov, detUV, sv0, sv1) == Diag(-1.0, 1.0);
    }
  }

  /** The flip falls on the smaller singular value: trace(D s) keeps their sum, or loses
      twice the smaller one when the test fires. */
  lemma SignedTrace(detCov: real, detUV: real, sv0: real, sv1: real)
    ensures Trace(Mul(Diag(sv0, sv1), SignMatrix(detCov, detUV, sv0, sv1)))
         == if !NeedsReflectionFix(detCov, detUV) then sv0 + sv1
            else if sv1 < sv0 then sv0 - sv1 else sv1 - sv0
  {
    if !NeedsReflectionFix(detCov, detUV) {
      assert SignMatrix(detCov, detUV, sv0, sv1) == Identity;
    } else if sv1 < sv0 {
      assert SignMatrix(detCov, detUV, sv0, sv1) == Diag(1.0, -1.0);
    } else {
      assert SignMatrix(detCov, detUV, sv0, sv1) == Diag(-1.0, 1.0);
    }
  }

  /** With non-negative singular values trace(D s) is never negative, so neither is the scale. */
  lemma ScaleNonNegative(spread: real, detCov: real, detUV: real, sv0: real, sv1: real)
    requires 0.0 <= sv0 && 0.0 <= sv1
    ensures ScaleFactor(spread, sv0, sv1, SignMatrix(detCov, detUV, sv0, sv1)) >= 0.0
  {
    SignedTrace(detCov, detUV, sv0, sv1);
    assert Trace(Mul(Diag(sv0, sv1), SignMatrix(detCov, detUV, sv0, sv1))) >= 0.0;
    if spread > 0.0 {
      PositiveQuotient(spread, Trace(Mul(Diag(sv0, sv1), SignMatrix(detCov, detUV, sv0, sv1))));
    }
  }

  lemma PositiveQuotient(p: real, q: real)
    requires p > 0.0 && q >= 0.0
    ensures 1.0 / p * q >= 0.0
  {
    assert 1.0 / p > 0.0;
  }

  /** sFrom is never negative, so the guard sFrom > 0 only catches a zero spread, where the scale is 1;
      otherwise c * sFrom = trace(D s). */
  lemma ScaleGuard(from: seq<Vec2>, sv0: real, sv1: real, sign: Mat2)
    requires |from| > 0
    ensures Spread(from) >= 0.0
    ensures Spread(from) == 0.0 ==> ScaleFactor(Spread(from), sv0, sv1, sign) == 1.0
    ensures Spread(from) != 0.0 ==> ScaleFactor(Spread(from), sv0, sv1, sign) * Spread(from) == Trace(Mul(Diag(sv0, sv1), sign))
  {
    SumSquaresNonNegative(Centered(from, Mean(from)));
    var sp := Spread(from);
    if sp != 0.0 {
      QuotientTimesDivisor(sp, Trace(Mul(Diag(sv0, sv1), sign)));
    }
  }

  lemma QuotientTimesDivisor(p: real, q: real)
    requires p != 0.0
    ensures 1.0 / p * q * p == q
  {}

  /** What the reflection test relies on in a decomposition: orthogonal factors, non-negative
      singular values, and det cov = det U * sv0 * sv1 * det V. */
  predicate DeterminantSplits(cov: Mat2, d: Svd) {
    && Orthogonal(d.u) && Orthogonal(d.v)
    && 0.0 <= d.sv0 && 0.0 <= d.sv1
    && Det(cov) == Det(d.u) * Det(Diag(d.sv0, d.sv1)) * Det(d.v)
  }

  /** Every valid decomposition has that property. */
  lemma SvdDeterminantSplits(cov: Mat2, d: Svd)
    requires IsSvd(cov, d)
    ensures DeterminantSplits(cov, d)
  {
    DetOfTripleTransposedLast(d.u, Diag(d.sv0, d.sv1), d.v);
  }

  /** The reflection test fires exactly when U and V differ in handedness (det U * det V = -1). */
  lemma ReflectionTestDetectsHandedness(cov: Mat2, d: Svd)
    requires DeterminantSplits(cov, d)
    ensures Det(d.u) * Det(d.v) == 1.0 || Det(d.u) * Det(d.v) == -1.0
    ensures NeedsReflectionFix(Det(cov), Det(d.u) * Det(d.v)) <==> Det(d.u) * Det(d.v) == -1.0
  {
    OrthogonalDet(d.u);
    OrthogonalDet(d.v);
    HandednessSign(Det(cov), Det(d.u), d.sv0, d.sv1, Det(d.v));
  }

  /** The scalar core of ReflectionTestDetectsHandedness. */
  lemma HandednessSign(dc: real, du: real, sv0: real, sv1: real, dv: real)
    requires dc == du * (sv0 * sv1 - 0.0 * 0.0) * dv
    requires du == 1.0 || du == -1.0
    requires dv == 1.0 || dv == -1.0
    requires 0.0 <= sv0 && 0.0 <= sv1
    ensures du * dv == 1.0 || du * dv == -1.0
    ensures NeedsReflectionFix(dc, du * dv) <==> du * dv == -1.0
  {
    var p := sv0 * sv1;
    assert p >= 0.0;
    if du == 1.0 {
      if dv == 1.0 { assert dc == p; } else { assert dc == -p; }
    } else {
      if dv == 1.0 { assert dc == -p; } else { assert dc == p; }
    }
  }

  /** The rotation V s U^T is proper: orthogonal with determinant 1, reflections corrected. */
  lemma RotationIsProper(cov: Mat2, d: Svd)
    requires DeterminantSplits(cov, d)
    ensures ProperRotation(Rotation(cov, d))
  {
    ReflectionTestDetectsHandedness(cov, d);
    ProperByHandedness(d.u, d.v, Det(cov), d.sv0, d.sv1);
  }

  /** The rotation U^T s V, as the code forms it, is proper as well. */
  lemma AsWrittenRotationIsProper(cov: Mat2, d: Svd)
    requires DeterminantSplits(cov, d)
    ensures ProperRotation(RotationAsWritten(cov, d))
  {
    ReflectionTestDetectsHandedness(cov, d);
    ProperByHandedness(d.u, d.v, Det(cov), d.sv0, d.sv1);
  }

  /** V s U^T and U^T s V are proper rotations when U and V are orthogonal and the
      reflection test fires exactly when they differ in handedness. */
  lemma ProperByHandedness(u: Mat2, v: Mat2, detCov: real, sv0: real, sv1: real)
    requires Orthogonal(u) && Orthogonal(v)
    requires Det(u) * Det(v) == 1.0 || Det(u) * Det(v) == -1.0
    requires NeedsReflectionFix(detCov, Det(u) * Det(v)) <==> Det(u) * Det(v) == -1.0
    ensures ProperRotation(Mul(Mul(v, SignMatrix(detCov, Det(u) * Det(v), sv0, sv1)), Transpose(u)))
    ensures ProperRotation(Mul(Mul(Transpose(u), SignMatrix(detCov, Det(u) * Det(v), sv0, sv1)), v))
  {
    SignMatrixChoice(detCov, Det(u) * Det(v), sv0, sv1);
    ProperSandwich(u, v, SignMatrix(detCov, Det(u) * Det(v), sv0, sv1));
    ProperSandwichAsWritten(u, v, SignMatrix(detCov, Det(u) * Det(v), sv0, sv1));
  }

  /** V s U^T is a proper rotation when U, V, s are orthogonal and s flips exactly when
      U and V differ in handedness. */
  lemma ProperSandwich(u: Mat2, v: Mat2, s: Mat2)
    requires Orthogonal(u) && Orthogonal(v) && Orthogonal(s)
    requires Det(u) * Det(v) == 1.0 || Det(u) * Det(v) == -1.0
    requires Det(s) == if Det(u) * Det(v) == -1.0 then -1.0 else 1.0
    ensures ProperRotation(Mul(Mul(v, s), Transpose(u)))
  {
    OrthogonalTranspose(u);
    OrthogonalTriple(v, s, Transpose(u));
    HandednessCancelsInProduct(u, v, s);
  }

  /** U^T s V is a proper rotation under the same conditions. */
  lemma ProperSandwichAsWritten(u: Mat2, v: Mat2, s: Mat2)
    requires Orthogonal(u) && Orthogonal(v) && Orthogonal(s)
    requires Det(u) * Det(v) == 1.0 || Det(u) * Det(v) == -1.0
    requires Det(s) == if Det(u) * Det(v) == -1.0 then -1.0 else 1.0
    ensures ProperRotation(Mul(Mul(Transpose(u), s), v))
  {
    OrthogonalTranspose(u);
    OrthogonalTriple(Transpose(u), s, v);
    HandednessCancelsInProduct(u, v, s);
  }

  /** det(V s U^T) = det(U^T s V) = 1 when det s is -1 exactly when det U * det V is -1. */
  lemma HandednessCancelsInProduct(u: Mat2, v: Mat2, s: Mat2)
    requires Det(u) * Det(v) == 1.0 || Det(u) * Det(v) == -1.0
    requires Det(s) == if Det(u) * Det(v) == -1.0 then -1.0 else 1.0
    ensures Det(Mul(Mul(v, s), Transpose(u))) == 1.0
    ensures Det(Mul(Mul(Transpose(u), s), v)) == 1.0
  {
    DetOfTripleTransposedLast(v, s, u);
    DetOfTripleTransposedFirst(u, s, v);
    HandednessCancels(Det(u), Det(s), Det(v));
  }

  /** dv * ds * du = 1 and du * ds * dv = 1 when ds is -1 exactly when du * dv is -1. */
  lemma HandednessCancels(du: real, ds: real, dv: real)
    requires du * dv == 1.0 || du * dv == -1.0
    requires ds == if du * dv == -1.0 then -1.0 else 1.0
    ensures dv * ds * du == 1.0 && du * ds * dv == 1.0
  {
    assert dv * ds * du == ds * (du * dv);
    assert du * ds * dv == ds * (du * dv);
  }

  /** When U and V are both proper rotations the reflection test cannot fire, and U^T V = V U^T
      because 2-D rotations commute: the rotation as written is then the rotation V s U^T. */
  lemma RotationsAgreeOnProperFactors(cov: Mat2, d: Svd)
    requires DeterminantSplits(cov, d) && Det(d.u) == 1.0 && Det(d.v) == 1.0
    ensures RotationAsWritten(cov, d) == Rotation(cov, d)
  {
    ReflectionTestDetectsHandedness(cov, d);
    SignFromDeterminants(cov, d, Det(cov), 1.0);
    ProperFactorsCommute(d.u, d.v, Sign(cov, d));
  }

  lemma ProperFactorsCommute(u: Mat2, v: Mat2, sign: Mat2)
    requires ProperRotation(u) && ProperRotation(v) && sign == Identity
    ensures Mul(Mul(Transpose(u), sign), v) == Mul(Mul(v, sign), Transpose(u))
  {
    MulIdentity(Transpose(u));
    MulIdentity(v);
    ProperRotationForm(u);
    ProperRotationForm(v);
    RotationFormsCommute(Transpose(u), v);
  }

  /** Both estimates are the same transform when the decomposition's factors are proper rotations. */
  lemma EstimatesAgreeOnProperFactors(from: seq<Vec2>, to: seq<Vec2>, svdOf: Mat2 -> Svd)
    requires |from| == |to| > 0
    requires IsSvd(Covariance(from, to), svdOf(Covariance(from, to)))
    requires Det(svdOf(Covariance(from, to)).u) == 1.0 && Det(svdOf(Covariance(from, to)).v) == 1.0
    ensures EstimateSimilarityTransformAsWritten(from, to, svdOf) == EstimateSimilarityTransform(from, to, svdOf)
  {
    var cov := Covariance(from, to);
    SvdDeterminantSplits(cov, svdOf(cov));
    RotationsAgreeOnProperFactors(cov, svdOf(cov));
  }

  /** trace(rot * cov) = trace(D s) for rot = V s U^T: the correlation the rotation achieves
      is the sum of the signed singular values. */
  lemma RotationAlignsWithCovariance(cov: Mat2, d: Svd)
    requires IsSvd(cov, d)
    ensures Trace(Mul(Rotation(cov, d), cov)) == Trace(Mul(Diag(d.sv0, d.sv1), Sign(cov, d)))
  {
    var u, v, ut, vt := d.u, d.v, Transpose(d.u), Transpose(d.v);
    var dm, sign := Diag(d.sv0, d.sv1), Sign(cov, d);
    var vs := Mul(v, sign);
    // (V s U^T)(U D V^T) = (V s)(U^T U)(D V^T) = (V s)(D V^T)
    MulAssoc(vs, ut, Mul(Mul(u, dm), vt));
    MulAssoc(u, dm, vt);
    MulAssoc(ut, u, Mul(dm, vt));
    MulIdentity(Mul(dm, vt));
    // trace((V s D) V^T) = trace(V^T (V s D)) = trace(s D)
    MulAssoc(vs, dm, vt);
    TraceCommutes(Mul(vs, dm), vt);
    MulAssoc(v, sign, dm);
    MulAssoc(vt, v, Mul(sign, dm));
    MulIdentity(Mul(sign, dm));
    TraceCommutes(sign, dm);
  }

  /** For an orthogonal q whose determinant is -1 whenever the sign matrix flips an axis,
      trace(q D) is at most trace(D s). */
  lemma AlignmentBound(q: Mat2, sv0: real, sv1: real, detCov: real, detUV: real)
    requires Orthogonal(q) && 0.0 <= sv0 && 0.0 <= sv1
    requires NeedsReflectionFix(detCov, detUV) ==> Det(q) == -1.0
    ensures Trace(Mul(q, Diag(sv0, sv1))) <= Trace(Mul(Diag(sv0, sv1), SignMatrix(detCov, detUV, sv0, sv1)))
  {
    TraceWithDiag(q, sv0, sv1);
    OrthogonalDiagonalBounded(q);
    if NeedsReflectionFix(detCov, detUV) {
      // q = [[c, t], [t, -c]]: trace(q D) = c (sv0 - sv1) <= |sv0 - sv1|
      ReflectionForm(q);
      assert q.m00 * sv0 + q.m11 * sv1 == q.m00 * (sv0 - sv1);
      if sv1 < sv0 {
        assert (1.0 - q.m00) * (sv0 - sv1) >= 0.0;
      } else {
        assert (1.0 + q.m00) * (sv1 - sv0) >= 0.0;
      }
    } else {
      assert (1.0 - q.m00) * sv0 >= 0.0 && (1.0 - q.m11) * sv1 >= 0.0;
    }
  }

  /** Kabsch's optimality: no proper rotation r correlates the centred shapes better than
      rot = V s U^T, i.e. trace(r * cov) <= trace(rot * cov). */
  lemma RotationMaximisesAlignment(cov: Mat2, d: Svd, r: Mat2)
    requires IsSvd(cov, d) && ProperRotation(r)
    ensures Trace(Mul(r, cov)) <= Trace(Mul(Rotation(cov, d), cov))
  {
    var u, v, vt, dm := d.u, d.v, Transpose(d.v), Diag(d.sv0, d.sv1);
    var q := Mul(Mul(vt, r), u);
    // trace(r U D V^T) = trace(V^T r U D) = trace(q D)
    MulAssoc(r, Mul(u, dm), vt);
    TraceCommutes(Mul(r, Mul(u, dm)), vt);
    MulAssoc(r, u, dm);
    MulAssoc(vt, Mul(r, u), dm);
    MulAssoc(vt, r, u);
    assert Trace(Mul(r, cov)) == Trace(Mul(q, dm));
    OrthogonalTranspose(v);
    OrthogonalTriple(vt, r, u);
    DetOfTripleTransposedFirst(v, r, u);
    SvdDeterminantSplits(cov, d);
    ReflectionTestDetectsHandedness(cov, d);
    AlignmentBound(q, d.sv0, d.sv1, Det(cov), Det(u) * Det(v));
    RotationAlignsWithCovariance(cov, d);
  }

  /** With the rotation V s U^T, c * sFrom = trace(rot * cov): c is the least-squares scale
      for that rotation (see CovarianceTrace for what the trace sums). */
  lemma ScaleIsLeastSquares(cov: Mat2, d: Svd, spread: real)
    requires IsSvd(cov, d)
    requires spread > 0.0
    ensures ScaleFactor(spread, d.sv0, d.sv1, Sign(cov, d)) * spread == Trace(Mul(Rotation(cov, d), cov))
  {
    RotationAlignsWithCovariance(cov, d);
    ScaleTimesSpread(spread, d.sv0, d.sv1, Sign(cov, d));
  }

  lemma ScaleTimesSpread(spread: real, sv0: real, sv1: real, sign: Mat2)
    requires spread > 0.0
    ensures ScaleFactor(spread, sv0, sv1, sign) * spread == Trace(Mul(Diag(sv0, sv1), sign))
  {
    QuotientTimesDivisor(spread, Trace(Mul(Diag(sv0, sv1), sign)));
  }

  /** trace(M * cov) is the mean over the landmarks of t_i . (M f_i), for the centred shapes f and t. */
  lemma CovarianceTrace(from: seq<Vec2>, to: seq<Vec2>, m: Mat2)
    requires |from| == |to| > 0
    ensures Trace(Mul(m, Covariance(from, to)))
         == 1.0 / |from| as real * MappedDotSum(m, Centered(from, Mean(from)), Centered(to, Mean(to)))
  {
    TraceOfOuterSum(m, Centered(from, Mean(from)), Centered(to, Mean(to)));
    TraceOfScaled(m, OuterSum(Centered(from, Mean(from)), Centered(to, Mean(to))), 1.0 / |from| as real,
                  Covariance(from, to), MappedDotSum(m, Centered(from, Mean(from)), Centered(to, Mean(to))));
  }

  lemma TraceOfScaled(m: Mat2, o: Mat2, k: real, cov: Mat2, sum: real)
    requires cov == ScaleMat(k, o) && Trace(Mul(m, o)) == sum
    ensures Trace(Mul(m, cov)) == k * sum
  {
    TraceScale(m, k, o);
  }

  // ---------------------------------------------------------------- the two-landmark scenario

  /** Two landmarks, (0,0) and (1,0), rotated by 90 degrees and scaled by 2. */
  const ScenarioFrom: seq<Vec2> := [Vec2(0.0, 0.0), Vec2(1.0, 0.0)]
  const ScenarioTo: seq<Vec2> := [Vec2(0.0, 0.0), Vec2(0.0, 2.0)]

  /** The scenario's covariance [[0, 0.5], [0, 0]]. */
  const ScenarioCovariance: Mat2 := Mat2(0.0, 0.5, 0.0, 0.0)

  /** A valid decomposition of the scenario's covariance, with V a reflection. */
  const ScenarioSvd: Svd := Svd(Identity, Mat2(0.0, 1.0, 1.0, 0.0), 0.5, 0.0)

  lemma SumOfPair(a: Vec2, b: Vec2)
    ensures Sum([a, b]) == Add(a, b)
  {
    assert [a, b][..1] == [a];
    assert [a][..0] == [];
    assert Sum([a]) == Add(Sum([]), a);
    assert Sum([a, b]) == Add(Sum([a]), b);
  }

  lemma MeanOfPair(a: Vec2, b: Vec2)
    ensures Mean([a, b]) == Vec2((a.x + b.x) / 2.0, (a.y + b.y) / 2.0)
  {
    SumOfPair(a, b);
  }

  lemma CenteredPair(a: Vec2, b: Vec2, c: Vec2)
    ensures Centered([a, b], c) == [Sub(a, c), Sub(b, c)]
  {}

  lemma OuterSumOfPair(a: Vec2, b: Vec2, c: Vec2, d: Vec2)
    ensures OuterSum([a, b], [c, d]) == AddMat(Outer(a, c), Outer(b, d))
  {
    assert [a, b][..1] == [a] && [c, d][..1] == [c];
    assert [a][..0] == [] && [c][..0] == [];
    assert OuterSum([a], [c]) == AddMat(OuterSum([], []), Outer(a, c));
    assert OuterSum([a, b], [c, d]) == AddMat(OuterSum([a], [c]), Outer(b, d));
  }

  lemma SumSquaresOfPair(a: Vec2, b: Vec2)
    ensures SumSquares([a, b]) == SquaredNorm(a) + SquaredNorm(b)
  {
    assert [a, b][..1] == [a];
    assert [a][..0] == [];
    assert SumSquares([a]) == SumSquares([]) + SquaredNorm(a);
    assert SumSquares([a, b]) == SumSquares([a]) + SquaredNorm(b);
  }

  lemma ScenarioCentred()
    ensures Mean(ScenarioFrom) == Vec2(0.5, 0.0) && Mean(ScenarioTo) == Vec2(0.0, 1.0)
    ensures Centered(ScenarioFrom, Mean(ScenarioFrom)) == [Vec2(-0.5, 0.0), Vec2(0.5, 0.0)]
    ensures Centered(ScenarioTo, Mean(ScenarioTo)) == [Vec2(0.0, -1.0), Vec2(0.0, 1.0)]
  {
    MeanOfPair(Vec2(0.0, 0.0), Vec2(1.0, 0.0));
    MeanOfPair(Vec2(0.0, 0.0), Vec2(0.0, 2.0));
    CenteredPair(Vec2(0.0, 0.0), Vec2(1.0, 0.0), Vec2(0.5, 0.0));
    CenteredPair(Vec2(0.0, 0.0), Vec2(0.0, 2.0), Vec2(0.0, 1.0));
  }

  lemma ScenarioOuterSum()
    ensures OuterSum(Centered(ScenarioFrom, Mean(ScenarioFrom)), Centered(ScenarioTo, Mean(ScenarioTo)))
         == Mat2(0.0, 1.0, 0.0, 0.0)
  {
    ScenarioCentred();
    OuterSumOfPair(Vec2(-0.5, 0.0), Vec2(0.5, 0.0), Vec2(0.0, -1.0), Vec2(0.0, 1.0));
    ScenarioOuterProducts();
  }

  lemma ScenarioOuterProducts()
    ensures AddMat(Outer(Vec2(-0.5, 0.0), Vec2(0.0, -1.0)), Outer(Vec2(0.5, 0.0), Vec2(0.0, 1.0)))
         == Mat2(0.0, 1.0, 0.0, 0.0)
  {
    ScenarioFirstOuter();
    ScenarioSecondOuter();
  }

  lemma ScenarioFirstOuter()
    ensures Outer(Vec2(-0.5, 0.0), Vec2(0.0, -1.0)) == Mat2(0.0, 0.5, 0.0, 0.0)
  {}

  lemma ScenarioSecondOuter()
    ensures Outer(Vec2(0.5, 0.0), Vec2(0.0, 1.0)) == Mat2(0.0, 0.5, 0.0, 0.0)
  {}

  lemma ScenarioCovarianceValue()
    ensures Covariance(ScenarioFrom, ScenarioTo) == ScenarioCovariance
  {
    ScenarioOuterSum();
  }

  lemma ScenarioSpreadValue()
    ensures Spread(ScenarioFrom) == 0.25
  {
    ScenarioCentred();
    SumSquaresOfPair(Vec2(-0.5, 0.0), Vec2(0.5, 0.0));
  }

  lemma ScenarioDecomposition()
    ensures IsSvd(ScenarioCovariance, ScenarioSvd)
  {
    assert Mul(Transpose(Identity), Identity) == Identity;
    assert Mul(Transpose(Mat2(0.0, 1.0, 1.0, 0.0)), Mat2(0.0, 1.0, 1.0, 0.0)) == Identity;
    assert Mul(Identity, Diag(0.5, 0.0)) == Diag(0.5, 0.0);
    assert Mul(Diag(0.5, 0.0), Transpose(Mat2(0.0, 1.0, 1.0, 0.0))) == ScenarioCovariance;
  }

  lemma ScenarioCovarianceSingular()
    ensures Det(ScenarioCovariance) == 0.0
  {}

  lemma ScenarioFactorsDisagree()
    ensures Det(ScenarioSvd.u) * Det(ScenarioSvd.v) == -1.0
  {}

  lemma SignFromDeterminants(cov: Mat2, d: Svd, detCov: real, detUV: real)
    requires Det(cov) == detCov && Det(d.u) * Det(d.v) == detUV
    ensures Sign(cov, d) == SignMatrix(detCov, detUV, d.sv0, d.sv1)
  {}

  lemma ScenarioSign()
    ensures Sign(ScenarioCovariance, ScenarioSvd) == Diag(1.0, -1.0)
  {
    ScenarioCovarianceSingular();
    ScenarioFactorsDisagree();
    SignFromDeterminants(ScenarioCovariance, ScenarioSvd, 0.0, -1.0);
    assert SignMatrix(0.0, -1.0, 0.5, 0.0) == Diag(1.0, -1.0);
  }

  lemma ScenarioScale()
    ensures ScaleFactor(0.25, 0.5, 0.0, Diag(1.0, -1.0)) == 2.0
  {
    assert Trace(Mul(Diag(0.5, 0.0), Diag(1.0, -1.0))) == 0.5;
  }

  /** Unfolds either estimate once its inputs are known. */
  lemma EstimateFromParts(from: seq<Vec2>, to: seq<Vec2>, svdOf: Mat2 -> Svd,
                          meanFrom: Vec2, meanTo: Vec2, cov: Mat2, spread: real, sign: Mat2)
    requires |from| == |to| > 0
    requires Mean(from) == meanFrom && Mean(to) == meanTo
    requires Covariance(from, to) == cov && Spread(from) == spread
    requires Sign(cov, svdOf(cov)) == sign
    ensures EstimateSimilarityTransformAsWritten(from, to, svdOf)
         == Compose(meanFrom, meanTo, ScaleFactor(spread, svdOf(cov).sv0, svdOf(cov).sv1, sign), RotationAsWritten(cov, svdOf(cov)))
    ensures EstimateSimilarityTransform(from, to, svdOf)
         == Compose(meanFrom, meanTo, ScaleFactor(spread, svdOf(cov).sv0, svdOf(cov).sv1, sign), Rotation(cov, svdOf(cov)))
  {}

  lemma ScenarioEstimates(svdOf: Mat2 -> Svd)
    requires svdOf(ScenarioCovariance) == ScenarioSvd
    ensures EstimateSimilarityTransformAsWritten(ScenarioFrom, ScenarioTo, svdOf)
         == Compose(Vec2(0.5, 0.0), Vec2(0.0, 1.0), 2.0, RotationAsWritten(ScenarioCovariance, ScenarioSvd))
    ensures EstimateSimilarityTransform(ScenarioFrom, ScenarioTo, svdOf)
         == Compose(Vec2(0.5, 0.0), Vec2(0.0, 1.0), 2.0, Rotation(ScenarioCovariance, ScenarioSvd))
  {
    ScenarioCentred();
    ScenarioCovarianceValue();
    ScenarioSpreadValue();
    ScenarioSign();
    ScenarioScale();
    EstimateFromParts(ScenarioFrom, ScenarioTo, svdOf, Vec2(0.5, 0.0), Vec2(0.0, 1.0),
                      ScenarioCovariance, 0.25, Diag(1.0, -1.0));
  }

  lemma ScenarioRotationAsWritten()
    ensures RotationAsWritten(ScenarioCovariance, ScenarioSvd) == Mat2(0.0, 1.0, -1.0, 0.0)
  {
    ScenarioSign();
    assert Mul(Transpose(Identity), Diag(1.0, -1.0)) == Diag(1.0, -1.0);
  }

  lemma ScenarioRotation()
    ensures Rotation(ScenarioCovariance, ScenarioSvd) == Mat2(0.0, -1.0, 1.0, 0.0)
  {
    ScenarioSign();
    assert Mul(Mat2(0.0, 1.0, 1.0, 0.0), Diag(1.0, -1.0)) == Mat2(0.0, -1.0, 1.0, 0.0);
  }

  lemma ComposeFromParts(meanFrom: Vec2, meanTo: Vec2, c: real, rot: Mat2, linear: Mat2, image: Vec2)
    requires ScaleMat(c, rot) == linear && MulVec(linear, meanFrom) == image
    ensures Compose(meanFrom, meanTo, c, rot) == Similarity(linear, Sub(meanTo, image))
  {}

  lemma ApplyFromParts(t: Similarity, p: Vec2, image: Vec2)
    requires MulVec(t.linear, p) == image
    ensures Apply(t, p) == Add(image, t.translation)
  {}

  lemma ScenarioScaledAsWritten()
    ensures ScaleMat(2.0, Mat2(0.0, 1.0, -1.0, 0.0)) == Mat2(0.0, 2.0, -2.0, 0.0)
  {}

  lemma ScenarioScaledCorrected()
    ensures ScaleMat(2.0, Mat2(0.0, -1.0, 1.0, 0.0)) == Mat2(0.0, -2.0, 2.0, 0.0)
  {}

  lemma ScenarioImagesAsWritten()
    ensures MulVec(Mat2(0.0, 2.0, -2.0, 0.0), Vec2(0.5, 0.0)) == Vec2(0.0, -1.0)
    ensures MulVec(Mat2(0.0, 2.0, -2.0, 0.0), Vec2(0.0, 0.0)) == Vec2(0.0, 0.0)
    ensures MulVec(Mat2(0.0, 2.0, -2.0, 0.0), Vec2(1.0, 0.0)) == Vec2(0.0, -2.0)
  {}

  lemma ScenarioImagesCorrected()
    ensures MulVec(Mat2(0.0, -2.0, 2.0, 0.0), Vec2(0.5, 0.0)) == Vec2(0.0, 1.0)
    ensures MulVec(Mat2(0.0, -2.0, 2.0, 0.0), Vec2(0.0, 0.0)) == Vec2(0.0, 0.0)
    ensures MulVec(Mat2(0.0, -2.0, 2.0, 0.0), Vec2(1.0, 0.0)) == Vec2(0.0, 2.0)
  {}

  lemma ScenarioTransformAsWritten(svdOf: Mat2 -> Svd)
    requires svdOf(ScenarioCovariance) == ScenarioSvd
    ensures EstimateSimilarityTransformAsWritten(ScenarioFrom, ScenarioTo, svdOf)
         == Similarity(Mat2(0.0, 2.0, -2.0, 0.0), Vec2(0.0, 2.0))
  {
    ScenarioEstimates(svdOf);
    ScenarioRotationAsWritten();
    ScenarioScaledAsWritten();
    ScenarioImagesAsWritten();
    ComposeFromParts(Vec2(0.5, 0.0), Vec2(0.0, 1.0), 2.0, Mat2(0.0, 1.0, -1.0, 0.0),
                     Mat2(0.0, 2.0, -2.0, 0.0), Vec2(0.0, -1.0));
  }

  lemma ScenarioTransformCorrected(svdOf: Mat2 -> Svd)
    requires svdOf(ScenarioCovariance) == ScenarioSvd
    ensures EstimateSimilarityTransform(ScenarioFrom, ScenarioTo, svdOf)
         == Similarity(Mat2(0.0, -2.0, 2.0, 0.0), Vec2(0.0, 0.0))
  {
    ScenarioEstimates(svdOf);
    ScenarioRotation();
    ScenarioScaledCorrected();
    ScenarioImagesCorrected();
    ComposeFromParts(Vec2(0.5, 0.0), Vec2(0.0, 1.0), 2.0, Mat2(0.0, -1.0, 1.0, 0.0),
                     Mat2(0.0, -2.0, 2.0, 0.0), Vec2(0.0, 1.0));
  }

  /** As written, a valid decomposition can make the transform send the scenario's first
      landmark onto the second target and the second onto the first. */
  lemma AsWrittenSwapsScenario(svdOf: Mat2 -> Svd)
    requires svdOf(ScenarioCovariance) == ScenarioSvd
    ensures IsSvd(Covariance(ScenarioFrom, ScenarioTo), svdOf(Covariance(ScenarioFrom, ScenarioTo)))
    ensures Apply(EstimateSimilarityTransformAsWritten(ScenarioFrom, ScenarioTo, svdOf), ScenarioFrom[0]) == ScenarioTo[1]
    ensures Apply(EstimateSimilarityTransformAsWritten(ScenarioFrom, ScenarioTo, svdOf), ScenarioFrom[1]) == ScenarioTo[0]
  {
    ScenarioCovarianceValue();
    ScenarioDecomposition();
    ScenarioTransformAsWritten(svdOf);
    ScenarioImagesAsWritten();
    ApplyFromParts(Similarity(Mat2(0.0, 2.0, -2.0, 0.0), Vec2(0.0, 2.0)), Vec2(0.0, 0.0), Vec2(0.0, 0.0));
    ApplyFromParts(Similarity(Mat2(0.0, 2.0, -2.0, 0.0), Vec2(0.0, 2.0)), Vec2(1.0, 0.0), Vec2(0.0, -2.0));
  }

  /** With the rotation V s U^T the same decomposition recovers the scenario exactly. */
  lemma CorrectedRecoversScenario(svdOf: Mat2 -> Svd)
    requires svdOf(ScenarioCovariance) == ScenarioSvd
    ensures Apply(EstimateSimilarityTransform(ScenarioFrom, ScenarioTo, svdOf), ScenarioFrom[0]) == ScenarioTo[0]
    ensures Apply(EstimateSimilarityTransform(ScenarioFrom, ScenarioTo, svdOf), ScenarioFrom[1]) == ScenarioTo[1]
  {
    ScenarioTransformCorrected(svdOf);
    ScenarioImagesCorrected();
    ApplyFromParts(Similarity(Mat2(0.0, -2.0, 2.0, 0.0), Vec2(0.0, 0.0)), Vec2(0.0, 0.0), Vec2(0.0, 0.0));
    ApplyFromParts(Similarity(Mat2(0.0, -2.0, 2.0, 0.0), Vec2(0.0, 0.0)), Vec2(1.0, 0.0), Vec2(0.0, 2.0));
  }

  // ---------------------------------------------------------------- two reflection factors

  /** A covariance whose decomposition has two reflection factors. */
  const ReflectedCovariance: Mat2 := Mat2(0.0, 2.0, -1.0, 0.0)

  /** U = diag(1, -1) and V = [[0, 1], [1, 0]], both with determinant -1. */
  const ReflectedSvd: Svd := Svd(Diag(1.0, -1.0), Mat2(0.0, 1.0, 1.0, 0.0), 2.0, 1.0)

  lemma ReflectedDecomposition()
    ensures IsSvd(ReflectedCovariance, ReflectedSvd)
  {
    assert Mul(Transpose(Diag(1.0, -1.0)), Diag(1.0, -1.0)) == Identity;
    assert Mul(Transpose(Mat2(0.0, 1.0, 1.0, 0.0)), Mat2(0.0, 1.0, 1.0, 0.0)) == Identity;
    assert Mul(Diag(1.0, -1.0), Diag(2.0, 1.0)) == Diag(2.0, -1.0);
    assert Mul(Diag(2.0, -1.0), Transpose(Mat2(0.0, 1.0, 1.0, 0.0))) == ReflectedCovariance;
  }

  lemma ReflectedProducts()
    ensures Mul(Transpose(Diag(1.0, -1.0)), Mat2(0.0, 1.0, 1.0, 0.0)) == Mat2(0.0, 1.0, -1.0, 0.0)
    ensures Mul(Mat2(0.0, 1.0, 1.0, 0.0), Transpose(Diag(1.0, -1.0))) == Mat2(0.0, -1.0, 1.0, 0.0)
  {}

  /** The two rotations for any covariance with determinant 2 decomposed with these factors. */
  lemma ReflectedFactorRotations(cov: Mat2, d: Svd)
    requires d.u == Diag(1.0, -1.0) && d.v == Mat2(0.0, 1.0, 1.0, 0.0) && Det(cov) == 2.0
    ensures RotationAsWritten(cov, d) == Mat2(0.0, 1.0, -1.0, 0.0)
    ensures Rotation(cov, d) == Mat2(0.0, -1.0, 1.0, 0.0)
  {
    assert Det(d.u) * Det(d.v) == 1.0;
    SignFromDeterminants(cov, d, 2.0, 1.0);
    MulIdentity(Transpose(d.u));
    MulIdentity(d.v);
    ReflectedProducts();
  }

  lemma ReflectedRotations()
    ensures RotationAsWritten(ReflectedCovariance, ReflectedSvd) == Mat2(0.0, 1.0, -1.0, 0.0)
    ensures Rotation(ReflectedCovariance, ReflectedSvd) == Mat2(0.0, -1.0, 1.0, 0.0)
  {
    ReflectedFactorRotations(ReflectedCovariance, ReflectedSvd);
  }

  lemma ReflectedFactors()
    ensures Det(ReflectedSvd.u) == -1.0 && Det(ReflectedSvd.v) == -1.0
    ensures !NeedsReflectionFix(Det(ReflectedCovariance), Det(ReflectedSvd.u) * Det(ReflectedSvd.v))
  {
    assert Det(ReflectedCovariance) == 2.0;
  }

  lemma InverseQuarterTurns()
    ensures Mul(Mat2(0.0, 1.0, -1.0, 0.0), Mat2(0.0, -1.0, 1.0, 0.0)) == Identity
  {}

  lemma ReflectedAlignments()
    ensures Trace(Mul(Mat2(0.0, 1.0, -1.0, 0.0), ReflectedCovariance)) == -3.0
    ensures Trace(Mul(Mat2(0.0, -1.0, 1.0, 0.0), ReflectedCovariance)) == 3.0
  {}

  /** When U and V are both reflections the reflection test does not fire, yet the rotation as
      written is the inverse of V s U^T and gives the worst alignment, -(sv0 + sv1), where
      V s U^T gives the best, sv0 + sv1. */
  lemma BothReflectionsDisagree()
    ensures IsSvd(ReflectedCovariance, ReflectedSvd)
    ensures Det(ReflectedSvd.u) == -1.0 && Det(ReflectedSvd.v) == -1.0
    ensures !NeedsReflectionFix(Det(ReflectedCovariance), Det(ReflectedSvd.u) * Det(ReflectedSvd.v))
    ensures RotationAsWritten(ReflectedCovariance, ReflectedSvd) != Rotation(ReflectedCovariance, ReflectedSvd)
    ensures Mul(RotationAsWritten(ReflectedCovariance, ReflectedSvd), Rotation(ReflectedCovariance, ReflectedSvd)) == Identity
    ensures Trace(Mul(RotationAsWritten(ReflectedCovariance, ReflectedSvd), ReflectedCovariance))
         == -(ReflectedSvd.sv0 + ReflectedSvd.sv1)
    ensures Trace(Mul(Rotation(ReflectedCovariance, ReflectedSvd), ReflectedCovariance))
         == ReflectedSvd.sv0 + ReflectedSvd.sv1
  {
    ReflectedDecomposition();
    ReflectedFactors();
    ReflectedRotations();
    InverseQuarterTurns();
    ReflectedAlignments();
  }
}
