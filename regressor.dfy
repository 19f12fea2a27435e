/** One stage of the cascade (src/core/regressor.cpp): forward-stagewise boosting of regression
    trees on shape-indexed pixel intensities. A residual is a 2 x numLandmarks matrix, kept as a
    sequence of columns; a tree is known only through its prediction, a function from the
    intensities read at the stage's pixel coordinates to a residual. */
module Regression {
  import opened Linalg
  import opened Shape

  type Residual = seq<Vec2>
  type Intensities = seq<real>
  type Tree = Intensities -> Residual

  // ---------------------------------------------------------------- residual arithmetic

  function ZeroR(n: nat): (r: Residual)
    ensures |r| == n
  {
    seq(n, i => Zero)
  }

  function AddR(a: Residual, b: Residual): (r: Residual)
    requires |a| == |b|
    ensures |r| == |a|
  {
    seq(|a|, i requires 0 <= i < |a| => Add(a[i], b[i]))
  }

  function SubR(a: Residual, b: Residual): (r: Residual)
    requires |a| == |b|
    ensures |r| == |a|
  {
    seq(|a|, i requires 0 <= i < |a| => Sub(a[i], b[i]))
  }

  function ScaleR(k: real, a: Residual): (r: Residual)
    ensures |r| == |a|
  {
    seq(|a|, i requires 0 <= i < |a| => Scale(k, a[i]))
  }

  /** Eigen's m /= d, entry by entry. */
  function DivR(a: Residual, d: real): (r: Residual)
    requires d != 0.0
    ensures |r| == |a|
  {
    seq(|a|, i requires 0 <= i < |a| => Vec2(a[i].x / d, a[i].y / d))
  }

  /** Every residual in rs has n columns. */
  predicate AllSized(rs: seq<Residual>, n: nat) {
    forall i :: 0 <= i < |rs| ==> |rs[i]| == n
  }

  /** Left-to-right sum of residuals of n columns, starting from the zero matrix. */
  function SumR(rs: seq<Residual>, n: nat): (r: Residual)
    requires AllSized(rs, n)
    ensures |r| == n
    decreases |rs|
  {
    if |rs| == 0 then ZeroR(n) else AddR(SumR(rs[..|rs| - 1], n), rs[|rs| - 1])
  }

  /** Column c of every residual in rs. */
  function Column(rs: seq<Residual>, c: nat): (r: seq<Vec2>)
    requires forall i :: 0 <= i < |rs| ==> c < |rs[i]|
    ensures |r| == |rs|
  {
    seq(|rs|, i requires 0 <= i < |rs| => rs[i][c])
  }

  /** The average of the residuals: the sum divided by their count. */
  function MeanResidual(rs: seq<Residual>, n: nat): (r: Residual)
    requires |rs| > 0 && AllSized(rs, n)
    ensures |r| == n
  {
    DivR(SumR(rs, n), |rs| as real)
  }

  // ---------------------------------------------------------------- the ensemble

  /** Every tree predicts residuals of n columns. */
  ghost predicate TreesShaped(ts: seq<Tree>, n: nat) {
    forall j, x :: 0 <= j < |ts| ==> |ts[j](x)| == n
  }

  /** predict: the base residual plus learningRate times each tree's output, added in tree order. */
  function Ensemble(base: Residual, lr: real, ts: seq<Tree>, x: Intensities): (r: Residual)
    requires TreesShaped(ts, |base|)
    ensures |r| == |base|
    decreases |ts|
  {
    if |ts| == 0 then base
    else AddR(Ensemble(base, lr, ts[..|ts| - 1], x), ScaleR(lr, ts[|ts| - 1](x)))
  }

  /** The working residual of fit: the target less the base residual, then less learningRate
      times each tree's output, subtracted in tree order. */
  function Working(target: Residual, base: Residual, lr: real, ts: seq<Tree>, x: Intensities): (r: Residual)
    requires |target| == |base| && TreesShaped(ts, |base|)
    ensures |r| == |base|
    decreases |ts|
  {
    if |ts| == 0 then SubR(target, base)
    else SubR(Working(target, base, lr, ts[..|ts| - 1], x), ScaleR(lr, ts[|ts| - 1](x)))
  }

  /** Sum of the trees' outputs, in tree order. */
  function SumTrees(ts: seq<Tree>, x: Intensities, n: nat): (r: Residual)
    requires TreesShaped(ts, n)
    ensures |r| == n
    decreases |ts|
  {
    if |ts| == 0 then ZeroR(n) else AddR(SumTrees(ts[..|ts| - 1], x, n), ts[|ts| - 1](x))
  }

  /** The residual each tree is fitted to is the target less the prediction of the trees before it:
      working + partial ensemble = target. */
  lemma {:induction false} PartialEnsemble(target: Residual, base: Residual, lr: real, ts: seq<Tree>, x: Intensities)
    requires |target| == |base| && TreesShaped(ts, |base|)
    ensures AddR(Working(target, base, lr, ts, x), Ensemble(base, lr, ts, x)) == target
    decreases |ts|
  {
    if |ts| > 0 {
      var k := |ts| - 1;
      PartialEnsemble(target, base, lr, ts[..k], x);
      var w, e, d := Working(target, base, lr, ts[..k], x), Ensemble(base, lr, ts[..k], x), ScaleR(lr, ts[k](x));
      forall c | 0 <= c < |target|
        ensures AddR(SubR(w, d), AddR(e, d))[c] == target[c]
      {
        assert Add(w[c], e[c]) == target[c];
      }
    }
  }

  /** predict's closed form: meanResidual + learningRate * (sum of the trees' outputs). */
  lemma {:induction false} EnsembleClosedForm(base: Residual, lr: real, ts: seq<Tree>, x: Intensities)
    requires TreesShaped(ts, |base|)
    ensures Ensemble(base, lr, ts, x) == AddR(base, ScaleR(lr, SumTrees(ts, x, |base|)))
    decreases |ts|
  {
    if |ts| == 0 {
      forall c | 0 <= c < |base|
        ensures AddR(base, ScaleR(lr, ZeroR(|base|)))[c] == base[c]
      {
        ScaleZero(lr);
      }
    } else {
      var k := |ts| - 1;
      EnsembleClosedForm(base, lr, ts[..k], x);
      var s, t := SumTrees(ts[..k], x, |base|), ts[k](x);
      forall c | 0 <= c < |base|
        ensures AddR(AddR(base, ScaleR(lr, s)), ScaleR(lr, t))[c] == AddR(base, ScaleR(lr, AddR(s, t)))[c]
      {
        ScaleDistributes(lr, s[c], t[c]);
      }
    }
  }

  /** The working residual's closed form: target - meanResidual - learningRate * (sum of the trees' outputs). */
  lemma WorkingClosedForm(target: Residual, base: Residual, lr: real, ts: seq<Tree>, x: Intensities)
    requires |target| == |base| && TreesShaped(ts, |base|)
    ensures Working(target, base, lr, ts, x) == SubR(SubR(target, base), ScaleR(lr, SumTrees(ts, x, |base|)))
  {
    PartialEnsemble(target, base, lr, ts, x);
    EnsembleClosedForm(base, lr, ts, x);
    var w := Working(target, base, lr, ts, x);
    var s := ScaleR(lr, SumTrees(ts, x, |base|));
    forall c | 0 <= c < |base|
      ensures w[c] == SubR(SubR(target, base), s)[c]
    {
      assert Add(w[c], Add(base[c], s[c])) == target[c];
    }
  }

  lemma ScaleZero(k: real)
    ensures Scale(k, Zero) == Zero
  {}

  lemma ScaleDistributes(k: real, a: Vec2, b: Vec2)
    ensures Add(Scale(k, a), Scale(k, b)) == Scale(k, Add(a, b))
  {
    assert k * a.x + k * b.x == k * (a.x + b.x);
    assert k * a.y + k * b.y == k * (a.y + b.y);
  }

  // ---------------------------------------------------------------- the mean residual

  /** Column c of a sum of residuals is the sum of their columns c. */
  lemma {:induction false} SumRColumn(rs: seq<Residual>, n: nat, c: nat)
    requires AllSized(rs, n) && c < n
    ensures SumR(rs, n)[c] == Sum(Column(rs, c))
    decreases |rs|
  {
    if |rs| > 0 {
      var k := |rs| - 1;
      SumRColumn(rs[..k], n, c);
      assert Column(rs[..k], c) == Column(rs, c)[..k];
    }
  }

  /** Column c of the mean residual is the mean of the columns c. */
  lemma MeanResidualColumn(rs: seq<Residual>, n: nat, c: nat)
    requires |rs| > 0 && AllSized(rs, n) && c < n
    ensures MeanResidual(rs, n)[c] == Mean(Column(rs, c))
  {
    SumRColumn(rs, n, c);
  }

  /** Each residual less the mean residual. */
  function CentredResiduals(rs: seq<Residual>, n: nat): (r: seq<Residual>)
    requires |rs| > 0 && AllSized(rs, n)
    ensures |r| == |rs| && AllSized(r, n)
  {
    seq(|rs|, i requires 0 <= i < |rs| => SubR(rs[i], MeanResidual(rs, n)))
  }

  /** After the first adjustment of fit the working residuals of all samples sum to the zero matrix. */
  lemma CentredResidualsSumToZero(rs: seq<Residual>, n: nat)
    requires |rs| > 0 && AllSized(rs, n)
    ensures SumR(CentredResiduals(rs, n), n) == ZeroR(n)
  {
    var cr := CentredResiduals(rs, n);
    forall c | 0 <= c < n
      ensures SumR(cr, n)[c] == Zero
    {
      SumRColumn(cr, n, c);
      MeanResidualColumn(rs, n, c);
      assert Column(cr, c) == Centered(Column(rs, c), Mean(Column(rs, c)));
      CenteredOnMeanSumsToZero(Column(rs, c));
    }
  }

  // ---------------------------------------------------------------- pixel coordinates

  /** Re-projection of the stage's pixel coordinates into a shape: each stored offset mapped
      through the linear part of a transform, anchored at its landmark in s. */
  function Locations(linear: Mat2, rel: seq<Vec2>, closest: seq<int>, s: seq<Vec2>): (r: seq<Vec2>)
    requires |closest| == |rel| && forall i :: 0 <= i < |closest| ==> 0 <= closest[i] < |s|
    ensures |r| == |rel|
  {
    seq(|rel|, i requires 0 <= i < |rel| => Add(MulVec(linear, rel[i]), s[closest[i]]))
  }

  /** Every point of ps moved by t. */
  function Transformed(t: Similarity, ps: seq<Vec2>): (r: seq<Vec2>)
    ensures |r| == |ps|
  {
    seq(|ps|, i requires 0 <= i < |ps| => Apply(t, ps[i]))
  }

  /** Re-projecting with the identity into the shape the coordinates were encoded against gives
      back the sampled coordinates. */
  lemma LocationsInvertEncoding(s: seq<Vec2>, abs: seq<Vec2>, rel: seq<Vec2>, closest: seq<int>)
    requires Encodes(s, abs, rel, closest)
    ensures Locations(Identity, rel, closest, s) == abs
  {
    forall i | 0 <= i < |abs|
      ensures Locations(Identity, rel, closest, s)[i] == abs[i]
    {
      MulVecIdentity(rel[i]);
    }
  }

  /** Shape-indexed coordinates move with the shape: when s is the reference shape moved by a
      similarity t, re-projecting through t's linear part lands on the sampled coordinates moved by t. */
  lemma LocationsFollowShape(reference: seq<Vec2>, abs: seq<Vec2>, rel: seq<Vec2>, closest: seq<int>, t: Similarity)
    requires Encodes(reference, abs, rel, closest)
    ensures Locations(t.linear, rel, closest, Transformed(t, reference)) == Transformed(t, abs)
  {
    var s := Transformed(t, reference);
    forall i | 0 <= i < |abs|
      ensures Locations(t.linear, rel, closest, s)[i] == Apply(t, abs[i])
    {
      MulVecDistributes(t.linear, rel[i], reference[closest[i]]);
    }
  }

  // ---------------------------------------------------------------- coordinate sampling

  function Xs(s: seq<Vec2>): (r: seq<real>)
    ensures |r| == |s|
  {
    seq(|s|, i requires 0 <= i < |s| => s[i].x)
  }

  function Ys(s: seq<Vec2>): (r: seq<real>)
    ensures |r| == |s|
  {
    seq(|s|, i requires 0 <= i < |s| => s[i].y)
  }

  /** Eigen's minCoeff: the smallest entry. */
  function MinOf(v: seq<real>): (r: real)
    requires |v| > 0
    ensures forall i :: 0 <= i < |v| ==> r <= v[i]
    ensures exists i :: 0 <= i < |v| && v[i] == r
    decreases |v|
  {
    if |v| == 1 then v[0]
    else
      var m := MinOf(v[..|v| - 1]);
      assert forall i :: 0 <= i < |v| - 1 ==> v[..|v| - 1][i] == v[i];
      if v[|v| - 1] < m then v[|v| - 1] else m
  }

  /** Eigen's maxCoeff: the largest entry. */
  function MaxOf(v: seq<real>): (r: real)
    requires |v| > 0
    ensures forall i :: 0 <= i < |v| ==> v[i] <= r
    ensures exists i :: 0 <= i < |v| && v[i] == r
    decreases |v|
  {
    if |v| == 1 then v[0]
    else
      var m := MaxOf(v[..|v| - 1]);
      assert forall i :: 0 <= i < |v| - 1 ==> v[..|v| - 1][i] == v[i];
      if m < v[|v| - 1] then v[|v| - 1] else m
  }

  /** The generator's canonical draws: two per coordinate, each in [0, 1). */
  predicate UnitDraws(draws: seq<real>, numCoords: nat) {
    && |draws| >= 2 * numCoords
    && forall i :: 0 <= i < |draws| ==> 0.0 <= draws[i] < 1.0
  }

  /** The coordinates sampleCoordinates draws: x offset from the smallest x of the mean shape by
      u * (maxX - minX), y offset from the LARGEST y by u * (maxY - minY); draw 2i is coordinate
      i's x, draw 2i + 1 its y. */
  function Sampled(meanShape: seq<Vec2>, numCoords: nat, draws: seq<real>): (r: seq<Vec2>)
    requires |meanShape| > 0 && |draws| >= 2 * numCoords
    ensures |r| == numCoords
  {
    var minX, maxX := MinOf(Xs(meanShape)), MaxOf(Xs(meanShape));
    var minY, maxY := MinOf(Ys(meanShape)), MaxOf(Ys(meanShape));
    seq(numCoords, i requires 0 <= i < numCoords =>
      Vec2(Draw(minX, minX, maxX, draws[2 * i]), Draw(maxY, minY, maxY, draws[2 * i + 1])))
  }

  /** A value drawn uniformly from [0, hi - lo) by scaling a canonical draw u, added to start. */
  function Draw(start: real, lo: real, hi: real, u: real): real {
    start + (hi - lo) * u
  }

  lemma DrawBounds(start: real, lo: real, hi: real, u: real)
    requires lo <= hi && 0.0 <= u < 1.0
    ensures start <= Draw(start, lo, hi, u) <= start + (hi - lo)
    ensures lo < hi ==> Draw(start, lo, hi, u) < start + (hi - lo)
  {
    var range := hi - lo;
    assert range - range * u == range * (1.0 - u);
    SignedProduct(range, u);
    SignedProduct(range, 1.0 - u);
  }

  lemma SignedProduct(a: real, b: real)
    requires a >= 0.0 && b >= 0.0
    ensures a * b >= 0.0
    ensures a > 0.0 && b > 0.0 ==> a * b > 0.0
  {}

  /** Where a sampled coordinate lies: x inside the mean shape's horizontal extent [minX, maxX)
      (exactly minX when that extent is empty), y at or beyond the largest y of every landmark and
      below maxY + (maxY - minY) when the vertical extent is not empty. */
  lemma SampleBounds(meanShape: seq<Vec2>, numCoords: nat, draws: seq<real>, i: nat)
    requires |meanShape| > 0 && UnitDraws(draws, numCoords) && i < numCoords
    ensures var p, minX, maxX := Sampled(meanShape, numCoords, draws)[i], MinOf(Xs(meanShape)), MaxOf(Xs(meanShape));
      && minX <= p.x <= maxX
      && (minX < maxX ==> p.x < maxX)
      && (minX == maxX ==> p.x == minX)
    ensures var p, minY, maxY := Sampled(meanShape, numCoords, draws)[i], MinOf(Ys(meanShape)), MaxOf(Ys(meanShape));
      && (forall j :: 0 <= j < |meanShape| ==> meanShape[j].y <= p.y)
      && (minY < maxY ==> p.y < maxY + (maxY - minY))
  {
    var xs, ys := Xs(meanShape), Ys(meanShape);
    var minX, maxX, minY, maxY := MinOf(xs), MaxOf(xs), MinOf(ys), MaxOf(ys);
    var p := Sampled(meanShape, numCoords, draws)[i];
    assert minX <= xs[0] <= maxX && minY <= ys[0] <= maxY;
    DrawBounds(minX, minX, maxX, draws[2 * i]);
    DrawBounds(maxY, minY, maxY, draws[2 * i + 1]);
    forall j | 0 <= j < |meanShape|
      ensures meanShape[j].y <= p.y
    {
      assert ys[j] <= maxY;
    }
  }

  // ---------------------------------------------------------------- training data

  /** One training sample of the stage: which ground-truth shape and image it belongs to, and the
      cascade's current estimate of its shape. */
  datatype Sample = Sample(idx: nat, estimate: seq<Vec2>)

  /** What a tree is fitted to: a sample's working residual and its intensities. */
  datatype TreeSample = TreeSample(residual: Residual, intensities: Intensities)

  datatype TrainingParams = TrainingParams(numTrees: nat, learningRate: real, numRandomPixelCoordinates: nat)

  /** Every sample names a ground-truth shape and an image, and its shapes have numLandmarks columns. */
  predicate WellFormedBatch<Image>(samples: seq<Sample>, shapes: seq<seq<Vec2>>, images: seq<Image>, numLandmarks: nat) {
    forall i :: 0 <= i < |samples| ==>
      && samples[i].idx < |shapes| && samples[i].idx < |images|
      && |shapes[samples[i].idx]| == numLandmarks && |samples[i].estimate| == numLandmarks
  }

  /** Each sample's target: ground truth less the current estimate. */
  function Targets<Image>(samples: seq<Sample>, shapes: seq<seq<Vec2>>, images: seq<Image>, numLandmarks: nat): (r: seq<Residual>)
    requires WellFormedBatch(samples, shapes, images, numLandmarks)
    ensures |r| == |samples| && AllSized(r, numLandmarks)
  {
    seq(|samples|, i requires 0 <= i < |samples| => SubR(shapes[samples[i].idx], samples[i].estimate))
  }

  /** The intensities predict reads for an image and a shape estimate: the stage's coordinates
      re-projected through the similarity that aligns the mean shape with the estimate. */
  function ShapeIndexedIntensities<Image>(rel: seq<Vec2>, closest: seq<int>, meanShape: seq<Vec2>, shape: seq<Vec2>,
                                          img: Image, readImage: (Image, seq<Vec2>) -> Intensities, svdOf: Mat2 -> Svd): Intensities
    requires |closest| == |rel| && forall i :: 0 <= i < |closest| ==> 0 <= closest[i] < |meanShape|
    requires |shape| == |meanShape| > 0
  {
    readImage(img, Locations(EstimateSimilarityTransform(meanShape, shape, svdOf).linear, rel, closest, shape))
  }

  /** The intensities of every training sample, read from its own image at its own estimate. */
  function BatchIntensities<Image>(samples: seq<Sample>, shapes: seq<seq<Vec2>>, images: seq<Image>, rel: seq<Vec2>, closest: seq<int>,
                                   meanShape: seq<Vec2>, readImage: (Image, seq<Vec2>) -> Intensities, svdOf: Mat2 -> Svd): (r: seq<Intensities>)
    requires |meanShape| > 0 && WellFormedBatch(samples, shapes, images, |meanShape|)
    requires |closest| == |rel| && forall i :: 0 <= i < |closest| ==> 0 <= closest[i] < |meanShape|
    ensures |r| == |samples|
  {
    seq(|samples|, i requires 0 <= i < |samples| =>
      ShapeIndexedIntensities(rel, closest, meanShape, samples[i].estimate, images[samples[i].idx], readImage, svdOf))
  }

  /** The batch tree k is fitted to, given the trees before it. */
  function WorkingBatch(targets: seq<Residual>, base: Residual, lr: real, ts: seq<Tree>, xs: seq<Intensities>): (r: seq<TreeSample>)
    requires |xs| == |targets| && AllSized(targets, |base|) && TreesShaped(ts, |base|)
    ensures |r| == |targets|
  {
    seq(|targets|, i requires 0 <= i < |targets| => TreeSample(Working(targets[i], base, lr, ts, xs[i]), xs[i]))
  }

  /** The working residuals of a batch. */
  function BatchResiduals(batch: seq<TreeSample>): (r: seq<Residual>)
    ensures |r| == |batch|
  {
    seq(|batch|, i requires 0 <= i < |batch| => batch[i].residual)
  }

  /** Tree 0 is fitted to residuals that sum to the zero matrix: the targets centred on their mean. */
  lemma FirstBatchIsCentred(targets: seq<Residual>, n: nat, lr: real, xs: seq<Intensities>)
    requires |targets| > 0 && AllSized(targets, n) && |xs| == |targets|
    ensures var rs := BatchResiduals(WorkingBatch(targets, MeanResidual(targets, n), lr, [], xs));
      AllSized(rs, n) && SumR(rs, n) == ZeroR(n)
  {
    var rs := BatchResiduals(WorkingBatch(targets, MeanResidual(targets, n), lr, [], xs));
    assert rs == CentredResiduals(targets, n);
    CentredResidualsSumToZero(targets, n);
  }

  /** Every tree the learner can produce predicts residuals of n columns. */
  ghost predicate LearnerShaped(learner: (nat, seq<Vec2>, seq<TreeSample>) -> Tree, n: nat) {
    forall k, pc, ss, x :: |learner(k, pc, ss)(x)| == n
  }

  /** A tree that has not been fitted or loaded (a default-constructed Tree). */
  const Untrained: Tree := (x: Intensities) => []

  /** std::vector::resize on a tree list: the first n trees are kept, missing ones are untrained. */
  function Resized(ts: seq<Tree>, n: nat): (r: seq<Tree>)
    ensures |r| == n
    ensures forall i :: 0 <= i < n && i < |ts| ==> r[i] == ts[i]
    ensures forall i :: |ts| <= i < n ==> r[i] == Untrained
  {
    if n <= |ts| then ts[..n] else ts + seq(n - |ts|, _ => Untrained)
  }

  /** The persisted form of a regressor: its fields in the order they are written, trees as records. */
  datatype RegressorRecord<T> = RegressorRecord(closestLandmarks: seq<int>, pixelCoordinates: seq<Vec2>,
                                                meanShapeResidual: Residual, meanShape: seq<Vec2>,
                                                forest: seq<T>, learningRate: real)

  /** f applied to every element, in order: saving maps the trees to records, loading maps back. */
  function MapSeq<A, B>(s: seq<A>, f: A -> B): (r: seq<B>)
    ensures |r| == |s| && forall i :: 0 <= i < |s| ==> r[i] == f(s[i])
  {
    seq(|s|, i requires 0 <= i < |s| => f(s[i]))
  }

  /** Saving and loading keep the number and the order of the trees, tree i coming back from record i. */
  lemma ForestRoundTrip<T>(ts: seq<Tree>, saveTree: Tree -> T, loadTree: T -> Tree)
    requires forall t :: loadTree(saveTree(t)) == t
    ensures MapSeq(MapSeq(ts, saveTree), loadTree) == ts
  {
    forall i | 0 <= i < |ts|
      ensures MapSeq(MapSeq(ts, saveTree), loadTree)[i] == ts[i]
    {
      assert MapSeq(ts, saveTree)[i] == saveTree(ts[i]);
    }
  }

  // ---------------------------------------------------------------- the regressor

  class Regressor {
    var relativeCoordinates: seq<Vec2>
    var closestLandmarks: seq<int>
    var meanResidual: Residual
    var meanShape: seq<Vec2>
    var trees: seq<Tree>
    var learningRate: real

    /** Every stored coordinate has a landmark of the mean shape to hang on. */
    ghost predicate Valid()
      reads this
    {
      && |closestLandmarks| == |relativeCoordinates|
      && forall i :: 0 <= i < |closestLandmarks| ==> 0 <= closestLandmarks[i] < |meanShape|
    }

    /** An empty regressor; the source leaves learningRate indeterminate, here it is 0. */
    constructor ()
      ensures relativeCoordinates == [] && closestLandmarks == [] && meanResidual == [] && meanShape == []
      ensures trees == [] && learningRate == 0.0
      ensures Valid()
    {
      relativeCoordinates, closestLandmarks, meanResidual, meanShape := [], [], [], [];
      trees, learningRate := [], 0.0;
    }

    /** Draws the stage's pixel coordinates from the generator's canonical draws. */
    method SampleCoordinates(meanShape': seq<Vec2>, numCoords: nat, draws: seq<real>) returns (result: seq<Vec2>)
      requires |meanShape'| > 0 && |draws| >= 2 * numCoords
      ensures result == Sampled(meanShape', numCoords, draws)
    {
      var minX, maxX := MinOf(Xs(meanShape')), MaxOf(Xs(meanShape'));
      var minY, maxY := MinOf(Ys(meanShape')), MaxOf(Ys(meanShape'));
      result := [];
      for i := 0 to numCoords
        invariant result == Sampled(meanShape', numCoords, draws)[..i]
      {
        result := result + [Vec2(Draw(minX, minX, maxX, draws[2 * i]), Draw(maxY, minY, maxY, draws[2 * i + 1]))];
      }
    }

    /** Re-projects the stage's coordinates into shape s through the linear part of t and reads
        the image there. */
    method ReadPixelIntensities<Image>(t: Similarity, s: seq<Vec2>, img: Image, readImage: (Image, seq<Vec2>) -> Intensities)
      returns (intensities: Intensities)
      requires Valid() && |s| == |meanShape|
      ensures intensities == readImage(img, Locations(t.linear, relativeCoordinates, closestLandmarks, s))
    {
      var rel, closest := relativeCoordinates, closestLandmarks;
      var coords := seq(|rel|, i requires 0 <= i < |rel| => MulVec(t.linear, rel[i]));
      for i := 0 to |rel|
        invariant |coords| == |rel|
        invariant forall j :: 0 <= j < i ==> coords[j] == Locations(t.linear, rel, closest, s)[j]
        invariant forall j :: i <= j < |coords| ==> coords[j] == MulVec(t.linear, rel[j])
      {
        coords := coords[i := Add(coords[i], s[closest[i]])];
      }
      assert coords == Locations(t.linear, rel, closest, s);
      intensities := readImage(img, coords);
    }

    /** The stage's shape update for an image and the current shape estimate. */
    method Predict<Image>(img: Image, shape: seq<Vec2>, readImage: (Image, seq<Vec2>) -> Intensities, svdOf: Mat2 -> Svd)
      returns (sr: Residual)
      requires Valid() && |shape| == |meanShape| > 0 && TreesShaped(trees, |meanResidual|)
      ensures var x := ShapeIndexedIntensities(relativeCoordinates, closestLandmarks, meanShape, shape, img, readImage, svdOf);
        && sr == Ensemble(meanResidual, learningRate, trees, x)
        && sr == AddR(meanResidual, ScaleR(learningRate, SumTrees(trees, x, |meanResidual|)))
      ensures trees == [] ==> sr == meanResidual
    {
      var trans := EstimateSimilarityTransform(meanShape, shape, svdOf);
      var intensities := ReadPixelIntensities(trans, shape, img, readImage);
      sr := meanResidual;
      for i := 0 to |trees|
        invariant sr == Ensemble(meanResidual, learningRate, trees[..i], intensities)
      {
        assert trees[..i + 1][..i] == trees[..i];
        sr := AddR(sr, ScaleR(learningRate, trees[i](intensities)));
      }
      assert trees[..|trees|] == trees;
      EnsembleClosedForm(meanResidual, learningRate, trees, intensities);
    }

    /** Trains the stage: records the learning rate and the mean shape, samples and encodes the
        pixel coordinates, takes the mean target residual as the base learner, then fits tree k to
        the residuals the base and trees 0..k-1 leave. The result is always false. */
    method Fit<Image>(params: TrainingParams, meanShape': seq<Vec2>, samples: seq<Sample>, shapes: seq<seq<Vec2>>,
                      images: seq<Image>, draws: seq<real>, readImage: (Image, seq<Vec2>) -> Intensities,
                      svdOf: Mat2 -> Svd, learner: (nat, seq<Vec2>, seq<TreeSample>) -> Tree)
      returns (ok: bool)
      modifies this
      requires |meanShape'| > 0 && |samples| > 0 && WellFormedBatch(samples, shapes, images, |meanShape'|)
      requires |draws| >= 2 * params.numRandomPixelCoordinates
      requires forall i :: 0 <= i < params.numRandomPixelCoordinates ==>
        !NoneWithinSentinel(meanShape', Sampled(meanShape', params.numRandomPixelCoordinates, draws)[i])
      requires LearnerShaped(learner, |meanShape'|)
      ensures learningRate == params.learningRate && meanShape == meanShape' && |trees| == params.numTrees
      ensures Encodes(meanShape, Sampled(meanShape, params.numRandomPixelCoordinates, draws), relativeCoordinates, closestLandmarks)
      ensures meanResidual == MeanResidual(Targets(samples, shapes, images, |meanShape|), |meanShape|)
      ensures Valid() && TreesShaped(trees, |meanResidual|)
      ensures var targets := Targets(samples, shapes, images, |meanShape|);
        var xs := BatchIntensities(samples, shapes, images, relativeCoordinates, closestLandmarks, meanShape, readImage, svdOf);
        forall k :: 0 <= k < |trees| ==>
          trees[k] == learner(k, Sampled(meanShape, params.numRandomPixelCoordinates, draws),
                              WorkingBatch(targets, meanResidual, learningRate, trees[..k], xs))
      ensures !ok
    {
      learningRate := params.learningRate;
      trees := Resized(trees, params.numTrees);
      meanShape := meanShape';
      var n := |meanShape'|;

      var pixelCoordinates := SampleCoordinates(meanShape', params.numRandomPixelCoordinates, draws);
      var rel, closest := ShapeRelativePixelCoordinates(meanShape', pixelCoordinates);
      relativeCoordinates, closestLandmarks := rel, closest;

      assert Encodes(meanShape, Sampled(meanShape, params.numRandomPixelCoordinates, draws), relativeCoordinates, closestLandmarks);
      assert Valid();
      // targets and intensities of every sample; the targets are summed into meanResidual
      var residuals, intensities, sum := ReadTrainingBatch(samples, shapes, images, readImage, svdOf);
      meanResidual := DivR(sum, |samples| as real);

      // boosting: adjust every working residual, then fit the next tree to them
      Boost(params.numTrees, pixelCoordinates, residuals, intensities, learner);
      ok := false;
    }

    /** The first pass of fit over the samples: each target residual (ground truth less estimate),
        their running sum, and each sample's intensities. */
    method ReadTrainingBatch<Image>(samples: seq<Sample>, shapes: seq<seq<Vec2>>, images: seq<Image>,
                                    readImage: (Image, seq<Vec2>) -> Intensities, svdOf: Mat2 -> Svd)
      returns (residuals: seq<Residual>, intensities: seq<Intensities>, sum: Residual)
      requires Valid() && |meanShape| > 0 && WellFormedBatch(samples, shapes, images, |meanShape|)
      ensures residuals == Targets(samples, shapes, images, |meanShape|)
      ensures intensities == BatchIntensities(samples, shapes, images, relativeCoordinates, closestLandmarks, meanShape, readImage, svdOf)
      ensures sum == SumR(residuals, |meanShape|)
    {
      var n := |meanShape|;
      ghost var targets := Targets(samples, shapes, images, n);
      ghost var xs := BatchIntensities(samples, shapes, images, relativeCoordinates, closestLandmarks, meanShape, readImage, svdOf);
      residuals, intensities, sum := [], [], ZeroR(n);
      for i := 0 to |samples|
        invariant residuals == targets[..i] && intensities == xs[..i]
        invariant AllSized(residuals, n) && sum == SumR(residuals, n)
      {
        var sample := samples[i];
        var r := SubR(shapes[sample.idx], sample.estimate);
        assert (residuals + [r])[..i] == residuals;
        residuals := residuals + [r];
        sum := AddR(sum, r);
        var trans := EstimateSimilarityTransform(meanShape, sample.estimate, svdOf);
        var x := ReadPixelIntensities(trans, sample.estimate, images[sample.idx], readImage);
        intensities := intensities + [x];
      }
      assert residuals == targets[..|samples|] && intensities == xs[..|samples|];
    }

    /** The boosting loop of fit, over the batch's targets and intensities: before tree k is fitted
        every working residual is adjusted (AdjustResiduals), then tree k is the learner's tree for
        the adjusted batch. */
    method Boost(numTrees: nat, pixelCoordinates: seq<Vec2>, targets: seq<Residual>, intensities: seq<Intensities>,
                 learner: (nat, seq<Vec2>, seq<TreeSample>) -> Tree)
      modifies this`trees
      requires |trees| == numTrees && |intensities| == |targets| && AllSized(targets, |meanResidual|)
      requires LearnerShaped(learner, |meanResidual|)
      ensures |trees| == numTrees && TreesShaped(trees, |meanResidual|)
      ensures forall k :: 0 <= k < |trees| ==>
        trees[k] == learner(k, pixelCoordinates, WorkingBatch(targets, meanResidual, learningRate, trees[..k], intensities))
    {
      var n := |meanResidual|;
      var residuals := targets;
      for k := 0 to numTrees
        invariant |trees| == numTrees
        invariant TreesShaped(trees[..k], n)
        invariant forall j :: 0 <= j < k ==>
          trees[j] == learner(j, pixelCoordinates, WorkingBatch(targets, meanResidual, learningRate, trees[..j], intensities))
        invariant |residuals| == |targets| && AllSized(residuals, n)
        invariant k == 0 ==> residuals == targets
        invariant k > 0 ==> forall i :: 0 <= i < |targets| ==>
          residuals[i] == Working(targets[i], meanResidual, learningRate, trees[..k - 1], intensities[i])
      {
        var adjusted := AdjustResiduals(k, residuals, intensities);
        forall i | 0 <= i < |targets|
          ensures adjusted[i] == Working(targets[i], meanResidual, learningRate, trees[..k], intensities[i])
        {
          if k > 0 {
            assert trees[..k][..k - 1] == trees[..k - 1];
          }
        }
        residuals := adjusted;
        var batch := seq(|targets|, i requires 0 <= i < |targets| => TreeSample(residuals[i], intensities[i]));
        assert batch == WorkingBatch(targets, meanResidual, learningRate, trees[..k], intensities);
        ghost var before := trees;
        trees := trees[k := learner(k, pixelCoordinates, batch)];
        assert forall j :: 0 <= j <= k ==> trees[..j] == before[..j];
      }
      assert trees[..numTrees] == trees;
    }

    /** One adjustment pass of the boosting loop: before tree 0 every working residual loses the
        mean residual, before tree k > 0 it loses learningRate times tree k - 1's output. */
    method AdjustResiduals(k: nat, residuals: seq<Residual>, intensities: seq<Intensities>) returns (adjusted: seq<Residual>)
      requires k <= |trees| && TreesShaped(trees[..k], |meanResidual|)
      requires |intensities| == |residuals| && AllSized(residuals, |meanResidual|)
      ensures |adjusted| == |residuals| && AllSized(adjusted, |meanResidual|)
      ensures k == 0 ==> forall i :: 0 <= i < |residuals| ==> adjusted[i] == SubR(residuals[i], meanResidual)
      ensures k > 0 ==> forall i :: 0 <= i < |residuals| ==>
        adjusted[i] == SubR(residuals[i], ScaleR(learningRate, trees[k - 1](intensities[i])))
    {
      if k > 0 {
        assert trees[..k][k - 1] == trees[k - 1];
      }
      adjusted := residuals;
      for i := 0 to |residuals|
        invariant |adjusted| == |residuals| && AllSized(adjusted, |meanResidual|)
        invariant forall j :: i <= j < |residuals| ==> adjusted[j] == residuals[j]
        invariant k == 0 ==> forall j :: 0 <= j < i ==> adjusted[j] == SubR(residuals[j], meanResidual)
        invariant k > 0 ==> forall j :: 0 <= j < i ==>
          adjusted[j] == SubR(residuals[j], ScaleR(learningRate, trees[k - 1](intensities[j])))
      {
        if k == 0 {
          adjusted := adjusted[i := SubR(adjusted[i], meanResidual)];
        } else {
          adjusted := adjusted[i := SubR(adjusted[i], ScaleR(learningRate, trees[k - 1](intensities[i])))];
        }
      }
    }

    /** The persisted record: every field copied, trees saved in index order. */
    method Save<T>(saveTree: Tree -> T) returns (record: RegressorRecord<T>)
      ensures record == RegressorRecord(closestLandmarks, relativeCoordinates, meanResidual, meanShape,
                                        MapSeq(trees, saveTree), learningRate)
    {
      var forest := [];
      for i := 0 to |trees|
        invariant forest == MapSeq(trees[..i], saveTree)
      {
        forest := forest + [saveTree(trees[i])];
      }
      assert trees[..|trees|] == trees;
      record := RegressorRecord(closestLandmarks, relativeCoordinates, meanResidual, meanShape, forest, learningRate);
    }

    /** Restores every field from a record; the tree list is resized to the forest's size and
        tree i is loaded from record i. */
    method Load<T>(record: RegressorRecord<T>, loadTree: T -> Tree)
      modifies this
      ensures closestLandmarks == record.closestLandmarks && relativeCoordinates == record.pixelCoordinates
      ensures meanResidual == record.meanShapeResidual && meanShape == record.meanShape
      ensures learningRate == record.learningRate
      ensures trees == MapSeq(record.forest, loadTree)
    {
      closestLandmarks := record.closestLandmarks;
      relativeCoordinates := record.pixelCoordinates;
      meanResidual := record.meanShapeResidual;
      meanShape := record.meanShape;
      learningRate := record.learningRate;
      var n := |record.forest|;
      trees := Resized(trees, n);
      for i := 0 to n
        invariant |trees| == n
        invariant forall j :: 0 <= j < i ==> trees[j] == loadTree(record.forest[j])
        invariant closestLandmarks == record.closestLandmarks && relativeCoordinates == record.pixelCoordinates
        invariant meanResidual == record.meanShapeResidual && meanShape == record.meanShape
        invariant learningRate == record.learningRate
      {
        trees := trees[i := loadTree(record.forest[i])];
      }
    }
  }
}

