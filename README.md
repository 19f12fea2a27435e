# Deformable Shape Tracking: the geometry and the regressor stage, in Dafny

Deformable Shape Tracking (DEST) aligns face landmarks with a cascade of regressor stages. Each
stage is an ensemble of regression trees. The trees split on the intensities of pixels sampled
around the current shape estimate. This project models two parts of that system:

- **Landmark geometry** (`src/core/shape.cpp`, module `Shape` in `shape.dfy`).
  - The nearest-landmark scan (`findClosestLandmarkIndex`).
  - The encoding of pixel coordinates as offsets from their nearest landmark
    (`shapeRelativePixelCoordinates`).
  - The similarity transform that aligns one shape with another (`estimateSimilarityTransform`).
    The singular value decomposition of the covariance is an input: a function `svdOf` from a
    matrix to its factors U, V and singular values.
- **The regressor stage** (`src/core/regressor.cpp`, module `Regression` in `regressor.dfy`).
  - A class `Regressor` with the fields of `Regressor::data`.
  - `fit` takes the mean target residual as the base learner. It then fits tree k to the residuals
    that the base and trees 0..k-1 leave (forward-stagewise boosting).
  - `predict` returns the base plus learningRate times each tree's output, in tree order.
  - `sampleCoordinates` and `readPixelIntensities`.
  - `save` and `load`, as ordered copies of the fields and the trees.

`linalg.dfy` (module `Linalg`) holds the 2-vectors, the 2x2 matrices and their algebra over
`real`. A 2xN Eigen matrix (a shape, a residual, a set of pixel coordinates) is a sequence of
column vectors. A tree is known only through its prediction: a function from an intensity vector
to a residual. The image is read through a function `readImage(image, coordinates)`. The random
generator's canonical draws in [0, 1) are an input sequence.

Where the code and the system's stated design differ, the model follows the code, with one
exception: the rotation of the similarity transform. The code forms it as U^T s V
(`src/core/shape.cpp:56`). The rest of the model uses V s U^T, the rotation the design intends
(see "## Findings"). The code's version is modelled too, as `Shape.EstimateSimilarityTransformAsWritten`.
The two coincide whenever U and V are both proper rotations (`Shape.EstimatesAgreeOnProperFactors`).


- `sampleCoordinates` is meant to draw points inside the mean shape's bounding box. The code draws
  y from `maxC.y` upwards (`src/core/regressor.cpp:165`), not from `minC.y`.
  - `Sampled` and `SampleBounds` model and state what the code does: y at or beyond the largest
    landmark y.
- A persisted model with inconsistent sizes is meant to be rejected on load. `load`
  (`src/core/regressor.cpp:66-78`) performs no check: it copies the fields and resizes the tree
  list to the forest's size. `Regressor.Load` does the same.

## Model

| member | source | states |
|---|---|---|
| Shape.FindClosestLandmarkIndex | src/core/shape.cpp:71-87 | Returns -1 exactly when no landmark is closer than FLT_MAX, which always holds for zero landmarks. Otherwise it returns an index in [0, n) whose squared distance is at most every landmark's and strictly less than every earlier landmark's, so ties go to the lowest index. |
| Shape.ClosestIsUnique | src/core/shape.cpp:78-84 | The arg-min with the strict `<` tie rule picks at most one index, so the scan's answer is determined. |
| Shape.ShapeRelativePixelCoordinates | src/core/shape.cpp:90-103 | Outputs as many offsets and landmark indices as input points. Each index is the nearest landmark (the scan's answer), and offset + landmark = point. |
| Shape.EncodingIsUnique | src/core/shape.cpp:97-101 | Any two encodings of the same points against the same shape are equal, so the encoding is a function of shape and points. |
| Shape.Compose | src/core/shape.cpp:62-66 | The transform's linear part is c * rot and its translation is meanTo - c * rot * meanFrom, so it maps meanFrom exactly onto meanTo for every rot and c. |
| Shape.EstimateSimilarityTransform | src/core/shape.cpp:27-69 | For every decomposition, the estimated transform maps the centroid of `from` onto the centroid of `to`. This is the rotation V s U^T version that the rest of the model uses. |
| Shape.EstimateSimilarityTransformAsWritten | src/core/shape.cpp:27-69 | The same centroid property for the rotation U^T s V as the code forms it. |
| Shape.SignMatrixChoice | src/core/shape.cpp:45-54 | The sign matrix is orthogonal. Its determinant is -1 exactly when detCov < 0, or detCov = 0 and detUV < 0, and +1 otherwise. |
| Shape.SignedTrace | src/core/shape.cpp:47-54 | trace(D s) is sv0 + sv1 when the test does not fire. When it fires, the -1 falls on the smaller singular value, so it is the larger minus the smaller. |
| Shape.ScaleNonNegative | src/core/shape.cpp:57-60 | With non-negative singular values the scale c is never negative. |
| Shape.ScaleGuard | src/core/shape.cpp:37-60 | sFrom is never negative. c is exactly 1 when sFrom is 0; otherwise c * sFrom = trace(D s), that is, c = trace(D s) / sFrom. |
| Shape.SvdDeterminantSplits | src/core/shape.cpp:39-46 | For any valid decomposition, det cov = det U * sv0 * sv1 * det V, with orthogonal U and V. |
| Shape.ReflectionTestDetectsHandedness | src/core/shape.cpp:45-48 | det U * det V is +1 or -1. The reflection test fires exactly when it is -1, that is, when U and V differ in handedness. |
| Shape.RotationIsProper | src/core/shape.cpp:56 | The rotation V s U^T is a proper rotation: orthogonal, with determinant 1. |
| Shape.AsWrittenRotationIsProper | src/core/shape.cpp:56 | The rotation U^T s V, as written, is a proper rotation too. |
| Shape.RotationsAgreeOnProperFactors | src/core/shape.cpp:45-56 | When U and V both have determinant 1, the reflection test cannot fire, and the rotation as written, U^T s V, equals V s U^T (2-D rotations commute). |
| Shape.EstimatesAgreeOnProperFactors | src/core/shape.cpp:27-69 | For a valid decomposition whose U and V are both proper rotations, the transform as written and the transform with V s U^T are the same transform. |
| Shape.RotationAlignsWithCovariance | src/core/shape.cpp:35-56 | For rot = V s U^T, trace(rot * cov) = trace(D s): the correlation the rotation achieves is the sum of the signed singular values. |
| Shape.AlignmentBound | src/core/shape.cpp:45-54 | For an orthogonal q that has determinant -1 whenever the sign matrix flips an axis, trace(q D) is at most trace(D s). |
| Shape.RotationMaximisesAlignment | src/core/shape.cpp:35-56 | For a valid decomposition and every proper rotation r, trace(r * cov) <= trace(rot * cov) for rot = V s U^T: V s U^T is the best-aligning rotation (Kabsch). |
| Shape.ScaleIsLeastSquares | src/core/shape.cpp:56-60 | With rot = V s U^T and sFrom > 0, c * sFrom = trace(rot * cov). This makes c the least-squares scale for that rotation. |
| Shape.CovarianceTrace | src/core/shape.cpp:32-36 | trace(M * cov) is the mean over landmarks of t_i . (M f_i) for the centred shapes f and t. This is what cov accumulates. |
| Shape.AsWrittenSwapsScenario | src/core/shape.cpp:56 | For from = [(0,0),(1,0)] and to = [(0,0),(0,2)], with a valid decomposition whose V is a reflection, the transform as written sends from[0] to to[1] and from[1] to to[0]. |
| Shape.CorrectedRecoversScenario | src/core/shape.cpp:56 | With the same decomposition, the rotation V s U^T sends from[0] to to[0] and from[1] to to[1]. |
| Shape.BothReflectionsDisagree | src/core/shape.cpp:45-56 | For cov = [[0,2],[-1,0]] with the valid decomposition U = diag(1,-1), V = [[0,1],[1,0]], D = diag(2,1), both factors are reflections and the test does not fire. Yet U^T s V is the inverse of V s U^T, and its alignment trace(rot * cov) is -(sv0 + sv1) where V s U^T reaches sv0 + sv1. |
| Regression.Resized | src/core/regressor.cpp:107 | `std::vector::resize` on the tree list keeps the first n trees and adds untrained ones up to n. |
| Regression.PartialEnsemble | src/core/regressor.cpp:134-145 | The working residual that tree k is fitted to, plus the prediction of the base and trees 0..k-1, is exactly the target. Each tree corrects what the ensemble so far misses. |
| Regression.WorkingClosedForm | src/core/regressor.cpp:134-145 | Just before tree k is fitted, a sample's working residual = target - meanResidual - learningRate * (sum of tree_j(intensities) for j < k). |
| Regression.EnsembleClosedForm | src/core/regressor.cpp:186-201 | The tree-by-tree accumulation of predict equals meanResidual + learningRate * (sum of all tree outputs). |
| Regression.MeanResidualColumn | src/core/regressor.cpp:122-132 | Each column of meanResidual is the average over the samples of that column of (ground truth - estimate). |
| Regression.CentredResidualsSumToZero | src/core/regressor.cpp:132-139 | Once the mean residual is subtracted, the residuals of all samples sum to the zero matrix. |
| Regression.FirstBatchIsCentred | src/core/regressor.cpp:134-144 | The residuals tree 0 is fitted to (the k = 0 adjustment) sum to the zero matrix. |
| Regression.LocationsInvertEncoding | src/core/regressor.cpp:176-181 | Re-projecting with A = identity into the shape the coordinates were encoded against reproduces the sampled coordinates exactly. |
| Regression.LocationsFollowShape | src/core/regressor.cpp:176-181 | If the shape is the encoding shape moved by a similarity t, re-projecting through t's linear part gives the sampled coordinates moved by t. Shape-indexed pixels move with the shape. |
| Regression.MinOf | src/core/regressor.cpp:154 | `minCoeff`: the result is at most every entry and equal to one of them. |
| Regression.MaxOf | src/core/regressor.cpp:155 | `maxCoeff`: the result is at least every entry and equal to one of them. |
| Regression.SampleBounds | src/core/regressor.cpp:154-166 | For draws in [0, 1), every sampled x lies in [minX, maxX), or equals minX when the extent is empty. Every sampled y is at or beyond the largest landmark y, and below maxY + (maxY - minY) when that extent is not empty. |
| Regression.ForestRoundTrip | src/core/regressor.cpp:74-77 | Loading the forest that save emits (trees in index order, `src/core/regressor.cpp:49-53`) gives back the same trees in the same order, provided loading a saved tree gives it back. |
| Regression.Regressor.constructor | src/core/regressor.cpp:83-86 | A new regressor has empty coordinates, residual, mean shape and tree list. |
| Regression.Regressor.SampleCoordinates | src/core/regressor.cpp:152-169 | Returns exactly numCoords coordinates, coordinate i built from draws 2i (x) and 2i+1 (y) as `Sampled` describes. SampleBounds states where they lie. |
| Regression.Regressor.ReadPixelIntensities | src/core/regressor.cpp:172-184 | Reads the image at A * rel_i + s[closest_i] for every stored coordinate, in order, and changes nothing. |
| Regression.Regressor.Predict | src/core/regressor.cpp:186-202 | Returns meanResidual + learningRate * tree_i(intensities), summed in tree order. This equals meanResidual + learningRate * (sum of tree outputs), and exactly meanResidual with zero trees. The intensities are read through the transform from the mean shape to the given shape. Predict mutates nothing. |
| Regression.Regressor.Fit | src/core/regressor.cpp:103-150 | Sets learningRate and meanShape from the inputs and leaves exactly numTrees trees. The stored coordinates encode the sampled ones against the mean shape. meanResidual is the average target residual. Tree k is the learner's tree for the batch whose residuals are target - meanResidual - learningRate * (trees before k). Returns false. |
| Regression.Regressor.ReadTrainingBatch | src/core/regressor.cpp:123-132 | The first pass over the samples: targets (ground truth - estimate), their sum, and each sample's intensities read at its own estimate. |
| Regression.Regressor.Boost | src/core/regressor.cpp:134-145 | Tree k is fitted to the working residuals left by the base and trees 0..k-1, for every k. |
| Regression.Regressor.AdjustResiduals | src/core/regressor.cpp:136-142 | Before tree 0, every residual loses meanResidual. Before tree k > 0, it loses learningRate * tree k-1's output. |
| Regression.Regressor.Save | src/core/regressor.cpp:41-64 | The record holds every field, with the trees saved in index order. |
| Regression.Regressor.Load | src/core/regressor.cpp:66-78 | Every field comes from the record. The tree list has the forest's size, and tree i is loaded from record i. |

## Left out

- Floating point: all arithmetic is on `real`, so rounding, NaN and overflow are not modelled.
  - FLT_MAX is kept as the exact constant that starts the nearest-landmark scan.
- The singular value decomposition (`jacobiSvd`) is an input (`svdOf`).
  - Properties that need a valid decomposition assume one through `IsSvd` or `DeterminantSplits`.
  - The model does not say which of the valid decompositions Eigen returns.
- Tree training, prediction and persistence (`Tree::fit`, `Tree::predict`, `Tree::save`, `Tree::load`) live in tree.cpp, which is not part of this model.
  - A tree is a function from intensities to a residual.
  - Fitting is a `learner` function of the tree's position, the stage's pixel coordinates and the batch. The position stands for the state of the shared random generator.
- `readImage` and the image type are parameters: pixel lookup and the out-of-image fill are not modelled.
- The random generator is replaced by its canonical draws (values in [0, 1)), scaled as `uniform_real_distribution` scales them.
  - With an empty extent the code builds `uniform_real_distribution(0, 0)`; the model takes its draws as 0.
- The FlatBuffers serialisation is replaced by the `RegressorRecord` datatype and ordered copies.
- Logging, the pimpl, the copy constructor and the destructor are not modelled.
- Regression.Regressor.Fit: requires at least one sample and a non-empty mean shape.
  - The code divides by the sample count and takes the mean of the shapes, neither defined there.
  - Every sampled coordinate must have a landmark closer than FLT_MAX; otherwise the code reads column -1.
  - The landmark count is taken as the mean shape's size (`t.numLandmarks` in the code).
- Regression.Regressor.Predict: reads the pixels through the transform with the rotation V s U^T.
  - The code (`src/core/regressor.cpp:191`) calls the as-written U^T s V.
  - The two read the same pixels when U and V are both proper rotations.
  - They can differ when exactly one of U, V is a reflection (`Shape.AsWrittenSwapsScenario`) or both are (`Shape.BothReflectionsDisagree`).
- Regression.Regressor.Fit: reads the training intensities the same way, through `Regression.Regressor.ReadTrainingBatch` and `Regression.ShapeIndexedIntensities`.
  - The code (`src/core/regressor.cpp:128`) calls the as-written U^T s V.
  - The same agreement and the same disagreements apply as for Predict.
- Regression.Regressor.Predict: requires a shape with as many landmarks as the mean shape, at least one, and trees that predict residuals of meanResidual's size. The code assumes all of these.
- Shape.ShapeRelativePixelCoordinates: requires every point to have a landmark closer than FLT_MAX. Otherwise the code indexes column -1.
- Regression.Regressor.constructor: the code leaves learningRate uninitialised; the model sets it to 0.
- Untrained trees (default-constructed `Tree` objects) predict an empty residual in the model. Their prediction in the code depends on tree.cpp.

## Findings

| source | as written | input that shows it | evidently intended | confidence | as-written member | corrected member |
|---|---|---|---|---|---|---|
| src/core/shape.cpp:56 | `rot = U^T * s * V`, with cov = centredFrom * centredTo^T = U D V^T | from = [(0,0),(1,0)], to = [(0,0),(0,2)]: cov = [[0,0.5],[0,0]], decomposed as U = I, V = [[0,1],[1,0]], D = diag(0.5, 0); the transform as written sends (0,0) to (0,2) and (1,0) to (0,0) | `rot = V * s * U^T`. It reaches trace(rot * cov) = trace(D s) (`Shape.RotationAlignsWithCovariance`), the largest value any proper rotation reaches (`Shape.RotationMaximisesAlignment`). In the example it maps (0,0) to (0,0) and (1,0) to (0,2). The two rotations agree when U and V are both proper rotations (`Shape.RotationsAgreeOnProperFactors`). They can differ when exactly one is a reflection (this example) and when both are: for cov = [[0,2],[-1,0]], U = diag(1,-1), V = [[0,1],[1,0]], the test does not fire and U^T V is the inverse of V U^T (`Shape.BothReflectionsDisagree`). | low, not executed (depends on Eigen's JacobiSVD returning a reflection factor; swapping the columns of U and V together to sort the singular values would turn two rotations into two reflections) | Shape.AsWrittenSwapsScenario | Shape.CorrectedRecoversScenario |
