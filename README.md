# Numeric utilities of a small neural-network toolkit, in Dafny

This project models the array-processing part of the `Util` class of a small Java
neural-network toolkit (`src/Util.java`) and proves properties of the model. Java `double`
is modelled as Dafny `real`, an exact abstraction without rounding, NaN or infinities.

- `VectorMath` models `dotProduct`: a method with the source's accumulator loop, proved equal
  to the recursive sum `Dot`, plus lemmas about `Dot` (extra entries of `ys` are ignored, the
  empty vector and a zero vector give 0, symmetry, unit basis vectors are orthonormal).
- `Extrema` models `Collections.max` / `Collections.min` on the column list and the maximum of a
  non-empty double stream: `SeqMax` / `SeqMin`, each an attained bound, and lemmas that these two
  properties determine them.
- `ArrayMax` models `max`: a pure function on the array's contents returning the largest element,
  or the sentinel `Double.MIN_VALUE` (2^-1074, the smallest positive double) on an empty array.
- `FeatureScaling` is the value semantics of `normalizeByFeatureScaling`: a rectangular table,
  its columns, their minima and maxima, and `Normalized`, which replaces each entry by
  `(x - min_c) / (max_c - min_c)` with `min_c` and `max_c` taken from the original column `c`.
  Lemmas: every entry lands in [0, 1], column minima become 0 and maxima 1, order within a column
  is preserved and reflected, columns are independent, normalization is idempotent, and the
  worked example `[[1,10],[2,20],[3,30]]` becomes `[[0,0],[0.5,0.5],[1,1]]`.
- `Normalizer` is the in-place operation on a list of row arrays (`seq<array<real>>`), with
  `modifies` over the rows: the column-collecting loop, the column-overwriting loop, and the outer
  loop over columns whose invariant says that columns before `colNum` are scaled and the others
  untouched. Its postcondition ties the new contents of the rows to `Normalized` of the old ones.

Three behaviours of the code are kept as written, though a caller may not expect them:

- `dotProduct` is not restricted to equal lengths. The code iterates over `xs.length` and reads
  `ys[i]`, so the model requires `|xs| <= |ys|` and proves that further entries of `ys` are ignored.
- `max` on an empty array returns `Double.MIN_VALUE`, a positive number, rather than signalling an
  error; the model returns that constant, and `ArrayMax.EmptyMaxExceedsNegativeMax` shows the effect.
- A constant column makes the code divide by zero. The model has no NaN, so a non-constant column
  is a precondition of the normalizer (`FeatureScaling.ConstantColumnIsDegenerate` shows that
  `[[5,1],[5,2]]` is outside its domain).

## Model

| member | source | states |
|---|---|---|
| `VectorMath.DotProduct` | src/Util.java:13-19 | requires `ys` at least as long as `xs`; the accumulator loop returns the sum over `i < |xs|` of `xs[i] * ys[i]` (`Dot`); neither array is modified (no `modifies` clause) |
| `VectorMath.DotIgnoresExtraEntries` | src/Util.java:15-16 | entries appended to `ys` beyond the length of `xs` do not change the dot product |
| `VectorMath.DotOnPrefix` | src/Util.java:15-16 | the dot product equals the dot product with `ys` cut to the length of `xs` |
| `VectorMath.DotOfEmpty` | src/Util.java:14-18 | an empty `xs` gives 0, the accumulator's start value |
| `VectorMath.DotWithZeros` | src/Util.java:13-19 | the dot product with a vector of zeros is 0 |
| `VectorMath.DotSymmetric` | src/Util.java:16 | on vectors of equal length the dot product does not depend on argument order |
| `VectorMath.DotUnitLeft` | src/Util.java:13-19 | the dot product of the k-th unit vector with `ys` picks out `ys[k]` |
| `VectorMath.DotOfUnitVectors` | src/Util.java:13-19 | unit basis vectors are orthonormal: `Dot(e_j, e_k)` is 1 if `j == k` and 0 otherwise |
| `Extrema.SeqMax` | src/Util.java:39 | the maximum of a non-empty column is at least every element and equal to one of them |
| `Extrema.SeqMin` | src/Util.java:40 | the minimum of a non-empty column is at most every element and equal to one of them |
| `Extrema.SeqMaxCharacterized` | src/Util.java:39 | any attained upper bound is the maximum, so the maximum is uniquely determined |
| `Extrema.SeqMinCharacterized` | src/Util.java:40 | any attained lower bound is the minimum, so the minimum is uniquely determined |
| `Extrema.MinAtMostMax` | src/Util.java:39-41 | the range `maximum - minimum` is never negative, and is zero exactly when the column is constant |
| `ArrayMax.Max` | src/Util.java:63-67 | on a non-empty array: an upper bound of every element that equals some element; on an empty array: `Double.MIN_VALUE` |
| `ArrayMax.DoubleMinValueIsPositive` | src/Util.java:66 | the sentinel `Double.MIN_VALUE` (2^-1074) lies strictly between 0 and 1 |
| `ArrayMax.MaxOfAppend` | src/Util.java:64-65 | appending `x` to a non-empty array gives the larger of `x` and the old maximum |
| `ArrayMax.EmptyMaxExceedsNegativeMax` | src/Util.java:66 | an array of negative numbers reports a smaller maximum than the empty array |
| `ArrayMax.SentinelIsAmbiguous` | src/Util.java:66 | the empty array and the array holding only `Double.MIN_VALUE` give the same result |
| `FeatureScaling.Normalized` | src/Util.java:42-44 | the normalized table has the same number of rows, every row keeps its length, and it is again rectangular |
| `FeatureScaling.NormalizedAt` | src/Util.java:43 | entry `(i, c)` becomes `(t[i][c] - min_c) / (max_c - min_c)` with the original column's range |
| `FeatureScaling.ScaleBounds` | src/Util.java:43 | scaling maps `[lo, hi]` into `[0, 1]`, `lo` to 0 and `hi` to 1 |
| `FeatureScaling.QuotientInUnitInterval` | src/Util.java:43 | `a / d` lies in `[0, 1]` when `0 <= a <= d` and `d > 0` |
| `FeatureScaling.ScaleMonotone` | src/Util.java:43 | with a positive divisor, `x <= y` if and only if their scaled values are so ordered |
| `FeatureScaling.NormalizedInUnitInterval` | src/Util.java:32-43 | every normalized entry lies in `[0, 1]` |
| `FeatureScaling.NormalizedExtremes` | src/Util.java:39-43 | an entry holding its column's minimum becomes 0; one holding the maximum becomes 1 |
| `FeatureScaling.NormalizedPreservesOrder` | src/Util.java:43 | within a column, `t[a][c] <= t[b][c]` before if and only if the same holds after |
| `FeatureScaling.NormalizedColumnRange` | src/Util.java:32-45 | after normalization every column's minimum is exactly 0 and its maximum exactly 1 |
| `FeatureScaling.NormalizedIdempotent` | src/Util.java:33-46 | the normalized table is again non-degenerate, and normalizing it again changes nothing |
| `FeatureScaling.ColumnsIndependent` | src/Util.java:34-45 | column `c` of the result depends only on column `c` of the input |
| `FeatureScaling.ExampleThreeRowsRanges` | src/Util.java:39-40 | the columns of `[[1,10],[2,20],[3,30]]` have ranges `[1,3]` and `[10,30]` |
| `FeatureScaling.ExampleThreeRows` | src/Util.java:33-46 | `[[1,10],[2,20],[3,30]]` normalizes to `[[0,0],[0.5,0.5],[1,1]]` |
| `FeatureScaling.ConstantColumnIsDegenerate` | src/Util.java:41-43 | `[[5,1],[5,2]]` has a zero-range first column, so it is outside the operation's domain |
| `Normalizer.CollectColumn` | src/Util.java:35-38 | the collected list holds entry `colNum` of every row, in row order |
| `Normalizer.ScaleColumn` | src/Util.java:41-44 | every row's entry `colNum` is replaced by its scaled value against the given range; every other entry of every row is unchanged |
| `Normalizer.NormalizeByFeatureScaling` | src/Util.java:31-46 | requires at least one row, all rows as long as the first, pairwise distinct row arrays and no constant column; afterwards the rows hold exactly `Normalized` of their old contents (same row count and lengths, each column scaled by its original range), and only the row arrays are modified |

## Left out

- `sigmoid` and `derivativeSigmoid` (src/Util.java:22-29): they rest on `Math.exp`, a transcendental floating-point function with no exact counterpart over Dafny's reals.
- `loadCSV` (src/Util.java:49-60): resource-stream and reader I/O, stack-trace printing, wrapping of `IOException`, and the regular-expression semantics of `String.split`.
- DotProduct: a `ys` shorter than `xs`, which throws `ArrayIndexOutOfBoundsException` at src/Util.java:16, is excluded by precondition.
- IEEE 754 rounding in the sum of `dotProduct` and in the divide of the normalizer: arithmetic is exact.
- NaN and infinities: the NaN-ordering of `Collections.max`/`min` and of the stream maximum, the ordering of `-0.0` and `0.0`, and the NaN/Infinity produced by a constant column.
- NormalizeByFeatureScaling: a constant column is excluded by precondition instead of producing NaN/Infinity, because real division needs a nonzero divisor.
- NormalizeByFeatureScaling: an empty dataset (which makes `dataset.get(0)` throw) and rows of different lengths (which can make `row[colNum]` throw, or leave the extra entries of a longer row untouched) are excluded by precondition rather than modelled as exceptions.
- NormalizeByFeatureScaling: the same array appearing twice in the list is excluded by precondition; in the code such a row would be rescaled twice.
- `max` is modelled on the array's contents, since it only reads the array.
- The list iterators of the two `for (double[] row : dataset)` loops are modelled as index loops over the sequence of rows; `Collections.max`/`min` are modelled as the pure functions `SeqMax`/`SeqMin`.
