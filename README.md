# KnnClassifier in Dafny

This is a model of the online k-nearest-neighbour classifier `KnnClassifier` and of its result value `KnnClassifierResult`.

The classifier keeps a memory of learned (pattern, category) observations. To classify a query pattern it does the following:
- it measures the Euclidean distance from the query to every learned pattern;
- it ranks the observations by distance, using a stable sort;
- each of the first `k` ranked observations casts one vote for its category;
- it records, for every category, the least distance of any observation of that category;
- it returns a category with the most votes as the winner.

`compute` sits on top of this. It keeps an offset between the caller's record numbers and its own learning iteration, which is fixed on the first call. It infers before it learns. It learns only when the classification carries a bucket index and the inference, if one was asked for, did not throw.

Modules:
- `JavaInt`: Java's 32-bit `int` (`int32`) and its wrapping subtraction `Sub`.
- `Distances`: `getDistance`. A distance is kept as `Sqrt(squared)`, the exact sum of squares whose root it is. Square root is strictly monotone, so comparing two distances is comparing their `squared` parts.
- `Ranking`: observations, the measuring step `Measure`, and the stable ranking `SortByDistance`, which is an insertion sort.
- `Tallies`: the vote map `Tally`, the closest-distance map `ClosestPerCategory`, both as folds over the ranking, and the choice of a winner.
- `KnnResult`: `KnnClassifierResult`, an immutable value with its three accessors.
- `KnnClassifier`:
  - the class `KnnClassifier`, whose `patterns`, `learnIteration` and `recordNumMinusLearnIteration` fields are updated in place by `Learn` and `Compute`;
  - the method `CountNeighbours`, the index loop of `infer`, which fills an array;
  - `InferOver`, which is `infer`;
  - `IsInferenceOf`, the specification that every inference satisfies;
  - lemmas that derive the promised properties from that specification.
- `KnnExamples`: the two worked cases of `KnnClassifierTest`, derived from the model, and a `compute` whose inference throws.

`infer` has three outcomes, modelled by `Inference`:
- `Null` when nothing has been learned;
- `NoSuchElement` when `k <= 0` and memory is non-empty. Here no entry votes, and `findFirst().get()` throws;
- `Inferred(result)` otherwise.

## Model

| member | source | states |
|---|---|---|
| JavaInt.Wrap | src/main/java/org/numenta/nupic/algorithms/KnnClassifier.java:208 | an int result agrees with the exact value modulo 2^32, as Java int arithmetic does |
| JavaInt.Sub | src/main/java/org/numenta/nupic/algorithms/KnnClassifier.java:208 | Java's `a - b` on ints: the result is congruent to the exact difference modulo 2^32 and lies in the int range |
| JavaInt.SubSub | src/main/java/org/numenta/nupic/algorithms/KnnClassifier.java:115-119 | `a - (a - b) == b` in int arithmetic, even when `a - b` overflows |
| JavaInt.SubZero | src/main/java/org/numenta/nupic/algorithms/KnnClassifier.java:208 | an int difference is zero exactly when the operands are equal |
| JavaInt.SubSquareSymmetric | src/main/java/org/numenta/nupic/algorithms/KnnClassifier.java:208 | `a - b` and `b - a` have the same square, also under overflow |
| JavaInt.SubExact | src/main/java/org/numenta/nupic/algorithms/KnnClassifier.java:208 | for non-negative operands, int subtraction equals exact subtraction |
| Distances.GetDistance | src/main/java/org/numenta/nupic/algorithms/KnnClassifier.java:200-214 | the accumulating loop yields the root of the sum of squared differences over all positions |
| Distances.SquaredSum | src/main/java/org/numenta/nupic/algorithms/KnnClassifier.java:206-211 | the accumulated `Math.pow(test[i] - candidate[i], 2)` over the first `n` positions, with int subtraction |
| Distances.EuclideanDistance | src/main/java/org/numenta/nupic/algorithms/KnnClassifier.java:200-214 | the value `getDistance` returns: the root of the squared sum over all positions |
| Distances.DistanceSymmetric | src/main/java/org/numenta/nupic/algorithms/KnnClassifier.java:200-214 | the distance from a to b equals the distance from b to a |
| Distances.DistanceZeroIffEqual | src/main/java/org/numenta/nupic/algorithms/KnnClassifier.java:200-214 | the distance is zero if and only if the two patterns are equal |
| Distances.DistanceExact | src/main/java/org/numenta/nupic/algorithms/KnnClassifier.java:208 | on non-negative patterns, such as active-column indices, the computed sum is the true sum of squares |
| Distances.OverflowingDifference | src/main/java/org/numenta/nupic/algorithms/KnnClassifier.java:208 | with a negative entry, `test[i] - candidate[i]` can overflow, and the sum then differs from the true one |
| Ranking.Measure | src/main/java/org/numenta/nupic/algorithms/KnnClassifier.java:157 | one entry per observation, in memory order, each paired with its distance to the query |
| Ranking.DistancesOf | src/main/java/org/numenta/nupic/algorithms/KnnClassifier.java:165-171 | one distance per entry, in entry order |
| Ranking.Insert | src/main/java/org/numenta/nupic/algorithms/KnnClassifier.java:158 | puts an entry in front of the first entry not strictly closer than it, keeping one entry more |
| Ranking.SortByDistance | src/main/java/org/numenta/nupic/algorithms/KnnClassifier.java:158 | the stream's stable sort by distance, an insertion sort keeping the length; its order, permutation and stability are the lemmas below |
| Ranking.SortSorted | src/main/java/org/numenta/nupic/algorithms/KnnClassifier.java:158 | the ranking is in non-decreasing order of distance |
| Ranking.SortPermutes | src/main/java/org/numenta/nupic/algorithms/KnnClassifier.java:157-159 | the ranking is a permutation of the measured observations |
| Ranking.SortStable | src/main/java/org/numenta/nupic/algorithms/KnnClassifier.java:158 | for every distance, the entries at that distance keep their learning order |
| Ranking.SortPermutesDistances | src/main/java/org/numenta/nupic/algorithms/KnnClassifier.java:157-171 | the sorted distances are a permutation of the measured ones |
| Ranking.ExactMatchRankedFirst | src/main/java/org/numenta/nupic/algorithms/KnnClassifier.java:157-159 | a query equal to a learned pattern ranks the earliest such observation first, at distance zero |
| Tallies.Categories | src/main/java/org/numenta/nupic/algorithms/KnnClassifier.java:169-175 | the categories of the entries, position by position |
| Tallies.Vote | src/main/java/org/numenta/nupic/algorithms/KnnClassifier.java:175-180 | one vote: a new key gets 1, an existing key its previous count plus 1 |
| Tallies.Tally | src/main/java/org/numenta/nupic/algorithms/KnnClassifier.java:173-181 | the vote map after voting for each category in order from an empty map |
| Tallies.TallyCounts | src/main/java/org/numenta/nupic/algorithms/KnnClassifier.java:173-181 | the vote map has a key for exactly the categories that voted, and each value is that category's number of occurrences, so at least 1 |
| Tallies.TallySum | src/main/java/org/numenta/nupic/algorithms/KnnClassifier.java:173-181 | the vote counts add up to the number of voters |
| Tallies.Closer | src/main/java/org/numenta/nupic/algorithms/KnnClassifier.java:184-188 | one step of the closest-distance loop: store the entry's distance when its category has none or it is strictly smaller |
| Tallies.ClosestPerCategory | src/main/java/org/numenta/nupic/algorithms/KnnClassifier.java:184-188 | the closest-distance map after visiting every ranked entry in order |
| Tallies.ClosestIsMinimum | src/main/java/org/numenta/nupic/algorithms/KnnClassifier.java:184-188 | the closest-distance map has a key for exactly the categories present, and each value is attained and is the least distance of that category |
| Tallies.WinnerExists | src/main/java/org/numenta/nupic/algorithms/KnnClassifier.java:192-194 | a non-empty vote map has a category with the most votes |
| Tallies.SelectWinner | src/main/java/org/numenta/nupic/algorithms/KnnClassifier.java:192-194 | the winner is a key whose count no other key exceeds |
| KnnResult.KnnClassifierResult.GetWinner | src/main/java/org/numenta/nupic/algorithms/KnnClassifierResult.java:42-44 | returns the winner given at construction |
| KnnResult.KnnClassifierResult.GetInferenceResult | src/main/java/org/numenta/nupic/algorithms/KnnClassifierResult.java:47-49 | returns the vote map given at construction, unchanged |
| KnnResult.KnnClassifierResult.GetClosestToCategory | src/main/java/org/numenta/nupic/algorithms/KnnClassifierResult.java:51-54 | for a category that is a key, returns its stored closest distance; an absent key is excluded, because Java throws there |
| KnnClassifier.Ranked | src/main/java/org/numenta/nupic/algorithms/KnnClassifier.java:157-159 | the measured observations, stably sorted by distance to the query |
| KnnClassifier.Voters | src/main/java/org/numenta/nupic/algorithms/KnnClassifier.java:173 | how many of the first `n` ranked entries pass `i < k`: at most `n`, and none exactly when `n` is 0 or `k <= 0` |
| KnnClassifier.IsInferenceOf | src/main/java/org/numenta/nupic/algorithms/KnnClassifier.java:151-197 | the possible outcomes of `infer`: null on empty memory, the exception when `k <= 0`, otherwise a result with the ranking's distances, the votes of the first `min(k, n)` entries, the closest distance per category and a winner with the most votes |
| KnnClassifier.CountNeighbours | src/main/java/org/numenta/nupic/algorithms/KnnClassifier.java:162-189 | the index loop fills the distances in ranking order, counts the votes of the first `min(k, n)` entries, and keeps the closest distance per category over all entries |
| KnnClassifier.InferOver | src/main/java/org/numenta/nupic/algorithms/KnnClassifier.java:151-197 | the outcome satisfies `IsInferenceOf`: null on empty memory, the exception when `k <= 0`, and otherwise a result built from the stable ranking with a maximal-vote winner |
| KnnClassifier.InferenceDistances | src/main/java/org/numenta/nupic/algorithms/KnnClassifier.java:157-171 | the result's distances have one entry per learned observation, are ascending, and are a permutation of the observations' distances |
| KnnClassifier.InferenceVotes | src/main/java/org/numenta/nupic/algorithms/KnnClassifier.java:167-182 | a category has votes exactly when it occurs among the first `min(k, n)` ranked entries; it has as many votes as occurrences, at least 1; the votes sum to `min(k, n)` |
| KnnClassifier.InferenceWinner | src/main/java/org/numenta/nupic/algorithms/KnnClassifier.java:191-194 | the winner is a key of the vote map, and no category has more votes |
| KnnClassifier.InferenceClosest | src/main/java/org/numenta/nupic/algorithms/KnnClassifier.java:184-188 | a category has a closest distance exactly when some learned observation has it; that distance is attained and is at most the distance of every observation of the category, voter or not |
| KnnClassifier.Track | src/main/java/org/numenta/nupic/algorithms/KnnClassifier.java:114-119 | the offset and learning iteration after one call: the offset is computed only while it is -1, and the iteration is `recordNum` minus the offset, in int arithmetic |
| KnnClassifier.TrackAll | src/main/java/org/numenta/nupic/algorithms/KnnClassifier.java:114-119 | the offset and learning iteration after a sequence of calls |
| KnnClassifier.TrackKeepsOffset | src/main/java/org/numenta/nupic/algorithms/KnnClassifier.java:114-116 | an offset other than the sentinel -1 is left as it is |
| KnnClassifier.TrackDifference | src/main/java/org/numenta/nupic/algorithms/KnnClassifier.java:114-119 | after each call, `recordNum - learnIteration` equals the offset, in int arithmetic |
| KnnClassifier.OffsetStaysFixed | src/main/java/org/numenta/nupic/algorithms/KnnClassifier.java:114-119 | once set, the offset survives any sequence of record numbers, gaps included, and the last learning iteration is that record number minus the offset |
| KnnClassifier.GappedRecordNumbers | src/main/java/org/numenta/nupic/algorithms/KnnClassifier.java:100-103 | record numbers 10, 11, 15 give learning iterations 0, 1, 5 with offset 10 |
| KnnClassifier.SentinelOffsetRecomputed | src/main/java/org/numenta/nupic/algorithms/KnnClassifier.java:114-116 | a computed offset of -1 reads as unset and is computed again on the next call |
| KnnClassifier.KnnClassifier.constructor | src/main/java/org/numenta/nupic/algorithms/KnnClassifier.java:89-91 | stores `k`, and starts with empty memory, learning iteration 0 and offset -1 |
| KnnClassifier.KnnClassifier.Learn | src/main/java/org/numenta/nupic/algorithms/KnnClassifier.java:216-220 | appends exactly one observation at the end of memory, with no length check; earlier entries are unchanged |
| KnnClassifier.KnnClassifier.Infer | src/main/java/org/numenta/nupic/algorithms/KnnClassifier.java:151-197 | the outcome is an inference over the current memory with the classifier's `k` |
| KnnClassifier.KnnClassifier.Compute | src/main/java/org/numenta/nupic/algorithms/KnnClassifier.java:112-149 | updates the offset and learning iteration as `Track` does and records the pattern; returns an inference over the memory from before the call when `infer` holds, null otherwise; the inference throws exactly when memory is non-empty and `k <= 0`, and then `compute` stops before learning; otherwise it learns `(patternNZ, actValue)` if and only if `learn` holds and a bucket index is present |
| KnnExamples.TestGetDistance | src/test/java/org/numenta/nupic/algorithms/KnnClassifierTest.java:15-31 | equal patterns are at distance 0; {0,1,1,1,0} and {0,1,0,0,1} are at distance sqrt 3 |
| KnnExamples.TestRanking | src/test/java/org/numenta/nupic/algorithms/KnnClassifierTest.java:42-50 | the seven learned observations rank as the three "one" entries, then the "two" entries at sqrt 7 in learning order, then the one at sqrt 8 |
| KnnExamples.TestKnnClassifier | src/test/java/org/numenta/nupic/algorithms/KnnClassifierTest.java:34-57 | every inference on the test memory with k = 3 has winner "one", 3 votes for "one", and closest "two" at sqrt 7 |
| KnnExamples.TestKnnClassifierRun | src/test/java/org/numenta/nupic/algorithms/KnnClassifierTest.java:34-57 | learning the seven observations in order and inferring on the query yields winner "one", 3 votes and sqrt 7 |
| KnnExamples.TestComputeWithoutNeighbours | src/main/java/org/numenta/nupic/algorithms/KnnClassifier.java:133-144 | with k = 0 and one learned observation, `compute` with learning and inference throws, and memory keeps its single observation |

## Left out

- Verbose printing in `compute` is I/O only and is not modelled.
- The `DistanceCalc` enum is not modelled. It is never used, and its Manhattan option is not implemented.
- Floating point is not modelled.
  - The accumulator of `getDistance` is a `double`, and `Math.pow` and `Math.sqrt` round.
  - The model keeps the exact integer sum of squares and treats the square root symbolically, as a strictly monotone function.
  - Rounding could make two different large sums compare equal after `Math.sqrt`, or lose precision beyond 2^53. This is not captured.
- The `Double.MAX_VALUE` default of `getOrDefault` in the closest-distance loop is modelled as "no entry yet". Every real distance is far below `Double.MAX_VALUE`, so the two agree.
- Tallies.SelectWinner: promises only that the winner has the most votes. Among tied categories, Java's choice depends on `HashMap` iteration order, which is unspecified.
- Patterns are values (`seq<int32>`). Java stores the caller's `int[]` reference, so a caller that later mutates that array changes the learned memory. Such aliasing is not modelled.
- `patternNZHistory` is a ghost sequence that `Compute` appends to.
  - Its `Deque` and `Tuple` classes are not part of this model, so no capacity or eviction is modelled.
  - The field is never initialised, so `compute` as written throws a `NullPointerException` at line 129 on every call.
  - KnnClassifier.KnnClassifier.Compute: models the evident intent of an initialised history, not that exception.
- The classification map is reduced to the two entries `compute` reads:
  - `bucketIdx` is present or absent, where absent covers a null value;
  - `actValue` is the category type. Whether it may be null is left to that type.
- The Java `assert` in `getDistance` becomes a precondition that the lengths are equal (`Compatible` for `infer`). Java assertions may be disabled, and what happens on mismatched lengths is not modelled.
- The result's doc comment calls the distances normalised. The code stores raw distances, and so does the model.
- Distances are modelled with Java's int subtraction, which wraps: `Distances.OverflowingDifference` shows the effect, and `Distances.DistanceExact` shows that it cannot arise for non-negative patterns.
