/**
 * `KnnClassifier`: an online k-nearest-neighbour classifier over learned
 * (pattern, category) observations, with the record-number bookkeeping of
 * `compute`.
 */
module KnnClassifier {
  import opened JavaInt
  import opened Distances
  import opened Ranking
  import opened Tallies
  import opened KnnResult

  datatype Option<T> = None | Some(value: T)

  /**
   * What `infer` gives back: `null` when nothing has been learned, a result, or
   * the `NoSuchElementException` that `findFirst().get()` throws when no entry
   * voted (which happens exactly when `k <= 0`).
   */
  datatype Inference<C> = Null | Inferred(result: KnnClassifierResult<C>) | NoSuchElement

  /**
   * The two entries of the classification map that `compute` reads: the encoder
   * bucket (absent or `null` suppresses learning) and the actual value, which
   * becomes the learned category.
   */
  datatype Classification<C> = Classification(bucketIdx: Option<int>, actValue: C)

  /** The observations ranked nearest first, stably by distance to `columns`. */
  function Ranked<C>(memory: seq<Observation<C>>, columns: seq<int32>): (ranked: seq<ObservationWithDistance<C>>)
    requires Compatible(memory, columns)
  {
    SortByDistance(Measure(memory, columns))
  }

  /** How many of the first `n` ranked entries pass the test `i < k` and vote. */
  function Voters(n: nat, k: int): (voters: nat)
    ensures voters <= n && (voters == 0 <==> n == 0 || k <= 0)
  {
    if k <= 0 then 0 else if k < n then k else n
  }

  /**
   * `out` is a possible outcome of `infer(columns)` on `memory` with `k`
   * neighbours: the full ranking's distances, the votes of its first
   * `Voters(|memory|, k)` entries, the closest distance per category over the
   * whole ranking, and a winner with the most votes.
   */
  ghost predicate IsInferenceOf<C>(out: Inference<C>, memory: seq<Observation<C>>, k: int, columns: seq<int32>)
    requires Compatible(memory, columns)
  {
    var ranked := Ranked(memory, columns);
    if memory == [] then out == Null
    else if k <= 0 then out == NoSuchElement
    else
      && out.Inferred?
      && out.result.distances == DistancesOf(ranked)
      && Voters(|memory|, k) <= |ranked|
      && out.result.inferenceResult == Tally(Categories(ranked[..Voters(|memory|, k)]))
      && out.result.categoryDistance == ClosestPerCategory(ranked)
      && IsWinner(out.result.inferenceResult, out.result.winner)
  }

  lemma TallyStep<C>(ranked: seq<ObservationWithDistance<C>>, i: nat, k: int)
    requires i < |ranked|
    ensures Tally(Categories(ranked[..Voters(i + 1, k)])) ==
      if i < k then Vote(Tally(Categories(ranked[..Voters(i, k)])), ranked[i].category)
      else Tally(Categories(ranked[..Voters(i, k)]))
  {
    if i < k {
      var voters := Categories(ranked[..i + 1]);
      assert voters[..i] == Categories(ranked[..i]);
    }
  }

  lemma DistancesOfSnoc<C>(ranked: seq<ObservationWithDistance<C>>, i: nat)
    requires i < |ranked|
    ensures DistancesOf(ranked[..i + 1]) == DistancesOf(ranked[..i]) + [ranked[i].distance]
  {
  }

  lemma ClosestStep<C>(ranked: seq<ObservationWithDistance<C>>, i: nat)
    requires i < |ranked|
    ensures ClosestPerCategory(ranked[..i + 1]) == Closer(ClosestPerCategory(ranked[..i]), ranked[i])
  {
    assert ranked[..i + 1][..i] == ranked[..i];
  }

  /**
   * The index loop of `infer`: fills the distance array in ranking order, counts
   * a vote for each entry with index below `k`, and keeps the closest distance
   * per category over every entry.
   */
  method CountNeighbours<C(==)>(observedDistances: seq<ObservationWithDistance<C>>, k: int)
    returns (inferenceResult: map<C, nat>, closestToEachCategory: map<C, Distance>, distances: seq<Distance>)
    ensures distances == DistancesOf(observedDistances)
    ensures inferenceResult == Tally(Categories(observedDistances[..Voters(|observedDistances|, k)]))
    ensures closestToEachCategory == ClosestPerCategory(observedDistances)
  {
    var n := |observedDistances|;
    inferenceResult := map[];
    closestToEachCategory := map[];
    var buffer := new Distance[n];

    for i := 0 to n
      invariant buffer[..i] == DistancesOf(observedDistances[..i])
      invariant inferenceResult == Tally(Categories(observedDistances[..Voters(i, k)]))
      invariant closestToEachCategory == ClosestPerCategory(observedDistances[..i])
    {
      var o := observedDistances[i];
      buffer[i] := o.distance;
      assert buffer[..i + 1] == buffer[..i] + [o.distance];
      DistancesOfSnoc(observedDistances, i);
      TallyStep(observedDistances, i, k);
      if i < k {
        if o.category !in inferenceResult {
          inferenceResult := inferenceResult[o.category := 1];
        } else {
          var previous := inferenceResult[o.category];
          inferenceResult := inferenceResult[o.category := previous + 1];
        }
      }
      ClosestStep(observedDistances, i);
      if o.category !in closestToEachCategory || Below(o.distance, closestToEachCategory[o.category]) {
        closestToEachCategory := closestToEachCategory[o.category := o.distance];
      }
    }
    assert observedDistances[..n] == observedDistances;
    assert buffer[..] == buffer[..n];
    distances := buffer[..];
  }

  /** `infer`, over the learned memory `patterns`. */
  method InferOver<C(==)>(patterns: seq<Observation<C>>, k: int, columns: seq<int32>) returns (out: Inference<C>)
    requires Compatible(patterns, columns)
    ensures IsInferenceOf(out, patterns, k, columns)
  {
    if patterns == [] {
      return Null;
    }
    var observedDistances := SortByDistance(Measure(patterns, columns));
    SortPermutes(Measure(patterns, columns));
    var inferenceResult, closestToEachCategory, distances := CountNeighbours(observedDistances, k);

    var voters := Categories(observedDistances[..Voters(|observedDistances|, k)]);
    TallyCounts(voters);
    assert voters != [] ==> voters[0] in inferenceResult;
    if inferenceResult == map[] {
      return NoSuchElement;
    }
    var winner := SelectWinner(inferenceResult);
    out := Inferred(KnnClassifierResult(winner, inferenceResult, closestToEachCategory, distances));
  }

  /** The offset and the learning iteration after `compute` has seen `recordNum`. */
  function Track(recordNumMinusLearnIteration: int32, learnIteration: int32, recordNum: int32): (state: (int32, int32)) {
    var offset := if recordNumMinusLearnIteration == -1 then Sub(recordNum, learnIteration) else recordNumMinusLearnIteration;
    (offset, Sub(recordNum, offset))
  }

  /** Once the offset is set (anything but -1), `compute` keeps it. */
  lemma TrackKeepsOffset(offset: int32, learnIteration: int32, recordNum: int32)
    requires offset != -1
    ensures Track(offset, learnIteration, recordNum).0 == offset
  {
  }

  /** After every call, `recordNum - learnIteration` is the offset, also across int overflow. */
  lemma TrackDifference(offset: int32, learnIteration: int32, recordNum: int32)
    ensures var (offset', learnIteration') := Track(offset, learnIteration, recordNum);
      Sub(recordNum, learnIteration') == offset'
  {
    var (offset', _) := Track(offset, learnIteration, recordNum);
    SubSub(recordNum, offset');
  }

  /** The state after `compute` has seen each of `recordNums` in turn. */
  function TrackAll(offset: int32, learnIteration: int32, recordNums: seq<int32>): (state: (int32, int32))
    decreases recordNums
  {
    if recordNums == [] then (offset, learnIteration)
    else
      var (offset', learnIteration') := Track(offset, learnIteration, recordNums[0]);
      TrackAll(offset', learnIteration', recordNums[1..])
  }

  /**
   * Once set, the offset never changes, and every later learning iteration is the
   * record number minus that offset, however far apart the record numbers are.
   */
  lemma {:induction false} OffsetStaysFixed(offset: int32, learnIteration: int32, recordNums: seq<int32>)
    requires offset != -1
    ensures TrackAll(offset, learnIteration, recordNums).0 == offset
    ensures recordNums != [] ==> Sub(recordNums[|recordNums| - 1], TrackAll(offset, learnIteration, recordNums).1) == offset
    decreases recordNums
  {
    if recordNums != [] {
      var (offset', learnIteration') := Track(offset, learnIteration, recordNums[0]);
      TrackDifference(offset, learnIteration, recordNums[0]);
      OffsetStaysFixed(offset', learnIteration', recordNums[1..]);
    }
  }

  /** Record numbers 10, 11, 15 give learning iterations 0, 1, 5 and fix the offset at 10. */
  lemma GappedRecordNumbers()
    ensures TrackAll(-1, 0, [10]) == (10, 0)
    ensures TrackAll(-1, 0, [10, 11]) == (10, 1)
    ensures TrackAll(-1, 0, [10, 11, 15]) == (10, 5)
  {
  }

  /** When the computed offset is itself -1 it reads as unset and is computed again on the next call. */
  lemma SentinelOffsetRecomputed()
    ensures Track(-1, 0, -1) == (-1, 0)
    ensures Track(-1, 0, 4) == (4, 0)
  {
  }

  /** The distances of an inference: one per observation, ascending, a permutation of the observations' own. */
  lemma InferenceDistances<C>(out: Inference<C>, memory: seq<Observation<C>>, k: int, columns: seq<int32>)
    requires Compatible(memory, columns) && IsInferenceOf(out, memory, k, columns) && out.Inferred?
    ensures |out.result.distances| == |memory|
    ensures Ascending(out.result.distances)
    ensures multiset(out.result.distances) == multiset(DistancesOf(Measure(memory, columns)))
  {
    var ms := Measure(memory, columns);
    SortPermutes(ms);
    SortSorted(ms);
    SortPermutesDistances(ms);
  }

  /**
   * The votes of an inference: a category has votes exactly when it is among the
   * first `min(k, n)` ranked observations, as many as it occurs there, and the
   * votes add up to `min(k, n)`.
   */
  lemma InferenceVotes<C>(out: Inference<C>, memory: seq<Observation<C>>, k: int, columns: seq<int32>)
    requires Compatible(memory, columns) && IsInferenceOf(out, memory, k, columns) && out.Inferred?
    ensures var top := Categories(Ranked(memory, columns)[..Voters(|memory|, k)]);
      && (forall c :: c in out.result.GetInferenceResult() <==> c in top)
      && (forall c :: c in out.result.GetInferenceResult() ==> out.result.GetInferenceResult()[c] == Count(top, c) >= 1)
      && MapSum(out.result.GetInferenceResult()) == |top| == if k < |memory| then k else |memory|
  {
    var top := Categories(Ranked(memory, columns)[..Voters(|memory|, k)]);
    TallyCounts(top);
    TallySum(top);
  }

  /** The winner of an inference has as many votes as any other category. */
  lemma InferenceWinner<C>(out: Inference<C>, memory: seq<Observation<C>>, k: int, columns: seq<int32>)
    requires Compatible(memory, columns) && IsInferenceOf(out, memory, k, columns) && out.Inferred?
    ensures out.result.GetWinner() in out.result.GetInferenceResult()
    ensures forall c :: c in out.result.GetInferenceResult() ==>
      out.result.GetInferenceResult()[c] <= out.result.GetInferenceResult()[out.result.GetWinner()]
  {
  }

  /**
   * The closest distances of an inference: a category has one exactly when some
   * learned observation has that category, and it is the least distance of all
   * such observations, not only of those that voted.
   */
  lemma InferenceClosest<C>(out: Inference<C>, memory: seq<Observation<C>>, k: int, columns: seq<int32>, c: C)
    requires Compatible(memory, columns) && IsInferenceOf(out, memory, k, columns) && out.Inferred?
    ensures c in out.result.categoryDistance <==> exists i :: 0 <= i < |memory| && memory[i].category == c
    ensures c in out.result.categoryDistance ==>
      && (exists i :: 0 <= i < |memory| && memory[i].category == c
                      && out.result.GetClosestToCategory(c) == EuclideanDistance(memory[i].input, columns))
      && (forall i :: 0 <= i < |memory| && memory[i].category == c ==>
            out.result.GetClosestToCategory(c).squared <= EuclideanDistance(memory[i].input, columns).squared)
  {
    var ms := Measure(memory, columns);
    var ranked := Ranked(memory, columns);
    SortPermutes(ms);
    ClosestIsMinimum(ranked);
    var closest := out.result.categoryDistance;
    if exists i :: 0 <= i < |memory| && memory[i].category == c {
      var i :| 0 <= i < |memory| && memory[i].category == c;
      assert ms[i] in multiset(ranked);
    }
    if c in closest {
      var p :| 0 <= p < |ranked| && ranked[p].category == c && ranked[p].distance == closest[c];
      assert ranked[p] in multiset(ms);
      var i :| 0 <= i < |ms| && ms[i] == ranked[p];
      assert memory[i].category == c;
      forall j | 0 <= j < |memory| && memory[j].category == c
        ensures closest[c].squared <= EuclideanDistance(memory[j].input, columns).squared
      {
        assert ms[j] in multiset(ranked);
        var q :| 0 <= q < |ranked| && ranked[q] == ms[j];
      }
    }
  }

  /** The classifier: `k`, the learned memory, and the record-number bookkeeping. */
  class KnnClassifier<C(==)> {
    /** The number of nearest entries that vote. */
    const k: int32
    /** The learned memory, in learning order; it only ever grows. */
    var patterns: seq<Observation<C>>
    var learnIteration: int32
    /** The offset between record numbers and learning iterations; -1 while unset. */
    var recordNumMinusLearnIteration: int32
    /** The (learning iteration, pattern) pairs `compute` has recorded. */
    ghost var patternNZHistory: seq<(int32, seq<int32>)>

    constructor (k: int32)
      ensures this.k == k && patterns == []
      ensures learnIteration == 0 && recordNumMinusLearnIteration == -1 && patternNZHistory == []
    {
      this.k := k;
      patterns := [];
      learnIteration := 0;
      recordNumMinusLearnIteration := -1;
      patternNZHistory := [];
    }

    /** `learn`: appends one observation, without comparing its length to the others. */
    method Learn(key: seq<int32>, value: C)
      modifies this`patterns
      ensures patterns == old(patterns) + [Observation(key, value)]
    {
      patterns := patterns + [Observation(key, value)];
    }

    /** `infer`: classifies `columns` against everything learned so far. */
    method Infer(columns: seq<int32>) returns (out: Inference<C>)
      requires Compatible(patterns, columns)
      ensures IsInferenceOf(out, patterns, k as int, columns)
    {
      out := InferOver(patterns, k as int, columns);
    }

    /**
     * `compute`: brings the learning iteration in line with `recordNum`, records
     * the pattern, infers when asked (before learning, so never against the
     * pattern itself), then learns it when asked and a bucket index is present,
     * unless the inference threw.
     */
    method Compute(recordNum: int32, classification: Classification<C>, patternNZ: seq<int32>, learn: bool, infer: bool)
      returns (result: Inference<C>)
      requires infer ==> Compatible(patterns, patternNZ)
      modifies this
      ensures (recordNumMinusLearnIteration, learnIteration) == Track(old(recordNumMinusLearnIteration), old(learnIteration), recordNum)
      ensures patternNZHistory == old(patternNZHistory) + [(learnIteration, patternNZ)]
      ensures infer ==> IsInferenceOf(result, old(patterns), k as int, patternNZ)
      ensures !infer ==> result == Null
      ensures result.NoSuchElement? <==> infer && old(patterns) != [] && k <= 0
      ensures patterns == if learn && classification.bucketIdx.Some? && !result.NoSuchElement?
                          then old(patterns) + [Observation(patternNZ, classification.actValue)]
                          else old(patterns)
    {
      if recordNumMinusLearnIteration == -1 {
        recordNumMinusLearnIteration := Sub(recordNum, learnIteration);
      }
      learnIteration := Sub(recordNum, recordNumMinusLearnIteration);
      patternNZHistory := patternNZHistory + [(learnIteration, patternNZ)];

      result := Null;
      if infer {
        result := Infer(patternNZ);
        if result.NoSuchElement? {
          // the exception leaves `compute` before it can learn
          return;
        }
      }
      if learn && classification.bucketIdx.Some? {
        var actValue := classification.actValue;
        Learn(patternNZ, actValue);
      }
    }
  }
}
