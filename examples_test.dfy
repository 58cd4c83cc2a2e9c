/** The worked cases of `KnnClassifierTest`, proved from the model. */
module KnnExamples {
  import opened JavaInt
  import opened Distances
  import opened Ranking
  import opened Tallies
  import opened KnnResult
  import opened KnnClassifier

  /** `testGetDistance`: equal patterns are at distance 0, and the second pair at sqrt 3. */
  method TestGetDistance() returns (same: Distance, apart: Distance)
    ensures same == Sqrt(0) && apart == Sqrt(3)
  {
    same := GetDistance(TestVector(), TestVector());
    DistanceZeroIffEqual(TestVector(), TestVector());
    apart := GetDistance(TestVector(), OtherTestVector());
    TestApart();
  }

  /** The vectors `a`, `b` and `c` of `testGetDistance`, which are equal. */
  function TestVector(): (v: seq<int32>) {
    [0, 1, 1, 1, 0]
  }

  /** The vector `d` of `testGetDistance`. */
  function OtherTestVector(): (v: seq<int32>) {
    [0, 1, 0, 0, 1]
  }

  lemma TestApart()
    ensures EuclideanDistance(TestVector(), OtherTestVector()) == Sqrt(3)
  {
    assert SquaredSum(TestVector(), OtherTestVector(), 5) == 3;
  }

  /** The seven observations `testKnnClassifier` learns, in order. */
  function TestMemory(): (memory: seq<Observation<string>>) {
    [ Observation([0, 0, 0, 0, 1, 1, 1, 1], "one"),
      Observation([0, 0, 0, 0, 1, 1, 0, 1], "one"),
      Observation([0, 0, 0, 1, 1, 1, 1, 0], "one"),
      Observation([1, 1, 1, 1, 0, 0, 0, 0], "two"),
      Observation([1, 1, 1, 1, 1, 0, 0, 0], "two"),
      Observation([0, 1, 1, 1, 0, 0, 0, 0], "two"),
      Observation([1, 0, 1, 1, 0, 0, 0, 0], "two") ]
  }

  function TestQuery(): (query: seq<int32>) {
    [0, 0, 0, 0, 1, 1, 1, 1]
  }

  /** The learned observations measured against the query: squared distances 0, 1, 2, 8, 7, 7, 7. */
  function TestMeasured(): (measured: seq<ObservationWithDistance<string>>) {
    var memory := TestMemory();
    [ ObservationWithDistance(memory[0].input, "one", Sqrt(0)),
      ObservationWithDistance(memory[1].input, "one", Sqrt(1)),
      ObservationWithDistance(memory[2].input, "one", Sqrt(2)),
      ObservationWithDistance(memory[3].input, "two", Sqrt(8)),
      ObservationWithDistance(memory[4].input, "two", Sqrt(7)),
      ObservationWithDistance(memory[5].input, "two", Sqrt(7)),
      ObservationWithDistance(memory[6].input, "two", Sqrt(7)) ]
  }

  /** The distance from the query to learned observation `i`, one observation at a time. */
  lemma TestDistance0()
    ensures EuclideanDistance(TestMemory()[0].input, TestQuery()) == TestMeasured()[0].distance
  {
    assert SquaredSum(TestMemory()[0].input, TestQuery(), 8) == 0;
  }

  lemma TestDistance1()
    ensures EuclideanDistance(TestMemory()[1].input, TestQuery()) == TestMeasured()[1].distance
  {
    assert SquaredSum(TestMemory()[1].input, TestQuery(), 8) == 1;
  }

  lemma TestDistance2()
    ensures EuclideanDistance(TestMemory()[2].input, TestQuery()) == TestMeasured()[2].distance
  {
    assert SquaredSum(TestMemory()[2].input, TestQuery(), 8) == 2;
  }

  lemma TestDistance3()
    ensures EuclideanDistance(TestMemory()[3].input, TestQuery()) == TestMeasured()[3].distance
  {
    assert SquaredSum(TestMemory()[3].input, TestQuery(), 8) == 8;
  }

  lemma TestDistance4()
    ensures EuclideanDistance(TestMemory()[4].input, TestQuery()) == TestMeasured()[4].distance
  {
    assert SquaredSum(TestMemory()[4].input, TestQuery(), 8) == 7;
  }

  lemma TestDistance5()
    ensures EuclideanDistance(TestMemory()[5].input, TestQuery()) == TestMeasured()[5].distance
  {
    assert SquaredSum(TestMemory()[5].input, TestQuery(), 8) == 7;
  }

  lemma TestDistance6()
    ensures EuclideanDistance(TestMemory()[6].input, TestQuery()) == TestMeasured()[6].distance
  {
    assert SquaredSum(TestMemory()[6].input, TestQuery(), 8) == 7;
  }

  /** Every learned pattern of the test has the query's eight columns. */
  lemma TestCompatible()
    ensures Compatible(TestMemory(), TestQuery())
  {
    var memory := TestMemory();
    assert forall i :: 0 <= i < |memory| ==> |memory[i].input| == 8;
  }

  /** The measured observations of the test, with squared distances 0, 1, 2, 8, 7, 7, 7. */
  lemma TestMeasure()
    ensures Compatible(TestMemory(), TestQuery())
    ensures Measure(TestMemory(), TestQuery()) == TestMeasured()
  {
    TestCompatible();
    TestDistance0(); TestDistance1(); TestDistance2(); TestDistance3();
    TestDistance4(); TestDistance5(); TestDistance6();
    var ms, m := Measure(TestMemory(), TestQuery()), TestMeasured();
    assert |ms| == |m| == 7;
    forall i | 0 <= i < 7 ensures ms[i] == m[i] {
      assert m[i].input == TestMemory()[i].input && m[i].category == TestMemory()[i].category;
    }
  }

  /** The last learned "two", at squared distance 8, goes behind the three at 7. */
  lemma TestInsertFarthest(a3: ObservationWithDistance<string>, a4: ObservationWithDistance<string>,
                           a5: ObservationWithDistance<string>, a6: ObservationWithDistance<string>)
    requires a3.distance == Sqrt(8) && a4.distance == a5.distance == a6.distance == Sqrt(7)
    ensures Insert(a3, [a4, a5, a6]) == [a4, a5, a6, a3]
  {
    assert Insert(a3, []) == [a3];
    assert Insert(a3, [a6]) == [a6, a3] by { assert [a6][1..] == []; }
    assert Insert(a3, [a5, a6]) == [a5, a6, a3] by { assert [a5, a6][1..] == [a6]; }
    assert [a4, a5, a6][1..] == [a5, a6];
  }

  /** The stable ranking of the test: the three "one" observations, then the "two" ones at 7 in learning order, then 8. */
  lemma TestRanking()
    ensures Compatible(TestMemory(), TestQuery())
    ensures var m := TestMeasured();
      Ranked(TestMemory(), TestQuery()) == [m[0], m[1], m[2], m[4], m[5], m[6], m[3]]
  {
    TestMeasure();
    var m := TestMeasured();
    var a0, a1, a2, a3, a4, a5, a6 := m[0], m[1], m[2], m[3], m[4], m[5], m[6];
    assert m == [a0] + ([a1] + ([a2] + ([a3] + ([a4] + ([a5] + [a6])))));
    SortCons(a6, []);
    SortCons(a5, [a6]);
    SortCons(a4, [a5, a6]);
    SortCons(a3, [a4, a5, a6]);
    TestInsertFarthest(a3, a4, a5, a6);
    SortCons(a2, [a3, a4, a5, a6]);
    SortCons(a1, [a2, a3, a4, a5, a6]);
    SortCons(a0, [a1, a2, a3, a4, a5, a6]);
  }

  /** Three votes for "one" tally to a single key with count 3. */
  lemma TestTally()
    ensures Tally(["one", "one", "one"]) == map["one" := 3]
  {
    var one: seq<string> := ["one"];
    assert ["one", "one", "one"][..2] == ["one", "one"];
    assert ["one", "one"][..1] == one;
    assert one[..0] == [];
  }

  /** The three nearest observations are all "one": three votes for "one". */
  lemma TestVotes(ranked: seq<ObservationWithDistance<string>>)
    requires var m := TestMeasured(); ranked == [m[0], m[1], m[2], m[4], m[5], m[6], m[3]]
    ensures Tally(Categories(ranked[..3])) == map["one" := 3]
  {
    var m := TestMeasured();
    assert ranked[..3] == [m[0], m[1], m[2]];
    assert Categories(ranked[..3]) == ["one", "one", "one"];
    TestTally();
  }

  /** Among the ranked observations, the closest "two" is at squared distance 7. */
  lemma TestClosest(ranked: seq<ObservationWithDistance<string>>)
    requires var m := TestMeasured(); ranked == [m[0], m[1], m[2], m[4], m[5], m[6], m[3]]
    ensures "two" in ClosestPerCategory(ranked) && ClosestPerCategory(ranked)["two"] == Sqrt(7)
  {
    ClosestIsMinimum(ranked);
    assert ranked[3].category == "two" && ranked[3].distance == Sqrt(7);
    assert forall i :: 0 <= i < |ranked| && ranked[i].category == "two" ==> ranked[i].distance.squared >= 7;
  }

  /**
   * `testKnnClassifier`: with k = 3 the winner is "one", with 3 votes, and the
   * closest "two" is at distance sqrt 7.
   */
  lemma TestKnnClassifier(out: Inference<string>)
    requires Compatible(TestMemory(), TestQuery())
    requires IsInferenceOf(out, TestMemory(), 3, TestQuery())
    ensures out.Inferred?
    ensures out.result.GetWinner() == "one"
    ensures out.result.GetInferenceResult()["one"] == 3
    ensures "two" in out.result.categoryDistance && out.result.GetClosestToCategory("two") == Sqrt(7)
  {
    TestRanking();
    var ranked := Ranked(TestMemory(), TestQuery());
    assert Voters(|TestMemory()|, 3) == 3;
    TestVotes(ranked);
    TestClosest(ranked);
  }

  /**
   * `testKnnClassifier` as a run of the classifier: learn the seven observations
   * in order, infer on the query, and read the winner, the votes for "one" and
   * the closest "two".
   */
  method TestKnnClassifierRun() returns (winner: string, votes: nat, closest: Distance)
    ensures winner == "one" && votes == 3 && closest == Sqrt(7)
  {
    var classifier := new KnnClassifier<string>(3);
    var memory := TestMemory();
    var i := 0;
    while i < |memory|
      invariant 0 <= i <= |memory|
      invariant classifier.k == 3 && classifier.patterns == memory[..i]
    {
      classifier.Learn(memory[i].input, memory[i].category);
      assert memory[..i + 1] == memory[..i] + [memory[i]];
      i := i + 1;
    }
    assert memory[..i] == memory;
    TestMeasure();
    var out := classifier.Infer(TestQuery());
    TestKnnClassifier(out);
    winner := out.result.GetWinner();
    votes := out.result.GetInferenceResult()["one"];
    closest := out.result.GetClosestToCategory("two");
  }

  /**
   * With k = 0 the inference of `compute` throws, and the exception leaves
   * `compute` before it learns: memory keeps its one observation.
   */
  method TestComputeWithoutNeighbours() returns (result: Inference<int>, learned: nat)
    ensures result == NoSuchElement && learned == 1
  {
    var classifier := new KnnClassifier<int>(0);
    classifier.Learn([1], 7);
    result := classifier.Compute(5, Classification(Some(0), 9), [1], true, true);
    learned := |classifier.patterns|;
  }
}
