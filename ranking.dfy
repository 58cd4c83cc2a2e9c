/**
 * The first stage of `KnnClassifier.infer`: every learned observation is paired
 * with its distance to the query, and the pairs are stably sorted by distance.
 */
module Ranking {
  import opened JavaInt
  import opened Distances

  /** One learned (pattern, category) pair. */
  datatype Observation<C> = Observation(input: seq<int32>, category: C)

  /** An observation together with its distance from the pattern being classified. */
  datatype ObservationWithDistance<C> = ObservationWithDistance(input: seq<int32>, category: C, distance: Distance)

  /** Every learned pattern has the length of the query, as `getDistance` asserts. */
  predicate Compatible<C>(memory: seq<Observation<C>>, columns: seq<int32>) {
    forall i :: 0 <= i < |memory| ==> |memory[i].input| == |columns|
  }

  /** The stream's `map` step: each observation with `getDistance(x.input, columns)`. */
  function Measure<C>(memory: seq<Observation<C>>, columns: seq<int32>): (ns: seq<ObservationWithDistance<C>>)
    requires Compatible(memory, columns)
    ensures |ns| == |memory|
    ensures forall i :: 0 <= i < |ns| ==>
      ns[i] == ObservationWithDistance(memory[i].input, memory[i].category, EuclideanDistance(memory[i].input, columns))
  {
    seq(|memory|, i requires 0 <= i < |memory| =>
      ObservationWithDistance(memory[i].input, memory[i].category, EuclideanDistance(memory[i].input, columns)))
  }

  /** The distances of `ns`, in order: the `distances` array that `infer` fills. */
  function DistancesOf<C>(ns: seq<ObservationWithDistance<C>>): (ds: seq<Distance>)
    ensures |ds| == |ns| && forall i :: 0 <= i < |ns| ==> ds[i] == ns[i].distance
  {
    seq(|ns|, i requires 0 <= i < |ns| => ns[i].distance)
  }

  ghost predicate SortedByDistance<C>(ns: seq<ObservationWithDistance<C>>) {
    forall i, j :: 0 <= i < j < |ns| ==> ns[i].distance.squared <= ns[j].distance.squared
  }

  ghost predicate Ascending(ds: seq<Distance>) {
    forall i, j :: 0 <= i < j < |ds| ==> ds[i].squared <= ds[j].squared
  }

  /** The entries of `ns` at distance `d`, in their order in `ns`. */
  function AtDistance<C>(ns: seq<ObservationWithDistance<C>>, d: Distance): (at: seq<ObservationWithDistance<C>>) {
    if ns == [] then []
    else (if ns[0].distance == d then [ns[0]] else []) + AtDistance(ns[1..], d)
  }

  /** Puts `x` in front of the first entry of `ns` that is not strictly closer than `x`. */
  function Insert<C>(x: ObservationWithDistance<C>, ns: seq<ObservationWithDistance<C>>): (r: seq<ObservationWithDistance<C>>)
    ensures |r| == |ns| + 1
  {
    if ns == [] || !Below(ns[0].distance, x.distance) then [x] + ns
    else [ns[0]] + Insert(x, ns[1..])
  }

  /**
   * The stream's `sorted((o1, o2) -> Double.compare(o1.distance, o2.distance))`.
   * A sequential stream sorts stably; an insertion sort that puts each earlier
   * entry before the equal later ones is stable too.
   */
  function SortByDistance<C>(ns: seq<ObservationWithDistance<C>>): (ranked: seq<ObservationWithDistance<C>>)
    ensures |ranked| == |ns|
  {
    if ns == [] then [] else Insert(ns[0], SortByDistance(ns[1..]))
  }

  /** Sorting a sequence with a first entry inserts that entry into the sorted rest. */
  lemma SortCons<C>(x: ObservationWithDistance<C>, ns: seq<ObservationWithDistance<C>>)
    ensures SortByDistance([x] + ns) == Insert(x, SortByDistance(ns))
  {
    assert ([x] + ns)[1..] == ns;
  }

  /** Inserting adds `x` and keeps every entry of `ns`, each as often as before. */
  lemma {:induction false} InsertElements<C>(x: ObservationWithDistance<C>, ns: seq<ObservationWithDistance<C>>)
    ensures multiset(Insert(x, ns)) == multiset([x] + ns)
  {
    if ns != [] && Below(ns[0].distance, x.distance) {
      InsertElements(x, ns[1..]);
      assert ns == [ns[0]] + ns[1..];
      calc {
        multiset(Insert(x, ns));
        multiset([ns[0]]) + multiset(Insert(x, ns[1..]));
        multiset([ns[0]]) + multiset([x]) + multiset(ns[1..]);
        multiset([x] + ns);
      }
    }
  }

  /** Inserting keeps a lower bound that `x` and every entry of `ns` respect. */
  lemma {:induction false} InsertLowerBound<C>(x: ObservationWithDistance<C>, ns: seq<ObservationWithDistance<C>>, b: nat)
    requires b <= x.distance.squared
    requires forall i :: 0 <= i < |ns| ==> b <= ns[i].distance.squared
    ensures forall i :: 0 <= i < |Insert(x, ns)| ==> b <= Insert(x, ns)[i].distance.squared
  {
    if ns != [] && Below(ns[0].distance, x.distance) {
      InsertLowerBound(x, ns[1..], b);
    }
  }

  lemma {:induction false} InsertSorted<C>(x: ObservationWithDistance<C>, ns: seq<ObservationWithDistance<C>>)
    requires SortedByDistance(ns)
    ensures SortedByDistance(Insert(x, ns))
  {
    if ns != [] && Below(ns[0].distance, x.distance) {
      var rest := Insert(x, ns[1..]);
      InsertSorted(x, ns[1..]);
      InsertLowerBound(x, ns[1..], ns[0].distance.squared);
      var r := Insert(x, ns);
      assert r == [ns[0]] + rest;
      forall i, j | 0 <= i < j < |r| ensures r[i].distance.squared <= r[j].distance.squared {
        assert r[j] == rest[j - 1];
        if i > 0 {
          assert r[i] == rest[i - 1];
        }
      }
    }
  }

  /** The ranking is ordered by non-decreasing distance. */
  lemma {:induction false} SortSorted<C>(ns: seq<ObservationWithDistance<C>>)
    ensures SortedByDistance(SortByDistance(ns))
  {
    if ns != [] {
      SortSorted(ns[1..]);
      InsertSorted(ns[0], SortByDistance(ns[1..]));
    }
  }

  /** The ranking holds exactly the measured observations, each as often as before. */
  lemma {:induction false} SortPermutes<C>(ns: seq<ObservationWithDistance<C>>)
    ensures multiset(SortByDistance(ns)) == multiset(ns)
    ensures |SortByDistance(ns)| == |ns|
  {
    if ns != [] {
      SortPermutes(ns[1..]);
      InsertElements(ns[0], SortByDistance(ns[1..]));
      assert ns == [ns[0]] + ns[1..];
    }
    assert |multiset(SortByDistance(ns))| == |SortByDistance(ns)|;
  }

  lemma {:induction false} AtDistanceCons<C>(x: ObservationWithDistance<C>, ns: seq<ObservationWithDistance<C>>, d: Distance)
    ensures AtDistance([x] + ns, d) == (if x.distance == d then [x] else []) + AtDistance(ns, d)
  {
    assert ([x] + ns)[1..] == ns;
  }

  lemma {:induction false} InsertStable<C>(x: ObservationWithDistance<C>, ns: seq<ObservationWithDistance<C>>, d: Distance)
    ensures AtDistance(Insert(x, ns), d) == (if x.distance == d then [x] else []) + AtDistance(ns, d)
  {
    if ns == [] || !Below(ns[0].distance, x.distance) {
      AtDistanceCons(x, ns, d);
    } else {
      InsertStable(x, ns[1..], d);
      AtDistanceCons(ns[0], Insert(x, ns[1..]), d);
    }
  }

  /**
   * The sort is stable: for every distance, the entries at that distance come
   * out in the order they went in.
   */
  lemma {:induction false} SortStable<C>(ns: seq<ObservationWithDistance<C>>, d: Distance)
    ensures AtDistance(SortByDistance(ns), d) == AtDistance(ns, d)
  {
    if ns != [] {
      SortStable(ns[1..], d);
      InsertStable(ns[0], SortByDistance(ns[1..]), d);
    }
  }

  lemma {:induction false} DistancesOfCons<C>(x: ObservationWithDistance<C>, ns: seq<ObservationWithDistance<C>>)
    ensures DistancesOf([x] + ns) == [x.distance] + DistancesOf(ns)
  {
  }

  lemma {:induction false} InsertDistances<C>(x: ObservationWithDistance<C>, ns: seq<ObservationWithDistance<C>>)
    ensures multiset(DistancesOf(Insert(x, ns))) == multiset{x.distance} + multiset(DistancesOf(ns))
  {
    if ns == [] || !Below(ns[0].distance, x.distance) {
      DistancesOfCons(x, ns);
    } else {
      InsertDistances(x, ns[1..]);
      DistancesOfCons(ns[0], Insert(x, ns[1..]));
      DistancesOfCons(ns[0], ns[1..]);
      assert ns == [ns[0]] + ns[1..];
    }
  }

  /** The sorted distances are a permutation of the distances before sorting. */
  lemma {:induction false} SortPermutesDistances<C>(ns: seq<ObservationWithDistance<C>>)
    ensures multiset(DistancesOf(SortByDistance(ns))) == multiset(DistancesOf(ns))
  {
    if ns != [] {
      SortPermutesDistances(ns[1..]);
      InsertDistances(ns[0], SortByDistance(ns[1..]));
      DistancesOfCons(ns[0], ns[1..]);
      assert ns == [ns[0]] + ns[1..];
    }
  }

  lemma {:induction false} AtDistanceFirst<C>(ns: seq<ObservationWithDistance<C>>, d: Distance, i: nat)
    requires i < |ns| && ns[i].distance == d
    requires forall j :: 0 <= j < i ==> ns[j].distance != d
    ensures AtDistance(ns, d) != [] && AtDistance(ns, d)[0] == ns[i]
  {
    if i > 0 {
      AtDistanceFirst(ns[1..], d, i - 1);
    }
  }

  /**
   * A query equal to a learned pattern is ranked first against the earliest
   * observation with that pattern, at distance zero.
   */
  lemma ExactMatchRankedFirst<C>(memory: seq<Observation<C>>, columns: seq<int32>, i: nat)
    requires Compatible(memory, columns)
    requires i < |memory| && memory[i].input == columns
    requires forall j :: 0 <= j < i ==> memory[j].input != columns
    ensures var ranked := SortByDistance(Measure(memory, columns));
      |ranked| == |memory| && ranked[0].distance == Sqrt(0)
      && ranked[0] == ObservationWithDistance(memory[i].input, memory[i].category, Sqrt(0))
  {
    var ms := Measure(memory, columns);
    var ranked := SortByDistance(ms);
    SortPermutes(ms);
    SortSorted(ms);
    DistanceZeroIffEqual(memory[i].input, columns);
    forall j | 0 <= j < i ensures ms[j].distance != Sqrt(0) {
      DistanceZeroIffEqual(memory[j].input, columns);
    }
    AtDistanceFirst(ms, Sqrt(0), i);
    SortStable(ms, Sqrt(0));
    assert ms[i] in multiset(ranked);
    var p :| 0 <= p < |ranked| && ranked[p] == ms[i];
    assert ranked[0].distance.squared <= ranked[p].distance.squared || p == 0;
    AtDistanceFirst(ranked, Sqrt(0), 0);
  }
}
