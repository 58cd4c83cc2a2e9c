/**
 * The counting loop of `KnnClassifier.infer`: votes per category among the
 * nearest entries, the closest distance per category over all entries, and the
 * choice of a winner with the most votes.
 */
module Tallies {
  import opened Distances
  import opened Ranking

  /** The categories of `ns`, in order. */
  function Categories<C(==)>(ns: seq<ObservationWithDistance<C>>): (cats: seq<C>)
    ensures |cats| == |ns| && forall i :: 0 <= i < |ns| ==> cats[i] == ns[i].category
  {
    seq(|ns|, i requires 0 <= i < |ns| => ns[i].category)
  }

  /** How many entries of `cats` are `c`. */
  function Count<C(==)>(cats: seq<C>, c: C): (n: nat) {
    if cats == [] then 0
    else Count(cats[..|cats| - 1], c) + (if cats[|cats| - 1] == c then 1 else 0)
  }

  /** One more vote for `c`: `put(c, 1)` for a new key, `put(c, previous + 1)` otherwise. */
  function Vote<C(==)>(votes: map<C, nat>, c: C): (votes': map<C, nat>) {
    if c !in votes then votes[c := 1] else votes[c := votes[c] + 1]
  }

  /** The vote map after voting for each of `cats` in turn, starting from an empty map. */
  function Tally<C(==)>(cats: seq<C>): (votes: map<C, nat>) {
    if cats == [] then map[] else Vote(Tally(cats[..|cats| - 1]), cats[|cats| - 1])
  }

  /**
   * The tally has a key for exactly the categories that occur; each key's value
   * is the number of its occurrences, so at least one.
   */
  lemma {:induction false} TallyCounts<C>(cats: seq<C>)
    ensures forall c :: c in Tally(cats) <==> c in cats
    ensures forall c :: Count(cats, c) == if c in Tally(cats) then Tally(cats)[c] else 0
    ensures forall c :: c in Tally(cats) ==> Tally(cats)[c] >= 1
  {
    if cats != [] {
      var prefix := cats[..|cats| - 1];
      TallyCounts(prefix);
      assert cats == prefix + [cats[|cats| - 1]];
      forall c ensures c in cats <==> c in prefix || c == cats[|cats| - 1] {
      }
    }
  }

  /** The sum of the values of `m`. */
  ghost function MapSum<C>(m: map<C, nat>): (sum: nat)
    decreases |m|
  {
    if m == map[] then 0
    else
      var c :| c in m;
      assert |(m - {c}).Keys| == |m.Keys - {c}| == |m.Keys| - 1;
      m[c] + MapSum(m - {c})
  }

  /** The sum can be taken starting from any key. */
  lemma MapSumRemove<C>(m: map<C, nat>, c: C)
    requires c in m
    ensures MapSum(m) == m[c] + MapSum(m - {c})
    decreases |m|
  {
    var c' :| c' in m && MapSum(m) == m[c'] + MapSum(m - {c'});
    if c' != c {
      assert |(m - {c'}).Keys| == |m.Keys - {c'}| == |m.Keys| - 1;
      assert |(m - {c}).Keys| == |m.Keys - {c}| == |m.Keys| - 1;
      MapSumRemove(m - {c'}, c);
      MapSumRemove(m - {c}, c');
      assert m - {c'} - {c} == m - {c} - {c'};
    }
  }

  lemma VoteSum<C>(votes: map<C, nat>, c: C)
    ensures MapSum(Vote(votes, c)) == MapSum(votes) + 1
  {
    var v := Vote(votes, c);
    MapSumRemove(v, c);
    if c in votes {
      MapSumRemove(votes, c);
      assert v - {c} == votes - {c};
    } else {
      assert v - {c} == votes;
    }
  }

  /** Every entry casts exactly one vote: the counts add up to the number of entries. */
  lemma {:induction false} TallySum<C>(cats: seq<C>)
    ensures MapSum(Tally(cats)) == |cats|
  {
    if cats != [] {
      TallySum(cats[..|cats| - 1]);
      VoteSum(Tally(cats[..|cats| - 1]), cats[|cats| - 1]);
    }
  }

  /**
   * One step of the closest-distance bookkeeping: the entry's distance is kept
   * when its category has none yet or when it is strictly smaller.
   */
  function Closer<C(==)>(closest: map<C, Distance>, o: ObservationWithDistance<C>): (closest': map<C, Distance>) {
    if o.category !in closest || Below(o.distance, closest[o.category]) then closest[o.category := o.distance]
    else closest
  }

  /** The closest-distance map after visiting every entry of `ns` in order. */
  function ClosestPerCategory<C(==)>(ns: seq<ObservationWithDistance<C>>): (closest: map<C, Distance>) {
    if ns == [] then map[] else Closer(ClosestPerCategory(ns[..|ns| - 1]), ns[|ns| - 1])
  }

  /**
   * The closest-distance map has a key for exactly the categories of `ns`, and
   * each value is the least distance of any entry of that category.
   */
  lemma {:induction false} ClosestIsMinimum<C>(ns: seq<ObservationWithDistance<C>>)
    ensures forall c :: c in ClosestPerCategory(ns) <==> exists i :: 0 <= i < |ns| && ns[i].category == c
    ensures forall c :: c in ClosestPerCategory(ns) ==>
      exists i :: 0 <= i < |ns| && ns[i].category == c && ns[i].distance == ClosestPerCategory(ns)[c]
    ensures forall c, i :: 0 <= i < |ns| && ns[i].category == c && c in ClosestPerCategory(ns) ==>
      ClosestPerCategory(ns)[c].squared <= ns[i].distance.squared
  {
    if ns != [] {
      var n := |ns| - 1;
      var prefix := ns[..n];
      ClosestIsMinimum(prefix);
      var m, m' := ClosestPerCategory(prefix), ClosestPerCategory(ns);
      assert forall i :: 0 <= i < n ==> prefix[i] == ns[i];
      forall c ensures c in m' <==> exists i :: 0 <= i < |ns| && ns[i].category == c {
        if c in m' && c != ns[n].category {
          var i :| 0 <= i < n && prefix[i].category == c;
        }
      }
      forall c | c in m' ensures exists i :: 0 <= i < |ns| && ns[i].category == c && ns[i].distance == m'[c] {
        if m'[c] != ns[n].distance || c != ns[n].category {
          var i :| 0 <= i < n && prefix[i].category == c && prefix[i].distance == m[c];
        }
      }
    }
  }

  /** `w` has a vote count no other category exceeds. */
  predicate IsWinner<C(==)>(votes: map<C, nat>, w: C) {
    w in votes && forall c :: c in votes ==> votes[c] <= votes[w]
  }

  /** A non-empty vote map has a category with the most votes. */
  lemma WinnerExists<C>(votes: map<C, nat>)
    requires votes != map[]
    ensures exists w :: IsWinner(votes, w)
    decreases |votes|
  {
    var c :| c in votes;
    var rest := votes - {c};
    assert forall d :: d in votes ==> d == c || d in rest;
    if rest == map[] {
      assert IsWinner(votes, c);
    } else {
      assert |rest.Keys| == |votes.Keys - {c}| == |votes.Keys| - 1;
      WinnerExists(rest);
      var w :| IsWinner(rest, w);
      if votes[c] >= rest[w] {
        assert IsWinner(votes, c);
      } else {
        assert IsWinner(votes, w);
      }
    }
  }

  /**
   * The stream that sorts the vote entries by descending count and takes the
   * first: some category with the most votes. Which of several tied categories
   * comes first depends on `HashMap` iteration order, so it is left open here.
   */
  method SelectWinner<C(==)>(votes: map<C, nat>) returns (winner: C)
    requires votes != map[]
    ensures IsWinner(votes, winner)
  {
    WinnerExists(votes);
    winner :| IsWinner(votes, winner);
  }
}
