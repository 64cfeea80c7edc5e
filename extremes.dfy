/**
 * Every non-empty finite set has an element with the least key. The cache's
 * eviction (oldest `last_accessed` first) and the notification feed (newest
 * `created_at` first) both select elements this way.
 */
module Extremes {

  /** Some element of `s` has a key no larger than that of any other element. */
  lemma {:induction false} LeastExists<K>(s: set<K>, key: K -> int) returns (m: K)
    requires s != {}
    ensures m in s
    ensures forall k :: k in s ==> key(m) <= key(k)
    decreases |s|
  {
    var x :| x in s;
    if s == {x} {
      m := x;
    } else {
      var m' := LeastExists(s - {x}, key);
      m := if key(x) <= key(m') then x else m';
    }
  }

  /** A sequence without repetitions. */
  predicate Distinct<K(==)>(xs: seq<K>) {
    forall i, j :: 0 <= i < j < |xs| ==> xs[i] != xs[j]
  }

  /** A sequence without repetitions whose elements are exactly `s` has one position per element of `s`. */
  lemma {:induction false} DistinctCardinality<K>(xs: seq<K>, s: set<K>)
    requires Distinct(xs) && forall x :: x in xs <==> x in s
    ensures |s| == |xs|
    decreases |xs|
  {
    if xs != [] {
      var last := xs[|xs| - 1];
      var init := xs[..|xs| - 1];
      assert forall x :: x in xs <==> x in init || x == last;
      assert last !in init;
      DistinctCardinality(init, s - {last});
    }
  }
}
