/**
 * Python's `sorted(xs, key=..., reverse=...)`, which is stable in both
 * directions: elements with equal keys keep their original order. The model
 * sorts positions 0..n-1 of a key list; the result is the unique
 * arrangement that orders by key and breaks ties by original position, so
 * any stable sort, Python's included, produces it.
 */
module Sorting {

  /** Position i goes before position j: a better key, or an equal key and an earlier position. */
  predicate Before(keys: seq<real>, descending: bool, i: nat, j: nat)
    requires i < |keys| && j < |keys|
  {
    if keys[i] == keys[j] then i < j
    else if descending then keys[i] > keys[j]
    else keys[i] < keys[j]
  }

  predicate InRange(keys: seq<real>, idx: seq<nat>) {
    forall t :: 0 <= t < |idx| ==> idx[t] < |keys|
  }

  /** Every earlier position of idx goes strictly before every later one. */
  predicate StrictlySorted(keys: seq<real>, descending: bool, idx: seq<nat>)
    requires InRange(keys, idx)
  {
    forall a, b :: 0 <= a < b < |idx| ==> Before(keys, descending, idx[a], idx[b])
  }

  /** Inserts position i into a strictly sorted list of other positions. */
  function Insert(keys: seq<real>, descending: bool, i: nat, idx: seq<nat>): (r: seq<nat>)
    requires i < |keys| && InRange(keys, idx) && StrictlySorted(keys, descending, idx)
    requires i !in idx
    ensures |r| == |idx| + 1
    ensures forall x :: x in r <==> x == i || x in idx
    ensures InRange(keys, r) && StrictlySorted(keys, descending, r)
  {
    if idx == [] then [i]
    else if Before(keys, descending, i, idx[0]) then [i] + idx
    else
      var rest := Insert(keys, descending, i, idx[1..]);
      assert forall t :: 0 <= t < |rest| ==> Before(keys, descending, idx[0], rest[t]) by {
        forall t | 0 <= t < |rest| ensures Before(keys, descending, idx[0], rest[t]) {
          assert rest[t] in rest;
          if rest[t] != i {
            var u :| 0 <= u < |idx[1..]| && idx[1..][u] == rest[t];
            assert idx[u + 1] == rest[t];
          }
        }
      }
      [idx[0]] + rest
  }

  /** The positions 0..m-1 of keys, sorted. */
  function SortPrefix(keys: seq<real>, descending: bool, m: nat): (r: seq<nat>)
    requires m <= |keys|
    ensures |r| == m
    ensures forall x :: x in r <==> 0 <= x < m
    ensures InRange(keys, r) && StrictlySorted(keys, descending, r)
  {
    if m == 0 then []
    else
      var prev := SortPrefix(keys, descending, m - 1);
      var r := Insert(keys, descending, m - 1, prev);
      assert forall x :: x in r <==> x == m - 1 || 0 <= x < m - 1;
      r
  }

  /** The stable sort of all positions of keys. */
  function SortIndices(keys: seq<real>, descending: bool): seq<nat> {
    SortPrefix(keys, descending, |keys|)
  }

  /** A stably sorted result is a permutation of the positions, ordered by key with ties in original order. */
  lemma SortIndicesSpec(keys: seq<real>, descending: bool)
    ensures |SortIndices(keys, descending)| == |keys|
    ensures forall x :: x in SortIndices(keys, descending) <==> 0 <= x < |keys|
    ensures InRange(keys, SortIndices(keys, descending))
    ensures StrictlySorted(keys, descending, SortIndices(keys, descending))
  {
  }

  /** The first position after sorting has the best key, and is the earliest such position. */
  lemma SortFirst(keys: seq<real>, descending: bool, i: nat)
    requires i < |keys|
    ensures |SortIndices(keys, descending)| == |keys|
    ensures var f := SortIndices(keys, descending)[0];
      f < |keys| &&
      (if descending then keys[f] >= keys[i] else keys[f] <= keys[i]) &&
      (keys[f] == keys[i] ==> f <= i)
  {
    var r := SortIndices(keys, descending);
    assert i in r;
    var t :| 0 <= t < |r| && r[t] == i;
    if t > 0 {
      assert Before(keys, descending, r[0], r[t]);
    }
  }

  /**
   * The sorted arrangement is unique: any strictly sorted list that holds
   * exactly the positions below m is the one SortPrefix builds. Python's
   * stable `sorted` yields such a list, so it yields this one.
   */
  lemma {:induction false} SortedUnique(keys: seq<real>, descending: bool, idx: seq<nat>, m: nat)
    requires m <= |keys| && InRange(keys, idx) && StrictlySorted(keys, descending, idx)
    requires forall x :: x in idx <==> 0 <= x < m
    ensures idx == SortPrefix(keys, descending, m)
  {
    var r := SortPrefix(keys, descending, m);
    SameSortedLists(keys, descending, idx, r);
  }

  lemma {:induction false} SameSortedLists(keys: seq<real>, descending: bool, a: seq<nat>, b: seq<nat>)
    requires InRange(keys, a) && StrictlySorted(keys, descending, a)
    requires InRange(keys, b) && StrictlySorted(keys, descending, b)
    requires forall x :: x in a <==> x in b
    ensures a == b
  {
    assert a != [] ==> a[0] in b;
    assert b != [] ==> b[0] in a;
    if a != [] && b != [] {
      var s :| 0 <= s < |b| && b[s] == a[0];
      var t :| 0 <= t < |a| && a[t] == b[0];
      assert s == 0 && t == 0;
      forall x ensures x in a[1..] <==> x in b[1..] {
        if x in a[1..] {
          var u :| 1 <= u < |a| && a[u] == x;
          assert Before(keys, descending, a[0], a[u]);
          assert a[u] in a;
          var v :| 0 <= v < |b| && b[v] == x;
          assert v != 0;
        }
        if x in b[1..] {
          var v :| 1 <= v < |b| && b[v] == x;
          assert Before(keys, descending, b[0], b[v]);
          assert b[v] in b;
          var u :| 0 <= u < |a| && a[u] == x;
          assert u != 0;
        }
      }
      SameSortedLists(keys, descending, a[1..], b[1..]);
      assert a == [a[0]] + a[1..];
      assert b == [b[0]] + b[1..];
    }
  }
}
