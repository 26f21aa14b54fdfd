/** Ranking by a real-valued key, largest first, with ties broken by input order.

    Python's `sorted(xs, key=k, reverse=True)` is a stable sort, and `reverse=True`
    keeps it stable: items whose keys are equal come out in their input order. Its
    result is therefore the input arranged by the strict total order "larger key
    first, then earlier input position first". This module computes that arrangement
    over the input positions 0..n-1 by insertion, and proves that it lists every
    position exactly once, in that order, and that no other arrangement does. */
module Ranking {

  /** Position p comes before position q in the ranking. */
  predicate Precedes(keys: seq<real>, p: nat, q: nat)
    requires p < |keys| && q < |keys|
  {
    keys[p] > keys[q] || (keys[p] == keys[q] && p < q)
  }

  /** Every element of r is a position of keys. */
  predicate InRange(keys: seq<real>, r: seq<nat>)
  {
    forall i :: 0 <= i < |r| ==> r[i] < |keys|
  }

  /** r is arranged by Precedes. */
  predicate Ordered(keys: seq<real>, r: seq<nat>)
    requires InRange(keys, r)
  {
    forall i, j :: 0 <= i < j < |r| ==> Precedes(keys, r[i], r[j])
  }

  /** Inserts position p in front of the first element it precedes. */
  function Insert(keys: seq<real>, p: nat, r: seq<nat>): (r': seq<nat>)
    requires p < |keys| && InRange(keys, r)
    ensures InRange(keys, r')
    ensures |r'| == |r| + 1
    ensures forall x :: x in r' <==> x == p || x in r
  {
    if r == [] then [p]
    else if Precedes(keys, p, r[0]) then [p] + r
    else
      assert forall x :: x in r <==> x == r[0] || x in r[1..];
      [r[0]] + Insert(keys, p, r[1..])
  }

  /** The positions 0..n-1, ranked. */
  function Rank(keys: seq<real>, n: nat): (r: seq<nat>)
    requires n <= |keys|
    ensures InRange(keys, r)
    ensures |r| == n
  {
    if n == 0 then [] else Insert(keys, n - 1, Rank(keys, n - 1))
  }

  /** Inserting a new position into an ordered sequence keeps it ordered. */
  lemma {:induction false} InsertKeepsOrdered(keys: seq<real>, p: nat, r: seq<nat>)
    requires p < |keys| && InRange(keys, r) && Ordered(keys, r)
    requires p !in r
    ensures Ordered(keys, Insert(keys, p, r))
  {
    if r == [] {
    } else if Precedes(keys, p, r[0]) {
      forall j | 0 < j < |r| ensures Precedes(keys, p, r[j]) {
        assert Precedes(keys, r[0], r[j]);
      }
    } else {
      assert forall k :: 0 <= k < |r[1..]| ==> r[1..][k] == r[k + 1];
      InsertKeepsOrdered(keys, p, r[1..]);
      var rest := Insert(keys, p, r[1..]);
      assert Precedes(keys, r[0], p);
      forall k | 0 <= k < |rest| ensures Precedes(keys, r[0], rest[k]) {
        assert rest[k] in rest;
        if rest[k] != p {
          assert rest[k] in r[1..];
        }
      }
    }
  }

  /** The ranking of n positions lists each of them exactly once. */
  lemma {:induction false} RankLists(keys: seq<real>, n: nat)
    requires n <= |keys|
    ensures forall p: nat :: p in Rank(keys, n) <==> p < n
  {
    if n > 0 {
      RankLists(keys, n - 1);
    }
  }

  /** The ranking of n positions is arranged by Precedes. */
  lemma {:induction false} RankOrdered(keys: seq<real>, n: nat)
    requires n <= |keys|
    ensures Ordered(keys, Rank(keys, n))
  {
    if n > 0 {
      RankLists(keys, n - 1);
      RankOrdered(keys, n - 1);
      InsertKeepsOrdered(keys, n - 1, Rank(keys, n - 1));
    }
  }

  /** Two ordered sequences with the same elements are equal: the order leaves
      no freedom, so the ranking is the only correct answer. */
  lemma {:induction false} OrderedUnique(keys: seq<real>, r1: seq<nat>, r2: seq<nat>)
    requires InRange(keys, r1) && InRange(keys, r2)
    requires Ordered(keys, r1) && Ordered(keys, r2)
    requires forall p :: p in r1 <==> p in r2
    ensures r1 == r2
  {
    assert r1 != [] ==> r1[0] in r1;
    assert r2 != [] ==> r2[0] in r2;
    if r1 == [] {
      if r2 != [] {
        assert false;
      }
    } else {
      assert r2 != [];
      if r1[0] != r2[0] {
        assert false;
      }
      var t1, t2 := r1[1..], r2[1..];
      forall p ensures p in t1 <==> p in t2 {
        if p in t1 {
          var i :| 0 <= i < |t1| && t1[i] == p;
          assert Precedes(keys, r1[0], r1[i + 1]);
          assert p in r2;
          var j :| 0 <= j < |r2| && r2[j] == p;
          assert j != 0;
          assert t2[j - 1] == p;
        }
        if p in t2 {
          var i :| 0 <= i < |t2| && t2[i] == p;
          assert Precedes(keys, r2[0], r2[i + 1]);
          assert p in r1;
          var j :| 0 <= j < |r1| && r1[j] == p;
          assert j != 0;
          assert t1[j - 1] == p;
        }
      }
      OrderedUnique(keys, t1, t2);
      assert r1 == [r1[0]] + t1;
      assert r2 == [r2[0]] + t2;
    }
  }
}
