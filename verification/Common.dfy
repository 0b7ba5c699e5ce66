/** Small helpers shared by every part of the model. */
module Common {

  datatype Option<+T> = None | Some(value: T)

  datatype Result<+T, +E> = Ok(value: T) | Err(error: E)

  lemma Pick<T>(s: set<T>) returns (x: T)
    requires s != {}
    ensures x in s
  {
    x :| x in s;
  }

  /** An element in no particular order, as a database returns rows. */
  method PickAny<T(==)>(s: set<T>) returns (x: T)
    requires s != {}
    ensures x in s
  {
    x :| x in s;
  }

  lemma {:induction false} SubsetCardinality<T>(a: set<T>, b: set<T>)
    requires a <= b
    ensures |a| <= |b|
  {
    assert b == a + (b - a);
    assert |b| == |a| + |b - a|;
  }

  /** The elements of a duplicate-free sequence are as many as the sequence is long. */
  lemma {:induction false} DistinctCardinality<T>(s: seq<T>)
    requires forall i, j :: 0 <= i < j < |s| ==> s[i] != s[j]
    ensures |set x | x in s| == |s|
  {
    if s == [] {
      assert (set x | x in s) == {};
    } else {
      DistinctCardinality(s[1..]);
      assert (set x | x in s) == {s[0]} + set x | x in s[1..];
    }
  }
}

/** Ids in ascending order, the order the queries ask for. */
module Ordering {
  import opened Common

  lemma {:induction false} MinExists(s: set<int>)
    requires s != {}
    ensures exists m :: m in s && forall x | x in s :: m <= x
  {
    var a := Pick(s);
    if s == {a} {
      assert a in s && forall x | x in s :: a <= x;
    } else {
      var rest := s - {a};
      MinExists(rest);
      var m :| m in rest && forall x | x in rest :: m <= x;
      assert forall x | x in s :: x == a || x in rest;
      if a < m {
        assert a in s && forall x | x in s :: a <= x;
      } else {
        assert m in s && forall x | x in s :: m <= x;
      }
    }
  }

  function Min(s: set<int>): (m: int)
    requires s != {}
    ensures m in s && forall x | x in s :: m <= x
  {
    MinExists(s);
    var m :| m in s && forall x | x in s :: m <= x;
    m
  }

  ghost predicate Ascending(s: seq<int>) {
    forall i, j :: 0 <= i < j < |s| ==> s[i] < s[j]
  }

  ghost predicate IsSorted(r: seq<int>, s: set<int>) {
    && Ascending(r) && |r| == |s|
    && (forall i :: 0 <= i < |r| ==> r[i] in s) && (forall x | x in s :: x in r)
  }

  lemma SortedStep(m: int, rest: seq<int>, s: set<int>)
    requires m in s && (forall x | x in s :: m <= x) && IsSorted(rest, s - {m})
    ensures IsSorted([m] + rest, s)
  {
    var r := [m] + rest;
    forall x | x in s ensures x in r {
      assert x == m || x in rest;
    }
  }

  /** The elements of `s` in ascending order. */
  function Sorted(s: set<int>): (r: seq<int>)
    ensures IsSorted(r, s)
    decreases |s|
  {
    if s == {} then []
    else
      var m := Min(s);
      SortedStep(m, Sorted(s - {m}), s);
      [m] + Sorted(s - {m})
  }

  function Elements(s: seq<int>): set<int> {
    set x | x in s
  }
}
