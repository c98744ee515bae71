/** The ordered collections the analysis is written against: a finite set of
    addresses read out in ascending order, and the prefix searches on it. */
module Ordered {
  datatype Option<+T> = None | Some(value: T) {
    predicate IsFailure() {
      None?
    }

    function PropagateFailure<U>(): Option<U>
      requires None?
    {
      None
    }

    function Extract(): T
      requires Some?
    {
      value
    }
  }

  /** Every element is below the next one, so there are no repeats. */
  ghost predicate Ascending(s: seq<nat>) {
    forall i, j :: 0 <= i < j < |s| ==> s[i] < s[j]
  }

  /** The elements of a list. */
  ghost function Elems<T>(s: seq<T>): set<T> {
    set x | x in s
  }

  lemma MinOfTwo(rest: set<nat>, x: nat, m: nat)
    requires IsMin(m, rest)
    ensures IsMin(if x < m then x else m, rest + {x})
  {
  }

  lemma {:induction false} MinExists(s: set<nat>)
    requires s != {}
    ensures exists m :: IsMin(m, s)
    decreases |s|
  {
    var x :| x in s;
    var rest := s - {x};
    assert s == rest + {x};
    if rest == {} {
      assert IsMin(x, s);
    } else {
      MinExists(rest);
      var m :| IsMin(m, rest);
      MinOfTwo(rest, x, m);
    }
  }

  ghost predicate IsMin(m: nat, s: set<nat>) {
    m in s && forall x :: x in s ==> m <= x
  }

  /** The smallest element. */
  function Min(s: set<nat>): (m: nat)
    requires s != {}
    ensures m in s && forall x :: x in s ==> m <= x
  {
    MinExists(s);
    assert exists m :: m in s && (forall x :: x in s ==> m <= x) by {
      var m :| IsMin(m, s);
      assert m in s;
    }
    var m :| m in s && forall x :: x in s ==> m <= x;
    m
  }

  /** The elements of a set in ascending order, the order a `BTreeSet` or the
      keys of a `BTreeMap` are iterated in. */
  function Sorted(s: set<nat>): (r: seq<nat>)
    ensures Ascending(r)
    ensures forall x :: x in r <==> x in s
    ensures |r| == |s|
    decreases |s|
  {
    if s == {} then [] else
    var m := Min(s);
    [m] + Sorted(s - {m})
  }

  /** Sort, then drop repeats. */
  function SortDedup(s: seq<nat>): (r: seq<nat>)
    ensures Ascending(r)
    ensures forall x :: x in r <==> x in s
  {
    Sorted(set x | x in s)
  }

  /** The first element strictly between two bounds, as a range query on an
      ordered set answers it. */
  function FirstBetween(s: set<nat>, lo: nat, hi: nat): (r: Option<nat>)
    ensures r.Some? ==> r.value in s && lo < r.value < hi
    ensures r.Some? ==> forall x :: x in s && lo < x ==> r.value <= x
    ensures r.None? ==> forall x :: x in s ==> x <= lo || hi <= x
  {
    var within := set x | x in s && lo < x < hi;
    if within == {} then
      assert forall x :: x in s && lo < x < hi ==> x in within;
      None
    else
      assert forall x :: x in s && lo < x < hi ==> x in within;
      Some(Min(within))
  }

  /** Where a list stops satisfying a test, as a binary search for the partition
      point answers it on a list the test splits in two. */
  function PartitionPoint<T>(xs: seq<T>, below: T -> bool): (n: nat)
    ensures n <= |xs|
    ensures forall i :: 0 <= i < n ==> below(xs[i])
    ensures n < |xs| ==> !below(xs[n])
  {
    if xs == [] || !below(xs[0]) then 0 else 1 + PartitionPoint(xs[1..], below)
  }

  ghost predicate Distinct<T>(xs: seq<T>) {
    forall i, j :: 0 <= i < j < |xs| ==> xs[i] != xs[j]
  }

  /** Distinct members of a set are no more than the set holds. */
  lemma {:induction false} DistinctFits<T>(xs: seq<T>, s: set<T>)
    requires Distinct(xs) && forall x :: x in xs ==> x in s
    ensures |xs| <= |s|
  {
    if xs != [] {
      var last, less := xs[|xs| - 1], xs[..|xs| - 1];
      forall x | x in less ensures x in s - {last} {
        assert x in xs;
      }
      DistinctFits(less, s - {last});
    }
  }

  /** A list has no more elements than it is long. */
  lemma {:induction false} ElemsFewer<T>(xs: seq<T>)
    ensures |Elems(xs)| <= |xs|
  {
    if xs != [] {
      var less := xs[..|xs| - 1];
      ElemsFewer(less);
      assert Elems(xs) == Elems(less) + {xs[|xs| - 1]};
    }
  }

  /** The numbers below a bound. */
  ghost function Below(n: nat): (s: set<nat>)
    ensures forall x: nat :: x in s <==> x < n
    ensures |s| == n
  {
    if n == 0 then {} else
    var less := Below(n - 1);
    assert n - 1 !in less;
    less + {n - 1}
  }

  /** A slice cut in two is the two slices. */
  lemma CutSlice<T>(s: seq<T>, a: nat, b: nat, c: nat)
    requires a <= b <= c <= |s|
    ensures s[a..c][..b - a] == s[a..b] && s[a..c][b - a..] == s[b..c]
  {
  }

  lemma CutJoin<T>(a: seq<T>, b: seq<T>)
    ensures (a + b)[..|a|] == a && (a + b)[|a|..] == b
  {
  }

  lemma TakeOneMore<T>(s: seq<T>, k: nat)
    requires k < |s|
    ensures s[..k + 1] == s[..k] + [s[k]]
    ensures Elems(s[..k + 1]) == Elems(s[..k]) + {s[k]}
  {
    assert s[..k + 1] == s[..k] + [s[k]];
  }
}
