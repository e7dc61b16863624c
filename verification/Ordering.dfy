/** Sorting and removal of equal neighbours on sequences of integers. */
module Ordering {

  predicate Sorted(s: seq<int>) {
    forall i, j :: 0 <= i < j < |s| ==> s[i] <= s[j]
  }

  predicate Increasing(s: seq<int>) {
    forall i, j :: 0 <= i < j < |s| ==> s[i] < s[j]
  }

  function Insert(x: int, s: seq<int>): (r: seq<int>)
    requires Sorted(s)
    ensures Sorted(r) && multiset(r) == multiset(s) + multiset{x}
    ensures r[0] == if s == [] || x <= s[0] then x else s[0]
  {
    if s == [] || x <= s[0] then [x] + s
    else
      assert s == [s[0]] + s[1..];
      var rest := Insert(x, s[1..]);
      assert Sorted(s[1..]) && rest[0] >= s[0];
      [s[0]] + rest
  }

  function Sort(s: seq<int>): (r: seq<int>)
    ensures Sorted(r) && multiset(r) == multiset(s)
  {
    if s == [] then [] else
      assert s == [s[0]] + s[1..];
      Insert(s[0], Sort(s[1..]))
  }

  /** Keeps one element of every run of equal neighbours. */
  function Dedup(s: seq<int>): (r: seq<int>)
    ensures forall x :: x in r <==> x in s
    ensures Sorted(s) ==> Increasing(r)
    ensures |r| <= |s| && (s != [] ==> r != [] && r[|r| - 1] == s[|s| - 1])
  {
    if |s| <= 1 then s
    else
      assert s == s[..|s| - 1] + [s[|s| - 1]];
      var front := Dedup(s[..|s| - 1]);
      if s[|s| - 2] == s[|s| - 1] then front
      else front + [s[|s| - 1]]
  }

  function SortDedup(s: seq<int>): (r: seq<int>)
    ensures Increasing(r) && forall x :: x in r <==> x in s
    ensures |r| <= |s|
  {
    assert forall x :: x in Sort(s) <==> x in multiset(Sort(s));
    assert |Sort(s)| == |multiset(Sort(s))| == |s|;
    Dedup(Sort(s))
  }

  lemma {:induction false} SortKeepsSorted(s: seq<int>)
    requires Sorted(s)
    ensures Sort(s) == s
  {
    if s != [] {
      SortKeepsSorted(s[1..]);
    }
  }

  ghost function Elements(s: seq<int>): set<int> {
    set x | x in s
  }

  lemma LastIsGreatest(s: seq<int>)
    requires Increasing(s) && |s| > 0
    ensures s[|s| - 1] in Elements(s) && forall x <- Elements(s) :: x <= s[|s| - 1]
    ensures Elements(s[..|s| - 1]) == Elements(s) - {s[|s| - 1]}
  {
    var front, last := s[..|s| - 1], s[|s| - 1];
    assert s == front + [last];
    assert forall i :: 0 <= i < |front| ==> front[i] < last;
  }

  /** An increasing sequence is determined by its elements. */
  lemma {:induction false} IncreasingUnique(s: seq<int>, t: seq<int>)
    requires Increasing(s) && Increasing(t)
    requires Elements(s) == Elements(t)
    ensures s == t
  {
    if |s| > 0 {
      LastIsGreatest(s);
      assert |t| > 0;
      LastIsGreatest(t);
      assert s == s[..|s| - 1] + [s[|s| - 1]] && t == t[..|t| - 1] + [t[|t| - 1]];
      IncreasingUnique(s[..|s| - 1], t[..|t| - 1]);
    } else if |t| > 0 {
      LastIsGreatest(t);
    }
  }

  /** An increasing sequence with elements in a half-open interval is no longer than the interval. */
  lemma {:induction false} IncreasingLength(s: seq<int>, lo: int, hi: int)
    requires Increasing(s)
    requires forall x <- s :: lo <= x < hi
    ensures |s| == 0 || |s| <= hi - lo
  {
    if |s| > 0 {
      var last := s[|s| - 1];
      assert last in s;
      assert forall i :: 0 <= i < |s| - 1 ==> s[i] in s && s[i] < last;
      IncreasingLength(s[..|s| - 1], lo, last);
    }
  }
}
