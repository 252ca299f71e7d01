/** Ordering of day numbers: `[...new Set(xs)]` (first occurrences, in order),
    `sort()`, `reverse()` and `slice(-n)` as used on date keys. */
module Sorting {

  ghost predicate Distinct(s: seq<int>)
  {
    forall i, j :: 0 <= i < j < |s| ==> s[i] != s[j]
  }

  ghost predicate Ascending(s: seq<int>)
  {
    forall i, j :: 0 <= i < j < |s| ==> s[i] <= s[j]
  }

  ghost predicate StrictlyAscending(s: seq<int>)
  {
    forall i, j :: 0 <= i < j < |s| ==> s[i] < s[j]
  }

  ghost predicate StrictlyDescending(s: seq<int>)
  {
    forall i, j :: 0 <= i < j < |s| ==> s[i] > s[j]
  }

  /** `[...new Set(s)]`: the distinct elements of `s`, in order of first occurrence. */
  function Dedupe(s: seq<int>): (r: seq<int>)
    ensures Distinct(r)
    ensures forall x :: x in r <==> x in s
    ensures |r| <= |s|
  {
    if s == [] then []
    else
      var prev := Dedupe(s[..|s| - 1]);
      if s[|s| - 1] in prev then prev else prev + [s[|s| - 1]]
  }

  /** Insertion of `x` into an ascending list. */
  function InsertAsc(x: int, s: seq<int>): (r: seq<int>)
    requires Ascending(s)
    ensures |r| == |s| + 1
    ensures Ascending(r)
    ensures multiset(r) == multiset(s) + multiset{x}
    ensures r[0] == (if s == [] || x <= s[0] then x else s[0])
  {
    if s == [] || x <= s[0] then
      PrependAscending(x, s);
      [x] + s
    else
      assert s == [s[0]] + s[1..];
      var t := InsertAsc(x, s[1..]);
      PrependAscending(s[0], t);
      [s[0]] + t
  }

  /** A value at most the head of an ascending list can go in front of it. */
  lemma {:induction false} PrependAscending(x: int, t: seq<int>)
    requires Ascending(t)
    requires t != [] ==> x <= t[0]
    ensures Ascending([x] + t)
  {
    var r := [x] + t;
    forall i, j | 0 <= i < j < |r| ensures r[i] <= r[j] {
      if i == 0 {
        assert r[j] == t[j - 1];
        assert t[0] <= t[j - 1];
      } else {
        assert r[i] == t[i - 1] && r[j] == t[j - 1];
      }
    }
  }

  /** Array `sort()` on day numbers: an ascending permutation of the input. */
  function SortAsc(s: seq<int>): (r: seq<int>)
    ensures Ascending(r)
    ensures multiset(r) == multiset(s)
  {
    if s == [] then []
    else
      assert s == [s[0]] + s[1..];
      InsertAsc(s[0], SortAsc(s[1..]))
  }

  /** `reverse()`. */
  function Reverse(s: seq<int>): (r: seq<int>)
    ensures |r| == |s|
    ensures forall i :: 0 <= i < |s| ==> r[i] == s[|s| - 1 - i]
    ensures forall x :: x in r <==> x in s
  {
    if s == [] then []
    else
      assert forall x :: x in s <==> x == s[0] || x in s[1..];
      Reverse(s[1..]) + [s[0]]
  }

  /** `slice(-n)`: the last `n` elements, or all of them when there are fewer. */
  function LastN(s: seq<int>, n: nat): (r: seq<int>)
    ensures |r| == if |s| < n then |s| else n
    ensures forall i :: 0 <= i < |r| ==> r[i] == s[|s| - |r| + i]
  {
    if |s| <= n then s else s[|s| - n..]
  }

  /** A sorted list without repeated elements is strictly ascending. */
  lemma {:induction false} AscendingDistinctIsStrict(s: seq<int>)
    requires Ascending(s) && Distinct(s)
    ensures StrictlyAscending(s)
  {
  }

  /** Multiset of a duplicate-free list: every element counts once. */
  lemma {:induction false} DistinctCounts(s: seq<int>, x: int)
    requires Distinct(s)
    ensures multiset(s)[x] == if x in s then 1 else 0
  {
    if s != [] {
      var t := s[..|s| - 1];
      assert s == t + [s[|s| - 1]];
      assert Distinct(t);
      DistinctCounts(t, x);
      assert s[|s| - 1] !in t;
    }
  }

  /** An element found at two positions is counted at least twice. */
  lemma {:induction false} TwoOccurrences(r: seq<int>, i: nat, j: nat)
    requires i < j < |r| && r[i] == r[j]
    ensures multiset(r)[r[i]] >= 2
  {
    assert r == r[..i] + [r[i]] + r[i + 1..];
    assert r[j] in r[i + 1..] by {
      assert r[i + 1..][j - i - 1] == r[j];
    }
  }

  /** Distinct elements stay distinct under any permutation. */
  lemma {:induction false} PermutationKeepsDistinct(s: seq<int>, r: seq<int>)
    requires Distinct(s) && multiset(r) == multiset(s)
    ensures Distinct(r)
  {
    forall i, j | 0 <= i < j < |r|
      ensures r[i] != r[j]
    {
      DistinctCounts(s, r[i]);
      if r[i] == r[j] {
        TwoOccurrences(r, i, j);
        assert false;
      }
    }
  }

  /** Sorting the deduplicated list gives each element once, in strictly ascending order. */
  lemma {:induction false} SortedDedupe(s: seq<int>)
    ensures StrictlyAscending(SortAsc(Dedupe(s)))
    ensures forall x :: x in SortAsc(Dedupe(s)) <==> x in s
    ensures |SortAsc(Dedupe(s))| <= |s|
  {
    var d := Dedupe(s);
    var a := SortAsc(d);
    PermutationKeepsDistinct(d, a);
    AscendingDistinctIsStrict(a);
    forall x
      ensures x in a <==> x in s
    {
      assert x in a <==> x in multiset(a);
      assert x in d <==> x in multiset(d);
    }
    assert |a| == |multiset(a)| == |multiset(d)| == |d|;
  }

  /** The day numbers of a list, each once, newest first: `[...new Set(s)].sort().reverse()`. */
  function DistinctDescending(s: seq<int>): (r: seq<int>)
    ensures StrictlyDescending(r)
    ensures forall x :: x in r <==> x in s
    ensures |r| <= |s|
  {
    SortedDedupe(s);
    Reverse(SortAsc(Dedupe(s)))
  }

  /** Two strictly descending lists holding the same elements are equal. */
  lemma {:induction false} StrictlyDescendingUnique(a: seq<int>, b: seq<int>)
    requires StrictlyDescending(a) && StrictlyDescending(b)
    requires forall x :: x in a <==> x in b
    ensures a == b
  {
    if a != [] { assert a[0] in a; assert a[0] in b; }
    if b != [] { assert b[0] in b; assert b[0] in a; }
    if a != [] && b != [] {
      assert a[0] in b && b[0] in a;
      assert a[0] == b[0];
      forall x
        ensures x in a[1..] <==> x in b[1..]
      {
        assert x in a <==> x == a[0] || x in a[1..];
        assert x in b <==> x == b[0] || x in b[1..];
      }
      StrictlyDescendingUnique(a[1..], b[1..]);
    }
  }

  /** A list without repeated elements has as many elements as its set of elements. */
  lemma {:induction false} DistinctSetSize(s: seq<int>)
    requires Distinct(s)
    ensures |set x | x in s| == |s|
  {
    if s != [] {
      var t := s[1..];
      assert Distinct(t);
      DistinctSetSize(t);
      assert s[0] !in t by {
        forall j | 0 <= j < |t| ensures t[j] != s[0] {
          assert t[j] == s[j + 1];
        }
      }
      assert (set x | x in s) == {s[0]} + (set x | x in t) by {
        assert s == [s[0]] + t;
      }
    }
  }

  /** The last `n > 0` elements of a strictly ascending list are its largest:
      they stay strictly ascending, and every element left out is below the first one kept. */
  lemma {:induction false} LastNOfAscending(s: seq<int>, n: nat)
    requires StrictlyAscending(s) && n > 0
    ensures StrictlyAscending(LastN(s, n))
    ensures forall x :: x in LastN(s, n) ==> x in s
    ensures forall x :: x in s && x !in LastN(s, n) ==> LastN(s, n) != [] && x < LastN(s, n)[0]
  {
    var r := LastN(s, n);
    var off := |s| - |r|;
    forall x | x in r ensures x in s {
      var i :| 0 <= i < |r| && r[i] == x;
      assert s[off + i] == x;
    }
    forall x | x in s && x !in r ensures r != [] && x < r[0] {
      var k :| 0 <= k < |s| && s[k] == x;
      assert k < off;
    }
  }
}
