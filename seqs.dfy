/** The JavaScript array built-ins the application relies on (`indexOf`,
    `Math.max(...xs)`, numeric `sort`), stated over sequences, together with
    the ordering and distinctness facts the rest of the model uses. */
module Seqs {

  /** No value occurs twice. */
  predicate Distinct<T(==)>(s: seq<T>) {
    forall i, j :: 0 <= i < j < |s| ==> s[i] != s[j]
  }

  /** Non-decreasing order, what `sort((a, b) => a - b)` produces. */
  predicate Ascending(s: seq<int>) {
    forall i, j :: 0 <= i < j < |s| ==> s[i] <= s[j]
  }

  predicate StrictlyAscending(s: seq<int>) {
    forall i, j :: 0 <= i < j < |s| ==> s[i] < s[j]
  }

  /** `Array.prototype.indexOf`: the first position holding `x`, or -1. */
  function IndexOf<T(==)>(s: seq<T>, x: T): (i: int)
    ensures -1 <= i < |s|
    ensures i == -1 <==> x !in s
    ensures 0 <= i ==> s[i] == x && x !in s[..i]
  {
    if s == [] then -1
    else if s[0] == x then 0
    else
      var j := IndexOf(s[1..], x);
      if j == -1 then -1
      else
        assert s[..j + 1] == [s[0]] + s[1..][..j];
        j + 1
  }

  /** `Math.max(...s)` for a non-empty list. */
  function MaxOf(s: seq<int>): (m: int)
    requires s != []
    ensures m in s
    ensures forall i :: 0 <= i < |s| ==> s[i] <= m
  {
    if |s| == 1 then s[0]
    else
      var rest := MaxOf(s[1..]);
      if s[0] >= rest then s[0] else rest
  }

  /** One step of insertion sort: `x` goes in front of the first element
      that is not smaller than it. */
  function InsertAscending(s: seq<int>, x: int): (r: seq<int>)
    requires Ascending(s)
    ensures Ascending(r)
    ensures multiset(r) == multiset(s) + multiset{x}
  {
    if s == [] || x <= s[0] then
      ConsAscending(x, s);
      [x] + s
    else
      var rest := InsertAscending(s[1..], x);
      InsertedAbove(s, x, rest);
      ConsAscending(s[0], rest);
      assert s == [s[0]] + s[1..];
      [s[0]] + rest
  }

  /** Putting a lower bound of an ascending list in front keeps it ascending. */
  lemma ConsAscending(h: int, t: seq<int>)
    requires Ascending(t)
    requires t == [] || h <= t[0]
    ensures Ascending([h] + t)
  {
  }

  /** Inserting a value above the head of an ascending list leaves only
      values above that head in the tail. */
  lemma InsertedAbove(s: seq<int>, x: int, rest: seq<int>)
    requires Ascending(s) && s != [] && s[0] < x
    requires multiset(rest) == multiset(s[1..]) + multiset{x}
    ensures rest == [] || s[0] <= rest[0]
  {
    if rest != [] {
      assert rest[0] in multiset(rest);
      if rest[0] != x {
        assert rest[0] in s[1..];
      }
    }
  }

  /** Numeric `Array.prototype.sort((a, b) => a - b)`: an ascending
      permutation of its input. */
  method SortAscending(s: seq<int>) returns (r: seq<int>)
    ensures Ascending(r)
    ensures multiset(r) == multiset(s)
  {
    r := [];
    var i := 0;
    while i < |s|
      invariant 0 <= i <= |s|
      invariant Ascending(r)
      invariant multiset(r) == multiset(s[..i])
    {
      assert s[..i + 1] == s[..i] + [s[i]];
      r := InsertAscending(r, s[i]);
      i := i + 1;
    }
    assert s[..|s|] == s;
  }

  /** An ascending order of a multiset is unique, so every correct numeric
      sort returns the same list. */
  lemma {:induction false} AscendingUnique(a: seq<int>, b: seq<int>)
    requires Ascending(a) && Ascending(b)
    requires multiset(a) == multiset(b)
    ensures a == b
  {
    assert |a| == |multiset(a)| == |multiset(b)| == |b|;
    if a != [] {
      HeadIsLeast(a, b);
      HeadIsLeast(b, a);
      assert multiset(a) == multiset{a[0]} + multiset(a[1..]) by {
        assert a == [a[0]] + a[1..];
      }
      assert multiset(b) == multiset{b[0]} + multiset(b[1..]) by {
        assert b == [b[0]] + b[1..];
      }
      assert a[0] == b[0];
      assert multiset(a[1..]) == multiset(a) - multiset{a[0]};
      assert multiset(b[1..]) == multiset(b) - multiset{b[0]};
      AscendingUnique(a[1..], b[1..]);
    }
  }

  /** A strictly ascending list is determined by its set of elements. */
  lemma StrictlyAscendingByMembers(a: seq<int>, b: seq<int>)
    requires StrictlyAscending(a) && StrictlyAscending(b)
    requires forall x :: x in a <==> x in b
    ensures a == b
  {
    forall x ensures multiset(a)[x] == multiset(b)[x] {
      DistinctMultiplicity(a, x);
      DistinctMultiplicity(b, x);
    }
    assert multiset(a) == multiset(b);
    AscendingUnique(a, b);
  }

  /** The head of a non-empty ascending list is at most every element of
      any list with the same elements. */
  lemma HeadIsLeast(a: seq<int>, b: seq<int>)
    requires Ascending(a) && a != []
    requires multiset(a) == multiset(b) && b != []
    ensures a[0] <= b[0]
  {
    assert b[0] in multiset(a);
    var j :| 0 <= j < |a| && a[j] == b[0];
  }

  /** In a duplicate-free list every value occurs at most once. */
  lemma {:induction false} DistinctMultiplicity<T>(s: seq<T>, x: T)
    requires Distinct(s)
    ensures multiset(s)[x] == if x in s then 1 else 0
  {
    if s != [] {
      assert s == [s[0]] + s[1..];
      assert s[0] !in s[1..];
      DistinctMultiplicity(s[1..], x);
    }
  }

  /** Rearranging a duplicate-free list keeps it duplicate-free. */
  lemma PermutationKeepsDistinct<T>(s: seq<T>, r: seq<T>)
    requires Distinct(s)
    requires multiset(r) == multiset(s)
    ensures Distinct(r)
  {
    forall i, j | 0 <= i < j < |r| ensures r[i] != r[j] {
      var x := r[i];
      assert r == r[..j] + [r[j]] + r[j + 1..];
      assert x in r[..j];
      assert multiset(r)[x] >= multiset(r[..j])[x] + multiset([r[j]])[x];
      DistinctMultiplicity(s, x);
    }
  }

  /** A sorted list without duplicates is strictly ascending. */
  lemma AscendingDistinct(s: seq<int>)
    requires Ascending(s) && Distinct(s)
    ensures StrictlyAscending(s)
  {
  }

  /** Pigeonhole: fewer than `n` values leave some value of 1..n unused. */
  lemma {:induction false} UnusedValueExists(s: seq<int>, n: nat)
    requires |s| < n
    ensures exists v :: 1 <= v <= n && v !in s
    decreases n
  {
    if n in s {
      var k :| 0 <= k < |s| && s[k] == n;
      var t := s[..k] + s[k + 1..];
      UnusedValueExists(t, n - 1);
      var v :| 1 <= v <= n - 1 && v !in t;
      forall i | 0 <= i < |s| ensures s[i] != v {
        if i < k {
          assert s[i] == t[i];
        } else if i > k {
          assert s[i] == t[i - 1];
        }
      }
      assert 1 <= v <= n && v !in s;
    } else {
      assert 1 <= n <= n && n !in s;
    }
  }
}
