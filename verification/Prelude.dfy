/** Failure-compatible results and the sequence vocabulary shared by every component. */
module Wrappers {

  datatype Option<+T> = None | Some(value: T)

  datatype Result<+T, +E> = Ok(value: T) | Err(error: E)
}

/** Unsigned 32-bit counters. */
module Counters {

  const TWO_32 := 0x1_0000_0000

  /** A build with overflow checks would stop instead of wrapping. */
  function Increment(n: nat): nat {
    (n + 1) % TWO_32
  }

  function Wrapped(n: nat): nat {
    n % TWO_32
  }

  lemma WrapsOnce(n: nat)
    ensures Increment(Wrapped(n)) == Wrapped(n + 1)
    ensures n < TWO_32 ==> Wrapped(n) == n
  {
  }
}

/** Finite sets. */
module Sets {

  lemma {:induction false} SubsetCardinality<T>(a: set<T>, b: set<T>)
    requires a <= b
    ensures |a| <= |b|
  {
    if a != {} {
      var x :| x in a;
      SubsetCardinality(a - {x}, b - {x});
    }
  }
}

/** Searching, filtering, and order-preserving subsequences. */
module Sequences {

  /** Index of the first element that satisfies `p`, or the length. */
  function FirstWhere<T>(s: seq<T>, p: T -> bool): (i: nat)
    ensures i <= |s|
    ensures i < |s| ==> p(s[i])
    ensures forall j :: 0 <= j < i ==> !p(s[j])
  {
    if s == [] || p(s[0]) then 0 else 1 + FirstWhere(s[1..], p)
  }

  /** The elements that satisfy `keep`, in order. */
  function Filter<T(!new)>(s: seq<T>, keep: T -> bool): (kept: seq<T>)
    ensures forall x :: x in kept <==> x in s && keep(x)
  {
    if s == [] then []
    else
      var x, rest := s[|s| - 1], Filter(s[..|s| - 1], keep);
      assert forall y :: y in s <==> y in s[..|s| - 1] || y == x;
      if keep(x) then rest + [x] else rest
  }

  /** `a` arises from `b` by deleting elements, the order of the rest kept. */
  ghost predicate Subsequence<T>(a: seq<T>, b: seq<T>)
    decreases |b|
  {
    || a == []
    || (&& b != []
        && (|| Subsequence(a, b[..|b| - 1])
            || (a[|a| - 1] == b[|b| - 1] && Subsequence(a[..|a| - 1], b[..|b| - 1]))))
  }

  lemma SubsequenceSkip<T>(a: seq<T>, b: seq<T>, x: T)
    requires Subsequence(a, b)
    ensures Subsequence(a, b + [x])
  {
    assert (b + [x])[..|b|] == b;
  }

  lemma SubsequenceKeep<T>(a: seq<T>, b: seq<T>, x: T)
    requires Subsequence(a, b)
    ensures Subsequence(a + [x], b + [x])
  {
    assert (b + [x])[..|b|] == b;
    assert (a + [x])[..|a|] == a;
  }

  lemma {:induction false} SubsequenceAppendRight<T>(a: seq<T>, b: seq<T>, c: seq<T>)
    requires Subsequence(a, b)
    ensures Subsequence(a, b + c)
    decreases |c|
  {
    if c == [] {
      assert b + c == b;
    } else {
      var front, x := c[..|c| - 1], c[|c| - 1];
      SubsequenceAppendRight(a, b, front);
      SubsequenceSkip(a, b + front, x);
      assert b + c == b + front + [x];
    }
  }

  lemma {:induction false} SubsequenceTransitive<T>(a: seq<T>, b: seq<T>, c: seq<T>)
    requires Subsequence(a, b) && Subsequence(b, c)
    ensures Subsequence(a, c)
    decreases |c|
  {
    if a == [] {
      return;
    }
    var c' := c[..|c| - 1];
    if Subsequence(b, c') {
      SubsequenceTransitive(a, b, c');
    } else {
      var b' := b[..|b| - 1];
      if Subsequence(a, b') {
        SubsequenceTransitive(a, b', c');
      } else {
        SubsequenceTransitive(a[..|a| - 1], b', c');
      }
    }
  }

  lemma {:induction false} SubsequenceAppendLeft<T>(b: seq<T>, c: seq<T>)
    ensures Subsequence(c, b + c)
    decreases |c|
  {
    if c != [] {
      var front, x := c[..|c| - 1], c[|c| - 1];
      SubsequenceAppendLeft(b, front);
      assert front + [x] == c;
      assert (b + front) + [x] == b + c;
      SubsequenceKeep(front, b + front, x);
    }
  }

  lemma SliceOfPrefix<T>(a: seq<T>, b: seq<T>, lo: nat, hi: nat)
    requires a <= b && lo <= hi <= |a|
    ensures b[lo..hi] == a[lo..hi]
  {
    assert forall i :: 0 <= i < |a| ==> b[i] == a[i];
  }

  lemma SliceIsSubsequence<T>(b: seq<T>, lo: nat, hi: nat)
    requires lo <= hi <= |b|
    ensures Subsequence(b[lo..hi], b)
  {
    SubsequenceAppendLeft(b[..lo], b[lo..hi]);
    SubsequenceAppendRight(b[lo..hi], b[..lo] + b[lo..hi], b[hi..]);
    assert b == b[..lo] + b[lo..hi] + b[hi..];
  }

  lemma StretchGrows<T>(a: seq<T>, b: seq<T>, lo: nat, hi: nat)
    requires lo <= hi < |b| && Subsequence(a, b[lo..hi])
    ensures Subsequence(a + [b[hi]], b[lo..hi + 1])
    ensures a == b[lo..hi] ==> a + [b[hi]] == b[lo..hi + 1]
  {
    SubsequenceKeep(a, b[lo..hi], b[hi]);
    assert b[lo..hi + 1] == b[lo..hi] + [b[hi]];
  }

  lemma StretchSkips<T>(a: seq<T>, b: seq<T>, lo: nat, mid: nat, hi: nat)
    requires lo <= mid <= hi <= |b| && Subsequence(a, b[lo..mid])
    ensures Subsequence(a, b[lo..hi])
  {
    SubsequenceAppendRight(a, b[lo..mid], b[mid..hi]);
    assert b[lo..hi] == b[lo..mid] + b[mid..hi];
  }

  lemma {:induction false} SubsequenceMembers<T>(a: seq<T>, b: seq<T>, x: T)
    requires Subsequence(a, b) && x in a
    ensures x in b
    decreases |b|
  {
    var front := b[..|b| - 1];
    if Subsequence(a, front) {
      SubsequenceMembers(a, front, x);
    } else if x != b[|b| - 1] {
      SubsequenceMembers(a[..|a| - 1], front, x);
    }
  }

  /** The positions of a subsequence: strictly increasing, one per element. */
  lemma {:induction false} SubsequencePositions<T>(a: seq<T>, b: seq<T>) returns (f: seq<nat>)
    requires Subsequence(a, b)
    ensures |f| == |a|
    ensures forall i :: 0 <= i < |f| ==> f[i] < |b| && a[i] == b[f[i]]
    ensures forall i, j :: 0 <= i < j < |f| ==> f[i] < f[j]
    decreases |b|
  {
    if a == [] {
      f := [];
    } else if Subsequence(a, b[..|b| - 1]) {
      f := SubsequencePositions(a, b[..|b| - 1]);
    } else {
      var g := SubsequencePositions(a[..|a| - 1], b[..|b| - 1]);
      var n: nat := |b| - 1;
      f := g + [n];
    }
  }

  lemma {:induction false} FilterKeepsOrder<T(!new)>(s: seq<T>, keep: T -> bool)
    ensures Subsequence(Filter(s, keep), s)
  {
    if s != [] {
      var front, x := s[..|s| - 1], s[|s| - 1];
      FilterKeepsOrder(front, keep);
      assert s == front + [x];
      if keep(x) {
        SubsequenceKeep(Filter(front, keep), front, x);
      } else {
        SubsequenceSkip(Filter(front, keep), front, x);
      }
    }
  }

  lemma {:induction false} FilterKeepsCount<T(!new)>(s: seq<T>, keep: T -> bool, x: T)
    ensures multiset(Filter(s, keep))[x] == if keep(x) then multiset(s)[x] else 0
  {
    if s != [] {
      FilterKeepsCount(s[..|s| - 1], keep, x);
      assert s == s[..|s| - 1] + [s[|s| - 1]];
    }
  }

  /** A filter keeps the order, and each element that satisfies the condition as often as it was there. */
  lemma FilterIsExact<T(!new)>(s: seq<T>, keep: T -> bool)
    ensures Subsequence(Filter(s, keep), s)
    ensures forall x :: multiset(Filter(s, keep))[x] == if keep(x) then multiset(s)[x] else 0
  {
    FilterKeepsOrder(s, keep);
    forall x ensures multiset(Filter(s, keep))[x] == if keep(x) then multiset(s)[x] else 0 {
      FilterKeepsCount(s, keep, x);
    }
  }
}
