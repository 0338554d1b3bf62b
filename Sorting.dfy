/**
 * Python's `sorted(xs, key=...)` and `min(xs, key=...)`/`max(xs, key=...)`
 * over a comparator `le` ("a is ordered no later than b").
 *
 * `SortBy` is a stable insertion sort: an element is inserted before the
 * first element it is `le` to, so of two equivalent elements the one that
 * came first in the input stays first.  `MinIndex` scans from the left and
 * replaces its candidate only by a strictly smaller element, as `min` does,
 * so it returns the FIRST minimal element.
 */
module Sorting {

  ghost predicate Total<T(!new)>(le: (T, T) -> bool) {
    forall a, b :: le(a, b) || le(b, a)
  }

  ghost predicate Transitive<T(!new)>(le: (T, T) -> bool) {
    forall a, b, c :: le(a, b) && le(b, c) ==> le(a, c)
  }

  ghost predicate TotalPreorder<T(!new)>(le: (T, T) -> bool) {
    Total(le) && Transitive(le)
  }

  /** Every element is ordered no later than every element after it. */
  ghost predicate Sorted<T>(s: seq<T>, le: (T, T) -> bool) {
    forall i, j :: 0 <= i < j < |s| ==> le(s[i], s[j])
  }

  /** `x` is ordered no later than any element of `s`. */
  ghost predicate IsLeast<T>(x: T, s: seq<T>, le: (T, T) -> bool) {
    forall j :: 0 <= j < |s| ==> le(x, s[j])
  }

  function Insert<T>(x: T, s: seq<T>, le: (T, T) -> bool): (r: seq<T>)
    ensures |r| == |s| + 1
    ensures multiset(r) == multiset(s) + multiset{x}
  {
    if s == [] then [x]
    else if le(x, s[0]) then [x] + s
    else
      assert s == [s[0]] + s[1..];
      [s[0]] + Insert(x, s[1..], le)
  }

  /** `sorted(s, key=...)`: stable insertion sort. */
  function SortBy<T>(s: seq<T>, le: (T, T) -> bool): (r: seq<T>)
    ensures |r| == |s|
    ensures multiset(r) == multiset(s)
  {
    if s == [] then []
    else
      assert s == [s[0]] + s[1..];
      Insert(s[0], SortBy(s[1..], le), le)
  }

  lemma {:induction false} InsertSorted<T(!new)>(x: T, s: seq<T>, le: (T, T) -> bool)
    requires TotalPreorder(le)
    requires Sorted(s, le)
    ensures Sorted(Insert(x, s, le), le)
  {
    if s != [] && !le(x, s[0]) {
      var rest := Insert(x, s[1..], le);
      InsertSorted(x, s[1..], le);
      assert multiset(rest) == multiset(s[1..]) + multiset{x};
      forall j | 0 <= j < |rest| ensures le(s[0], rest[j]) {
        assert rest[j] in multiset(rest);
        if rest[j] == x {
        } else {
          assert rest[j] in multiset(s[1..]);
          var k :| 0 <= k < |s[1..]| && s[1..][k] == rest[j];
          assert s[1 + k] == rest[j];
        }
      }
    }
  }

  /** The result of `SortBy` is sorted when `le` is a total preorder. */
  lemma {:induction false} SortBySorted<T(!new)>(s: seq<T>, le: (T, T) -> bool)
    requires TotalPreorder(le)
    ensures Sorted(SortBy(s, le), le)
  {
    if s != [] {
      SortBySorted(s[1..], le);
      InsertSorted(s[0], SortBy(s[1..], le), le);
    }
  }

  /** Sorting an already sorted sequence changes nothing. */
  lemma {:induction false} SortByOfSorted<T>(s: seq<T>, le: (T, T) -> bool)
    requires Sorted(s, le)
    ensures SortBy(s, le) == s
  {
    if s != [] {
      assert Sorted(s[1..], le);
      SortByOfSorted(s[1..], le);
      assert s == [s[0]] + s[1..];
    }
  }

  /**
   * The head of the stable sort is the first element of the input that is
   * least: every element before it in the input is strictly greater.
   */
  lemma {:induction false} SortByHead<T(!new)>(s: seq<T>, le: (T, T) -> bool) returns (k: nat)
    requires TotalPreorder(le)
    requires |s| > 0
    ensures k < |s| && SortBy(s, le)[0] == s[k]
    ensures IsLeast(s[k], s, le)
    ensures forall i :: 0 <= i < k ==> !le(s[i], s[k])
  {
    if |s| == 1 {
      k := 0;
      return;
    }
    var t := s[1..];
    var k' := SortByHead(t, le);
    var h := SortBy(t, le)[0];
    assert h == t[k'];
    assert SortBy(s, le) == Insert(s[0], SortBy(t, le), le);
    if le(s[0], h) {
      k := 0;
      forall j | 1 <= j < |s| ensures le(s[0], s[j]) {
        assert le(h, t[j - 1]);
      }
    } else {
      k := 1 + k';
      assert le(h, s[0]);
      forall j | 1 <= j < |s| ensures le(s[k], s[j]) {
        assert le(h, t[j - 1]);
      }
      forall i | 1 <= i < k ensures !le(s[i], s[k]) {
        assert !le(t[i - 1], h);
      }
    }
  }

  /** The first least element is unique. */
  lemma FirstLeastUnique<T(!new)>(s: seq<T>, le: (T, T) -> bool, k1: nat, k2: nat)
    requires k1 < |s| && k2 < |s|
    requires IsLeast(s[k1], s, le) && forall i :: 0 <= i < k1 ==> !le(s[i], s[k1])
    requires IsLeast(s[k2], s, le) && forall i :: 0 <= i < k2 ==> !le(s[i], s[k2])
    ensures k1 == k2
  {
  }

  /**
   * `min(s[..n], key=...)`: index of the candidate after scanning the first
   * `n` elements; a later element replaces the candidate only when it is
   * strictly smaller.
   */
  function MinIndexUpTo<T>(s: seq<T>, le: (T, T) -> bool, n: nat): (k: nat)
    requires 0 < n <= |s|
    ensures k < n
  {
    if n == 1 then 0
    else
      var b := MinIndexUpTo(s, le, n - 1);
      if !le(s[b], s[n - 1]) then n - 1 else b
  }

  function MinIndex<T>(s: seq<T>, le: (T, T) -> bool): (k: nat)
    requires |s| > 0
    ensures k < |s|
  {
    MinIndexUpTo(s, le, |s|)
  }

  /** `min` returns the first least element of what it scanned. */
  lemma {:induction false} MinIndexUpToIsFirstLeast<T(!new)>(s: seq<T>, le: (T, T) -> bool, n: nat)
    requires TotalPreorder(le)
    requires 0 < n <= |s|
    ensures IsLeast(s[MinIndexUpTo(s, le, n)], s[..n], le)
    ensures forall i :: 0 <= i < MinIndexUpTo(s, le, n) ==> !le(s[i], s[MinIndexUpTo(s, le, n)])
  {
    if n > 1 {
      MinIndexUpToIsFirstLeast(s, le, n - 1);
      var b := MinIndexUpTo(s, le, n - 1);
      assert forall j :: 0 <= j < n - 1 ==> s[..n - 1][j] == s[j];
      if !le(s[b], s[n - 1]) {
        forall i | 0 <= i < n - 1 ensures !le(s[i], s[n - 1]) {
          assert le(s[b], s[i]);
        }
      }
    }
  }

  lemma MinIndexIsFirstLeast<T(!new)>(s: seq<T>, le: (T, T) -> bool)
    requires TotalPreorder(le)
    requires |s| > 0
    ensures IsLeast(s[MinIndex(s, le)], s, le)
    ensures forall i :: 0 <= i < MinIndex(s, le) ==> !le(s[i], s[MinIndex(s, le)])
  {
    MinIndexUpToIsFirstLeast(s, le, |s|);
    assert s[..|s|] == s;
  }

  /** The head of the stable sort is what `min` with the same order picks. */
  lemma SortByHeadIsMin<T(!new)>(s: seq<T>, le: (T, T) -> bool)
    requires TotalPreorder(le)
    requires |s| > 0
    ensures SortBy(s, le)[0] == s[MinIndex(s, le)]
  {
    var k := SortByHead(s, le);
    MinIndexIsFirstLeast(s, le);
    FirstLeastUnique(s, le, k, MinIndex(s, le));
  }

  /** Python's `s[:n]`: the first `n` elements, or all of them. */
  function Take<T>(s: seq<T>, n: int): (r: seq<T>)
    ensures |r| == if n <= 0 then 0 else if n < |s| then n else |s|
    ensures forall i :: 0 <= i < |r| ==> r[i] == s[i]
  {
    if n <= 0 then [] else if n < |s| then s[..n] else s
  }

  /** A prefix of a sorted sequence is part of it, and what follows is ordered no earlier than its last element. */
  lemma SortedPrefixKeepsLeast<T>(s: seq<T>, le: (T, T) -> bool, m: nat)
    requires m <= |s| && Sorted(s, le)
    ensures multiset(s[..m]) <= multiset(s)
    ensures m > 0 ==> forall x :: x in multiset(s) - multiset(s[..m]) ==> le(s[m - 1], x)
  {
    var rest := s[m..];
    assert s == s[..m] + rest;
    assert multiset(s) == multiset(s[..m]) + multiset(rest);
    if m > 0 {
      forall x | x in multiset(s) - multiset(s[..m]) ensures le(s[m - 1], x) {
        assert x in multiset(rest);
        var j :| 0 <= j < |rest| && rest[j] == x;
        assert s[m + j] == x;
      }
    }
  }

  /**
   * `sorted(xs, key=...)[:n]` keeps the least elements: what it keeps is part
   * of `xs`, and everything it leaves out is ordered no earlier than the
   * last element it keeps.
   */
  lemma TakeSortedKeepsLeast<T(!new)>(xs: seq<T>, le: (T, T) -> bool, n: int)
    requires TotalPreorder(le)
    ensures var r := Take(SortBy(xs, le), n);
            && multiset(r) <= multiset(xs)
            && (r != [] ==> forall x :: x in multiset(xs) - multiset(r) ==> le(r[|r| - 1], x))
  {
    var s := SortBy(xs, le);
    var r := Take(s, n);
    SortBySorted(xs, le);
    assert r == s[..|r|];
    SortedPrefixKeepsLeast(s, le, |r|);
  }

  /** `[f(x) for x in s]` */
  function Map<T, U>(s: seq<T>, f: T -> U): (r: seq<U>)
    ensures |r| == |s|
    ensures forall i :: 0 <= i < |s| ==> r[i] == f(s[i])
  {
    seq(|s|, i requires 0 <= i < |s| => f(s[i]))
  }

  lemma {:induction false} MapInsert<T, U>(x: T, s: seq<T>, le: (T, T) -> bool, f: T -> U)
    ensures multiset(Map(Insert(x, s, le), f)) == multiset(Map(s, f)) + multiset{f(x)}
  {
    if s == [] {
    } else if le(x, s[0]) {
      assert Map([x] + s, f) == [f(x)] + Map(s, f);
    } else {
      MapInsert(x, s[1..], le, f);
      assert Map([s[0]] + Insert(x, s[1..], le), f) == [f(s[0])] + Map(Insert(x, s[1..], le), f);
      assert Map(s, f) == [f(s[0])] + Map(s[1..], f);
    }
  }

  /** Sorting permutes the elements, so it permutes their images under any `f` too. */
  lemma {:induction false} MapSortBy<T, U>(s: seq<T>, le: (T, T) -> bool, f: T -> U)
    ensures multiset(Map(SortBy(s, le), f)) == multiset(Map(s, f))
  {
    if s != [] {
      MapSortBy(s[1..], le, f);
      MapInsert(s[0], SortBy(s[1..], le), le, f);
      assert Map(s, f) == [f(s[0])] + Map(s[1..], f);
    }
  }

  /** `sum(h(x) for x in s)` */
  function SumOf<T>(s: seq<T>, h: T -> nat): nat {
    if s == [] then 0 else h(s[0]) + SumOf(s[1..], h)
  }

  lemma {:induction false} SumOfAppend<T>(a: seq<T>, b: seq<T>, h: T -> nat)
    ensures SumOf(a + b, h) == SumOf(a, h) + SumOf(b, h)
  {
    if a == [] {
      assert a + b == b;
    } else {
      assert (a + b)[1..] == a[1..] + b;
      SumOfAppend(a[1..], b, h);
    }
  }

  /** Two lists whose elements pair up with equal weights have the same sum. */
  lemma {:induction false} SumOfPointwise<T, U>(a: seq<T>, ha: T -> nat, b: seq<U>, hb: U -> nat)
    requires |a| == |b|
    requires forall i :: 0 <= i < |a| ==> ha(a[i]) == hb(b[i])
    ensures SumOf(a, ha) == SumOf(b, hb)
  {
    if a != [] {
      SumOfPointwise(a[1..], ha, b[1..], hb);
    }
  }

  lemma {:induction false} SumOfInsert<T>(x: T, s: seq<T>, le: (T, T) -> bool, h: T -> nat)
    ensures SumOf(Insert(x, s, le), h) == SumOf(s, h) + h(x)
  {
    if s != [] && !le(x, s[0]) {
      SumOfInsert(x, s[1..], le, h);
    }
  }

  /** Sorting does not change a sum. */
  lemma {:induction false} SumOfSortBy<T>(s: seq<T>, le: (T, T) -> bool, h: T -> nat)
    ensures SumOf(SortBy(s, le), h) == SumOf(s, h)
  {
    if s != [] {
      SumOfSortBy(s[1..], le, h);
      SumOfInsert(s[0], SortBy(s[1..], le), le, h);
    }
  }

  /** `[x for x in s if p(x)]` */
  function Filter<T>(s: seq<T>, p: T -> bool): (r: seq<T>)
    ensures |r| <= |s|
    ensures forall i :: 0 <= i < |r| ==> r[i] in s && p(r[i])
    ensures forall i :: 0 <= i < |s| && p(s[i]) ==> s[i] in r
  {
    if s == [] then []
    else
      assert s == s[..|s| - 1] + [s[|s| - 1]];
      Filter(s[..|s| - 1], p) + (if p(s[|s| - 1]) then [s[|s| - 1]] else [])
  }

  /**
   * `min` over a filtered list: its pick passes the filter, is below every
   * element that passes it, and strictly below the filtered ones before it.
   */
  lemma FilteredLeast<T(!new)>(s: seq<T>, p: T -> bool, le: (T, T) -> bool)
    requires TotalPreorder(le)
    requires Filter(s, p) != []
    ensures var f := Filter(s, p);
            var x := f[MinIndex(f, le)];
            && x in s && p(x)
            && (forall j :: 0 <= j < |s| && p(s[j]) ==> le(x, s[j]))
            && (forall i :: 0 <= i < MinIndex(f, le) ==> !le(f[i], x))
  {
    var f := Filter(s, p);
    MinIndexIsFirstLeast(f, le);
    forall j | 0 <= j < |s| && p(s[j]) ensures le(f[MinIndex(f, le)], s[j]) {
      assert s[j] in f;
      var i :| 0 <= i < |f| && f[i] == s[j];
      assert le(f[MinIndex(f, le)], f[i]);
    }
  }

  /**
   * When every element satisfies exactly one of three tests, the three
   * filtered lists together are as long as the list.
   */
  lemma {:induction false} FilterPartition<T>(s: seq<T>, p: T -> bool, q: T -> bool, r: T -> bool)
    requires forall i :: 0 <= i < |s| ==> (p(s[i]) || q(s[i]) || r(s[i]))
    requires forall i :: 0 <= i < |s| ==> !(p(s[i]) && q(s[i])) && !(p(s[i]) && r(s[i])) && !(q(s[i]) && r(s[i]))
    ensures |Filter(s, p)| + |Filter(s, q)| + |Filter(s, r)| == |s|
  {
    if s != [] {
      FilterPartition(s[..|s| - 1], p, q, r);
    }
  }
}
