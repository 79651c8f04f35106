/**
 * A stable insertion sort over a caller-chosen total preorder.
 *
 * It stands for every sort the source performs on a copy: JavaScript's
 * `[...values].sort((l, r) => l - r)` and Python's stable `sorted(...)` /
 * `list.sort(key=...)`. Insertion places an element before the first one it
 * is `le` to, so elements the order ties keep their input order.
 */
module Sorting {
  import opened Sequences

  ghost predicate IsTotalPreorder<T(!new)>(le: (T, T) -> bool) {
    && (forall a, b :: le(a, b) || le(b, a))
    && (forall a, b, c :: le(a, b) && le(b, c) ==> le(a, c))
  }

  ghost predicate SortedBy<T>(s: seq<T>, le: (T, T) -> bool) {
    forall i, j :: 0 <= i < j < |s| ==> le(s[i], s[j])
  }

  function Insert<T>(x: T, s: seq<T>, le: (T, T) -> bool): (r: seq<T>)
    ensures |r| == |s| + 1
    ensures multiset(r) == multiset(s) + multiset{x}
  {
    if s == [] || le(x, s[0]) then [x] + s
    else
      var rest := Insert(x, s[1..], le);
      assert s == [s[0]] + s[1..];
      [s[0]] + rest
  }

  function SortBy<T>(s: seq<T>, le: (T, T) -> bool): (r: seq<T>)
    ensures |r| == |s|
    ensures multiset(r) == multiset(s)
  {
    if s == [] then []
    else
      assert s == [s[0]] + s[1..];
      Insert(s[0], SortBy(s[1..], le), le)
  }

  lemma {:induction false} InsertSorted<T(!new)>(x: T, s: seq<T>, le: (T, T) -> bool)
    requires IsTotalPreorder(le)
    requires SortedBy(s, le)
    ensures SortedBy(Insert(x, s, le), le)
  {
    if s == [] || le(x, s[0]) {
    } else {
      var rest := Insert(x, s[1..], le);
      InsertSorted(x, s[1..], le);
      assert le(s[0], x);
      forall k | 0 <= k < |rest| ensures le(s[0], rest[k]) {
        assert rest[k] in multiset(rest);
        assert rest[k] in multiset(s[1..]) || rest[k] == x;
        if rest[k] != x {
          var m :| 0 <= m < |s[1..]| && s[1..][m] == rest[k];
          assert s[m + 1] == rest[k];
        }
      }
    }
  }

  lemma {:induction false} SortBySorted<T(!new)>(s: seq<T>, le: (T, T) -> bool)
    requires IsTotalPreorder(le)
    ensures SortedBy(SortBy(s, le), le)
  {
    if s != [] {
      SortBySorted(s[1..], le);
      InsertSorted(s[0], SortBy(s[1..], le), le);
    }
  }

  /**
   * Inserting `x` keeps, among the elements `p` picks out, their order; `x` comes
   * first among them, since it is `le` to each of them.
   */
  lemma {:induction false} InsertKeepsTiedOrder<T>(x: T, t: seq<T>, le: (T, T) -> bool, p: T -> bool)
    requires forall a, b :: p(a) && p(b) ==> le(a, b)
    ensures Filter(Insert(x, t, le), p) == (if p(x) then [x] else []) + Filter(t, p)
  {
    if t == [] || le(x, t[0]) {
      assert ([x] + t)[1..] == t;
    } else {
      var rest := Insert(x, t[1..], le);
      InsertKeepsTiedOrder(x, t[1..], le, p);
      assert ([t[0]] + rest)[1..] == rest;
    }
  }

  /**
   * The sort is stable: elements the order ties (all those `p` picks out are
   * mutually `le`) come out in the order they went in.
   */
  lemma {:induction false} SortByIsStable<T>(s: seq<T>, le: (T, T) -> bool, p: T -> bool)
    requires forall a, b :: p(a) && p(b) ==> le(a, b)
    ensures Filter(SortBy(s, le), p) == Filter(s, p)
  {
    if s != [] {
      SortByIsStable(s[1..], le, p);
      InsertKeepsTiedOrder(s[0], SortBy(s[1..], le), le, p);
    }
  }

  /** Sorting leaves an already sorted list as it is. */
  lemma {:induction false} SortBySortedIsIdentity<T>(s: seq<T>, le: (T, T) -> bool)
    requires SortedBy(s, le)
    ensures SortBy(s, le) == s
  {
    if s != [] {
      SortBySortedIsIdentity(s[1..], le);
      assert s == [s[0]] + s[1..];
      if |s| > 1 {
        assert le(s[0], s[1]);
      }
    }
  }

  function RealLe(a: real, b: real): bool { a <= b }

  /** `[...values].sort((left, right) => left - right)` on finite numbers. */
  function SortReals(s: seq<real>): (r: seq<real>)
    ensures |r| == |s| && multiset(r) == multiset(s)
  {
    SortBy(s, RealLe)
  }

  lemma SortRealsAscending(s: seq<real>)
    ensures forall i, j :: 0 <= i < j < |s| ==> SortReals(s)[i] <= SortReals(s)[j]
  {
    assert IsTotalPreorder(RealLe);
    SortBySorted(s, RealLe);
  }

  lemma SortRealsOfAscending(s: seq<real>)
    requires forall i, j :: 0 <= i < j < |s| ==> s[i] <= s[j]
    ensures SortReals(s) == s
  {
    SortBySortedIsIdentity(s, RealLe);
  }

  /** Every element of a sequence occurs in any permutation of it, and back. */
  lemma PermutationMembers<T>(a: seq<T>, b: seq<T>)
    requires multiset(a) == multiset(b)
    ensures forall k :: 0 <= k < |a| ==> a[k] in b
    ensures forall k :: 0 <= k < |b| ==> b[k] in a
  {
    forall k | 0 <= k < |a| ensures a[k] in b {
      assert a[k] in multiset(a);
    }
    forall k | 0 <= k < |b| ensures b[k] in a {
      assert b[k] in multiset(b);
    }
  }

  /** The head of an ascending list is at most any of its values. */
  lemma AscendingHeadIsLeast(a: seq<real>, x: real)
    requires x in multiset(a)
    requires forall i, j :: 0 <= i < j < |a| ==> a[i] <= a[j]
    ensures a[0] <= x
  {
    var m :| 0 <= m < |a| && a[m] == x;
    if m > 0 {
      assert a[0] <= a[m];
    }
  }

  /** Two ascending lists holding the same multiset of values are equal. */
  lemma {:induction false} AscendingPermutationsEqual(a: seq<real>, b: seq<real>)
    requires multiset(a) == multiset(b)
    requires forall i, j :: 0 <= i < j < |a| ==> a[i] <= a[j]
    requires forall i, j :: 0 <= i < j < |b| ==> b[i] <= b[j]
    ensures a == b
  {
    assert |a| == |b| by {
      assert |multiset(a)| == |a| && |multiset(b)| == |b|;
    }
    if a != [] {
      AscendingHeadsEqual(a, b);
      TailMultiset(a);
      TailMultiset(b);
      AscendingTail(a);
      AscendingTail(b);
      AscendingPermutationsEqual(a[1..], b[1..]);
      assert a == [a[0]] + a[1..];
      assert b == [b[0]] + b[1..];
    }
  }

  lemma AscendingHeadsEqual(a: seq<real>, b: seq<real>)
    requires a != [] && b != [] && multiset(a) == multiset(b)
    requires forall i, j :: 0 <= i < j < |a| ==> a[i] <= a[j]
    requires forall i, j :: 0 <= i < j < |b| ==> b[i] <= b[j]
    ensures a[0] == b[0]
  {
    assert a[0] in multiset(a) && b[0] in multiset(b);
    AscendingHeadIsLeast(b, a[0]);
    AscendingHeadIsLeast(a, b[0]);
  }

  lemma TailMultiset<T>(a: seq<T>)
    requires a != []
    ensures multiset(a[1..]) == multiset(a) - multiset{a[0]}
  {
    assert a == [a[0]] + a[1..];
  }

  lemma AscendingTail(a: seq<real>)
    requires a != []
    requires forall i, j :: 0 <= i < j < |a| ==> a[i] <= a[j]
    ensures forall i, j :: 0 <= i < j < |a[1..]| ==> a[1..][i] <= a[1..][j]
  {
    forall i, j | 0 <= i < j < |a[1..]| ensures a[1..][i] <= a[1..][j] {
      assert a[1..][i] == a[i + 1] && a[1..][j] == a[j + 1];
    }
  }

  /** The sorted copy is the unique ascending arrangement of the values. */
  lemma SortRealsIsAscendingArrangement(s: seq<real>, t: seq<real>)
    requires multiset(s) == multiset(t)
    requires forall i, j :: 0 <= i < j < |t| ==> t[i] <= t[j]
    ensures SortReals(s) == t
  {
    SortRealsAscending(s);
    AscendingPermutationsEqual(SortReals(s), t);
  }
}
