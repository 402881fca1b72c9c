/**
 * `Array.prototype.sort` with a comparator that compares two integer ranks,
 * the first before the second, as the featured-tours and trip lists do.
 * The sort works in place on a copy of the list.
 */
module Sorting {

  /** `a` does not come after `b`: lexicographic order on the two ranks. */
  predicate RankLe(a: (int, int), b: (int, int)) {
    a.0 < b.0 || (a.0 == b.0 && a.1 <= b.1)
  }

  predicate SortedBy<T>(s: seq<T>, key: T -> (int, int)) {
    forall p, q :: 0 <= p < q < |s| ==> RankLe(key(s[p]), key(s[q]))
  }

  /**
   * Sorts `a` in place by `key` with insertion: each element moves left past
   * the elements that rank strictly after it, so elements of equal rank keep
   * their order, as the stable `Array.prototype.sort` does.
   */
  method SortBy<T>(a: array<T>, key: T -> (int, int))
    modifies a
    ensures a[..] == InsertionSorted(old(a[..]), key)
    ensures SortedBy(a[..], key)
    ensures multiset(a[..]) == multiset(old(a[..]))
    ensures forall k :: Ties(a[..], key, k) == Ties(old(a[..]), key, k)
  {
    var i := 0;
    while i < a.Length
      invariant 0 <= i <= a.Length
      invariant a[..i] == InsertionSorted(old(a[..])[..i], key)
      invariant a[i..] == old(a[..])[i..]
    {
      ShiftInto(a, i, key);
      assert old(a[..])[..i + 1][..i] == old(a[..])[..i];
      i := i + 1;
    }
    assert a[..] == a[..a.Length];
    assert old(a[..]) == old(a[..])[..a.Length];
    InsertionSortedSorted(old(a[..]), key);
    InsertionSortedPerm(old(a[..]), key);
    InsertionSortedStable(old(a[..]), key);
  }

  /** One pass of the sort: `a[i]` moves left into the sorted run `a[..i]`. */
  method ShiftInto<T>(a: array<T>, i: nat, key: T -> (int, int))
    requires i < a.Length
    modifies a
    ensures a[..i + 1] == Insert(old(a[..i]), old(a[i]), key)
    ensures a[i + 1..] == old(a[i + 1..])
  {
    ghost var s, x, rest := a[..i], a[i], a[i + 1..];
    assert a[..] == s[..i] + [x] + s[i..] + rest;
    var j := i;
    while j > 0 && !RankLe(key(a[j - 1]), key(a[j]))
      invariant 0 <= j <= i
      invariant a[..] == s[..j] + [x] + s[j..] + rest
      invariant forall k :: j <= k < i ==> !RankLe(key(s[k]), key(x))
    {
      assert a[j - 1] == s[j - 1] && a[j] == x;
      ghost var before := a[..];
      a[j - 1], a[j] := a[j], a[j - 1];
      assert a[..] == before[j - 1 := x][j := s[j - 1]];
      ShiftLeft(s, x, rest, j);
      j := j - 1;
    }
    assert j > 0 ==> a[j - 1] == s[j - 1] && a[j] == x;
    InsertAt(s, x, key, j);
    assert a[..i + 1] == s[..j] + [x] + s[j..];
  }

  // ---------------------------------------------------------------------
  // The insertion sort on sequences
  // ---------------------------------------------------------------------

  /** `x` placed after the last element of `s` that does not rank after it. */
  function Insert<T>(s: seq<T>, x: T, key: T -> (int, int)): seq<T>
    decreases |s|
  {
    if s == [] || RankLe(key(s[|s| - 1]), key(x)) then s + [x]
    else Insert(s[..|s| - 1], x, key) + [s[|s| - 1]]
  }

  /** Each element of `s` in turn, inserted into the sorted list of those before it. */
  function InsertionSorted<T>(s: seq<T>, key: T -> (int, int)): seq<T>
    decreases |s|
  {
    if s == [] then [] else Insert(InsertionSorted(s[..|s| - 1], key), s[|s| - 1], key)
  }

  /** The elements of `s` whose rank is `k`, in their order in `s`. */
  function Ties<T>(s: seq<T>, key: T -> (int, int), k: (int, int)): seq<T>
    decreases |s|
  {
    if s == [] then []
    else Ties(s[..|s| - 1], key, k) + (if key(s[|s| - 1]) == k then [s[|s| - 1]] else [])
  }

  /** Where the backward scan stops, the insertion splits `s` there. */
  lemma {:induction false} InsertAt<T>(s: seq<T>, x: T, key: T -> (int, int), j: nat)
    requires j <= |s|
    requires forall k :: j <= k < |s| ==> !RankLe(key(s[k]), key(x))
    requires j == 0 || RankLe(key(s[j - 1]), key(x))
    ensures Insert(s, x, key) == s[..j] + [x] + s[j..]
    decreases |s|
  {
    if |s| == j {
      assert s[..j] == s;
    } else {
      var init := s[..|s| - 1];
      InsertAt(init, x, key, j);
      assert s[..j] == init[..j];
      assert s[j..] == init[j..] + [s[|s| - 1]];
    }
  }

  /** One step of the scan: `x` trades places with the element before it. */
  lemma ShiftLeft<T>(s: seq<T>, x: T, rest: seq<T>, j: nat)
    requires 0 < j <= |s|
    ensures (s[..j] + [x] + s[j..] + rest)[j - 1 := x][j := s[j - 1]] == s[..j - 1] + [x] + s[j - 1..] + rest
  {
  }

  /** Inserting adds exactly `x`. */
  lemma {:induction false} InsertPerm<T>(s: seq<T>, x: T, key: T -> (int, int))
    ensures multiset(Insert(s, x, key)) == multiset(s) + multiset{x}
    decreases |s|
  {
    if s != [] && !RankLe(key(s[|s| - 1]), key(x)) {
      var init := s[..|s| - 1];
      InsertPerm(init, x, key);
      assert s == init + [s[|s| - 1]];
    }
  }

  /** A list sorted by `key` stays sorted with one more element ranked no earlier than all of it. */
  lemma AppendSorted<T>(s: seq<T>, y: T, key: T -> (int, int))
    requires SortedBy(s, key)
    requires forall p :: 0 <= p < |s| ==> RankLe(key(s[p]), key(y))
    ensures SortedBy(s + [y], key)
  {
  }

  /** Inserting into a sorted list keeps it sorted. */
  lemma {:induction false} InsertSorted<T>(s: seq<T>, x: T, key: T -> (int, int))
    requires SortedBy(s, key)
    ensures SortedBy(Insert(s, x, key), key)
    decreases |s|
  {
    if s == [] || RankLe(key(s[|s| - 1]), key(x)) {
      AppendSorted(s, x, key);
    } else {
      var init, last := s[..|s| - 1], s[|s| - 1];
      InsertSorted(init, x, key);
      InsertPerm(init, x, key);
      var r := Insert(init, x, key);
      forall p | 0 <= p < |r|
        ensures RankLe(key(r[p]), key(last))
      {
        assert r[p] in multiset(r);
        if r[p] != x {
          assert r[p] in multiset(init);
          var q :| 0 <= q < |init| && init[q] == r[p];
          assert s[q] == r[p];
        }
      }
      AppendSorted(r, last, key);
    }
  }

  /** Inserting `x` adds it after the elements of its own rank. */
  lemma {:induction false} InsertTies<T>(s: seq<T>, x: T, key: T -> (int, int), k: (int, int))
    ensures Ties(Insert(s, x, key), key, k) == Ties(s, key, k) + (if key(x) == k then [x] else [])
    decreases |s|
  {
    if s == [] || RankLe(key(s[|s| - 1]), key(x)) {
      assert (s + [x])[..|s|] == s;
    } else {
      var init, last := s[..|s| - 1], s[|s| - 1];
      var r := Insert(init, x, key);
      InsertTies(init, x, key, k);
      assert (r + [last])[..|r|] == r;
    }
  }

  /** The insertion sort orders the list by `key`. */
  lemma {:induction false} InsertionSortedSorted<T>(s: seq<T>, key: T -> (int, int))
    ensures SortedBy(InsertionSorted(s, key), key)
    decreases |s|
  {
    if s != [] {
      InsertionSortedSorted(s[..|s| - 1], key);
      InsertSorted(InsertionSorted(s[..|s| - 1], key), s[|s| - 1], key);
    }
  }

  /** The insertion sort neither adds nor drops an element. */
  lemma {:induction false} InsertionSortedPerm<T>(s: seq<T>, key: T -> (int, int))
    ensures multiset(InsertionSorted(s, key)) == multiset(s)
    decreases |s|
  {
    if s != [] {
      InsertionSortedPerm(s[..|s| - 1], key);
      InsertPerm(InsertionSorted(s[..|s| - 1], key), s[|s| - 1], key);
      assert s == s[..|s| - 1] + [s[|s| - 1]];
    }
  }

  /** The insertion sort is stable: elements of one rank keep their order. */
  lemma {:induction false} InsertionSortedStable<T>(s: seq<T>, key: T -> (int, int))
    ensures forall k :: Ties(InsertionSorted(s, key), key, k) == Ties(s, key, k)
    decreases |s|
  {
    if s != [] {
      InsertionSortedStable(s[..|s| - 1], key);
      forall k
        ensures Ties(InsertionSorted(s, key), key, k) == Ties(s, key, k)
      {
        InsertTies(InsertionSorted(s[..|s| - 1], key), s[|s| - 1], key, k);
      }
    }
  }

  /** The first element of a list is the first of its rank. */
  lemma {:induction false} TiesHead<T>(s: seq<T>, key: T -> (int, int))
    requires s != []
    ensures Ties(s, key, key(s[0])) != [] && Ties(s, key, key(s[0]))[0] == s[0]
    decreases |s|
  {
    if |s| > 1 {
      TiesHead(s[..|s| - 1], key);
    }
  }

  /** The elements of one rank in a prefix are a prefix of those in the whole list. */
  lemma {:induction false} TiesOfPrefix<T>(s: seq<T>, key: T -> (int, int), k: (int, int), n: nat)
    requires n <= |s|
    ensures Ties(s[..n], key, k) <= Ties(s, key, k)
    decreases |s|
  {
    if n < |s| {
      TiesOfPrefix(s[..|s| - 1], key, k, n);
      assert s[..|s| - 1][..n] == s[..n];
    } else {
      assert s[..n] == s;
    }
  }

  /** The first `n` of a sorted list rank no later than any element after them. */
  lemma SortedPrefix<T>(s: seq<T>, key: T -> (int, int), n: nat)
    requires SortedBy(s, key) && n <= |s|
    ensures SortedBy(s[..n], key)
    ensures forall i, t :: 0 <= i < n && t in s[n..] ==> RankLe(key(s[i]), key(t))
  {
    forall i, t | 0 <= i < n && t in s[n..]
      ensures RankLe(key(s[i]), key(t))
    {
      var k :| 0 <= k < |s[n..]| && s[n..][k] == t;
      assert s[n + k] == t;
    }
  }

  /** The first `n` of the sorted list are in rank order. */
  lemma TopSorted<T>(s: seq<T>, key: T -> (int, int), n: nat)
    requires n <= |InsertionSorted(s, key)|
    ensures SortedBy(InsertionSorted(s, key)[..n], key)
  {
    InsertionSortedSorted(s, key);
    SortedPrefix(InsertionSorted(s, key), key, n);
  }

  /** The first `n` of the sorted list come from `s` and rank no later than anything left out. */
  lemma TopFirst<T>(s: seq<T>, key: T -> (int, int), n: nat)
    requires n <= |InsertionSorted(s, key)|
    ensures var top := InsertionSorted(s, key)[..n];
      && multiset(top) <= multiset(s)
      && forall i, t :: 0 <= i < n && t in multiset(s) - multiset(top) ==> RankLe(key(top[i]), key(t))
  {
    var sorted := InsertionSorted(s, key);
    var top := sorted[..n];
    InsertionSortedSorted(s, key);
    InsertionSortedPerm(s, key);
    SortedPrefix(sorted, key, n);
    SplitRest(sorted, n);
    forall i, t | 0 <= i < n && t in multiset(s) - multiset(top)
      ensures RankLe(key(top[i]), key(t))
    {
      assert t in sorted[n..];
    }
  }

  /** What is left of a list after its first `n` is the rest of it. */
  lemma SplitRest<T>(whole: seq<T>, n: nat)
    requires n <= |whole|
    ensures multiset(whole[..n]) <= multiset(whole)
    ensures multiset(whole) - multiset(whole[..n]) == multiset(whole[n..])
  {
    assert whole == whole[..n] + whole[n..];
  }

  /** The first `n` of the sorted list keep, rank by rank, the order of the original. */
  lemma TopStable<T>(s: seq<T>, key: T -> (int, int), n: nat)
    requires n <= |InsertionSorted(s, key)|
    ensures forall k :: Ties(InsertionSorted(s, key)[..n], key, k) <= Ties(s, key, k)
  {
    InsertionSortedStable(s, key);
    forall k
      ensures Ties(InsertionSorted(s, key)[..n], key, k) <= Ties(s, key, k)
    {
      TiesOfPrefix(InsertionSorted(s, key), key, k, n);
    }
  }
}
