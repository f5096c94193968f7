/**
 * The list operations the ledger and its reports use: order-preserving
 * filtering (Stream.filter) and a stable sort by an integer key
 * (Arrays.sort / Stream.sorted with a Comparator, both stable).
 */
module Sorting {

  /** Elements satisfying p, in their original relative order. */
  function Filter<T>(s: seq<T>, p: T -> bool): (r: seq<T>)
    ensures |r| <= |s|
    ensures forall k :: 0 <= k < |r| ==> p(r[k]) && r[k] in s
  {
    if s == [] then [] else (if p(s[0]) then [s[0]] else []) + Filter(s[1..], p)
  }

  lemma {:induction false} FilterAppend<T>(a: seq<T>, b: seq<T>, p: T -> bool)
    ensures Filter(a + b, p) == Filter(a, p) + Filter(b, p)
    decreases |a|
  {
    if a != [] {
      assert (a + b)[1..] == a[1..] + b;
      FilterAppend(a[1..], b, p);
    } else {
      assert a + b == b;
    }
  }

  /** Filtering keeps exactly the matching elements, with their multiplicities. */
  lemma {:induction false} FilterCounts<T>(s: seq<T>, p: T -> bool, x: T)
    ensures multiset(Filter(s, p))[x] == if p(x) then multiset(s)[x] else 0
    decreases |s|
  {
    if s != [] {
      FilterCounts(s[1..], p, x);
      assert s == [s[0]] + s[1..];
    }
  }

  /** Non-decreasing by key. */
  predicate SortedBy<T>(s: seq<T>, key: T -> int)
  {
    forall i, j :: 0 <= i < j < |s| ==> key(s[i]) <= key(s[j])
  }

  /** Places x after every element whose key is at most key(x), so equal keys keep their arrival order. */
  function Insert<T>(r: seq<T>, x: T, key: T -> int): seq<T>
    decreases |r|
  {
    if r == [] || key(r[|r| - 1]) <= key(x) then r + [x]
    else Insert(r[..|r| - 1], x, key) + [r[|r| - 1]]
  }

  /** Stable insertion sort by an integer key. */
  function SortBy<T>(s: seq<T>, key: T -> int): seq<T>
    decreases |s|
  {
    if s == [] then [] else Insert(SortBy(s[..|s| - 1], key), s[|s| - 1], key)
  }

  lemma {:induction false} InsertKeeps<T>(r: seq<T>, x: T, key: T -> int)
    requires SortedBy(r, key)
    ensures multiset(Insert(r, x, key)) == multiset(r) + multiset{x}
    ensures SortedBy(Insert(r, x, key), key)
    decreases |r|
  {
    if r == [] || key(r[|r| - 1]) <= key(x) {
    } else {
      var init, last := r[..|r| - 1], r[|r| - 1];
      assert r == init + [last];
      InsertKeeps(init, x, key);
      var m := Insert(init, x, key);
      forall k | 0 <= k < |m| ensures key(m[k]) <= key(last) {
        assert m[k] in multiset(init) + multiset{x};
        if m[k] != x {
          assert m[k] in init;
        }
      }
    }
  }

  /** The elements whose key is k. */
  function KeyIs<T>(key: T -> int, k: int): T -> bool
  {
    y => key(y) == k
  }

  /** Inserting an element adds it to the run of its own key, after the ones already there. */
  lemma {:induction false} InsertStable<T>(r: seq<T>, x: T, key: T -> int, k: int)
    requires SortedBy(r, key)
    ensures Filter(Insert(r, x, key), KeyIs(key, k)) ==
            Filter(r, KeyIs(key, k)) + (if key(x) == k then [x] else [])
    decreases |r|
  {
    var p := KeyIs(key, k);
    if r == [] || key(r[|r| - 1]) <= key(x) {
      FilterAppend(r, [x], p);
    } else {
      var init, last := r[..|r| - 1], r[|r| - 1];
      assert r == init + [last];
      InsertStable(init, x, key, k);
      FilterAppend(Insert(init, x, key), [last], p);
      FilterAppend(init, [last], p);
    }
  }

  /** SortBy returns a permutation of its input in non-decreasing key order. */
  lemma {:induction false} SortByPermutes<T>(s: seq<T>, key: T -> int)
    ensures multiset(SortBy(s, key)) == multiset(s)
    ensures SortedBy(SortBy(s, key), key)
    decreases |s|
  {
    if s != [] {
      var init, last := s[..|s| - 1], s[|s| - 1];
      assert s == init + [last];
      SortByPermutes(init, key);
      InsertKeeps(SortBy(init, key), last, key);
    }
  }

  /** Stability: the elements sharing any one key keep their input order. */
  lemma {:induction false} SortByStable<T>(s: seq<T>, key: T -> int, k: int)
    ensures Filter(SortBy(s, key), KeyIs(key, k)) == Filter(s, KeyIs(key, k))
    decreases |s|
  {
    if s != [] {
      var init, last := s[..|s| - 1], s[|s| - 1];
      assert s == init + [last];
      SortByPermutes(init, key);
      SortByStable(init, key, k);
      InsertStable(SortBy(init, key), last, key, k);
      FilterAppend(init, [last], KeyIs(key, k));
    }
  }

  /** Sorting a list that is already in order returns it unchanged. */
  lemma {:induction false} SortBySorted<T>(s: seq<T>, key: T -> int)
    requires SortedBy(s, key)
    ensures SortBy(s, key) == s
    decreases |s|
  {
    if s != [] {
      var init, last := s[..|s| - 1], s[|s| - 1];
      assert s == init + [last];
      SortBySorted(init, key);
    }
  }

  /** Sorting twice is sorting once. */
  lemma SortByIdempotent<T>(s: seq<T>, key: T -> int)
    ensures SortBy(SortBy(s, key), key) == SortBy(s, key)
  {
    SortByPermutes(s, key);
    SortBySorted(SortBy(s, key), key);
  }

  /** A filtered sorted list is still sorted. */
  lemma {:induction false} FilterSorted<T>(s: seq<T>, key: T -> int, p: T -> bool)
    requires SortedBy(s, key)
    ensures SortedBy(Filter(s, p), key)
    decreases |s|
  {
    if s != [] {
      FilterSorted(s[1..], key, p);
      var f := Filter(s[1..], p);
      forall k | 0 <= k < |f| ensures key(s[0]) <= key(f[k]) {
        assert f[k] in s[1..];
      }
    }
  }
}
