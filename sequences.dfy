/**
 * The bookkeeping of the file-loading loops, stated once over any element
 * type: a per-line result that depends on a counter advanced by earlier
 * lines, the concatenation of per-line results, and keeping the first
 * element of each key.
 */
module Sequences {

  /** How many items `advances` picks. */
  function Advanced<S>(items: seq<S>, advances: S -> bool): (n: nat)
    ensures n <= |items|
  {
    if items == [] then 0
    else Advanced(items[..|items| - 1], advances) + (if advances(items[|items| - 1]) then 1 else 0)
  }

  /** f of each item and of the counter as the items before it left it (start plus the items picked so far). */
  function Threaded<S, T>(items: seq<S>, start: nat, f: (S, nat) -> T, advances: S -> bool): (r: seq<T>)
    ensures |r| == |items|
  {
    if items == [] then []
    else
      var init := items[..|items| - 1];
      Threaded(init, start, f, advances) + [f(items[|items| - 1], start + Advanced(init, advances))]
  }

  lemma ThreadedStep<S, T>(items: seq<S>, x: S, start: nat, f: (S, nat) -> T, advances: S -> bool)
    ensures Threaded(items + [x], start, f, advances) ==
              Threaded(items, start, f, advances) + [f(x, start + Advanced(items, advances))]
    ensures Advanced(items + [x], advances) == Advanced(items, advances) + (if advances(x) then 1 else 0)
  {
    assert (items + [x])[..|items|] == items;
  }

  /** Appending an item whose result is y appends y. */
  lemma ThreadedAppend<S, T>(items: seq<S>, x: S, y: T, start: nat, f: (S, nat) -> T, advances: S -> bool)
    requires y == f(x, start + Advanced(items, advances))
    ensures Threaded(items + [x], start, f, advances) == Threaded(items, start, f, advances) + [y]
    ensures Advanced(items + [x], advances) == Advanced(items, advances) + (if advances(x) then 1 else 0)
  {
    ThreadedStep(items, x, start, f, advances);
  }

  /** Position by position: item i is taken with the counter advanced by the items before it. */
  lemma {:induction false} ThreadedAt<S, T>(items: seq<S>, start: nat, f: (S, nat) -> T, advances: S -> bool, i: nat)
    requires i < |items|
    ensures Threaded(items, start, f, advances)[i] == f(items[i], start + Advanced(items[..i], advances))
  {
    var init := items[..|items| - 1];
    if i < |init| {
      ThreadedAt(init, start, f, advances, i);
      assert init[..i] == items[..i];
    } else {
      assert init == items[..i];
    }
  }

  /** The results of f on each item, one after another. */
  function Collect<S, T>(items: seq<S>, f: S -> seq<T>): seq<T>
  {
    if items == [] then [] else Collect(items[..|items| - 1], f) + f(items[|items| - 1])
  }

  lemma CollectStep<S, T>(items: seq<S>, i: nat, f: S -> seq<T>)
    requires i < |items|
    ensures Collect(items[..i + 1], f) == Collect(items[..i], f) + f(items[i])
  {
    assert items[..i + 1][..i] == items[..i];
  }

  /** The keys of the items. */
  function Keys<T, K>(items: seq<T>, key: T -> K): set<K>
  {
    if items == [] then {} else Keys(items[..|items| - 1], key) + {key(items[|items| - 1])}
  }

  lemma KeysAppend<T, K>(items: seq<T>, x: T, key: T -> K)
    ensures Keys(items + [x], key) == Keys(items, key) + {key(x)}
  {
    assert (items + [x])[..|items|] == items;
  }

  /** Every item's key is among the keys, and only those. */
  lemma {:induction false} KeysExactly<T, K>(items: seq<T>, key: T -> K, k: K)
    ensures k in Keys(items, key) <==> exists i :: 0 <= i < |items| && key(items[i]) == k
  {
    if items != [] {
      var init := items[..|items| - 1];
      KeysExactly(init, key, k);
      if exists i :: 0 <= i < |init| && key(init[i]) == k {
        var i :| 0 <= i < |init| && key(init[i]) == k;
        assert items[i] == init[i];
      }
      if exists i :: 0 <= i < |items| && key(items[i]) == k {
        var i :| 0 <= i < |items| && key(items[i]) == k;
        if i < |init| {
          assert init[i] == items[i];
        }
      }
    }
  }

  /** The items kept when an item whose key is known beforehand or already kept is skipped. */
  function DedupBy<T, K>(items: seq<T>, key: T -> K, known: set<K>): seq<T>
  {
    if items == [] then []
    else
      var kept := DedupBy(items[..|items| - 1], key, known);
      var x := items[|items| - 1];
      if key(x) in known || key(x) in Keys(kept, key) then kept else kept + [x]
  }

  lemma DedupStep<T, K>(items: seq<T>, x: T, key: T -> K, known: set<K>)
    ensures var kept := DedupBy(items, key, known);
            DedupBy(items + [x], key, known) == if key(x) in known + Keys(kept, key) then kept else kept + [x]
  {
    assert (items + [x])[..|items|] == items;
  }

  /** Keys pairwise different. */
  predicate DistinctKeys<T, K(==)>(items: seq<T>, key: T -> K)
  {
    forall i, j | 0 <= i < j < |items| :: key(items[i]) != key(items[j])
  }

  /** The kept items have distinct keys, none of them known beforehand. */
  lemma {:induction false} DedupDistinct<T, K>(items: seq<T>, key: T -> K, known: set<K>)
    ensures var kept := DedupBy(items, key, known);
            DistinctKeys(kept, key) && Keys(kept, key) !! known
  {
    if items != [] {
      var init, x := items[..|items| - 1], items[|items| - 1];
      DedupDistinct(init, key, known);
      var kept := DedupBy(init, key, known);
      assert items == init + [x];
      DedupStep(init, x, key, known);
      if key(x) !in known + Keys(kept, key) {
        var r := kept + [x];
        KeysAppend(kept, x, key);
        forall i, j | 0 <= i < j < |r| ensures key(r[i]) != key(r[j]) {
          assert r[i] == kept[i];
          if j < |kept| {
            assert r[j] == kept[j];
          } else {
            KeysExactly(kept, key, key(kept[i]));
          }
        }
      }
    }
  }

  /** No key is lost: each item's key is known beforehand or kept. */
  lemma {:induction false} DedupComplete<T, K>(items: seq<T>, key: T -> K, known: set<K>)
    ensures Keys(items, key) <= known + Keys(DedupBy(items, key, known), key)
  {
    if items != [] {
      var init, x := items[..|items| - 1], items[|items| - 1];
      DedupComplete(init, key, known);
      var kept := DedupBy(init, key, known);
      assert items == init + [x];
      DedupStep(init, x, key, known);
      KeysAppend(init, x, key);
      KeysAppend(kept, x, key);
    }
  }

  /** The kept items are drawn from the input. */
  lemma {:induction false} DedupSubset<T, K>(items: seq<T>, key: T -> K, known: set<K>)
    ensures multiset(DedupBy(items, key, known)) <= multiset(items)
  {
    if items != [] {
      var init, x := items[..|items| - 1], items[|items| - 1];
      DedupSubset(init, key, known);
      assert items == init + [x];
    }
  }

  /** Input with distinct keys, none known beforehand, is kept whole. */
  lemma {:induction false} DedupKeepsDistinct<T, K>(items: seq<T>, key: T -> K, known: set<K>)
    requires DistinctKeys(items, key) && Keys(items, key) !! known
    ensures DedupBy(items, key, known) == items
  {
    if items != [] {
      var init, x := items[..|items| - 1], items[|items| - 1];
      assert items == init + [x];
      KeysAppend(init, x, key);
      assert DistinctKeys(init, key) by {
        forall i, j | 0 <= i < j < |init| ensures key(init[i]) != key(init[j]) {
          assert init[i] == items[i] && init[j] == items[j];
        }
      }
      DedupKeepsDistinct(init, key, known);
      forall i | 0 <= i < |init| ensures key(init[i]) != key(x) {
        assert init[i] == items[i];
      }
      KeysExactly(init, key, key(x));
    }
  }
}
