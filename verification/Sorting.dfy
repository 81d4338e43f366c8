/** The stable sort by a key: what the tree of a MemTable and the sort of a directory
    listing both compute. */
module Sorting {

  /** `x` goes behind everything that does not exceed it. */
  function Place<T>(key: T -> nat, s: seq<T>, x: T): seq<T> {
    if s == [] || key(s[|s| - 1]) <= key(x) then s + [x] else Place(key, s[..|s| - 1], x) + [s[|s| - 1]]
  }

  function StableSort<T>(key: T -> nat, s: seq<T>): seq<T> {
    if s == [] then [] else Place(key, StableSort(key, s[..|s| - 1]), s[|s| - 1])
  }

  ghost predicate Ordered<T>(key: T -> nat, s: seq<T>) {
    forall i, j | 0 <= i < j < |s| :: key(s[i]) <= key(s[j])
  }

  ghost predicate Below<T>(key: T -> nat, s: seq<T>, bound: nat) { forall i | 0 <= i < |s| :: key(s[i]) <= bound }

  lemma {:induction false} PlaceBelow<T>(key: T -> nat, s: seq<T>, x: T, bound: nat)
    requires Below(key, s, bound) && key(x) <= bound
    ensures Below(key, Place(key, s, x), bound)
  {
    if s != [] && key(s[|s| - 1]) > key(x) { PlaceBelow(key, s[..|s| - 1], x, bound); }
  }

  lemma OrderedSnoc<T>(key: T -> nat, s: seq<T>, x: T)
    requires Ordered(key, s) && Below(key, s, key(x))
    ensures Ordered(key, s + [x])
  {
  }

  lemma {:induction false} PlaceOrdered<T>(key: T -> nat, s: seq<T>, x: T)
    requires Ordered(key, s)
    ensures Ordered(key, Place(key, s, x))
  {
    if s == [] || key(s[|s| - 1]) <= key(x) {
      OrderedSnoc(key, s, x);
    } else {
      var init, last := s[..|s| - 1], s[|s| - 1];
      PlaceOrdered(key, init, x);
      PlaceBelow(key, init, x, key(last));
      OrderedSnoc(key, Place(key, init, x), last);
    }
  }

  lemma {:induction false} PlaceKeeps<T>(key: T -> nat, s: seq<T>, x: T)
    ensures multiset(Place(key, s, x)) == multiset(s) + multiset{x}
  {
    if s != [] && key(s[|s| - 1]) > key(x) {
      var init, last := s[..|s| - 1], s[|s| - 1];
      PlaceKeeps(key, init, x);
      assert s == init + [last];
    }
  }

  /** Sorted, with the same elements. */
  lemma {:induction false} StableSortSorts<T>(key: T -> nat, s: seq<T>)
    ensures Ordered(key, StableSort(key, s)) && multiset(StableSort(key, s)) == multiset(s)
  {
    if s != [] {
      var init, last := s[..|s| - 1], s[|s| - 1];
      StableSortSorts(key, init);
      PlaceOrdered(key, StableSort(key, init), last);
      PlaceKeeps(key, StableSort(key, init), last);
      assert s == init + [last];
    }
  }

  /** Elements with one key, in the order they stand in */
  function WithKey<T>(key: T -> nat, s: seq<T>, k: nat): seq<T> {
    if s == [] then [] else
      WithKey(key, s[..|s| - 1], k) + if key(s[|s| - 1]) == k then [s[|s| - 1]] else []
  }

  lemma {:induction false} PlaceWithKey<T>(key: T -> nat, s: seq<T>, x: T, k: nat)
    requires Ordered(key, s)
    ensures WithKey(key, Place(key, s, x), k) == WithKey(key, s, k) + if key(x) == k then [x] else []
  {
    if s == [] || key(s[|s| - 1]) <= key(x) {
      assert (s + [x])[..|s|] == s;
    } else {
      var init, last := s[..|s| - 1], s[|s| - 1];
      PlaceWithKey(key, init, x, k);
      var placed := Place(key, init, x);
      assert (placed + [last])[..|placed|] == placed;
      NoSuchKey(key, init, x, k, last);
    }
  }

  lemma NoSuchKey<T>(key: T -> nat, init: seq<T>, x: T, k: nat, last: T)
    requires key(last) > key(x)
    ensures var a := if key(x) == k then [x] else [];
            var b := if key(last) == k then [last] else [];
            WithKey(key, init, k) + a + b == WithKey(key, init, k) + b + a
  {
  }

  /** Elements with equal keys keep their order. */
  lemma {:induction false} StableSortStable<T>(key: T -> nat, s: seq<T>, k: nat)
    ensures WithKey(key, StableSort(key, s), k) == WithKey(key, s, k)
  {
    if s != [] {
      var init, last := s[..|s| - 1], s[|s| - 1];
      StableSortStable(key, init, k);
      StableSortSorts(key, init);
      PlaceWithKey(key, StableSort(key, init), last, k);
    }
  }
}
