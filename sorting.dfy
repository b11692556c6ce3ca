/** Stable sorting by an integer key, as Python's `sorted(xs, key=...)` does it.
    The timeline sorts keyframes by `frame`, and the state accumulator sorts the
    accumulated entries by `layer`; both use this one definition. */
module Sorting {

  /** Every element's key is at most the key of every later element. */
  ghost predicate SortedBy<T>(s: seq<T>, key: T -> int)
  {
    forall i, j :: 0 <= i < j < |s| ==> key(s[i]) <= key(s[j])
  }

  /** The subsequence of the elements whose key is `k`, in their order in `s`. */
  function WithKey<T>(s: seq<T>, key: T -> int, k: int): (r: seq<T>)
    ensures |r| <= |s|
  {
    if s == [] then []
    else if key(s[0]) == k then [s[0]] + WithKey(s[1..], key, k)
    else WithKey(s[1..], key, k)
  }

  /** Stability: elements with equal keys keep their relative order. */
  ghost predicate StableFor<T>(r: seq<T>, s: seq<T>, key: T -> int)
  {
    forall k :: WithKey(r, key, k) == WithKey(s, key, k)
  }

  /** Every key in `s` is at least `lo`. */
  ghost predicate KeysAtLeast<T>(s: seq<T>, key: T -> int, lo: int)
  {
    forall i :: 0 <= i < |s| ==> lo <= key(s[i])
  }

  /** Puts `x` in front of the first element whose key is not smaller than its own. */
  function Insert<T(==)>(x: T, s: seq<T>, key: T -> int): (r: seq<T>)
    ensures multiset(r) == multiset(s) + multiset{x}
    ensures |r| == |s| + 1
  {
    if s == [] then [x]
    else if key(x) <= key(s[0]) then [x] + s
    else
      assert s == [s[0]] + s[1..];
      [s[0]] + Insert(x, s[1..], key)
  }

  lemma {:induction false} InsertKeysAtLeast<T>(x: T, s: seq<T>, key: T -> int, lo: int)
    requires lo <= key(x) && KeysAtLeast(s, key, lo)
    ensures KeysAtLeast(Insert(x, s, key), key, lo)
  {
    if s != [] && key(x) > key(s[0]) {
      InsertKeysAtLeast(x, s[1..], key, lo);
    }
  }

  /** Inserting into a sorted sequence keeps it sorted. */
  lemma {:induction false} InsertSorted<T>(x: T, s: seq<T>, key: T -> int)
    requires SortedBy(s, key)
    ensures SortedBy(Insert(x, s, key), key)
  {
    if s != [] && key(x) > key(s[0]) {
      InsertSorted(x, s[1..], key);
      InsertKeysAtLeast(x, s[1..], key, key(s[0]));
    }
  }

  /** `x` lands before every element with its own key, and nothing else moves
      relative to an element of the same key. */
  lemma {:induction false} InsertWithKey<T>(x: T, s: seq<T>, key: T -> int, k: int)
    ensures WithKey(Insert(x, s, key), key, k)
         == if key(x) == k then [x] + WithKey(s, key, k) else WithKey(s, key, k)
  {
    if s == [] {
    } else if key(x) <= key(s[0]) {
      assert ([x] + s)[1..] == s;
    } else {
      InsertWithKey(x, s[1..], key, k);
      var t := Insert(x, s[1..], key);
      assert ([s[0]] + t)[1..] == t;
    }
  }

  /** Python's `sorted(s, key=key)`: an insertion sort that keeps equal keys in input order. */
  function StableSort<T(==)>(s: seq<T>, key: T -> int): (r: seq<T>)
    ensures SortedBy(r, key)
    ensures multiset(r) == multiset(s)
    ensures |r| == |s|
    ensures StableFor(r, s, key)
  {
    if s == [] then []
    else
      var t := StableSort(s[1..], key);
      assert s == [s[0]] + s[1..];
      InsertSorted(s[0], t, key);
      forall k ensures WithKey(Insert(s[0], t, key), key, k) == WithKey(s, key, k) {
        InsertWithKey(s[0], t, key, k);
      }
      Insert(s[0], t, key)
  }

  /** Sorting a sequence that is already sorted leaves it as it is, so a second
      sort with no change in between reorders nothing. */
  lemma {:induction false} SortSortedIsIdentity<T>(s: seq<T>, key: T -> int)
    requires SortedBy(s, key)
    ensures StableSort(s, key) == s
  {
    if s != [] {
      assert SortedBy(s[1..], key);
      SortSortedIsIdentity(s[1..], key);
      assert s == [s[0]] + s[1..];
    }
  }

  /** Two sequences that are sorted by a key, hold the same elements and keep
      equal keys in the same order are equal: stable sorting has one answer. */
  lemma {:induction false} SortedStableUnique<T>(a: seq<T>, b: seq<T>, key: T -> int)
    requires SortedBy(a, key) && SortedBy(b, key)
    requires StableFor(a, b, key)
    requires |a| == |b|
    ensures a == b
  {
    if a != [] {
      var k := if key(a[0]) <= key(b[0]) then key(a[0]) else key(b[0]);
      FirstWithMinKey(a, key, k);
      FirstWithMinKey(b, key, k);
      assert WithKey(a, key, k) == WithKey(b, key, k);
      assert a[0] == b[0];
      forall k' ensures WithKey(a[1..], key, k') == WithKey(b[1..], key, k') {
        assert WithKey(a, key, k') == WithKey(b, key, k');
        if key(a[0]) == k' {
          assert WithKey(a, key, k') == [a[0]] + WithKey(a[1..], key, k');
          assert WithKey(b, key, k') == [b[0]] + WithKey(b[1..], key, k');
          assert WithKey(a[1..], key, k') == WithKey(a, key, k')[1..];
        }
      }
      SortedBy1(a, key);
      SortedBy1(b, key);
      SortedStableUnique(a[1..], b[1..], key);
    }
  }

  lemma SortedBy1<T>(a: seq<T>, key: T -> int)
    requires SortedBy(a, key) && a != []
    ensures SortedBy(a[1..], key)
  {
  }

  /** In a sorted non-empty sequence, the first element is the head of the
      elements that carry the smallest key `k` (if `k` is the key of a[0]) or
      no element has key `k` (when `k` is smaller). */
  lemma FirstWithMinKey<T>(a: seq<T>, key: T -> int, k: int)
    requires SortedBy(a, key) && a != [] && k <= key(a[0])
    ensures key(a[0]) == k ==> WithKey(a, key, k) != [] && WithKey(a, key, k)[0] == a[0]
    ensures key(a[0]) != k ==> WithKey(a, key, k) == []
  {
    if key(a[0]) != k {
      NoneBelow(a, key, k);
    }
  }

  lemma {:induction false} NoneBelow<T>(a: seq<T>, key: T -> int, k: int)
    requires KeysAtLeast(a, key, k + 1)
    ensures WithKey(a, key, k) == []
  {
    if a != [] {
      NoneBelow(a[1..], key, k);
    }
  }
}
