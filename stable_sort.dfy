/**
 * The stable sort by key that `list.sort(key=...)` performs: an insertion
 * sort, with the three facts that pin its result down (sorted by key, a
 * permutation, equal-key elements in input order) and a proof that these
 * facts determine the result, so any stable sort gives the same list.
 */
module StableSort {

  predicate SortedBy<T>(s: seq<T>, key: T -> int) {
    forall i, j :: 0 <= i < j < |s| ==> key(s[i]) <= key(s[j])
  }

  /** The elements of `s` whose key is `k`, in their order in `s`. */
  function WithKey<T>(s: seq<T>, key: T -> int, k: int): seq<T> {
    if s == [] then []
    else (if key(s[0]) == k then [s[0]] else []) + WithKey(s[1..], key, k)
  }

  /** Puts `x` in front of the first element whose key is not below its own. */
  function Insert<T>(x: T, s: seq<T>, key: T -> int): (r: seq<T>)
    ensures multiset(r) == multiset(s) + multiset{x}
  {
    if s == [] || key(x) <= key(s[0]) then [x] + s
    else
      assert s == [s[0]] + s[1..];
      [s[0]] + Insert(x, s[1..], key)
  }

  function SortByKey<T>(s: seq<T>, key: T -> int): (r: seq<T>)
    ensures multiset(r) == multiset(s)
  {
    if s == [] then []
    else
      assert s == [s[0]] + s[1..];
      Insert(s[0], SortByKey(s[1..], key), key)
  }

  lemma {:induction false} InsertSorted<T>(x: T, s: seq<T>, key: T -> int)
    requires SortedBy(s, key)
    ensures SortedBy(Insert(x, s, key), key)
  {
    if s == [] || key(x) <= key(s[0]) {
    } else {
      var t := Insert(x, s[1..], key);
      InsertSorted(x, s[1..], key);
      forall y | y in t
        ensures key(s[0]) <= key(y)
      {
        assert y in multiset(t);
        assert y == x || y in s[1..];
      }
    }
  }

  lemma WithKeyCons<T>(y: T, s: seq<T>, key: T -> int, k: int)
    ensures WithKey([y] + s, key, k) == (if key(y) == k then [y] else []) + WithKey(s, key, k)
  {
    assert ([y] + s)[1..] == s;
  }

  /** The selected elements are elements of `s` with key `k`. */
  lemma {:induction false} WithKeyMembers<T>(s: seq<T>, key: T -> int, k: int)
    ensures forall y :: y in WithKey(s, key, k) ==> y in s && key(y) == k
  {
    if s != [] {
      WithKeyMembers(s[1..], key, k);
    }
  }

  /** Two pieces of which one is empty can be swapped. */
  lemma Reorder<T>(ys: seq<T>, xs: seq<T>, rest: seq<T>)
    requires xs == [] || ys == []
    ensures ys + (xs + rest) == xs + (ys + rest)
  {
    if xs == [] {
      assert xs + rest == rest && xs + (ys + rest) == ys + rest;
    } else {
      assert ys + (xs + rest) == xs + rest && ys + rest == rest;
    }
  }

  lemma {:induction false} InsertWithKey<T>(x: T, s: seq<T>, key: T -> int, k: int)
    ensures WithKey(Insert(x, s, key), key, k)
         == (if key(x) == k then [x] else []) + WithKey(s, key, k)
  {
    if s == [] || key(x) <= key(s[0]) {
      WithKeyCons(x, s, key, k);
    } else {
      var t := Insert(x, s[1..], key);
      var xs := if key(x) == k then [x] else [];
      var ys := if key(s[0]) == k then [s[0]] else [];
      var rest := WithKey(s[1..], key, k);
      assert Insert(x, s, key) == [s[0]] + t;
      WithKeyCons(s[0], t, key, k);
      InsertWithKey(x, s[1..], key, k);
      assert WithKey(s, key, k) == ys + rest;
      // key(x) > key(s[0]): at most one of the two has key k
      Reorder(ys, xs, rest);
    }
  }

  /** The result is non-decreasing in key. */
  lemma {:induction false} SortByKeySorted<T>(s: seq<T>, key: T -> int)
    ensures SortedBy(SortByKey(s, key), key)
  {
    if s != [] {
      SortByKeySorted(s[1..], key);
      InsertSorted(s[0], SortByKey(s[1..], key), key);
    }
  }

  /** Stability: for every key, the elements with that key keep their input order. */
  lemma {:induction false} SortByKeyStable<T>(s: seq<T>, key: T -> int, k: int)
    ensures WithKey(SortByKey(s, key), key, k) == WithKey(s, key, k)
  {
    if s != [] {
      SortByKeyStable(s[1..], key, k);
      InsertWithKey(s[0], SortByKey(s[1..], key), key, k);
    }
  }

  /** In a sorted list the head has the least key. */
  lemma HeadKeyLeast<T>(a: seq<T>, key: T -> int, y: T)
    requires SortedBy(a, key) && y in a
    ensures key(a[0]) <= key(y)
  {
    var i :| 0 <= i < |a| && a[i] == y;
    assert i == 0 || key(a[0]) <= key(a[i]);
  }

  /** A key that some element of `s` has selects a non-empty list. */
  lemma WithKeyNonEmpty<T>(s: seq<T>, key: T -> int)
    requires s != []
    ensures WithKey(s, key, key(s[0])) != []
  {
    WithKeyCons(s[0], s[1..], key, key(s[0]));
    assert s == [s[0]] + s[1..];
  }

  /** Two non-empty sorted lists that agree on every key start with the same key. */
  lemma HeadKeysAgree<T>(a: seq<T>, b: seq<T>, key: T -> int)
    requires a != [] && b != []
    requires SortedBy(a, key) && SortedBy(b, key)
    requires forall k :: WithKey(a, key, k) == WithKey(b, key, k)
    ensures key(a[0]) == key(b[0])
  {
    WithKeyNonEmpty(a, key);
    WithKeyNonEmpty(b, key);
    var wa := WithKey(b, key, key(a[0]));
    WithKeyMembers(b, key, key(a[0]));
    assert wa[0] in wa;
    HeadKeyLeast(b, key, wa[0]);
    var wb := WithKey(a, key, key(b[0]));
    WithKeyMembers(a, key, key(b[0]));
    assert wb[0] in wb;
    HeadKeyLeast(a, key, wb[0]);
  }

  /** Two non-empty lists that agree on the key of `a`'s head and start with
      the same key start with the same element. */
  lemma HeadsEqual<T>(a: seq<T>, b: seq<T>, key: T -> int)
    requires a != [] && b != [] && key(a[0]) == key(b[0])
    requires WithKey(a, key, key(a[0])) == WithKey(b, key, key(a[0]))
    ensures a[0] == b[0]
  {
    var k := key(a[0]);
    assert a == [a[0]] + a[1..] && b == [b[0]] + b[1..];
    WithKeyCons(a[0], a[1..], key, k);
    WithKeyCons(b[0], b[1..], key, k);
    assert WithKey(a, key, k) == [a[0]] + WithKey(a[1..], key, k);
    assert WithKey(b, key, k) == [b[0]] + WithKey(b[1..], key, k);
    assert WithKey(a, key, k)[0] == a[0];
    assert WithKey(b, key, k)[0] == b[0];
  }

  /** Dropping a common head keeps a key's agreement. */
  lemma TailAgrees<T>(a: seq<T>, b: seq<T>, key: T -> int, k: int)
    requires a != [] && b != [] && a[0] == b[0]
    requires WithKey(a, key, k) == WithKey(b, key, k)
    ensures WithKey(a[1..], key, k) == WithKey(b[1..], key, k)
  {
    var ta, tb := WithKey(a[1..], key, k), WithKey(b[1..], key, k);
    var h := if key(a[0]) == k then [a[0]] else [];
    assert WithKey(a, key, k) == h + ta;
    assert WithKey(b, key, k) == h + tb;
    assert ta == (h + ta)[|h|..];
    assert tb == (h + tb)[|h|..];
  }

  /** Two lists sorted by key that agree on every key's elements are equal. */
  lemma {:induction false} SortedUnique<T>(a: seq<T>, b: seq<T>, key: T -> int)
    requires SortedBy(a, key) && SortedBy(b, key)
    requires forall k :: WithKey(a, key, k) == WithKey(b, key, k)
    ensures a == b
    decreases |a|
  {
    if a == [] && b != [] {
      WithKeyNonEmpty(b, key);
      assert false;
    } else if a != [] && b == [] {
      WithKeyNonEmpty(a, key);
      assert false;
    } else if a != [] {
      HeadKeysAgree(a, b, key);
      HeadsEqual(a, b, key);
      forall k
        ensures WithKey(a[1..], key, k) == WithKey(b[1..], key, k)
      {
        TailAgrees(a, b, key, k);
      }
      SortedUnique(a[1..], b[1..], key);
      assert a == [a[0]] + a[1..] && b == [b[0]] + b[1..];
    }
  }

  /** Any list that is sorted by key and keeps every key's elements in input
      order is exactly `SortByKey(s, key)`: the result of a stable sort. */
  lemma StableSortIsSortByKey<T>(s: seq<T>, r: seq<T>, key: T -> int)
    requires SortedBy(r, key)
    requires forall k :: WithKey(r, key, k) == WithKey(s, key, k)
    ensures r == SortByKey(s, key)
  {
    SortByKeySorted(s, key);
    forall k
      ensures WithKey(r, key, k) == WithKey(SortByKey(s, key), key, k)
    {
      SortByKeyStable(s, key, k);
    }
    SortedUnique(r, SortByKey(s, key), key);
  }
}
