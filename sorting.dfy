/**
  Stable sorting by an integer key. The store's `orderBy` and JavaScript's `Array.prototype.sort`
  (stable since ES2019) are both modelled by the insertion sort below: it orders by the key and
  keeps rows with equal keys in their input order.
*/
module Sorting {

  /** Ascending by `key`. A comparator `(a, b) => f(b) - f(a)` sorts ascending by `-f`. */
  predicate SortedBy<T>(s: seq<T>, key: T -> int) {
    forall i, j :: 0 <= i < j < |s| ==> key(s[i]) <= key(s[j])
  }

  /** The elements of `s` whose key is `k`, in their order in `s`. */
  function WithKey<T>(s: seq<T>, key: T -> int, k: int): seq<T> {
    if s == [] then []
    else WithKey(s[..|s| - 1], key, k) + (if key(s[|s| - 1]) == k then [s[|s| - 1]] else [])
  }

  /**
    Inserts `x` into `s` after every trailing element whose key is larger, scanning from the
    right: exactly what one pass of an in-place insertion sort does.
  */
  function Insert<T>(s: seq<T>, x: T, key: T -> int): (r: seq<T>)
    ensures |r| == |s| + 1
  {
    if s == [] || key(s[|s| - 1]) <= key(x) then s + [x]
    else
      Insert(s[..|s| - 1], x, key) + [s[|s| - 1]]
  }

  function InsertionSort<T>(s: seq<T>, key: T -> int): (r: seq<T>)
    ensures |r| == |s|
  {
    if s == [] then []
    else
      Insert(InsertionSort(s[..|s| - 1], key), s[|s| - 1], key)
  }

  lemma {:induction false} InsertPermutes<T>(s: seq<T>, x: T, key: T -> int)
    ensures multiset(Insert(s, x, key)) == multiset(s) + multiset{x}
    decreases |s|
  {
    if s == [] || key(s[|s| - 1]) <= key(x) {
    } else {
      assert s == s[..|s| - 1] + [s[|s| - 1]];
      InsertPermutes(s[..|s| - 1], x, key);
    }
  }

  /** The sort is a permutation of its input. */
  lemma {:induction false} InsertionSortPermutes<T>(s: seq<T>, key: T -> int)
    ensures multiset(InsertionSort(s, key)) == multiset(s)
    decreases |s|
  {
    if s != [] {
      assert s == s[..|s| - 1] + [s[|s| - 1]];
      InsertionSortPermutes(s[..|s| - 1], key);
      InsertPermutes(InsertionSort(s[..|s| - 1], key), s[|s| - 1], key);
    }
  }

  lemma {:induction false} WithKeyAppend<T>(a: seq<T>, b: seq<T>, key: T -> int, k: int)
    ensures WithKey(a + b, key, k) == WithKey(a, key, k) + WithKey(b, key, k)
    decreases |b|
  {
    if b == [] {
      assert a + b == a;
    } else {
      assert (a + b)[..|a + b| - 1] == a + b[..|b| - 1];
      WithKeyAppend(a, b[..|b| - 1], key, k);
    }
  }

  lemma {:induction false} InsertKeepsSorted<T>(s: seq<T>, x: T, key: T -> int)
    requires SortedBy(s, key)
    ensures SortedBy(Insert(s, x, key), key)
    ensures forall i :: 0 <= i < |s| && key(x) < key(s[i]) ==> key(x) < key(Insert(s, x, key)[|s|])
    decreases |s|
  {
    if s == [] || key(s[|s| - 1]) <= key(x) {
    } else {
      var init := s[..|s| - 1];
      assert SortedBy(init, key);
      InsertKeepsSorted(init, x, key);
      var r := Insert(init, x, key);
      InsertPermutes(init, x, key);
      assert multiset(r) == multiset(init) + multiset{x};
      forall i | 0 <= i < |r| ensures key(r[i]) <= key(s[|s| - 1]) {
        assert r[i] in multiset(r);
        if r[i] != x {
          assert r[i] in multiset(init);
          var j :| 0 <= j < |init| && init[j] == r[i];
          assert init[j] == s[j];
        }
      }
    }
  }

  lemma {:induction false} InsertionSortSorted<T>(s: seq<T>, key: T -> int)
    ensures SortedBy(InsertionSort(s, key), key)
    decreases |s|
  {
    if s != [] {
      InsertionSortSorted(s[..|s| - 1], key);
      InsertKeepsSorted(InsertionSort(s[..|s| - 1], key), s[|s| - 1], key);
    }
  }

  lemma WithKeySingle<T>(e: T, key: T -> int, k: int)
    ensures WithKey([e], key, k) == if key(e) == k then [e] else []
  {
    assert [e][..0] == [];
  }

  /** Among the elements sharing `x`'s key, `Insert` places `x` last; other keys are untouched. */
  lemma {:induction false} InsertStable<T>(s: seq<T>, x: T, key: T -> int, k: int)
    ensures WithKey(Insert(s, x, key), key, k) == WithKey(s + [x], key, k)
    decreases |s|
  {
    if s == [] || key(s[|s| - 1]) <= key(x) {
    } else {
      var init, last := s[..|s| - 1], s[|s| - 1];
      assert s == init + [last];
      assert Insert(s, x, key) == Insert(init, x, key) + [last];
      WithKeySingle(x, key, k);
      WithKeySingle(last, key, k);
      calc {
        WithKey(Insert(s, x, key), key, k);
        { WithKeyAppend(Insert(init, x, key), [last], key, k); }
        WithKey(Insert(init, x, key), key, k) + WithKey([last], key, k);
        { InsertStable(init, x, key, k); }
        WithKey(init + [x], key, k) + WithKey([last], key, k);
        { WithKeyAppend(init, [x], key, k); }
        WithKey(init, key, k) + WithKey([x], key, k) + WithKey([last], key, k);
        WithKey(init, key, k) + WithKey([last], key, k) + WithKey([x], key, k);
        { WithKeyAppend(init, [last], key, k); }
        WithKey(s, key, k) + WithKey([x], key, k);
        { WithKeyAppend(s, [x], key, k); }
        WithKey(s + [x], key, k);
      }
    }
  }

  /** The sort is stable: for every key, the elements with that key keep their input order. */
  lemma {:induction false} InsertionSortStable<T>(s: seq<T>, key: T -> int, k: int)
    ensures WithKey(InsertionSort(s, key), key, k) == WithKey(s, key, k)
    decreases |s|
  {
    if s != [] {
      var init, last := s[..|s| - 1], s[|s| - 1];
      InsertionSortStable(init, key, k);
      InsertStable(InsertionSort(init, key), last, key, k);
      WithKeyAppend(InsertionSort(init, key), [last], key, k);
      WithKeyAppend(init, [last], key, k);
      assert s == init + [last];
    }
  }

  /**
    One pass of the in-place insertion sort: `a[..i]` is sorted and `a[i]` is moved left past
    the larger keys before it.
  */
  method InsertPass<T>(a: array<T>, i: nat, key: T -> int)
    requires i < a.Length
    modifies a
    ensures a[..i + 1] == Insert(old(a[..i]), old(a[i]), key)
    ensures forall k :: i < k < a.Length ==> a[k] == old(a[k])
  {
    ghost var prefix := a[..i];
    var x := a[i];
    var j := i;
    while j > 0 && key(a[j - 1]) > key(x)
      invariant 0 <= j <= i
      invariant forall k :: 0 <= k < j ==> a[k] == prefix[k]
      invariant forall k :: j < k <= i ==> a[k] == prefix[k - 1]
      invariant forall k :: i < k < a.Length ==> a[k] == old(a[k])
      invariant forall k :: j <= k < i ==> key(prefix[k]) > key(x)
    {
      a[j] := a[j - 1];
      j := j - 1;
    }
    a[j] := x;
    InsertAt(prefix, x, key, j);
    assert a[..i + 1] == prefix[..j] + [x] + prefix[j..];
  }

  /** Where a pass stops: after the last key not above `x`'s, before the larger keys. */
  lemma {:induction false} InsertAt<T>(prefix: seq<T>, x: T, key: T -> int, j: nat)
    requires j <= |prefix|
    requires j == 0 || key(prefix[j - 1]) <= key(x)
    requires forall k :: j <= k < |prefix| ==> key(prefix[k]) > key(x)
    ensures Insert(prefix, x, key) == prefix[..j] + [x] + prefix[j..]
    decreases |prefix|
  {
    if j < |prefix| {
      var init := prefix[..|prefix| - 1];
      InsertAt(init, x, key, j);
      assert init[..j] == prefix[..j];
      assert prefix[j..] == init[j..] + [prefix[|prefix| - 1]];
    } else {
      assert prefix[..j] == prefix;
    }
  }

  /**
    Sorts the array in place, as `Array.prototype.sort` does with the comparator
    `(a, b) => key(a) - key(b)`.
  */
  method SortInPlace<T>(a: array<T>, key: T -> int)
    modifies a
    ensures a[..] == InsertionSort(old(a[..]), key)
  {
    ghost var orig := a[..];
    var i := 0;
    while i < a.Length
      invariant 0 <= i <= a.Length
      invariant a[..i] == InsertionSort(orig[..i], key)
      invariant forall k :: i <= k < a.Length ==> a[k] == orig[k]
    {
      InsertPass(a, i, key);
      SortStep(orig, i, key);
      i := i + 1;
    }
    assert orig[..a.Length] == orig;
    assert a[..a.Length] == a[..];
  }

  lemma SortStep<T>(s: seq<T>, i: nat, key: T -> int)
    requires i < |s|
    ensures InsertionSort(s[..i + 1], key) == Insert(InsertionSort(s[..i], key), s[i], key)
  {
    assert s[..i + 1][..i] == s[..i];
  }
}
