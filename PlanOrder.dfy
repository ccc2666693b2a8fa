/**
 * `Array.prototype.sort` with a numeric comparator, as the planned list uses
 * it: a stable sort on an integer key. It is modelled by insertion sort and
 * specified by the three facts that determine a stable sort: the result is
 * in key order, it is a permutation, and the elements of each key keep their
 * relative order.
 */
module PlanOrder {

  import opened Text

  predicate SortedBy<T>(s: seq<T>, key: T -> int) {
    forall i, j :: 0 <= i < j < |s| ==> key(s[i]) <= key(s[j])
  }

  /** The elements with key v, in their order. */
  function WithKey<T>(s: seq<T>, key: T -> int, v: int): seq<T> {
    if s == [] then [] else (if key(s[0]) == v then [s[0]] else []) + WithKey(s[1..], key, v)
  }

  /** x placed after every element whose key is not larger than its own. */
  function Insert<T>(r: seq<T>, x: T, key: T -> int): seq<T> {
    if r == [] then [x]
    else if key(x) < key(r[0]) then [x] + r
    else [r[0]] + Insert(r[1..], x, key)
  }

  function Sort<T>(s: seq<T>, key: T -> int): seq<T> {
    if s == [] then [] else Insert(Sort(s[..|s| - 1], key), s[|s| - 1], key)
  }

  // ---------------------------------------------------------------------------
  // Insert
  // ---------------------------------------------------------------------------

  lemma {:induction false} InsertMultiset<T>(r: seq<T>, x: T, key: T -> int)
    ensures multiset(Insert(r, x, key)) == multiset(r) + multiset{x}
    decreases |r|
  {
    if r != [] && key(x) >= key(r[0]) {
      InsertMultiset(r[1..], x, key);
      assert r == [r[0]] + r[1..];
    }
  }

  lemma {:induction false} InsertSorted<T>(r: seq<T>, x: T, key: T -> int)
    requires SortedBy(r, key)
    ensures SortedBy(Insert(r, x, key), key)
    ensures Insert(r, x, key) != [] && key(Insert(r, x, key)[0]) == (if r == [] || key(x) < key(r[0]) then key(x) else key(r[0]))
    decreases |r|
  {
    if r != [] && key(x) >= key(r[0]) {
      var tail := Insert(r[1..], x, key);
      SortedTail(r, key);
      InsertSorted(r[1..], x, key);
      assert key(r[0]) <= key(tail[0]) by {
        if r[1..] != [] {
          assert r[1..][0] == r[1];
        }
      }
      SortedCons(r[0], tail, key);
      assert Insert(r, x, key) == [r[0]] + tail;
    }
  }

  lemma SortedTail<T>(r: seq<T>, key: T -> int)
    requires r != [] && SortedBy(r, key)
    ensures SortedBy(r[1..], key)
  {
    forall i, j | 0 <= i < j < |r[1..]| ensures key(r[1..][i]) <= key(r[1..][j]) {
      assert r[1..][i] == r[i + 1] && r[1..][j] == r[j + 1];
    }
  }

  lemma SortedCons<T>(h: T, t: seq<T>, key: T -> int)
    requires t != [] && SortedBy(t, key) && key(h) <= key(t[0])
    ensures SortedBy([h] + t, key)
  {
    var s := [h] + t;
    forall i, j | 0 <= i < j < |s| ensures key(s[i]) <= key(s[j]) {
      assert s[j] == t[j - 1];
      if i == 0 {
        assert key(t[0]) <= key(t[j - 1]);
      } else {
        assert s[i] == t[i - 1];
      }
    }
  }

  lemma {:induction false} WithKeyAppend<T>(a: seq<T>, b: seq<T>, key: T -> int, v: int)
    ensures WithKey(a + b, key, v) == WithKey(a, key, v) + WithKey(b, key, v)
    decreases |a|
  {
    if a == [] {
      assert a + b == b;
    } else {
      var h := if key(a[0]) == v then [a[0]] else [];
      ConcatTail(a, b);
      WithKeyAppend(a[1..], b, key, v);
      ConcatAssoc(h, WithKey(a[1..], key, v), WithKey(b, key, v));
    }
  }

  lemma {:induction false} WithKeyAbove<T>(r: seq<T>, key: T -> int, v: int)
    requires SortedBy(r, key) && (r == [] || v < key(r[0]))
    ensures WithKey(r, key, v) == []
    decreases |r|
  {
    if r != [] {
      assert r[1..] == [] || key(r[0]) <= key(r[1..][0]);
      WithKeyAbove(r[1..], key, v);
    }
  }

  /** Inserting x leaves every other key's elements alone and puts x last among its equals. */
  lemma {:induction false} InsertStable<T>(r: seq<T>, x: T, key: T -> int, v: int)
    requires SortedBy(r, key)
    ensures WithKey(Insert(r, x, key), key, v) == WithKey(r, key, v) + (if key(x) == v then [x] else [])
    decreases |r|
  {
    if r == [] {
      assert WithKey([x], key, v) == (if key(x) == v then [x] else []) + WithKey([], key, v);
    } else if key(x) < key(r[0]) {
      if key(x) == v {
        WithKeyAbove(r, key, v);
      }
      assert WithKey([x] + r, key, v) == (if key(x) == v then [x] else []) + WithKey(r, key, v) by {
        assert ([x] + r)[1..] == r;
      }
      if key(x) != v {
        assert WithKey(r, key, v) + [] == WithKey(r, key, v);
      }
    } else {
      InsertStable(r[1..], x, key, v);
      assert ([r[0]] + Insert(r[1..], x, key))[1..] == Insert(r[1..], x, key);
    }
  }

  // ---------------------------------------------------------------------------
  // Sort
  // ---------------------------------------------------------------------------

  /** The sorted list is in key order. */
  lemma {:induction false} SortSorted<T>(s: seq<T>, key: T -> int)
    ensures SortedBy(Sort(s, key), key)
    decreases |s|
  {
    if s != [] {
      SortSorted(s[..|s| - 1], key);
      InsertSorted(Sort(s[..|s| - 1], key), s[|s| - 1], key);
    }
  }

  /** The sorted list holds exactly the elements it was given. */
  lemma {:induction false} SortPermutation<T>(s: seq<T>, key: T -> int)
    ensures multiset(Sort(s, key)) == multiset(s)
    decreases |s|
  {
    if s != [] {
      var init := s[..|s| - 1];
      SortPermutation(init, key);
      InsertMultiset(Sort(init, key), s[|s| - 1], key);
      assert s == init + [s[|s| - 1]];
    }
  }

  /** The sorted list is in key order and holds exactly the elements it was given. */
  lemma SortSortedPermutation<T>(s: seq<T>, key: T -> int)
    ensures SortedBy(Sort(s, key), key)
    ensures multiset(Sort(s, key)) == multiset(s)
  {
    SortSorted(s, key);
    SortPermutation(s, key);
  }

  /** Elements with equal keys come out in the order they went in. */
  lemma {:induction false} SortStable<T>(s: seq<T>, key: T -> int, v: int)
    ensures WithKey(Sort(s, key), key, v) == WithKey(s, key, v)
    decreases |s|
  {
    if s != [] {
      var init := s[..|s| - 1];
      var x := s[|s| - 1];
      assert s == init + [x];
      var tail := if key(x) == v then [x] else [];
      assert Sort(s, key) == Insert(Sort(init, key), x, key);
      SortStable(init, key, v);
      SortSorted(init, key);
      InsertStable(Sort(init, key), x, key, v);
      assert WithKey(Sort(s, key), key, v) == WithKey(init, key, v) + tail;
      assert WithKey([x], key, v) == tail by {
        assert WithKey([x], key, v) == tail + WithKey([], key, v);
      }
      WithKeyAppend(init, [x], key, v);
      assert WithKey(s, key, v) == WithKey(init, key, v) + tail;
    }
  }

  /** A list already in key order is left as it is. */
  lemma {:induction false} SortOfSorted<T>(s: seq<T>, key: T -> int)
    requires SortedBy(s, key)
    ensures Sort(s, key) == s
    decreases |s|
  {
    if s != [] {
      var init := s[..|s| - 1];
      var x := s[|s| - 1];
      assert SortedBy(init, key);
      SortOfSorted(init, key);
      AppendLargest(init, x, key);
      assert init + [x] == s;
    }
  }

  lemma {:induction false} AppendLargest<T>(r: seq<T>, x: T, key: T -> int)
    requires forall i :: 0 <= i < |r| ==> key(r[i]) <= key(x)
    ensures Insert(r, x, key) == r + [x]
    decreases |r|
  {
    if r != [] {
      AppendLargest(r[1..], x, key);
      assert [r[0]] + (r[1..] + [x]) == r + [x];
    }
  }
}
