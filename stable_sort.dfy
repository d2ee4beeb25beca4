/**
 * `Array.prototype.sort` with a numeric comparator `(a, b) => key(b) - key(a)`:
 * descending by `key`, and stable, as section 22.1.3.27 of ECMA-262 (10th
 * edition, ECMAScript 2019) requires, so elements with equal keys keep their
 * input order.
 * An ascending sort by `key` is the descending sort by `-key`.
 * Modelled as an insertion sort on sequences.
 */
module StableSort {

  ghost predicate SortedDesc<T>(s: seq<T>, key: T -> real)
  {
    forall i, j :: 0 <= i < j < |s| ==> key(s[i]) >= key(s[j])
  }

  /** Inserts `x`, which precedes every element of `s` in the input, after all keys strictly greater than its own. */
  function Insert<T>(x: T, s: seq<T>, key: T -> real): (r: seq<T>)
    ensures |r| == |s| + 1
    ensures multiset(r) == multiset(s) + multiset{x}
  {
    if |s| == 0 then [x]
    else if key(s[0]) <= key(x) then [x] + s
    else
      assert s == [s[0]] + s[1..];
      [s[0]] + Insert(x, s[1..], key)
  }

  function SortDesc<T>(s: seq<T>, key: T -> real): (r: seq<T>)
    ensures |r| == |s|
    ensures multiset(r) == multiset(s)
  {
    if |s| == 0 then [] else
      assert s == [s[0]] + s[1..];
      Insert(s[0], SortDesc(s[1..], key), key)
  }

  lemma {:induction false} InsertSorted<T>(x: T, s: seq<T>, key: T -> real)
    requires SortedDesc(s, key)
    ensures SortedDesc(Insert(x, s, key), key)
  {
    if |s| > 0 && key(s[0]) > key(x) {
      InsertSorted(x, s[1..], key);
      var r' := Insert(x, s[1..], key);
      forall j | 0 <= j < |r'| ensures key(r'[j]) <= key(s[0]) {
        assert r'[j] in multiset(r');
        assert r'[j] == x || r'[j] in s[1..];
      }
    }
  }

  /** The sorted sequence is ordered by non-increasing key. */
  lemma {:induction false} SortDescSorted<T>(s: seq<T>, key: T -> real)
    ensures SortedDesc(SortDesc(s, key), key)
  {
    if |s| > 0 {
      SortDescSorted(s[1..], key);
      InsertSorted(s[0], SortDesc(s[1..], key), key);
    }
  }

  /** The elements of `s` whose key is `v`, in order. */
  function WithKey<T>(s: seq<T>, key: T -> real, v: real): seq<T>
  {
    if |s| == 0 then [] else (if key(s[0]) == v then [s[0]] else []) + WithKey(s[1..], key, v)
  }

  lemma WithKeyCons<T>(x: T, s: seq<T>, key: T -> real, v: real)
    ensures WithKey([x] + s, key, v) == (if key(x) == v then [x] else []) + WithKey(s, key, v)
  {
    assert ([x] + s)[1..] == s;
  }

  lemma {:induction false} InsertWithKey<T>(x: T, s: seq<T>, key: T -> real, v: real)
    ensures WithKey(Insert(x, s, key), key, v) == (if key(x) == v then [x] else []) + WithKey(s, key, v)
  {
    if |s| == 0 {
    } else if key(s[0]) <= key(x) {
      WithKeyCons(x, s, key, v);
    } else {
      InsertWithKey(x, s[1..], key, v);
      InsertWithKeyPast(x, s, key, v);
    }
  }

  /** `x` moves past a head whose key is strictly greater. */
  lemma InsertPast<T>(x: T, s: seq<T>, key: T -> real)
    requires |s| > 0 && key(s[0]) > key(x)
    ensures Insert(x, s, key) == [s[0]] + Insert(x, s[1..], key)
  {
  }

  /** The step of `InsertWithKey` where `x` moves past `s[0]`, whose key is strictly greater. */
  lemma InsertWithKeyPast<T>(x: T, s: seq<T>, key: T -> real, v: real)
    requires |s| > 0 && key(s[0]) > key(x)
    requires WithKey(Insert(x, s[1..], key), key, v) == (if key(x) == v then [x] else []) + WithKey(s[1..], key, v)
    ensures WithKey(Insert(x, s, key), key, v) == (if key(x) == v then [x] else []) + WithKey(s, key, v)
  {
    var t := Insert(x, s[1..], key);
    InsertPast(x, s, key);
    WithKeyCons(s[0], t, key, v);
    WithKeyCons(s[0], s[1..], key, v);
    assert [s[0]] + s[1..] == s;
    // `s[0]` and `x` have different keys, so at most one of them has key `v`.
    OneOfTwo(if key(s[0]) == v then [s[0]] else [], if key(x) == v then [x] else [], WithKey(s[1..], key, v));
  }

  /** Two pieces of which at most one is non-empty can be put in either order. */
  lemma OneOfTwo<T>(a: seq<T>, b: seq<T>, rest: seq<T>)
    requires a == [] || b == []
    ensures a + (b + rest) == b + (a + rest)
  {
  }

  /** Stability: among elements with equal keys the input order is kept. */
  lemma {:induction false} SortDescStable<T>(s: seq<T>, key: T -> real, v: real)
    ensures WithKey(SortDesc(s, key), key, v) == WithKey(s, key, v)
  {
    if |s| > 0 {
      SortDescStable(s[1..], key, v);
      InsertWithKey(s[0], SortDesc(s[1..], key), key, v);
    }
  }

  /**
   * Reference fold for "first occurrence of the maximum": the index of the
   * earliest element whose key is not exceeded by any other.
   */
  function FirstMaxIndex<T>(s: seq<T>, key: T -> real): (i: nat)
    requires |s| > 0
    ensures i < |s|
    ensures forall j :: 0 <= j < |s| ==> key(s[j]) <= key(s[i])
    ensures forall j :: 0 <= j < i ==> key(s[j]) < key(s[i])
  {
    if |s| == 1 then 0
    else
      var j := 1 + FirstMaxIndex(s[1..], key);
      if key(s[j]) <= key(s[0]) then 0 else j
  }

  /** The head of the stable descending sort is the first maximal element. */
  lemma {:induction false} SortDescHead<T>(s: seq<T>, key: T -> real)
    requires |s| > 0
    ensures SortDesc(s, key)[0] == s[FirstMaxIndex(s, key)]
  {
    if |s| > 1 {
      SortDescHead(s[1..], key);
    }
  }

  /** The first maximal element is the only one no other exceeds and no earlier one equals. */
  lemma FirstMaxUnique<T>(s: seq<T>, key: T -> real, i: nat)
    requires i < |s|
    requires forall j :: 0 <= j < |s| ==> key(s[j]) <= key(s[i])
    requires forall j :: 0 <= j < i ==> key(s[j]) < key(s[i])
    ensures i == FirstMaxIndex(s, key)
  {
    var f := FirstMaxIndex(s, key);
    assert key(s[f]) <= key(s[i]) && key(s[i]) <= key(s[f]);
  }
}
