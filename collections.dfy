/**
 * Sequence helpers that stand for the JavaScript array and string built-ins the
 * source uses: `join`, `filter`, `slice`, `startsWith`, a `Set` filled in
 * insertion order, `flatMap`, and property lookup in an ordered record.
 */
module Collections {
  import opened Wrappers

  /** `parts.join(sep)`: no separator before the first part or after the last. */
  function Join(parts: seq<string>, sep: string): string
  {
    if |parts| == 0 then ""
    else if |parts| == 1 then parts[0]
    else parts[0] + sep + Join(parts[1..], sep)
  }

  lemma {:induction false} JoinSnoc(parts: seq<string>, x: string, sep: string)
    requires |parts| > 0
    ensures Join(parts + [x], sep) == Join(parts, sep) + sep + x
  {
    if |parts| == 1 {
      assert parts + [x] == [parts[0], x];
    } else {
      assert (parts + [x])[1..] == parts[1..] + [x];
      JoinSnoc(parts[1..], x, sep);
    }
  }

  /** Joining a first part before the rest puts one separator between them. */
  lemma JoinHead(head: string, rest: seq<string>, sep: string)
    requires |rest| > 0
    ensures Join([head] + rest, sep) == head + sep + Join(rest, sep)
  {
    assert ([head] + rest)[1..] == rest;
  }

  lemma {:induction false} JoinAppend(a: seq<string>, b: seq<string>, sep: string)
    requires |a| > 0 && |b| > 0
    ensures Join(a + b, sep) == Join(a, sep) + sep + Join(b, sep)
  {
    if |a| == 1 {
      assert (a + b)[1..] == b;
    } else {
      assert (a + b)[1..] == a[1..] + b;
      JoinAppend(a[1..], b, sep);
    }
  }

  /** `s.filter(p)`: the elements satisfying `p`, in their original order. */
  function Filter<T>(s: seq<T>, p: T -> bool): (r: seq<T>)
    ensures |r| <= |s|
    ensures forall i :: 0 <= i < |r| ==> r[i] in s && p(r[i])
    ensures forall i :: 0 <= i < |s| && p(s[i]) ==> s[i] in r
  {
    if |s| == 0 then [] else (if p(s[0]) then [s[0]] else []) + Filter(s[1..], p)
  }

  lemma FilterAppend<T>(a: seq<T>, b: seq<T>, p: T -> bool)
    ensures Filter(a + b, p) == Filter(a, p) + Filter(b, p)
  {
    if |a| > 0 {
      assert (a + b)[0] == a[0];
      assert (a + b)[1..] == a[1..] + b;
      FilterAppend(a[1..], b, p);
      var h := if p(a[0]) then [a[0]] else [];
      assert Filter(a + b, p) == h + Filter(a[1..] + b, p);
      assert Filter(a, p) == h + Filter(a[1..], p);
    } else {
      assert a + b == b;
    }
  }

  lemma FilterSnoc<T>(s: seq<T>, x: T, p: T -> bool)
    ensures Filter(s + [x], p) == Filter(s, p) + (if p(x) then [x] else [])
  {
    FilterAppend(s, [x], p);
    assert Filter([x], p) == (if p(x) then [x] else []) + Filter([x][1..], p);
  }

  /**
   * Where the survivors of `Filter(s, p)` stood in `s`: strictly increasing
   * positions, so filtering keeps the survivors in their original order.
   */
  function FilterPositions<T>(s: seq<T>, p: T -> bool): (pos: seq<nat>)
    ensures |pos| == |Filter(s, p)|
    ensures forall i :: 0 <= i < |pos| ==> pos[i] < |s| && s[pos[i]] == Filter(s, p)[i]
    ensures forall i, j :: 0 <= i < j < |pos| ==> pos[i] < pos[j]
  {
    if |s| == 0 then []
    else
      var rest := FilterPositions(s[1..], p);
      var shifted := seq(|rest|, k requires 0 <= k < |rest| => rest[k] + 1);
      var pos := if p(s[0]) then [0] + shifted else shifted;
      ConsPositions(s, p(s[0]), Filter(s[1..], p), rest, shifted, pos);
      pos
  }

  /**
   * Positions of `f` in `s[1..]`, moved up by one and preceded by 0 when the
   * head is kept, are positions of the head-and-`f` in `s`.
   */
  lemma ConsPositions<T>(s: seq<T>, keep: bool, f: seq<T>, rest: seq<nat>, shifted: seq<nat>, pos: seq<nat>)
    requires |s| > 0 && |rest| == |f|
    requires forall i :: 0 <= i < |rest| ==> rest[i] < |s| - 1 && s[1..][rest[i]] == f[i]
    requires forall i, j :: 0 <= i < j < |rest| ==> rest[i] < rest[j]
    requires |shifted| == |rest| && forall k :: 0 <= k < |rest| ==> shifted[k] == rest[k] + 1
    requires pos == if keep then [0] + shifted else shifted
    ensures var g := (if keep then [s[0]] else []) + f;
      && |pos| == |g|
      && (forall i :: 0 <= i < |pos| ==> pos[i] < |s| && s[pos[i]] == g[i])
      && (forall i, j :: 0 <= i < j < |pos| ==> pos[i] < pos[j])
  {
    assert forall i :: 0 <= i < |shifted| ==> 0 < shifted[i] < |s| && s[shifted[i]] == f[i];
  }

  lemma PrefixSnoc<T>(s: seq<T>, i: nat)
    requires i < |s|
    ensures s[..i + 1] == s[..i] + [s[i]]
  {
  }

  /** `k.replaceAll("_", " ")`. */
  function SpaceName(k: string): (r: string)
    ensures |r| == |k| && '_' !in r
    ensures forall i :: 0 <= i < |k| && k[i] != '_' ==> r[i] == k[i]
  {
    seq(|k|, i requires 0 <= i < |k| => if k[i] == '_' then ' ' else k[i])
  }

  /** `s.slice(0, n)`. */
  function Take<T>(s: seq<T>, n: nat): (r: seq<T>)
    ensures |r| == if |s| < n then |s| else n
    ensures r == s[..|r|]
  {
    if |s| < n then s else s[..n]
  }

  predicate StartsWith(s: string, prefix: string)
  {
    |prefix| <= |s| && s[..|prefix|] == prefix
  }

  predicate NoDup<T(==)>(s: seq<T>)
  {
    forall i, j :: 0 <= i < j < |s| ==> s[i] != s[j]
  }

  /** Position of the first occurrence of `x` in `s`. */
  function IndexOf<T(==)>(s: seq<T>, x: T): (i: nat)
    requires x in s
    ensures i < |s| && s[i] == x && x !in s[..i]
  {
    if s[0] == x then 0 else 1 + IndexOf(s[1..], x)
  }

  /**
   * The elements of `s` as a JavaScript `Set` filled by `add` from left to
   * right holds them: each element once, at the position it was first added.
   */
  function Dedup<T(==,!new)>(s: seq<T>): (r: seq<T>)
    ensures NoDup(r)
    ensures forall i :: 0 <= i < |r| ==> r[i] in s
    ensures forall i :: 0 <= i < |s| ==> s[i] in r
    ensures forall x :: x in r <==> x in s
  {
    if |s| == 0 then []
    else
      var d := Dedup(s[..|s| - 1]);
      assert forall i :: 0 <= i < |s| - 1 ==> s[i] == s[..|s| - 1][i];
      if s[|s| - 1] in d then d else d + [s[|s| - 1]]
  }

  lemma IndexOfPrefix<T>(s: seq<T>, x: T, y: T)
    requires x in s
    ensures IndexOf(s + [y], x) == IndexOf(s, x)
  {
    var i := IndexOf(s, x);
    assert (s + [y])[..i] == s[..i];
    IndexOfUnique(s + [y], x, i);
  }

  lemma IndexOfUnique<T>(s: seq<T>, x: T, i: nat)
    requires i < |s| && s[i] == x && x !in s[..i]
    ensures IndexOf(s, x) == i
  {
  }

  /** The order kept by `Dedup` is the order of first occurrence in `s`. */
  lemma {:induction false} DedupFirstSeenOrder<T(!new)>(s: seq<T>)
    ensures forall i, j :: 0 <= i < j < |Dedup(s)| ==> IndexOf(s, Dedup(s)[i]) < IndexOf(s, Dedup(s)[j])
  {
    if |s| > 0 {
      var p, y := s[..|s| - 1], s[|s| - 1];
      assert s == p + [y];
      DedupFirstSeenOrder(p);
      var d := Dedup(p);
      forall x | x in d ensures IndexOf(s, x) == IndexOf(p, x) {
        IndexOfPrefix(p, x, y);
      }
      if y !in d {
        assert y !in p;
        IndexOfUnique(s, y, |p|);
      }
    }
  }

  /** Adding only elements already present leaves the deduplicated sequence as it was. */
  lemma {:induction false} DedupSeen<T(!new)>(s: seq<T>, t: seq<T>)
    requires forall x :: x in t ==> x in s
    ensures Dedup(s + t) == Dedup(s)
    decreases |t|
  {
    if |t| == 0 {
      assert s + t == s;
    } else {
      var u := t[..|t| - 1];
      assert (s + t)[..|s + t| - 1] == s + u;
      assert (s + t)[|s + t| - 1] == t[|t| - 1];
      assert t[|t| - 1] in t;
      DedupSeen(s, u);
    }
  }

  /** A sequence without duplicates is its own deduplication. */
  lemma {:induction false} DedupNoDup<T(!new)>(s: seq<T>)
    requires NoDup(s)
    ensures Dedup(s) == s
  {
    if |s| > 0 {
      var p := s[..|s| - 1];
      assert NoDup(p) by {
        forall i, j | 0 <= i < j < |p| ensures p[i] != p[j] {
          assert p[i] == s[i] && p[j] == s[j];
        }
      }
      DedupNoDup(p);
      assert s[|s| - 1] !in p by {
        forall i | 0 <= i < |p| ensures p[i] != s[|s| - 1] {
          assert p[i] == s[i];
        }
      }
      assert p + [s[|s| - 1]] == s;
    }
  }

  /** `ss.flat()`: the sequences one after the other. */
  function Flatten<T>(ss: seq<seq<T>>): seq<T>
  {
    if |ss| == 0 then [] else ss[0] + Flatten(ss[1..])
  }

  lemma {:induction false} FlattenMember<T>(ss: seq<seq<T>>, x: T)
    ensures x in Flatten(ss) <==> exists i :: 0 <= i < |ss| && x in ss[i]
  {
    if |ss| > 0 {
      FlattenMember(ss[1..], x);
      if x in Flatten(ss[1..]) {
        var i :| 0 <= i < |ss[1..]| && x in ss[1..][i];
        assert x in ss[i + 1];
      }
      if exists i :: 0 <= i < |ss| && x in ss[i] {
        var i :| 0 <= i < |ss| && x in ss[i];
        if i > 0 { assert x in ss[1..][i - 1]; }
      }
    }
  }

  lemma {:induction false} FlattenSnoc<T>(ss: seq<seq<T>>, x: seq<T>)
    ensures Flatten(ss + [x]) == Flatten(ss) + x
  {
    if |ss| > 0 {
      assert (ss + [x])[1..] == ss[1..] + [x];
      FlattenSnoc(ss[1..], x);
    } else {
      assert Flatten([x][1..]) == [];
    }
  }

  /** The keys of an ordered record, in order (`Object.keys`). */
  function Keys<K, V>(entries: seq<(K, V)>): (r: seq<K>)
    ensures |r| == |entries|
    ensures forall i :: 0 <= i < |r| ==> r[i] == entries[i].0
  {
    seq(|entries|, i requires 0 <= i < |entries| => entries[i].0)
  }

  /** Property read `record[k]` on an ordered record: the first entry with key `k`. */
  function Lookup<K(==), V>(entries: seq<(K, V)>, k: K): (r: Option<V>)
    ensures r.Some? <==> k in Keys(entries)
    ensures r.Some? ==> (k, r.value) in entries
  {
    if |entries| == 0 then None
    else if entries[0].0 == k then Some(entries[0].1)
    else
      assert Keys(entries) == [entries[0].0] + Keys(entries[1..]);
      Lookup(entries[1..], k)
  }

  lemma ZipSnoc<K, V>(ks: seq<K>, vs: seq<V>, k: K, v: V)
    requires |ks| == |vs|
    ensures Zip(ks + [k], vs + [v]) == Zip(ks, vs) + [(k, v)]
  {
  }

  /** A lookup in two lists of properties finds the first list's property before the second's. */
  lemma {:induction false} LookupAppend<K, V>(a: seq<(K, V)>, b: seq<(K, V)>, k: K)
    ensures Lookup(a + b, k) == if k in Keys(a) then Lookup(a, k) else Lookup(b, k)
  {
    if |a| > 0 {
      assert (a + b)[0] == a[0] && (a + b)[1..] == a[1..] + b;
      assert Keys(a) == [a[0].0] + Keys(a[1..]);
      if a[0].0 != k {
        LookupAppend(a[1..], b, k);
      }
    } else {
      assert a + b == b;
    }
  }

  /** The record with keys `ks` and values `vs`, pairwise and in order. */
  function Zip<K, V>(ks: seq<K>, vs: seq<V>): (r: seq<(K, V)>)
    requires |ks| == |vs|
    ensures |r| == |ks| && Keys(r) == ks
    ensures forall i :: 0 <= i < |r| ==> r[i] == (ks[i], vs[i])
  {
    seq(|ks|, i requires 0 <= i < |ks| => (ks[i], vs[i]))
  }

  /** With distinct keys, reading a key of a zipped record gives the value at the key's position. */
  lemma {:induction false} LookupZip<K, V>(ks: seq<K>, vs: seq<V>, i: nat)
    requires |ks| == |vs| && NoDup(ks) && i < |ks|
    ensures Lookup(Zip(ks, vs), ks[i]) == Some(vs[i])
  {
    if i > 0 {
      assert Zip(ks, vs)[1..] == Zip(ks[1..], vs[1..]);
      assert ks[0] != ks[i];
      assert ks[1..][i - 1] == ks[i];
      LookupZip(ks[1..], vs[1..], i - 1);
    }
  }

  /** Decimal digits of `n`, as JavaScript's template-string conversion writes an integer. */
  function DecimalString(n: nat): (r: string)
    ensures |r| > 0
    ensures forall i :: 0 <= i < |r| ==> '0' <= r[i] <= '9'
  {
    var d := ['0' + (n % 10) as char];
    if n < 10 then d else DecimalString(n / 10) + d
  }

  /** The number a string of decimal digits stands for. */
  function DecimalValue(s: string): nat
  {
    if |s| == 0 then 0
    else
      var c := s[|s| - 1];
      DecimalValue(s[..|s| - 1]) * 10 + (if '0' <= c <= '9' then (c - '0') as nat else 0)
  }

  /** Reading the digits back gives the number, so different numbers are written differently. */
  lemma {:induction false} DecimalRoundTrip(n: nat)
    ensures DecimalValue(DecimalString(n)) == n
    decreases n
  {
    var d := ['0' + (n % 10) as char];
    if n >= 10 {
      DecimalRoundTrip(n / 10);
      var s := DecimalString(n / 10) + d;
      assert s[..|s| - 1] == DecimalString(n / 10);
    }
  }

  lemma DecimalInjective(m: nat, n: nat)
    requires DecimalString(m) == DecimalString(n)
    ensures m == n
  {
    DecimalRoundTrip(m);
    DecimalRoundTrip(n);
  }

  /** Index of the first element satisfying `p` (`findIndex`), if any. */
  function FindIndex<T>(s: seq<T>, p: T -> bool): (r: Option<nat>)
    ensures r.None? <==> forall i :: 0 <= i < |s| ==> !p(s[i])
    ensures r.Some? ==> r.value < |s| && p(s[r.value]) && forall j :: 0 <= j < r.value ==> !p(s[j])
  {
    if |s| == 0 then None
    else if p(s[0]) then Some(0)
    else
      match FindIndex(s[1..], p)
      case None => None
      case Some(i) => Some(i + 1)
  }

  /** `s.find(p)`: the first element satisfying `p`, if any. */
  function Find<T>(s: seq<T>, p: T -> bool): (r: Option<T>)
    ensures r.None? <==> forall i :: 0 <= i < |s| ==> !p(s[i])
    ensures r.Some? ==> exists i :: 0 <= i < |s| && s[i] == r.value && p(s[i]) && forall j :: 0 <= j < i ==> !p(s[j])
  {
    match FindIndex(s, p)
    case None => None
    case Some(i) => Some(s[i])
  }

  /** The keys of every record, one after the other. */
  function AllKeys<V>(records: seq<seq<(string, V)>>): seq<string>
  {
    Flatten(seq(|records|, i requires 0 <= i < |records| => Keys(records[i])))
  }

  /**
   * The union of the records' keys in a `Set` filled record by record, key by
   * key: no duplicates, and every key of every record, in first-seen order.
   */
  function KeyUnion<V>(records: seq<seq<(string, V)>>): (r: seq<string>)
    ensures NoDup(r)
    ensures forall k :: k in r <==> exists i :: 0 <= i < |records| && k in Keys(records[i])
  {
    var ks := seq(|records|, i requires 0 <= i < |records| => Keys(records[i]));
    forall k ensures k in Flatten(ks) <==> exists i :: 0 <= i < |records| && k in Keys(records[i]) {
      FlattenMember(ks, k);
      if exists i :: 0 <= i < |records| && k in Keys(records[i]) {
        var i :| 0 <= i < |records| && k in Keys(records[i]);
        assert k in ks[i];
      }
      if k in Flatten(ks) {
        var i :| 0 <= i < |ks| && k in ks[i];
        assert k in Keys(records[i]);
      }
    }
    assert AllKeys(records) == Flatten(ks);
    Dedup(Flatten(ks))
  }

  /** Records that all have the keys `ks`, without duplicates, have exactly `ks` as their union. */
  lemma KeyUnionOfUniform<V>(records: seq<seq<(string, V)>>, ks: seq<string>)
    requires |records| > 0 && NoDup(ks)
    requires forall i :: 0 <= i < |records| ==> Keys(records[i]) == ks
    ensures KeyUnion(records) == ks
  {
    var kss := seq(|records|, i requires 0 <= i < |records| => Keys(records[i]));
    var rest := Flatten(kss[1..]);
    assert Flatten(kss) == ks + rest;
    forall x | x in rest ensures x in ks {
      FlattenMember(kss[1..], x);
      var i :| 0 <= i < |kss[1..]| && x in kss[1..][i];
      assert kss[1..][i] == Keys(records[i + 1]);
    }
    DedupSeen(ks, rest);
    DedupNoDup(ks);
  }

  /** The union lists the keys in the order they are first met. */
  lemma KeyUnionOrder<V>(records: seq<seq<(string, V)>>)
    ensures forall i, j :: 0 <= i < j < |KeyUnion(records)| ==>
      IndexOf(AllKeys(records), KeyUnion(records)[i]) < IndexOf(AllKeys(records), KeyUnion(records)[j])
  {
    DedupFirstSeenOrder(AllKeys(records));
  }
}
