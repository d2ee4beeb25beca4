/**
 * `rankStrengthsWeaknesses`: the focused response's scores, each turned into a
 * z-score against the batch distribution of that score, and the picks shown as
 * strengths and weaknesses.
 */
module Ranking {
  import opened Wrappers
  import opened Collections
  import opened Domain
  import opened StableSort
  import opened BatchStats

  /** `MIN_Z`: how many batch standard deviations a score must stand out by. */
  const MinZ: real := 0.5

  /** The most strengths, and the most weaknesses, picked relative to the batch. */
  const MaxPicks: nat := 3

  /** One score of the focused response; `z` is absent (NaN in the source) when the batch spread is 0. */
  datatype Item = Item(key: string, value: real, z: Option<real>)
  {
    predicate HasStd() { z.Some? }
  }

  /** `perMetric[k] ?? { mean: 0, std: 0 }`. */
  function StatFor(perMetric: map<string, Stat>, k: string): Stat
  {
    if k in perMetric then perMetric[k] else Stat(0.0, 0.0)
  }

  function ItemOf(entry: (string, real), perMetric: map<string, Stat>): (x: Item)
    ensures x.key == entry.0 && x.value == entry.1
    ensures x.HasStd() <==> entry.0 in perMetric && perMetric[entry.0].std != 0.0
  {
    var st := StatFor(perMetric, entry.0);
    if st.std != 0.0 then Item(entry.0, entry.1, Some((entry.1 - st.mean) / st.std))
    else Item(entry.0, entry.1, None)
  }

  /** `Object.entries(m.scores ?? {}).map(...)`: one item per score, in score order. */
  function Items(scores: seq<(string, real)>, perMetric: map<string, Stat>): (items: seq<Item>)
    ensures |items| == |scores|
    ensures forall i :: 0 <= i < |items| ==> items[i] == ItemOf(scores[i], perMetric)
  {
    seq(|scores|, i requires 0 <= i < |scores| => ItemOf(scores[i], perMetric))
  }

  predicate IsStrong(x: Item) { x.z.Some? && x.z.value >= MinZ }
  predicate IsWeak(x: Item) { x.z.Some? && x.z.value <= -MinZ }

  function ZKey(x: Item): real { if x.z.Some? then x.z.value else 0.0 }
  function NegZKey(x: Item): real { -ZKey(x) }
  function ValueKey(x: Item): real { x.value }
  function NegValueKey(x: Item): real { -x.value }

  /** `items.filter(x => x.hasStd && x.z >= MIN_Z).sort((a, b) => b.z - a.z).slice(0, 3)`. */
  function PrimaryStrengths(items: seq<Item>): seq<Item>
  {
    Take(SortDesc(Filter(items, IsStrong), ZKey), MaxPicks)
  }

  /** `items.filter(x => x.hasStd && x.z <= -MIN_Z).sort((a, b) => a.z - b.z).slice(0, 3)`. */
  function PrimaryWeaknesses(items: seq<Item>): seq<Item>
  {
    Take(SortDesc(Filter(items, IsWeak), NegZKey), MaxPicks)
  }

  /**
   * The strengths and weaknesses, falling back to the single best (worst) score
   * when no score stands out; the fallback takes the first of equal scores.
   */
  method Rank(m: Metric, perMetric: map<string, Stat>) returns (strengths: seq<Item>, weaknesses: seq<Item>, items: seq<Item>)
    ensures items == Items(m.scores, perMetric)
    ensures |PrimaryStrengths(items)| > 0 ==> strengths == PrimaryStrengths(items)
    ensures |PrimaryStrengths(items)| == 0 && |items| > 0 ==> strengths == [items[FirstMaxIndex(items, ValueKey)]]
    ensures |PrimaryWeaknesses(items)| > 0 ==> weaknesses == PrimaryWeaknesses(items)
    ensures |PrimaryWeaknesses(items)| == 0 && |items| > 0 ==> weaknesses == [items[FirstMaxIndex(items, NegValueKey)]]
    ensures |items| == 0 ==> strengths == [] && weaknesses == []
    ensures |items| > 0 <==> |strengths| > 0 && |weaknesses| > 0
    ensures 0 < |strengths| <= MaxPicks || |items| == 0
    ensures 0 < |weaknesses| <= MaxPicks || |items| == 0
  {
    items := Items(m.scores, perMetric);
    strengths := PrimaryStrengths(items);
    weaknesses := PrimaryWeaknesses(items);
    if |items| == 0 {
      assert Filter(items, IsStrong) == [] && Filter(items, IsWeak) == [];
    }
    if |strengths| == 0 && |items| > 0 {
      SortDescHead(items, ValueKey);
      strengths := [SortDesc(items, ValueKey)[0]];
    }
    if |weaknesses| == 0 && |items| > 0 {
      SortDescHead(items, NegValueKey);
      weaknesses := [SortDesc(items, NegValueKey)[0]];
    }
  }

  /**
   * The first `n` of a stable descending sort of the elements satisfying `p`:
   * they satisfy `p`, are ordered by non-increasing key, number `min(n, count)`,
   * and no element left out has a greater key than one picked.
   */
  lemma TopOf<T>(s: seq<T>, p: T -> bool, key: T -> real, n: nat)
    ensures var c := Filter(s, p); var t := Take(SortDesc(c, key), n);
      && |t| == (if |c| < n then |c| else n)
      && (forall i :: 0 <= i < |t| ==> t[i] in s && p(t[i]))
      && SortedDesc(t, key)
      && (forall y :: y in c ==> y in t || forall i :: 0 <= i < |t| ==> key(y) <= key(t[i]))
  {
    var c := Filter(s, p);
    var sorted := SortDesc(c, key);
    var t := Take(sorted, n);
    SortDescSorted(c, key);
    forall i | 0 <= i < |t| ensures t[i] in s && p(t[i]) {
      SortedMember(c, key, i);
    }
    forall y | y in c && y !in t ensures forall i :: 0 <= i < |t| ==> key(y) <= key(t[i]) {
      LeftOut(c, key, n, y);
    }
  }

  /** The `i`-th element of the sorted copy is one of the input's. */
  lemma SortedMember<T>(c: seq<T>, key: T -> real, i: nat)
    requires i < |c|
    ensures SortDesc(c, key)[i] in c
  {
    var sorted := SortDesc(c, key);
    assert sorted[i] in multiset(sorted);
  }

  /** An element the first `n` of the sorted copy leave out has a key no greater than any of theirs. */
  lemma LeftOut<T>(c: seq<T>, key: T -> real, n: nat, y: T)
    requires SortedDesc(SortDesc(c, key), key)
    requires y in c && y !in Take(SortDesc(c, key), n)
    ensures forall i :: 0 <= i < |Take(SortDesc(c, key), n)| ==> key(y) <= key(Take(SortDesc(c, key), n)[i])
  {
    var sorted := SortDesc(c, key);
    var t := Take(sorted, n);
    assert y in multiset(c);
    assert y in multiset(sorted);
    var j :| 0 <= j < |sorted| && sorted[j] == y;
    forall i | 0 <= i < |t| ensures key(y) <= key(t[i]) {
      assert t[i] == sorted[i];
    }
  }

  /**
   * Primary strengths: at most three items, each with a non-zero batch spread
   * and `z >= 0.5`, by non-increasing `z`, and the three highest.
   */
  lemma PrimaryStrengthsAreTopZ(items: seq<Item>)
    ensures var t := PrimaryStrengths(items);
      && |t| <= MaxPicks
      && (forall i :: 0 <= i < |t| ==> t[i] in items && t[i].HasStd() && t[i].z.value >= MinZ)
      && (forall i, j :: 0 <= i < j < |t| ==> t[i].z.value >= t[j].z.value)
      && (forall y :: y in items && IsStrong(y) ==> y in t || forall i :: 0 <= i < |t| ==> y.z.value <= t[i].z.value)
  {
    var c := Filter(items, IsStrong);
    var t := PrimaryStrengths(items);
    TopOf(items, IsStrong, ZKey, MaxPicks);
    forall i | 0 <= i < |t| ensures t[i] in items && t[i].HasStd() && t[i].z.value >= MinZ {
      assert IsStrong(t[i]);
    }
    forall i, j | 0 <= i < j < |t| ensures t[i].z.value >= t[j].z.value {
      assert IsStrong(t[i]) && IsStrong(t[j]);
      assert ZKey(t[i]) >= ZKey(t[j]);
    }
    forall y | y in items && IsStrong(y) && y !in t ensures forall i :: 0 <= i < |t| ==> y.z.value <= t[i].z.value {
      var k :| 0 <= k < |items| && items[k] == y;
      assert y in c;
      forall i | 0 <= i < |t| ensures y.z.value <= t[i].z.value {
        assert IsStrong(t[i]);
        assert ZKey(y) <= ZKey(t[i]);
      }
    }
  }

  /** Primary weaknesses: at most three items with `z <= -0.5`, by non-decreasing `z`, and the three lowest. */
  lemma PrimaryWeaknessesAreBottomZ(items: seq<Item>)
    ensures var t := PrimaryWeaknesses(items);
      && |t| <= MaxPicks
      && (forall i :: 0 <= i < |t| ==> t[i] in items && t[i].HasStd() && t[i].z.value <= -MinZ)
      && (forall i, j :: 0 <= i < j < |t| ==> t[i].z.value <= t[j].z.value)
      && (forall y :: y in items && IsWeak(y) ==> y in t || forall i :: 0 <= i < |t| ==> t[i].z.value <= y.z.value)
  {
    var c := Filter(items, IsWeak);
    var t := PrimaryWeaknesses(items);
    TopOf(items, IsWeak, NegZKey, MaxPicks);
    forall i | 0 <= i < |t| ensures t[i] in items && t[i].HasStd() && t[i].z.value <= -MinZ {
      assert IsWeak(t[i]);
    }
    forall i, j | 0 <= i < j < |t| ensures t[i].z.value <= t[j].z.value {
      assert IsWeak(t[i]) && IsWeak(t[j]);
      assert NegZKey(t[i]) >= NegZKey(t[j]);
    }
    forall y | y in items && IsWeak(y) && y !in t ensures forall i :: 0 <= i < |t| ==> t[i].z.value <= y.z.value {
      var k :| 0 <= k < |items| && items[k] == y;
      assert y in c;
      forall i | 0 <= i < |t| ensures t[i].z.value <= y.z.value {
        assert IsWeak(t[i]);
        assert NegZKey(y) <= NegZKey(t[i]);
      }
    }
  }

  /** A score the batch does not vary on, or that the batch has no entry for, is never a primary pick. */
  lemma FlatScoreNeverPrimary(scores: seq<(string, real)>, perMetric: map<string, Stat>, i: nat)
    requires i < |scores|
    requires scores[i].0 !in perMetric || perMetric[scores[i].0].std == 0.0
    ensures Items(scores, perMetric)[i] !in PrimaryStrengths(Items(scores, perMetric))
    ensures Items(scores, perMetric)[i] !in PrimaryWeaknesses(Items(scores, perMetric))
  {
    var items := Items(scores, perMetric);
    PrimaryStrengthsAreTopZ(items);
    PrimaryWeaknessesAreBottomZ(items);
  }

  /** The z-score test without the division: `z >= 0.5` iff the score exceeds the batch mean by half a spread. */
  lemma StrongWithoutDivision(entry: (string, real), perMetric: map<string, Stat>)
    requires entry.0 in perMetric && 0.0 < perMetric[entry.0].std
    ensures var st := perMetric[entry.0];
      (IsStrong(ItemOf(entry, perMetric)) <==> entry.1 - st.mean >= MinZ * st.std)
      && (IsWeak(ItemOf(entry, perMetric)) <==> entry.1 - st.mean <= -MinZ * st.std)
  {
    var st := perMetric[entry.0];
    QuotientThreshold(entry.1 - st.mean, st.std, MinZ);
    QuotientThreshold(entry.1 - st.mean, st.std, -MinZ);
  }

  lemma QuotientThreshold(d: real, s: real, t: real)
    requires 0.0 < s
    ensures d / s >= t <==> d >= t * s
    ensures d / s <= t <==> d <= t * s
  {
    assert d == (d / s) * s;
  }
}
