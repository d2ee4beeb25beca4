/**
 * The data behind the three charts of the batch view: the per-score means of
 * the radar, one scatter point per metric row, and the bars of overall
 * quality sorted from best to worst.
 */
module QualityCharts {
  import opened Wrappers
  import opened Collections
  import opened Domain
  import opened Numeric
  import opened StableSort

  /** `ORDER`: the scores the radar may show, in display order. */
  const Order: seq<string> := [
    "coherence", "redundancy", "completeness", "lexical_diversity", "structure", "readability", "length_adequacy"]

  lemma OrderDistinct()
    ensures |Order| == 7 && NoDup(Order)
  {
  }

  /** `LABEL`: the axis label of each of those scores. */
  const Labels: seq<(string, string)> := [
    ("coherence", "coherence"), ("redundancy", "redundancy"), ("completeness", "completeness"),
    ("lexical_diversity", "lexical diversity"), ("structure", "structure"), ("readability", "readability"),
    ("length_adequacy", "length adequacy")]

  /** `LABEL[k] ?? k`. */
  function Label(k: string): string
  {
    Lookup(Labels, k).GetOr(k)
  }

  /** `m?.scores && Object.keys(m.scores).length`. */
  predicate HasScores(m: Metric)
  {
    |m.scores| > 0
  }

  /** The score names of the first row that has any, or none. */
  function FirstKeys(metrics: seq<Metric>): seq<string>
  {
    match Find(metrics, HasScores)
    case None => []
    case Some(first) => Keys(first.scores)
  }

  /** `order.filter((k) => keys.includes(k))`. */
  function KeepIn(order: seq<string>, ks: seq<string>): (r: seq<string>)
    ensures |r| <= |order|
    ensures forall k :: k in r <==> k in order && k in ks
    ensures |ks| == 0 ==> r == []
  {
    if |order| == 0 then []
    else
      var rest := KeepIn(order[1..], ks);
      assert order == [order[0]] + order[1..];
      (if order[0] in ks then [order[0]] else []) + rest
  }

  /** What is kept follows the order it came from, each name once. */
  lemma {:induction false} KeepInOrder(order: seq<string>, ks: seq<string>)
    requires NoDup(order)
    ensures NoDup(KeepIn(order, ks))
    ensures forall i, j :: 0 <= i < j < |KeepIn(order, ks)| ==> IndexOf(order, KeepIn(order, ks)[i]) < IndexOf(order, KeepIn(order, ks)[j])
  {
    if |order| > 0 {
      var tail := order[1..];
      var rest := KeepIn(tail, ks);
      assert NoDup(tail) by {
        forall i, j | 0 <= i < j < |tail| ensures tail[i] != tail[j] {
          assert tail[i] == order[i + 1] && tail[j] == order[j + 1];
        }
      }
      KeepInOrder(tail, ks);
      assert order[0] !in tail by {
        forall i | 0 <= i < |tail| ensures tail[i] != order[0] {
          assert tail[i] == order[i + 1];
        }
      }
      forall x | x in rest ensures IndexOf(order, x) == 1 + IndexOf(tail, x) && IndexOf(order, x) > 0 {
      }
    }
  }

  /** `metricKeys`: the names of `ORDER` found among the scores of the first row that has scores. */
  function MetricKeys(metrics: seq<Metric>): seq<string>
  {
    KeepIn(Order, FirstKeys(metrics))
  }

  /**
   * The radar keys are exactly the names of `ORDER` that the first row with
   * scores carries, each once and in `ORDER`'s order; without such a row
   * there are none.
   */
  lemma MetricKeysSpec(metrics: seq<Metric>)
    ensures NoDup(MetricKeys(metrics))
    ensures forall k :: k in MetricKeys(metrics) <==>
      k in Order && exists i :: 0 <= i < |metrics| && HasScores(metrics[i]) && (forall j :: 0 <= j < i ==> !HasScores(metrics[j])) && k in Keys(metrics[i].scores)
    ensures forall i, j :: 0 <= i < j < |MetricKeys(metrics)| ==> IndexOf(Order, MetricKeys(metrics)[i]) < IndexOf(Order, MetricKeys(metrics)[j])
    ensures (forall i :: 0 <= i < |metrics| ==> !HasScores(metrics[i])) ==> MetricKeys(metrics) == []
  {
    OrderDistinct();
    KeepInOrder(Order, FirstKeys(metrics));
    var f := FindIndex(metrics, HasScores);
    if f.Some? {
      FirstIndexUnique(metrics, f.value);
    }
  }

  /** The first row with scores is found by any witness that has scores and follows rows without. */
  lemma FirstIndexUnique(metrics: seq<Metric>, i: nat)
    requires i < |metrics| && HasScores(metrics[i]) && forall j :: 0 <= j < i ==> !HasScores(metrics[j])
    ensures FirstKeys(metrics) == Keys(metrics[i].scores)
    ensures forall i' :: 0 <= i' < |metrics| && HasScores(metrics[i']) && (forall j :: 0 <= j < i' ==> !HasScores(metrics[j])) ==> i' == i
  {
  }

  /** `hasMetrics`: there are rows and at least one radar key. */
  predicate HasMetrics(metrics: seq<Metric>)
  {
    |metrics| > 0 && |MetricKeys(metrics)| > 0
  }

  /** The charts have data exactly when some row has scores and the first such row carries a name of `ORDER`. */
  lemma HasMetricsIff(metrics: seq<Metric>)
    ensures HasMetrics(metrics) <==>
      exists i :: 0 <= i < |metrics| && HasScores(metrics[i]) && (forall j :: 0 <= j < i ==> !HasScores(metrics[j])) &&
        exists k :: k in Order && k in Keys(metrics[i].scores)
  {
    MetricKeysSpec(metrics);
    if HasMetrics(metrics) {
      var k := MetricKeys(metrics)[0];
      assert k in MetricKeys(metrics);
    }
  }

  /** The clamped values of score `k` over the rows, a missing score counting as 0. */
  function Column(metrics: seq<Metric>, k: string): (r: seq<real>)
    ensures |r| == |metrics|
    ensures forall i :: 0 <= i < |r| ==> r[i] == Clamp01(Score(metrics[i].scores, k, 0.0))
  {
    seq(|metrics|, i requires 0 <= i < |metrics| => Clamp01(Score(metrics[i].scores, k, 0.0)))
  }

  /** The radar score of `k`: the mean of its clamped values, 0 without rows. */
  function KeyScore(metrics: seq<Metric>, k: string): (r: real)
    ensures 0.0 <= r <= 1.0
  {
    if |metrics| > 0 then MeanBounds(Column(metrics, k), 0.0, 1.0); Mean(Column(metrics, k)) else 0.0
  }

  /** When every row scores `k` with the same value in [0, 1], the radar shows that value. */
  lemma KeyScoreOfUniform(metrics: seq<Metric>, k: string, c: real)
    requires |metrics| > 0 && 0.0 <= c <= 1.0
    requires forall i :: 0 <= i < |metrics| ==> Score(metrics[i].scores, k, 0.0) == c
    ensures KeyScore(metrics, k) == c
  {
    MeanOfConstant(Column(metrics, k), c);
  }

  /** One axis of the radar. */
  datatype RadarPoint = RadarPoint(metricLabel: string, percent: int, score: real)

  function PointOf(metrics: seq<Metric>, k: string): (p: RadarPoint)
    ensures 0.0 <= p.score <= 1.0 && 0 <= p.percent <= 100 && p.percent == Percent(p.score)
  {
    RadarPoint(Label(k), Percent(KeyScore(metrics, k)), KeyScore(metrics, k))
  }

  /** `radarData`: one point per radar key, in key order; none without keys. */
  function Radar(metrics: seq<Metric>): (r: seq<RadarPoint>)
    ensures |r| == |MetricKeys(metrics)|
    ensures forall j :: 0 <= j < |r| ==> r[j] == PointOf(metrics, MetricKeys(metrics)[j])
  {
    var keys := MetricKeys(metrics);
    seq(|keys|, j requires 0 <= j < |keys| => PointOf(metrics, keys[j]))
  }

  /** The running sum and count of one key, `acc[k]`. */
  datatype Acc = Acc(sum: real, n: nat)

  /** The inner loop: adds the clamped score of one row to the sum and count of each key. */
  method AddRow(acc: map<string, Acc>, m: Metric, keys: seq<string>) returns (acc': map<string, Acc>)
    requires NoDup(keys)
    requires forall j :: 0 <= j < |keys| ==> keys[j] in acc
    ensures forall j :: 0 <= j < |keys| ==>
      keys[j] in acc' && acc'[keys[j]] == Acc(acc[keys[j]].sum + Clamp01(Score(m.scores, keys[j], 0.0)), acc[keys[j]].n + 1)
  {
    acc' := acc;
    for j := 0 to |keys|
      invariant forall j' :: 0 <= j' < |keys| ==> keys[j'] in acc'
      invariant forall j' :: 0 <= j' < j ==> acc'[keys[j']] == Acc(acc[keys[j']].sum + Clamp01(Score(m.scores, keys[j'], 0.0)), acc[keys[j']].n + 1)
      invariant forall j' :: j <= j' < |keys| ==> acc'[keys[j']] == acc[keys[j']]
    {
      var k := keys[j];
      var a := acc'[k];
      acc' := acc'[k := Acc(a.sum + Clamp01(Score(m.scores, k, 0.0)), a.n + 1)];
    }
  }

  /** A row more adds its clamped value to the column. */
  lemma ColumnSnoc(metrics: seq<Metric>, k: string, i: nat)
    requires i < |metrics|
    ensures Sum(Column(metrics[..i + 1], k)) == Sum(Column(metrics[..i], k)) + Clamp01(Score(metrics[i].scores, k, 0.0))
  {
    assert Column(metrics[..i + 1], k) == Column(metrics[..i], k) + [Clamp01(Score(metrics[i].scores, k, 0.0))];
    SumSnoc(Column(metrics[..i], k), Clamp01(Score(metrics[i].scores, k, 0.0)));
  }

  /** The accumulation: after all rows, each key holds the sum of its clamped values and the number of rows. */
  method Accumulate(metrics: seq<Metric>, keys: seq<string>) returns (acc: map<string, Acc>)
    requires NoDup(keys)
    ensures forall j :: 0 <= j < |keys| ==> keys[j] in acc && acc[keys[j]] == Acc(Sum(Column(metrics, keys[j])), |metrics|)
  {
    acc := map[];
    for j := 0 to |keys|
      invariant forall j' :: 0 <= j' < j ==> keys[j'] in acc && acc[keys[j']] == Acc(0.0, 0)
    {
      acc := acc[keys[j] := Acc(0.0, 0)];
    }
    for i := 0 to |metrics|
      invariant forall j :: 0 <= j < |keys| ==> keys[j] in acc && acc[keys[j]] == Acc(Sum(Column(metrics[..i], keys[j])), i)
    {
      acc := AddRow(acc, metrics[i], keys);
      forall j | 0 <= j < |keys| ensures acc[keys[j]] == Acc(Sum(Column(metrics[..i + 1], keys[j])), i + 1) {
        ColumnSnoc(metrics, keys[j], i);
      }
    }
    assert metrics[..|metrics|] == metrics;
  }

  /** `radarData` as the component computes it: the sums and counts first, then one point per key. */
  method RadarData(metrics: seq<Metric>) returns (points: seq<RadarPoint>)
    ensures points == Radar(metrics)
  {
    var keys := MetricKeys(metrics);
    if |keys| == 0 {
      return [];
    }
    MetricKeysSpec(metrics);
    var acc := Accumulate(metrics, keys);
    points := [];
    for j := 0 to |keys|
      invariant |points| == j
      invariant forall j' :: 0 <= j' < j ==> points[j'] == PointOf(metrics, keys[j'])
    {
      var a := acc[keys[j]];
      var score := if a.n != 0 then a.sum / a.n as real else 0.0;
      points := points + [RadarPoint(Label(keys[j]), Percent(score), score)];
    }
  }

  /** A point of the scatter chart: coherence against overall quality, both as whole percentages. */
  datatype ScatterPoint = ScatterPoint(id: string, coherence: int, overall: int)

  function ScatterOf(m: Metric): (p: ScatterPoint)
    ensures p.id == m.responseId && 0 <= p.coherence <= 100 && 0 <= p.overall <= 100
    ensures p.overall == Percent(Q(m)) && p.coherence == Percent(Score(m.scores, "coherence", 0.0))
  {
    ScatterPoint(m.responseId, Percent(Score(m.scores, "coherence", 0.0)), Percent(Q(m)))
  }

  /** `scatterData`: one point per row, in row order. */
  method ScatterData(metrics: seq<Metric>) returns (rows: seq<ScatterPoint>)
    ensures |rows| == |metrics|
    ensures forall i :: 0 <= i < |rows| ==> rows[i] == ScatterOf(metrics[i])
  {
    rows := [];
    for i := 0 to |metrics|
      invariant |rows| == i
      invariant forall i' :: 0 <= i' < i ==> rows[i'] == ScatterOf(metrics[i'])
    {
      rows := rows + [ScatterOf(metrics[i])];
    }
  }

  /** A bar: the row's position `#k` counted from 1, and its overall quality as a whole percentage. */
  datatype Bar = Bar(name: string, overall: int)

  function BarOf(m: Metric, i: nat): (b: Bar)
    ensures 0 <= b.overall <= 100
  {
    Bar("#" + DecimalString(i + 1), Percent(Q(m)))
  }

  function BarKey(b: Bar): real
  {
    b.overall as real
  }

  /** The bars in row order, before sorting. */
  function Unsorted(metrics: seq<Metric>): (r: seq<Bar>)
    ensures |r| == |metrics|
    ensures forall i :: 0 <= i < |r| ==> r[i] == BarOf(metrics[i], i)
  {
    seq(|metrics|, i requires 0 <= i < |metrics| => BarOf(metrics[i], i))
  }

  /**
   * `barsData`: one bar per row, named by its position, then sorted by
   * `rows.sort((a, b) => b.overall - a.overall)`; the sort is stable, so
   * bars of equal height keep their row order.
   */
  method BarsData(metrics: seq<Metric>) returns (rows: seq<Bar>)
    ensures rows == SortDesc(Unsorted(metrics), BarKey)
  {
    rows := [];
    for i := 0 to |metrics|
      invariant rows == Unsorted(metrics[..i])
    {
      rows := rows + [BarOf(metrics[i], i)];
    }
    assert metrics[..|metrics|] == metrics;
    rows := SortDesc(rows, BarKey);
  }

  /**
   * The bars are one per row (the same bars, reordered), never rise from left
   * to right, and bars of equal height are in row order.
   */
  lemma BarsSorted(metrics: seq<Metric>)
    ensures var bars := SortDesc(Unsorted(metrics), BarKey);
      && |bars| == |metrics|
      && multiset(bars) == multiset(Unsorted(metrics))
      && SortedDesc(bars, BarKey)
      && forall v :: WithKey(bars, BarKey, v) == WithKey(Unsorted(metrics), BarKey, v)
  {
    SortDescSorted(Unsorted(metrics), BarKey);
    forall v ensures WithKey(SortDesc(Unsorted(metrics), BarKey), BarKey, v) == WithKey(Unsorted(metrics), BarKey, v) {
      SortDescStable(Unsorted(metrics), BarKey, v);
    }
  }
}
