/**
 * The radar of `MetricsRadar`: the union of the score names of all metric
 * rows, and per name one chart row holding `metric` and, for the `i`-th metric
 * row, a field `resp{i+1}` with its score (0 when missing).
 */
module MetricsRadar {
  import opened Wrappers
  import opened Collections
  import opened Domain

  /** `m.scores ?? {}` of every row. */
  function ScoreRecords(metrics: seq<Metric>): (r: seq<seq<(string, real)>>)
    ensures |r| == |metrics|
    ensures forall i :: 0 <= i < |r| ==> r[i] == metrics[i].scores
  {
    seq(|metrics|, i requires 0 <= i < |metrics| => metrics[i].scores)
  }

  /** `keys`: every score name of every row, each once, in first-seen order. */
  function ScoreKeys(metrics: seq<Metric>): seq<string>
  {
    KeyUnion(ScoreRecords(metrics))
  }

  /** There are keys exactly when some row has a score. */
  lemma ScoreKeysEmpty(metrics: seq<Metric>)
    ensures |ScoreKeys(metrics)| == 0 <==> forall i :: 0 <= i < |metrics| ==> |metrics[i].scores| == 0
  {
    var records := ScoreRecords(metrics);
    var keys := ScoreKeys(metrics);
    forall i | 0 <= i < |metrics| && |metrics[i].scores| > 0 ensures |keys| > 0 {
      var k := Keys(records[i])[0];
      assert k in Keys(records[i]);
      assert k in keys;
    }
    if |keys| > 0 {
      assert keys[0] in keys;
    }
  }

  /** The name of the field of the `i`-th row (counted from 0): `resp${i + 1}`. */
  function RespName(i: nat): string
  {
    "resp" + DecimalString(i + 1)
  }

  /** Different rows get different field names, none of them `metric`. */
  lemma RespNamesDistinct(i: nat, j: nat)
    ensures RespName(i) != "metric"
    ensures RespName(i) == RespName(j) ==> i == j
  {
    assert RespName(i)[0] == 'r';
    if RespName(i) == RespName(j) {
      assert RespName(i)[4..] == DecimalString(i + 1);
      assert RespName(j)[4..] == DecimalString(j + 1);
      DecimalInjective(i + 1, j + 1);
    }
  }

  /** The field names of a chart row, in insertion order. */
  function RowKeys(n: nat): (ks: seq<string>)
    ensures |ks| == n + 1 && ks[0] == "metric"
    ensures forall i :: 0 <= i < n ==> ks[i + 1] == RespName(i)
  {
    ["metric"] + seq(n, i requires 0 <= i < n => RespName(i))
  }

  lemma RowKeysDistinct(n: nat)
    ensures NoDup(RowKeys(n))
  {
    var ks := RowKeys(n);
    forall a, b | 0 <= a < b < |ks| ensures ks[a] != ks[b] {
      RespNamesDistinct(b - 1, b - 1);
      if a > 0 {
        RespNamesDistinct(a - 1, b - 1);
      }
    }
  }

  /** The field of the `i`-th row is not yet in the chart row when it is assigned. */
  lemma NewField(i: nat)
    ensures RespName(i) !in RowKeys(i)
  {
    forall j | 0 <= j < i + 1 ensures RowKeys(i)[j] != RespName(i) {
      if j == 0 {
        RespNamesDistinct(i, i);
      } else {
        RespNamesDistinct(j - 1, i);
      }
    }
  }

  /** The field values of the chart row of score `k`: the name, then `Number(m.scores?.[k] ?? 0)` per row. */
  function RowValues(metrics: seq<Metric>, k: string): (vs: seq<Value>)
    ensures |vs| == |metrics| + 1
  {
    [Str(k)] + seq(|metrics|, i requires 0 <= i < |metrics| => Num(Score(metrics[i].scores, k, 0.0)))
  }

  /** The chart row of score `k`. */
  function Row(metrics: seq<Metric>, k: string): seq<(string, Value)>
  {
    Zip(RowKeys(|metrics|), RowValues(metrics, k))
  }

  /** The row of `k` names it under `metric` and holds, under `resp{i+1}`, the `i`-th row's score of `k` or 0. */
  lemma RowFields(metrics: seq<Metric>, k: string, i: nat)
    requires i < |metrics|
    ensures Get(Obj(Row(metrics, k)), "metric") == Str(k)
    ensures Get(Obj(Row(metrics, k)), RespName(i)) == Num(Score(metrics[i].scores, k, 0.0))
    ensures k !in Keys(metrics[i].scores) ==> Get(Obj(Row(metrics, k)), RespName(i)) == Num(0.0)
  {
    RowKeysDistinct(|metrics|);
    LookupZip(RowKeys(|metrics|), RowValues(metrics, k), 0);
    LookupZip(RowKeys(|metrics|), RowValues(metrics, k), i + 1);
  }

  /** The row over no metric rows is `{ metric: k }`. */
  lemma RowStart(metrics: seq<Metric>, k: string)
    ensures Row(metrics[..0], k) == [("metric", Str(k))]
  {
    assert RowKeys(0) == ["metric"];
    assert RowValues(metrics[..0], k) == [Str(k)];
  }

  /** One more metric row adds its field last; the field is new to the row. */
  lemma RowSnoc(metrics: seq<Metric>, k: string, i: nat)
    requires i < |metrics|
    ensures RespName(i) !in Keys(Row(metrics[..i], k))
    ensures Row(metrics[..i + 1], k) == Row(metrics[..i], k) + [(RespName(i), Num(Score(metrics[i].scores, k, 0.0)))]
  {
    NewField(i);
    var v := Num(Score(metrics[i].scores, k, 0.0));
    assert RowKeys(i + 1) == RowKeys(i) + [RespName(i)];
    assert RowValues(metrics[..i + 1], k) == RowValues(metrics[..i], k) + [v];
    ZipSnoc(RowKeys(i), RowValues(metrics[..i], k), RespName(i), v);
  }

  /**
   * The `forEach` that fills one chart row by assignments, starting from
   * `{ metric: k }`; each `resp{i+1}` is new to the row, so it is added last.
   */
  method FillRow(metrics: seq<Metric>, k: string) returns (row: seq<(string, Value)>)
    ensures row == Row(metrics, k)
  {
    row := [("metric", Str(k))];
    RowStart(metrics, k);
    for i := 0 to |metrics|
      invariant row == Row(metrics[..i], k)
    {
      RowSnoc(metrics, k, i);
      row := row + [(RespName(i), Num(Score(metrics[i].scores, k, 0.0)))];
    }
    assert metrics[..|metrics|] == metrics;
  }

  /** What the component shows: the "No metrics yet." placeholder, or the radar over its rows. */
  datatype View = Placeholder | Chart(rows: seq<seq<(string, Value)>>)

  /** The placeholder without rows or without keys, otherwise one chart row per key, in key order. */
  function Radar(metrics: seq<Metric>): (v: View)
    ensures v.Chart? ==> |v.rows| == |ScoreKeys(metrics)| && forall j :: 0 <= j < |v.rows| ==> v.rows[j] == Row(metrics, ScoreKeys(metrics)[j])
  {
    var keys := ScoreKeys(metrics);
    if |metrics| == 0 || |keys| == 0 then Placeholder
    else Chart(seq(|keys|, j requires 0 <= j < |keys| => Row(metrics, keys[j])))
  }

  /** The placeholder is shown exactly when no row has a score; otherwise the rows follow `keys`, each key once. */
  lemma RadarPlaceholder(metrics: seq<Metric>)
    ensures Radar(metrics).Placeholder? <==> forall i :: 0 <= i < |metrics| ==> |metrics[i].scores| == 0
    ensures Radar(metrics).Chart? ==> NoDup(ScoreKeys(metrics))
    ensures Radar(metrics).Chart? ==>
      forall j :: 0 <= j < |ScoreKeys(metrics)| ==> Get(Obj(Radar(metrics).rows[j]), "metric") == Str(ScoreKeys(metrics)[j])
  {
    ScoreKeysEmpty(metrics);
    if Radar(metrics).Chart? {
      forall j | 0 <= j < |ScoreKeys(metrics)| ensures Get(Obj(Radar(metrics).rows[j]), "metric") == Str(ScoreKeys(metrics)[j]) {
        RowFields(metrics, ScoreKeys(metrics)[j], 0);
      }
    }
  }

  /** `radarData`, one `FillRow` per key. */
  method RadarData(metrics: seq<Metric>) returns (v: View)
    ensures v == Radar(metrics)
  {
    var keys := ScoreKeys(metrics);
    if |metrics| == 0 || |keys| == 0 {
      return Placeholder;
    }
    var rows := [];
    for j := 0 to |keys|
      invariant |rows| == j
      invariant forall j' :: 0 <= j' < j ==> rows[j'] == Row(metrics, keys[j'])
    {
      var row := FillRow(metrics, keys[j]);
      rows := rows + [row];
    }
    v := Chart(rows);
  }
}
