/**
 * `buildBatchStats`: the batch-wide statistics the quality inspector compares
 * one response against. The quality of each scored response, its mean and
 * standard deviation, the Pearson correlation of each sampling parameter with
 * quality, the mean and standard deviation of every score, and the token set
 * of every response.
 */
module BatchStats {
  import opened Wrappers
  import opened Collections
  import opened Domain
  import opened Numeric
  import opened Lexical

  /** The parameters whose correlation with quality is computed, in this order. */
  const ParamKeys: seq<string> := ["temperature", "top_p", "max_tokens", "seed"]

  /** The fewest samples a parameter needs before it gets a correlation. */
  const MinSamples: nat := 3

  /** `paramsOf(r)[k]`: the parameter when `r.params ?? {}` holds a number under `k`. */
  function ParamOf(r: Response, k: string): (v: Option<real>)
    ensures v.Some? <==> k in ParamKeys && Get(r.params, k).Num?
  {
    if k in ParamKeys && Get(r.params, k).Num? then Some(Get(r.params, k).n) else None
  }

  datatype Stat = Stat(mean: real, std: real)

  datatype Batch = Batch(
    qById: map<string, real>,
    qMean: real,
    qStd: real,
    mById: map<string, Metric>,
    perMetric: map<string, Stat>,
    paramCorrelations: seq<(string, real)>,
    tokById: map<string, set<string>>)

  /** `qById` after the `set` calls for `ms`, left to right. */
  function QById(ms: seq<Metric>): (r: map<string, real>)
    ensures r.Keys == IndexByResponse(ms).Keys
  {
    if |ms| == 0 then map[]
    else QById(ms[..|ms| - 1])[ms[|ms| - 1].responseId := Q(ms[|ms| - 1])]
  }

  /** The quality recorded for a response is that of its last metric row. */
  lemma {:induction false} QByIdLastWins(ms: seq<Metric>, id: string)
    requires id in QById(ms)
    ensures QById(ms)[id] == Q(IndexByResponse(ms)[id])
  {
    var n := |ms| - 1;
    if ms[n].responseId != id {
      QByIdLastWins(ms[..n], id);
    }
  }

  predicate AllScored(rows: seq<Response>, q: map<string, real>)
  {
    forall i :: 0 <= i < |rows| ==> rows[i].id in q
  }

  /** `responses.filter(r => qById.has(r.id))`: the responses that have a metric row. */
  function Scored(responses: seq<Response>, q: map<string, real>): (rows: seq<Response>)
    ensures AllScored(rows, q)
  {
    Filter(responses, (r: Response) => r.id in q)
  }

  /** `rows.map(r => qById.get(r.id)!)`. */
  function QVals(rows: seq<Response>, q: map<string, real>): (vs: seq<real>)
    requires AllScored(rows, q)
    ensures |vs| == |rows|
  {
    seq(|rows|, i requires 0 <= i < |rows| => q[rows[i].id])
  }

  /** The rows carrying a numeric value for parameter `k`. */
  function Carriers(rows: seq<Response>, k: string): seq<Response>
  {
    Filter(rows, (r: Response) => ParamOf(r, k).Some?)
  }

  /** `xs`: the parameter values, in row order. */
  function Xs(rows: seq<Response>, k: string): (xs: seq<real>)
    ensures |xs| == |Carriers(rows, k)|
  {
    var c := Carriers(rows, k);
    seq(|c|, i requires 0 <= i < |c| => ParamOf(c[i], k).value)
  }

  /** `ys`: the qualities of the same rows. */
  function Ys(rows: seq<Response>, q: map<string, real>, k: string): (ys: seq<real>)
    requires AllScored(rows, q)
    ensures |ys| == |Carriers(rows, k)|
  {
    var c := Carriers(rows, k);
    assert forall i :: 0 <= i < |c| ==> c[i] in rows;
    seq(|c|, i requires 0 <= i < |c| => q[c[i].id])
  }

  predicate Enough(rows: seq<Response>, k: string)
  {
    |Carriers(rows, k)| >= MinSamples
  }

  /** `paramCorrelations` for the parameters `keys`: an entry only for the keys with enough samples. */
  function Correlations(keys: seq<string>, rows: seq<Response>, q: map<string, real>, sqrt: real -> real): (r: seq<(string, real)>)
    requires IsSqrt(sqrt) && AllScored(rows, q)
  {
    var ks := Filter(keys, (k: string) => Enough(rows, k));
    seq(|ks|, i requires 0 <= i < |ks| => (ks[i], CorrValue(Xs(rows, ks[i]), Ys(rows, q, ks[i]), sqrt)))
  }

  /** `mById.values().next().value`: the entry of the first id inserted, which holds that id's last metric. */
  function SampleMetric(metrics: seq<Metric>): (r: Option<Metric>)
    ensures r.Some? <==> |metrics| > 0
    ensures r.Some? ==> r.value == metrics[LastFor(metrics, metrics[0].responseId)]
  {
    if |metrics| == 0 then None
    else
      var idx := IndexByResponse(metrics);
      assert metrics[0].responseId in idx;
      IndexByResponseLastWins(metrics, metrics[0].responseId);
      Some(idx[metrics[0].responseId])
  }

  /** The score names of the sample metric, which decide which scores get a batch distribution. */
  function MetricKeys(metrics: seq<Metric>): seq<string>
  {
    match SampleMetric(metrics)
    case None => []
    case Some(m) => Keys(m.scores)
  }

  /** `rows.map(r => Number(mById.get(r.id)?.scores?.[k] ?? 0))`. */
  function Column(rows: seq<Response>, mById: map<string, Metric>, k: string): (vs: seq<real>)
    ensures |vs| == |rows|
  {
    seq(|rows|, i requires 0 <= i < |rows| =>
      if rows[i].id in mById then Score(mById[rows[i].id].scores, k, 0.0) else 0.0)
  }

  function StatOf(vals: seq<real>, sqrt: real -> real): (s: Stat)
    requires IsSqrt(sqrt)
    ensures 0.0 <= s.std
  {
    Stat(Mean(vals), Stdev(vals, sqrt))
  }

  function PerMetric(keys: seq<string>, rows: seq<Response>, mById: map<string, Metric>, sqrt: real -> real): (r: map<string, Stat>)
    requires IsSqrt(sqrt)
    ensures r.Keys == set k | k in keys
  {
    map k | k in keys :: StatOf(Column(rows, mById, k), sqrt)
  }

  /** `tokById` after the `set` calls for `rs`, left to right. */
  function TokById(rs: seq<Response>): (r: map<string, set<string>>)
    ensures r.Keys == set i | 0 <= i < |rs| :: rs[i].id
  {
    if |rs| == 0 then map[]
    else
      var p := TokById(rs[..|rs| - 1]);
      assert forall i :: 0 <= i < |rs| - 1 ==> rs[..|rs| - 1][i] == rs[i];
      p[rs[|rs| - 1].id := TokenSet(rs[|rs| - 1].text.GetOr(""))]
  }

  /** The whole result of `buildBatchStats`. */
  function BatchOf(responses: seq<Response>, metrics: seq<Metric>, sqrt: real -> real): Batch
    requires IsSqrt(sqrt)
  {
    var q := QById(metrics);
    var mBy := IndexByResponse(metrics);
    var rows := Scored(responses, q);
    var qVals := QVals(rows, q);
    Batch(q, Mean(qVals), Stdev(qVals, sqrt), mBy,
          PerMetric(MetricKeys(metrics), rows, mBy, sqrt),
          Correlations(ParamKeys, rows, q, sqrt),
          TokById(responses))
  }

  method BuildBatchStats(responses: seq<Response>, metrics: seq<Metric>, sqrt: real -> real) returns (b: Batch)
    requires IsSqrt(sqrt)
    ensures b == BatchOf(responses, metrics, sqrt)
  {
    var qById, mById := IndexMetrics(metrics);
    var rows := Scored(responses, qById);
    var qVals := QVals(rows, qById);
    var qMean := Mean(qVals);
    var qStd := Stdev(qVals, sqrt);
    var paramCorrelations := CorrelateParams(ParamKeys, rows, qById, sqrt);
    var perMetric := DistributeScores(MetricKeys(metrics), rows, mById, sqrt);
    var tokById := IndexTokens(responses);
    b := Batch(qById, qMean, qStd, mById, perMetric, paramCorrelations, tokById);
  }

  /** `metrics.forEach(m => { qById.set(...); mById.set(...); })`. */
  method IndexMetrics(metrics: seq<Metric>) returns (qById: map<string, real>, mById: map<string, Metric>)
    ensures qById == QById(metrics) && mById == IndexByResponse(metrics)
  {
    qById, mById := map[], map[];
    for i := 0 to |metrics|
      invariant qById == QById(metrics[..i])
      invariant mById == IndexByResponse(metrics[..i])
    {
      assert metrics[..i + 1][..i] == metrics[..i];
      qById := qById[metrics[i].responseId := Q(metrics[i])];
      mById := mById[metrics[i].responseId := metrics[i]];
    }
    assert metrics[..|metrics|] == metrics;
  }

  /** The `for (const k of pKeys)` loop filling `paramCorrelations`, for the keys `keys`. */
  method CorrelateParams(keys: seq<string>, rows: seq<Response>, qById: map<string, real>, sqrt: real -> real)
    returns (pc: seq<(string, real)>)
    requires IsSqrt(sqrt) && AllScored(rows, qById)
    ensures pc == Correlations(keys, rows, qById, sqrt)
  {
    pc := [];
    for j := 0 to |keys|
      invariant pc == Correlations(keys[..j], rows, qById, sqrt)
    {
      var k := keys[j];
      var xs, ys := CollectSamples(rows, qById, k);
      CorrelationsSnoc(keys, j, rows, qById, sqrt);
      if |xs| >= MinSamples {
        var c := Corr(xs, ys, sqrt);
        pc := pc + [(k, c)];
      }
    }
    assert keys[..|keys|] == keys;
  }

  /** `metricKeys.forEach(k => { perMetric[k] = ... })`. */
  method DistributeScores(keys: seq<string>, rows: seq<Response>, mById: map<string, Metric>, sqrt: real -> real)
    returns (perMetric: map<string, Stat>)
    requires IsSqrt(sqrt)
    ensures perMetric == PerMetric(keys, rows, mById, sqrt)
  {
    perMetric := map[];
    for j := 0 to |keys|
      invariant perMetric == PerMetric(keys[..j], rows, mById, sqrt)
    {
      assert keys[..j + 1] == keys[..j] + [keys[j]];
      perMetric := perMetric[keys[j] := StatOf(Column(rows, mById, keys[j]), sqrt)];
    }
    assert keys[..|keys|] == keys;
  }

  /** `responses.forEach(r => tokById.set(r.id, new Set(tokens(r.text ?? ""))))`. */
  method IndexTokens(responses: seq<Response>) returns (tokById: map<string, set<string>>)
    ensures tokById == TokById(responses)
  {
    tokById := map[];
    for i := 0 to |responses|
      invariant tokById == TokById(responses[..i])
    {
      assert responses[..i + 1][..i] == responses[..i];
      tokById := tokById[responses[i].id := TokenSet(responses[i].text.GetOr(""))];
    }
    assert responses[..|responses|] == responses;
  }

  /** The inner `rows.forEach` that pushes one sample per row carrying parameter `k`. */
  method CollectSamples(rows: seq<Response>, q: map<string, real>, k: string) returns (xs: seq<real>, ys: seq<real>)
    requires AllScored(rows, q)
    ensures xs == Xs(rows, k) && ys == Ys(rows, q, k)
  {
    xs, ys := [], [];
    for i := 0 to |rows|
      invariant xs == Xs(rows[..i], k) && ys == Ys(rows[..i], q, k)
    {
      SamplesSnoc(rows, q, k, i);
      var v := ParamOf(rows[i], k);
      if v.Some? {
        xs := xs + [v.value];
        ys := ys + [q[rows[i].id]];
      }
    }
    assert rows[..|rows|] == rows;
  }

  lemma SamplesSnoc(rows: seq<Response>, q: map<string, real>, k: string, i: nat)
    requires AllScored(rows, q) && i < |rows|
    ensures AllScored(rows[..i], q) && AllScored(rows[..i + 1], q)
    ensures Xs(rows[..i + 1], k) == Xs(rows[..i], k) + (if ParamOf(rows[i], k).Some? then [ParamOf(rows[i], k).value] else [])
    ensures Ys(rows[..i + 1], q, k) == Ys(rows[..i], q, k) + (if ParamOf(rows[i], k).Some? then [q[rows[i].id]] else [])
  {
    assert rows[..i + 1] == rows[..i] + [rows[i]];
    FilterSnoc(rows[..i], rows[i], (r: Response) => ParamOf(r, k).Some?);
  }

  lemma CorrelationsSnoc(keys: seq<string>, j: nat, rows: seq<Response>, q: map<string, real>, sqrt: real -> real)
    requires j < |keys| && IsSqrt(sqrt) && AllScored(rows, q)
    ensures Enough(rows, keys[j]) <==> |Xs(rows, keys[j])| >= MinSamples
    ensures Correlations(keys[..j + 1], rows, q, sqrt) ==
      Correlations(keys[..j], rows, q, sqrt) + (if Enough(rows, keys[j]) then [(keys[j], CorrValue(Xs(rows, keys[j]), Ys(rows, q, keys[j]), sqrt))] else [])
  {
    assert keys[..j + 1] == keys[..j] + [keys[j]];
    FilterSnoc(keys[..j], keys[j], (k': string) => Enough(rows, k'));
  }

  /** A parameter gets a correlation entry exactly when at least three scored responses carry it as a number. */
  lemma CorrelationKeys(keys: seq<string>, rows: seq<Response>, q: map<string, real>, sqrt: real -> real)
    requires IsSqrt(sqrt) && AllScored(rows, q)
    ensures forall k :: k in Keys(Correlations(keys, rows, q, sqrt)) <==> k in keys && Enough(rows, k)
  {
    var ks := Filter(keys, (k: string) => Enough(rows, k));
    assert Keys(Correlations(keys, rows, q, sqrt)) == ks;
  }

  /** Every correlation entry is Pearson's coefficient of its samples and lies in [-1, 1]. */
  lemma CorrelationValues(keys: seq<string>, rows: seq<Response>, q: map<string, real>, sqrt: real -> real)
    requires IsSqrt(sqrt) && AllScored(rows, q)
    ensures var pc := Correlations(keys, rows, q, sqrt);
      forall i :: 0 <= i < |pc| ==>
        Enough(rows, pc[i].0) && pc[i].1 == CorrValue(Xs(rows, pc[i].0), Ys(rows, q, pc[i].0), sqrt) && -1.0 <= pc[i].1 <= 1.0
  {
    var pc := Correlations(keys, rows, q, sqrt);
    forall i | 0 <= i < |pc|
      ensures -1.0 <= pc[i].1 <= 1.0
    {
      CorrBounded(Xs(rows, pc[i].0), Ys(rows, q, pc[i].0), sqrt);
    }
  }

  /** The batch's correlations are those of the four parameters over the scored responses. */
  lemma BatchCorrelations(responses: seq<Response>, metrics: seq<Metric>, sqrt: real -> real)
    requires IsSqrt(sqrt)
    ensures var b := BatchOf(responses, metrics, sqrt);
      b.paramCorrelations == Correlations(ParamKeys, Scored(responses, b.qById), b.qById, sqrt)
      && Keys(b.paramCorrelations) == Filter(ParamKeys, (k: string) => Enough(Scored(responses, b.qById), k))
  {
  }

  /** A response's batch quality is the quality of its last metric row, and exactly the rated responses are rows. */
  lemma QualityOfRows(responses: seq<Response>, metrics: seq<Metric>, sqrt: real -> real, r: Response)
    requires IsSqrt(sqrt)
    ensures var b := BatchOf(responses, metrics, sqrt);
      (r in Scored(responses, b.qById) <==> r in responses && exists i :: 0 <= i < |metrics| && metrics[i].responseId == r.id)
      && (r.id in b.qById ==> b.qById[r.id] == Q(metrics[LastFor(metrics, r.id)]))
  {
    var b := BatchOf(responses, metrics, sqrt);
    if r.id in b.qById {
      QByIdLastWins(metrics, r.id);
      IndexByResponseLastWins(metrics, r.id);
    }
  }

  /** The quality spread is never negative, and every per-score spread is never negative. */
  lemma SpreadsNonNegative(responses: seq<Response>, metrics: seq<Metric>, sqrt: real -> real)
    requires IsSqrt(sqrt)
    ensures var b := BatchOf(responses, metrics, sqrt);
      0.0 <= b.qStd && forall k :: k in b.perMetric ==> 0.0 <= b.perMetric[k].std
  {
  }

  /**
   * Each score listed by the sample metric gets the mean and spread of that
   * score over the scored rows, a row without the score counting as 0.
   */
  lemma PerMetricEntries(responses: seq<Response>, metrics: seq<Metric>, sqrt: real -> real, k: string)
    requires IsSqrt(sqrt)
    ensures var b := BatchOf(responses, metrics, sqrt);
      var rows := Scored(responses, b.qById);
      (k in b.perMetric <==> k in MetricKeys(metrics))
      && (k in b.perMetric ==>
            b.perMetric[k].mean == Mean(Column(rows, b.mById, k))
            && b.perMetric[k].std == Stdev(Column(rows, b.mById, k), sqrt))
  {
  }
}
