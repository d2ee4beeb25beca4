/**
 * The records the frontend receives from the backend (responses, metric rows,
 * experiments) and a model of the JavaScript values held by their loosely
 * typed fields (`params`, `details`, CSV rows).
 */
module Domain {
  import opened Wrappers
  import opened Collections

  /** A JavaScript value as it arrives from JSON; an object is an ordered list of properties. */
  datatype Value =
    | Undefined
    | Null
    | Bool(b: bool)
    | Num(n: real)
    | Str(s: string)
    | Arr(items: seq<Value>)
    | Obj(fields: seq<(string, Value)>)

  /** Property read `v?.[k]`: the first property named `k` of an object, otherwise `undefined`. */
  function Get(v: Value, k: string): (r: Value)
    ensures !v.Obj? || k !in Keys(v.fields) ==> r == Undefined
    ensures v.Obj? && k in Keys(v.fields) ==> (k, r) in v.fields
  {
    if v.Obj? then Lookup(v.fields, k).GetOr(Undefined) else Undefined
  }

  /** JavaScript truthiness (NaN is not modelled). */
  predicate Truthy(v: Value)
  {
    match v
    case Undefined => false
    case Null => false
    case Bool(b) => b
    case Num(n) => n != 0.0
    case Str(s) => s != ""
    case Arr(_) => true
    case Obj(_) => true
  }

  predicate Nullish(v: Value)
  {
    v.Undefined? || v.Null?
  }

  /** One generated response (`ResponseRow`); `content` is an alternative text field some rows carry. */
  datatype Response = Response(
    id: string,
    createdAt: string,
    text: Option<string>,
    content: Option<string>,
    latencyMs: Option<real>,
    tokensIn: Option<real>,
    tokensOut: Option<real>,
    params: Value)

  /** One metric row (`MetricRow`): the scores of one response. */
  datatype Metric = Metric(
    id: string,
    responseId: string,
    overallQuality: Option<real>,
    scores: seq<(string, real)>,
    details: Value)

  datatype Experiment = Experiment(id: string, title: string, prompt: string, model: string, createdAt: string)

  /** `overallQuality ?? 0`. */
  function Q(m: Metric): real
  {
    m.overallQuality.GetOr(0.0)
  }

  /** `scores?.[k] ?? d`. */
  function Score(scores: seq<(string, real)>, k: string, d: real): real
  {
    Lookup(scores, k).GetOr(d)
  }

  /** The scores as the JavaScript object `JSON.stringify` sees. */
  function ScoresValue(scores: seq<(string, real)>): (r: Value)
    ensures r.Obj? && Keys(r.fields) == Keys(scores)
  {
    Obj(seq(|scores|, i requires 0 <= i < |scores| => (scores[i].0, Num(scores[i].1))))
  }

  /** Index of the last metric for response `id`. */
  function LastFor(ms: seq<Metric>, id: string): (j: nat)
    requires exists i :: 0 <= i < |ms| && ms[i].responseId == id
    ensures j < |ms| && ms[j].responseId == id
    ensures forall k :: j < k < |ms| ==> ms[k].responseId != id
  {
    if ms[|ms| - 1].responseId == id then |ms| - 1
    else
      assert exists i :: 0 <= i < |ms| - 1 && ms[i].responseId == id;
      assert forall i :: 0 <= i < |ms| - 1 ==> ms[..|ms| - 1][i] == ms[i];
      LastFor(ms[..|ms| - 1], id)
  }

  /**
   * `new Map(metrics.map(m => [m.responseId, m]))`, equally the `forEach` of
   * `set` calls: a metric per response id, the later of two overwriting the earlier.
   */
  function IndexByResponse(ms: seq<Metric>): (r: map<string, Metric>)
    ensures forall id :: id in r <==> exists i :: 0 <= i < |ms| && ms[i].responseId == id
  {
    if |ms| == 0 then map[]
    else
      var p := IndexByResponse(ms[..|ms| - 1]);
      assert forall i :: 0 <= i < |ms| - 1 ==> ms[..|ms| - 1][i] == ms[i];
      p[ms[|ms| - 1].responseId := ms[|ms| - 1]]
  }

  /** The indexed metric for an id is the last one in input order. */
  lemma {:induction false} IndexByResponseLastWins(ms: seq<Metric>, id: string)
    requires id in IndexByResponse(ms)
    ensures IndexByResponse(ms)[id] == ms[LastFor(ms, id)]
  {
    var n := |ms| - 1;
    if ms[n].responseId != id {
      var p := ms[..n];
      assert id in IndexByResponse(p);
      IndexByResponseLastWins(p, id);
      assert LastFor(ms, id) == LastFor(p, id);
    }
  }

  /** `responses.find(r => r.id === id)`. */
  function FindResponse(responses: seq<Response>, id: string): (r: Option<Response>)
    ensures r.None? <==> forall i :: 0 <= i < |responses| ==> responses[i].id != id
    ensures r.Some? ==> r.value.id == id && r.value in responses
  {
    Find(responses, (x: Response) => x.id == id)
  }

  /** `metrics.find(m => m.responseId === id)`: the first metric for `id`. */
  function FindMetric(metrics: seq<Metric>, id: string): (r: Option<Metric>)
    ensures r.None? <==> forall i :: 0 <= i < |metrics| ==> metrics[i].responseId != id
    ensures r.Some? ==> r.value.responseId == id && r.value in metrics
  {
    Find(metrics, (x: Metric) => x.responseId == id)
  }
}
