/**
 * The best pick of a batch: the metric row with the highest overall quality
 * (`overallQuality ?? 0`), taken as the head of a stable descending sort of a
 * copy of the rows, so the first of equally good rows wins. `StrongHighlight`
 * shows it as a card; the two CSV exports flag its response id.
 */
module BestPick {
  import opened Wrappers
  import opened Collections
  import opened Domain
  import opened Numeric
  import opened StableSort

  /** `[...metrics].map(m => ({ m, q })).sort((a, b) => b.q - a.q)[0]`, or nothing for no rows. */
  function Top(metrics: seq<Metric>): (r: Option<Metric>)
    ensures r.None? <==> |metrics| == 0
  {
    if |metrics| == 0 then None else Some(SortDesc(metrics, Q)[0])
  }

  /**
   * The top row is the first row of maximal quality: no row is better, and
   * every earlier row is strictly worse.
   */
  lemma TopIsFirstMax(metrics: seq<Metric>)
    requires |metrics| > 0
    ensures var i := FirstMaxIndex(metrics, Q);
      && Top(metrics) == Some(metrics[i])
      && (forall j :: 0 <= j < |metrics| ==> Q(metrics[j]) <= Q(metrics[i]))
      && (forall j :: 0 <= j < i ==> Q(metrics[j]) < Q(metrics[i]))
  {
    SortDescHead(metrics, Q);
  }

  /** A pair `{ id: m.responseId, q: Number(m.overallQuality ?? 0) }`. */
  datatype Scored = Scored(id: string, q: real)

  function ScoredOf(m: Metric): Scored
  {
    Scored(m.responseId, Q(m))
  }

  function ScoredQ(p: Scored): real
  {
    p.q
  }

  /** `metrics.map(m => ({ id: m.responseId, q: Number(m.overallQuality ?? 0) }))`. */
  function Pairs(metrics: seq<Metric>): (r: seq<Scored>)
    ensures |r| == |metrics|
    ensures forall i :: 0 <= i < |r| ==> r[i] == ScoredOf(metrics[i])
  {
    seq(|metrics|, i requires 0 <= i < |metrics| => ScoredOf(metrics[i]))
  }

  /** `bestFitId`: the response id of the head of the pairs sorted by quality; absent for no rows. */
  function BestFitId(metrics: seq<Metric>): (r: Option<string>)
    ensures r.None? <==> |metrics| == 0
  {
    if |metrics| == 0 then None else Some(SortDesc(Pairs(metrics), ScoredQ)[0].id)
  }

  /** Sorting the pairs picks the same row as sorting the metrics: the first of maximal quality. */
  lemma BestFitIdIsTop(metrics: seq<Metric>)
    requires |metrics| > 0
    ensures BestFitId(metrics) == Some(metrics[FirstMaxIndex(metrics, Q)].responseId)
    ensures BestFitId(metrics) == Some(Top(metrics).value.responseId)
  {
    var pairs := Pairs(metrics);
    var i := FirstMaxIndex(metrics, Q);
    SortDescHead(pairs, ScoredQ);
    FirstMaxUnique(pairs, ScoredQ, i);
    TopIsFirstMax(metrics);
  }

  /** The strong pick: the response of the top row, that row, and its quality. */
  datatype Pick = Pick(resp: Response, m: Metric, q: real)

  /** `best`: null for no rows, and null when the top row's response is missing, without trying the next row. */
  function Best(responses: seq<Response>, metrics: seq<Metric>): (r: Option<Pick>)
    ensures r.Some? ==> |metrics| > 0 && r.value.m == Top(metrics).value && r.value.q == Q(r.value.m)
    ensures r.Some? ==> r.value.resp in responses && r.value.resp.id == r.value.m.responseId
  {
    match Top(metrics)
    case None => None
    case Some(top) =>
      match FindResponse(responses, top.responseId)
      case None => None
      case Some(resp) => Some(Pick(resp, top, Q(top)))
  }

  /**
   * There is a pick exactly when there are rows and the response of the first
   * best row is present; a runner-up is never chosen.
   */
  lemma BestExactly(responses: seq<Response>, metrics: seq<Metric>)
    ensures Best(responses, metrics).Some? <==>
      |metrics| > 0 && exists i :: 0 <= i < |responses| && responses[i].id == metrics[FirstMaxIndex(metrics, Q)].responseId
    ensures Best(responses, metrics).Some? ==>
      var p := Best(responses, metrics).value;
      p.m == metrics[FirstMaxIndex(metrics, Q)] && forall j :: 0 <= j < |metrics| ==> Q(metrics[j]) <= p.q
  {
    if |metrics| > 0 {
      TopIsFirstMax(metrics);
    }
  }

  /** The body of the preview, before the suffix: the first 320 characters, or "(no preview)" for a missing or empty text. */
  function PreviewBody(text: Option<string>): string
  {
    if text.Some? && text.value != "" then Take(text.value, 320) else "(no preview)"
  }

  /** The preview with the ellipsis (U+2026) the suffix evidently stands for. */
  function Preview(text: Option<string>): (r: string)
  {
    PreviewBody(text) + (if text.Some? && |text.value| > 320 then "\U{2026}" else "")
  }

  /** The preview as written: the suffix spelled with the three characters `U+00E2 U+20AC U+00A6`. */
  function PreviewAsWritten(text: Option<string>): string
  {
    PreviewBody(text) + (if text.Some? && |text.value| > 320 then "\U{00E2}\U{20AC}\U{00A6}" else "")
  }

  /**
   * The preview shows at most the first 320 characters of the text, and the
   * ellipsis exactly when the text is longer than that.
   */
  lemma PreviewBounds(text: Option<string>)
    ensures |Preview(text)| <= 321
    ensures text.Some? && text.value != "" ==> StartsWith(Preview(text), Take(text.value, 320))
    ensures text.Some? && |text.value| > 320 <==> Preview(text) == PreviewBody(text) + "\U{2026}"
    ensures text.None? || text.value == "" ==> Preview(text) == "(no preview)"
  {
    var b := PreviewBody(text);
    assert (b + "\U{2026}")[..|b|] == b;
    assert (b + "")[..|b|] == b;
    if !(text.Some? && |text.value| > 320) {
      assert Preview(text) == b;
      assert |b + "\U{2026}"| == |b| + 1;
    }
  }

  /** A long text's preview as written ends in three characters instead of one ellipsis. */
  lemma PreviewMojibake(text: string)
    requires |text| > 320
    ensures var p := PreviewAsWritten(Some(text));
      |p| == 323 && p[320..] == "\U{00E2}\U{20AC}\U{00A6}" && '\U{2026}' !in p[320..]
    ensures |Preview(Some(text))| == 321 && Preview(Some(text))[320] == '\U{2026}'
  {
  }

  /** The strong-pick card: the quality percentage, the preview, one chip per score, and the id to open. */
  datatype Card = Card(pct: int, preview: string, chips: seq<(string, int)>, openId: string)

  /** The score chips: the name without underscores and the whole percentage of the score. */
  function Chips(scores: seq<(string, real)>): (r: seq<(string, int)>)
    ensures |r| == |scores|
    ensures forall i :: 0 <= i < |r| ==> r[i].0 == SpaceName(scores[i].0) && 0 <= r[i].1 <= 100
  {
    seq(|scores|, i requires 0 <= i < |scores| => (SpaceName(scores[i].0), Percent(scores[i].1)))
  }

  /** `StrongHighlight`: nothing without a pick, otherwise the card of the pick. */
  function Highlight(responses: seq<Response>, metrics: seq<Metric>): (r: Option<Card>)
    ensures r.Some? <==> Best(responses, metrics).Some?
    ensures r.Some? ==> 0 <= r.value.pct <= 100 && |r.value.preview| <= 321
    ensures r.Some? ==> r.value.openId == Best(responses, metrics).value.m.responseId
    ensures r.Some? ==>
      var p := Best(responses, metrics).value;
      && r.value.pct == Percent(p.q)
      && r.value.preview == Preview(p.resp.text)
      && r.value.chips == Chips(p.m.scores)
  {
    match Best(responses, metrics)
    case None => None
    case Some(p) =>
      PreviewBounds(p.resp.text);
      Some(Card(Percent(p.q), Preview(p.resp.text), Chips(p.m.scores), p.resp.id))
  }
}
