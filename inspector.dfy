/**
 * The body of the `QualityInspector` component: for the focused response it
 * lists the known metrics with a percentage, an explanation and a verdict,
 * hints at missed prompt keywords, shows a summary, ranks strengths and
 * weaknesses against the batch, measures variety against the other responses
 * and words the parameter tendencies of the batch.
 */
module Inspector {
  import opened Wrappers
  import opened Collections
  import opened Domain
  import opened Numeric
  import opened Lexical
  import opened BatchStats
  import opened Ranking
  import opened Narrative
  import opened StableSort

  /** One bullet of the "Quality Metrics" list. */
  datatype MetricLine = MetricLine(key: string, name: string, pct: int, explanation: string, verdict: string)

  /** `order.filter(k => typeof scores[k] === "number")`. */
  function ListedKeys(order: seq<string>, scores: seq<(string, real)>): seq<string>
  {
    Filter(order, (k: string) => k in Keys(scores))
  }

  function LineOf(scores: seq<(string, real)>, k: string): MetricLine
  {
    var pct := Percent(Score(scores, k, 0.0));
    MetricLine(k, SpaceName(k), pct, Lookup(Explanations, k).GetOr(""), ValueSummary(k, pct))
  }

  /** The bullets for the metrics of `order` the response has a score for. */
  function LinesFor(order: seq<string>, scores: seq<(string, real)>): seq<MetricLine>
  {
    var ks := ListedKeys(order, scores);
    seq(|ks|, i requires 0 <= i < |ks| => LineOf(scores, ks[i]))
  }

  /** The "Quality Metrics" bullets, in the fixed order `ORDER`. */
  function MetricLines(scores: seq<(string, real)>): seq<MetricLine>
  {
    LinesFor(Order, scores)
  }

  /**
   * The bullets cover exactly the metrics of `order` that the response has a
   * score for, each once, and in the order of `order`.
   */
  lemma LinesCoverScored(order: seq<string>, scores: seq<(string, real)>)
    ensures var r := LinesFor(order, scores);
      && |r| <= |order|
      && (forall k :: k in order && k in Keys(scores) <==> exists i :: 0 <= i < |r| && r[i].key == k)
      && var pos := FilterPositions(order, (k: string) => k in Keys(scores));
         |pos| == |r|
         && (forall i :: 0 <= i < |r| ==> order[pos[i]] == r[i].key)
         && (forall i, j :: 0 <= i < j < |r| ==> pos[i] < pos[j])
  {
    var r := LinesFor(order, scores);
    var ks := ListedKeys(order, scores);
    forall k | k in order && k in Keys(scores) ensures exists i :: 0 <= i < |r| && r[i].key == k {
      var j :| 0 <= j < |order| && order[j] == k;
      assert k in ks;
      var i :| 0 <= i < |ks| && ks[i] == k;
      assert r[i].key == k;
    }
  }

  /**
   * Each bullet shows the whole percentage of the response's own score for
   * the metric, the name without underscores, and the verdict for that
   * percentage.
   */
  lemma LinesShowScores(order: seq<string>, scores: seq<(string, real)>)
    ensures var r := LinesFor(order, scores);
      forall i :: 0 <= i < |r| ==>
        && r[i].key in Keys(scores)
        && 0 <= r[i].pct <= 100
        && r[i].pct == Percent(Lookup(scores, r[i].key).value)
        && '_' !in r[i].name
        && r[i].verdict == ValueSummary(r[i].key, r[i].pct)
  {
  }

  /** With the fixed order every bullet has an explanation and a non-empty verdict. */
  lemma MetricLinesExplained(scores: seq<(string, real)>, i: nat)
    requires i < |MetricLines(scores)|
    ensures var line := MetricLines(scores)[i];
      line.key in Order && Lookup(Explanations, line.key) == Some(line.explanation) && line.verdict != ""
  {
    var line := MetricLines(scores)[i];
    assert line.key in ListedKeys(Order, scores);
    ExplanationsCoverOrder();
    ValueSummaryKnownNames(line.key, line.pct);
  }

  /** What `Array.prototype.join` writes for one element: nothing for `null` and `undefined`. */
  function HintItem(v: Value, str: Value -> string): string
  {
    match v
    case Str(s) => s
    case Undefined => ""
    case Null => ""
    case _ => str(v)
  }

  /** `keywordsMissed.slice(0, 3)`, each as `join` writes it. */
  function HintWords(items: seq<Value>, str: Value -> string): (r: seq<string>)
    ensures |r| == if |items| < 3 then |items| else 3
    ensures forall i :: 0 <= i < |r| ==> r[i] == HintItem(items[i], str)
  {
    var firsts := Take(items, 3);
    seq(|firsts|, i requires 0 <= i < |firsts| => HintItem(firsts[i], str))
  }

  /**
   * The "Missing prompt ideas" hint: shown when `details.keywordsMissed` is a
   * non-empty array and completeness (0 when missing) is below 0.4, listing at
   * most the first three missed keywords.
   */
  function KeywordHint(m: Metric, str: Value -> string): (r: Option<string>)
    ensures var missed := Get(m.details, "keywordsMissed");
      r.Some? <==> missed.Arr? && |missed.items| > 0 && Score(m.scores, "completeness", 0.0) < 0.4
    ensures r.Some? ==> r.value == Join(HintWords(Get(m.details, "keywordsMissed").items, str), ", ")
  {
    var missed := Get(m.details, "keywordsMissed");
    if missed.Arr? && Score(m.scores, "completeness", 0.0) < 0.4 && |missed.items| > 0
    then Some(Join(HintWords(missed.items, str), ", "))
    else None
  }

  /** Unlike the summary, the hint treats a missing completeness score as 0, so it can show without one. */
  lemma HintWithoutCompleteness(m: Metric, str: Value -> string)
    requires "completeness" !in Keys(m.scores)
    requires Get(m.details, "keywordsMissed").Arr? && |Get(m.details, "keywordsMissed").items| > 0
    ensures KeywordHint(m, str).Some?
    ensures "coverage of the prompt is incomplete" !in Issues(m.scores)
  {
    IssuesThresholds(m.scores);
  }

  /** Three string keywords or fewer are listed in full, separated by ", ". */
  lemma HintListsFewKeywords(a: string, b: string, str: Value -> string)
    ensures Join(HintWords([Str(a), Str(b)], str), ", ") == a + ", " + b
    ensures Join(HintWords([Str(a), Null, Str(b), Str("x")], str), ", ") == a + ", , " + b
  {
    assert HintWords([Str(a), Str(b)], str) == [a, b];
    assert HintWords([Str(a), Null, Str(b), Str("x")], str) == [a, "", b];
    assert [a, b][1..] == [b];
    assert [a, "", b][1..] == ["", b];
    assert ["", b][1..] == [b];
  }

  /**
   * The summary paragraph: a truthy `details.summary` is shown as given,
   * otherwise the fixed-threshold summary of the scores. It is never blank.
   */
  method ShowSummary(m: Metric) returns (r: Value)
    ensures Truthy(Get(m.details, "summary")) ==> r == Get(m.details, "summary")
    ensures !Truthy(Get(m.details, "summary")) ==> r == Str(SummaryText(Parts(m.scores), Issues(m.scores)))
    ensures Truthy(r)
  {
    var given := Get(m.details, "summary");
    if Truthy(given) {
      r := given;
    } else {
      var text := HumanSummary(m.scores);
      SummaryShape(Parts(m.scores), Issues(m.scores));
      r := Str(text);
    }
  }

  /**
   * The Jaccard similarities of the focused token set `mine` to the token sets
   * of the other responses, skipping the focused id and ids without a set.
   */
  function PeerSims(rs: seq<Response>, focusId: string, mine: set<string>, tok: map<string, set<string>>): (r: seq<real>)
    ensures forall i :: 0 <= i < |r| ==> 0.0 <= r[i] <= 1.0
    ensures |r| == 0 <==> forall i :: 0 <= i < |rs| ==> rs[i].id == focusId || rs[i].id !in tok
  {
    if |rs| == 0 then []
    else
      var last := rs[|rs| - 1];
      assert forall i :: 0 <= i < |rs| - 1 ==> rs[..|rs| - 1][i] == rs[i];
      PeerSims(rs[..|rs| - 1], focusId, mine, tok)
        + (if last.id != focusId && last.id in tok then [Jaccard(mine, tok[last.id])] else [])
  }

  /** The focused response's token set, empty when it has none. */
  function MySet(focusId: string, tok: map<string, set<string>>): set<string>
  {
    if focusId in tok then tok[focusId] else {}
  }

  /** `variety`: one minus the mean similarity to the peers, 0 without peers. */
  function VarietyOf(rs: seq<Response>, focusId: string, tok: map<string, set<string>>): (v: real)
    ensures 0.0 <= v <= 1.0
  {
    var sims := PeerSims(rs, focusId, MySet(focusId, tok), tok);
    if |sims| > 0 then
      MeanBounds(sims, 0.0, 1.0);
      1.0 - Mean(sims)
    else 0.0
  }

  /** The `responses.forEach` loop accumulating `avgJac` and `n`, then the variety. */
  method Variety(responses: seq<Response>, focusId: string, tok: map<string, set<string>>) returns (variety: real)
    ensures variety == VarietyOf(responses, focusId, tok)
  {
    var thisSet := MySet(focusId, tok);
    var avgJac := 0.0;
    var n := 0;
    for i := 0 to |responses|
      invariant avgJac == Sum(PeerSims(responses[..i], focusId, thisSet, tok))
      invariant n == |PeerSims(responses[..i], focusId, thisSet, tok)|
    {
      var other := responses[i];
      ghost var before := PeerSims(responses[..i], focusId, thisSet, tok);
      PeerSimsSnoc(responses, i, focusId, thisSet, tok);
      if other.id != focusId && other.id in tok {
        var sim := Jaccard(thisSet, tok[other.id]);
        assert PeerSims(responses[..i + 1], focusId, thisSet, tok) == before + [sim];
        SumSnoc(before, sim);
        avgJac := avgJac + sim;
        n := n + 1;
      } else {
        assert PeerSims(responses[..i + 1], focusId, thisSet, tok) == before;
      }
    }
    assert responses[..|responses|] == responses;
    variety := if n != 0 then 1.0 - avgJac / n as real else 0.0;
  }

  lemma PeerSimsSnoc(rs: seq<Response>, i: nat, focusId: string, mine: set<string>, tok: map<string, set<string>>)
    requires i < |rs|
    ensures PeerSims(rs[..i + 1], focusId, mine, tok) == PeerSims(rs[..i], focusId, mine, tok)
      + (if rs[i].id != focusId && rs[i].id in tok then [Jaccard(mine, tok[rs[i].id])] else [])
  {
    assert rs[..i + 1][..i] == rs[..i];
  }

  /** With no other response that has a token set, the variety is 0. */
  lemma VarietyWithoutPeers(rs: seq<Response>, focusId: string, tok: map<string, set<string>>)
    requires forall i :: 0 <= i < |rs| ==> rs[i].id == focusId || rs[i].id !in tok
    ensures VarietyOf(rs, focusId, tok) == 0.0
  {
  }

  /** Peers whose token sets all equal the focused (non-empty) one give variety 0. */
  lemma VarietyOfCopies(rs: seq<Response>, focusId: string, tok: map<string, set<string>>)
    requires MySet(focusId, tok) != {}
    requires forall i :: 0 <= i < |rs| && rs[i].id in tok ==> tok[rs[i].id] == MySet(focusId, tok)
    ensures VarietyOf(rs, focusId, tok) == 0.0
  {
    var mine := MySet(focusId, tok);
    forall i | 0 <= i < |rs| && rs[i].id in tok && rs[i].id != focusId
      ensures Jaccard(mine, tok[rs[i].id]) == 1.0
    {
      JaccardOne(mine, tok[rs[i].id]);
    }
    SimsConstant(rs, focusId, mine, tok, 1.0);
    var sims := PeerSims(rs, focusId, mine, tok);
    if |sims| > 0 {
      MeanOfConstant(sims, 1.0);
    }
  }

  /** Peers sharing no token with the focused response give variety 1. */
  lemma VarietyOfStrangers(rs: seq<Response>, focusId: string, tok: map<string, set<string>>)
    requires exists i :: 0 <= i < |rs| && rs[i].id != focusId && rs[i].id in tok
    requires forall i :: 0 <= i < |rs| && rs[i].id in tok ==> MySet(focusId, tok) * tok[rs[i].id] == {}
    ensures VarietyOf(rs, focusId, tok) == 1.0
  {
    var mine := MySet(focusId, tok);
    SimsConstant(rs, focusId, mine, tok, 0.0);
    var sims := PeerSims(rs, focusId, mine, tok);
    MeanOfConstant(sims, 0.0);
  }

  /** Every similarity is `c` when each peer's similarity is `c`. */
  lemma {:induction false} SimsConstant(rs: seq<Response>, focusId: string, mine: set<string>, tok: map<string, set<string>>, c: real)
    requires forall i :: 0 <= i < |rs| && rs[i].id in tok && rs[i].id != focusId ==> Jaccard(mine, tok[rs[i].id]) == c
    ensures forall i :: 0 <= i < |PeerSims(rs, focusId, mine, tok)| ==> PeerSims(rs, focusId, mine, tok)[i] == c
  {
    if |rs| > 0 {
      var n := |rs| - 1;
      assert forall i :: 0 <= i < n ==> rs[..n][i] == rs[i];
      SimsConstant(rs[..n], focusId, mine, tok, c);
    }
  }

  /** A tendency is worth a note when `|rho| >= 0.2`. */
  predicate Notable(e: (string, real))
  {
    !(-0.2 < e.1 < 0.2)
  }

  /** The note for parameter `k` with coefficient `rho`; `fixed` is `toFixed(2)`. */
  function Note(k: string, rho: real, fixed: real -> string): string
  {
    k + ": " + (if rho > 0.0 then "higher" else "lower")
      + " values correlate with higher overall quality (r\U{2248}" + fixed(rho) + ")."
  }

  /** `paramNotes`: a note for each notable correlation, in the order of the correlations. */
  function NotesOf(corrs: seq<(string, real)>, fixed: real -> string): (r: seq<string>)
    ensures |r| == |Filter(corrs, Notable)|
  {
    var noted := Filter(corrs, Notable);
    seq(|noted|, i requires 0 <= i < |noted| => Note(noted[i].0, noted[i].1, fixed))
  }

  /** The `Object.entries(paramCorrelations).forEach` loop pushing the notes. */
  method ParamNotes(corrs: seq<(string, real)>, fixed: real -> string) returns (notes: seq<string>)
    ensures notes == NotesOf(corrs, fixed)
  {
    notes := [];
    for i := 0 to |corrs|
      invariant notes == NotesOf(corrs[..i], fixed)
    {
      var (k, rho) := corrs[i];
      FilterSnoc(corrs[..i], corrs[i], Notable);
      assert corrs[..i + 1] == corrs[..i] + [corrs[i]];
      if -0.2 < rho < 0.2 {
        continue;
      }
      notes := notes + [Note(k, rho, fixed)];
    }
    assert corrs[..|corrs|] == corrs;
  }

  /** A note says "higher" exactly for a positive coefficient, and "lower" otherwise. */
  lemma NoteWording(k: string, rho: real, fixed: real -> string)
    ensures StartsWith(Note(k, rho, fixed), k + ": higher") <==> rho > 0.0
    ensures StartsWith(Note(k, rho, fixed), k + ": lower") <==> !(rho > 0.0)
  {
    var n := Note(k, rho, fixed);
    var w := if rho > 0.0 then "higher" else "lower";
    assert n == (k + ": " + w) + (" values correlate with higher overall quality (r\U{2248}" + fixed(rho) + ").");
    assert n[|k| + 2] == w[0];
    assert (k + ": higher")[|k| + 2] == 'h';
    assert (k + ": lower")[|k| + 2] == 'l';
  }

  /**
   * Every note comes from a notable correlation, in order: notes are about
   * parameters with at least three samples and `|r| >= 0.2`.
   */
  lemma NotesOfCorrelations(keys: seq<string>, rows: seq<Response>, q: map<string, real>, sqrt: real -> real, fixed: real -> string)
    requires IsSqrt(sqrt) && AllScored(rows, q)
    ensures var pc := Correlations(keys, rows, q, sqrt);
      var noted := Filter(pc, Notable);
      && |NotesOf(pc, fixed)| == |noted|
      && forall i :: 0 <= i < |noted| ==>
           && NotesOf(pc, fixed)[i] == Note(noted[i].0, noted[i].1, fixed)
           && noted[i].0 in keys && Enough(rows, noted[i].0)
           && (noted[i].1 >= 0.2 || noted[i].1 <= -0.2)
  {
    var pc := Correlations(keys, rows, q, sqrt);
    CorrelationKeys(keys, rows, q, sqrt);
    NotedKeys(pc);
  }

  lemma NotedKeys(pc: seq<(string, real)>)
    ensures var noted := Filter(pc, Notable);
      forall i :: 0 <= i < |noted| ==> noted[i].0 in Keys(pc) && Notable(noted[i])
  {
    var noted := Filter(pc, Notable);
    forall i | 0 <= i < |noted| ensures noted[i].0 in Keys(pc) {
      var j :| 0 <= j < |pc| && pc[j] == noted[i];
      assert Keys(pc)[j] == noted[i].0;
    }
  }

  /** The batch's notes: about the parameters with enough samples, and only the notable ones. */
  lemma NotesOfBatch(responses: seq<Response>, metrics: seq<Metric>, sqrt: real -> real, fixed: real -> string)
    requires IsSqrt(sqrt)
    ensures var b := BatchOf(responses, metrics, sqrt);
      var noted := Filter(b.paramCorrelations, Notable);
      forall i :: 0 <= i < |noted| ==>
        noted[i].0 in ParamKeys && Enough(Scored(responses, b.qById), noted[i].0)
  {
    var b := BatchOf(responses, metrics, sqrt);
    BatchCorrelations(responses, metrics, sqrt);
    NotesOfCorrelations(ParamKeys, Scored(responses, b.qById), b.qById, sqrt, fixed);
  }

  /** What the inspector shows for the focused response. */
  datatype View =
    | NoMetrics
    | Report(
        lines: seq<MetricLine>,
        hint: Option<string>,
        summary: Value,
        strengths: seq<Item>,
        weaknesses: seq<Item>,
        notes: seq<string>,
        variety: real)

  /**
   * The component: "No metrics recorded" unless both the focused response and
   * a metric for it exist; otherwise the report built from the first metric
   * row for the response and the batch statistics.
   */
  method Inspect(responses: seq<Response>, metrics: seq<Metric>, focusId: string,
                 sqrt: real -> real, fixed: real -> string, str: Value -> string) returns (view: View)
    requires IsSqrt(sqrt)
    ensures view.NoMetrics? <==> FindResponse(responses, focusId).None? || FindMetric(metrics, focusId).None?
    ensures view.Report? ==>
      var m := FindMetric(metrics, focusId).value;
      var b := BatchOf(responses, metrics, sqrt);
      && view.lines == MetricLines(m.scores)
      && view.hint == KeywordHint(m, str)
      && Truthy(view.summary)
      && (Truthy(Get(m.details, "summary")) ==> view.summary == Get(m.details, "summary"))
      && (!Truthy(Get(m.details, "summary")) ==> view.summary == Str(SummaryText(Parts(m.scores), Issues(m.scores))))
      && (|m.scores| > 0 <==> |view.strengths| > 0 && |view.weaknesses| > 0)
      && |view.strengths| <= MaxPicks && |view.weaknesses| <= MaxPicks
      && var items := Items(m.scores, b.perMetric);
      && view.strengths == (if |PrimaryStrengths(items)| > 0 then PrimaryStrengths(items)
                            else if |items| > 0 then [items[FirstMaxIndex(items, ValueKey)]] else [])
      && view.weaknesses == (if |PrimaryWeaknesses(items)| > 0 then PrimaryWeaknesses(items)
                             else if |items| > 0 then [items[FirstMaxIndex(items, NegValueKey)]] else [])
      && view.notes == NotesOf(b.paramCorrelations, fixed)
      && view.variety == VarietyOf(responses, focusId, b.tokById)
  {
    var batch := BuildBatchStats(responses, metrics, sqrt);
    var mo := FindMetric(metrics, focusId);
    var ro := FindResponse(responses, focusId);
    if ro.None? || mo.None? {
      return NoMetrics;
    }
    var m := mo.value;
    var strengths, weaknesses, items := Rank(m, batch.perMetric);
    var variety := Variety(responses, ro.value.id, batch.tokById);
    var notes := ParamNotes(batch.paramCorrelations, fixed);
    var summary := ShowSummary(m);
    view := Report(MetricLines(m.scores), KeywordHint(m, str), summary, strengths, weaknesses, notes, variety);
  }
}
