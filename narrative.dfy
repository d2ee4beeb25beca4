/**
 * The friendly wording of the quality inspector: the fixed metric order, the
 * one-line explanation of each metric, the verdict printed next to a
 * percentage, and the fixed-threshold summary of a response's scores.
 */
module Narrative {
  import opened Wrappers
  import opened Collections
  import opened Domain

  /** `ORDER`: the metrics the inspector lists, in display order. */
  const Order: seq<string> := ["coherence", "redundancy", "completeness", "lexical_diversity", "structure", "readability", "length_adequacy"]

  /** `EXPLAIN`. */
  const Explanations: seq<(string, string)> := [
    ("coherence", "How smoothly sentences connect."),
    ("redundancy", "How much repetition exists."),
    ("completeness", "How much of your prompt the response covered."),
    ("lexical_diversity", "Variety of vocabulary used."),
    ("structure", "Presence of headings, lists, bullet points, etc."),
    ("readability", "How easy it is to read (sentence length, syllables)."),
    ("length_adequacy", "How close the response is to the target length.")]

  /** Every listed metric has an explanation, in the same order. */
  lemma ExplanationsCoverOrder()
    ensures Keys(Explanations) == Order
    ensures forall k :: k in Order ==> Lookup(Explanations, k).Some?
  {
  }

  /** `valueSummary`: the verdict shown after a metric's whole percentage; "" for an unknown metric. */
  function ValueSummary(name: string, percent: int): string
  {
    if name == "coherence" then (if percent < 40 then "Very poor flow \U{2192} sentences feel disconnected." else "Good flow.")
    else if name == "redundancy" then (if percent == 100 then "No repetition at all \U{2192} very good." else "Some repetition present.")
    else if name == "completeness" then (if percent >= 70 then "Good keyword coverage, but not perfect." else "Missing many prompt keywords.")
    else if name == "lexical_diversity" then (if percent >= 60 then "Good variety, not repetitive." else "Low vocabulary variety.")
    else if name == "structure" then (if percent == 100 then "Excellent structure \U{2192} formatting is strong." else "Weak structure; add headings/lists.")
    else if name == "readability" then (if percent >= 70 then "Very readable, flows well." else "Hard to read; simplify sentences.")
    else if name == "length_adequacy" then (if percent < 50 then "Too short or too long compared to ideal length." else "Close to ideal length.")
    else ""
  }

  /** How a verdict compares the percentage with its threshold. */
  datatype Test = Below(t: int) | AtLeast(t: int) | Exactly(t: int)
  {
    predicate Holds(p: int)
    {
      match this
      case Below(t) => p < t
      case AtLeast(t) => p >= t
      case Exactly(t) => p == t
    }
  }

  /** One verdict rule: the text when the test holds, and the text otherwise. */
  datatype Verdict = Verdict(test: Test, pass: string, fail: string)

  /** The verdict rules as a table, one per metric of `Order`, in the same order. */
  const Verdicts: seq<Verdict> := [
    Verdict(Below(40), "Very poor flow \U{2192} sentences feel disconnected.", "Good flow."),
    Verdict(Exactly(100), "No repetition at all \U{2192} very good.", "Some repetition present."),
    Verdict(AtLeast(70), "Good keyword coverage, but not perfect.", "Missing many prompt keywords."),
    Verdict(AtLeast(60), "Good variety, not repetitive.", "Low vocabulary variety."),
    Verdict(Exactly(100), "Excellent structure \U{2192} formatting is strong.", "Weak structure; add headings/lists."),
    Verdict(AtLeast(70), "Very readable, flows well.", "Hard to read; simplify sentences."),
    Verdict(Below(50), "Too short or too long compared to ideal length.", "Close to ideal length.")]

  /**
   * The verdict chain agrees with the rule table: the `i`-th listed metric
   * has exactly one threshold test and two texts.
   */
  lemma ValueSummaryFollowsTable(i: nat, percent: int)
    requires i < |Order|
    ensures |Verdicts| == |Order|
    ensures var v := Verdicts[i]; ValueSummary(Order[i], percent) == if v.test.Holds(percent) then v.pass else v.fail
  {
    if i == 0 {
      assert Order[i] == "coherence";
    } else if i == 1 {
      assert Order[i] == "redundancy";
    } else if i == 2 {
      assert Order[i] == "completeness";
    } else if i == 3 {
      assert Order[i] == "lexical_diversity";
    } else if i == 4 {
      assert Order[i] == "structure";
    } else if i == 5 {
      assert Order[i] == "readability";
    } else {
      assert Order[i] == "length_adequacy";
    }
  }

  /** Exactly the listed metrics get a verdict. */
  lemma ValueSummaryKnownNames(name: string, percent: int)
    ensures ValueSummary(name, percent) != "" <==> name in Order
  {
  }

  /** The positive findings of `humanSummary`; a missing score counts as 0. */
  function Parts(scores: seq<(string, real)>): seq<string>
  {
    (if Score(scores, "structure", 0.0) > 0.8 then ["well-structured"] else [])
    + (if Score(scores, "readability", 0.0) > 0.7 then ["readable"] else [])
    + (if Score(scores, "lexical_diversity", 0.0) > 0.6 then ["uses diverse wording"] else [])
    + (if Score(scores, "redundancy", 0.0) == 1.0 then ["avoids repetition"] else [])
  }

  /** The issues of `humanSummary`; a missing score counts as 1. */
  function Issues(scores: seq<(string, real)>): seq<string>
  {
    (if Score(scores, "coherence", 1.0) < 0.4 then ["coherence is weak"] else [])
    + (if Score(scores, "length_adequacy", 1.0) < 0.5 then ["length is far from the expected target"] else [])
    + (if Score(scores, "completeness", 1.0) < 0.6 then ["coverage of the prompt is incomplete"] else [])
  }

  const Fallback: string := "No decisive pattern detected."

  function Good(parts: seq<string>): string
  {
    if |parts| > 0 then "This response is " + Join(parts, ", ") + "." else ""
  }

  function Bad(issues: seq<string>): string
  {
    if |issues| > 0 then " However, " + Join(issues, "; ") + "." else ""
  }

  /** The text of `humanSummary` for the given findings. */
  function SummaryText(parts: seq<string>, issues: seq<string>): string
  {
    if Good(parts) + Bad(issues) != "" then Good(parts) + Bad(issues) else Fallback
  }

  /** `humanSummary`: collects the findings, then joins them. */
  method HumanSummary(scores: seq<(string, real)>) returns (r: string)
    ensures r == SummaryText(Parts(scores), Issues(scores))
  {
    var parts := CollectParts(scores);
    var issues := CollectIssues(scores);
    var good := Good(parts);
    var bad := Bad(issues);
    r := if good + bad != "" then good + bad else Fallback;
  }

  /** The four conditional pushes into `parts`. */
  method CollectParts(scores: seq<(string, real)>) returns (parts: seq<string>)
    ensures parts == Parts(scores)
  {
    parts := [];
    if Score(scores, "structure", 0.0) > 0.8 { parts := parts + ["well-structured"]; }
    if Score(scores, "readability", 0.0) > 0.7 { parts := parts + ["readable"]; }
    if Score(scores, "lexical_diversity", 0.0) > 0.6 { parts := parts + ["uses diverse wording"]; }
    if Score(scores, "redundancy", 0.0) == 1.0 { parts := parts + ["avoids repetition"]; }
  }

  /** The three conditional pushes into `issues`. */
  method CollectIssues(scores: seq<(string, real)>) returns (issues: seq<string>)
    ensures issues == Issues(scores)
  {
    issues := [];
    if Score(scores, "coherence", 1.0) < 0.4 { issues := issues + ["coherence is weak"]; }
    if Score(scores, "length_adequacy", 1.0) < 0.5 { issues := issues + ["length is far from the expected target"]; }
    if Score(scores, "completeness", 1.0) < 0.6 { issues := issues + ["coverage of the prompt is incomplete"]; }
  }

  /** Each positive finding is reported exactly when its score passes its threshold. */
  lemma PartsThresholds(scores: seq<(string, real)>)
    ensures "well-structured" in Parts(scores) <==> Score(scores, "structure", 0.0) > 0.8
    ensures "readable" in Parts(scores) <==> Score(scores, "readability", 0.0) > 0.7
    ensures "uses diverse wording" in Parts(scores) <==> Score(scores, "lexical_diversity", 0.0) > 0.6
    ensures "avoids repetition" in Parts(scores) <==> Score(scores, "redundancy", 0.0) == 1.0
  {
  }

  /** Each issue is reported exactly when its score is below its threshold. */
  lemma IssuesThresholds(scores: seq<(string, real)>)
    ensures "coherence is weak" in Issues(scores) <==> Score(scores, "coherence", 1.0) < 0.4
    ensures "length is far from the expected target" in Issues(scores) <==> Score(scores, "length_adequacy", 1.0) < 0.5
    ensures "coverage of the prompt is incomplete" in Issues(scores) <==> Score(scores, "completeness", 1.0) < 0.6
  {
  }

  /** Without any scores there is nothing to praise and nothing to criticise. */
  lemma MissingScoresCountNeither(scores: seq<(string, real)>)
    requires forall k :: k in Order ==> k !in Keys(scores)
    ensures Parts(scores) == [] && Issues(scores) == []
    ensures SummaryText(Parts(scores), Issues(scores)) == Fallback
  {
    assert "structure" in Order && "readability" in Order && "lexical_diversity" in Order && "redundancy" in Order;
    assert "coherence" in Order && "length_adequacy" in Order && "completeness" in Order;
  }

  /**
   * The summary is never empty; it is the fallback exactly when there is
   * nothing to report, it opens with the praise when there is any, and
   * otherwise with the criticism.
   */
  lemma SummaryShape(parts: seq<string>, issues: seq<string>)
    ensures |SummaryText(parts, issues)| > 0
    ensures SummaryText(parts, issues) == Fallback <==> parts == [] && issues == []
    ensures parts != [] ==> StartsWith(SummaryText(parts, issues), "This response is ")
    ensures parts == [] && issues != [] ==> SummaryText(parts, issues) == " However, " + Join(issues, "; ") + "."
  {
    var g, b := Good(parts), Bad(issues);
    assert Fallback[0] == 'N';
    if parts != [] {
      assert g[0] == 'T';
      assert (g + b)[0] == 'T';
      assert (g + b)[..17] == g[..17];
    } else if issues != [] {
      assert g + b == b;
      assert b[0] == ' ';
    }
  }

  /** One finding of each kind reads as one praise sentence followed by one criticism. */
  lemma SummaryOfOneEach(part: string, issue: string)
    ensures SummaryText([part], [issue]) == "This response is " + part + ". However, " + issue + "."
  {
    assert Good([part]) == "This response is " + part + ".";
    assert Bad([issue]) == " However, " + issue + ".";
    assert |Good([part]) + Bad([issue])| > 0;
  }

  /** A well-structured but incoherent response with no other scores gets one praise and one criticism. */
  lemma SummaryExample()
    ensures Parts([("structure", 0.9), ("coherence", 0.3)]) == ["well-structured"]
    ensures Issues([("structure", 0.9), ("coherence", 0.3)]) == ["coherence is weak"]
  {
    var s := [("structure", 0.9), ("coherence", 0.3)];
    assert Score(s, "readability", 0.0) == 0.0;
    assert Score(s, "length_adequacy", 1.0) == 1.0;
  }
}
