/**
 * The detailed export of every experiment: one CSV row per response in the
 * sixteen fixed columns, preceded by a byte-order mark; the response of the
 * best metric row of its experiment is flagged `isBestFit`.
 */
module ExportCenter {
  import opened Wrappers
  import opened Collections
  import opened Domain
  import opened StableSort
  import opened BestPick
  import opened CsvText

  /** `COLS`: the columns of every detailed export, in order. */
  const Cols: seq<string> := [
    "experimentId", "experimentTitle", "experimentPrompt", "model", "experimentCreatedAtPST",
    "responseIndex", "responseId", "responseText", "tokensIn", "tokensOut", "latencyMs",
    "params", "overallQuality", "scores", "details", "isBestFit"]

  /** U+FEFF, which lets spreadsheet programs detect UTF-8. */
  const Bom: string := "\U{FEFF}"

  /** The column names are distinct. */
  lemma ColsDistinct()
    ensures |Cols| == 16 && NoDup(Cols)
  {
  }

  /** The column names need no quoting. */
  lemma ColsPlain()
    ensures forall i :: 0 <= i < |Cols| ==> !NeedsQuote(Cols[i])
  {
  }

  /** A row of the detailed export (`Record<(typeof COLS)[number], any>`): one field per column. */
  datatype Row = Row(
    experimentId: string,
    experimentTitle: string,
    experimentPrompt: string,
    model: string,
    experimentCreatedAtPst: string,
    responseIndex: nat,
    responseId: string,
    responseText: string,
    tokensIn: Value,
    tokensOut: Value,
    latencyMs: Value,
    params: Value,
    overallQuality: Value,
    scores: Value,
    details: Value,
    isBestFit: bool)

  /** The values of a row in column order, as JavaScript values. */
  function Cells(row: Row): (vs: seq<Value>)
    ensures |vs| == 16
  {
    [ Str(row.experimentId), Str(row.experimentTitle), Str(row.experimentPrompt), Str(row.model),
      Str(row.experimentCreatedAtPst), Num(row.responseIndex as real), Str(row.responseId), Str(row.responseText),
      row.tokensIn, row.tokensOut, row.latencyMs, row.params,
      row.overallQuality, row.scores, row.details, Bool(row.isBestFit) ]
  }

  /** `r[c]`: the field of the row named `c` (the value at the position of `c` in `COLS`), `undefined` for any other name. */
  function At(row: Row, c: string): Value
  {
    if c in Cols then Cells(row)[IndexOf(Cols, c)] else Undefined
  }

  /** Reading the `j`-th column name of a row gives its `j`-th value: the cells follow `COLS`. */
  lemma AtColumn(row: Row, j: nat)
    requires j < |Cols|
    ensures At(row, Cols[j]) == Cells(row)[j]
  {
    ColsDistinct();
    assert Cols[j] !in Cols[..j];
    IndexOfUnique(Cols, Cols[j], j);
  }

  /** The always-quoted cells of the rows: row `i`, column `j` holds `esc(rows[i][cols[j]])`. */
  function Grid(rows: seq<Row>, cols: seq<string>, stringify: Value -> string): (g: seq<seq<string>>)
    ensures |g| == |rows|
    ensures forall i :: 0 <= i < |g| ==> |g[i]| == |cols| && forall j :: 0 <= j < |cols| ==> g[i][j] == Esc(At(rows[i], cols[j]), stringify)
  {
    seq(|rows|, i requires 0 <= i < |rows| => seq(|cols|, j requires 0 <= j < |cols| => Esc(At(rows[i], cols[j]), stringify)))
  }

  /** The texts the cells of `Grid` stand for. */
  function CellTexts(rows: seq<Row>, cols: seq<string>, stringify: Value -> string): (t: seq<seq<string>>)
    ensures |t| == |rows|
    ensures forall i :: 0 <= i < |t| ==> |t[i]| == |cols| && forall j :: 0 <= j < |cols| ==> t[i][j] == EscText(At(rows[i], cols[j]), stringify)
  {
    seq(|rows|, i requires 0 <= i < |rows| => seq(|cols|, j requires 0 <= j < |cols| => EscText(At(rows[i], cols[j]), stringify)))
  }

  /** `toCSV` over the given columns: the BOM, the unquoted header, and the quoted rows; no rows leave a trailing LF. */
  function CsvWith(rows: seq<Row>, cols: seq<string>, stringify: Value -> string): string
  {
    if |rows| == 0 then Bom + Join(cols, ",") + "\n"
    else Bom + Join(cols, ",") + "\n" + Table(Grid(rows, cols, stringify))
  }

  /** `toCSV` of the detailed export. */
  function ToCsv(rows: seq<Row>, stringify: Value -> string): string
  {
    CsvWith(rows, Cols, stringify)
  }

  /** Without rows, the text after the BOM reads back as the header and, after its LF, one empty record. */
  lemma HeaderOnlyReadsBack(cols: seq<string>, stringify: Value -> string)
    requires |cols| > 0
    requires forall i :: 0 <= i < |cols| ==> !NeedsQuote(cols[i])
    ensures StartsWith(CsvWith([], cols, stringify), Bom)
    ensures Records(CsvWith([], cols, stringify)[1..]) == Some([cols, [""]])
  {
    var s := CsvWith([], cols, stringify);
    assert s == Bom + (Line(cols) + "\n");
    assert s[1..] == Line(cols) + "\n";
    assert FieldAt("") == Some(("", ""));
    assert Records("\n"[1..]) == Some([[""]]);
    RecordRoundTrip(cols, cols, "\n", [[""]]);
    assert [cols] + [[""]] == [cols, [""]];
  }

  /** The cells of `Grid` encode the texts of `CellTexts`. */
  lemma GridEncodes(rows: seq<Row>, cols: seq<string>, stringify: Value -> string)
    ensures EncodesAll(Grid(rows, cols, stringify), CellTexts(rows, cols, stringify))
  {
  }

  /** The BOM, a plain header, LF, then a table that reads back as `more`. */
  lemma BomThenTable(cols: seq<string>, table: string, more: seq<seq<string>>)
    requires |cols| > 0
    requires forall i :: 0 <= i < |cols| ==> !NeedsQuote(cols[i])
    requires Records(table) == Some(more)
    ensures StartsWith(Bom + Join(cols, ",") + "\n" + table, Bom)
    ensures Records((Bom + Join(cols, ",") + "\n" + table)[1..]) == Some([cols] + more)
  {
    var s := Bom + Join(cols, ",") + "\n" + table;
    var tail := "\n" + table;
    assert s == Bom + (Line(cols) + tail);
    assert s[1..] == Line(cols) + tail;
    assert tail[1..] == table;
    RecordRoundTrip(cols, cols, tail, more);
  }

  /**
   * With rows, the text after the BOM reads back as the header record and
   * then one record per row, one text per column in column order; no
   * trailing LF is written.
   */
  lemma RowsReadBack(rows: seq<Row>, cols: seq<string>, stringify: Value -> string)
    requires |rows| > 0 && |cols| > 0
    requires forall i :: 0 <= i < |cols| ==> !NeedsQuote(cols[i])
    ensures StartsWith(CsvWith(rows, cols, stringify), Bom)
    ensures Records(CsvWith(rows, cols, stringify)[1..]) == Some([cols] + CellTexts(rows, cols, stringify))
  {
    var g := Grid(rows, cols, stringify);
    GridEncodes(rows, cols, stringify);
    TableRoundTrip(g, CellTexts(rows, cols, stringify));
    BomThenTable(cols, Table(g), CellTexts(rows, cols, stringify));
  }

  /**
   * The detailed export reads back as the sixteen column names and one record
   * per row, whose `j`-th text is that of the row's `j`-th value; without
   * rows, as the names and an empty record.
   */
  lemma ToCsvReadsBack(rows: seq<Row>, stringify: Value -> string)
    ensures StartsWith(ToCsv(rows, stringify), Bom)
    ensures |rows| == 0 ==> Records(ToCsv(rows, stringify)[1..]) == Some([Cols, [""]])
    ensures |rows| > 0 ==> Records(ToCsv(rows, stringify)[1..]) == Some([Cols] + CellTexts(rows, Cols, stringify))
    ensures forall i, j :: 0 <= i < |rows| && 0 <= j < |Cols| ==>
      CellTexts(rows, Cols, stringify)[i][j] == EscText(Cells(rows[i])[j], stringify)
  {
    ColsPlain();
    ColsDistinct();
    if |rows| == 0 {
      HeaderOnlyReadsBack(Cols, stringify);
    } else {
      RowsReadBack(rows, Cols, stringify);
    }
    forall i, j | 0 <= i < |rows| && 0 <= j < |Cols|
      ensures CellTexts(rows, Cols, stringify)[i][j] == EscText(Cells(rows[i])[j], stringify)
    {
      AtColumn(rows[i], j);
    }
  }

  /** `toPST`: the formatted Pacific time with " PST" appended, or "" for a missing timestamp. */
  function ToPst(iso: string, format: string -> string): (r: string)
    ensures iso == "" <==> r == ""
  {
    if iso == "" then "" else format(iso) + " PST"
  }

  /** `x ?? ""` for a number field. */
  function NumOrEmpty(x: Option<real>): Value
  {
    if x.Some? then Num(x.value) else Str("")
  }

  /** `(r as any).text ?? (r as any).content ?? ""`. */
  function ResponseText(r: Response): string
  {
    if r.text.Some? then r.text.value else if r.content.Some? then r.content.value else ""
  }

  /** The row built for the response at position `idx` of its experiment, given `mBy.get(r.id)`. */
  function RowOf(e: Experiment, r: Response, idx: nat, m: Option<Metric>, bestId: Option<string>, createdAtPst: string): Row
  {
    Row(
      e.id, e.title, e.prompt, e.model, createdAtPst,
      idx + 1, r.id, ResponseText(r),
      NumOrEmpty(r.tokensIn), NumOrEmpty(r.tokensOut), NumOrEmpty(r.latencyMs),
      if Nullish(r.params) then Obj([]) else r.params,
      if m.Some? then NumOrEmpty(m.value.overallQuality) else Str(""),
      if m.Some? then ScoresValue(m.value.scores) else Obj([]),
      if m.Some? && !Nullish(m.value.details) then m.value.details else Obj([]),
      bestId == Some(r.id))
  }

  /** What `fetchAllPages` delivered for one experiment: its responses and metric rows. */
  datatype Fetched = Fetched(e: Experiment, responses: seq<Response>, metrics: seq<Metric>)

  /** `mBy.get(r.id)`. */
  function MetricOf(mBy: map<string, Metric>, id: string): Option<Metric>
  {
    if id in mBy then Some(mBy[id]) else None
  }

  /** The rows of one experiment: one per response, in response order. */
  function ExperimentRows(f: Fetched, format: string -> string): (rows: seq<Row>)
    ensures |rows| == |f.responses|
  {
    var mBy := IndexByResponse(f.metrics);
    var pst := ToPst(f.e.createdAt, format);
    var bestId := BestFitId(f.metrics);
    seq(|f.responses|, idx requires 0 <= idx < |f.responses| => RowOf(f.e, f.responses[idx], idx, MetricOf(mBy, f.responses[idx].id), bestId, pst))
  }

  /** `allRows` after the loop: the rows of the experiments, experiment after experiment. */
  function AllRows(fs: seq<Fetched>, format: string -> string): seq<Row>
  {
    if |fs| == 0 then [] else AllRows(fs[..|fs| - 1], format) + ExperimentRows(fs[|fs| - 1], format)
  }

  /** The `idx`-th row of an experiment, and the rows up to it. */
  lemma ExperimentRowAt(f: Fetched, format: string -> string, idx: nat)
    requires idx < |f.responses|
    ensures var rows := ExperimentRows(f, format); var r := f.responses[idx];
      && rows[idx] == RowOf(f.e, r, idx, MetricOf(IndexByResponse(f.metrics), r.id), BestFitId(f.metrics), ToPst(f.e.createdAt, format))
  {
  }

  /** One more experiment adds its rows after those of the earlier ones. */
  lemma AllRowsSnoc(fs: seq<Fetched>, format: string -> string, b: nat)
    requires b < |fs|
    ensures AllRows(fs[..b + 1], format) == AllRows(fs[..b], format) + ExperimentRows(fs[b], format)
  {
    assert fs[..b + 1][..b] == fs[..b];
  }

  /** The total number of responses fetched. */
  function ResponseCount(fs: seq<Fetched>): nat
  {
    if |fs| == 0 then 0 else ResponseCount(fs[..|fs| - 1]) + |fs[|fs| - 1].responses|
  }

  /** Each response yields exactly one row. */
  lemma {:induction false} AllRowsCount(fs: seq<Fetched>, format: string -> string)
    ensures |AllRows(fs, format)| == ResponseCount(fs)
    decreases |fs|
  {
    if |fs| > 0 {
      AllRowsCount(fs[..|fs| - 1], format);
    }
  }

  /**
   * The row of the `i`-th response of an experiment: position `i + 1`, the
   * response's id and text, and the best-fit flag exactly for the response of
   * the first metric row of maximal quality.
   */
  lemma ExperimentRowPosition(f: Fetched, format: string -> string, i: nat)
    requires i < |f.responses|
    ensures var row := ExperimentRows(f, format)[i]; var r := f.responses[i];
      && row.experimentId == f.e.id
      && row.responseIndex == i + 1
      && row.responseId == r.id
      && row.responseText == (if r.text.Some? then r.text.value else if r.content.Some? then r.content.value else "")
      && (row.isBestFit <==> |f.metrics| > 0 && r.id == f.metrics[FirstMaxIndex(f.metrics, Q)].responseId)
  {
    if |f.metrics| > 0 {
      BestFitIdIsTop(f.metrics);
    }
  }

  /**
   * A response without metric rows gets an empty quality, scores and details;
   * otherwise its cells come from its last metric row.
   */
  lemma ExperimentRowMetric(f: Fetched, format: string -> string, i: nat)
    requires i < |f.responses|
    ensures var row := ExperimentRows(f, format)[i]; var r := f.responses[i];
      && ((forall k :: 0 <= k < |f.metrics| ==> f.metrics[k].responseId != r.id) ==>
            row.overallQuality == Str("") && row.scores == Obj([]) && row.details == Obj([]))
      && ((exists k :: 0 <= k < |f.metrics| && f.metrics[k].responseId == r.id) ==>
            var m := f.metrics[LastFor(f.metrics, r.id)];
            && row.overallQuality == NumOrEmpty(m.overallQuality)
            && row.scores == ScoresValue(m.scores)
            && row.details == (if Nullish(m.details) then Obj([]) else m.details))
  {
    var r := f.responses[i];
    if r.id in IndexByResponse(f.metrics) {
      IndexByResponseLastWins(f.metrics, r.id);
    }
  }

  /** The response's own numbers: a missing count or latency becomes "", missing parameters `{}`. */
  lemma ExperimentRowNumbers(f: Fetched, format: string -> string, i: nat)
    requires i < |f.responses|
    ensures var row := ExperimentRows(f, format)[i]; var r := f.responses[i];
      && (r.tokensIn.None? <==> row.tokensIn == Str(""))
      && (r.tokensOut.None? <==> row.tokensOut == Str(""))
      && (r.latencyMs.None? <==> row.latencyMs == Str(""))
      && !Nullish(row.params)
      && (!Nullish(r.params) ==> row.params == r.params)
      && (row.experimentCreatedAtPst == "" <==> f.e.createdAt == "")
  {
  }

  /** The `responses.forEach` of one experiment: one row pushed per response, in order. */
  method PushExperimentRows(allRows: seq<Row>, f: Fetched, format: string -> string) returns (out: seq<Row>)
    ensures out == allRows + ExperimentRows(f, format)
  {
    var mBy := IndexByResponse(f.metrics);
    var pst := ToPst(f.e.createdAt, format);
    var bestId := BestFitId(f.metrics);
    ghost var rows := ExperimentRows(f, format);
    out := allRows;
    for idx := 0 to |f.responses|
      invariant out == allRows + rows[..idx]
    {
      var r := f.responses[idx];
      var row := RowOf(f.e, r, idx, MetricOf(mBy, r.id), bestId, pst);
      ExperimentRowAt(f, format, idx);
      PrefixSnoc(rows, idx);
      out := out + [row];
    }
    assert rows[..|f.responses|] == rows;
  }

  /** `downloadAllDetailedCSV` without the fetching and the download: the rows pushed experiment by experiment, then `toCSV`. */
  method DetailedCsv(fs: seq<Fetched>, format: string -> string, stringify: Value -> string) returns (csv: string)
    ensures csv == ToCsv(AllRows(fs, format), stringify)
  {
    var allRows: seq<Row> := [];
    for b := 0 to |fs|
      invariant allRows == AllRows(fs[..b], format)
    {
      AllRowsSnoc(fs, format, b);
      allRows := PushExperimentRows(allRows, fs[b], format);
    }
    assert fs[..|fs|] == fs;
    csv := ToCsv(allRows, stringify);
  }
}
