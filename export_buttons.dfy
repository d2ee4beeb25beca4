/**
 * The per-experiment export: the rows of one experiment as objects in their
 * own key order, written as CSV whose header is the union of the rows' keys
 * and whose cells are always quoted.
 */
module ExportButtons {
  import opened Wrappers
  import opened Collections
  import opened Domain
  import opened StableSort
  import opened BestPick
  import opened CsvText
  import ExportCenter

  /** A row object: its properties in insertion order. */
  type Record = seq<(string, Value)>

  /** `headers`: the keys of all rows, each once, in first-seen order. */
  function Headers(rows: seq<Record>): seq<string>
  {
    KeyUnion(rows)
  }

  /** The quoted cells of every row under `headers`: `esc((row as any)[h])`. */
  function CellGrid(rows: seq<Record>, headers: seq<string>, stringify: Value -> string): (g: seq<seq<string>>)
    ensures |g| == |rows|
    ensures forall i :: 0 <= i < |g| ==> |g[i]| == |headers| && forall j :: 0 <= j < |headers| ==> g[i][j] == Esc(Get(Obj(rows[i]), headers[j]), stringify)
  {
    seq(|rows|, i requires 0 <= i < |rows| => seq(|headers|, j requires 0 <= j < |headers| => Esc(Get(Obj(rows[i]), headers[j]), stringify)))
  }

  /** The texts those cells stand for. */
  function CellTexts(rows: seq<Record>, headers: seq<string>, stringify: Value -> string): (t: seq<seq<string>>)
    ensures |t| == |rows|
    ensures forall i :: 0 <= i < |t| ==> |t[i]| == |headers| && forall j :: 0 <= j < |headers| ==> t[i][j] == EscText(Get(Obj(rows[i]), headers[j]), stringify)
  {
    seq(|rows|, i requires 0 <= i < |rows| => seq(|headers|, j requires 0 <= j < |headers| => EscText(Get(Obj(rows[i]), headers[j]), stringify)))
  }

  /** The line of one row: one quoted cell per header, in header order. */
  function RowLine(row: Record, headers: seq<string>, stringify: Value -> string): string
  {
    Line(seq(|headers|, j requires 0 <= j < |headers| => Esc(Get(Obj(row), headers[j]), stringify)))
  }

  /** The row lines, in row order. */
  function BodyLines(rows: seq<Record>, headers: seq<string>, stringify: Value -> string): (r: seq<string>)
    ensures |r| == |rows|
    ensures forall i :: 0 <= i < |rows| ==> r[i] == RowLine(rows[i], headers, stringify)
  {
    seq(|rows|, i requires 0 <= i < |rows| => RowLine(rows[i], headers, stringify))
  }

  /** The text `toCSV` returns: "" without rows, otherwise the header line and the row lines joined by LF. */
  function CsvOf(rows: seq<Record>, stringify: Value -> string): (r: string)
    ensures r == "" <==> |rows| == 0
  {
    if |rows| == 0 then ""
    else
      var headers := Headers(rows);
      var parts := [Join(headers, ",")] + BodyLines(rows, headers, stringify);
      assert Join(parts, "\n") == parts[0] + "\n" + Join(parts[1..], "\n");
      Join(parts, "\n")
  }

  /** `toCSV`: collects the headers, then pushes one line per row. */
  method ToCsv(rows: seq<Record>, stringify: Value -> string) returns (csv: string)
    ensures csv == CsvOf(rows, stringify)
  {
    if |rows| == 0 {
      return "";
    }
    var headers := KeyUnion(rows);
    var lines := [Join(headers, ",")];
    for i := 0 to |rows|
      invariant lines == [Join(headers, ",")] + BodyLines(rows[..i], headers, stringify)
    {
      lines := lines + [RowLine(rows[i], headers, stringify)];
      assert BodyLines(rows[..i + 1], headers, stringify) == BodyLines(rows[..i], headers, stringify) + [RowLine(rows[i], headers, stringify)];
    }
    assert rows[..|rows|] == rows;
    csv := Join(lines, "\n");
  }

  /** The row lines are the lines of the cell grid. */
  lemma BodyIsTable(rows: seq<Record>, headers: seq<string>, stringify: Value -> string)
    ensures BodyLines(rows, headers, stringify) == Lines(CellGrid(rows, headers, stringify))
  {
    var g := CellGrid(rows, headers, stringify);
    forall i | 0 <= i < |rows| ensures RowLine(rows[i], headers, stringify) == Line(g[i]) {
      assert seq(|headers|, j requires 0 <= j < |headers| => Esc(Get(Obj(rows[i]), headers[j]), stringify)) == g[i];
    }
  }

  /** Each cell encodes the text at the same place. */
  lemma GridEncodes(rows: seq<Record>, headers: seq<string>, stringify: Value -> string)
    ensures EncodesAll(CellGrid(rows, headers, stringify), CellTexts(rows, headers, stringify))
  {
  }

  /** The header line followed by the row lines reads back as the headers and the cell texts. */
  lemma LinesReadBack(rows: seq<Record>, headers: seq<string>, stringify: Value -> string)
    requires |rows| > 0 && |headers| > 0
    requires forall j :: 0 <= j < |headers| ==> !NeedsQuote(headers[j])
    ensures Records(Join([Join(headers, ",")] + BodyLines(rows, headers, stringify), "\n")) == Some([headers] + CellTexts(rows, headers, stringify))
  {
    var g := CellGrid(rows, headers, stringify);
    var t := CellTexts(rows, headers, stringify);
    var body := BodyLines(rows, headers, stringify);
    BodyIsTable(rows, headers, stringify);
    GridEncodes(rows, headers, stringify);
    TableRoundTrip(g, t);
    JoinHead(Join(headers, ","), body, "\n");
    assert Join(body, "\n") == Table(g);
    HeaderThenTable(headers, Table(g), t);
  }

  /**
   * With rows and plain, non-empty headers, the text reads back as the header
   * record and one record per row, holding for each header the text of that
   * property of the row; so there are exactly rows + 1 lines.
   */
  lemma CsvReadsBack(rows: seq<Record>, stringify: Value -> string)
    requires |rows| > 0 && |Headers(rows)| > 0
    requires forall j :: 0 <= j < |Headers(rows)| ==> !NeedsQuote(Headers(rows)[j])
    ensures Records(CsvOf(rows, stringify)) == Some([Headers(rows)] + CellTexts(rows, Headers(rows), stringify))
  {
    LinesReadBack(rows, Headers(rows), stringify);
  }

  /** A property a row lacks is written as the quoted JSON of the empty string. */
  lemma MissingKeyCell(row: Record, h: string, stringify: Value -> string)
    requires h !in Keys(row)
    ensures Esc(Get(Obj(row), h), stringify) == Quote(stringify(Str("")))
  {
  }

  /** The keys of a per-experiment row, in the order the object literal lists them. */
  const RowKeys: seq<string> := [
    "experimentId", "experimentTitle", "experimentPrompt", "model", "experimentCreatedAtPST",
    "responseIndex", "responseId", "responseText", "latencyMs", "tokensIn", "tokensOut",
    "params", "overallQuality", "scores", "details", "isBestFit"]

  lemma RowKeysDistinct()
    ensures |RowKeys| == 16 && NoDup(RowKeys)
  {
  }

  /** The values of the row of the response at position `idx`, in key order. */
  function RowValues(e: Experiment, r: Response, idx: nat, m: Option<Metric>, bestId: Option<string>, createdAtPst: string): (vs: seq<Value>)
    ensures |vs| == 16
  {
    [ Str(e.id), Str(e.title), Str(e.prompt), Str(e.model), Str(createdAtPst),
      Num((idx + 1) as real), Str(r.id), Str(r.text.GetOr("")),
      ExportCenter.NumOrEmpty(r.latencyMs), ExportCenter.NumOrEmpty(r.tokensIn), ExportCenter.NumOrEmpty(r.tokensOut),
      if Nullish(r.params) then Obj([]) else r.params,
      if m.Some? then ExportCenter.NumOrEmpty(m.value.overallQuality) else Str(""),
      if m.Some? then ScoresValue(m.value.scores) else Obj([]),
      if m.Some? && !Nullish(m.value.details) then m.value.details else Obj([]),
      Bool(bestId == Some(r.id)) ]
  }

  /** The row of the response at position `idx`, given `mBy.get(r.id)`, the best id and the formatted creation time. */
  function RowOf(e: Experiment, r: Response, idx: nat, m: Option<Metric>, bestId: Option<string>, createdAtPst: string): (row: Record)
    ensures Keys(row) == RowKeys
  {
    RowKeysDistinct();
    Zip(RowKeys, RowValues(e, r, idx, m, bestId, createdAtPst))
  }

  /** `rows`: one row per response, in response order. */
  function Rows(e: Experiment, responses: seq<Response>, metrics: seq<Metric>, format: string -> string): (rows: seq<Record>)
    ensures |rows| == |responses|
    ensures forall i :: 0 <= i < |rows| ==> Keys(rows[i]) == RowKeys
  {
    var mBy := IndexByResponse(metrics);
    var pst := ExportCenter.ToPst(e.createdAt, format);
    var bestId := BestFitId(metrics);
    seq(|responses|, idx requires 0 <= idx < |responses| => RowOf(e, responses[idx], idx, ExportCenter.MetricOf(mBy, responses[idx].id), bestId, pst))
  }

  /** With at least one response the header is exactly the row keys, in the object literal's order. */
  lemma RowsHeader(e: Experiment, responses: seq<Response>, metrics: seq<Metric>, format: string -> string)
    requires |responses| > 0
    ensures Headers(Rows(e, responses, metrics, format)) == RowKeys
  {
    RowKeysDistinct();
    KeyUnionOfUniform(Rows(e, responses, metrics, format), RowKeys);
  }

  /** Where `latencyMs`, `tokensIn` and `tokensOut` sit among the detailed export's columns. */
  function DetailedColumn(k: nat): nat
    requires k < 16
  {
    if k == 8 then 10 else if k == 9 then 8 else if k == 10 then 9 else k
  }

  /** The keys of a per-experiment row are the detailed export's columns, with the three numbers reordered. */
  lemma KeysAreColumns(k: nat)
    requires k < |RowKeys|
    ensures RowKeys[k] == ExportCenter.Cols[DetailedColumn(k)]
  {
  }

  /** The values agree with the detailed row's cells at the matching columns, but for a text given only as `content`. */
  lemma ValuesAreCells(e: Experiment, r: Response, idx: nat, m: Option<Metric>, bestId: Option<string>, createdAtPst: string, k: nat)
    requires k < 16
    requires r.text.Some? || r.content.None?
    ensures RowValues(e, r, idx, m, bestId, createdAtPst)[k] ==
      ExportCenter.Cells(ExportCenter.RowOf(e, r, idx, m, bestId, createdAtPst))[DetailedColumn(k)]
  {
  }

  /**
   * A per-experiment row holds, under each of its keys, what the detailed row
   * of the same response holds under that column, unless the response has
   * only a `content` text, which this export leaves empty.
   */
  lemma SameCellsAsDetailed(e: Experiment, r: Response, idx: nat, m: Option<Metric>, bestId: Option<string>, createdAtPst: string, k: nat)
    requires k < |RowKeys|
    requires r.text.Some? || r.content.None?
    ensures Get(Obj(RowOf(e, r, idx, m, bestId, createdAtPst)), RowKeys[k]) ==
      ExportCenter.At(ExportCenter.RowOf(e, r, idx, m, bestId, createdAtPst), RowKeys[k])
  {
    RowKeysDistinct();
    LookupZip(RowKeys, RowValues(e, r, idx, m, bestId, createdAtPst), k);
    KeysAreColumns(k);
    ExportCenter.ColsDistinct();
    ExportCenter.AtColumn(ExportCenter.RowOf(e, r, idx, m, bestId, createdAtPst), DetailedColumn(k));
    ValuesAreCells(e, r, idx, m, bestId, createdAtPst, k);
  }
}
