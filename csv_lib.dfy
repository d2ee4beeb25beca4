/**
 * The generic CSV text of `exportCSV` (`src/lib/csv.ts`): the columns are the
 * union of the rows' keys, a cell is quoted only when it holds a double quote,
 * a comma or a line feed, and the header and the lines are joined by LF.
 */
module CsvLib {
  import opened Wrappers
  import opened Collections
  import opened Domain
  import opened CsvText

  /** A row object: its properties in insertion order. */
  type Record = seq<(string, Value)>

  /** `cols`: every key of every row, each once, in first-seen order. */
  function Columns(rows: seq<Record>): seq<string>
  {
    KeyUnion(rows)
  }

  /** `str`: nothing for `null` and `undefined`, JSON for objects and arrays, `String(v)` for the rest. */
  function CellText(v: Value, stringify: Value -> string, str: Value -> string): (t: string)
    ensures Nullish(v) ==> t == ""
  {
    match v
    case Undefined => ""
    case Null => ""
    case Obj(_) => stringify(v)
    case Arr(_) => stringify(v)
    case Str(s) => s
    case _ => str(v)
  }

  /** The cell written for a value: the text, quoted only when it needs quoting. */
  function Cell(v: Value, stringify: Value -> string, str: Value -> string): string
  {
    Field(CellText(v, stringify, str))
  }

  /** A cell is quoted exactly when its text holds `"`, `,` or LF; otherwise it is the text itself. */
  lemma CellQuoting(v: Value, stringify: Value -> string, str: Value -> string)
    ensures var t := CellText(v, stringify, str);
      && (Cell(v, stringify, str) == Quote(t) <==> NeedsQuote(t))
      && (!NeedsQuote(t) ==> Cell(v, stringify, str) == t)
      && Encodes(Cell(v, stringify, str), t)
  {
    var t := CellText(v, stringify, str);
    assert |Quote(t)| >= |t| + 2 by {
      assert Quote(t) == "\"" + DoubleQuotes(t) + "\"";
    }
  }

  /** The cells of every row: row `i`, column `j` holds the cell of `rows[i][cols[j]]`. */
  function CellGrid(rows: seq<Record>, cols: seq<string>, stringify: Value -> string, str: Value -> string): (g: seq<seq<string>>)
    ensures |g| == |rows|
    ensures forall i :: 0 <= i < |g| ==> |g[i]| == |cols| && forall j :: 0 <= j < |cols| ==> g[i][j] == Cell(Get(Obj(rows[i]), cols[j]), stringify, str)
  {
    seq(|rows|, i requires 0 <= i < |rows| => seq(|cols|, j requires 0 <= j < |cols| => Cell(Get(Obj(rows[i]), cols[j]), stringify, str)))
  }

  /** The texts those cells stand for. */
  function CellTexts(rows: seq<Record>, cols: seq<string>, stringify: Value -> string, str: Value -> string): (t: seq<seq<string>>)
    ensures |t| == |rows|
    ensures forall i :: 0 <= i < |t| ==> |t[i]| == |cols| && forall j :: 0 <= j < |cols| ==> t[i][j] == CellText(Get(Obj(rows[i]), cols[j]), stringify, str)
  {
    seq(|rows|, i requires 0 <= i < |rows| => seq(|cols|, j requires 0 <= j < |cols| => CellText(Get(Obj(rows[i]), cols[j]), stringify, str)))
  }

  /** The text over the given columns: the unquoted header, LF, then the row lines joined by LF. */
  function CsvWith(rows: seq<Record>, cols: seq<string>, stringify: Value -> string, str: Value -> string): string
  {
    Join(cols, ",") + "\n" + Table(CellGrid(rows, cols, stringify, str))
  }

  /** The text `exportCSV` downloads. */
  function Csv(rows: seq<Record>, stringify: Value -> string, str: Value -> string): string
  {
    CsvWith(rows, Columns(rows), stringify, str)
  }

  /** No rows give no columns and no lines: the text is a single LF. */
  lemma EmptyIsNewline(stringify: Value -> string, str: Value -> string)
    ensures Csv([], stringify, str) == "\n"
  {
    assert Columns([]) == [] by {
      forall k ensures k !in Columns([]) {
      }
    }
  }

  /** Each cell encodes the text at the same place. */
  lemma GridEncodes(rows: seq<Record>, cols: seq<string>, stringify: Value -> string, str: Value -> string)
    ensures EncodesAll(CellGrid(rows, cols, stringify, str), CellTexts(rows, cols, stringify, str))
  {
    var g := CellGrid(rows, cols, stringify, str);
    var t := CellTexts(rows, cols, stringify, str);
    forall i, j | 0 <= i < |rows| && 0 <= j < |cols| ensures Encodes(g[i][j], t[i][j]) {
      CellQuoting(Get(Obj(rows[i]), cols[j]), stringify, str);
    }
  }

  /**
   * With rows and plain, non-empty columns, the text reads back as the header
   * and one record per row with one text per column, in column order.
   */
  lemma RowsReadBack(rows: seq<Record>, cols: seq<string>, stringify: Value -> string, str: Value -> string)
    requires |rows| > 0 && |cols| > 0
    requires forall j :: 0 <= j < |cols| ==> !NeedsQuote(cols[j])
    ensures Records(CsvWith(rows, cols, stringify, str)) == Some([cols] + CellTexts(rows, cols, stringify, str))
  {
    var g := CellGrid(rows, cols, stringify, str);
    GridEncodes(rows, cols, stringify, str);
    TableRoundTrip(g, CellTexts(rows, cols, stringify, str));
    HeaderThenTable(cols, Table(g), CellTexts(rows, cols, stringify, str));
  }

  /**
   * `exportCSV` reads back as its columns and, per row, the text of each
   * column's value; a key the row lacks reads back as the empty text.
   */
  lemma CsvReadsBack(rows: seq<Record>, stringify: Value -> string, str: Value -> string)
    requires |rows| > 0 && |Columns(rows)| > 0
    requires forall j :: 0 <= j < |Columns(rows)| ==> !NeedsQuote(Columns(rows)[j])
    ensures Records(Csv(rows, stringify, str)) == Some([Columns(rows)] + CellTexts(rows, Columns(rows), stringify, str))
    ensures forall i, j :: 0 <= i < |rows| && 0 <= j < |Columns(rows)| && Columns(rows)[j] !in Keys(rows[i]) ==>
      CellTexts(rows, Columns(rows), stringify, str)[i][j] == ""
  {
    RowsReadBack(rows, Columns(rows), stringify, str);
  }
}
