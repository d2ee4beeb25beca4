/**
 * CSV cell and table text shared by the three exporters: the quoting of
 * section 2, rules 6 and 7, of RFC 4180 (a field enclosed in double quotes,
 * an inner double quote written twice), with records separated by LF instead
 * of CRLF. A reader of that format (`Records`) recovers the cell texts from
 * the table text, which is how the round trips below are stated.
 */
module CsvText {
  import opened Wrappers
  import opened Collections
  import opened Domain

  /** `s.replace(/"/g, '""')`. */
  function DoubleQuotes(s: string): (r: string)
    ensures |r| >= |s|
  {
    if |s| == 0 then "" else (if s[0] == '"' then "\"\"" else [s[0]]) + DoubleQuotes(s[1..])
  }

  /** `"${s.replace(/"/g, '""')}"`: the field enclosed in double quotes. */
  function Quote(s: string): (r: string)
    ensures |r| >= 2 && r[0] == '"' && r[|r| - 1] == '"'
  {
    "\"" + DoubleQuotes(s) + "\""
  }

  /** `/[",\n]/.test(s)`: a carriage return alone does not count. */
  predicate NeedsQuote(s: string)
  {
    '"' in s || ',' in s || '\n' in s
  }

  /** The conditional quoting of `src/lib/csv.ts`: quoted only when needed, verbatim otherwise. */
  function Field(s: string): (r: string)
    ensures NeedsQuote(s) ==> r == Quote(s)
    ensures !NeedsQuote(s) ==> r == s
  {
    if NeedsQuote(s) then Quote(s) else s
  }

  /** The text that the always-quoting exporters put in a cell: a string as is, anything else as JSON (`x ?? ""` first). */
  function EscText(x: Value, stringify: Value -> string): string
  {
    if x.Str? then x.s else stringify(if Nullish(x) then Str("") else x)
  }

  /** `esc` of the two experiment exporters. */
  function Esc(x: Value, stringify: Value -> string): string
  {
    Quote(EscText(x, stringify))
  }

  /** One record: the cells joined by commas. */
  function Line(cells: seq<string>): string
  {
    Join(cells, ",")
  }

  /** The records, one per line, joined by LF. */
  function Lines(rows: seq<seq<string>>): (r: seq<string>)
    ensures |r| == |rows|
    ensures forall i :: 0 <= i < |rows| ==> r[i] == Line(rows[i])
  {
    seq(|rows|, i requires 0 <= i < |rows| => Line(rows[i]))
  }

  function Table(rows: seq<seq<string>>): string
  {
    Join(Lines(rows), "\n")
  }

  /* A reader for the format: quoted fields with doubled quotes, or bare fields without `"`, `,` and LF. */

  /** The rest of a quoted field, after its opening quote: the field text and what follows the closing quote. */
  function Inside(s: string): (r: Option<(string, string)>)
    ensures r.Some? ==> |r.value.1| < |s|
    decreases |s|
  {
    if |s| == 0 then None
    else if s[0] == '"' then
      if |s| > 1 && s[1] == '"' then
        match Inside(s[2..])
        case None => None
        case Some(p) => Some(("\"" + p.0, p.1))
      else Some(("", s[1..]))
    else
      match Inside(s[1..])
      case None => None
      case Some(p) => Some(([s[0]] + p.0, p.1))
  }

  predicate Stop(c: char)
  {
    c == '"' || c == ',' || c == '\n'
  }

  /** A bare field: the characters up to the first quote, comma or LF. */
  function Bare(s: string): (r: (string, string))
    ensures |r.1| <= |s|
    ensures |r.1| == 0 || Stop(r.1[0])
  {
    if |s| == 0 || Stop(s[0]) then ("", s)
    else
      var p := Bare(s[1..]);
      ([s[0]] + p.0, p.1)
  }

  function FieldAt(s: string): (r: Option<(string, string)>)
    ensures r.Some? ==> |r.value.1| <= |s|
  {
    if |s| > 0 && s[0] == '"' then Inside(s[1..]) else Some(Bare(s))
  }

  /** The records of a table text, each a non-empty list of field texts; `None` for malformed text. */
  function Records(s: string): (r: Option<seq<seq<string>>>)
    ensures r.Some? ==> |r.value| > 0 && forall i :: 0 <= i < |r.value| ==> |r.value[i]| > 0
    decreases |s|
  {
    match FieldAt(s)
    case None => None
    case Some(p) =>
      var (f, rest) := p;
      if |rest| == 0 then Some([[f]])
      else if rest[0] == ',' then
        match Records(rest[1..])
        case None => None
        case Some(rows) => Some([[f] + rows[0]] + rows[1..])
      else if rest[0] == '\n' then
        match Records(rest[1..])
        case None => None
        case Some(rows) => Some([[f]] + rows)
      else None
  }

  /** What may follow a field: the end of the text, a comma or a line feed. */
  predicate FieldEnd(rest: string)
  {
    |rest| == 0 || rest[0] == ',' || rest[0] == '\n'
  }

  /** The doubled text followed by the closing quote reads back as the text. */
  lemma {:induction false} InsideDoubled(x: string, rest: string)
    requires |rest| == 0 || rest[0] != '"'
    ensures Inside(DoubleQuotes(x) + "\"" + rest) == Some((x, rest))
  {
    var d := DoubleQuotes(x);
    if |x| == 0 {
      assert d + "\"" + rest == "\"" + rest;
    } else {
      InsideDoubled(x[1..], rest);
      var tail := DoubleQuotes(x[1..]) + "\"" + rest;
      if x[0] == '"' {
        assert d + "\"" + rest == "\"\"" + tail;
        assert ("\"\"" + tail)[2..] == tail;
      } else {
        assert d + "\"" + rest == [x[0]] + tail;
        assert ([x[0]] + tail)[1..] == tail;
      }
      assert [x[0]] + x[1..] == x;
    }
  }

  /** A quoted field reads back as its text. */
  lemma QuotedField(x: string, rest: string)
    requires FieldEnd(rest)
    ensures FieldAt(Quote(x) + rest) == Some((x, rest))
  {
    InsideDoubled(x, rest);
    assert (Quote(x) + rest)[1..] == DoubleQuotes(x) + "\"" + rest;
  }

  /** A field without a quote, comma or LF reads back verbatim. */
  lemma {:induction false} BareField(x: string, rest: string)
    requires !NeedsQuote(x) && FieldEnd(rest)
    ensures FieldAt(x + rest) == Some((x, rest))
  {
    if |x| == 0 {
      assert x + rest == rest;
    } else {
      assert !Stop(x[0]) by { assert x[0] in x; }
      assert (x + rest)[1..] == x[1..] + rest;
      assert !NeedsQuote(x[1..]) by {
        forall c | c in x[1..] ensures c in x {
        }
      }
      BareField(x[1..], rest);
      assert Bare(x[1..] + rest) == (x[1..], rest);
      assert [x[0]] + x[1..] == x;
    }
  }

  /** `cell` is written for the text `text`: enclosed in quotes, or verbatim when it needs no quotes. */
  predicate Encodes(cell: string, text: string)
  {
    cell == Quote(text) || (cell == text && !NeedsQuote(text))
  }

  lemma CellRoundTrip(cell: string, text: string, rest: string)
    requires Encodes(cell, text) && FieldEnd(rest)
    ensures FieldAt(cell + rest) == Some((text, rest))
  {
    if cell == Quote(text) {
      QuotedField(text, rest);
    } else {
      BareField(text, rest);
    }
  }

  /** Every cell of `cells` encodes the text at the same place in `texts`. */
  predicate EncodesAll(cells: seq<seq<string>>, texts: seq<seq<string>>)
  {
    && |cells| == |texts|
    && forall i :: 0 <= i < |cells| ==>
         |cells[i]| == |texts[i]| && forall j :: 0 <= j < |cells[i]| ==> Encodes(cells[i][j], texts[i][j])
  }

  /** A plain header, LF, then a table that reads back as `more`. */
  lemma HeaderThenTable(cols: seq<string>, table: string, more: seq<seq<string>>)
    requires |cols| > 0
    requires forall j :: 0 <= j < |cols| ==> !NeedsQuote(cols[j])
    requires Records(table) == Some(more)
    ensures Records(Join(cols, ",") + "\n" + table) == Some([cols] + more)
  {
    var tail := "\n" + table;
    assert Join(cols, ",") + "\n" + table == Line(cols) + tail;
    assert tail[1..] == table;
    RecordRoundTrip(cols, cols, tail, more);
  }

  /** A line of several cells is its first cell, a comma and the line of the rest. */
  lemma LineCons(cells: seq<string>, tail: string)
    requires |cells| > 1
    ensures Line(cells) + tail == cells[0] + ("," + (Line(cells[1..]) + tail))
  {
  }

  /** The last cell of a record, followed by the end of the text or by LF and further records. */
  lemma LastCell(cell: string, text: string, tail: string, more: seq<seq<string>>)
    requires Encodes(cell, text)
    requires (tail == "" && more == []) || (|tail| > 0 && tail[0] == '\n' && Records(tail[1..]) == Some(more))
    ensures Records(cell + tail) == Some([[text]] + more)
  {
    CellRoundTrip(cell, text, tail);
    if tail == "" {
      assert [[text]] + more == [[text]];
    }
  }

  /** A cell followed by a comma and the rest of its record. */
  lemma LeadingCell(cell: string, text: string, rest: string, row: seq<string>, more: seq<seq<string>>)
    requires Encodes(cell, text)
    requires Records(rest) == Some([row] + more)
    ensures Records(cell + ("," + rest)) == Some([[text] + row] + more)
  {
    CellRoundTrip(cell, text, "," + rest);
    assert ("," + rest)[1..] == rest;
  }

  /** One record followed by the end of the text or by LF and further records. */
  lemma {:induction false} RecordRoundTrip(cells: seq<string>, texts: seq<string>, tail: string, more: seq<seq<string>>)
    requires |cells| == |texts| > 0
    requires forall j :: 0 <= j < |cells| ==> Encodes(cells[j], texts[j])
    requires (tail == "" && more == []) || (|tail| > 0 && tail[0] == '\n' && Records(tail[1..]) == Some(more))
    ensures Records(Line(cells) + tail) == Some([texts] + more)
    decreases |cells|
  {
    if |cells| == 1 {
      assert Line(cells) == cells[0];
      LastCell(cells[0], texts[0], tail, more);
      assert [texts[0]] == texts;
    } else {
      RecordRoundTrip(cells[1..], texts[1..], tail, more);
      LineCons(cells, tail);
      LeadingCell(cells[0], texts[0], Line(cells[1..]) + tail, texts[1..], more);
      assert [texts[0]] + texts[1..] == texts;
    }
  }

  /** The table text reads back as the cell texts it was written from. */
  lemma {:induction false} TableRoundTrip(cells: seq<seq<string>>, texts: seq<seq<string>>)
    requires |cells| > 0 && EncodesAll(cells, texts)
    requires forall i :: 0 <= i < |cells| ==> |cells[i]| > 0
    ensures Records(Table(cells)) == Some(texts)
    decreases |cells|
  {
    if |cells| == 1 {
      RecordRoundTrip(cells[0], texts[0], "", []);
      assert Lines(cells) == [Line(cells[0])];
      assert Table(cells) == Line(cells[0]);
      assert Line(cells[0]) + "" == Line(cells[0]);
      assert [texts[0]] + [] == texts;
    } else {
      var rest := Table(cells[1..]);
      assert EncodesAll(cells[1..], texts[1..]) by {
        assert forall i :: 0 <= i < |cells| - 1 ==> cells[1..][i] == cells[i + 1] && texts[1..][i] == texts[i + 1];
      }
      TableRoundTrip(cells[1..], texts[1..]);
      assert Lines(cells)[1..] == Lines(cells[1..]);
      assert Table(cells) == Line(cells[0]) + ("\n" + rest);
      assert ("\n" + rest)[1..] == rest;
      RecordRoundTrip(cells[0], texts[0], "\n" + rest, texts[1..]);
      assert [texts[0]] + texts[1..] == texts;
    }
  }

  /** Quoting is reversible, so two different texts never give the same cell. */
  lemma QuoteInjective(a: string, b: string)
    requires Quote(a) == Quote(b)
    ensures a == b
  {
    QuotedField(a, "");
    QuotedField(b, "");
    assert Quote(a) + "" == Quote(b) + "";
  }

  /** A carriage return on its own is written verbatim. */
  lemma CarriageReturnVerbatim()
    ensures Field("a\rb") == "a\rb"
  {
    assert !NeedsQuote("a\rb");
  }
}
