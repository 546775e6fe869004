/**
 * The CSV text of the excel download (`handleExcelDownload`): a byte-order
 * mark, the column labels joined by commas, then one line per data row whose
 * fields are the cells' display texts, each wrapped in double quotes with
 * inner quotes doubled. A reader for the quoted lines shows the encoding
 * loses nothing.
 */
module CsvExport {
  import opened JsValues
  import Seqs
  import opened GridConfig
  import opened GridRender

  const Bom: char := '\U{FEFF}'

  /** `s.replace(/"/g, '""')`. */
  function Escape(s: string): (r: string)
    ensures |r| >= |s|
    decreases |s|
  {
    if s == [] then [] else EscapeChar(s[0]) + Escape(s[1..])
  }

  /** A quote is doubled; any other character stands for itself. */
  function EscapeChar(ch: char): (r: string)
    ensures ch == '"' ==> r == "\"\""
    ensures ch != '"' ==> r == [ch]
  {
    if ch == '"' then "\"\"" else [ch]
  }

  function Quote(s: string): string {
    "\"" + Escape(s) + "\""
  }

  function QuoteAll(cells: seq<string>): (r: seq<string>)
    ensures |r| == |cells|
    ensures forall i :: 0 <= i < |cells| ==> r[i] == Quote(cells[i])
  {
    seq(|cells|, i requires 0 <= i < |cells| => Quote(cells[i]))
  }

  /** One CSV line: the quoted cells joined by commas. */
  function EncodeRow(cells: seq<string>): string {
    Seqs.Join(QuoteAll(cells), ",")
  }

  function FieldIs(field: string): ColModel -> bool {
    (col: ColModel) => col.field == field
  }

  /** The text of `field` in `row`: formatted as the first column with that
      field says, `''` when there is no text. */
  function CellText(cols: seq<ColModel>, row: Row, field: string, formatDate: Value -> string): string {
    var j := Seqs.FindFirst(FieldIs(field), cols);
    if j < |cols| then OrElse(DisplayText(cols[j], row, formatDate), "")
    else OrElse(OptToString(Get(row, field)), "")
  }

  /** The cells of one data row, in column order. */
  function RowCells(cols: seq<ColModel>, row: Row, formatDate: Value -> string): (cells: seq<string>)
    ensures |cells| == |cols|
    ensures forall i :: 0 <= i < |cols| ==> cells[i] == CellText(cols, row, cols[i].field, formatDate)
  {
    seq(|cols|, i requires 0 <= i < |cols| => CellText(cols, row, cols[i].field, formatDate))
  }

  function Captions(cols: seq<ColModel>): (r: seq<string>)
    ensures |r| == |cols|
    ensures forall i :: 0 <= i < |cols| ==> r[i] == cols[i].caption
  {
    seq(|cols|, i requires 0 <= i < |cols| => cols[i].caption)
  }

  function RowLines(cols: seq<ColModel>, rows: seq<Row>, formatDate: Value -> string): (lines: seq<string>)
    ensures |lines| == |rows|
    ensures forall i :: 0 <= i < |rows| ==> lines[i] == EncodeRow(RowCells(cols, rows[i], formatDate))
  {
    seq(|rows|, i requires 0 <= i < |rows| => EncodeRow(RowCells(cols, rows[i], formatDate)))
  }

  /** The download text; `None` (an alert, no file) for an empty page. The
      labels are joined without quoting. */
  function BuildCsv(cols: seq<ColModel>, rows: seq<Row>, formatDate: Value -> string): (r: Option<string>)
    ensures r.None? <==> rows == []
  {
    if rows == [] then None
    else Some([Bom] + Seqs.Join([Seqs.Join(Captions(cols), ",")] + RowLines(cols, rows, formatDate), "\n"))
  }

  // ---------------------------------------------------------------------------
  // Reading the lines back
  // ---------------------------------------------------------------------------

  /** What a reader took from the text: the field text and the position
      just past it. */
  datatype FieldRead = NoField | Field(text: string, next: nat)

  datatype LineRead = NoLine | Line(cells: seq<string>, next: nat)

  /** Reads a quoted field's body from position `i`, just after its opening
      quote: a doubled quote is one quote and a single quote ends the field. */
  function Unquote(s: string, i: nat): (r: FieldRead)
    ensures r.Field? ==> i < r.next <= |s|
    decreases |s| - i
  {
    if i >= |s| then NoField
    else if s[i] == '"' then
      if i + 1 < |s| && s[i + 1] == '"' then
        var more := Unquote(s, i + 2);
        if more.NoField? then NoField else Field("\"" + more.text, more.next)
      else Field([], i + 1)
    else
      var more := Unquote(s, i + 1);
      if more.NoField? then NoField else Field([s[i]] + more.text, more.next)
  }

  /** Reads one quoted field starting at position `i`. */
  function DecodeField(s: string, i: nat): (r: FieldRead)
    ensures r.Field? ==> i < r.next <= |s|
  {
    if i < |s| && s[i] == '"' then Unquote(s, i + 1) else NoField
  }

  /** Reads comma-separated quoted fields up to a line end or the end of text. */
  function DecodeRow(s: string, i: nat): (r: LineRead)
    ensures r.Line? ==> i < r.next <= |s|
    decreases |s| - i
  {
    var field := DecodeField(s, i);
    if field.NoField? then NoLine
    else if field.next < |s| && s[field.next] == ',' then
      var more := DecodeRow(s, field.next + 1);
      if more.NoLine? then NoLine
      else Line([field.text] + more.cells, more.next)
    else Line([field.text], field.next)
  }

  /** Reads newline-separated lines of quoted fields up to the end of text. */
  function DecodeRows(s: string, i: nat): Option<seq<seq<string>>>
    decreases |s| - i
  {
    var line := DecodeRow(s, i);
    if line.NoLine? then None
    else if line.next == |s| then Some([line.cells])
    else if s[line.next] == '\n' then
      var more := DecodeRows(s, line.next + 1);
      if more.None? then None else Some([line.cells] + more.value)
    else None
  }

  /** `t` occurs in `s` at position `i`. */
  predicate At(s: string, i: nat, t: string)
    decreases |t|
  {
    if t == [] then i <= |s| else i < |s| && s[i] == t[0] && At(s, i + 1, t[1..])
  }

  lemma {:induction false} AtSplit(s: string, i: nat, a: string, b: string)
    requires At(s, i, a + b)
    ensures At(s, i, a) && At(s, i + |a|, b)
    decreases |a|
  {
    if a == [] {
      assert a + b == b;
    } else {
      assert (a + b)[1..] == a[1..] + b;
      AtSplit(s, i + 1, a[1..], b);
    }
  }

  lemma AtHead(s: string, i: nat, t: string)
    requires At(s, i, t) && t != []
    ensures i < |s| && s[i] == t[0]
  {
  }

  lemma {:induction false} AtLength(s: string, i: nat, t: string)
    requires At(s, i, t)
    ensures i + |t| <= |s|
    decreases |t|
  {
    if t != [] {
      AtLength(s, i + 1, t[1..]);
    }
  }

  /** Every suffix of a text occurs where it starts. */
  lemma {:induction false} AtSuffix(s: string, i: nat)
    requires i <= |s|
    ensures At(s, i, s[i..])
    decreases |s| - i
  {
    if i < |s| {
      assert s[i..][1..] == s[i + 1..];
      AtSuffix(s, i + 1);
    }
  }

  /** Position `j` does not hold a quote (or is past the end). */
  predicate NoQuoteAt(s: string, j: nat) {
    j >= |s| || s[j] != '"'
  }

  /** Position `j` is the end of the text or a line feed. */
  predicate LineEndAt(s: string, j: nat) {
    j == |s| || (j < |s| && s[j] == '\n')
  }

  lemma UnquoteClose(s: string, i: nat)
    requires i < |s| && s[i] == '"' && NoQuoteAt(s, i + 1)
    ensures Unquote(s, i) == Field([], i + 1)
  {
  }

  /** Reading the first escaped character of `c`, then the rest of the field. */
  lemma UnquoteChar(s: string, i: nat, c: string, n: nat)
    requires c != [] && At(s, i, EscapeChar(c[0]))
    requires Unquote(s, i + |EscapeChar(c[0])|) == Field(c[1..], n)
    ensures Unquote(s, i) == Field(c, n)
  {
    AtHead(s, i, EscapeChar(c[0]));
    if c[0] == '"' {
      AtSplit(s, i, "\"", "\"");
      AtHead(s, i + 1, "\"");
    }
    assert [c[0]] + c[1..] == c;
  }

  lemma EscapeCons(c: string)
    requires c != []
    ensures Escape(c) == EscapeChar(c[0]) + Escape(c[1..])
    ensures |Escape(c)| == |EscapeChar(c[0])| + |Escape(c[1..])|
  {
  }

  lemma {:induction false} UnquoteEscape(s: string, i: nat, c: string)
    requires At(s, i, Escape(c))
    requires i + |Escape(c)| < |s| && s[i + |Escape(c)|] == '"'
    requires NoQuoteAt(s, i + |Escape(c)| + 1)
    ensures Unquote(s, i) == Field(c, i + |Escape(c)| + 1)
    decreases |c|
  {
    if c == [] {
      UnquoteClose(s, i);
    } else {
      var h := EscapeChar(c[0]);
      var e := Escape(c[1..]);
      EscapeCons(c);
      AtSplit(s, i, h, e);
      UnquoteEscape(s, i + |h|, c[1..]);
      UnquoteChar(s, i, c, i + |h| + |e| + 1);
    }
  }

  /** A quoted field reads back as its text, whatever follows that is not a quote. */
  lemma FieldRoundTrip(s: string, i: nat, c: string)
    requires At(s, i, Quote(c)) && NoQuoteAt(s, i + |Quote(c)|)
    ensures DecodeField(s, i) == Field(c, i + |Quote(c)|)
  {
    assert Quote(c) == "\"" + (Escape(c) + "\"");
    AtSplit(s, i, "\"", Escape(c) + "\"");
    AtHead(s, i, "\"");
    AtSplit(s, i + 1, Escape(c), "\"");
    AtHead(s, i + 1 + |Escape(c)|, "\"");
    UnquoteEscape(s, i + 1, c);
  }

  lemma EncodeRowCons(cells: seq<string>)
    requires |cells| > 1
    ensures EncodeRow(cells) == Quote(cells[0]) + ("," + EncodeRow(cells[1..]))
  {
    assert QuoteAll(cells) == [Quote(cells[0])] + QuoteAll(cells[1..]);
    Seqs.JoinCons(Quote(cells[0]), QuoteAll(cells[1..]), ",");
  }

  lemma EncodeRowSingle(cells: seq<string>)
    requires |cells| == 1
    ensures EncodeRow(cells) == Quote(cells[0])
  {
    assert QuoteAll(cells) == [Quote(cells[0])];
  }

  /** The reader's step past a comma: the first field, then the rest of the line. */
  lemma DecodeRowComma(s: string, i: nat, cells: seq<string>, n: nat, m: nat)
    requires |cells| > 1 && DecodeField(s, i) == Field(cells[0], n) && n < |s| && s[n] == ','
    requires DecodeRow(s, n + 1) == Line(cells[1..], m)
    ensures DecodeRow(s, i) == Line(cells, m)
  {
    assert [cells[0]] + cells[1..] == cells;
  }

  /** The reader stops after a field that no comma follows. */
  lemma DecodeRowLast(s: string, i: nat, c: string, n: nat)
    requires DecodeField(s, i) == Field(c, n) && LineEndAt(s, n)
    ensures DecodeRow(s, i) == Line([c], n)
  {
  }

  /** A one-field line reads back as that field. */
  lemma RowRoundTripSingle(s: string, i: nat, cells: seq<string>)
    requires |cells| == 1 && At(s, i, EncodeRow(cells))
    requires LineEndAt(s, i + |EncodeRow(cells)|)
    ensures DecodeRow(s, i) == Line(cells, i + |EncodeRow(cells)|)
  {
    EncodeRowSingle(cells);
    FieldRoundTrip(s, i, cells[0]);
    DecodeRowLast(s, i, cells[0], i + |Quote(cells[0])|);
  }

  /** A longer line is its first quoted field, a comma, and the rest. */
  lemma RowSplit(s: string, i: nat, cells: seq<string>)
    requires |cells| > 1 && At(s, i, EncodeRow(cells))
    ensures var n := i + |Quote(cells[0])|;
      && At(s, i, Quote(cells[0])) && At(s, n + 1, EncodeRow(cells[1..]))
      && n < |s| && s[n] == ','
      && |EncodeRow(cells)| == |Quote(cells[0])| + 1 + |EncodeRow(cells[1..])|
  {
    var q := Quote(cells[0]);
    var e := EncodeRow(cells[1..]);
    EncodeRowCons(cells);
    AtSplit(s, i, q, "," + e);
    AtSplit(s, i + |q|, ",", e);
    AtHead(s, i + |q|, ",");
  }

  /** A line of at least one field reads back as its fields, up to a line end. */
  lemma {:induction false} RowRoundTrip(s: string, i: nat, cells: seq<string>)
    requires cells != [] && At(s, i, EncodeRow(cells))
    requires LineEndAt(s, i + |EncodeRow(cells)|)
    ensures DecodeRow(s, i) == Line(cells, i + |EncodeRow(cells)|)
    decreases |cells|
  {
    if |cells| == 1 {
      RowRoundTripSingle(s, i, cells);
    } else {
      var n := i + |Quote(cells[0])|;
      RowSplit(s, i, cells);
      FieldRoundTrip(s, i, cells[0]);
      RowRoundTrip(s, n + 1, cells[1..]);
      DecodeRowComma(s, i, cells, n, i + |EncodeRow(cells)|);
    }
  }

  function EncodeRows(rows: seq<seq<string>>): (lines: seq<string>)
    ensures |lines| == |rows|
    ensures forall i :: 0 <= i < |rows| ==> lines[i] == EncodeRow(rows[i])
  {
    seq(|rows|, i requires 0 <= i < |rows| => EncodeRow(rows[i]))
  }

  lemma JoinLinesCons(rows: seq<seq<string>>)
    requires |rows| > 1
    ensures Seqs.Join(EncodeRows(rows), "\n") == EncodeRow(rows[0]) + ("\n" + Seqs.Join(EncodeRows(rows[1..]), "\n"))
  {
    assert EncodeRows(rows) == [EncodeRow(rows[0])] + EncodeRows(rows[1..]);
    Seqs.JoinCons(EncodeRow(rows[0]), EncodeRows(rows[1..]), "\n");
  }

  lemma JoinLinesSingle(rows: seq<seq<string>>)
    requires |rows| == 1
    ensures Seqs.Join(EncodeRows(rows), "\n") == EncodeRow(rows[0])
  {
    assert EncodeRows(rows) == [EncodeRow(rows[0])];
  }

  /** The reader's step past a line end. */
  lemma DecodeRowsNewline(s: string, i: nat, rows: seq<seq<string>>, n: nat)
    requires |rows| > 1 && DecodeRow(s, i) == Line(rows[0], n) && n < |s| && s[n] == '\n'
    requires DecodeRows(s, n + 1) == Some(rows[1..])
    ensures DecodeRows(s, i) == Some(rows)
  {
    assert [rows[0]] + rows[1..] == rows;
  }

  /** The reader stops at the end of the text. */
  lemma DecodeRowsEnd(s: string, i: nat, cells: seq<string>)
    requires DecodeRow(s, i) == Line(cells, |s|)
    ensures DecodeRows(s, i) == Some([cells])
  {
  }

  /** Several lines are the first line, a line feed, and the rest. */
  lemma RowsSplit(s: string, i: nat, rows: seq<seq<string>>)
    requires |rows| > 1 && At(s, i, Seqs.Join(EncodeRows(rows), "\n"))
    ensures var n := i + |EncodeRow(rows[0])|;
      && At(s, i, EncodeRow(rows[0])) && At(s, n + 1, Seqs.Join(EncodeRows(rows[1..]), "\n"))
      && n < |s| && s[n] == '\n'
      && |Seqs.Join(EncodeRows(rows), "\n")| == |EncodeRow(rows[0])| + 1 + |Seqs.Join(EncodeRows(rows[1..]), "\n")|
  {
    var first := EncodeRow(rows[0]);
    var tail := Seqs.Join(EncodeRows(rows[1..]), "\n");
    JoinLinesCons(rows);
    AtSplit(s, i, first, "\n" + tail);
    AtSplit(s, i + |first|, "\n", tail);
    AtHead(s, i + |first|, "\n");
  }

  /** Lines of at least one field each, joined by newlines, read back as the
      rows when they run to the end of the text. */
  lemma {:induction false} RowsRoundTrip(s: string, i: nat, rows: seq<seq<string>>)
    requires rows != []
    requires forall k :: 0 <= k < |rows| ==> rows[k] != []
    requires At(s, i, Seqs.Join(EncodeRows(rows), "\n"))
    requires i + |Seqs.Join(EncodeRows(rows), "\n")| == |s|
    ensures DecodeRows(s, i) == Some(rows)
    decreases |rows|
  {
    if |rows| == 1 {
      LastRowRoundTrip(s, i, rows);
    } else {
      var n := FirstRowRoundTrip(s, i, rows);
      RowsRoundTrip(s, n + 1, rows[1..]);
      DecodeRowsNewline(s, i, rows, n);
    }
  }

  lemma LastRowRoundTrip(s: string, i: nat, rows: seq<seq<string>>)
    requires |rows| == 1 && rows[0] != []
    requires At(s, i, Seqs.Join(EncodeRows(rows), "\n"))
    requires i + |Seqs.Join(EncodeRows(rows), "\n")| == |s|
    ensures DecodeRows(s, i) == Some(rows)
  {
    JoinLinesSingle(rows);
    RowRoundTrip(s, i, rows[0]);
    DecodeRowsEnd(s, i, rows[0]);
    assert [rows[0]] == rows;
  }

  /** The first of several lines reads back, up to the line feed, and the
      rest of the lines sit after it up to the end of the text. */
  lemma FirstRowRoundTrip(s: string, i: nat, rows: seq<seq<string>>) returns (n: nat)
    requires |rows| > 1
    requires forall k :: 0 <= k < |rows| ==> rows[k] != []
    requires At(s, i, Seqs.Join(EncodeRows(rows), "\n"))
    requires i + |Seqs.Join(EncodeRows(rows), "\n")| == |s|
    ensures DecodeRow(s, i) == Line(rows[0], n) && n < |s| && s[n] == '\n'
    ensures rows[1..] != [] && forall k :: 0 <= k < |rows[1..]| ==> rows[1..][k] != []
    ensures At(s, n + 1, Seqs.Join(EncodeRows(rows[1..]), "\n"))
    ensures n + 1 + |Seqs.Join(EncodeRows(rows[1..]), "\n")| == |s|
  {
    n := i + |EncodeRow(rows[0])|;
    RowsSplit(s, i, rows);
    RowRoundTrip(s, i, rows[0]);
  }

  /** The cells of every data row, row by row. */
  function CellRows(cols: seq<ColModel>, rows: seq<Row>, formatDate: Value -> string): (cells: seq<seq<string>>)
    ensures |cells| == |rows|
    ensures forall i :: 0 <= i < |rows| ==> cells[i] == RowCells(cols, rows[i], formatDate)
  {
    seq(|rows|, i requires 0 <= i < |rows| => RowCells(cols, rows[i], formatDate))
  }

  lemma PrependBom(h: string, body: string)
    ensures [Bom] + (h + "\n" + body) == [Bom] + h + "\n" + body
  {
  }

  /** The download text is the mark, the label line, a newline, and a body
      that reads back as every row's cells in column order, for a grid with at
      least one column. */
  lemma CsvRoundTrip(cols: seq<ColModel>, rows: seq<Row>, formatDate: Value -> string)
    requires cols != [] && rows != []
    ensures exists body ::
      && BuildCsv(cols, rows, formatDate) == Some([Bom] + Seqs.Join(Captions(cols), ",") + "\n" + body)
      && DecodeRows(body, 0) == Some(CellRows(cols, rows, formatDate))
  {
    var cells := CellRows(cols, rows, formatDate);
    var header := Seqs.Join(Captions(cols), ",");
    var body := Seqs.Join(EncodeRows(cells), "\n");
    assert Seqs.Join([header] + RowLines(cols, rows, formatDate), "\n") == header + "\n" + body by {
      assert RowLines(cols, rows, formatDate) == EncodeRows(cells);
      Seqs.JoinCons(header, EncodeRows(cells), "\n");
    }
    PrependBom(header, body);
    assert BuildCsv(cols, rows, formatDate) == Some([Bom] + header + "\n" + body);
    AtSuffix(body, 0);
    assert body[0..] == body;
    RowsRoundTrip(body, 0, cells);
  }

  /** A column's type comes from the first column with its field, so columns
      repeating a field are exported alike. */
  lemma RepeatedFieldExportedAlike(cols: seq<ColModel>, row: Row, i: nat, j: nat, formatDate: Value -> string)
    requires i < |cols| && j < |cols| && cols[i].field == cols[j].field
    ensures RowCells(cols, row, formatDate)[i] == RowCells(cols, row, formatDate)[j]
  {
  }
}
