/** The CSV export of a report (`downloadCSV` in `useReportExport`, and its
    inline copy in `report_backup`): a quoted header line, then one line of
    quoted cells per row. Cells follow rule 7 of section 2 of RFC 4180: a field
    is enclosed in double quotes and every double quote inside it is doubled.
    A reader for such documents is given as the partner of the writer. */
module ReportExport {
  import opened Wrappers
  import opened Text
  import opened JsValues
  import opened Sequences
  import opened Report

  /* ------------------------------- writing -------------------------------- */

  /** The doubled quote that stands for one quote inside a field. */
  function Escape(s: string): string
  {
    ReplaceAll(s, '"', "\"\"")
  }

  /** `"${s.replace(/"/g, '""')}"`. */
  function Quote(s: string): string
  {
    "\"" + Escape(s) + "\""
  }

  /** `FIELD_LABELS[c] || c`: the configured label unless missing or empty. */
  function Heading(labels: Entries<string>, c: string): string
  {
    match Get(labels, c)
    case Some(l) => if l != "" then l else c
    case None => c
  }

  /** The header line: each heading between quotes, not escaped, joined by `,`. */
  function Header(labels: Entries<string>, cols: seq<string>): string
  {
    Join(Map(cols, c => "\"" + Heading(labels, c) + "\""), ",")
  }

  /** The line of one row: `String(r[c])` quoted, for every column in order. */
  function Line(cols: seq<string>, r: Entries<Json>): string
  {
    Join(Map(cols, c => Quote(ToStr(Field(r, c)))), ",")
  }

  /** The whole document: `[header, body].join('\n')` where the body is the
      row lines joined by `\n`. */
  function Csv(labels: Entries<string>, cols: seq<string>, rows: seq<Entries<Json>>): string
  {
    Header(labels, cols) + "\n" + Body(cols, rows)
  }

  /** The row lines joined by `\n` (see `BodyIsJoin`). */
  function Body(cols: seq<string>, rows: seq<Entries<Json>>): string
    decreases |rows|
  {
    if |rows| == 0 then ""
    else if |rows| == 1 then Line(cols, rows[0])
    else Line(cols, rows[0]) + "\n" + Body(cols, rows[1..])
  }

  /** `Body` is `rows.map(line).join('\n')`. */
  lemma {:induction false} BodyIsJoin(cols: seq<string>, rows: seq<Entries<Json>>)
    ensures Body(cols, rows) == Join(Map(rows, r => Line(cols, r)), "\n")
    decreases |rows|
  {
    var f := r => Line(cols, r);
    var lines := Map(rows, f);
    if |rows| >= 2 {
      BodyIsJoin(cols, rows[1..]);
      MapTail(rows, f);
      assert Join(lines, "\n") == lines[0] + "\n" + Join(lines[1..], "\n");
    }
  }

  /** With no rows the document is the header and one line break. */
  lemma EmptyReport(labels: Entries<string>, cols: seq<string>)
    ensures Csv(labels, cols, []) == Header(labels, cols) + "\n"
  {
  }

  /* ------------------------------- reading -------------------------------- */

  /** Reads the inside of a quoted field whose opening quote is already
      consumed: `""` stands for `"`, a lone `"` closes the field. Returns the
      field and the text after the closing quote. */
  function ReadEscaped(s: string): (r: Option<(string, string)>)
    ensures r.Some? ==> |r.value.1| < |s|
    decreases |s|
  {
    if |s| == 0 then None
    else if s[0] == '"' then
      if |s| >= 2 && s[1] == '"' then
        match ReadEscaped(s[2..])
        case Some((v, rest)) => Some(("\"" + v, rest))
        case None => None
      else Some(("", s[1..]))
    else
      match ReadEscaped(s[1..])
      case Some((v, rest)) => Some(([s[0]] + v, rest))
      case None => None
  }

  /** Reads one quoted field at the start of `s`. */
  function ReadField(s: string): (r: Option<(string, string)>)
    ensures r.Some? ==> |r.value.1| < |s|
  {
    if |s| > 0 && s[0] == '"' then ReadEscaped(s[1..]) else None
  }

  /** The field a quoted cell stands for, when it is one well-formed field. */
  function Unquote(q: string): Option<string>
  {
    match ReadField(q)
    case Some((v, rest)) => if rest == "" then Some(v) else None
    case None => None
  }

  /** Reads the comma-separated fields of one record; the record ends at the
      first field not followed by a comma. */
  function ReadCells(s: string): (r: Option<(seq<string>, string)>)
    ensures r.Some? ==> |r.value.0| >= 1 && |r.value.1| < |s|
    decreases |s|
  {
    match ReadField(s)
    case None => None
    case Some((v, rest)) =>
      if |rest| > 0 && rest[0] == ',' then
        match ReadCells(rest[1..])
        case Some((more, after)) => Some(([v] + more, after))
        case None => None
      else Some(([v], rest))
  }

  /** Reads the records of a document, separated by line breaks; a line break
      at the very end closes the last record. */
  function ReadRecords(s: string): Option<seq<seq<string>>>
    decreases |s|
  {
    if |s| == 0 then Some([])
    else
      match ReadCells(s)
      case None => None
      case Some((cells, rest)) =>
        if |rest| == 0 then Some([cells])
        else if rest[0] == '\n' then
          match ReadRecords(rest[1..])
          case Some(more) => Some([cells] + more)
          case None => None
        else None
  }

  /* ------------------------------ round trips ----------------------------- */

  /** A text that does not continue a quoted field: empty or not starting with `"`. */
  predicate Delimits(tail: string)
  {
    tail == "" || tail[0] != '"'
  }

  /** The escaped text of `x`, its closing quote and a delimiting tail read
      back as `x` followed by the tail. */
  lemma {:induction false} ReadEscapedInverse(x: string, tail: string)
    requires Delimits(tail)
    ensures ReadEscaped(Escape(x) + "\"" + tail) == Some((x, tail))
    decreases |x|
  {
    var s := Escape(x) + "\"" + tail;
    if |x| == 0 {
      assert s == "\"" + tail;
      assert s[1..] == tail;
    } else {
      ReadEscapedInverse(x[1..], tail);
      var inner := Escape(x[1..]) + "\"" + tail;
      if x[0] == '"' {
        assert s == "\"\"" + inner;
        assert s[2..] == inner;
        assert "\"" + x[1..] == x;
      } else {
        assert s == [x[0]] + inner;
        assert s[1..] == inner;
        assert [x[0]] + x[1..] == x;
      }
    }
  }

  /** Rule 7 round trip: stripping the outer quotes of a cell and collapsing
      its doubled quotes gives back exactly the original text. */
  lemma QuoteRoundTrip(x: string)
    ensures Unquote(Quote(x)) == Some(x)
  {
    ReadEscapedInverse(x, "");
    assert Quote(x)[1..] == Escape(x) + "\"" + "";
  }

  /** A quoted cell has the text's length plus two plus one per quote in it. */
  lemma QuoteLength(x: string)
    ensures |Quote(x)| == |x| + Count(x, '"') + 2
  {
    ReplaceAllLength(x, '"', "\"\"");
  }

  /** Quoting a text without quotes only wraps it. */
  lemma QuotePlain(x: string)
    requires '"' !in x
    ensures Quote(x) == "\"" + x + "\""
  {
    ReplaceAllAbsent(x, '"', "\"\"");
  }

  /** A quoted cell followed by a delimiting tail reads back as the text and the tail. */
  lemma ReadFieldInverse(x: string, tail: string)
    requires Delimits(tail)
    ensures ReadField(Quote(x) + tail) == Some((x, tail))
  {
    var s := Quote(x) + tail;
    assert s[1..] == Escape(x) + "\"" + tail;
    ReadEscapedInverse(x, tail);
  }

  /** The cells quoted and joined by commas: a record line. */
  function Record(cells: seq<string>): string
  {
    Join(Map(cells, Quote), ",")
  }

  /** A record of several cells is the first quoted cell, a comma, and the rest. */
  lemma RecordCons(cells: seq<string>)
    requires |cells| >= 2
    ensures Record(cells) == Quote(cells[0]) + "," + Record(cells[1..])
  {
    assert Map(cells, Quote)[1..] == Map(cells[1..], Quote);
  }

  /** A record line followed by a tail that is not a quote or comma reads back
      as the cells. */
  lemma {:induction false} ReadCellsInverse(cells: seq<string>, tail: string)
    requires |cells| >= 1
    requires tail == "" || (tail[0] != '"' && tail[0] != ',')
    ensures ReadCells(Record(cells) + tail) == Some((cells, tail))
    decreases |cells|
  {
    if |cells| == 1 {
      assert Record(cells) == Quote(cells[0]);
      ReadFieldInverse(cells[0], tail);
      assert [cells[0]] == cells;
    } else {
      var j := Record(cells[1..]) + tail;
      RecordCons(cells);
      assert Record(cells) + tail == Quote(cells[0]) + ("," + j);
      ReadFieldInverse(cells[0], "," + j);
      assert ("," + j)[1..] == j;
      ReadCellsInverse(cells[1..], tail);
      assert [cells[0]] + cells[1..] == cells;
    }
  }

  /** The cells written for a row: `String(r[c])` for every column. */
  function RowCells(cols: seq<string>, r: Entries<Json>): (cells: seq<string>)
    ensures |cells| == |cols|
  {
    Map(cols, c => ToStr(Field(r, c)))
  }

  /** A row line is the quoted row cells joined by commas. */
  lemma LineIsQuotedCells(cols: seq<string>, r: Entries<Json>)
    ensures Line(cols, r) == Record(RowCells(cols, r))
  {
    assert Map(cols, c => Quote(ToStr(Field(r, c)))) == Map(RowCells(cols, r), Quote);
  }

  /** The header line is the quoted headings when no heading holds a quote. */
  lemma HeaderIsQuotedCells(labels: Entries<string>, cols: seq<string>)
    requires forall i :: 0 <= i < |cols| ==> '"' !in Heading(labels, cols[i])
    ensures Header(labels, cols) == Record(Map(cols, c => Heading(labels, c)))
  {
    var h := Map(cols, c => Heading(labels, c));
    forall i | 0 <= i < |cols|
      ensures Quote(h[i]) == "\"" + Heading(labels, cols[i]) + "\""
    {
      QuotePlain(h[i]);
    }
    assert Map(cols, c => "\"" + Heading(labels, c) + "\"") == Map(h, Quote);
  }

  /** The cells of every row, in row order. */
  function Records(cols: seq<string>, rows: seq<Entries<Json>>): (r: seq<seq<string>>)
    ensures |r| == |rows|
    decreases |rows|
  {
    if |rows| == 0 then [] else [RowCells(cols, rows[0])] + Records(cols, rows[1..])
  }


  /** A record followed by a line break continues with the records after it. */
  lemma ReadRecordsStep(s: string, cells: seq<string>, more: string, rest: seq<seq<string>>)
    requires ReadCells(s) == Some((cells, "\n" + more))
    requires ReadRecords(more) == Some(rest)
    ensures ReadRecords(s) == Some([cells] + rest)
  {
    assert ("\n" + more)[1..] == more;
  }

  /** A record with nothing after it is the last one. */
  lemma ReadRecordsLast(s: string, cells: seq<string>)
    requires ReadCells(s) == Some((cells, ""))
    ensures ReadRecords(s) == Some([cells])
  {
  }

  /** A row line followed by a line break reads back as the row's cells. */
  lemma ReadLine(cols: seq<string>, r: Entries<Json>, tail: string)
    requires |cols| >= 1
    requires tail == "" || tail[0] == '\n'
    ensures ReadCells(Line(cols, r) + tail) == Some((RowCells(cols, r), tail))
  {
    LineIsQuotedCells(cols, r);
    ReadCellsInverse(RowCells(cols, r), tail);
  }

  /** The body of one row reads back as that row's cells. */
  lemma ReadBodySingle(cols: seq<string>, rows: seq<Entries<Json>>)
    requires |cols| >= 1 && |rows| == 1
    ensures ReadRecords(Body(cols, rows)) == Some(Records(cols, rows))
  {
    var b := Body(cols, rows);
    var l := Line(cols, rows[0]);
    var cells := RowCells(cols, rows[0]);
    assert b == l;
    ReadLine(cols, rows[0], "");
    assert l + "" == l;
    ReadRecordsLast(b, cells);
    assert Records(cols, rows) == [cells];
  }

  /** A body of several rows starts with the first row's cells, followed by
      the newline before the other rows. */
  lemma ReadFirstLine(cols: seq<string>, rows: seq<Entries<Json>>)
    requires |cols| >= 1 && |rows| >= 2
    ensures ReadCells(Body(cols, rows)) == Some((RowCells(cols, rows[0]), "\n" + Body(cols, rows[1..])))
  {
    var more := Body(cols, rows[1..]);
    var l := Line(cols, rows[0]);
    assert Body(cols, rows) == l + ("\n" + more) by {
      Assoc(l, "\n", more);
    }
    ReadLine(cols, rows[0], "\n" + more);
  }

  /** The body reads back as one record per row, each holding that row's
      cells in column order. */
  lemma {:induction false} ReadBodyInverse(cols: seq<string>, rows: seq<Entries<Json>>)
    requires |cols| >= 1
    ensures ReadRecords(Body(cols, rows)) == Some(Records(cols, rows))
    decreases |rows|
  {
    if |rows| == 0 {
      assert Body(cols, rows) == "";
    } else if |rows| == 1 {
      ReadBodySingle(cols, rows);
    } else {
      ReadBodyInverse(cols, rows[1..]);
      ReadFirstLine(cols, rows);
      ReadRecordsStep(Body(cols, rows), RowCells(cols, rows[0]), Body(cols, rows[1..]), Records(cols, rows[1..]));
    }
  }

  /** The exported document reads back as the headings followed by one record
      per row, in row order, each with one cell per column in column order
      holding `String(r[c])`, provided there is a column and no heading
      contains a quote (headings are not escaped). */
  lemma CsvRoundTrip(labels: Entries<string>, cols: seq<string>, rows: seq<Entries<Json>>)
    requires |cols| >= 1
    requires forall i :: 0 <= i < |cols| ==> '"' !in Heading(labels, cols[i])
    ensures ReadRecords(Csv(labels, cols, rows))
      == Some([Map(cols, c => Heading(labels, c))] + Records(cols, rows))
  {
    var headings := Map(cols, c => Heading(labels, c));
    ReadHeader(labels, cols, rows);
    ReadBodyInverse(cols, rows);
    ReadRecordsStep(Csv(labels, cols, rows), headings, Body(cols, rows), Records(cols, rows));
  }

  /** The document's first record is the headings, followed by the newline
      before the body. */
  lemma ReadHeader(labels: Entries<string>, cols: seq<string>, rows: seq<Entries<Json>>)
    requires |cols| >= 1
    requires forall i :: 0 <= i < |cols| ==> '"' !in Heading(labels, cols[i])
    ensures ReadCells(Csv(labels, cols, rows))
      == Some((Map(cols, c => Heading(labels, c)), "\n" + Body(cols, rows)))
  {
    var headings := Map(cols, c => Heading(labels, c));
    var body := Body(cols, rows);
    HeaderIsQuotedCells(labels, cols);
    assert Csv(labels, cols, rows) == Record(headings) + ("\n" + body) by {
      Assoc(Record(headings), "\n", body);
    }
    assert ("\n" + body)[0] == '\n';
    ReadCellsInverse(headings, "\n" + body);
  }
}
