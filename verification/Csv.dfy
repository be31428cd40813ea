/** The hand-written CSV reader of the site import: a character automaton with one
    character of lookahead, characterised completely by the documents it accepts. */
module Csv {

  /** The header row and 500 sites. */
  const MAX_ROWS := 501

  datatype Error = MisplacedQuote | TextAfterQuote | UnclosedQuote | TooManyRows

  datatype Parsed = Rows(rows: seq<seq<string>>) | Rejected(error: Error)

  /** The local variables of the reader's loop. */
  datatype Reader = Reader(rows: seq<seq<string>>, row: seq<string>, field: string, quoted: bool, closed: bool)

  const START := Reader([], [], "", false, false)

  predicate StartsWith(s: string, c: char) {
    s != [] && s[0] == c
  }

  function EndRow(st: Reader): Reader {
    Reader(st.rows + [st.row + [st.field]], [], "", false, false)
  }

  /** What the reader makes of the remaining characters `s`. */
  function Read(s: string, st: Reader): Parsed
    decreases |s|
  {
    if s == [] then
      if st.quoted then Rejected(UnclosedQuote)
      else
        var rows := if st.field != "" || st.row != [] then st.rows + [st.row + [st.field]] else st.rows;
        if |rows| > MAX_ROWS then Rejected(TooManyRows) else Rows(rows)
    else
      var c := s[0];
      if st.quoted then
        if c == '"' && StartsWith(s[1..], '"') then Read(s[2..], st.(field := st.field + ['"']))
        else if c == '"' then Read(s[1..], st.(quoted := false, closed := true))
        else Read(s[1..], st.(field := st.field + [c]))
      else if c == '"' then
        if st.field != "" || st.closed then Rejected(MisplacedQuote)
        else Read(s[1..], st.(quoted := true))
      else if c == ',' then
        Read(s[1..], st.(row := st.row + [st.field], field := "", closed := false))
      else if c == '\n' || c == '\r' then
        var st' := EndRow(st);
        if |st'.rows| > MAX_ROWS then Rejected(TooManyRows)
        else Read(if c == '\r' && StartsWith(s[1..], '\n') then s[2..] else s[1..], st')
      else if st.closed then Rejected(TextAfterQuote)
      else Read(s[1..], st.(field := st.field + [c]))
  }

  /** The loop itself. Its result is pinned down by `ReadsEveryDocument` and `ReadsOnlyDocuments`. */
  method ParseCsv(source: string) returns (r: Parsed)
    ensures r == Read(source, START)
  {
    var rows: seq<seq<string>> := [];
    var row: seq<string> := [];
    var field := "";
    var quoted, closedQuote := false, false;
    var i := 0;
    while i < |source|
      invariant i <= |source|
      invariant Read(source[i..], Reader(rows, row, field, quoted, closedQuote)) == Read(source, START)
    {
      var c := source[i];
      ghost var rest := source[i..];
      assert rest[1..] == source[i + 1..];
      var next := i + 1 < |source|;
      assert next ==> rest[2..] == source[i + 2..];
      if quoted {
        if c == '"' && next && source[i + 1] == '"' {
          field := field + ['"'];
          i := i + 1;
        } else if c == '"' {
          quoted := false;
          closedQuote := true;
        } else {
          field := field + [c];
        }
        i := i + 1;
        continue;
      }
      if c == '"' {
        if field != "" || closedQuote {
          return Rejected(MisplacedQuote);
        }
        quoted := true;
      } else if c == ',' || c == '\n' || c == '\r' {
        row := row + [field];
        field := "";
        closedQuote := false;
        if c == ',' {
          i := i + 1;
          continue;
        }
        if c == '\r' && next && source[i + 1] == '\n' {
          i := i + 1;
        }
        rows := rows + [row];
        row := [];
        if |rows| > MAX_ROWS {
          return Rejected(TooManyRows);
        }
      } else {
        if closedQuote {
          return Rejected(TextAfterQuote);
        }
        field := field + [c];
      }
      i := i + 1;
    }
    assert source[i..] == [];
    if quoted {
      return Rejected(UnclosedQuote);
    }
    if field != "" || row != [] {
      rows := rows + [row + [field]];
    }
    if |rows| > MAX_ROWS {
      return Rejected(TooManyRows);
    }
    return Rows(rows);
  }

  // ----- Documents: what section 2 of RFC 4180 lets a writer produce -----

  datatype Cell = Cell(text: string, quoted: bool)

  datatype LineEnd = LF | CRLF | CR | EndOfText

  datatype Line = Line(cells: seq<Cell>, end: LineEnd)

  /** `trailer` marks a last, unterminated record that is just `""`. */
  datatype Document = Document(lines: seq<Line>, trailer: bool)

  predicate Plain(c: char) {
    c != ',' && c != '"' && c != '\n' && c != '\r'
  }

  predicate AllPlain(text: string) {
    forall i :: 0 <= i < |text| ==> Plain(text[i])
  }

  function Escape(text: string): string {
    if text == "" then "" else (if text[0] == '"' then "\"\"" else [text[0]]) + Escape(text[1..])
  }

  function PrintCell(c: Cell): string {
    if c.quoted then "\"" + Escape(c.text) + "\"" else c.text
  }

  /** Every cell followed by a comma. */
  function PrintOpen(cells: seq<Cell>): string {
    if cells == [] then "" else PrintCell(cells[0]) + "," + PrintOpen(cells[1..])
  }

  function PrintEnd(e: LineEnd): string {
    match e
    case LF => "\n"
    case CRLF => "\r\n"
    case CR => "\r"
    case EndOfText => ""
  }

  function PrintLine(l: Line): string {
    if l.cells == [] then PrintEnd(l.end)
    else PrintOpen(l.cells[..|l.cells| - 1]) + PrintCell(l.cells[|l.cells| - 1]) + PrintEnd(l.end)
  }

  predicate CellOk(c: Cell) {
    c.quoted || AllPlain(c.text)
  }

  predicate CellsOk(cells: seq<Cell>) {
    forall i :: 0 <= i < |cells| ==> CellOk(cells[i])
  }

  /** A record may omit its line break only at the end of the text, and not when it is a
      single empty field; a bare CR may not be followed by LF. */
  predicate LineOk(l: Line, after: string) {
    && l.cells != []
    && CellsOk(l.cells)
    && (l.end == EndOfText ==> after == "" && (|l.cells| > 1 || l.cells[0].text != ""))
    && (l.end == CR ==> !StartsWith(after, '\n'))
  }

  predicate LinesOk(lines: seq<Line>, after: string) {
    if lines == [] then true
    else
      && LinesOk(lines[1..], after)
      && LineOk(lines[0], PrintLines(lines[1..], after))
  }

  function PrintLines(lines: seq<Line>, after: string): string {
    if lines == [] then after else PrintLine(lines[0]) + PrintLines(lines[1..], after)
  }

  function Trailer(d: Document): string {
    if d.trailer then "\"\"" else ""
  }

  predicate ValidDocument(d: Document) {
    LinesOk(d.lines, Trailer(d))
  }

  function Print(d: Document): string {
    PrintLines(d.lines, Trailer(d))
  }

  function Texts(cells: seq<Cell>): (r: seq<string>)
    ensures |r| == |cells|
  {
    seq(|cells|, i requires 0 <= i < |cells| => cells[i].text)
  }

  function Records(lines: seq<Line>): (r: seq<seq<string>>)
    ensures |r| == |lines|
  {
    seq(|lines|, i requires 0 <= i < |lines| => Texts(lines[i].cells))
  }

  // ----- Every document is read back -----

  lemma {:induction false} ReadQuoted(text: string, rest: string, st: Reader)
    requires st.quoted && !StartsWith(rest, '"')
    ensures Read(Escape(text) + "\"" + rest, st)
         == Read(rest, st.(field := st.field + text, quoted := false, closed := true))
    decreases |text|
  {
    var s := Escape(text) + "\"" + rest;
    if text == "" {
      assert s[0] == '"' && s[1..] == rest;
      assert st.field + text == st.field;
    } else {
      var st' := st.(field := st.field + [text[0]]);
      var tail := Escape(text[1..]) + "\"" + rest;
      if text[0] == '"' {
        assert s == "\"\"" + tail;
        assert s[2..] == tail && StartsWith(s[1..], '"');
      } else {
        assert s == [text[0]] + tail;
        assert s[1..] == tail;
      }
      ReadQuoted(text[1..], rest, st');
      assert st'.field + text[1..] == st.field + text;
    }
  }

  lemma {:induction false} ReadPlain(text: string, rest: string, st: Reader)
    requires !st.quoted && !st.closed && AllPlain(text)
    ensures Read(text + rest, st) == Read(rest, st.(field := st.field + text))
    decreases |text|
  {
    if text == "" {
      assert text + rest == rest && st.field + text == st.field;
    } else {
      var st' := st.(field := st.field + [text[0]]);
      assert (text + rest)[1..] == text[1..] + rest;
      ReadPlain(text[1..], rest, st');
      assert st'.field + text[1..] == st.field + text;
    }
  }

  predicate Fresh(st: Reader) {
    !st.quoted && !st.closed && st.field == ""
  }

  lemma ReadCell(c: Cell, rest: string, st: Reader)
    requires Fresh(st) && CellOk(c) && !StartsWith(rest, '"')
    ensures Read(PrintCell(c) + rest, st) == Read(rest, st.(field := c.text, closed := c.quoted))
  {
    if c.quoted {
      var s := PrintCell(c) + rest;
      assert s[1..] == Escape(c.text) + "\"" + rest;
      ReadQuoted(c.text, rest, st.(quoted := true));
      assert st.field + c.text == c.text;
    } else {
      ReadPlain(c.text, rest, st);
      assert st.field + c.text == c.text;
    }
  }

  lemma {:induction false} ReadOpen(cells: seq<Cell>, rest: string, st: Reader)
    requires Fresh(st) && CellsOk(cells)
    ensures Read(PrintOpen(cells) + rest, st) == Read(rest, st.(row := st.row + Texts(cells)))
    decreases |cells|
  {
    if cells == [] {
      assert PrintOpen(cells) + rest == rest && st.row + Texts(cells) == st.row;
    } else {
      var more := PrintOpen(cells[1..]) + rest;
      assert PrintOpen(cells) + rest == PrintCell(cells[0]) + ("," + more);
      ReadCell(cells[0], "," + more, st);
      assert ("," + more)[1..] == more;
      var st' := st.(row := st.row + [cells[0].text]);
      ReadOpen(cells[1..], rest, st');
      assert st'.row + Texts(cells[1..]) == st.row + Texts(cells);
    }
  }

  /** The cells of one record are read up to the end of its last cell. */
  lemma ReadCells(cells: seq<Cell>, rest: string, st: Reader)
    requires cells != [] && CellsOk(cells) && Fresh(st) && !StartsWith(rest, '"')
    ensures var n := |cells| - 1;
      Read(PrintOpen(cells[..n]) + PrintCell(cells[n]) + rest, st)
        == Read(rest, st.(row := st.row + Texts(cells[..n]), field := cells[n].text, closed := cells[n].quoted))
  {
    var n := |cells| - 1;
    ReadOpen(cells[..n], PrintCell(cells[n]) + rest, st);
    ReadCell(cells[n], rest, st.(row := st.row + Texts(cells[..n])));
    assert PrintOpen(cells[..n]) + PrintCell(cells[n]) + rest == PrintOpen(cells[..n]) + (PrintCell(cells[n]) + rest);
  }

  /** A record's line break ends the row. */
  lemma ReadEnd(e: LineEnd, after: string, st: Reader)
    requires !st.quoted && e != EndOfText && (e == CR ==> !StartsWith(after, '\n'))
    ensures Read(PrintEnd(e) + after, st)
         == if |st.rows| + 1 > MAX_ROWS then Rejected(TooManyRows) else Read(after, EndRow(st))
  {
    var s := PrintEnd(e) + after;
    match e
    case LF => assert s[1..] == after;
    case CRLF => assert s[2..] == after && StartsWith(s[1..], '\n');
    case CR => assert s[1..] == after;
  }

  /** One record is read, unless it is the 502nd. */
  lemma ReadLine(l: Line, after: string, st: Reader)
    requires LineOk(l, after) && Fresh(st) && st.row == []
    ensures Read(PrintLine(l) + after, st)
         == if |st.rows| + 1 > MAX_ROWS then Rejected(TooManyRows)
            else if l.end == EndOfText then Rows(st.rows + [Texts(l.cells)])
            else Read(after, START.(rows := st.rows + [Texts(l.cells)]))
  {
    var n := |l.cells| - 1;
    var rest := PrintEnd(l.end) + after;
    ReadCells(l.cells, rest, st);
    assert PrintLine(l) + after == PrintOpen(l.cells[..n]) + PrintCell(l.cells[n]) + rest;
    var st1 := st.(row := Texts(l.cells[..n]), field := l.cells[n].text, closed := l.cells[n].quoted);
    assert st.row + Texts(l.cells[..n]) == st1.row;
    ReadRest(l, after, st1);
  }

  /** After the last cell of a record, its end is read. */
  lemma ReadRest(l: Line, after: string, st1: Reader)
    requires LineOk(l, after) && !st1.quoted
    requires var n := |l.cells| - 1; st1.row == Texts(l.cells[..n]) && st1.field == l.cells[n].text && st1.closed == l.cells[n].quoted
    ensures Read(PrintEnd(l.end) + after, st1)
         == if |st1.rows| + 1 > MAX_ROWS then Rejected(TooManyRows)
            else if l.end == EndOfText then Rows(st1.rows + [Texts(l.cells)])
            else Read(after, START.(rows := st1.rows + [Texts(l.cells)]))
  {
    assert st1.row + [st1.field] == Texts(l.cells);
    if l.end == EndOfText {
      assert PrintEnd(l.end) + after == "";
    } else {
      ReadEnd(l.end, after, st1);
    }
  }

  /** At the end of the text a trailer adds no record. */
  lemma ReadTrailer(trailer: bool, rows: seq<seq<string>>)
    requires |rows| <= MAX_ROWS
    ensures Read(if trailer then "\"\"" else "", START.(rows := rows)) == Rows(rows)
  {
    if trailer {
      var c := Cell("", true);
      ReadCell(c, "", START.(rows := rows));
      assert PrintCell(c) + "" == "\"\"";
    }
  }

  lemma RecordsFirst(lines: seq<Line>, rows: seq<seq<string>>)
    requires lines != []
    ensures rows + [Texts(lines[0].cells)] + Records(lines[1..]) == rows + Records(lines)
  {
  }

  lemma {:induction false} ReadLines(lines: seq<Line>, trailer: bool, rows: seq<seq<string>>)
    requires |rows| <= MAX_ROWS
    requires LinesOk(lines, if trailer then "\"\"" else "")
    ensures Read(PrintLines(lines, if trailer then "\"\"" else ""), START.(rows := rows))
         == if |rows| + |lines| > MAX_ROWS then Rejected(TooManyRows) else Rows(rows + Records(lines))
    decreases |lines|
  {
    var tail := if trailer then "\"\"" else "";
    if lines == [] {
      ReadTrailer(trailer, rows);
      assert rows + Records(lines) == rows;
    } else {
      var after := PrintLines(lines[1..], tail);
      ReadLine(lines[0], after, START.(rows := rows));
      var rows' := rows + [Texts(lines[0].cells)];
      RecordsFirst(lines, rows);
      if lines[0].end == EndOfText {
        NothingPrintsEmpty(lines[1..], tail);
      } else if |rows'| <= MAX_ROWS {
        ReadLines(lines[1..], trailer, rows');
      }
    }
  }

  lemma {:induction false} NothingPrintsEmpty(lines: seq<Line>, after: string)
    requires LinesOk(lines, after) && PrintLines(lines, after) == ""
    ensures lines == [] && after == ""
  {
  }

  /** Completeness: every valid document of at most 501 records is read back exactly. */
  lemma ReadsEveryDocument(d: Document)
    requires ValidDocument(d)
    ensures Read(Print(d), START)
         == if |d.lines| <= MAX_ROWS then Rows(Records(d.lines)) else Rejected(TooManyRows)
  {
    ReadLines(d.lines, d.trailer, []);
    assert [] + Records(d.lines) == Records(d.lines);
  }

  // ----- Nothing but documents is accepted -----

  lemma {:induction false} EscapeSnoc(text: string, c: char)
    ensures Escape(text + [c]) == Escape(text) + (if c == '"' then "\"\"" else [c])
    decreases |text|
  {
    if text == "" {
      assert text + [c] == [c] && [c][1..] == "";
    } else {
      assert (text + [c])[1..] == text[1..] + [c];
      EscapeSnoc(text[1..], c);
    }
  }

  lemma {:induction false} PrintOpenSnoc(cells: seq<Cell>, c: Cell)
    ensures PrintOpen(cells + [c]) == PrintOpen(cells) + PrintCell(c) + ","
    decreases |cells|
  {
    if cells == [] {
      assert cells + [c] == [c] && [c][1..] == [];
    } else {
      assert (cells + [c])[1..] == cells[1..] + [c];
      PrintOpenSnoc(cells[1..], c);
    }
  }

  lemma {:induction false} LinesSnoc(lines: seq<Line>, l: Line, after: string)
    requires LinesOk(lines, PrintLine(l) + after) && LineOk(l, after)
    ensures LinesOk(lines + [l], after)
    ensures PrintLines(lines + [l], after) == PrintLines(lines, PrintLine(l) + after)
    decreases |lines|
  {
    if lines == [] {
      assert lines + [l] == [l] && [l][1..] == [];
    } else {
      assert (lines + [l])[1..] == lines[1..] + [l];
      LinesSnoc(lines[1..], l, after);
    }
  }

  /** The characters of the cell being read. */
  function OpenCell(st: Reader): string {
    if st.quoted then "\"" + Escape(st.field) else PrintCell(Cell(st.field, st.closed))
  }

  /** The reader in state `st` has consumed `lines` and the finished `cells` of the next line. */
  ghost predicate Consumed(lines: seq<Line>, cells: seq<Cell>, st: Reader, s: string) {
    && st.rows == Records(lines)
    && st.row == Texts(cells)
    && CellsOk(cells)
    && !(st.quoted && st.closed)
    && (!st.quoted ==> CellOk(Cell(st.field, st.closed)))
    && LinesOk(lines, PrintOpen(cells) + OpenCell(st) + s)
  }

  /** The record made of the finished cells and the open one. */
  function LastLine(cells: seq<Cell>, st: Reader, e: LineEnd): Line {
    Line(cells + [Cell(st.field, st.closed)], e)
  }

  lemma CloseLine(lines: seq<Line>, cells: seq<Cell>, st: Reader, e: LineEnd, s: string)
    requires st.rows == Records(lines) && st.row == Texts(cells) && !st.quoted
    ensures PrintLine(LastLine(cells, st, e)) + s == PrintOpen(cells) + OpenCell(st) + (PrintEnd(e) + s)
    ensures Records(lines + [LastLine(cells, st, e)]) == EndRow(st).rows
  {
    var l := LastLine(cells, st, e);
    assert l.cells[..|cells|] == cells;
    assert PrintLine(l) == PrintOpen(cells) + OpenCell(st) + PrintEnd(e);
    assert Texts(l.cells) == st.row + [st.field];
  }

  lemma SoundEnd(lines: seq<Line>, cells: seq<Cell>, st: Reader) returns (d: Document)
    requires Consumed(lines, cells, st, "") && Read("", st).Rows?
    ensures ValidDocument(d) && Records(d.lines) == Read("", st).rows
    ensures Print(d) == PrintLines(lines, PrintOpen(cells) + OpenCell(st) + "")
  {
    if st.field == "" && st.row == [] {
      d := Document(lines, st.closed);
      assert cells == [] && Escape("") == "";
      assert PrintOpen(cells) + OpenCell(st) + "" == Trailer(d);
    } else {
      var l := LastLine(cells, st, EndOfText);
      CloseLine(lines, cells, st, EndOfText, "");
      assert PrintEnd(EndOfText) + "" == "";
      assert LineOk(l, "");
      LinesSnoc(lines, l, "");
      d := Document(lines + [l], false);
    }
  }

  lemma ConsumeLineEnd(lines: seq<Line>, cells: seq<Cell>, st: Reader, e: LineEnd, s: string)
    requires Consumed(lines, cells, st, PrintEnd(e) + s) && !st.quoted
    requires e != EndOfText && (e == CR ==> !StartsWith(s, '\n'))
    ensures Consumed(lines + [LastLine(cells, st, e)], [], EndRow(st), s)
    ensures PrintLines(lines + [LastLine(cells, st, e)], PrintOpen([]) + OpenCell(EndRow(st)) + s)
         == PrintLines(lines, PrintOpen(cells) + OpenCell(st) + (PrintEnd(e) + s))
  {
    var l := LastLine(cells, st, e);
    CloseLine(lines, cells, st, e, s);
    assert LineOk(l, s);
    LinesSnoc(lines, l, s);
    assert PrintOpen([]) + OpenCell(EndRow(st)) + s == s;
  }

  lemma ConsumeComma(lines: seq<Line>, cells: seq<Cell>, st: Reader, s: string)
    requires Consumed(lines, cells, st, "," + s) && !st.quoted
    ensures var cells' := cells + [Cell(st.field, st.closed)];
      var st' := st.(row := st.row + [st.field], field := "", closed := false);
      && Consumed(lines, cells', st', s)
      && PrintOpen(cells') + OpenCell(st') + s == PrintOpen(cells) + OpenCell(st) + ("," + s)
  {
    var cell := Cell(st.field, st.closed);
    PrintOpenSnoc(cells, cell);
    var st' := st.(row := st.row + [st.field], field := "", closed := false);
    assert Texts(cells + [cell]) == st'.row;
    assert PrintOpen(cells + [cell]) + OpenCell(st') + s == PrintOpen(cells) + OpenCell(st) + ("," + s);
  }

  /** What one or two characters inside a cell do to the reader. */
  function Extend(st: Reader, eaten: string): Reader
    requires eaten != ""
  {
    if st.quoted && eaten == "\"" then st.(quoted := false, closed := true)
    else if !st.quoted && eaten == "\"" then st.(quoted := true)
    else st.(field := st.field + [eaten[0]])
  }

  predicate InCell(st: Reader, eaten: string) {
    && (if eaten == "\"\"" then st.quoted else |eaten| == 1)
    && (!st.quoted ==> !st.closed && (if eaten == "\"" then st.field == "" else Plain(eaten[0])))
  }

  lemma ExtendCell(st: Reader, eaten: string)
    requires InCell(st, eaten)
    ensures OpenCell(Extend(st, eaten)) == OpenCell(st) + eaten
  {
    if st.quoted && eaten != "\"" {
      EscapeSnoc(st.field, eaten[0]);
    } else if !st.quoted && eaten == "\"" {
      assert Escape("") == "";
    }
  }

  lemma ConsumeInCell(lines: seq<Line>, cells: seq<Cell>, st: Reader, eaten: string, s: string)
    requires Consumed(lines, cells, st, eaten + s) && InCell(st, eaten)
    ensures Consumed(lines, cells, Extend(st, eaten), s)
    ensures PrintOpen(cells) + OpenCell(Extend(st, eaten)) + s == PrintOpen(cells) + OpenCell(st) + (eaten + s)
  {
    ExtendCell(st, eaten);
    Regroup(PrintOpen(cells), OpenCell(st), eaten, s);
  }

  lemma Regroup(a: string, b: string, c: string, d: string)
    ensures a + (b + c) + d == a + b + (c + d)
  {
  }

  /** The reader's next move when it is not at the end of the text. */
  function Eaten(st: Reader, s: string): string
    requires s != ""
  {
    if s[0] == '"' && st.quoted && StartsWith(s[1..], '"') then "\"\""
    else if s[0] == '\r' && !st.quoted && StartsWith(s[1..], '\n') then "\r\n"
    else [s[0]]
  }

  lemma EatenPrefix(st: Reader, s: string)
    requires s != ""
    ensures |Eaten(st, s)| <= |s| && s == Eaten(st, s) + s[|Eaten(st, s)|..]
  {
  }

  lemma ReadInCell(st: Reader, s: string)
    requires s != "" && Read(s, st).Rows?
    requires st.quoted || (s[0] != ',' && s[0] != '\n' && s[0] != '\r')
    requires !(st.quoted && st.closed)
    ensures InCell(st, Eaten(st, s))
    ensures Read(s, st) == Read(s[|Eaten(st, s)|..], Extend(st, Eaten(st, s)))
  {
  }

  lemma {:induction false} SoundFrom(lines: seq<Line>, cells: seq<Cell>, st: Reader, s: string) returns (d: Document)
    requires Consumed(lines, cells, st, s) && Read(s, st).Rows?
    ensures ValidDocument(d) && Records(d.lines) == Read(s, st).rows
    ensures Print(d) == PrintLines(lines, PrintOpen(cells) + OpenCell(st) + s)
    decreases |s|
  {
    if s == "" {
      d := SoundEnd(lines, cells, st);
      return;
    }
    var eaten := Eaten(st, s);
    EatenPrefix(st, s);
    var rest := s[|eaten|..];
    if !st.quoted && (s[0] == '\n' || s[0] == '\r') {
      var e := if eaten == "\n" then LF else if eaten == "\r\n" then CRLF else CR;
      ConsumeLineEnd(lines, cells, st, e, rest);
      d := SoundFrom(lines + [LastLine(cells, st, e)], [], EndRow(st), rest);
    } else if !st.quoted && s[0] == ',' {
      ConsumeComma(lines, cells, st, rest);
      d := SoundFrom(lines, cells + [Cell(st.field, st.closed)],
        st.(row := st.row + [st.field], field := "", closed := false), rest);
    } else {
      ReadInCell(st, s);
      ConsumeInCell(lines, cells, st, eaten, rest);
      d := SoundFrom(lines, cells, Extend(st, eaten), rest);
    }
  }

  /** Soundness: whatever is accepted is the printed form of a document with those records. */
  lemma ReadsOnlyDocuments(source: string) returns (d: Document)
    requires Read(source, START).Rows?
    ensures ValidDocument(d) && Print(d) == source && Read(source, START).rows == Records(d.lines)
    ensures |d.lines| <= MAX_ROWS
  {
    assert PrintOpen([]) + OpenCell(START) + source == source;
    assert Records([]) == [];
    d := SoundFrom([], [], START, source);
    ReadsEveryDocument(d);
  }

  /** A text is read as these rows if and only if it is the printed form of a well-formed document of at
      most 501 records with these contents. */
  lemma AcceptedIffDocument(source: string, rows: seq<seq<string>>)
    ensures Read(source, START) == Rows(rows)
       <==> exists d :: ValidDocument(d) && |d.lines| <= MAX_ROWS && Print(d) == source && Records(d.lines) == rows
  {
    if Read(source, START) == Rows(rows) {
      var d := ReadsOnlyDocuments(source);
    }
    forall d | ValidDocument(d) && |d.lines| <= MAX_ROWS && Print(d) == source && Records(d.lines) == rows
      ensures Read(source, START) == Rows(rows)
    {
      ReadsEveryDocument(d);
    }
  }

  // ----- The section 2 printer: quote only when needed, one line break per record -----

  function RfcCell(text: string): Cell {
    Cell(text, !AllPlain(text))
  }

  function RfcLine(row: seq<string>, crlf: bool): Line {
    Line(seq(|row|, i requires 0 <= i < |row| => RfcCell(row[i])), if crlf then CRLF else LF)
  }

  function RfcDocument(rows: seq<seq<string>>, crlf: seq<bool>): Document
    requires |crlf| == |rows|
  {
    Document(seq(|rows|, i requires 0 <= i < |rows| => RfcLine(rows[i], crlf[i])), false)
  }

  predicate Broken(lines: seq<Line>) {
    forall l :: l in lines ==> l.cells != [] && CellsOk(l.cells) && (l.end == LF || l.end == CRLF)
  }

  /** Records that all end in a line break may be followed by anything. */
  lemma {:induction false} BreakEveryLine(lines: seq<Line>, after: string)
    requires Broken(lines)
    ensures LinesOk(lines, after) && PrintLines(lines, after) == PrintLines(lines, "") + after
    decreases |lines|
  {
    if lines != [] {
      BreakEveryLine(lines[1..], after);
    }
  }

  lemma RfcRecords(rows: seq<seq<string>>, crlf: seq<bool>)
    requires |crlf| == |rows| && forall r :: r in rows ==> r != []
    ensures Broken(RfcDocument(rows, crlf).lines) && Records(RfcDocument(rows, crlf).lines) == rows
  {
    var lines := RfcDocument(rows, crlf).lines;
    forall i | 0 <= i < |rows|
      ensures Texts(lines[i].cells) == rows[i] && lines[i].cells != []
    {
      assert rows[i] in rows;
    }
    assert Records(lines) == rows;
  }

  /** Round trip: printing any table and reading it back gives the table, up to 501 rows. */
  lemma RfcRoundTrip(rows: seq<seq<string>>, crlf: seq<bool>)
    requires |crlf| == |rows| && forall r :: r in rows ==> r != []
    ensures Read(Print(RfcDocument(rows, crlf)), START)
         == if |rows| <= MAX_ROWS then Rows(rows) else Rejected(TooManyRows)
  {
    RfcRecords(rows, crlf);
    BreakEveryLine(RfcDocument(rows, crlf).lines, "");
    ReadsEveryDocument(RfcDocument(rows, crlf));
  }

  /** Re-reading a printed accepted text changes nothing: printing is a normal form. */
  lemma PrintingNormalises(source: string, crlf: seq<bool>)
    requires Read(source, START).Rows? && |crlf| == |Read(source, START).rows|
    ensures Read(Print(RfcDocument(Read(source, START).rows, crlf)), START) == Read(source, START)
  {
    var d := ReadsOnlyDocuments(source);
    LinesHaveCells(d.lines, Trailer(d));
    RfcRoundTrip(Read(source, START).rows, crlf);
  }

  lemma {:induction false} LinesHaveCells(lines: seq<Line>, after: string)
    requires LinesOk(lines, after)
    ensures forall r :: r in Records(lines) ==> r != []
    decreases |lines|
  {
    if lines != [] {
      LinesHaveCells(lines[1..], after);
      assert Records(lines) == [Texts(lines[0].cells)] + Records(lines[1..]);
    }
  }

  const EMPTY_RECORD := Line([Cell("", true)], LF)

  lemma EmptyRecordText()
    ensures PrintLine(EMPTY_RECORD) == "\"\"\n" && Texts(EMPTY_RECORD.cells) == [""]
  {
    assert Escape("") == "";
  }

  /** A final record that is only `""` is lost unless a line break follows it. */
  lemma UnterminatedEmptyRecordIsLost(rows: seq<seq<string>>, crlf: seq<bool>)
    requires |crlf| == |rows| < MAX_ROWS && forall r :: r in rows ==> r != []
    ensures var text := Print(RfcDocument(rows, crlf));
      && Read(text + "\"\"", START) == Rows(rows)
      && Read(text + "\"\"\n", START) == Rows(rows + [[""]])
  {
    var d := RfcDocument(rows, crlf);
    RfcRecords(rows, crlf);
    BreakEveryLine(d.lines, "\"\"");
    ReadsEveryDocument(d.(trailer := true));
    TerminatedEmptyRecordIsKept(rows, crlf);
  }

  lemma EmptyRecordAdded(lines: seq<Line>)
    requires Broken(lines)
    ensures var longer := lines + [EMPTY_RECORD];
      && LinesOk(longer, "") && PrintLines(longer, "") == PrintLines(lines, "") + "\"\"\n"
      && Records(longer) == Records(lines) + [[""]]
  {
    EmptyRecordText();
    assert PrintLine(EMPTY_RECORD) + "" == "\"\"\n";
    BreakEveryLine(lines, PrintLine(EMPTY_RECORD) + "");
    LinesSnoc(lines, EMPTY_RECORD, "");
    EmptyRecordLast(lines);
  }

  lemma EmptyRecordLast(lines: seq<Line>)
    ensures Records(lines + [EMPTY_RECORD]) == Records(lines) + [[""]]
  {
    assert Texts(EMPTY_RECORD.cells) == [""];
  }

  lemma TerminatedEmptyRecordIsKept(rows: seq<seq<string>>, crlf: seq<bool>)
    requires |crlf| == |rows| < MAX_ROWS && forall r :: r in rows ==> r != []
    ensures Read(Print(RfcDocument(rows, crlf)) + "\"\"\n", START) == Rows(rows + [[""]])
  {
    var d := RfcDocument(rows, crlf);
    RfcRecords(rows, crlf);
    EmptyRecordAdded(d.lines);
    ReadsEveryDocument(Document(d.lines + [EMPTY_RECORD], false));
  }
}
