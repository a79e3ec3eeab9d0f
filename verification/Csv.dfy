/** The CSV download of the report page, and an independent reader of the format of section 2 of RFC 4180 (with a single
    line feed between records, as the page prints). */
module Csv {
  import opened Options
  import opened Text

  /** A table value: null, or its printed form. */
  datatype Cell = Null | Value(text: string)

  function TextOf(cell: Cell): string {
    if cell.Null? then "" else cell.text
  }

  const BOM := '\U{FEFF}'

  // ---------------------------------------------------------------------------------------
  // The printer
  // ---------------------------------------------------------------------------------------

  predicate NeedsQuotes(s: string) {
    '"' in s || ',' in s || '\n' in s
  }

  function DoubleQuotes(s: string): string {
    if s == "" then ""
    else (if s[0] == '"' then "\"\"" else [s[0]]) + DoubleQuotes(s[1..])
  }

  function Esc(cell: Cell): string {
    var s := TextOf(cell);
    if NeedsQuotes(s) then "\"" + DoubleQuotes(s) + "\"" else s
  }

  function Line(row: seq<Cell>): string {
    Join(seq(|row|, k requires 0 <= k < |row| => Esc(row[k])), ',')
  }

  function Lines(table: seq<seq<Cell>>): string {
    Join(seq(|table|, k requires 0 <= k < |table| => Line(table[k])), '\n')
  }

  /** The downloaded text: a byte order mark, the header line and one line per row. */
  function Download(headers: seq<Cell>, rows: seq<seq<Cell>>): string {
    [BOM] + Lines([headers] + rows)
  }

  // ---------------------------------------------------------------------------------------
  // The reader
  // ---------------------------------------------------------------------------------------

  datatype Mode = FieldStart | Unquoted | Quoted | QuoteSeen

  datatype Reading = Reading(mode: Mode, field: string, row: seq<string>, rows: seq<seq<string>>)

  function EndField(r: Reading): Reading {
    Reading(FieldStart, "", r.row + [r.field], r.rows)
  }

  function EndRecord(r: Reading): Reading {
    Reading(FieldStart, "", [], r.rows + [r.row + [r.field]])
  }

  function Append(r: Reading, mode: Mode, c: char): Reading {
    r.(mode := mode, field := r.field + [c])
  }

  /** One character.  A quote inside an unquoted field and text after a closing quote are errors. */
  function ReadChar(r: Reading, c: char): Option<Reading> {
    match r.mode
    case FieldStart =>
      if c == '"' then Some(r.(mode := Quoted))
      else if c == ',' then Some(EndField(r))
      else if c == '\n' then Some(EndRecord(r))
      else Some(Append(r, Unquoted, c))
    case Unquoted =>
      if c == '"' then None
      else if c == ',' then Some(EndField(r))
      else if c == '\n' then Some(EndRecord(r))
      else Some(Append(r, Unquoted, c))
    case Quoted =>
      if c == '"' then Some(r.(mode := QuoteSeen)) else Some(Append(r, Quoted, c))
    case QuoteSeen =>
      if c == '"' then Some(Append(r, Quoted, c))
      else if c == ',' then Some(EndField(r))
      else if c == '\n' then Some(EndRecord(r))
      else None
  }

  function ReadAll(r: Reading, s: string): Option<seq<seq<string>>>
    decreases s
  {
    if s == "" then (if r.mode.Quoted? then None else Some(EndRecord(r).rows))
    else
      var next := ReadChar(r, s[0]);
      if next.None? then None else ReadAll(next.value, s[1..])
  }

  function Parse(s: string): Option<seq<seq<string>>> {
    ReadAll(Reading(FieldStart, "", [], []), s)
  }

  // ---------------------------------------------------------------------------------------
  // Round trip
  // ---------------------------------------------------------------------------------------

  lemma {:induction false} ReadUnquoted(r: Reading, s: string, rest: string)
    requires r.mode.Unquoted? && !NeedsQuotes(s)
    ensures ReadAll(r, s + rest) == ReadAll(r.(field := r.field + s), rest)
    decreases s
  {
    if s == "" {
      assert s + rest == rest && r.field + s == r.field;
    } else {
      assert (s + rest)[0] == s[0] && (s + rest)[1..] == s[1..] + rest;
      ReadUnquoted(Append(r, Unquoted, s[0]), s[1..], rest);
      assert r.field + [s[0]] + s[1..] == r.field + s;
    }
  }

  lemma ReadQuotedChar(r: Reading, c: char, tail: string)
    requires r.mode.Quoted?
    ensures ReadAll(r, (if c == '"' then "\"\"" else [c]) + tail) == ReadAll(Append(r, Quoted, c), tail)
  {
  }

  lemma {:induction false} ReadQuoted(r: Reading, s: string, rest: string)
    requires r.mode.Quoted?
    ensures ReadAll(r, DoubleQuotes(s) + rest) == ReadAll(r.(field := r.field + s), rest)
    decreases s
  {
    hide ReadAll;
    if s == "" {
      assert DoubleQuotes(s) + rest == rest && r.field + s == r.field;
    } else {
      var head := if s[0] == '"' then "\"\"" else [s[0]];
      assert DoubleQuotes(s) + rest == head + (DoubleQuotes(s[1..]) + rest);
      ReadQuotedChar(r, s[0], DoubleQuotes(s[1..]) + rest);
      ReadQuoted(Append(r, Quoted, s[0]), s[1..], rest);
      assert r.field + [s[0]] + s[1..] == r.field + s;
    }
  }

  /** One character taken. */
  lemma ReadOne(r: Reading, c: char, rest: string)
    ensures ReadAll(r, [c] + rest) == var next := ReadChar(r, c); if next.None? then None else ReadAll(next.value, rest)
  {
  }

  lemma ReadQuotedCell(r: Reading, s: string, rest: string)
    requires r.mode.FieldStart? && r.field == ""
    ensures ReadAll(r, "\"" + DoubleQuotes(s) + "\"" + rest) == ReadAll(r.(mode := QuoteSeen, field := s), rest)
  {
    hide ReadAll, DoubleQuotes;
    var inner := DoubleQuotes(s) + ("\"" + rest);
    assert "\"" + DoubleQuotes(s) + "\"" + rest == ['"'] + inner;
    ReadOne(r, '"', inner);
    ReadQuoted(r.(mode := Quoted), s, "\"" + rest);
    assert "" + s == s;
    ReadOne(r.(mode := Quoted, field := s), '"', rest);
  }

  lemma ReadPlainCell(r: Reading, s: string, rest: string)
    requires r.mode.FieldStart? && r.field == "" && s != "" && !NeedsQuotes(s)
    ensures ReadAll(r, s + rest) == ReadAll(r.(mode := Unquoted, field := s), rest)
  {
    hide ReadAll;
    assert s + rest == [s[0]] + (s[1..] + rest);
    assert s[0] in s;
    ReadOne(r, s[0], s[1..] + rest);
    ReadUnquoted(Append(r, Unquoted, s[0]), s[1..], rest);
    assert "" + [s[0]] + s[1..] == s;
  }

  /** After an escaped cell the reader is where a complete field leaves it. */
  lemma ReadCell(row: seq<string>, rows: seq<seq<string>>, cell: Cell, rest: string) returns (mode: Mode)
    ensures !mode.Quoted?
    ensures ReadAll(Reading(FieldStart, "", row, rows), Esc(cell) + rest)
            == ReadAll(Reading(mode, TextOf(cell), row, rows), rest)
  {
    hide ReadAll, DoubleQuotes, NeedsQuotes;
    var s := TextOf(cell);
    var r := Reading(FieldStart, "", row, rows);
    if NeedsQuotes(s) {
      mode := QuoteSeen;
      ReadQuotedCell(r, s, rest);
    } else if s == "" {
      mode := FieldStart;
      assert Esc(cell) + rest == rest;
    } else {
      mode := Unquoted;
      ReadPlainCell(r, s, rest);
    }
  }

  function Texts(row: seq<Cell>): seq<string> {
    seq(|row|, k requires 0 <= k < |row| => TextOf(row[k]))
  }

  /** An empty row prints like a row of one empty cell. */
  function Shown(row: seq<Cell>): seq<string> {
    if row == [] then [""] else Texts(row)
  }

  function ShownTable(table: seq<seq<Cell>>): seq<seq<string>> {
    seq(|table|, k requires 0 <= k < |table| => Shown(table[k]))
  }

  lemma LineUnfolds(row: seq<Cell>)
    requires |row| > 1
    ensures Line(row) == Esc(row[0]) + "," + Line(row[1..])
  {
    var parts := seq(|row|, k requires 0 <= k < |row| => Esc(row[k]));
    assert parts[1..] == seq(|row[1..]|, k requires 0 <= k < |row[1..]| => Esc(row[1..][k]));
  }

  predicate EndsLine(rest: string) {
    rest == "" || rest[0] == '\n'
  }

  /** What a comma, a line feed and the end of the text do after a complete field. */
  lemma AfterField(r: Reading, rest: string)
    requires !r.mode.Quoted?
    ensures ReadAll(r, "") == Some(r.rows + [r.row + [r.field]])
    ensures ReadAll(r, "," + rest) == ReadAll(Reading(FieldStart, "", r.row + [r.field], r.rows), rest)
    ensures ReadAll(r, "\n" + rest) == ReadAll(Reading(FieldStart, "", [], r.rows + [r.row + [r.field]]), rest)
  {
  }

  /** The state after a complete record that ended before `rest`. */
  function AfterRecord(rows: seq<seq<string>>, rest: string): Option<seq<seq<string>>> {
    if rest == "" then Some(rows) else ReadAll(Reading(FieldStart, "", [], rows), rest[1..])
  }

  lemma ReadLastCell(before: seq<string>, rows: seq<seq<string>>, cell: Cell, rest: string)
    requires EndsLine(rest)
    ensures ReadAll(Reading(FieldStart, "", before, rows), Esc(cell) + rest)
            == AfterRecord(rows + [before + [TextOf(cell)]], rest)
  {
    var mode := ReadCell(before, rows, cell, rest);
    var r := Reading(mode, TextOf(cell), before, rows);
    if rest != "" {
      AfterField(r, rest[1..]);
      assert rest == "\n" + rest[1..];
    } else {
      AfterField(r, "");
    }
  }

  lemma ReadInnerCell(before: seq<string>, rows: seq<seq<string>>, cell: Cell, rest: string)
    ensures ReadAll(Reading(FieldStart, "", before, rows), Esc(cell) + ("," + rest))
            == ReadAll(Reading(FieldStart, "", before + [TextOf(cell)], rows), rest)
  {
    var mode := ReadCell(before, rows, cell, "," + rest);
    AfterField(Reading(mode, TextOf(cell), before, rows), rest);
  }

  /** Reading one printed line leaves exactly its cells before the end of the record. */
  lemma {:induction false} ReadLine(before: seq<string>, rows: seq<seq<string>>, row: seq<Cell>, rest: string)
    requires row != [] && EndsLine(rest)
    ensures ReadAll(Reading(FieldStart, "", before, rows), Line(row) + rest)
            == AfterRecord(rows + [before + Texts(row)], rest)
    decreases |row|
  {
    hide ReadAll, Esc, TextOf, AfterRecord;
    if |row| == 1 {
      assert Line(row) == Esc(row[0]);
      ReadLastCell(before, rows, row[0], rest);
      assert Texts(row) == [TextOf(row[0])];
    } else {
      LineUnfolds(row);
      hide Line;
      assert Line(row) + rest == Esc(row[0]) + ("," + (Line(row[1..]) + rest));
      ReadInnerCell(before, rows, row[0], Line(row[1..]) + rest);
      ReadLine(before + [TextOf(row[0])], rows, row[1..], rest);
      assert before + [TextOf(row[0])] + Texts(row[1..]) == before + Texts(row);
    }
  }

  lemma EmptyRowPrintsAlike()
    ensures Line([]) == Line([Null]) && Texts([Null]) == [""]
  {
  }

  lemma LinesUnfold(table: seq<seq<Cell>>)
    requires |table| > 1
    ensures Lines(table) == Line(table[0]) + "\n" + Lines(table[1..])
  {
    var parts := seq(|table|, k requires 0 <= k < |table| => Line(table[k]));
    assert parts[1..] == seq(|table[1..]|, k requires 0 <= k < |table[1..]| => Line(table[1..][k]));
  }

  lemma ReadShown(rows: seq<seq<string>>, row: seq<Cell>, rest: string)
    requires EndsLine(rest)
    ensures ReadAll(Reading(FieldStart, "", [], rows), Line(row) + rest) == AfterRecord(rows + [Shown(row)], rest)
  {
    EmptyRowPrintsAlike();
    var shown := if row == [] then [Null] else row;
    ReadLine([], rows, shown, rest);
    assert [] + Texts(shown) == Shown(row);
  }

  lemma {:induction false} ReadLines(rows: seq<seq<string>>, table: seq<seq<Cell>>)
    requires table != []
    ensures ReadAll(Reading(FieldStart, "", [], rows), Lines(table)) == Some(rows + ShownTable(table))
    decreases |table|
  {
    if |table| == 1 {
      hide ReadAll, Line, Shown;
      assert Lines(table) == Line(table[0]) + "";
      ReadShown(rows, table[0], "");
      assert ShownTable(table) == [Shown(table[0])];
    } else {
      LinesUnfold(table);
      hide ReadAll, Line, Lines, Shown;
      var rest := "\n" + Lines(table[1..]);
      assert Lines(table) == Line(table[0]) + rest;
      ReadShown(rows, table[0], rest);
      assert rest[1..] == Lines(table[1..]);
      ReadLines(rows + [Shown(table[0])], table[1..]);
      assert rows + [Shown(table[0])] + ShownTable(table[1..]) == rows + ShownTable(table);
    }
  }

  function TableTexts(table: seq<seq<Cell>>): seq<seq<string>> {
    seq(|table|, k requires 0 <= k < |table| => Texts(table[k]))
  }

  /** A row as it is read: every value as its text, null as nothing, and a row without cells as one empty cell. */
  predicate ReadsAs(row: seq<Cell>, read: seq<string>) {
    if row == [] then read == [""]
    else
      && |read| == |row|
      && forall k :: 0 <= k < |row| ==>
           match row[k] case Null => read[k] == "" case Value(text) => read[k] == text
  }

  /** What a reader gets from any download, after the byte order mark: all rows, cell by cell. */
  lemma DownloadReads(headers: seq<Cell>, rows: seq<seq<Cell>>)
    ensures Download(headers, rows)[0] == '\U{FEFF}'
    ensures var read := Parse(Download(headers, rows)[1..]);
            && read.Some? && |read.value| == |rows| + 1 && ReadsAs(headers, read.value[0])
            && forall k :: 0 <= k < |rows| ==> ReadsAs(rows[k], read.value[k + 1])
  {
    DownloadShows(headers, rows);
  }

  /** A value is printed as it is exactly if it holds no quote, no comma and no line feed. */
  lemma PlainIff(text: string)
    ensures Esc(Value(text)) == text <==> '"' !in text && ',' !in text && '\n' !in text
  {
    if NeedsQuotes(text) {
      DoublingIsLonger(text);
      assert |Esc(Value(text))| > |text|;
    }
  }

  lemma {:induction false} DoublingIsLonger(text: string)
    ensures |DoubleQuotes(text)| >= |text|
  {
    if text != "" { DoublingIsLonger(text[1..]); }
  }

  lemma DownloadShows(headers: seq<Cell>, rows: seq<seq<Cell>>)
    ensures Parse(Download(headers, rows)[1..]) == Some(ShownTable([headers] + rows))
  {
    assert Download(headers, rows)[1..] == Lines([headers] + rows);
    ReadLines([], [headers] + rows);
    assert [] + ShownTable([headers] + rows) == ShownTable([headers] + rows);
  }

  /** The download reads back as exactly the header and the rows, whatever the cells hold, if and only if none of them
      is empty. */
  lemma RoundTripIff(headers: seq<Cell>, rows: seq<seq<Cell>>)
    ensures Parse(Download(headers, rows)[1..]) == Some(TableTexts([headers] + rows))
            <==> (headers != [] && forall k :: 0 <= k < |rows| ==> rows[k] != [])
  {
    var table := [headers] + rows;
    DownloadShows(headers, rows);
    if forall k :: 0 <= k < |table| ==> table[k] != [] {
      assert ShownTable(table) == TableTexts(table);
      forall k | 0 <= k < |rows| ensures rows[k] != [] { assert table[k + 1] == rows[k]; }
      assert table[0] == headers;
    } else {
      var k :| 0 <= k < |table| && table[k] == [];
      assert ShownTable(table)[k] == [""] && TableTexts(table)[k] == [];
      if k > 0 { assert rows[k - 1] == []; }
    }
  }

  /** Two downloads with the same text show the same tables. */
  lemma DownloadIsInjective(headers: seq<Cell>, rows: seq<seq<Cell>>, headers': seq<Cell>, rows': seq<seq<Cell>>)
    requires Download(headers, rows) == Download(headers', rows')
    requires headers != [] && headers' != []
    requires (forall k :: 0 <= k < |rows| ==> rows[k] != []) && (forall k :: 0 <= k < |rows'| ==> rows'[k] != [])
    ensures TableTexts([headers] + rows) == TableTexts([headers'] + rows')
  {
    RoundTripIff(headers, rows);
    RoundTripIff(headers', rows');
  }
}
