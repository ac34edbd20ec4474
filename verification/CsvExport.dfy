/**
 The CSV exporters and a reader of their output. The reader follows section 2 of RFC 4180, with LF
 as the line break and its rule 2: the last record may or may not end in a line break.
 */
module CsvExport {
  import opened Wrappers

  type Row = seq<string>
  type Table = seq<Row>

  // ---- the printer ----

  function Doubled(s: string): string {
    if s == "" then "" else (if s[0] == '"' then "\"\"" else [s[0]]) + Doubled(s[1..])
  }

  predicate NeedsQuotes(s: string) { ',' in s || '"' in s || '\n' in s }

  function CsvEscape(s: string): string {
    if NeedsQuotes(s) then "\"" + Doubled(s) + "\"" else s
  }

  /** The join of JavaScript arrays. */
  function Join(parts: seq<string>, separator: char): string {
    if parts == [] then ""
    else if |parts| == 1 then parts[0]
    else parts[0] + [separator] + Join(parts[1..], separator)
  }

  function Escaped(row: Row): seq<string> {
    seq(|row|, i requires 0 <= i < |row| => CsvEscape(row[i]))
  }

  function Line(row: Row): string { Join(Escaped(row), ',') }

  function Lines(table: Table): seq<string> {
    seq(|table|, i requires 0 <= i < |table| => Line(table[i]))
  }

  function Print(table: Table): string { Join(Lines(table), '\n') }

  /** The exporters join the header unescaped, push one line per row, and join the lines. */
  method ExportCsv(header: Row, rows: Table) returns (text: string)
    requires forall name <- header :: !NeedsQuotes(name)
    ensures text == Print([header] + rows)
  {
    var lines := [Join(header, ',')];
    assert Escaped(header) == header;
    assert lines == Lines(([header] + rows)[..1]);
    for i := 0 to |rows|
      invariant lines == Lines(([header] + rows)[..i + 1])
    {
      lines := lines + [Line(rows[i])];
    }
    assert ([header] + rows)[..|rows| + 1] == [header] + rows;
    text := Join(lines, '\n');
  }

  /** Quotes are added only where a comma, a quote or a line break asks for them. */
  lemma QuotedIff(s: string)
    ensures CsvEscape(s) != s <==> exists i :: 0 <= i < |s| && s[i] in {',', '"', '\n'}
    ensures CsvEscape(s) != s ==> |CsvEscape(s)| >= |s| + 2 && CsvEscape(s)[0] == '"'
  {
    DoubledIsLonger(s);
    if exists i :: 0 <= i < |s| && s[i] in {',', '"', '\n'} { assert NeedsQuotes(s); }
  }

  lemma {:induction false} DoubledIsLonger(s: string)
    ensures |Doubled(s)| >= |s|
  {
    if s == "" {
    } else {
      DoubledIsLonger(s[1..]);
    }
  }

  // ---- the reader ----

  /** The rest of a quoted field, after its opening quote, and what follows the closing quote. */
  function ReadQuoted(s: string): (r: Option<(string, string)>)
    ensures r.Some? ==> |r.value.1| < |s|
  {
    if s == "" then None
    else if s[0] != '"' then Prefixed(s[0], ReadQuoted(s[1..]))
    else if |s| > 1 && s[1] == '"' then Prefixed('"', ReadQuoted(s[2..]))
    else Some(("", s[1..]))
  }

  /** An unquoted field runs up to a comma or a line break and holds no quote. */
  function ReadPlain(s: string): (r: Option<(string, string)>)
    ensures r.Some? ==> |r.value.1| <= |s|
  {
    if s == "" || s[0] == ',' || s[0] == '\n' then Some(("", s))
    else if s[0] == '"' then None
    else Prefixed(s[0], ReadPlain(s[1..]))
  }

  function Prefixed(c: char, r: Option<(string, string)>): Option<(string, string)> {
    if r.Some? then Some(([c] + r.value.0, r.value.1)) else None
  }

  function ReadField(s: string): (r: Option<(string, string)>)
    ensures r.Some? ==> |r.value.1| <= |s|
  {
    if s != "" && s[0] == '"' then ReadQuoted(s[1..]) else ReadPlain(s)
  }

  /** The fields of one record and the text from its line break on. */
  function ReadRecord(s: string): (r: Option<(Row, string)>)
    ensures r.Some? ==> |r.value.1| <= |s|
    decreases |s|
  {
    var field := ReadField(s);
    if field.None? then None
    else
      var (text, rest) := field.value;
      if rest == "" || rest[0] == '\n' then Some(([text], rest))
      else if rest[0] != ',' then None
      else
        var more := ReadRecord(rest[1..]);
        if more.None? then None else Some(([text] + more.value.0, more.value.1))
  }

  function Read(s: string): Option<Table>
    decreases |s|
  {
    if s == "" then Some([])
    else
      var record := ReadRecord(s);
      if record.None? then None
      else if record.value.1 == "" then Some([record.value.0])
      else
        var more := Read(record.value.1[1..]);
        if more.None? then None else Some([record.value.0] + more.value)
  }

  // ---- the round trip ----

  /** A text that may follow a field. */
  predicate AtDelimiter(s: string) { s == "" || s[0] == ',' || s[0] == '\n' }

  lemma {:induction false} QuotedRoundTrip(s: string, rest: string)
    requires AtDelimiter(rest)
    ensures ReadQuoted(Doubled(s) + "\"" + rest) == Some((s, rest))
  {
    var text := Doubled(s) + "\"" + rest;
    if s == "" {
      assert text == "\"" + rest;
    } else {
      QuotedRoundTrip(s[1..], rest);
      var tail := Doubled(s[1..]) + "\"" + rest;
      assert text == (if s[0] == '"' then "\"\"" else [s[0]]) + tail;
      assert text[(if s[0] == '"' then 2 else 1)..] == tail;
      assert [s[0]] + s[1..] == s;
    }
  }

  lemma {:induction false} PlainRoundTrip(s: string, rest: string)
    requires !NeedsQuotes(s) && AtDelimiter(rest)
    ensures ReadPlain(s + rest) == Some((s, rest))
  {
    if s == "" {
      assert s + rest == rest;
    } else {
      assert s[0] in s && !NeedsQuotes(s[1..]);
      PlainRoundTrip(s[1..], rest);
      assert (s + rest)[1..] == s[1..] + rest;
      assert [s[0]] + s[1..] == s;
    }
  }

  lemma FieldRoundTrip(s: string, rest: string)
    requires AtDelimiter(rest)
    ensures ReadField(CsvEscape(s) + rest) == Some((s, rest))
  {
    hide ReadQuoted;
    hide ReadPlain;
    hide Doubled;
    if NeedsQuotes(s) {
      QuotedRoundTrip(s, rest);
      assert (CsvEscape(s) + rest)[1..] == Doubled(s) + "\"" + rest;
    } else {
      PlainRoundTrip(s, rest);
      if s == "" {
        assert s + rest == rest;
      } else {
        assert s[0] in s && (s + rest)[0] == s[0];
      }
    }
  }

  lemma {:induction false} RecordRoundTrip(row: Row, rest: string)
    requires row != [] && (rest == "" || rest[0] == '\n')
    ensures ReadRecord(Line(row) + rest) == Some((row, rest))
    decreases |row|
  {
    if |row| == 1 {
      FieldRoundTrip(row[0], rest);
      assert row == [row[0]];
    } else {
      var tail := Line(row[1..]) + rest;
      assert Escaped(row)[1..] == Escaped(row[1..]);
      assert Line(row) + rest == CsvEscape(row[0]) + ([','] + tail);
      FieldRoundTrip(row[0], [','] + tail);
      RecordRoundTrip(row[1..], rest);
      assert ([','] + tail)[1..] == tail;
      assert row == [row[0]] + row[1..];
    }
  }

  /** Only a row of one empty field prints as an empty line. */
  lemma EmptyLine(row: Row)
    requires row != []
    ensures Line(row) == "" <==> row == [""]
  {
    if |row| == 1 {
      assert row == [row[0]];
    } else {
      assert |Line(row)| >= 1;
    }
  }

  predicate NoEmptyRow(table: Table) { forall i :: 0 <= i < |table| ==> table[i] != [] }

  /** A single empty field in the last row is what the optional final line break hides. */
  function Visible(table: Table): Table
    requires table != []
  {
    if table[|table| - 1] == [""] then table[..|table| - 1] else table
  }

  lemma PrintUnfolds(table: Table)
    requires |table| > 1
    ensures Print(table) == Line(table[0]) + ("\n" + Print(table[1..]))
  {
    assert Lines(table)[1..] == Lines(table[1..]);
  }

  lemma ReadOneRow(row: Row)
    requires row != []
    ensures Read(Line(row)) == Some(Visible([row]))
  {
    EmptyLine(row);
    RecordRoundTrip(row, "");
    assert Line(row) + "" == Line(row);
    hide Line;
    hide ReadRecord;
  }

  /** A line, a line break and the lines of a table read as the row and the table. */
  lemma ReadOneMore(row: Row, more: string, table: Table)
    requires row != [] && Read(more) == Some(table)
    ensures Read(Line(row) + ("\n" + more)) == Some([row] + table)
  {
    var rest := "\n" + more;
    RecordRoundTrip(row, rest);
    hide Line;
    hide ReadRecord;
    assert rest[1..] == more && rest != "";
  }

  lemma {:induction false} ReadGivesVisible(table: Table)
    requires table != [] && NoEmptyRow(table)
    ensures Read(Print(table)) == Some(Visible(table))
    decreases |table|
  {
    var row := table[0];
    if |table| == 1 {
      assert table == [row] && Print(table) == Line(row);
      hide *;
      ReadOneRow(row);
    } else {
      var others := table[1..];
      assert NoEmptyRow(others) && row != [];
      assert Visible(table) == [row] + Visible(others);
      hide *;
      ReadGivesVisible(others);
      PrintUnfolds(table);
      ReadOneMore(row, Print(others), Visible(others));
    }
  }

  /** Reading a printed table gives the table back exactly when its last row is not a single empty field. */
  lemma RoundTripIff(table: Table)
    requires table != [] && NoEmptyRow(table)
    ensures Read(Print(table)) == Some(table) <==> table[|table| - 1] != [""]
  {
    ReadGivesVisible(table);
    if table[|table| - 1] == [""] { assert |Visible(table)| < |table|; }
  }

  /** Every table with at least two columns survives the round trip. */
  lemma RoundTrip(table: Table)
    requires table != [] && forall row <- table :: |row| >= 2
    ensures Read(Print(table)) == Some(table)
  {
    RoundTripIff(table);
  }

  /** So the exported text determines the table. */
  lemma TextDeterminesTable(a: Table, b: Table)
    requires a != [] && (forall row <- a :: |row| >= 2)
    requires b != [] && (forall row <- b :: |row| >= 2)
    requires Print(a) == Print(b)
    ensures a == b
  {
    RoundTrip(a);
    RoundTrip(b);
  }
}
