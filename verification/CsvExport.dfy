/** frontend/assets/app.js, exportCsv, against a reader for section 2 of RFC 4180. */
module CsvExport {
  import opened Wrappers

  // ----------------------------------------------------------------- the writer

  /** A value of a result row; null and undefined are Absent. */
  datatype Value = Absent | Shown(text: string)

  type Row = map<string, Value>

  const COLUMNS := ["timestamp", "subscriber_id", "private_ip", "private_port", "public_ip",
                    "public_port", "dest_ip", "dest_port", "protocol", "router_ip",
                    "session_start_time", "session_end_time"]

  function CellText(row: Row, column: string): string {
    if column in row && row[column].Shown? then row[column].text else ""
  }

  /** The characters that make a spreadsheet evaluate a cell. */
  predicate Dangerous(c: char) {
    c == '=' || c == '+' || c == '-' || c == '@' || c == '\t' || c == '\r'
  }

  function Neutralise(s: string): string {
    if s != "" && Dangerous(s[0]) then "'" + s else s
  }

  /** replace(/"/g, '""') */
  function DoubleQuotes(s: string): string {
    if s == "" then "" else (if s[0] == '\"' then "\"\"" else [s[0]]) + DoubleQuotes(s[1..])
  }

  function Quote(s: string): string {
    "\"" + DoubleQuotes(s) + "\""
  }

  function Join(pieces: seq<string>, separator: string): string {
    if pieces == [] then ""
    else if |pieces| == 1 then pieces[0]
    else pieces[0] + separator + Join(pieces[1..], separator)
  }

  function Cells(row: Row, columns: seq<string>): (cells: seq<string>)
    ensures |cells| == |columns|
  {
    seq(|columns|, i requires 0 <= i < |columns| => Neutralise(CellText(row, columns[i])))
  }

  function Quoted(cells: seq<string>): (r: seq<string>)
    ensures |r| == |cells|
  {
    seq(|cells|, i requires 0 <= i < |cells| => Quote(cells[i]))
  }

  function Lines(rows: seq<Row>): (r: seq<string>)
    ensures |r| == |rows|
  {
    if rows == [] then [] else [Join(Quoted(Cells(rows[0], COLUMNS)), ",")] + Lines(rows[1..])
  }

  /** The file, unless there is nothing to export. */
  function Export(rows: seq<Row>): Option<string> {
    if rows == [] then None else Some(Join([Join(COLUMNS, ",")] + Lines(rows), "\r\n"))
  }

  // ----------------------------------------------------------------- a reader, section 2 of RFC 4180

  /** TEXTDATA, and the characters that a quoted field may hold besides. */
  predicate IsText(c: char) {
    c != '\"' && c != ',' && c != '\r' && c != '\n'
  }

  datatype Reading<T> = Fails | Reads(value: T, rest: string)

  /** The inside of a quoted field, up to its closing quote. */
  function ReadQuoted(t: string): (r: Reading<string>)
    ensures r.Reads? ==> |r.rest| < |t|
  {
    if t == "" then Fails
    else if t[0] != '\"' then
      var r := ReadQuoted(t[1..]);
      if r.Fails? then Fails else Reads([t[0]] + r.value, r.rest)
    else if |t| > 1 && t[1] == '\"' then
      var r := ReadQuoted(t[2..]);
      if r.Fails? then Fails else Reads("\"" + r.value, r.rest)
    else Reads("", t[1..])
  }

  function ReadPlain(t: string): (r: Reading<string>)
    ensures r.Reads? && |r.rest| <= |t|
  {
    if t == "" || !IsText(t[0]) then Reads("", t)
    else
      var r := ReadPlain(t[1..]);
      Reads([t[0]] + r.value, r.rest)
  }

  function ReadField(t: string): (r: Reading<string>)
    ensures r.Reads? ==> |r.rest| <= |t|
  {
    if t != "" && t[0] == '\"' then ReadQuoted(t[1..]) else ReadPlain(t)
  }

  function ReadRecord(t: string): (r: Reading<seq<string>>)
    ensures r.Reads? ==> |r.rest| <= |t|
    decreases |t|
  {
    var field := ReadField(t);
    if field.Fails? then Fails
    else if field.rest != "" && field.rest[0] == ',' then
      var others := ReadRecord(field.rest[1..]);
      if others.Fails? then Fails else Reads([field.value] + others.value, others.rest)
    else Reads([field.value], field.rest)
  }

  /** Records with CRLF between them; a final CRLF is allowed. */
  function ReadFile(t: string): Option<seq<seq<string>>>
    decreases |t|
  {
    var record := ReadRecord(t);
    if record.Fails? then None
    else if record.rest == "" || record.rest == "\r\n" then Some([record.value])
    else if |record.rest| > 2 && record.rest[..2] == "\r\n" then
      var others := ReadFile(record.rest[2..]);
      if others.None? then None else Some([record.value] + others.value)
    else None
  }

  // ----------------------------------------------------------------- round trip

  /** Nothing that a reader would take for more of the field. */
  predicate Ends(rest: string) {
    rest == "" || rest[0] == ',' || rest[0] == '\r'
  }

  lemma {:induction false} QuotedReads(s: string, rest: string)
    requires Ends(rest)
    ensures ReadQuoted(DoubleQuotes(s) + "\"" + rest) == Reads(s, rest)
  {
    var t := DoubleQuotes(s) + "\"" + rest;
    if s == "" {
      assert t == "\"" + rest;
      assert t[1..] == rest;
    } else {
      QuotedReads(s[1..], rest);
      var t' := DoubleQuotes(s[1..]) + "\"" + rest;
      if s[0] == '\"' {
        assert t == "\"\"" + t';
        assert t[2..] == t';
      } else {
        assert t == [s[0]] + t';
        assert t[1..] == t';
      }
      assert s == [s[0]] + s[1..];
    }
  }

  predicate AllText(s: string) {
    forall i :: 0 <= i < |s| ==> IsText(s[i])
  }

  lemma {:induction false} PlainReads(s: string, rest: string)
    requires AllText(s) && Ends(rest)
    ensures ReadPlain(s + rest) == Reads(s, rest)
  {
    if s == "" {
      assert s + rest == rest;
    } else {
      assert (s + rest)[1..] == s[1..] + rest;
      PlainReads(s[1..], rest);
      assert s == [s[0]] + s[1..];
    }
  }

  /** `written` stands for the value, quoted, or bare where that is allowed. */
  predicate Stands(written: string, value: string) {
    written == Quote(value) || (written == value && AllText(value))
  }

  predicate AllStand(written: seq<string>, values: seq<string>) {
    |written| == |values| && forall i :: 0 <= i < |values| ==> Stands(written[i], values[i])
  }

  lemma FieldReads(written: string, value: string, rest: string)
    requires Stands(written, value) && Ends(rest)
    ensures ReadField(written + rest) == Reads(value, rest)
  {
    if written == Quote(value) {
      assert (written + rest)[1..] == DoubleQuotes(value) + "\"" + rest;
      QuotedReads(value, rest);
    } else {
      PlainReads(value, rest);
      if value == "" {
        assert written + rest == rest;
      } else {
        assert (written + rest)[0] == value[0] && IsText(value[0]);
      }
    }
  }

  lemma {:induction false} RecordReads(written: seq<string>, values: seq<string>, rest: string)
    requires AllStand(written, values) && values != [] && (rest == "" || rest[0] == '\r')
    ensures ReadRecord(Join(written, ",") + rest) == Reads(values, rest)
    decreases |values|
  {
    if |values| == 1 {
      FieldReads(written[0], values[0], rest);
      assert values == [values[0]];
    } else {
      var after := "," + (Join(written[1..], ",") + rest);
      assert Join(written, ",") + rest == written[0] + after;
      FieldReads(written[0], values[0], after);
      assert after[1..] == Join(written[1..], ",") + rest;
      RecordReads(written[1..], values[1..], rest);
      assert values == [values[0]] + values[1..];
    }
  }

  predicate IsTable(written: seq<seq<string>>, values: seq<seq<string>>) {
    |written| == |values| && forall i :: 0 <= i < |values| ==> AllStand(written[i], values[i]) && |values[i]| > 1
  }

  function JoinAll(written: seq<seq<string>>): (r: seq<string>)
    ensures |r| == |written|
  {
    if written == [] then [] else [Join(written[0], ",")] + JoinAll(written[1..])
  }

  lemma LongerThanOneCell(pieces: seq<string>)
    requires |pieces| > 1
    ensures |Join(pieces, ",")| > 0
  {
  }

  lemma {:induction false} TableReads(written: seq<seq<string>>, values: seq<seq<string>>)
    requires IsTable(written, values) && values != []
    ensures ReadFile(Join(JoinAll(written), "\r\n")) == Some(values)
    decreases |values|
  {
    var lines := JoinAll(written);
    if |values| == 1 {
      RecordReads(written[0], values[0], "");
      assert lines[0] + "" == lines[0];
      assert values == [values[0]];
    } else {
      var others := Join(lines[1..], "\r\n");
      var rest := "\r\n" + others;
      assert Join(lines, "\r\n") == lines[0] + rest;
      RecordReads(written[0], values[0], rest);
      assert lines[1..] == JoinAll(written[1..]);
      LongerThanOneCell(written[1]);
      assert |others| > 0 by { FirstPiece(lines[1..]); }
      assert rest[2..] == others && rest[..2] == "\r\n";
      TableReads(written[1..], values[1..]);
      assert values == [values[0]] + values[1..];
    }
  }

  lemma FirstPiece(lines: seq<string>)
    requires lines != []
    ensures |Join(lines, "\r\n")| >= |lines[0]|
  {
  }

  /** What a reader should get: the column names, and the neutralised cells row by row. */
  function Sheet(rows: seq<Row>): (r: seq<seq<string>>)
    ensures |r| == |rows|
  {
    if rows == [] then [] else [Cells(rows[0], COLUMNS)] + Sheet(rows[1..])
  }

  function Written(rows: seq<Row>): (r: seq<seq<string>>)
    ensures |r| == |rows|
  {
    if rows == [] then [] else [Quoted(Cells(rows[0], COLUMNS))] + Written(rows[1..])
  }

  lemma {:induction false} LinesAreWritten(rows: seq<Row>)
    ensures JoinAll(Written(rows)) == Lines(rows) && IsTable(Written(rows), Sheet(rows))
  {
    if rows != [] {
      LinesAreWritten(rows[1..]);
      assert Written(rows)[1..] == Written(rows[1..]) && Sheet(rows)[1..] == Sheet(rows[1..]);
      assert AllStand(Quoted(Cells(rows[0], COLUMNS)), Cells(rows[0], COLUMNS));
      assert |COLUMNS| == 12;
    }
  }

  lemma HeaderIsPlain()
    ensures AllStand(COLUMNS, COLUMNS)
  {
    assert AllText("timestamp") && AllText("subscriber_id") && AllText("protocol") && AllText("router_ip");
    assert AllText("private_ip") && AllText("private_port") && AllText("public_ip") && AllText("public_port");
    assert AllText("dest_ip") && AllText("dest_port") && AllText("session_start_time") && AllText("session_end_time");
  }

  /** Whatever the cells contain, quotes, commas and line breaks included, reading the export gives
      back exactly the header and the neutralised cells. */
  lemma ExportReadsBack(rows: seq<Row>)
    requires rows != []
    ensures Export(rows).Some? && ReadFile(Export(rows).value) == Some([COLUMNS] + Sheet(rows))
  {
    HeaderIsPlain();
    LinesAreWritten(rows);
    WithHeader(COLUMNS, Written(rows), Sheet(rows));
    TableReads([COLUMNS] + Written(rows), [COLUMNS] + Sheet(rows));
  }

  lemma WithHeader(header: seq<string>, written: seq<seq<string>>, values: seq<seq<string>>)
    requires AllStand(header, header) && |header| > 1 && IsTable(written, values)
    ensures IsTable([header] + written, [header] + values)
    ensures JoinAll([header] + written) == [Join(header, ",")] + JoinAll(written)
  {
    assert ([header] + written)[1..] == written;
  }

  // ----------------------------------------------------------------- neutralising

  predicate IsFormula(cell: string) {
    cell != "" && Dangerous(cell[0])
  }

  lemma {:induction false} SheetCell(rows: seq<Row>, i: nat, j: nat)
    requires i < |rows| && j < |COLUMNS|
    ensures |Sheet(rows)[i]| == |COLUMNS| && Sheet(rows)[i][j] == Neutralise(CellText(rows[i], COLUMNS[j]))
  {
    if i > 0 {
      SheetCell(rows[1..], i - 1, j);
    }
  }

  /** No cell that a reader sees starts a formula, and cells that do not are unchanged. */
  lemma NoCellIsAFormula(rows: seq<Row>, i: nat, j: nat)
    requires i < |rows| && j < |COLUMNS|
    ensures var text := CellText(rows[i], COLUMNS[j]);
            |Sheet(rows)[i]| == |COLUMNS| && !IsFormula(Sheet(rows)[i][j]) &&
            (Sheet(rows)[i][j] == text <==> !IsFormula(text))
  {
    SheetCell(rows, i, j);
  }

  /** Takes back the apostrophe that Neutralise may have put there. */
  function Restore(cell: string): string {
    if cell != "" && cell[0] == '\'' && IsFormula(cell[1..]) then cell[1..] else cell
  }

  /** The original text can be restored from the export, except where it already was an apostrophe
      in front of a formula. */
  lemma RestoresIff(s: string)
    ensures Restore(Neutralise(s)) == s <==> !(s != "" && s[0] == '\'' && IsFormula(s[1..]))
  {
    if IsFormula(s) {
      assert Neutralise(s)[1..] == s;
    }
  }
}
