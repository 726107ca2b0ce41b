/** The ledger's CSV import: one purchase per line after a header, eight comma-separated
    columns `date, localTime, amount, btcReceived, rate, status, source, orderId`. */
module Csv {
  import opened JsValues
  import opened Seqs
  import opened Text

  /** A parsed row. The text columns are kept as read (trimmed); the three numeric
      columns go through `parseFloat`, which is a parameter of the parser. */
  datatype Record = Record(
    date: string, localTime: string,
    amount: JsNum, btcReceived: JsNum, rate: JsNum,
    status: string, source: string, orderId: string)

  /** `line.split(',').map(p => p.trim())`. */
  function Fields(line: string): (parts: seq<string>)
    ensures |parts| == |Split(line, ',')| >= 1
  {
    MapSeq(Trim, Split(line, ','))
  }

  /** A line that becomes a record: not blank, and with at least eight columns. */
  predicate Accepted(line: string) {
    Trim(line) != [] && |Fields(line)| >= 8
  }

  /** Column `k`, or nothing when the line is shorter (the parser only builds records
      from lines with at least eight columns, so this case never arises there). */
  function Column(parts: seq<string>, k: nat): string {
    if k < |parts| then parts[k] else []
  }

  /** The record built from the first eight columns; further columns are ignored. */
  function RecordOf(parts: seq<string>, num: string -> JsNum): Record {
    Record(Column(parts, 0), Column(parts, 1), num(Column(parts, 2)), num(Column(parts, 3)),
      num(Column(parts, 4)), Column(parts, 5), Column(parts, 6), Column(parts, 7))
  }

  /** The records of the lines after the header, in order. */
  function Records(lines: seq<string>, num: string -> JsNum): (rs: seq<Record>)
    ensures |rs| <= |lines|
  {
    if lines == [] then []
    else
      var last := lines[|lines| - 1];
      Records(lines[..|lines| - 1], num) + (if Accepted(last) then [RecordOf(Fields(last), num)] else [])
  }

  /** What `parseCSV(csvText)` returns: nothing when the trimmed text has at most one
      line, otherwise the records of every line but the first. */
  function CsvRecords(text: string, num: string -> JsNum): seq<Record> {
    var lines := SplitLines(Trim(text));
    if |lines| <= 1 then [] else Records(lines[1..], num)
  }

  /** `parseCSV(csvText)`. */
  method ParseCSV(text: string, num: string -> JsNum) returns (result: seq<Record>)
    ensures result == CsvRecords(text, num)
    ensures |SplitLines(Trim(text))| <= 1 ==> result == []
    ensures |result| < |SplitLines(Trim(text))|
  {
    var lines := SplitLines(Trim(text));
    if |lines| <= 1 {
      return [];
    }
    // The header line is removed and not used.
    var body := lines[1..];
    result := [];
    var i := 0;
    while i < |body|
      invariant 0 <= i <= |body|
      invariant result == Records(body[..i], num)
    {
      var line := body[i];
      RecordsSnoc(body, i, num);
      if Trim(line) == [] {
        assert !Accepted(line);
        i := i + 1;
        continue;
      }
      var parts := Fields(line);
      if |parts| < 8 {
        assert !Accepted(line);
        i := i + 1;
        continue;
      }
      assert Accepted(line);
      result := result + [RecordOf(parts, num)];
      i := i + 1;
    }
    assert body[..i] == body;
  }

  /** One step of the loop over the lines. */
  lemma RecordsSnoc(lines: seq<string>, i: int, num: string -> JsNum)
    requires 0 <= i < |lines|
    ensures Records(lines[..i + 1], num)
      == Records(lines[..i], num) + (if Accepted(lines[i]) then [RecordOf(Fields(lines[i]), num)] else [])
  {
    assert lines[..i + 1][..i] == lines[..i];
  }

  lemma {:induction false} RecordsConcat(a: seq<string>, b: seq<string>, num: string -> JsNum)
    ensures Records(a + b, num) == Records(a, num) + Records(b, num)
  {
    if b != [] {
      assert (a + b)[..|a + b| - 1] == a + b[..|b| - 1];
      RecordsConcat(a, b[..|b| - 1], num);
    } else {
      assert a + b == a;
    }
  }

  /** There is one record per accepted line, in the order of the lines: blank lines and
      lines with fewer than eight columns are skipped. */
  lemma {:induction false} RecordsPerAcceptedLine(lines: seq<string>, num: string -> JsNum)
    ensures |Records(lines, num)| == |Filter(Accepted, lines)|
    ensures forall i :: 0 <= i < |Records(lines, num)| ==>
      Records(lines, num)[i] == RecordOf(Fields(Filter(Accepted, lines)[i]), num)
  {
    if lines != [] {
      var init, last := lines[..|lines| - 1], lines[|lines| - 1];
      RecordsPerAcceptedLine(init, num);
      var r, f := Records(init, num), Filter(Accepted, init);
      if Accepted(last) {
        assert Records(lines, num) == r + [RecordOf(Fields(last), num)];
        assert Filter(Accepted, lines) == f + [last];
        RecordsInStep(r, f, last, num);
      }
    }
  }

  /** Records built from lines stay in step when one more line and its record are added. */
  lemma RecordsInStep(r: seq<Record>, f: seq<string>, line: string, num: string -> JsNum)
    requires |r| == |f| && forall i :: 0 <= i < |r| ==> r[i] == RecordOf(Fields(f[i]), num)
    ensures forall i :: 0 <= i < |r| + 1 ==>
      (r + [RecordOf(Fields(line), num)])[i] == RecordOf(Fields((f + [line])[i]), num)
  {
    forall i | 0 <= i < |r| + 1
      ensures (r + [RecordOf(Fields(line), num)])[i] == RecordOf(Fields((f + [line])[i]), num)
    {
      if i < |r| {
        assert (f + [line])[i] == f[i];
      }
    }
  }

  /** Columns after the eighth do not change the record. */
  lemma ExtraColumnsIgnored(parts: seq<string>, extra: seq<string>, num: string -> JsNum)
    requires |parts| >= 8
    ensures RecordOf(parts + extra, num) == RecordOf(parts, num)
  {
  }

  /** Every text column of every record is trimmed. */
  lemma RecordsTrimmed(lines: seq<string>, num: string -> JsNum, i: int)
    requires 0 <= i < |Records(lines, num)|
    ensures var r := Records(lines, num)[i];
      IsTrimmed(r.date) && IsTrimmed(r.localTime) && IsTrimmed(r.status)
      && IsTrimmed(r.source) && IsTrimmed(r.orderId)
  {
    RecordsPerAcceptedLine(lines, num);
  }

  /** A column that can be written back into a line: trimmed, and free of commas and
      line feeds. */
  predicate Writable(f: string) {
    IsTrimmed(f) && ',' !in f && '\n' !in f
  }

  /** `fields.join(',')`. */
  function WriteLine(fields: seq<string>): string {
    if fields == [] then "" else Join(fields, ',')
  }

  /** A line written from eight writable columns is accepted and reads back as those
      columns. */
  lemma LineRoundTrip(fields: seq<string>)
    requires |fields| == 8
    requires forall k :: 0 <= k < 8 ==> Writable(fields[k])
    ensures Fields(WriteLine(fields)) == fields
    ensures Accepted(WriteLine(fields))
  {
    FieldsOfWritten(fields);
    WrittenNotBlank(fields);
  }

  lemma FieldsOfWritten(fields: seq<string>)
    requires |fields| >= 1
    requires forall k :: 0 <= k < |fields| ==> Writable(fields[k])
    ensures Fields(WriteLine(fields)) == fields
  {
    SplitJoin(fields, ',');
    var parts := Fields(WriteLine(fields));
    forall k | 0 <= k < |fields|
      ensures parts[k] == fields[k]
    {
      TrimOfTrimmed(fields[k]);
    }
  }

  /** A line with at least two columns holds a comma, so it is not blank. */
  lemma WrittenNotBlank(fields: seq<string>)
    requires |fields| >= 2
    ensures Trim(WriteLine(fields)) != []
  {
    var line := WriteLine(fields);
    assert line == fields[0] + [','] + Join(fields[1..], ',');
    assert line[|fields[0]|] == ',';
    TrimEmptyIffBlank(line);
  }

  function WriteLines(rows: seq<seq<string>>): seq<string> {
    MapSeq(WriteLine, rows)
  }

  /** Rows of eight writable columns each. */
  predicate WritableRows(rows: seq<seq<string>>) {
    forall i :: 0 <= i < |rows| ==> |rows[i]| == 8 && forall k :: 0 <= k < 8 ==> Writable(rows[i][k])
  }

  /** A file written as a header line followed by one line per row reads back as exactly
      those rows, whatever the header says. */
  lemma FileRoundTrip(header: string, rows: seq<seq<string>>, num: string -> JsNum)
    requires '\n' !in header && (header == [] || header[|header| - 1] != '\r')
    requires WritableRows(rows)
    requires IsTrimmed(JoinLines([header] + WriteLines(rows)))
    ensures var text := JoinLines([header] + WriteLines(rows));
      |CsvRecords(text, num)| == |rows|
      && forall i :: 0 <= i < |rows| ==> CsvRecords(text, num)[i] == RecordOf(rows[i], num)
  {
    var ls := WriteLines(rows);
    var text := JoinLines([header] + ls);
    TrimOfTrimmed(text);
    WrittenFileLines(header, rows);
    assert ([header] + ls)[1..] == ls;
    ReadBackRows(rows, num);
  }

  /** Splitting a written file gives back its header and its written lines. */
  lemma WrittenFileLines(header: string, rows: seq<seq<string>>)
    requires '\n' !in header && (header == [] || header[|header| - 1] != '\r')
    requires WritableRows(rows)
    ensures SplitLines(JoinLines([header] + WriteLines(rows))) == [header] + WriteLines(rows)
  {
    var ls := WriteLines(rows);
    var all := [header] + ls;
    forall i | 0 <= i < |all|
      ensures '\n' !in all[i] && (all[i] == [] || all[i][|all[i]| - 1] != '\r')
    {
      if i > 0 {
        assert all[i] == WriteLine(rows[i - 1]);
        WrittenLine(rows[i - 1]);
      }
    }
    SplitLinesJoin(all);
  }

  /** The written lines of writable rows read back as those rows. */
  lemma ReadBackRows(rows: seq<seq<string>>, num: string -> JsNum)
    requires WritableRows(rows)
    ensures |Records(WriteLines(rows), num)| == |rows|
    ensures forall i :: 0 <= i < |rows| ==> Records(WriteLines(rows), num)[i] == RecordOf(rows[i], num)
  {
    var ls := WriteLines(rows);
    forall i | 0 <= i < |ls|
      ensures Accepted(ls[i]) && Fields(ls[i]) == rows[i]
    {
      WrittenLine(rows[i]);
    }
    FilterAll(Accepted, ls);
    RecordsPerAcceptedLine(ls, num);
  }

  /** A written line holds no line feed, does not end with a carriage return, is
      accepted and reads back as its columns. */
  lemma WrittenLine(fields: seq<string>)
    requires |fields| == 8 && forall k :: 0 <= k < 8 ==> Writable(fields[k])
    ensures var line := WriteLine(fields);
      '\n' !in line && line != [] && line[|line| - 1] != '\r' && Accepted(line) && Fields(line) == fields
  {
    LineRoundTrip(fields);
    JoinExcludes(fields, ',', '\n');
    JoinEnd(fields, ',');
  }
}
