/**
  The CSV export (apps/web/src/lib/csv.ts) and a reader for its output: section 2 of RFC 4180
  with a line feed as the record separator.

  Main result: `ReadsBackIff`. For any cell contents at all the reader recovers the header and
  the cells exactly when there is a header and no name in it contains a comma, a quote or a line
  feed, because the header line is the one line the export does not quote. `EndingReadsBackIff`
  says the same of a reader that takes a final line feed for the end of the last record, and
  `EverythingIsKeptIff` which values of a list of objects can be got back at all.
 */
module Csv {
  import opened Options

  // ---------- the printer ----------

  /**
    One object of the list: its own keys in order, and what reading a property by name gives, as
    text, members it only inherits included; `None` is null.
   */
  datatype Record = Record(keys: seq<string>, values: map<string, Option<string>>)

  /** String(row[h] ?? '') */
  function Field(row: Record, h: string): string {
    if h in row.values && row.values[h].Some? then row.values[h].value else ""
  }

  /** s.replace(/"/g, '""') */
  function Escape(s: string): string {
    if s == "" then "" else (if s[0] == '"' then "\"\"" else [s[0]]) + Escape(s[1..])
  }

  function Cell(v: string): string {
    var s := Escape(v);
    if ',' in s || '\n' in s || '"' in s then "\"" + s + "\"" else s
  }

  function Join(parts: seq<string>, sep: char): string {
    if parts == [] then "" else if |parts| == 1 then parts[0] else parts[0] + [sep] + Join(parts[1..], sep)
  }

  function Cells(fields: seq<string>): (r: seq<string>)
    ensures |r| == |fields|
  {
    if fields == [] then [] else [Cell(fields[0])] + Cells(fields[1..])
  }

  function Lines(matrix: seq<seq<string>>): seq<string> {
    if matrix == [] then [] else [Join(Cells(matrix[0]), ',')] + Lines(matrix[1..])
  }

  /** The text for given header names and cell contents. */
  function Print(headers: seq<string>, matrix: seq<seq<string>>): string {
    Join([Join(headers, ',')] + Lines(matrix), '\n')
  }

  function FieldsOf(row: Record, headers: seq<string>): (r: seq<string>)
    ensures |r| == |headers|
  {
    if headers == [] then [] else [Field(row, headers[0])] + FieldsOf(row, headers[1..])
  }

  function Matrix(rows: seq<Record>, headers: seq<string>): (r: seq<seq<string>>)
    ensures |r| == |rows| && forall i :: 0 <= i < |r| ==> |r[i]| == |headers|
  {
    if rows == [] then [] else [FieldsOf(rows[0], headers)] + Matrix(rows[1..], headers)
  }

  /** The text `downloadCsv` puts into the file; without rows there is no file. */
  function DownloadCsv(rows: seq<Record>): Option<string> {
    if |rows| == 0 then None
    else
      var headers := rows[0].keys;
      Some(Print(headers, Matrix(rows, headers)))
  }

  // ---------- the reader ----------

  /** The rest of a quoted field, its opening quote already read. */
  function ReadQuoted(s: string): (r: Option<(string, string)>)
    ensures r.Some? ==> |r.value.1| < |s|
    decreases |s|
  {
    if s == "" then None
    else if s[0] != '"' then
      var r := ReadQuoted(s[1..]);
      if r.None? then None else Some(([s[0]] + r.value.0, r.value.1))
    else if |s| >= 2 && s[1] == '"' then
      var r := ReadQuoted(s[2..]);
      if r.None? then None else Some((['"'] + r.value.0, r.value.1))
    else Some(("", s[1..]))
  }

  /** A field without quotes ends at a comma, a line feed or the end of the text. */
  function ReadBare(s: string): (r: Option<(string, string)>)
    ensures r.Some? ==> |r.value.1| <= |s|
    decreases |s|
  {
    if s == "" || s[0] == ',' || s[0] == '\n' then Some(("", s))
    else if s[0] == '"' then None
    else
      var r := ReadBare(s[1..]);
      if r.None? then None else Some(([s[0]] + r.value.0, r.value.1))
  }

  function ReadField(s: string): (r: Option<(string, string)>)
    ensures r.Some? ==> |r.value.1| <= |s|
  {
    if s != "" && s[0] == '"' then ReadQuoted(s[1..]) else ReadBare(s)
  }

  /** One record, and the text from its line feed on. */
  function ReadRecord(s: string): (r: Option<(seq<string>, string)>)
    ensures r.Some? ==> |r.value.1| <= |s| && (r.value.1 == "" || r.value.1[0] == '\n') && r.value.0 != []
    decreases |s|
  {
    var field := ReadField(s);
    if field.None? then None
    else
      var (f, rest) := field.value;
      if rest == "" || rest[0] == '\n' then Some(([f], rest))
      else if rest[0] != ',' then None
      else
        var r := ReadRecord(rest[1..]);
        if r.None? then None else Some(([f] + r.value.0, r.value.1))
  }

  function Read(s: string): (r: Option<seq<seq<string>>>)
    ensures r.Some? ==> |r.value| >= 1
    decreases |s|
  {
    var r := ReadRecord(s);
    if r.None? then None
    else if r.value.1 == "" then Some([r.value.0])
    else
      var more := Read(r.value.1[1..]);
      if more.None? then None else Some([r.value.0] + more.value)
  }

  /** The text without one ending line break, which rule 2 of section 2 allows the last record to have. */
  function DropEnding(s: string): string {
    if s != "" && s[|s| - 1] == '\n' then s[..|s| - 1] else s
  }

  function ReadWithEnding(s: string): Option<seq<seq<string>>> {
    Read(DropEnding(s))
  }

  // ---------- printed fields and records read back ----------

  predicate Plain(s: string) {
    ',' !in s && '\n' !in s && '"' !in s
  }

  lemma {:induction false} EscapeOfPlain(s: string)
    ensures '"' !in s ==> Escape(s) == s
    ensures ('"' in s <==> '"' in Escape(s)) && (',' in s <==> ',' in Escape(s)) && ('\n' in s <==> '\n' in Escape(s))
    decreases |s|
  {
    if s != "" {
      EscapeOfPlain(s[1..]);
      assert s == [s[0]] + s[1..];
    }
  }

  lemma {:induction false} QuotedReadsBack(f: string, rest: string)
    requires rest == "" || rest[0] != '"'
    ensures ReadQuoted(Escape(f) + "\"" + rest) == Some((f, rest))
    decreases |f|
  {
    var s := Escape(f) + "\"" + rest;
    if f == "" {
      assert s == ['"'] + rest && s[1..] == rest;
    } else {
      var tail := Escape(f[1..]) + "\"" + rest;
      QuotedReadsBack(f[1..], rest);
      assert f == [f[0]] + f[1..];
      if f[0] == '"' {
        assert s == "\"\"" + tail;
        assert s[2..] == tail;
      } else {
        assert s == [f[0]] + tail;
        assert s[1..] == tail;
      }
    }
  }

  lemma {:induction false} BareReadsBack(f: string, rest: string)
    requires Plain(f) && (rest == "" || rest[0] == ',' || rest[0] == '\n')
    ensures ReadBare(f + rest) == Some((f, rest))
    decreases |f|
  {
    if f == "" {
      assert f + rest == rest;
    } else {
      BareReadsBack(f[1..], rest);
      assert (f + rest)[1..] == f[1..] + rest;
      assert f[0] in f && f == [f[0]] + f[1..];
    }
  }

  lemma FieldReadsBack(f: string, rest: string)
    requires rest == "" || rest[0] == ',' || rest[0] == '\n'
    ensures ReadField(Cell(f) + rest) == Some((f, rest))
  {
    hide Escape, ReadBare, ReadQuoted;
    EscapeOfPlain(f);
    if Plain(f) {
      BareReadsBack(f, rest);
      assert f != "" ==> f[0] in f;
    } else {
      QuotedReadsBack(f, rest);
      OpeningQuote(Escape(f), rest);
    }
  }

  lemma OpeningQuote(body: string, rest: string)
    ensures var s := "\"" + body + "\"" + rest; s[0] == '"' && s[1..] == body + "\"" + rest
  {
  }

  lemma {:induction false} RecordReadsBack(fields: seq<string>, rest: string)
    requires |fields| >= 1 && (rest == "" || rest[0] == '\n')
    ensures ReadRecord(Join(Cells(fields), ',') + rest) == Some((fields, rest))
    decreases |fields|
  {
    var cells := Cells(fields);
    assert fields == [fields[0]] + fields[1..];
    if |fields| == 1 {
      assert fields == [fields[0]] && Join(cells, ',') == Cell(fields[0]);
      FieldReadsBack(fields[0], rest);
    } else {
      var more := Join(Cells(fields[1..]), ',') + rest;
      assert cells[1..] == Cells(fields[1..]);
      assert Join(cells, ',') + rest == cells[0] + ([','] + more);
      FieldReadsBack(fields[0], [','] + more);
      assert ([','] + more)[1..] == more;
      RecordReadsBack(fields[1..], rest);
    }
  }

  ghost predicate Rectangular(matrix: seq<seq<string>>, width: nat) {
    forall i :: 0 <= i < |matrix| ==> |matrix[i]| == width
  }

  lemma {:induction false} RowsReadBack(matrix: seq<seq<string>>, width: nat)
    requires width >= 1 && |matrix| >= 1 && Rectangular(matrix, width)
    ensures Read(Join(Lines(matrix), '\n')) == Some(matrix)
    decreases |matrix|
  {
    var line := Join(Cells(matrix[0]), ',');
    assert matrix == [matrix[0]] + matrix[1..];
    if |matrix| == 1 {
      assert matrix == [matrix[0]] && Join(Lines(matrix), '\n') == line;
      RecordReadsBack(matrix[0], "");
      assert line + "" == line;
    } else {
      var more := Join(Lines(matrix[1..]), '\n');
      RowsReadBack(matrix[1..], width);
      assert Lines(matrix)[1..] == Lines(matrix[1..]);
      assert Join(Lines(matrix), '\n') == line + (['\n'] + more);
      RecordReadsBack(matrix[0], ['\n'] + more);
      assert (['\n'] + more)[1..] == more;
    }
  }

  ghost predicate AllPlain(headers: seq<string>) {
    forall i :: 0 <= i < |headers| ==> Plain(headers[i])
  }

  lemma {:induction false} PlainCells(headers: seq<string>)
    requires AllPlain(headers)
    ensures Cells(headers) == headers
    decreases |headers|
  {
    if headers != [] {
      EscapeOfPlain(headers[0]);
      PlainCells(headers[1..]);
    }
  }

  // ---------- why header names must be plain ----------

  lemma {:induction false} BareIsPlain(s: string)
    ensures ReadBare(s).Some? ==> Plain(ReadBare(s).value.0) && s == ReadBare(s).value.0 + ReadBare(s).value.1
    decreases |s|
  {
    if s != "" && s[0] != ',' && s[0] != '\n' && s[0] != '"' {
      BareIsPlain(s[1..]);
    }
  }

  lemma {:induction false} QuotedIsEscaped(s: string)
    ensures ReadQuoted(s).Some? ==> s == Escape(ReadQuoted(s).value.0) + "\"" + ReadQuoted(s).value.1
    decreases |s|
  {
    if s != "" && s[0] != '"' {
      QuotedIsEscaped(s[1..]);
      var r := ReadQuoted(s[1..]);
      if r.Some? {
        assert ([s[0]] + r.value.0)[1..] == r.value.0;
        assert s == [s[0]] + s[1..];
      }
    } else if |s| >= 2 && s[1] == '"' {
      QuotedIsEscaped(s[2..]);
      var r := ReadQuoted(s[2..]);
      if r.Some? {
        assert (['"'] + r.value.0)[1..] == r.value.0;
        assert s == "\"\"" + s[2..];
      }
    }
  }

  predicate Quotes(s: string, n: nat) {
    n <= |s| && forall i :: 0 <= i < n ==> s[i] == '"'
  }

  /** Escaping n leading quotes gives 2n leading quotes, and every escaped text is at least as long. */
  lemma {:induction false} EscapeDoubles(s: string, n: nat)
    requires Quotes(s, n)
    ensures Quotes(Escape(s), 2 * n) && |Escape(s)| >= |s|
    decreases |s|
  {
    if s != "" {
      var t := Escape(s[1..]);
      EscapeDoubles(s[1..], if n == 0 then 0 else n - 1);
      if n > 0 { assert Escape(s) == "\"\"" + t; }
    }
  }

  /**
    A text cannot both start with `h` followed by a separator and be a quoted spelling of `h`:
    every character of `h`, and then the separator, would have to be a quote.
   */
  lemma {:induction false} NotItsOwnQuotation(h: string, sep: char, more: string, rest: string, n: nat)
    requires h + [sep] + more == "\"" + Escape(h) + "\"" + rest && sep != '"'
    requires Quotes(h, n)
    ensures false
    decreases |h| - n
  {
    var quoted := "\"" + Escape(h) + "\"";
    EscapeDoubles(h, n);
    Positions(h, [sep] + more, quoted, rest, n);
    assert h + [sep] + more == h + ([sep] + more);
    if n < |h| {
      NotItsOwnQuotation(h, sep, more, rest, n + 1);
    }
  }

  lemma Positions(h: string, t: string, quoted: string, rest: string, n: nat)
    requires n <= |h| && n < |quoted| && t != ""
    ensures (h + t)[n] == if n < |h| then h[n] else t[0]
    ensures (quoted + rest)[n] == quoted[n]
  {
  }

  lemma Cancel(h: string, r: string, t: string)
    requires h + r == h + t
    ensures r == t
  {
    assert r == (h + r)[|h|..] && t == (h + t)[|h|..];
  }

  /** If a line of unquoted names reads back as those names, there is one and every one is plain. */
  lemma {:induction false} OnlyPlainReadBack(headers: seq<string>, tail: string, rest: string)
    requires ReadRecord(Join(headers, ',') + "\n" + tail) == Some((headers, rest))
    ensures headers != [] && AllPlain(headers)
    decreases |headers|
  {
    var s := Join(headers, ',') + "\n" + tail;
    var h := headers[0];
    var sep := if |headers| == 1 then '\n' else ',';
    var more := if |headers| == 1 then tail else Join(headers[1..], ',') + "\n" + tail;
    assert s == h + [sep] + more;
    var r := ReadField(s).value.1;
    assert ReadField(s) == Some((h, r));
    if s[0] == '"' {
      QuotedIsEscaped(s[1..]);
      assert s == "\"" + Escape(h) + "\"" + r;
      NotItsOwnQuotation(h, sep, more, r, 0);
    } else {
      BareIsPlain(s);
      assert s == h + ([sep] + more);
      Cancel(h, r, [sep] + more);
      if |headers| > 1 {
        assert r[1..] == more;
        assert headers == [h] + headers[1..];
        var others := ReadRecord(more);
        assert [h] + others.value.0 == headers;
        assert others.value.0 == headers[1..];
        OnlyPlainReadBack(headers[1..], tail, rest);
      }
    }
  }

  // ---------- the round trip ----------

  /** The header line and the lines under it. */
  lemma PrintIsHeaderAndRows(headers: seq<string>, matrix: seq<seq<string>>)
    requires |matrix| >= 1
    ensures Print(headers, matrix) == Join(headers, ',') + "\n" + Join(Lines(matrix), '\n')
  {
    var parts := [Join(headers, ',')] + Lines(matrix);
    assert parts[1..] == Lines(matrix);
  }

  /**
    Reading the printed text gives back the header and exactly the cells, whatever the cells
    contain, if and only if there is a header name and every one is free of commas, quotes and
    line feeds.
   */
  lemma ReadsBackIff(headers: seq<string>, matrix: seq<seq<string>>)
    requires |matrix| >= 1 && Rectangular(matrix, |headers|)
    ensures Read(Print(headers, matrix)) == Some([headers] + matrix) <==> headers != [] && AllPlain(headers)
  {
    var body := Join(Lines(matrix), '\n');
    var text := Print(headers, matrix);
    PrintIsHeaderAndRows(headers, matrix);
    if headers != [] && AllPlain(headers) {
      PlainCells(headers);
      RecordReadsBack(headers, "\n" + body);
      assert text == Join(headers, ',') + ("\n" + body);
      assert ("\n" + body)[1..] == body;
      RowsReadBack(matrix, |headers|);
    }
    if Read(text) == Some([headers] + matrix) {
      var r := ReadRecord(text).value;
      assert r.0 == Read(text).value[0] == ([headers] + matrix)[0];
      OnlyPlainReadBack(headers, body, r.1);
    }
  }

  /** The file `downloadCsv` writes reads back as its header and one row of cells per object. */
  lemma DownloadReadsBackIff(rows: seq<Record>)
    requires |rows| >= 1
    ensures var headers := rows[0].keys;
            Read(DownloadCsv(rows).value) == Some([headers] + Matrix(rows, headers))
            <==> headers != [] && AllPlain(headers)
  {
    ReadsBackIff(rows[0].keys, Matrix(rows, rows[0].keys));
  }

  lemma {:induction false} JoinAtEnd(parts: seq<string>, last: string, sep: char)
    requires |parts| >= 1
    ensures Join(parts + [last], sep) == Join(parts, sep) + [sep] + last
    decreases |parts|
  {
    var all := parts + [last];
    assert all[1..] == parts[1..] + [last];
    if |parts| > 1 {
      JoinAtEnd(parts[1..], last, sep);
      Regroup(parts[0] + [sep], Join(parts[1..], sep) + [sep], last);
      Regroup(parts[0] + [sep], Join(parts[1..], sep), [sep]);
    }
  }

  lemma Regroup(a: string, b: string, c: string)
    ensures a + (b + c) == a + b + c
  {
  }

  lemma {:induction false} LinesAtEnd(matrix: seq<seq<string>>, row: seq<string>)
    ensures Lines(matrix + [row]) == Lines(matrix) + [Join(Cells(row), ',')]
    decreases |matrix|
  {
    if matrix != [] {
      LinesAtEnd(matrix[1..], row);
      assert (matrix + [row])[1..] == matrix[1..] + [row];
    }
  }

  lemma PrintAtEnd(headers: seq<string>, matrix: seq<seq<string>>, row: seq<string>)
    ensures Print(headers, matrix + [row]) == Print(headers, matrix) + "\n" + Join(Cells(row), ',')
  {
    LinesAtEnd(matrix, row);
    var parts := [Join(headers, ',')] + Lines(matrix);
    JoinAtEnd(parts, Join(Cells(row), ','), '\n');
    assert [Join(headers, ',')] + (Lines(matrix) + [Join(Cells(row), ',')]) == parts + [Join(Cells(row), ',')];
  }

  lemma CellEnds(v: string)
    ensures Cell(v) == "" <==> v == ""
    ensures Cell(v) != "" ==> Cell(v)[|Cell(v)| - 1] != '\n'
  {
    EscapeOfPlain(v);
    var s := Escape(v);
    if s != "" && s[|s| - 1] == '\n' { assert '\n' in s; }
  }

  /** A printed line is empty only for one empty cell or none, and never ends in a line feed. */
  lemma {:induction false} LineEnds(row: seq<string>)
    ensures var line := Join(Cells(row), ',');
            && (line == "" <==> row == [] || row == [""])
            && (line != "" ==> line[|line| - 1] != '\n')
    decreases |row|
  {
    if row != [] {
      CellEnds(row[0]);
      if |row| > 1 {
        LineEnds(row[1..]);
        assert Cells(row)[1..] == Cells(row[1..]);
      } else {
        assert row == [row[0]];
      }
    }
  }

  lemma EndingOfPrint(headers: seq<string>, matrix: seq<seq<string>>)
    requires |matrix| >= 1
    ensures var n := |matrix| - 1;
            DropEnding(Print(headers, matrix)) ==
            Print(headers, if matrix[n] == [] || matrix[n] == [""] then matrix[..n] else matrix)
  {
    var n := |matrix| - 1;
    var line, text := Join(Cells(matrix[n]), ','), Print(headers, matrix[..n]);
    assert matrix[..n] + [matrix[n]] == matrix;
    PrintAtEnd(headers, matrix[..n], matrix[n]);
    LineEnds(matrix[n]);
    hide Print, Join;
    if line == "" {
      assert text + "\n" + line == text + "\n" && (text + "\n")[..|text|] == text;
    } else {
      var all := text + "\n" + line;
      assert all[|all| - 1] == line[|line| - 1];
    }
  }

  lemma {:induction false} QuotedIsLonger(s: string)
    ensures ReadQuoted(s).Some? ==> |ReadQuoted(s).value.0| + |ReadQuoted(s).value.1| < |s|
    decreases |s|
  {
    if s != "" && s[0] != '"' {
      QuotedIsLonger(s[1..]);
    } else if |s| >= 2 && s[1] == '"' {
      QuotedIsLonger(s[2..]);
    }
  }

  /** A header line on its own reads back as itself only if its names are plain. */
  lemma {:induction false} LoneHeaderIsPlain(headers: seq<string>)
    requires Read(Join(headers, ',')).Some? && Read(Join(headers, ',')).value[0] == headers
    ensures headers != [] && AllPlain(headers) && Read(Join(headers, ',')) == Some([headers])
  {
    var text := Join(headers, ',');
    var r := ReadRecord(text).value;
    LoneRecordIsPlain(headers, r.1);
  }

  lemma {:induction false} LoneRecordIsPlain(headers: seq<string>, rest: string)
    requires ReadRecord(Join(headers, ',')) == Some((headers, rest))
    ensures headers != [] && AllPlain(headers) && rest == ""
    decreases |headers|
  {
    var s, h := Join(headers, ','), headers[0];
    var (f, r) := ReadField(s).value;
    assert f == h;
    var tail := if |headers| == 1 then "" else "," + Join(headers[1..], ',');
    assert s == h + tail;
    if s != "" && s[0] == '"' {
      QuotedIsEscaped(s[1..]);
      QuotedIsLonger(s[1..]);
      if |headers| == 1 {
        assert false;
      } else {
        var more := Join(headers[1..], ',');
        assert s == "\"" + Escape(h) + "\"" + r && s == h + [','] + more;
        NotItsOwnQuotation(h, ',', more, r, 0);
      }
    } else {
      BareIsPlain(s);
      Cancel(h, r, tail);
      if |headers| > 1 {
        assert r[1..] == Join(headers[1..], ',');
        var others := ReadRecord(r[1..]);
        assert [h] + others.value.0 == headers;
        assert others.value.0 == headers[1..];
        LoneRecordIsPlain(headers[1..], rest);
      }
    }
  }

  /** Whatever the rows, a text that reads back with its own header names has plain ones. */
  lemma HeaderReadBackIsPlain(headers: seq<string>, matrix: seq<seq<string>>)
    requires var back := Read(Print(headers, matrix)); back.Some? && back.value[0] == headers
    ensures headers != [] && AllPlain(headers)
  {
    if matrix == [] {
      assert [Join(headers, ',')] + Lines(matrix) == [Join(headers, ',')];
      LoneHeaderIsPlain(headers);
    } else {
      PrintIsHeaderAndRows(headers, matrix);
      OnlyPlainReadBack(headers, Join(Lines(matrix), '\n'), ReadRecord(Print(headers, matrix)).value.1);
    }
  }

  lemma PlainHeaderAlone(headers: seq<string>)
    requires headers != [] && AllPlain(headers)
    ensures Read(Print(headers, [])) == Some([headers])
  {
    PlainCells(headers);
    RecordReadsBack(headers, "");
    var text := Join(headers, ',');
    assert text + "" == text && [text] + Lines([]) == [text];
  }

  /**
    A reader that takes one final line feed for the end of the last record gets header and cells
    back if and only if, besides, the export does not end in a row of one empty cell: it would
    take that row's line for the ending.
   */
  lemma EndingReadsBackIff(headers: seq<string>, matrix: seq<seq<string>>)
    requires |matrix| >= 1 && Rectangular(matrix, |headers|)
    ensures ReadWithEnding(Print(headers, matrix)) == Some([headers] + matrix)
            <==> headers != [] && AllPlain(headers) && matrix[|matrix| - 1] != [""]
  {
    var n := |matrix| - 1;
    EndingOfPrint(headers, matrix);
    ReadsBackIff(headers, matrix);
    hide Print, Read, DropEnding;
    var back := ReadWithEnding(Print(headers, matrix));
    if matrix[n] == [] || matrix[n] == [""] {
      if back == Some([headers] + matrix) {
        assert back.value[0] == headers;
        HeaderReadBackIsPlain(headers, matrix[..n]);
        if n == 0 { PlainHeaderAlone(headers); } else { ReadsBackIff(headers, matrix[..n]); }
      }
    }
  }

  // ---------- a list of objects ----------

  /** The object has a value of its own under this key. */
  predicate Carries(row: Record, k: string) {
    k in row.keys && k in row.values && row.values[k].Some?
  }

  lemma {:induction false} FieldsAre(row: Record, headers: seq<string>)
    ensures forall j :: 0 <= j < |headers| ==> FieldsOf(row, headers)[j] == Field(row, headers[j])
    decreases |headers|
  {
    if headers != [] { FieldsAre(row, headers[1..]); }
  }

  lemma {:induction false} MatrixIs(rows: seq<Record>, headers: seq<string>)
    ensures forall i :: 0 <= i < |rows| ==> Matrix(rows, headers)[i] == FieldsOf(rows[i], headers)
    decreases |rows|
  {
    if rows != [] { MatrixIs(rows[1..], headers); }
  }

  /** A cell is the value of the property its column is named after, and empty for null and for no value. */
  lemma CellsAre(rows: seq<Record>, headers: seq<string>, i: nat, j: nat)
    requires i < |rows| && j < |headers|
    ensures Matrix(rows, headers)[i][j] ==
            if headers[j] in rows[i].values && rows[i].values[headers[j]].Some?
            then rows[i].values[headers[j]].value else ""
    ensures DownloadCsv([]) == None && DownloadCsv(rows) == Some(Print(rows[0].keys, Matrix(rows, rows[0].keys)))
  {
    MatrixIs(rows, headers);
    FieldsAre(rows[i], headers);
  }

  /** A cell is printed as it is if and only if it is free of commas, quotes and line feeds; otherwise in quotes. */
  lemma QuotedIff(v: string)
    ensures Cell(v) == v <==> ',' !in v && '\n' !in v && '"' !in v
    ensures Cell(v) != v ==> |Cell(v)| >= |v| + 2 && Cell(v)[0] == '"' && Cell(v)[|Cell(v)| - 1] == '"'
  {
    EscapeOfPlain(v);
    EscapeDoubles(v, 0);
  }

  /** What was read has the keys of the first object for its header, and under them the value. */
  ghost predicate Recovers(back: seq<seq<string>>, rows: seq<Record>, i: nat, k: string)
    requires i < |rows| && Carries(rows[i], k)
  {
    exists j :: 0 <= j < |rows[0].keys| && rows[0].keys[j] == k
                && i + 1 < |back| && j < |back[i + 1]| && back[i + 1][j] == rows[i].values[k].value
  }

  /** The file reads back under the first object's keys, and every value of every object is in it. */
  ghost predicate KeepsEverything(rows: seq<Record>)
    requires |rows| >= 1
  {
    var back := Read(DownloadCsv(rows).value);
    && back.Some? && back.value[0] == rows[0].keys
    && forall i: nat, k :: i < |rows| && Carries(rows[i], k) ==> Recovers(back.value, rows, i, k)
  }

  /**
    Every value of every object can be got back from the file if and only if the first object has
    keys, all plain, and no later object has a value under a key that the first one lacks.
   */
  lemma EverythingIsKeptIff(rows: seq<Record>)
    requires |rows| >= 1
    ensures KeepsEverything(rows) <==>
            && rows[0].keys != [] && AllPlain(rows[0].keys)
            && forall i: nat, k :: i < |rows| && Carries(rows[i], k) ==> k in rows[0].keys
  {
    var headers := rows[0].keys;
    var matrix := Matrix(rows, headers);
    var back := Read(DownloadCsv(rows).value);
    if back.Some? && back.value[0] == headers { HeaderReadBackIsPlain(headers, matrix); }
    DownloadReadsBackIff(rows);
    hide Read, Print, DownloadCsv, Matrix;
    if headers != [] && AllPlain(headers) {
      assert back == Some([headers] + matrix);
      forall i: nat, k | i < |rows| && Carries(rows[i], k)
        ensures Recovers(back.value, rows, i, k) <==> k in headers
      {
        MatrixIs(rows, headers);
        FieldsAre(rows[i], headers);
        assert back.value[i + 1] == FieldsOf(rows[i], headers);
      }
    }
  }

  /** Keys that the first object lacks leave no trace: an object with any others in their place gives the same file. */
  lemma OtherKeysAreDropped(rows: seq<Record>, i: nat, other: Record)
    requires 1 <= i < |rows| && forall h :: h in rows[0].keys ==> Field(other, h) == Field(rows[i], h)
    ensures DownloadCsv(rows[i := other]) == DownloadCsv(rows)
  {
    var headers, changed := rows[0].keys, rows[i := other];
    MatrixIs(rows, headers);
    MatrixIs(changed, headers);
    FieldsAre(rows[i], headers);
    FieldsAre(other, headers);
    assert FieldsOf(other, headers) == FieldsOf(rows[i], headers);
    assert Matrix(changed, headers) == Matrix(rows, headers);
  }

  lemma ReadSplits(text: string, record: seq<string>, rest: string, more: seq<seq<string>>)
    requires ReadRecord(text) == Some((record, "\n" + rest)) && Read(rest) == Some(more)
    ensures Read(text) == Some([record] + more)
  {
    assert ("\n" + rest)[1..] == rest;
  }

  /** A header name with a comma in it reads back as two names over the one column. */
  lemma CommaSplitsName(a: string, b: string, v: string)
    requires Plain(a) && Plain(b)
    ensures Read(Print([a + [','] + b], [[v]])) == Some([[a, b], [v]])
  {
    var names, line, text := [a, b], Cell(v), Print([a + [','] + b], [[v]]);
    assert Cells([v]) == [line] && Lines([[v]]) == [line];
    assert Join([line], '\n') == line;
    PrintIsHeaderAndRows([a + [','] + b], [[v]]);
    PlainCells(names);
    RecordReadsBack(names, "\n" + line);
    RowsReadBack([[v]], 1);
    hide Cells, Lines, ReadRecord, Read, Print, Cell;
    assert names[1..] == [b] && Join(names, ',') == a + [','] + b;
    assert text == Join(names, ',') + ("\n" + line);
    ReadSplits(text, names, line, [[v]]);
    assert [names] + [[v]] == [[a, b], [v]];
  }

  /** An object without keys is printed as two empty lines, which read back as two records of one empty cell. */
  lemma NoKeysReadBackAsOne()
    ensures Read(Print([], [[]])) == Some([[""], [""]])
  {
    var text := Print([], [[]]);
    PrintIsHeaderAndRows([], [[]]);
    assert Lines([[]]) == [""];
    assert text == "\n" && text[1..] == "";
    assert ReadRecord("") == Some(([""], "")) && Read("") == Some([[""]]);
    assert ReadRecord(text) == Some(([""], "\n"));
    assert "\n" + "" == "\n";
    ReadSplits(text, [""], "", [[""]]);
    assert [[""]] + [[""]] == [[""], [""]];
  }
}
