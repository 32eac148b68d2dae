module Csv {
  /** Record export as comma-separated values, and a reader for section 2 of RFC 4180. */

  import opened Common

  datatype Record = Record(id: string, title: string, owner: string, status: string, priority: string, updated: string)

  // ---- writing

  predicate IsSign(c: char) {
    c == '=' || c == '+' || c == '@' || c == '-'
  }

  /** `/^[\s]*[=+@-]/.test(s)` */
  predicate LooksLikeFormula(s: string) {
    s != "" && (IsSign(s[0]) || (IsJsSpace(s[0]) && LooksLikeFormula(s[1..])))
  }

  /** The cell as it is written, with a quote in front of anything a spreadsheet would evaluate. */
  function Neutral(s: string): string {
    if LooksLikeFormula(s) then ['\''] + s else s
  }

  /** `s.replaceAll('"', '""')` */
  function Doubled(s: string): string {
    if s == "" then "" else (if s[0] == '"' then ['"', '"'] else [s[0]]) + Doubled(s[1..])
  }

  /** `csvCell` on a string */
  function Cell(s: string): string {
    ['"'] + Doubled(Neutral(s)) + ['"']
  }

  function Fields(r: Record): seq<string> {
    [r.id, r.title, r.owner, r.status, r.priority, r.updated]
  }

  function Join(parts: seq<string>, separator: string): string {
    if parts == [] then "" else if |parts| == 1 then parts[0] else parts[0] + separator + Join(parts[1..], separator)
  }

  function Line(cells: seq<string>): string {
    Join(seq(|cells|, i requires 0 <= i < |cells| => Cell(cells[i])), [','])
  }

  const HEADER: seq<string> := ["id", "title", "owner", "status", "priority", "updated"]

  const CRLF: string := ['\r', '\n']

  function Lines(rows: seq<Record>): seq<string> {
    seq(|rows|, i requires 0 <= i < |rows| => Line(Fields(rows[i])))
  }

  /** `recordsCsv` */
  function RecordsCsv(rows: seq<Record>): string {
    Join([Join(HEADER, [','])] + Lines(rows), CRLF)
  }

  // ---- reading

  /** TEXTDATA, on any character set. */
  predicate IsPlain(c: char) {
    c != '"' && c != ',' && c != '\r' && c != '\n'
  }

  /** An unescaped field and what follows it. */
  function ReadPlain(s: string): (string, string) {
    if s == "" || !IsPlain(s[0]) then ("", s)
    else
      var (field, rest) := ReadPlain(s[1..]);
      ([s[0]] + field, rest)
  }

  /** The rest of an escaped field, after its opening quote; None when it is not closed. */
  function ReadEscaped(s: string): Option<(string, string)>
    decreases |s|
  {
    if s == "" then None
    else if s[0] != '"' then
      match ReadEscaped(s[1..])
      case None => None
      case Some((field, rest)) => Some(([s[0]] + field, rest))
    else if |s| > 1 && s[1] == '"' then
      match ReadEscaped(s[2..])
      case None => None
      case Some((field, rest)) => Some((['"'] + field, rest))
    else Some(("", s[1..]))
  }

  function ReadField(s: string): Option<(string, string)> {
    if s != "" && s[0] == '"' then ReadEscaped(s[1..]) else Some(ReadPlain(s))
  }

  lemma {:induction false} PlainLeavesLess(s: string)
    ensures |ReadPlain(s).1| <= |s|
  {
    if s != "" && IsPlain(s[0]) {
      PlainLeavesLess(s[1..]);
    }
  }

  lemma {:induction false} EscapedLeavesLess(s: string)
    ensures ReadEscaped(s).Some? ==> |ReadEscaped(s).value.1| < |s|
    decreases |s|
  {
    if s != "" {
      EscapedLeavesLess(s[1..]);
      if |s| > 1 {
        EscapedLeavesLess(s[2..]);
      }
    }
  }

  lemma FieldLeavesLess(s: string)
    ensures ReadField(s).Some? ==> |ReadField(s).value.1| <= |s|
  {
    PlainLeavesLess(s);
    if s != "" {
      EscapedLeavesLess(s[1..]);
    }
  }

  /** record = field *(COMMA field) */
  function ReadRecord(s: string): (r: Option<(seq<string>, string)>)
    ensures r.Some? ==> |r.value.1| <= |s|
    decreases |s|
  {
    FieldLeavesLess(s);
    match ReadField(s)
    case None => None
    case Some((field, rest)) =>
      if rest == "" || rest[0] != ',' then Some(([field], rest))
      else
        match ReadRecord(rest[1..])
        case None => None
        case Some((fields, left)) => Some(([field] + fields, left))
  }

  /** file = record *(CRLF record) [CRLF] */
  function ReadFile(s: string): Option<seq<seq<string>>>
    decreases |s|
  {
    match ReadRecord(s)
    case None => None
    case Some((fields, rest)) =>
      if rest == "" then Some([fields])
      else if !StartsWith(rest, CRLF) then None
      else if |rest| == 2 then Some([fields])
      else
        match ReadFile(rest[2..])
        case None => None
        case Some(records) => Some([fields] + records)
  }

  // ---- round trip

  predicate EndsField(rest: string) {
    rest == "" || rest[0] == ',' || rest[0] == '\r'
  }

  predicate EndsRecord(rest: string) {
    rest == "" || rest[0] == '\r'
  }

  /** A doubled text and its closing quote are read back as the text. */
  lemma {:induction false} ReadDoubled(s: string, rest: string)
    requires EndsField(rest)
    ensures ReadEscaped(Doubled(s) + (['"'] + rest)) == Some((s, rest))
  {
    var tail := ['"'] + rest;
    var text := Doubled(s) + tail;
    if s == "" {
      assert text == tail;
      assert text[1..] == rest;
    } else {
      ReadDoubled(s[1..], rest);
      var more := Doubled(s[1..]) + tail;
      assert s == [s[0]] + s[1..];
      if s[0] == '"' {
        assert text == ['"', '"'] + more;
        assert text[2..] == more;
      } else {
        assert text == [s[0]] + more;
        assert text[1..] == more;
      }
    }
  }

  lemma ReadCell(s: string, rest: string)
    requires EndsField(rest)
    ensures ReadField(Cell(s) + rest) == Some((Neutral(s), rest))
  {
    var text := Cell(s) + rest;
    assert text == ['"'] + (Doubled(Neutral(s)) + (['"'] + rest));
    assert text[1..] == Doubled(Neutral(s)) + (['"'] + rest);
    ReadDoubled(Neutral(s), rest);
  }

  lemma {:induction false} ReadPlainText(s: string, rest: string)
    requires (forall i :: 0 <= i < |s| ==> IsPlain(s[i])) && EndsField(rest)
    ensures ReadPlain(s + rest) == (s, rest)
  {
    if s == "" {
      assert s + rest == rest;
    } else {
      assert (s + rest)[1..] == s[1..] + rest;
      ReadPlainText(s[1..], rest);
      assert s == [s[0]] + s[1..];
    }
  }

  /** How a written field is read back. */
  ghost predicate Reads(written: string, field: string) {
    forall rest: string {:trigger written + rest} :: EndsField(rest) ==> ReadField(written + rest) == Some((field, rest))
  }

  ghost predicate AllRead(written: seq<string>, fields: seq<string>) {
    |written| == |fields| && forall i :: 0 <= i < |written| ==> Reads(written[i], fields[i])
  }

  lemma {:induction false} ReadJoined(written: seq<string>, fields: seq<string>, rest: string)
    requires written != [] && AllRead(written, fields) && EndsRecord(rest)
    ensures ReadRecord(Join(written, [',']) + rest) == Some((fields, rest))
    decreases |written|
  {
    var first := written[0];
    assert Reads(first, fields[0]);
    if |written| == 1 {
      assert Join(written, [',']) == first;
      assert fields == [fields[0]];
    } else {
      var others := Join(written[1..], [',']) + rest;
      ReadJoined(written[1..], fields[1..], rest);
      var after := [','] + others;
      assert Join(written, [',']) + rest == first + after;
      assert after[1..] == others;
      assert fields == [fields[0]] + fields[1..];
    }
  }

  lemma ReadLine(cells: seq<string>, rest: string)
    requires cells != [] && EndsRecord(rest)
    ensures ReadRecord(Line(cells) + rest) == Some((Neutrals(cells), rest))
  {
    var written := seq(|cells|, i requires 0 <= i < |cells| => Cell(cells[i]));
    forall i | 0 <= i < |cells|
      ensures Reads(written[i], Neutrals(cells)[i])
    {
      forall tail: string {:trigger written[i] + tail} | EndsField(tail)
        ensures ReadField(written[i] + tail) == Some((Neutral(cells[i]), tail))
      {
        ReadCell(cells[i], tail);
      }
    }
    ReadJoined(written, Neutrals(cells), rest);
  }

  function Neutrals(cells: seq<string>): seq<string> {
    seq(|cells|, i requires 0 <= i < |cells| => Neutral(cells[i]))
  }

  /** How a written line is read back. */
  ghost predicate ReadsLine(line: string, fields: seq<string>) {
    line != "" && forall rest: string {:trigger line + rest} :: EndsRecord(rest) ==> ReadRecord(line + rest) == Some((fields, rest))
  }

  ghost predicate AllLinesRead(lines: seq<string>, records: seq<seq<string>>) {
    |lines| == |records| && forall i :: 0 <= i < |lines| ==> ReadsLine(lines[i], records[i])
  }

  lemma {:induction false} ReadLines(lines: seq<string>, records: seq<seq<string>>)
    requires lines != [] && AllLinesRead(lines, records)
    ensures ReadFile(Join(lines, CRLF)) == Some(records)
    decreases |lines|
  {
    assert ReadsLine(lines[0], records[0]);
    if |lines| == 1 {
      assert lines[0] + "" == lines[0];
      assert records == [records[0]];
    } else {
      var others := Join(lines[1..], CRLF);
      ReadLines(lines[1..], records[1..]);
      var rest := CRLF + others;
      assert Join(lines, CRLF) == lines[0] + rest;
      assert rest[..2] == CRLF && rest[2..] == others;
      assert ReadsLine(lines[1], records[1]);
      JoinIsLonger(lines[1..], CRLF);
      assert records == [records[0]] + records[1..];
    }
  }

  lemma JoinIsLonger(parts: seq<string>, separator: string)
    requires parts != []
    ensures |Join(parts, separator)| >= |parts[0]|
  {
  }

  lemma LineIsRead(r: Record)
    ensures ReadsLine(Line(Fields(r)), Neutrals(Fields(r)))
  {
    var line := Line(Fields(r));
    JoinIsLonger(seq(|Fields(r)|, i requires 0 <= i < |Fields(r)| => Cell(Fields(r)[i])), [',']);
    forall rest: string {:trigger line + rest} | EndsRecord(rest)
      ensures ReadRecord(line + rest) == Some((Neutrals(Fields(r)), rest))
    {
      ReadLine(Fields(r), rest);
    }
  }

  lemma PlainIsRead(s: string)
    requires s != "" && forall i :: 0 <= i < |s| ==> IsPlain(s[i])
    ensures Reads(s, s)
  {
    forall rest: string {:trigger s + rest} | EndsField(rest)
      ensures ReadField(s + rest) == Some((s, rest))
    {
      ReadPlainText(s, rest);
    }
  }

  predicate PlainText(s: string) {
    s != "" && forall i | 0 <= i < |s| :: IsPlain(s[i])
  }

  lemma PlainLineIsRead(names: seq<string>)
    requires names != [] && forall i :: 0 <= i < |names| ==> PlainText(names[i])
    ensures ReadsLine(Join(names, [',']), names)
  {
    forall i | 0 <= i < |names|
      ensures Reads(names[i], names[i])
    {
      assert PlainText(names[i]);
      PlainIsRead(names[i]);
    }
    var line := Join(names, [',']);
    assert PlainText(names[0]);
    JoinIsLonger(names, [',']);
    forall rest: string {:trigger line + rest} | EndsRecord(rest)
      ensures ReadRecord(line + rest) == Some((names, rest))
    {
      ReadJoined(names, names, rest);
    }
  }

  lemma HeaderIsPlain()
    ensures forall i :: 0 <= i < |HEADER| ==> PlainText(HEADER[i])
  {
  }

  function NeutralRows(rows: seq<Record>): seq<seq<string>> {
    seq(|rows|, i requires 0 <= i < |rows| => Neutrals(Fields(rows[i])))
  }

  /** Reading an export back gives exactly the header and, for every record, its six cells after formula
      neutralisation, whatever quotes, commas and line breaks they hold. */
  lemma ExportIsRead(rows: seq<Record>)
    ensures ReadFile(RecordsCsv(rows)).Some?
    ensures var table := ReadFile(RecordsCsv(rows)).value;
      && |table| == 1 + |rows|
      && table[0] == ["id", "title", "owner", "status", "priority", "updated"]
      && forall i :: 0 <= i < |rows| ==> CellsOf(table[1 + i], rows[i])
  {
    TableIsRead(rows);
    var table := [HEADER] + NeutralRows(rows);
    forall i | 0 <= i < |rows|
      ensures CellsOf(table[1 + i], rows[i])
    {
      assert table[1 + i] == NeutralRows(rows)[i];
      RowHasCells(rows, i);
    }
  }

  /** The cells of a record, in the order of the columns. */
  ghost predicate CellsOf(cells: seq<string>, r: Record) {
    cells == [Neutral(r.id), Neutral(r.title), Neutral(r.owner), Neutral(r.status), Neutral(r.priority), Neutral(r.updated)]
  }

  lemma RowHasCells(rows: seq<Record>, i: nat)
    requires i < |rows|
    ensures CellsOf(NeutralRows(rows)[i], rows[i])
  {
  }

  lemma TableIsRead(rows: seq<Record>)
    ensures ReadFile(RecordsCsv(rows)) == Some([HEADER] + NeutralRows(rows))
  {
    HeaderIsPlain();
    PlainLineIsRead(HEADER);
    forall i | 0 <= i < |rows|
      ensures ReadsLine(Lines(rows)[i], NeutralRows(rows)[i])
    {
      LineIsRead(rows[i]);
    }
    ReadLines([Join(HEADER, [','])] + Lines(rows), [HEADER] + NeutralRows(rows));
  }

  /** No cell of an exported record is one a spreadsheet would evaluate; other cells are unchanged. */
  lemma NoFormulaIsExported(rows: seq<Record>, i: nat, j: nat)
    requires i < |rows| && j < 6
    ensures !LooksLikeFormula(NeutralRows(rows)[i][j])
    ensures !LooksLikeFormula(Fields(rows[i])[j]) ==> NeutralRows(rows)[i][j] == Fields(rows[i])[j]
    ensures LooksLikeFormula(Fields(rows[i])[j]) ==> NeutralRows(rows)[i][j] == ['\''] + Fields(rows[i])[j]
  {
  }

  /** A sign, with nothing but white space before it. */
  ghost predicate SignAt(s: string, n: int) {
    0 <= n < |s| && s[n] in {'=', '+', '@', '-'} && forall i :: 0 <= i < n ==> s[i] as int in JS_WHITE
  }

  /** What makes a cell a formula. */
  lemma FormulaIff(s: string)
    ensures LooksLikeFormula(s) <==> exists n :: SignAt(s, n)
  {
    FirstSignIff(s);
    forall c: char
      ensures IsJsSpace(c) <==> c as int in JS_WHITE
    {
      JsSpaceIff(c);
    }
    if LooksLikeFormula(s) {
      var n :| 0 <= n < |s| && IsSign(s[n]) && forall i :: 0 <= i < n ==> IsJsSpace(s[i]);
      assert SignAt(s, n);
    }
    if n :| SignAt(s, n) {
      assert IsSign(s[n]);
    }
  }

  lemma {:induction false} FirstSignIff(s: string)
    ensures LooksLikeFormula(s) <==> exists n :: 0 <= n < |s| && IsSign(s[n]) && forall i :: 0 <= i < n ==> IsJsSpace(s[i])
  {
    if s != "" && !IsSign(s[0]) {
      FirstSignIff(s[1..]);
      if LooksLikeFormula(s) {
        var n :| 0 <= n < |s[1..]| && IsSign(s[1..][n]) && forall i :: 0 <= i < n ==> IsJsSpace(s[1..][i]);
        assert IsSign(s[n + 1]);
        assert forall i :: 0 < i < n + 1 ==> s[i] == s[1..][i - 1];
      }
      if n :| 0 <= n < |s| && IsSign(s[n]) && forall i :: 0 <= i < n ==> IsJsSpace(s[i]) {
        assert IsSign(s[1..][n - 1]);
        assert forall i :: 0 <= i < n - 1 ==> s[1..][i] == s[i + 1];
      }
    }
  }
}
