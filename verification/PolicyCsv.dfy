/** The CSV form of the policy audit export, and a reader for it after rules 5 to 7 of section 2 of
    RFC 4180 with LF as the record break. */
module PolicyCsv {
  import opened Timeline

  // A value to print: nothing, a string, or the text of a number, a boolean or a structure.
  datatype Cell = Null | Text(text: string) | Other(text: string)
  type Record = map<string, Cell>

  const COLUMNS: seq<string> := [
    "recordType", "recordId", "storeId", "profile", "timestamp", "outcome", "policyKey",
    "checkId", "status", "reasonCodes", "provenanceEventIds", "details", "recordDigest"]

  // ----- printing --------------------------------------------------------------------------

  /** `\s` of a JavaScript regular expression. */
  predicate IsSpace(c: char) {
    c in "\t\n\U{000B}\U{000C}\r \U{00A0}\U{1680}\U{2028}\U{2029}\U{202F}\U{205F}\U{3000}\U{FEFF}" || '\U{2000}' <= c <= '\U{200A}'
  }

  /** `/^\s*[=+\-@]/`. */
  predicate LooksLikeFormula(s: string) {
    s != [] && (s[0] in "=+-@" || (IsSpace(s[0]) && LooksLikeFormula(s[1..])))
  }

  /** The text a cell carries: strings that look like formulas get an apostrophe in front. */
  function FieldText(c: Cell): string {
    match c
    case Null => ""
    case Text(t) => if LooksLikeFormula(t) then "'" + t else t
    case Other(t) => t
  }

  predicate IsSpecial(c: char) { c in "\",\n\r" }

  predicate Plain(s: string) { forall c | c in s :: !IsSpecial(c) }

  function Doubled(s: string): string {
    if s == [] then [] else (if s[0] == '"' then "\"\"" else [s[0]]) + Doubled(s[1..])
  }

  function EscapeCell(c: Cell): string {
    if c.Null? then ""
    else if Plain(FieldText(c)) then FieldText(c)
    else "\"" + Doubled(FieldText(c)) + "\""
  }

  function CellOf(r: Record, column: string): Cell {
    if column in r then r[column] else Null
  }

  function Join(parts: seq<string>, separator: char): string {
    if parts == [] then []
    else if |parts| == 1 then parts[0]
    else Join(parts[..|parts| - 1], separator) + [separator] + parts[|parts| - 1]
  }

  function RowOf(r: Record, columns: seq<string>): (row: seq<string>)
    ensures |row| == |columns|
  {
    seq(|columns|, i requires 0 <= i < |columns| => EscapeCell(CellOf(r, columns[i])))
  }

  function TextsOf(r: Record, columns: seq<string>): (texts: seq<string>)
    ensures |texts| == |columns|
  {
    seq(|columns|, i requires 0 <= i < |columns| => FieldText(CellOf(r, columns[i])))
  }

  function Lines(records: seq<Record>, columns: seq<string>): (lines: seq<string>)
    ensures |lines| == 1 + |records|
  {
    [Join(columns, ',')] + seq(|records|, i requires 0 <= i < |records| => Join(RowOf(records[i], columns), ','))
  }

  method SerializeCsv(records: seq<Record>) returns (content: string, lineCount: nat)
    ensures content == Join(Lines(records, COLUMNS), '\n') && lineCount == 1 + |records|
  {
    var columns := COLUMNS;
    var rows := [Join(columns, ',')];
    var i := 0;
    while i < |records|
      invariant 0 <= i <= |records|
      invariant rows == Lines(records[..i], columns)
    {
      rows := rows + [Join(RowOf(records[i], columns), ',')];
      i := i + 1;
    }
    assert records[..i] == records;
    content, lineCount := Join(rows, '\n'), |rows|;
  }

  // ----- reading ---------------------------------------------------------------------------

  datatype Field = Start | Bare(text: string) | Inside(text: string) | Closed(text: string) | Broken
  datatype Reader = Reader(records: seq<seq<string>>, fields: seq<string>, field: Field)

  /** The text of a field that may end here. */
  function Ended(f: Field): Option<string> {
    match f
    case Start => Some("")
    case Bare(t) => Some(t)
    case Closed(t) => Some(t)
    case Inside(_) => None
    case Broken => None
  }

  function Read(r: Reader, c: char): Reader {
    match r.field
    case Inside(t) => r.(field := if c == '"' then Closed(t) else Inside(t + [c]))
    case Broken => r
    case _ =>
      var text := Ended(r.field).value;
      if c == ',' then Reader(r.records, r.fields + [text], Start)
      else if c == '\n' then Reader(r.records + [r.fields + [text]], [], Start)
      else if c == '"' then
        r.(field := if r.field == Start then Inside("") else if r.field.Closed? then Inside(text + ['"']) else Broken)
      else if r.field.Closed? || c == '\r' then r.(field := Broken)
      else r.(field := Bare(text + [c]))
  }

  function ReadAll(r: Reader, s: string): Reader
    decreases |s|
  {
    if s == [] then r else ReadAll(Read(r, s[0]), s[1..])
  }

  /** The records of a text, or nothing when a quote is out of place. */
  function Parse(s: string): Option<seq<seq<string>>> {
    var r := ReadAll(Reader([], [], Start), s);
    var last := Ended(r.field);
    if last.None? then None else Some(r.records + [r.fields + [last.value]])
  }

  // ----- printing, then reading ------------------------------------------------------------

  lemma {:induction false} ReadParts(r: Reader, a: string, b: string)
    ensures ReadAll(r, a + b) == ReadAll(ReadAll(r, a), b)
    decreases |a|
  {
    if a == [] {
      assert a + b == b;
    } else {
      ReadParts(Read(r, a[0]), a[1..], b);
      assert (a + b)[1..] == a[1..] + b;
    }
  }

  lemma ReadOne(r: Reader, c: char)
    ensures ReadAll(r, [c]) == Read(r, c)
  {
  }

  lemma ReadSeparated(r: Reader, a: string, separator: char, b: string)
    ensures ReadAll(r, a + [separator] + b) == ReadAll(Read(ReadAll(r, a), separator), b)
  {
    ReadParts(r, a + [separator], b);
    ReadParts(r, a, [separator]);
    ReadOne(ReadAll(r, a), separator);
  }

  lemma {:induction false} ReadBare(r: Reader, s: string)
    requires (r.field.Start? || r.field.Bare?) && Plain(s)
    ensures ReadAll(r, s) == if s == [] then r else r.(field := Bare(Ended(r.field).value + s))
    decreases |s|
  {
    if s != [] {
      var text := Ended(r.field).value;
      assert s[0] in s && !IsSpecial(s[0]);
      assert forall c | c in s[1..] :: c in s;
      ReadBare(Read(r, s[0]), s[1..]);
      assert text + [s[0]] + s[1..] == text + s;
      assert s[1..] == [] ==> text + [s[0]] == text + s;
    }
  }

  lemma {:induction false} ReadDoubled(r: Reader, s: string)
    requires r.field.Inside?
    ensures ReadAll(r, Doubled(s)) == r.(field := Inside(r.field.text + s))
    decreases |s|
  {
    if s == [] {
      assert r.field.text + s == r.field.text;
    } else {
      var head := if s[0] == '"' then "\"\"" else [s[0]];
      var next := r.(field := Inside(r.field.text + [s[0]]));
      ReadParts(r, head, Doubled(s[1..]));
      if s[0] == '"' {
        ReadParts(r, "\"", "\"");
        assert "\"" + "\"" == "\"\"";
        ReadOne(r, '"');
        ReadOne(Read(r, '"'), '"');
      } else {
        ReadOne(r, s[0]);
      }
      assert ReadAll(r, head) == next;
      ReadDoubled(next, s[1..]);
      assert r.field.text + [s[0]] + s[1..] == r.field.text + s;
    }
  }

  lemma ReadQuoted(r: Reader, t: string)
    requires r.field == Start
    ensures ReadAll(r, "\"" + Doubled(t) + "\"") == r.(field := Closed(t))
  {
    var inside := r.(field := Inside(""));
    ReadParts(r, "\"" + Doubled(t), "\"");
    ReadParts(r, "\"", Doubled(t));
    ReadOne(r, '"');
    ReadDoubled(inside, t);
    assert "" + t == t;
    ReadOne(inside.(field := Inside(t)), '"');
  }

  /** Reading a printed cell brings the reader to where its text can end. */
  lemma ReadCell(r: Reader, c: Cell)
    requires r.field == Start
    ensures var n := ReadAll(r, EscapeCell(c));
            n.records == r.records && n.fields == r.fields && Ended(n.field) == Some(FieldText(c)) && n.field != Broken
  {
    var t := FieldText(c);
    if !c.Null? {
      if Plain(t) {
        ReadBare(r, t);
        assert "" + t == t;
      } else {
        ReadQuoted(r, t);
      }
    }
  }

  /** A printed part and the text it is read as. */
  ghost predicate ReadsAs(part: string, text: string) {
    forall r: Reader | r.field == Start ::
      var n := ReadAll(r, part);
      n.records == r.records && n.fields == r.fields && Ended(n.field) == Some(text)
  }

  function Front<T>(s: seq<T>): seq<T>
    requires s != []
  {
    s[..|s| - 1]
  }

  function Final<T>(s: seq<T>): T
    requires s != []
  {
    s[|s| - 1]
  }

  lemma FrontAndFinal<T>(s: seq<T>)
    requires s != []
    ensures Front(s) + [Final(s)] == s
  {
  }

  /** The reader stands at the end of the last of these texts, with the others read. */
  ghost predicate AtEndOf(r: Reader, texts: seq<string>)
    requires texts != []
  {
    r.fields == Front(texts) && Ended(r.field) == Some(Final(texts))
  }

  lemma EndField(r: Reader, texts: seq<string>)
    requires texts != [] && AtEndOf(r, texts)
    ensures Read(r, ',') == Reader(r.records, texts, Start)
  {
  }

  lemma {:induction false} ReadRow(r: Reader, parts: seq<string>, texts: seq<string>)
    requires r.field == Start && r.fields == [] && |parts| == |texts| > 0
    requires forall i | 0 <= i < |parts| :: ReadsAs(parts[i], texts[i])
    ensures var n := ReadAll(r, Join(parts, ',')); n.records == r.records && AtEndOf(n, texts)
    decreases |parts|
  {
    var k := |parts| - 1;
    assert ReadsAs(parts[k], texts[k]);
    if k > 0 {
      var before := ReadAll(r, Join(parts[..k], ','));
      ReadRow(r, parts[..k], texts[..k]);
      ReadSeparated(r, Join(parts[..k], ','), ',', parts[k]);
      EndField(before, texts[..k]);
    }
  }

  /** A line and the texts of its fields. */
  ghost predicate RowReadsAs(line: string, texts: seq<string>)
    requires texts != []
  {
    forall r: Reader | r.field == Start && r.fields == [] ::
      var n := ReadAll(r, line); n.records == r.records && AtEndOf(n, texts)
  }

  /** The reader has finished every row but the last, and stands at the end of that. */
  ghost predicate AtLastOf(r: Reader, rows: seq<seq<string>>)
    requires rows != [] && Final(rows) != []
  {
    r.records == Front(rows) && AtEndOf(r, Final(rows))
  }

  lemma BreakLine(r: Reader, rows: seq<seq<string>>)
    requires rows != [] && Final(rows) != [] && AtLastOf(r, rows)
    ensures Read(r, '\n') == Reader(rows, [], Start)
  {
    FrontAndFinal(Final(rows));
    FrontAndFinal(rows);
  }

  lemma {:induction false} ReadRows(lines: seq<string>, rows: seq<seq<string>>)
    requires |lines| == |rows| > 0
    requires forall i | 0 <= i < |rows| :: rows[i] != [] && RowReadsAs(lines[i], rows[i])
    ensures AtLastOf(ReadAll(Reader([], [], Start), Join(lines, '\n')), rows)
    decreases |lines|
  {
    var k := |lines| - 1;
    var empty := Reader([], [], Start);
    assert RowReadsAs(lines[k], rows[k]);
    if k > 0 {
      var before := ReadAll(empty, Join(lines[..k], '\n'));
      ReadRows(lines[..k], rows[..k]);
      ReadSeparated(empty, Join(lines[..k], '\n'), '\n', lines[k]);
      BreakLine(before, rows[..k]);
    }
  }

  lemma HeaderReads(columns: seq<string>)
    requires columns != [] && forall i | 0 <= i < |columns| :: Plain(columns[i])
    ensures RowReadsAs(Join(columns, ','), columns)
  {
    forall i | 0 <= i < |columns| ensures ReadsAs(columns[i], columns[i]) {
      forall r: Reader | r.field == Start
        ensures var n := ReadAll(r, columns[i]); n.records == r.records && n.fields == r.fields && Ended(n.field) == Some(columns[i])
      {
        ReadBare(r, columns[i]);
        assert "" + columns[i] == columns[i];
      }
    }
    forall r: Reader | r.field == Start && r.fields == [] {
      ReadRow(r, columns, columns);
    }
  }

  lemma RecordReads(record: Record, columns: seq<string>)
    requires columns != []
    ensures RowReadsAs(Join(RowOf(record, columns), ','), TextsOf(record, columns))
  {
    forall i | 0 <= i < |columns| ensures ReadsAs(RowOf(record, columns)[i], TextsOf(record, columns)[i]) {
      forall r: Reader | r.field == Start {
        ReadCell(r, CellOf(record, columns[i]));
      }
    }
    forall r: Reader | r.field == Start && r.fields == [] {
      ReadRow(r, RowOf(record, columns), TextsOf(record, columns));
    }
  }

  function AllTexts(records: seq<Record>, columns: seq<string>): (all: seq<seq<string>>)
    ensures |all| == 1 + |records|
  {
    [columns] + seq(|records|, i requires 0 <= i < |records| => TextsOf(records[i], columns))
  }

  /** Printing under any plain column names and reading gives back the names and every field. */
  lemma ParseOfLines(records: seq<Record>, columns: seq<string>)
    requires columns != [] && forall i | 0 <= i < |columns| :: Plain(columns[i])
    ensures Parse(Join(Lines(records, columns), '\n')) == Some(AllTexts(records, columns))
  {
    var lines, rows := Lines(records, columns), AllTexts(records, columns);
    HeaderReads(columns);
    forall i | 0 <= i < |rows| ensures rows[i] != [] && RowReadsAs(lines[i], rows[i]) {
      if i > 0 {
        RecordReads(records[i - 1], columns);
      }
    }
    ReadRows(lines, rows);
    FrontAndFinal(Final(rows));
    FrontAndFinal(rows);
  }

  lemma ColumnsArePlain()
    ensures |COLUMNS| == 13 && forall i | 0 <= i < |COLUMNS| :: Plain(COLUMNS[i])
  {
  }

  /** Reading the printed export gives back the header and, for every record, the thirteen field
      texts, whatever quotes, commas and line breaks they hold. */
  lemma ParseOfPrinted(records: seq<Record>)
    ensures Parse(Join(Lines(records, COLUMNS), '\n')) == Some(AllTexts(records, COLUMNS))
    ensures |COLUMNS| == 13
  {
    ColumnsArePlain();
    ParseOfLines(records, COLUMNS);
  }

  /** In terms of the record: what is missing reads back as nothing, a number, a boolean or a structure
      as its text, and a string as itself, behind an apostrophe exactly when it looks like a formula. */
  lemma CellReadsBack(records: seq<Record>, i: nat, j: nat)
    requires i < |records| && j < 13
    ensures var table := Parse(Join(Lines(records, COLUMNS), '\n'));
            && table.Some? && |table.value| == |records| + 1 && |table.value[i + 1]| == 13
            && var text := table.value[i + 1][j];
               if COLUMNS[j] !in records[i] || records[i][COLUMNS[j]] == Null then text == ""
               else
                 var cell := records[i][COLUMNS[j]];
                 text == if cell.Text? && LooksLikeFormula(cell.text) then "'" + cell.text else cell.text
  {
    ParseOfPrinted(records);
    assert AllTexts(records, COLUMNS)[i + 1] == TextsOf(records[i], COLUMNS);
  }

  lemma SameTexts(a: seq<Record>, b: seq<Record>, columns: seq<string>)
    requires AllTexts(a, columns) == AllTexts(b, columns)
    ensures |a| == |b| && forall i | 0 <= i < |a| :: TextsOf(a[i], columns) == TextsOf(b[i], columns)
  {
    forall i | 0 <= i < |a| ensures i < |b| && TextsOf(a[i], columns) == TextsOf(b[i], columns) {
      assert AllTexts(a, columns)[i + 1] == AllTexts(b, columns)[i + 1];
    }
  }

  /** Two exports that print alike carry the same field texts. */
  lemma PrintIsInjectiveOnTexts(a: seq<Record>, b: seq<Record>)
    requires Join(Lines(a, COLUMNS), '\n') == Join(Lines(b, COLUMNS), '\n')
    ensures |a| == |b| && forall i | 0 <= i < |a| :: TextsOf(a[i], COLUMNS) == TextsOf(b[i], COLUMNS)
  {
    ParseOfPrinted(a);
    ParseOfPrinted(b);
    SameTexts(a, b, COLUMNS);
  }

  /** No string reaches a reader looking like a formula. */
  lemma StringsAreNoFormulas(t: string)
    ensures !LooksLikeFormula(FieldText(Text(t)))
    ensures FieldText(Text(t)) == t <==> !LooksLikeFormula(t)
  {
  }
}
