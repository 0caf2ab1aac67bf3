/** A reader for section 2 of RFC 4180, and for the sections of a report. */
module CsvReader {
  import opened Common
  import opened Csv

  // ---------- The RFC 4180 grammar ----------

  datatype Scan<T> = Scan(value: T, rest: string)

  /** escaped = DQUOTE *(TEXTDATA / COMMA / CR / LF / 2DQUOTE) DQUOTE, after the first quote. */
  function ParseQuoted(s: string): (r: Option<Scan<string>>)
    ensures r.Some? ==> |r.value.rest| < |s|
  {
    if s == "" then None
    else if s[0] == '"' then
      if |s| > 1 && s[1] == '"' then
        var tail := ParseQuoted(s[2..]);
        if tail.None? then None else Some(Scan("\"" + tail.value.value, tail.value.rest))
      else Some(Scan("", s[1..]))
    else
      var tail := ParseQuoted(s[1..]);
      if tail.None? then None else Some(Scan([s[0]] + tail.value.value, tail.value.rest))
  }

  /** non-escaped = *TEXTDATA. */
  function ParsePlain(s: string): (r: Scan<string>)
    ensures |r.rest| <= |s|
  {
    if s == "" || IsSpecial(s[0]) then Scan("", s)
    else var tail := ParsePlain(s[1..]); Scan([s[0]] + tail.value, tail.rest)
  }

  /** field = escaped / non-escaped. */
  function ParseField(s: string): (r: Option<Scan<string>>)
    ensures r.Some? ==> |r.value.rest| <= |s|
  {
    if s != "" && s[0] == '"' then ParseQuoted(s[1..]) else Some(ParsePlain(s))
  }

  /** record = field *(COMMA field). */
  function ParseRecord(s: string): (r: Option<Scan<Record>>)
    ensures r.Some? ==> |r.value.rest| <= |s|
    decreases |s|
  {
    var first := ParseField(s);
    if first.None? then None
    else if first.value.rest != "" && first.value.rest[0] == ',' then
      var more := ParseRecord(first.value.rest[1..]);
      if more.None? then None else Some(Scan([first.value.value] + more.value.value, more.value.rest))
    else Some(Scan([first.value.value], first.value.rest))
  }

  /** file = record *(CRLF record) [CRLF], read after its leading records. */
  function ParseFile(s: string): Option<seq<Record>>
    decreases |s|
  {
    if s == "" then Some([])
    else
      var first := ParseRecord(s);
      if first.None? then None
      else if first.value.rest == "" then Some([first.value.value])
      else if |first.value.rest| >= 2 && first.value.rest[..2] == CRLF then
        var more := ParseFile(first.value.rest[2..]);
        if more.None? then None else Some([first.value.value] + more.value)
      else None
  }

  // ---------- Sections of a report ----------

  /** The rows of a table: records up to the next one-field record. */
  function DataPrefix(records: seq<Record>): (n: nat)
    ensures n <= |records|
  {
    if records == [] || |records[0]| == 1 then 0 else 1 + DataPrefix(records[1..])
  }

  /** A one-field record is a blank separator or a heading; a heading opens a table. */
  function SplitSections(records: seq<Record>): seq<Section>
    decreases |records|
  {
    if records == [] then []
    else if |records[0]| == 1 && records[0][0] != "" then
      var n := DataPrefix(records[1..]);
      [Section(records[0][0], records[1..][..n])] + SplitSections(records[1..][n..])
    else SplitSections(records[1..])
  }

  function ReadReport(text: string): Option<seq<Section>> {
    if text == "" || text[..1] != BOM then None
    else
      var records := ParseFile(text[1..]);
      if records.None? then None else Some(SplitSections(records.value))
  }

  // ---------- Cells ----------

  /** What may follow a cell: a comma, a line break, or the end. */
  predicate EndsCell(tail: string) {
    tail == "" || tail[0] == ',' || tail[0] == '\r' || tail[0] == '\n'
  }

  lemma Assoc<T>(a: seq<T>, b: seq<T>, c: seq<T>)
    ensures (a + b) + c == a + (b + c)
  {
  }

  lemma Uncons<T>(x: T, s: seq<T>)
    ensures ([x] + s)[0] == x && ([x] + s)[1..] == s
  {
  }

  /** The reader takes one printed character back, or the two quotes that stand for one. */
  lemma QuotedStep(c: char, doubled: string, tail: string)
    requires ParseQuoted(doubled + "\"" + tail).Some?
    ensures var rest := ParseQuoted(doubled + "\"" + tail).value;
            ParseQuoted((if c == '"' then "\"\"" else [c]) + doubled + "\"" + tail)
            == Some(Scan([c] + rest.value, rest.rest))
  {
    var rest := doubled + "\"" + tail;
    var here := if c == '"' then "\"\"" else [c];
    Assoc(here, doubled, "\"");
    Assoc(here, doubled + "\"", tail);
    assert here + doubled + "\"" + tail == here + rest;
    if c == '"' {
      assert (here + rest)[2..] == rest;
    } else {
      Uncons(c, rest);
    }
  }

  lemma {:induction false} QuotedRoundTrip(value: string, tail: string)
    requires EndsCell(tail)
    ensures ParseQuoted(DoubleQuotes(value) + "\"" + tail) == Some(Scan(value, tail))
  {
    if value == "" {
      assert DoubleQuotes(value) + "\"" + tail == "\"" + tail;
    } else {
      QuotedRoundTrip(value[1..], tail);
      QuotedStep(value[0], DoubleQuotes(value[1..]), tail);
      assert value == [value[0]] + value[1..];
    }
  }

  lemma {:induction false} PlainRoundTrip(value: string, tail: string)
    requires !NeedsQuotes(value) && EndsCell(tail)
    ensures ParsePlain(value + tail) == Scan(value, tail)
  {
    if value == "" {
      assert value + tail == tail;
    } else {
      assert !IsSpecial(value[0]);
      forall i | 0 <= i < |value[1..]| ensures !IsSpecial(value[1..][i]) {
        assert value[1..][i] == value[i + 1];
      }
      PlainRoundTrip(value[1..], tail);
      assert (value + tail)[1..] == value[1..] + tail;
      assert value == [value[0]] + value[1..];
    }
  }

  lemma EscapedCellRoundTrip(value: string, tail: string)
    requires NeedsQuotes(value) && EndsCell(tail)
    ensures ParseField(EscapeCell(value) + tail) == Some(Scan(value, tail))
  {
    var q, d := "\"", DoubleQuotes(value);
    Assoc(q, d, q);
    Assoc(q, d + q, tail);
    Uncons('"', (d + q) + tail);
    QuotedRoundTrip(value, tail);
  }

  /** Reading a printed cell gives the cell back, whatever characters it has. */
  lemma CellRoundTrip(value: string, tail: string)
    requires EndsCell(tail)
    ensures ParseField(EscapeCell(value) + tail) == Some(Scan(value, tail))
  {
    if NeedsQuotes(value) {
      EscapedCellRoundTrip(value, tail);
    } else {
      PlainRoundTrip(value, tail);
      if value == "" {
        assert value + tail == tail;
      } else {
        assert (value + tail)[0] == value[0] && !IsSpecial(value[0]);
      }
    }
  }

  // ---------- Records and files ----------

  lemma {:induction false} RecordRoundTrip(cells: Record, tail: string)
    requires cells != [] && (tail == "" || tail[0] == '\r')
    ensures ParseRecord(RowText(cells) + tail) == Some(Scan(cells, tail))
    decreases |cells|
  {
    if |cells| == 1 {
      CellRoundTrip(cells[0], tail);
      assert cells == [cells[0]];
    } else {
      var cell, more := EscapeCell(cells[0]), RowText(cells[1..]);
      Assoc(cell, ",", more);
      Assoc(cell, "," + more, tail);
      Assoc(",", more, tail);
      Uncons(',', more + tail);
      CellRoundTrip(cells[0], "," + (more + tail));
      RecordRoundTrip(cells[1..], tail);
      assert cells == [cells[0]] + cells[1..];
    }
  }

  function RowTexts(records: seq<Record>): seq<string> {
    seq(|records|, i requires 0 <= i < |records| => RowText(records[i]))
  }

  /** Each record on its own line, each line ended by CRLF. */
  function Print(records: seq<Record>): string {
    if records == [] then "" else RowText(records[0]) + CRLF + Print(records[1..])
  }

  lemma {:induction false} JoinPrints(records: seq<Record>)
    requires records != []
    ensures Join(RowTexts(records)) + CRLF == Print(records)
    decreases |records|
  {
    if |records| > 1 {
      JoinPrints(records[1..]);
      assert RowTexts(records)[1..] == RowTexts(records[1..]);
      assert RowText(records[0]) + CRLF + Join(RowTexts(records[1..])) + CRLF
          == RowText(records[0]) + CRLF + (Join(RowTexts(records[1..])) + CRLF);
    }
  }

  /** The reader undoes the printer on every list of non-empty records. */
  lemma {:induction false} FileRoundTrip(records: seq<Record>)
    requires forall i :: 0 <= i < |records| ==> records[i] != []
    ensures ParseFile(Print(records)) == Some(records)
    decreases |records|
  {
    if records != [] {
      var more := Print(records[1..]);
      FileRoundTrip(records[1..]);
      Assoc(RowText(records[0]), CRLF, more);
      RecordRoundTrip(records[0], CRLF + more);
      assert (CRLF + more)[..2] == CRLF && (CRLF + more)[2..] == more;
      assert records == [records[0]] + records[1..];
    }
  }

  // ---------- Whole documents ----------

  /** Headings are not blank and every table row has at least two cells. */
  predicate WellFormed(sections: seq<Section>) {
    forall i :: 0 <= i < |sections| ==>
      sections[i].heading != "" && forall k :: 0 <= k < |sections[i].rows| ==> |sections[i].rows[k]| >= 2
  }

  lemma {:induction false} PrefixStopsAt(rows: seq<Record>, rest: seq<Record>)
    requires forall k :: 0 <= k < |rows| ==> |rows[k]| >= 2
    requires rest == [] || |rest[0]| == 1
    ensures DataPrefix(rows + rest) == |rows|
    decreases |rows|
  {
    if rows == [] {
      assert rows + rest == rest;
    } else {
      assert (rows + rest)[1..] == rows[1..] + rest;
      PrefixStopsAt(rows[1..], rest);
    }
  }

  /** Reading past one table. */
  lemma OneSection(s: Section, rest: seq<Record>)
    requires s.heading != "" && forall k :: 0 <= k < |s.rows| ==> |s.rows[k]| >= 2
    requires rest == [] || |rest[0]| == 1
    ensures SplitSections(SectionRecords(s) + rest) == [s] + SplitSections(rest)
  {
    Assoc([[s.heading]], s.rows, rest);
    Uncons([s.heading], s.rows + rest);
    PrefixStopsAt(s.rows, rest);
    assert (s.rows + rest)[..|s.rows|] == s.rows && (s.rows + rest)[|s.rows|..] == rest;
  }

  lemma BlankIsSkipped(rest: seq<Record>)
    ensures SplitSections([[""]] + rest) == SplitSections(rest)
  {
    Uncons([""], rest);
  }

  /** Sections split unambiguously. */
  lemma {:induction false} SectionsRoundTrip(sections: seq<Section>)
    requires WellFormed(sections)
    ensures SplitSections(Records(sections)) == sections
    decreases |sections|
  {
    if |sections| == 1 {
      assert SectionRecords(sections[0]) + [] == Records(sections);
      OneSection(sections[0], []);
    } else if |sections| > 1 {
      var more := Records(sections[1..]);
      SectionsRoundTrip(sections[1..]);
      BlankIsSkipped(more);
      Assoc(SectionRecords(sections[0]), [[""]], more);
      OneSection(sections[0], [[""]] + more);
      assert sections == [sections[0]] + sections[1..];
    }
  }

  lemma {:induction false} RecordsNotEmpty(sections: seq<Section>)
    requires WellFormed(sections)
    ensures forall i :: 0 <= i < |Records(sections)| ==> Records(sections)[i] != []
    decreases |sections|
  {
    if |sections| > 1 {
      RecordsNotEmpty(sections[1..]);
    }
  }

  /** The text of a document: what the two printers below return. */
  function DocumentText(sections: seq<Section>): string {
    BOM + Join(RowTexts(Records(sections))) + CRLF
  }

  /** Reading a printed document gives back exactly its tables. */
  lemma {:induction false} DocumentRoundTrip(sections: seq<Section>)
    requires sections != [] && WellFormed(sections)
    ensures ReadReport(DocumentText(sections)) == Some(sections)
    ensures ParseFile(DocumentText(sections)[1..]) == Some(Records(sections))
  {
    var records := Records(sections);
    assert records[0] == [sections[0].heading];
    JoinPrints(records);
    RecordsNotEmpty(sections);
    FileRoundTrip(records);
    SectionsRoundTrip(sections);
    DropBom(Join(RowTexts(records)));
  }

  // ---------- Numbers in cells ----------

  /** The number a string of digits stands for. */
  function ReadDecimal(s: string): int {
    if s == "" then 0 else 10 * ReadDecimal(s[..|s| - 1]) + (s[|s| - 1] as int - '0' as int)
  }

  /** A printed count is digits only, without leading zeros. */
  lemma {:induction false} DecimalIsDigits(n: nat)
    ensures var s := Decimal(n); s != "" && (s[0] == '0' <==> n == 0) && (n == 0 ==> |s| == 1)
    ensures forall i :: 0 <= i < |Decimal(n)| ==> '0' <= Decimal(n)[i] <= '9'
    decreases n
  {
    if n >= 10 {
      DecimalIsDigits(n / 10);
    }
  }

  /** A printed count reads back as that count. */
  lemma {:induction false} DecimalReads(n: nat)
    ensures ReadDecimal(Decimal(n)) == n
    decreases n
  {
    var front := if n < 10 then "" else Decimal(n / 10);
    assert Decimal(n) == front + [(n % 10) as char + '0'];
    assert Decimal(n)[..|Decimal(n)| - 1] == front;
    if n >= 10 {
      DecimalReads(n / 10);
    }
  }

  /** Digits, a point and four digits, in ten-thousandths. */
  function ReadFixed4(s: string): int
    requires |s| >= 5
  {
    10000 * ReadDecimal(s[..|s| - 5]) + ReadDecimal(s[|s| - 4..])
  }

  lemma FourDigits(a: char, b: char, c: char, d: char)
    ensures ReadDecimal([a, b, c, d]) ==
            1000 * (a as int - '0' as int) + 100 * (b as int - '0' as int) + 10 * (c as int - '0' as int) +
                (d as int - '0' as int)
  {
    assert [a, b, c, d][..3] == [a, b, c] && [a, b, c][..2] == [a, b] && [a, b][..1] == [a] && [a][..0] == [];
    assert ReadDecimal([a]) == a as int - '0' as int;
    assert ReadDecimal([a, b]) == 10 * ReadDecimal([a]) + (b as int - '0' as int);
  }

  lemma FixedTextReads(n: nat)
    ensures var s := FixedText(n); |s| >= 6 && s[|s| - 5] == '.' && ReadFixed4(s) == n
  {
    var a, b, c := n / 10, n / 10 / 10, n / 10 / 10 / 10;
    var whole, tail := Decimal(c / 10), [Digit(c), Digit(b), Digit(a), Digit(n)];
    var s := FixedText(n);
    assert s == whole + ['.'] + tail;
    assert s[..|s| - 5] == whole && s[|s| - 4..] == tail;
    DecimalReads(c / 10);
    FourDigits(Digit(c), Digit(b), Digit(a), Digit(n));
    DigitsOf(n);
  }

  lemma DigitsOf(n: nat)
    ensures var a := n / 10; var b := a / 10; var c := b / 10;
            10000 * (c / 10) + 1000 * (c % 10) + 100 * (b % 10) + 10 * (a % 10) + n % 10 == n
  {
    var a := n / 10;
    var b := a / 10;
    var c := b / 10;
    assert n == 10 * a + n % 10 && a == 10 * b + a % 10 && b == 10 * c + b % 10 && c == 10 * (c / 10) + c % 10;
  }

  /** A printed rate reads back as the ten-thousandth nearest to it, halves rounded up. */
  lemma FixedReads(x: real)
    requires x >= 0.0
    ensures var s := ToFixed4(x);
            |s| >= 6 && s[|s| - 5] == '.' && ReadFixed4(s) as real - 0.5 <= x * 10000.0 < ReadFixed4(s) as real + 0.5
  {
    FixedTextReads(TenThousandths(x));
  }

  /** Different tables never print the same text. */
  lemma SameTextSameTables(a: seq<Section>, b: seq<Section>)
    requires a != [] && b != [] && WellFormed(a) && WellFormed(b)
    ensures DocumentText(a) == DocumentText(b) <==> a == b
  {
    DocumentRoundTrip(a);
    DocumentRoundTrip(b);
  }

  lemma DropBom(text: string)
    ensures BOM + text + CRLF != "" && (BOM + text + CRLF)[..1] == BOM && (BOM + text + CRLF)[1..] == text + CRLF
  {
  }
}

/** What stands in each cell of a report, by the name of its column. */
module CsvTables {
  import opened Common
  import opened Csv
  import opened CsvReader

  /** Column k of a table is headed `name` and holds `value` in data row i. */
  predicate Cell(s: Section, i: nat, k: nat, name: string, value: string) {
    && i + 1 < |s.rows| && k < |s.rows[0]| == |s.rows[i + 1]|
    && s.rows[0][k] == name && s.rows[i + 1][k] == value
  }

  /** The same for a count, which is read as a number. */
  predicate CountCell(s: Section, i: nat, k: nat, name: string, count: nat) {
    && i + 1 < |s.rows| && k < |s.rows[0]| == |s.rows[i + 1]|
    && s.rows[0][k] == name && ReadDecimal(s.rows[i + 1][k]) == count
  }

  predicate CountRow(s: Section, i: nat, metric: string, count: nat) {
    Cell(s, i, 0, "metric", metric) && CountCell(s, i, 1, "value", count)
  }

  predicate BreakdownFrom(s: Section, from: nat, prefix: string, b: Breakdown) {
    forall j: nat :: j < |b| ==> CountRow(s, from + j, prefix + b[j].0, b[j].1)
  }

  // ---------- The unit report ----------

  predicate UnitMetaTable(s: Section, m: UnitMeta) {
    && s.heading == "# UNIT REPORT" && |s.rows| == 2 && |s.rows[0]| == 4
    && Cell(s, 0, 0, "id", m.id)
    && Cell(s, 0, 1, "name", m.name)
    && Cell(s, 0, 2, "abbreviation", if m.abbreviation.Some? then m.abbreviation.value else "")
    && Cell(s, 0, 3, "generatedAt", m.generatedAt)
  }

  predicate UnitSummaryTable(s: Section, r: UnitReport) {
    && s.heading == "# SUMMARY" && |s.rows| == 4 + |r.classesByStatus| + |r.exercisesByStatus| && |s.rows[0]| == 2
    && CountRow(s, 0, "instructorCount", r.instructorCount)
    && CountRow(s, 1, "classCount", r.classCount)
    && CountRow(s, 2, "exerciseCount", r.exerciseCount)
    && BreakdownFrom(s, 3, "classes_", r.classesByStatus)
    && BreakdownFrom(s, 3 + |r.classesByStatus|, "exercises_", r.exercisesByStatus)
  }

  predicate InstructorCells(s: Section, i: nat, instructor: Instructor) {
    && Cell(s, i, 0, "userId", instructor.userId)
    && Cell(s, i, 1, "displayName", instructor.displayName)
    && Cell(s, i, 2, "email", instructor.email)
    && Cell(s, i, 3, "assignedAt", instructor.assignedAt)
  }

  predicate InstructorTable(s: Section, instructors: seq<Instructor>) {
    && s.heading == "# INSTRUCTORS" && |s.rows| == 1 + |instructors|
    && s.rows[0] == ["userId", "displayName", "email", "assignedAt"]
    && forall i: nat :: i < |instructors| ==> InstructorCells(s, i, instructors[i])
  }

  predicate UnitClassCells(s: Section, i: nat, c: UnitClass) {
    && Cell(s, i, 0, "id", c.id)
    && Cell(s, i, 1, "name", c.name)
    && Cell(s, i, 2, "status", c.status)
    && Cell(s, i, 3, "startsAt", c.startsAt)
    && Cell(s, i, 4, "endsAt", if c.endsAt.Some? then c.endsAt.value else "")
    && Cell(s, i, 5, "leadInstructorName", c.leadInstructorName)
    && CountCell(s, i, 6, "exerciseCount", c.exerciseCount)
  }

  predicate UnitClassTable(s: Section, classes: seq<UnitClass>) {
    && s.heading == "# CLASSES" && |s.rows| == 1 + |classes|
    && s.rows[0] == ["id", "name", "status", "startsAt", "endsAt", "leadInstructorName", "exerciseCount"]
    && forall i: nat :: i < |classes| ==> UnitClassCells(s, i, classes[i])
  }

  /** The four tables of a unit report, in order. */
  predicate UnitTables(tables: seq<Section>, r: UnitReport) {
    && |tables| == 4
    && UnitMetaTable(tables[0], r.meta)
    && UnitSummaryTable(tables[1], r)
    && InstructorTable(tables[2], r.instructors)
    && UnitClassTable(tables[3], r.classes)
  }

  lemma UnitMetaSays(r: UnitReport)
    ensures UnitMetaTable(UnitMetaSection(r), r.meta)
  {
  }

  lemma CountRowSays(s: Section, i: nat, metric: string, count: nat)
    requires i + 1 < |s.rows| && s.rows[0] == ["metric", "value"] && s.rows[i + 1] == [metric, Decimal(count)]
    ensures CountRow(s, i, metric, count)
  {
    DecimalReads(count);
  }

  lemma BreakdownSays(s: Section, from: nat, prefix: string, b: Breakdown)
    requires s.rows != [] && s.rows[0] == ["metric", "value"] && from + |b| < |s.rows|
    requires forall j: nat :: j < |b| ==> s.rows[from + j + 1] == BreakdownRows(prefix, b)[j]
    ensures BreakdownFrom(s, from, prefix, b)
  {
    forall j: nat | j < |b| ensures CountRow(s, from + j, prefix + b[j].0, b[j].1) {
      assert BreakdownRows(prefix, b)[j] == [prefix + b[j].0, Decimal(b[j].1)];
      CountRowSays(s, from + j, prefix + b[j].0, b[j].1);
    }
  }

  /** The rows of a summary with three fixed rows and two breakdowns, one by one. */
  lemma SummaryRows(rows: seq<Record>, head: Record, x: Record, y: Record, z: Record, a: seq<Record>, b: seq<Record>)
    requires rows == [head, x, y, z] + a + b
    ensures |rows| == 4 + |a| + |b| && rows[0] == head && rows[1] == x && rows[2] == y && rows[3] == z
    ensures forall j: nat :: j < |a| ==> rows[3 + j + 1] == a[j]
    ensures forall j: nat :: j < |b| ==> rows[3 + |a| + j + 1] == b[j]
  {
  }

  /** A summary with three counts and two breakdowns, from its rows. */
  lemma SummarySays(s: Section, r: UnitReport, a: seq<Record>, b: seq<Record>)
    requires a == BreakdownRows("classes_", r.classesByStatus)
    requires b == BreakdownRows("exercises_", r.exercisesByStatus)
    requires s.heading == "# SUMMARY"
    requires |s.rows| == 4 + |a| + |b| && s.rows[0] == ["metric", "value"]
    requires s.rows[1] == ["instructorCount", Decimal(r.instructorCount)]
    requires s.rows[2] == ["classCount", Decimal(r.classCount)]
    requires s.rows[3] == ["exerciseCount", Decimal(r.exerciseCount)]
    requires forall j: nat :: j < |a| ==> s.rows[3 + j + 1] == a[j]
    requires forall j: nat :: j < |b| ==> s.rows[3 + |a| + j + 1] == b[j]
    ensures UnitSummaryTable(s, r)
  {
    CountRowSays(s, 0, "instructorCount", r.instructorCount);
    CountRowSays(s, 1, "classCount", r.classCount);
    CountRowSays(s, 2, "exerciseCount", r.exerciseCount);
    BreakdownSays(s, 3, "classes_", r.classesByStatus);
    BreakdownSays(s, 3 + |a|, "exercises_", r.exercisesByStatus);
  }

  lemma UnitSummarySays(r: UnitReport)
    ensures UnitSummaryTable(UnitSummarySection(r), r)
  {
    var s := UnitSummarySection(r);
    var a, b := BreakdownRows("classes_", r.classesByStatus), BreakdownRows("exercises_", r.exercisesByStatus);
    SummaryRows(s.rows, ["metric", "value"], ["instructorCount", Decimal(r.instructorCount)],
        ["classCount", Decimal(r.classCount)], ["exerciseCount", Decimal(r.exerciseCount)], a, b);
    SummarySays(s, r, a, b);
  }

  lemma InstructorsSay(r: UnitReport)
    ensures InstructorTable(InstructorsSection(r), r.instructors)
  {
    var s := InstructorsSection(r);
    forall i: nat | i < |r.instructors| ensures InstructorCells(s, i, r.instructors[i]) {
      assert s.rows[i + 1] == InstructorRow(r.instructors[i]);
    }
  }

  lemma UnitClassSays(s: Section, i: nat, c: UnitClass)
    requires i + 1 < |s.rows| && s.rows[i + 1] == UnitClassRow(c)
    requires s.rows[0] == ["id", "name", "status", "startsAt", "endsAt", "leadInstructorName", "exerciseCount"]
    ensures UnitClassCells(s, i, c)
  {
    DecimalReads(c.exerciseCount);
  }

  lemma UnitClassesSay(r: UnitReport)
    ensures UnitClassTable(ClassesSection(r), r.classes)
  {
    var s := ClassesSection(r);
    forall i: nat | i < |r.classes| ensures UnitClassCells(s, i, r.classes[i]) {
      UnitClassSays(s, i, r.classes[i]);
    }
  }

  lemma UnitSectionsSay(r: UnitReport)
    ensures UnitTables(UnitSections(r), r)
  {
    UnitMetaSays(r);
    UnitSummarySays(r);
    InstructorsSay(r);
    UnitClassesSay(r);
  }

  // ---------- The class report ----------

  predicate ClassMetaTable(s: Section, m: ClassMeta) {
    && s.heading == "# CLASS REPORT" && |s.rows| == 2 && |s.rows[0]| == 10
    && Cell(s, 0, 0, "id", m.id)
    && Cell(s, 0, 1, "name", m.name)
    && Cell(s, 0, 2, "status", m.status)
    && Cell(s, 0, 3, "startsAt", m.startsAt)
    && Cell(s, 0, 4, "endsAt", if m.endsAt.Some? then m.endsAt.value else "")
    && Cell(s, 0, 5, "unitId", m.unitId)
    && Cell(s, 0, 6, "unitName", m.unitName)
    && Cell(s, 0, 7, "leadInstructorName", m.leadInstructorName)
    && Cell(s, 0, 8, "leadInstructorEmail", m.leadInstructorEmail)
    && Cell(s, 0, 9, "generatedAt", m.generatedAt)
  }

  /** Four decimals which, read as a number, are the nearest to x, halves up. */
  predicate ReadsNearest(text: string, x: real) {
    && |text| >= 6 && text[|text| - 5] == '.'
    && ReadFixed4(text) as real - 0.5 <= x * 10000.0 < ReadFixed4(text) as real + 0.5
  }

  predicate RateRow(s: Section, i: nat, rate: real) {
    && i + 1 < |s.rows| && |s.rows[0]| == |s.rows[i + 1]| == 2
    && Cell(s, i, 0, "metric", "completionRate") && s.rows[0][1] == "value"
    && var text := s.rows[i + 1][1];
       if rate >= 0.0 then ReadsNearest(text, rate)
       else text != "" && text[0] == '-' && ReadsNearest(text[1..], -rate)
  }

  predicate ClassSummaryTable(s: Section, r: ClassReport) {
    && s.heading == "# SUMMARY" && |s.rows| == 3 + |r.exercisesByStatus| && |s.rows[0]| == 2
    && CountRow(s, 0, "exerciseCount", r.exerciseCount)
    && RateRow(s, 1, r.completionRate)
    && BreakdownFrom(s, 2, "exercises_", r.exercisesByStatus)
  }

  predicate ExerciseCells(s: Section, i: nat, e: Exercise) {
    && Cell(s, i, 0, "id", e.id)
    && Cell(s, i, 1, "name", e.name)
    && Cell(s, i, 2, "description", if e.description.Some? then e.description.value else "")
    && Cell(s, i, 3, "status", e.status)
    && Cell(s, i, 4, "scheduledAt", if e.scheduledAt.Some? then e.scheduledAt.value else "")
    && Cell(s, i, 5, "eventId", if e.eventId.Some? then e.eventId.value else "")
  }

  predicate ExerciseTable(s: Section, exercises: seq<Exercise>) {
    && s.heading == "# EXERCISES" && |s.rows| == 1 + |exercises|
    && s.rows[0] == ["id", "name", "description", "status", "scheduledAt", "eventId"]
    && forall i: nat :: i < |exercises| ==> ExerciseCells(s, i, exercises[i])
  }

  /** The three tables of a class report, in order. */
  predicate ClassTables(tables: seq<Section>, r: ClassReport) {
    && |tables| == 3
    && ClassMetaTable(tables[0], r.meta)
    && ClassSummaryTable(tables[1], r)
    && ExerciseTable(tables[2], r.exercises)
  }

  lemma ClassMetaSays(r: ClassReport)
    ensures ClassMetaTable(ClassMetaSection(r), r.meta)
  {
  }

  lemma RateRowSays(s: Section, i: nat, rate: real)
    requires i + 1 < |s.rows| && s.rows[0] == ["metric", "value"]
    requires s.rows[i + 1] == ["completionRate", ToFixed4(rate)]
    ensures RateRow(s, i, rate)
  {
    FixedReads(if rate < 0.0 then -rate else rate);
    if rate < 0.0 {
      Uncons('-', ToFixed4(-rate));
    }
  }

  lemma ShortSummaryRows(rows: seq<Record>, head: Record, x: Record, y: Record, b: seq<Record>)
    requires rows == [head, x, y] + b
    ensures |rows| == 3 + |b| && rows[0] == head && rows[1] == x && rows[2] == y
    ensures forall j: nat :: j < |b| ==> rows[2 + j + 1] == b[j]
  {
  }

  lemma ExercisesSay(r: ClassReport)
    ensures ExerciseTable(ExercisesSection(r), r.exercises)
  {
    var s := ExercisesSection(r);
    forall i: nat | i < |r.exercises| ensures ExerciseCells(s, i, r.exercises[i]) {
      assert s.rows[i + 1] == ExerciseRow(r.exercises[i]);
    }
  }

  lemma ClassSectionsSay(r: ClassReport)
    ensures ClassTables(ClassSections(r), r)
  {
    ClassMetaSays(r);
    ExercisesSay(r);
    var s := ClassSummarySection(r);
    var b := BreakdownRows("exercises_", r.exercisesByStatus);
    ShortSummaryRows(s.rows, ["metric", "value"], ["exerciseCount", Decimal(r.exerciseCount)],
        ["completionRate", ToFixed4(r.completionRate)], b);
    CountRowSays(s, 0, "exerciseCount", r.exerciseCount);
    RateRowSays(s, 1, r.completionRate);
    BreakdownSays(s, 2, "exercises_", r.exercisesByStatus);
  }
}
