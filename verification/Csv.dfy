/** The CSV serialization of tactical reports. */
module Csv {
  import opened Common

  const BOM := "\U{FEFF}"
  const CRLF := "\r\n"

  // ---------- Reports ----------

  /** A per-status breakdown, as Object.entries lists it. */
  type Breakdown = seq<(string, nat)>

  datatype UnitMeta = UnitMeta(id: string, name: string, abbreviation: Option<string>, generatedAt: string)

  datatype Instructor = Instructor(userId: string, displayName: string, email: string, assignedAt: string)

  datatype UnitClass = UnitClass(id: string, name: string, status: string, startsAt: string, endsAt: Option<string>,
                                 leadInstructorName: string, exerciseCount: nat)

  datatype UnitReport = UnitReport(meta: UnitMeta, instructorCount: nat, classCount: nat, exerciseCount: nat,
                                   classesByStatus: Breakdown, exercisesByStatus: Breakdown,
                                   instructors: seq<Instructor>, classes: seq<UnitClass>)

  datatype ClassMeta = ClassMeta(id: string, name: string, status: string, startsAt: string, endsAt: Option<string>,
                                 unitId: string, unitName: string, leadInstructorName: string,
                                 leadInstructorEmail: string, generatedAt: string)

  datatype Exercise = Exercise(id: string, name: string, description: Option<string>, status: string,
                               scheduledAt: Option<string>, eventId: Option<string>)

  datatype ClassReport = ClassReport(meta: ClassMeta, exerciseCount: nat, completionRate: real,
                                     exercisesByStatus: Breakdown, exercises: seq<Exercise>)

  // ---------- Rows and cells ----------

  predicate IsSpecial(c: char) {
    c == '"' || c == ',' || c == '\r' || c == '\n'
  }

  predicate NeedsQuotes(value: string) {
    exists i :: 0 <= i < |value| && IsSpecial(value[i])
  }

  function DoubleQuotes(value: string): string {
    if value == "" then ""
    else (if value[0] == '"' then "\"\"" else [value[0]]) + DoubleQuotes(value[1..])
  }

  function EscapeCell(value: string): string {
    if NeedsQuotes(value) then "\"" + DoubleQuotes(value) + "\"" else value
  }

  function RowText(cells: seq<string>): string {
    if cells == [] then ""
    else if |cells| == 1 then EscapeCell(cells[0])
    else EscapeCell(cells[0]) + "," + RowText(cells[1..])
  }

  /** `lines.join('\r\n')`. */
  function Join(lines: seq<string>): string {
    if lines == [] then ""
    else if |lines| == 1 then lines[0]
    else lines[0] + CRLF + Join(lines[1..])
  }

  /** `String(n)` for a count. */
  function Decimal(n: nat): string {
    (if n < 10 then "" else Decimal(n / 10)) + [(n % 10) as char + '0']
  }

  function Digit(n: nat): char {
    (n % 10) as char + '0'
  }

  /** The whole number of ten-thousandths nearest to x, halves rounded up. */
  function TenThousandths(x: real): (n: nat)
    requires x >= 0.0
    ensures n as real - 0.5 <= x * 10000.0 < n as real + 0.5
  {
    (x * 10000.0 + 0.5).Floor
  }

  function FixedText(n: nat): string {
    var tens := n / 10;
    var hundreds := tens / 10;
    var thousands := hundreds / 10;
    Decimal(thousands / 10) + ['.', Digit(thousands), Digit(hundreds), Digit(tens), Digit(n)]
  }

  /** `toFixed(4)` below 10^21. */
  function ToFixed4(x: real): string {
    if x < 0.0 then "-" + FixedText(TenThousandths(-x)) else FixedText(TenThousandths(x))
  }

  // ---------- What a document says ----------

  type Record = seq<string>

  /** A heading line followed by a table. */
  datatype Section = Section(heading: string, rows: seq<Record>)

  function SectionRecords(s: Section): seq<Record> {
    [[s.heading]] + s.rows
  }

  /** All records of a document: sections are separated by one blank line. */
  function Records(sections: seq<Section>): seq<Record> {
    if sections == [] then []
    else if |sections| == 1 then SectionRecords(sections[0])
    else SectionRecords(sections[0]) + [[""]] + Records(sections[1..])
  }

  function BreakdownRows(prefix: string, b: Breakdown): seq<Record> {
    seq(|b|, i requires 0 <= i < |b| => [prefix + b[i].0, Decimal(b[i].1)])
  }

  function InstructorRow(i: Instructor): Record {
    [i.userId, i.displayName, i.email, i.assignedAt]
  }

  function UnitClassRow(c: UnitClass): Record {
    [c.id, c.name, c.status, c.startsAt, OrElse(c.endsAt, ""), c.leadInstructorName, Decimal(c.exerciseCount)]
  }

  function ExerciseRow(e: Exercise): Record {
    [e.id, e.name, OrElse(e.description, ""), e.status, OrElse(e.scheduledAt, ""), OrElse(e.eventId, "")]
  }

  // ---------- The tables a report stands for ----------

  function UnitMetaSection(r: UnitReport): Section {
    Section("# UNIT REPORT",
            [["id", "name", "abbreviation", "generatedAt"],
             [r.meta.id, r.meta.name, OrElse(r.meta.abbreviation, ""), r.meta.generatedAt]])
  }

  function UnitSummarySection(r: UnitReport): Section {
    Section("# SUMMARY",
            [["metric", "value"],
             ["instructorCount", Decimal(r.instructorCount)],
             ["classCount", Decimal(r.classCount)],
             ["exerciseCount", Decimal(r.exerciseCount)]]
            + BreakdownRows("classes_", r.classesByStatus)
            + BreakdownRows("exercises_", r.exercisesByStatus))
  }

  function InstructorsSection(r: UnitReport): Section {
    Section("# INSTRUCTORS",
            [["userId", "displayName", "email", "assignedAt"]]
            + seq(|r.instructors|, i requires 0 <= i < |r.instructors| => InstructorRow(r.instructors[i])))
  }

  function ClassesSection(r: UnitReport): Section {
    Section("# CLASSES",
            [["id", "name", "status", "startsAt", "endsAt", "leadInstructorName", "exerciseCount"]]
            + seq(|r.classes|, i requires 0 <= i < |r.classes| => UnitClassRow(r.classes[i])))
  }

  function UnitSections(r: UnitReport): seq<Section> {
    [UnitMetaSection(r), UnitSummarySection(r), InstructorsSection(r), ClassesSection(r)]
  }

  function ClassMetaSection(r: ClassReport): Section {
    Section("# CLASS REPORT",
            [["id", "name", "status", "startsAt", "endsAt", "unitId", "unitName",
              "leadInstructorName", "leadInstructorEmail", "generatedAt"],
             [r.meta.id, r.meta.name, r.meta.status, r.meta.startsAt, OrElse(r.meta.endsAt, ""), r.meta.unitId,
              r.meta.unitName, r.meta.leadInstructorName, r.meta.leadInstructorEmail, r.meta.generatedAt]])
  }

  function ClassSummarySection(r: ClassReport): Section {
    Section("# SUMMARY",
            [["metric", "value"],
             ["exerciseCount", Decimal(r.exerciseCount)],
             ["completionRate", ToFixed4(r.completionRate)]]
            + BreakdownRows("exercises_", r.exercisesByStatus))
  }

  function ExercisesSection(r: ClassReport): Section {
    Section("# EXERCISES",
            [["id", "name", "description", "status", "scheduledAt", "eventId"]]
            + seq(|r.exercises|, i requires 0 <= i < |r.exercises| => ExerciseRow(r.exercises[i])))
  }

  function ClassSections(r: ClassReport): seq<Section> {
    [ClassMetaSection(r), ClassSummarySection(r), ExercisesSection(r)]
  }
}

/** The two report printers, which push lines onto an array. */
module CsvPrinters {
  import opened Common
  import opened Csv
  import opened CsvReader
  import opened CsvTables

  lemma RowTextsAppend(a: seq<Record>, b: seq<Record>)
    ensures RowTexts(a + b) == RowTexts(a) + RowTexts(b)
  {
  }

  /** A heading or a blank line pushed verbatim is the row of that one cell. */
  lemma VerbatimLine(text: string)
    requires !NeedsQuotes(text)
    ensures RowTexts([[text]]) == [text]
  {
  }

  /** Pushing a heading and the row of column names. */
  lemma TableHead(heading: string, columns: Record, rows: seq<Record>)
    requires !NeedsQuotes(heading)
    ensures var records := SectionRecords(Section(heading, [columns] + rows));
            |records| == |rows| + 2 && RowTexts(records[..2]) == [heading, RowText(columns)]
            && forall i :: 0 <= i < |rows| ==> records[i + 2] == rows[i]
  {
    var records := SectionRecords(Section(heading, [columns] + rows));
    VerbatimLine(heading);
    assert records[..2] == [[heading]] + [columns];
  }

  /** A heading, a row of column names and one row of values. */
  lemma MetaTable(heading: string, columns: Record, values: Record)
    requires !NeedsQuotes(heading)
    ensures RowTexts(SectionRecords(Section(heading, [columns, values]))) ==
            [heading, RowText(columns), RowText(values)]
  {
    VerbatimLine(heading);
    RowTextsAppend([[heading]], [columns, values]);
  }

  /** Pushing one more row. */
  lemma PushRow(records: seq<Record>, i: nat)
    requires i < |records|
    ensures RowTexts(records[..i + 1]) == RowTexts(records[..i]) + [RowText(records[i])]
  {
    assert records[..i + 1] == records[..i] + [records[i]];
    RowTextsAppend(records[..i], [records[i]]);
  }

  lemma {:induction false} RecordsSnoc(sections: seq<Section>, s: Section)
    requires sections != []
    ensures Records(sections + [s]) == Records(sections) + [[""]] + SectionRecords(s)
    decreases |sections|
  {
    var first := SectionRecords(sections[0]);
    assert (sections + [s])[1..] == sections[1..] + [s];
    if |sections| == 1 {
      assert sections[1..] + [s] == [s];
    } else {
      RecordsSnoc(sections[1..], s);
      var more := Records(sections[1..]);
      Assoc(first + [[""]], more + [[""]], SectionRecords(s));
      Assoc(first + [[""]], more, [[""]]);
    }
  }

  /** Pushing a blank line and then the lines of one more table. */
  lemma NextSection(sections: seq<Section>, s: Section)
    requires sections != []
    ensures RowTexts(Records(sections + [s])) == RowTexts(Records(sections)) + [""] + RowTexts(SectionRecords(s))
  {
    RecordsSnoc(sections, s);
    VerbatimLine("");
    RowTextsAppend(Records(sections) + [[""]], SectionRecords(s));
    RowTextsAppend(Records(sections), [[""]]);
  }

  /** The lines of a summary: its heading, its fixed rows and its breakdown. */
  lemma ShortSummaryTable(fixed: seq<Record>, a: seq<Record>)
    ensures RowTexts(SectionRecords(Section("# SUMMARY", fixed + a))) == ["# SUMMARY"] + RowTexts(fixed) + RowTexts(a)
  {
    VerbatimLine("# SUMMARY");
    RowTextsAppend([["# SUMMARY"]], fixed + a);
    RowTextsAppend(fixed, a);
    Assoc(["# SUMMARY"], RowTexts(fixed), RowTexts(a));
  }

  /** The same with a second breakdown. */
  lemma SummaryTable(fixed: seq<Record>, a: seq<Record>, b: seq<Record>)
    ensures RowTexts(SectionRecords(Section("# SUMMARY", fixed + a + b)))
            == ["# SUMMARY"] + RowTexts(fixed) + RowTexts(a) + RowTexts(b)
  {
    ShortSummaryTable(fixed + a, b);
    RowTextsAppend(fixed, a);
    Assoc(["# SUMMARY"], RowTexts(fixed), RowTexts(a));
  }

  method BreakdownLines(lines: seq<string>, prefix: string, b: Breakdown) returns (out: seq<string>)
    ensures out == lines + RowTexts(BreakdownRows(prefix, b))
  {
    out := lines;
    for i := 0 to |b|
      invariant out == lines + RowTexts(BreakdownRows(prefix, b)[..i])
    {
      out := out + [RowText([prefix + b[i].0, Decimal(b[i].1)])];
    }
  }

  /** `lines.push(row(...))` for each of some given rows. */
  method PushRows(lines: seq<string>, records: seq<Record>) returns (out: seq<string>)
    ensures out == lines + RowTexts(records)
  {
    out := lines;
    for i := 0 to |records|
      invariant out == lines + RowTexts(records[..i])
    {
      PushRow(records, i);
      out := out + [RowText(records[i])];
    }
    assert records[..|records|] == records;
  }

  method UnitSummaryLines(lines: seq<string>, r: UnitReport) returns (out: seq<string>)
    ensures out == lines + RowTexts(SectionRecords(UnitSummarySection(r)))
  {
    var fixed := [["metric", "value"], ["instructorCount", Decimal(r.instructorCount)],
                  ["classCount", Decimal(r.classCount)], ["exerciseCount", Decimal(r.exerciseCount)]];
    out := PushRows(lines + ["# SUMMARY"], fixed);
    out := BreakdownLines(out, "classes_", r.classesByStatus);
    out := BreakdownLines(out, "exercises_", r.exercisesByStatus);
    SummaryTable(fixed, BreakdownRows("classes_", r.classesByStatus), BreakdownRows("exercises_", r.exercisesByStatus));
  }

  method InstructorLines(lines: seq<string>, r: UnitReport) returns (out: seq<string>)
    ensures out == lines + RowTexts(SectionRecords(InstructorsSection(r)))
  {
    var columns := ["userId", "displayName", "email", "assignedAt"];
    ghost var rows := seq(|r.instructors|, i requires 0 <= i < |r.instructors| => InstructorRow(r.instructors[i]));
    ghost var records := SectionRecords(InstructorsSection(r));
    TableHead("# INSTRUCTORS", columns, rows);
    out := lines + ["# INSTRUCTORS", RowText(columns)];
    for i := 0 to |r.instructors|
      invariant out == lines + RowTexts(records[..i + 2])
    {
      PushRow(records, i + 2);
      out := out + [RowText(InstructorRow(r.instructors[i]))];
    }
    assert records[..|r.instructors| + 2] == records;
  }

  method UnitClassLines(lines: seq<string>, r: UnitReport) returns (out: seq<string>)
    ensures out == lines + RowTexts(SectionRecords(ClassesSection(r)))
  {
    var columns := ["id", "name", "status", "startsAt", "endsAt", "leadInstructorName", "exerciseCount"];
    ghost var rows := seq(|r.classes|, i requires 0 <= i < |r.classes| => UnitClassRow(r.classes[i]));
    ghost var records := SectionRecords(ClassesSection(r));
    TableHead("# CLASSES", columns, rows);
    out := lines + ["# CLASSES", RowText(columns)];
    for i := 0 to |r.classes|
      invariant out == lines + RowTexts(records[..i + 2])
    {
      PushRow(records, i + 2);
      out := out + [RowText(UnitClassRow(r.classes[i]))];
    }
    assert records[..|r.classes| + 2] == records;
  }

  /** Pushing a heading, a row of column names and a row of values. */
  method MetaLines(heading: string, columns: Record, values: Record) returns (out: seq<string>)
    requires !NeedsQuotes(heading)
    ensures out == RowTexts(SectionRecords(Section(heading, [columns, values])))
  {
    MetaTable(heading, columns, values);
    out := [heading, RowText(columns), RowText(values)];
  }

  method UnitMetaLines(r: UnitReport) returns (out: seq<string>)
    ensures out == RowTexts(SectionRecords(UnitMetaSection(r)))
  {
    var columns := ["id", "name", "abbreviation", "generatedAt"];
    var values := [r.meta.id, r.meta.name, OrElse(r.meta.abbreviation, ""), r.meta.generatedAt];
    out := MetaLines("# UNIT REPORT", columns, values);
  }

  lemma WellFormedUnit(r: UnitReport)
    ensures WellFormed(UnitSections(r))
  {
  }

  method UnitReportLines(r: UnitReport) returns (lines: seq<string>)
    ensures lines == RowTexts(Records(UnitSections(r)))
  {
    var a, b, c, d := UnitMetaSection(r), UnitSummarySection(r), InstructorsSection(r), ClassesSection(r);
    lines := UnitMetaLines(r);
    assert Records([a]) == SectionRecords(a);
    lines := UnitSummaryLines(lines + [""], r);
    NextSection([a], b);
    lines := InstructorLines(lines + [""], r);
    NextSection([a] + [b], c);
    lines := UnitClassLines(lines + [""], r);
    NextSection([a] + [b] + [c], d);
    assert [a] + [b] + [c] + [d] == UnitSections(r);
  }

  /** From the CSV of every unit report each field is read back, under the name of its column. */
  method UnitReportToCsv(r: UnitReport) returns (csv: string)
    ensures ReadReport(csv).Some? && UnitTables(ReadReport(csv).value, r)
    ensures csv == DocumentText(UnitSections(r)) && ParseFile(csv[1..]) == Some(Records(UnitSections(r)))
  {
    var lines := UnitReportLines(r);
    csv := BOM + Join(lines) + CRLF;
    WellFormedUnit(r);
    DocumentRoundTrip(UnitSections(r));
    UnitSectionsSay(r);
  }

  method ClassMetaLines(r: ClassReport) returns (out: seq<string>)
    ensures out == RowTexts(SectionRecords(ClassMetaSection(r)))
  {
    var columns := ["id", "name", "status", "startsAt", "endsAt", "unitId", "unitName",
                    "leadInstructorName", "leadInstructorEmail", "generatedAt"];
    var values := [r.meta.id, r.meta.name, r.meta.status, r.meta.startsAt, OrElse(r.meta.endsAt, ""), r.meta.unitId,
                   r.meta.unitName, r.meta.leadInstructorName, r.meta.leadInstructorEmail, r.meta.generatedAt];
    out := MetaLines("# CLASS REPORT", columns, values);
  }

  method ClassSummaryLines(lines: seq<string>, r: ClassReport) returns (out: seq<string>)
    ensures out == lines + RowTexts(SectionRecords(ClassSummarySection(r)))
  {
    var fixed := [["metric", "value"], ["exerciseCount", Decimal(r.exerciseCount)],
                  ["completionRate", ToFixed4(r.completionRate)]];
    out := PushRows(lines + ["# SUMMARY"], fixed);
    out := BreakdownLines(out, "exercises_", r.exercisesByStatus);
    ShortSummaryTable(fixed, BreakdownRows("exercises_", r.exercisesByStatus));
  }

  method ExerciseLines(lines: seq<string>, r: ClassReport) returns (out: seq<string>)
    ensures out == lines + RowTexts(SectionRecords(ExercisesSection(r)))
  {
    var columns := ["id", "name", "description", "status", "scheduledAt", "eventId"];
    ghost var rows := seq(|r.exercises|, i requires 0 <= i < |r.exercises| => ExerciseRow(r.exercises[i]));
    ghost var records := SectionRecords(ExercisesSection(r));
    TableHead("# EXERCISES", columns, rows);
    out := lines + ["# EXERCISES", RowText(columns)];
    for i := 0 to |r.exercises|
      invariant out == lines + RowTexts(records[..i + 2])
    {
      PushRow(records, i + 2);
      out := out + [RowText(ExerciseRow(r.exercises[i]))];
    }
    assert records[..|r.exercises| + 2] == records;
  }

  lemma WellFormedClass(r: ClassReport)
    ensures WellFormed(ClassSections(r))
  {
  }

  method ClassReportLines(r: ClassReport) returns (lines: seq<string>)
    ensures lines == RowTexts(Records(ClassSections(r)))
  {
    var a, b, c := ClassMetaSection(r), ClassSummarySection(r), ExercisesSection(r);
    lines := ClassMetaLines(r);
    assert Records([a]) == SectionRecords(a);
    lines := ClassSummaryLines(lines + [""], r);
    NextSection([a], b);
    lines := ExerciseLines(lines + [""], r);
    NextSection([a] + [b], c);
    assert [a] + [b] + [c] == ClassSections(r);
  }

  /** From the CSV of every class report each field is read back, under the name of its column. */
  method ClassReportToCsv(r: ClassReport) returns (csv: string)
    ensures ReadReport(csv).Some? && ClassTables(ReadReport(csv).value, r)
    ensures csv == DocumentText(ClassSections(r)) && ParseFile(csv[1..]) == Some(Records(ClassSections(r)))
  {
    var lines := ClassReportLines(r);
    csv := BOM + Join(lines) + CRLF;
    WellFormedClass(r);
    DocumentRoundTrip(ClassSections(r));
    ClassSectionsSay(r);
  }
}
