/**
 What the whole formatter does to a text, said about its lines: which texts it changes, and what
 stands in the answer, line by line and cell by cell.
 */
module FormattedAnswer {
  import opened Wrappers
  import opened Text
  import opened MarkdownTable
  import opened ResponseFormatter

  // ---------------------------------------------------------------------------------------------
  // Reading an answer
  // ---------------------------------------------------------------------------------------------

  /** The lines before a table, its header, its rule, its rows, and the lines after it. */
  predicate Laid(lines: seq<string>, head: seq<string>, headers: seq<string>, rows: seq<seq<string>>, tail: seq<string>) {
    && |lines| == |head| + 2 + |rows| + |tail|
    && lines[..|head|] == head && lines[|head| + 2 + |rows|..] == tail
    && ReadRow(lines[|head|]) == Readable(headers)
    && forall r | 0 <= r < |rows| :: ReadRow(lines[|head| + 2 + r]) == Readable(rows[r])
  }

  lemma ListLaid(head: seq<string>, h: string, rule: string, body: seq<string>, tail: seq<string>, headers: seq<string>,
                 rows: seq<seq<string>>)
    requires ReadRow(h) == Readable(headers) && |body| == |rows|
    requires forall r | 0 <= r < |rows| :: ReadRow(body[r]) == Readable(rows[r])
    ensures Laid(head + (([h] + ([rule] + body)) + tail), head, headers, rows, tail)
  {
    var lines := head + (([h] + ([rule] + body)) + tail);
    forall r | 0 <= r < |rows| ensures ReadRow(lines[|head| + 2 + r]) == Readable(rows[r]) {
      assert lines[|head| + 2 + r] == body[r];
    }
  }

  lemma LinesRead(rows: seq<seq<string>>, widths: seq<nat>)
    requires forall i | 0 <= i < |rows| :: rows[i] != []
    ensures |Lines(rows, widths)| == |rows|
    ensures forall r | 0 <= r < |rows| :: ReadRow(Lines(rows, widths)[r]) == Readable(rows[r])
  {
    forall r | 0 <= r < |rows| ensures ReadRow(Lines(rows, widths)[r]) == Readable(rows[r]) {
      RowRoundTrip(rows[r], widths);
    }
  }

  lemma JoinedLaid(intro: string, headers: seq<string>, rows: seq<seq<string>>, footer: string, table: string)
    requires headers != [] && rows != [] && forall i | 0 <= i < |rows| :: rows[i] != []
    requires table == FormatTable(headers, rows) && (footer == "" || EndsDark(footer))
    ensures Laid(SplitLine(JoinSections(intro, table, footer)), SectionLines(intro), headers, rows, SectionLines(footer))
  {
    var w := Widths(headers, rows);
    TableEndsDark(headers, rows);
    TableLines(headers, rows);
    JoinedLines(intro, table, footer);
    RowRoundTrip(headers, w);
    LinesRead(rows, w);
    ListLaid(SectionLines(intro), Line(headers, w), Separator(w), Lines(rows, w), SectionLines(footer), headers, rows);
  }

  /** The lines of a section: those joined, without white space at its two ends. */
  function Section(lines: seq<string>): seq<string> {
    SectionLines(Strip(Join("\n", lines)))
  }

  /** The answer holds these parts: the introduction, a table of the records, the footer. */
  predicate Holds(answer: string, p: Parts, columns: seq<string>) {
    Laid(SplitLine(answer), Section(p.intro), Headers(columns), RecordRows(p.records, columns), Section(p.footer))
  }

  lemma TextHolds(answer: string, p: Parts, columns: seq<string>, intro: string, footer: string)
    requires columns != [] && p.records != [] && (footer == "" || EndsDark(footer))
    requires SectionLines(intro) == Section(p.intro) && SectionLines(footer) == Section(p.footer)
    requires answer == JoinSections(intro, FormatTable(Headers(columns), RecordRows(p.records, columns)), footer)
    ensures Holds(answer, p, columns)
  {
    JoinedLaid(intro, Headers(columns), RecordRows(p.records, columns), footer,
               FormatTable(Headers(columns), RecordRows(p.records, columns)));
  }

  lemma BlockHolds(p: Parts, answer: string, columns: seq<string>)
    requires FormatBlock(p) == Some(answer) && columns == ColumnOrder(AllKeys(p.records))
    ensures Holds(answer, p, columns)
  {
    BlockColumns(p);
    BlockText(p);
    StripEnds(Join("\n", p.footer));
    TextHolds(answer, p, columns, Strip(Join("\n", p.intro)), Strip(Join("\n", p.footer)));
  }

  // ---------------------------------------------------------------------------------------------
  // Which texts are formatted
  // ---------------------------------------------------------------------------------------------

  /** Records worth a table: at least two keys each, and three if there is only one record. */
  predicate Tabular(records: seq<Record>) {
    && records != []
    && (forall i | 0 <= i < |records| :: |records[i]| >= 2)
    && (|records| == 1 ==> |records[0]| >= 3)
  }

  lemma {:induction false} MinKeysExactly(records: seq<Record>, n: nat)
    requires records != []
    ensures MinKeys(records) >= n <==> forall i | 0 <= i < |records| :: |records[i]| >= n
  {
    if |records| > 1 {
      MinKeysExactly(records[1..], n);
      assert forall i | 1 <= i < |records| :: records[i] == records[1..][i - 1];
    }
  }

  lemma BlockIfTabular(p: Parts)
    ensures FormatBlock(p).Some? <==> Tabular(p.records)
  {
    if p.records != [] {
      MinKeysExactly(p.records, 2);
      MinKeysExactly(p.records, 3);
    }
  }

  predicate IsDark(text: string) {
    exists i :: 0 <= i < |text| && !IsSpace(text[i])
  }

  /** The numbered records of a text, and the plain ones. */
  function NumberedRecords(text: string, digit: char -> bool): seq<Record> {
    Somes(NumberedMarks(SplitLines(text), digit))
  }

  function PlainRecords(text: string): seq<Record> {
    Somes(PlainMarks(SplitLines(text)))
  }

  /** A text with some content and no table yet is open to formatting. */
  predicate IsOpen(text: string) {
    IsDark(text) && !HasTable(text)
  }

  lemma NumberedTried(text: string, digit: char -> bool, p: Parts)
    requires p == Sorted(SplitLines(text), NumberedMarks(SplitLines(text), digit)) && !HasTable(text)
    ensures TryNumbered(text, digit) == FormatBlock(p)
    ensures TryNumbered(text, digit).Some? <==> Tabular(p.records)
  {
    NumberedSplitsExactly(SplitLines(text), digit);
    BlockIfTabular(p);
  }

  lemma PlainTried(text: string, p: Parts)
    requires p == Sorted(SplitLines(text), PlainMarks(SplitLines(text))) && !HasTable(text)
    ensures |p.records| >= 2 ==> TryPlain(text) == FormatBlock(p)
    ensures TryPlain(text).Some? <==> Tabular(p.records) && |p.records| >= 2
  {
    PlainSplitsExactly(SplitLines(text));
    BlockIfTabular(p);
  }

  /** Numbered records come first: their text becomes introduction, table and footer. */
  lemma FormatsNumbered(text: string, digit: char -> bool, p: Parts, columns: seq<string>)
    requires p == Sorted(SplitLines(text), NumberedMarks(SplitLines(text), digit))
    requires IsOpen(text) && Tabular(p.records) && columns == ColumnOrder(AllKeys(p.records))
    ensures Holds(FormatResponse(text, digit), p, columns)
  {
    StripNothing(text);
    NumberedTried(text, digit, p);
    BlockHolds(p, TryNumbered(text, digit).value, columns);
  }

  /** Otherwise two or more plain records do. */
  lemma FormatsPlain(text: string, digit: char -> bool, p: Parts, columns: seq<string>)
    requires p == Sorted(SplitLines(text), PlainMarks(SplitLines(text)))
    requires IsOpen(text) && !Tabular(NumberedRecords(text, digit))
    requires Tabular(p.records) && |p.records| >= 2 && columns == ColumnOrder(AllKeys(p.records))
    ensures Holds(FormatResponse(text, digit), p, columns)
  {
    StripNothing(text);
    NumberedTried(text, digit, Sorted(SplitLines(text), NumberedMarks(SplitLines(text), digit)));
    PlainTried(text, p);
    BlockHolds(p, TryPlain(text).value, columns);
  }

  /** And every other text is returned as it is. */
  lemma FormatsNothingElse(text: string, digit: char -> bool)
    requires !(IsOpen(text) && (Tabular(NumberedRecords(text, digit))
                                || (Tabular(PlainRecords(text)) && |PlainRecords(text)| >= 2)))
    ensures FormatResponse(text, digit) == text
  {
    StripNothing(text);
    if IsOpen(text) {
      NumberedTried(text, digit, Sorted(SplitLines(text), NumberedMarks(SplitLines(text), digit)));
      PlainTried(text, Sorted(SplitLines(text), PlainMarks(SplitLines(text))));
    }
  }

  /** The cells of column c, in the header and in a record's row. */
  lemma HeaderCell(columns: seq<string>, c: nat, headers: seq<string>)
    requires c < |columns| && headers == Readable(Headers(columns))
    ensures |headers| == |columns| && headers[c] == Trim(Shown(Humanized(columns[c])))
  {
  }

  lemma RecordCell(record: Record, columns: seq<string>, c: nat, row: seq<string>)
    requires c < |columns| && row == Readable(Row(record, columns))
    ensures |row| == |columns| && row[c] == Trim(Shown(Get(record, columns[c], DASH)))
  {
  }

  lemma LaidLine(lines: seq<string>, head: seq<string>, headers: seq<string>, rows: seq<seq<string>>,
                 tail: seq<string>, r: nat, row: nat)
    requires Laid(lines, head, headers, rows, tail) && r < |rows| && row == |head| + 2 + r
    ensures row < |lines| && ReadRow(lines[|head|]) == Readable(headers) && ReadRow(lines[row]) == Readable(rows[r])
  {
  }

  /** The line of record r. */
  lemma RecordLine(answer: string, p: Parts, columns: seq<string>, r: nat, lines: seq<string>, head: nat)
    requires Holds(answer, p, columns) && r < |p.records| && lines == SplitLine(answer) && head == |Section(p.intro)|
    ensures head + 2 + r < |lines|
    ensures ReadRow(lines[head]) == Readable(Headers(columns))
    ensures ReadRow(lines[head + 2 + r]) == Readable(Row(p.records[r], columns))
  {
    var rows := RecordRows(p.records, columns);
    assert rows[r] == Row(p.records[r], columns);
    LaidLine(lines, Section(p.intro), Headers(columns), rows, Section(p.footer), r, head + 2 + r);
  }

  /** A field of a record, and its label, where the answer shows them. */
  lemma FieldIsShown(answer: string, p: Parts, columns: seq<string>, r: nat, key: string, lines: seq<string>, head: nat)
    returns (c: nat)
    requires Holds(answer, p, columns) && columns == ColumnOrder(AllKeys(p.records))
    requires r < |p.records| && HasKey(p.records[r], key) && lines == SplitLine(answer) && head == |Section(p.intro)|
    ensures head + 2 + r < |lines| && c < |ReadRow(lines[head])| && c < |ReadRow(lines[head + 2 + r])|
    ensures ReadRow(lines[head])[c] == Trim(Shown(Humanized(key)))
    ensures ReadRow(lines[head + 2 + r])[c] == Trim(Shown(Get(p.records[r], key, DASH)))
  {
    c := ColumnOf(p.records, columns, r, key);
    RecordLine(answer, p, columns, r, lines, head);
    HeaderCell(columns, c, ReadRow(lines[head]));
    RecordCell(p.records[r], columns, c, ReadRow(lines[head + 2 + r]));
  }

  /** End to end for numbered records: every field is in the formatted answer. */
  lemma NumberedFieldIsShown(text: string, digit: char -> bool, p: Parts, columns: seq<string>, r: nat, key: string,
                             lines: seq<string>, head: nat)
    returns (c: nat)
    requires p == Sorted(SplitLines(text), NumberedMarks(SplitLines(text), digit))
    requires IsOpen(text) && Tabular(p.records) && columns == ColumnOrder(AllKeys(p.records))
    requires r < |p.records| && HasKey(p.records[r], key)
    requires lines == SplitLine(FormatResponse(text, digit)) && head == |Section(p.intro)|
    ensures head + 2 + r < |lines| && c < |ReadRow(lines[head])| && c < |ReadRow(lines[head + 2 + r])|
    ensures ReadRow(lines[head])[c] == Trim(Shown(Humanized(key)))
    ensures ReadRow(lines[head + 2 + r])[c] == Trim(Shown(Get(p.records[r], key, DASH)))
  {
    FormatsNumbered(text, digit, p, columns);
    c := FieldIsShown(FormatResponse(text, digit), p, columns, r, key, lines, head);
  }

  // ---------------------------------------------------------------------------------------------
  // A printed list, from the text to the table
  // ---------------------------------------------------------------------------------------------

  function NotPipe(c: char): bool { c != '|' }

  /** A character of a list item: no line break and no pipe. */
  function Quiet(c: char): bool { NotBreak(c) && NotPipe(c) }

  /** A record as a chat answer lists it. */
  predicate Listable(r: Record) {
    Printable(r) && DistinctKeys(r) && LastKept(r) && forall i | 0 <= i < |r| :: Over(r[i].1, Quiet)
  }

  /** The i-th line of the list: its number, a full stop, a blank and the record. */
  function Item(records: seq<Record>, i: nat): string
    requires i < |records|
  {
    Decimal(i + 1) + ". " + Printed(records[i])
  }

  function Items(records: seq<Record>): seq<string> {
    seq(|records|, i requires 0 <= i < |records| => Item(records, i))
  }

  lemma {:induction false} SkipStops(s: string, i: nat, p: char -> bool, e: nat)
    requires i <= e <= |s| && (e == |s| || !p(s[e])) && forall j | i <= j < e :: p(s[j])
    ensures SkipWhile(s, i, p) == e
    decreases e - i
  {
    if i < e { SkipStops(s, i + 1, p, e); }
  }

  /** What follows a number, a full stop and a blank is the group of the line. */
  lemma GroupOf(n: string, rest: string, digit: char -> bool, line: string)
    requires n != "" && Over(n, digit) && Over(n, c => !IsSpace(c)) && !digit('.')
    requires rest != "" && !IsSpace(rest[0]) && line == n + ". " + rest
    ensures NumberedGroup(line, digit) == Some(rest)
  {
    assert line[|n|] == '.' && line[|n| + 1] == ' ' && line[|n| + 2] == rest[0];
    assert forall j | 0 <= j < |n| :: line[j] == n[j];
    SkipStops(line, 0, IsSpace, 0);
    SkipStops(line, 0, digit, |n|);
    SkipStops(line, |n| + 1, IsSpace, |n| + 2);
    assert line[|n| + 2..] == rest;
  }

  lemma QuietTogether(a: string, b: string)
    requires Over(a, Quiet) && Over(b, Quiet)
    ensures Over(a + b, Quiet)
  {
  }

  /** One field, printed with what stands after it. */
  lemma FieldQuiet(key: string, value: string, after: string)
    requires KeyWord(key) && Over(value, Quiet) && (after == "" || after == ", ")
    ensures Over(key + "=" + (value + after), Quiet)
  {
    QuietTogether(value, after);
    QuietTogether(key, "=");
    QuietTogether(key + "=", value + after);
  }

  lemma {:induction false} SegmentsQuiet(r: Record, n: nat)
    requires Listable(r) && n <= |r|
    ensures Over(Segments(r, n), Quiet)
  {
    if n > 0 {
      SegmentsQuiet(r, n - 1);
      FieldQuiet(r[n - 1].0, r[n - 1].1, ", ");
      QuietTogether(Segments(r, n - 1), r[n - 1].0 + "=" + (r[n - 1].1 + ", "));
    }
  }

  lemma PrintedQuiet(r: Record)
    requires Listable(r)
    ensures Over(Printed(r), Quiet)
  {
    if r != [] {
      var last := r[|r| - 1];
      SegmentsQuiet(r, |r| - 1);
      FieldQuiet(last.0, last.1, "");
      assert last.1 + "" == last.1;
      QuietTogether(Segments(r, |r| - 1), last.0 + "=" + last.1);
    }
  }

  lemma PrintedStarts(r: Record)
    requires Listable(r) && r != []
    ensures Printed(r) != "" && !IsSpace(Printed(r)[0])
  {
    if |r| > 1 { SegmentsStart(r, |r| - 1); }
  }

  lemma {:induction false} SegmentsStart(r: Record, n: nat)
    requires Printable(r) && 0 < n <= |r|
    ensures Segments(r, n) != "" && Segments(r, n)[0] == r[0].0[0]
  {
    if n > 1 { SegmentsStart(r, n - 1); }
  }

  /** A number, as the formatter sees it. */
  lemma NumberReads(n: string, digit: char -> bool)
    requires n != "" && (forall i | 0 <= i < |n| :: IsAsciiDigit(n[i])) && forall c | IsAsciiDigit(c) :: digit(c)
    ensures Over(n, Quiet) && Over(n, digit) && Over(n, c => !IsSpace(c))
  {
  }

  lemma QuietLine(n: string, rest: string)
    requires n != "" && Over(n, Quiet) && Over(n, c => !IsSpace(c)) && Over(rest, Quiet)
    ensures var line := n + ". " + rest; Over(line, Quiet) && line != "" && !IsSpace(line[0])
  {
  }

  lemma RecordFound(line: string, group: string, digit: char -> bool, r: Record)
    requires NumberedGroup(line, digit) == Some(group) && ParseRecord(group) == r
    ensures NumberedRecord(line, digit) == Some(r)
  {
  }

  lemma LineReads(number: nat, r: Record, digit: char -> bool, line: string)
    requires Listable(r) && r != [] && line == Decimal(number) + ". " + Printed(r)
    requires (forall c | IsAsciiDigit(c) :: digit(c)) && !digit('.')
    ensures Over(line, Quiet) && line != "" && !IsSpace(line[0])
    ensures NumberedRecord(line, digit) == Some(r)
  {
    var n, printed := Decimal(number), Printed(r);
    DecimalReads(number);
    NumberReads(n, digit);
    PrintedQuiet(r);
    PrintedStarts(r);
    QuietLine(n, printed);
    GroupOf(n, printed, digit, line);
    RecordRoundTrip(r);
    RecordFound(line, printed, digit, r);
  }

  lemma ItemReads(records: seq<Record>, i: nat, digit: char -> bool)
    requires i < |records| && Listable(records[i]) && records[i] != []
    requires (forall c | IsAsciiDigit(c) :: digit(c)) && !digit('.')
    ensures Over(Item(records, i), Quiet) && Item(records, i) != "" && !IsSpace(Item(records, i)[0])
    ensures NumberedRecord(Item(records, i), digit) == Some(records[i])
  {
    LineReads(i + 1, records[i], digit, Item(records, i));
  }

  /** Lines joined by newlines split into the same lines. */
  lemma {:induction false} JoinedSplits(lines: seq<string>)
    requires forall i | 0 <= i < |lines| :: lines[i] != "" && Over(lines[i], NotBreak)
    ensures SplitLines(Join("\n", lines)) == lines
  {
    if |lines| == 1 {
      assert SplitLines(lines[0]) == [lines[0]];
    } else if |lines| > 1 {
      JoinedSplits(lines[1..]);
      FirstLine(lines[0], Join("\n", lines[1..]));
    }
  }

  /** Without a pipe there is no table. */
  lemma NoTable(text: string, lines: seq<string>)
    requires SplitLines(text) == lines && forall i | 0 <= i < |lines| :: Over(lines[i], NotPipe)
    ensures !HasTable(text)
  {
    if i :| 0 <= i < |lines| && TableAt(lines, i) {
      assert false;
    }
  }

  lemma {:induction false} AllSome(marks: Marks, records: seq<Record>)
    requires |marks| == |records| && forall i | 0 <= i < |marks| :: marks[i] == Some(records[i])
    ensures Somes(marks) == records
  {
    if marks != [] { AllSome(marks[1..], records[1..]); }
  }

  /** All lines of a list are records. */
  lemma ListSorted(lines: seq<string>, records: seq<Record>, marks: Marks)
    requires |lines| == |marks| == |records| && forall i | 0 <= i < |marks| :: marks[i] == Some(records[i])
    ensures Sorted(lines, marks).records == records && Sorted(lines, marks).intro == []
  {
    AllSome(marks, records);
  }

  lemma DarkStart(text: string, lines: seq<string>)
    requires lines != [] && lines[0] != "" && !IsSpace(lines[0][0]) && text == Join("\n", lines)
    ensures IsDark(text)
  {
    assert text[0] == lines[0][0];
  }

  /** A shown value without outer white space, line breaks and pipes is the value itself, or the dash. */
  lemma ValueShown(v: string)
    requires PlainValue(v) && Over(v, Quiet)
    ensures Trim(Shown(v)) == if v == "" then DASH else v
  {
    assert IsSpace(' ') && IsBreak('\n');
    if v != "" { assert Flattened(v) == v; }
  }

  lemma {:induction false} GetIsThere(r: Record, i: nat)
    requires DistinctKeys(r) && i < |r|
    ensures Get(r, r[i].0, DASH) == r[i].1 && HasKey(r, r[i].0)
  {
    if i > 0 { GetIsThere(r[1..], i - 1); }
  }

  /** The text of a list: its records are found, and nothing else. */
  lemma ListFound(records: seq<Record>, text: string, digit: char -> bool, p: Parts)
    requires records != [] && forall i | 0 <= i < |records| :: Listable(records[i]) && records[i] != []
    requires (forall c | IsAsciiDigit(c) :: digit(c)) && !digit('.')
    requires text == Join("\n", Items(records))
    requires p == Sorted(SplitLines(text), NumberedMarks(SplitLines(text), digit))
    ensures IsOpen(text) && p.records == records && p.intro == []
  {
    var lines := Items(records);
    forall i | 0 <= i < |records|
      ensures Over(lines[i], Quiet) && lines[i] != "" && !IsSpace(lines[i][0])
      ensures NumberedRecord(lines[i], digit) == Some(records[i])
    {
      ItemReads(records, i, digit);
    }
    JoinedSplits(lines);
    NoTable(text, lines);
    DarkStart(text, lines);
    ListSorted(lines, records, NumberedMarks(lines, digit));
  }

  /**
   From text to table: of a numbered list of printed records, the answer's header names the key
   of every field, and its line for the record shows the field's value in the same column.
   */
  lemma ListIsTabled(records: seq<Record>, text: string, digit: char -> bool, answer: seq<string>, r: nat, i: nat)
    returns (c: nat)
    requires Tabular(records) && forall k | 0 <= k < |records| :: Listable(records[k])
    requires (forall d | IsAsciiDigit(d) :: digit(d)) && !digit('.')
    requires text == Join("\n", Items(records)) && answer == SplitLine(FormatResponse(text, digit))
    requires r < |records| && i < |records[r]|
    ensures 2 + r < |answer| && c < |ReadRow(answer[0])| && c < |ReadRow(answer[2 + r])|
    ensures ReadRow(answer[0])[c] == Trim(Shown(Humanized(records[r][i].0)))
    ensures ReadRow(answer[2 + r])[c] == if records[r][i].1 == "" then DASH else records[r][i].1
  {
    var p := Sorted(SplitLines(text), NumberedMarks(SplitLines(text), digit));
    ListFound(records, text, digit, p);
    GetIsThere(records[r], i);
    ValueShown(records[r][i].1);
    assert Section(p.intro) == [];
    c := NumberedFieldIsShown(text, digit, p, ColumnOrder(AllKeys(p.records)), r, records[r][i].0, answer, 0);
  }
}
