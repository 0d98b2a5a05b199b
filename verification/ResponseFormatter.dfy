/**
 Post-processing of chat answers: lines of key=value records, numbered or plain, become
 a markdown table between the introduction and the footer; any other text is returned
 unchanged.

 `digit` stands for the regular expressions' decimal digits.
 */
module ResponseFormatter {
  import opened Wrappers
  import opened Text
  import opened MarkdownTable

  /** The characters splitlines breaks at. */
  predicate IsBreak(c: char) {
    c in {'\n', '\r', '\U{0B}', '\U{0C}', '\U{1C}', '\U{1D}', '\U{1E}', '\U{85}', '\U{2028}', '\U{2029}'}
  }

  function NotBreak(c: char): bool { !IsBreak(c) }

  function FirstBreak(s: string): (i: nat)
    ensures i <= |s| && (i < |s| ==> IsBreak(s[i])) && forall j | 0 <= j < i :: !IsBreak(s[j])
  {
    if s == "" || IsBreak(s[0]) then 0 else 1 + FirstBreak(s[1..])
  }

  function SplitLines(s: string): seq<string>
    decreases |s|
  {
    if s == "" then []
    else
      var i := FirstBreak(s);
      if i == |s| then [s]
      else [s[..i]] + SplitLines(s[i + if s[i] == '\r' && i + 1 < |s| && s[i + 1] == '\n' then 2 else 1..])
  }

  // ---------------------------------------------------------------------------------------------
  // Records
  // ---------------------------------------------------------------------------------------------

  predicate KeyStart(c: char) { 'a' <= c <= 'z' }

  predicate KeyChar(c: char) { 'a' <= c <= 'z' || '0' <= c <= '9' || c == '_' }

  /** A dictionary in insertion order. */
  type Record = seq<(string, string)>

  function Put(r: Record, key: string, value: string): Record {
    if r == [] then [(key, value)]
    else if r[0].0 == key then [(key, value)] + r[1..]
    else [r[0]] + Put(r[1..], key, value)
  }

  function Get(r: Record, key: string, default: string): string {
    if r == [] then default else if r[0].0 == key then r[0].1 else Get(r[1..], key, default)
  }

  function RunEnd(text: string, i: nat): (e: nat)
    requires i <= |text|
    ensures i <= e <= |text| && forall j | i <= j < e :: KeyChar(text[j])
    decreases |text| - i
  {
    if i < |text| && KeyChar(text[i]) then RunEnd(text, i + 1) else i
  }

  /** One match of the key pattern: the key's start and the position of its equals sign. */
  datatype Field = Field(start: nat, eq: nat)

  predicate IsField(text: string, f: Field) {
    f.start < f.eq < |text| && KeyStart(text[f.start]) && forall j | f.start <= j < f.eq :: KeyChar(text[j])
  }

  /** The leftmost match from position p on. */
  function NextField(text: string, p: nat): (f: Option<Field>)
    ensures f.Some? ==> p <= f.value.start && IsField(text, f.value)
    decreases |text| - p
  {
    if p >= |text| then None
    else if KeyStart(text[p]) && RunEnd(text, p + 1) < |text| && text[RunEnd(text, p + 1)] == '=' then
      Some(Field(p, RunEnd(text, p + 1)))
    else NextField(text, p + 1)
  }

  predicate FieldsOk(text: string, fields: seq<Field>, from: nat) {
    && (forall i | 0 <= i < |fields| :: IsField(text, fields[i]) && from <= fields[i].start)
    && (forall i, j | 0 <= i < j < |fields| :: fields[i].eq < fields[j].start)
  }

  function Fields(text: string, p: nat): (fields: seq<Field>)
    ensures FieldsOk(text, fields, p)
    decreases |text| - p
  {
    match NextField(text, p)
    case None => []
    case Some(f) => [f] + Fields(text, f.eq + 1)
  }

  function DropComma(s: string): string {
    if s != "" && s[|s| - 1] == ',' then s[..|s| - 1] else s
  }

  function ValueOf(text: string, fields: seq<Field>, i: nat): string
    requires FieldsOk(text, fields, 0) && i < |fields|
  {
    var end := if i + 1 < |fields| then fields[i + 1].start else |text|;
    Strip(DropComma(RStrip(text[fields[i].eq + 1..end])))
  }

  /** The keys and values in the order of the matches, repetitions included. */
  function PairsOf(text: string, fields: seq<Field>): (pairs: Record)
    requires FieldsOk(text, fields, 0)
  {
    seq(|fields|, i requires 0 <= i < |fields| => (text[fields[i].start..fields[i].eq], ValueOf(text, fields, i)))
  }

  /** The dictionary after the first n of them. */
  function PutAll(pairs: Record, n: nat): Record
    requires n <= |pairs|
  {
    if n == 0 then [] else Put(PutAll(pairs, n - 1), pairs[n - 1].0, pairs[n - 1].1)
  }

  function ParseRecord(text: string): Record {
    PutAll(PairsOf(text, Fields(text, 0)), |Fields(text, 0)|)
  }

  method ParseKeyValueRecord(text: string) returns (record: Record)
    ensures record == ParseRecord(text)
  {
    var matches := Fields(text, 0);
    record := FillRecord(text, matches);
  }

  /** The loop over the matches. */
  method FillRecord(text: string, matches: seq<Field>) returns (record: Record)
    requires FieldsOk(text, matches, 0)
    ensures record == PutAll(PairsOf(text, matches), |matches|)
  {
    ghost var pairs := PairsOf(text, matches);
    record := [];
    for index := 0 to |matches|
      invariant record == PutAll(pairs, index)
    {
      var key := text[matches[index].start..matches[index].eq];
      record := Put(record, key, ValueOf(text, matches, index));
    }
  }

  // ---------------------------------------------------------------------------------------------
  // The two splitters
  // ---------------------------------------------------------------------------------------------

  datatype Parts = Parts(intro: seq<string>, records: seq<Record>, footer: seq<string>, seen: bool)

  function SkipWhile(s: string, i: nat, p: char -> bool): (e: nat)
    requires i <= |s|
    ensures i <= e <= |s|
    decreases |s| - i
  {
    if i < |s| && p(s[i]) then SkipWhile(s, i + 1, p) else i
  }

  /** The group of a line that starts with a number and a full stop. */
  function NumberedGroup(line: string, digit: char -> bool): Option<string> {
    var a := SkipWhile(line, 0, IsSpace);
    var b := SkipWhile(line, a, digit);
    if a == b || b == |line| || line[b] != '.' then None
    else
      var c := SkipWhile(line, b + 1, IsSpace);
      if c == b + 1 then None
      else if c < |line| then Some(line[c..])
      else if c > b + 2 then Some(line[|line| - 1..])
      else None
  }

  function Kept(p: Parts, line: string): Parts {
    if p.seen then p.(footer := p.footer + [line]) else p.(intro := p.intro + [line])
  }

  function WithRecord(p: Parts, r: Record): Parts {
    p.(records := p.records + [r], seen := true)
  }

  function NumberedRecord(line: string, digit: char -> bool): Option<Record> {
    match NumberedGroup(line, digit)
    case Some(group) => Some(ParseRecord(group))
    case None => None
  }

  function PlainRecord(line: string): Option<Record> {
    var stripped := Strip(line);
    if stripped != "" && |ParseRecord(stripped)| >= 2 && '=' in stripped then Some(ParseRecord(stripped)) else None
  }

  function Step(p: Parts, line: string, record: Option<Record>): Parts {
    if record.Some? then WithRecord(p, record.value) else Kept(p, line)
  }

  function NumberedParts(lines: seq<string>, digit: char -> bool): Parts {
    if lines == [] then Parts([], [], [], false)
    else
      var last := |lines| - 1;
      Step(NumberedParts(lines[..last], digit), lines[last], NumberedRecord(lines[last], digit))
  }

  function PlainParts(lines: seq<string>): Parts {
    if lines == [] then Parts([], [], [], false)
    else
      var last := |lines| - 1;
      Step(PlainParts(lines[..last]), lines[last], PlainRecord(lines[last]))
  }

  method SplitNumbered(text: string, digit: char -> bool) returns (p: Parts)
    ensures p == NumberedParts(SplitLines(text), digit)
  {
    var lines := SplitLines(text);
    p := Parts([], [], [], false);
    for i := 0 to |lines|
      invariant p == NumberedParts(lines[..i], digit)
    {
      assert lines[..i + 1][..i] == lines[..i];
      var group := NumberedGroup(lines[i], digit);
      if group.Some? {
        var record := ParseKeyValueRecord(group.value);
        p := p.(seen := true);
        p := p.(records := p.records + [record]);
      } else if !p.seen {
        p := p.(intro := p.intro + [lines[i]]);
      } else {
        p := p.(footer := p.footer + [lines[i]]);
      }
    }
    assert lines[..|lines|] == lines;
  }

  method SplitPlain(text: string) returns (p: Parts)
    ensures p == PlainParts(SplitLines(text))
  {
    var lines := SplitLines(text);
    p := Parts([], [], [], false);
    for i := 0 to |lines|
      invariant p == PlainParts(lines[..i])
    {
      assert lines[..i + 1][..i] == lines[..i];
      var stripped := Strip(lines[i]);
      var parsed: Record := [];
      if stripped != "" {
        parsed := ParseKeyValueRecord(stripped);
      }
      if stripped != "" && |parsed| >= 2 && '=' in stripped {
        p := p.(seen := true);
        p := p.(records := p.records + [parsed]);
      } else if !p.seen {
        p := p.(intro := p.intro + [lines[i]]);
      } else {
        p := p.(footer := p.footer + [lines[i]]);
      }
    }
    assert lines[..|lines|] == lines;
  }

  // ---------------------------------------------------------------------------------------------
  // What splitting means: the lines before the first record, the records, the other lines
  // ---------------------------------------------------------------------------------------------

  type Marks = seq<Option<Record>>

  function FirstSome(marks: Marks): (k: nat)
    ensures k <= |marks| && (k < |marks| ==> marks[k].Some?) && forall i | 0 <= i < k :: marks[i].None?
  {
    if marks == [] || marks[0].Some? then 0 else 1 + FirstSome(marks[1..])
  }

  function Somes(marks: Marks): seq<Record> {
    if marks == [] then [] else (if marks[0].Some? then [marks[0].value] else []) + Somes(marks[1..])
  }

  function Nones(lines: seq<string>, marks: Marks): seq<string>
    requires |lines| == |marks|
  {
    if marks == [] then [] else (if marks[0].None? then [lines[0]] else []) + Nones(lines[1..], marks[1..])
  }

  function Sorted(lines: seq<string>, marks: Marks): Parts
    requires |lines| == |marks|
  {
    var k := FirstSome(marks);
    Parts(lines[..k], Somes(marks), Nones(lines[k..], marks[k..]), k < |lines|)
  }

  lemma {:induction false} SomesAppend(marks: Marks, m: Option<Record>)
    ensures Somes(marks + [m]) == Somes(marks) + if m.Some? then [m.value] else []
  {
    if marks != [] {
      assert (marks + [m])[1..] == marks[1..] + [m];
      SomesAppend(marks[1..], m);
    }
  }

  lemma {:induction false} NonesAppend(lines: seq<string>, marks: Marks, line: string, m: Option<Record>)
    requires |lines| == |marks|
    ensures Nones(lines + [line], marks + [m]) == Nones(lines, marks) + if m.None? then [line] else []
  {
    if marks != [] {
      assert (marks + [m])[1..] == marks[1..] + [m] && (lines + [line])[1..] == lines[1..] + [line];
      NonesAppend(lines[1..], marks[1..], line, m);
    }
  }

  lemma {:induction false} FirstSomeAppend(marks: Marks, m: Option<Record>)
    ensures FirstSome(marks + [m]) == if FirstSome(marks) < |marks| then FirstSome(marks)
                                      else if m.Some? then |marks| else |marks| + 1
  {
    if marks != [] && marks[0].None? {
      assert (marks + [m])[1..] == marks[1..] + [m];
      FirstSomeAppend(marks[1..], m);
    }
  }

  lemma SortedAppend(lines: seq<string>, marks: Marks, line: string, m: Option<Record>)
    requires |lines| == |marks|
    ensures Sorted(lines + [line], marks + [m]) == Step(Sorted(lines, marks), line, m)
  {
    var k := FirstSome(marks);
    FirstSomeAppend(marks, m);
    SomesAppend(marks, m);
    NonesAppend(lines[k..], marks[k..], line, m);
    if k < |marks| {
      assert (lines + [line])[k..] == lines[k..] + [line] && (marks + [m])[k..] == marks[k..] + [m];
      assert (lines + [line])[..k] == lines[..k];
    } else {
      AllPlain(lines, line, m);
    }
  }

  lemma AllPlain(lines: seq<string>, line: string, m: Option<Record>)
    ensures (lines + [line])[..|lines|] == lines && (lines + [line])[|lines|..] == [line]
    ensures (lines + [line])[..|lines| + 1] == lines + [line]
    ensures Nones([line], [m]) == if m.None? then [line] else []
  {
    assert [m][1..] == [] && [line][1..] == [];
  }

  function NumberedMarks(lines: seq<string>, digit: char -> bool): (marks: Marks) {
    seq(|lines|, i requires 0 <= i < |lines| => NumberedRecord(lines[i], digit))
  }

  function PlainMarks(lines: seq<string>): (marks: Marks) {
    seq(|lines|, i requires 0 <= i < |lines| => PlainRecord(lines[i]))
  }

  lemma {:induction false} NumberedSplitsExactly(lines: seq<string>, digit: char -> bool)
    ensures NumberedParts(lines, digit) == Sorted(lines, NumberedMarks(lines, digit))
    decreases |lines|
  {
    if lines != [] {
      var front, line := lines[..|lines| - 1], lines[|lines| - 1];
      NumberedSplitsExactly(front, digit);
      SortedAppend(front, NumberedMarks(front, digit), line, NumberedRecord(line, digit));
      LastNumbered(front, line, digit);
      LastIsLine(lines);
    }
  }

  lemma LastNumbered(front: seq<string>, line: string, digit: char -> bool)
    ensures NumberedMarks(front + [line], digit) == NumberedMarks(front, digit) + [NumberedRecord(line, digit)]
    ensures NumberedParts(front + [line], digit) == Step(NumberedParts(front, digit), line, NumberedRecord(line, digit))
  {
    assert (front + [line])[..|front|] == front;
  }

  lemma LastIsLine(lines: seq<string>)
    requires lines != []
    ensures lines == lines[..|lines| - 1] + [lines[|lines| - 1]]
  {
  }

  lemma {:induction false} PlainSplitsExactly(lines: seq<string>)
    ensures PlainParts(lines) == Sorted(lines, PlainMarks(lines))
    decreases |lines|
  {
    if lines != [] {
      var front, line := lines[..|lines| - 1], lines[|lines| - 1];
      PlainSplitsExactly(front);
      SortedAppend(front, PlainMarks(front), line, PlainRecord(line));
      LastPlain(front, line);
      LastIsLine(lines);
    }
  }

  lemma LastPlain(front: seq<string>, line: string)
    ensures PlainMarks(front + [line]) == PlainMarks(front) + [PlainRecord(line)]
    ensures PlainParts(front + [line]) == Step(PlainParts(front), line, PlainRecord(line))
  {
    assert (front + [line])[..|front|] == front;
  }

  // ---------------------------------------------------------------------------------------------
  // A printed record is parsed back
  // ---------------------------------------------------------------------------------------------

  /** A value that printing and parsing keep: no equals sign, no outer white space. */
  predicate PlainValue(v: string) {
    '=' !in v && (v != "" ==> !IsSpace(v[0]) && !IsSpace(v[|v| - 1]))
  }

  predicate Printable(r: Record) {
    forall i | 0 <= i < |r| :: KeyWord(r[i].0) && PlainValue(r[i].1)
  }

  predicate DistinctKeys(r: Record) {
    forall i, j | 0 <= i < j < |r| :: r[i].0 != r[j].0
  }

  predicate KeyWord(k: string) {
    k != "" && KeyStart(k[0]) && forall i | 0 <= i < |k| :: KeyChar(k[i])
  }

  /** The first n key=value segments, each with the comma and blank after it. */
  function Segments(r: Record, n: nat): string
    requires n <= |r|
  {
    if n == 0 then "" else Segments(r, n - 1) + (r[n - 1].0 + "=" + (r[n - 1].1 + ", "))
  }

  /** Comma-separated key=value segments. */
  function Printed(r: Record): string {
    if r == [] then "" else Segments(r, |r| - 1) + (r[|r| - 1].0 + "=" + r[|r| - 1].1)
  }

  /** Where segment i stands in the printed record. */
  function Place(r: Record, i: nat): Field
    requires i < |r|
  {
    Field(|Segments(r, i)|, |Segments(r, i)| + |r[i].0|)
  }

  function Places(r: Record): seq<Field> {
    seq(|r|, j requires 0 <= j < |r| => Place(r, j))
  }

  function After(r: Record, i: nat): string
    requires i < |r|
  {
    if i == |r| - 1 then r[i].1 else r[i].1 + ", "
  }

  /** The printed record is a prefix, segment i, and a suffix that is empty after the last one. */
  lemma {:induction false} SegmentAt(r: Record, i: nat) returns (rest: string)
    requires i < |r|
    ensures Printed(r) == Segments(r, i) + (r[i].0 + "=" + (After(r, i) + rest))
    ensures i == |r| - 1 ==> rest == ""
    ensures i < |r| - 1 && KeyWord(r[i + 1].0) ==> rest != ""
    decreases |r| - i
  {
    if i == |r| - 1 {
      rest := "";
      assert After(r, i) + "" == r[i].1;
    } else {
      var next := SegmentAt(r, i + 1);
      rest := r[i + 1].0 + "=" + (After(r, i + 1) + next);
      SegmentGlue(Segments(r, i), r[i].0, After(r, i), rest);
    }
  }

  lemma SegmentGlue(a: string, k: string, v: string, rest: string)
    ensures a + (k + "=" + v) + rest == a + (k + "=" + (v + rest))
  {
    assert k + "=" + v + rest == k + "=" + (v + rest);
  }

  lemma {:induction false} RunEndIs(text: string, i: nat, e: nat)
    requires i <= e < |text| && text[e] == '=' && forall j | i <= j < e :: KeyChar(text[j])
    ensures RunEnd(text, i) == e
    decreases e - i
  {
    if i < e { RunEndIs(text, i + 1, e); }
  }

  lemma KeyFound(text: string, a: string, k: string, tail: string)
    requires text == a + (k + "=" + tail) && KeyWord(k)
    ensures NextField(text, |a|) == Some(Field(|a|, |a| + |k|))
  {
    assert forall j | 0 <= j < |k| :: text[|a| + j] == k[j];
    assert forall j | |a| + 1 <= j < |a| + |k| :: text[j] == k[j - |a|];
    assert text[|a| + |k|] == '=';
    RunEndIs(text, |a| + 1, |a| + |k|);
  }

  /** No match starts in a stretch that holds no equals sign and ends in a blank or with the text. */
  lemma {:induction false} NoFieldIn(text: string, p: nat, q: nat)
    requires p <= q <= |text| && forall j | p <= j < q :: text[j] != '='
    requires p < q < |text| ==> text[q - 1] == ' '
    ensures NextField(text, p) == NextField(text, q)
    decreases q - p
  {
    if p < q {
      if p + 1 < q { NoFieldIn(text, p + 1, q); }
      var e := RunEnd(text, p + 1);
      assert !KeyChar(' ');
      assert !(KeyStart(text[p]) && e < |text| && text[e] == '=') by {
        assert p + 1 <= q - 1 < e ==> KeyChar(text[q - 1]);
      }
    }
  }

  /** The parts of a text of this shape, by position. */
  lemma PartsOfText(text: string, a: string, k: string, v: string, rest: string)
    requires text == a + (k + "=" + (v + rest))
    ensures |text| == |a| + |k| + 1 + |v| + |rest|
    ensures text[|a|..|a| + |k|] == k && text[|a| + |k| + 1..|a| + |k| + 1 + |v|] == v
  {
  }

  lemma AfterHasNoEquals(r: Record, i: nat)
    requires Printable(r) && i < |r|
    ensures '=' !in After(r, i)
    ensures i < |r| - 1 ==> After(r, i) != "" && After(r, i)[|After(r, i)| - 1] == ' '
  {
    assert PlainValue(r[i].1);
  }

  /** Between a key's equals sign and the next key no match starts. */
  lemma ValueSkipped(text: string, p: nat, v: string, last: bool)
    requires p + |v| <= |text| && text[p..p + |v|] == v
    requires '=' !in v && (last ==> p + |v| == |text|) && (!last ==> v != "" && v[|v| - 1] == ' ')
    ensures Fields(text, p) == Fields(text, p + |v|)
  {
    assert forall j | p <= j < p + |v| :: text[j] == v[j - p];
    NoFieldIn(text, p, p + |v|);
  }

  lemma FieldsUnfold(text: string, p: nat, f: Field)
    requires NextField(text, p) == Some(f)
    ensures Fields(text, p) == [f] + Fields(text, f.eq + 1)
  {
  }

  predicate Linked(text: string, start: nat, f: Field, next: nat) {
    NextField(text, start) == Some(f) && Fields(text, f.eq + 1) == Fields(text, next)
  }

  lemma {:induction false} LinkedFields(text: string, starts: seq<nat>, fields: seq<Field>, i: nat)
    requires |starts| == |fields| + 1 && i <= |fields| && starts[|fields|] == |text|
    requires forall j | 0 <= j < |fields| :: Linked(text, starts[j], fields[j], starts[j + 1])
    ensures Fields(text, starts[i]) == fields[i..]
    decreases |fields| - i
  {
    if i == |fields| {
      NoMoreFields(text);
    } else {
      assert Linked(text, starts[i], fields[i], starts[i + 1]);
      FieldsUnfold(text, starts[i], fields[i]);
      LinkedFields(text, starts, fields, i + 1);
    }
  }

  function End(r: Record, i: nat): nat
    requires i < |r|
  {
    Place(r, i).eq + 1 + |After(r, i)|
  }

  lemma NextPlace(r: Record, i: nat)
    requires i < |r| - 1
    ensures Place(r, i + 1).start == End(r, i)
  {
  }

  function Starts(r: Record): seq<nat> {
    seq(|r| + 1, i requires 0 <= i <= |r| => if i < |r| then Place(r, i).start else |Printed(r)|)
  }

  lemma LinkedText(text: string, a: string, k: string, v: string, rest: string, last: bool)
    requires text == a + (k + "=" + (v + rest)) && KeyWord(k) && '=' !in v
    requires if last then rest == "" else v != "" && v[|v| - 1] == ' '
    ensures Linked(text, |a|, Field(|a|, |a| + |k|), |a| + |k| + 1 + |v|)
  {
    KeyFound(text, a, k, v + rest);
    SkipsText(text, a, k, v, rest, last);
  }

  lemma SkipsText(text: string, a: string, k: string, v: string, rest: string, last: bool)
    requires text == a + (k + "=" + (v + rest)) && '=' !in v
    requires if last then rest == "" else v != "" && v[|v| - 1] == ' '
    ensures Fields(text, |a| + |k| + 1) == Fields(text, |a| + |k| + 1 + |v|)
  {
    PartsOfText(text, a, k, v, rest);
    ValueSkipped(text, |a| + |k| + 1, v, last);
  }

  lemma FieldLinked(r: Record, i: nat)
    requires Printable(r) && i < |r|
    ensures Linked(Printed(r), Place(r, i).start, Place(r, i), End(r, i))
  {
    var rest := SegmentAt(r, i);
    KeyAt(r, i);
    AfterHasNoEquals(r, i);
    LinkedText(Printed(r), Segments(r, i), r[i].0, After(r, i), rest, i == |r| - 1);
  }

  lemma EndIs(r: Record, i: nat)
    requires Printable(r) && i < |r|
    ensures End(r, i) == if i + 1 < |r| then Place(r, i + 1).start else |Printed(r)|
  {
    if i + 1 < |r| { NextPlace(r, i); } else { FieldFits(r, i); }
  }

  lemma StartsAre(r: Record, i: nat)
    requires Printable(r) && i < |r|
    ensures Starts(r)[i] == Place(r, i).start && Places(r)[i] == Place(r, i) && Starts(r)[i + 1] == End(r, i)
  {
    EndIs(r, i);
  }

  lemma AllLinked(r: Record)
    requires Printable(r)
    ensures forall j | 0 <= j < |r| :: Linked(Printed(r), Starts(r)[j], Places(r)[j], Starts(r)[j + 1])
  {
    forall j | 0 <= j < |r| ensures Linked(Printed(r), Starts(r)[j], Places(r)[j], Starts(r)[j + 1]) {
      FieldLinked(r, j);
      StartsAre(r, j);
    }
  }

  lemma FieldsOfPrinted(r: Record)
    requires Printable(r) && r != []
    ensures Fields(Printed(r), 0) == Places(r)
  {
    AllLinked(r);
    LinkedFields(Printed(r), Starts(r), Places(r), 0);
    FirstPlace(r);
  }

  lemma FirstPlace(r: Record)
    requires r != []
    ensures Starts(r)[0] == 0 && Places(r)[0..] == Places(r)
  {
    assert Place(r, 0).start == 0;
  }

  lemma FieldFits(r: Record, i: nat)
    requires Printable(r) && i < |r|
    ensures Place(r, i).eq + 1 + |After(r, i)| <= |Printed(r)|
    ensures i == |r| - 1 ==> Place(r, i).eq + 1 + |After(r, i)| == |Printed(r)|
    ensures Printed(r)[Place(r, i).eq + 1..Place(r, i).eq + 1 + |After(r, i)|] == After(r, i)
  {
    var rest := SegmentAt(r, i);
    PartsOfText(Printed(r), Segments(r, i), r[i].0, After(r, i), rest);
  }

  lemma KeyAt(r: Record, i: nat)
    requires Printable(r) && i < |r|
    ensures KeyWord(r[i].0)
  {
  }

  lemma NoMoreFields(text: string)
    ensures Fields(text, |text|) == []
  {
  }

  lemma {:induction false} StripsTo(v: string)
    requires PlainValue(v)
    ensures Strip(v) == v && RStrip(v) == v && RStrip(v + ", ") == v + "," && DropComma(v + ",") == v
  {
    assert (v + ", ")[..|v| + 1] == v + ",";
    assert !IsSpace(',') && IsSpace(' ');
  }

  predicate LastKept(r: Record) {
    r != [] && r[|r| - 1].1 != "" ==> r[|r| - 1].1[|r[|r| - 1].1| - 1] != ','
  }

  /** What parsing gives for the value of field i: only the last value can lose something. */
  function ReadBack(r: Record, i: nat): string
    requires i < |r|
  {
    if i == |r| - 1 then Strip(DropComma(r[i].1)) else r[i].1
  }

  lemma AfterReads(r: Record, i: nat)
    requires Printable(r) && i < |r|
    ensures Strip(DropComma(RStrip(After(r, i)))) == ReadBack(r, i)
  {
    assert PlainValue(r[i].1);
    StripsTo(r[i].1);
  }

  lemma ValueIs(text: string, fields: seq<Field>, i: nat, end: nat, slice: string, value: string)
    requires FieldsOk(text, fields, 0) && i < |fields| && fields[i].eq + 1 <= end <= |text|
    requires end == if i + 1 < |fields| then fields[i + 1].start else |text|
    requires text[fields[i].eq + 1..end] == slice && Strip(DropComma(RStrip(slice))) == value
    ensures ValueOf(text, fields, i) == value
  {
  }

  lemma SliceReads(r: Record, i: nat)
    requires Printable(r) && i < |r|
    ensures Place(r, i).eq + 1 <= End(r, i) <= |Printed(r)|
    ensures Printed(r)[Place(r, i).eq + 1..End(r, i)] == After(r, i)
    ensures Strip(DropComma(RStrip(After(r, i)))) == ReadBack(r, i)
  {
    FieldFits(r, i);
    AfterReads(r, i);
  }

  lemma NextStart(r: Record, i: nat)
    requires Printable(r) && i < |r|
    ensures Places(r)[i] == Place(r, i)
    ensures End(r, i) == if i + 1 < |Places(r)| then Places(r)[i + 1].start else |Printed(r)|
  {
    EndIs(r, i);
  }

  lemma ValueParsed(r: Record, i: nat)
    requires Printable(r) && i < |r|
    requires FieldsOk(Printed(r), Places(r), 0)
    ensures ValueOf(Printed(r), Places(r), i) == ReadBack(r, i)
  {
    SliceReads(r, i);
    NextStart(r, i);
    ValueIs(Printed(r), Places(r), i, End(r, i), After(r, i), ReadBack(r, i));
  }

  lemma KeyParsed(r: Record, i: nat)
    requires Printable(r) && i < |r|
    ensures Place(r, i).eq <= |Printed(r)| && Printed(r)[Place(r, i).start..Place(r, i).eq] == r[i].0
  {
    var rest := SegmentAt(r, i);
    PartsOfText(Printed(r), Segments(r, i), r[i].0, After(r, i), rest);
  }

  lemma {:induction false} PutAppends(r: Record, key: string, value: string)
    requires forall i | 0 <= i < |r| :: r[i].0 != key
    ensures Put(r, key, value) == r + [(key, value)]
  {
    if r != [] { PutAppends(r[1..], key, value); }
  }

  lemma NextEntry(r: Record, n: nat)
    requires n < |r| && DistinctKeys(r)
    ensures Put(r[..n], r[n].0, r[n].1) == r[..n + 1]
  {
    PutAppends(r[..n], r[n].0, r[n].1);
  }

  lemma {:induction false} PutAllDistinct(pairs: Record, n: nat)
    requires n <= |pairs| && DistinctKeys(pairs)
    ensures PutAll(pairs, n) == pairs[..n]
  {
    if n > 0 {
      PutAllDistinct(pairs, n - 1);
      NextEntry(pairs, n - 1);
    }
  }

  function AllReadBack(r: Record): Record {
    seq(|r|, i requires 0 <= i < |r| => (r[i].0, ReadBack(r, i)))
  }

  lemma PairsReadBack(r: Record)
    requires Printable(r) && FieldsOk(Printed(r), Places(r), 0)
    ensures PairsOf(Printed(r), Places(r)) == AllReadBack(r)
  {
    forall i | 0 <= i < |r| ensures PairsOf(Printed(r), Places(r))[i] == AllReadBack(r)[i] {
      ValueParsed(r, i);
      KeyParsed(r, i);
    }
  }

  /** What parsing a printed record gives, for every record. */
  lemma ParsedExactly(r: Record)
    requires Printable(r) && DistinctKeys(r)
    ensures ParseRecord(Printed(r)) == AllReadBack(r)
  {
    if r != [] {
      FieldsOfPrinted(r);
      assert FieldsOk(Printed(r), Places(r), 0);
      PairsReadBack(r);
      PutAllDistinct(AllReadBack(r), |r|);
      assert AllReadBack(r)[..|r|] == AllReadBack(r);
    }
  }

  lemma {:induction false} RStripShorter(s: string)
    ensures |RStrip(s)| <= |s|
  {
    if s != "" { RStripShorter(s[..|s| - 1]); }
  }

  lemma {:induction false} LStripShorter(s: string)
    ensures |LStrip(s)| <= |s|
  {
    if s != "" { LStripShorter(s[1..]); }
  }

  /** The last value is read back unless it ends in a comma. */
  lemma LastReadBack(r: Record)
    requires Printable(r)
    ensures LastKept(r) <==> AllReadBack(r) == r
  {
    if r != [] {
      var n := |r| - 1;
      var v := r[n].1;
      assert PlainValue(v);
      StripsTo(v);
      LStripShorter(DropComma(v));
      RStripShorter(LStrip(DropComma(v)));
      assert AllReadBack(r)[n] == (r[n].0, ReadBack(r, n));
      assert LastKept(r) <==> ReadBack(r, n) == v;
    }
  }

  /**
   Parsing a printed record gives it back exactly when its last value does not end in a comma. The
   values are printable: no equals sign, and no white space at either end.
   */
  lemma RecordRoundTrip(r: Record)
    requires Printable(r) && DistinctKeys(r)
    ensures ParseRecord(Printed(r)) == r <==> LastKept(r)
  {
    ParsedExactly(r);
    LastReadBack(r);
  }

  /** A comma that ends the last value is lost. */
  lemma CommaIsLost(j: string, u: string, k: string, v: string)
    requires KeyWord(j) && KeyWord(k) && j != k && PlainValue(u) && PlainValue(v) && PlainValue(v + ",")
    ensures ParseRecord(Printed([(j, u), (k, v + ",")])) == [(j, u), (k, v)]
  {
    var r: Record := [(j, u), (k, v + ",")];
    ParsedExactly(r);
    assert DropComma(v + ",") == v;
    StripsTo(v);
    assert AllReadBack(r) == [(j, u), (k, v)];
  }

  /** For example from this record. */
  lemma LostComma()
    ensures ParseRecord(Printed([("a", "1"), ("b", "2,")])) == [("a", "1"), ("b", "2")]
  {
    assert "2" + "," == "2,";
    CommaIsLost("a", "1", "b", "2");
  }

  // ---------------------------------------------------------------------------------------------
  // The table
  // ---------------------------------------------------------------------------------------------

  const INSTRUCTION_FIELD_ORDER := [
    "instruction_id", "owning_lob", "status", "instruction_type", "currency", "wire_scope", "creditor",
    "creditor_name", "creditor_account", "creator", "creator_display", "approver", "approver_display",
    "approved_at", "effective", "effective_date", "end", "end_date", "rejected_by", "rejected_at",
    "rejection_reason", "event_id", "timestamp", "action", "actor", "actor_display", "severity", "outcome", "message"]

  const PAYMENT_FIELD_ORDER := [
    "payment_id", "instruction_id", "status", "amount", "currency", "value_date", "owning_lob", "creator",
    "creator_display", "approver", "approver_display", "approved_at", "event_id", "timestamp", "action", "actor",
    "actor_display", "severity", "outcome"]

  function Label(key: string): Option<string> {
    if key == "instruction_id" then Some("Instruction ID")
    else if key == "payment_id" then Some("Payment ID")
    else if key == "event_id" then Some("Event ID")
    else if key == "owning_lob" then Some("LOB")
    else if key == "wire_scope" then Some("Wire Scope")
    else if key == "instruction_type" then Some("Type")
    else if key == "value_date" then Some("Value Date")
    else if key == "approved_at" then Some("Approved At")
    else if key == "effective_date" then Some("Effective")
    else if key == "end_date" then Some("End")
    else if key == "rejected_at" then Some("Rejected At")
    else if key == "rejection_reason" then Some("Rejection Reason")
    else if key == "actor_display" then Some("Actor")
    else if key == "creator_display" then Some("Creator")
    else if key == "approver_display" then Some("Approver")
    else if key == "creditor_name" then Some("Creditor")
    else if key == "creditor_account" then Some("Creditor Account")
    else None
  }

  /** key.replace("_", " ").title() for a key of the pattern's characters. */
  function Titled(key: string): string {
    seq(|key|, i requires 0 <= i < |key| =>
      if key[i] == '_' then ' '
      else if 'a' <= key[i] <= 'z' && (i == 0 || !('a' <= key[i - 1] <= 'z')) then (key[i] as int - 32) as char
      else key[i])
  }

  function Humanized(key: string): string {
    if Label(key).Some? then Label(key).value else Titled(key)
  }

  function Only(s: seq<string>, keep: seq<string>): seq<string> {
    if s == [] then [] else (if s[0] in keep then [s[0]] else []) + Only(s[1..], keep)
  }

  function Except(s: seq<string>, drop: seq<string>): seq<string> {
    if s == [] then [] else (if s[0] in drop then [] else [s[0]]) + Except(s[1..], drop)
  }

  /** The keys of a record that are not among `seen` yet. */
  function NewKeys(r: Record, seen: seq<string>): seq<string> {
    if r == [] then seen else NewKeys(r[1..], if r[0].0 in seen then seen else seen + [r[0].0])
  }

  function AllKeys(records: seq<Record>): seq<string> {
    if records == [] then [] else NewKeys(records[|records| - 1], AllKeys(records[..|records| - 1]))
  }

  function ColumnOrder(keys: seq<string>): seq<string> {
    var byInstruction, byPayment := Only(INSTRUCTION_FIELD_ORDER, keys), Only(PAYMENT_FIELD_ORDER, keys);
    if |byInstruction| >= 2 then byInstruction + SortedKeys(Except(keys, byInstruction))
    else if |byPayment| >= 2 then byPayment + SortedKeys(Except(keys, byPayment))
    else SortedKeys(keys)
  }

  function Headers(columns: seq<string>): seq<string> {
    seq(|columns|, i requires 0 <= i < |columns| => Humanized(columns[i]))
  }

  function Row(r: Record, columns: seq<string>): seq<string> {
    seq(|columns|, i requires 0 <= i < |columns| => Get(r, columns[i], DASH))
  }

  function RecordRows(records: seq<Record>, columns: seq<string>): seq<seq<string>> {
    seq(|records|, i requires 0 <= i < |records| => Row(records[i], columns))
  }

  function RecordsTable(records: seq<Record>): string {
    var columns := ColumnOrder(AllKeys(records));
    FormatTable(Headers(columns), RecordRows(records, columns))
  }

  function NonEmpty(parts: seq<string>): seq<string> {
    if parts == [] then [] else (if parts[0] == "" then [] else [parts[0]]) + NonEmpty(parts[1..])
  }

  function JoinSections(intro: string, table: string, footer: string): string {
    RStrip(Join("\n", NonEmpty([intro, table, footer])))
  }

  function MinKeys(records: seq<Record>): nat
    requires records != []
  {
    if |records| == 1 then |records[0]|
    else
      var m := MinKeys(records[1..]);
      if |records[0]| < m then |records[0]| else m
  }

  function FormatBlock(p: Parts): Option<string> {
    if p.records == [] || MinKeys(p.records) < 2 || (|p.records| == 1 && MinKeys(p.records) < 3) then None
    else Some(JoinSections(Strip(Join("\n", p.intro)), RecordsTable(p.records), Strip(Join("\n", p.footer))))
  }

  // ---------------------------------------------------------------------------------------------
  // The formatter
  // ---------------------------------------------------------------------------------------------

  predicate RuleChar(c: char) { c == '-' || c == ':' || c == '|' || c == ' ' }

  /** The separator pattern: an optional pipe, white space, one or more rule characters, a pipe. */
  predicate IsRule(s: string) {
    exists a, b, c | 0 <= a <= 1 && 0 <= b <= |s| && 0 <= c < |s| :: RuleSplit(s, a, b, c)
  }

  predicate RuleSplit(s: string, a: nat, b: nat, c: nat) {
    && a <= b < c < |s|
    && (a == 1 ==> s[0] == '|')
    && (forall i | a <= i < b :: IsSpace(s[i]))
    && (forall i | b <= i < c :: RuleChar(s[i]))
    && s[c] == '|'
  }

  predicate TableAt(lines: seq<string>, i: nat) {
    i + 1 < |lines| && '|' in lines[i] && IsRule(lines[i + 1])
  }

  predicate HasTable(text: string) {
    exists i :: 0 <= i < |SplitLines(text)| && TableAt(SplitLines(text), i)
  }

  function TryNumbered(text: string, digit: char -> bool): Option<string> {
    if HasTable(text) then None else FormatBlock(NumberedParts(SplitLines(text), digit))
  }

  function TryPlain(text: string): Option<string> {
    if HasTable(text) then None
    else
      var p := PlainParts(SplitLines(text));
      if |p.records| < 2 then None else FormatBlock(p)
  }

  function FormatResponse(text: string, digit: char -> bool): string {
    if Strip(text) == "" then text
    else if TryNumbered(text, digit).Some? then TryNumbered(text, digit).value
    else if TryPlain(text).Some? then TryPlain(text).value
    else text
  }

  // ---------------------------------------------------------------------------------------------
  // Header labels contain no line break
  // ---------------------------------------------------------------------------------------------

  predicate IsKey(k: string) {
    k != "" && forall i | 0 <= i < |k| :: KeyChar(k[i])
  }

  predicate RecordOk(r: Record) {
    forall i | 0 <= i < |r| :: IsKey(r[i].0)
  }

  lemma {:induction false} PutOk(r: Record, key: string, value: string)
    requires RecordOk(r) && IsKey(key)
    ensures RecordOk(Put(r, key, value)) && |Put(r, key, value)| >= 1
  {
    if r != [] && r[0].0 != key {
      PutOk(r[1..], key, value);
    }
  }

  lemma FieldKeyOk(text: string, f: Field)
    requires IsField(text, f)
    ensures IsKey(text[f.start..f.eq])
  {
  }

  lemma {:induction false} PutAllOk(pairs: Record, n: nat)
    requires n <= |pairs| && RecordOk(pairs)
    ensures RecordOk(PutAll(pairs, n))
  {
    if n > 0 {
      PutAllOk(pairs, n - 1);
      PutOk(PutAll(pairs, n - 1), pairs[n - 1].0, pairs[n - 1].1);
    }
  }

  lemma PairsOk(text: string, fields: seq<Field>)
    requires FieldsOk(text, fields, 0)
    ensures RecordOk(PairsOf(text, fields))
  {
    forall i | 0 <= i < |fields| ensures IsKey(PairsOf(text, fields)[i].0) {
      FieldKeyOk(text, fields[i]);
    }
  }

  /** Every parsed record has keys of the pattern. */
  lemma ParsedOk(text: string)
    ensures RecordOk(ParseRecord(text))
  {
    PairsOk(text, Fields(text, 0));
    PutAllOk(PairsOf(text, Fields(text, 0)), |Fields(text, 0)|);
  }

  predicate PartsOk(p: Parts) {
    forall i | 0 <= i < |p.records| :: RecordOk(p.records[i])
  }

  lemma {:induction false} NumberedPartsOk(lines: seq<string>, digit: char -> bool)
    ensures PartsOk(NumberedParts(lines, digit))
    decreases |lines|
  {
    if lines != [] {
      NumberedPartsOk(lines[..|lines| - 1], digit);
      var g := NumberedGroup(lines[|lines| - 1], digit);
      if g.Some? {
        ParsedOk(g.value);
      }
    }
  }

  lemma {:induction false} PlainPartsOk(lines: seq<string>)
    ensures PartsOk(PlainParts(lines))
    decreases |lines|
  {
    if lines != [] {
      PlainPartsOk(lines[..|lines| - 1]);
      var t := Strip(lines[|lines| - 1]);
      ParsedOk(t);
    }
  }

  predicate KeysOk(keys: seq<string>) {
    forall i | 0 <= i < |keys| :: IsKey(keys[i])
  }

  lemma {:induction false} NewKeysOk(r: Record, seen: seq<string>)
    requires RecordOk(r) && KeysOk(seen)
    ensures KeysOk(NewKeys(r, seen)) && |NewKeys(r, seen)| >= |seen| && (r != [] ==> |NewKeys(r, seen)| > 0)
    decreases |r|
  {
    if r != [] {
      NewKeysOk(r[1..], if r[0].0 in seen then seen else seen + [r[0].0]);
    }
  }

  lemma {:induction false} AllKeysOk(records: seq<Record>)
    requires records != [] && forall i | 0 <= i < |records| :: RecordOk(records[i]) && records[i] != []
    ensures KeysOk(AllKeys(records)) && AllKeys(records) != []
    decreases |records|
  {
    var n := |records| - 1;
    if n > 0 {
      AllKeysOk(records[..n]);
    }
    NewKeysOk(records[n], AllKeys(records[..n]));
  }

  lemma {:induction false} OnlyMembers(s: seq<string>, keep: seq<string>)
    ensures forall k | k in Only(s, keep) :: k in keep
  {
    if s != [] { OnlyMembers(s[1..], keep); }
  }

  lemma {:induction false} ExceptMembers(s: seq<string>, drop: seq<string>)
    ensures forall k | k in Except(s, drop) :: k in s
  {
    if s != [] { ExceptMembers(s[1..], drop); }
  }

  lemma ColumnsAreKeys(keys: seq<string>)
    requires keys != []
    ensures ColumnOrder(keys) != [] && forall k | k in ColumnOrder(keys) :: k in keys
  {
    var a, b := Only(INSTRUCTION_FIELD_ORDER, keys), Only(PAYMENT_FIELD_ORDER, keys);
    OnlyMembers(INSTRUCTION_FIELD_ORDER, keys);
    OnlyMembers(PAYMENT_FIELD_ORDER, keys);
    ExceptMembers(keys, a);
    ExceptMembers(keys, b);
    SortedKeysMembers(Except(keys, a));
    SortedKeysMembers(Except(keys, b));
    SortedKeysMembers(keys);
  }

  // ---------------------------------------------------------------------------------------------
  // Every key of every record has exactly one column
  // ---------------------------------------------------------------------------------------------

  predicate HasKey(r: Record, key: string) {
    exists i :: 0 <= i < |r| && r[i].0 == key
  }

  predicate SomeHasKey(records: seq<Record>, key: string) {
    exists i :: 0 <= i < |records| && HasKey(records[i], key)
  }

  /** A number that tells the preferred keys apart. */
  function Weight(k: string): int {
    if k == "" then 0 else k[0] as int + 7 * (k[|k| - 1] as int) + 31 * |k|
  }

  predicate Different(w: seq<int>) {
    forall i, j | 0 <= i < j < |w| :: w[i] != w[j]
  }

  const INSTRUCTION_WEIGHTS: seq<int> :=
    [1239, 1107, 1106, 1308, 1194, 1136, 1145, 1209, 1407, 1114, 1411, 1143, 1440, 1250, 1087, 1242,
    894, 1056, 1302, 1267, 1380, 1049, 1179, 1053, 1050, 1347, 1210, 1035, 1033]

  const PAYMENT_WEIGHTS: seq<int> :=
    [1122, 1239, 1106, 1095, 1194, 1135, 1107, 1114, 1411, 1143, 1440, 1250, 1049, 1179, 1053, 1050,
    1347, 1210, 1035]

  lemma FirstInstructionWeights(i: nat)
    requires i < 15
    ensures |INSTRUCTION_FIELD_ORDER| == |INSTRUCTION_WEIGHTS| == 29
    ensures Weight(INSTRUCTION_FIELD_ORDER[i]) == INSTRUCTION_WEIGHTS[i]
  {
  }

  lemma OtherInstructionWeights(i: nat)
    requires 15 <= i < 29
    ensures |INSTRUCTION_FIELD_ORDER| == |INSTRUCTION_WEIGHTS| == 29
    ensures Weight(INSTRUCTION_FIELD_ORDER[i]) == INSTRUCTION_WEIGHTS[i]
  {
  }

  lemma PaymentWeights(i: nat)
    requires i < 19
    ensures |PAYMENT_FIELD_ORDER| == |PAYMENT_WEIGHTS| == 19
    ensures Weight(PAYMENT_FIELD_ORDER[i]) == PAYMENT_WEIGHTS[i]
  {
  }

  lemma InstructionWeightsDiffer(i: nat, j: nat)
    requires i < j < 29
    ensures |INSTRUCTION_WEIGHTS| == 29 && INSTRUCTION_WEIGHTS[i] != INSTRUCTION_WEIGHTS[j]
  {
  }

  lemma PaymentWeightsDiffer(i: nat, j: nat)
    requires i < j < 19
    ensures |PAYMENT_WEIGHTS| == 19 && PAYMENT_WEIGHTS[i] != PAYMENT_WEIGHTS[j]
  {
  }

  lemma WeightsTellApart(s: seq<string>, w: seq<int>)
    requires |s| == |w| && Different(w) && forall i | 0 <= i < |s| :: Weight(s[i]) == w[i]
    ensures NoRepeat(s)
  {
    forall i, j | 0 <= i < j < |s| ensures s[i] != s[j] {
      assert w[i] != w[j];
    }
  }

  lemma InstructionOrderNoRepeat()
    ensures NoRepeat(INSTRUCTION_FIELD_ORDER)
  {
    FirstInstructionWeights(0);
    forall i | 0 <= i < 29 ensures Weight(INSTRUCTION_FIELD_ORDER[i]) == INSTRUCTION_WEIGHTS[i] {
      if i < 15 { FirstInstructionWeights(i); } else { OtherInstructionWeights(i); }
    }
    forall i, j | 0 <= i < j < 29 ensures INSTRUCTION_WEIGHTS[i] != INSTRUCTION_WEIGHTS[j] {
      InstructionWeightsDiffer(i, j);
    }
    WeightsTellApart(INSTRUCTION_FIELD_ORDER, INSTRUCTION_WEIGHTS);
  }

  lemma PaymentOrderNoRepeat()
    ensures NoRepeat(PAYMENT_FIELD_ORDER)
  {
    PaymentWeights(0);
    forall i | 0 <= i < 19 ensures Weight(PAYMENT_FIELD_ORDER[i]) == PAYMENT_WEIGHTS[i] {
      PaymentWeights(i);
    }
    forall i, j | 0 <= i < j < 19 ensures PAYMENT_WEIGHTS[i] != PAYMENT_WEIGHTS[j] {
      PaymentWeightsDiffer(i, j);
    }
    WeightsTellApart(PAYMENT_FIELD_ORDER, PAYMENT_WEIGHTS);
  }

  lemma HasKeyFirst(r: Record, key: string)
    requires r != []
    ensures HasKey(r, key) <==> r[0].0 == key || HasKey(r[1..], key)
  {
    if HasKey(r[1..], key) {
      var i :| 0 <= i < |r[1..]| && r[1..][i].0 == key;
      assert r[i + 1].0 == key;
    }
    if HasKey(r, key) {
      var i :| 0 <= i < |r| && r[i].0 == key;
      assert i > 0 ==> r[1..][i - 1].0 == key;
    }
  }

  lemma {:induction false} NewKeysExact(r: Record, seen: seq<string>, key: string)
    requires NoRepeat(seen)
    ensures NoRepeat(NewKeys(r, seen))
    ensures key in NewKeys(r, seen) <==> key in seen || HasKey(r, key)
    decreases |r|
  {
    if r != [] {
      HasKeyFirst(r, key);
      NewKeysExact(r[1..], if r[0].0 in seen then seen else seen + [r[0].0], key);
    }
  }

  lemma {:induction false} AllKeysExact(records: seq<Record>, key: string)
    ensures NoRepeat(AllKeys(records))
    ensures key in AllKeys(records) <==> SomeHasKey(records, key)
    decreases |records|
  {
    if records != [] {
      var n := |records| - 1;
      AllKeysExact(records[..n], key);
      NewKeysExact(records[n], AllKeys(records[..n]), key);
      if SomeHasKey(records[..n], key) {
        var i :| 0 <= i < n && HasKey(records[..n][i], key);
        assert HasKey(records[i], key);
      }
      if SomeHasKey(records, key) {
        var i :| 0 <= i < |records| && HasKey(records[i], key);
        assert i < n ==> HasKey(records[..n][i], key);
      }
    }
  }

  lemma {:induction false} OnlyExact(s: seq<string>, keep: seq<string>)
    requires NoRepeat(s)
    ensures NoRepeat(Only(s, keep)) && forall k :: k in Only(s, keep) <==> k in s && k in keep
  {
    if s != [] {
      OnlyExact(s[1..], keep);
      assert forall k :: k in s <==> k == s[0] || k in s[1..];
    }
  }

  lemma {:induction false} ExceptExact(s: seq<string>, drop: seq<string>)
    requires NoRepeat(s)
    ensures NoRepeat(Except(s, drop)) && forall k :: k in Except(s, drop) <==> k in s && k !in drop
  {
    if s != [] {
      ExceptExact(s[1..], drop);
      assert forall k :: k in s <==> k == s[0] || k in s[1..];
    }
  }

  lemma {:induction false} SortedKeysExact(s: seq<string>)
    requires NoRepeat(s)
    ensures NoRepeat(SortedKeys(s)) && forall k :: k in SortedKeys(s) <==> k in s
  {
    if s != [] {
      SortedKeysExact(s[1..]);
      InsertKeyExact(s[0], SortedKeys(s[1..]));
      assert forall k :: k in s <==> k == s[0] || k in s[1..];
    }
  }

  /** The preferred keys that occur, then the rest: every key once. */
  lemma PreferredThenRest(order: seq<string>, keys: seq<string>)
    requires NoRepeat(order) && NoRepeat(keys)
    ensures var ordered := Only(order, keys); var columns := ordered + SortedKeys(Except(keys, ordered));
            NoRepeat(columns) && forall k :: k in columns <==> k in keys
  {
    var ordered := Only(order, keys);
    OnlyExact(order, keys);
    ExceptExact(keys, ordered);
    SortedKeysExact(Except(keys, ordered));
    NoRepeatConcat(ordered, SortedKeys(Except(keys, ordered)));
  }

  /** Whichever order applies, the columns are exactly the keys of the records, each once. */
  lemma ColumnsExactly(records: seq<Record>)
    ensures var columns := ColumnOrder(AllKeys(records));
            NoRepeat(columns) && forall k :: k in columns <==> SomeHasKey(records, k)
  {
    var keys := AllKeys(records);
    forall k ensures k in keys <==> SomeHasKey(records, k) {
      AllKeysExact(records, k);
    }
    AllKeysExact(records, "");
    InstructionOrderNoRepeat();
    PaymentOrderNoRepeat();
    PreferredThenRest(INSTRUCTION_FIELD_ORDER, keys);
    PreferredThenRest(PAYMENT_FIELD_ORDER, keys);
    SortedKeysExact(keys);
  }

  predicate Clean(s: string) {
    s != "" && Over(s, NotBreak)
  }

  predicate LabelChar(c: char) {
    'a' <= c <= 'z' || 'A' <= c <= 'Z' || '0' <= c <= '9' || c == ' '
  }

  predicate Letters(s: string) {
    s != "" && forall i | 0 <= i < |s| :: LabelChar(s[i])
  }

  lemma SomeLabels()
    ensures Letters("Instruction ID") && Letters("Payment ID") && Letters("Event ID") && Letters("LOB")
    ensures Letters("Wire Scope") && Letters("Type") && Letters("Value Date") && Letters("Approved At")
  {
  }

  lemma OtherLabels()
    ensures Letters("Effective") && Letters("End") && Letters("Rejected At") && Letters("Rejection Reason")
    ensures Letters("Actor") && Letters("Creator") && Letters("Approver") && Letters("Creditor")
    ensures Letters("Creditor Account")
  {
  }

  lemma LabelsClean(key: string)
    ensures Label(key).Some? ==> Letters(Label(key).value)
  {
    SomeLabels();
    OtherLabels();
  }

  lemma HumanizedClean(key: string)
    requires IsKey(key)
    ensures Clean(Humanized(key)) && Clean(Shown(Humanized(key)))
  {
    LabelsClean(key);
    var h := Humanized(key);
    forall i | 0 <= i < |h| ensures LabelChar(h[i]) {
    }
    forall i | 0 <= i < |h| ensures NotBreak(h[i]) {
      assert LabelChar(h[i]);
    }
  }

  // ---------------------------------------------------------------------------------------------
  // A table that was built is found again
  // ---------------------------------------------------------------------------------------------

  lemma FirstBreakConcat(a: string, x: string)
    requires FirstBreak(a) < |a|
    ensures FirstBreak(a + x) == FirstBreak(a)
  {
    var i, j := FirstBreak(a + x), FirstBreak(a);
    assert forall k | 0 <= k <= j :: (a + x)[k] == a[k];
  }

  lemma FirstLine(h: string, rest: string)
    requires Over(h, NotBreak)
    ensures SplitLines(h + "\n" + rest) == [h] + SplitLines(rest)
  {
    var s := h + "\n" + rest;
    var i := FirstBreak(s);
    assert s[|h|] == '\n';
    assert forall k | 0 <= k < |h| :: s[k] == h[k] && NotBreak(h[k]);
    assert i == |h|;
    assert s[..i] == h && s[i + 1..] == rest;
  }

  /** Splitting off the first line of a text that ends in a break leaves such a text. */
  lemma FirstLineOff(a: string, x: string) returns (line: string, b: string)
    requires a != "" && a[|a| - 1] == '\n'
    ensures |b| < |a| && (b == "" || b[|b| - 1] == '\n')
    ensures SplitLines(a + x) == [line] + SplitLines(b + x)
  {
    assert IsBreak(a[|a| - 1]);
    var i, s := FirstBreak(a), a + x;
    FirstBreakConcat(a, x);
    var w := if s[i] == '\r' && i + 1 < |s| && s[i + 1] == '\n' then 2 else 1;
    assert s[i] == a[i];
    assert i + w <= |a|;
    line, b := s[..i], a[i + w..];
    assert s[i + w..] == b + x;
  }

  predicate PairAt(lines: seq<string>, i: nat, h: string, rule: string) {
    i + 1 < |lines| && lines[i] == h && lines[i + 1] == rule
  }

  lemma FirstPair(h: string, rule: string, rest: string)
    requires Over(h, NotBreak) && Over(rule, NotBreak)
    ensures PairAt(SplitLines(h + "\n" + (rule + "\n" + rest)), 0, h, rule)
  {
    FirstLine(h, rule + "\n" + rest);
    FirstLine(rule, rest);
  }

  lemma PairShift(line: string, lines: seq<string>, i: nat, h: string, rule: string)
    requires PairAt(lines, i, h, rule)
    ensures PairAt([line] + lines, i + 1, h, rule)
  {
  }

  /** Two whole lines in a text are two consecutive elements of its lines. */
  lemma {:induction false} LinesAdjacent(a: string, x: string, h: string, rule: string) returns (i: nat)
    requires a == "" || a[|a| - 1] == '\n'
    requires PairAt(SplitLines(x), 0, h, rule)
    ensures PairAt(SplitLines(a + x), i, h, rule)
    decreases |a|
  {
    if a == "" {
      assert a + x == x;
      i := 0;
    } else {
      var line, b := FirstLineOff(a, x);
      var k := LinesAdjacent(b, x, h, rule);
      PairShift(line, SplitLines(b + x), k, h, rule);
      i := k + 1;
    }
  }

  lemma {:induction false} RStripKeepsPrefix(p: string, y: string) returns (z: string)
    requires p != "" && !IsSpace(p[|p| - 1])
    ensures RStrip(p + y) == p + z
    decreases |y|
  {
    var s := p + y;
    if y == "" {
      z := "";
      assert s == p;
    } else if IsSpace(y[|y| - 1]) {
      assert s[..|s| - 1] == p + y[..|y| - 1];
      z := RStripKeepsPrefix(p, y[..|y| - 1]);
    } else {
      z := y;
    }
  }

  function RuleOnly(c: char): bool { c == '-' || c == '|' || c == ' ' }

  lemma SeparatorIsRule(widths: seq<nat>)
    ensures IsRule(Separator(widths)) && Over(Separator(widths), NotBreak)
  {
    var s := Separator(widths);
    SeparatorOver(widths, RuleOnly);
    assert s[0] == '|' && s[|s| - 1] == '|';
    assert forall i | 1 <= i < |s| - 1 :: RuleOnly(s[i]) && RuleChar(s[i]);
    assert RuleSplit(s, 1, 1, |s| - 1);
    assert forall i | 0 <= i < |s| :: RuleOnly(s[i]) && NotBreak(s[i]);
  }

  lemma LineStartsWithPipe(cells: seq<string>, widths: seq<nat>)
    ensures Line(cells, widths) != "" && Line(cells, widths)[0] == '|'
  {
  }

  /** A text that holds a rendered table after the start of a line is recognised as having one. */
  lemma TableFound(a: string, headers: seq<string>, widths: seq<nat>, rest: string)
    requires a == "" || a[|a| - 1] == '\n'
    requires forall i | 0 <= i < |headers| :: Clean(Shown(headers[i]))
    ensures HasTable(a + (Line(headers, widths) + "\n" + (Separator(widths) + "\n" + rest)))
  {
    var h, rule := Line(headers, widths), Separator(widths);
    LineOver(headers, widths, NotBreak);
    LineStartsWithPipe(headers, widths);
    SeparatorIsRule(widths);
    FirstPair(h, rule, rest);
    var i := LinesAdjacent(a, h + "\n" + (rule + "\n" + rest), h, rule);
    PairIsTable(a + (h + "\n" + (rule + "\n" + rest)), i, h, rule);
  }

  lemma PairIsTable(text: string, i: nat, h: string, rule: string)
    requires PairAt(SplitLines(text), i, h, rule) && '|' in h && IsRule(rule)
    ensures HasTable(text)
  {
    assert TableAt(SplitLines(text), i);
  }

  lemma JoinStarts(sep: string, parts: seq<string>) returns (rest: string)
    requires parts != []
    ensures Join(sep, parts) == parts[0] + rest
  {
    if |parts| == 1 {
      rest := "";
      assert parts[0] + "" == parts[0];
    } else {
      rest := sep + Join(sep, parts[1..]);
      assert parts[0] + sep + Join(sep, parts[1..]) == parts[0] + rest;
    }
  }

  /** The joined sections: perhaps the introduction and a line feed, then the table, then the rest. */
  lemma SectionsShape(intro: string, table: string, footer: string) returns (a: string, rest: string)
    requires table != ""
    ensures Join("\n", NonEmpty([intro, table, footer])) == a + (table + rest)
    ensures a == "" || a[|a| - 1] == '\n'
  {
    var parts := [intro, table, footer];
    assert parts[1..] == [table, footer] && [table, footer][1..] == [footer] && [footer][1..] == [];
    var tail := if footer == "" then [] else [footer];
    assert NonEmpty([footer]) == tail;
    assert NonEmpty([table, footer]) == [table] + tail;
    rest := JoinStarts("\n", [table] + tail);
    if intro == "" {
      a := "";
      assert NonEmpty(parts) == [table] + tail;
      assert a + (table + rest) == table + rest;
    } else {
      a := intro + "\n";
      assert NonEmpty(parts) == [intro] + ([table] + tail);
      assert ([intro] + ([table] + tail))[1..] == [table] + tail;
    }
  }

  /** Trimming a text keeps all of it up to a pipe. */
  lemma TrimKeepsPipe(a: string, h: string, rule: string, tail: string) returns (z: string)
    ensures RStrip(a + (h + "\n" + rule + "\n" + ("|" + tail))) == a + (h + "\n" + (rule + "\n" + ("|" + z)))
  {
    var prefix := a + (h + "\n" + (rule + "\n" + "|"));
    assert prefix[|prefix| - 1] == '|';
    z := RStripKeepsPrefix(prefix, tail);
    assert a + (h + "\n" + rule + "\n" + ("|" + tail)) == prefix + tail;
    assert prefix + z == a + (h + "\n" + (rule + "\n" + ("|" + z)));
  }

  /** A rendered table: header, rule, and a row that starts with a pipe. */
  lemma TableShape(headers: seq<string>, rows: seq<seq<string>>) returns (tail: string)
    requires headers != [] && rows != []
    ensures var w := Widths(headers, rows);
            FormatTable(headers, rows) == Line(headers, w) + "\n" + Separator(w) + "\n" + ("|" + tail)
  {
    var w := Widths(headers, rows);
    var body := JoinStarts("\n", Lines(rows, w));
    var first := Line(rows[0], w);
    LineStartsWithPipe(rows[0], w);
    assert first == "|" + first[1..];
    tail := first[1..] + body;
    assert first + body == "|" + tail;
  }

  lemma TableThenRest(h: string, rule: string, tail: string, rest: string)
    ensures h + "\n" + rule + "\n" + ("|" + tail) + rest == h + "\n" + rule + "\n" + ("|" + (tail + rest))
  {
  }

  lemma JoinedTableFound(intro: string, headers: seq<string>, rows: seq<seq<string>>, footer: string)
    requires headers != [] && rows != []
    requires forall i | 0 <= i < |headers| :: Clean(Shown(headers[i]))
    ensures HasTable(JoinSections(intro, FormatTable(headers, rows), footer))
  {
    var w := Widths(headers, rows);
    var h, rule := Line(headers, w), Separator(w);
    var tail := TableShape(headers, rows);
    var table := FormatTable(headers, rows);
    var a, rest := SectionsShape(intro, table, footer);
    TableThenRest(h, rule, tail, rest);
    var z := TrimKeepsPipe(a, h, rule, tail + rest);
    TableFound(a, headers, w, "|" + z);
  }

  lemma {:induction false} MinKeysBounds(records: seq<Record>)
    requires records != [] && MinKeys(records) >= 1
    ensures forall i | 0 <= i < |records| :: records[i] != []
  {
    if |records| > 1 {
      MinKeysBounds(records[1..]);
      assert forall i | 1 <= i < |records| :: records[i] == records[1..][i - 1];
    }
  }

  /** Whatever block a formatter builds, its table is found. */
  lemma BlockHasTable(p: Parts)
    requires PartsOk(p) && FormatBlock(p).Some?
    ensures HasTable(FormatBlock(p).value)
  {
    MinKeysBounds(p.records);
    AllKeysOk(p.records);
    var keys := AllKeys(p.records);
    ColumnsAreKeys(keys);
    var columns := ColumnOrder(keys);
    forall i | 0 <= i < |columns| ensures Clean(Shown(Headers(columns)[i])) {
      assert columns[i] in columns;
      HumanizedClean(columns[i]);
    }
    JoinedTableFound(Strip(Join("\n", p.intro)), Headers(columns), RecordRows(p.records, columns),
                     Strip(Join("\n", p.footer)));
  }

  lemma NumberedHasTable(text: string, digit: char -> bool)
    requires TryNumbered(text, digit).Some?
    ensures HasTable(TryNumbered(text, digit).value)
  {
    NumberedPartsOk(SplitLines(text), digit);
    BlockHasTable(NumberedParts(SplitLines(text), digit));
  }

  lemma PlainHasTable(text: string)
    requires TryPlain(text).Some?
    ensures HasTable(TryPlain(text).value)
  {
    PlainPartsOk(SplitLines(text));
    BlockHasTable(PlainParts(SplitLines(text)));
  }

  lemma TablesStay(text: string, digit: char -> bool)
    requires HasTable(text)
    ensures FormatResponse(text, digit) == text
  {
  }

  /** The formatter is idempotent on every text. */
  lemma FormatIdempotent(text: string, digit: char -> bool)
    ensures FormatResponse(FormatResponse(text, digit), digit) == FormatResponse(text, digit)
  {
    if Strip(text) == "" || !(TryNumbered(text, digit).Some? || TryPlain(text).Some?) {
    } else if TryNumbered(text, digit).Some? {
      NumberedHasTable(text, digit);
      TablesStay(TryNumbered(text, digit).value, digit);
    } else {
      PlainHasTable(text);
      TablesStay(TryPlain(text).value, digit);
    }
  }

  // ---------------------------------------------------------------------------------------------
  // The table inside the answer
  // ---------------------------------------------------------------------------------------------

  lemma FirstOfSplit(c: char, t: string)
    ensures SplitLine([c] + t) == if c == '\n' then [""] + SplitLine(t)
                                  else [[c] + SplitLine(t)[0]] + SplitLine(t)[1..]
  {
    assert ([c] + t)[1..] == t;
  }

  lemma LeadConcat(c: char, r: seq<string>, q: seq<string>)
    requires |r| >= 1
    ensures [[c] + (r + q)[0]] + (r + q)[1..] == [[c] + r[0]] + r[1..] + q
    ensures [""] + (r + q) == [""] + r + q
  {
  }

  lemma {:induction false} SplitConcat(a: string, b: string)
    ensures SplitLine(a + "\n" + b) == SplitLine(a) + SplitLine(b)
    decreases |a|
  {
    if a == "" {
      FirstOfSplit('\n', b);
      assert "" + "\n" + b == ['\n'] + b;
    } else {
      SplitConcat(a[1..], b);
      FirstOfSplit(a[0], a[1..] + "\n" + b);
      FirstOfSplit(a[0], a[1..]);
      LeadConcat(a[0], SplitLine(a[1..]), SplitLine(b));
      assert a + "\n" + b == [a[0]] + (a[1..] + "\n" + b) && a == [a[0]] + a[1..];
    }
  }

  predicate EndsDark(s: string) {
    s != "" && !IsSpace(s[|s| - 1])
  }

  lemma {:induction false} RStripEnds(s: string)
    ensures RStrip(s) == "" || EndsDark(RStrip(s))
  {
    if s != "" { RStripEnds(s[..|s| - 1]); }
  }

  /** What is joined after a text that ends dark ends dark too. */
  lemma DarkEnd(a: string, b: string)
    requires EndsDark(b)
    ensures EndsDark(a + b) && RStrip(a + b) == a + b
  {
  }

  lemma {:induction false} JoinEnds(sep: string, parts: seq<string>)
    requires parts != [] && EndsDark(parts[|parts| - 1])
    ensures EndsDark(Join(sep, parts))
  {
    if |parts| > 1 {
      JoinEnds(sep, parts[1..]);
      DarkEnd(parts[0] + sep, Join(sep, parts[1..]));
    }
  }

  lemma LineEndsDark(cells: seq<string>, widths: seq<nat>)
    ensures EndsDark(Line(cells, widths))
  {
    DarkEnd("| " + Join(" | ", Padded(cells, widths)), " |");
  }

  lemma TableEndsDark(headers: seq<string>, rows: seq<seq<string>>)
    requires headers != [] && rows != []
    ensures EndsDark(FormatTable(headers, rows))
  {
    var w := Widths(headers, rows);
    LineEndsDark(rows[|rows| - 1], w);
    JoinEnds("\n", Lines(rows, w));
    DarkEnd(Line(headers, w) + "\n" + Separator(w) + "\n", Join("\n", Lines(rows, w)));
  }

  function SectionLines(section: string): seq<string> {
    if section == "" then [] else SplitLine(section)
  }

  /** Sections that end dark are joined without loss, line by line. */
  lemma JoinedLines(intro: string, table: string, footer: string)
    requires EndsDark(table) && (footer == "" || EndsDark(footer))
    ensures SplitLine(JoinSections(intro, table, footer))
         == SectionLines(intro) + (SplitLine(table) + SectionLines(footer))
  {
    var tail := if footer == "" then table else table + "\n" + footer;
    TailLines(table, footer);
    assert NonEmpty([intro, table, footer]) == (if intro == "" then [] else [intro]) + NonEmpty([table, footer]) by {
      assert [intro, table, footer][1..] == [table, footer];
    }
    TailJoined(table, footer);
    if intro == "" {
      assert [] + NonEmpty([table, footer]) == NonEmpty([table, footer]);
      assert RStrip(tail) == tail;
      assert [] + SplitLine(tail) == SplitLine(tail);
    } else {
      JoinFront(intro, NonEmpty([table, footer]));
      DarkEnd(intro + "\n", tail);
      SplitConcat(intro, tail);
    }
  }

  lemma JoinFront(first: string, parts: seq<string>)
    requires parts != []
    ensures Join("\n", [first] + parts) == first + "\n" + Join("\n", parts)
  {
    assert ([first] + parts)[1..] == parts;
  }

  lemma TailJoined(table: string, footer: string)
    requires table != ""
    ensures NonEmpty([table, footer]) != []
    ensures Join("\n", NonEmpty([table, footer])) == if footer == "" then table else table + "\n" + footer
  {
    assert [table, footer][1..] == [footer] && [footer][1..] == [];
    assert NonEmpty([footer]) == if footer == "" then [] else [footer];
    assert NonEmpty([table, footer]) == [table] + NonEmpty([footer]);
    if footer != "" {
      JoinFront(table, [footer]);
    }
  }

  lemma TailLines(table: string, footer: string)
    requires EndsDark(table) && (footer == "" || EndsDark(footer))
    ensures var tail := if footer == "" then table else table + "\n" + footer;
            EndsDark(tail) && SplitLine(tail) == SplitLine(table) + SectionLines(footer)
  {
    if footer == "" {
      assert SplitLine(table) + [] == SplitLine(table);
    } else {
      DarkEnd(table + "\n", footer);
      SplitConcat(table, footer);
    }
  }

  /** The line of the answer at which the table starts. */
  function TableStart(p: Parts): nat {
    |SectionLines(Strip(Join("\n", p.intro)))|
  }

  /** The table's lines stand together, after those of the introduction. */
  predicate HoldsAt(lines: seq<string>, start: nat, table: seq<string>) {
    start + |table| <= |lines| && lines[start..start + |table|] == table
  }

  /** The line reads as a row of these cells. */
  predicate ReadsAt(lines: seq<string>, i: nat, cells: seq<string>) {
    i < |lines| && ReadRow(lines[i]) == cells
  }

  /** Row r of a table printed between an introduction and a footer. */
  lemma RowInJoined(intro: string, headers: seq<string>, rows: seq<seq<string>>, footer: string, r: nat)
    requires headers != [] && r < |rows| && forall i | 0 <= i < |rows| :: rows[i] != []
    requires footer == "" || EndsDark(footer)
    ensures ReadsAt(SplitLine(JoinSections(intro, FormatTable(headers, rows), footer)),
                    |SectionLines(intro)| + 2 + r, Readable(rows[r]))
  {
    TableEndsDark(headers, rows);
    TableRoundTrip(headers, rows);
    RowBetween(intro, FormatTable(headers, rows), footer, r);
  }

  lemma RowBetween(intro: string, table: string, footer: string, r: nat)
    requires EndsDark(table) && (footer == "" || EndsDark(footer)) && r < |ReadTable(table).1|
    ensures ReadsAt(SplitLine(JoinSections(intro, table, footer)), |SectionLines(intro)| + 2 + r, ReadTable(table).1[r])
  {
    JoinedLines(intro, table, footer);
    RowAmong(SectionLines(intro), table, SectionLines(footer), r);
  }

  lemma RowAmong(a: seq<string>, table: string, c: seq<string>, r: nat)
    requires r < |ReadTable(table).1|
    ensures ReadsAt(a + (SplitLine(table) + c), |a| + 2 + r, ReadTable(table).1[r])
  {
    MiddleHolds(a, SplitLine(table), c);
    RowsOfTable(table, a + (SplitLine(table) + c), |a|, r);
  }

  lemma MiddleHolds(a: seq<string>, b: seq<string>, c: seq<string>)
    ensures HoldsAt(a + (b + c), |a|, b)
  {
  }

  lemma ColumnOf(records: seq<Record>, columns: seq<string>, r: nat, key: string) returns (c: nat)
    requires columns == ColumnOrder(AllKeys(records)) && r < |records| && HasKey(records[r], key)
    ensures c < |columns| && columns[c] == key && forall d | 0 <= d < |columns| && columns[d] == key :: d == c
  {
    ColumnsExactly(records);
    assert SomeHasKey(records, key);
    assert key in columns;
    c :| 0 <= c < |columns| && columns[c] == key;
  }

  lemma StripEnds(s: string)
    ensures Strip(s) == "" || EndsDark(Strip(s))
  {
    RStripEnds(LStrip(s));
  }

  lemma BlockColumns(p: Parts)
    requires FormatBlock(p).Some?
    ensures p.records != [] && ColumnOrder(AllKeys(p.records)) != []
  {
    MinKeysBounds(p.records);
    ColumnsExactly(p.records);
    assert HasKey(p.records[0], p.records[0][0].0);
    assert SomeHasKey(p.records, p.records[0][0].0);
  }

  lemma RowOfText(answer: string, intro: string, records: seq<Record>, columns: seq<string>, footer: string, r: nat,
                  row: nat)
    requires row == |SectionLines(intro)| + 2 + r
    requires answer == JoinSections(intro, FormatTable(Headers(columns), RecordRows(records, columns)), footer)
    requires columns != [] && r < |records| && (footer == "" || EndsDark(footer))
    ensures ReadsAt(SplitLine(answer), row, Readable(Row(records[r], columns)))
  {
    RowInJoined(intro, Headers(columns), RecordRows(records, columns), footer, r);
  }

  lemma BlockText(p: Parts)
    requires FormatBlock(p).Some?
    ensures var columns := ColumnOrder(AllKeys(p.records));
            FormatBlock(p).value == JoinSections(Strip(Join("\n", p.intro)),
                                                 FormatTable(Headers(columns), RecordRows(p.records, columns)),
                                                 Strip(Join("\n", p.footer)))
  {
  }

  lemma AnswerParts(p: Parts) returns (intro: string, columns: seq<string>, footer: string)
    requires FormatBlock(p).Some?
    ensures columns == ColumnOrder(AllKeys(p.records)) && columns != [] && p.records != []
    ensures TableStart(p) == |SectionLines(intro)| && (footer == "" || EndsDark(footer))
    ensures FormatBlock(p).value == JoinSections(intro, FormatTable(Headers(columns), RecordRows(p.records, columns)), footer)
  {
    BlockColumns(p);
    BlockText(p);
    StripEnds(Join("\n", p.footer));
    intro, columns, footer := Strip(Join("\n", p.intro)), ColumnOrder(AllKeys(p.records)), Strip(Join("\n", p.footer));
  }

  /** The row of record r in the answer. */
  lemma RowInAnswer(p: Parts, answer: string, columns: seq<string>, r: nat, row: nat)
    requires FormatBlock(p) == Some(answer) && columns == ColumnOrder(AllKeys(p.records))
    requires r < |p.records| && row == TableStart(p) + 2 + r
    ensures ReadsAt(SplitLine(answer), row, Readable(Row(p.records[r], columns)))
  {
    var intro, cols, footer := AnswerParts(p);
    RowOfText(answer, intro, p.records, columns, footer, r, row);
  }

  /**
   Nothing of the records is lost: each key of each record has exactly one column, and there the row of
   the answer that belongs to the record reads back its value, up to outer blanks.
   */
  lemma ValuesSurvive(p: Parts, answer: string, columns: seq<string>, r: nat, row: nat, key: string) returns (c: nat)
    requires FormatBlock(p) == Some(answer) && columns == ColumnOrder(AllKeys(p.records))
    requires r < |p.records| && row == TableStart(p) + 2 + r && HasKey(p.records[r], key)
    ensures c < |columns| && columns[c] == key && forall d | 0 <= d < |columns| && columns[d] == key :: d == c
    ensures var lines := SplitLine(answer);
            && row < |lines| && |ReadRow(lines[row])| == |columns|
            && ReadRow(lines[row])[c] == Trim(Shown(Get(p.records[r], key, DASH)))
  {
    c := ColumnOf(p.records, columns, r, key);
    RowInAnswer(p, answer, columns, r, row);
  }

  lemma RowsOfTable(table: string, lines: seq<string>, start: nat, r: nat)
    requires HoldsAt(lines, start, SplitLine(table))
    requires r < |ReadTable(table).1|
    ensures ReadsAt(lines, start + 2 + r, ReadTable(table).1[r])
  {
    assert lines[start..start + |SplitLine(table)|][2 + r] == lines[start + 2 + r];
  }
}
