/**
 The markdown table printer, and a reader for its rows: split at pipes that no backslash
 precedes, trim, unescape (GitHub Flavored Markdown Spec, section 4.10).

 A cell is the text of its value; the empty text stands for None and for "".
 */
module MarkdownTable {

  const DASH := "\U{2014}"

  function EscapePipes(s: string): string {
    if s == "" then "" else (if s[0] == '|' then "\\|" else [s[0]]) + EscapePipes(s[1..])
  }

  function Flattened(s: string): string {
    seq(|s|, i requires 0 <= i < |s| => if s[i] == '\n' then ' ' else s[i])
  }

  /** The text a cell shows. */
  function Shown(cell: string): string {
    if cell == "" then DASH else Flattened(cell)
  }

  function EscapeCell(cell: string): string {
    EscapePipes(Shown(cell))
  }

  function Spaces(n: nat): string {
    seq(n, _ => ' ')
  }

  function Dashes(n: nat): string {
    seq(n, _ => '-')
  }

  function LeftJustified(s: string, width: nat): string {
    if |s| >= width then s else s + Spaces(width - |s|)
  }

  function Join(sep: string, parts: seq<string>): string {
    if parts == [] then "" else if |parts| == 1 then parts[0] else parts[0] + sep + Join(sep, parts[1..])
  }

  function Max(a: nat, b: nat): nat { if a >= b then a else b }

  function Padded(cells: seq<string>, widths: seq<nat>): seq<string> {
    seq(|cells|, i requires 0 <= i < |cells| =>
      LeftJustified(EscapeCell(cells[i]), if i < |widths| then widths[i] else |EscapeCell(cells[i])|))
  }

  function Line(cells: seq<string>, widths: seq<nat>): string {
    "| " + Join(" | ", Padded(cells, widths)) + " |"
  }

  function Rules(widths: seq<nat>): seq<string> {
    seq(|widths|, i requires 0 <= i < |widths| => Dashes(Max(3, widths[i])))
  }

  function Separator(widths: seq<nat>): string {
    "| " + Join(" | ", Rules(widths)) + " |"
  }

  function Lines(rows: seq<seq<string>>, widths: seq<nat>): seq<string> {
    seq(|rows|, i requires 0 <= i < |rows| => Line(rows[i], widths))
  }

  /** The table with given column widths. */
  function Rendered(headers: seq<string>, rows: seq<seq<string>>, widths: seq<nat>): string {
    Line(headers, widths) + "\n" + Separator(widths) + "\n" + Join("\n", Lines(rows, widths))
  }

  /** Widest cell of each header's column. */
  function Widths(headers: seq<string>, rows: seq<seq<string>>): (w: seq<nat>)
    ensures |w| == |headers|
  {
    if rows == [] then seq(|headers|, i requires 0 <= i < |headers| => |EscapeCell(headers[i])|)
    else
      var w := Widths(headers, rows[..|rows| - 1]);
      var row := rows[|rows| - 1];
      seq(|headers|, i requires 0 <= i < |headers| =>
        if i < |row| then Max(w[i], |EscapeCell(row[i])|) else w[i])
  }

  function FormatTable(headers: seq<string>, rows: seq<seq<string>>): string {
    if headers == [] then "" else if rows == [] then "_No rows._" else Rendered(headers, rows, Widths(headers, rows))
  }

  /** The printer as written: a widths list raised cell by cell, then the lines. */
  method FormatMarkdownTable(headers: seq<string>, rows: seq<seq<string>>) returns (text: string)
    ensures text == FormatTable(headers, rows)
  {
    if headers == [] {
      return "";
    }
    if rows == [] {
      return "_No rows._";
    }
    var widths := seq(|headers|, i requires 0 <= i < |headers| => |EscapeCell(headers[i])|);
    for r := 0 to |rows|
      invariant widths == Widths(headers, rows[..r])
    {
      ghost var before := widths;
      for index := 0 to |rows[r]|
        invariant |widths| == |headers|
        invariant forall i | 0 <= i < |headers| ::
                    widths[i] == if i < index then Max(before[i], |EscapeCell(rows[r][i])|) else before[i]
      {
        if index < |widths| {
          widths := widths[index := Max(widths[index], |EscapeCell(rows[r][index])|)];
        }
      }
      assert rows[..r + 1][..r] == rows[..r];
      assert widths == Widths(headers, rows[..r + 1]);
    }
    assert rows[..|rows|] == rows;
    text := Rendered(headers, rows, widths);
  }

  /** A column's width is the length of its widest cell: none is wider, and one is that wide. */
  lemma {:induction false} WidthIsMaximum(headers: seq<string>, rows: seq<seq<string>>, i: nat)
    requires i < |headers|
    ensures var w := Widths(headers, rows)[i];
            && |EscapeCell(headers[i])| <= w
            && (forall r | 0 <= r < |rows| && i < |rows[r]| :: |EscapeCell(rows[r][i])| <= w)
            && (w == |EscapeCell(headers[i])|
                || exists r :: 0 <= r < |rows| && i < |rows[r]| && w == |EscapeCell(rows[r][i])|)
    decreases |rows|
  {
    if rows != [] {
      var n := |rows| - 1;
      WidthIsMaximum(headers, rows[..n], i);
      var w := Widths(headers, rows[..n])[i];
      if w != |EscapeCell(headers[i])| {
        var r :| 0 <= r < n && i < |rows[..n][r]| && w == |EscapeCell(rows[..n][r][i])|;
        assert rows[r] == rows[..n][r];
      }
      forall r | 0 <= r < |rows| && i < |rows[r]| ensures |EscapeCell(rows[r][i])| <= Widths(headers, rows)[i] {
        assert r < n ==> rows[..n][r] == rows[r];
      }
    }
  }

  // ---------------------------------------------------------------------------------------------
  // Reading a row back
  // ---------------------------------------------------------------------------------------------

  /** Pieces between unescaped pipes; `escaped` says that a backslash stands before s. */
  function SplitCells(s: string, escaped: bool): (r: seq<string>)
    ensures |r| >= 1
  {
    if s == "" then [""]
    else if s[0] == '|' && !escaped then [""] + SplitCells(s[1..], false)
    else
      var r := SplitCells(s[1..], s[0] == '\\');
      [[s[0]] + r[0]] + r[1..]
  }

  function TrimLeft(s: string): string {
    if s != "" && s[0] == ' ' then TrimLeft(s[1..]) else s
  }

  function TrimRight(s: string): string {
    if s != "" && s[|s| - 1] == ' ' then TrimRight(s[..|s| - 1]) else s
  }

  function Trim(s: string): string {
    TrimRight(TrimLeft(s))
  }

  function Unescape(s: string): string {
    if s == "" then ""
    else if |s| >= 2 && s[0] == '\\' && s[1] == '|' then "|" + Unescape(s[2..])
    else [s[0]] + Unescape(s[1..])
  }

  /** The cells between the outer pipes of a row. */
  function ReadRow(line: string): seq<string> {
    var pieces := SplitCells(line, false);
    if |pieces| < 2 then []
    else seq(|pieces| - 2, i requires 0 <= i < |pieces| - 2 => Unescape(Trim(pieces[i + 1])))
  }

  /** What a reader can get back of a row: the text shown, without outer blanks. */
  function Readable(cells: seq<string>): seq<string> {
    seq(|cells|, i requires 0 <= i < |cells| => Trim(Shown(cells[i])))
  }

  lemma {:induction false} UnescapeEscape(s: string)
    ensures Unescape(EscapePipes(s)) == s
  {
    if s != "" {
      UnescapeEscape(s[1..]);
      var rest := EscapePipes(s[1..]);
      assert rest != "" ==> rest[0] != '|';
      if s[0] == '|' {
        assert ("\\|" + rest)[2..] == rest;
      } else {
        assert ([s[0]] + rest)[1..] == rest;
      }
      assert s == [s[0]] + s[1..];
    }
  }

  lemma {:induction false} EscapeConcat(a: string, b: string)
    ensures EscapePipes(a + b) == EscapePipes(a) + EscapePipes(b)
    decreases |a|
  {
    if a == "" {
      assert a + b == b;
    } else {
      assert (a + b)[1..] == a[1..] + b;
      EscapeConcat(a[1..], b);
    }
  }

  lemma {:induction false} TrimLeftEscape(s: string)
    ensures TrimLeft(EscapePipes(s)) == EscapePipes(TrimLeft(s))
  {
    if s != "" && s[0] == ' ' {
      TrimLeftEscape(s[1..]);
      assert ([s[0]] + EscapePipes(s[1..]))[1..] == EscapePipes(s[1..]);
    }
  }

  lemma {:induction false} TrimRightEscape(s: string)
    ensures TrimRight(EscapePipes(s)) == EscapePipes(TrimRight(s))
    decreases |s|
  {
    if s != "" {
      var n := |s| - 1;
      assert s == s[..n] + [s[n]];
      EscapeConcat(s[..n], [s[n]]);
      assert EscapePipes([s[n]]) == if s[n] == '|' then "\\|" else [s[n]];
      if s[n] == ' ' {
        TrimRightEscape(s[..n]);
        assert (EscapePipes(s[..n]) + " ")[..|EscapePipes(s[..n])|] == EscapePipes(s[..n]);
      }
    }
  }

  lemma {:induction false} TrimRightSpaces(s: string, n: nat)
    ensures TrimRight(s + Spaces(n)) == TrimRight(s)
    decreases n
  {
    if n == 0 {
      assert s + Spaces(0) == s;
    } else {
      assert (s + Spaces(n))[..|s| + n - 1] == s + Spaces(n - 1);
      TrimRightSpaces(s, n - 1);
    }
  }

  lemma {:induction false} TrimLeftConcat(s: string, n: nat)
    ensures TrimLeft(s + Spaces(n)) == if TrimLeft(s) == "" then TrimLeft(Spaces(n)) else TrimLeft(s) + Spaces(n)
    decreases |s|
  {
    if s == "" {
      assert s + Spaces(n) == Spaces(n);
    } else if s[0] == ' ' {
      assert (s + Spaces(n))[1..] == s[1..] + Spaces(n);
      TrimLeftConcat(s[1..], n);
    }
  }

  lemma {:induction false} TrimLeftBlank(n: nat)
    ensures TrimLeft(Spaces(n)) == ""
  {
    if n > 0 {
      assert Spaces(n)[1..] == Spaces(n - 1);
      TrimLeftBlank(n - 1);
    }
  }

  lemma TrimPadding(s: string, n: nat)
    ensures Trim(" " + (s + Spaces(n)) + " ") == Trim(s)
  {
    var t := " " + (s + Spaces(n)) + " ";
    assert t[1..] == s + Spaces(n + 1);
    TrimLeftConcat(s, n + 1);
    TrimLeftBlank(n + 1);
    TrimRightSpaces(TrimLeft(s), n + 1);
  }

  /** The pieces r with a put before the first of them. */
  function Lead(a: string, r: seq<string>): seq<string>
    requires |r| >= 1
  {
    [a + r[0]] + r[1..]
  }

  lemma LeadTwice(a: string, b: string, r: seq<string>)
    requires |r| >= 1
    ensures Lead(a, Lead(b, r)) == Lead(a + b, r)
  {
    assert a + (b + r[0]) == a + b + r[0];
  }

  /** An ordinary character joins the first piece. */
  lemma CharJoins(c: char, tail: string, escaped: bool)
    requires c != '|' || escaped
    ensures SplitCells([c] + tail, escaped) == Lead([c], SplitCells(tail, c == '\\'))
  {
    assert ([c] + tail)[1..] == tail;
  }

  lemma JoinsTwice(c: char, a: string, rest: string, r: seq<string>, escaped: bool)
    requires c != '|' || escaped
    requires |r| >= 1 && SplitCells(a + rest, c == '\\') == Lead(a, r)
    ensures SplitCells([c] + a + rest, escaped) == Lead([c] + a, r)
  {
    CharJoins(c, a + rest, escaped);
    LeadTwice([c], a, r);
    assert [c] + a + rest == [c] + (a + rest);
  }

  /** Inside escaped text and the blank after it no pipe splits. */
  lemma {:induction false} EscapedDoesNotSplit(s: string, rest: string, escaped: bool)
    ensures SplitCells(EscapePipes(s) + " " + rest, escaped) == Lead(EscapePipes(s) + " ", SplitCells(rest, false))
    decreases |s|
  {
    var r := SplitCells(rest, false);
    if s == "" {
      CharJoins(' ', rest, escaped);
      assert "" + " " == [' '];
    } else {
      var a := EscapePipes(s[1..]) + " ";
      EscapedDoesNotSplit(s[1..], rest, s[0] == '\\');
      if s[0] == '|' {
        JoinsTwice('|', a, rest, r, true);
        JoinsTwice('\\', ['|'] + a, rest, r, escaped);
        assert EscapePipes(s) + " " == ['\\'] + (['|'] + a);
      } else {
        JoinsTwice(s[0], a, rest, r, escaped);
        assert EscapePipes(s) + " " == [s[0]] + a;
      }
    }
  }

  lemma {:induction false} SpacesDoNotSplit(n: nat, rest: string)
    ensures SplitCells(Spaces(n) + rest, false) == var r := SplitCells(rest, false); [Spaces(n) + r[0]] + r[1..]
    decreases n
  {
    var r := SplitCells(rest, false);
    if n == 0 {
      assert Spaces(0) + rest == rest;
      assert Spaces(0) + r[0] == r[0];
      assert r == [r[0]] + r[1..];
    } else {
      assert (Spaces(n) + rest)[1..] == Spaces(n - 1) + rest;
      SpacesDoNotSplit(n - 1, rest);
      assert [' '] + (Spaces(n - 1) + r[0]) == Spaces(n) + r[0];
    }
  }

  /** One cell with its blanks, up to the pipe that ends it. */
  lemma CellSplits(s: string, n: nat, rest: string)
    ensures SplitCells(" " + (EscapePipes(s) + Spaces(n)) + " |" + rest, false)
         == [" " + (EscapePipes(s) + Spaces(n)) + " "] + SplitCells(rest, false)
  {
    var tail := SplitCells(rest, false);
    var bar := "|" + rest;
    assert bar[1..] == rest;
    assert SplitCells(bar, false) == [""] + tail;
    SpacesDoNotSplit(n, bar);
    var blanks := Spaces(n) + bar;
    EscapedDoesNotSplit(s, blanks, false);
    var body := EscapePipes(s) + " " + blanks;
    assert (" " + body)[1..] == body;
    assert " " + (EscapePipes(s) + Spaces(n)) + " |" + rest == " " + body by {
      assert Spaces(n) + " " == " " + Spaces(n);
      assert (EscapePipes(s) + Spaces(n)) + " |" + rest == EscapePipes(s) + (Spaces(n) + " ") + bar;
      assert body == EscapePipes(s) + (" " + Spaces(n)) + bar;
    }
    assert EscapePipes(s) + " " + (Spaces(n) + "") == EscapePipes(s) + Spaces(n) + " " by {
      assert Spaces(n) + " " == " " + Spaces(n);
      assert Spaces(n) + "" == Spaces(n);
      assert EscapePipes(s) + " " + Spaces(n) == EscapePipes(s) + (" " + Spaces(n));
      assert EscapePipes(s) + Spaces(n) + " " == EscapePipes(s) + (Spaces(n) + " ");
    }
    assert " " + (EscapePipes(s) + Spaces(n)) + " " == [' '] + (EscapePipes(s) + Spaces(n) + " ");
  }

  /** The row after its first pipe: each padded cell followed by a pipe. */
  function Tail(parts: seq<string>): string {
    if parts == [] then "" else " " + parts[0] + " |" + Tail(parts[1..])
  }

  lemma {:induction false} JoinIsTail(parts: seq<string>)
    requires parts != []
    ensures " " + Join(" | ", parts) + " |" == Tail(parts)
  {
    if |parts| > 1 {
      JoinIsTail(parts[1..]);
      var j := Join(" | ", parts[1..]);
      assert " " + (parts[0] + " | " + j) + " |" == " " + parts[0] + " |" + (" " + j + " |");
    } else {
      assert Tail(parts[1..]) == "";
      assert " " + parts[0] + " |" + "" == " " + parts[0] + " |";
    }
  }

  /** A padded cell is its escaped text and some blanks. */
  lemma PaddedCell(cells: seq<string>, widths: seq<nat>, i: nat) returns (n: nat)
    requires i < |cells|
    ensures Padded(cells, widths)[i] == EscapePipes(Shown(cells[i])) + Spaces(n)
  {
    var e := EscapeCell(cells[i]);
    var width := if i < |widths| then widths[i] else |e|;
    n := if |e| >= width then 0 else width - |e|;
    assert e + Spaces(0) == e;
  }

  predicate IsPadded(part: string, cell: string) {
    Unescape(Trim(" " + part + " ")) == Trim(Shown(cell))
  }

  lemma PaddedReads(cell: string, n: nat)
    ensures IsPadded(EscapePipes(Shown(cell)) + Spaces(n), cell)
  {
    var s := Shown(cell);
    TrimPadding(EscapePipes(s), n);
    TrimLeftEscape(s);
    TrimRightEscape(TrimLeft(s));
    UnescapeEscape(Trim(s));
  }

  /** Pieces that read as the cells from number `from` on, and one more piece. */
  predicate ReadAs(p: seq<string>, cells: seq<string>, from: nat) {
    && from <= |cells| && |p| == |cells| - from + 1
    && forall i | from <= i < |cells| :: Unescape(Trim(p[i - from])) == Trim(Shown(cells[i]))
  }

  lemma ReadOneMore(piece: string, p: seq<string>, cells: seq<string>, from: nat)
    requires from < |cells| && ReadAs(p, cells, from + 1) && Unescape(Trim(piece)) == Trim(Shown(cells[from]))
    ensures ReadAs([piece] + p, cells, from)
  {
    var q := [piece] + p;
    forall i | from <= i < |cells| ensures Unescape(Trim(q[i - from])) == Trim(Shown(cells[i])) {
      assert i > from ==> q[i - from] == p[i - (from + 1)];
    }
  }

  lemma {:induction false} TailSplits(cells: seq<string>, widths: seq<nat>, from: nat)
    requires from <= |cells|
    ensures ReadAs(SplitCells(Tail(Padded(cells, widths)[from..]), false), cells, from)
    decreases |cells| - from
  {
    var parts := Padded(cells, widths);
    if from < |cells| {
      var n := PaddedCell(cells, widths, from);
      TailSplits(cells, widths, from + 1);
      var rest := Tail(parts[from + 1..]);
      CellSplits(Shown(cells[from]), n, rest);
      PaddedReads(cells[from], n);
      TailStep(parts, from);
      ReadOneMore(" " + parts[from] + " ", SplitCells(rest, false), cells, from);
    }
  }

  lemma TailStep(parts: seq<string>, from: nat)
    requires from < |parts|
    ensures Tail(parts[from..]) == " " + parts[from] + " |" + Tail(parts[from + 1..])
  {
    assert parts[from..][1..] == parts[from + 1..];
  }

  lemma RowReads(line: string, p: seq<string>, cells: seq<string>)
    requires line != "" && line[0] == '|' && SplitCells(line[1..], false) == p && ReadAs(p, cells, 0)
    ensures cells != [] ==> ReadRow(line) == Readable(cells)
  {
    assert SplitCells(line, false) == [""] + p;
    forall i | 0 <= i < |cells| ensures |ReadRow(line)| == |cells| && ReadRow(line)[i] == Trim(Shown(cells[i])) {
      assert SplitCells(line, false)[i + 1] == p[i - 0];
    }
  }

  /**
   Reading a printed row gives back what each cell shows, up to outer blanks, for any cells and any
   widths. The one exception is the row without cells, which reads as one empty cell.
   */
  lemma RowRoundTrip(cells: seq<string>, widths: seq<nat>)
    ensures ReadRow(Line(cells, widths)) == if cells == [] then [""] else Readable(cells)
  {
    var parts := Padded(cells, widths);
    var line := Line(cells, widths);
    if cells == [] {
      EmptyRow(widths);
    } else {
      JoinIsTail(parts);
      assert line == "|" + Tail(parts) by {
        assert "| " == "|" + " ";
        assert line == "|" + (" " + Join(" | ", parts) + " |");
      }
      assert line[1..] == Tail(parts) && parts[0..] == parts;
      TailSplits(cells, widths, 0);
      RowReads(line, SplitCells(Tail(parts), false), cells);
    }
  }

  lemma EmptyRow(widths: seq<nat>)
    ensures ReadRow(Line([], widths)) == [""]
  {
    assert Padded([], widths) == [];
    assert Line([], widths) == "|" + (Spaces(2) + "|");
    assert "|"[1..] == "";
    assert SplitCells("|", false) == ["", ""];
    SpacesDoNotSplit(2, "|");
    assert ("|" + (Spaces(2) + "|"))[1..] == Spaces(2) + "|";
    assert SplitCells(Line([], widths), false) == ["", Spaces(2) + "", ""];
    assert Spaces(2) + "" == Spaces(2);
    TrimLeftBlank(2);
    var pieces := SplitCells(Line([], widths), false);
    assert |pieces| == 3 && pieces[1] == Spaces(2);
    assert TrimRight("") == "" && Trim(pieces[1]) == "" && Unescape("") == "";
    assert ReadRow(Line([], widths)) == [Unescape(Trim(pieces[1]))];
  }

  // ---------------------------------------------------------------------------------------------
  // Reading a whole table back
  // ---------------------------------------------------------------------------------------------

  function SplitLine(text: string): (r: seq<string>)
    ensures |r| >= 1
  {
    if text == "" then [""]
    else if text[0] == '\n' then [""] + SplitLine(text[1..])
    else
      var r := SplitLine(text[1..]);
      [[text[0]] + r[0]] + r[1..]
  }

  function ReadTable(text: string): (seq<string>, seq<seq<string>>) {
    var lines := SplitLine(text);
    if |lines| < 2 then ([], [])
    else (ReadRow(lines[0]), seq(|lines| - 2, i requires 0 <= i < |lines| - 2 => ReadRow(lines[i + 2])))
  }

  lemma {:induction false} LineSplitsOff(line: string, rest: string)
    requires '\n' !in line
    ensures SplitLine(line + "\n" + rest) == [line] + SplitLine(rest)
    decreases |line|
  {
    var text := line + "\n" + rest;
    if line == "" {
      assert text == "\n" + rest && text[1..] == rest;
    } else {
      assert text[1..] == line[1..] + "\n" + rest;
      LineSplitsOff(line[1..], rest);
      assert line == [line[0]] + line[1..];
    }
  }

  lemma {:induction false} LastLine(line: string)
    requires '\n' !in line
    ensures SplitLine(line) == [line]
  {
    if line != "" {
      LastLine(line[1..]);
      assert line == [line[0]] + line[1..];
    }
  }

  lemma {:induction false} JoinedLinesSplit(lines: seq<string>)
    requires lines != [] && forall i | 0 <= i < |lines| :: '\n' !in lines[i]
    ensures SplitLine(Join("\n", lines)) == lines
  {
    if |lines| == 1 {
      LastLine(lines[0]);
    } else {
      JoinedLinesSplit(lines[1..]);
      LineSplitsOff(lines[0], Join("\n", lines[1..]));
    }
  }

  /** Which characters a line is made of. */
  predicate Over(s: string, ok: char -> bool) {
    forall i | 0 <= i < |s| :: ok(s[i])
  }

  lemma {:induction false} JoinOver(sep: string, parts: seq<string>, ok: char -> bool)
    requires Over(sep, ok) && forall i | 0 <= i < |parts| :: Over(parts[i], ok)
    ensures Over(Join(sep, parts), ok)
  {
    if |parts| > 1 {
      JoinOver(sep, parts[1..], ok);
    }
  }

  lemma {:induction false} EscapeOver(s: string, ok: char -> bool)
    requires Over(s, ok) && ok('\\')
    ensures Over(EscapePipes(s), ok)
  {
    if s != "" {
      EscapeOver(s[1..], ok);
    }
  }

  /** A line contains only what its shown cells contain, backslashes, pipes and blanks. */
  lemma LineOver(cells: seq<string>, widths: seq<nat>, ok: char -> bool)
    requires ok('\\') && ok('|') && ok(' ') && forall i | 0 <= i < |cells| :: Over(Shown(cells[i]), ok)
    ensures Over(Line(cells, widths), ok)
  {
    var parts := Padded(cells, widths);
    forall i | 0 <= i < |parts| ensures Over(parts[i], ok) {
      var n := PaddedCell(cells, widths, i);
      EscapeOver(Shown(cells[i]), ok);
    }
    JoinOver(" | ", parts, ok);
  }

  lemma SeparatorOver(widths: seq<nat>, ok: char -> bool)
    requires ok('-') && ok('|') && ok(' ')
    ensures Over(Separator(widths), ok)
  {
    JoinOver(" | ", Rules(widths), ok);
  }

  function NotNewline(c: char): bool { c != '\n' }

  lemma LineHasNoNewline(cells: seq<string>, widths: seq<nat>)
    ensures '\n' !in Line(cells, widths)
  {
    LineOver(cells, widths, NotNewline);
  }

  lemma TwoLinesSplitOff(header: string, rule: string, body: string)
    requires '\n' !in header && '\n' !in rule
    ensures SplitLine(header + "\n" + (rule + "\n" + body)) == [header] + ([rule] + SplitLine(body))
  {
    LineSplitsOff(rule, body);
    LineSplitsOff(header, rule + "\n" + body);
  }

  lemma Regroup(a: string, b: string, c: string)
    ensures a + "\n" + b + "\n" + c == a + "\n" + (b + "\n" + c)
  {
  }

  lemma TextLines(header: string, rule: string, lines: seq<string>)
    requires '\n' !in header && '\n' !in rule && lines != []
    requires forall i | 0 <= i < |lines| :: '\n' !in lines[i]
    ensures SplitLine(header + "\n" + rule + "\n" + Join("\n", lines)) == [header] + ([rule] + lines)
  {
    JoinedLinesSplit(lines);
    TwoLinesSplitOff(header, rule, Join("\n", lines));
    Regroup(header, rule, Join("\n", lines));
  }

  lemma TableLines(headers: seq<string>, rows: seq<seq<string>>)
    requires headers != [] && rows != []
    ensures var w := Widths(headers, rows);
            SplitLine(FormatTable(headers, rows)) == [Line(headers, w)] + ([Separator(w)] + Lines(rows, w))
  {
    var w := Widths(headers, rows);
    LineHasNoNewline(headers, w);
    SeparatorOver(w, NotNewline);
    forall r | 0 <= r < |rows| ensures '\n' !in Lines(rows, w)[r] {
      LineHasNoNewline(rows[r], w);
    }
    TextLines(Line(headers, w), Separator(w), Lines(rows, w));
  }

  lemma LinesRead(text: string, header: string, rule: string, lines: seq<string>)
    requires SplitLine(text) == [header] + ([rule] + lines)
    ensures ReadTable(text).0 == ReadRow(header) && |ReadTable(text).1| == |lines|
    ensures forall r | 0 <= r < |lines| :: ReadTable(text).1[r] == ReadRow(lines[r])
  {
    forall r | 0 <= r < |lines| ensures SplitLine(text)[r + 2] == lines[r] {
    }
  }

  /** Printing any table and reading it gives the header and every row back, up to outer blanks. */
  lemma TableRoundTrip(headers: seq<string>, rows: seq<seq<string>>)
    requires headers != [] && rows != [] && forall r | 0 <= r < |rows| :: rows[r] != []
    ensures ReadTable(FormatTable(headers, rows)).0 == Readable(headers)
    ensures |ReadTable(FormatTable(headers, rows)).1| == |rows|
    ensures forall r | 0 <= r < |rows| :: ReadTable(FormatTable(headers, rows)).1[r] == Readable(rows[r])
  {
    var w := Widths(headers, rows);
    TableLines(headers, rows);
    RowRoundTrip(headers, w);
    LinesRead(FormatTable(headers, rows), Line(headers, w), Separator(w), Lines(rows, w));
    forall r | 0 <= r < |rows| ensures ReadTable(FormatTable(headers, rows)).1[r] == Readable(rows[r]) {
      RowRoundTrip(rows[r], w);
    }
  }

  // ---------------------------------------------------------------------------------------------
  // The columns line up
  // ---------------------------------------------------------------------------------------------

  /** Texts of the same lengths join to texts of the same length. */
  lemma {:induction false} JoinLength(sep: string, a: seq<string>, b: seq<string>)
    requires |a| == |b| && forall i | 0 <= i < |a| :: |a[i]| == |b[i]|
    ensures |Join(sep, a)| == |Join(sep, b)|
  {
    if |a| > 1 { JoinLength(sep, a[1..], b[1..]); }
  }

  /** The cell at column i takes up exactly the column. */
  lemma PaddedWidth(cells: seq<string>, widths: seq<nat>, i: nat)
    requires i < |cells| && i < |widths| && |EscapeCell(cells[i])| <= widths[i]
    ensures |Padded(cells, widths)[i]| == widths[i]
    ensures Padded(cells, widths)[i][..|EscapeCell(cells[i])|] == EscapeCell(cells[i])
  {
  }

  lemma SameLength(a: seq<string>, b: seq<string>, widths: seq<nat>)
    requires |a| == |b| == |widths|
    requires forall i | 0 <= i < |a| :: |EscapeCell(a[i])| <= widths[i] && |EscapeCell(b[i])| <= widths[i]
    ensures |Line(a, widths)| == |Line(b, widths)|
  {
    forall i | 0 <= i < |a| ensures |Padded(a, widths)[i]| == |Padded(b, widths)[i]| {
      PaddedWidth(a, widths, i);
      PaddedWidth(b, widths, i);
    }
    JoinLength(" | ", Padded(a, widths), Padded(b, widths));
  }

  lemma RuleLength(a: seq<string>, widths: seq<nat>)
    requires |a| == |widths| && forall i | 0 <= i < |a| :: |EscapeCell(a[i])| <= widths[i] && widths[i] >= 3
    ensures |Line(a, widths)| == |Separator(widths)|
  {
    forall i | 0 <= i < |a| ensures |Padded(a, widths)[i]| == |Rules(widths)[i]| {
      PaddedWidth(a, widths, i);
    }
    JoinLength(" | ", Padded(a, widths), Rules(widths));
  }

  /** Every full row of a table is as long as its header, and so is the rule unless a column is narrower than three. */
  lemma RowsLineUp(headers: seq<string>, rows: seq<seq<string>>, r: nat, widths: seq<nat>)
    requires r < |rows| && |rows[r]| == |headers| && widths == Widths(headers, rows)
    ensures |Line(rows[r], widths)| == |Line(headers, widths)|
    ensures (forall i | 0 <= i < |widths| :: widths[i] >= 3) ==> |Separator(widths)| == |Line(headers, widths)|
  {
    forall i | 0 <= i < |headers|
      ensures |EscapeCell(headers[i])| <= widths[i] && |EscapeCell(rows[r][i])| <= widths[i]
    {
      WidthIsMaximum(headers, rows, i);
    }
    SameLength(headers, rows[r], widths);
    if forall i | 0 <= i < |widths| :: widths[i] >= 3 { RuleLength(headers, widths); }
  }
}
