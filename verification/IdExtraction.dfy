/**
 Finding printed instruction and payment ids in a question: the pattern of eight digits, a
 dash, a line of business, a dash, the type letter, a dash and more digits, upper or lower
 case.

 The line of business cannot contain a dash, so the pattern never has to backtrack.
 */
module IdExtraction {
  import opened Wrappers
  import opened Text
  import opened SequenceIds

  /** The character classes of one pattern. */
  datatype Pattern = Pattern(digit: char -> bool, word: char -> bool, letter: char -> bool)

  datatype Class = DIGIT | WORD | LETTER

  predicate Is(p: Pattern, kind: Class, c: char) {
    match kind
    case DIGIT => p.digit(c)
    case WORD => p.word(c)
    case LETTER => p.letter(c)
  }

  predicate IsLobChar(c: char) {
    'A' <= c <= 'Z' || '0' <= c <= '9' || c == '_'
  }

  predicate IsLobCharAnyCase(c: char) {
    IsLobChar(c) || 'a' <= c <= 'z'
  }

  /** On ASCII the classes are the obvious ones; what else they contain does not matter. */
  predicate ForType(p: Pattern, t: EntityType) {
    forall c: char | c < '\U{80}' ::
      && (Is(p, DIGIT, c) <==> IsAsciiDigit(c))
      && (Is(p, WORD, c) <==> IsLobCharAnyCase(c))
      && (Is(p, LETTER, c) <==> if t == INSTRUCTION then c in {'I', 'i'} else c in {'P', 'p'})
  }

  function RunEnd(s: string, i: nat, p: Pattern, k: Class): (e: nat)
    requires i <= |s|
    ensures i <= e <= |s| && (forall j | i <= j < e :: Is(p, k, s[j])) && (e < |s| ==> !Is(p, k, s[e]))
    decreases |s| - i
  {
    if i < |s| && Is(p, k, s[i]) then RunEnd(s, i + 1, p, k) else i
  }

  predicate EightDigits(s: string, i: nat, p: Pattern) {
    i + 8 <= |s| && forall j | i <= j < i + 8 :: Is(p, DIGIT, s[j])
  }

  /** Where a match that starts at i ends. */
  function MatchEnd(s: string, i: nat, p: Pattern): (e: Option<nat>)
    ensures e.Some? ==> i < e.value <= |s|
  {
    if !EightDigits(s, i, p) || i + 8 == |s| || s[i + 8] != '-' then None
    else
      var w := RunEnd(s, i + 9, p, WORD);
      if w == i + 9 || w + 3 > |s| || s[w] != '-' || !Is(p, LETTER, s[w + 1]) || s[w + 2] != '-' then None
      else
        var e := RunEnd(s, w + 3, p, DIGIT);
        if e == w + 3 then None else Some(e)
  }

  /** The matches from position i on, leftmost first. */
  function Scan(s: string, i: nat, p: Pattern): seq<string>
    decreases |s| - i
  {
    if i >= |s| then []
    else
      match MatchEnd(s, i, p)
      case None => Scan(s, i + 1, p)
      case Some(e) => [s[i..e]] + Scan(s, e, p)
  }

  /** dict.fromkeys: each text once, where it first appears. */
  function Once(ids: seq<string>): seq<string> {
    if ids == [] then []
    else
      var r := Once(ids[..|ids| - 1]);
      if ids[|ids| - 1] in r then r else r + [ids[|ids| - 1]]
  }

  function ExtractIds(text: string, p: Pattern): seq<string> {
    Once(Scan(text, 0, p))
  }

  lemma {:induction false} OnceIsOnce(ids: seq<string>)
    ensures forall i, j | 0 <= i < j < |Once(ids)| :: Once(ids)[i] != Once(ids)[j]
    ensures forall x :: x in Once(ids) <==> x in ids
    decreases |ids|
  {
    if ids != [] {
      OnceIsOnce(ids[..|ids| - 1]);
      assert forall x :: x in ids <==> x in ids[..|ids| - 1] || x == ids[|ids| - 1];
    }
  }

  // ---------------------------------------------------------------------------------------------
  // A text that mentions ids
  // ---------------------------------------------------------------------------------------------

  datatype Id = Id(date: Date, lob: string, t: EntityType, n: nat)

  /** Four-digit year, and a line of business in ASCII. */
  predicate IsPrintable(id: Id) {
    IsDate(id.date) && id.date.year >= 1000 && id.lob != "" && forall i | 0 <= i < |id.lob| :: IsLobChar(id.lob[i])
  }

  function Printed(id: Id): string
    requires IsPrintable(id)
  {
    SequenceId(CounterKey(id.date, id.lob, id.t), id.n)
  }

  /** What a text mentions: an id, or one of its security events. */
  datatype Mention = Mention(id: Id, event: Option<nat>)

  function Shown(m: Mention): string
    requires IsPrintable(m.id)
  {
    if m.event.Some? then SequenceId(EventCounterKey(Printed(m.id)), m.event.value) else Printed(m.id)
  }

  /** Neither a digit nor a dash follows. */
  predicate Stops(s: string, i: nat, p: Pattern) {
    i <= |s| && (i < |s| ==> !Is(p, DIGIT, s[i]) && s[i] != '-')
  }

  /** Nothing that looks like an id starts here. */
  predicate Quiet(s: string, i: nat, k: nat, p: Pattern) {
    i <= k <= |s| && forall j | i <= j < k :: MatchEnd(s, j, p).None?
  }

  datatype Place = Place(at: nat, mention: Mention)

  function EndOf(pl: Place): nat
    requires IsPrintable(pl.mention.id)
  {
    pl.at + |Shown(pl.mention)|
  }

  /** The mention stands there, and the text goes on with neither a digit nor a dash. */
  predicate StandsAt(s: string, pl: Place, p: Pattern) {
    && IsPrintable(pl.mention.id)
    && EndOf(pl) <= |s| && s[pl.at..EndOf(pl)] == Shown(pl.mention) && Stops(s, EndOf(pl), p)
  }

  /** From position i on the text has these mentions, and between and after them nothing looks like an id. */
  predicate Mentions(s: string, i: nat, places: seq<Place>, p: Pattern)
    decreases |places|
  {
    if places == [] then Quiet(s, i, |s|, p)
    else
      && StandsAt(s, places[0], p) && Quiet(s, i, places[0].at, p)
      && Mentions(s, EndOf(places[0]), places[1..], p)
  }

  /** The ids of one type, in the order mentioned. */
  function IdsOf(places: seq<Place>, t: EntityType): seq<string>
    requires forall i | 0 <= i < |places| :: IsPrintable(places[i].mention.id)
  {
    if places == [] then []
    else (if places[0].mention.id.t == t then [Printed(places[0].mention.id)] else []) + IdsOf(places[1..], t)
  }

  // ---------------------------------------------------------------------------------------------
  // Where matches can start
  // ---------------------------------------------------------------------------------------------

  lemma {:induction false} RunEndIs(s: string, i: nat, e: nat, p: Pattern, k: Class)
    requires i <= e <= |s| && (forall j | i <= j < e :: Is(p, k, s[j])) && (e < |s| ==> !Is(p, k, s[e]))
    ensures RunEnd(s, i, p, k) == e
    decreases e - i
  {
    if i < e { RunEndIs(s, i + 1, e, p, k); }
  }

  lemma {:induction false} NothingStarts(s: string, i: nat, k: nat, p: Pattern)
    requires Quiet(s, i, k, p)
    ensures Scan(s, i, p) == Scan(s, k, p)
    decreases k - i
  {
    if i < k { NothingStarts(s, i + 1, k, p); }
  }

  /** The places of a printed id in a text; `end` is where the id ends, `stop` where its event does. */
  datatype Layout = Layout(start: nat, code: nat, end: nat, stop: nat)

  predicate FitsId(s: string, l: Layout) {
    && l.start + 10 < l.code && l.code + 2 < l.end <= |s|
    && (forall j | l.start <= j < l.start + 8 :: IsAsciiDigit(s[j]))
    && s[l.start + 8] == '-'
    && (forall j | l.start + 9 <= j < l.code - 1 :: IsLobChar(s[j]))
    && s[l.code - 1] == '-' && s[l.code] in {'I', 'P'} && s[l.code + 1] == '-'
    && (forall j | l.code + 2 <= j < l.end :: IsAsciiDigit(s[j]))
  }

  predicate FitsEvent(s: string, l: Layout) {
    l.stop == l.end < |s| + 1
    || (&& l.end + 4 < l.stop <= |s|
        && s[l.end] == '-' && s[l.end + 1] == 'S' && s[l.end + 2] == 'E' && s[l.end + 3] == '-'
        && forall j | l.end + 4 <= j < l.stop :: IsAsciiDigit(s[j]))
  }

  lemma WholeIdMatches(s: string, l: Layout, p: Pattern, t: EntityType)
    requires ForType(p, t) && FitsId(s, l) && FitsEvent(s, l) && Stops(s, l.stop, p) && s[l.code] == TypeCode(t)[0]
    ensures MatchEnd(s, l.start, p) == Some(l.end)
  {
    assert forall j | l.start <= j < l.start + 8 :: Is(p, DIGIT, s[j]);
    RunEndIs(s, l.start + 9, l.code - 1, p, WORD);
    RunEndIs(s, l.code + 2, l.end, p, DIGIT);
  }

  /** Eight digits before a dash inside the mention: only at its start, at a numeric line of business or number. */
  lemma DashAfterDigits(s: string, l: Layout, j: nat, p: Pattern, t: EntityType)
    requires ForType(p, t) && FitsId(s, l) && FitsEvent(s, l) && Stops(s, l.stop, p) && l.start <= j < l.stop
    requires EightDigits(s, j, p) && j + 8 < |s| && s[j + 8] == '-'
    ensures j == l.start || j + 8 == l.code - 1 || (j + 8 == l.end && l.stop > l.end)
  {
    assert Is(p, DIGIT, s[j + 7]);
    assert l.stop < |s| ==> !Is(p, DIGIT, s[l.stop]) && s[l.stop] != '-';
  }

  /** Of those, only the start of an id of the pattern's type begins a match. */
  lemma NoMatchInside(s: string, l: Layout, j: nat, p: Pattern, t: EntityType)
    requires ForType(p, t) && FitsId(s, l) && FitsEvent(s, l) && Stops(s, l.stop, p) && l.start <= j < l.stop
    requires s[l.code] == TypeCode(t)[0] ==> j >= l.end
    ensures MatchEnd(s, j, p) == None
  {
    if EightDigits(s, j, p) && j + 8 < |s| && s[j + 8] == '-' {
      DashAfterDigits(s, l, j, p, t);
      if j == l.start {
        NoMatchHere(s, j, l.code - 1, p);
      } else if j + 8 == l.code - 1 {
        NoMatchHere(s, j, l.code + 1, p);
      } else {
        NoMatchHere(s, j, l.end + 3, p);
      }
    }
  }

  /** After the eight digits a word that is not followed by a dash and the letter. */
  lemma NoMatchHere(s: string, j: nat, w: nat, p: Pattern)
    requires j + 9 < w < |s| - 1 && s[w] == '-' && (forall i | j + 9 <= i < w :: Is(p, WORD, s[i]))
    requires !Is(p, WORD, '-') && !Is(p, LETTER, s[w + 1])
    ensures MatchEnd(s, j, p) == None
  {
    RunEndIs(s, j + 9, w, p, WORD);
  }

  lemma ScanMention(s: string, l: Layout, p: Pattern, t: EntityType)
    requires ForType(p, t) && FitsId(s, l) && FitsEvent(s, l) && Stops(s, l.stop, p)
    ensures Scan(s, l.start, p) == (if s[l.code] == TypeCode(t)[0] then [s[l.start..l.end]] else []) + Scan(s, l.stop, p)
  {
    var from := if s[l.code] == TypeCode(t)[0] then l.end else l.start;
    forall j | from <= j < l.stop ensures MatchEnd(s, j, p) == None {
      NoMatchInside(s, l, j, p, t);
    }
    NothingStarts(s, from, l.stop, p);
    if s[l.code] == TypeCode(t)[0] {
      WholeIdMatches(s, l, p, t);
    }
  }

  // ---------------------------------------------------------------------------------------------
  // The layout of a printed id
  // ---------------------------------------------------------------------------------------------

  lemma DateIsEightDigits(d: Date)
    requires IsDate(d) && d.year >= 1000
    ensures |CompactDate(d)| == 8 && forall j | 0 <= j < 8 :: IsAsciiDigit(CompactDate(d)[j])
  {
    var y := d.year;
    assert |Decimal(y / 1000)| == 1 && |Decimal(y / 100)| == 2 && |Decimal(y / 10)| == 3 by {
      assert y / 100 / 10 == y / 1000 && y / 10 / 10 == y / 100;
    }
    DecimalReads(y);
  }

  function PartsOf(id: Id): string
    requires IsPrintable(id)
  {
    CompactDate(id.date) + ("-" + (id.lob + ("-" + (TypeCode(id.t) + ("-" + Decimal(id.n))))))
  }

  lemma PrintedParts(id: Id)
    requires IsPrintable(id)
    ensures Printed(id) == PartsOf(id)
  {
    assert CounterKey(id.date, id.lob, id.t) == CompactDate(id.date) + ("-" + (id.lob + ("-" + TypeCode(id.t))));
  }

  function LayoutOf(m: Mention): Layout
    requires IsPrintable(m.id)
  {
    var code := 8 + 1 + |m.id.lob| + 1;
    Layout(0, code, code + 2 + |Decimal(m.id.n)|, |Shown(m)|)
  }

  function Shifted(l: Layout, at: nat): Layout {
    Layout(l.start + at, l.code + at, l.end + at, l.stop + at)
  }

  lemma PartsFit(id: Id)
    requires IsPrintable(id)
    ensures var n := |PartsOf(id)|; var code := 8 + 1 + |id.lob| + 1;
            && n == code + 2 + |Decimal(id.n)| && FitsId(PartsOf(id), Layout(0, code, n, n))
            && PartsOf(id)[code] == TypeCode(id.t)[0]
  {
    var d, s, n, code := CompactDate(id.date), PartsOf(id), Decimal(id.n), 8 + 1 + |id.lob| + 1;
    DateIsEightDigits(id.date);
    DecimalReads(id.n);
    assert forall j | 0 <= j < 8 :: s[j] == d[j];
    assert forall j | 9 <= j < code - 1 :: s[j] == id.lob[j - 9];
    assert forall j | code + 2 <= j < |s| :: s[j] == n[j - (code + 2)];
  }

  lemma ShownFits(m: Mention)
    requires IsPrintable(m.id)
    ensures FitsId(Shown(m), LayoutOf(m)) && FitsEvent(Shown(m), LayoutOf(m))
    ensures Shown(m)[LayoutOf(m).code] == TypeCode(m.id.t)[0]
    ensures Shown(m)[..LayoutOf(m).end] == Printed(m.id)
  {
    PartsFit(m.id);
    PrintedParts(m.id);
    var u, s, end := PartsOf(m.id), Shown(m), LayoutOf(m).end;
    if m.event.Some? {
      var k := Decimal(m.event.value);
      DecimalReads(m.event.value);
      assert s == u + ("-SE-" + k) by {
        assert u + "-SE" + "-" + k == u + ("-SE-" + k);
      }
      assert forall j | 0 <= j < |u| :: s[j] == u[j];
      assert forall j | end + 4 <= j < |s| :: s[j] == k[j - (end + 4)];
    }
  }

  lemma FitsShifted(s: string, i: nat, u: string, l: Layout)
    requires i + |u| <= |s| && s[i..i + |u|] == u && FitsId(u, l) && FitsEvent(u, l)
    ensures FitsId(s, Shifted(l, i)) && FitsEvent(s, Shifted(l, i)) && s[l.code + i] == u[l.code]
    ensures s[l.start + i..l.end + i] == u[l.start..l.end]
  {
    assert forall j | i <= j < i + |u| :: s[j] == u[j - i];
    assert s[l.start + i..l.end + i] == s[i..i + |u|][l.start..l.end];
  }

  // ---------------------------------------------------------------------------------------------
  // What the extractor finds
  // ---------------------------------------------------------------------------------------------

  lemma PlaceFits(s: string, pl: Place, p: Pattern)
    requires StandsAt(s, pl, p)
    ensures var l := Shifted(LayoutOf(pl.mention), pl.at);
            && l.start == pl.at && l.stop == EndOf(pl) && FitsId(s, l) && FitsEvent(s, l)
            && s[l.code] == TypeCode(pl.mention.id.t)[0] && s[l.start..l.end] == Printed(pl.mention.id)
  {
    ShownFits(pl.mention);
    FitsShifted(s, pl.at, Shown(pl.mention), LayoutOf(pl.mention));
    assert Shown(pl.mention)[0..LayoutOf(pl.mention).end] == Shown(pl.mention)[..LayoutOf(pl.mention).end];
  }

  lemma ScanPlace(s: string, pl: Place, p: Pattern, t: EntityType)
    requires ForType(p, t) && StandsAt(s, pl, p)
    ensures Scan(s, pl.at, p)
         == (if pl.mention.id.t == t then [Printed(pl.mention.id)] else []) + Scan(s, EndOf(pl), p)
  {
    PlaceFits(s, pl, p);
    ScanMention(s, Shifted(LayoutOf(pl.mention), pl.at), p, t);
  }

  lemma {:induction false} ScanPlaces(s: string, i: nat, places: seq<Place>, p: Pattern, t: EntityType)
    requires ForType(p, t) && Mentions(s, i, places, p)
    requires forall k | 0 <= k < |places| :: IsPrintable(places[k].mention.id)
    ensures Scan(s, i, p) == IdsOf(places, t)
    decreases |places|
  {
    if places == [] {
      NothingStarts(s, i, |s|, p);
    } else {
      NothingStarts(s, i, places[0].at, p);
      ScanPlace(s, places[0], p, t);
      ScanPlaces(s, EndOf(places[0]), places[1..], p, t);
    }
  }

  /**
   From any text the extractor returns exactly the ids of its type that the text mentions, by
   themselves or through their security events, each once and in the order of appearance. All it
   takes is that nothing else in the text looks like an id.
   */
  lemma ExtractsExactly(s: string, places: seq<Place>, p: Pattern, t: EntityType)
    requires ForType(p, t) && Mentions(s, 0, places, p)
    requires forall k | 0 <= k < |places| :: IsPrintable(places[k].mention.id)
    ensures ExtractIds(s, p) == Once(IdsOf(places, t))
  {
    ScanPlaces(s, 0, places, p, t);
  }

  /** In particular, from one printed id or security-event id it returns that id, or its parent. */
  lemma ExtractsOwnId(id: Id, event: Option<nat>, p: Pattern)
    requires IsPrintable(id) && ForType(p, id.t)
    ensures ExtractIds(Shown(Mention(id, event)), p) == [Printed(id)]
  {
    var m := Mention(id, event);
    var places := [Place(0, m)];
    var s := Shown(m);
    assert s[0..|s|] == s && places[1..] == [];
    assert Mentions(s, |s|, places[1..], p);
    assert Mentions(s, 0, places, p);
    ExtractsExactly(s, places, p, id.t);
    assert IdsOf(places, id.t) == [Printed(id)];
    assert [Printed(id)][..0] == [];
  }

  // ---------------------------------------------------------------------------------------------
  // A condition on the text between the mentions alone
  // ---------------------------------------------------------------------------------------------

  predicate NoRun(s: string, p: Pattern) {
    forall j: nat | j < |s| :: !EightDigits(s, j, p)
  }

  predicate ClearStart(s: string, p: Pattern) {
    s != "" ==> !Is(p, DIGIT, s[0]) && s[0] != '-'
  }

  predicate ClearEnd(s: string, p: Pattern) {
    s != "" ==> !Is(p, DIGIT, s[|s| - 1])
  }

  /** A mention with the text before it. */
  datatype Piece = Piece(before: string, mention: Mention)

  /**
   No eight digits in a row between the mentions, no digit right before one, and neither a digit nor a
   dash right after one.
   */
  predicate ApartBy(pieces: seq<Piece>, after: string, p: Pattern) {
    && NoRun(after, p) && (pieces != [] ==> ClearStart(after, p))
    && forall k | 0 <= k < |pieces| ::
         && IsPrintable(pieces[k].mention.id) && NoRun(pieces[k].before, p) && ClearEnd(pieces[k].before, p)
         && (k > 0 ==> pieces[k].before != "" && ClearStart(pieces[k].before, p))
  }

  predicate AllPrintable(pieces: seq<Piece>) {
    forall k | 0 <= k < |pieces| :: IsPrintable(pieces[k].mention.id)
  }

  /** The text from piece k on. */
  function TextFrom(pieces: seq<Piece>, after: string, k: nat): string
    requires k <= |pieces| && AllPrintable(pieces)
    decreases |pieces| - k
  {
    if k == |pieces| then after
    else pieces[k].before + (Shown(pieces[k].mention) + TextFrom(pieces, after, k + 1))
  }

  /** Where the mentions from piece k on stand when that text starts at position i. */
  function PlacesFrom(pieces: seq<Piece>, i: nat, k: nat): (places: seq<Place>)
    requires k <= |pieces| && AllPrintable(pieces)
    ensures |places| == |pieces| - k && forall j | 0 <= j < |places| :: places[j].mention == pieces[k + j].mention
    decreases |pieces| - k
  {
    if k == |pieces| then []
    else
      var pl := Place(i + |pieces[k].before|, pieces[k].mention);
      [pl] + PlacesFrom(pieces, EndOf(pl), k + 1)
  }

  lemma SeparatorIsQuiet(s: string, i: nat, before: string, p: Pattern)
    requires i + |before| <= |s| && s[i..i + |before|] == before && NoRun(before, p)
    requires ClearEnd(before, p) || i + |before| == |s|
    ensures Quiet(s, i, i + |before|, p)
  {
    forall j | i <= j < i + |before| ensures MatchEnd(s, j, p) == None {
      SeparatorHasNoRun(s, i, before, j, p);
    }
  }

  lemma SeparatorHasNoRun(s: string, i: nat, before: string, j: nat, p: Pattern)
    requires i + |before| <= |s| && s[i..i + |before|] == before && NoRun(before, p)
    requires ClearEnd(before, p) || i + |before| == |s|
    requires i <= j < i + |before|
    ensures !EightDigits(s, j, p)
  {
    if j + 8 <= i + |before| {
      assert !EightDigits(before, j - i, p);
      var k :| j - i <= k < j - i + 8 && !Is(p, DIGIT, before[k]);
      assert s[i + k] == before[k];
    } else {
      assert s[i + |before| - 1] == before[|before| - 1];
    }
  }

  lemma Slices(s: string, i: nat, b: string, c: string, d: string)
    requires i <= |s| && s[i..] == b + (c + d)
    ensures |s| == i + |b| + |c| + |d|
    ensures s[i..i + |b|] == b && s[i + |b|..i + |b| + |c|] == c && s[i + |b| + |c|..] == d
  {
    assert b == s[i..][..|b|] && c == s[i..][|b|..|b| + |c|] && d == s[i..][|b| + |c|..];
  }

  lemma TextStops(pieces: seq<Piece>, after: string, k: nat, p: Pattern)
    requires 0 < k <= |pieces| && ApartBy(pieces, after, p) && AllPrintable(pieces)
    ensures Stops(TextFrom(pieces, after, k), 0, p)
  {
    if k < |pieces| {
      assert TextFrom(pieces, after, k)[0] == pieces[k].before[0];
    }
  }

  lemma StopsThere(s: string, k: nat, tail: string, p: Pattern)
    requires k <= |s| && s[k..] == tail && Stops(tail, 0, p)
    ensures Stops(s, k, p)
  {
    if k < |s| { assert s[k] == tail[0]; }
  }

  /** The first mention of a text: what is before it is quiet, it stands there, and the rest follows. */
  lemma FirstMention(s: string, i: nat, before: string, m: Mention, tail: string, p: Pattern)
    requires IsPrintable(m.id) && NoRun(before, p) && ClearEnd(before, p) && Stops(tail, 0, p)
    requires Sliced(s, i, before, Shown(m), tail)
    ensures var pl := Place(i + |before|, m);
            Quiet(s, i, pl.at, p) && StandsAt(s, pl, p) && s[EndOf(pl)..] == tail
  {
    SeparatorIsQuiet(s, i, before, p);
    SliceStands(s, Place(i + |before|, m), tail, p);
  }

  lemma SliceStands(s: string, pl: Place, tail: string, p: Pattern)
    requires IsPrintable(pl.mention.id) && EndOf(pl) <= |s| && s[pl.at..EndOf(pl)] == Shown(pl.mention)
    requires s[EndOf(pl)..] == tail && Stops(tail, 0, p)
    ensures StandsAt(s, pl, p)
  {
    StopsThere(s, EndOf(pl), tail, p);
  }

  lemma ApartAt(pieces: seq<Piece>, after: string, k: nat, p: Pattern)
    requires ApartBy(pieces, after, p) && k < |pieces|
    ensures NoRun(pieces[k].before, p) && ClearEnd(pieces[k].before, p)
  {
  }

  /** What is before, what is shown and what follows, as slices. */
  predicate Sliced(s: string, i: nat, before: string, shown: string, tail: string) {
    var at := i + |before|;
    && at + |shown| <= |s| && s[i..at] == before && s[at..at + |shown|] == shown && s[at + |shown|..] == tail
  }

  lemma TextSliced(s: string, i: nat, pieces: seq<Piece>, after: string, k: nat)
    requires AllPrintable(pieces) && k < |pieces| && i <= |s| && s[i..] == TextFrom(pieces, after, k)
    ensures Sliced(s, i, pieces[k].before, Shown(pieces[k].mention), TextFrom(pieces, after, k + 1))
  {
    Slices(s, i, pieces[k].before, Shown(pieces[k].mention), TextFrom(pieces, after, k + 1));
  }

  lemma {:induction false} TextMentions(s: string, i: nat, pieces: seq<Piece>, after: string, k: nat, p: Pattern)
    requires ApartBy(pieces, after, p) && AllPrintable(pieces) && k <= |pieces|
    requires i <= |s| && s[i..] == TextFrom(pieces, after, k)
    ensures Mentions(s, i, PlacesFrom(pieces, i, k), p)
    decreases |pieces| - k
  {
    if k == |pieces| {
      NoMentions(s, i, after, p);
    } else {
      var pl := Place(i + |pieces[k].before|, pieces[k].mention);
      TextStops(pieces, after, k + 1, p);
      ApartAt(pieces, after, k, p);
      TextSliced(s, i, pieces, after, k);
      FirstMention(s, i, pieces[k].before, pieces[k].mention, TextFrom(pieces, after, k + 1), p);
      TextMentions(s, EndOf(pl), pieces, after, k + 1, p);
      MentionFirst(s, i, pl, PlacesFrom(pieces, EndOf(pl), k + 1), p);
    }
  }

  lemma NoMentions(s: string, i: nat, after: string, p: Pattern)
    requires NoRun(after, p) && i <= |s| && s[i..] == after
    ensures Mentions(s, i, [], p)
  {
    assert |s| == i + |after|;
    SeparatorIsQuiet(s, i, after, p);
  }

  lemma MentionFirst(s: string, i: nat, pl: Place, places: seq<Place>, p: Pattern)
    requires StandsAt(s, pl, p) && Quiet(s, i, pl.at, p) && Mentions(s, EndOf(pl), places, p)
    ensures Mentions(s, i, [pl] + places, p)
  {
    assert ([pl] + places)[1..] == places;
  }

  /** It is enough that the text between the mentions has no eight digits in a row and keeps clear of them. */
  lemma ExtractsFromText(pieces: seq<Piece>, after: string, p: Pattern, t: EntityType)
    requires ForType(p, t) && ApartBy(pieces, after, p) && AllPrintable(pieces)
    ensures ExtractIds(TextFrom(pieces, after, 0), p) == Once(IdsOf(PlacesFrom(pieces, 0, 0), t))
  {
    TextMentions(TextFrom(pieces, after, 0), 0, pieces, after, 0, p);
    ExtractsExactly(TextFrom(pieces, after, 0), PlacesFrom(pieces, 0, 0), p, t);
  }
}
