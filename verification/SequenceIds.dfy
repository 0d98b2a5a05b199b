/**
 Identifiers: counters that only go up, ids printed from them, and the extractor that finds
 them again in a question.

 An increment is one atomic step of the store, so concurrent requests are a sequence of such
 steps in any order. A request can fail before its increment or after it.
 */
module SequenceIds {
  import opened Wrappers
  import opened Text

  datatype EntityType = INSTRUCTION | PAYMENT

  datatype Date = Date(year: nat, month: nat, day: nat)

  predicate IsDate(d: Date) {
    1 <= d.year <= 9999 && 1 <= d.month <= 12 && 1 <= d.day <= 31
  }

  function TwoDigits(n: nat): string
    requires n < 100
  {
    [Digit(n / 10), Digit(n % 10)]
  }

  /** strftime("%Y%m%d"), with years below 1000 not padded. */
  function CompactDate(d: Date): string
    requires IsDate(d)
  {
    Decimal(d.year) + TwoDigits(d.month) + TwoDigits(d.day)
  }

  function TypeCode(t: EntityType): string {
    if t == INSTRUCTION then "I" else "P"
  }

  function CounterKey(d: Date, lob: string, t: EntityType): string
    requires IsDate(d)
  {
    CompactDate(d) + "-" + lob + "-" + TypeCode(t)
  }

  function EventCounterKey(resource: string): string {
    resource + "-SE"
  }

  function SequenceId(key: string, n: nat): string {
    key + "-" + Decimal(n)
  }

  // ---------------------------------------------------------------------------------------------
  // Requests, and the validators
  // ---------------------------------------------------------------------------------------------

  datatype Request =
    | Sequence(date: Date, owningLob: string, entityType: EntityType)
    | SecurityEvent(resource: string)

  /** The two character tables the validator uses. */
  datatype Unicode = Unicode(upper: string -> string, alnum: char -> bool)

  function ValidLob(value: string, u: Unicode): Option<string> {
    var normalized := u.upper(Strip(value));
    if normalized == "" || exists i | 0 <= i < |normalized| :: !(u.alnum(normalized[i]) || normalized[i] == '_')
    then None else Some(normalized)
  }

  function ValidResource(value: string): Option<string> {
    if Strip(value) == "" then None else Some(Strip(value))
  }

  /** The counter a request uses, if it is accepted. */
  function KeyOf(r: Request, u: Unicode): Option<string> {
    match r
    case Sequence(date, lob, t) =>
      if IsDate(date) && ValidLob(lob, u).Some? then Some(CounterKey(date, ValidLob(lob, u).value, t)) else None
    case SecurityEvent(resource) =>
      if ValidResource(resource).Some? then Some(EventCounterKey(ValidResource(resource).value)) else None
  }

  datatype Fault = NoFault | BeforeIncrement | AfterIncrement

  datatype Reply =
    | Issued(key: string, n: nat)
    | Lost(key: string, n: nat)      // the caller gets an error, the number is used up
    | Unavailable
    | Rejected

  type Counters = map<string, nat>

  function Count(c: Counters, key: string): nat {
    if key in c then c[key] else 0
  }

  /** One request served: the counters after it and the reply. */
  function Do(c: Counters, r: Request, fault: Fault, u: Unicode): (Counters, Reply) {
    match KeyOf(r, u)
    case None => (c, Rejected)
    case Some(key) =>
      match fault
      case BeforeIncrement => (c, Unavailable)
      case NoFault => (c[key := Count(c, key) + 1], Issued(key, Count(c, key) + 1))
      case AfterIncrement => (c[key := Count(c, key) + 1], Lost(key, Count(c, key) + 1))
  }

  class SequenceRepository {
    var counters: map<string, nat>

    constructor ()
      ensures counters == map[]
    {
      counters := map[];
    }

    /** find_one_and_update with $inc and upsert, returning the document after the update. */
    method AllocateNext(key: string, fault: Fault) returns (n: Option<nat>)
      modifies this
      ensures fault == BeforeIncrement ==> counters == old(counters)
      ensures fault != BeforeIncrement ==> counters == old(counters)[key := Count(old(counters), key) + 1]
      ensures n == if fault == NoFault then Some(Count(old(counters), key) + 1) else None
    {
      if fault == BeforeIncrement {
        return None;
      }
      if key !in counters {
        counters := counters[key := 0];
      }
      counters := counters[key := counters[key] + 1];
      if fault == AfterIncrement {
        return None;
      }
      return Some(counters[key]);
    }
  }

  /** What the caller sees of a reply. */
  function Answer(reply: Reply): Option<string> {
    if reply.Issued? then Some(SequenceId(reply.key, reply.n)) else None
  }

  class SequenceService {
    const repository: SequenceRepository

    constructor (repository: SequenceRepository)
      ensures this.repository == repository
    {
      this.repository := repository;
    }

    method NextSequence(date: Date, owningLob: string, t: EntityType, fault: Fault, u: Unicode)
        returns (id: Option<string>)
      requires IsDate(date)
      modifies repository
      ensures var (c, reply) := Do(old(repository.counters), Sequence(date, owningLob, t), fault, u);
              repository.counters == c && id == Answer(reply)
    {
      var lob := ValidLob(owningLob, u);
      if lob.None? {
        return None;
      }
      var key := CounterKey(date, lob.value, t);
      var n := repository.AllocateNext(key, fault);
      if n.None? {
        return None;
      }
      return Some(SequenceId(key, n.value));
    }

    method NextSecurityEventSequence(resource: string, fault: Fault, u: Unicode) returns (id: Option<string>)
      modifies repository
      ensures var (c, reply) := Do(old(repository.counters), SecurityEvent(resource), fault, u);
              repository.counters == c && id == Answer(reply)
    {
      var parent := ValidResource(resource);
      if parent.None? {
        return None;
      }
      var n := repository.AllocateNext(EventCounterKey(parent.value), fault);
      if n.None? {
        return None;
      }
      return Some(SequenceId(EventCounterKey(parent.value), n.value));
    }
  }

  // ---------------------------------------------------------------------------------------------
  // Any run
  // ---------------------------------------------------------------------------------------------

  datatype Call = Call(request: Request, fault: Fault)

  datatype State = State(counters: Counters, replies: seq<Reply>)

  function Next(s: State, call: Call, u: Unicode): State {
    var (c, reply) := Do(s.counters, call.request, call.fault, u);
    State(c, s.replies + [reply])
  }

  function Run(calls: seq<Call>, u: Unicode): State {
    if calls == [] then State(map[], [])
    else Next(Run(calls[..|calls| - 1], u), calls[|calls| - 1], u)
  }

  predicate Numbered(reply: Reply, key: string) {
    (reply.Issued? || reply.Lost?) && reply.key == key
  }

  /** The numbers a counter has given out, lost ones included, in order. */
  function Taken(replies: seq<Reply>, key: string): seq<nat> {
    if replies == [] then []
    else
      var last := replies[|replies| - 1];
      Taken(replies[..|replies| - 1], key) + if Numbered(last, key) then [last.n] else []
  }

  /** The numbers a counter has issued, in order. */
  function IssuedBy(replies: seq<Reply>, key: string): seq<nat> {
    if replies == [] then []
    else
      var last := replies[|replies| - 1];
      IssuedBy(replies[..|replies| - 1], key) + if last.Issued? && last.key == key then [last.n] else []
  }

  function FromOne(n: nat): seq<nat> {
    seq(n, i => i + 1)
  }

  /** Every counter gives out 1, 2, 3, … in order, up to its stored value. */
  lemma {:induction false} CountersCountUp(calls: seq<Call>, u: Unicode, key: string)
    ensures Taken(Run(calls, u).replies, key) == FromOne(Count(Run(calls, u).counters, key))
    decreases |calls|
  {
    if calls != [] {
      var before := calls[..|calls| - 1];
      CountersCountUp(before, u, key);
      var s, t := Run(before, u), Run(calls, u);
      assert t.replies[..|t.replies| - 1] == s.replies;
      NextCounts(s, calls[|calls| - 1], u, key);
    }
  }

  lemma NextCounts(s: State, call: Call, u: Unicode, key: string)
    ensures var t := Next(s, call, u); var reply := t.replies[|s.replies|];
            if Numbered(reply, key) then reply.n == Count(s.counters, key) + 1 == Count(t.counters, key)
            else Count(t.counters, key) == Count(s.counters, key)
  {
  }

  /** A number lost: taken without being issued. */
  predicate LostSome(replies: seq<Reply>, key: string) {
    exists i | 0 <= i < |replies| :: replies[i].Lost? && replies[i].key == key
  }

  lemma {:induction false} IssuedUnlessLost(replies: seq<Reply>, key: string)
    ensures |IssuedBy(replies, key)| <= |Taken(replies, key)|
    ensures LostSome(replies, key) <==> |IssuedBy(replies, key)| < |Taken(replies, key)|
    ensures !LostSome(replies, key) ==> IssuedBy(replies, key) == Taken(replies, key)
    decreases |replies|
  {
    if replies != [] {
      var n := |replies| - 1;
      IssuedUnlessLost(replies[..n], key);
      if i :| 0 <= i < n && replies[..n][i].Lost? && replies[..n][i].key == key {
        assert replies[i].Lost? && replies[i].key == key;
      }
      if i :| 0 <= i < |replies| && replies[i].Lost? && replies[i].key == key {
        assert i < n ==> replies[..n][i].Lost? && replies[..n][i].key == key;
      }
    }
  }

  /** A counter has issued 1, 2, 3, … without a gap exactly when no reply of it was lost. */
  lemma GapFreeUnlessLost(calls: seq<Call>, u: Unicode, key: string)
    ensures var s := Run(calls, u);
            IssuedBy(s.replies, key) == FromOne(Count(s.counters, key)) <==> !LostSome(s.replies, key)
  {
    CountersCountUp(calls, u, key);
    IssuedUnlessLost(Run(calls, u).replies, key);
  }

  lemma TakenIncludes(replies: seq<Reply>, i: nat)
    requires i < |replies| && replies[i].Issued?
    ensures Taken(replies[..i + 1], replies[i].key) == Taken(replies[..i], replies[i].key) + [replies[i].n]
  {
    assert replies[..i + 1][..i] == replies[..i];
  }

  lemma {:induction false} TakenGrows(replies: seq<Reply>, i: nat, j: nat, key: string)
    requires i <= j <= |replies|
    ensures Taken(replies[..i], key) <= Taken(replies[..j], key)
    decreases j - i
  {
    if i < j {
      TakenGrows(replies, i, j - 1, key);
      assert replies[..j][..j - 1] == replies[..j - 1];
    }
  }

  /** An issued number is its place among the numbers taken from its counter. */
  lemma NumberIsPlace(calls: seq<Call>, u: Unicode, i: nat)
    requires i < |Run(calls, u).replies| && Run(calls, u).replies[i].Issued?
    ensures var replies := Run(calls, u).replies;
            replies[i].n == |Taken(replies[..i], replies[i].key)| + 1
  {
    var replies := Run(calls, u).replies;
    var key := replies[i].key;
    CountersCountUp(calls, u, key);
    TakenIncludes(replies, i);
    TakenGrows(replies, i + 1, |replies|, key);
    assert replies[..|replies|] == replies;
    assert Taken(replies, key)[|Taken(replies[..i], key)|] == replies[i].n;
  }

  /** A number stays below every later number of its counter. */
  lemma LaterIsLarger(calls: seq<Call>, u: Unicode, i: nat, j: nat)
    requires var replies := Run(calls, u).replies;
             i < j < |replies| && replies[i].Issued? && replies[j].Issued? && replies[i].key == replies[j].key
    ensures Run(calls, u).replies[i].n < Run(calls, u).replies[j].n
  {
    NumberIsPlace(calls, u, i);
    NumberIsPlace(calls, u, j);
    TakenIncludes(Run(calls, u).replies, i);
    TakenGrows(Run(calls, u).replies, i + 1, j, Run(calls, u).replies[i].key);
  }

  /** An id tells the counter and the number it was printed from. */
  lemma IdInjective(key: string, n: nat, other: string, m: nat)
    requires SequenceId(key, n) == SequenceId(other, m)
    ensures key == other && n == m
  {
    DecimalReads(n);
    DecimalReads(m);
    LastSeparator(key, Decimal(n), other, Decimal(m), '-');
    DecimalInjective(n, m);
  }

  /** All ids ever issued, instructions', payments' and security events' together, are pairwise distinct. */
  lemma IssuedIdsDistinct(calls: seq<Call>, u: Unicode, i: nat, j: nat)
    requires var replies := Run(calls, u).replies;
             i < j < |replies| && replies[i].Issued? && replies[j].Issued?
    ensures var replies := Run(calls, u).replies;
            SequenceId(replies[i].key, replies[i].n) != SequenceId(replies[j].key, replies[j].n)
  {
    var a, b := Run(calls, u).replies[i], Run(calls, u).replies[j];
    if SequenceId(a.key, a.n) == SequenceId(b.key, b.n) {
      IdInjective(a.key, a.n, b.key, b.n);
      LaterIsLarger(calls, u, i, j);
    }
  }

  // ---------------------------------------------------------------------------------------------
  // Which requests are served, and what is printed
  // ---------------------------------------------------------------------------------------------

  /** A request the validators refuse: no calendar date, a bad line of business, or a blank resource. */
  predicate Refused(r: Request, u: Unicode) {
    match r
    case Sequence(date, lob, _) =>
      var name := u.upper(Strip(lob));
      !IsDate(date) || name == "" || exists i :: 0 <= i < |name| && name[i] != '_' && !u.alnum(name[i])
    case SecurityEvent(resource) => forall i | 0 <= i < |resource| :: IsSpace(resource[i])
  }

  /** Every request gets one reply, and which one depends on the request and the fault alone. */
  lemma RepliesExactly(s: State, call: Call, u: Unicode)
    ensures var t := Next(s, call, u);
            && |t.replies| == |s.replies| + 1
            && var reply := t.replies[|s.replies|];
            && (reply.Rejected? <==> Refused(call.request, u))
            && (reply.Issued? <==> !Refused(call.request, u) && call.fault.NoFault?)
            && (reply.Lost? <==> !Refused(call.request, u) && call.fault.AfterIncrement?)
            && (reply.Unavailable? <==> !Refused(call.request, u) && call.fault.BeforeIncrement?)
  {
    if call.request.SecurityEvent? { StripNothing(call.request.resource); }
  }

  lemma ValueOfDigits(s: string, c: char)
    requires (forall i | 0 <= i < |s| :: IsAsciiDigit(s[i])) && IsAsciiDigit(c)
    ensures Value(s + [c]) == 10 * Value(s) + DigitValue(c)
  {
    assert (s + [c])[..|s|] == s;
  }

  lemma ValueOfTwo(s: string, n: nat)
    requires (forall i | 0 <= i < |s| :: IsAsciiDigit(s[i])) && n < 100
    ensures (forall i | 0 <= i < |s + TwoDigits(n)| :: IsAsciiDigit((s + TwoDigits(n))[i]))
    ensures Value(s + TwoDigits(n)) == 100 * Value(s) + n
  {
    var t := s + [Digit(n / 10)];
    assert s + TwoDigits(n) == t + [Digit(n % 10)];
    ValueOfDigits(s, Digit(n / 10));
    ValueOfDigits(t, Digit(n % 10));
  }

  /** A compact date is a number: the year, then two digits each for month and day. */
  lemma CompactDateCounts(d: Date)
    requires IsDate(d)
    ensures forall i | 0 <= i < |CompactDate(d)| :: IsAsciiDigit(CompactDate(d)[i])
    ensures Value(CompactDate(d)) == 10000 * d.year + 100 * d.month + d.day
  {
    DecimalReads(d.year);
    ValueOfTwo(Decimal(d.year), d.month);
    ValueOfTwo(Decimal(d.year) + TwoDigits(d.month), d.day);
  }

  /** The parts of an id, as its readers know them. */
  lemma IdParts(d: Date, lob: string, n: nat, resource: string)
    requires IsDate(d)
    ensures SequenceId(CounterKey(d, lob, INSTRUCTION), n) == CompactDate(d) + "-" + lob + "-I-" + Decimal(n)
    ensures SequenceId(CounterKey(d, lob, PAYMENT), n) == CompactDate(d) + "-" + lob + "-P-" + Decimal(n)
    ensures SequenceId(EventCounterKey(resource), n) == resource + "-SE-" + Decimal(n)
  {
    assert "-I-" == "-" + "I" + "-" && "-P-" == "-" + "P" + "-" && "-SE-" == "-SE" + "-";
  }

  // ---------------------------------------------------------------------------------------------
  // One counter for each business date, line of business and type
  // ---------------------------------------------------------------------------------------------

  lemma CompactDateReads(d: Date, e: Date)
    requires IsDate(d) && IsDate(e) && CompactDate(d) == CompactDate(e)
    ensures d == e
  {
    var s := CompactDate(d);
    var n := |s| - 4;
    assert s[..n] == Decimal(d.year) && s[..n] == Decimal(e.year);
    assert s[n] == Digit(d.month / 10) == Digit(e.month / 10);
    assert s[n + 1] == Digit(d.month % 10) == Digit(e.month % 10);
    assert s[n + 2] == Digit(d.day / 10) == Digit(e.day / 10);
    assert s[n + 3] == Digit(d.day % 10) == Digit(e.day % 10);
    DecimalInjective(d.year, e.year);
  }

  /** Requests share a counter exactly when date, normalized line of business and type agree. */
  lemma CounterKeyInjective(d: Date, lob: string, t: EntityType, e: Date, other: string, v: EntityType)
    requires IsDate(d) && IsDate(e) && '-' !in lob && '-' !in other
    requires CounterKey(d, lob, t) == CounterKey(e, other, v)
    ensures d == e && lob == other && t == v
  {
    LastSeparator(CompactDate(d) + "-" + lob, TypeCode(t), CompactDate(e) + "-" + other, TypeCode(v), '-');
    LastSeparator(CompactDate(d), lob, CompactDate(e), other, '-');
    CompactDateReads(d, e);
  }

  /** No resource's event counter is an instruction or payment counter, and each resource has its own. */
  lemma EventCountersApart(resource: string, other: string, d: Date, lob: string, t: EntityType)
    requires IsDate(d)
    ensures EventCounterKey(resource) != CounterKey(d, lob, t)
    ensures EventCounterKey(resource) == EventCounterKey(other) ==> resource == other
  {
    var a, b, c := EventCounterKey(resource), CounterKey(d, lob, t), EventCounterKey(other);
    assert a[|a| - 1] == 'E' && b[|b| - 1] == TypeCode(t)[0];
    assert a[..|a| - 3] == resource && c[..|c| - 3] == other;
  }

  /** An accepted line of business never contains the separator. */
  lemma LobHasNoDash(value: string, u: Unicode)
    requires !u.alnum('-') && ValidLob(value, u).Some?
    ensures ValidLob(value, u).value != "" && '-' !in ValidLob(value, u).value
  {
    var v := ValidLob(value, u).value;
    forall i | 0 <= i < |v| ensures v[i] != '-' {
      assert u.alnum(v[i]) || v[i] == '_';
    }
  }

  /** The text key of a version node tells the instruction and the version. */
  function VersionKey(id: string, n: nat): string {
    id + ":" + Decimal(n)
  }

  lemma VersionKeyInjective(id: string, n: nat, other: string, m: nat)
    ensures VersionKey(id, n) == VersionKey(other, m) <==> id == other && n == m
  {
    if VersionKey(id, n) == VersionKey(other, m) {
      DecimalReads(n);
      DecimalReads(m);
      LastSeparator(id, Decimal(n), other, Decimal(m), ':');
      DecimalInjective(n, m);
    }
  }
}
