/**
 The consumer of instruction facts: each message is tried up to five times, committed
 when it succeeds, skipped when it fails for good, and everything after the last commit
 is delivered again after a crash. Its effect on the graph is the sequence of writer
 transactions it leaves behind.
 */
module IndexConsumer {
  import opened Wrappers
  import opened IndexGraph

  const MAX_RETRIES: nat := 5

  /** A payload without an instruction id is accepted and ignored. */
  datatype Message = Invalid | Valid(id: string, version: nat, snap: Snap)

  datatype Kind = Success | TransientError | OtherError | Crash

  /** How one attempt ends, and after how many of the message's transactions if it does not succeed. */
  datatype Outcome = Outcome(kind: Kind, done: nat)

  /** What happens to attempt a of the message at an offset. */
  type Oracle = (nat, nat) -> Outcome

  function Tried(oracle: Oracle, offset: nat, a: nat): Outcome {
    oracle(offset, a)
  }

  class Neo4jGraphWriter {
    var nodes: map<Key, Node>
    var hasVersion: set<Key>
    var current: set<Key>
    var versionConflicts: set<(Key, Key)>
    var conflicts: set<(string, string)>
    ghost var ops: seq<Op>

    constructor ()
      ensures ops == [] && Valid()
    {
      nodes, hasVersion, current, versionConflicts, conflicts := map[], {}, {}, {}, {};
      ops := [];
    }

    ghost function State(): Graph
      reads this
    {
      Graph(nodes, hasVersion, current, versionConflicts, conflicts)
    }

    /**
     The graph is what the transactions committed so far make of it. Said of every sequence equal to
     ops, so that the run is unfolded only where a method is about the graph and not about ops alone.
     */
    ghost predicate Valid()
      reads this
    {
      forall o | o == ops :: State() == Run(o)
    }

    /** Record a transaction that has just been made. */
    ghost method Commit(op: Op)
      requires State() == Do(Run(ops), op)
      modifies this`ops
      ensures ops == old(ops) + [op] && Valid()
    {
      assert (ops + [op])[..|ops|] == ops;
      ops := ops + [op];
    }

    method MergeVersion(v: Key, node: Node)
      modifies this`nodes, this`hasVersion
      ensures State() == Merged(old(State()), v, node)
    {
      nodes := nodes[v := node];
      hasVersion := hasVersion + {v};
    }

    method AdvanceByFactGate(v: Key)
      modifies this`current
      ensures State() == AdvanceByFact(old(State()), v)
    {
      var existing := set e | e in current && e.id == v.id;
      if existing == {} || exists e :: e in existing && v.n >= e.n {
        current := current - existing;
        current := current + {v};
      }
    }

    method AdvanceByEventGate(v: Key)
      modifies this`current
      ensures State() == AdvanceByEvent(old(State()), v)
    {
      var existing := set e | e in current && e.id == v.id;
      var older := set e | e in existing && v.n > e.n;
      if existing == {} || older != {} {
        current := current - older;
        current := current + {v};
      }
    }

    method LinkVersions(v: Key, snap: Snap)
      modifies this`versionConflicts
      ensures State() == ConflictByEvent(old(State()), v, snap)
    {
      if snap.account != "" && snap.currency != "" {
        var others := set k | k in nodes && k.id != v.id && nodes[k].currency == snap.currency
                              && nodes[k].eventAccount == snap.account && EventActive(nodes[k].status);
        assert others == set k | k in State().nodes && Matches(State(), k, v.id, snap)
          && State().nodes[k].eventAccount == snap.account && EventActive(State().nodes[k].status);
        versionConflicts := versionConflicts + (set o | o in others :: (v, o)) + (set o | o in others :: (o, v));
      }
    }

    method LinkInstructions(id: string, snap: Snap)
      modifies this`conflicts
      ensures State() == ConflictByFact(old(State()), id, snap)
    {
      if snap.account != "" && snap.currency != "" {
        if exists c :: c in current && c.id == id && c in nodes && FactActive(nodes[c].status) {
          var others := set k | k in current && k in nodes && k.id != id && nodes[k].currency == snap.currency
                                && nodes[k].factAccount == snap.account && FactActive(nodes[k].status) :: k.id;
          assert others == set k | k in State().current && Matches(State(), k, id, snap)
            && State().nodes[k].factAccount == snap.account && FactActive(State().nodes[k].status) :: k.id;
          conflicts := conflicts + (set o | o in others :: (id, o)) + (set o | o in others :: (o, id));
        }
      }
    }

    /** The state query of upsert_instruction_fact. */
    method WriteFactState(id: string, version: nat, snap: Snap)
      requires Valid()
      modifies this
      ensures ops == old(ops) + [FactState(id, version, snap)] && Valid()
    {
      assert State() == Run(ops);
      var k := Key(id, version);
      var account := if k in nodes then nodes[k].eventAccount else "";
      MergeVersion(k, Node(snap.status, snap.currency, snap.account, account));
      AdvanceByFactGate(k);
      Commit(FactState(id, version, snap));
    }

    /** The conflict query of upsert_instruction_fact. */
    method WriteFactConflicts(id: string, version: nat, snap: Snap)
      requires Valid()
      modifies this
      ensures ops == old(ops) + [FactConflicts(id, version, snap)] && Valid()
    {
      assert State() == Run(ops);
      LinkInstructions(id, snap);
      Commit(FactConflicts(id, version, snap));
    }

    /** The version part of upsert, one transaction; an event without a version number writes none of it. */
    method UpsertEvent(id: string, numbered: Option<nat>, snap: Snap)
      requires Valid()
      modifies this
      ensures ops == old(ops) + [Event(id, numbered, snap)] && Valid()
    {
      assert State() == Run(ops);
      if numbered.Some? {
        var v := Key(id, numbered.value);
        var account := if v in nodes then nodes[v].factAccount else "";
        MergeVersion(v, Node(snap.status, snap.currency, account, snap.account));
        AdvanceByEventGate(v);
        LinkVersions(v, snap);
      }
      Commit(Event(id, numbered, snap));
    }
  }

  function Transactions(m: Message): seq<Op> {
    if m.Invalid? then [] else [FactState(m.id, m.version, m.snap), FactConflicts(m.id, m.version, m.snap)]
  }

  function AttemptOps(m: Message, o: Outcome): seq<Op> {
    if o.kind == Success || o.done >= |Transactions(m)| then Transactions(m) else Transactions(m)[..o.done]
  }

  /** Transactions left by the attempts from number `a` on. */
  function MessageOps(m: Message, offset: nat, a: nat, oracle: Oracle): seq<Op>
    requires 1 <= a <= MAX_RETRIES
    decreases MAX_RETRIES - a
  {
    var o := Tried(oracle, offset, a);
    AttemptOps(m, o)
    + if o.kind == TransientError && a < MAX_RETRIES then MessageOps(m, offset, a + 1, oracle) else []
  }

  /** How the message ends: TransientError means the retries ran out. */
  function MessageEnd(offset: nat, a: nat, oracle: Oracle): Kind
    requires 1 <= a <= MAX_RETRIES
    decreases MAX_RETRIES - a
  {
    var o := Tried(oracle, offset, a);
    if o.kind == TransientError && a < MAX_RETRIES then MessageEnd(offset, a + 1, oracle) else o.kind
  }

  /** Transactions of one session that starts at offset `from`. */
  function SessionOps(messages: seq<Message>, from: nat, oracle: Oracle): seq<Op>
    decreases |messages| - from
  {
    if from >= |messages| then []
    else MessageOps(messages[from], from, 1, oracle)
         + if MessageEnd(from, 1, oracle) == Crash then [] else SessionOps(messages, from + 1, oracle)
  }

  /** The committed offset a session leaves. */
  function SessionCommit(messages: seq<Message>, from: nat, committed: nat, oracle: Oracle): nat
    decreases |messages| - from
  {
    if from >= |messages| then committed
    else
      var end := MessageEnd(from, 1, oracle);
      if end == Crash then committed
      else SessionCommit(messages, from + 1, if end == Success then from + 1 else committed, oracle)
  }

  lemma Associate(a: seq<Op>, b: seq<Op>, c: seq<Op>)
    ensures a + b + c == a + (b + c)
  {
  }

  /** After an attempt: what the message has still to leave behind, or its end. */
  lemma Retry(ops: seq<Op>, m: Message, offset: nat, a: nat, oracle: Oracle)
    requires 1 <= a <= MAX_RETRIES
    ensures var after := ops + AttemptOps(m, Tried(oracle, offset, a));
            ops + MessageOps(m, offset, a, oracle)
            == if Tried(oracle, offset, a).kind == TransientError && a < MAX_RETRIES
               then after + MessageOps(m, offset, a + 1, oracle) else after
  {
    var tried := AttemptOps(m, Tried(oracle, offset, a));
    if Tried(oracle, offset, a).kind == TransientError && a < MAX_RETRIES {
      Associate(ops, tried, MessageOps(m, offset, a + 1, oracle));
    } else {
      assert tried + [] == tried;
    }
  }

  /** The same after a message: what the session has still to leave behind, or its end. */
  lemma Resume(ops: seq<Op>, messages: seq<Message>, position: nat, oracle: Oracle)
    requires position < |messages|
    ensures var after := ops + MessageOps(messages[position], position, 1, oracle);
            ops + SessionOps(messages, position, oracle)
            == if MessageEnd(position, 1, oracle) == Crash then after
               else after + SessionOps(messages, position + 1, oracle)
  {
    var tried := MessageOps(messages[position], position, 1, oracle);
    if MessageEnd(position, 1, oracle) == Crash {
      assert tried + [] == tried;
    } else {
      Associate(ops, tried, SessionOps(messages, position + 1, oracle));
    }
  }

  class InstructionKafkaConsumer {
    const messages: seq<Message>
    const writer: Neo4jGraphWriter
    var committed: nat

    constructor (messages: seq<Message>, writer: Neo4jGraphWriter)
      ensures this.messages == messages && this.writer == writer && committed == 0
    {
      this.messages, this.writer, committed := messages, writer, 0;
    }

    /** One session, up to a crash or the end of the topic. */
    method RunSession(oracle: Oracle)
      requires writer.Valid()
      modifies this, writer
      ensures writer.ops == old(writer.ops) + SessionOps(messages, old(committed), oracle)
      ensures committed == SessionCommit(messages, old(committed), old(committed), oracle)
      ensures writer.Valid()
    {
      var position := committed;
      ghost var from, total := committed, writer.ops + SessionOps(messages, committed, oracle);
      while position < |messages|
        invariant from <= position && writer.Valid()
        invariant writer.ops + SessionOps(messages, position, oracle) == total
        invariant SessionCommit(messages, position, committed, oracle) == SessionCommit(messages, from, from, oracle)
      {
        Resume(writer.ops, messages, position, oracle);
        var end := TryMessage(position, oracle);
        if end == Crash {
          return;
        }
        position := position + 1;
      }
      assert writer.ops + [] == writer.ops;
    }

    /** The retries of one message, and the commit when one of them succeeds. */
    method TryMessage(offset: nat, oracle: Oracle) returns (end: Kind)
      requires offset < |messages| && writer.Valid()
      modifies this, writer
      ensures exists n :: LastAttempt(offset, oracle, n) && end == Tried(oracle, offset, n).kind
                          && writer.ops == old(writer.ops) + LeftBy(messages[offset], offset, oracle, n)
      ensures end == MessageEnd(offset, 1, oracle)
      ensures writer.ops == old(writer.ops) + MessageOps(messages[offset], offset, 1, oracle)
      ensures writer.Valid()
      ensures committed == if end == Success then offset + 1 else old(committed)
    {
      var attempt := 1;
      ghost var last := LastAttemptExists(offset, oracle);
      FiveAttempts(messages[offset], offset, oracle, last);
      ghost var m, c := messages[offset], committed;
      ghost var total := writer.ops + MessageOps(m, offset, 1, oracle);
      while true
        invariant 1 <= attempt <= MAX_RETRIES && writer.Valid() && committed == c
        invariant writer.ops + MessageOps(m, offset, attempt, oracle) == total
        invariant MessageEnd(offset, attempt, oracle) == MessageEnd(offset, 1, oracle)
        decreases MAX_RETRIES - attempt
      {
        Retry(writer.ops, m, offset, attempt, oracle);
        var o := Tried(oracle, offset, attempt);
        HandleMessage(messages[offset], o);
        if o.kind == TransientError && attempt < MAX_RETRIES {
          attempt := attempt + 1;
        } else {
          if o.kind == Success {
            committed := offset + 1;
          }
          return o.kind;
        }
      }
    }

    /** One attempt: as many of the message's transactions as the outcome lets through. */
    method HandleMessage(m: Message, o: Outcome)
      requires writer.Valid()
      modifies writer
      ensures writer.ops == old(writer.ops) + AttemptOps(m, o) && writer.Valid()
    {
      if m.Invalid? || (o.kind != Success && o.done == 0) {
        assert AttemptOps(m, o) == [];
        return;
      }
      ghost var before := writer.ops;
      writer.WriteFactState(m.id, m.version, m.snap);
      if o.kind != Success && o.done == 1 {
        assert AttemptOps(m, o) == [FactState(m.id, m.version, m.snap)];
        return;
      }
      writer.WriteFactConflicts(m.id, m.version, m.snap);
      Associate(before, [FactState(m.id, m.version, m.snap)], [FactConflicts(m.id, m.version, m.snap)]);
    }
  }

  // ---------------------------------------------------------------------------------------------
  // Five attempts
  // ---------------------------------------------------------------------------------------------

  /** Attempt n is made, and it is the last: those before it were transient, and it was not, or is the fifth. */
  predicate LastAttempt(offset: nat, oracle: Oracle, n: nat) {
    && 1 <= n <= 5
    && (forall b | 1 <= b < n :: Tried(oracle, offset, b).kind == TransientError)
    && (n < 5 ==> Tried(oracle, offset, n).kind != TransientError)
  }

  /** What one attempt leaves, written out. */
  function Leaves(m: Message, o: Outcome): seq<Op> {
    match m
    case Invalid => []
    case Valid(id, version, snap) =>
      if o.kind == Success || o.done >= 2 then [FactState(id, version, snap), FactConflicts(id, version, snap)]
      else if o.done == 1 then [FactState(id, version, snap)]
      else []
  }

  /** What attempts 1 to n leave, one after the other. */
  function LeftBy(m: Message, offset: nat, oracle: Oracle, n: nat): seq<Op> {
    if n == 0 then [] else LeftBy(m, offset, oracle, n - 1) + Leaves(m, Tried(oracle, offset, n))
  }

  lemma AttemptLeaves(m: Message, o: Outcome)
    ensures AttemptOps(m, o) == Leaves(m, o)
  {
  }

  lemma {:induction false} UpToAttempt(m: Message, offset: nat, oracle: Oracle, n: nat)
    requires 1 <= n <= MAX_RETRIES && forall b | 1 <= b < n :: Tried(oracle, offset, b).kind == TransientError
    ensures MessageEnd(offset, 1, oracle) == MessageEnd(offset, n, oracle)
    ensures MessageOps(m, offset, 1, oracle) == LeftBy(m, offset, oracle, n - 1) + MessageOps(m, offset, n, oracle)
  {
    if n == 1 {
      assert LeftBy(m, offset, oracle, 0) == [];
      assert [] + MessageOps(m, offset, 1, oracle) == MessageOps(m, offset, 1, oracle);
    } else {
      UpToAttempt(m, offset, oracle, n - 1);
      NextAttempt(m, offset, n - 1, oracle);
      AttemptLeaves(m, Tried(oracle, offset, n - 1));
      Associate(LeftBy(m, offset, oracle, n - 2), Leaves(m, Tried(oracle, offset, n - 1)), MessageOps(m, offset, n, oracle));
    }
  }

  /**
   A message is tried until an attempt is not transient, and five times at most. It ends as its last
   attempt does, and leaves exactly what the attempts made leave.
   */
  lemma FiveAttempts(m: Message, offset: nat, oracle: Oracle, n: nat)
    requires LastAttempt(offset, oracle, n)
    ensures MessageEnd(offset, 1, oracle) == Tried(oracle, offset, n).kind
    ensures MessageOps(m, offset, 1, oracle) == LeftBy(m, offset, oracle, n)
  {
    UpToAttempt(m, offset, oracle, n);
    NextAttempt(m, offset, n, oracle);
    AttemptLeaves(m, Tried(oracle, offset, n));
  }

  lemma LastAttemptExists(offset: nat, oracle: Oracle) returns (n: nat)
    ensures LastAttempt(offset, oracle, n)
  {
    n := 1;
    while n < 5 && Tried(oracle, offset, n).kind == TransientError
      invariant 1 <= n <= 5 && forall b | 1 <= b < n :: Tried(oracle, offset, b).kind == TransientError
    {
      n := n + 1;
    }
  }

  /** So it succeeds exactly when one of five attempts does after transient ones, and is given up as transient after five. */
  lemma EndsExactly(offset: nat, oracle: Oracle)
    ensures MessageEnd(offset, 1, oracle) == Success
       <==> exists n :: LastAttempt(offset, oracle, n) && Tried(oracle, offset, n).kind == Success
    ensures MessageEnd(offset, 1, oracle) == TransientError
       <==> forall n | 1 <= n <= 5 :: Tried(oracle, offset, n).kind == TransientError
  {
    var last := LastAttemptExists(offset, oracle);
    FiveAttempts(Invalid, offset, oracle, last);
    if n :| LastAttempt(offset, oracle, n) && Tried(oracle, offset, n).kind == Success {
      FiveAttempts(Invalid, offset, oracle, n);
    }
    if MessageEnd(offset, 1, oracle) == TransientError {
      assert last == 5;
    }
  }

  // ---------------------------------------------------------------------------------------------
  // What sessions guarantee
  // ---------------------------------------------------------------------------------------------

  /** The session that starts at `from` gets to offset k. */
  predicate Reached(from: nat, k: nat, oracle: Oracle) {
    from <= k && forall j | from <= j < k :: MessageEnd(j, 1, oracle) != Crash
  }

  /**
   A session commits exactly up to the last message that succeeded before a crash; every message it
   commits over was tried and either succeeded or was given up.
   */
  lemma {:induction false} SessionCommitsTried(messages: seq<Message>, from: nat, committed: nat, oracle: Oracle)
    requires committed <= from <= |messages|
    ensures var r := SessionCommit(messages, from, committed, oracle);
            && committed <= r <= |messages|
            && (r > committed ==> r > from && Reached(from, r - 1, oracle) && MessageEnd(r - 1, 1, oracle) == Success)
            && (forall k | r <= k < |messages| && Reached(from, k, oracle) :: MessageEnd(k, 1, oracle) != Success)
    decreases |messages| - from
  {
    if from < |messages| {
      var end := MessageEnd(from, 1, oracle);
      if end != Crash {
        SessionCommitsTried(messages, from + 1, if end == Success then from + 1 else committed, oracle);
      }
      var r := SessionCommit(messages, from, committed, oracle);
      forall k | r <= k < |messages| && Reached(from, k, oracle) ensures MessageEnd(k, 1, oracle) != Success {
        if k > from {
          assert MessageEnd(from, 1, oracle) != Crash;
          assert Reached(from + 1, k, oracle);
        }
      }
    }
  }

  /** The two transactions of a message, in order, somewhere in ops. */
  predicate Processed(ops: seq<Op>, m: Message) {
    m.Valid? ==>
      exists i, j :: 0 <= i < j < |ops| && ops[i] == FactState(m.id, m.version, m.snap)
                     && ops[j] == FactConflicts(m.id, m.version, m.snap)
  }

  lemma ProcessedWithMore(before: seq<Op>, ops: seq<Op>, m: Message)
    ensures Processed(ops, m) ==> Processed(before + ops, m) && Processed(ops + before, m)
  {
    if m.Valid? && Processed(ops, m) {
      var i, j :| 0 <= i < j < |ops| && ops[i] == FactState(m.id, m.version, m.snap)
                  && ops[j] == FactConflicts(m.id, m.version, m.snap);
      ShiftedPair(before, ops, i);
      ShiftedPair(before, ops, j);
    }
  }

  lemma ShiftedPair(before: seq<Op>, ops: seq<Op>, i: nat)
    requires i < |ops|
    ensures (before + ops)[|before| + i] == ops[i] == (ops + before)[i]
  {
  }

  lemma {:induction false} SuccessProcesses(m: Message, offset: nat, a: nat, oracle: Oracle)
    requires 1 <= a <= MAX_RETRIES && MessageEnd(offset, a, oracle) == Success
    ensures Processed(MessageOps(m, offset, a, oracle), m)
    decreases MAX_RETRIES - a
  {
    var o := Tried(oracle, offset, a);
    if o.kind == Success {
      assert m.Valid? ==> MessageOps(m, offset, a, oracle)[0] == FactState(m.id, m.version, m.snap)
                          && MessageOps(m, offset, a, oracle)[1] == FactConflicts(m.id, m.version, m.snap);
    } else {
      SuccessProcesses(m, offset, a + 1, oracle);
      ProcessedWithMore(AttemptOps(m, o), MessageOps(m, offset, a + 1, oracle), m);
    }
  }

  /** A session that gets past a message goes on with the rest of the topic. */
  lemma SessionGoesOn(messages: seq<Message>, from: nat, oracle: Oracle)
    requires from < |messages| && MessageEnd(from, 1, oracle) != Crash
    ensures SessionOps(messages, from, oracle)
         == MessageOps(messages[from], from, 1, oracle) + SessionOps(messages, from + 1, oracle)
  {
  }

  lemma {:induction false} SessionProcesses(messages: seq<Message>, from: nat, k: nat, oracle: Oracle)
    requires k < |messages| && Reached(from, k, oracle) && MessageEnd(k, 1, oracle) == Success
    ensures Processed(SessionOps(messages, from, oracle), messages[k])
    decreases |messages| - from
  {
    assert MessageEnd(from, 1, oracle) != Crash;
    SessionGoesOn(messages, from, oracle);
    var head, rest := MessageOps(messages[from], from, 1, oracle), SessionOps(messages, from + 1, oracle);
    if k == from {
      SuccessProcesses(messages[k], k, 1, oracle);
      ProcessedWithMore(rest, head, messages[k]);
    } else {
      SessionProcesses(messages, from + 1, k, oracle);
      ProcessedWithMore(head, rest, messages[k]);
    }
  }

  /** Only messages of the topic are ever written. */
  predicate FromTopic(messages: seq<Message>, op: Op) {
    exists k :: 0 <= k < |messages| && op in Transactions(messages[k])
  }

  lemma {:induction false} MessageOpsAreIts(m: Message, offset: nat, a: nat, oracle: Oracle)
    requires 1 <= a <= MAX_RETRIES
    ensures forall op | op in MessageOps(m, offset, a, oracle) :: op in Transactions(m)
    decreases MAX_RETRIES - a
  {
    if a < MAX_RETRIES {
      MessageOpsAreIts(m, offset, a + 1, oracle);
    }
  }

  lemma {:induction false} SessionOpsFromTopic(messages: seq<Message>, from: nat, oracle: Oracle)
    ensures forall op | op in SessionOps(messages, from, oracle) :: FromTopic(messages, op)
    decreases |messages| - from
  {
    if from < |messages| {
      MessageOpsAreIts(messages[from], from, 1, oracle);
      SessionOpsFromTopic(messages, from + 1, oracle);
    }
  }

  /** Sessions one after the other, each starting at the offset the previous ones committed. */
  function Sessions(messages: seq<Message>, oracles: seq<Oracle>): (r: (seq<Op>, nat)) {
    if oracles == [] then ([], 0)
    else
      var (ops, committed) := Sessions(messages, oracles[..|oracles| - 1]);
      var last := oracles[|oracles| - 1];
      (ops + SessionOps(messages, committed, last), SessionCommit(messages, committed, committed, last))
  }

  /** Some attempt from number a on gets at least its first transaction through. */
  predicate GetsThrough(offset: nat, a: nat, oracle: Oracle)
    requires 1 <= a <= MAX_RETRIES
    decreases MAX_RETRIES - a
  {
    var o := Tried(oracle, offset, a);
    || o.kind == Success || o.done > 0
    || (o.kind == TransientError && a < MAX_RETRIES && GetsThrough(offset, a + 1, oracle))
  }

  lemma {:induction false} WrittenConcat(a: seq<Op>, b: seq<Op>)
    ensures Written(a + b) == Written(a) + Written(b)
    decreases |b|
  {
    if b == [] {
      assert a + b == a;
    } else {
      assert (a + b)[..|a + b| - 1] == a + b[..|b| - 1];
      WrittenConcat(a, b[..|b| - 1]);
    }
  }

  function KeysOf(m: Message): set<Key> {
    if m.Valid? then {Key(m.id, m.version)} else {}
  }

  lemma AttemptWrites(m: Message, o: Outcome)
    ensures Written(AttemptOps(m, o)) == if o.kind == Success || o.done > 0 then KeysOf(m) else {}
  {
    if m.Valid? {
      var state, conflicts := FactState(m.id, m.version, m.snap), FactConflicts(m.id, m.version, m.snap);
      WrittenOne(state);
      WrittenConcat([state], [conflicts]);
      WrittenOne(conflicts);
      assert Transactions(m) == [state] + [conflicts] && Transactions(m)[..1] == [state];
      assert Transactions(m)[..0] == [];
    }
  }

  lemma WrittenOne(op: Op)
    ensures Written([op]) == Writes(op)
  {
    assert [op][..0] == [];
  }

  /** A message's attempts write its version exactly when one of them gets through. */
  lemma {:induction false} MessageWrites(m: Message, offset: nat, a: nat, oracle: Oracle)
    requires 1 <= a <= MAX_RETRIES
    ensures Written(MessageOps(m, offset, a, oracle)) == if GetsThrough(offset, a, oracle) then KeysOf(m) else {}
    decreases MAX_RETRIES - a
  {
    var o := Tried(oracle, offset, a);
    NextAttempt(m, offset, a, oracle);
    if o.kind == TransientError && a < MAX_RETRIES {
      MessageWrites(m, offset, a + 1, oracle);
      RetryWrites(m, o, MessageOps(m, offset, a + 1, oracle), GetsThrough(offset, a + 1, oracle));
    } else {
      AttemptWrites(m, o);
    }
  }

  lemma RetryWrites(m: Message, o: Outcome, rest: seq<Op>, later: bool)
    requires Written(rest) == if later then KeysOf(m) else {}
    ensures Written(AttemptOps(m, o) + rest) == if o.kind == Success || o.done > 0 || later then KeysOf(m) else {}
  {
    AttemptWrites(m, o);
    WrittenConcat(AttemptOps(m, o), rest);
  }

  lemma NextAttempt(m: Message, offset: nat, a: nat, oracle: Oracle)
    requires 1 <= a <= MAX_RETRIES
    ensures var o := Tried(oracle, offset, a);
            MessageOps(m, offset, a, oracle) == if o.kind == TransientError && a < MAX_RETRIES
              then AttemptOps(m, o) + MessageOps(m, offset, a + 1, oracle) else AttemptOps(m, o)
  {
    assert AttemptOps(m, Tried(oracle, offset, a)) + [] == AttemptOps(m, Tried(oracle, offset, a));
  }

  /** The session that starts at `from` reaches message k, and k gets through. */
  predicate Lands(messages: seq<Message>, from: nat, k: nat, oracle: Oracle) {
    k < |messages| && Reached(from, k, oracle) && GetsThrough(k, 1, oracle)
  }

  /** The versions one session writes. */
  function SessionKeys(messages: seq<Message>, from: nat, oracle: Oracle): set<Key> {
    set k | from <= k < |messages| && Lands(messages, from, k, oracle) && messages[k].Valid?
      :: Key(messages[k].id, messages[k].version)
  }

  lemma NextKeys(messages: seq<Message>, from: nat, oracle: Oracle)
    requires from < |messages|
    ensures SessionKeys(messages, from, oracle)
         == (if GetsThrough(from, 1, oracle) then KeysOf(messages[from]) else {})
            + if MessageEnd(from, 1, oracle) == Crash then {} else SessionKeys(messages, from + 1, oracle)
  {
    forall k: nat | from < k
      ensures Lands(messages, from, k, oracle)
         <==> MessageEnd(from, 1, oracle) != Crash && Lands(messages, from + 1, k, oracle)
    {
      ReachedNext(from, k, oracle);
    }
    assert GetsThrough(from, 1, oracle) <==> Lands(messages, from, from, oracle);
  }

  lemma ReachedNext(from: nat, k: nat, oracle: Oracle)
    requires from < k
    ensures Reached(from, k, oracle) <==> MessageEnd(from, 1, oracle) != Crash && Reached(from + 1, k, oracle)
  {
  }

  lemma {:induction false} SessionWrites(messages: seq<Message>, from: nat, oracle: Oracle)
    ensures Written(SessionOps(messages, from, oracle)) == SessionKeys(messages, from, oracle)
    decreases |messages| - from
  {
    if from < |messages| {
      var head := MessageOps(messages[from], from, 1, oracle);
      MessageWrites(messages[from], from, 1, oracle);
      NextKeys(messages, from, oracle);
      if MessageEnd(from, 1, oracle) == Crash {
        assert head + [] == head;
      } else {
        SessionWrites(messages, from + 1, oracle);
        WrittenConcat(head, SessionOps(messages, from + 1, oracle));
      }
    }
  }

  /** Where session number s starts: the offset the sessions before it committed. */
  function StartOf(messages: seq<Message>, oracles: seq<Oracle>, s: nat): nat
    requires s <= |oracles|
  {
    Sessions(messages, oracles[..s]).1
  }

  predicate LandsIn(messages: seq<Message>, oracles: seq<Oracle>, s: nat, k: nat) {
    s < |oracles| && Lands(messages, StartOf(messages, oracles, s), k, oracles[s])
  }

  /** The versions of the messages that some session reached and got through. */
  function LandedKeys(messages: seq<Message>, oracles: seq<Oracle>): set<Key> {
    set s, k | 0 <= s < |oracles| && 0 <= k < |messages| && LandsIn(messages, oracles, s, k) && messages[k].Valid?
      :: Key(messages[k].id, messages[k].version)
  }

  lemma StartsStay(messages: seq<Message>, oracles: seq<Oracle>, n: nat, s: nat, k: nat)
    requires s < n <= |oracles|
    ensures LandsIn(messages, oracles[..n], s, k) <==> LandsIn(messages, oracles, s, k)
  {
    assert oracles[..n][..s] == oracles[..s];
  }

  lemma LandedInLast(messages: seq<Message>, oracles: seq<Oracle>)
    requires oracles != []
    ensures var n := |oracles| - 1;
            LandedKeys(messages, oracles)
            == LandedKeys(messages, oracles[..n]) + SessionKeys(messages, StartOf(messages, oracles, n), oracles[n])
  {
    var n := |oracles| - 1;
    forall key ensures key in LandedKeys(messages, oracles)
                  <==> key in LandedKeys(messages, oracles[..n])
                       || key in SessionKeys(messages, StartOf(messages, oracles, n), oracles[n])
    {
      LandedEither(messages, oracles, n, key);
    }
  }

  lemma LandedEither(messages: seq<Message>, oracles: seq<Oracle>, n: nat, key: Key)
    requires |oracles| == n + 1
    ensures key in LandedKeys(messages, oracles)
       <==> key in LandedKeys(messages, oracles[..n])
            || key in SessionKeys(messages, StartOf(messages, oracles, n), oracles[n])
  {
    if key in LandedKeys(messages, oracles[..n]) {
      var s, k :| 0 <= s < n && 0 <= k < |messages| && LandsIn(messages, oracles[..n], s, k) && messages[k].Valid?
                  && key == Key(messages[k].id, messages[k].version);
      StartsStay(messages, oracles, n, s, k);
    } else if key in SessionKeys(messages, StartOf(messages, oracles, n), oracles[n]) {
      var k :| 0 <= k < |messages| && Lands(messages, StartOf(messages, oracles, n), k, oracles[n])
               && messages[k].Valid? && key == Key(messages[k].id, messages[k].version);
      assert LandsIn(messages, oracles, n, k);
    } else if key in LandedKeys(messages, oracles) {
      var s, k :| 0 <= s <= n && 0 <= k < |messages| && LandsIn(messages, oracles, s, k) && messages[k].Valid?
                  && key == Key(messages[k].id, messages[k].version);
      if s < n { StartsStay(messages, oracles, n, s, k); }
    }
  }

  lemma {:induction false} SessionsWrite(messages: seq<Message>, oracles: seq<Oracle>)
    ensures Written(Sessions(messages, oracles).0) == LandedKeys(messages, oracles)
    decreases |oracles|
  {
    if oracles != [] {
      var n := |oracles| - 1;
      var (ops, c) := Sessions(messages, oracles[..n]);
      SessionsWrite(messages, oracles[..n]);
      SessionWrites(messages, c, oracles[n]);
      WrittenConcat(ops, SessionOps(messages, c, oracles[n]));
      LandedInLast(messages, oracles);
    }
  }

  /**
   Retry, skip, crash and redelivery: after any sessions whatever, HAS_VERSION holds exactly the
   versions of the messages some session reached and got through, and CURRENT the highest of each
   instruction among them.
   */
  lemma SessionsIndex(messages: seq<Message>, oracles: seq<Oracle>)
    ensures var g := Run(Sessions(messages, oracles).0);
            g.hasVersion == LandedKeys(messages, oracles) && g.current == Latest(LandedKeys(messages, oracles))
  {
    SessionsWrite(messages, oracles);
    CurrentConverges(Sessions(messages, oracles).0);
  }

  // ---------------------------------------------------------------------------------------------
  // What is committed over
  // ---------------------------------------------------------------------------------------------

  /** Session s reached message k and did not crash on it: it succeeded there or gave it up. */
  predicate PassedIn(messages: seq<Message>, oracles: seq<Oracle>, s: nat, k: nat) {
    && s < |oracles| && k < |messages|
    && Reached(StartOf(messages, oracles, s), k, oracles[s]) && MessageEnd(k, 1, oracles[s]) != Crash
  }

  /** What became of the message in that session. */
  predicate Settled(messages: seq<Message>, oracles: seq<Oracle>, ops: seq<Op>, s: nat, k: nat) {
    && PassedIn(messages, oracles, s, k)
    && (MessageEnd(k, 1, oracles[s]) == Success ==> Processed(ops, messages[k]))
  }

  ghost predicate SettledSomewhere(messages: seq<Message>, oracles: seq<Oracle>, ops: seq<Op>, k: nat) {
    exists s: nat :: Settled(messages, oracles, ops, s, k)
  }

  lemma {:induction false} CommitBounds(messages: seq<Message>, oracles: seq<Oracle>)
    ensures Sessions(messages, oracles).1 <= |messages|
    decreases |oracles|
  {
    if oracles != [] {
      var prev := oracles[..|oracles| - 1];
      CommitBounds(messages, prev);
      var c := Sessions(messages, prev).1;
      SessionCommitsTried(messages, c, c, oracles[|oracles| - 1]);
    }
  }

  /**
   Every offset below the committed one was reached by a session that did not crash on it, and if that
   session succeeded there, both of the message's transactions ran, in order. Nothing outside the
   topic is ever written.
   */
  lemma {:induction false} CommittedAreSettled(messages: seq<Message>, oracles: seq<Oracle>)
    ensures var (ops, committed) := Sessions(messages, oracles);
            && committed <= |messages|
            && (forall k | 0 <= k < committed :: SettledSomewhere(messages, oracles, ops, k))
            && (forall op | op in ops :: FromTopic(messages, op))
    decreases |oracles|
  {
    CommitBounds(messages, oracles);
    if oracles != [] {
      var n := |oracles| - 1;
      CommittedAreSettled(messages, oracles[..n]);
      var (ops, c) := Sessions(messages, oracles[..n]);
      SessionOpsFromTopic(messages, c, oracles[n]);
      forall k: nat | k < Sessions(messages, oracles).1
        ensures SettledSomewhere(messages, oracles, Sessions(messages, oracles).0, k)
      {
        if k < c {
          SettledStays(messages, oracles, ops, n, k);
        } else {
          SessionSettles(messages, oracles, ops, c, k);
        }
      }
    }
  }

  lemma SettledStays(messages: seq<Message>, oracles: seq<Oracle>, ops: seq<Op>, n: nat, k: nat)
    requires |oracles| == n + 1 && SettledSomewhere(messages, oracles[..n], ops, k)
    ensures SettledSomewhere(messages, oracles, ops + SessionOps(messages, StartOf(messages, oracles, n), oracles[n]), k)
  {
    var s: nat :| Settled(messages, oracles[..n], ops, s, k);
    var added := SessionOps(messages, StartOf(messages, oracles, n), oracles[n]);
    assert oracles[..n][..s] == oracles[..s];
    ProcessedWithMore(added, ops, messages[k]);
    assert Settled(messages, oracles, ops + added, s, k);
  }

  /** What a session does about a message its commit covers. */
  lemma SessionCovers(messages: seq<Message>, c: nat, k: nat, oracle: Oracle)
    requires c <= |messages| && c <= k < SessionCommit(messages, c, c, oracle)
    ensures k < |messages| && Reached(c, k, oracle) && MessageEnd(k, 1, oracle) != Crash
    ensures MessageEnd(k, 1, oracle) == Success ==> Processed(SessionOps(messages, c, oracle), messages[k])
  {
    SessionCommitsTried(messages, c, c, oracle);
    ReachedBefore(c, k, SessionCommit(messages, c, c, oracle) - 1, oracle);
    if MessageEnd(k, 1, oracle) == Success {
      SessionProcesses(messages, c, k, oracle);
    }
  }

  lemma LastSession(messages: seq<Message>, oracles: seq<Oracle>, ops: seq<Op>, c: nat)
    requires oracles != [] && (ops, c) == Sessions(messages, oracles[..|oracles| - 1])
    ensures var n := |oracles| - 1;
            Sessions(messages, oracles)
            == (ops + SessionOps(messages, c, oracles[n]), SessionCommit(messages, c, c, oracles[n]))
    ensures StartOf(messages, oracles, |oracles| - 1) == c
  {
  }

  lemma SessionSettles(messages: seq<Message>, oracles: seq<Oracle>, ops: seq<Op>, c: nat, k: nat)
    requires oracles != [] && (ops, c) == Sessions(messages, oracles[..|oracles| - 1]) && c <= |messages|
    requires c <= k < Sessions(messages, oracles).1
    ensures SettledSomewhere(messages, oracles, Sessions(messages, oracles).0, k)
  {
    var n := |oracles| - 1;
    LastSession(messages, oracles, ops, c);
    SessionCovers(messages, c, k, oracles[n]);
    ProcessedWithMore(ops, SessionOps(messages, c, oracles[n]), messages[k]);
    assert Settled(messages, oracles, Sessions(messages, oracles).0, n, k);
  }

  lemma ReachedBefore(c: nat, k: nat, last: nat, oracle: Oracle)
    requires c <= k <= last && Reached(c, last, oracle) && MessageEnd(last, 1, oracle) == Success
    ensures Reached(c, k, oracle) && MessageEnd(k, 1, oracle) != Crash
  {
  }

  /** The versions the topic speaks of. */
  function TopicVersions(messages: seq<Message>): set<Key> {
    set k | 0 <= k < |messages| && messages[k].Valid? :: Key(messages[k].id, messages[k].version)
  }

  /** Some message with the same version as message k was reached and got through. */
  ghost predicate CarriedThrough(messages: seq<Message>, oracles: seq<Oracle>, k: nat)
    requires k < |messages|
  {
    exists s: nat, j: nat :: LandsIn(messages, oracles, s, j) && KeysOf(messages[j]) == KeysOf(messages[k])
  }

  lemma LandedIffCarried(messages: seq<Message>, oracles: seq<Oracle>, k: nat)
    requires k < |messages| && messages[k].Valid?
    ensures Key(messages[k].id, messages[k].version) in LandedKeys(messages, oracles) <==> CarriedThrough(messages, oracles, k)
  {
    var key := Key(messages[k].id, messages[k].version);
    if key in LandedKeys(messages, oracles) {
      var s, j :| 0 <= s < |oracles| && 0 <= j < |messages| && LandsIn(messages, oracles, s, j) && messages[j].Valid?
                  && key == Key(messages[j].id, messages[j].version);
      assert LandsIn(messages, oracles, s, j) && KeysOf(messages[j]) == KeysOf(messages[k]);
    }
    if CarriedThrough(messages, oracles, k) {
      var s: nat, j: nat :| LandsIn(messages, oracles, s, j) && KeysOf(messages[j]) == KeysOf(messages[k]);
      assert key in KeysOf(messages[j]);
    }
  }

  lemma LandedInTopic(messages: seq<Message>, oracles: seq<Oracle>)
    ensures LandedKeys(messages, oracles) <= TopicVersions(messages)
  {
  }

  /**
   When the topic is fully indexed. The index holds all its versions exactly when each was got through
   by some message that carries it; a message given up is harmless only if another one stands in.
   */
  lemma FullyIndexedExactly(messages: seq<Message>, oracles: seq<Oracle>)
    ensures Run(Sessions(messages, oracles).0).hasVersion == TopicVersions(messages)
       <==> forall k | 0 <= k < |messages| && messages[k].Valid? :: CarriedThrough(messages, oracles, k)
  {
    SessionsIndex(messages, oracles);
    LandedInTopic(messages, oracles);
    forall k | 0 <= k < |messages| && messages[k].Valid?
      ensures Key(messages[k].id, messages[k].version) in LandedKeys(messages, oracles) <==> CarriedThrough(messages, oracles, k)
      ensures Key(messages[k].id, messages[k].version) in TopicVersions(messages)
    {
      LandedIffCarried(messages, oracles, k);
    }
  }

  /** Message k carries the highest version its instruction has in the topic. */
  predicate IsHighest(messages: seq<Message>, k: nat) {
    && k < |messages| && messages[k].Valid?
    && forall j | 0 <= j < |messages| && messages[j].Valid? && messages[j].id == messages[k].id ::
         messages[j].version <= messages[k].version
  }

  lemma HighestIsLatest(messages: seq<Message>, k: nat)
    requires k < |messages| && messages[k].Valid?
    ensures IsHighest(messages, k) <==> Key(messages[k].id, messages[k].version) in Latest(TopicVersions(messages))
  {
    var key, all := Key(messages[k].id, messages[k].version), TopicVersions(messages);
    assert forall j | 0 <= j < |messages| && messages[j].Valid? :: Key(messages[j].id, messages[j].version) in all;
    assert key in all;
    if IsHighest(messages, k) {
      assert IsLatest(all, key);
    }
  }

  lemma LatestOfPart(some: set<Key>, all: set<Key>)
    requires some <= all
    ensures Latest(some) == Latest(all) <==> Latest(all) <= some
  {
    if Latest(all) <= some {
      forall k | k in Latest(some) ensures k in Latest(all) {
        var top := LatestExists(all, k);
        assert top in some && IsLatest(some, k);
      }
    }
  }

  /** CURRENT is right for the topic exactly when its highest versions were got through. */
  lemma CurrentExactly(messages: seq<Message>, oracles: seq<Oracle>)
    ensures Run(Sessions(messages, oracles).0).current == Latest(TopicVersions(messages))
       <==> forall k | 0 <= k < |messages| && IsHighest(messages, k) :: CarriedThrough(messages, oracles, k)
  {
    SessionsIndex(messages, oracles);
    LandedInTopic(messages, oracles);
    LatestOfPart(LandedKeys(messages, oracles), TopicVersions(messages));
    forall k | 0 <= k < |messages| && messages[k].Valid?
      ensures Key(messages[k].id, messages[k].version) in LandedKeys(messages, oracles) <==> CarriedThrough(messages, oracles, k)
      ensures IsHighest(messages, k) <==> Key(messages[k].id, messages[k].version) in Latest(TopicVersions(messages))
    {
      LandedIffCarried(messages, oracles, k);
      HighestIsLatest(messages, k);
    }
  }

  /** No session gives a message up: every message it reaches succeeds or the session crashes on it. */
  predicate NothingSkipped(messages: seq<Message>, oracles: seq<Oracle>) {
    forall s, k | 0 <= s < |oracles| && 0 <= k < |messages| :: MessageEnd(k, 1, oracles[s]) in {Success, Crash}
  }

  lemma {:induction false} SuccessGetsThrough(offset: nat, a: nat, oracle: Oracle)
    requires 1 <= a <= MAX_RETRIES && MessageEnd(offset, a, oracle) == Success
    ensures GetsThrough(offset, a, oracle)
    decreases MAX_RETRIES - a
  {
    if Tried(oracle, offset, a).kind != Success {
      SuccessGetsThrough(offset, a + 1, oracle);
    }
  }

  /** In particular: if no message is given up, every committed one has been processed by both transactions. */
  lemma CommittedAreProcessed(messages: seq<Message>, oracles: seq<Oracle>)
    requires NothingSkipped(messages, oracles)
    ensures var (ops, committed) := Sessions(messages, oracles);
            && committed <= |messages|
            && (forall k | 0 <= k < committed :: Processed(ops, messages[k]))
            && (forall op | op in ops :: FromTopic(messages, op))
  {
    CommittedAreSettled(messages, oracles);
    var (ops, committed) := Sessions(messages, oracles);
    forall k | 0 <= k < committed ensures Processed(ops, messages[k]) {
      assert SettledSomewhere(messages, oracles, ops, k);
      var s: nat :| Settled(messages, oracles, ops, s, k);
      assert MessageEnd(k, 1, oracles[s]) in {Success, Crash};
    }
  }

  /** And a topic committed to its end is then fully indexed. */
  lemma TopicIsIndexed(messages: seq<Message>, oracles: seq<Oracle>)
    requires NothingSkipped(messages, oracles) && Sessions(messages, oracles).1 == |messages|
    ensures var g := Run(Sessions(messages, oracles).0);
            g.hasVersion == TopicVersions(messages) && g.current == Latest(TopicVersions(messages))
  {
    CommittedAreSettled(messages, oracles);
    var ops := Sessions(messages, oracles).0;
    forall k | 0 <= k < |messages| ensures CarriedThrough(messages, oracles, k) {
      assert SettledSomewhere(messages, oracles, ops, k);
      var s: nat :| Settled(messages, oracles, ops, s, k);
      assert MessageEnd(k, 1, oracles[s]) in {Success, Crash};
      SuccessGetsThrough(k, 1, oracles[s]);
      assert LandsIn(messages, oracles, s, k);
    }
    FullyIndexedExactly(messages, oracles);
    CurrentExactly(messages, oracles);
  }
}
