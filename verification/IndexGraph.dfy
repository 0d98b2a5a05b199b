/**
 The instruction part of the graph index and the two writers that feed it: facts,
 in a state query followed by a conflict query, and security events, in one
 transaction.

 Messages arrive in any order and any number of times, so the results are stated over
 arbitrary sequences of the writers' transactions.
 */
module IndexGraph {
  import opened Wrappers

  /** Version n of instruction id: what the text key `id:n` of a version node stands for. */
  datatype Key = Key(id: string, n: nat)

  /** The snapshot fields a message carries; an empty string stands for a missing value. */
  datatype Snap = Snap(status: string, account: string, currency: string)

  /** The two writers keep the creditor account under different property names. */
  datatype Node = Node(status: string, currency: string, factAccount: string, eventAccount: string)

  datatype Graph = Graph(
    nodes: map<Key, Node>,
    hasVersion: set<Key>,                  // (i)-[:HAS_VERSION]->(v)
    current: set<Key>,                     // (i)-[:CURRENT]->(v)
    versionConflicts: set<(Key, Key)>,     // CONFLICTS_WITH between versions
    conflicts: set<(string, string)>)      // CONFLICTS_WITH between instructions

  datatype Op =
    | FactState(id: string, version: nat, snap: Snap)
    | FactConflicts(id: string, version: nat, snap: Snap)
    | Event(id: string, numbered: Option<nat>, snap: Snap)

  const EMPTY := Graph(map[], {}, {}, {}, {})

  predicate FactActive(status: string) {
    status in {"STANDING", "SUBMITTED", "PENDING_APPROVAL"}
  }

  predicate EventActive(status: string) {
    status in {"STANDING", "SINGLE_USE", "PENDING"}
  }

  function CurrentOf(g: Graph, id: string): set<Key> {
    set k | k in g.current && k.id == id
  }

  function OldNode(g: Graph, k: Key): Node {
    if k in g.nodes then g.nodes[k] else Node("", "", "", "")
  }

  function Merged(g: Graph, k: Key, node: Node): Graph {
    g.(nodes := g.nodes[k := node], hasVersion := g.hasVersion + {k})
  }

  /** Fact writer: move CURRENT when there is none or this version is at least one of them. */
  function AdvanceByFact(g: Graph, k: Key): Graph {
    var now := CurrentOf(g, k.id);
    if now == {} || exists e :: e in now && k.n >= e.n then g.(current := g.current - now + {k}) else g
  }

  /** Event writer: replace exactly the CURRENT edges to older versions. */
  function AdvanceByEvent(g: Graph, k: Key): Graph {
    var now := CurrentOf(g, k.id);
    var older := set e | e in now && k.n > e.n;
    if now == {} || older != {} then g.(current := g.current - older + {k}) else g
  }

  predicate Matches(g: Graph, k: Key, id: string, snap: Snap) {
    k in g.nodes && k.id != id && g.nodes[k].currency == snap.currency
  }

  function ConflictByFact(g: Graph, id: string, snap: Snap): Graph {
    if snap.account == "" || snap.currency == ""
       || !exists c :: c in g.current && c.id == id && c in g.nodes && FactActive(g.nodes[c].status)
    then g
    else
      var others := set k | k in g.current && Matches(g, k, id, snap)
                            && g.nodes[k].factAccount == snap.account && FactActive(g.nodes[k].status) :: k.id;
      g.(conflicts := g.conflicts + (set o | o in others :: (id, o)) + (set o | o in others :: (o, id)))
  }

  function ConflictByEvent(g: Graph, v: Key, snap: Snap): Graph {
    if snap.account == "" || snap.currency == "" then g
    else
      var others := set k | k in g.nodes && Matches(g, k, v.id, snap)
                            && g.nodes[k].eventAccount == snap.account && EventActive(g.nodes[k].status);
      g.(versionConflicts := g.versionConflicts + (set o | o in others :: (v, o)) + (set o | o in others :: (o, v)))
  }

  /** One committed transaction. */
  function Do(g: Graph, op: Op): Graph {
    match op
    case FactState(id, n, s) =>
      var k := Key(id, n);
      AdvanceByFact(Merged(g, k, Node(s.status, s.currency, s.account, OldNode(g, k).eventAccount)), k)
    case FactConflicts(id, n, s) =>
      ConflictByFact(g, id, s)
    case Event(id, None, s) => g
    case Event(id, Some(n), s) =>
      var k := Key(id, n);
      var m := Merged(g, k, Node(s.status, s.currency, OldNode(g, k).factAccount, s.account));
      ConflictByEvent(AdvanceByEvent(m, k), k, s)
  }

  function Run(ops: seq<Op>): Graph {
    if ops == [] then EMPTY else Do(Run(ops[..|ops| - 1]), ops[|ops| - 1])
  }

  // ---------------------------------------------------------------------------------------------
  // CURRENT and HAS_VERSION
  // ---------------------------------------------------------------------------------------------

  /** The versions a transaction writes. */
  function Writes(op: Op): set<Key> {
    match op
    case FactState(id, n, _) => {Key(id, n)}
    case FactConflicts(_, _, _) => {}
    case Event(id, numbered, _) => if numbered.Some? then {Key(id, numbered.value)} else {}
  }

  function Written(ops: seq<Op>): set<Key> {
    if ops == [] then {} else Written(ops[..|ops| - 1]) + Writes(ops[|ops| - 1])
  }

  lemma {:induction false} WrittenHas(ops: seq<Op>, i: nat)
    requires i < |ops|
    ensures Writes(ops[i]) <= Written(ops)
    decreases |ops|
  {
    if i < |ops| - 1 {
      WrittenHas(ops[..|ops| - 1], i);
    }
  }

  predicate IsLatest(written: set<Key>, k: Key) {
    k in written && forall m | m in written && m.id == k.id :: m.n <= k.n
  }

  /** The highest version of each instruction. */
  function Latest(written: set<Key>): set<Key> {
    set k | k in written && IsLatest(written, k)
  }

  lemma {:induction false} LatestExists(written: set<Key>, m: Key) returns (k: Key)
    requires m in written
    ensures k in Latest(written) && k.id == m.id && k.n >= m.n
    decreases |written|
  {
    if IsLatest(written, m) {
      k := m;
    } else {
      var p :| p in written && p.id == m.id && p.n > m.n;
      k := LatestExists(written - {m}, p);
    }
  }

  /** Writing one more version replaces the instruction's highest one exactly when it is not lower. */
  lemma LatestOfOneMore(written: set<Key>, k: Key)
    ensures var now := set e | e in Latest(written) && e.id == k.id;
            Latest(written + {k}) == if now == {} || exists e :: e in now && k.n >= e.n
                                     then Latest(written) - now + {k} else Latest(written)
  {
    var now := set e | e in Latest(written) && e.id == k.id;
    if m :| m in written && m.id == k.id {
      var e := LatestExists(written, m);
      assert e in now;
      assert now == {e};
    }
  }

  /** With at most one CURRENT edge, replacing the older ones is replacing all when one is not newer. */
  lemma EventAdvancesLikeFact(g: Graph, k: Key)
    requires forall e, f | e in CurrentOf(g, k.id) && f in CurrentOf(g, k.id) :: e == f
    ensures AdvanceByEvent(g, k).current == AdvanceByFact(g, k).current
  {
    var now := CurrentOf(g, k.id);
    var older := set e | e in now && k.n > e.n;
    if e :| e in now {
      assert now == {e};
      if k.n > e.n {
        assert e in older;
        assert older == now;
      } else {
        assert older == {};
        if k.n == e.n { assert k == e; }
      }
    }
  }

  /**
   Convergence. After any sequence of the two writers' transactions, HAS_VERSION holds exactly the
   versions written, and CURRENT points exactly at the highest version of each instruction.
   */
  lemma {:induction false} CurrentConverges(ops: seq<Op>)
    ensures Run(ops).hasVersion == Run(ops).nodes.Keys == Written(ops)
    ensures Run(ops).current == Latest(Written(ops))
    decreases |ops|
  {
    if ops != [] {
      var g, op := Run(ops[..|ops| - 1]), ops[|ops| - 1];
      CurrentConverges(ops[..|ops| - 1]);
      if Writes(op) != {} {
        var k := if op.FactState? then Key(op.id, op.version) else Key(op.id, op.numbered.value);
        StepConverges(g, op, k, Written(ops[..|ops| - 1]));
      }
    }
  }

  lemma StepConverges(g: Graph, op: Op, k: Key, written: set<Key>)
    requires g.current == Latest(written) && Writes(op) == {k}
    ensures Do(g, op).current == Latest(written + {k})
    ensures Do(g, op).hasVersion == g.hasVersion + {k} && Do(g, op).nodes.Keys == g.nodes.Keys + {k}
  {
    if op.Event? {
      GateConverges(Merged(g, k, Node(op.snap.status, op.snap.currency, OldNode(g, k).factAccount, op.snap.account)),
                    k, written);
    } else {
      GateConverges(Merged(g, k, Node(op.snap.status, op.snap.currency, op.snap.account, OldNode(g, k).eventAccount)),
                    k, written);
    }
  }

  /** Either gate turns the highest versions before the write into those after it. */
  lemma GateConverges(g: Graph, k: Key, written: set<Key>)
    requires g.current == Latest(written)
    ensures AdvanceByFact(g, k).current == Latest(written + {k}) == AdvanceByEvent(g, k).current
  {
    LatestOfOneMore(written, k);
    assert CurrentOf(g, k.id) == set e | e in Latest(written) && e.id == k.id;
    EventAdvancesLikeFact(g, k);
  }

  lemma LatestIsOne(written: set<Key>, g: Graph, id: string)
    requires g.current == Latest(written)
    ensures |CurrentOf(g, id)| == if exists k :: k in written && k.id == id then 1 else 0
  {
    if m :| m in written && m.id == id {
      var k := LatestExists(written, m);
      assert forall e | e in CurrentOf(g, id) :: e == k;
      assert CurrentOf(g, id) == {k};
    } else {
      assert CurrentOf(g, id) == {};
    }
  }

  /** An instruction has a CURRENT edge once a version was written, never two, and only the set written matters. */
  lemma CurrentIsUnique(ops: seq<Op>, more: seq<Op>, id: string)
    requires Written(ops) == Written(more)
    ensures Run(ops).current == Run(more).current
    ensures |CurrentOf(Run(ops), id)| == if exists k :: k in Written(ops) && k.id == id then 1 else 0
  {
    CurrentConverges(ops);
    CurrentConverges(more);
    LatestIsOne(Written(ops), Run(ops), id);
  }

  lemma {:induction false} WrittenGrows(ops: seq<Op>, n: nat)
    requires n <= |ops|
    ensures Written(ops[..n]) <= Written(ops)
    decreases |ops|
  {
    if n < |ops| {
      assert ops[..|ops| - 1][..n] == ops[..n];
      WrittenGrows(ops[..|ops| - 1], n);
    } else {
      assert ops[..n] == ops;
    }
  }

  /** The version CURRENT points at never goes down. */
  lemma CurrentNeverDecreases(ops: seq<Op>, n: nat, before: Key, after: Key)
    requires n <= |ops| && before.id == after.id
    requires before in Run(ops[..n]).current && after in Run(ops).current
    ensures before.n <= after.n
  {
    CurrentConverges(ops[..n]);
    CurrentConverges(ops);
    WrittenGrows(ops, n);
    assert IsLatest(Written(ops[..n]), before) && IsLatest(Written(ops), after);
  }

  // ---------------------------------------------------------------------------------------------
  // CONFLICTS_WITH
  // ---------------------------------------------------------------------------------------------

  /** Every message about a version carries the snapshot that version was stored with. */
  predicate Faithful(op: Op, store: map<Key, Snap>) {
    match op
    case FactState(id, n, s) => Key(id, n) in store && s == store[Key(id, n)]
    case FactConflicts(id, n, s) => Key(id, n) in store && s == store[Key(id, n)]
    case Event(id, numbered, s) => numbered.Some? ==> Key(id, numbered.value) in store && s == store[Key(id, numbered.value)]
  }

  predicate AllFaithful(ops: seq<Op>, store: map<Key, Snap>) {
    forall i | 0 <= i < |ops| :: Faithful(ops[i], store)
  }

  /** A node carries its version's status and currency, and each writer's account once it has written. */
  predicate NodeOk(ops: seq<Op>, store: map<Key, Snap>, k: Key, node: Node) {
    && k in store && node.status == store[k].status && node.currency == store[k].currency
    && (FactState(k.id, k.n, store[k]) in ops ==> node.factAccount == store[k].account)
    && (Event(k.id, Some(k.n), store[k]) in ops ==> node.eventAccount == store[k].account)
  }

  lemma {:induction false} NodesFaithful(ops: seq<Op>, store: map<Key, Snap>)
    requires AllFaithful(ops, store)
    ensures forall k | k in Run(ops).nodes :: NodeOk(ops, store, k, Run(ops).nodes[k])
    decreases |ops|
  {
    if ops != [] {
      var before, op := ops[..|ops| - 1], ops[|ops| - 1];
      NodesFaithful(before, store);
      assert Faithful(op, store);
      CurrentConverges(before);
      forall k | k in Run(ops).nodes ensures NodeOk(ops, store, k, Run(ops).nodes[k]) {
        NodeStaysFaithful(before, op, store, k);
      }
    }
  }

  lemma NodeStaysFaithful(before: seq<Op>, op: Op, store: map<Key, Snap>, k: Key)
    requires Faithful(op, store) && k in Do(Run(before), op).nodes
    requires k in Run(before).nodes ==> NodeOk(before, store, k, Run(before).nodes[k])
    requires Run(before).nodes.Keys == Written(before)
    ensures NodeOk(before + [op], store, k, Do(Run(before), op).nodes[k])
  {
    if k !in Run(before).nodes {
      NotWritten(before, k, FactState(k.id, k.n, store[k]));
      NotWritten(before, k, Event(k.id, Some(k.n), store[k]));
    }
  }

  lemma NotWritten(ops: seq<Op>, k: Key, op: Op)
    requires k !in Written(ops) && k in Writes(op)
    ensures op !in ops
  {
    if op in ops {
      var i :| 0 <= i < |ops| && ops[i] == op;
      WrittenHas(ops, i);
    }
  }

  /** No transaction removes a CONFLICTS_WITH edge, and every edge it adds comes with its converse. */
  lemma {:induction false} ConflictsGrow(ops: seq<Op>, n: nat)
    requires n <= |ops|
    ensures Run(ops[..n]).conflicts <= Run(ops).conflicts
    ensures Run(ops[..n]).versionConflicts <= Run(ops).versionConflicts
    decreases |ops|
  {
    if n < |ops| {
      assert ops[..|ops| - 1][..n] == ops[..n];
      ConflictsGrow(ops[..|ops| - 1], n);
    } else {
      assert ops[..n] == ops;
    }
  }

  ghost predicate SymmetricIrreflexive<T(!new)>(r: set<(T, T)>) {
    forall a, b :: (a, b) in r ==> (b, a) in r && a != b
  }

  lemma {:induction false} ConflictsSymmetric(ops: seq<Op>)
    ensures SymmetricIrreflexive(Run(ops).conflicts) && SymmetricIrreflexive(Run(ops).versionConflicts)
    decreases |ops|
  {
    if ops != [] {
      ConflictsSymmetric(ops[..|ops| - 1]);
    }
  }

  predicate LatestIn(ops: seq<Op>, k: Key) {
    IsLatest(Written(ops), k)
  }

  /** When the later of two conflict queries runs, both versions are current and carry their accounts. */
  lemma ConflictFound(ops: seq<Op>, store: map<Key, Snap>, a: Key, b: Key)
    requires AllFaithful(ops, store) && a in store && b in store && a.id != b.id
    requires FactState(a.id, a.n, store[a]) in ops && FactState(b.id, b.n, store[b]) in ops
    requires LatestIn(ops, a) && LatestIn(ops, b)
    requires store[a].account == store[b].account != "" && store[a].currency == store[b].currency != ""
    requires FactActive(store[a].status) && FactActive(store[b].status)
    ensures {(a.id, b.id), (b.id, a.id)} <= ConflictByFact(Run(ops), a.id, store[a]).conflicts
  {
    var g := Run(ops);
    CurrentConverges(ops);
    NodesFaithful(ops, store);
    assert NodeOk(ops, store, a, g.nodes[a]) && NodeOk(ops, store, b, g.nodes[b]);
    var others := set k | k in g.current && Matches(g, k, a.id, store[a])
                          && g.nodes[k].factAccount == store[a].account && FactActive(g.nodes[k].status) :: k.id;
    assert b.id in others;
    var from, to := (set o | o in others :: (a.id, o)), (set o | o in others :: (o, a.id));
    assert (a.id, b.id) in from && (b.id, a.id) in to;
    assert ConflictByFact(g, a.id, store[a]).conflicts == g.conflicts + from + to;
  }

  lemma FactsMeet(ops: seq<Op>, store: map<Key, Snap>, a: Key, b: Key, ma: nat, ca: nat, mb: nat)
    requires AllFaithful(ops, store) && a in store && b in store && a.id != b.id
    requires ma < ca < |ops| && mb < ca
    requires ops[ma] == FactState(a.id, a.n, store[a]) && ops[ca] == FactConflicts(a.id, a.n, store[a])
    requires ops[mb] == FactState(b.id, b.n, store[b])
    requires LatestIn(ops, a) && LatestIn(ops, b)
    requires store[a].account == store[b].account != "" && store[a].currency == store[b].currency != ""
    requires FactActive(store[a].status) && FactActive(store[b].status)
    ensures {(a.id, b.id), (b.id, a.id)} <= Run(ops).conflicts
  {
    var prefix := ops[..ca];
    assert prefix[ma] == ops[ma] && prefix[mb] == ops[mb];
    WrittenGrows(ops, ca);
    WrittenHas(prefix, ma);
    WrittenHas(prefix, mb);
    assert LatestIn(prefix, a) && LatestIn(prefix, b);
    assert AllFaithful(prefix, store);
    ConflictFound(prefix, store, a, b);
    assert ops[..ca + 1][..ca] == prefix;
    assert Run(ops[..ca + 1]) == ConflictByFact(Run(prefix), a.id, store[a]);
    ConflictsGrow(ops, ca + 1);
  }

  /**
   Completeness. Whatever else both writers did and in whatever order, once the facts of two
   instructions' highest versions have each been processed by both queries, and both versions are
   active with the same non-empty creditor account and currency, CONFLICTS_WITH holds both ways.
   */
  lemma ConflictsComplete(ops: seq<Op>, store: map<Key, Snap>, a: Key, b: Key, ma: nat, ca: nat, mb: nat, cb: nat)
    requires AllFaithful(ops, store) && a in store && b in store && a.id != b.id
    requires ma < ca < |ops| && mb < cb < |ops|
    requires ops[ma] == FactState(a.id, a.n, store[a]) && ops[ca] == FactConflicts(a.id, a.n, store[a])
    requires ops[mb] == FactState(b.id, b.n, store[b]) && ops[cb] == FactConflicts(b.id, b.n, store[b])
    requires LatestIn(ops, a) && LatestIn(ops, b)
    requires store[a].account == store[b].account != "" && store[a].currency == store[b].currency != ""
    requires store[a].status in {"STANDING", "SUBMITTED", "PENDING_APPROVAL"}
    requires store[b].status in {"STANDING", "SUBMITTED", "PENDING_APPROVAL"}
    ensures {(a.id, b.id), (b.id, a.id)} <= Run(ops).conflicts
  {
    if ca < cb {
      FactsMeet(ops, store, b, a, mb, cb, ma);
    } else {
      FactsMeet(ops, store, a, b, ma, ca, mb);
    }
  }

  /** An event's conflict query links its version to every active one with its account and currency. */
  lemma EventFinds(g: Graph, v: Key, snap: Snap, b: Key)
    requires snap.account != "" && snap.currency != "" && Matches(g, b, v.id, snap)
    requires g.nodes[b].eventAccount == snap.account && EventActive(g.nodes[b].status)
    ensures {(v, b), (b, v)} <= ConflictByEvent(g, v, snap).versionConflicts
  {
    var others := set k | k in g.nodes && Matches(g, k, v.id, snap)
                          && g.nodes[k].eventAccount == snap.account && EventActive(g.nodes[k].status);
    assert b in others;
    assert (v, b) in (set o | o in others :: (v, o)) && (b, v) in (set o | o in others :: (o, v));
  }

  /** A version whose event was written carries its snapshot's fields. */
  lemma EventNode(ops: seq<Op>, store: map<Key, Snap>, b: Key, j: nat)
    requires AllFaithful(ops, store) && b in store && j < |ops| && ops[j] == Event(b.id, Some(b.n), store[b])
    ensures b in Run(ops).nodes && Run(ops).nodes[b].status == store[b].status
    ensures Run(ops).nodes[b].currency == store[b].currency && Run(ops).nodes[b].eventAccount == store[b].account
  {
    WrittenHas(ops, j);
    CurrentConverges(ops);
    NodesFaithful(ops, store);
    assert NodeOk(ops, store, b, Run(ops).nodes[b]);
  }

  lemma EventStep(g: Graph, a: Key, snap: Snap, b: Key)
    requires snap.account != "" && snap.currency != "" && b in g.nodes && b.id != a.id
    requires g.nodes[b].currency == snap.currency && g.nodes[b].eventAccount == snap.account
    requires EventActive(g.nodes[b].status)
    ensures {(a, b), (b, a)} <= Do(g, Event(a.id, Some(a.n), snap)).versionConflicts
  {
    var m := AdvanceByEvent(Merged(g, a, Node(snap.status, snap.currency, OldNode(g, a).factAccount, snap.account)), a);
    assert m.nodes[b] == g.nodes[b];
    EventFinds(m, a, snap, b);
  }

  /** The event writer links versions: two active ones with the same account and currency, either order. */
  lemma VersionConflictsComplete(ops: seq<Op>, store: map<Key, Snap>, a: Key, b: Key, i: nat, j: nat)
    requires AllFaithful(ops, store) && a in store && b in store && a.id != b.id
    requires j < i < |ops|
    requires ops[i] == Event(a.id, Some(a.n), store[a]) && ops[j] == Event(b.id, Some(b.n), store[b])
    requires store[a].account == store[b].account != "" && store[a].currency == store[b].currency != ""
    requires store[b].status in {"STANDING", "SINGLE_USE", "PENDING"}
    ensures {(a, b), (b, a)} <= Run(ops).versionConflicts
  {
    var prefix := ops[..i];
    EventNode(prefix, store, b, j);
    EventStep(Run(prefix), a, store[a], b);
    assert ops[..i + 1][..i] == prefix;
    assert Run(ops[..i + 1]) == Do(Run(prefix), ops[i]);
    ConflictsGrow(ops, i + 1);
  }

  // ---------------------------------------------------------------------------------------------
  // Where a CONFLICTS_WITH edge comes from
  // ---------------------------------------------------------------------------------------------

  /** A node has its version's status and currency, and of each account either that of its version or none. */
  predicate NodeBounded(store: map<Key, Snap>, k: Key, node: Node) {
    && k in store && node.status == store[k].status && node.currency == store[k].currency
    && (node.factAccount == "" || node.factAccount == store[k].account)
    && (node.eventAccount == "" || node.eventAccount == store[k].account)
  }

  ghost predicate NodesBounded(g: Graph, store: map<Key, Snap>) {
    forall k | k in g.nodes :: NodeBounded(store, k, g.nodes[k])
  }

  predicate SamePayee(a: Snap, b: Snap) {
    a.account == b.account && b.account != "" && a.currency == b.currency && b.currency != ""
  }

  /** Two stored versions with the same creditor account and currency, the second active, and an active one of the first. */
  ghost predicate Grounded(store: map<Key, Snap>, i: string, j: string) {
    exists a, b, c :: GroundedBy(store, a, b, c) && a.id == i && b.id == j
  }

  predicate GroundedBy(store: map<Key, Snap>, a: Key, b: Key, c: Key) {
    && a in store && b in store && c in store && a.id != b.id && c.id == a.id
    && SamePayee(store[a], store[b])
    && store[b].status in {"STANDING", "SUBMITTED", "PENDING_APPROVAL"}
    && store[c].status in {"STANDING", "SUBMITTED", "PENDING_APPROVAL"}
  }

  /** The same for two versions. */
  predicate VersionsGrounded(store: map<Key, Snap>, v: Key, o: Key) {
    && v in store && o in store && v.id != o.id && SamePayee(store[v], store[o])
    && (store[v].status in {"STANDING", "SINGLE_USE", "PENDING"} || store[o].status in {"STANDING", "SINGLE_USE", "PENDING"})
  }

  ghost predicate EdgesGrounded(g: Graph, store: map<Key, Snap>) {
    && (forall i, j | (i, j) in g.conflicts :: Grounded(store, i, j) || Grounded(store, j, i))
    && (forall v, o | (v, o) in g.versionConflicts :: VersionsGrounded(store, v, o))
  }

  lemma StepBounds(g: Graph, op: Op, store: map<Key, Snap>)
    requires Faithful(op, store) && NodesBounded(g, store)
    ensures NodesBounded(Do(g, op), store)
  {
  }

  lemma FactEdge(g: Graph, store: map<Key, Snap>, id: string, n: nat, i: string, j: string)
    requires NodesBounded(g, store) && Key(id, n) in store
    requires (i, j) in ConflictByFact(g, id, store[Key(id, n)]).conflicts && (i, j) !in g.conflicts
    ensures Grounded(store, i, j) || Grounded(store, j, i)
  {
    var snap := store[Key(id, n)];
    var c :| c in g.current && c.id == id && c in g.nodes && FactActive(g.nodes[c].status);
    assert NodeBounded(store, c, g.nodes[c]);
    var other := if i == id then j else i;
    var k :| k in g.current && Matches(g, k, id, snap) && g.nodes[k].factAccount == snap.account
             && FactActive(g.nodes[k].status) && k.id == other;
    assert NodeBounded(store, k, g.nodes[k]);
    assert GroundedBy(store, Key(id, n), k, c);
  }

  lemma EventEdge(g: Graph, store: map<Key, Snap>, v: Key, a: Key, b: Key)
    requires NodesBounded(g, store) && v in store
    requires (a, b) in ConflictByEvent(g, v, store[v]).versionConflicts && (a, b) !in g.versionConflicts
    ensures VersionsGrounded(store, a, b)
  {
    var k := if a == v then b else a;
    assert k in g.nodes && Matches(g, k, v.id, store[v]) && g.nodes[k].eventAccount == store[v].account
           && EventActive(g.nodes[k].status);
    assert NodeBounded(store, k, g.nodes[k]);
  }

  lemma FactConflictsGrounded(g: Graph, op: Op, store: map<Key, Snap>)
    requires op.FactConflicts? && Faithful(op, store) && NodesBounded(g, store) && EdgesGrounded(g, store)
    ensures EdgesGrounded(Do(g, op), store)
  {
    forall i, j | (i, j) in Do(g, op).conflicts ensures Grounded(store, i, j) || Grounded(store, j, i) {
      if (i, j) !in g.conflicts { FactEdge(g, store, op.id, op.version, i, j); }
    }
  }

  lemma EventGrounded(g: Graph, op: Op, store: map<Key, Snap>)
    requires op.Event? && op.numbered.Some? && Faithful(op, store) && NodesBounded(g, store) && EdgesGrounded(g, store)
    ensures EdgesGrounded(Do(g, op), store)
  {
    var k := Key(op.id, op.numbered.value);
    var m := AdvanceByEvent(Merged(g, k, Node(op.snap.status, op.snap.currency, OldNode(g, k).factAccount, op.snap.account)), k);
    assert NodesBounded(m, store);
    forall v, o | (v, o) in Do(g, op).versionConflicts ensures VersionsGrounded(store, v, o) {
      if (v, o) !in g.versionConflicts { EventEdge(m, store, k, v, o); }
    }
  }

  /**
   Soundness, for whatever sequence of faithful messages: an edge between instructions comes from stored
   versions of both with the same non-empty account and currency that were active, an edge between
   versions from just these two.
   */
  lemma {:induction false} ConflictsSound(ops: seq<Op>, store: map<Key, Snap>)
    requires AllFaithful(ops, store)
    ensures NodesBounded(Run(ops), store) && EdgesGrounded(Run(ops), store)
    decreases |ops|
  {
    if ops != [] {
      var before, op := ops[..|ops| - 1], ops[|ops| - 1];
      assert Faithful(op, store);
      ConflictsSound(before, store);
      StepBounds(Run(before), op, store);
      if op.FactConflicts? {
        FactConflictsGrounded(Run(before), op, store);
      } else if op.Event? && op.numbered.Some? {
        EventGrounded(Run(before), op, store);
      }
    }
  }
}
