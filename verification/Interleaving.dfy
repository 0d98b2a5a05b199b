/**
 Handlers of the instruction service running concurrently over one document store.

 A handler reads the current version, waits for the policy decision, then runs one
 transaction that re-reads the open version, closes it, inserts the next version and
 the audit event, and commits; afterwards it publishes a fact. Every step of every
 handler may be interleaved with steps of any other, and a handler may stop anywhere.
 Transactions follow snapshot isolation: a write to a document that changed since the
 transaction began, or that another open transaction has written, aborts the writer.
 */
module Interleaving {
  import opened Wrappers
  import opened Lifecycle
  import opened VersionChain

  datatype Job = NewInstruction(terms: Terms) | Change(req: Request)

  datatype Phase =
    | Deciding                                      // snapshot read, policy not yet evaluated
    | Ready(at: Time)                               // allowed; fields assigned at `at`
    | InTransaction(at: Time, seen: nat, now: Time) // transaction open, version `seen` found current
    | Holding(at: Time, seen: nat, now: Time)       // close and insert written, not committed
    | Saved(version: nat)                           // committed, not yet published

  /** `base` is the version read before the policy decision; 0 for a new instruction. */
  datatype Handler = Handler(id: string, job: Job, actor: string, base: nat, snapshot: Instruction, phase: Phase)

  datatype AuditEvent = AuditEvent(id: string, action: Action, actor: string, success: bool, version: Option<nat>)

  datatype Fact = Fact(id: string, version: nat, action: Action, snapshot: Instruction)

  datatype World = World(
    docs: map<string, seq<Doc>>,
    origins: map<string, seq<Origin>>,
    audit: seq<AuditEvent>,
    facts: seq<Fact>,
    handlers: map<nat, Handler>,
    excluded: set<string>)

  datatype Step =
    | Create(h: nat, id: string, terms: Terms, actor: string)
    | Read(h: nat, id: string, req: Request, actor: string)
    | Authorize(h: nat, allowed: bool, at: Time)
    | Begin(h: nat, now: Time)
    | Write(h: nat)
    | Commit(h: nat)
    | Publish(h: nat)
    | Abandon(h: nat)
    | View(id: string, actor: string, allowed: bool)

  function Chain(w: World, id: string): seq<Doc> {
    if id in w.docs then w.docs[id] else []
  }

  function History(w: World, id: string): seq<Origin> {
    if id in w.origins then w.origins[id] else []
  }

  function JobAction(job: Job): Action {
    if job.NewInstruction? then CREATE else ActionOf(job.req)
  }

  function Proposed(h: Handler, at: Time): Instruction {
    if h.job.NewInstruction? then h.snapshot else Prepared(h.snapshot, h.job.req, h.actor, at)
  }

  function SetPhase(w: World, h: nat, p: Phase): World
    requires h in w.handlers
  {
    w.(handlers := w.handlers[h := w.handlers[h].(phase := p)])
  }

  function Drop(w: World, h: nat): World {
    w.(handlers := w.handlers - {h})
  }

  /** An audit document, unless the subject is one the service does not audit. */
  function Audited(w: World, e: AuditEvent): World {
    if e.actor in w.excluded then w else w.(audit := w.audit + [e])
  }

  predicate Locked(w: World, id: string) {
    exists h :: h in w.handlers && w.handlers[h].id == id && w.handlers[h].phase.Holding?
  }

  /** The open version is still the one the transaction found, and no other transaction has written it. */
  predicate NoConflict(w: World, h: nat)
    requires h in w.handlers && w.handlers[h].phase.InTransaction?
  {
    var r := w.handlers[h];
    r.phase.seen == |Chain(w, r.id)| && (r.job.NewInstruction? <==> r.phase.seen == 0) && !Locked(w, r.id)
  }

  /** The chain of r's instruction once r has committed. */
  function CommittedChain(w: World, r: Handler): seq<Doc>
    requires r.phase.Holding?
  {
    var next := Proposed(r, r.phase.at);
    if Chain(w, r.id) == [] then Initial(next, r.phase.now) else Appended(Chain(w, r.id), next, r.phase.now)
  }

  function OriginOf(r: Handler): Origin
    requires r.phase.Holding?
  {
    if r.job.NewInstruction? then Created(r.actor, r.job.terms) else Changed(r.actor, r.job.req, r.phase.at, r.base)
  }

  function Committed(w: World, h: nat): World
    requires h in w.handlers && w.handlers[h].phase.Holding?
  {
    var r := w.handlers[h];
    var v := |Chain(w, r.id)| + 1;
    w.(docs := w.docs[r.id := CommittedChain(w, r)],
       origins := w.origins[r.id := History(w, r.id) + [OriginOf(r)]],
       audit := if r.actor in w.excluded then w.audit
                else w.audit + [AuditEvent(r.id, JobAction(r.job), r.actor, true, Some(v))],
       handlers := if r.actor in w.excluded then w.handlers - {h}
                   else w.handlers[h := r.(phase := Saved(v))])
  }

  function Published(w: World, h: nat): World
    requires h in w.handlers && w.handlers[h].phase.Saved?
  {
    var r := w.handlers[h];
    var v := r.phase.version;
    if 1 <= v <= |Chain(w, r.id)| && FactAccepted(Chain(w, r.id)[v - 1].payload, JobAction(r.job), v) then
      Drop(w.(facts := w.facts + [Fact(r.id, v, JobAction(r.job), Chain(w, r.id)[v - 1].payload)]), h)
    else
      Drop(w, h)
  }

  /** One step; a step that is not possible in `w` leaves it unchanged. */
  function Do(w: World, s: Step): World {
    match s
    case Create(h, id, terms, actor) =>
      if h in w.handlers then w
      else w.(handlers := w.handlers[h := Handler(id, NewInstruction(terms), actor, 0, Drafted(id, terms, actor), Deciding)])
    case Read(h, id, req, actor) =>
      var chain := Chain(w, id);
      if h in w.handlers || chain == [] || !Guard(chain[|chain| - 1].payload.status, req) then w
      else w.(handlers := w.handlers[h := Handler(id, Change(req), actor, |chain|, chain[|chain| - 1].payload, Deciding)])
    case Authorize(h, allowed, at) =>
      if h !in w.handlers || !w.handlers[h].phase.Deciding? then w
      else if allowed then SetPhase(w, h, Ready(at))
      else
        var r := w.handlers[h];
        Drop(Audited(w, AuditEvent(r.id, JobAction(r.job), r.actor, false, None)), h)
    case Begin(h, now) =>
      if h !in w.handlers || !w.handlers[h].phase.Ready? then w
      else SetPhase(w, h, InTransaction(w.handlers[h].phase.at, |Chain(w, w.handlers[h].id)|, now))
    case Write(h) =>
      if h !in w.handlers || !w.handlers[h].phase.InTransaction? then w
      else if NoConflict(w, h) then
        var p := w.handlers[h].phase;
        SetPhase(w, h, Holding(p.at, p.seen, p.now))
      else Drop(w, h)
    case Commit(h) =>
      if h !in w.handlers || !w.handlers[h].phase.Holding? then w else Committed(w, h)
    case Publish(h) =>
      if h !in w.handlers || !w.handlers[h].phase.Saved? then w else Published(w, h)
    case Abandon(h) =>
      Drop(w, h)
    case View(id, actor, allowed) =>
      var chain := Chain(w, id);
      if chain == [] then w
      else Audited(w, AuditEvent(id, VIEW, actor, allowed, if allowed then Some(|chain|) else None))
  }

  function Run(w: World, steps: seq<Step>): World
    decreases |steps|
  {
    if steps == [] then w else Run(Do(w, steps[0]), steps[1..])
  }

  function Empty(excluded: set<string>): World {
    World(map[], map[], [], [], map[], excluded)
  }

  // ---------------------------------------------------------------------------------------------
  // The invariant
  // ---------------------------------------------------------------------------------------------

  predicate IsWriteEvent(e: AuditEvent) {
    e.success && e.action != VIEW
  }

  /** Number of audit events for a successful write of version v of instruction id. */
  function WriteEvents(audit: seq<AuditEvent>, id: string, v: nat): nat {
    if audit == [] then 0
    else
      var e := audit[|audit| - 1];
      WriteEvents(audit[..|audit| - 1], id, v)
      + if IsWriteEvent(e) && e.id == id && e.version == Some(v) then 1 else 0
  }

  lemma WriteEventsAppend(audit: seq<AuditEvent>, e: AuditEvent, id: string, v: nat)
    ensures WriteEvents(audit + [e], id, v)
            == WriteEvents(audit, id, v) + if IsWriteEvent(e) && e.id == id && e.version == Some(v) then 1 else 0
  {
    assert (audit + [e])[..|audit|] == audit;
  }

  /** The version exists and was written by an audited subject. */
  predicate AuditedVersion(w: World, id: string, v: nat) {
    1 <= v <= |History(w, id)| && History(w, id)[v - 1].actor !in w.excluded
  }

  ghost predicate ChainsOk(w: World) {
    && w.docs.Keys == w.origins.Keys
    && forall id | id in w.docs :: ChainOk(id, w.docs[id], w.origins[id])
  }

  predicate SnapshotOk(w: World, r: Handler) {
    match r.job
    case NewInstruction(terms) => r.base == 0 && r.snapshot == Drafted(r.id, terms, r.actor)
    case Change(req) =>
      && 1 <= r.base <= |Chain(w, r.id)|
      && r.snapshot == Chain(w, r.id)[r.base - 1].payload
      && Guard(r.snapshot.status, req)
  }

  predicate HandlerOk(w: World, r: Handler) {
    && SnapshotOk(w, r)
    && (r.phase.InTransaction? ==> r.base <= r.phase.seen <= |Chain(w, r.id)|)
    && (r.phase.Holding? ==> r.phase.seen == |Chain(w, r.id)| && (r.job.NewInstruction? <==> r.phase.seen == 0))
    && (r.phase.Saved? ==>
          && AuditedVersion(w, r.id, r.phase.version)
          && OriginAction(History(w, r.id)[r.phase.version - 1]) == JobAction(r.job))
  }

  ghost predicate HandlersOk(w: World) {
    forall h | h in w.handlers :: HandlerOk(w, w.handlers[h])
  }

  /** Two transactions never hold uncommitted writes on one instruction. */
  ghost predicate LocksOk(w: World) {
    forall g, h | g in w.handlers && h in w.handlers
      && w.handlers[g].phase.Holding? && w.handlers[h].phase.Holding? && w.handlers[g].id == w.handlers[h].id :: g == h
  }

  predicate EventOk(w: World, e: AuditEvent) {
    IsWriteEvent(e) ==>
      && e.version.Some?
      && AuditedVersion(w, e.id, e.version.value)
      && e.action == OriginAction(History(w, e.id)[e.version.value - 1])
      && e.actor == History(w, e.id)[e.version.value - 1].actor
  }

  ghost predicate AuditOk(w: World) {
    && (forall id, v: nat :: WriteEvents(w.audit, id, v) == if AuditedVersion(w, id, v) then 1 else 0)
    && (forall i | 0 <= i < |w.audit| :: EventOk(w, w.audit[i]))
  }

  predicate FactOk(w: World, f: Fact) {
    && AuditedVersion(w, f.id, f.version)
    && f.version <= |Chain(w, f.id)|
    && f.snapshot == Chain(w, f.id)[f.version - 1].payload
    && f.action == OriginAction(History(w, f.id)[f.version - 1])
    && FactAccepted(f.snapshot, f.action, f.version)
  }

  ghost predicate FactsOk(w: World) {
    forall i | 0 <= i < |w.facts| :: FactOk(w, w.facts[i])
  }

  ghost predicate Inv(w: World) {
    ChainsOk(w) && HandlersOk(w) && LocksOk(w) && AuditOk(w) && FactsOk(w)
  }

  // ---------------------------------------------------------------------------------------------
  // Every step keeps the invariant
  // ---------------------------------------------------------------------------------------------

  /** Stored versions and their history only grow. */
  ghost predicate Grown(w: World, x: World) {
    && x.excluded == w.excluded
    && forall id :: Extends(Chain(w, id), Chain(x, id)) && History(w, id) <= History(x, id)
  }

  lemma EventStable(w: World, x: World, e: AuditEvent)
    requires Grown(w, x) && EventOk(w, e)
    ensures EventOk(x, e)
  {
    assert History(w, e.id) <= History(x, e.id);
  }

  lemma FactStable(w: World, x: World, f: Fact)
    requires Grown(w, x) && FactOk(w, f)
    ensures FactOk(x, f)
  {
    assert History(w, f.id) <= History(x, f.id);
    assert Extends(Chain(w, f.id), Chain(x, f.id));
  }

  lemma HandlerStable(w: World, x: World, r: Handler)
    requires Grown(w, x) && HandlerOk(w, r)
    requires r.phase.Holding? ==> |Chain(x, r.id)| == |Chain(w, r.id)|
    ensures HandlerOk(x, r)
  {
    assert History(w, r.id) <= History(x, r.id);
    assert Extends(Chain(w, r.id), Chain(x, r.id));
  }

  /** What a step that does not write a version has to show. */
  lemma NothingStored(w: World, x: World)
    requires Inv(w)
    requires x.docs == w.docs && x.origins == w.origins && x.excluded == w.excluded
    requires forall id, v: nat :: WriteEvents(x.audit, id, v) == WriteEvents(w.audit, id, v)
    requires forall e | e in x.audit :: e in w.audit || !IsWriteEvent(e)
    requires forall f | f in x.facts :: f in w.facts || FactOk(w, f)
    requires forall h | h in x.handlers :: HandlerOk(w, x.handlers[h])
    requires LocksOk(x)
    ensures Inv(x)
  {
    assert Grown(w, x);
    forall id, v: nat ensures WriteEvents(x.audit, id, v) == if AuditedVersion(x, id, v) then 1 else 0 {
      assert AuditedVersion(x, id, v) == AuditedVersion(w, id, v);
    }
    forall i | 0 <= i < |x.audit| ensures EventOk(x, x.audit[i]) {
      if x.audit[i] in w.audit {
        EventStable(w, x, x.audit[i]);
      }
    }
    forall i | 0 <= i < |x.facts| ensures FactOk(x, x.facts[i]) {
      assert x.facts[i] in w.facts || FactOk(w, x.facts[i]);
      FactStable(w, x, x.facts[i]);
    }
    forall h | h in x.handlers ensures HandlerOk(x, x.handlers[h]) {
      assert HandlerOk(w, x.handlers[h]);
    }
  }

  lemma AuditKept(w: World, e: AuditEvent)
    requires Inv(w) && !IsWriteEvent(e)
    ensures Inv(Audited(w, e))
  {
    forall id, v: nat ensures WriteEvents(Audited(w, e).audit, id, v) == WriteEvents(w.audit, id, v) {
      WriteEventsAppend(w.audit, e, id, v);
    }
    NothingStored(w, Audited(w, e));
  }

  lemma DropKept(w: World, h: nat)
    requires Inv(w)
    ensures Inv(Drop(w, h))
  {
    NothingStored(w, Drop(w, h));
  }

  lemma PhaseKept(w: World, h: nat, p: Phase)
    requires Inv(w) && h in w.handlers && HandlerOk(w, w.handlers[h].(phase := p))
    requires p.Holding? ==> w.handlers[h].phase.Holding? || !Locked(w, w.handlers[h].id)
    ensures Inv(SetPhase(w, h, p))
  {
    NothingStored(w, SetPhase(w, h, p));
  }

  lemma StartKept(w: World, h: nat, r: Handler)
    requires Inv(w) && h !in w.handlers && HandlerOk(w, r) && r.phase.Deciding?
    ensures Inv(w.(handlers := w.handlers[h := r]))
  {
    NothingStored(w, w.(handlers := w.handlers[h := r]));
  }

  lemma PublishKept(w: World, h: nat)
    requires Inv(w) && h in w.handlers && w.handlers[h].phase.Saved?
    ensures Inv(Published(w, h))
  {
    var r := w.handlers[h];
    var v := r.phase.version;
    assert HandlerOk(w, r);
    if 1 <= v <= |Chain(w, r.id)| && FactAccepted(Chain(w, r.id)[v - 1].payload, JobAction(r.job), v) {
      PublishedOk(w, r, v);
      var x := w.(facts := w.facts + [Fact(r.id, v, JobAction(r.job), Chain(w, r.id)[v - 1].payload)]);
      NothingStored(w, x);
      DropKept(x, h);
    } else {
      DropKept(w, h);
    }
  }

  lemma PublishedOk(w: World, r: Handler, v: nat)
    requires HandlerOk(w, r) && r.phase == Saved(v) && 1 <= v <= |Chain(w, r.id)|
    requires FactAccepted(Chain(w, r.id)[v - 1].payload, JobAction(r.job), v)
    ensures FactOk(w, Fact(r.id, v, JobAction(r.job), Chain(w, r.id)[v - 1].payload))
  {
  }

  lemma AppendedExtends(chain: seq<Doc>, instruction: Instruction, now: Time)
    requires |chain| > 0 && chain[|chain| - 1].validTo.None?
    ensures Extends(chain, Appended(chain, instruction, now))
  {
  }

  lemma CommittedExtends(w: World, r: Handler)
    requires ChainsOk(w) && r.phase.Holding?
    ensures Extends(Chain(w, r.id), CommittedChain(w, r))
  {
    if Chain(w, r.id) != [] {
      assert ChainOk(r.id, w.docs[r.id], w.origins[r.id]);
      AppendedExtends(Chain(w, r.id), Proposed(r, r.phase.at), r.phase.now);
    }
  }

  lemma CommittedChainOk(w: World, r: Handler)
    requires ChainsOk(w) && HandlerOk(w, r) && r.phase.Holding?
    ensures ChainOk(r.id, CommittedChain(w, r), History(w, r.id) + [OriginOf(r)])
  {
    if r.job.NewInstruction? {
      SameLengths(w, r.id);
      assert History(w, r.id) == [];
      InitialOk(r.id, r.job.terms, r.actor, r.phase.now);
      assert [] + [OriginOf(r)] == [OriginOf(r)];
    } else {
      assert r.id in w.docs;
      AppendedOk(r.id, w.docs[r.id], w.origins[r.id], r.base, r.job.req, r.actor, r.phase.at, r.phase.now);
    }
  }

  lemma CommittedGrown(w: World, h: nat)
    requires ChainsOk(w) && h in w.handlers && w.handlers[h].phase.Holding? && HandlerOk(w, w.handlers[h])
    ensures Grown(w, Committed(w, h)) && ChainsOk(Committed(w, h))
  {
    var r := w.handlers[h];
    CommittedChainOk(w, r);
    CommittedExtends(w, r);
    var x := Committed(w, h);
    forall i ensures Extends(Chain(w, i), Chain(x, i)) && History(w, i) <= History(x, i) {
      if i != r.id {
        assert Chain(w, i) == Chain(x, i) && History(w, i) == History(x, i);
      }
    }
    forall i | i in x.docs ensures ChainOk(i, x.docs[i], x.origins[i]) {
      if i != r.id {
        assert x.docs[i] == w.docs[i] && x.origins[i] == w.origins[i];
      }
    }
  }

  /** The audit trail after a commit counts one more for the new version, if its writer is audited. */
  lemma VersionCounted(audit: seq<AuditEvent>, e: AuditEvent, audited: bool, id: string, v: nat)
    requires IsWriteEvent(e)
    ensures WriteEvents(if audited then audit + [e] else audit, id, v)
         == WriteEvents(audit, id, v) + if audited && e.id == id && e.version == Some(v) then 1 else 0
  {
    WriteEventsAppend(audit, e, id, v);
  }

  lemma AuditedNext(w: World, x: World, id: string, o: Origin, i: string, v: nat)
    requires x.excluded == w.excluded && History(x, id) == History(w, id) + [o]
    requires i != id ==> History(x, i) == History(w, i)
    ensures AuditedVersion(x, i, v)
       <==> AuditedVersion(w, i, v) || (i == id && v == |History(w, id)| + 1 && o.actor !in w.excluded)
    ensures AuditedVersion(w, i, v) ==> !(i == id && v == |History(w, id)| + 1)
  {
  }

  /** One more version with origin `o`, and its event unless the writer is excluded, keep the audit exact. */
  lemma VersionAudited(w: World, x: World, id: string, o: Origin)
    requires AuditOk(w) && Grown(w, x)
    requires History(x, id) == History(w, id) + [o]
    requires forall i | i != id :: History(x, i) == History(w, i)
    requires var e := AuditEvent(id, OriginAction(o), o.actor, true, Some(|History(w, id)| + 1));
             x.audit == if o.actor in w.excluded then w.audit else w.audit + [e]
    ensures AuditOk(x)
  {
    var e := AuditEvent(id, OriginAction(o), o.actor, true, Some(|History(w, id)| + 1));
    assert OriginAction(o) != VIEW;
    forall i, v: nat ensures WriteEvents(x.audit, i, v) == if AuditedVersion(x, i, v) then 1 else 0 {
      assert WriteEvents(w.audit, i, v) == if AuditedVersion(w, i, v) then 1 else 0;
      VersionCounted(w.audit, e, o.actor !in w.excluded, i, v);
      AuditedNext(w, x, id, o, i, v);
    }
    forall i | 0 <= i < |x.audit| ensures EventOk(x, x.audit[i]) {
      if i < |w.audit| {
        EventStable(w, x, w.audit[i]);
      } else {
        assert x.audit[i] == e;
      }
    }
  }

  lemma CommittedHandler(w: World, h: nat, g: nat)
    requires h in w.handlers && w.handlers[h].phase.Holding?
    requires HandlersOk(w) && LocksOk(w) && Grown(w, Committed(w, h))
    requires |Chain(w, w.handlers[h].id)| == |History(w, w.handlers[h].id)|
    requires g in Committed(w, h).handlers
    ensures HandlerOk(Committed(w, h), Committed(w, h).handlers[g])
  {
    var r := w.handlers[h];
    var x := Committed(w, h);
    assert HandlerOk(w, w.handlers[g]);
    if g != h {
      assert w.handlers[g].id != r.id ==> Chain(x, w.handlers[g].id) == Chain(w, w.handlers[g].id);
      HandlerStable(w, x, w.handlers[g]);
    } else {
      HandlerStable(w, x, r.(phase := Deciding));
      assert History(x, r.id) == History(w, r.id) + [OriginOf(r)];
    }
  }

  lemma CommittedAudit(w: World, h: nat)
    requires h in w.handlers && w.handlers[h].phase.Holding?
    requires AuditOk(w) && Grown(w, Committed(w, h))
    requires |Chain(w, w.handlers[h].id)| == |History(w, w.handlers[h].id)|
    ensures AuditOk(Committed(w, h))
  {
    VersionAudited(w, Committed(w, h), w.handlers[h].id, OriginOf(w.handlers[h]));
  }

  lemma CommittedRest(w: World, h: nat)
    requires h in w.handlers && w.handlers[h].phase.Holding?
    requires HandlersOk(w) && LocksOk(w) && FactsOk(w) && Grown(w, Committed(w, h))
    requires |Chain(w, w.handlers[h].id)| == |History(w, w.handlers[h].id)|
    ensures HandlersOk(Committed(w, h)) && LocksOk(Committed(w, h)) && FactsOk(Committed(w, h))
  {
    var x := Committed(w, h);
    forall g | g in x.handlers ensures HandlerOk(x, x.handlers[g]) {
      CommittedHandler(w, h, g);
    }
    forall i | 0 <= i < |x.facts| ensures FactOk(x, x.facts[i]) {
      FactStable(w, x, w.facts[i]);
    }
  }

  lemma CommitKept(w: World, h: nat)
    requires Inv(w) && h in w.handlers && w.handlers[h].phase.Holding?
    ensures Inv(Committed(w, h))
  {
    assert HandlerOk(w, w.handlers[h]);
    CommittedGrown(w, h);
    SameLengths(w, w.handlers[h].id);
    CommittedAudit(w, h);
    CommittedRest(w, h);
  }

  lemma SameLengths(w: World, id: string)
    requires ChainsOk(w)
    ensures |Chain(w, id)| == |History(w, id)|
  {
    if id in w.docs {
      assert ChainOk(id, w.docs[id], w.origins[id]);
    }
  }

  /** Every step of every handler keeps the invariant. */
  lemma StepKeepsInv(w: World, s: Step)
    requires Inv(w)
    ensures Inv(Do(w, s))
  {
    if s.Create? || s.Read? || s.View? {
      StartStepKeepsInv(w, s);
    } else if s.h in w.handlers {
      HandlerStepKeepsInv(w, s);
    } else if s.Abandon? {
      DropKept(w, s.h);
    }
  }

  lemma StartStepKeepsInv(w: World, s: Step)
    requires Inv(w) && (s.Create? || s.Read? || s.View?)
    ensures Inv(Do(w, s))
  {
    match s
    case Create(h, id, terms, actor) =>
      if h !in w.handlers { StartKept(w, h, Do(w, s).handlers[h]); }
    case Read(h, id, req, actor) =>
      if h !in w.handlers && h in Do(w, s).handlers { StartKept(w, h, Do(w, s).handlers[h]); }
    case View(id, actor, allowed) =>
      AuditKept(w, AuditEvent(id, VIEW, actor, allowed, if allowed then Some(|Chain(w, id)|) else None));
  }

  lemma AuthorizeKept(w: World, h: nat, allowed: bool, at: Time)
    requires Inv(w) && h in w.handlers && w.handlers[h].phase.Deciding?
    ensures Inv(Do(w, Authorize(h, allowed, at)))
  {
    var r := w.handlers[h];
    assert HandlerOk(w, r);
    if allowed {
      PhaseKept(w, h, Ready(at));
    } else {
      var e := AuditEvent(r.id, JobAction(r.job), r.actor, false, None);
      AuditKept(w, e);
      DropKept(Audited(w, e), h);
    }
  }

  lemma BeginKept(w: World, h: nat, now: Time)
    requires Inv(w) && h in w.handlers && w.handlers[h].phase.Ready?
    ensures Inv(Do(w, Begin(h, now)))
  {
    var r := w.handlers[h];
    assert HandlerOk(w, r);
    PhaseKept(w, h, InTransaction(r.phase.at, |Chain(w, r.id)|, now));
  }

  lemma WriteKept(w: World, h: nat)
    requires Inv(w) && h in w.handlers && w.handlers[h].phase.InTransaction?
    ensures Inv(Do(w, Write(h)))
  {
    var r := w.handlers[h];
    assert HandlerOk(w, r);
    if NoConflict(w, h) {
      PhaseKept(w, h, Holding(r.phase.at, r.phase.seen, r.phase.now));
    } else {
      DropKept(w, h);
    }
  }

  lemma HandlerStepKeepsInv(w: World, s: Step)
    requires Inv(w) && !s.Create? && !s.Read? && !s.View? && s.h in w.handlers
    ensures Inv(Do(w, s))
  {
    var r := w.handlers[s.h];
    match s
    case Authorize(h, allowed, at) =>
      if r.phase.Deciding? { AuthorizeKept(w, h, allowed, at); }
    case Begin(h, now) =>
      if r.phase.Ready? { BeginKept(w, h, now); }
    case Write(h) =>
      if r.phase.InTransaction? { WriteKept(w, h); }
    case Commit(h) =>
      if r.phase.Holding? { CommitKept(w, h); }
    case Publish(h) =>
      if r.phase.Saved? { PublishKept(w, h); }
    case Abandon(h) =>
      DropKept(w, h);
  }

  lemma EmptyInv(excluded: set<string>)
    ensures Inv(Empty(excluded))
  {
  }

  /** The invariant holds after every run, from any world that satisfies it. */
  lemma {:induction false} RunKeepsInv(w: World, steps: seq<Step>)
    requires Inv(w)
    ensures Inv(Run(w, steps))
    decreases |steps|
  {
    if steps != [] {
      StepKeepsInv(w, steps[0]);
      RunKeepsInv(Do(w, steps[0]), steps[1..]);
    }
  }
}
