/**
 The repository and the service as the program runs them, one call at a time: the
 collections are fields, the handlers assign the fields of a copied instruction,
 and a failed transaction restores what it had written.

 Each call is shown to be one run of a single handler of module Interleaving, so
 whatever holds after every run there holds of these objects.
 */
module InstructionHandlers {
  import opened Wrappers
  import opened Lifecycle
  import opened VersionChain
  import opened Interleaving
  import opened ConcurrencyTheorems

  datatype Error =
    | NotFound | InvalidTransition | PolicyDenied | ConcurrentModification | StoreFailure
    | NoIdentifier      // the sequence service issued no instruction id
    | EventFailure      // no event id, or the audit event could not be inserted
    | CommitFailure     // the commit raised
    | FactRefused       // the validator raised on the committed snapshot

  /** How the database answers the writes of one transaction. */
  datatype Fault =
    | NoFault
    | NotMatched        // update_one matched nothing
    | DuplicateKey      // the unique index refused the insert
    | WriteConflict     // code 112
    | Transient         // labelled TransientTransactionError
    | OtherFailure

  /** append_version turns every sign of a concurrent writer into one error. */
  function AppendError(fault: Fault): Error {
    if fault == OtherFailure then StoreFailure else ConcurrentModification
  }

  class InstructionRepository {
    var docs: map<string, seq<Doc>>

    constructor ()
      ensures docs == map[] && Valid()
    {
      docs := map[];
    }

    predicate Valid()
      reads this
    {
      forall id | id in docs :: IsChain(docs[id])
    }

    method InsertInitial(instruction: Instruction, now: Time, fault: Fault) returns (r: Result<nat, Error>)
      requires Valid()
      modifies this
      ensures r == if fault == NoFault && instruction.id !in old(docs) then Ok(1) else Err(StoreFailure)
      ensures docs == if r.Ok? then old(docs)[instruction.id := Initial(instruction, now)] else old(docs)
      ensures Valid()
    {
      if fault != NoFault || instruction.id in docs {
        return Err(StoreFailure);
      }
      docs := docs[instruction.id := Initial(instruction, now)];
      return Ok(1);
    }

    /** On failure the open version may already be closed: undoing that is left to the transaction. */
    method AppendVersion(instruction: Instruction, now: Time, fault: Fault) returns (r: Result<nat, Error>)
      requires Valid()
      modifies this
      ensures r.Ok? <==> instruction.id in old(docs) && fault == NoFault
      ensures r.Ok? ==>
                var chain := old(docs)[instruction.id];
                && docs == old(docs)[instruction.id := Appended(chain, instruction, now)]
                && r.value == chain[|chain| - 1].version + 1
                && Valid()
      ensures r.Err? ==> r.error == if instruction.id !in old(docs) then NotFound else AppendError(fault)
    {
      if instruction.id !in docs {
        return Err(NotFound);
      }
      var chain := docs[instruction.id];
      var current := chain[|chain| - 1];
      var updated := instruction.(updatedAt := now);
      if fault == NotMatched || fault == WriteConflict {
        return Err(ConcurrentModification);
      }
      docs := docs[instruction.id := chain[|chain| - 1 := current.(validTo := Some(now))]];
      if fault == DuplicateKey || fault == Transient {
        return Err(ConcurrentModification);
      } else if fault == OtherFailure {
        return Err(StoreFailure);
      }
      docs := docs[instruction.id := docs[instruction.id] + [Doc(current.version + 1, now, None, updated)]];
      return Ok(current.version + 1);
    }

    /** find_one on the instruction id and an open end: there is exactly one such document, or none at all. */
    method GetCurrent(id: string) returns (r: Result<Doc, Error>)
      requires Valid()
      ensures r.Ok? <==> id in docs
      ensures r.Ok? ==> r.value in docs[id] && r.value.validTo.None?
                        && forall d | d in docs[id] && d.validTo.None? :: d == r.value
      ensures r.Ok? ==> r.value == docs[id][|docs[id]| - 1]
      ensures r.Err? ==> r.error == NotFound
    {
      if id !in docs {
        return Err(NotFound);
      }
      var chain, i := docs[id], 0;
      while chain[i].validTo.Some?
        invariant 0 <= i < |chain|
        decreases |chain| - i
      {
        i := i + 1;
      }
      return Ok(chain[i]);
    }
  }

  /** Numbered from one, and only the last document is open. */
  predicate IsChain(chain: seq<Doc>) {
    && |chain| > 0
    && forall k | 0 <= k < |chain| :: chain[k].version == k + 1 && (chain[k].validTo.None? <==> k == |chain| - 1)
  }

  lemma ChainsAreChains(w: World)
    requires ChainsOk(w)
    ensures forall id | id in w.docs :: IsChain(w.docs[id])
  {
    forall id | id in w.docs ensures IsChain(w.docs[id]) {
      ChainIsNumbered(id, w.docs[id], w.origins[id]);
    }
  }

  lemma ChainIsNumbered(id: string, chain: seq<Doc>, origins: seq<Origin>)
    requires ChainOk(id, chain, origins)
    ensures IsChain(chain)
  {
    forall k | 0 <= k < |chain| ensures chain[k].version == k + 1 && (chain[k].validTo.None? <==> k == |chain| - 1) {
      assert k < |chain| - 1 ==> chain[k].validTo == Some(chain[k + 1].validFrom);
    }
  }

  /** What the caller learns of the commit; an unacknowledged one has happened. */
  datatype CommitReply = Acknowledged | Refused | Unacknowledged

  /** What the world outside decides during one call; eventOk covers the event's id and its insert. */
  datatype Outside = Outside(allowed: bool, at: Time, now: Time, fault: Fault, eventOk: bool, commit: CommitReply,
                             delivered: bool)

  datatype Decision = Allow | Deny | DenyUnrecorded

  /** The same as far as the protocol sees it. */
  datatype Fate = Fate(decision: Decision, at: Time, now: Time, aborts: bool, publishes: bool)

  function FateOf(o: Outside, audited: bool): Fate {
    Fate(if o.allowed then Allow else if audited && !o.eventOk then DenyUnrecorded else Deny, o.at, o.now,
         o.fault != NoFault || (audited && !o.eventOk) || o.commit == Refused,
         o.commit == Acknowledged && o.delivered)
  }

  function DecisionStep(f: Fate): Step {
    if f.decision == DenyUnrecorded then Abandon(0) else Authorize(0, f.decision == Allow, f.at)
  }

  /** The steps of the one handler that serves a call; steps that do not apply do nothing. */
  function CallSteps(start: Step, f: Fate): seq<Step> {
    [start, DecisionStep(f), Begin(0, f.now)]
    + (if f.aborts then [Abandon(0)] else [Write(0), Commit(0)])
    + [if f.publishes then Publish(0) else Abandon(0)]
  }

  function NextChain(w: World, instruction: Instruction, initial: bool, now: Time): (chain: seq<Doc>) {
    if initial || Chain(w, instruction.id) == [] then Initial(instruction, now)
    else Appended(Chain(w, instruction.id), instruction, now)
  }

  /** What the transaction returns: the document it inserted, or what stopped it. */
  function PersistReply(w: World, instruction: Instruction, initial: bool, audited: bool, o: Outside): Result<Doc, Error> {
    if initial && (o.fault != NoFault || Chain(w, instruction.id) != []) then Err(StoreFailure)
    else if !initial && Chain(w, instruction.id) == [] then Err(NotFound)
    else if o.fault != NoFault then Err(AppendError(o.fault))
    else if audited && !o.eventOk then Err(EventFailure)
    else if o.commit == Refused then Err(CommitFailure)
    else
      var next := NextChain(w, instruction, initial, o.now);
      Ok(next[|next| - 1])
  }

  /** What the caller is told: after the commit, its acknowledgement and the fact can still fail. */
  function SaveReply(w: World, instruction: Instruction, action: Action, initial: bool, audited: bool, o: Outside)
    : Result<nat, Error>
  {
    match PersistReply(w, instruction, initial, audited, o)
    case Err(e) => Err(e)
    case Ok(saved) => CommittedReply(saved, action, audited, o)
  }

  function CommittedReply(saved: Doc, action: Action, audited: bool, o: Outside): Result<nat, Error> {
    if o.commit == Unacknowledged then Err(CommitFailure)
    else if audited && !FactAccepted(saved.payload, action, saved.version) then Err(FactRefused)
    else Ok(saved.version)
  }

  /** What is stored: everything of the version, or nothing. */
  function SaveResult(w: World, instruction: Instruction, initial: bool, origin: Origin, f: Fate): World {
    if f.aborts || initial != (Chain(w, instruction.id) == []) then w
    else AfterSave(w, instruction.id, NextChain(w, instruction, initial, f.now), origin, f.publishes)
  }

  function DenialError(o: Outside, audited: bool): Error {
    if audited && !o.eventOk then EventFailure else PolicyDenied
  }

  function CreateReply(w: World, id: string, terms: Terms, actor: string, o: Outside): Result<nat, Error> {
    var audited := actor !in w.excluded;
    if !o.allowed then Err(DenialError(o, audited))
    else SaveReply(w, Drafted(id, terms, actor), CREATE, true, audited, o)
  }

  function ChangeReply(w: World, id: string, req: Request, actor: string, o: Outside): Result<nat, Error> {
    var chain, audited := Chain(w, id), actor !in w.excluded;
    if chain == [] then Err(NotFound)
    else if !Guard(chain[|chain| - 1].payload.status, req) then Err(InvalidTransition)
    else if !o.allowed then Err(DenialError(o, audited))
    else SaveReply(w, Prepared(chain[|chain| - 1].payload, req, actor, o.at), ActionOf(req), false, audited, o)
  }

  class InstructionService {
    const repository: InstructionRepository
    const excluded: set<string>
    var audit: seq<AuditEvent>
    var facts: seq<Fact>
    ghost var origins: map<string, seq<Origin>>

    constructor (excluded: set<string>)
      ensures fresh(repository) && State() == Empty(excluded)
    {
      this.excluded := excluded;
      repository := new InstructionRepository();
      audit, facts, origins := [], [], map[];
    }

    ghost function State(): World
      reads this, repository
    {
      World(repository.docs, origins, audit, facts, map[], excluded)
    }

    /** The part of the transaction that the repository does, and its rollback. */
    method Persist(instruction: Instruction, initial: bool, audited: bool, o: Outside) returns (r: Result<Doc, Error>)
      requires repository.Valid()
      modifies repository
      ensures repository.docs == match r
                case Ok(_) => old(repository.docs)[instruction.id := NextChain(old(State()), instruction, initial, o.now)]
                case Err(_) => old(repository.docs)
      ensures r == PersistReply(old(State()), instruction, initial, audited, o)
    {
      var before := repository.docs;
      if initial {
        var done := repository.InsertInitial(instruction, o.now, o.fault);
        if done.Err? {
          return Err(done.error);
        }
      } else {
        var done := repository.AppendVersion(instruction, o.now, o.fault);
        if done.Err? {
          repository.docs := before;
          return Err(done.error);
        }
      }
      if (audited && !o.eventOk) || o.commit == Refused {
        repository.docs := before;
        return Err(if audited && !o.eventOk then EventFailure else CommitFailure);
      }
      var chain := repository.docs[instruction.id];
      return Ok(chain[|chain| - 1]);
    }

    /**
     Version and audit event are written together, or the state is as before. An error can still
     follow the commit: when its acknowledgement is lost, and when the fact is refused.
     */
    method SaveWithSecurityEvent(instruction: Instruction, action: Action, actor: string, initial: bool,
                                 ghost origin: Origin, o: Outside) returns (r: Result<nat, Error>)
      requires repository.Valid()
      requires OriginAction(origin) == action && origin.actor == actor
      modifies this, repository
      ensures State() == SaveResult(old(State()), instruction, initial, origin, FateOf(o, actor !in excluded))
      ensures r == SaveReply(old(State()), instruction, action, initial, actor !in excluded, o)
    {
      ghost var w := State();
      var audited := actor !in excluded;
      var persisted := Persist(instruction, initial, audited, o);
      if persisted.Err? {
        return Err(persisted.error);
      }
      var saved := persisted.value;
      SavedIs(w, instruction, initial, origin, actor !in excluded, o);
      origins := origins[instruction.id := History(w, instruction.id) + [origin]];
      r := RecordAndPublish(instruction.id, saved, action, actor, o);
    }

    /** The event stored with the version, and after the commit the fact. */
    method RecordAndPublish(id: string, saved: Doc, action: Action, actor: string, o: Outside)
      returns (r: Result<nat, Error>)
      modifies this`audit, this`facts
      ensures r == CommittedReply(saved, action, actor !in excluded, o)
      ensures audit == if actor in excluded then old(audit)
                       else old(audit) + [AuditEvent(id, action, actor, true, Some(saved.version))]
      ensures facts == if actor !in excluded && o.commit != Unacknowledged && o.delivered
                          && FactAccepted(saved.payload, action, saved.version)
                       then old(facts) + [Fact(id, saved.version, action, saved.payload)] else old(facts)
    {
      if actor !in excluded {
        audit := audit + [AuditEvent(id, action, actor, true, Some(saved.version))];
      }
      if o.commit == Unacknowledged {
        return Err(CommitFailure);
      }
      if actor !in excluded {
        if !FactAccepted(saved.payload, action, saved.version) {
          return Err(FactRefused);
        }
        if o.delivered {
          facts := facts + [Fact(id, saved.version, action, saved.payload)];
        }
      }
      return Ok(saved.version);
    }

    method CreateInstruction(issued: Option<string>, terms: Terms, actor: string, o: Outside)
      returns (r: Result<nat, Error>)
      requires ChainsOk(State())
      modifies this, repository
      ensures issued.None? ==> State() == old(State()) && r == Err(NoIdentifier)
      ensures issued.Some? ==>
                var w, f := old(State()), FateOf(o, actor !in excluded);
                && State() == Run(w, CallSteps(Create(0, issued.value, terms, actor), f))
                && r == CreateReply(w, issued.value, terms, actor, o)
    {
      if issued.None? {
        return Err(NoIdentifier);
      }
      ghost var w, f := State(), FateOf(o, actor !in excluded);
      var instruction := Drafted(issued.value, terms, actor);
      CreateRun(w, issued.value, terms, actor, f);
      ChainsAreChains(w);
      if !o.allowed {
        r := RecordDenial(issued.value, CREATE, actor, o);
        return;
      }
      r := SaveWithSecurityEvent(instruction, CREATE, actor, true, Created(actor, terms), o);
    }

    method RecordDenial(id: string, action: Action, actor: string, o: Outside) returns (r: Result<nat, Error>)
      modifies this`audit
      ensures r == Err(DenialError(o, actor !in excluded))
      ensures State() == if actor !in excluded && !o.eventOk then old(State()) else Denied(old(State()), id, action, actor)
    {
      if actor in excluded {
        return Err(PolicyDenied);
      }
      if !o.eventOk {
        return Err(EventFailure);
      }
      audit := audit + [AuditEvent(id, action, actor, false, None)];
      return Err(PolicyDenied);
    }

    /** The assignments each handler makes on its copy, and the lifecycle entry recorded on it. */
    method AssignFields(current: Instruction, req: Request, actor: string, at: Time) returns (instruction: Instruction)
      ensures instruction == Prepared(current, req, actor, at)
    {
      instruction := current;
      match req {
        case Update(terms) =>
          instruction := instruction.(terms := terms);
        case Delete =>
          instruction := instruction.(status := DELETED);
        case Submit =>
          instruction := instruction.(status := PENDING);
          instruction := instruction.(submittedAt := Some(at));
        case Approve =>
          instruction := instruction.(status := if instruction.terms.instructionType == Standing then STANDING else SINGLE_USE);
          instruction := instruction.(approvedBy := Some(actor));
          instruction := instruction.(approvedAt := Some(at));
        case Reject(reason) =>
          instruction := instruction.(status := REJECTED);
          instruction := instruction.(rejectedBy := Some(actor));
          instruction := instruction.(rejectedAt := Some(at));
          instruction := instruction.(rejectionReason := Some(reason));
        case Suspend =>
          instruction := instruction.(status := SUSPENDED);
          instruction := instruction.(suspendedBy := Some(actor));
          instruction := instruction.(suspendedAt := Some(at));
        case Reactivate =>
          instruction := instruction.(status := if instruction.terms.instructionType == Standing then STANDING else SINGLE_USE);
          instruction := instruction.(suspendedBy := None);
          instruction := instruction.(suspendedAt := None);
        case Use(reference) =>
          instruction := instruction.(usageCount := instruction.usageCount + 1);
          instruction := instruction.(lastUsedAt := Some(at));
          if instruction.terms.instructionType == SingleUse {
            instruction := instruction.(status := USED);
          }
      }
      instruction := instruction.(events := instruction.events + [EntryOf(req, actor)]);
    }

    /** submit, approve, reject, suspend, reactivate, use, update and delete: each call is a run of one handler. */
    method ChangeInstruction(id: string, req: Request, actor: string, o: Outside) returns (r: Result<nat, Error>)
      requires ChainsOk(State())
      modifies this, repository
      ensures State() == Run(old(State()), CallSteps(Read(0, id, req, actor), FateOf(o, actor !in excluded)))
      ensures r == ChangeReply(old(State()), id, req, actor, o)
    {
      ChangeRun(State(), id, req, actor, FateOf(o, actor !in excluded));
      r := ReadAndSave(id, req, actor, o);
    }

    method ReadAndSave(id: string, req: Request, actor: string, o: Outside) returns (r: Result<nat, Error>)
      requires ChainsOk(State())
      modifies this, repository
      ensures State() == ChangeResult(old(State()), id, req, actor, FateOf(o, actor !in excluded))
      ensures r == ChangeReply(old(State()), id, req, actor, o)
    {
      ChainsAreChains(State());
      var current := repository.GetCurrent(id);
      if current.Err? {
        TurnedAway(State(), id, req, actor, o);
        return Err(NotFound);
      }
      r := CheckAndSave(id, current.value.payload, req, actor, o);
    }

    /** The status check and the policy decision on the snapshot read. */
    method CheckAndSave(id: string, current: Instruction, req: Request, actor: string, o: Outside)
      returns (r: Result<nat, Error>)
      requires repository.Valid() && ChainsOk(State())
      requires Chain(State(), id) != [] && current == Chain(State(), id)[|Chain(State(), id)| - 1].payload
      modifies this, repository
      ensures State() == ChangeResult(old(State()), id, req, actor, FateOf(o, actor !in excluded))
      ensures r == ChangeReply(old(State()), id, req, actor, o)
    {
      if Guard(current.status, req) && o.allowed {
        r := PersistNewVersion(id, current, req, actor, o);
        return;
      }
      TurnedAway(State(), id, req, actor, o);
      if !Guard(current.status, req) {
        return Err(InvalidTransition);
      }
      r := RecordDenial(id, ActionOf(req), actor, o);
    }

    method PersistNewVersion(id: string, current: Instruction, req: Request, actor: string, o: Outside)
      returns (r: Result<nat, Error>)
      requires repository.Valid() && ChainsOk(State())
      requires Admitted(State(), id, req) && current == Chain(State(), id)[|Chain(State(), id)| - 1].payload
      requires o.allowed
      modifies this, repository
      ensures State() == ChangeResult(old(State()), id, req, actor, FateOf(o, actor !in excluded))
      ensures r == ChangeReply(old(State()), id, req, actor, o)
    {
      ghost var w := State();
      SaveIsChange(w, id, req, actor, FateOf(o, actor !in excluded));
      SaveAnswersChange(w, id, req, actor, o);
      var instruction := AssignFields(current, req, actor, o.at);
      r := SaveWithSecurityEvent(instruction, ActionOf(req), actor, false,
                                 Changed(actor, req, o.at, |Chain(w, id)|), o);
    }
  }

  // ---------------------------------------------------------------------------------------------
  // The run of one handler, in closed form
  // ---------------------------------------------------------------------------------------------

  function Denied(w: World, id: string, action: Action, actor: string): World {
    Audited(w, AuditEvent(id, action, actor, false, None))
  }

  function TurnedDown(w: World, id: string, action: Action, actor: string, f: Fate): World {
    if f.decision == DenyUnrecorded then w else Denied(w, id, action, actor)
  }

  /** A saved version, its event and its fact, with no handler left. */
  function AfterSave(w: World, id: string, chain: seq<Doc>, origin: Origin, delivered: bool): World
    requires |chain| > 0
  {
    var action, actor, v := OriginAction(origin), origin.actor, |chain|;
    var payload := chain[v - 1].payload;
    w.(docs := w.docs[id := chain],
       origins := w.origins[id := History(w, id) + [origin]],
       audit := if actor in w.excluded then w.audit
                else w.audit + [AuditEvent(id, action, actor, true, Some(v))],
       facts := if actor !in w.excluded && delivered && FactAccepted(payload, action, v)
                then w.facts + [Fact(id, v, action, payload)] else w.facts)
  }

  /** After the commit: the version, its origin, its event, and the fact unless something kept it back. */
  lemma SavedIs(w: World, instruction: Instruction, initial: bool, origin: Origin, audited: bool, o: Outside)
    requires forall i | i in w.docs :: IsChain(w.docs[i])
    requires PersistReply(w, instruction, initial, audited, o).Ok? && (audited <==> origin.actor !in w.excluded)
    ensures var id, chain := instruction.id, NextChain(w, instruction, initial, o.now);
            var saved, action := PersistReply(w, instruction, initial, audited, o).value, OriginAction(origin);
            && saved.version == |chain|
            && SaveResult(w, instruction, initial, origin, FateOf(o, audited)) == w.(
                 docs := w.docs[id := chain], origins := w.origins[id := History(w, id) + [origin]],
                 audit := if audited then w.audit + [AuditEvent(id, action, origin.actor, true, Some(saved.version))]
                          else w.audit,
                 facts := if audited && o.commit != Unacknowledged && o.delivered
                             && FactAccepted(saved.payload, action, saved.version)
                          then w.facts + [Fact(id, saved.version, action, saved.payload)] else w.facts)
  {
  }

  lemma RunOne(w: World, s: Step)
    ensures Run(w, [s]) == Do(w, s)
  {
    RunStep(w, s, []);
    assert [s] + [] == [s];
  }

  lemma RunTwo(w: World, s: Step, t: Step)
    ensures Run(w, [s, t]) == Do(Do(w, s), t)
  {
    RunStep(w, s, [t]);
    RunOne(Do(w, s), t);
    assert [s] + [t] == [s, t];
  }

  lemma RunThree(w: World, s: Step, t: Step, u: Step)
    ensures Run(w, [s, t, u]) == Do(Do(Do(w, s), t), u)
  {
    RunStep(w, s, [t, u]);
    RunTwo(Do(w, s), t, u);
    assert [s] + [t, u] == [s, t, u];
  }

  /** The transaction and the publishing of handler 0. */
  function Transact(w: World, f: Fate): World {
    var a := Do(w, Begin(0, f.now));
    var b := if !f.aborts then Do(Do(a, Write(0)), Commit(0)) else Do(a, Abandon(0));
    Do(b, if f.publishes then Publish(0) else Abandon(0))
  }

  lemma CallRun(w: World, start: Step, f: Fate)
    ensures Run(w, CallSteps(start, f)) == Transact(Do(Do(w, start), DecisionStep(f)), f)
  {
    var head := [start, DecisionStep(f), Begin(0, f.now)];
    var mid := if !f.aborts then [Write(0), Commit(0)] else [Abandon(0)];
    var last := [if f.publishes then Publish(0) else Abandon(0)];
    RunConcat(w, head + mid, last);
    RunConcat(w, head, mid);
    RunThree(w, start, DecisionStep(f), Begin(0, f.now));
    var a := Run(w, head);
    if !f.aborts { RunTwo(a, Write(0), Commit(0)); } else { RunOne(a, Abandon(0)); }
    RunOne(Run(a, mid), last[0]);
    assert CallSteps(start, f) == head + mid + last;
  }

  lemma TransactIdle(w: World, f: Fate)
    requires w.handlers == map[]
    ensures Transact(w, f) == w
  {
    assert w.handlers - {0} == w.handlers;
  }

  lemma TransactFault(w: World, r: Handler, f: Fate)
    requires w.handlers == map[] && r.phase.Ready? && f.aborts
    ensures Transact(w.(handlers := map[0 := r]), f) == w
  {
    var a := Do(w.(handlers := map[0 := r]), Begin(0, f.now));
    assert a.handlers - {0} == w.handlers;
    assert Do(a, Abandon(0)) == w;
  }

  lemma TransactConflict(w: World, r: Handler, f: Fate)
    requires w.handlers == map[] && r.phase.Ready? && !f.aborts
    requires r.job.NewInstruction? <==> Chain(w, r.id) != []
    ensures Transact(w.(handlers := map[0 := r]), f) == w
  {
    var a := Do(w.(handlers := map[0 := r]), Begin(0, f.now));
    assert a.handlers - {0} == w.handlers;
    assert Do(a, Write(0)) == w;
  }

  function Held(w: World, r: Handler, f: Fate): Handler {
    r.(phase := Holding(f.at, |Chain(w, r.id)|, f.now))
  }

  lemma TransactSaves(w: World, r: Handler, f: Fate)
    requires w.handlers == map[] && r.phase == Ready(f.at) && !f.aborts
    requires r.job.NewInstruction? <==> Chain(w, r.id) == []
    ensures Transact(w.(handlers := map[0 := r]), f)
         == AfterSave(w, r.id, CommittedChain(w, Held(w, r, f)), OriginOf(Held(w, r, f)), f.publishes)
  {
    var n := |Chain(w, r.id)|;
    var a := Do(w.(handlers := map[0 := r]), Begin(0, f.now));
    assert a == w.(handlers := map[0 := r.(phase := InTransaction(f.at, n, f.now))]);
    assert NoConflict(a, 0);
    assert Do(a, Write(0)) == w.(handlers := map[0 := Held(w, r, f)]);
    LoneCommit(w, Held(w, r, f), f.publishes);
  }

  lemma LoneCommit(w: World, r: Handler, delivered: bool)
    requires w.handlers == map[] && r.phase.Holding?
    ensures Do(Do(w.(handlers := map[0 := r]), Commit(0)), if delivered then Publish(0) else Abandon(0))
         == AfterSave(w, r.id, CommittedChain(w, r), OriginOf(r), delivered)
  {
    var b := w.(handlers := map[0 := r]);
    var saved := AfterSave(w, r.id, CommittedChain(w, r), OriginOf(r), false);
    LoneCommitted(w, r);
    CommitStep(b);
    DeliveredSave(w, r.id, CommittedChain(w, r), OriginOf(r), delivered);
    if r.actor in w.excluded {
      NothingToDo(saved, delivered);
    } else {
      LonePublish(saved, r, |Chain(w, r.id)| + 1, delivered);
    }
  }

  lemma CommitStep(b: World)
    requires 0 in b.handlers && b.handlers[0].phase.Holding?
    ensures Do(b, Commit(0)) == Committed(b, 0)
  {
  }

  lemma NothingToDo(w: World, delivered: bool)
    requires w.handlers == map[]
    ensures Do(w, if delivered then Publish(0) else Abandon(0)) == w
  {
    assert w.handlers - {0} == w.handlers;
  }

  lemma DeliveredSave(w: World, id: string, chain: seq<Doc>, origin: Origin, delivered: bool)
    requires |chain| > 0
    ensures var saved, action, payload := AfterSave(w, id, chain, origin, false), OriginAction(origin),
                                          chain[|chain| - 1].payload;
            AfterSave(w, id, chain, origin, delivered)
            == if origin.actor !in w.excluded && delivered && FactAccepted(payload, action, |chain|)
               then saved.(facts := saved.facts + [Fact(id, |chain|, action, payload)]) else saved
  {
  }

  lemma LoneCommitted(w: World, r: Handler)
    requires w.handlers == map[] && r.phase.Holding?
    ensures Committed(w.(handlers := map[0 := r]), 0)
         == AfterSave(w, r.id, CommittedChain(w, r), OriginOf(r), false).(
              handlers := if r.actor in w.excluded then map[] else map[0 := r.(phase := Saved(|Chain(w, r.id)| + 1))])
  {
    var b := w.(handlers := map[0 := r]);
    assert CommittedChain(b, r) == CommittedChain(w, r) && History(b, r.id) == History(w, r.id);
    assert b.handlers - {0} == map[];
  }

  lemma LonePublish(saved: World, r: Handler, v: nat, delivered: bool)
    requires saved.handlers == map[] && 1 <= v <= |Chain(saved, r.id)|
    ensures var x := Do(saved.(handlers := map[0 := r.(phase := Saved(v))]), if delivered then Publish(0) else Abandon(0));
            var payload := Chain(saved, r.id)[v - 1].payload;
            x == if delivered && FactAccepted(payload, JobAction(r.job), v)
                 then saved.(facts := saved.facts + [Fact(r.id, v, JobAction(r.job), payload)]) else saved
  {
    var b := saved.(handlers := map[0 := r.(phase := Saved(v))]);
    assert b.handlers - {0} == map[];
  }

  lemma CallDenied(w: World, r: Handler, f: Fate)
    requires w.handlers == map[] && r.phase.Deciding? && f.decision != Allow
    ensures Do(w.(handlers := map[0 := r]), DecisionStep(f)) == TurnedDown(w, r.id, JobAction(r.job), r.actor, f)
  {
    var x := w.(handlers := map[0 := r]);
    assert x.handlers - {0} == map[];
  }

  function CreateResult(w: World, id: string, terms: Terms, actor: string, f: Fate): World {
    if f.decision != Allow then TurnedDown(w, id, CREATE, actor, f)
    else if f.aborts || Chain(w, id) != [] then w
    else AfterSave(w, id, Initial(Drafted(id, terms, actor), f.now), Created(actor, terms), f.publishes)
  }

  lemma CreateRun(w: World, id: string, terms: Terms, actor: string, f: Fate)
    requires w.handlers == map[]
    ensures Run(w, CallSteps(Create(0, id, terms, actor), f)) == CreateResult(w, id, terms, actor, f)
  {
    StartedRun(w, Create(0, id, terms, actor),
               Handler(id, NewInstruction(terms), actor, 0, Drafted(id, terms, actor), Deciding), f);
  }

  /** The end of a handler that has just read and meets no other one. */
  function Settled(w: World, r: Handler, f: Fate): World {
    if f.decision != Allow then TurnedDown(w, r.id, JobAction(r.job), r.actor, f)
    else if f.aborts || (r.job.NewInstruction? <==> Chain(w, r.id) != []) then w
    else AfterSave(w, r.id, CommittedChain(w, Held(w, r, f)), OriginOf(Held(w, r, f)), f.publishes)
  }

  lemma Settle(w: World, r: Handler, f: Fate)
    requires w.handlers == map[] && r.phase == Deciding
    ensures Transact(Do(w.(handlers := map[0 := r]), DecisionStep(f)), f) == Settled(w, r, f)
  {
    var ready := r.(phase := Ready(f.at));
    if f.decision != Allow {
      CallDenied(w, r, f);
      TransactIdle(TurnedDown(w, r.id, JobAction(r.job), r.actor, f), f);
    } else {
      assert Do(w.(handlers := map[0 := r]), Authorize(0, true, f.at)) == w.(handlers := map[0 := ready]);
      assert Held(w, ready, f) == Held(w, r, f);
      if f.aborts {
        TransactFault(w, ready, f);
      } else if r.job.NewInstruction? <==> Chain(w, r.id) != [] {
        TransactConflict(w, ready, f);
      } else {
        TransactSaves(w, ready, f);
      }
    }
  }

  /** A whole call, when its first step starts a handler and when it does nothing. */
  lemma StartedRun(w: World, start: Step, r: Handler, f: Fate)
    requires w.handlers == map[] && r.phase == Deciding && Do(w, start) == w.(handlers := map[0 := r])
    ensures Run(w, CallSteps(start, f)) == Settled(w, r, f)
  {
    CallRun(w, start, f);
    Settle(w, r, f);
  }

  lemma IdleRun(w: World, start: Step, f: Fate)
    requires w.handlers == map[] && Do(w, start) == w
    ensures Run(w, CallSteps(start, f)) == w
  {
    CallRun(w, start, f);
    assert Do(w, DecisionStep(f)) == w;
    TransactIdle(w, f);
  }

  function ChangeResult(w: World, id: string, req: Request, actor: string, f: Fate): World {
    var chain := Chain(w, id);
    if chain == [] || !Guard(chain[|chain| - 1].payload.status, req) then w
    else if f.decision != Allow then TurnedDown(w, id, ActionOf(req), actor, f)
    else if f.aborts then w
    else AfterSave(w, id, Appended(chain, Prepared(chain[|chain| - 1].payload, req, actor, f.at), f.now),
                   Changed(actor, req, f.at, |chain|), f.publishes)
  }

  /** The handler of a change right after its read. */
  function Started(w: World, id: string, req: Request, actor: string): Handler
    requires Chain(w, id) != []
  {
    var chain := Chain(w, id);
    Handler(id, Change(req), actor, |chain|, chain[|chain| - 1].payload, Deciding)
  }

  lemma SavesWhatItRead(w: World, id: string, req: Request, actor: string, f: Fate)
    requires Chain(w, id) != []
    ensures var chain := Chain(w, id); var held := Held(w, Started(w, id, req, actor), f);
            && CommittedChain(w, held) == Appended(chain, Prepared(chain[|chain| - 1].payload, req, actor, f.at), f.now)
            && OriginOf(held) == Changed(actor, req, f.at, |chain|)
  {
  }

  lemma ChangeRun(w: World, id: string, req: Request, actor: string, f: Fate)
    requires w.handlers == map[]
    ensures Run(w, CallSteps(Read(0, id, req, actor), f)) == ChangeResult(w, id, req, actor, f)
  {
    LoneRead(w, id, req, actor);
    var chain := Chain(w, id);
    if chain != [] && Guard(chain[|chain| - 1].payload.status, req) {
      StartedRun(w, Read(0, id, req, actor), Started(w, id, req, actor), f);
      SavesWhatItRead(w, id, req, actor, f);
    } else {
      IdleRun(w, Read(0, id, req, actor), f);
    }
  }

  lemma LoneRead(w: World, id: string, req: Request, actor: string)
    requires w.handlers == map[]
    ensures var chain := Chain(w, id);
            Do(w, Read(0, id, req, actor)) ==
              if chain != [] && Guard(chain[|chain| - 1].payload.status, req)
              then w.(handlers := map[0 := Started(w, id, req, actor)]) else w
  {
  }

  /** The handler gets past its status check. */
  predicate Admitted(w: World, id: string, req: Request) {
    Chain(w, id) != [] && Guard(Chain(w, id)[|Chain(w, id)| - 1].payload.status, req)
  }

  lemma SaveIsChange(w: World, id: string, req: Request, actor: string, f: Fate)
    requires ChainsOk(w) && Admitted(w, id, req) && f.decision == Allow
    ensures var chain := Chain(w, id);
            SaveResult(w, Prepared(chain[|chain| - 1].payload, req, actor, f.at), false,
                       Changed(actor, req, f.at, |chain|), f)
            == ChangeResult(w, id, req, actor, f)
  {
    LastPayload(w, id);
  }

  lemma SaveAnswersChange(w: World, id: string, req: Request, actor: string, o: Outside)
    requires ChainsOk(w) && Admitted(w, id, req) && o.allowed
    ensures var chain := Chain(w, id);
            SaveReply(w, Prepared(chain[|chain| - 1].payload, req, actor, o.at), ActionOf(req), false,
                      actor !in w.excluded, o)
            == ChangeReply(w, id, req, actor, o)
  {
    LastPayload(w, id);
  }

  lemma LastPayload(w: World, id: string)
    requires ChainsOk(w) && Chain(w, id) != []
    ensures Chain(w, id)[|Chain(w, id)| - 1].payload.id == id
  {
    assert ChainOk(id, w.docs[id], w.origins[id]);
  }

  /** A change that does not get as far as a save. */
  lemma TurnedAway(w: World, id: string, req: Request, actor: string, o: Outside)
    requires !Admitted(w, id, req) || !o.allowed
    ensures ChangeResult(w, id, req, actor, FateOf(o, actor !in w.excluded)) ==
              if !Admitted(w, id, req) || (actor !in w.excluded && !o.eventOk) then w
              else Denied(w, id, ActionOf(req), actor)
    ensures ChangeReply(w, id, req, actor, o) ==
              if Chain(w, id) == [] then Err(NotFound) else if !Admitted(w, id, req) then Err(InvalidTransition)
              else Err(DenialError(o, actor !in w.excluded))
  {
  }

  // ---------------------------------------------------------------------------------------------
  // What a caller may conclude from the answer
  // ---------------------------------------------------------------------------------------------

  /** The call gets as far as a successful commit. */
  predicate GetsCommitted(w: World, id: string, req: Request, actor: string, o: Outside) {
    var chain := Chain(w, id);
    && chain != [] && Guard(chain[|chain| - 1].payload.status, req) && o.allowed
    && o.fault == NoFault && (actor in w.excluded || o.eventOk) && o.commit != Refused
  }

  lemma OkCommits(w: World, id: string, req: Request, actor: string, o: Outside)
    requires ChainsOk(w) && ChangeReply(w, id, req, actor, o).Ok?
    ensures GetsCommitted(w, id, req, actor, o) && ChangeReply(w, id, req, actor, o).value == |Chain(w, id)| + 1
  {
    assert ChainOk(id, w.docs[id], w.origins[id]);
  }

  lemma CommitStores(w: World, id: string, req: Request, actor: string, o: Outside)
    requires GetsCommitted(w, id, req, actor, o)
    ensures var x := ChangeResult(w, id, req, actor, FateOf(o, actor !in w.excluded));
            var chain, c := Chain(w, id), Chain(x, id); var n := |chain|;
            && |c| == n + 1 && c[..n - 1] == chain[..n - 1] && c[n - 1] == chain[n - 1].(validTo := Some(o.now))
            && c[n].version == chain[n - 1].version + 1 && c[n].validFrom == o.now && c[n].validTo.None?
            && c[n].payload == Prepared(chain[n - 1].payload, req, actor, o.at).(updatedAt := o.now)
  {
  }

  lemma CommitRecords(w: World, id: string, req: Request, actor: string, o: Outside)
    requires GetsCommitted(w, id, req, actor, o)
    ensures var x := ChangeResult(w, id, req, actor, FateOf(o, actor !in w.excluded)); var n := |Chain(w, id)|;
            && |Chain(x, id)| == n + 1
            && x.audit == (if actor in w.excluded then w.audit
                           else w.audit + [AuditEvent(id, ActionOf(req), actor, true, Some(n + 1))])
            && x.facts == (if actor !in w.excluded && o.commit == Acknowledged && o.delivered
                              && FactAccepted(Chain(x, id)[n].payload, ActionOf(req), n + 1)
                           then w.facts + [Fact(id, n + 1, ActionOf(req), Chain(x, id)[n].payload)] else w.facts)
  {
  }

  /**
   A successful answer names the version stored. It has the fields its request writes and the others of
   the version it closed, follows an edge of the lifecycle graph, and, if the caller is audited, has its
   event and, unless the broker lost it, its fact.
   */
  lemma OkMeansStored(w: World, id: string, req: Request, actor: string, o: Outside)
    requires ChainsOk(w) && ChangeReply(w, id, req, actor, o).Ok?
    ensures var x := ChangeResult(w, id, req, actor, FateOf(o, actor !in w.excluded));
            var chain, c := Chain(w, id), Chain(x, id); var n := |chain|;
            && n > 0 && |c| == n + 1 == ChangeReply(w, id, req, actor, o).value
            && c[n - 1].validTo == Some(o.now) == Some(c[n].validFrom) && c[n].validTo.None?
            && Wrote(chain[n - 1].payload, c[n].payload, req, actor, o.at)
            && Edge(chain[n - 1].payload.status, ActionOf(req), c[n].payload.status,
                    chain[n - 1].payload.terms.instructionType)
    ensures actor !in w.excluded ==>
              var x := ChangeResult(w, id, req, actor, FateOf(o, actor !in w.excluded)); var n := |Chain(w, id)|;
              && |Chain(x, id)| == n + 1
              && x.audit == w.audit + [AuditEvent(id, ActionOf(req), actor, true, Some(n + 1))]
              && x.facts == (if o.delivered then w.facts + [Fact(id, n + 1, ActionOf(req), Chain(x, id)[n].payload)]
                             else w.facts)
  {
    OkCommits(w, id, req, actor, o);
    CommitStores(w, id, req, actor, o);
    CommitRecords(w, id, req, actor, o);
    OkIsAccepted(w, id, req, actor, o);
    CurrentAdmits(w, id, req, actor, o);
  }

  lemma OkIsAccepted(w: World, id: string, req: Request, actor: string, o: Outside)
    requires ChainsOk(w) && ChangeReply(w, id, req, actor, o).Ok?
    ensures o.commit == Acknowledged
    ensures actor !in w.excluded ==>
              var chain := Chain(w, id); var n := |chain|;
              n > 0 && FactAccepted(Prepared(chain[n - 1].payload, req, actor, o.at).(updatedAt := o.now), ActionOf(req), n + 1)
  {
    assert ChainOk(id, w.docs[id], w.origins[id]);
  }

  lemma CurrentAdmits(w: World, id: string, req: Request, actor: string, o: Outside)
    requires ChainsOk(w) && GetsCommitted(w, id, req, actor, o)
    ensures var current := Chain(w, id)[|Chain(w, id)| - 1].payload;
            var next := Prepared(current, req, actor, o.at).(updatedAt := o.now);
            Wrote(current, next, req, actor, o.at)
            && Edge(current.status, ActionOf(req), next.status, current.terms.instructionType)
  {
    var chain := Chain(w, id);
    assert ChainOk(id, chain, w.origins[id]);
    SnapshotCoherent(id, chain, w.origins[id], |chain| - 1);
    GuardIsEdge(chain[|chain| - 1].payload, req, actor, o.at);
    PreparedWrites(chain[|chain| - 1].payload, req, actor, o.at, o.now);
  }

  /** What CREATE answers, and what is stored when it succeeds. */
  lemma CreatedExactly(w: World, id: string, terms: Terms, actor: string, o: Outside)
    ensures var r, recorded := CreateReply(w, id, terms, actor, o), actor in w.excluded || o.eventOk;
            && (r.Ok? <==> && o.allowed && o.fault == NoFault && Chain(w, id) == [] && recorded && o.commit == Acknowledged
                           && (actor in w.excluded || (id != "" && actor != "")))
            && (r == Err(PolicyDenied) <==> !o.allowed && recorded)
            && (r == Err(StoreFailure) <==> o.allowed && (o.fault != NoFault || Chain(w, id) != []))
            && (r == Err(EventFailure) <==>
                  !recorded && (!o.allowed || (o.fault == NoFault && Chain(w, id) == [])))
            && (r.Ok? ==> r.value == 1)
  {
    ValidatorAcceptsDraft(id, terms, actor, o.now);
  }

  lemma CreateStores(w: World, id: string, terms: Terms, actor: string, o: Outside, x: World, i: Instruction)
    requires CreateReply(w, id, terms, actor, o).Ok?
    requires x == CreateResult(w, id, terms, actor, FateOf(o, actor !in w.excluded))
    requires i == Drafted(id, terms, actor)
    ensures Chain(x, id) == [Doc(1, o.now, None, i)]
    ensures i.id == id && i.terms == terms && i.status == DRAFT && i.createdBy == actor
    ensures x.audit == if actor in w.excluded then w.audit else w.audit + [AuditEvent(id, CREATE, actor, true, Some(1))]
    ensures x.facts == if actor !in w.excluded && o.delivered then w.facts + [Fact(id, 1, CREATE, i)] else w.facts
  {
    CreatedExactly(w, id, terms, actor, o);
    ValidatorAcceptsDraft(id, terms, actor, o.now);
    var chain := Initial(Drafted(id, terms, actor), o.now);
    assert chain == [Doc(1, o.now, None, i)];
    assert x == AfterSave(w, id, chain, Created(actor, terms), o.delivered);
  }

  /** The lifecycle graph has an edge for the request from the open version. */
  predicate GraphAdmits(w: World, id: string, req: Request) {
    var chain := Chain(w, id);
    chain != [] && HasEdge(chain[|chain| - 1].payload.status, ActionOf(req), chain[|chain| - 1].payload.terms.instructionType)
  }

  lemma GraphIsGuard(w: World, id: string, req: Request)
    requires ChainsOk(w)
    ensures GraphAdmits(w, id, req) <==> Admitted(w, id, req)
  {
    var chain := Chain(w, id);
    if chain != [] {
      assert ChainOk(id, chain, w.origins[id]);
      SnapshotCoherent(id, chain, w.origins[id], |chain| - 1);
      GuardIsEdge(chain[|chain| - 1].payload, req, "", 0);
    }
  }

  /** The errors of a save whose instruction is there. */
  lemma SaveErrors(w: World, next: Instruction, action: Action, audited: bool, o: Outside)
    requires Chain(w, next.id) != []
    ensures var r, recorded := SaveReply(w, next, action, false, audited, o), !audited || o.eventOk;
            && (r == Err(ConcurrentModification) <==>
                  o.fault == NotMatched || o.fault == DuplicateKey || o.fault == WriteConflict || o.fault == Transient)
            && (r == Err(StoreFailure) <==> o.fault == OtherFailure)
            && (r == Err(EventFailure) <==> o.fault == NoFault && !recorded)
            && (r == Err(CommitFailure) <==> o.fault == NoFault && recorded && o.commit != Acknowledged)
            && (r.Err? ==> r.error !in {NotFound, InvalidTransition, PolicyDenied, NoIdentifier})
  {
  }

  /** What each error tells the caller: those from before the transaction, */
  lemma ErrorsMean(w: World, id: string, req: Request, actor: string, o: Outside)
    requires ChainsOk(w)
    ensures var r := ChangeReply(w, id, req, actor, o);
            && (r == Err(NotFound) <==> Chain(w, id) == [])
            && (r == Err(InvalidTransition) <==> Chain(w, id) != [] && !GraphAdmits(w, id, req))
            && (r == Err(PolicyDenied) <==>
                  GraphAdmits(w, id, req) && !o.allowed && (actor in w.excluded || o.eventOk))
    ensures GraphAdmits(w, id, req) && !o.allowed ==>
              (ChangeReply(w, id, req, actor, o) == Err(EventFailure) <==> actor !in w.excluded && !o.eventOk)
  {
    GraphIsGuard(w, id, req);
    if Admitted(w, id, req) && o.allowed {
      ErrorsOfTheSave(w, id, req, actor, o);
    } else {
      TurnedAway(w, id, req, actor, o);
    }
  }

  /** and those from the transaction on. */
  lemma ErrorsOfTheSave(w: World, id: string, req: Request, actor: string, o: Outside)
    requires ChainsOk(w) && GraphAdmits(w, id, req) && o.allowed
    ensures var r, recorded := ChangeReply(w, id, req, actor, o), actor in w.excluded || o.eventOk;
            && (r == Err(ConcurrentModification) <==>
                  o.fault == NotMatched || o.fault == DuplicateKey || o.fault == WriteConflict || o.fault == Transient)
            && (r == Err(StoreFailure) <==> o.fault == OtherFailure)
            && (r == Err(EventFailure) <==> o.fault == NoFault && !recorded)
            && (r == Err(CommitFailure) <==> o.fault == NoFault && recorded && o.commit != Acknowledged)
            && (r.Err? ==> r.error !in {NotFound, InvalidTransition, PolicyDenied, NoIdentifier})
  {
    GraphIsGuard(w, id, req);
    LastPayload(w, id);
    var chain := Chain(w, id);
    SaveErrors(w, Prepared(chain[|chain| - 1].payload, req, actor, o.at), ActionOf(req), actor !in w.excluded, o);
    SaveAnswersChange(w, id, req, actor, o);
  }

  /**
   An error does not mean that nothing was stored: exactly when the commit's acknowledgement is lost,
   or an audited caller's snapshot lacks a name the fact needs, the version is there all the same.
   */
  lemma ErrorYetStored(w: World, id: string, req: Request, actor: string, o: Outside)
    requires ChainsOk(w)
    ensures var x := ChangeResult(w, id, req, actor, FateOf(o, actor !in w.excluded)); var chain := Chain(w, id);
            ChangeReply(w, id, req, actor, o).Err? && Chain(x, id) != chain
            <==> && GetsCommitted(w, id, req, actor, o)
                 && (o.commit == Unacknowledged
                     || (actor !in w.excluded && !NamesPresent(chain[|chain| - 1].payload, req, actor)))
  {
    StoredIfCommits(w, id, req, actor, o);
    if GetsCommitted(w, id, req, actor, o) {
      ReplyAfterCommit(w, id, req, actor, o);
    }
  }

  lemma StoredIfCommits(w: World, id: string, req: Request, actor: string, o: Outside)
    ensures var x := ChangeResult(w, id, req, actor, FateOf(o, actor !in w.excluded));
            Chain(x, id) != Chain(w, id) <==> GetsCommitted(w, id, req, actor, o)
  {
    if GetsCommitted(w, id, req, actor, o) {
      var x := ChangeResult(w, id, req, actor, FateOf(o, actor !in w.excluded));
      assert |Chain(x, id)| == |Chain(w, id)| + 1;
    }
  }

  lemma ReplyAfterCommit(w: World, id: string, req: Request, actor: string, o: Outside)
    requires ChainsOk(w) && GetsCommitted(w, id, req, actor, o)
    ensures var chain := Chain(w, id);
            ChangeReply(w, id, req, actor, o).Err?
            <==> o.commit == Unacknowledged
                 || (actor !in w.excluded && !NamesPresent(chain[|chain| - 1].payload, req, actor))
  {
    var chain := Chain(w, id);
    assert ChainOk(id, chain, w.origins[id]);
    FactOfNext(id, chain, w.origins[id], req, actor, o.at, o.now);
  }

  /** The fact of the version appended is accepted exactly when its names are there. */
  lemma FactOfNext(id: string, chain: seq<Doc>, origins: seq<Origin>, req: Request, actor: string, at: Time, now: Time)
    requires ChainOk(id, chain, origins) && Guard(chain[|chain| - 1].payload.status, req)
    ensures var current, n := chain[|chain| - 1].payload, |chain|;
            var next := Appended(chain, Prepared(current, req, actor, at), now);
            && |next| == n + 1 && next[n].version == n + 1 && current.id == id
            && (FactAccepted(next[n].payload, ActionOf(req), n + 1) <==> NamesPresent(current, req, actor))
  {
    var last := |chain| - 1;
    SnapshotCoherent(id, chain, origins, last);
    ValidatorAcceptsExactly(chain[last].payload, req, actor, at, last + 2);
    assert chain[last].payload.id == id && chain[last].version == last + 1;
  }

  // ---------------------------------------------------------------------------------------------
  // A double use, from the empty store
  // ---------------------------------------------------------------------------------------------

  function Approval(id: string, terms: Terms, maker: string, approver: string, f: Fate): seq<Step> {
    CallSteps(Create(0, id, terms, maker), f) + CallSteps(Read(0, id, Submit, maker), f)
    + CallSteps(Read(0, id, Approve, approver), f)
  }

  lemma ApprovalRun(w: World, id: string, terms: Terms, maker: string, approver: string, f: Fate)
    requires w.handlers == map[] && Chain(w, id) == [] && f.decision == Allow && !f.aborts
    ensures var x := Run(w, Approval(id, terms, maker, approver, f));
            && x.handlers == map[] && id in x.docs && |x.docs[id]| == 3
            && x.docs[id][2].payload.status == ActiveStatus(terms.instructionType)
            && |x.docs[id][2].payload.events| == 3
  {
    var a, b, c := CallSteps(Create(0, id, terms, maker), f), CallSteps(Read(0, id, Submit, maker), f),
                   CallSteps(Read(0, id, Approve, approver), f);
    CreateRun(w, id, terms, maker, f);
    var w1 := Run(w, a);
    ChangeRun(w1, id, Submit, maker, f);
    var w2 := Run(w1, b);
    ChangeRun(w2, id, Approve, approver, f);
    RunConcat(w, a, b);
    RunConcat(w, a + b, c);
    ApprovalChain(id, terms, maker, approver, f);
  }

  lemma ApprovalChain(id: string, terms: Terms, maker: string, approver: string, f: Fate)
    ensures var one := Initial(Drafted(id, terms, maker), f.now);
            var two := Appended(one, Prepared(one[0].payload, Submit, maker, f.at), f.now);
            var three := Appended(two, Prepared(two[1].payload, Approve, approver, f.at), f.now);
            && one[0].payload.status == DRAFT && |two| == 2 && two[1].payload.status == PENDING && |three| == 3
            && three[2].payload.status == ActiveStatus(terms.instructionType) && |three[2].payload.events| == 3
  {
  }

  /**
   A single-use instruction is created, submitted and approved, and then used twice under two
   payment references: the history has five versions and the last carries only four entries.
   */
  lemma DoubleUseHappens(id: string, terms: Terms, maker: string, approver: string, f: Fate, a: UseCall, b: UseCall)
    requires terms.instructionType == SingleUse && f.decision == Allow && !f.aborts && a.h != b.h
    ensures var c := Chain(Run(Empty({}), Approval(id, terms, maker, approver, f) + OverlappingUses(id, a, b)), id);
            && |c| == 5
            && c[3].payload.status == c[4].payload.status == USED
            && Entry(USE, a.actor, a.reference) in c[3].payload.events
            && Entry(USE, b.actor, b.reference) in c[4].payload.events
            && |c[4].payload.events| == 4
  {
    var approval := Approval(id, terms, maker, approver, f);
    EmptyInv({});
    RunKeepsInv(Empty({}), approval);
    ApprovalRun(Empty({}), id, terms, maker, approver, f);
    OverlappingUsesBothCommit(Run(Empty({}), approval), id, a, b);
    RunsOnlyExtend(Run(Empty({}), approval), OverlappingUses(id, a, b), id);
    RunConcat(Empty({}), approval, OverlappingUses(id, a, b));
  }
}
