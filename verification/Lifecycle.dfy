/**
 The cash settlement instruction and its lifecycle, as the instruction service's
 handlers apply it to one snapshot: the guard on the status, the fields each
 handler assigns, and the lifecycle entry it appends.

 Reads of the clock and the decision of the policy engine are parameters.
 */
module Lifecycle {
  import opened Wrappers

  type Time = int

  datatype InstructionType = Standing | SingleUse

  datatype Status =
    DRAFT | PENDING | STANDING | SINGLE_USE | SUSPENDED | REJECTED | USED | EXPIRED | DELETED

  datatype Action =
    CREATE | UPDATE | DELETE | SUBMIT | APPROVE | REJECT | SUSPEND | REACTIVATE | USE | VIEW

  /** The settlement route: everything CREATE and UPDATE take from their request. */
  datatype Terms = Terms(instructionType: InstructionType, currency: string, creditorAccount: string,
                         effectiveDate: Time, endDate: Time)

  /** One element of lifecycle_events; `reference` is the payment reference of a USE. */
  datatype Entry = Entry(action: Action, actor: string, reference: string)

  datatype Instruction = Instruction(
    id: string,
    terms: Terms,
    status: Status,
    createdBy: string,
    updatedAt: Time,
    submittedAt: Option<Time>,
    approvedBy: Option<string>,
    approvedAt: Option<Time>,
    rejectedBy: Option<string>,
    rejectedAt: Option<Time>,
    rejectionReason: Option<string>,
    suspendedBy: Option<string>,
    suspendedAt: Option<Time>,
    lastUsedAt: Option<Time>,
    usageCount: nat,
    events: seq<Entry>)

  /** The body of a lifecycle call on an existing instruction. */
  datatype Request =
    | Update(terms: Terms)
    | Delete
    | Submit
    | Approve
    | Reject(reason: string)
    | Suspend
    | Reactivate
    | Use(reference: string)

  function ActionOf(req: Request): Action {
    match req
    case Update(_) => UPDATE
    case Delete => DELETE
    case Submit => SUBMIT
    case Approve => APPROVE
    case Reject(_) => REJECT
    case Suspend => SUSPEND
    case Reactivate => REACTIVATE
    case Use(_) => USE
  }

  function EntryOf(req: Request, actor: string): Entry {
    Entry(ActionOf(req), actor, if req.Use? then req.reference else "")
  }

  /** The status check each handler makes on the snapshot it read. */
  predicate Guard(status: Status, req: Request) {
    match req
    case Update(_) => status == DRAFT
    case Delete => status == DRAFT || status == PENDING
    case Submit => status == DRAFT
    case Approve => status == PENDING
    case Reject(_) => status == PENDING
    case Suspend => status == STANDING || status == SINGLE_USE
    case Reactivate => status == SUSPENDED
    case Use(_) => status == STANDING || status == SINGLE_USE
  }

  function ActiveStatus(t: InstructionType): Status {
    if t == Standing then STANDING else SINGLE_USE
  }

  /** The instruction CREATE builds, before it is stored. */
  function Drafted(id: string, terms: Terms, actor: string): Instruction {
    Instruction(id, terms, DRAFT, actor, 0, None, None, None, None, None, None, None, None, None, 0,
                [Entry(CREATE, actor, "")])
  }

  /** The field assignments of the handler for `req`, before the lifecycle entry is appended. */
  function Assigned(i: Instruction, req: Request, actor: string, at: Time): Instruction {
    match req
    case Update(terms) => i.(terms := terms)
    case Delete => i.(status := DELETED)
    case Submit => i.(status := PENDING, submittedAt := Some(at))
    case Approve => i.(status := ActiveStatus(i.terms.instructionType), approvedBy := Some(actor), approvedAt := Some(at))
    case Reject(reason) =>
      i.(status := REJECTED, rejectedBy := Some(actor), rejectedAt := Some(at), rejectionReason := Some(reason))
    case Suspend => i.(status := SUSPENDED, suspendedBy := Some(actor), suspendedAt := Some(at))
    case Reactivate =>
      i.(status := ActiveStatus(i.terms.instructionType), suspendedBy := None, suspendedAt := None)
    case Use(_) =>
      i.(usageCount := i.usageCount + 1, lastUsedAt := Some(at),
         status := if i.terms.instructionType == SingleUse then USED else i.status)
  }

  /** What a handler hands to the repository: assigned fields plus one lifecycle entry. */
  function Prepared(i: Instruction, req: Request, actor: string, at: Time): Instruction {
    Assigned(i, req, actor, at).(events := i.events + [EntryOf(req, actor)])
  }

  // ---------------------------------------------------------------------------------------------
  // The lifecycle graph, written as a table of edges
  // ---------------------------------------------------------------------------------------------

  predicate Edge(from: Status, action: Action, to: Status, t: InstructionType) {
    || (from == DRAFT && action == UPDATE && to == DRAFT)
    || (from == DRAFT && action == SUBMIT && to == PENDING)
    || (from == DRAFT && action == DELETE && to == DELETED)
    || (from == PENDING && action == DELETE && to == DELETED)
    || (from == PENDING && action == REJECT && to == REJECTED)
    || (from == PENDING && action == APPROVE && t == Standing && to == STANDING)
    || (from == PENDING && action == APPROVE && t == SingleUse && to == SINGLE_USE)
    || (from == STANDING && action == USE && t == Standing && to == STANDING)
    || (from == SINGLE_USE && action == USE && t == SingleUse && to == USED)
    || (from == STANDING && action == SUSPEND && to == SUSPENDED)
    || (from == SINGLE_USE && action == SUSPEND && to == SUSPENDED)
    || (from == SUSPENDED && action == REACTIVATE && t == Standing && to == STANDING)
    || (from == SUSPENDED && action == REACTIVATE && t == SingleUse && to == SINGLE_USE)
  }

  predicate Final(s: Status) {
    s == REJECTED || s == USED || s == DELETED
  }

  predicate HasEdge(from: Status, action: Action, t: InstructionType) {
    exists to :: Edge(from, action, to, t)
  }

  /** The guards admit a request exactly when the graph has an edge for it, and the handler follows that edge. */
  lemma GuardIsEdge(i: Instruction, req: Request, actor: string, at: Time)
    requires Coherent(i)
    ensures Guard(i.status, req) <==> HasEdge(i.status, ActionOf(req), i.terms.instructionType)
    ensures Guard(i.status, req) ==>
              Edge(i.status, ActionOf(req), Prepared(i, req, actor, at).status, i.terms.instructionType)
  {
    if Guard(i.status, req) {
      assert Edge(i.status, ActionOf(req), Prepared(i, req, actor, at).status, i.terms.instructionType);
    }
  }

  // ---------------------------------------------------------------------------------------------
  // Coherence of one snapshot
  // ---------------------------------------------------------------------------------------------

  function CountUses(events: seq<Entry>): nat {
    if events == [] then 0
    else CountUses(events[..|events| - 1]) + if events[|events| - 1].action == USE then 1 else 0
  }

  lemma CountUsesAppend(events: seq<Entry>, e: Entry)
    ensures CountUses(events + [e]) == CountUses(events) + if e.action == USE then 1 else 0
  {
    assert (events + [e])[..|events|] == events;
  }

  /** What the fields of every stored snapshot say about each other. */
  predicate Coherent(i: Instruction) {
    && (i.approvedBy.Some? <==> i.status in {STANDING, SINGLE_USE, SUSPENDED, USED})
    && (i.approvedAt.Some? <==> i.approvedBy.Some?)
    && (i.rejectedBy.Some? <==> i.status == REJECTED)
    && (i.rejectedAt.Some? <==> i.status == REJECTED)
    && (i.rejectionReason.Some? <==> i.status == REJECTED)
    && (i.suspendedBy.Some? <==> i.status == SUSPENDED)
    && (i.suspendedAt.Some? <==> i.status == SUSPENDED)
    && (i.status == DRAFT ==> i.submittedAt.None?)
    && (i.status !in {DRAFT, DELETED} ==> i.submittedAt.Some?)
    && (i.status == STANDING ==> i.terms.instructionType == Standing)
    && (i.status in {SINGLE_USE, USED} ==> i.terms.instructionType == SingleUse)
    && (i.terms.instructionType == SingleUse ==> i.usageCount == if i.status == USED then 1 else 0)
    && (i.approvedBy.None? ==> i.usageCount == 0)
    && (i.lastUsedAt.Some? <==> i.usageCount > 0)
    && i.usageCount == CountUses(i.events)
    && |i.events| > 0
    && i.status != EXPIRED
  }

  lemma DraftedCoherent(id: string, terms: Terms, actor: string)
    ensures Coherent(Drafted(id, terms, actor))
  {
    CountUsesAppend([], Entry(CREATE, actor, ""));
    assert [] + [Entry(CREATE, actor, "")] == [Entry(CREATE, actor, "")];
  }

  lemma PreparedCoherent(i: Instruction, req: Request, actor: string, at: Time)
    requires Coherent(i) && Guard(i.status, req)
    ensures Coherent(Prepared(i, req, actor, at))
  {
    CountUsesAppend(i.events, EntryOf(req, actor));
  }

  /**
   Suspending and reactivating gives the snapshot back, status and suspension fields included;
   only the two lifecycle entries stay.
   */
  lemma SuspendReactivateRestores(i: Instruction, a: string, b: string, s: Time, t: Time)
    requires Coherent(i) && Guard(i.status, Suspend)
    ensures var suspended := Prepared(i, Suspend, a, s);
            && Guard(suspended.status, Reactivate)
            && Prepared(suspended, Reactivate, b, t)
               == i.(events := i.events + [EntryOf(Suspend, a), EntryOf(Reactivate, b)])
  {
    assert i.events + [EntryOf(Suspend, a)] + [EntryOf(Reactivate, b)]
        == i.events + [EntryOf(Suspend, a), EntryOf(Reactivate, b)];
  }

  /** Approval freezes the terms, the approver and the approval time for good. */
  lemma ApprovalIsFrozen(i: Instruction, req: Request, actor: string, at: Time)
    requires Coherent(i) && Guard(i.status, req) && i.approvedBy.Some?
    ensures var n := Prepared(i, req, actor, at);
            n.terms == i.terms && n.approvedBy == i.approvedBy && n.approvedAt == i.approvedAt
  {
  }

  // ---------------------------------------------------------------------------------------------
  // The validator run on a snapshot before it is published as a fact
  // ---------------------------------------------------------------------------------------------

  predicate HasUser(u: Option<string>) { u.Some? && u.value != "" }

  predicate HasText(s: Option<string>) { s.Some? && s.value != "" }

  /** validate_instruction_snapshot: true when it returns, false when it raises. */
  predicate FactAccepted(i: Instruction, action: Action, version: int) {
    && i.id != ""
    && i.createdBy != ""
    && |i.events| > 0
    && version >= 1
    && (action == SUBMIT ==> i.submittedAt.Some?)
    && (action == APPROVE ==> HasUser(i.approvedBy) && i.approvedAt.Some?)
    && (action == REJECT ==> HasUser(i.rejectedBy) && i.rejectedAt.Some? && HasText(i.rejectionReason))
    && (action == SUSPEND ==> HasText(i.suspendedBy) && i.suspendedAt.Some?)
    && (action in {UPDATE, SUSPEND, REACTIVATE, USE, DELETE} && i.approvedBy.Some? ==> HasUser(i.approvedBy))
  }

  /** The inputs of the handler, and nothing else, decide whether its fact is accepted. */
  predicate NamesPresent(i: Instruction, req: Request, actor: string) {
    && i.id != ""
    && i.createdBy != ""
    && (req.Approve? || req.Reject? || req.Suspend? ==> actor != "")
    && (req.Reject? ==> req.reason != "")
    && (req.Suspend? || req.Reactivate? || req.Use? ==> HasUser(i.approvedBy))
  }

  /** For CREATE only the id and the creator matter. */
  lemma ValidatorAcceptsDraft(id: string, terms: Terms, actor: string, at: Time)
    ensures FactAccepted(Drafted(id, terms, actor).(updatedAt := at), CREATE, 1) <==> id != "" && actor != ""
  {
  }

  lemma ValidatorAcceptsExactly(i: Instruction, req: Request, actor: string, at: Time, version: int)
    requires Coherent(i) && Guard(i.status, req) && version >= 1
    ensures FactAccepted(Prepared(i, req, actor, at), ActionOf(req), version) <==> NamesPresent(i, req, actor)
  {
  }
}
