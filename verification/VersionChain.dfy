/**
 The bi-temporal version chain of one instruction: the documents the repository
 stores, what appending a version does to them, and where each version came from.
 */
module VersionChain {
  import opened Wrappers
  import opened Lifecycle

  /** One stored version: `validFrom` and `validTo` are the document's "in" and "out". */
  datatype Doc = Doc(version: nat, validFrom: Time, validTo: Option<Time>, payload: Instruction)

  /**
   How a version came to be written. This is history the service does not store: `base` is the
   number of the version whose snapshot the handler had read, which need not be the one it replaced.
   */
  datatype Origin =
    | Created(actor: string, terms: Terms)
    | Changed(actor: string, req: Request, at: Time, base: nat)

  function OriginAction(o: Origin): Action {
    match o
    case Created(_, _) => CREATE
    case Changed(_, req, _, _) => ActionOf(req)
  }

  function Initial(instruction: Instruction, now: Time): seq<Doc> {
    [Doc(1, now, None, instruction)]
  }

  /** Close the open version at `now` and insert the next one, stamped with the same `now`. */
  function Appended(chain: seq<Doc>, instruction: Instruction, now: Time): seq<Doc>
    requires |chain| > 0
  {
    var last := |chain| - 1;
    chain[last := chain[last].(validTo := Some(now))]
    + [Doc(chain[last].version + 1, now, None, instruction.(updatedAt := now))]
  }

  /** Version k+1 is its base version changed by exactly one request that the base's status admits. */
  predicate StepFromBase(chain: seq<Doc>, origins: seq<Origin>, k: nat)
    requires 1 <= k < |chain| == |origins|
  {
    && origins[k].Changed?
    && 1 <= origins[k].base <= k
    && var base := chain[origins[k].base - 1].payload;
       && Guard(base.status, origins[k].req)
       && chain[k].payload
          == Prepared(base, origins[k].req, origins[k].actor, origins[k].at).(updatedAt := chain[k].validFrom)
  }

  predicate ChainOk(id: string, chain: seq<Doc>, origins: seq<Origin>) {
    && |chain| == |origins| > 0
    && (forall k | 0 <= k < |chain| :: chain[k].version == k + 1 && chain[k].payload.id == id)
    && (forall k | 0 <= k < |chain| - 1 :: chain[k].validTo == Some(chain[k + 1].validFrom))
    && chain[|chain| - 1].validTo == None
    && origins[0].Created?
    && chain[0].payload == Drafted(id, origins[0].terms, origins[0].actor)
    && (forall k | 1 <= k < |chain| :: StepFromBase(chain, origins, k))
  }

  lemma InitialOk(id: string, terms: Terms, actor: string, now: Time)
    ensures ChainOk(id, Initial(Drafted(id, terms, actor), now), [Created(actor, terms)])
  {
  }

  /** A handler that read any earlier version keeps the chain well formed when it appends. */
  lemma AppendedOk(id: string, chain: seq<Doc>, origins: seq<Origin>, base: nat, req: Request,
                   actor: string, at: Time, now: Time)
    requires ChainOk(id, chain, origins)
    requires 1 <= base <= |chain| && Guard(chain[base - 1].payload.status, req)
    ensures ChainOk(id, Appended(chain, Prepared(chain[base - 1].payload, req, actor, at), now),
                    origins + [Changed(actor, req, at, base)])
  {
    var c := Appended(chain, Prepared(chain[base - 1].payload, req, actor, at), now);
    var o := origins + [Changed(actor, req, at, base)];
    forall k | 1 <= k < |c| ensures StepFromBase(c, o, k) {
      if k < |chain| {
        assert StepFromBase(chain, origins, k);
        assert c[k].payload == chain[k].payload;
      }
    }
  }

  /** Nothing about a stored version changes later, except that the open one is closed once. */
  predicate Extends(before: seq<Doc>, after: seq<Doc>) {
    && |before| <= |after|
    && forall k | 0 <= k < |before| ::
         && after[k].version == before[k].version
         && after[k].validFrom == before[k].validFrom
         && after[k].payload == before[k].payload
         && (before[k].validTo.Some? ==> after[k].validTo == before[k].validTo)
  }

  // ---------------------------------------------------------------------------------------------
  // What every well-formed chain satisfies, whoever wrote it
  // ---------------------------------------------------------------------------------------------

  lemma {:induction false} SnapshotCoherent(id: string, chain: seq<Doc>, origins: seq<Origin>, k: nat)
    requires ChainOk(id, chain, origins) && k < |chain|
    ensures Coherent(chain[k].payload)
    decreases k
  {
    if k == 0 {
      DraftedCoherent(id, origins[0].terms, origins[0].actor);
    } else {
      assert StepFromBase(chain, origins, k);
      SnapshotCoherent(id, chain, origins, origins[k].base - 1);
      PreparedCoherent(chain[origins[k].base - 1].payload, origins[k].req, origins[k].actor, origins[k].at);
    }
  }

  // ---------------------------------------------------------------------------------------------
  // What each request writes, field by field
  // ---------------------------------------------------------------------------------------------

  /** The settlement terms change by UPDATE alone, and the status goes where the request leads. */
  predicate WroteTermsAndStatus(base: Instruction, i: Instruction, req: Request) {
    && i.terms == (if req.Update? then req.terms else base.terms)
    && i.status ==
         match req
         case Update(_) => DRAFT
         case Delete => DELETED
         case Submit => PENDING
         case Approve => if base.terms.instructionType == SingleUse then SINGLE_USE else STANDING
         case Reject(_) => REJECTED
         case Suspend => SUSPENDED
         case Reactivate => if base.terms.instructionType == SingleUse then SINGLE_USE else STANDING
         case Use(_) => if base.terms.instructionType == SingleUse then USED else STANDING
  }

  /** Who submitted, approved and rejected, and when: set by that request alone. */
  predicate WroteDecisions(base: Instruction, i: Instruction, req: Request, actor: string, at: Time) {
    && i.submittedAt == (if req.Submit? then Some(at) else base.submittedAt)
    && i.approvedBy == (if req.Approve? then Some(actor) else base.approvedBy)
    && i.approvedAt == (if req.Approve? then Some(at) else base.approvedAt)
    && i.rejectedBy == (if req.Reject? then Some(actor) else base.rejectedBy)
    && i.rejectedAt == (if req.Reject? then Some(at) else base.rejectedAt)
    && i.rejectionReason == (if req.Reject? then Some(req.reason) else base.rejectionReason)
  }

  /** Suspension is set by SUSPEND and cleared by REACTIVATE; the use counter moves by USE alone. */
  predicate WroteUse(base: Instruction, i: Instruction, req: Request, actor: string, at: Time) {
    && i.suspendedBy == (if req.Suspend? then Some(actor) else if req.Reactivate? then None else base.suspendedBy)
    && i.suspendedAt == (if req.Suspend? then Some(at) else if req.Reactivate? then None else base.suspendedAt)
    && i.lastUsedAt == (if req.Use? then Some(at) else base.lastUsedAt)
    && i.usageCount == (if req.Use? then base.usageCount + 1 else base.usageCount)
  }

  predicate WroteEntry(base: Instruction, i: Instruction, req: Request, actor: string) {
    && i.id == base.id && i.createdBy == base.createdBy
    && |i.events| == |base.events| + 1 && i.events[..|base.events|] == base.events
    && var e := i.events[|base.events|];
       && e.actor == actor && (req.Use? ==> e.reference == req.reference)
       && e.action ==
            match req
            case Update(_) => UPDATE
            case Delete => DELETE
            case Submit => SUBMIT
            case Approve => APPROVE
            case Reject(_) => REJECT
            case Suspend => SUSPEND
            case Reactivate => REACTIVATE
            case Use(_) => USE
  }

  predicate Wrote(base: Instruction, i: Instruction, req: Request, actor: string, at: Time) {
    && WroteTermsAndStatus(base, i, req) && WroteDecisions(base, i, req, actor, at)
    && WroteUse(base, i, req, actor, at) && WroteEntry(base, i, req, actor)
  }

  /** An admitted request writes exactly that. */
  lemma PreparedWrites(base: Instruction, req: Request, actor: string, at: Time, now: Time)
    requires Coherent(base) && Guard(base.status, req)
    ensures Wrote(base, Prepared(base, req, actor, at).(updatedAt := now), req, actor, at)
  {
  }

  /** Every stored version is its base with the fields of its request written, and nothing else changed. */
  lemma VersionWrites(id: string, chain: seq<Doc>, origins: seq<Origin>, k: nat)
    requires ChainOk(id, chain, origins) && 1 <= k < |chain|
    ensures var o := origins[k];
            && o.Changed? && 1 <= o.base <= k
            && Wrote(chain[o.base - 1].payload, chain[k].payload, o.req, o.actor, o.at)
            && chain[k].payload.updatedAt == chain[k].validFrom
  {
    assert StepFromBase(chain, origins, k);
    SnapshotCoherent(id, chain, origins, origins[k].base - 1);
    PreparedWrites(chain[origins[k].base - 1].payload, origins[k].req, origins[k].actor, origins[k].at,
                   chain[k].validFrom);
  }

  /** And the first one is the draft its creator asked for. */
  lemma FirstVersionWrites(id: string, chain: seq<Doc>, origins: seq<Origin>)
    requires ChainOk(id, chain, origins)
    ensures var i, o := chain[0].payload, origins[0];
            && o.Created? && i.id == id && i.terms == o.terms && i.createdBy == o.actor && i.status == DRAFT
            && i.submittedAt.None? && i.approvedBy.None? && i.rejectedBy.None? && i.suspendedBy.None?
            && i.usageCount == 0 && |i.events| == 1 && i.events[0].action == CREATE && i.events[0].actor == o.actor
  {
  }

  predicate BasesBefore(origins: seq<Origin>) {
    forall k | 0 <= k < |origins| && origins[k].Changed? :: 1 <= origins[k].base <= k
  }

  /** The terms of the last UPDATE, or of CREATE, along the base path of version k+1. */
  function LastTerms(origins: seq<Origin>, k: nat): Terms
    requires BasesBefore(origins) && k < |origins|
  {
    match origins[k]
    case Created(_, terms) => terms
    case Changed(_, req, _, base) => if req.Update? then req.terms else LastTerms(origins, base - 1)
  }

  lemma {:induction false} TermsAreTheLast(id: string, chain: seq<Doc>, origins: seq<Origin>, k: nat)
    requires ChainOk(id, chain, origins) && k < |chain| && BasesBefore(origins)
    ensures chain[k].payload.terms == LastTerms(origins, k)
    decreases k
  {
    if k > 0 {
      VersionWrites(id, chain, origins, k);
      if !origins[k].req.Update? {
        TermsAreTheLast(id, chain, origins, origins[k].base - 1);
      }
    }
  }

  lemma ChainHasBasesBefore(id: string, chain: seq<Doc>, origins: seq<Origin>)
    requires ChainOk(id, chain, origins)
    ensures BasesBefore(origins)
  {
    forall k | 0 <= k < |origins| && origins[k].Changed? ensures 1 <= origins[k].base <= k {
      assert StepFromBase(chain, origins, k);
    }
  }

  /** Version k+1 was written from the version it replaced. */
  predicate Fresh(origins: seq<Origin>, k: nat)
    requires 1 <= k < |origins|
  {
    origins[k].Changed? && origins[k].base == k
  }

  predicate FreshUpTo(origins: seq<Origin>, k: nat)
    requires k < |origins|
  {
    forall j | 1 <= j <= k :: Fresh(origins, j)
  }

  /**
   The lost-update detector: version n carries at most n lifecycle entries, and exactly n when and
   only when no version up to n was written from a stale snapshot.
   */
  lemma {:induction false} EntriesBoundVersion(id: string, chain: seq<Doc>, origins: seq<Origin>, k: nat)
    requires ChainOk(id, chain, origins) && k < |chain|
    ensures |chain[k].payload.events| <= chain[k].version
    ensures |chain[k].payload.events| == chain[k].version <==> FreshUpTo(origins, k)
    decreases k
  {
    if k > 0 {
      assert StepFromBase(chain, origins, k);
      var b := origins[k].base - 1;
      EntriesBoundVersion(id, chain, origins, b);
      if b == k - 1 {
        assert FreshUpTo(origins, k) <==> FreshUpTo(origins, b) && Fresh(origins, k);
      } else {
        assert !Fresh(origins, k);
      }
    }
  }

  /** Without stale writes the history is a path in the lifecycle graph and a final status ends it. */
  lemma FreshHistoryIsPath(id: string, chain: seq<Doc>, origins: seq<Origin>, k: nat)
    requires ChainOk(id, chain, origins) && 1 <= k < |chain| && Fresh(origins, k)
    ensures Edge(chain[k - 1].payload.status, OriginAction(origins[k]), chain[k].payload.status,
                 chain[k - 1].payload.terms.instructionType)
    ensures !Final(chain[k - 1].payload.status)
  {
    assert StepFromBase(chain, origins, k);
    SnapshotCoherent(id, chain, origins, k - 1);
    GuardIsEdge(chain[k - 1].payload, origins[k].req, origins[k].actor, origins[k].at);
  }

  /** What a transaction would have to check about the version it replaces. */
  predicate StillAdmits(current: Instruction, base: Instruction, req: Request) {
    && Guard(current.status, req)
    && (req.Approve? || req.Reactivate? || req.Use? ==> current.terms.instructionType == base.terms.instructionType)
  }

  /**
   Stale or not, version k+1 follows its predecessor along an edge of the graph exactly when the
   predecessor's status admitted the request too, and its type where the new status depends on it.
   */
  lemma EdgeExactly(id: string, chain: seq<Doc>, origins: seq<Origin>, k: nat)
    requires ChainOk(id, chain, origins) && 1 <= k < |chain| && StepFromBase(chain, origins, k)
    ensures var current, base := chain[k - 1].payload, chain[origins[k].base - 1].payload;
            Edge(current.status, OriginAction(origins[k]), chain[k].payload.status, current.terms.instructionType)
            <==> StillAdmits(current, base, origins[k].req)
  {
    SnapshotCoherent(id, chain, origins, k - 1);
    SnapshotCoherent(id, chain, origins, origins[k].base - 1);
  }

  // ---------------------------------------------------------------------------------------------
  // What checking the current version again would give
  // ---------------------------------------------------------------------------------------------

  /** Each of the first n versions after the first was still admitted by the version it replaced. */
  predicate Rechecked(chain: seq<Doc>, origins: seq<Origin>, n: nat)
    requires n <= |chain| == |origins|
  {
    forall k | 1 <= k < n ::
      StepFromBase(chain, origins, k)
      && StillAdmits(chain[k - 1].payload, chain[origins[k].base - 1].payload, origins[k].req)
  }

  /** Version k+1 was written by a USE that used the instruction up. */
  predicate UsesUp(chain: seq<Doc>, origins: seq<Origin>, k: nat)
    requires k < |chain| == |origins|
  {
    OriginAction(origins[k]) == USE && chain[k].payload.status == USED
  }

  /** How many of the first n versions did. */
  function UsedUp(chain: seq<Doc>, origins: seq<Origin>, n: nat): nat
    requires n <= |chain| == |origins|
  {
    if n == 0 then 0 else UsedUp(chain, origins, n - 1) + if UsesUp(chain, origins, n - 1) then 1 else 0
  }

  /** One such version: it does not follow a final one, and it is USED exactly when a USE made it so. */
  lemma AdmittedStep(id: string, chain: seq<Doc>, origins: seq<Origin>, k: nat)
    requires ChainOk(id, chain, origins) && 1 <= k < |chain| && StepFromBase(chain, origins, k)
    requires StillAdmits(chain[k - 1].payload, chain[origins[k].base - 1].payload, origins[k].req)
    ensures !Final(chain[k - 1].payload.status)
    ensures chain[k].payload.status == USED <==> UsesUp(chain, origins, k)
    ensures chain[k - 1].payload.approvedBy.Some? ==> chain[k].payload.approvedBy.Some?
  {
    EdgeExactly(id, chain, origins, k);
    SnapshotCoherent(id, chain, origins, k - 1);
    SnapshotCoherent(id, chain, origins, k);
  }

  lemma RecheckedStep(id: string, chain: seq<Doc>, origins: seq<Origin>, n: nat, k: nat)
    requires ChainOk(id, chain, origins) && n <= |chain| && Rechecked(chain, origins, n) && 1 <= k < n
    ensures !Final(chain[k - 1].payload.status)
    ensures chain[k].payload.status == USED <==> UsesUp(chain, origins, k)
    ensures chain[k - 1].payload.approvedBy.Some? ==> chain[k].payload.approvedBy.Some?
  {
    AdmittedStep(id, chain, origins, k);
  }

  /**
   On a chain whose versions were all admitted again when they were written, stale bases or not, the
   instruction is used up once if its open version is USED, and otherwise never.
   */
  lemma {:induction false} UsedUpOnce(id: string, chain: seq<Doc>, origins: seq<Origin>, n: nat)
    requires ChainOk(id, chain, origins) && 1 <= n <= |chain| && Rechecked(chain, origins, n)
    ensures UsedUp(chain, origins, n) == if chain[n - 1].payload.status == USED then 1 else 0
  {
    if n == 1 {
      assert UsedUp(chain, origins, 0) == 0;
    } else {
      UsedUpOnce(id, chain, origins, n - 1);
      RecheckedStep(id, chain, origins, n, n - 1);
    }
  }

  lemma UsesUpSingle(id: string, chain: seq<Doc>, origins: seq<Origin>, base: nat, reference: string, actor: string,
                     at: Time)
    requires ChainOk(id, chain, origins) && 1 <= base <= |chain| && chain[base - 1].payload.status == SINGLE_USE
    ensures Prepared(chain[base - 1].payload, Use(reference), actor, at).status == USED
  {
    SnapshotCoherent(id, chain, origins, base - 1);
  }

  /** The chain and the history after a USE of instruction i. */
  function ChainWithUse(chain: seq<Doc>, i: Instruction, reference: string, actor: string, at: Time, now: Time): seq<Doc>
    requires |chain| > 0
  {
    Appended(chain, Prepared(i, Use(reference), actor, at), now)
  }

  lemma LastAppended(chain: seq<Doc>, origins: seq<Origin>, i: Instruction, reference: string, actor: string, at: Time,
                     now: Time, base: nat)
    requires |chain| == |origins| > 0 && Prepared(i, Use(reference), actor, at).status == USED
    ensures var c, o := ChainWithUse(chain, i, reference, actor, at, now),
                        origins + [Changed(actor, Use(reference), at, base)];
            |c| == |o| == |chain| + 1 && UsedUp(c, o, |c|) == UsedUp(chain, origins, |chain|) + 1
  {
    var c := ChainWithUse(chain, i, reference, actor, at, now);
    var o := origins + [Changed(actor, Use(reference), at, base)];
    UsedUpAppends(chain, origins, c, o, |chain|);
    assert UsesUp(c, o, |chain|);
  }

  /**
   Exactly when a second use gets in: on such a chain a USE that uses the instruction up makes it two
   if and only if the version it replaces is already USED, which is what the transaction does not check.
   */
  lemma SecondUseExactly(id: string, chain: seq<Doc>, origins: seq<Origin>, base: nat, reference: string,
                         actor: string, at: Time, now: Time)
    requires ChainOk(id, chain, origins) && Rechecked(chain, origins, |chain|)
    requires 1 <= base <= |chain| && chain[base - 1].payload.status == SINGLE_USE
    ensures var c := ChainWithUse(chain, chain[base - 1].payload, reference, actor, at, now);
            var o := origins + [Changed(actor, Use(reference), at, base)];
            && |c| == |o| == |chain| + 1
            && (UsedUp(c, o, |c|) == 2 <==> chain[|chain| - 1].payload.status == USED)
  {
    UsesUpSingle(id, chain, origins, base, reference, actor, at);
    UsedUpOnce(id, chain, origins, |chain|);
    LastAppended(chain, origins, chain[base - 1].payload, reference, actor, at, now, base);
  }

  lemma {:induction false} UsedUpAppends(chain: seq<Doc>, origins: seq<Origin>, c: seq<Doc>, o: seq<Origin>, n: nat)
    requires n <= |chain| == |origins| <= |c| == |o|
    requires forall k | 0 <= k < n :: c[k].payload == chain[k].payload && o[k] == origins[k]
    ensures UsedUp(c, o, n) == UsedUp(chain, origins, n)
  {
    if n > 0 { UsedUpAppends(chain, origins, c, o, n - 1); }
  }

  lemma {:induction false} ApprovedFrom(id: string, chain: seq<Doc>, origins: seq<Origin>, j: nat, k: nat)
    requires ChainOk(id, chain, origins) && j <= k < |chain| && Rechecked(chain, origins, |chain|)
    requires chain[j].payload.approvedBy.Some?
    ensures chain[k].payload.approvedBy.Some?
    decreases k
  {
    if j < k {
      ApprovedFrom(id, chain, origins, j, k - 1);
      RecheckedStep(id, chain, origins, |chain|, k);
    }
  }

  /** A version that follows an approved one was made from an approved one, of which it has the terms. */
  lemma ApprovedBase(id: string, chain: seq<Doc>, origins: seq<Origin>, k: nat)
    requires ChainOk(id, chain, origins) && 1 <= k < |chain| && StepFromBase(chain, origins, k)
    requires StillAdmits(chain[k - 1].payload, chain[origins[k].base - 1].payload, origins[k].req)
    requires chain[k - 1].payload.approvedBy.Some?
    ensures var base := chain[origins[k].base - 1].payload;
            base.approvedBy.Some? && chain[k].payload.terms == base.terms
  {
    SnapshotCoherent(id, chain, origins, k - 1);
    SnapshotCoherent(id, chain, origins, origins[k].base - 1);
  }

  /** All approved versions of such a chain have the same terms. */
  lemma {:induction false} RecheckedTerms(id: string, chain: seq<Doc>, origins: seq<Origin>, j: nat, k: nat)
    requires ChainOk(id, chain, origins) && j <= k < |chain| && Rechecked(chain, origins, |chain|)
    requires chain[j].payload.approvedBy.Some?
    ensures chain[j].payload.terms == chain[k].payload.terms
    decreases k
  {
    if j < k {
      ApprovedFrom(id, chain, origins, j, k - 1);
      RecheckedTerms(id, chain, origins, j, k - 1);
      ApprovedBase(id, chain, origins, k);
      RecheckedTerms(id, chain, origins, origins[k].base - 1, k - 1);
    }
  }

  /** Where some version was single-use, every USE uses the instruction up, and is the last version. */
  lemma SingleUseEndsUsed(id: string, chain: seq<Doc>, origins: seq<Origin>, r: nat, k: nat)
    requires ChainOk(id, chain, origins) && r < |chain| && k < |chain| && Rechecked(chain, origins, |chain|)
    requires chain[r].payload.status == SINGLE_USE && OriginAction(origins[k]) == USE
    ensures chain[k].payload.status == USED && k == |chain| - 1
  {
    UseIsApproved(id, chain, origins, k);
    SnapshotCoherent(id, chain, origins, r);
    if r <= k { RecheckedTerms(id, chain, origins, r, k); } else { RecheckedTerms(id, chain, origins, k, r); }
    if k + 1 < |chain| { RecheckedStep(id, chain, origins, |chain|, k + 1); }
  }

  lemma UseIsApproved(id: string, chain: seq<Doc>, origins: seq<Origin>, k: nat)
    requires ChainOk(id, chain, origins) && k < |chain| && OriginAction(origins[k]) == USE
    ensures k > 0 && chain[k].payload.approvedBy.Some?
    ensures chain[k].payload.terms.instructionType == SingleUse ==> chain[k].payload.status == USED
  {
    assert k > 0;
    assert StepFromBase(chain, origins, k);
    SnapshotCoherent(id, chain, origins, origins[k].base - 1);
  }

  /** The fact validator accepts a stored version exactly when the handler was given its names. */
  lemma StoredVersionAccepted(id: string, chain: seq<Doc>, origins: seq<Origin>, k: nat)
    requires ChainOk(id, chain, origins) && k < |chain|
    ensures FactAccepted(chain[k].payload, OriginAction(origins[k]), k + 1)
       <==> if k == 0 then id != "" && origins[0].actor != ""
            else StepFromBase(chain, origins, k)
                 && NamesPresent(chain[origins[k].base - 1].payload, origins[k].req, origins[k].actor)
  {
    if k > 0 {
      assert StepFromBase(chain, origins, k);
      SnapshotCoherent(id, chain, origins, origins[k].base - 1);
      ValidatorAcceptsExactly(chain[origins[k].base - 1].payload, origins[k].req, origins[k].actor,
                              origins[k].at, k + 1);
    }
  }

  // ---------------------------------------------------------------------------------------------
  // Time
  // ---------------------------------------------------------------------------------------------

  /** Version k+1 is the one in force at time t: in <= t < out. */
  predicate InForce(chain: seq<Doc>, k: nat, t: Time)
    requires k < |chain|
  {
    chain[k].validFrom <= t && (chain[k].validTo.Some? ==> t < chain[k].validTo.value)
  }

  /** Some version is in force at every time from the first version on, whatever the clocks did. */
  lemma {:induction false} SomeVersionInForce(id: string, chain: seq<Doc>, origins: seq<Origin>, from: nat, t: Time)
    returns (k: nat)
    requires ChainOk(id, chain, origins) && from < |chain| && chain[from].validFrom <= t
    ensures from <= k < |chain| && InForce(chain, k, t)
    decreases |chain| - from
  {
    if InForce(chain, from, t) {
      k := from;
    } else {
      k := SomeVersionInForce(id, chain, origins, from + 1, t);
    }
  }

  ghost predicate AtMostOneInForce(chain: seq<Doc>) {
    |chain| > 0 ==>
      forall t: Time, j: nat, k: nat | j < |chain| && k < |chain| && chain[0].validFrom <= t
        && InForce(chain, j, t) && InForce(chain, k, t) :: j == k
  }

  /** The clock never stepped back, except possibly to a reading not after the first version's. */
  predicate ClockFollowsAppends(chain: seq<Doc>) {
    |chain| > 0 ==>
      forall k | 0 <= k < |chain| - 1 ::
        chain[k].validFrom <= chain[k + 1].validFrom || chain[k].validFrom <= chain[0].validFrom
  }

  /** If two versions are in force at t, the clock stepped back across t between them. */
  lemma {:induction false} StepsBack(id: string, chain: seq<Doc>, origins: seq<Origin>, j: nat, k: nat, t: Time)
    returns (m: nat)
    requires ChainOk(id, chain, origins) && j < k < |chain|
    requires t < chain[j + 1].validFrom && chain[k].validFrom <= t
    ensures j < m < |chain| - 1 && chain[m + 1].validFrom <= t < chain[m].validFrom
    decreases k - j
  {
    if chain[j + 2].validFrom <= t {
      m := j + 1;
    } else {
      m := StepsBack(id, chain, origins, j + 1, k, t);
    }
  }

  /** The half-open intervals partition all time from the first version on exactly under that condition. */
  lemma PartitionExactly(id: string, chain: seq<Doc>, origins: seq<Origin>)
    requires ChainOk(id, chain, origins)
    ensures AtMostOneInForce(chain) <==> ClockFollowsAppends(chain)
  {
    if ClockFollowsAppends(chain) {
      forall t: Time, j: nat, k: nat | j < k < |chain| && chain[0].validFrom <= t && InForce(chain, j, t)
        ensures !InForce(chain, k, t)
      {
        assert chain[j].validTo == Some(chain[j + 1].validFrom);
        if InForce(chain, k, t) {
          var m := StepsBack(id, chain, origins, j, k, t);
          assert false;
        }
      }
    } else {
      var k :| 0 <= k < |chain| - 1 && chain[k].validFrom > chain[k + 1].validFrom
               && chain[k].validFrom > chain[0].validFrom;
      var t := if chain[k + 1].validFrom >= chain[0].validFrom then chain[k + 1].validFrom else chain[0].validFrom;
      var late := SomeVersionInForce(id, chain, origins, k + 1, t);
      var early := LastBefore(id, chain, origins, k, t);
      assert early != late;
    }
  }

  /** A version before k is in force at t when the clock was past t at version k. */
  lemma {:induction false} LastBefore(id: string, chain: seq<Doc>, origins: seq<Origin>, k: nat, t: Time)
    returns (j: nat)
    requires ChainOk(id, chain, origins) && k < |chain|
    requires chain[0].validFrom <= t < chain[k].validFrom
    ensures j < k && InForce(chain, j, t)
    decreases k
  {
    assert chain[k - 1].validTo == Some(chain[k].validFrom);
    if chain[k - 1].validFrom <= t {
      j := k - 1;
    } else {
      j := LastBefore(id, chain, origins, k - 1, t);
    }
  }
}
