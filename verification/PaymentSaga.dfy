/**
 Payments against one instruction: the create saga, which marks a single-use
 instruction USED before it inserts the payment, and the checks made at approval.

 Instruction handlers run one at a time here. Payment creates interleave with them
 and with each other in any way and may stop between any two steps; the handlers of
 one payment do not overlap.
 */
module PaymentSaga {
  import opened Wrappers
  import opened Lifecycle

  /** A date field of the instruction as the payment service receives it. */
  datatype DateField = Absent | Unparseable | Date(t: Time)

  /** The instruction as read over HTTP; `version` is 0 when the field is missing. */
  datatype View = View(version: nat, status: Status, instructionType: Option<InstructionType>,
                       effectiveDate: DateField, endDate: DateField)

  datatype PaymentStatus = DraftPayment | Submitted | Approved | Rejected | Cancelled

  datatype Problem =
    | VersionDrift | BadStatus | Expired | BadEndDate | NotYetEffective | BadEffectiveDate | TypeChanged
    | Missing       // the instruction was not found at approval

  datatype PaymentAction = CreatePayment | SubmitPayment | ApprovePayment | RejectPayment | CancelPayment

  /** `instructionType` holds the instruction's status at creation. */
  datatype Payment = Payment(id: string, instructionVersion: nat, instructionType: Status, status: PaymentStatus,
                             versionNumber: nat, cancellation: Option<Problem>, events: seq<PaymentAction>)

  predicate Approvable(s: Status) {
    s == STANDING || s == SINGLE_USE
  }

  /** _validate_instruction_at_create: a bad end date raises like an expired one. */
  predicate ValidAtCreate(v: View, now: Time) {
    Approvable(v.status) && !v.endDate.Unparseable? && (v.endDate.Date? ==> v.endDate.t >= now)
  }

  /** _check_instruction_validity_for_approval: the first check that fails. */
  function ApprovalProblem(p: Payment, v: View, now: Time): Option<Problem> {
    if v.version != p.instructionVersion then Some(VersionDrift)
    else if !Approvable(v.status) then Some(BadStatus)
    else if v.endDate.Date? && v.endDate.t < now then Some(Expired)
    else if v.endDate.Unparseable? then Some(BadEndDate)
    else if v.effectiveDate.Date? && v.effectiveDate.t > now then Some(NotYetEffective)
    else if v.effectiveDate.Unparseable? then Some(BadEffectiveDate)
    else if (if v.instructionType.Some? then ActiveStatus(v.instructionType.value) else v.status) != p.instructionType
    then Some(TypeChanged)
    else None
  }

  function NewPayment(id: string, v: View): Payment {
    Payment(id, v.version, v.status, DraftPayment, 1, None, [CreatePayment])
  }

  /** Append a lifecycle event and align version_number with the events. */
  function Moved(p: Payment, status: PaymentStatus, action: PaymentAction): Payment {
    p.(status := status, events := p.events + [action], versionNumber := |p.events| + 1)
  }

  function CancelledFor(p: Payment, problem: Problem): Payment {
    Moved(p, Cancelled, CancelPayment).(cancellation := Some(problem))
  }

  // ---------------------------------------------------------------------------------------------
  // The protocol
  // ---------------------------------------------------------------------------------------------

  datatype Progress = Checked | Allowed | Marked

  datatype Creator = Creator(view: View, progress: Progress)

  /**
   `history` holds the payloads of the instruction's versions; `taken` the payment ids issued so far;
   `approving` the instruction as read by an approval under way.
   */
  datatype Saga = Saga(
    history: seq<Instruction>,
    creators: map<string, Creator>,
    payments: map<string, Payment>,
    approving: map<string, View>,
    taken: set<string>)

  datatype Step =
    | Instruct(req: Request, actor: string, at: Time, now: Time)
    | Read(p: string, now: Time)
    | Decide(p: string, allowed: bool)
    | MarkUsed(p: string, actor: string, at: Time, now: Time, allowed: bool, heard: bool)
    | Insert(p: string)
    | Stop(p: string)
    | Submit(p: string, allowed: bool)
    | RejectIt(p: string, allowed: bool)
    | ReadForApproval(p: string)
    | FindMissing(p: string)
    | FinishApproval(p: string, now: Time, allowed: bool)
    | StopApproval(p: string)

  function ViewOf(history: seq<Instruction>): View
    requires history != []
  {
    var i := history[|history| - 1];
    View(|history|, i.status, Some(i.terms.instructionType), Date(i.terms.effectiveDate), Date(i.terms.endDate))
  }

  /** One instruction handler run alone: the next version, or nothing if its guard refuses. */
  function Handled(history: seq<Instruction>, req: Request, actor: string, at: Time, now: Time): seq<Instruction> {
    if history == [] || !Guard(history[|history| - 1].status, req) then history
    else history + [Prepared(history[|history| - 1], req, actor, at).(updatedAt := now)]
  }

  predicate CanInsert(c: Creator) {
    c.progress == Marked || (c.progress == Allowed && c.view.status != SINGLE_USE)
  }

  function Do(s: Saga, step: Step): Saga {
    match step
    case Instruct(req, actor, at, now) =>
      s.(history := Handled(s.history, req, actor, at, now))
    case Read(p, now) =>
      if s.history == [] || p in s.taken || !ValidAtCreate(ViewOf(s.history), now) then s
      else s.(creators := s.creators[p := Creator(ViewOf(s.history), Checked)], taken := s.taken + {p})
    case Decide(p, allowed) =>
      if p !in s.creators || s.creators[p].progress != Checked then s
      else if allowed then s.(creators := s.creators[p := s.creators[p].(progress := Allowed)])
      else s.(creators := s.creators - {p})
    case MarkUsed(p, actor, at, now, allowed, heard) =>
      if p !in s.creators || s.creators[p].progress != Allowed || s.creators[p].view.status != SINGLE_USE then s
      else
        var h := if allowed then Handled(s.history, Use(p), actor, at, now) else s.history;
        s.(history := h,
           creators := if h != s.history && heard then s.creators[p := s.creators[p].(progress := Marked)]
                       else s.creators - {p})
    case Insert(p) =>
      if p !in s.creators || !CanInsert(s.creators[p]) then s
      else s.(creators := s.creators - {p}, payments := s.payments[p := NewPayment(p, s.creators[p].view)])
    case Stop(p) =>
      s.(creators := s.creators - {p})
    case Submit(p, allowed) =>
      if p !in s.payments || p in s.approving || s.payments[p].status != DraftPayment || !allowed then s
      else s.(payments := s.payments[p := Moved(s.payments[p], Submitted, SubmitPayment)])
    case RejectIt(p, allowed) =>
      if p !in s.payments || p in s.approving || s.payments[p].status != Submitted || !allowed then s
      else s.(payments := s.payments[p := Moved(s.payments[p], Rejected, RejectPayment)])
    case ReadForApproval(p) =>
      if p !in s.payments || p in s.approving || s.payments[p].status != Submitted || s.history == [] then s
      else s.(approving := s.approving[p := ViewOf(s.history)])
    case FindMissing(p) =>
      if p !in s.payments || p in s.approving || s.payments[p].status != Submitted then s
      else s.(payments := s.payments[p := CancelledFor(s.payments[p], Missing)])
    case FinishApproval(p, now, allowed) =>
      if p !in s.payments || p !in s.approving then s
      else
        var problem := ApprovalProblem(s.payments[p], s.approving[p], now);
        var t := s.(approving := s.approving - {p});
        if problem.Some? then
          t.(payments := s.payments[p := CancelledFor(s.payments[p], problem.value)])
        else if allowed then t.(payments := s.payments[p := Moved(s.payments[p], Approved, ApprovePayment)])
        else t
    case StopApproval(p) =>
      s.(approving := s.approving - {p})
  }

  function Run(s: Saga, steps: seq<Step>): Saga
    decreases |steps|
  {
    if steps == [] then s else Run(Do(s, steps[0]), steps[1..])
  }

  /** A newly created instruction and no payments yet. */
  function Start(id: string, terms: Terms, actor: string): Saga {
    Saga([Drafted(id, terms, actor)], map[], map[], map[], {})
  }

  // ---------------------------------------------------------------------------------------------
  // The invariant
  // ---------------------------------------------------------------------------------------------

  /** b can directly follow a in a history written by handlers that do not overlap. */
  predicate Follows(a: Instruction, b: Instruction) {
    && |b.events| == |a.events| + 1
    && b.events[..|a.events|] == a.events
    && (a.approvedBy.Some? ==> b.approvedBy.Some? && b.terms == a.terms)
  }

  predicate HistoryOk(h: seq<Instruction>) {
    && h != []
    && (forall k | 0 <= k < |h| :: Coherent(h[k]) && |h[k].events| == k + 1)
    && (forall k | 0 <= k < |h| - 1 :: Follows(h[k], h[k + 1]))
    && h[0].events[0].action == CREATE
  }

  lemma NextFollows(a: Instruction, req: Request, actor: string, at: Time, now: Time)
    requires Coherent(a) && Guard(a.status, req)
    ensures var b := Prepared(a, req, actor, at).(updatedAt := now); Coherent(b) && Follows(a, b)
  {
    PreparedCoherent(a, req, actor, at);
  }

  lemma HistoryExtends(h: seq<Instruction>, b: Instruction)
    requires HistoryOk(h) && Coherent(b) && Follows(h[|h| - 1], b)
    ensures HistoryOk(h + [b])
  {
  }

  lemma HandledOk(h: seq<Instruction>, req: Request, actor: string, at: Time, now: Time)
    requires HistoryOk(h)
    ensures HistoryOk(Handled(h, req, actor, at, now))
    ensures h <= Handled(h, req, actor, at, now)
  {
    var last := h[|h| - 1];
    if Guard(last.status, req) {
      NextFollows(last, req, actor, at, now);
      HistoryExtends(h, Prepared(last, req, actor, at).(updatedAt := now));
    }
  }

  /** From an approved version on, the terms are those of that version and its entries stay. */
  lemma {:induction false} ApprovedTermsStay(h: seq<Instruction>, j: nat, k: nat)
    requires HistoryOk(h) && j <= k < |h| && h[j].approvedBy.Some?
    ensures h[k].terms == h[j].terms && h[k].approvedBy.Some?
    decreases k
  {
    if j < k {
      ApprovedTermsStay(h, j, k - 1);
      assert Follows(h[k - 1], h[k]);
    }
  }

  /** The use of the instruction under payment reference p is on record. */
  predicate UsedFor(h: seq<Instruction>, p: string) {
    h != [] && exists e :: e in h[|h| - 1].events && e.action == USE && e.reference == p
  }

  /** v is what a read returned when the history had v.version versions. */
  predicate ReadFrom(h: seq<Instruction>, v: View) {
    1 <= v.version <= |h| && v == ViewOf(h[..v.version])
  }

  predicate CreatorOk(h: seq<Instruction>, p: string, c: Creator) {
    && ReadFrom(h, c.view) && Approvable(c.view.status)
    && (c.progress == Marked ==> c.view.status == SINGLE_USE && c.view.version < |h| && UsedFor(h, p))
  }

  predicate PaymentOk(h: seq<Instruction>, p: string, y: Payment) {
    && y.id == p
    && 1 <= y.instructionVersion <= |h|
    && y.instructionType == h[y.instructionVersion - 1].status && Approvable(y.instructionType)
    && (y.instructionType == SINGLE_USE ==>
          && y.instructionVersion < |h| && UsedFor(h, p) && y.status != Approved)
    && y.versionNumber == |y.events| > 0
  }

  predicate ApprovingOk(s: Saga, p: string)
    requires p in s.approving
  {
    && p in s.payments && s.payments[p].status == Submitted
    && ReadFrom(s.history, s.approving[p])
    && s.payments[p].instructionVersion <= s.approving[p].version
    && (s.payments[p].instructionType == SINGLE_USE ==> s.payments[p].instructionVersion < s.approving[p].version)
  }

  /** The part of the invariant about creators, payments and approvals. */
  ghost predicate PartsOk(s: Saga) {
    && s.creators.Keys <= s.taken && s.payments.Keys <= s.taken && s.creators.Keys !! s.payments.Keys
    && (forall p | p in s.creators :: CreatorOk(s.history, p, s.creators[p]))
    && (forall p | p in s.payments :: PaymentOk(s.history, p, s.payments[p]))
    && (forall p | p in s.approving :: ApprovingOk(s, p))
  }

  ghost predicate Inv(s: Saga) {
    HistoryOk(s.history) && PartsOk(s)
  }

  lemma UsedForStays(h: seq<Instruction>, g: seq<Instruction>, p: string)
    requires HistoryOk(g) && h <= g && UsedFor(h, p)
    ensures UsedFor(g, p)
    decreases |g| - |h|
  {
    if |h| < |g| {
      var h' := g[..|h| + 1];
      assert Follows(g[|h| - 1], g[|h|]);
      var e :| e in h[|h| - 1].events && e.action == USE && e.reference == p;
      assert e in g[|h|].events[..|g[|h| - 1].events|];
      assert UsedFor(h', p);
      UsedForStays(h', g, p);
    } else {
      assert h == g;
    }
  }

  lemma CreatorStays(h: seq<Instruction>, g: seq<Instruction>, p: string, c: Creator)
    requires HistoryOk(g) && h <= g && CreatorOk(h, p, c)
    ensures CreatorOk(g, p, c)
  {
    assert g[..c.view.version] == h[..c.view.version];
    if c.progress == Marked { UsedForStays(h, g, p); }
  }

  lemma PaymentStays(h: seq<Instruction>, g: seq<Instruction>, p: string, y: Payment)
    requires HistoryOk(g) && h <= g && PaymentOk(h, p, y)
    ensures PaymentOk(g, p, y)
  {
    if y.instructionType == SINGLE_USE { UsedForStays(h, g, p); }
  }

  lemma ApprovingStays(s: Saga, h: seq<Instruction>, p: string)
    requires p in s.approving && ApprovingOk(s, p) && s.history <= h
    ensures ApprovingOk(s.(history := h), p)
  {
    assert h[..s.approving[p].version] == s.history[..s.approving[p].version];
  }

  /** Growing the history keeps every statement about it. */
  lemma HistoryGrows(s: Saga, h: seq<Instruction>)
    requires PartsOk(s) && HistoryOk(h) && s.history <= h
    ensures PartsOk(s.(history := h))
  {
    var t := s.(history := h);
    forall p | p in s.creators ensures CreatorOk(h, p, s.creators[p]) {
      CreatorStays(s.history, h, p, s.creators[p]);
    }
    forall p | p in s.payments ensures PaymentOk(h, p, s.payments[p]) {
      PaymentStays(s.history, h, p, s.payments[p]);
    }
    forall p | p in s.approving ensures ApprovingOk(t, p) {
      ApprovingStays(s, h, p);
    }
  }

  lemma ReadNow(h: seq<Instruction>)
    requires h != []
    ensures ReadFrom(h, ViewOf(h))
  {
    assert h[..|h|] == h;
  }

  lemma UseIsRecorded(h: seq<Instruction>, p: string, actor: string, at: Time, now: Time)
    requires Handled(h, Use(p), actor, at, now) != h
    ensures UsedFor(Handled(h, Use(p), actor, at, now), p)
    ensures |Handled(h, Use(p), actor, at, now)| == |h| + 1
  {
    var g := Handled(h, Use(p), actor, at, now);
    assert EntryOf(Use(p), actor) in g[|g| - 1].events;
  }

  lemma MarkKeepsParts(s: Saga, p: string, h: seq<Instruction>, heard: bool)
    requires PartsOk(s) && HistoryOk(h) && s.history <= h && p in s.creators
    requires heard ==> s.creators[p].view.status == SINGLE_USE && |s.history| < |h| && UsedFor(h, p)
    ensures PartsOk(s.(history := h, creators := if heard then s.creators[p := s.creators[p].(progress := Marked)]
                                                 else s.creators - {p}))
  {
    HistoryGrows(s, h);
    var t := s.(history := h);
    assert CreatorOk(s.history, p, s.creators[p]);
    assert CreatorOk(h, p, t.creators[p]);
    CreatorsChange(t, if heard then t.creators[p := t.creators[p].(progress := Marked)] else t.creators - {p});
  }

  lemma CreatorsChange(s: Saga, cs: map<string, Creator>)
    requires PartsOk(s) && cs.Keys <= s.creators.Keys
    requires forall p | p in cs :: CreatorOk(s.history, p, cs[p])
    ensures PartsOk(s.(creators := cs))
  {
    var t := s.(creators := cs);
    forall p | p in t.approving ensures ApprovingOk(t, p) {
      assert ApprovingOk(s, p);
    }
  }

  lemma PaymentChange(s: Saga, p: string, y: Payment)
    requires PartsOk(s) && p in s.payments && p !in s.approving && PaymentOk(s.history, p, y)
    ensures PartsOk(s.(payments := s.payments[p := y]))
  {
    var t := s.(payments := s.payments[p := y]);
    forall q | q in t.approving ensures ApprovingOk(t, q) {
      assert ApprovingOk(s, q);
    }
  }

  lemma ApprovingChange(s: Saga, a: map<string, View>)
    requires PartsOk(s)
    requires forall p | p in a :: ApprovingOk(s.(approving := a), p)
    ensures PartsOk(s.(approving := a))
  {
  }

  lemma ApprovingDrop(s: Saga, p: string)
    requires PartsOk(s)
    ensures PartsOk(s.(approving := s.approving - {p}))
  {
    forall q | q in s.approving - {p} ensures ApprovingOk(s.(approving := s.approving - {p}), q) {
      assert ApprovingOk(s, q);
    }
  }

  lemma ReadKeepsParts(s: Saga, p: string)
    requires PartsOk(s) && s.history != [] && p !in s.taken && Approvable(ViewOf(s.history).status)
    ensures PartsOk(s.(creators := s.creators[p := Creator(ViewOf(s.history), Checked)], taken := s.taken + {p}))
  {
    ReadNow(s.history);
    var t := s.(creators := s.creators[p := Creator(ViewOf(s.history), Checked)], taken := s.taken + {p});
    forall q | q in t.approving ensures ApprovingOk(t, q) {
      assert ApprovingOk(s, q);
    }
  }

  lemma InsertKeepsParts(s: Saga, p: string)
    requires PartsOk(s) && p in s.creators && CanInsert(s.creators[p])
    ensures PartsOk(s.(creators := s.creators - {p}, payments := s.payments[p := NewPayment(p, s.creators[p].view)]))
  {
    var v := s.creators[p].view;
    assert CreatorOk(s.history, p, s.creators[p]);
    assert s.history[..v.version][v.version - 1] == s.history[v.version - 1];
    var t := s.(creators := s.creators - {p}, payments := s.payments[p := NewPayment(p, v)]);
    forall q | q in t.approving ensures ApprovingOk(t, q) {
      assert ApprovingOk(s, q);
    }
  }

  lemma ReadForApprovalKeepsParts(s: Saga, p: string)
    requires PartsOk(s) && s.history != [] && p in s.payments && s.payments[p].status == Submitted
    ensures PartsOk(s.(approving := s.approving[p := ViewOf(s.history)]))
  {
    ReadNow(s.history);
    assert PaymentOk(s.history, p, s.payments[p]);
    var t := s.(approving := s.approving[p := ViewOf(s.history)]);
    forall q | q in t.approving ensures ApprovingOk(t, q) {
      assert q != p ==> ApprovingOk(s, q);
    }
    ApprovingChange(s, t.approving);
  }

  lemma FinishKeepsParts(s: Saga, p: string, now: Time, allowed: bool)
    requires PartsOk(s) && p in s.payments && p in s.approving
    ensures PartsOk(Do(s, FinishApproval(p, now, allowed)))
  {
    var y := s.payments[p];
    assert ApprovingOk(s, p) && PaymentOk(s.history, p, y);
    ApprovingDrop(s, p);
    var t := s.(approving := s.approving - {p});
    var problem := ApprovalProblem(y, s.approving[p], now);
    if problem.Some? {
      PaymentChange(t, p, CancelledFor(y, problem.value));
    } else if allowed {
      PaymentChange(t, p, Moved(y, Approved, ApprovePayment));
    }
  }

  lemma InstructKeepsInv(s: Saga, req: Request, actor: string, at: Time, now: Time)
    requires Inv(s)
    ensures Inv(s.(history := Handled(s.history, req, actor, at, now)))
  {
    HandledOk(s.history, req, actor, at, now);
    HistoryGrows(s, Handled(s.history, req, actor, at, now));
  }

  lemma DecideKeepsParts(s: Saga, p: string, allowed: bool)
    requires PartsOk(s) && p in s.creators && s.creators[p].progress == Checked
    ensures PartsOk(Do(s, Decide(p, allowed)))
  {
    assert CreatorOk(s.history, p, s.creators[p]);
    CreatorsChange(s, Do(s, Decide(p, allowed)).creators);
  }

  lemma MarkKeepsInv(s: Saga, p: string, actor: string, at: Time, now: Time, allowed: bool, heard: bool)
    requires Inv(s) && p in s.creators && s.creators[p].progress == Allowed && s.creators[p].view.status == SINGLE_USE
    ensures Inv(Do(s, MarkUsed(p, actor, at, now, allowed, heard)))
  {
    var h := if allowed then Handled(s.history, Use(p), actor, at, now) else s.history;
    MarkedHistory(s.history, p, actor, at, now);
    MarkKeepsParts(s, p, h, h != s.history && heard);
    MarkStep(s, p, actor, at, now, allowed, heard, h);
  }

  lemma MarkedHistory(h: seq<Instruction>, p: string, actor: string, at: Time, now: Time)
    requires HistoryOk(h)
    ensures var g := Handled(h, Use(p), actor, at, now);
            HistoryOk(g) && h <= g && (g != h ==> |h| < |g| && UsedFor(g, p))
  {
    HandledOk(h, Use(p), actor, at, now);
    if Handled(h, Use(p), actor, at, now) != h { UseIsRecorded(h, p, actor, at, now); }
  }

  lemma MarkStep(s: Saga, p: string, actor: string, at: Time, now: Time, allowed: bool, heard: bool,
                 h: seq<Instruction>)
    requires p in s.creators && s.creators[p].progress == Allowed && s.creators[p].view.status == SINGLE_USE
    requires h == if allowed then Handled(s.history, Use(p), actor, at, now) else s.history
    ensures Do(s, MarkUsed(p, actor, at, now, allowed, heard))
         == s.(history := h, creators := if h != s.history && heard
                                         then s.creators[p := s.creators[p].(progress := Marked)]
                                         else s.creators - {p})
  {
  }

  /** The steps of a create and of the instruction's own handlers. */
  lemma CreateStepKeepsInv(s: Saga, step: Step)
    requires Inv(s) && (step.Instruct? || step.Read? || step.Decide? || step.MarkUsed? || step.Insert? || step.Stop?)
    ensures Inv(Do(s, step))
  {
    match step
    case Instruct(req, actor, at, now) =>
      InstructKeepsInv(s, req, actor, at, now);
    case Read(p, now) =>
      if s.history != [] && p !in s.taken && ValidAtCreate(ViewOf(s.history), now) { ReadKeepsParts(s, p); }
    case Decide(p, allowed) =>
      if p in s.creators && s.creators[p].progress == Checked { DecideKeepsParts(s, p, allowed); }
    case MarkUsed(p, actor, at, now, allowed, heard) =>
      if p in s.creators && s.creators[p].progress == Allowed && s.creators[p].view.status == SINGLE_USE {
        MarkKeepsInv(s, p, actor, at, now, allowed, heard);
      }
    case Insert(p) =>
      if p in s.creators && CanInsert(s.creators[p]) { InsertKeepsParts(s, p); }
    case Stop(p) =>
      CreatorsChange(s, s.creators - {p});
  }

  /** Moving a payment whose instruction is not single-use, or not to APPROVED, keeps what is known of it. */
  lemma MoveKeepsParts(s: Saga, p: string, y: Payment)
    requires PartsOk(s) && p in s.payments && p !in s.approving && y.status != Approved
    requires y.(status := s.payments[p].status, events := s.payments[p].events,
                versionNumber := s.payments[p].versionNumber, cancellation := s.payments[p].cancellation) == s.payments[p]
    requires y.versionNumber == |y.events| > 0
    ensures PartsOk(s.(payments := s.payments[p := y]))
  {
    assert PaymentOk(s.history, p, s.payments[p]);
    PaymentChange(s, p, y);
  }

  /** The steps of the handlers of a payment that exists. */
  lemma PaymentStepKeepsParts(s: Saga, step: Step)
    requires PartsOk(s) && s.history != []
    requires step.Submit? || step.RejectIt? || step.ReadForApproval? || step.FindMissing? || step.FinishApproval?
             || step.StopApproval?
    ensures PartsOk(Do(s, step))
  {
    match step
    case Submit(p, allowed) =>
      if Do(s, step) != s { MoveKeepsParts(s, p, Moved(s.payments[p], Submitted, SubmitPayment)); }
    case RejectIt(p, allowed) =>
      if Do(s, step) != s { MoveKeepsParts(s, p, Moved(s.payments[p], Rejected, RejectPayment)); }
    case ReadForApproval(p) =>
      if Do(s, step) != s { ReadForApprovalKeepsParts(s, p); }
    case FindMissing(p) =>
      if Do(s, step) != s { MoveKeepsParts(s, p, CancelledFor(s.payments[p], Missing)); }
    case FinishApproval(p, now, allowed) =>
      if p in s.payments && p in s.approving { FinishKeepsParts(s, p, now, allowed); }
    case StopApproval(p) =>
      ApprovingDrop(s, p);
  }

  lemma StepKeepsInv(s: Saga, step: Step)
    requires Inv(s)
    ensures Inv(Do(s, step))
  {
    if step.Instruct? || step.Read? || step.Decide? || step.MarkUsed? || step.Insert? || step.Stop? {
      CreateStepKeepsInv(s, step);
    } else {
      assert Do(s, step).history == s.history;
      PaymentStepKeepsParts(s, step);
    }
  }

  lemma {:induction false} RunKeepsInv(s: Saga, steps: seq<Step>)
    requires Inv(s)
    ensures Inv(Run(s, steps))
    decreases |steps|
  {
    if steps != [] {
      StepKeepsInv(s, steps[0]);
      RunKeepsInv(Do(s, steps[0]), steps[1..]);
    }
  }

  lemma StartInv(id: string, terms: Terms, actor: string)
    ensures Inv(Start(id, terms, actor))
  {
    DraftedCoherent(id, terms, actor);
  }

  // ---------------------------------------------------------------------------------------------
  // The life of a payment
  // ---------------------------------------------------------------------------------------------

  /** The only lives a payment can have, event by event; a reason for cancellation belongs to CANCELLED alone. */
  predicate LifeOk(y: Payment) {
    && y.events == (match y.status
                    case DraftPayment => [CreatePayment]
                    case Submitted => [CreatePayment, SubmitPayment]
                    case Approved => [CreatePayment, SubmitPayment, ApprovePayment]
                    case Rejected => [CreatePayment, SubmitPayment, RejectPayment]
                    case Cancelled => [CreatePayment, SubmitPayment, CancelPayment])
    && y.versionNumber == |y.events|
    && (y.cancellation.Some? <==> y.status == Cancelled)
  }

  predicate LivesOk(s: Saga) {
    forall p | p in s.payments :: LifeOk(s.payments[p])
  }

  predicate IsOver(y: Payment) {
    y.status == Approved || y.status == Rejected || y.status == Cancelled
  }

  /** One move of a payment. */
  predicate Advanced(y: Payment, z: Payment) {
    || (y.status == DraftPayment && z == Moved(y, Submitted, SubmitPayment))
    || (y.status == Submitted && z == Moved(y, Rejected, RejectPayment))
    || (y.status == Submitted && z == Moved(y, Approved, ApprovePayment))
    || (y.status == Submitted && z.cancellation.Some? && z == CancelledFor(y, z.cancellation.value))
  }

  lemma AdvancedLife(y: Payment, z: Payment)
    requires LifeOk(y) && Advanced(y, z)
    ensures LifeOk(z) && !IsOver(y)
  {
  }

  /** What a step does to a payment: nothing, one move, or its insert. */
  predicate Touched(s: Saga, t: Saga, q: string) {
    q in t.payments ==>
      || (q in s.payments && (t.payments[q] == s.payments[q] || Advanced(s.payments[q], t.payments[q])))
      || (q in s.creators && q !in s.payments && t.payments[q] == NewPayment(q, s.creators[q].view))
  }

  /** Approvals are under way on submitted payments only, creates on none. */
  predicate ApprovalsApart(s: Saga) {
    && s.creators.Keys !! s.payments.Keys
    && forall p | p in s.approving :: p in s.payments && s.payments[p].status == Submitted
  }

  lemma PartsApart(s: Saga)
    requires PartsOk(s)
    ensures ApprovalsApart(s)
  {
    forall p | p in s.approving ensures p in s.payments && s.payments[p].status == Submitted {
      assert ApprovingOk(s, p);
    }
  }

  lemma FinishTouches(s: Saga, p: string, now: Time, allowed: bool, q: string)
    requires ApprovalsApart(s)
    ensures Touched(s, Do(s, FinishApproval(p, now, allowed)), q)
    ensures q in s.payments ==> q in Do(s, FinishApproval(p, now, allowed)).payments
  {
    if p in s.payments && p in s.approving { Concludes(s, p, now, allowed); }
  }

  lemma StepTouches(s: Saga, step: Step, q: string)
    requires ApprovalsApart(s)
    ensures Touched(s, Do(s, step), q) && (q in s.payments ==> q in Do(s, step).payments)
  {
    if step.FinishApproval? {
      FinishTouches(s, step.p, step.now, step.allowed, q);
    }
  }

  lemma StepKeepsLives(s: Saga, step: Step)
    requires Inv(s) && LivesOk(s)
    ensures LivesOk(Do(s, step))
  {
    var t := Do(s, step);
    PartsApart(s);
    forall q | q in t.payments ensures LifeOk(t.payments[q]) {
      StepTouches(s, step, q);
      LifeGoesOn(s, t, q);
    }
  }

  lemma LifeGoesOn(s: Saga, t: Saga, q: string)
    requires Touched(s, t, q) && q in t.payments && (q in s.payments ==> LifeOk(s.payments[q]))
    ensures LifeOk(t.payments[q])
  {
    if q in s.payments && t.payments[q] != s.payments[q] { AdvancedLife(s.payments[q], t.payments[q]); }
  }

  lemma {:induction false} RunKeepsLives(s: Saga, steps: seq<Step>)
    requires Inv(s) && LivesOk(s)
    ensures LivesOk(Run(s, steps))
    decreases |steps|
  {
    if steps != [] {
      StepKeepsInv(s, steps[0]);
      StepKeepsLives(s, steps[0]);
      RunKeepsLives(Do(s, steps[0]), steps[1..]);
    }
  }

  /** In every run from a new instruction each payment has lived one of these lives. */
  lemma LivesInRun(id: string, terms: Terms, actor: string, steps: seq<Step>, p: string)
    requires p in Run(Start(id, terms, actor), steps).payments
    ensures LifeOk(Run(Start(id, terms, actor), steps).payments[p])
  {
    StartInv(id, terms, actor);
    RunKeepsLives(Start(id, terms, actor), steps);
  }

  lemma OverStaysOneStep(s: Saga, step: Step, p: string)
    requires ApprovalsApart(s) && p in s.payments && IsOver(s.payments[p])
    ensures p in Do(s, step).payments && Do(s, step).payments[p] == s.payments[p]
  {
    StepTouches(s, step, p);
  }

  /** Approved, rejected and cancelled payments never change again. */
  lemma {:induction false} OverStays(s: Saga, steps: seq<Step>, p: string)
    requires Inv(s) && p in s.payments && IsOver(s.payments[p])
    ensures p in Run(s, steps).payments && Run(s, steps).payments[p] == s.payments[p]
    decreases |steps|
  {
    if steps != [] {
      PartsApart(s);
      OverStaysOneStep(s, steps[0], p);
      StepKeepsInv(s, steps[0]);
      OverStays(Do(s, steps[0]), steps[1..], p);
    }
  }

  /** A create starts exactly on an instruction that can be paid on and has not ended, with the version it read. */
  lemma CreateStartsExactly(s: Saga, p: string, now: Time)
    requires s.history != [] && p !in s.taken && p !in s.creators
    ensures var i := s.history[|s.history| - 1]; var t := Do(s, Read(p, now));
            && (p in t.creators <==> (i.status == STANDING || i.status == SINGLE_USE) && i.terms.endDate >= now)
            && (p in t.creators ==> t.creators[p].view.version == |s.history| && t.creators[p].view.status == i.status)
  {
  }

  // ---------------------------------------------------------------------------------------------
  // Single use
  // ---------------------------------------------------------------------------------------------

  /** How many versions were written by a USE. */
  function UseVersions(h: seq<Instruction>): nat {
    if h == [] then 0
    else
      var events := h[|h| - 1].events;
      UseVersions(h[..|h| - 1]) + if events != [] && events[|events| - 1].action == USE then 1 else 0
  }

  lemma {:induction false} UseVersionsCounted(h: seq<Instruction>)
    requires HistoryOk(h)
    ensures UseVersions(h) == h[|h| - 1].usageCount
    decreases |h|
  {
    var last := h[|h| - 1];
    assert Coherent(last);
    if |h| == 1 {
      assert UseVersions(h[..0]) == 0;
      assert CountUses(last.events[..0]) == 0;
    } else {
      var g := h[..|h| - 1];
      assert Follows(h[|h| - 2], last);
      assert Coherent(h[|h| - 2]);
      UseVersionsCounted(g);
      assert last.events[..|last.events| - 1] == h[|h| - 2].events;
    }
  }

  lemma {:induction false} TwoUsesCountTwice(events: seq<Entry>, i: nat, j: nat)
    requires i < j < |events| && events[i].action == USE && events[j].action == USE
    ensures CountUses(events) >= 2
    decreases |events|
  {
    var rest := events[..|events| - 1];
    if j < |events| - 1 {
      TwoUsesCountTwice(rest, i, j);
    } else {
      OneUseCounts(rest, i);
    }
  }

  lemma {:induction false} OneUseCounts(events: seq<Entry>, i: nat)
    requires i < |events| && events[i].action == USE
    ensures CountUses(events) >= 1
    decreases |events|
  {
    if i < |events| - 1 {
      OneUseCounts(events[..|events| - 1], i);
    }
  }

  /** Every payment on a single-use instruction carries the reference of a USE on record. */
  lemma SinglePaymentUsed(s: Saga, p: string)
    requires Inv(s) && p in s.payments
    requires s.history[|s.history| - 1].terms.instructionType == SingleUse
    ensures s.payments[p].instructionType == SINGLE_USE && UsedFor(s.history, p)
  {
    var h := s.history;
    var k := s.payments[p].instructionVersion - 1;
    assert PaymentOk(h, p, s.payments[p]);
    assert Coherent(h[k]);
    ApprovedTermsStay(h, k, |h| - 1);
  }

  /**
   After any interleaving of creates, crashes and instruction handlers, a single-use instruction has
   at most as many payments as USE versions, at most one of those, and the payment's id is the
   payment reference of that USE.
   */
  lemma SingleUseIsPaidOnce(id: string, terms: Terms, actor: string, steps: seq<Step>)
    requires var s := Run(Start(id, terms, actor), steps);
             s.history != [] && s.history[|s.history| - 1].terms.instructionType == SingleUse
    ensures var s := Run(Start(id, terms, actor), steps); var events := s.history[|s.history| - 1].events;
            && |s.payments| <= UseVersions(s.history) <= 1
            && (forall p | p in s.payments :: s.payments[p].instructionType == SINGLE_USE)
            && forall p, e | p in s.payments && e in events && e.action == USE :: e.reference == p
  {
    StartInv(id, terms, actor);
    RunKeepsInv(Start(id, terms, actor), steps);
    SinglePaymentsCounted(Run(Start(id, terms, actor), steps));
  }

  lemma SinglePaymentsCounted(s: Saga)
    requires Inv(s) && s.history != [] && s.history[|s.history| - 1].terms.instructionType == SingleUse
    ensures var events := s.history[|s.history| - 1].events;
            && |s.payments| <= UseVersions(s.history) <= 1
            && (forall p | p in s.payments :: s.payments[p].instructionType == SINGLE_USE)
            && forall p, e | p in s.payments && e in events && e.action == USE :: e.reference == p
  {
    var last := s.history[|s.history| - 1];
    assert Coherent(last);
    UseVersionsCounted(s.history);
    forall p | p in s.payments ensures s.payments[p].instructionType == SINGLE_USE && UsedFor(s.history, p) {
      SinglePaymentUsed(s, p);
    }
    AtMostOnePayment(last, s.payments.Keys);
    assert |s.payments| == |s.payments.Keys|;
  }

  lemma AtMostOnePayment(last: Instruction, ids: set<string>)
    requires Coherent(last) && last.terms.instructionType == SingleUse
    requires forall p | p in ids :: UsedFor([last], p)
    ensures |ids| <= last.usageCount
    ensures forall p, e | p in ids && e in last.events && e.action == USE :: e.reference == p
  {
    forall p, e | p in ids && e in last.events && e.action == USE ensures e.reference == p {
      SameUse(last, e, p);
    }
    if ids != {} {
      var q :| q in ids;
      var e :| e in last.events && e.action == USE && e.reference == q;
      assert forall p | p in ids :: p == q;
      assert ids == {q};
      var i :| 0 <= i < |last.events| && last.events[i] == e;
      OneUseCounts(last.events, i);
    }
  }

  lemma SameUse(last: Instruction, e: Entry, p: string)
    requires Coherent(last) && last.terms.instructionType == SingleUse
    requires e in last.events && e.action == USE && UsedFor([last], p)
    ensures e.reference == p
  {
    var f :| f in last.events && f.action == USE && f.reference == p;
    var i :| 0 <= i < |last.events| && last.events[i] == e;
    var j :| 0 <= j < |last.events| && last.events[j] == f;
    if i < j { TwoUsesCountTwice(last.events, i, j); }
    if j < i { TwoUsesCountTwice(last.events, j, i); }
  }

  // ---------------------------------------------------------------------------------------------
  // Approval
  // ---------------------------------------------------------------------------------------------

  predicate Ended(v: View, now: Time) {
    v.endDate.Date? && v.endDate.t < now
  }

  predicate NotBegun(v: View, now: Time) {
    v.effectiveDate.Date? && v.effectiveDate.t > now
  }

  /**
   An approval that finishes decides as follows, and in no other way: it cancels when the version
   moved on or a date is out of range, and otherwise approves if the policy allows. In particular an
   approved payment was checked against the very snapshot it was created from, and the checks of
   status, type and date format never decide anything.
   */
  lemma ApprovalDecides(s: Saga, p: string, now: Time, allowed: bool)
    requires Inv(s) && p in s.approving
    ensures p in s.payments
    ensures s.approving[p].version == s.payments[p].instructionVersion <= |s.history|
            ==> s.approving[p] == ViewOf(s.history[..s.payments[p].instructionVersion])
    ensures Do(s, FinishApproval(p, now, allowed)).payments
         == s.payments[p := Decided(s.payments[p], s.approving[p], now, allowed)]
  {
    ApprovalFacts(s, p);
    ProblemIs(s.history, p, s.payments[p], s.approving[p], now);
    Concludes(s, p, now, allowed);
  }

  /** What became of a payment. */
  predicate Became(y: Payment, z: Payment, status: PaymentStatus, cancellation: Option<Problem>) {
    && z.status == status && z.cancellation == cancellation
    && z.id == y.id && z.instructionVersion == y.instructionVersion && z.instructionType == y.instructionType
  }

  /**
   The same in full: a finished approval cancels a payment whose instruction has another version by now,
   has ended or has not begun, with that reason; otherwise it approves, or leaves it, as the policy says.
   */
  lemma ApprovalEnds(s: Saga, p: string, now: Time, allowed: bool)
    requires Inv(s) && LivesOk(s) && p in s.approving
    ensures p in s.payments && p in Do(s, FinishApproval(p, now, allowed)).payments
    ensures 1 <= s.payments[p].instructionVersion <= |s.history|
    ensures var y, z := s.payments[p], Do(s, FinishApproval(p, now, allowed)).payments[p];
            var terms := s.history[y.instructionVersion - 1].terms;
            if s.approving[p].version != y.instructionVersion then Became(y, z, Cancelled, Some(VersionDrift))
            else if terms.endDate < now then Became(y, z, Cancelled, Some(Expired))
            else if terms.effectiveDate > now then Became(y, z, Cancelled, Some(NotYetEffective))
            else if allowed then Became(y, z, Approved, None)
            else z == y
  {
    ApprovalFacts(s, p);
    ApprovalDecides(s, p, now, allowed);
    assert ApprovingOk(s, p);
    SameDates(s.history, s.payments[p], s.approving[p]);
    assert LifeOk(s.payments[p]);
  }

  lemma SameDates(h: seq<Instruction>, y: Payment, v: View)
    requires ReadFrom(h, v)
    ensures v.version == y.instructionVersion ==>
              var terms := h[v.version - 1].terms; v.endDate == Date(terms.endDate) && v.effectiveDate == Date(terms.effectiveDate)
  {
  }

  /** The outcome as the caller sees it. */
  function Decided(y: Payment, v: View, now: Time, allowed: bool): Payment {
    if v.version != y.instructionVersion then CancelledFor(y, VersionDrift)
    else if Ended(v, now) then CancelledFor(y, Expired)
    else if NotBegun(v, now) then CancelledFor(y, NotYetEffective)
    else if allowed then Moved(y, Approved, ApprovePayment)
    else y
  }

  lemma ApprovalFacts(s: Saga, p: string)
    requires Inv(s) && p in s.approving
    ensures p in s.payments && PaymentOk(s.history, p, s.payments[p]) && ReadFrom(s.history, s.approving[p])
    ensures Coherent(s.history[s.payments[p].instructionVersion - 1])
  {
    assert ApprovingOk(s, p) && PaymentOk(s.history, p, s.payments[p]);
  }

  lemma Concludes(s: Saga, p: string, now: Time, allowed: bool)
    requires p in s.payments && p in s.approving
    ensures var y := s.payments[p]; var problem := ApprovalProblem(y, s.approving[p], now);
            Do(s, FinishApproval(p, now, allowed)).payments
            == s.payments[p := if problem.Some? then CancelledFor(y, problem.value)
                               else if allowed then Moved(y, Approved, ApprovePayment) else y]
  {
  }

  lemma ProblemIs(h: seq<Instruction>, p: string, y: Payment, v: View, now: Time)
    requires PaymentOk(h, p, y) && ReadFrom(h, v) && Coherent(h[y.instructionVersion - 1])
    ensures ApprovalProblem(y, v, now) ==
              if v.version != y.instructionVersion then Some(VersionDrift)
              else if Ended(v, now) then Some(Expired)
              else if NotBegun(v, now) then Some(NotYetEffective)
              else None
  {
    assert h[..v.version][v.version - 1] == h[v.version - 1];
  }

  /** Only finishing an approval approves. */
  lemma OnlyApprovalApproves(s: Saga, step: Step, p: string)
    requires p in Do(s, step).payments && Do(s, step).payments[p].status == Approved
    ensures (p in s.payments && s.payments[p].status == Approved)
            || (step.FinishApproval? && step.p == p && p in s.approving && step.allowed
                && s.approving[p].version == s.payments[p].instructionVersion)
  {
  }

  predicate IsApproved(s: Saga, p: string) {
    p in s.payments && s.payments[p].status == Approved
  }

  /** The step that approves: the policy allowed it, on the very snapshot the payment was created from. */
  predicate Approves(s: Saga, step: Step, p: string) {
    && step.FinishApproval? && step.p == p && step.allowed && p in s.approving && p in s.payments
    && 1 <= s.payments[p].instructionVersion <= |s.history|
    && s.approving[p] == ViewOf(s.history[..s.payments[p].instructionVersion])
    && s.payments[p].instructionType == s.history[s.payments[p].instructionVersion - 1].status
  }

  lemma ApprovesOnItsSnapshot(s: Saga, step: Step, p: string)
    requires Inv(s) && !IsApproved(s, p) && IsApproved(Do(s, step), p)
    ensures Approves(s, step, p)
  {
    OnlyApprovalApproves(s, step, p);
    ApprovalFacts(s, p);
  }

  /** Whenever a payment is APPROVED after a run, one step of the run approved it in that way. */
  lemma {:induction false} ApprovedWasCurrent(s: Saga, steps: seq<Step>, p: string) returns (n: nat)
    requires Inv(s) && !IsApproved(s, p) && IsApproved(Run(s, steps), p)
    ensures n < |steps| && Approves(Run(s, steps[..n]), steps[n], p)
    decreases |steps|
  {
    var t := Do(s, steps[0]);
    if IsApproved(t, p) {
      ApprovesOnItsSnapshot(s, steps[0], p);
      n := 0;
    } else {
      StepKeepsInv(s, steps[0]);
      var k := ApprovedWasCurrent(t, steps[1..], p);
      n := k + 1;
      assert steps[..n][1..] == steps[1..][..k] && steps[..n][0] == steps[0];
    }
  }

  /** In particular from a new instruction without payments. */
  lemma ApprovedInRun(id: string, terms: Terms, actor: string, steps: seq<Step>, p: string) returns (n: nat)
    requires IsApproved(Run(Start(id, terms, actor), steps), p)
    ensures n < |steps| && Approves(Run(Start(id, terms, actor), steps[..n]), steps[n], p)
  {
    StartInv(id, terms, actor);
    n := ApprovedWasCurrent(Start(id, terms, actor), steps, p);
  }

  /**
   Marking the instruction USED moves it to a version the payment was not created from, so no payment
   on a single-use instruction is ever approved; each approval of one ends in cancellation.
   */
  lemma SingleUseNeverApproved(id: string, terms: Terms, actor: string, steps: seq<Step>, p: string)
    requires p in Run(Start(id, terms, actor), steps).payments
    requires Run(Start(id, terms, actor), steps).payments[p].instructionType == SINGLE_USE
    ensures var s := Run(Start(id, terms, actor), steps);
            && s.payments[p].status != Approved
            && forall now: Time, allowed: bool | p in s.approving ::
                 Do(s, FinishApproval(p, now, allowed)).payments[p].cancellation == Some(VersionDrift)
  {
    StartInv(id, terms, actor);
    RunKeepsInv(Start(id, terms, actor), steps);
    var s := Run(Start(id, terms, actor), steps);
    assert PaymentOk(s.history, p, s.payments[p]);
  }
}
