/**
 The payment service as it runs one call at a time, over its own collection and the
 instruction manager it calls. Each call is one run of module PaymentSaga, so what
 holds after every run there holds of these objects. The security event of a call is
 written after the payment, outside any transaction, so an error may come with a
 stored payment.
 */
module PaymentHandlers {
  import opened Wrappers
  import opened Lifecycle
  import opened VersionChain
  import opened PaymentSaga

  datatype Error =
    | InstructionNotFound | Unreachable | BadInstruction | NoIdentifier | PolicyDenied | NotMarked
    | PaymentNotFound | BadState
    | StoreFailure      // the payment could not be written
    | EventFailure      // no event id, or the event could not be inserted

  /** What the read of the instruction returns. */
  datatype Reading = Found | NotThere | Broken

  /**
   What the world outside decides during one call: `heard` is false when the manager's answer to USE
   is lost, `writeOk` and `eventOk` when the payment or its event is not stored.
   */
  datatype Outside = Outside(reading: Reading, allowed: bool, mayUse: bool, heard: bool, writeOk: bool, eventOk: bool)

  /** A refusal that is also recorded as an event. */
  function Refusal(e: Error, o: Outside): Error {
    if o.eventOk then e else EventFailure
  }

  /** The instruction manager's side: the instruction read over HTTP, and its USE endpoint. */
  class InstructionManager {
    var history: seq<Instruction>

    constructor (id: string, terms: Terms, actor: string)
      ensures history == [Drafted(id, terms, actor)]
    {
      history := [Drafted(id, terms, actor)];
    }

    method Get(reading: Reading) returns (r: Result<View, Error>)
      requires history != []
      ensures r.Ok? <==> reading == Found
      ensures r.Ok? ==> ReadFrom(history, r.value) && r.value.version == |history|
      ensures r.Err? ==> r.error == if reading == NotThere then InstructionNotFound else Unreachable
    {
      ReadNow(history);
      match reading {
        case Found => return Ok(ViewOf(history));
        case NotThere => return Err(InstructionNotFound);
        case Broken => return Err(Unreachable);
      }
    }

    /** The USE handler run alone; false stands for a refusal (409 or 403). */
    method MarkUsed(p: string, actor: string, at: Time, now: Time, allowed: bool) returns (ok: bool)
      modifies this
      ensures history == if allowed then Handled(old(history), Use(p), actor, at, now) else old(history)
      ensures ok <==> history != old(history)
    {
      if history == [] || !Guard(history[|history| - 1].status, Use(p)) || !allowed {
        return false;
      }
      history := history + [Prepared(history[|history| - 1], Use(p), actor, at).(updatedAt := now)];
      return true;
    }
  }

  class PaymentService {
    const manager: InstructionManager
    var payments: map<string, Payment>
    ghost var taken: set<string>

    constructor (manager: InstructionManager)
      ensures this.manager == manager && State() == Saga(manager.history, map[], map[], map[], {})
    {
      this.manager := manager;
      payments, taken := map[], {};
    }

    ghost function State(): Saga
      reads this, manager
    {
      Saga(manager.history, map[], payments, map[], taken)
    }

    /** `issued` is the id the sequence service returned, if it did. */
    method Create(issued: Option<string>, actor: string, at: Time, now: Time, o: Outside)
      returns (r: Result<Payment, Error>)
      requires manager.history != [] && payments.Keys <= taken && (issued.Some? ==> issued.value !in taken)
      modifies this, manager
      ensures State() == Run(old(State()), CreateSteps(issued, actor, at, now, o))
      ensures r == CreateReply(old(State()), issued, now, o)
    {
      CreateRun(State(), issued, actor, at, now, o);
      r := CreateAlone(issued, actor, at, now, o);
    }

    method CreateAlone(issued: Option<string>, actor: string, at: Time, now: Time, o: Outside)
      returns (r: Result<Payment, Error>)
      requires manager.history != [] && (issued.Some? ==> issued.value !in taken)
      modifies this, manager
      ensures State() == CreateResult(old(State()), issued, actor, at, now, o)
      ensures r == CreateReply(old(State()), issued, now, o)
    {
      var got := manager.Get(o.reading);
      if got.Err? {
        return Err(got.error);
      }
      var instruction := got.value;
      if !ValidAtCreate(instruction, now) {
        return Err(BadInstruction);
      }
      if issued.None? {
        return Err(NoIdentifier);
      }
      var p := issued.value;
      taken := taken + {p};
      var payment := NewPayment(p, instruction);
      if !o.allowed {
        return Err(Refusal(PolicyDenied, o));
      }
      if instruction.status == SINGLE_USE {
        var ok := manager.MarkUsed(p, actor, at, now, o.mayUse);
        if !ok || !o.heard {
          return Err(Refusal(NotMarked, o));
        }
      }
      if !o.writeOk {
        return Err(StoreFailure);
      }
      payments := payments[p := payment];
      if !o.eventOk {
        return Err(EventFailure);
      }
      return Ok(payment);
    }

    method Approve(p: string, now: Time, o: Outside) returns (r: Result<Payment, Error>)
      requires manager.history != []
      modifies this
      ensures State() == Run(old(State()), ApproveSteps(p, now, o))
      ensures r == ApproveReply(old(State()), p, now, o)
    {
      ApproveRun(State(), p, now, o);
      if p !in payments {
        return Err(PaymentNotFound);
      }
      var payment := payments[p];
      if payment.status != Submitted {
        return Err(BadState);
      }
      var got := manager.Get(o.reading);
      if got.Err? {
        if got.error != InstructionNotFound {
          return Err(got.error);
        }
        r := Cancel(p, payment, Missing, o);
        return;
      }
      var problem := ApprovalProblem(payment, got.value, now);
      if problem.Some? {
        r := Cancel(p, payment, problem.value, o);
        return;
      }
      if !o.allowed {
        return Err(Refusal(PolicyDenied, o));
      }
      payment := payment.(status := Approved);
      payment := payment.(events := payment.events + [ApprovePayment]);
      payment := payment.(versionNumber := |payment.events|);
      r := Replace(p, payment, o);
    }

    method Cancel(p: string, current: Payment, problem: Problem, o: Outside) returns (r: Result<Payment, Error>)
      modifies this`payments
      ensures payments == if o.writeOk then old(payments)[p := CancelledFor(current, problem)] else old(payments)
      ensures r == WriteReply(CancelledFor(current, problem), o)
    {
      var payment := current.(status := Cancelled);
      payment := payment.(cancellation := Some(problem));
      payment := payment.(events := payment.events + [CancelPayment]);
      payment := payment.(versionNumber := |payment.events|);
      r := Replace(p, payment, o);
    }

    /** replace_one, then the event: the payment stays replaced when the event fails. */
    method Replace(p: string, payment: Payment, o: Outside) returns (r: Result<Payment, Error>)
      modifies this`payments
      ensures payments == if o.writeOk then old(payments)[p := payment] else old(payments)
      ensures r == WriteReply(payment, o)
    {
      if !o.writeOk {
        return Err(StoreFailure);
      }
      payments := payments[p := payment];
      if !o.eventOk {
        return Err(EventFailure);
      }
      return Ok(payment);
    }
  }

  function WriteReply(payment: Payment, o: Outside): Result<Payment, Error> {
    if !o.writeOk then Err(StoreFailure) else if !o.eventOk then Err(EventFailure) else Ok(payment)
  }

  // ---------------------------------------------------------------------------------------------
  // The run of one call, in closed form
  // ---------------------------------------------------------------------------------------------

  function CreateSteps(issued: Option<string>, actor: string, at: Time, now: Time, o: Outside): seq<Step> {
    if o.reading != Found || issued.None? then []
    else
      var p := issued.value;
      [Read(p, now), Decide(p, o.allowed), MarkUsed(p, actor, at, now, o.mayUse, o.heard),
       if o.writeOk then Insert(p) else Stop(p), Stop(p)]
  }

  function ApproveSteps(p: string, now: Time, o: Outside): seq<Step> {
    match o.reading
    case Broken => []
    case NotThere => if o.writeOk then [FindMissing(p)] else []
    case Found => [ReadForApproval(p), if o.writeOk then FinishApproval(p, now, o.allowed) else StopApproval(p)]
  }

  /** The create gets as far as inserting the payment. */
  predicate Pays(s: Saga, issued: Option<string>, now: Time, o: Outside)
    requires s.history != []
  {
    var v := ViewOf(s.history);
    && o.reading == Found && ValidAtCreate(v, now) && issued.Some? && o.allowed
    && (v.status == SINGLE_USE ==> o.mayUse && o.heard)
  }

  function CreateResult(s: Saga, issued: Option<string>, actor: string, at: Time, now: Time, o: Outside): Saga
    requires s.history != []
  {
    var v := ViewOf(s.history);
    if o.reading != Found || !ValidAtCreate(v, now) || issued.None? then s
    else
      var p := issued.value;
      s.(history := if o.allowed && o.mayUse && v.status == SINGLE_USE then Handled(s.history, Use(p), actor, at, now)
                    else s.history,
         taken := s.taken + {p},
         payments := if Pays(s, issued, now, o) && o.writeOk then s.payments[p := NewPayment(p, v)] else s.payments)
  }

  function CreateReply(s: Saga, issued: Option<string>, now: Time, o: Outside): Result<Payment, Error>
    requires s.history != []
  {
    var v := ViewOf(s.history);
    if o.reading != Found then Err(if o.reading == NotThere then InstructionNotFound else Unreachable)
    else if !ValidAtCreate(v, now) then Err(BadInstruction)
    else if issued.None? then Err(NoIdentifier)
    else if !o.allowed then Err(Refusal(PolicyDenied, o))
    else if !Pays(s, issued, now, o) then Err(Refusal(NotMarked, o))
    else WriteReply(NewPayment(issued.value, v), o)
  }

  /** The payment an approval writes, if it gets that far. */
  function ApprovalWrites(s: Saga, p: string, now: Time, o: Outside): Option<Payment>
    requires s.history != []
  {
    if p !in s.payments || s.payments[p].status != Submitted || o.reading == Broken then None
    else if o.reading == NotThere then Some(CancelledFor(s.payments[p], Missing))
    else
      var problem := ApprovalProblem(s.payments[p], ViewOf(s.history), now);
      if problem.Some? then Some(CancelledFor(s.payments[p], problem.value))
      else if o.allowed then Some(Moved(s.payments[p], Approved, ApprovePayment))
      else None
  }

  function ApproveResult(s: Saga, p: string, now: Time, o: Outside): Saga
    requires s.history != []
  {
    var y := ApprovalWrites(s, p, now, o);
    if y.Some? && o.writeOk then s.(payments := s.payments[p := y.value]) else s
  }

  function ApproveReply(s: Saga, p: string, now: Time, o: Outside): Result<Payment, Error>
    requires s.history != []
  {
    if p !in s.payments then Err(PaymentNotFound)
    else if s.payments[p].status != Submitted then Err(BadState)
    else if o.reading == Broken then Err(Unreachable)
    else
      var y := ApprovalWrites(s, p, now, o);
      if y.None? then Err(Refusal(PolicyDenied, o)) else WriteReply(y.value, o)
  }

  lemma RunStep(s: Saga, step: Step, rest: seq<Step>)
    ensures Run(s, [step] + rest) == Run(Do(s, step), rest)
  {
    assert ([step] + rest)[1..] == rest;
  }

  lemma RunOne(s: Saga, a: Step)
    ensures Run(s, [a]) == Do(s, a)
  {
    RunStep(s, a, []);
    assert [a] + [] == [a];
  }

  lemma RunTwo(s: Saga, a: Step, b: Step)
    ensures Run(s, [a, b]) == Do(Do(s, a), b)
  {
    RunStep(s, a, [b]);
    RunOne(Do(s, a), b);
    assert [a] + [b] == [a, b];
  }

  lemma RunFive(s: Saga, a: Step, b: Step, c: Step, d: Step, e: Step)
    ensures Run(s, [a, b, c, d, e]) == Do(Do(Do(Do(Do(s, a), b), c), d), e)
  {
    RunStep(s, a, [b, c, d, e]);
    RunStep(Do(s, a), b, [c, d, e]);
    RunStep(Do(Do(s, a), b), c, [d, e]);
    RunTwo(Do(Do(Do(s, a), b), c), d, e);
    assert [a] + [b, c, d, e] == [a, b, c, d, e] && [b] + [c, d, e] == [b, c, d, e] && [c] + [d, e] == [c, d, e];
  }

  lemma CreateRun(s: Saga, issued: Option<string>, actor: string, at: Time, now: Time, o: Outside)
    requires s.creators == map[] && s.history != [] && (issued.Some? ==> issued.value !in s.taken)
    ensures Run(s, CreateSteps(issued, actor, at, now, o)) == CreateResult(s, issued, actor, at, now, o)
  {
    if o.reading == Found && issued.Some? {
      var p := issued.value;
      RunFive(s, Read(p, now), Decide(p, o.allowed), MarkUsed(p, actor, at, now, o.mayUse, o.heard),
              if o.writeOk then Insert(p) else Stop(p), Stop(p));
      if ValidAtCreate(ViewOf(s.history), now) {
        CreateFromRead(s, p, actor, at, now, o);
      } else {
        NoCreator(s, p, actor, at, now, o);
      }
    }
  }

  lemma NoCreator(s: Saga, p: string, actor: string, at: Time, now: Time, o: Outside)
    requires s.creators == map[] && s.history != [] && !ValidAtCreate(ViewOf(s.history), now)
    ensures Do(s, Read(p, now)) == s && Do(s, Decide(p, o.allowed)) == s
    ensures Do(s, MarkUsed(p, actor, at, now, o.mayUse, o.heard)) == s
    ensures Do(s, if o.writeOk then Insert(p) else Stop(p)) == s && Do(s, Stop(p)) == s
  {
    assert s.creators - {p} == s.creators;
  }

  /** The saga with one creator, and nothing else different. */
  function With(s: Saga, p: string, c: Creator): Saga {
    s.(creators := map[p := c])
  }

  lemma CreateFromRead(s: Saga, p: string, actor: string, at: Time, now: Time, o: Outside)
    requires s.creators == map[] && s.history != [] && p !in s.taken && ValidAtCreate(ViewOf(s.history), now)
    requires o.reading == Found
    ensures Do(Do(Do(Do(Do(s, Read(p, now)), Decide(p, o.allowed)), MarkUsed(p, actor, at, now, o.mayUse, o.heard)),
                  if o.writeOk then Insert(p) else Stop(p)), Stop(p))
         == CreateResult(s, Some(p), actor, at, now, o)
  {
    var v := ViewOf(s.history);
    var t := s.(taken := s.taken + {p});
    assert Do(s, Read(p, now)) == With(t, p, Creator(v, Checked));
    if !o.allowed {
      Dropped(t, p, Creator(v, Checked));
      assert Do(With(t, p, Creator(v, Checked)), Decide(p, false)) == t;
      NothingLeft(t, p, actor, at, now, o);
    } else {
      assert Do(With(t, p, Creator(v, Checked)), Decide(p, true)) == With(t, p, Creator(v, Allowed));
      CreateFromDecision(t, p, v, actor, at, now, o);
    }
  }

  lemma Dropped(t: Saga, p: string, c: Creator)
    requires t.creators == map[]
    ensures With(t, p, c).(creators := With(t, p, c).creators - {p}) == t
  {
    assert With(t, p, c).creators - {p} == map[];
  }

  lemma NothingLeft(t: Saga, p: string, actor: string, at: Time, now: Time, o: Outside)
    requires t.creators == map[]
    ensures Do(t, MarkUsed(p, actor, at, now, o.mayUse, o.heard)) == t
    ensures Do(t, if o.writeOk then Insert(p) else Stop(p)) == t && Do(t, Stop(p)) == t
  {
    assert t.creators - {p} == t.creators;
  }

  lemma CreateFromDecision(t: Saga, p: string, v: View, actor: string, at: Time, now: Time, o: Outside)
    requires t.creators == map[] && t.history != [] && v == ViewOf(t.history) && Approvable(v.status)
    ensures var marks := v.status == SINGLE_USE;
            var h := if marks && o.mayUse then Handled(t.history, Use(p), actor, at, now) else t.history;
            Do(Do(Do(With(t, p, Creator(v, Allowed)), MarkUsed(p, actor, at, now, o.mayUse, o.heard)),
                  if o.writeOk then Insert(p) else Stop(p)), Stop(p))
            == t.(history := h,
                  payments := if (marks ==> o.mayUse && o.heard) && o.writeOk then t.payments[p := NewPayment(p, v)]
                              else t.payments)
  {
    var a := With(t, p, Creator(v, Allowed));
    var b := Do(a, MarkUsed(p, actor, at, now, o.mayUse, o.heard));
    if v.status != SINGLE_USE {
      assert b == a;
      Inserts(t, p, Creator(v, Allowed), o.writeOk);
    } else {
      var h := if o.mayUse then Handled(t.history, Use(p), actor, at, now) else t.history;
      assert o.mayUse ==> |h| == |t.history| + 1;
      var u := t.(history := h);
      if o.mayUse && o.heard {
        assert b == With(u, p, Creator(v, Marked));
        Inserts(u, p, Creator(v, Marked), o.writeOk);
      } else {
        Dropped(u, p, Creator(v, Allowed));
        assert b == u;
        NothingLeft(u, p, actor, at, now, o);
      }
    }
  }

  lemma Inserts(t: Saga, p: string, c: Creator, writeOk: bool)
    requires t.creators == map[] && CanInsert(c)
    ensures Do(Do(With(t, p, c), if writeOk then Insert(p) else Stop(p)), Stop(p))
         == if writeOk then t.(payments := t.payments[p := NewPayment(p, c.view)]) else t
  {
    Dropped(t, p, c);
    var x := if writeOk then t.(payments := t.payments[p := NewPayment(p, c.view)]) else t;
    assert x.creators - {p} == x.creators;
  }

  lemma ApproveRun(s: Saga, p: string, now: Time, o: Outside)
    requires s.approving == map[] && s.history != []
    ensures Run(s, ApproveSteps(p, now, o)) == ApproveResult(s, p, now, o)
  {
    match o.reading
    case Broken =>
    case NotThere =>
      if o.writeOk { RunOne(s, FindMissing(p)); }
    case Found =>
      RunTwo(s, ReadForApproval(p), if o.writeOk then FinishApproval(p, now, o.allowed) else StopApproval(p));
      if p in s.payments && s.payments[p].status == Submitted {
        ApproveFromRead(s, p, now, o);
      } else {
        assert s.approving - {p} == s.approving;
      }
  }

  lemma ApproveFromRead(s: Saga, p: string, now: Time, o: Outside)
    requires s.approving == map[] && s.history != [] && p in s.payments && s.payments[p].status == Submitted
    requires o.reading == Found
    ensures Do(Do(s, ReadForApproval(p)), if o.writeOk then FinishApproval(p, now, o.allowed) else StopApproval(p))
         == ApproveResult(s, p, now, o)
  {
    var t := s.(approving := map[p := ViewOf(s.history)]);
    assert Do(s, ReadForApproval(p)) == t;
    assert t.(approving := t.approving - {p}) == s;
  }

  // ---------------------------------------------------------------------------------------------
  // What a caller may conclude from the answer
  // ---------------------------------------------------------------------------------------------

  /** The payment of this call is in the collection after it and was not before. */
  predicate StoresPayment(s: Saga, issued: Option<string>, actor: string, at: Time, now: Time, o: Outside)
    requires s.history != []
  {
    issued.Some? && issued.value in CreateResult(s, issued, actor, at, now, o).payments && issued.value !in s.payments
  }

  /**
   A payment returned is a payment stored. An error comes with a stored payment exactly when the
   create got as far as the insert and only the event after it failed.
   */
  lemma CreateAnswers(s: Saga, issued: Option<string>, actor: string, at: Time, now: Time, o: Outside)
    requires s.history != [] && s.payments.Keys <= s.taken && (issued.Some? ==> issued.value !in s.taken)
    ensures CreateReply(s, issued, now, o).Ok? ==>
              && StoresPayment(s, issued, actor, at, now, o)
              && CreateResult(s, issued, actor, at, now, o).payments[issued.value] == CreateReply(s, issued, now, o).value
    ensures CreateReply(s, issued, now, o).Err? && StoresPayment(s, issued, actor, at, now, o)
       <==> Pays(s, issued, now, o) && o.writeOk && !o.eventOk
  {
  }

  /**
   A single-use instruction is left USED without a payment exactly when the manager was asked and
   agreed, and then its answer was lost or the insert failed.
   */
  lemma UsedYetUnpaid(s: Saga, issued: Option<string>, actor: string, at: Time, now: Time, o: Outside)
    requires Inv(s) && (issued.Some? ==> issued.value !in s.taken)
    ensures CreateResult(s, issued, actor, at, now, o).history != s.history && !StoresPayment(s, issued, actor, at, now, o)
       <==> && o.reading == Found && ValidAtCreate(ViewOf(s.history), now) && issued.Some? && o.allowed
            && s.history[|s.history| - 1].status == SINGLE_USE && o.mayUse && !(o.heard && o.writeOk)
  {
    if issued.Some? {
      var h := Handled(s.history, Use(issued.value), actor, at, now);
      assert Guard(s.history[|s.history| - 1].status, Use(issued.value)) ==> |h| == |s.history| + 1;
    }
  }

  /** The same for an approval: stored whenever returned, and an error with a change only when the event fails. */
  lemma ApproveAnswers(s: Saga, p: string, now: Time, o: Outside)
    requires s.history != []
    ensures ApproveReply(s, p, now, o).Ok? ==>
              var t := ApproveResult(s, p, now, o);
              p in t.payments && t.payments[p] == ApproveReply(s, p, now, o).value && t != s
    ensures ApproveReply(s, p, now, o).Err? && ApproveResult(s, p, now, o) != s
       <==> ApprovalWrites(s, p, now, o).Some? && o.writeOk && !o.eventOk
  {
    var y := ApprovalWrites(s, p, now, o);
    if y.Some? {
      assert y.value.status != s.payments[p].status;
      assert o.writeOk ==> ApproveResult(s, p, now, o).payments[p] == y.value;
    }
  }

  /** What each error of a create tells the caller. */
  lemma CreateErrors(s: Saga, issued: Option<string>, now: Time, o: Outside)
    requires s.history != []
    ensures var r, i := CreateReply(s, issued, now, o), s.history[|s.history| - 1];
            var payable := (i.status == STANDING || i.status == SINGLE_USE) && i.terms.endDate >= now;
            var asked := o.reading == Found && payable && issued.Some?;
            var marked := i.status == SINGLE_USE ==> o.mayUse && o.heard;
            && (r == Err(InstructionNotFound) <==> o.reading == NotThere)
            && (r == Err(Unreachable) <==> o.reading == Broken)
            && (r == Err(BadInstruction) <==> o.reading == Found && !payable)
            && (r == Err(NoIdentifier) <==> o.reading == Found && payable && issued.None?)
            && (r == Err(PolicyDenied) <==> asked && !o.allowed && o.eventOk)
            && (r == Err(NotMarked) <==> asked && o.allowed && !marked && o.eventOk)
            && (r == Err(StoreFailure) <==> asked && o.allowed && marked && !o.writeOk)
            && (r == Err(EventFailure) <==> asked && !o.eventOk && (!o.allowed || !marked || o.writeOk))
  {
  }

  /** The payment a create returns is a draft on the version and status it read. */
  lemma CreatedIsDraft(s: Saga, issued: Option<string>, now: Time, o: Outside)
    requires s.history != [] && CreateReply(s, issued, now, o).Ok?
    ensures var y := CreateReply(s, issued, now, o).value;
            && Some(y.id) == issued && LifeOk(y) && y.status == DraftPayment
            && y.instructionVersion == |s.history| && y.instructionType == s.history[|s.history| - 1].status
  {
  }

  /**
   The payment an approval returns, and stores: cancelled because the instruction is missing, has another
   version by now, has ended or has not begun, and approved otherwise.
   */
  lemma ApprovedOrCancelled(s: Saga, p: string, now: Time, o: Outside)
    requires Inv(s) && LivesOk(s) && p in s.payments && s.payments[p].status == Submitted && o.reading != Broken
    ensures var y, n := s.payments[p], |s.history|; var terms := s.history[n - 1].terms; var z := ApprovalWrites(s, p, now, o);
            if o.reading == NotThere then z.Some? && Became(y, z.value, Cancelled, Some(Missing))
            else if y.instructionVersion != n then z.Some? && Became(y, z.value, Cancelled, Some(VersionDrift))
            else if terms.endDate < now then z.Some? && Became(y, z.value, Cancelled, Some(Expired))
            else if terms.effectiveDate > now then z.Some? && Became(y, z.value, Cancelled, Some(NotYetEffective))
            else if o.allowed then z.Some? && Became(y, z.value, Approved, None)
            else z.None?
  {
    var y := s.payments[p];
    assert PaymentOk(s.history, p, y) && LifeOk(y);
    assert Coherent(s.history[y.instructionVersion - 1]);
    ReadNow(s.history);
    ProblemIs(s.history, p, y, ViewOf(s.history), now);
  }

  /** What each error of an approval tells the caller; the policy is asked only if nothing cancels the payment. */
  lemma ApproveErrors(s: Saga, p: string, now: Time, o: Outside)
    requires s.history != []
    ensures var r, writes := ApproveReply(s, p, now, o), ApprovalWrites(s, p, now, o).Some?;
            var open := p in s.payments && s.payments[p].status == Submitted;
            && (r == Err(PaymentNotFound) <==> p !in s.payments)
            && (r == Err(BadState) <==> p in s.payments && s.payments[p].status != Submitted)
            && (r == Err(Unreachable) <==> open && o.reading == Broken)
            && (r == Err(PolicyDenied) <==> open && o.reading == Found && !writes && o.eventOk)
            && (r == Err(StoreFailure) <==> writes && !o.writeOk)
            && (r == Err(EventFailure) <==> open && o.reading != Broken && !o.eventOk && (writes ==> o.writeOk))
            && (r.Ok? <==> writes && o.writeOk && o.eventOk)
  {
  }

  // ---------------------------------------------------------------------------------------------
  // The histories of the saga are those of non-overlapping handlers
  // ---------------------------------------------------------------------------------------------

  function Payloads(chain: seq<Doc>): seq<Instruction> {
    seq(|chain|, k requires 0 <= k < |chain| => chain[k].payload)
  }

  /** A version chain without stale writes satisfies what the saga assumes of the instruction's history. */
  lemma FreshChainIsHistory(id: string, chain: seq<Doc>, origins: seq<Origin>)
    requires ChainOk(id, chain, origins) && FreshUpTo(origins, |origins| - 1)
    ensures HistoryOk(Payloads(chain))
  {
    var h := Payloads(chain);
    forall k | 0 <= k < |h| ensures Coherent(h[k]) && |h[k].events| == k + 1 {
      SnapshotCoherent(id, chain, origins, k);
      EntriesBoundVersion(id, chain, origins, k);
      assert FreshUpTo(origins, k);
    }
    forall k | 0 <= k < |h| - 1 ensures Follows(h[k], h[k + 1]) {
      assert Fresh(origins, k + 1);
      assert StepFromBase(chain, origins, k + 1);
    }
  }
}
