/**
 The create saga over instruction handlers that overlap in any way. One use of a single-use
 instruction is then no longer all there can be, but every payment still has a use of its own.
 */
module OverlappingPayments {
  import opened Wrappers
  import opened Lifecycle
  import opened VersionChain
  import opened Interleaving
  import opened ConcurrencyTheorems
  import Calls = InstructionHandlers

  /**
   `answered` holds the payment references whose USE has committed, so that its caller may have been
   told; creators and payments carry the status read when the payment was started.
   */
  datatype Saga = Saga(world: World, answered: set<string>, creators: map<string, Status>,
                       payments: map<string, Status>, taken: set<string>)

  datatype Move =
    | Handle(step: Step)       // any step of any handler of any instruction
    | Start(p: string)         // read the instruction, get an id
    | Insert(p: string)
    | Stop(p: string)

  /** The reference a step commits a USE of the instruction under. */
  function Answers(w: World, s: Step, id: string): set<string> {
    if Commits(w, s) && w.handlers[s.h].id == id && w.handlers[s.h].job.Change? && w.handlers[s.h].job.req.Use?
    then {w.handlers[s.h].job.req.reference} else {}
  }

  function Moved(s: Saga, m: Move, id: string): Saga {
    match m
    case Handle(step) =>
      s.(world := Do(s.world, step), answered := s.answered + Answers(s.world, step, id))
    case Start(p) =>
      var chain := Chain(s.world, id);
      if chain == [] || p in s.taken then s
      else s.(creators := s.creators[p := chain[|chain| - 1].payload.status], taken := s.taken + {p})
    case Insert(p) =>
      if p !in s.creators || (s.creators[p] == SINGLE_USE && p !in s.answered) then s
      else s.(payments := s.payments[p := s.creators[p]], creators := s.creators - {p})
    case Stop(p) =>
      s.(creators := s.creators - {p})
  }

  function MovedAll(s: Saga, ms: seq<Move>, id: string): Saga
    decreases |ms|
  {
    if ms == [] then s else MovedAll(Moved(s, ms[0], id), ms[1..], id)
  }

  predicate IsUse(o: Origin) {
    o.Changed? && o.req.Use?
  }

  /** How many versions a history has that were written by a USE. */
  function UseVersions(h: seq<Origin>): nat {
    if h == [] then 0 else UseVersions(h[..|h| - 1]) + if IsUse(h[|h| - 1]) then 1 else 0
  }

  /** The payment references they were written under. */
  function References(h: seq<Origin>): set<string> {
    if h == [] then {} else References(h[..|h| - 1]) + if IsUse(h[|h| - 1]) then {h[|h| - 1].req.reference} else {}
  }

  lemma {:induction false} ReferencesCounted(h: seq<Origin>)
    ensures |References(h)| <= UseVersions(h)
    decreases |h|
  {
    if h != [] {
      ReferencesCounted(h[..|h| - 1]);
      var init := References(h[..|h| - 1]);
      if IsUse(h[|h| - 1]) {
        var r := h[|h| - 1].req.reference;
        assert References(h) == if r in init then init else init + {r};
      } else {
        assert References(h) == init;
      }
    }
  }

  lemma {:induction false} ReferenceHasVersion(h: seq<Origin>, p: string) returns (k: nat)
    requires p in References(h)
    ensures k < |h| && IsUse(h[k]) && h[k].req.reference == p
    decreases |h|
  {
    var n := |h| - 1;
    if IsUse(h[n]) && h[n].req.reference == p {
      k := n;
    } else {
      k := ReferenceHasVersion(h[..n], p);
    }
  }

  /** A commit of a USE adds its reference to the history; nothing else changes the references. */
  lemma StepReferences(w: World, s: Step, id: string)
    requires HandlersOk(w)
    ensures References(History(Do(w, s), id)) == References(History(w, id)) + Answers(w, s, id)
  {
    if Commits(w, s) {
      var r := w.handlers[s.h];
      assert Do(w, s) == Committed(w, s.h);
      if r.id == id {
        var h := History(w, id) + [OriginOf(r)];
        assert h[..|h| - 1] == History(w, id);
      }
    } else {
      OthersStoreNothing(w, s);
    }
  }

  /** Some create or payment was started on a single-use snapshot. */
  predicate AnySingle(s: Saga) {
    || (exists p :: p in s.creators && s.creators[p] == SINGLE_USE)
    || (exists p :: p in s.payments && s.payments[p] == SINGLE_USE)
  }

  predicate WasSingle(chain: seq<Doc>) {
    exists r :: 0 <= r < |chain| && chain[r].payload.status == SINGLE_USE
  }

  ghost predicate SagaInv(s: Saga, id: string) {
    && Inv(s.world)
    && s.answered == References(History(s.world, id))
    && (AnySingle(s) ==> WasSingle(Chain(s.world, id)))
    && forall p | p in s.payments && s.payments[p] == SINGLE_USE :: p in s.answered
  }

  lemma MoveKeepsSingle(s: Saga, m: Move, id: string)
    requires Inv(s.world) && (AnySingle(s) ==> WasSingle(Chain(s.world, id)))
    ensures AnySingle(Moved(s, m, id)) ==> WasSingle(Chain(Moved(s, m, id).world, id))
  {
    var t := Moved(s, m, id);
    if m.Handle? {
      StepGrows(s.world, m.step);
      SingleStays(Chain(s.world, id), Chain(t.world, id));
    } else if m.Start? && AnySingle(t) && !AnySingle(s) {
      var chain := Chain(s.world, id);
      assert chain[|chain| - 1].payload.status == SINGLE_USE;
    }
  }

  lemma SingleStays(chain: seq<Doc>, longer: seq<Doc>)
    requires Extends(chain, longer)
    ensures WasSingle(chain) ==> WasSingle(longer)
  {
    if r :| 0 <= r < |chain| && chain[r].payload.status == SINGLE_USE {
      assert longer[r].payload.status == SINGLE_USE;
    }
  }

  lemma MoveKeepsInv(s: Saga, m: Move, id: string)
    requires SagaInv(s, id)
    ensures SagaInv(Moved(s, m, id), id)
  {
    MoveKeepsSingle(s, m, id);
    if m.Handle? {
      StepKeepsInv(s.world, m.step);
      StepReferences(s.world, m.step, id);
    }
  }

  lemma {:induction false} MovesKeepInv(s: Saga, ms: seq<Move>, id: string)
    requires SagaInv(s, id)
    ensures SagaInv(MovedAll(s, ms, id), id)
    decreases |ms|
  {
    if ms != [] {
      MoveKeepsInv(s, ms[0], id);
      MovesKeepInv(Moved(s, ms[0], id), ms[1..], id);
    }
  }

  function Nothing(excluded: set<string>): Saga {
    Saga(Empty(excluded), {}, map[], map[], {})
  }

  function SinglePayments(s: Saga): set<string> {
    set p | p in s.payments && s.payments[p] == SINGLE_USE
  }

  /** Version k+1 is the USE of payment p: the history says so, and the version's last entry does. */
  predicate IsUseOf(w: World, id: string, p: string, k: nat) {
    && k < |Chain(w, id)| && k < |History(w, id)|
    && IsUse(History(w, id)[k]) && History(w, id)[k].req.reference == p
    && var events := Chain(w, id)[k].payload.events;
       events != [] && events[|events| - 1] == Entry(USE, History(w, id)[k].actor, p)
  }

  lemma UseIsOnRecord(w: World, id: string, p: string) returns (k: nat)
    requires ChainsOk(w) && p in References(History(w, id))
    ensures IsUseOf(w, id, p, k)
  {
    k := ReferenceHasVersion(History(w, id), p);
    assert ChainOk(id, w.docs[id], w.origins[id]);
    assert StepFromBase(w.docs[id], w.origins[id], k);
  }

  lemma SubsetCount(a: set<string>, b: set<string>)
    requires a <= b
    ensures |a| <= |b|
  {
    if a != {} {
      var x :| x in a;
      SubsetCount(a - {x}, b - {x});
    }
  }

  /**
   However handlers and creates overlap and wherever they stop, payments made on a single-use snapshot
   do not outnumber the versions written by a USE, and each of them has such a version of its own: the
   one whose payment reference is the payment's id.
   */
  lemma EachPaymentHasItsUse(excluded: set<string>, ms: seq<Move>, id: string)
    ensures var s := MovedAll(Nothing(excluded), ms, id);
            && |SinglePayments(s)| <= UseVersions(History(s.world, id))
            && forall p | p in SinglePayments(s) :: exists k: nat :: IsUseOf(s.world, id, p, k)
  {
    EmptyInv(excluded);
    MovesKeepInv(Nothing(excluded), ms, id);
    var s := MovedAll(Nothing(excluded), ms, id);
    SubsetCount(SinglePayments(s), References(History(s.world, id)));
    ReferencesCounted(History(s.world, id));
    forall p | p in SinglePayments(s) ensures exists k: nat :: IsUseOf(s.world, id, p, k) {
      var k := UseIsOnRecord(s.world, id, p);
    }
  }

  /** Every version of the instruction was admitted by the version it replaced. */
  predicate AllRechecked(w: World, id: string) {
    |Chain(w, id)| == |History(w, id)| && Rechecked(Chain(w, id), History(w, id), |Chain(w, id)|)
  }

  /**
   When one payment is all there can be, handlers overlapping or not: every version so far was still
   admitted by the version it replaced. That is a check the transaction can make before it appends.
   */
  lemma OnePaymentIfRechecked(excluded: set<string>, ms: seq<Move>, id: string)
    ensures var s := MovedAll(Nothing(excluded), ms, id);
            AllRechecked(s.world, id) ==> |SinglePayments(s)| <= 1
  {
    EmptyInv(excluded);
    MovesKeepInv(Nothing(excluded), ms, id);
    var s := MovedAll(Nothing(excluded), ms, id);
    if AllRechecked(s.world, id) {
      forall p, q | p in SinglePayments(s) && q in SinglePayments(s) ensures p == q {
        LastUse(s, id, p);
        LastUse(s, id, q);
      }
      AtMostOne(SinglePayments(s));
    }
  }

  /** The history ends with the USE of payment p. */
  predicate EndsWithUse(h: seq<Origin>, p: string) {
    h != [] && IsUse(h[|h| - 1]) && h[|h| - 1].req.reference == p
  }

  lemma UseEnds(id: string, chain: seq<Doc>, h: seq<Origin>, r: nat, k: nat, p: string)
    requires ChainOk(id, chain, h) && Rechecked(chain, h, |chain|)
    requires r < |chain| && chain[r].payload.status == SINGLE_USE
    requires k < |h| && IsUse(h[k]) && h[k].req.reference == p
    ensures EndsWithUse(h, p)
  {
    SingleUseEndsUsed(id, chain, h, r, k);
  }

  lemma SingleVersion(s: Saga, id: string, p: string) returns (r: nat)
    requires (AnySingle(s) ==> WasSingle(Chain(s.world, id))) && p in SinglePayments(s)
    ensures r < |Chain(s.world, id)| && Chain(s.world, id)[r].payload.status == SINGLE_USE
  {
    assert AnySingle(s);
    r :| 0 <= r < |Chain(s.world, id)| && Chain(s.world, id)[r].payload.status == SINGLE_USE;
  }

  lemma StoredChain(w: World, id: string)
    requires ChainsOk(w) && Chain(w, id) != []
    ensures ChainOk(id, Chain(w, id), History(w, id))
  {
  }

  lemma LastUse(s: Saga, id: string, p: string)
    requires SagaInv(s, id) && p in SinglePayments(s) && AllRechecked(s.world, id)
    ensures EndsWithUse(History(s.world, id), p)
  {
    var k := ReferenceHasVersion(History(s.world, id), p);
    var r := SingleVersion(s, id, p);
    StoredChain(s.world, id);
    UseEnds(id, Chain(s.world, id), History(s.world, id), r, k, p);
  }

  lemma AtMostOne(a: set<string>)
    requires forall p, q | p in a && q in a :: p == q
    ensures |a| <= 1
  {
    if p :| p in a {
      assert a == {p};
    }
  }

  // ---------------------------------------------------------------------------------------------
  // Two payments on one single-use instruction
  // ---------------------------------------------------------------------------------------------

  function Handled(steps: seq<Step>): seq<Move> {
    seq(|steps|, i requires 0 <= i < |steps| => Handle(steps[i]))
  }

  lemma {:induction false} MovedConcat(s: Saga, a: seq<Move>, b: seq<Move>, id: string)
    ensures MovedAll(s, a + b, id) == MovedAll(MovedAll(s, a, id), b, id)
    decreases |a|
  {
    if a == [] {
      assert a + b == b;
    } else {
      assert (a + b)[1..] == a[1..] + b;
      MovedConcat(Moved(s, a[0], id), a[1..], b, id);
    }
  }

  lemma {:induction false} HandledRun(s: Saga, steps: seq<Step>, id: string)
    ensures var t := MovedAll(s, Handled(steps), id);
            && t.world == Run(s.world, steps) && t.creators == s.creators && t.payments == s.payments
            && t.taken == s.taken
    decreases |steps|
  {
    if steps != [] {
      assert Handled(steps)[1..] == Handled(steps[1..]);
      HandledRun(Moved(s, Handle(steps[0]), id), steps[1..], id);
    }
  }

  /** Both creates read, both uses run overlapping, both creates insert. */
  function TwoCreates(id: string, a: UseCall, b: UseCall): seq<Move> {
    [Start(a.reference), Start(b.reference)]
    + (Handled(OverlappingUses(id, a, b)) + [Insert(a.reference), Insert(b.reference)])
  }

  /**
   With overlapping handlers one payment is not all: from every state in which two uses can overlap on a
   single-use instruction, two creates with new ids both insert a payment.
   */
  lemma TwoPaymentsHappen(s: Saga, id: string, a: UseCall, b: UseCall)
    requires SagaInv(s, id) && CanOverlap(s.world, id, a, b)
    requires a.reference != b.reference && a.reference !in s.taken && b.reference !in s.taken
    ensures {a.reference, b.reference} <= SinglePayments(MovedAll(s, TwoCreates(id, a, b), id))
  {
    var u := Moved(Moved(s, Start(a.reference), id), Start(b.reference), id);
    BothStarted(s, id, a, b);
    var uses, rest := Handled(OverlappingUses(id, a, b)), [Insert(a.reference), Insert(b.reference)];
    StartTwice(s, Start(a.reference), Start(b.reference), uses + rest, id);
    MovedConcat(u, uses, rest, id);
    BothAnswered(u, id, a, b);
    InsertTwice(MovedAll(u, uses, id), a.reference, b.reference, id);
  }

  lemma OneStarted(s: Saga, id: string, p: string)
    requires SagaInv(s, id) && id in s.world.docs && |s.world.docs[id]| > 0 && p !in s.taken
    requires s.world.docs[id][|s.world.docs[id]| - 1].payload.status == SINGLE_USE
    ensures SagaInv(Moved(s, Start(p), id), id)
    ensures Moved(s, Start(p), id) == s.(creators := s.creators[p := SINGLE_USE], taken := s.taken + {p})
  {
    MoveKeepsInv(s, Start(p), id);
  }

  lemma BothStarted(s: Saga, id: string, a: UseCall, b: UseCall)
    requires SagaInv(s, id) && CanOverlap(s.world, id, a, b)
    requires a.reference != b.reference && a.reference !in s.taken && b.reference !in s.taken
    ensures var u := Moved(Moved(s, Start(a.reference), id), Start(b.reference), id);
            && SagaInv(u, id) && u.world == s.world
            && a.reference in u.creators && u.creators[a.reference] == SINGLE_USE
            && b.reference in u.creators && u.creators[b.reference] == SINGLE_USE
  {
    OneStarted(s, id, a.reference);
    OneStarted(Moved(s, Start(a.reference), id), id, b.reference);
  }

  lemma BothAnswered(u: Saga, id: string, a: UseCall, b: UseCall)
    requires SagaInv(u, id) && CanOverlap(u.world, id, a, b)
    ensures var v := MovedAll(u, Handled(OverlappingUses(id, a, b)), id);
            v.creators == u.creators && {a.reference, b.reference} <= v.answered
  {
    var steps := OverlappingUses(id, a, b);
    HandledRun(u, steps, id);
    MovesKeepInv(u, Handled(steps), id);
    OverlappingChain(u.world, id, a, b);
    BothReferenced(History(u.world, id), a, b, |u.world.docs[id]|);
  }

  lemma StartTwice(s: Saga, m: Move, n: Move, rest: seq<Move>, id: string)
    ensures MovedAll(s, [m, n] + rest, id) == MovedAll(Moved(Moved(s, m, id), n, id), rest, id)
  {
    assert ([m, n] + rest)[1..] == [n] + rest;
    assert ([n] + rest)[1..] == rest;
  }

  lemma BothReferenced(h: seq<Origin>, a: UseCall, b: UseCall, n: nat)
    ensures var g := h + [Changed(a.actor, Use(a.reference), a.at, n)] + [Changed(b.actor, Use(b.reference), b.at, n)];
            {a.reference, b.reference} <= References(g)
  {
    var f := h + [Changed(a.actor, Use(a.reference), a.at, n)];
    var g := f + [Changed(b.actor, Use(b.reference), b.at, n)];
    assert g[..|g| - 1] == f && f[..|f| - 1] == h;
  }

  lemma InsertTwice(s: Saga, p: string, q: string, id: string)
    requires p != q && p in s.creators && q in s.creators && {p, q} <= s.answered
    requires s.creators[p] == s.creators[q] == SINGLE_USE
    ensures {p, q} <= SinglePayments(MovedAll(s, [Insert(p), Insert(q)], id))
  {
    StartTwice(s, Insert(p), Insert(q), [], id);
    assert [Insert(p), Insert(q)] + [] == [Insert(p), Insert(q)];
  }

  /** And from the empty store such a state is reached: create, submit, approve, then two creates. */
  lemma TwoPaymentsReached(excluded: set<string>, id: string, terms: Terms, maker: string, approver: string, f: Calls.Fate,
                           a: UseCall, b: UseCall)
    requires terms.instructionType == SingleUse && f.decision == Calls.Allow && !f.aborts
    requires a.h != b.h && a.reference != b.reference
    ensures var moves := Handled(Calls.Approval(id, terms, maker, approver, f)) + TwoCreates(id, a, b);
            SinglePayments(MovedAll(Nothing(excluded), moves, id)) >= {a.reference, b.reference}
  {
    var approval := Calls.Approval(id, terms, maker, approver, f);
    var s := MovedAll(Nothing(excluded), Handled(approval), id);
    EmptyInv(excluded);
    MovesKeepInv(Nothing(excluded), Handled(approval), id);
    HandledRun(Nothing(excluded), approval, id);
    Calls.ApprovalRun(Empty(excluded), id, terms, maker, approver, f);
    MovedConcat(Nothing(excluded), Handled(approval), TwoCreates(id, a, b), id);
    TwoPaymentsHappen(s, id, a, b);
  }
}
