/**
 What holds after every run of concurrent handlers, what holds only when handlers
 do not overlap, and a run on which the difference shows.
 */
module ConcurrencyTheorems {
  import opened Wrappers
  import opened Lifecycle
  import opened VersionChain
  import opened Interleaving

  // ---------------------------------------------------------------------------------------------
  // Every interleaving
  // ---------------------------------------------------------------------------------------------

  /**
   The versions of an instruction are exactly 1..n; only n is open; each closed version ends when
   the next begins; the first is the draft CREATE built, and every other is an earlier one changed
   by exactly one request which that earlier version's status admitted.
   */
  lemma ChainAfterEveryRun(excluded: set<string>, steps: seq<Step>, id: string)
    ensures var w := Run(Empty(excluded), steps);
            id in w.docs ==> id in w.origins && ChainOk(id, w.docs[id], w.origins[id])
  {
    EmptyInv(excluded);
    RunKeepsInv(Empty(excluded), steps);
  }

  predicate Commits(w: World, s: Step) {
    s.Commit? && s.h in w.handlers && w.handlers[s.h].phase.Holding?
  }

  /** Only a commit touches the stored versions. */
  lemma OthersStoreNothing(w: World, s: Step)
    requires !Commits(w, s)
    ensures var x := Do(w, s);
            && x.docs == w.docs && x.origins == w.origins && x.excluded == w.excluded
            && forall g | g in x.handlers && g in w.handlers ::
                 x.handlers[g] == w.handlers[g].(phase := x.handlers[g].phase)
  {
  }

  lemma StepGrows(w: World, s: Step)
    requires ChainsOk(w) && HandlersOk(w)
    ensures Grown(w, Do(w, s))
  {
    if Commits(w, s) {
      assert HandlerOk(w, w.handlers[s.h]);
      CommittedGrown(w, s.h);
    } else {
      OthersStoreNothing(w, s);
    }
  }

  /** Whatever runs next, stored versions keep number, payload and start, and close at most once. */
  lemma {:induction false} RunsOnlyExtend(w: World, steps: seq<Step>, id: string)
    requires Inv(w)
    ensures Extends(Chain(w, id), Chain(Run(w, steps), id))
    decreases |steps|
  {
    if steps != [] {
      StepGrows(w, steps[0]);
      StepKeepsInv(w, steps[0]);
      assert Extends(Chain(w, id), Chain(Do(w, steps[0]), id));
      RunsOnlyExtend(Do(w, steps[0]), steps[1..], id);
    }
  }

  /** Only a commit adds a version, and it adds one, to its own instruction; a conflict or crash adds nothing. */
  lemma OnlyCommitsStore(w: World, s: Step, id: string)
    requires HandlersOk(w)
    ensures var x := Do(w, s);
            if Commits(w, s) && w.handlers[s.h].id == id then
              && |Chain(x, id)| == |Chain(w, id)| + 1
              && w.handlers[s.h].phase.seen == |Chain(w, id)|
              && w.handlers[s.h].base <= |Chain(w, id)|
            else Chain(x, id) == Chain(w, id) && History(x, id) == History(w, id)
  {
    if Commits(w, s) {
      assert HandlerOk(w, w.handlers[s.h]);
      assert Do(w, s) == Committed(w, s.h);
    } else {
      OthersStoreNothing(w, s);
    }
  }

  /** How many transactions on the instruction commit during a run. */
  function CommitsIn(w: World, steps: seq<Step>, id: string): nat
    decreases |steps|
  {
    if steps == [] then 0
    else (if Commits(w, steps[0]) && w.handlers[steps[0].h].id == id then 1 else 0)
         + CommitsIn(Do(w, steps[0]), steps[1..], id)
  }

  /** A run adds exactly as many versions as it commits; denials, conflicts and crashes leave no trace in a chain. */
  lemma {:induction false} VersionsAreCommits(w: World, steps: seq<Step>, id: string)
    requires Inv(w)
    ensures |Chain(Run(w, steps), id)| == |Chain(w, id)| + CommitsIn(w, steps, id)
    decreases |steps|
  {
    if steps != [] {
      OnlyCommitsStore(w, steps[0], id);
      StepKeepsInv(w, steps[0]);
      VersionsAreCommits(Do(w, steps[0]), steps[1..], id);
    }
  }

  /** Every stored snapshot is coherent, so EXPIRED is never reached. */
  lemma SnapshotsAfterEveryRun(excluded: set<string>, steps: seq<Step>, id: string, k: nat)
    requires k < |Chain(Run(Empty(excluded), steps), id)|
    ensures Coherent(Chain(Run(Empty(excluded), steps), id)[k].payload)
  {
    ChainAfterEveryRun(excluded, steps, id);
    var w := Run(Empty(excluded), steps);
    SnapshotCoherent(id, w.docs[id], w.origins[id], k);
  }

  /** After every run each stored version has the fields its request writes, and its base's in all others. */
  lemma FieldsAfterEveryRun(excluded: set<string>, steps: seq<Step>, id: string, k: nat)
    requires 1 <= k < |Chain(Run(Empty(excluded), steps), id)|
    ensures var w := Run(Empty(excluded), steps); var c, h := Chain(w, id), History(w, id);
            && |c| == |h| && h[k].Changed? && 1 <= h[k].base <= k
            && Wrote(c[h[k].base - 1].payload, c[k].payload, h[k].req, h[k].actor, h[k].at)
  {
    ChainAfterEveryRun(excluded, steps, id);
    var w := Run(Empty(excluded), steps);
    VersionWrites(id, w.docs[id], w.origins[id], k);
  }

  /** So its terms are those of the last UPDATE, or of CREATE, along the versions it was made from. */
  lemma TermsAfterEveryRun(excluded: set<string>, steps: seq<Step>, id: string, k: nat)
    requires k < |Chain(Run(Empty(excluded), steps), id)|
    ensures var w := Run(Empty(excluded), steps);
            && k < |History(w, id)| && BasesBefore(History(w, id))
            && Chain(w, id)[k].payload.terms == LastTerms(History(w, id), k)
  {
    ChainAfterEveryRun(excluded, steps, id);
    var w := Run(Empty(excluded), steps);
    ChainHasBasesBefore(id, w.docs[id], w.origins[id]);
    TermsAreTheLast(id, w.docs[id], w.origins[id], k);
  }

  /** Lost updates are exactly the versions whose lifecycle entries fall short of their number. */
  lemma LostUpdatesDetected(excluded: set<string>, steps: seq<Step>, id: string, k: nat)
    requires k < |Chain(Run(Empty(excluded), steps), id)|
    ensures var w := Run(Empty(excluded), steps); var i := Chain(w, id)[k].payload;
            && |Chain(w, id)| == |History(w, id)|
            && |i.events| <= k + 1
            && (|i.events| == k + 1 <==> FreshUpTo(History(w, id), k))
            && i.usageCount == CountUses(i.events)
  {
    ChainAfterEveryRun(excluded, steps, id);
    var w := Run(Empty(excluded), steps);
    EntriesBoundVersion(id, w.docs[id], w.origins[id], k);
    SnapshotCoherent(id, w.docs[id], w.origins[id], k);
  }

  /**
   Each committed version has exactly one success event with its number if its writer is audited and
   none otherwise; a number nobody committed has none. The event names the writer and the action.
   */
  lemma AuditIsExact(excluded: set<string>, steps: seq<Step>, id: string, v: nat)
    ensures var w := Run(Empty(excluded), steps);
            && WriteEvents(w.audit, id, v)
               == (if 1 <= v <= |Chain(w, id)| && v <= |History(w, id)| && History(w, id)[v - 1].actor !in excluded
                   then 1 else 0)
            && (forall e | e in w.audit && IsWriteEvent(e) :: e.version.Some?)
            && (forall e | e in w.audit && IsWriteEvent(e) && e.id == id && e.version == Some(v) ::
                  && 1 <= v <= |History(w, id)|
                  && e.action == OriginAction(History(w, id)[v - 1])
                  && e.actor == History(w, id)[v - 1].actor)
  {
    EmptyInv(excluded);
    RunKeepsInv(Empty(excluded), steps);
    RunKeepsExcluded(Empty(excluded), steps);
    var w := Run(Empty(excluded), steps);
    SameLengths(w, id);
    assert WriteEvents(w.audit, id, v) == if AuditedVersion(w, id, v) then 1 else 0;
    forall e | e in w.audit && IsWriteEvent(e) ensures e.version.Some? {
      assert EventOk(w, e);
    }
    forall e | e in w.audit && IsWriteEvent(e) && e.id == id && e.version == Some(v)
      ensures 1 <= v <= |History(w, id)| && e.action == OriginAction(History(w, id)[v - 1])
              && e.actor == History(w, id)[v - 1].actor
    {
      assert EventOk(w, e);
    }
  }

  lemma {:induction false} RunKeepsExcluded(w: World, steps: seq<Step>)
    ensures Run(w, steps).excluded == w.excluded
    decreases |steps|
  {
    if steps != [] {
      RunKeepsExcluded(Do(w, steps[0]), steps[1..]);
    }
  }

  /** The step turns the handler's subject down. */
  predicate Denies(w: World, s: Step, e: AuditEvent) {
    && s.Authorize? && !s.allowed && s.h in w.handlers && w.handlers[s.h].phase.Deciding?
    && e == AuditEvent(w.handlers[s.h].id, JobAction(w.handlers[s.h].job), w.handlers[s.h].actor, false, None)
  }

  /** The step shows an instruction that exists, or refuses to. */
  predicate Shows(w: World, s: Step, e: AuditEvent) {
    && s.View? && Chain(w, s.id) != []
    && e == AuditEvent(s.id, VIEW, s.actor, s.allowed, if s.allowed then Some(|Chain(w, s.id)|) else None)
  }

  /** How many denials and views of a run this event records, if its subject is audited. */
  function Recorded(w: World, steps: seq<Step>, e: AuditEvent): nat
    decreases |steps|
  {
    if steps == [] then 0
    else (if e.actor !in w.excluded && (Denies(w, steps[0], e) || Shows(w, steps[0], e)) then 1 else 0)
         + Recorded(Do(w, steps[0]), steps[1..], e)
  }

  lemma StepRecords(w: World, s: Step, e: AuditEvent)
    requires !IsWriteEvent(e)
    ensures multiset(Do(w, s).audit)[e] == multiset(w.audit)[e]
              + if e.actor !in w.excluded && (Denies(w, s, e) || Shows(w, s, e)) then 1 else 0
    ensures Do(w, s).excluded == w.excluded
  {
    if Commits(w, s) {
      assert Do(w, s) == Committed(w, s.h);
    } else if s.Authorize? || s.View? {
      AskedRecords(w, s, e);
    } else {
      OthersRecordNothing(w, s);
    }
  }

  lemma AskedRecords(w: World, s: Step, e: AuditEvent)
    requires s.Authorize? || s.View?
    ensures multiset(Do(w, s).audit)[e] == multiset(w.audit)[e]
              + if e.actor !in w.excluded && (Denies(w, s, e) || Shows(w, s, e)) then 1 else 0
    ensures Do(w, s).excluded == w.excluded
  {
  }

  lemma OthersRecordNothing(w: World, s: Step)
    requires !Commits(w, s) && !s.Authorize? && !s.View?
    ensures Do(w, s).audit == w.audit && Do(w, s).excluded == w.excluded
  {
  }

  /** Every denial and every view by an audited subject leaves exactly one event, and nothing else leaves one. */
  lemma {:induction false} DenialsAreAudited(w: World, steps: seq<Step>, e: AuditEvent)
    requires !IsWriteEvent(e)
    ensures multiset(Run(w, steps).audit)[e] == multiset(w.audit)[e] + Recorded(w, steps, e)
    decreases |steps|
  {
    if steps != [] {
      StepRecords(w, steps[0], e);
      DenialsAreAudited(Do(w, steps[0]), steps[1..], e);
    }
  }

  /** Every published fact is the snapshot of a committed version, under that version's number and action. */
  lemma FactsAreCommitted(excluded: set<string>, steps: seq<Step>, f: Fact)
    requires f in Run(Empty(excluded), steps).facts
    ensures var w := Run(Empty(excluded), steps);
            && 1 <= f.version <= |Chain(w, f.id)|
            && f.snapshot == Chain(w, f.id)[f.version - 1].payload
            && f.version <= |History(w, f.id)|
            && f.action == OriginAction(History(w, f.id)[f.version - 1])
            && FactAccepted(f.snapshot, f.action, f.version)
  {
    EmptyInv(excluded);
    RunKeepsInv(Empty(excluded), steps);
    assert FactOk(Run(Empty(excluded), steps), f);
  }

  // ---------------------------------------------------------------------------------------------
  // Handlers that do not overlap
  // ---------------------------------------------------------------------------------------------

  /** A handler is under way until it has committed; publishing its fact may come later. */
  predicate Busy(w: World, id: string) {
    exists h :: h in w.handlers && w.handlers[h].id == id && !w.handlers[h].phase.Saved?
  }

  /** No handler starts on an instruction while another one is under way on it. */
  predicate Serial(w: World, steps: seq<Step>)
    decreases |steps|
  {
    steps != [] ==>
      && (steps[0].Create? || steps[0].Read? ==> !Busy(w, steps[0].id))
      && Serial(Do(w, steps[0]), steps[1..])
  }

  ghost predicate OneEach(w: World) {
    forall g, h | g in w.handlers && h in w.handlers && w.handlers[g].id == w.handlers[h].id
      && !w.handlers[g].phase.Saved? && !w.handlers[h].phase.Saved? :: g == h
  }

  /** No handler that can still write is behind. */
  ghost predicate NoneStale(w: World) {
    forall h | h in w.handlers && w.handlers[h].job.Change? && !w.handlers[h].phase.Saved? ::
      w.handlers[h].base == |Chain(w, w.handlers[h].id)|
  }

  ghost predicate AllFresh(w: World) {
    forall id | id in w.origins && w.origins[id] != [] :: FreshUpTo(w.origins[id], |w.origins[id]| - 1)
  }

  ghost predicate SerialInv(w: World) {
    OneEach(w) && NoneStale(w) && AllFresh(w)
  }

  lemma SerialCommit(w: World, h: nat)
    requires HandlersOk(w) && SerialInv(w) && h in w.handlers && w.handlers[h].phase.Holding?
    requires |Chain(w, w.handlers[h].id)| == |History(w, w.handlers[h].id)|
    ensures SerialInv(Committed(w, h))
  {
    var r := w.handlers[h];
    assert HandlerOk(w, r);
    SerialOrigins(w, h);
    CommitLeavesNoneStale(w, h);
    assert Committed(w, h).origins == w.origins[r.id := History(w, r.id) + [OriginOf(r)]];
  }

  lemma CommitLeavesNoneStale(w: World, h: nat)
    requires OneEach(w) && NoneStale(w) && h in w.handlers && w.handlers[h].phase.Holding?
    ensures OneEach(Committed(w, h)) && NoneStale(Committed(w, h))
  {
    var r := w.handlers[h];
    var x := Committed(w, h);
    forall g | g in x.handlers && x.handlers[g].job.Change? && !x.handlers[g].phase.Saved?
      ensures x.handlers[g].base == |Chain(x, x.handlers[g].id)|
    {
      assert g != h && w.handlers[g].id != r.id;
      assert Chain(x, w.handlers[g].id) == Chain(w, w.handlers[g].id);
    }
  }

  lemma SerialOrigins(w: World, h: nat)
    requires SerialInv(w) && h in w.handlers && w.handlers[h].phase.Holding?
    requires |Chain(w, w.handlers[h].id)| == |History(w, w.handlers[h].id)|
    requires w.handlers[h].job.NewInstruction? ==> History(w, w.handlers[h].id) == []
    ensures var o := History(w, w.handlers[h].id) + [OriginOf(w.handlers[h])]; FreshUpTo(o, |o| - 1)
  {
    var id := w.handlers[h].id;
    var o := History(w, id) + [OriginOf(w.handlers[h])];
    forall j | 1 <= j <= |o| - 1 ensures Fresh(o, j) {
      if j < |History(w, id)| {
        assert Fresh(w.origins[id], j);
      }
    }
  }

  lemma SerialStep(w: World, s: Step)
    requires HandlersOk(w) && ChainsOk(w) && SerialInv(w)
    requires s.Create? || s.Read? ==> !Busy(w, s.id)
    ensures SerialInv(Do(w, s))
  {
    if Commits(w, s) {
      SameLengths(w, w.handlers[s.h].id);
      SerialCommit(w, s.h);
    } else {
      OthersStoreNothing(w, s);
      SerialOther(w, s);
    }
  }

  lemma SerialOther(w: World, s: Step)
    requires SerialInv(w) && !Commits(w, s)
    requires Do(w, s).docs == w.docs && Do(w, s).origins == w.origins
    requires s.Create? || s.Read? ==> !Busy(w, s.id)
    ensures SerialInv(Do(w, s))
  {
    if s.Create? || s.Read? {
      SerialStart(w, s);
    } else {
      OtherGoesOn(w, s);
      SerialOngoing(w, Do(w, s));
    }
  }

  lemma OtherGoesOn(w: World, s: Step)
    requires !Commits(w, s) && !s.Create? && !s.Read?
    ensures GoesOn(w, Do(w, s))
  {
  }

  lemma SerialStart(w: World, s: Step)
    requires SerialInv(w) && (s.Create? || s.Read?) && !Busy(w, s.id)
    ensures SerialInv(Do(w, s))
  {
    var x := Do(w, s);
    forall g | g in x.handlers && g in w.handlers
      ensures x.handlers[g] == w.handlers[g] && (w.handlers[g].phase.Saved? || w.handlers[g].id != s.id)
    {
    }
  }

  /** Handlers that only go on or stop. */
  predicate GoesOn(w: World, x: World) {
    && x.docs == w.docs && x.origins == w.origins
    && forall g | g in x.handlers ::
         && g in w.handlers && x.handlers[g] == w.handlers[g].(phase := x.handlers[g].phase)
         && (w.handlers[g].phase.Saved? ==> x.handlers[g].phase.Saved?)
  }

  lemma SerialOngoing(w: World, x: World)
    requires SerialInv(w) && GoesOn(w, x)
    ensures SerialInv(x)
  {
    forall h | h in x.handlers && x.handlers[h].job.Change? && !x.handlers[h].phase.Saved?
      ensures x.handlers[h].base == |Chain(x, x.handlers[h].id)|
    {
      assert w.handlers[h].job.Change? && !w.handlers[h].phase.Saved?;
    }
  }

  lemma {:induction false} SerialRun(w: World, steps: seq<Step>)
    requires Inv(w) && SerialInv(w) && Serial(w, steps)
    ensures SerialInv(Run(w, steps))
    decreases |steps|
  {
    if steps != [] {
      SerialStep(w, steps[0]);
      StepKeepsInv(w, steps[0]);
      SerialRun(Do(w, steps[0]), steps[1..]);
    }
  }

  /**
   With handlers that do not overlap between read and commit, each version is its predecessor moved along one edge of the
   lifecycle graph, its number counts its lifecycle entries, and a final status ends the history.
   */
  lemma SerialHistoryIsPath(excluded: set<string>, steps: seq<Step>, id: string, k: nat)
    requires Serial(Empty(excluded), steps)
    requires k < |Chain(Run(Empty(excluded), steps), id)|
    ensures var w := Run(Empty(excluded), steps); var c := Chain(w, id);
            && |c| == |History(w, id)|
            && |c[k].payload.events| == k + 1
            && (k > 0 ==> Edge(c[k - 1].payload.status, OriginAction(History(w, id)[k]), c[k].payload.status,
                               c[k - 1].payload.terms.instructionType))
            && (Final(c[k].payload.status) ==> k == |c| - 1)
  {
    EmptyInv(excluded);
    RunKeepsInv(Empty(excluded), steps);
    SerialRun(Empty(excluded), steps);
    var w := Run(Empty(excluded), steps);
    assert ChainOk(id, w.docs[id], w.origins[id]);
    var c, o := w.docs[id], w.origins[id];
    assert FreshUpTo(o, |o| - 1);
    assert FreshUpTo(o, k);
    EntriesBoundVersion(id, c, o, k);
    if k > 0 {
      assert Fresh(o, k);
      FreshHistoryIsPath(id, c, o, k);
    }
    if k + 1 < |c| {
      assert Fresh(o, k + 1);
      FreshHistoryIsPath(id, c, o, k + 1);
    }
  }

  // ---------------------------------------------------------------------------------------------
  // Handlers that do overlap
  // ---------------------------------------------------------------------------------------------

  lemma RunStep(w: World, s: Step, rest: seq<Step>)
    ensures Run(w, [s] + rest) == Run(Do(w, s), rest)
  {
    assert ([s] + rest)[1..] == rest;
  }

  lemma {:induction false} RunConcat(w: World, a: seq<Step>, b: seq<Step>)
    ensures Run(w, a + b) == Run(Run(w, a), b)
    decreases |a|
  {
    if a == [] {
      assert a + b == b;
    } else {
      assert (a + b)[1..] == a[1..] + b;
      RunConcat(Do(w, a[0]), a[1..], b);
    }
  }

  /** The steps of one handler after its read, with nothing in its way. */
  function Finish(h: nat, now: Time): seq<Step> {
    [Begin(h, now), Write(h), Commit(h)]
  }

  /** A handler whose transaction meets no other one commits what it prepared from the snapshot it read. */
  lemma FinishCommits(w: World, h: nat, now: Time)
    requires h in w.handlers && w.handlers[h].phase.Ready? && w.handlers[h].job.Change?
    requires Chain(w, w.handlers[h].id) != [] && !Locked(w, w.handlers[h].id)
    ensures var r := w.handlers[h]; var x := Run(w, Finish(h, now));
            && Chain(x, r.id) == Appended(Chain(w, r.id), Proposed(r, r.phase.at), now)
            && History(x, r.id) == History(w, r.id) + [Changed(r.actor, r.job.req, r.phase.at, r.base)]
            && (forall g | g in w.handlers && g != h :: g in x.handlers && x.handlers[g] == w.handlers[g])
            && !Locked(x, r.id)
  {
    var r := w.handlers[h];
    var n := |Chain(w, r.id)|;
    var a := SetPhase(w, h, InTransaction(r.phase.at, n, now));
    FinishSteps(w, h, now);
    StillUnlocked(w, a, h);
    assert NoConflict(a, h);
    FinishedWorld(w, SetPhase(a, h, Holding(r.phase.at, n, now)), h);
  }

  lemma FinishSteps(w: World, h: nat, now: Time)
    ensures Run(w, Finish(h, now)) == Do(Do(Do(w, Begin(h, now)), Write(h)), Commit(h))
  {
    var a := Do(w, Begin(h, now));
    RunStep(w, Begin(h, now), [Write(h), Commit(h)]);
    RunStep(a, Write(h), [Commit(h)]);
    RunStep(Do(a, Write(h)), Commit(h), []);
    assert [Begin(h, now)] + [Write(h), Commit(h)] == Finish(h, now);
    assert [Write(h)] + [Commit(h)] == [Write(h), Commit(h)];
    assert [Commit(h)] + [] == [Commit(h)];
  }

  lemma StillUnlocked(w: World, a: World, h: nat)
    requires h in w.handlers && !Locked(w, w.handlers[h].id) && h in a.handlers && !a.handlers[h].phase.Holding?
    requires forall g | g in a.handlers && g != h :: g in w.handlers && a.handlers[g] == w.handlers[g]
    ensures !Locked(a, w.handlers[h].id)
  {
    forall g | g in a.handlers && a.handlers[g].id == w.handlers[h].id ensures !a.handlers[g].phase.Holding? {
      assert g != h ==> !w.handlers[g].phase.Holding?;
    }
  }

  lemma FinishedWorld(w: World, b: World, h: nat)
    requires h in w.handlers && h in b.handlers && b.docs == w.docs && b.origins == w.origins && !Locked(w, w.handlers[h].id)
    requires b.handlers == w.handlers[h := w.handlers[h].(phase := b.handlers[h].phase)]
    requires b.handlers[h].phase.Holding? && b.handlers[h].job.Change? && Chain(w, b.handlers[h].id) != []
    ensures var r := b.handlers[h]; var x := Committed(b, h);
            && Chain(x, r.id) == Appended(Chain(w, r.id), Proposed(r, r.phase.at), r.phase.now)
            && History(x, r.id) == History(w, r.id) + [OriginOf(r)]
            && (forall g | g in w.handlers && g != h :: g in x.handlers && x.handlers[g] == w.handlers[g])
            && !Locked(x, r.id)
  {
    var x := Committed(b, h);
    forall g | g in x.handlers && x.handlers[g].id == w.handlers[h].id ensures !x.handlers[g].phase.Holding? {
      assert g != h ==> !w.handlers[g].phase.Holding?;
    }
  }

  /** One call of USE: the handler that serves it, what it asks for, and its clock readings. */
  datatype UseCall = UseCall(h: nat, reference: string, actor: string, at: Time, now: Time)

  function ReadOf(id: string, c: UseCall): Step {
    Read(c.h, id, Use(c.reference), c.actor)
  }

  /** Two callers use the same single-use instruction, each having read it before the other wrote. */
  function OverlappingUses(id: string, a: UseCall, b: UseCall): seq<Step> {
    [ReadOf(id, a), ReadOf(id, b), Authorize(a.h, true, a.at), Authorize(b.h, true, b.at)]
    + Finish(a.h, a.now) + Finish(b.h, b.now)
  }

  /** Two free handlers, and an instruction that is single-use, current and not being written. */
  predicate CanOverlap(w: World, id: string, a: UseCall, b: UseCall) {
    && a.h != b.h && a.h !in w.handlers && b.h !in w.handlers && !Locked(w, id)
    && id in w.docs && |w.docs[id]| > 0 && w.docs[id][|w.docs[id]| - 1].payload.status == SINGLE_USE
  }

  /**
   The version check compares the version re-read inside the transaction, not the one the handler
   read, so a stale handler commits: two overlapping USE calls both succeed on a single-use
   instruction, each under its own payment reference, from every world in which it is current and
   not being written, whatever other handlers are under way.
   */
  lemma OverlappingUsesBothCommit(w: World, id: string, a: UseCall, b: UseCall)
    requires ChainsOk(w) && CanOverlap(w, id, a, b)
    ensures var n := |w.docs[id]|; var c := Chain(Run(w, OverlappingUses(id, a, b)), id);
            && |c| == n + 2
            && c[n].payload.status == c[n + 1].payload.status == USED
            && c[n].payload.events == c[n - 1].payload.events + [Entry(USE, a.actor, a.reference)]
            && c[n + 1].payload.events == c[n - 1].payload.events + [Entry(USE, b.actor, b.reference)]
            && c[n].payload.usageCount == c[n + 1].payload.usageCount == 1
  {
    var chain := w.docs[id];
    assert ChainOk(id, chain, w.origins[id]);
    SnapshotCoherent(id, chain, w.origins[id], |chain| - 1);
    OverlappingChain(w, id, a, b);
    TwoUses(chain, a, b);
  }

  lemma TwoUses(chain: seq<Doc>, a: UseCall, b: UseCall)
    requires |chain| > 0 && chain[|chain| - 1].payload.status == SINGLE_USE && Coherent(chain[|chain| - 1].payload)
    ensures var n := |chain|; var current := chain[n - 1].payload;
            var c := Appended(Appended(chain, Prepared(current, Use(a.reference), a.actor, a.at), a.now),
                              Prepared(current, Use(b.reference), b.actor, b.at), b.now);
            && |c| == n + 2 && c[n - 1].payload == current
            && c[n].payload.status == c[n + 1].payload.status == USED
            && c[n].payload.events == current.events + [Entry(USE, a.actor, a.reference)]
            && c[n + 1].payload.events == current.events + [Entry(USE, b.actor, b.reference)]
            && c[n].payload.usageCount == c[n + 1].payload.usageCount == 1
  {
  }

  lemma OverlappingChain(w: World, id: string, a: UseCall, b: UseCall)
    requires CanOverlap(w, id, a, b)
    ensures var chain := w.docs[id]; var current := chain[|chain| - 1].payload;
            Chain(Run(w, OverlappingUses(id, a, b)), id)
            == Appended(Appended(chain, Prepared(current, Use(a.reference), a.actor, a.at), a.now),
                        Prepared(current, Use(b.reference), b.actor, b.at), b.now)
    ensures var n := |w.docs[id]|;
            History(Run(w, OverlappingUses(id, a, b)), id)
            == History(w, id) + [Changed(a.actor, Use(a.reference), a.at, n)]
                              + [Changed(b.actor, Use(b.reference), b.at, n)]
  {
    var x := Do(Do(Do(Do(w, ReadOf(id, a)), ReadOf(id, b)), Authorize(a.h, true, a.at)), Authorize(b.h, true, b.at));
    OverlappingRun(w, x, id, a, b);
    TwoReaders(w, id, a, b);
    FinishCommits(x, a.h, a.now);
    FinishCommits(Run(x, Finish(a.h, a.now)), b.h, b.now);
  }

  lemma OverlappingRun(w: World, x: World, id: string, a: UseCall, b: UseCall)
    requires x == Do(Do(Do(Do(w, ReadOf(id, a)), ReadOf(id, b)), Authorize(a.h, true, a.at)), Authorize(b.h, true, b.at))
    ensures Run(w, OverlappingUses(id, a, b)) == Run(Run(x, Finish(a.h, a.now)), Finish(b.h, b.now))
  {
    var prefix := [ReadOf(id, a), ReadOf(id, b), Authorize(a.h, true, a.at), Authorize(b.h, true, b.at)];
    ReadsAndDecisions(w, prefix[0], prefix[1], prefix[2], prefix[3]);
    RunConcat(x, Finish(a.h, a.now), Finish(b.h, b.now));
    RunConcat(w, prefix, Finish(a.h, a.now) + Finish(b.h, b.now));
    assert OverlappingUses(id, a, b) == prefix + (Finish(a.h, a.now) + Finish(b.h, b.now));
  }

  function Reader(w: World, id: string, c: UseCall): Handler
    requires id in w.docs && |w.docs[id]| > 0
  {
    var n := |w.docs[id]|;
    Handler(id, Change(Use(c.reference)), c.actor, n, w.docs[id][n - 1].payload, Ready(c.at))
  }

  lemma TwoReaders(w: World, id: string, a: UseCall, b: UseCall)
    requires CanOverlap(w, id, a, b)
    ensures var x := Do(Do(Do(Do(w, ReadOf(id, a)), ReadOf(id, b)), Authorize(a.h, true, a.at)), Authorize(b.h, true, b.at));
            && x.docs == w.docs && x.origins == w.origins
            && x.handlers == w.handlers[a.h := Reader(w, id, a)][b.h := Reader(w, id, b)]
            && !Locked(x, id)
  {
    var r := Do(Do(w, ReadOf(id, a)), ReadOf(id, b));
    assert r.docs == w.docs && r.origins == w.origins;
    var x := Do(Do(r, Authorize(a.h, true, a.at)), Authorize(b.h, true, b.at));
    assert x.handlers == w.handlers[a.h := Reader(w, id, a)][b.h := Reader(w, id, b)];
    forall g | g in x.handlers && x.handlers[g].id == id ensures !x.handlers[g].phase.Holding? {
      assert g != a.h && g != b.h ==> !w.handlers[g].phase.Holding?;
    }
  }

  lemma ReadsAndDecisions(w: World, s: Step, t: Step, u: Step, v: Step)
    ensures Run(w, [s, t, u, v]) == Do(Do(Do(Do(w, s), t), u), v)
  {
    RunStep(w, s, [t, u, v]);
    RunStep(Do(w, s), t, [u, v]);
    RunStep(Do(Do(w, s), t), u, [v]);
    RunStep(Do(Do(Do(w, s), t), u), v, []);
    assert [s] + [t, u, v] == [s, t, u, v] && [t] + [u, v] == [t, u, v] && [u] + [v] == [u, v] && [v] + [] == [v];
  }
}
