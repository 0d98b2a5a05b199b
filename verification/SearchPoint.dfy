/**
 The one search point an instruction has in the vector store. Facts overwrite it in
 place, keeping what an earlier fact knew about approval and rejection; approval events
 patch their authorization onto it. Both are read-modify-write steps without a pause in
 between, and both may be delivered in any order and repeatedly.
 */
module SearchPoint {
  import opened Wrappers
  import opened Text
  import opened Lifecycle
  import opened VersionChain

  /** A user reference in a snapshot; NOBODY stands for a missing one. */
  datatype UserRef = UserRef(userId: string, givenName: string, familyName: string)

  const NOBODY := UserRef("", "", "")

  function DisplayName(u: UserRef): string {
    if u.familyName != "" && u.givenName != "" then u.familyName + ", " + u.givenName + " (" + u.userId + ")"
    else u.userId
  }

  datatype PointFact = PointFact(action: Action, version: nat, status: Status,
                                 approvedBy: UserRef, approvedAt: Option<Time>,
                                 rejectedBy: UserRef, rejectedAt: Option<Time>, rejectionReason: string,
                                 summary: string, basis: seq<string>, searchText: string)

  datatype Point = Point(action: Action, version: nat, status: Status,
                         approverId: string, approverDisplay: string, approvedAt: Option<Time>,
                         rejectorId: string, rejectorDisplay: string, rejectedAt: Option<Time>, rejectionReason: string,
                         summary: string, basis: seq<string>, searchText: string)

  /** The payload a fact alone gives. */
  function Payload(f: PointFact): Point {
    Point(f.action, f.version, f.status,
          f.approvedBy.userId, DisplayName(f.approvedBy), f.approvedAt,
          f.rejectedBy.userId, DisplayName(f.rejectedBy), f.rejectedAt, f.rejectionReason,
          f.summary, f.basis, f.searchText)
  }

  /** The payload stored for a fact: gaps are filled from the point it replaces. */
  function Filled(existing: Option<Point>, f: PointFact): Point {
    var p := Payload(f);
    if existing.None? then p
    else
      var e := existing.value;
      var keepSummary := f.action != APPROVE && p.summary == "";
      var keepApprover := f.action != APPROVE && p.approverDisplay == "";
      var keepRejector := f.action != REJECT && p.rejectorDisplay == "";
      p.(summary := if keepSummary then e.summary else p.summary,
         basis := if keepSummary then e.basis else p.basis,
         approvedAt := if f.action != APPROVE && p.approvedAt.None? then e.approvedAt else p.approvedAt,
         approverDisplay := if keepApprover then e.approverDisplay else p.approverDisplay,
         approverId := if keepApprover then e.approverId else p.approverId,
         rejectorDisplay := if keepRejector then e.rejectorDisplay else p.rejectorDisplay,
         rejectorId := if keepRejector then e.rejectorId else p.rejectorId,
         rejectedAt := if f.action != REJECT && p.rejectedAt.None? then e.rejectedAt else p.rejectedAt,
         rejectionReason := if f.action != REJECT && p.rejectionReason == "" then e.rejectionReason
                            else p.rejectionReason)
  }

  /** The authorization of an approval, put on a point that exists; `extra` is what it adds to the text. */
  function Patched(existing: Option<Point>, approvedAt: Option<Time>, summary: string, basis: seq<string>,
                   extra: string): Option<Point> {
    if existing.None? || summary == "" then existing
    else
      var e := existing.value;
      Some(e.(approvedAt := if approvedAt.Some? then approvedAt else e.approvedAt,
              summary := summary, basis := basis,
              searchText := if extra == "" then e.searchText else Strip(e.searchText + " " + extra)))
  }

  datatype Delivery =
    | Fact(f: PointFact)
    | Authorization(approvedAt: Option<Time>, summary: string, basis: seq<string>, extra: string)

  function Deliver(p: Option<Point>, d: Delivery): Option<Point> {
    match d
    case Fact(f) => Some(Filled(p, f))
    case Authorization(at, summary, basis, extra) => Patched(p, at, summary, basis, extra)
  }

  function Delivered(p: Option<Point>, ds: seq<Delivery>): Option<Point>
    decreases |ds|
  {
    if ds == [] then p else Deliver(Delivered(p, ds[..|ds| - 1]), ds[|ds| - 1])
  }

  class QdrantHybridStore {
    var points: map<string, Point>

    constructor ()
      ensures points == map[]
    {
      points := map[];
    }

    function PointOf(id: string): Option<Point>
      reads this
    {
      if id in points then Some(points[id]) else None
    }

    /** process_instruction_fact, from the payload dictionary to the upsert. */
    method ProcessFact(id: string, f: PointFact)
      modifies this
      ensures PointOf(id) == Deliver(old(PointOf(id)), Fact(f))
      ensures forall i | i != id :: PointOf(i) == old(PointOf(i))
    {
      var payload := Payload(f);
      if id in points {
        var existing := points[id];
        if f.action != APPROVE {
          if payload.summary == "" {
            payload := payload.(summary := existing.summary);
            payload := payload.(basis := existing.basis);
          }
          if payload.approvedAt.None? {
            payload := payload.(approvedAt := existing.approvedAt);
          }
          if payload.approverDisplay == "" {
            payload := payload.(approverDisplay := existing.approverDisplay);
            payload := payload.(approverId := existing.approverId);
          }
        }
        if f.action != REJECT {
          if payload.rejectorDisplay == "" {
            payload := payload.(rejectorDisplay := existing.rejectorDisplay);
            payload := payload.(rejectorId := existing.rejectorId);
          }
          if payload.rejectedAt.None? {
            payload := payload.(rejectedAt := existing.rejectedAt);
          }
          if payload.rejectionReason == "" {
            payload := payload.(rejectionReason := existing.rejectionReason);
          }
        }
      }
      points := points[id := payload];
    }

    method PatchAuthorization(id: string, approvedAt: Option<Time>, summary: string, basis: seq<string>, extra: string)
      modifies this
      ensures PointOf(id) == Deliver(old(PointOf(id)), Authorization(approvedAt, summary, basis, extra))
      ensures forall i | i != id :: PointOf(i) == old(PointOf(i))
    {
      if summary == "" || id !in points {
        return;
      }
      var payload := points[id];
      if approvedAt.Some? {
        payload := payload.(approvedAt := approvedAt);
      }
      payload := payload.(summary := summary);
      payload := payload.(basis := basis);
      if extra != "" {
        payload := payload.(searchText := Strip(payload.searchText + " " + extra));
      }
      points := points[id := payload];
    }
  }

  // ---------------------------------------------------------------------------------------------
  // Approval and rejection are never lost
  // ---------------------------------------------------------------------------------------------

  /** Who approved and who rejected an instruction in its whole history; only one of the two happens. */
  datatype Verdict = Verdict(approver: UserRef, approvedAt: Time, rejector: UserRef, rejectedAt: Time, reason: string)

  predicate VerdictOk(v: Verdict) {
    v.approver.userId != "" && v.rejector.userId != "" && v.reason != ""
  }

  /** A fact of that history knows the verdict or, before it, nothing of it. */
  predicate Fits(f: PointFact, v: Verdict) {
    && (|| (f.approvedBy == v.approver && f.approvedAt == Some(v.approvedAt))
        || (f.approvedBy == NOBODY && f.approvedAt.None? && f.action != APPROVE))
    && (|| (f.rejectedBy == v.rejector && f.rejectedAt == Some(v.rejectedAt) && f.rejectionReason == v.reason)
        || (f.rejectedBy == NOBODY && f.rejectedAt.None? && f.rejectionReason == "" && f.action != REJECT))
  }

  predicate DeliveryFits(d: Delivery, v: Verdict) {
    match d
    case Fact(f) => Fits(f, v)
    case Authorization(at, _, _, _) => at.Some? ==> at.value == v.approvedAt
  }

  predicate KnowsApprover(p: Point, v: Verdict) {
    p.approverId == v.approver.userId && p.approverDisplay == DisplayName(v.approver)
  }

  predicate KnowsRejection(p: Point, v: Verdict) {
    && p.rejectorId == v.rejector.userId && p.rejectorDisplay == DisplayName(v.rejector)
    && p.rejectedAt == Some(v.rejectedAt) && p.rejectionReason == v.reason
  }

  /** The point knows the verdict or nothing, never a mixture. */
  predicate PointFits(p: Point, v: Verdict) {
    && (KnowsApprover(p, v) || (p.approverId == "" && p.approverDisplay == ""))
    && (p.approvedAt == Some(v.approvedAt) || p.approvedAt.None?)
    && (KnowsRejection(p, v)
        || (p.rejectorId == "" && p.rejectorDisplay == "" && p.rejectedAt.None? && p.rejectionReason == ""))
  }

  lemma DeliverKeeps(p: Option<Point>, d: Delivery, v: Verdict)
    requires VerdictOk(v) && DeliveryFits(d, v) && (p.Some? ==> PointFits(p.value, v))
    ensures var q := Deliver(p, d);
            q.Some? ==>
              && PointFits(q.value, v)
              && (p.Some? && KnowsApprover(p.value, v) ==> KnowsApprover(q.value, v))
              && (p.Some? && p.value.approvedAt.Some? ==> q.value.approvedAt == Some(v.approvedAt))
              && (p.Some? && KnowsRejection(p.value, v) ==> KnowsRejection(q.value, v))
              && (d.Fact? && d.f.action == APPROVE ==> KnowsApprover(q.value, v) && q.value.approvedAt == Some(v.approvedAt))
              && (d.Fact? && d.f.action == REJECT ==> KnowsRejection(q.value, v))
    ensures p.Some? || d.Fact? ==> Deliver(p, d).Some?
  {
    assert DisplayName(v.approver) != "" && DisplayName(v.rejector) != "";
  }

  predicate AllFit(ds: seq<Delivery>, v: Verdict) {
    forall i | 0 <= i < |ds| :: DeliveryFits(ds[i], v)
  }

  lemma {:induction false} DeliveredFits(ds: seq<Delivery>, v: Verdict)
    requires VerdictOk(v) && AllFit(ds, v)
    ensures Delivered(None, ds).Some? ==> PointFits(Delivered(None, ds).value, v)
    decreases |ds|
  {
    if ds != [] {
      DeliveredFits(ds[..|ds| - 1], v);
      DeliverKeeps(Delivered(None, ds[..|ds| - 1]), ds[|ds| - 1], v);
    }
  }

  /** Once the approver, the approval time or the rejection is on the point, it stays there, unchanged. */
  lemma {:induction false} VerdictStays(ds: seq<Delivery>, n: nat, v: Verdict)
    requires VerdictOk(v) && n <= |ds| && AllFit(ds, v)
    requires Delivered(None, ds[..n]).Some?
    ensures var p, q := Delivered(None, ds[..n]).value, Delivered(None, ds);
            && q.Some?
            && (p.approverDisplay != "" ==> KnowsApprover(q.value, v))
            && (p.approvedAt.Some? ==> q.value.approvedAt == Some(v.approvedAt))
            && (p.rejectorDisplay != "" ==> KnowsRejection(q.value, v))
    decreases |ds|
  {
    DeliveredFits(ds[..n], v);
    if n < |ds| {
      var before := ds[..|ds| - 1];
      assert before[..n] == ds[..n];
      VerdictStays(before, n, v);
      DeliveredFits(before, v);
      DeliverKeeps(Delivered(None, before), ds[|ds| - 1], v);
    } else {
      assert ds[..n] == ds;
    }
  }

  lemma VerdictSet(ds: seq<Delivery>, i: nat, v: Verdict)
    requires VerdictOk(v) && i < |ds| && AllFit(ds, v)
    requires ds[i].Fact?
    ensures var q := Delivered(None, ds[..i + 1]);
            && q.Some?
            && (ds[i].f.action == APPROVE ==> q.value.approverDisplay != "" && q.value.approvedAt.Some?)
            && (ds[i].f.action == REJECT ==> q.value.rejectorDisplay != "")
  {
    var before := ds[..i];
    assert ds[..i + 1][..i] == before;
    DeliveredFits(before, v);
    DeliverKeeps(Delivered(None, before), ds[i], v);
    assert DisplayName(v.approver) != "" && DisplayName(v.rejector) != "";
  }

  /**
   After the APPROVE fact was delivered at least once, whatever came before or after it, the point
   carries its approver and approval time; likewise the rejection after the REJECT fact.
   */
  lemma VerdictArrives(ds: seq<Delivery>, i: nat, v: Verdict)
    requires VerdictOk(v) && i < |ds| && AllFit(ds, v)
    requires ds[i].Fact?
    ensures var q := Delivered(None, ds);
            && q.Some?
            && (ds[i].f.action == APPROVE ==> KnowsApprover(q.value, v) && q.value.approvedAt == Some(v.approvedAt))
            && (ds[i].f.action == REJECT ==> KnowsRejection(q.value, v))
  {
    VerdictSet(ds, i, v);
    VerdictStays(ds, i + 1, v);
  }

  // ---------------------------------------------------------------------------------------------
  // What else the point shows: the last fact, and the last authorization
  // ---------------------------------------------------------------------------------------------

  /** Some fact comes before delivery i, so that there is a point. */
  predicate FactBefore(ds: seq<Delivery>, i: nat)
    requires i <= |ds|
  {
    exists j :: 0 <= j < i && ds[j].Fact?
  }

  lemma {:induction false} PointIsThere(ds: seq<Delivery>)
    ensures Delivered(None, ds).Some? <==> FactBefore(ds, |ds|)
    decreases |ds|
  {
    if ds != [] {
      var n := |ds| - 1;
      PointIsThere(ds[..n]);
      if j :| 0 <= j < n && ds[..n][j].Fact? { assert ds[j].Fact?; }
      if j :| 0 <= j < n && ds[j].Fact? { assert ds[..n][j].Fact?; }
    }
  }

  /** A text with no white space at either end. */
  predicate Dense(s: string) {
    s != "" && !IsSpace(s[0]) && !IsSpace(s[|s| - 1])
  }

  lemma DenseStays(a: string, b: string)
    requires Dense(a) && Dense(b)
    ensures Strip(a + " " + b) == a + " " + b && Dense(a + " " + b)
  {
  }

  /** The texts that the authorizations from n on add. */
  function Added(ds: seq<Delivery>, n: nat): string
    requires n <= |ds| && forall k | n <= k < |ds| :: ds[k].Authorization?
    decreases |ds|
  {
    if n == |ds| then ""
    else
      var last := ds[|ds| - 1];
      Added(ds[..|ds| - 1], n) + if last.summary != "" && last.extra != "" then " " + last.extra else ""
  }

  /** The point shows the last fact's action, version and status, and its text with what came after it. */
  lemma {:induction false} LastFactShows(ds: seq<Delivery>, n: nat)
    requires n < |ds| && ds[n].Fact? && Dense(ds[n].f.searchText)
    requires forall k | n < k < |ds| :: ds[k].Authorization? && (ds[k].extra == "" || Dense(ds[k].extra))
    ensures var q, f := Delivered(None, ds), ds[n].f;
            && q.Some? && q.value.action == f.action && q.value.version == f.version && q.value.status == f.status
            && q.value.searchText == f.searchText + Added(ds, n + 1) && Dense(q.value.searchText)
    decreases |ds|
  {
    var before := ds[..|ds| - 1];
    if n < |ds| - 1 {
      LastFactShows(before, n);
      var last := ds[|ds| - 1];
      if last.extra != "" {
        DenseStays(Delivered(None, before).value.searchText, last.extra);
      }
    }
  }

  /** Delivery i says something of the authorization: its summary, or that there is none. */
  predicate Speaks(ds: seq<Delivery>, i: nat)
    requires i < |ds|
  {
    match ds[i]
    case Fact(f) => f.action == APPROVE || f.summary != "" || !FactBefore(ds, i)
    case Authorization(_, summary, _, _) => summary != "" && FactBefore(ds, i)
  }

  predicate ShowsSummary(q: Point, d: Delivery) {
    match d
    case Fact(f) => q.summary == f.summary && q.basis == f.basis
    case Authorization(_, summary, basis, _) => q.summary == summary && q.basis == basis
  }

  lemma SpeakingSets(ds: seq<Delivery>, n: nat)
    requires n == |ds| - 1 && Speaks(ds, n)
    ensures Delivered(None, ds).Some? && ShowsSummary(Delivered(None, ds).value, ds[n])
  {
    PointIsThere(ds[..n]);
    BeforeIsPrefix(ds, n);
  }

  lemma SilentKeeps(ds: seq<Delivery>, n: nat, p: Option<Point>)
    requires n == |ds| - 1 && !Speaks(ds, n) && p == Delivered(None, ds[..n]) && p.Some?
    ensures var q := Delivered(None, ds);
            q.Some? && q.value.summary == p.value.summary && q.value.basis == p.value.basis
  {
    PointIsThere(ds[..n]);
    BeforeIsPrefix(ds, n);
  }

  /** The summary and its basis are always those of the same delivery: the last that speaks of them. */
  lemma {:induction false} SummaryIsTheLast(ds: seq<Delivery>, i: nat)
    requires i < |ds| && Speaks(ds, i) && forall k | i < k < |ds| :: !Speaks(ds, k)
    ensures Delivered(None, ds).Some? && ShowsSummary(Delivered(None, ds).value, ds[i])
    decreases |ds|
  {
    var n := |ds| - 1;
    if i < n {
      var before := ds[..n];
      forall k | i <= k < n ensures Speaks(before, k) <==> Speaks(ds, k) {
        BeforeIsPrefix(ds, k);
      }
      SummaryIsTheLast(before, i);
      SilentKeeps(ds, n, Delivered(None, before));
    } else {
      SpeakingSets(ds, n);
    }
  }

  lemma BeforeIsPrefix(ds: seq<Delivery>, k: nat)
    requires k < |ds|
    ensures FactBefore(ds[..|ds| - 1], k) <==> FactBefore(ds, k)
  {
    var before := ds[..|ds| - 1];
    if j :| 0 <= j < k && ds[j].Fact? { assert before[j].Fact?; }
    if j :| 0 <= j < k && before[j].Fact? { assert ds[j].Fact?; }
  }

  /** An authorization that reaches a point brings the approval time, for good. */
  lemma TimeArrives(ds: seq<Delivery>, i: nat, v: Verdict)
    requires VerdictOk(v) && i < |ds| && AllFit(ds, v) && FactBefore(ds, i)
    requires ds[i].Authorization? && ds[i].approvedAt.Some? && ds[i].summary != ""
    ensures Delivered(None, ds).Some? && Delivered(None, ds).value.approvedAt == Some(v.approvedAt)
  {
    var before := ds[..i];
    assert ds[..i + 1][..i] == before;
    BeforePrefix(ds, i);
    PointIsThere(before);
    VerdictStays(ds, i + 1, v);
  }

  lemma BeforePrefix(ds: seq<Delivery>, i: nat)
    requires i <= |ds| && FactBefore(ds, i)
    ensures FactBefore(ds[..i], i)
  {
    var j :| 0 <= j < i && ds[j].Fact?;
    assert ds[..i][j].Fact?;
  }

  /** A user is shown by name and id, or by id alone. */
  lemma NamesShown()
    ensures DisplayName(UserRef("u1", "Ann", "Lee")) == "Lee, Ann (u1)" && DisplayName(UserRef("u1", "", "Lee")) == "u1"
  {
  }

  // ---------------------------------------------------------------------------------------------
  // The facts of a history without stale writes fit one verdict
  // ---------------------------------------------------------------------------------------------

  /** The parts of a fact that come from its authorization and its search profile. */
  datatype Texts = Texts(summary: string, basis: seq<string>, searchText: string)

  /** The fact published for a version; `directory` knows the names of each user. */
  function FactOf(i: Instruction, action: Action, version: nat, directory: string -> UserRef, texts: Texts): PointFact {
    PointFact(action, version, i.status,
              if i.approvedBy.Some? then directory(i.approvedBy.value) else NOBODY, i.approvedAt,
              if i.rejectedBy.Some? then directory(i.rejectedBy.value) else NOBODY, i.rejectedAt,
              if i.rejectionReason.Some? then i.rejectionReason.value else "",
              texts.summary, texts.basis, texts.searchText)
  }

  /** In such a history every later version repeats the approval of an earlier one. */
  lemma {:induction false} ApprovalStays(id: string, chain: seq<Doc>, origins: seq<Origin>, j: nat, k: nat)
    requires ChainOk(id, chain, origins) && j <= k < |chain| && FreshUpTo(origins, k)
    requires chain[j].payload.approvedBy.Some?
    ensures chain[k].payload.approvedBy == chain[j].payload.approvedBy
    ensures chain[k].payload.approvedAt == chain[j].payload.approvedAt
    decreases k
  {
    if j < k {
      ApprovalStays(id, chain, origins, j, k - 1);
      assert Fresh(origins, k) && StepFromBase(chain, origins, k);
      SnapshotCoherent(id, chain, origins, k - 1);
      ApprovalIsFrozen(chain[k - 1].payload, origins[k].req, origins[k].actor, origins[k].at);
    }
  }

  /** All approved versions agree on the approval, and at most one version is rejected. */
  lemma VerdictIsOne(id: string, chain: seq<Doc>, origins: seq<Origin>, j: nat, k: nat)
    requires ChainOk(id, chain, origins) && j < |chain| && k < |chain| && FreshUpTo(origins, |chain| - 1)
    ensures chain[j].payload.approvedBy.Some? && chain[k].payload.approvedBy.Some? ==>
              && chain[j].payload.approvedBy == chain[k].payload.approvedBy
              && chain[j].payload.approvedAt == chain[k].payload.approvedAt
    ensures chain[j].payload.status == REJECTED && chain[k].payload.status == REJECTED ==> j == k
  {
    assert FreshUpTo(origins, j) && FreshUpTo(origins, k);
    var lo, hi := if j < k then j else k, if j < k then k else j;
    if chain[lo].payload.approvedBy.Some? {
      ApprovalStays(id, chain, origins, lo, hi);
    }
    if lo < hi && chain[lo].payload.status == REJECTED {
      assert Fresh(origins, lo + 1);
      FreshHistoryIsPath(id, chain, origins, lo + 1);
      assert false;
    }
  }

  /** What an accepted fact of a version says about approval and rejection. */
  lemma VersionShows(id: string, chain: seq<Doc>, origins: seq<Origin>, k: nat)
    requires ChainOk(id, chain, origins) && k < |chain|
    requires FactAccepted(chain[k].payload, OriginAction(origins[k]), k + 1)
    ensures var i := chain[k].payload;
            && (OriginAction(origins[k]) == APPROVE ==> i.approvedBy.Some?)
            && (OriginAction(origins[k]) == REJECT ==> i.status == REJECTED)
            && (i.approvedBy.Some? ==> HasUser(i.approvedBy) && i.approvedAt.Some?)
            && (i.status == REJECTED ==> HasUser(i.rejectedBy) && i.rejectedAt.Some? && HasText(i.rejectionReason))
            && (i.approvedBy.None? ==> i.approvedAt.None?)
            && (i.status != REJECTED ==> i.rejectedBy.None? && i.rejectedAt.None? && i.rejectionReason.None?)
  {
    SnapshotCoherent(id, chain, origins, k);
    if k > 0 {
      assert StepFromBase(chain, origins, k);
      SnapshotCoherent(id, chain, origins, origins[k].base - 1);
    }
  }

  /** The snapshot's approval and rejection, as far as they carry the names a fact needs, are the verdict's. */
  predicate Agrees(i: Instruction, v: Verdict, directory: string -> UserRef) {
    && (i.approvedBy.Some? ==> i.approvedAt == Some(v.approvedAt))
    && (HasUser(i.approvedBy) ==> directory(i.approvedBy.value) == v.approver)
    && (i.status == REJECTED && HasUser(i.rejectedBy) && HasText(i.rejectionReason) ==>
          && directory(i.rejectedBy.value) == v.rejector
          && i.rejectedAt == Some(v.rejectedAt) && i.rejectionReason == Some(v.reason))
  }

  lemma FactFits(id: string, chain: seq<Doc>, origins: seq<Origin>, k: nat, v: Verdict,
                 directory: string -> UserRef, texts: Texts)
    requires ChainOk(id, chain, origins) && k < |chain|
    requires FactAccepted(chain[k].payload, OriginAction(origins[k]), k + 1)
    requires Agrees(chain[k].payload, v, directory)
    ensures Fits(FactOf(chain[k].payload, OriginAction(origins[k]), k + 1, directory, texts), v)
  {
    VersionShows(id, chain, origins, k);
  }

  /** What the approved versions of a serial history make of the verdict. */
  lemma ApproverExists(id: string, chain: seq<Doc>, origins: seq<Origin>, directory: string -> UserRef)
    returns (approver: UserRef, at: Time)
    requires ChainOk(id, chain, origins) && FreshUpTo(origins, |chain| - 1)
    requires forall u :: directory(u).userId == u
    ensures approver.userId != ""
    ensures forall k | 0 <= k < |chain| && chain[k].payload.approvedBy.Some? ::
              && chain[k].payload.approvedAt == Some(at)
              && (HasUser(chain[k].payload.approvedBy) ==> directory(chain[k].payload.approvedBy.value) == approver)
  {
    approver, at := UserRef("x", "", ""), 0;
    if j :| 0 <= j < |chain| && chain[j].payload.approvedBy.Some? {
      SnapshotCoherent(id, chain, origins, j);
      at := chain[j].payload.approvedAt.value;
      if HasUser(chain[j].payload.approvedBy) { approver := directory(chain[j].payload.approvedBy.value); }
      forall k | 0 <= k < |chain| { VerdictIsOne(id, chain, origins, j, k); }
    }
  }

  /** And its rejected version, of which there is at most one. */
  lemma RejectorExists(id: string, chain: seq<Doc>, origins: seq<Origin>, directory: string -> UserRef)
    returns (rejector: UserRef, at: Time, reason: string)
    requires ChainOk(id, chain, origins) && FreshUpTo(origins, |chain| - 1)
    requires forall u :: directory(u).userId == u
    ensures rejector.userId != "" && reason != ""
    ensures forall k | 0 <= k < |chain| && chain[k].payload.status == REJECTED
              && HasUser(chain[k].payload.rejectedBy) && HasText(chain[k].payload.rejectionReason) ::
              && directory(chain[k].payload.rejectedBy.value) == rejector
              && chain[k].payload.rejectedAt == Some(at) && chain[k].payload.rejectionReason == Some(reason)
  {
    rejector, at, reason := UserRef("x", "", ""), 0, "x";
    if j :| 0 <= j < |chain| && chain[j].payload.status == REJECTED
            && HasUser(chain[j].payload.rejectedBy) && HasText(chain[j].payload.rejectionReason) {
      SnapshotCoherent(id, chain, origins, j);
      rejector, at := directory(chain[j].payload.rejectedBy.value), chain[j].payload.rejectedAt.value;
      reason := chain[j].payload.rejectionReason.value;
      forall k | 0 <= k < |chain| { VerdictIsOne(id, chain, origins, j, k); }
    }
  }

  lemma VerdictExists(id: string, chain: seq<Doc>, origins: seq<Origin>, directory: string -> UserRef)
    returns (v: Verdict)
    requires ChainOk(id, chain, origins) && FreshUpTo(origins, |chain| - 1)
    requires forall u :: directory(u).userId == u
    ensures VerdictOk(v) && forall k | 0 <= k < |chain| :: Agrees(chain[k].payload, v, directory)
  {
    var approver, approvedAt := ApproverExists(id, chain, origins, directory);
    var rejector, rejectedAt, reason := RejectorExists(id, chain, origins, directory);
    v := Verdict(approver, approvedAt, rejector, rejectedAt, reason);
  }

  // ---------------------------------------------------------------------------------------------
  // Deliveries drawn from one serial history
  // ---------------------------------------------------------------------------------------------

  /** f is the fact published for version k+1: the validator accepted its snapshot. */
  predicate PublishedFor(f: PointFact, chain: seq<Doc>, origins: seq<Origin>, directory: string -> UserRef, k: nat) {
    && k < |chain| && k < |origins|
    && FactAccepted(chain[k].payload, OriginAction(origins[k]), k + 1)
    && f == FactOf(chain[k].payload, OriginAction(origins[k]), k + 1, directory, Texts(f.summary, f.basis, f.searchText))
  }

  /** The event of an approval that went through: what it patches is the approval time of its snapshot. */
  predicate PatchFor(at: Option<Time>, chain: seq<Doc>, origins: seq<Origin>, k: nat) {
    k < |chain| && k < |origins| && OriginAction(origins[k]) == APPROVE && at == chain[k].payload.approvedAt
  }

  /**
   A fact published for a version, or the patch of an approval event. The event of a denied approval
   patches too: its snapshot is still pending, so it brings a summary but no approval time.
   */
  ghost predicate FromHistory(d: Delivery, chain: seq<Doc>, origins: seq<Origin>, directory: string -> UserRef) {
    match d
    case Fact(f) => exists k: nat :: PublishedFor(f, chain, origins, directory, k)
    case Authorization(at, _, _, _) => at.None? || exists k: nat :: PatchFor(at, chain, origins, k)
  }

  /** The snapshot in the event of a denied approval, read under the handler's status check, has no approval time. */
  lemma DeniedBringsNoTime(id: string, chain: seq<Doc>, origins: seq<Origin>, k: nat)
    requires ChainOk(id, chain, origins) && k < |chain| && Guard(chain[k].payload.status, Approve)
    ensures chain[k].payload.approvedAt.None?
  {
    SnapshotCoherent(id, chain, origins, k);
  }

  ghost predicate SerialHistory(id: string, chain: seq<Doc>, origins: seq<Origin>, directory: string -> UserRef) {
    ChainOk(id, chain, origins) && FreshUpTo(origins, |chain| - 1) && forall u :: directory(u).userId == u
  }

  /** Whatever is delivered of a serial history fits one verdict. */
  lemma FreshFactsFit(id: string, chain: seq<Doc>, origins: seq<Origin>, directory: string -> UserRef, ds: seq<Delivery>)
    returns (v: Verdict)
    requires SerialHistory(id, chain, origins, directory)
    requires forall i | 0 <= i < |ds| :: FromHistory(ds[i], chain, origins, directory)
    ensures VerdictOk(v) && AllFit(ds, v)
    ensures forall k | 0 <= k < |chain| :: Agrees(chain[k].payload, v, directory)
  {
    v := VerdictExists(id, chain, origins, directory);
    forall i | 0 <= i < |ds| ensures DeliveryFits(ds[i], v) {
      DeliveredFit(id, chain, origins, directory, ds[i], v);
    }
  }

  lemma DeliveredFit(id: string, chain: seq<Doc>, origins: seq<Origin>, directory: string -> UserRef, d: Delivery,
                     v: Verdict)
    requires ChainOk(id, chain, origins) && FromHistory(d, chain, origins, directory)
    requires forall k | 0 <= k < |chain| :: Agrees(chain[k].payload, v, directory)
    ensures DeliveryFits(d, v)
  {
    match d
    case Fact(f) =>
      var k: nat :| PublishedFor(f, chain, origins, directory, k);
      FactFits(id, chain, origins, k, v, directory, Texts(f.summary, f.basis, f.searchText));
    case Authorization(at, _, _, _) =>
      if at.Some? {
        var k: nat :| PatchFor(at, chain, origins, k);
        SnapshotCoherent(id, chain, origins, k);
        assert Agrees(chain[k].payload, v, directory);
      }
  }

  /**
   For any order and repetition of a serial history's facts, mixed with the patches of its approval
   events, denied ones included: once the point shows an approver, an approval time or a rejection, it
   shows the same one at every later time.
   */
  lemma VerdictIsKept(id: string, chain: seq<Doc>, origins: seq<Origin>, directory: string -> UserRef,
                      ds: seq<Delivery>, n: nat)
    requires SerialHistory(id, chain, origins, directory)
    requires forall i | 0 <= i < |ds| :: FromHistory(ds[i], chain, origins, directory)
    requires n <= |ds| && Delivered(None, ds[..n]).Some?
    ensures Delivered(None, ds).Some?
    ensures var p, q := Delivered(None, ds[..n]).value, Delivered(None, ds).value;
            && (p.approverDisplay != "" ==> q.approverId == p.approverId && q.approverDisplay == p.approverDisplay)
            && (p.approvedAt.Some? ==> q.approvedAt == p.approvedAt)
            && (p.rejectorDisplay != "" ==>
                  && q.rejectorId == p.rejectorId && q.rejectorDisplay == p.rejectorDisplay
                  && q.rejectedAt == p.rejectedAt && q.rejectionReason == p.rejectionReason)
  {
    var v := FreshFactsFit(id, chain, origins, directory, ds);
    DeliveredFits(ds[..n], v);
    VerdictStays(ds, n, v);
  }

  /**
   Once the fact of the version that approved has been delivered, whatever came before or after it, the
   point ends with that version's approver and approval time; likewise for the one that rejected.
   */
  lemma VerdictIsShown(id: string, chain: seq<Doc>, origins: seq<Origin>, directory: string -> UserRef,
                       ds: seq<Delivery>, i: nat, k: nat)
    requires SerialHistory(id, chain, origins, directory)
    requires forall j | 0 <= j < |ds| :: FromHistory(ds[j], chain, origins, directory)
    requires i < |ds| && ds[i].Fact? && PublishedFor(ds[i].f, chain, origins, directory, k)
    ensures Delivered(None, ds).Some?
    ensures var q, s := Delivered(None, ds).value, chain[k].payload;
            && (OriginAction(origins[k]) == APPROVE ==>
                  && Some(q.approverId) == s.approvedBy && q.approvedAt == s.approvedAt
                  && q.approverDisplay == DisplayName(directory(q.approverId)))
            && (OriginAction(origins[k]) == REJECT ==>
                  && Some(q.rejectorId) == s.rejectedBy && q.rejectedAt == s.rejectedAt
                  && q.rejectorDisplay == DisplayName(directory(q.rejectorId))
                  && Some(q.rejectionReason) == s.rejectionReason)
  {
    var v := FreshFactsFit(id, chain, origins, directory, ds);
    VersionShows(id, chain, origins, k);
    assert Agrees(chain[k].payload, v, directory);
    VerdictArrives(ds, i, v);
  }
}
