/**
 The recent-events list: notable events first claim the slots, informational events fill what is left.

 `time` stands for the parsed timestamp, an empty event id for a missing one.
 */
module RecentEvents {
  import opened Sorting

  datatype Doc = Doc(eventId: string, time: real, body: string)

  function Time(d: Doc): real { d.time }

  predicate HasId(s: seq<Doc>, id: string) {
    exists i :: 0 <= i < |s| && s[i].eventId == id
  }

  /** The values of the dictionary by event id: the first document of every id, in order. */
  function FirstById(docs: seq<Doc>): seq<Doc> {
    if docs == [] then []
    else
      var r, d := FirstById(docs[..|docs| - 1]), docs[|docs| - 1];
      if d.eventId != "" && !HasId(r, d.eventId) then r + [d] else r
  }

  /** The documents that have an id, but none of the notable ones. */
  function Candidates(info: seq<Doc>, notable: seq<Doc>): seq<Doc> {
    if info == [] then []
    else
      var d := info[|info| - 1];
      Candidates(info[..|info| - 1], notable) + if d.eventId != "" && !HasId(notable, d.eventId) then [d] else []
  }

  function Min(a: nat, b: nat): nat { if a <= b then a else b }

  function Top(s: seq<Doc>, n: nat): seq<Doc> {
    Ordered(s)[..Min(n, |Ordered(s)|)]
  }

  function Merged(notableDocs: seq<Doc>, infoDocs: seq<Doc>, limit: nat): seq<Doc> {
    Selected(FirstById(notableDocs), Candidates(infoDocs, FirstById(notableDocs)), limit)
  }

  function Selected(byId: seq<Doc>, candidates: seq<Doc>, limit: nat): seq<Doc> {
    var notable := Top(byId, limit);
    if limit <= |notable| then notable else Ordered(notable + Top(candidates, limit - |notable|))
  }

  function Ordered(s: seq<Doc>): seq<Doc> {
    SortDesc(s, Time)
  }

  method MergeRecentDocuments(notableDocs: seq<Doc>, infoDocs: seq<Doc>, limit: nat) returns (merged: seq<Doc>)
    ensures merged == Merged(notableDocs, infoDocs, limit)
  {
    var byId: seq<Doc> := [];
    for i := 0 to |notableDocs|
      invariant byId == FirstById(notableDocs[..i])
    {
      assert notableDocs[..i + 1][..i] == notableDocs[..i];
      var doc := notableDocs[i];
      if doc.eventId != "" && !HasId(byId, doc.eventId) {
        byId := byId + [doc];
      }
    }
    assert notableDocs[..|notableDocs|] == notableDocs;
    var notable := Top(byId, limit);
    var infoSlots := if limit > |notable| then limit - |notable| else 0;
    if infoSlots == 0 {
      return notable;
    }
    var candidates := Candidates(infoDocs, byId);
    return Ordered(notable + Top(candidates, infoSlots));
  }

  // ---------------------------------------------------------------------------------------------
  // What the two selections are
  // ---------------------------------------------------------------------------------------------

  /** Number i is the first document with its id, and has one. */
  predicate IsFirst(docs: seq<Doc>, i: nat) {
    i < |docs| && docs[i].eventId != "" && forall j | 0 <= j < i :: docs[j].eventId != docs[i].eventId
  }

  predicate DistinctIds(s: seq<Doc>) {
    forall i, j | 0 <= i < j < |s| :: s[i].eventId != s[j].eventId
  }

  lemma {:induction false} FirstByIdHas(docs: seq<Doc>, id: string)
    ensures HasId(FirstById(docs), id) <==> id != "" && HasId(docs, id)
    decreases |docs|
  {
    if docs != [] {
      var n := |docs| - 1;
      FirstByIdHas(docs[..n], id);
      AppendedId(docs[..n], docs[n], id);
      AppendedId(FirstById(docs[..n]), docs[n], id);
      assert docs[..n] + [docs[n]] == docs;
    }
  }

  lemma AppendedId(s: seq<Doc>, d: Doc, id: string)
    ensures HasId(s + [d], id) <==> HasId(s, id) || d.eventId == id
  {
    if HasId(s, id) {
      var i :| 0 <= i < |s| && s[i].eventId == id;
      assert (s + [d])[i].eventId == id;
    }
    assert (s + [d])[|s|] == d;
  }

  ghost predicate FirstOfItsId(docs: seq<Doc>, d: Doc) {
    exists i: nat :: IsFirst(docs, i) && docs[i] == d
  }

  lemma FirstsAppend(docs: seq<Doc>, d: Doc, x: Doc)
    ensures FirstOfItsId(docs + [d], x)
       <==> FirstOfItsId(docs, x) || (x == d && d.eventId != "" && !HasId(docs, d.eventId))
  {
    var all := docs + [d];
    assert all[|docs|] == d && forall i | 0 <= i < |docs| :: all[i] == docs[i];
    if FirstOfItsId(docs, x) {
      var i: nat :| IsFirst(docs, i) && docs[i] == x;
      assert IsFirst(all, i) && all[i] == x;
    } else if x == d && d.eventId != "" && !HasId(docs, d.eventId) {
      assert IsFirst(all, |docs|);
    }
    if FirstOfItsId(all, x) {
      var i: nat :| IsFirst(all, i) && all[i] == x;
      assert i < |docs| ==> IsFirst(docs, i);
    }
  }

  /** Each id is represented once, by the first document that has it. */
  lemma {:induction false} FirstByIdExact(docs: seq<Doc>)
    ensures DistinctIds(FirstById(docs))
    ensures forall d :: d in FirstById(docs) <==> FirstOfItsId(docs, d)
    decreases |docs|
  {
    if docs != [] {
      var n := |docs| - 1;
      FirstByIdExact(docs[..n]);
      FirstByIdHas(docs[..n], docs[n].eventId);
      assert docs[..n] + [docs[n]] == docs;
      forall d ensures d in FirstById(docs) <==> FirstOfItsId(docs, d) {
        FirstsAppend(docs[..n], docs[n], d);
      }
    }
  }

  lemma {:induction false} CandidatesExact(info: seq<Doc>, notable: seq<Doc>, d: Doc)
    ensures multiset(Candidates(info, notable))[d]
         == if d.eventId != "" && !HasId(notable, d.eventId) then multiset(info)[d] else 0
    decreases |info|
  {
    if info != [] {
      var n := |info| - 1;
      CandidatesExact(info[..n], notable, d);
      assert info == info[..n] + [info[n]];
    }
  }

  // ---------------------------------------------------------------------------------------------
  // Selection
  // ---------------------------------------------------------------------------------------------

  /** `kept` are as many of s as fit into n, and none of the others is more recent than any of them. */
  predicate MostRecent(kept: seq<Doc>, dropped: seq<Doc>, s: seq<Doc>, n: nat) {
    && multiset(kept) + multiset(dropped) == multiset(s)
    && |kept| == Min(n, |s|)
    && forall k, d | k in kept && d in dropped :: k.time >= d.time
  }

  lemma OrderedSorts(s: seq<Doc>)
    ensures Descending(Ordered(s), Time) && multiset(Ordered(s)) == multiset(s) && |Ordered(s)| == |s|
  {
    SortDescSorts(s, Time);
  }

  lemma PrefixIsMostRecent(sorted: seq<Doc>, n: nat)
    requires n <= |sorted| && Descending(sorted, Time)
    ensures Descending(sorted[..n], Time)
    ensures forall k, d | k in sorted[..n] && d in sorted[n..] :: k.time >= d.time
  {
    forall k, d | k in sorted[..n] && d in sorted[n..] ensures k.time >= d.time {
      var i :| 0 <= i < n && sorted[i] == k;
      var j :| n <= j < |sorted| && sorted[j] == d;
      assert Time(sorted[i]) >= Time(sorted[j]);
    }
  }

  lemma TopIsMostRecent(s: seq<Doc>, n: nat) returns (dropped: seq<Doc>)
    ensures MostRecent(Top(s, n), dropped, s, n) && Descending(Top(s, n), Time)
  {
    OrderedSorts(s);
    var sorted, m := Ordered(s), Min(n, |s|);
    dropped := sorted[m..];
    assert sorted == sorted[..m] + dropped;
    PrefixIsMostRecent(sorted, m);
  }

  lemma CountOfSum(a: seq<Doc>, b: seq<Doc>, s: seq<Doc>)
    requires multiset(a) + multiset(b) == multiset(s)
    ensures |a| + |b| == |s|
  {
    assert |multiset(a) + multiset(b)| == |multiset(s)|;
  }

  /** Newest first, and made of the most recent notable documents, then of the most recent candidates. */
  predicate IsSelection(merged: seq<Doc>, notable: seq<Doc>, noDropped: seq<Doc>, info: seq<Doc>, infoDropped: seq<Doc>,
                        byId: seq<Doc>, candidates: seq<Doc>, limit: nat) {
    && Descending(merged, Time)
    && multiset(merged) == multiset(notable) + multiset(info)
    && |merged| == Min(limit, |byId| + |candidates|)
    && MostRecent(notable, noDropped, byId, limit)
    && |notable| <= limit && MostRecent(info, infoDropped, candidates, limit - |notable|)
  }

  lemma SelectedRefines(byId: seq<Doc>, candidates: seq<Doc>, limit: nat)
      returns (notable: seq<Doc>, noDropped: seq<Doc>, info: seq<Doc>, infoDropped: seq<Doc>)
    ensures IsSelection(Selected(byId, candidates, limit), notable, noDropped, info, infoDropped, byId, candidates, limit)
  {
    notable := Top(byId, limit);
    noDropped := TopIsMostRecent(byId, limit);
    info := Top(candidates, limit - |notable|);
    infoDropped := TopIsMostRecent(candidates, limit - |notable|);
    Assembled(notable, info, limit);
  }

  /**
   For all inputs the result is newest first and consists of the most recent notable documents the
   limit allows and, only in slots no notable document needs, of the most recent candidates.
   */
  lemma MergeRefines(notableDocs: seq<Doc>, infoDocs: seq<Doc>, limit: nat)
      returns (notable: seq<Doc>, noDropped: seq<Doc>, info: seq<Doc>, infoDropped: seq<Doc>)
    ensures IsSelection(Merged(notableDocs, infoDocs, limit), notable, noDropped, info, infoDropped,
                        FirstById(notableDocs), Candidates(infoDocs, FirstById(notableDocs)), limit)
  {
    notable, noDropped, info, infoDropped :=
      SelectedRefines(FirstById(notableDocs), Candidates(infoDocs, FirstById(notableDocs)), limit);
  }

  lemma Assembled(notable: seq<Doc>, info: seq<Doc>, limit: nat)
    requires Descending(notable, Time) && (limit <= |notable| ==> info == [])
    ensures var merged := if limit <= |notable| then notable else Ordered(notable + info);
            && Descending(merged, Time) && |merged| == |notable| + |info|
            && multiset(merged) == multiset(notable) + multiset(info)
  {
    OrderedSorts(notable + info);
  }

  /** A notable document is left out only when the whole list is notable and at least as recent. */
  lemma NotableDroppedOnlyForNotable(notableDocs: seq<Doc>, infoDocs: seq<Doc>, limit: nat, d: Doc)
    requires d in FirstById(notableDocs) && d !in Merged(notableDocs, infoDocs, limit)
    ensures var merged := Merged(notableDocs, infoDocs, limit);
            |merged| == limit && forall k | k in merged :: k in FirstById(notableDocs) && k.time >= d.time
  {
    var notable, dropped, info, infoDropped := MergeRefines(notableDocs, infoDocs, limit);
    var byId, merged := FirstById(notableDocs), Merged(notableDocs, infoDocs, limit);
    assert multiset(byId)[d] > 0 && multiset(merged)[d] == 0;
    assert multiset(dropped)[d] > 0;
    assert d in dropped;
    CountOfSum(notable, dropped, byId);
    assert |notable| == limit && info == [];
    forall k | k in merged ensures k in byId && k.time >= d.time {
      assert multiset(merged)[k] > 0;
      assert multiset(notable)[k] > 0;
      assert k in notable && k in multiset(byId);
    }
  }
}
