/**
 Reciprocal rank fusion of ranked hit lists, over exact reals, and the merge that pins
 exact hits in front.
 */
module RankFusion {
  import opened Wrappers
  import opened Sorting

  const RRF_K: nat := 60

  /** The three forms of _hit_key; the text prefixes keep them apart. */
  datatype Key = EventKey(id: string) | InstructionKey(id: string) | RowKey(hash: int)

  datatype Hit = Hit(eventId: string, instructionId: string, hash: int, source: string, summary: string,
                     detail: Option<string>)

  datatype RankedHit = RankedHit(key: Key, eventId: string, instructionId: string, score: real,
                                 sources: set<string>, summary: string, detail: Option<string>)

  /** The dictionary of merged hits, with its insertion order. */
  datatype Combined = Combined(order: seq<Key>, entries: map<Key, RankedHit>)

  function KeyOf(h: Hit): Key {
    if h.eventId != "" then EventKey(h.eventId)
    else if h.instructionId != "" then InstructionKey(h.instructionId)
    else RowKey(h.hash)
  }

  function EffectiveK(k: Option<nat>): (r: nat)
    ensures r > 0
  {
    if k.Some? && k.value != 0 then k.value else RRF_K
  }

  function Share(k: nat, rank: nat): (r: real)
    requires k + rank > 0
    ensures r > 0.0
  {
    1.0 / (k + rank) as real
  }

  function Fresh(h: Hit): RankedHit {
    RankedHit(KeyOf(h), h.eventId, h.instructionId, 0.0, {}, h.summary, h.detail)
  }

  function Bumped(e: RankedHit, h: Hit, share: real): RankedHit {
    e.(score := e.score + share,
       sources := e.sources + {h.source},
       detail := if e.detail.None? then h.detail else e.detail,
       summary := if |h.summary| > |e.summary| then h.summary else e.summary)
  }

  function Add(c: Combined, h: Hit, rank: nat, k: nat): Combined
    requires k + rank > 0
  {
    var key := KeyOf(h);
    if key in c.entries then c.(entries := c.entries[key := Bumped(c.entries[key], h, Share(k, rank))])
    else Combined(c.order + [key], c.entries[key := Bumped(Fresh(h), h, Share(k, rank))])
  }

  function FusedList(c: Combined, hits: seq<Hit>, k: nat): Combined {
    if hits == [] then c else Add(FusedList(c, hits[..|hits| - 1], k), hits[|hits| - 1], |hits|, k)
  }

  function Fused(lists: seq<seq<Hit>>, k: nat): Combined {
    if lists == [] then Combined([], map[]) else FusedList(Fused(lists[..|lists| - 1], k), lists[|lists| - 1], k)
  }

  predicate OrderOk(c: Combined) {
    && (forall i, j | 0 <= i < j < |c.order| :: c.order[i] != c.order[j])
    && (forall key | key in c.entries :: key in c.order)
    && (forall i | 0 <= i < |c.order| :: c.order[i] in c.entries)
    && (forall key | key in c.entries :: c.entries[key].key == key)
  }

  function Values(c: Combined): seq<RankedHit>
    requires OrderOk(c)
  {
    seq(|c.order|, i requires 0 <= i < |c.order| => c.entries[c.order[i]])
  }

  function ScoreOf(r: RankedHit): real { r.score }

  method RrfMerge(lists: seq<seq<Hit>>, k: Option<nat>) returns (merged: seq<RankedHit>)
    ensures OrderOk(Fused(lists, EffectiveK(k)))
    ensures merged == SortDesc(Values(Fused(lists, EffectiveK(k))), ScoreOf)
  {
    var kk := EffectiveK(k);
    var combined := Combined([], map[]);
    for i := 0 to |lists|
      invariant combined == Fused(lists[..i], kk)
    {
      combined := MergeList(combined, lists[i], kk);
      assert lists[..i + 1][..i] == lists[..i];
    }
    assert lists[..|lists|] == lists;
    FusedOrder(lists, kk);
    merged := SortDesc(Values(combined), ScoreOf);
  }

  /** The inner loop: one list's hits, by rank. */
  method MergeList(start: Combined, hits: seq<Hit>, k: nat) returns (combined: Combined)
    ensures combined == FusedList(start, hits, k)
  {
    combined := start;
    for j := 0 to |hits|
      invariant combined == FusedList(start, hits[..j], k)
    {
      combined := MergeHit(combined, hits[j], j + 1, k);
      assert hits[..j + 1][..j] == hits[..j];
    }
    assert hits[..|hits|] == hits;
  }

  method MergeHit(start: Combined, hit: Hit, rank: nat, k: nat) returns (combined: Combined)
    requires k + rank > 0
    ensures combined == Add(start, hit, rank, k)
  {
    combined := start;
    var key := KeyOf(hit);
    if key !in combined.entries {
      combined := Combined(combined.order + [key], combined.entries[key := Fresh(hit)]);
    }
    var entry := combined.entries[key];
    entry := entry.(score := entry.score + Share(k, rank));
    entry := entry.(sources := entry.sources + {hit.source});
    if entry.detail.None? {
      entry := entry.(detail := hit.detail);
    }
    if |hit.summary| > |entry.summary| {
      entry := entry.(summary := hit.summary);
    }
    combined := combined.(entries := combined.entries[key := entry]);
  }

  lemma {:induction false} FusedListOrder(c: Combined, hits: seq<Hit>, k: nat)
    requires OrderOk(c)
    ensures OrderOk(FusedList(c, hits, k))
    decreases |hits|
  {
    if hits != [] {
      FusedListOrder(c, hits[..|hits| - 1], k);
    }
  }

  lemma {:induction false} FusedOrder(lists: seq<seq<Hit>>, k: nat)
    ensures OrderOk(Fused(lists, k))
    decreases |lists|
  {
    if lists != [] {
      FusedOrder(lists[..|lists| - 1], k);
      FusedListOrder(Fused(lists[..|lists| - 1], k), lists[|lists| - 1], k);
    }
  }

  // ---------------------------------------------------------------------------------------------
  // Scores
  // ---------------------------------------------------------------------------------------------

  /** Sum of 1/(k+rank) over the occurrences of the key in one list. */
  function ListScore(hits: seq<Hit>, key: Key, k: nat): real {
    if hits == [] then 0.0
    else ListScore(hits[..|hits| - 1], key, k) + if KeyOf(hits[|hits| - 1]) == key then Share(k, |hits|) else 0.0
  }

  /** The same over all lists. */
  function Score(lists: seq<seq<Hit>>, key: Key, k: nat): real {
    if lists == [] then 0.0
    else Score(lists[..|lists| - 1], key, k) + ListScore(lists[|lists| - 1], key, k)
  }

  function Held(c: Combined, key: Key): real {
    if key in c.entries then c.entries[key].score else 0.0
  }

  lemma {:induction false} FusedListScore(c: Combined, hits: seq<Hit>, key: Key, k: nat)
    ensures Held(FusedList(c, hits, k), key) == Held(c, key) + ListScore(hits, key, k)
    decreases |hits|
  {
    if hits != [] {
      FusedListScore(c, hits[..|hits| - 1], key, k);
    }
  }

  /** The score the loop accumulates for a key is the sum over its occurrences. */
  lemma {:induction false} FusedScore(lists: seq<seq<Hit>>, key: Key, k: nat)
    ensures Held(Fused(lists, k), key) == Score(lists, key, k)
    decreases |lists|
  {
    if lists != [] {
      FusedScore(lists[..|lists| - 1], key, k);
      FusedListScore(Fused(lists[..|lists| - 1], k), lists[|lists| - 1], key, k);
    }
  }

  function SumOver(keys: seq<Key>, c: Combined): real {
    if keys == [] then 0.0 else SumOver(keys[..|keys| - 1], c) + Held(c, keys[|keys| - 1])
  }

  lemma {:induction false} SumAfterBump(keys: seq<Key>, c: Combined, d: Combined, key: Key, share: real)
    requires forall i, j | 0 <= i < j < |keys| :: keys[i] != keys[j]
    requires forall x | x != key :: Held(d, x) == Held(c, x)
    requires Held(d, key) == Held(c, key) + share
    ensures SumOver(keys, d) == SumOver(keys, c) + if key in keys then share else 0.0
    decreases |keys|
  {
    if keys != [] {
      var init := keys[..|keys| - 1];
      SumAfterBump(init, c, d, key, share);
      assert key in keys <==> key in init || key == keys[|keys| - 1];
      if keys[|keys| - 1] == key {
        assert key !in init;
      }
    }
  }

  function ListTotal(n: nat, k: nat): real {
    if n == 0 then 0.0 else ListTotal(n - 1, k) + Share(k, n)
  }

  function Total(lists: seq<seq<Hit>>, k: nat): real {
    if lists == [] then 0.0 else Total(lists[..|lists| - 1], k) + ListTotal(|lists[|lists| - 1]|, k)
  }

  lemma AddConserves(c: Combined, h: Hit, rank: nat, k: nat)
    requires OrderOk(c) && k + rank > 0
    ensures SumOver(Add(c, h, rank, k).order, Add(c, h, rank, k)) == SumOver(c.order, c) + Share(k, rank)
  {
    var key := KeyOf(h);
    var d := Add(c, h, rank, k);
    SumAfterBump(c.order, c, d, key, Share(k, rank));
    if key !in c.entries {
      assert d.order[..|c.order|] == c.order;
    }
  }

  lemma {:induction false} FusedListConserves(c: Combined, hits: seq<Hit>, k: nat)
    requires OrderOk(c)
    ensures var d := FusedList(c, hits, k); SumOver(d.order, d) == SumOver(c.order, c) + ListTotal(|hits|, k)
    decreases |hits|
  {
    if hits != [] {
      var init := hits[..|hits| - 1];
      FusedListConserves(c, init, k);
      FusedListOrder(c, init, k);
      AddConserves(FusedList(c, init, k), hits[|hits| - 1], |hits|, k);
    }
  }

  /** Nothing is lost or counted twice: the scores add up to 1/(k+rank) over all hits. */
  lemma {:induction false} FusedConserves(lists: seq<seq<Hit>>, k: nat)
    ensures SumOver(Fused(lists, k).order, Fused(lists, k)) == Total(lists, k)
    decreases |lists|
  {
    if lists != [] {
      var init := lists[..|lists| - 1];
      FusedConserves(init, k);
      FusedOrder(init, k);
      FusedListConserves(Fused(init, k), lists[|lists| - 1], k);
    }
  }

  lemma {:induction false} ScoreWithout(lists: seq<seq<Hit>>, i: nat, key: Key, k: nat)
    requires i < |lists|
    ensures Score(lists, key, k) == Score(lists[..i] + lists[i + 1..], key, k) + ListScore(lists[i], key, k)
    decreases |lists|
  {
    var n := |lists| - 1;
    if i == n {
      assert lists[..i] + lists[i + 1..] == lists[..n];
    } else {
      var rest := lists[..i] + lists[i + 1..];
      ScoreWithout(lists[..n], i, key, k);
      assert rest[..|rest| - 1] == lists[..n][..i] + lists[..n][i + 1..];
      assert rest[|rest| - 1] == lists[n];
    }
  }

  lemma RemoveAt<T>(s: seq<T>, i: nat)
    requires i < |s|
    ensures multiset(s[..i] + s[i + 1..]) == multiset(s) - multiset{s[i]}
  {
    assert s == s[..i] + [s[i]] + s[i + 1..];
  }

  lemma SameWithoutLast<T>(a: seq<T>, b: seq<T>) returns (i: nat)
    requires multiset(a) == multiset(b) && a != []
    ensures i < |b| && b[i] == a[|a| - 1] && multiset(a[..|a| - 1]) == multiset(b[..i] + b[i + 1..])
  {
    var n := |a| - 1;
    assert a[n] in multiset(b);
    i :| 0 <= i < |b| && b[i] == a[n];
    RemoveAt(a, n);
    RemoveAt(b, i);
    assert a[..n] + a[n + 1..] == a[..n];
  }

  /** Scores do not depend on the order of the lists. */
  lemma {:induction false} ScoreOrderFree(a: seq<seq<Hit>>, b: seq<seq<Hit>>, key: Key, k: nat)
    requires multiset(a) == multiset(b)
    ensures Score(a, key, k) == Score(b, key, k)
    decreases |a|
  {
    if a == [] {
      assert |multiset(a)| == |a| && |multiset(b)| == |b|;
    } else {
      var n := |a| - 1;
      var i := SameWithoutLast(a, b);
      ScoreOrderFree(a[..n], b[..i] + b[i + 1..], key, k);
      ScoreWithout(b, i, key, k);
    }
  }

  // ---------------------------------------------------------------------------------------------
  // Dominance
  // ---------------------------------------------------------------------------------------------

  predicate Occurs(hits: seq<Hit>, key: Key) {
    exists i :: 0 <= i < |hits| && KeyOf(hits[i]) == key
  }

  predicate OccursOnce(hits: seq<Hit>, key: Key) {
    forall i, j | 0 <= i < j < |hits| :: KeyOf(hits[i]) == key ==> KeyOf(hits[j]) != key
  }

  /** Wherever b is ranked in the list, a is ranked at least as high. */
  predicate NoWorse(hits: seq<Hit>, a: Key, b: Key) {
    forall j | 0 <= j < |hits| && KeyOf(hits[j]) == b :: exists i :: 0 <= i <= j && KeyOf(hits[i]) == a
  }

  lemma {:induction false} AbsentScoresZero(hits: seq<Hit>, key: Key, k: nat)
    requires !Occurs(hits, key)
    ensures ListScore(hits, key, k) == 0.0
    decreases |hits|
  {
    if hits != [] {
      assert KeyOf(hits[|hits| - 1]) != key;
      AbsentScoresZero(hits[..|hits| - 1], key, k);
    }
  }

  lemma {:induction false} OnceScoresShare(hits: seq<Hit>, i: nat, key: Key, k: nat)
    requires OccursOnce(hits, key) && i < |hits| && KeyOf(hits[i]) == key
    ensures ListScore(hits, key, k) == Share(k, i + 1)
    decreases |hits|
  {
    var init := hits[..|hits| - 1];
    if i == |hits| - 1 {
      AbsentScoresZero(init, key, k);
    } else {
      OnceScoresShare(init, i, key, k);
    }
  }

  lemma ShareFalls(k: nat, r: nat, s: nat)
    requires k + r > 0 && r < s
    ensures Share(k, r) > Share(k, s)
  {
    var x, y := (k + r) as real, (k + s) as real;
    assert 1.0 / x - 1.0 / y == (y - x) / (x * y);
  }

  /** A key ranked above another one. */
  lemma RankedAbove(hits: seq<Hit>, a: Key, b: Key, i: nat, j: nat, k: nat)
    requires OccursOnce(hits, a) && OccursOnce(hits, b) && i < j < |hits|
    requires KeyOf(hits[i]) == a && KeyOf(hits[j]) == b
    ensures ListScore(hits, a, k) > ListScore(hits, b, k)
  {
    OnceScoresShare(hits, i, a, k);
    OnceScoresShare(hits, j, b, k);
    ShareFalls(k, i + 1, j + 1);
  }

  lemma OnlyOneRanked(hits: seq<Hit>, a: Key, b: Key, i: nat, k: nat)
    requires OccursOnce(hits, a) && i < |hits| && KeyOf(hits[i]) == a && !Occurs(hits, b)
    ensures ListScore(hits, a, k) > ListScore(hits, b, k)
  {
    OnceScoresShare(hits, i, a, k);
    AbsentScoresZero(hits, b, k);
  }

  lemma ListDominance(hits: seq<Hit>, a: Key, b: Key, k: nat)
    requires a != b && OccursOnce(hits, a) && OccursOnce(hits, b) && NoWorse(hits, a, b)
    ensures ListScore(hits, a, k) >= ListScore(hits, b, k)
    ensures Occurs(hits, a) ==> ListScore(hits, a, k) > ListScore(hits, b, k)
  {
    if j :| 0 <= j < |hits| && KeyOf(hits[j]) == b {
      var i :| 0 <= i <= j && KeyOf(hits[i]) == a;
      RankedAbove(hits, a, b, i, j, k);
    } else if i :| 0 <= i < |hits| && KeyOf(hits[i]) == a {
      OnlyOneRanked(hits, a, b, i, k);
    } else {
      AbsentScoresZero(hits, a, k);
      AbsentScoresZero(hits, b, k);
    }
  }

  /** A key no worse than another in every list, and present in one, scores strictly higher. */
  lemma {:induction false} Dominance(lists: seq<seq<Hit>>, a: Key, b: Key, k: nat)
    requires a != b
    requires forall i | 0 <= i < |lists| ::
               OccursOnce(lists[i], a) && OccursOnce(lists[i], b) && NoWorse(lists[i], a, b)
    ensures Score(lists, a, k) >= Score(lists, b, k)
    ensures (exists i :: 0 <= i < |lists| && Occurs(lists[i], a)) ==> Score(lists, a, k) > Score(lists, b, k)
    decreases |lists|
  {
    if lists != [] {
      var n := |lists| - 1;
      Dominance(lists[..n], a, b, k);
      ListDominance(lists[n], a, b, k);
      if i :| 0 <= i < |lists| && Occurs(lists[i], a) {
        assert i < n ==> Occurs(lists[..n][i], a);
      }
    }
  }

  // ---------------------------------------------------------------------------------------------
  // The merged list
  // ---------------------------------------------------------------------------------------------

  function Ranking(lists: seq<seq<Hit>>, k: nat): seq<RankedHit> {
    FusedOrder(lists, k);
    SortDesc(Values(Fused(lists, k)), ScoreOf)
  }

  predicate DistinctKeys(s: seq<RankedHit>) {
    forall i, j | 0 <= i < j < |s| :: s[i].key != s[j].key
  }

  lemma {:induction false} InsertDistinct(x: RankedHit, s: seq<RankedHit>)
    requires DistinctKeys(s) && forall y | y in s :: y.key != x.key
    ensures DistinctKeys(Insert(x, s, ScoreOf))
    ensures forall y :: y in Insert(x, s, ScoreOf) <==> y == x || y in s
  {
    if s == [] || x.score >= s[0].score {
    } else {
      InsertDistinct(x, s[1..]);
      assert forall y :: y in s <==> y == s[0] || y in s[1..];
      assert forall y | y in s[1..] :: y.key != s[0].key;
    }
  }

  lemma {:induction false} SortDistinct(s: seq<RankedHit>)
    requires DistinctKeys(s)
    ensures DistinctKeys(SortDesc(s, ScoreOf))
    ensures forall y :: y in SortDesc(s, ScoreOf) <==> y in s
  {
    if s != [] {
      SortDistinct(s[1..]);
      assert forall y | y in s[1..] :: y.key != s[0].key;
      InsertDistinct(s[0], SortDesc(s[1..], ScoreOf));
      assert forall y :: y in s <==> y == s[0] || y in s[1..];
    }
  }

  predicate OccursSomewhere(lists: seq<seq<Hit>>, key: Key) {
    exists i :: 0 <= i < |lists| && Occurs(lists[i], key)
  }

  lemma {:induction false} FusedListHas(c: Combined, hits: seq<Hit>, k: nat, key: Key)
    ensures key in FusedList(c, hits, k).entries <==> key in c.entries || Occurs(hits, key)
    decreases |hits|
  {
    if hits != [] {
      var n := |hits| - 1;
      FusedListHas(c, hits[..n], k, key);
      if Occurs(hits[..n], key) {
        var i :| 0 <= i < n && KeyOf(hits[..n][i]) == key;
        assert KeyOf(hits[i]) == key;
      }
      if Occurs(hits, key) {
        var i :| 0 <= i < |hits| && KeyOf(hits[i]) == key;
        assert i < n ==> KeyOf(hits[..n][i]) == key;
      }
    }
  }

  /** The merged hits are exactly the keys that occur in some list. */
  lemma {:induction false} FusedHas(lists: seq<seq<Hit>>, k: nat, key: Key)
    ensures key in Fused(lists, k).entries <==> OccursSomewhere(lists, key)
    decreases |lists|
  {
    if lists != [] {
      var n := |lists| - 1;
      FusedHas(lists[..n], k, key);
      FusedListHas(Fused(lists[..n], k), lists[n], k, key);
      if OccursSomewhere(lists[..n], key) {
        var i :| 0 <= i < n && Occurs(lists[..n][i], key);
        assert Occurs(lists[i], key);
      }
      if OccursSomewhere(lists, key) {
        var i :| 0 <= i < |lists| && Occurs(lists[i], key);
        assert i < n ==> Occurs(lists[..n][i], key);
      }
    }
  }

  /** The ranking is sorted, has each key once, and holds exactly the keys that occur, with their scores. */
  lemma RankingIsRight(lists: seq<seq<Hit>>, k: nat)
    ensures var r := Ranking(lists, k);
            && Descending(r, ScoreOf) && DistinctKeys(r)
            && (forall h | h in r :: h.score == Score(lists, h.key, k))
            && (forall key :: (exists h :: h in r && h.key == key) <==> OccursSomewhere(lists, key))
  {
    FusedOrder(lists, k);
    var c := Fused(lists, k);
    var v := Values(c);
    SortDescSorts(v, ScoreOf);
    SortDistinct(v);
    var r := Ranking(lists, k);
    forall h | h in r ensures h.score == Score(lists, h.key, k) && h.key in c.entries {
      var i :| 0 <= i < |v| && v[i] == h;
      assert c.order[i] in c.order;
      FusedScore(lists, h.key, k);
    }
    forall key ensures key in c.entries <==> OccursSomewhere(lists, key) {
      FusedHas(lists, k, key);
    }
    forall key | key in c.entries ensures exists h :: h in r && h.key == key {
      var i :| 0 <= i < |c.order| && c.order[i] == key;
      assert v[i] in r && v[i].key == key;
    }
  }

  // ---------------------------------------------------------------------------------------------
  // What a merged hit shows of its occurrences
  // ---------------------------------------------------------------------------------------------

  /** The hits of one list with this key, and those of all lists, in order. */
  function Mentions(hits: seq<Hit>, key: Key): seq<Hit> {
    if hits == [] then []
    else
      var last := hits[|hits| - 1];
      Mentions(hits[..|hits| - 1], key) + if KeyOf(last) == key then [last] else []
  }

  function AllMentions(lists: seq<seq<Hit>>, key: Key): seq<Hit> {
    if lists == [] then [] else AllMentions(lists[..|lists| - 1], key) + Mentions(lists[|lists| - 1], key)
  }

  /** The summary is the first of the longest. */
  predicate LongestSummary(summary: string, hits: seq<Hit>, i: nat) {
    && i < |hits| && hits[i].summary == summary
    && (forall j | 0 <= j < |hits| :: |hits[j].summary| <= |summary|)
    && (forall j | 0 <= j < i :: |hits[j].summary| < |summary|)
  }

  /** The detail is the first there is. */
  predicate FirstDetail(detail: Option<string>, hits: seq<Hit>, i: nat) {
    i <= |hits| && (forall j | 0 <= j < i :: hits[j].detail.None?)
    && detail == (if i < |hits| then hits[i].detail else None) && (i < |hits| ==> detail.Some?)
  }

  /** A merged hit and all its occurrences: ids of the first, every source, one summary and one detail. */
  ghost predicate Merges(e: RankedHit, hits: seq<Hit>) {
    && hits != [] && e.eventId == hits[0].eventId && e.instructionId == hits[0].instructionId
    && (forall i | 0 <= i < |hits| :: hits[i].source in e.sources)
    && (forall x | x in e.sources :: exists i :: 0 <= i < |hits| && hits[i].source == x)
    && (exists i :: LongestSummary(e.summary, hits, i))
    && (exists i :: FirstDetail(e.detail, hits, i))
  }

  lemma BumpSources(e: RankedHit, hits: seq<Hit>, h: Hit)
    requires forall x | x in e.sources :: exists i :: 0 <= i < |hits| && hits[i].source == x
    ensures forall x | x in e.sources + {h.source} :: exists i :: 0 <= i < |hits + [h]| && (hits + [h])[i].source == x
  {
    var all := hits + [h];
    forall x | x in e.sources + {h.source} ensures exists i :: 0 <= i < |all| && all[i].source == x {
      if x in e.sources {
        var i :| 0 <= i < |hits| && hits[i].source == x;
        assert all[i].source == x;
      } else {
        assert all[|hits|].source == x;
      }
    }
  }

  lemma BumpSummary(summary: string, hits: seq<Hit>, h: Hit, i: nat)
    requires LongestSummary(summary, hits, i)
    ensures if |h.summary| > |summary| then LongestSummary(h.summary, hits + [h], |hits|)
            else LongestSummary(summary, hits + [h], i)
  {
  }

  lemma BumpDetail(detail: Option<string>, hits: seq<Hit>, h: Hit, i: nat)
    requires FirstDetail(detail, hits, i)
    ensures if detail.Some? then FirstDetail(detail, hits + [h], i)
            else if h.detail.Some? then FirstDetail(h.detail, hits + [h], |hits|)
            else FirstDetail(detail, hits + [h], |hits| + 1)
  {
  }

  lemma BumpMerges(e: RankedHit, hits: seq<Hit>, h: Hit, share: real)
    requires Merges(e, hits)
    ensures Merges(Bumped(e, h, share), hits + [h])
  {
    var d := Bumped(e, h, share);
    BumpSources(e, hits, h);
    var i :| LongestSummary(e.summary, hits, i);
    BumpSummary(e.summary, hits, h, i);
    var k :| FirstDetail(e.detail, hits, k);
    BumpDetail(e.detail, hits, h, k);
    assert d.sources == e.sources + {h.source};
  }

  lemma FreshMerges(h: Hit, share: real)
    ensures Merges(Bumped(Fresh(h), h, share), [h])
  {
    assert LongestSummary(h.summary, [h], 0);
    assert FirstDetail(h.detail, [h], if h.detail.Some? then 0 else 1);
    assert [h][0].source == h.source;
  }

  /** The state of one key: no entry and no occurrence so far, or an entry that merges them. */
  ghost predicate KeyMerged(c: Combined, key: Key, hits: seq<Hit>) {
    if key in c.entries then Merges(c.entries[key], hits) else hits == []
  }

  lemma AddMerges(c: Combined, h: Hit, rank: nat, k: nat, key: Key, hits: seq<Hit>)
    requires k + rank > 0 && KeyMerged(c, key, hits)
    ensures KeyMerged(Add(c, h, rank, k), key, hits + if KeyOf(h) == key then [h] else [])
  {
    if KeyOf(h) != key {
      assert hits + [] == hits;
    } else if key in c.entries {
      BumpMerges(c.entries[key], hits, h, Share(k, rank));
    } else {
      FreshMerges(h, Share(k, rank));
      assert hits + [h] == [h];
    }
  }

  lemma {:induction false} ListMerges(c: Combined, list: seq<Hit>, k: nat, key: Key, hits: seq<Hit>)
    requires KeyMerged(c, key, hits)
    ensures KeyMerged(FusedList(c, list, k), key, hits + Mentions(list, key))
    decreases |list|
  {
    if list == [] {
      assert hits + [] == hits;
    } else {
      var n := |list| - 1;
      var before := hits + Mentions(list[..n], key);
      ListMerges(c, list[..n], k, key, hits);
      AddMerges(FusedList(c, list[..n], k), list[n], |list|, k, key, before);
      assert hits + Mentions(list, key) == before + if KeyOf(list[n]) == key then [list[n]] else [];
    }
  }

  /** The merged hit of a key, after all lists. */
  lemma {:induction false} EntryMerges(lists: seq<seq<Hit>>, k: nat, key: Key)
    ensures KeyMerged(Fused(lists, k), key, AllMentions(lists, key))
    decreases |lists|
  {
    if lists != [] {
      var n := |lists| - 1;
      EntryMerges(lists[..n], k, key);
      ListMerges(Fused(lists[..n], k), lists[n], k, key, AllMentions(lists[..n], key));
    }
  }

  lemma RankedAreEntries(lists: seq<seq<Hit>>, k: nat, h: RankedHit)
    requires h in Ranking(lists, k)
    ensures h.key in Fused(lists, k).entries && Fused(lists, k).entries[h.key] == h
  {
    FusedOrder(lists, k);
    var v := Values(Fused(lists, k));
    SortDistinct(v);
    var i :| 0 <= i < |v| && v[i] == h;
  }

  /** Every hit of the ranking shows its occurrences. */
  lemma RankingMerges(lists: seq<seq<Hit>>, k: nat, h: RankedHit)
    requires h in Ranking(lists, k)
    ensures Merges(h, AllMentions(lists, h.key))
  {
    RankedAreEntries(lists, k, h);
    EntryMerges(lists, k, h.key);
  }

  /** Hits are merged if they have the same event, or no event and the same instruction, or neither and the same text. */
  lemma SameKeyExactly(a: Hit, b: Hit)
    ensures KeyOf(a) == KeyOf(b) <==>
              || (a.eventId != "" && a.eventId == b.eventId)
              || (a.eventId == "" && b.eventId == "" && a.instructionId != "" && a.instructionId == b.instructionId)
              || (a.eventId == "" && b.eventId == "" && a.instructionId == "" && b.instructionId == "" && a.hash == b.hash)
  {
  }

  /** A hit that is found once, at rank i + 1 of one list, scores 1/(k + i + 1), with k = 60 unless told otherwise. */
  lemma OneOccurrence(hits: seq<Hit>, i: nat, k: Option<nat>)
    requires i < |hits| && OccursOnce(hits, KeyOf(hits[i])) && (k.None? || k == Some(0) || k == Some(60))
    ensures Held(Fused([hits], EffectiveK(k)), KeyOf(hits[i])) == 1.0 / (61 + i) as real
  {
    var key := KeyOf(hits[i]);
    FusedScore([hits], key, 60);
    OnceScoresShare(hits, i, key, 60);
    assert [hits][..0] == [];
    assert Score([hits][..0], key, 60) == 0.0;
  }

  function Without(s: seq<RankedHit>, keys: set<Key>): seq<RankedHit> {
    if s == [] then [] else (if s[0].key in keys then [] else [s[0]]) + Without(s[1..], keys)
  }

  function Take(s: seq<RankedHit>, n: nat): seq<RankedHit> {
    if |s| <= n then s else s[..n]
  }

  /** RagService._merge_with_exact, with settings.max_context_hits as `cap`. */
  function MergeWithExact(exact: seq<Hit>, vector: seq<Hit>, bm25: seq<Hit>, graph: seq<Hit>, cap: nat): seq<RankedHit> {
    var merged := Ranking([vector, bm25, graph], RRF_K);
    if exact == [] then Take(merged, cap)
    else
      var pinned := Ranking([exact], RRF_K);
      Take(pinned + Without(merged, set h | h in pinned :: h.key), cap)
  }

  lemma {:induction false} WithoutMembers(s: seq<RankedHit>, keys: set<Key>)
    ensures forall h :: h in Without(s, keys) <==> h in s && h.key !in keys
  {
    if s != [] {
      WithoutMembers(s[1..], keys);
      assert forall h :: h in s <==> h == s[0] || h in s[1..];
    }
  }

  lemma DistinctTail(s: seq<RankedHit>)
    requires DistinctKeys(s) && s != []
    ensures DistinctKeys(s[1..]) && forall h | h in s[1..] :: h.key != s[0].key
  {
  }

  lemma DistinctFront(h: RankedHit, s: seq<RankedHit>)
    requires DistinctKeys(s) && forall x | x in s :: x.key != h.key
    ensures DistinctKeys([h] + s)
  {
    var t := [h] + s;
    forall i, j | 0 <= i < j < |t| ensures t[i].key != t[j].key {
      assert t[j] in s;
    }
  }

  lemma {:induction false} WithoutDistinct(s: seq<RankedHit>, keys: set<Key>)
    requires DistinctKeys(s)
    ensures DistinctKeys(Without(s, keys))
  {
    if s != [] {
      DistinctTail(s);
      WithoutDistinct(s[1..], keys);
      WithoutMembers(s[1..], keys);
      if s[0].key !in keys { DistinctFront(s[0], Without(s[1..], keys)); }
    }
  }

  lemma {:induction false} WithoutDescends(s: seq<RankedHit>, keys: set<Key>)
    requires Descending(s, ScoreOf)
    ensures Descending(Without(s, keys), ScoreOf)
  {
    if s != [] {
      WithoutDescends(s[1..], keys);
      WithoutMembers(s[1..], keys);
      var t := Without(s[1..], keys);
      forall j | 0 <= j < |t| ensures ScoreOf(s[0]) >= ScoreOf(t[j]) {
        assert t[j] in s[1..];
      }
    }
  }

  lemma WithoutKeeps(s: seq<RankedHit>, keys: set<Key>)
    requires DistinctKeys(s)
    ensures forall h :: h in Without(s, keys) <==> h in s && h.key !in keys
    ensures DistinctKeys(Without(s, keys))
    ensures Descending(s, ScoreOf) ==> Descending(Without(s, keys), ScoreOf)
  {
    WithoutMembers(s, keys);
    WithoutDistinct(s, keys);
    if Descending(s, ScoreOf) { WithoutDescends(s, keys); }
  }

  /** out is the first `cap` of the pinned hits followed by the merged hits with other keys. */
  predicate PinnedFirst(out: seq<RankedHit>, pinned: seq<RankedHit>, merged: seq<RankedHit>, cap: nat) {
    var n := if |pinned| <= |out| then |pinned| else |out|;
    && |out| <= cap
    && DistinctKeys(out)
    && out[..n] == pinned[..n]
    && (|out| < cap ==> n == |pinned|)
    && (forall h | h in out[n..] :: h in merged && forall p | p in pinned :: p.key != h.key)
    && Descending(out[n..], ScoreOf)
    && (|out| < cap ==> forall h | h in merged :: exists o :: o in out && o.key == h.key)
  }

  lemma AllCovered(pinned: seq<RankedHit>, merged: seq<RankedHit>, rest: seq<RankedHit>, h: RankedHit)
    requires h in merged && forall m | m in merged :: m in rest || exists p :: p in pinned && p.key == m.key
    ensures exists o :: o in pinned + rest && o.key == h.key
  {
    if h in rest {
      assert h in pinned + rest;
    } else {
      var p :| p in pinned && p.key == h.key;
      assert p in pinned + rest;
    }
  }

  lemma RestIsApart(pinned: seq<RankedHit>, merged: seq<RankedHit>, rest: seq<RankedHit>)
    requires DistinctKeys(pinned) && DistinctKeys(merged)
    requires rest == Without(merged, set h | h in pinned :: h.key)
    ensures DistinctKeys(pinned + rest)
    ensures forall h | h in rest :: h in merged && forall p | p in pinned :: p.key != h.key
    ensures forall m | m in merged :: m in rest || exists p :: p in pinned && p.key == m.key
  {
    var keys := set h | h in pinned :: h.key;
    WithoutKeeps(merged, keys);
    assert forall p | p in pinned :: p.key in keys;
    var all := pinned + rest;
    forall i, j | 0 <= i < j < |all| ensures all[i].key != all[j].key {
      assert i < |pinned| ==> all[i] in pinned;
      assert j >= |pinned| ==> all[j] in rest;
    }
  }

  lemma PinnedFirstHolds(pinned: seq<RankedHit>, merged: seq<RankedHit>, cap: nat)
    requires DistinctKeys(pinned) && DistinctKeys(merged) && Descending(merged, ScoreOf)
    ensures PinnedFirst(Take(pinned + Without(merged, set h | h in pinned :: h.key), cap), pinned, merged, cap)
  {
    var rest := Without(merged, set h | h in pinned :: h.key);
    WithoutKeeps(merged, set h | h in pinned :: h.key);
    RestIsApart(pinned, merged, rest);
    forall h | h in merged ensures exists o :: o in pinned + rest && o.key == h.key {
      AllCovered(pinned, merged, rest, h);
    }
    TakeKeepsPinned(pinned, merged, rest, cap);
  }

  lemma TakeKeepsPinned(pinned: seq<RankedHit>, merged: seq<RankedHit>, rest: seq<RankedHit>, cap: nat)
    requires DistinctKeys(pinned + rest) && Descending(rest, ScoreOf)
    requires forall h | h in rest :: h in merged && forall p | p in pinned :: p.key != h.key
    requires forall h | h in merged :: exists o :: o in pinned + rest && o.key == h.key
    ensures PinnedFirst(Take(pinned + rest, cap), pinned, merged, cap)
  {
    var out := Take(pinned + rest, cap);
    var n := if |pinned| <= |out| then |pinned| else |out|;
    assert out[..n] == pinned[..n];
    assert out[n..] == rest[..|out| - n];
  }

  lemma RankingShape(lists: seq<seq<Hit>>, k: nat)
    ensures Descending(Ranking(lists, k), ScoreOf) && DistinctKeys(Ranking(lists, k))
  {
    RankingIsRight(lists, k);
  }

  /**
   Exact hits come first in their own ranking, then the other hits in theirs; no key appears twice,
   a hit is dropped only when the cap is reached, and exact hits are dropped last.
   */
  lemma PinnedMerge(exact: seq<Hit>, vector: seq<Hit>, bm25: seq<Hit>, graph: seq<Hit>, cap: nat)
    ensures PinnedFirst(MergeWithExact(exact, vector, bm25, graph, cap),
                        Ranking([exact], RRF_K), Ranking([vector, bm25, graph], RRF_K), cap)
  {
    var pinned, merged := Ranking([exact], RRF_K), Ranking([vector, bm25, graph], RRF_K);
    RankingShape([exact], RRF_K);
    RankingShape([vector, bm25, graph], RRF_K);
    PinnedFirstHolds(pinned, merged, cap);
    if exact == [] {
      NoExactHits();
      assert pinned == [];
      var keys := set h | h in pinned :: h.key;
      assert keys == {};
      WithoutNone(merged);
      assert pinned + merged == merged;
    }
  }

  lemma {:induction false} WithoutNone(s: seq<RankedHit>)
    ensures Without(s, {}) == s
  {
    if s != [] {
      WithoutNone(s[1..]);
    }
  }

  lemma NoExactHits()
    ensures Ranking([[]], RRF_K) == []
  {
    var none: seq<seq<Hit>> := [[]];
    assert none[..0] == [];
    assert Fused(none, RRF_K) == Combined([], map[]);
    FusedOrder(none, RRF_K);
    assert Values(Fused(none, RRF_K)) == [];
  }
}
