/**
 Both writers at work: the fact consumer's sessions, with retries, skips and crashes, and any
 security-event transactions committed in between.
 */
module IndexTogether {
  import opened Wrappers
  import opened IndexGraph
  import opened IndexConsumer

  /** `all` is the two sequences shuffled together, each in its own order. */
  predicate Shuffles(all: seq<Op>, a: seq<Op>, b: seq<Op>)
    decreases |all|
  {
    if all == [] then a == [] && b == []
    else
      var n := |all| - 1;
      || (a != [] && a[|a| - 1] == all[n] && Shuffles(all[..n], a[..|a| - 1], b))
      || (b != [] && b[|b| - 1] == all[n] && Shuffles(all[..n], a, b[..|b| - 1]))
  }

  lemma {:induction false} ShuffledWritten(all: seq<Op>, a: seq<Op>, b: seq<Op>)
    requires Shuffles(all, a, b)
    ensures Written(all) == Written(a) + Written(b)
    decreases |all|
  {
    if all != [] {
      var n := |all| - 1;
      if a != [] && a[|a| - 1] == all[n] && Shuffles(all[..n], a[..|a| - 1], b) {
        ShuffledWritten(all[..n], a[..|a| - 1], b);
      } else {
        ShuffledWritten(all[..n], a, b[..|b| - 1]);
      }
    }
  }

  /**
   Whatever the sessions did and whichever events were written in between, HAS_VERSION holds exactly the
   versions of the messages carried through and of the events, and CURRENT the highest of each instruction.
   */
  lemma TogetherIndexed(messages: seq<Message>, oracles: seq<Oracle>, events: seq<Op>, all: seq<Op>)
    requires Shuffles(all, Sessions(messages, oracles).0, events)
    ensures var keys := LandedKeys(messages, oracles) + Written(events);
            Run(all).hasVersion == keys && Run(all).current == Latest(keys)
  {
    ShuffledWritten(all, Sessions(messages, oracles).0, events);
    SessionsWrite(messages, oracles);
    CurrentConverges(all);
  }

  // ---------------------------------------------------------------------------------------------
  // Conflicts between messages that were carried through
  // ---------------------------------------------------------------------------------------------

  lemma {:induction false} ShuffledOne(all: seq<Op>, a: seq<Op>, b: seq<Op>, i: nat) returns (x: nat)
    requires Shuffles(all, a, b) && i < |a|
    ensures x < |all| && all[x] == a[i]
    decreases |all|
  {
    var n := |all| - 1;
    if a[|a| - 1] == all[n] && Shuffles(all[..n], a[..|a| - 1], b) {
      if i == |a| - 1 {
        x := n;
      } else {
        x := ShuffledOne(all[..n], a[..|a| - 1], b, i);
      }
    } else {
      x := ShuffledOne(all[..n], a, b[..|b| - 1], i);
    }
  }

  /** Shuffling keeps the order of what it shuffles. */
  lemma {:induction false} ShuffledPair(all: seq<Op>, a: seq<Op>, b: seq<Op>, i: nat, j: nat) returns (x: nat, y: nat)
    requires Shuffles(all, a, b) && i < j < |a|
    ensures x < y < |all| && all[x] == a[i] && all[y] == a[j]
    decreases |all|
  {
    var n := |all| - 1;
    if a[|a| - 1] == all[n] && Shuffles(all[..n], a[..|a| - 1], b) {
      if j == |a| - 1 {
        x := ShuffledOne(all[..n], a[..|a| - 1], b, i);
        y := n;
      } else {
        x, y := ShuffledPair(all[..n], a[..|a| - 1], b, i, j);
      }
    } else {
      x, y := ShuffledPair(all[..n], a, b[..|b| - 1], i, j);
    }
  }

  lemma ShuffledProcessed(all: seq<Op>, a: seq<Op>, b: seq<Op>, m: Message)
    requires Shuffles(all, a, b) && Processed(a, m)
    ensures Processed(all, m)
  {
    if m.Valid? {
      var i, j :| 0 <= i < j < |a| && a[i] == FactState(m.id, m.version, m.snap)
                  && a[j] == FactConflicts(m.id, m.version, m.snap);
      var x, y := ShuffledPair(all, a, b, i, j);
    }
  }

  /** Messages and events carry the snapshots the versions were stored with. */
  predicate CarriesStored(m: Message, store: map<Key, Snap>) {
    m.Valid? ==> Key(m.id, m.version) in store && m.snap == store[Key(m.id, m.version)]
  }

  lemma TopicFaithful(messages: seq<Message>, store: map<Key, Snap>, op: Op)
    requires FromTopic(messages, op) && forall k | 0 <= k < |messages| :: CarriesStored(messages[k], store)
    ensures Faithful(op, store)
  {
    var k :| 0 <= k < |messages| && op in Transactions(messages[k]);
    assert CarriesStored(messages[k], store);
  }

  lemma {:induction false} ShuffledFaithful(all: seq<Op>, a: seq<Op>, b: seq<Op>, store: map<Key, Snap>)
    requires Shuffles(all, a, b) && AllFaithful(a, store) && AllFaithful(b, store)
    ensures AllFaithful(all, store)
    decreases |all|
  {
    if all != [] {
      var n := |all| - 1;
      if a != [] && a[|a| - 1] == all[n] && Shuffles(all[..n], a[..|a| - 1], b) {
        ShuffledFaithful(all[..n], a[..|a| - 1], b, store);
      } else {
        ShuffledFaithful(all[..n], a, b[..|b| - 1], store);
      }
      assert forall i | 0 <= i < n :: Faithful(all[..n][i], store);
    }
  }

  /** A message that some session reached and processed to its end. */
  predicate SucceededIn(messages: seq<Message>, oracles: seq<Oracle>, s: nat, k: nat) {
    && s < |oracles| && k < |messages|
    && Reached(StartOf(messages, oracles, s), k, oracles[s]) && MessageEnd(k, 1, oracles[s]) == Success
  }

  lemma SucceededEarlier(messages: seq<Message>, oracles: seq<Oracle>, n: nat, s: nat, k: nat)
    requires s < n <= |oracles| && SucceededIn(messages, oracles, s, k)
    ensures SucceededIn(messages, oracles[..n], s, k)
  {
    assert oracles[..n][..s] == oracles[..s];
  }

  /** What the earlier sessions processed, and what the last one did, are processed in the end. */
  lemma AfterLast(messages: seq<Message>, oracles: seq<Oracle>, n: nat, m: Message)
    requires |oracles| == n + 1
    ensures Processed(Sessions(messages, oracles[..n]).0, m) ==> Processed(Sessions(messages, oracles).0, m)
    ensures Processed(SessionOps(messages, StartOf(messages, oracles, n), oracles[n]), m)
            ==> Processed(Sessions(messages, oracles).0, m)
  {
    var (ops, c) := Sessions(messages, oracles[..n]);
    LastSession(messages, oracles, ops, c);
    ProcessedWithMore(ops, SessionOps(messages, c, oracles[n]), m);
    ProcessedWithMore(SessionOps(messages, c, oracles[n]), ops, m);
  }

  lemma LastSucceeded(messages: seq<Message>, oracles: seq<Oracle>, s: nat, k: nat)
    requires SucceededIn(messages, oracles, s, k) && s == |oracles| - 1
    ensures Processed(Sessions(messages, oracles).0, messages[k])
  {
    SessionProcesses(messages, StartOf(messages, oracles, s), k, oracles[s]);
    AfterLast(messages, oracles, s, messages[k]);
  }

  lemma {:induction false} SucceededProcessed(messages: seq<Message>, oracles: seq<Oracle>, s: nat, k: nat)
    requires SucceededIn(messages, oracles, s, k)
    ensures Processed(Sessions(messages, oracles).0, messages[k])
    decreases |oracles|
  {
    var n := |oracles| - 1;
    if s < n {
      SucceededEarlier(messages, oracles, n, s, k);
      SucceededProcessed(messages, oracles[..n], s, k);
      AfterLast(messages, oracles, n, messages[k]);
    } else {
      LastSucceeded(messages, oracles, s, k);
    }
  }

  predicate InConflict(a: Snap, b: Snap) {
    && a.account == b.account != "" && a.currency == b.currency != ""
    && a.status in {"STANDING", "SUBMITTED", "PENDING_APPROVAL"}
    && b.status in {"STANDING", "SUBMITTED", "PENDING_APPROVAL"}
  }

  /**
   Two messages that sessions processed to their end, each about the highest version its instruction has
   among all that was written, active and with the same account and currency: CONFLICTS_WITH holds both
   ways, whatever was retried, skipped or redelivered and whichever events came in between.
   */
  lemma CarriedConflictsHold(messages: seq<Message>, oracles: seq<Oracle>, events: seq<Op>, all: seq<Op>,
                             store: map<Key, Snap>, s: nat, k: nat, t: nat, l: nat)
    requires Shuffles(all, Sessions(messages, oracles).0, events)
    requires AllFaithful(events, store) && forall i | 0 <= i < |messages| :: CarriesStored(messages[i], store)
    requires SucceededIn(messages, oracles, s, k) && SucceededIn(messages, oracles, t, l)
    requires messages[k].Valid? && messages[l].Valid? && messages[k].id != messages[l].id
    requires InConflict(messages[k].snap, messages[l].snap)
    requires var keys := LandedKeys(messages, oracles) + Written(events);
             {Key(messages[k].id, messages[k].version), Key(messages[l].id, messages[l].version)} <= Latest(keys)
    ensures {(messages[k].id, messages[l].id), (messages[l].id, messages[k].id)} <= Run(all).conflicts
  {
    var facts := Sessions(messages, oracles).0;
    SessionsFaithful(messages, oracles, store);
    ShuffledFaithful(all, facts, events, store);
    SucceededProcessed(messages, oracles, s, k);
    SucceededProcessed(messages, oracles, t, l);
    ShuffledProcessed(all, facts, events, messages[k]);
    ShuffledProcessed(all, facts, events, messages[l]);
    ShuffledWritten(all, facts, events);
    SessionsWrite(messages, oracles);
    ProcessedConflict(all, store, messages[k], messages[l]);
  }

  lemma SessionsFaithful(messages: seq<Message>, oracles: seq<Oracle>, store: map<Key, Snap>)
    requires forall i | 0 <= i < |messages| :: CarriesStored(messages[i], store)
    ensures AllFaithful(Sessions(messages, oracles).0, store)
  {
    CommittedAreSettled(messages, oracles);
    var facts := Sessions(messages, oracles).0;
    forall i | 0 <= i < |facts| ensures Faithful(facts[i], store) {
      assert facts[i] in facts;
      TopicFaithful(messages, store, facts[i]);
    }
  }

  lemma ProcessedConflict(all: seq<Op>, store: map<Key, Snap>, m: Message, o: Message)
    requires AllFaithful(all, store) && m.Valid? && o.Valid? && m.id != o.id && InConflict(m.snap, o.snap)
    requires CarriesStored(m, store) && CarriesStored(o, store) && Processed(all, m) && Processed(all, o)
    requires LatestIn(all, Key(m.id, m.version)) && LatestIn(all, Key(o.id, o.version))
    ensures {(m.id, o.id), (o.id, m.id)} <= Run(all).conflicts
  {
    var ma, ca :| 0 <= ma < ca < |all| && all[ma] == FactState(m.id, m.version, m.snap)
                  && all[ca] == FactConflicts(m.id, m.version, m.snap);
    var mb, cb :| 0 <= mb < cb < |all| && all[mb] == FactState(o.id, o.version, o.snap)
                  && all[cb] == FactConflicts(o.id, o.version, o.snap);
    ConflictsComplete(all, store, Key(m.id, m.version), Key(o.id, o.version), ma, ca, mb, cb);
  }
}
