/**
 Nothing is stored without the policy's consent: behind every version of every run stands a decision
 that allowed this request of this actor on the version it was read from.
 */
module Consent {
  import opened Wrappers
  import opened Lifecycle
  import opened VersionChain
  import opened Interleaving
  import opened ConcurrencyTheorems

  /** What a waiting handler asks for, as the history will record it if it is allowed at time `at`. */
  predicate Asks(r: Handler, at: Time, id: string, o: Origin) {
    r.id == id && match o
      case Created(actor, terms) => r.actor == actor && r.job == NewInstruction(terms)
      case Changed(actor, req, t, base) => r.actor == actor && r.job == Change(req) && r.base == base && t == at
  }

  /** Step j of the run is the decision that allows it. */
  predicate AllowedAt(w: World, steps: seq<Step>, j: nat, id: string, o: Origin) {
    && j < |steps| && steps[j].Authorize? && steps[j].allowed
    && var v := Run(w, steps[..j]);
    && steps[j].h in v.handlers && v.handlers[steps[j].h].phase.Deciding?
    && Asks(v.handlers[steps[j].h], steps[j].at, id, o)
  }

  ghost predicate WasAllowed(w: World, steps: seq<Step>, id: string, o: Origin) {
    exists j: nat :: AllowedAt(w, steps, j, id, o)
  }

  /** A handler past its decision, and what it is about to record. */
  predicate Decided(r: Handler) {
    r.phase.Ready? || r.phase.InTransaction? || r.phase.Holding?
  }

  function Pending(r: Handler): Origin
    requires Decided(r)
  {
    if r.job.NewInstruction? then Created(r.actor, r.job.terms) else Changed(r.actor, r.job.req, r.phase.at, r.base)
  }

  predicate StillDecided(w: World, h: nat, r: Handler)
    requires Decided(r)
  {
    h in w.handlers && Decided(w.handlers[h]) && w.handlers[h].id == r.id && Pending(w.handlers[h]) == Pending(r)
  }

  predicate JustAllowed(w: World, s: Step, r: Handler)
    requires Decided(r)
  {
    && s.Authorize? && s.allowed && s.h in w.handlers && w.handlers[s.h].phase.Deciding?
    && Asks(w.handlers[s.h], s.at, r.id, Pending(r))
  }

  /** A handler gets past its decision in no other way. */
  lemma StepDecides(w: World, s: Step, h: nat)
    requires h in Do(w, s).handlers && Decided(Do(w, s).handlers[h])
    ensures var r := Do(w, s).handlers[h]; StillDecided(w, h, r) || JustAllowed(w, s, r)
  {
  }

  /** And only a handler past its decision stores. */
  lemma StepStores(w: World, s: Step, id: string)
    ensures History(Do(w, s), id) == History(w, id)
            || (s.Commit? && s.h in w.handlers && Decided(w.handlers[s.h]) && w.handlers[s.h].id == id
                && History(Do(w, s), id) == History(w, id) + [Pending(w.handlers[s.h])])
  {
  }

  lemma LastStep(w: World, steps: seq<Step>, n: nat)
    requires |steps| == n + 1
    ensures Run(w, steps) == Do(Run(w, steps[..n]), steps[n])
  {
    RunConcat(w, steps[..n], [steps[n]]);
    assert steps[..n] + [steps[n]] == steps;
    assert [steps[n]][1..] == [];
  }

  lemma AllowedStays(w: World, steps: seq<Step>, n: nat, id: string, o: Origin)
    requires n <= |steps| && WasAllowed(w, steps[..n], id, o)
    ensures WasAllowed(w, steps, id, o)
  {
    var j: nat :| AllowedAt(w, steps[..n], j, id, o);
    assert steps[..n][..j] == steps[..j];
    assert AllowedAt(w, steps, j, id, o);
  }

  lemma {:induction false} HandlersWereAllowed(w: World, steps: seq<Step>, h: nat)
    requires w.handlers == map[] && h in Run(w, steps).handlers && Decided(Run(w, steps).handlers[h])
    ensures var r := Run(w, steps).handlers[h]; WasAllowed(w, steps, r.id, Pending(r))
    decreases |steps|
  {
    if steps != [] {
      var n, r := |steps| - 1, Run(w, steps).handlers[h];
      LastStep(w, steps, n);
      StepDecides(Run(w, steps[..n]), steps[n], h);
      if StillDecided(Run(w, steps[..n]), h, r) {
        HandlersWereAllowed(w, steps[..n], h);
        AllowedStays(w, steps, n, r.id, Pending(r));
      } else {
        assert AllowedAt(w, steps, n, r.id, Pending(r));
      }
    }
  }

  lemma {:induction false} WritesWereAllowed(w: World, steps: seq<Step>, id: string, k: nat)
    requires w.handlers == map[] && |History(w, id)| <= k < |History(Run(w, steps), id)|
    ensures WasAllowed(w, steps, id, History(Run(w, steps), id)[k])
    decreases |steps|
  {
    if steps != [] {
      var n, o := |steps| - 1, History(Run(w, steps), id)[k];
      var v := Run(w, steps[..n]);
      LastStep(w, steps, n);
      StepStores(v, steps[n], id);
      if k < |History(v, id)| {
        WritesWereAllowed(w, steps[..n], id, k);
      } else {
        HandlersWereAllowed(w, steps[..n], steps[n].h);
      }
      AllowedStays(w, steps, n, id, o);
    }
  }

  /**
   In every run, every stored version was allowed: some step decided so, for its actor and request, and
   the decision was about the very snapshot the version was made from.
   */
  lemma EveryVersionWasAllowed(excluded: set<string>, steps: seq<Step>, id: string, k: nat) returns (j: nat)
    requires k < |History(Run(Empty(excluded), steps), id)|
    ensures AllowedAt(Empty(excluded), steps, j, id, History(Run(Empty(excluded), steps), id)[k])
    ensures var o, v := History(Run(Empty(excluded), steps), id)[k], Run(Empty(excluded), steps[..j]);
            o.Changed? ==>
              && 1 <= o.base <= |Chain(v, id)|
              && v.handlers[steps[j].h].snapshot == Chain(v, id)[o.base - 1].payload
  {
    WritesWereAllowed(Empty(excluded), steps, id, k);
    j :| AllowedAt(Empty(excluded), steps, j, id, History(Run(Empty(excluded), steps), id)[k]);
    EmptyInv(excluded);
    RunKeepsInv(Empty(excluded), steps[..j]);
    assert HandlerOk(Run(Empty(excluded), steps[..j]), Run(Empty(excluded), steps[..j]).handlers[steps[j].h]);
  }
}
