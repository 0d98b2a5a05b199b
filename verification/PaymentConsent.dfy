/**
 No payment without the policy's consent: behind every payment of every run stands a create that read
 a payable instruction, and after it a decision that allowed the payment.
 */
module PaymentConsent {
  import opened Wrappers
  import opened Lifecycle
  import opened PaymentSaga

  /** Step i reads the instruction for payment p: at this version, payable and not ended. */
  predicate ReadAt(s: Saga, steps: seq<Step>, i: nat, p: string, version: nat) {
    && i < |steps| && steps[i].Read? && steps[i].p == p
    && var h := Run(s, steps[..i]).history;
    && |h| == version && version > 0
    && (h[version - 1].status == STANDING || h[version - 1].status == SINGLE_USE)
    && h[version - 1].terms.endDate >= steps[i].now
  }

  predicate DecidedAt(steps: seq<Step>, i: nat, j: nat, p: string) {
    i < j < |steps| && steps[j] == Decide(p, true)
  }

  ghost predicate WasRead(s: Saga, steps: seq<Step>, p: string, version: nat) {
    exists i: nat :: ReadAt(s, steps, i, p, version)
  }

  ghost predicate WasAllowed(s: Saga, steps: seq<Step>, p: string, version: nat) {
    exists i: nat, j: nat :: ReadAt(s, steps, i, p, version) && DecidedAt(steps, i, j, p)
  }

  lemma {:induction false} RunConcat(s: Saga, a: seq<Step>, b: seq<Step>)
    ensures Run(s, a + b) == Run(Run(s, a), b)
    decreases |a|
  {
    if a == [] {
      assert a + b == b;
    } else {
      assert (a + b)[1..] == a[1..] + b;
      RunConcat(Do(s, a[0]), a[1..], b);
    }
  }

  lemma LastStep(s: Saga, steps: seq<Step>, n: nat)
    requires |steps| == n + 1
    ensures Run(s, steps) == Do(Run(s, steps[..n]), steps[n])
  {
    RunConcat(s, steps[..n], [steps[n]]);
    assert steps[..n] + [steps[n]] == steps;
    assert [steps[n]][1..] == [];
  }

  lemma ReadStays(s: Saga, steps: seq<Step>, n: nat, i: nat, p: string, version: nat)
    requires n <= |steps| && ReadAt(s, steps[..n], i, p, version)
    ensures ReadAt(s, steps, i, p, version)
  {
    assert steps[..n][..i] == steps[..i];
  }

  lemma WasReadStays(s: Saga, steps: seq<Step>, n: nat, p: string, version: nat)
    requires n <= |steps| && WasRead(s, steps[..n], p, version)
    ensures WasRead(s, steps, p, version)
    ensures n < |steps| && steps[n] == Decide(p, true) ==> WasAllowed(s, steps, p, version)
  {
    var i: nat :| ReadAt(s, steps[..n], i, p, version);
    ReadStays(s, steps, n, i, p, version);
    if n < |steps| && steps[n] == Decide(p, true) { assert DecidedAt(steps, i, n, p); }
  }

  lemma WasAllowedStays(s: Saga, steps: seq<Step>, n: nat, p: string, version: nat)
    requires n <= |steps| && WasAllowed(s, steps[..n], p, version)
    ensures WasAllowed(s, steps, p, version)
  {
    var i: nat, j: nat :| ReadAt(s, steps[..n], i, p, version) && DecidedAt(steps[..n], i, j, p);
    ReadStays(s, steps, n, i, p, version);
    assert DecidedAt(steps, i, j, p);
  }

  /** How a create comes to its place: it has just read, was just allowed, or was there before. */
  lemma StepAdvances(s: Saga, step: Step, p: string)
    requires s.history != [] && p in Do(s, step).creators
    ensures var c := Do(s, step).creators[p];
            || (p in s.creators && s.creators[p].view == c.view
                && (c.progress == Checked || s.creators[p].progress != Checked || step == Decide(p, true)))
            || (step.Read? && step.p == p && c.progress == Checked && c.view == ViewOf(s.history)
                && ValidAtCreate(ViewOf(s.history), step.now))
  {
  }

  /** And only an allowed create inserts. */
  lemma StepInserts(s: Saga, step: Step, p: string)
    requires p in Do(s, step).payments
    ensures var y := Do(s, step).payments[p];
            || (p in s.payments && s.payments[p].instructionVersion == y.instructionVersion)
            || (p in s.creators && s.creators[p].progress != Checked && y.instructionVersion == s.creators[p].view.version)
  {
  }

  lemma {:induction false} CreatesWereAllowed(s: Saga, steps: seq<Step>, p: string)
    requires Inv(s) && s.creators == map[] && p in Run(s, steps).creators
    ensures var c := Run(s, steps).creators[p];
            && WasRead(s, steps, p, c.view.version)
            && (c.progress != Checked ==> WasAllowed(s, steps, p, c.view.version))
    decreases |steps|
  {
    if steps != [] {
      var n, c := |steps| - 1, Run(s, steps).creators[p];
      var v, version := Run(s, steps[..n]), c.view.version;
      LastStep(s, steps, n);
      RunKeepsInv(s, steps[..n]);
      StepAdvances(v, steps[n], p);
      if p in v.creators && v.creators[p].view == c.view {
        CreatesWereAllowed(s, steps[..n], p);
        WasReadStays(s, steps, n, p, version);
        if v.creators[p].progress != Checked { WasAllowedStays(s, steps, n, p, version); }
      } else {
        assert ReadAt(s, steps, n, p, version);
      }
    }
  }

  lemma {:induction false} InsertsWereAllowed(s: Saga, steps: seq<Step>, p: string)
    requires Inv(s) && s.creators == map[] && p !in s.payments && p in Run(s, steps).payments
    ensures WasAllowed(s, steps, p, Run(s, steps).payments[p].instructionVersion)
    decreases |steps|
  {
    if steps != [] {
      var n, version := |steps| - 1, Run(s, steps).payments[p].instructionVersion;
      var v := Run(s, steps[..n]);
      LastStep(s, steps, n);
      StepInserts(v, steps[n], p);
      if p in v.payments && v.payments[p].instructionVersion == version {
        InsertsWereAllowed(s, steps[..n], p);
      } else {
        CreatesWereAllowed(s, steps[..n], p);
      }
      WasAllowedStays(s, steps, n, p, version);
    }
  }

  /** In every run, every payment was allowed, after a read of the version it names, which was payable then. */
  lemma EveryPaymentWasAllowed(id: string, terms: Terms, actor: string, steps: seq<Step>, p: string)
    returns (i: nat, j: nat)
    requires p in Run(Start(id, terms, actor), steps).payments
    ensures var s := Start(id, terms, actor);
            ReadAt(s, steps, i, p, Run(s, steps).payments[p].instructionVersion) && DecidedAt(steps, i, j, p)
  {
    var s := Start(id, terms, actor);
    StartInv(id, terms, actor);
    InsertsWereAllowed(s, steps, p);
    i, j :| ReadAt(s, steps, i, p, Run(s, steps).payments[p].instructionVersion) && DecidedAt(steps, i, j, p);
  }
}
