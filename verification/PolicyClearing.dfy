/**
 Clearing a policy server: policies are deleted in passes, because the server refuses to delete
 one that another still depends on.
 */
module PolicyClearing {
  import opened Text

  const PREFERRED_DELETE_ORDER: seq<string> := [
    "instruction/lifecycle.rego", "instruction/violations.rego", "instruction/allow_basis.rego",
    "instruction/lifecycle_rules.rego", "instruction/approval_matrix.rego", "instruction/common.rego",
    "payment/lifecycle.rego", "payment/violations.rego", "payment/allow_basis.rego",
    "payment/amount_limits.rego", "payment/common.rego"]

  /** user depends on used. */
  datatype Dependency = Dependency(user: string, used: string)

  predicate Needed(p: string, policies: set<string>, deps: set<Dependency>) {
    exists user :: user in policies && user != p && Dependency(user, p) in deps
  }

  class OpaServer {
    var policies: set<string>
    var requests: nat
    const deps: set<Dependency>
    const lost: nat -> bool      // which delete requests fail for a reason of their own

    constructor (policies: set<string>, deps: set<Dependency>, lost: nat -> bool)
      ensures this.policies == policies && this.deps == deps && this.lost == lost && requests == 0
    {
      this.policies, this.deps, this.lost, requests := policies, deps, lost, 0;
    }

    /** Whether the server would let p go. */
    predicate Deletes(p: string)
      reads this
    {
      p in policies && !Needed(p, policies, deps)
    }

    method DeletePolicy(p: string) returns (ok: bool)
      modifies this
      ensures requests == old(requests) + 1
      ensures ok == (old(Deletes(p)) && !lost(old(requests)))
      ensures policies == if ok then old(policies) - {p} else old(policies)
    {
      ok := Deletes(p) && !lost(requests);
      requests := requests + 1;
      if ok {
        policies := policies - {p};
      }
    }
  }

  // ---------------------------------------------------------------------------------------------
  // The order of a pass
  // ---------------------------------------------------------------------------------------------

  function Preferred(order: seq<string>, remaining: set<string>): seq<string> {
    if order == [] then []
    else Preferred(order[..|order| - 1], remaining)
         + if order[|order| - 1] in remaining then [order[|order| - 1]] else []
  }

  function Members(s: seq<string>): set<string> {
    set x | x in s
  }

  /** The preferred policies in their order, then the others sorted; each once, if the order repeats nothing. */
  predicate IsOrder(ordered: seq<string>, preferred: seq<string>, remaining: set<string>) {
    && Members(ordered) == remaining && (NoRepeat(preferred) ==> NoRepeat(ordered))
    && var k := |Preferred(preferred, remaining)|;
       && k <= |ordered| && ordered[..k] == Preferred(preferred, remaining)
       && IsSorted(ordered[k..])
  }

  lemma {:induction false} PreferredRemains(order: seq<string>, remaining: set<string>)
    ensures forall x | x in Preferred(order, remaining) :: x in remaining && x in order
    ensures NoRepeat(order) ==> NoRepeat(Preferred(order, remaining))
  {
    if order != [] {
      var n := |order| - 1;
      var init := Preferred(order[..n], remaining);
      PreferredRemains(order[..n], remaining);
      if order[n] !in remaining {
        assert Preferred(order, remaining) == init + [] == init;
      } else if NoRepeat(order) {
        assert order[n] !in order[..n];
        NoRepeatConcat(init, [order[n]]);
      }
    }
  }

  method DeleteOrder(preferred: seq<string>, remaining: set<string>) returns (ordered: seq<string>)
    ensures IsOrder(ordered, preferred, remaining)
  {
    var first := Preferred(preferred, remaining);
    PreferredRemains(preferred, remaining);
    var rest, sorted := remaining - Members(first), [];
    while rest != {}
      invariant Members(first) + Members(sorted) + rest == remaining
      invariant Members(sorted) !! rest && Members(first) !! Members(sorted) + rest
      invariant IsSorted(sorted) && NoRepeat(sorted)
      decreases rest
    {
      var p :| p in rest;
      InsertKeySorts(p, sorted);
      InsertKeyExact(p, sorted);
      assert Members(InsertKey(p, sorted)) == Members(sorted) + {p};
      sorted := InsertKey(p, sorted);
      rest := rest - {p};
    }
    ordered := first + sorted;
    MembersOfSum(first, sorted);
    if NoRepeat(preferred) { NoRepeatConcat(first, sorted); }
  }

  lemma PreferredOrderNoRepeat()
    ensures NoRepeat(PREFERRED_DELETE_ORDER)
  {
  }

  lemma MembersOfSum(s: seq<string>, t: seq<string>)
    ensures Members(s + t) == Members(s) + Members(t)
  {
  }

  // ---------------------------------------------------------------------------------------------
  // Cycles
  // ---------------------------------------------------------------------------------------------

  predicate Uses(user: string, used: string, deps: set<Dependency>) {
    user != used && Dependency(user, used) in deps
  }

  /** Each policy of the walk is used by the next one. */
  predicate IsWalk(w: seq<string>, policies: set<string>, deps: set<Dependency>) {
    && (forall i | 0 <= i < |w| :: w[i] in policies)
    && (forall i, j | 0 <= i < |w| && j == i + 1 < |w| :: Uses(w[j], w[i], deps))
  }

  ghost predicate Cyclic(policies: set<string>, deps: set<Dependency>) {
    exists w: seq<string> :: IsCycle(w, policies, deps)
  }

  /** No policy of the set can be deleted before another one of it. */
  predicate Stuck(policies: set<string>, deps: set<Dependency>) {
    forall p | p in policies :: Needed(p, policies, deps)
  }

  lemma {:induction false} WalkOn(policies: set<string>, deps: set<Dependency>, n: nat) returns (w: seq<string>)
    requires policies != {} && Stuck(policies, deps)
    ensures |w| == n + 1 && IsWalk(w, policies, deps)
  {
    if n == 0 {
      var p :| p in policies;
      w := [p];
    } else {
      var v := WalkOn(policies, deps, n - 1);
      var last := v[n - 1];
      assert Needed(last, policies, deps);
      var user :| user in policies && user != last && Dependency(user, last) in deps;
      w := v + [user];
    }
  }

  lemma {:induction false} Repeats(w: seq<string>, policies: set<string>) returns (i: nat, j: nat)
    requires |w| > |policies| && forall i | 0 <= i < |w| :: w[i] in policies
    ensures i < j < |w| && w[i] == w[j]
    decreases |w|
  {
    var last := |w| - 1;
    if k :| 0 <= k < last && w[k] == w[last] {
      i, j := k, last;
    } else {
      i, j := Repeats(w[..last], policies - {w[last]});
    }
  }

  lemma WalkSlice(w: seq<string>, policies: set<string>, deps: set<Dependency>, i: nat, j: nat)
    requires IsWalk(w, policies, deps) && i <= j <= |w|
    ensures IsWalk(w[i..j], policies, deps)
  {
    var v := w[i..j];
    forall k, l | 0 <= k < |v| && l == k + 1 < |v| ensures Uses(v[l], v[k], deps) {
      assert v[l] == w[i + l] && v[k] == w[i + k];
    }
  }

  predicate IsCycle(w: seq<string>, policies: set<string>, deps: set<Dependency>) {
    |w| >= 2 && IsWalk(w, policies, deps) && w[0] == w[|w| - 1]
  }

  lemma StuckIsCyclic(policies: set<string>, deps: set<Dependency>)
    requires policies != {} && Stuck(policies, deps)
    ensures Cyclic(policies, deps)
  {
    var w := WalkOn(policies, deps, |policies|);
    var i, j := Repeats(w, policies);
    WalkSlice(w, policies, deps, i, j + 1);
    assert IsCycle(w[i..j + 1], policies, deps);
  }

  lemma CycleGrows(policies: set<string>, more: set<string>, deps: set<Dependency>)
    requires policies <= more && Cyclic(policies, deps)
    ensures Cyclic(more, deps)
  {
    var w :| IsCycle(w, policies, deps);
    assert IsCycle(w, more, deps);
  }

  /** A policy that no other one needs is on no cycle. */
  lemma CycleIsNeeded(w: seq<string>, policies: set<string>, deps: set<Dependency>, i: nat)
    requires IsCycle(w, policies, deps) && i < |w|
    ensures Needed(w[i], policies, deps)
  {
    var k := if i == |w| - 1 then 0 else i;
    assert w[k] == w[i] && Uses(w[k + 1], w[k], deps);
  }

  /** Deleting it changes nothing about cycles. */
  lemma DeleteKeepsCycles(p: string, policies: set<string>, deps: set<Dependency>)
    requires !Needed(p, policies, deps)
    ensures Cyclic(policies - {p}, deps) <==> Cyclic(policies, deps)
  {
    if Cyclic(policies, deps) {
      var w :| IsCycle(w, policies, deps);
      forall i | 0 <= i < |w| ensures w[i] != p {
        CycleIsNeeded(w, policies, deps, i);
      }
      assert IsCycle(w, policies - {p}, deps);
    } else if Cyclic(policies - {p}, deps) {
      CycleGrows(policies - {p}, policies, deps);
    }
  }

  lemma NothingCyclic(deps: set<Dependency>)
    ensures !Cyclic({}, deps)
  {
  }

  lemma AllNeededIsCyclic(ordered: seq<string>, remaining: set<string>, deps: set<Dependency>)
    requires remaining != {} && Members(ordered) == remaining
    requires forall k | 0 <= k < |ordered| :: Needed(ordered[k], remaining, deps)
    ensures Cyclic(remaining, deps)
  {
    forall p | p in remaining ensures Needed(p, remaining, deps) {
      assert p in Members(ordered);
    }
    StuckIsCyclic(remaining, deps);
  }

  // ---------------------------------------------------------------------------------------------
  // The loop
  // ---------------------------------------------------------------------------------------------

  datatype Outcome = Cleared(deleted: nat) | GaveUp

  predicate LostOne(server: OpaServer, from: nat, to: nat) {
    exists i | from <= i < to :: server.lost(i)
  }

  /**
   Clears the server or gives up. It succeeds only with an empty server and the count of what there
   was; and if no request was lost, it succeeds exactly when the dependencies are acyclic, whatever
   the preferred order is.
   */
  method ClearPolicies(server: OpaServer, preferred: seq<string>) returns (outcome: Outcome)
    modifies server
    ensures outcome.Cleared? ==> server.policies == {} && outcome.deleted == |old(server.policies)|
    ensures outcome.GaveUp? ==> server.policies != {} && server.policies <= old(server.policies)
    ensures Cyclic(old(server.policies), server.deps) ==> outcome.GaveUp?
    ensures outcome.GaveUp? ==> Cyclic(old(server.policies), server.deps)
                                || LostOne(server, old(server.requests), server.requests)
  {
    ghost var initial, first := server.policies, server.requests;
    var remaining := server.policies;
    NothingCyclic(server.deps);
    if remaining == {} {
      return Cleared(0);
    }
    var deleted := 0;
    while remaining != {}
      invariant remaining == server.policies <= initial && first <= server.requests
      invariant deleted + |remaining| == |initial|
      invariant Cyclic(remaining, server.deps) <==> Cyclic(initial, server.deps)
      decreases |remaining|
    {
      var progress := false;
      var ordered := DeleteOrder(preferred, remaining);
      ghost var before := remaining;
      for i := 0 to |ordered|
        invariant remaining == server.policies <= before && first <= server.requests
        invariant deleted + |remaining| == |initial|
        invariant Cyclic(remaining, server.deps) <==> Cyclic(initial, server.deps)
        invariant if progress then |remaining| < |before| else remaining == before
        invariant progress || LostOne(server, first, server.requests)
                  || forall k | 0 <= k < i :: Needed(ordered[k], before, server.deps)
      {
        var p := ordered[i];
        if p in remaining {
          ghost var request := server.requests;
          var ok := server.DeletePolicy(p);
          if ok {
            DeleteKeepsCycles(p, remaining, server.deps);
            remaining := remaining - {p};
            deleted := deleted + 1;
            progress := true;
          } else {
            assert server.lost(request) || Needed(p, before, server.deps) || progress;
          }
        }
      }
      if !progress {
        if !LostOne(server, first, server.requests) {
          AllNeededIsCyclic(ordered, remaining, server.deps);
        }
        return GaveUp;
      }
    }
    return Cleared(deleted);
  }
}
