// Oldest queued first, over whole histories: in which order runs are claimed.
module RunnerFairness {
  import opened Wrappers
  import opened RunBudget
  import opened RunLifecycle
  import opened RunnerMachine
  import opened RunnerRows
  import opened RunnerSystem

  /* ---------- Claims in the order of creation ---------- */

  ghost predicate NotOlder(runs: seq<Run>, claims: seq<nat>, k: nat)
    requires k < |runs| && forall i :: 0 <= i < |claims| ==> claims[i] < |runs|
  {
    forall i :: 0 <= i < |claims| ==> runs[claims[i]].created <= runs[k].created
  }

  // Runs were claimed in the order of their creation, and no claimable run is older than a claimed one.
  ghost predicate InClaimOrder(runs: seq<Run>, claims: seq<nat>)
    requires forall i :: 0 <= i < |claims| ==> claims[i] < |runs|
  {
    (forall i, j :: 0 <= i < j < |claims| ==> runs[claims[i]].created <= runs[claims[j]].created) &&
    forall k :: 0 <= k < |runs| && Claimable(runs[k]) ==> NotOlder(runs, claims, k)
  }

  ghost predicate Ordered(s: State) {
    KnownRuns(s) && InClaimOrder(s.runs, s.claims)
  }

  // A creation time that no claimed run exceeds.
  ghost predicate NotBackdated(s: State, created: int) {
    forall i :: 0 <= i < |s.claims| ==> s.claims[i] < |s.runs| && s.runs[s.claims[i]].created <= created
  }

  lemma TimesStay(s: State, a: Action, k: nat)
    requires Inv(s) && k < |s.runs|
    ensures k < |Step(s, a).runs| && Step(s, a).runs[k].created == s.runs[k].created
    ensures Claimable(Step(s, a).runs[k]) ==> Claimable(s.runs[k])
  {
    OldRowKept(s, a, k);
    assert RowHolds(RowOf(s, k));
    assert RowHolds(RowOf(Step(s, a), k));
  }

  // No step but a claim or a creation touches the order.
  lemma OtherStepsKeepOrder(s: State, a: Action)
    requires Inv(s) && Ordered(s) && !a.CreateRun? && Step(s, a).claims == s.claims
    ensures Ordered(Step(s, a))
  {
    var after := Step(s, a);
    KnownRunsKeep(s, a);
    NewRunIsQueued(s, a);
    forall k | 0 <= k < |s.runs|
      ensures after.runs[k].created == s.runs[k].created && (Claimable(after.runs[k]) ==> Claimable(s.runs[k]))
    {
      TimesStay(s, a, k);
    }
    forall k | 0 <= k < |after.runs| && Claimable(after.runs[k]) ensures NotOlder(after.runs, after.claims, k) {
      assert NotOlder(s.runs, s.claims, k);
    }
  }

  lemma ClaimKeepsOrder(s: State, id: nat)
    requires Inv(s) && Ordered(s) && MayClaim(s, id)
    ensures Ordered(DoClaim(s, id))
  {
    var after := DoClaim(s, id);
    assert NotOlder(s.runs, s.claims, id);
    forall k | 0 <= k < |after.runs| && Claimable(after.runs[k]) ensures NotOlder(after.runs, after.claims, k) {
      assert NotOlder(s.runs, s.claims, k);
    }
  }

  lemma NewRunKeepsOrderIff(runs: seq<Run>, claims: seq<nat>, r: Run)
    requires (forall i :: 0 <= i < |claims| ==> claims[i] < |runs|) && InClaimOrder(runs, claims) && Claimable(r)
    ensures InClaimOrder(runs + [r], claims) <==> forall i :: 0 <= i < |claims| ==> runs[claims[i]].created <= r.created
  {
    var more := runs + [r];
    if forall i :: 0 <= i < |claims| ==> runs[claims[i]].created <= r.created {
      forall k | 0 <= k < |more| && Claimable(more[k]) ensures NotOlder(more, claims, k) {
        if k < |runs| {
          assert NotOlder(runs, claims, k);
        }
      }
    }
    if InClaimOrder(more, claims) {
      assert NotOlder(more, claims, |runs|);
      forall i | 0 <= i < |claims| ensures runs[claims[i]].created <= r.created {
        assert more[claims[i]] == runs[claims[i]];
      }
    }
  }

  // A step keeps the order of claims exactly when it does not create a run with an earlier time than a claimed one.
  lemma StepKeepsOrderIff(s: State, a: Action)
    requires Inv(s) && Ordered(s)
    ensures Ordered(Step(s, a)) <==> |Step(s, a).runs| == |s.runs| || (a.CreateRun? && NotBackdated(s, a.created))
  {
    NewRunIsQueued(s, a);
    KnownRunsKeep(s, a);
    if a.CreateRun? && |Step(s, a).runs| != |s.runs| {
      var r := Step(s, a).runs[|s.runs|];
      assert Step(s, a).runs == s.runs + [r];
      NewRunKeepsOrderIff(s.runs, s.claims, r);
    } else if a.Claim? && MayClaim(s, a.id) {
      ClaimKeepsOrder(s, a.id);
    } else if !a.CreateRun? {
      OtherStepsKeepOrder(s, a);
    }
  }

  /* ---------- Over histories ---------- */

  // Creation times never go back along the history.
  ghost predicate TimesGrow(actions: seq<Action>) {
    forall i, j :: 0 <= i < j < |actions| && actions[i].CreateRun? && actions[j].CreateRun? ==>
      actions[i].created <= actions[j].created
  }

  ghost predicate CreatedBy(actions: seq<Action>, time: int) {
    forall i :: 0 <= i < |actions| && actions[i].CreateRun? ==> actions[i].created <= time
  }

  lemma {:induction false} RunsAreAsOldAsTheirCreation(fallback: int, actions: seq<Action>, time: int)
    requires 1 <= fallback <= 16 && CreatedBy(actions, time)
    ensures forall k :: 0 <= k < |Reached(fallback, actions).runs| ==>
              Reached(fallback, actions).runs[k].created <= time
  {
    if actions != [] {
      var n := |actions| - 1;
      var before := Reached(fallback, actions[..n]);
      assert CreatedBy(actions[..n], time);
      RunsAreAsOldAsTheirCreation(fallback, actions[..n], time);
      ReachedInvariant(fallback, actions[..n]);
      TimesAfterOneStep(before, actions[n], time);
    }
  }

  lemma TimesAfterOneStep(s: State, a: Action, time: int)
    requires Inv(s) && (forall k :: 0 <= k < |s.runs| ==> s.runs[k].created <= time)
    requires a.CreateRun? ==> a.created <= time
    ensures forall k :: 0 <= k < |Step(s, a).runs| ==> Step(s, a).runs[k].created <= time
  {
    NewRunIsQueued(s, a);
    forall k | 0 <= k < |Step(s, a).runs| ensures Step(s, a).runs[k].created <= time {
      if k < |s.runs| {
        TimesStay(s, a, k);
      }
    }
  }

  // In every history whose creation times never go back, runs are claimed in the order of their creation, and no
  // claimable run is older than a claimed one.
  lemma {:induction false} ClaimsAreFair(fallback: int, actions: seq<Action>)
    requires 1 <= fallback <= 16 && TimesGrow(actions)
    ensures Ordered(Reached(fallback, actions))
  {
    if actions != [] {
      var n := |actions| - 1;
      ClaimsAreFair(fallback, actions[..n]);
      ReachedInvariant(fallback, actions[..n]);
      if actions[n].CreateRun? {
        assert CreatedBy(actions[..n], actions[n].created);
        RunsAreAsOldAsTheirCreation(fallback, actions[..n], actions[n].created);
      } else {
        NewRunIsQueued(Reached(fallback, actions[..n]), actions[n]);
      }
      StepKeepsOrderIff(Reached(fallback, actions[..n]), actions[n]);
    }
  }

  lemma {:induction false} LaterClaimsWereQueued(s: State, more: seq<Action>, id: nat)
    requires Inv(s) && id < |s.runs| && id !in s.claims && id in RunAll(s, more).claims
    ensures Claimable(s.runs[id])
  {
    var n := |more| - 1;
    var before := RunAll(s, more[..n]);
    HistoryKeepsInvariant(s, more[..n]);
    if id in before.claims {
      LaterClaimsWereQueued(s, more[..n], id);
    } else {
      assert more[n] == Claim(id) && Claimable(before.runs[id]);
      assert Evolves(s.runs[id], before.runs[id]);
    }
  }

  // First come, first served, whatever the clocks say: a run that is claimed while another one exists that is claimed
  // only later was not created after that other one.
  lemma FirstComeFirstServed(fallback: int, actions: seq<Action>, id: nat, more: seq<Action>, other: nat)
    requires 1 <= fallback <= 16
    requires var s := Reached(fallback, actions);
             && MayClaim(s, id) && other < |s.runs| && other != id && other !in s.claims
             && other in RunAll(Step(s, Claim(id)), more).claims
    ensures var s := Reached(fallback, actions); id < |s.runs| && s.runs[id].created <= s.runs[other].created
  {
    var s := Reached(fallback, actions);
    ReachedInvariant(fallback, actions);
    StepKeepsInvariant(s, Claim(id));
    LaterClaimsWereQueued(Step(s, Claim(id)), more, other);
    TimesStay(s, Claim(id), other);
  }

  /* ---------- One round of filling ---------- */

  // The claims from n on took runs that were claimable, oldest first.
  ghost predicate TookInOrder(runs: seq<Run>, taken: seq<nat>) {
    (forall i :: 0 <= i < |taken| ==> taken[i] < |runs| && Claimable(runs[taken[i]])) &&
    forall i, j :: 0 <= i < j < |taken| ==>
      taken[i] < |runs| && taken[j] < |runs| && runs[taken[i]].created <= runs[taken[j]].created
  }

  // Nothing left is older than anything taken.
  ghost predicate LeftYounger(runs: seq<Run>, taken: seq<nat>) {
    forall i, k :: 0 <= i < |taken| && 0 <= k < |runs| && Claimable(runs[k]) && k !in taken ==>
      taken[i] < |runs| && runs[taken[i]].created <= runs[k].created
  }

  // Only the runs taken have changed.
  ghost predicate OnlyTaken(before: seq<Run>, after: seq<Run>, taken: seq<nat>) {
    |after| == |before| &&
    forall k :: 0 <= k < |before| ==> after[k] == if k in taken then ClaimRun(before[k]) else before[k]
  }

  // The claims since `before` took the oldest claimable runs there were, in order.
  ghost predicate TookOldest(before: State, after: State) {
    before.claims <= after.claims &&
    var taken := after.claims[|before.claims|..];
    TookInOrder(before.runs, taken) && LeftYounger(before.runs, taken) && OnlyTaken(before.runs, after.runs, taken)
  }

  lemma NothingTaken(s: State, main: Main)
    ensures TookOldest(s, s.(main := main))
  {
    assert s.claims[|s.claims|..] == [];
  }

  lemma UntakenIsUnchanged(before: seq<Run>, now: seq<Run>, taken: seq<nat>, k: nat)
    requires OnlyTaken(before, now, taken) && k < |now|
    ensures Claimable(now[k]) <==> Claimable(before[k]) && k !in taken
    ensures k !in taken ==> now[k] == before[k]
  {
  }

  lemma TakeInOrder(before: seq<Run>, now: seq<Run>, taken: seq<nat>, id: nat)
    requires TookInOrder(before, taken) && LeftYounger(before, taken) && OnlyTaken(before, now, taken)
    requires IsOldest(now, id)
    ensures TookInOrder(before, taken + [id])
  {
    UntakenIsUnchanged(before, now, taken, id);
  }

  lemma LeaveYounger(before: seq<Run>, now: seq<Run>, taken: seq<nat>, id: nat)
    requires LeftYounger(before, taken) && OnlyTaken(before, now, taken) && IsOldest(now, id)
    ensures LeftYounger(before, taken + [id])
  {
    forall k | 0 <= k < |before| && Claimable(before[k]) && k !in taken
      ensures before[id].created <= before[k].created
    {
      UntakenIsUnchanged(before, now, taken, k);
      UntakenIsUnchanged(before, now, taken, id);
    }
  }

  lemma TakeOnly(before: seq<Run>, now: seq<Run>, taken: seq<nat>, id: nat)
    requires OnlyTaken(before, now, taken) && IsOldest(now, id)
    ensures OnlyTaken(before, now[id := ClaimRun(now[id])], taken + [id])
  {
    UntakenIsUnchanged(before, now, taken, id);
  }

  lemma OneMoreTaken(before: State, s: State, id: nat)
    requires TookOldest(before, s) && MayClaim(s, id)
    ensures TookOldest(before, DoClaim(s, id))
  {
    var taken := s.claims[|before.claims|..];
    assert DoClaim(s, id).claims[|before.claims|..] == taken + [id];
    TakeInOrder(before.runs, s.runs, taken, id);
    LeaveYounger(before.runs, s.runs, taken, id);
    TakeOnly(before.runs, s.runs, taken, id);
  }
}
