// The handlers and the Runner's loops as they update their state, each tied to the transaction it performs.
module RunnerService {
  import opened Wrappers
  import opened RunBudget
  import opened RunLifecycle
  import opened RunnerMachine
  import opened RunnerRows
  import opened RunnerSystem
  import opened RunnerFairness

  /* ---------- One row and its log ---------- */

  class RunRow {
    const created: int
    const base: Budget
    const minimumCalls: int
    const antigravity: bool
    var status: Status
    var pauseRequested: bool
    var archived: bool
    var log: seq<Event>
    var overrides: seq<Override>

    function View(): Run
      reads this
    {
      Run(created, status, pauseRequested, archived, log, base, overrides, minimumCalls, antigravity)
    }

    constructor (created: int, base: Budget, minimumCalls: int, antigravity: bool)
      ensures View() == Queue(created, base, minimumCalls, antigravity)
    {
      this.created, this.base, this.minimumCalls, this.antigravity := created, base, minimumCalls, antigravity;
      status, pauseRequested, archived, log, overrides := Queued, false, false, [], [];
      new;
      AppendEvent(RunQueued);
    }

    method AppendEvent(kind: Kind)
      modifies this`log
      ensures log == Append(old(log), kind)
    {
      var last := 0;
      for i := 0 to |log|
        invariant last == MaxSequence(log[..i])
      {
        assert log[..i + 1][..i] == log[..i];
        if log[i].sequence > last {
          last := log[i].sequence;
        }
      }
      assert log[..|log|] == log;
      log := log + [Event(last + 1, kind)];
    }

    method Archive() returns (ok: bool)
      modifies this
      ensures ok == ArchiveRun(old(View())).Success?
      ensures View() == Handle(old(View()), Request.Archive)
    {
      if archived || !Terminal(status) {
        return false;
      }
      AppendEvent(RunArchived);
      archived := true;
      return true;
    }

    method Adjust(payload: Payload) returns (ok: bool)
      modifies this
      ensures ok == AdjustBudget(old(View()), payload).Success?
      ensures View() == Handle(old(View()), Request.Adjust(payload))
    {
      if archived || !(status.Queued? || status.Preparing? || status.Running?) {
        return false;
      }
      var r := AdjustRunBudget(base, overrides, payload, minimumCalls, antigravity);
      if r.Failure? {
        return false;
      }
      overrides := r.value;
      AppendEvent(BudgetAdjustmentRequested);
      return true;
    }

    method Cancel()
      modifies this
      ensures View() == CancelRun(old(View()))
    {
      if archived || Terminal(status) {
        return;
      }
      pauseRequested := false;
      status := Cancelled;
      AppendEvent(RunCancelled);
    }

    method Pause() returns (ok: bool)
      modifies this
      ensures ok == PauseRun(old(View())).Success?
      ensures View() == Handle(old(View()), Request.Pause)
    {
      if archived || !status.Running? {
        return false;
      }
      if pauseRequested {
        return true;
      }
      pauseRequested := true;
      AppendEvent(PauseRequested);
      return true;
    }

    method Resume() returns (ok: bool)
      modifies this
      ensures ok == ResumeRun(old(View())).Success?
      ensures View() == Handle(old(View()), Request.Resume)
    {
      if archived || !status.Running? || !pauseRequested {
        return false;
      }
      pauseRequested := false;
      AppendEvent(ResumeRequested);
      return true;
    }

    method EnterStage(next: Option<Status>, kind: Kind)
      modifies this
      ensures View() == SetStage(old(View()), next, kind)
    {
      if status.Cancelled? {
        return;
      }
      if next.Some? {
        status := next.value;
      }
      AppendEvent(kind);
    }

    method Finish(exhausted: bool)
      modifies this
      ensures View() == Complete(old(View()), exhausted)
    {
      if status.Cancelled? {
        return;
      }
      status := Completed;
      if exhausted {
        AppendEvent(RunBudgetExhausted);
      }
      AppendEvent(RunCompleted);
    }

    method Abort()
      modifies this
      ensures View() == Fail(old(View()))
    {
      if status.Cancelled? {
        return;
      }
      status := Status.Failed;
      AppendEvent(RunFailed);
    }
  }

  /* ---------- The Runner's loops ---------- */

  class Runner {
    const fallback: int
    var state: State
    // The transactions so far.
    ghost var history: seq<Action>

    // The state is what its history makes it.
    ghost predicate Valid()
      reads this
    {
      1 <= fallback <= 16 && state == Reached(fallback, history)
    }

    constructor (fallback: int)
      requires 1 <= fallback <= 16
      ensures Valid() && state == Start(fallback)
    {
      this.fallback := fallback;
      state := Start(fallback);
      history := [];
    }

    // The oldest claimable run, found by one pass over the table.
    method OldestQueued() returns (found: Option<nat>)
      ensures found.None? <==> NoneClaimable(state.runs)
      ensures found.Some? ==> IsOldest(state.runs, found.value)
    {
      var runs := state.runs;
      found := None;
      for i := 0 to |runs|
        invariant found.None? <==> forall k :: 0 <= k < i ==> !Claimable(runs[k])
        invariant found.Some? ==>
                    && found.value < i && Claimable(runs[found.value])
                    && forall k :: 0 <= k < i && Claimable(runs[k]) ==> runs[found.value].created <= runs[k].created
      {
        if Claimable(runs[i]) && (found.None? || runs[i].created < runs[found.value].created) {
          found := Some(i);
        }
      }
    }

    // claim: the oldest queued run, if there is one.
    method ClaimNext() returns (found: Option<nat>)
      requires Valid() && state.main.Filling? && |state.threads| < state.main.limit
      modifies this
      ensures Valid()
      ensures found.None? ==> state == old(state) && NoneClaimable(state.runs)
      ensures found.Some? ==> IsOldest(old(state).runs, found.value) && state == DoClaim(old(state), found.value)
      ensures Grown(old(state), state, if found.Some? then 1 else 0)
    {
      found := OldestQueued();
      if found.Some? {
        StepReached(fallback, history, Claim(found.value));
        ClaimGrows(fallback, history, found.value);
        history := history + [Claim(found.value)];
        state := DoClaim(state, found.value);
      }
    }

    // fill_available_slots: claims the oldest queued runs, oldest first, until the limit it read is reached or none is
    // left.
    method FillAvailableSlots() returns (claimed: nat)
      requires Valid() && state.main.Polling?
      modifies this
      ensures Valid() && state.main.Polling?
      ensures Grown(old(state), state, claimed) && TookOldest(old(state), state)
      ensures |state.threads| >= ConcurrencyLimit(old(state)) || NoneClaimable(state.runs)
    {
      var limit := ConcurrencyLimit(state);
      NothingTaken(state, Filling(limit));
      StepReached(fallback, history, ReadLimit);
      history := history + [ReadLimit];
      state := state.(main := Filling(limit));
      claimed := 0;
      while |state.threads| < limit
        invariant Valid() && state.main == Filling(limit) && Grown(old(state), state, claimed)
        invariant TookOldest(old(state), state)
        decreases limit - |state.threads|
      {
        ghost var before := state;
        var found := ClaimNext();
        if found.None? {
          break;
        }
        OneMoreTaken(old(state), before, found.value);
        claimed := claimed + 1;
      }
      StepReached(fallback, history, StopFilling);
      history := history + [StopFilling];
      state := state.(main := Polling);
    }

    // reap_finished: every finished future goes, every other one stays.
    method ReapFinished()
      requires Valid() && state.main.Polling?
      modifies this
      ensures Valid() && state == old(state).(threads := Unfinished(old(state).threads, {}))
    {
      var todo := state.threads.Keys;
      NothingReaped(state.threads);
      while todo != {}
        invariant Valid() && todo <= old(state).threads.Keys
        invariant state == old(state).(threads := Unfinished(old(state).threads, todo))
        decreases |todo|
      {
        var id :| id in todo;
        StepReached(fallback, history, Reap(id));
        ReapOne(old(state).threads, todo, id);
        history := history + [Reap(id)];
        if state.threads[id].pc.Exited? {
          state := state.(threads := state.threads - {id});
        }
        todo := todo - {id};
      }
    }

    // reconcile_orphaned_runs, and how many runs it failed.
    method ReconcileOrphanedRuns() returns (reconciled: nat)
      requires Valid() && state.main.Down?
      modifies this
      ensures Valid() && state == DoReconcile(old(state))
      ensures reconciled == Count(old(state).runs)
    {
      StepReached(fallback, history, Reconcile);
      history := history + [Reconcile];
      var runs;
      runs, reconciled := OrphanAll(state.runs);
      state := state.(runs := runs, main := Polling);
    }
  }

  method OrphanAll(rows: seq<Run>) returns (runs: seq<Run>, reconciled: nat)
    ensures runs == Orphaned(rows) && reconciled == Count(rows)
  {
    runs, reconciled := [], 0;
    for i := 0 to |rows|
      invariant |runs| == i && reconciled == Count(rows[..i])
      invariant forall k :: 0 <= k < i ==> runs[k] == Orphan(rows[k])
    {
      assert rows[..i + 1][..i] == rows[..i];
      if Interrupted(rows[i].status) && !rows[i].archived {
        reconciled := reconciled + 1;
      }
      runs := runs + [Orphan(rows[i])];
    }
    assert rows[..|rows|] == rows;
  }

  // The runs a restart fails.
  function Count(runs: seq<Run>): nat {
    if runs == [] then 0
    else
      var last := runs[|runs| - 1];
      Count(runs[..|runs| - 1]) + if Interrupted(last.status) && !last.archived then 1 else 0
  }

  // Futures that are not finished, and the finished ones still to be looked at.
  function Unfinished(threads: map<nat, Thread>, todo: set<nat>): map<nat, Thread> {
    map id | id in threads && (id in todo || !threads[id].pc.Exited?) :: threads[id]
  }

  lemma NothingReaped(threads: map<nat, Thread>)
    ensures Unfinished(threads, threads.Keys) == threads
  {
  }

  lemma ReapOne(threads: map<nat, Thread>, todo: set<nat>, id: nat)
    requires id in todo && id in threads
    ensures id in Unfinished(threads, todo) && Unfinished(threads, todo)[id] == threads[id]
    ensures Unfinished(threads, todo - {id})
            == if threads[id].pc.Exited? then Unfinished(threads, todo) - {id} else Unfinished(threads, todo)
  {
  }

  // So many more claims and threads.
  ghost predicate Grown(before: State, after: State, claimed: nat) {
    |after.claims| == |before.claims| + claimed && |after.threads| == |before.threads| + claimed &&
    before.claims <= after.claims
  }

  lemma StepReached(fallback: int, history: seq<Action>, a: Action)
    ensures Reached(fallback, history + [a]) == Step(Reached(fallback, history), a)
  {
    OneMoreStep(Start(fallback), history, a);
  }

  lemma ClaimGrows(fallback: int, history: seq<Action>, id: nat)
    requires 1 <= fallback <= 16 && MayClaim(Reached(fallback, history), id)
    ensures Grown(Reached(fallback, history), DoClaim(Reached(fallback, history), id), 1)
  {
    ReachedInvariant(fallback, history);
    ClaimedIsNew(Reached(fallback, history), id);
  }

  // A queued run has no thread yet, so claiming it adds one.
  lemma ClaimedIsNew(s: State, id: nat)
    requires Inv(s) && MayClaim(s, id)
    ensures |DoClaim(s, id).threads| == |s.threads| + 1
  {
    ClaimedKeeps(RowOf(s, id));
    ThreadsKeepTheirNumber(s.threads, id, Thread(Loading, None));
  }
}
