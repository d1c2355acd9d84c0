// What holds after every interleaving of requests, worker transactions, crashes and restarts.
module RunnerHistory {
  import opened Wrappers
  import opened RunBudget
  import opened RunLifecycle
  import opened RunnerMachine
  import opened RunnerRows
  import opened RunnerSystem

  /* ---------- Creation and configuration ---------- */

  // A request that is accepted adds one run, queued, with its own time and budget; a rejected one adds none.
  lemma CreatedRuns(s: State, created: int, payload: Payload, scenario: ScenarioBudget, minimumCalls: int,
                    antigravity: bool)
    ensures var base := Create(payload, scenario, minimumCalls, antigravity);
            var after := Step(s, CreateRun(created, payload, scenario, minimumCalls, antigravity));
            if base.Failure? then after == s
            else
              && |after.runs| == |s.runs| + 1 && after.runs[..|s.runs|] == s.runs
              && var r := after.runs[|s.runs|];
              && r.status.Queued? && !r.archived && !r.pauseRequested && r.created == created
              && r.base == base.value && r.overrides == [] && r.minimumCalls == minimumCalls
              && r.antigravity == antigravity && |r.log| == 1 && r.log[0] == Event(1, RunQueued)
              && after.threads == s.threads && after.claims == s.claims && after.main == s.main
  {
    FirstEvent();
  }

  // The setting is the last one configured, or none.
  lemma {:induction false} SettingIsTheLatest(fallback: int, actions: seq<Action>)
    ensures var s := Reached(fallback, actions);
            && s.fallback == fallback
            && (s.setting.None? <==> forall i :: 0 <= i < |actions| ==> !actions[i].Configure?)
            && (s.setting.Some? ==> exists i :: LastSetting(actions, i) && actions[i].setting == s.setting.value)
  {
    if actions != [] {
      var n := |actions| - 1;
      SettingIsTheLatest(fallback, actions[..n]);
      var before := Reached(fallback, actions[..n]);
      StepKeepsTheSetting(before, actions[n]);
      if actions[n].Configure? {
        assert LastSetting(actions, n);
      } else if before.setting.Some? {
        var i :| LastSetting(actions[..n], i) && actions[..n][i].setting == before.setting.value;
        assert LastSetting(actions, i);
      }
    }
  }

  lemma StepKeepsTheSetting(s: State, a: Action)
    ensures Step(s, a).setting == if a.Configure? then Some(a.setting) else s.setting
    ensures Step(s, a).fallback == s.fallback
  {
  }

  ghost predicate LastSetting(actions: seq<Action>, i: int) {
    0 <= i < |actions| && actions[i].Configure? && forall j :: i < j < |actions| ==> !actions[j].Configure?
  }

  // The limit of a round of filling is the last setting, held between 1 and 16, or the fallback if there is none.
  lemma LimitsFollowTheSetting(fallback: int, actions: seq<Action>)
    requires Reached(fallback, actions).main.Polling?
    ensures var before := Reached(fallback, actions); var limit := Step(before, ReadLimit).main.limit;
            && Step(before, ReadLimit).main.Filling?
            && (before.setting.None? ==> limit == fallback)
            && (before.setting.Some? ==> 1 <= limit <= 16)
            && (before.setting.Some? && 1 <= before.setting.value <= 16 ==> limit == before.setting.value)
            && (before.setting.Some? && before.setting.value < 1 ==> limit == 1)
            && (before.setting.Some? && before.setting.value > 16 ==> limit == 16)
  {
    SettingIsTheLatest(fallback, actions);
  }

  /* ---------- The main loop ---------- */

  // No run waits: the queued ones are archived.
  ghost predicate NobodyWaits(s: State) {
    forall k :: 0 <= k < |s.runs| && s.runs[k].status.Queued? ==> s.runs[k].archived
  }

  // The main loop moves in one round of four places, and a round of filling ends exactly when all its slots are taken
  // or nobody waits.
  lemma MainLoopMoves(s: State, a: Action)
    ensures var after := Step(s, a).main;
            after != s.main ==>
              || (a.Crash? && after.Down?)
              || (a.Reconcile? && s.main.Down? && after.Polling?)
              || (a.ReadLimit? && s.main.Polling? && after.Filling?)
              || (a.StopFilling? && s.main.Filling? && after.Polling?)
    ensures s.main.Filling? ==>
              (Step(s, StopFilling).main.Polling? <==> |s.threads| >= s.main.limit || NobodyWaits(s))
    ensures s.main.Down? ==> Step(s, Reconcile).main.Polling?
    ensures Step(s, Crash).main.Down?
  {
  }

  // A run is claimed exactly while a round of filling has a slot for it and it is an oldest of those that wait; the
  // claim gives it a thread at the first place.
  lemma ClaimedIff(s: State, id: nat)
    ensures Step(s, Claim(id)).claims == s.claims + [id]
            <==> s.main.Filling? && |s.threads| < s.main.limit && id < |s.runs| &&
                 s.runs[id].status.Queued? && !s.runs[id].archived &&
                 forall k :: 0 <= k < |s.runs| && s.runs[k].status.Queued? && !s.runs[k].archived ==>
                   s.runs[id].created <= s.runs[k].created
    ensures Step(s, Claim(id)).claims == s.claims + [id] ==>
              Step(s, Claim(id)).runs[id].status.Preparing? &&
              Step(s, Claim(id)).threads == s.threads[id := Thread(Loading, None)]
    ensures Step(s, Claim(id)).claims != s.claims + [id] ==> Step(s, Claim(id)) == s
  {
  }

  // A thread comes with the claim of its run, and goes with a crash or when it is reaped: exactly when it has come to
  // its end and the main loop polls.
  lemma ThreadsComeAndGo(s: State, a: Action, id: nat)
    ensures id !in s.threads && id in Step(s, a).threads ==> a == Claim(id)
    ensures id in s.threads && id !in Step(s, a).threads ==> a.Crash? || a == Reap(id)
    ensures id in s.threads ==>
              (id !in Step(s, Reap(id)).threads <==> s.threads[id].pc.Exited? && s.main.Polling?)
    ensures Step(s, Crash).threads == map[] && Step(s, Crash).runs == s.runs
  {
  }

  /* ---------- Logs ---------- */

  ghost predicate LogTells(r: Run) {
    && (forall k :: 0 <= k < |r.log| ==> r.log[k].sequence == k + 1)
    && Told(r.log).status == r.status && Told(r.log).paused == r.pauseRequested && Told(r.log).archived == r.archived
    && (r.archived ==> Terminal(r.status))
    && (Terminal(r.status) <==> exists k :: 0 <= k < |r.log| && EndsARun(r.log[k].kind))
    && (forall i, j :: 0 <= i < j < |r.log| && EndsARun(r.log[i].kind) ==> MayFollowTheEnd(r.log[j].kind))
    && (forall i, j :: 0 <= i < j < |r.log| && r.log[i].kind.RunArchived? ==> r.log[j].kind.EngineNote?)
  }

  lemma ConsistentLogTells(r: Run)
    requires Consistent(r)
    ensures LogTells(r)
  {
    EndedMeans(r.log);
    forall i, j | 0 <= i < j < |r.log| && EndsARun(r.log[i].kind) ensures MayFollowTheEnd(r.log[j].kind) {
      TidyMeans(r.log, i, j);
    }
    forall i, j | 0 <= i < j < |r.log| && r.log[i].kind.RunArchived? ensures r.log[j].kind.EngineNote? {
      ArchivedIsLast(r.log, i, j);
    }
  }

  // In every history each log is numbered 1, 2, 3 and so on, and tells the status, the pause and the archival of its
  // run; only archiving, once, and engine notes follow the end; an archived run has ended; the budget in force is
  // valid.
  lemma EveryLogTellsItsRun(fallback: int, actions: seq<Action>, id: nat)
    requires 1 <= fallback <= 16 && id < |Reached(fallback, actions).runs|
    ensures var r := Reached(fallback, actions).runs[id];
            LogTells(r) && Sufficient(Applied(r.base, r.overrides), r.minimumCalls)
  {
    ReachedInvariant(fallback, actions);
    assert RowHolds(RowOf(Reached(fallback, actions), id));
    ConsistentLogTells(Reached(fallback, actions).runs[id]);
  }

  // Whatever happens next, a run that has ended keeps its status, and logs and override logs only grow.
  lemma EndsAreForever(fallback: int, actions: seq<Action>, more: seq<Action>, id: nat)
    requires 1 <= fallback <= 16 && id < |Reached(fallback, actions).runs|
    ensures var s := Reached(fallback, actions); var later := RunAll(s, more);
            && id < |later.runs|
            && (Terminal(s.runs[id].status) ==> later.runs[id].status == s.runs[id].status)
            && s.runs[id].log <= later.runs[id].log && s.runs[id].overrides <= later.runs[id].overrides
            && (s.runs[id].archived ==> later.runs[id].archived)
  {
    var s := Reached(fallback, actions);
    ReachedInvariant(fallback, actions);
    HistoryKeepsInvariant(s, more);
    assert Evolves(s.runs[id], RunAll(s, more).runs[id]);
  }

  /* ---------- Threads, and runs lost in `fail` ---------- */

  predicate HasLiveThread(s: State, id: nat) {
    id in s.threads && !s.threads[id].pc.Exited?
  }

  // A thread dies in the transaction of `fail`: the exception handler itself raises.
  predicate DiesIn(s: State, a: Action, id: nat) {
    a == Work(id, Raise) && id < |s.runs| && id in s.threads && s.threads[id].pc.Failing?
  }

  // In every history each run is claimed at most once and at most sixteen futures exist. An exited thread has left its
  // run ended unless its `fail` raised and the run was not cancelled. While the Runner is up, a run is interrupted
  // exactly when it was not cancelled and has a live thread or has lost its thread in `fail`.
  lemma ThreadsAndClaims(fallback: int, actions: seq<Action>)
    requires 1 <= fallback <= 16
    ensures var s := Reached(fallback, actions);
            && NoRepeats(s.claims) && |s.threads| <= 16
            && (forall id :: id in s.threads && s.threads[id].pc.Exited? ==>
                  id < |s.runs| && (Terminal(s.runs[id].status) <==> id !in s.lost || s.runs[id].status.Cancelled?))
            && (!s.main.Down? ==> forall k :: 0 <= k < |s.runs| ==>
                  (Interrupted(s.runs[k].status)
                   <==> !s.runs[k].status.Cancelled? && (HasLiveThread(s, k) || k in s.lost)))
  {
    var s := Reached(fallback, actions);
    ReachedInvariant(fallback, actions);
    forall id | id in s.threads && s.threads[id].pc.Exited?
      ensures id < |s.runs| && (Terminal(s.runs[id].status) <==> id !in s.lost || s.runs[id].status.Cancelled?)
    {
      ThreadAndLoss(s, id);
    }
    forall k | 0 <= k < |s.runs| && !s.main.Down?
      ensures Interrupted(s.runs[k].status)
              <==> !s.runs[k].status.Cancelled? && (HasLiveThread(s, k) || k in s.lost)
    {
      ThreadAndLoss(s, k);
    }
  }

  lemma ThreadAndLoss(s: State, k: nat)
    requires Inv(s) && (k < |s.runs| || k in s.threads)
    ensures k < |s.runs|
    ensures k in s.threads && s.threads[k].pc.Exited? ==>
              (Terminal(s.runs[k].status) <==> k !in s.lost || s.runs[k].status.Cancelled?)
    ensures !s.main.Down? ==>
              (Interrupted(s.runs[k].status)
               <==> !s.runs[k].status.Cancelled? && (HasLiveThread(s, k) || k in s.lost))
  {
    assert k < |s.runs|;
    var v := RowOf(s, k);
    assert RowHolds(v);
    PlacesOfTheInterrupted(v.run.status, PlaceOf(v.thread), v.lost, v.up);
  }

  lemma PlacesOfTheInterrupted(s: Status, pc: Option<Pc>, lost: bool, up: bool)
    requires Steady(s, pc, lost, up)
    ensures pc.Some? && pc.value.Exited? ==> (Terminal(s) <==> !lost || s.Cancelled?)
    ensures up ==> (Interrupted(s) <==> !s.Cancelled? && (Live(pc) || lost))
  {
  }

  // The lost runs are exactly those whose thread died in `fail` after the last crash.
  lemma {:induction false} LostMeans(fallback: int, actions: seq<Action>, id: nat)
    ensures id in Reached(fallback, actions).lost
            <==> exists j :: 0 <= j < |actions| && DiedAt(fallback, actions, id, j)
  {
    if actions != [] {
      var n := |actions| - 1;
      LostMeans(fallback, actions[..n], id);
      LostByOneStep(Reached(fallback, actions[..n]), actions[n], id);
      DeathsOfOneMore(fallback, actions, id);
    }
  }

  ghost predicate DiedAt(fallback: int, actions: seq<Action>, id: nat, j: nat)
    requires j < |actions|
  {
    DiesIn(Reached(fallback, actions[..j]), actions[j], id) && forall m :: j < m < |actions| ==> !actions[m].Crash?
  }

  lemma LostByOneStep(s: State, a: Action, id: nat)
    ensures id in Step(s, a).lost <==> DiesIn(s, a, id) || (id in s.lost && !a.Crash?)
  {
  }

  lemma DeathsOfOneMore(fallback: int, actions: seq<Action>, id: nat)
    requires actions != []
    ensures var n := |actions| - 1;
            (exists j :: 0 <= j < |actions| && DiedAt(fallback, actions, id, j))
            <==> DiesIn(Reached(fallback, actions[..n]), actions[n], id) ||
                 (!actions[n].Crash? && exists j :: 0 <= j < n && DiedAt(fallback, actions[..n], id, j))
  {
    var n := |actions| - 1;
    forall j | 0 <= j < n
      ensures DiedAt(fallback, actions, id, j) <==> !actions[n].Crash? && DiedAt(fallback, actions[..n], id, j)
    {
      DeathStays(fallback, actions, id, j);
    }
    if exists j :: 0 <= j < |actions| && DiedAt(fallback, actions, id, j) {
      var j :| 0 <= j < |actions| && DiedAt(fallback, actions, id, j);
      assert j < n ==> DiedAt(fallback, actions[..n], id, j);
    }
    if DiesIn(Reached(fallback, actions[..n]), actions[n], id) {
      assert DiedAt(fallback, actions, id, n);
    }
  }

  lemma DeathStays(fallback: int, actions: seq<Action>, id: nat, j: nat)
    requires j < |actions| - 1
    ensures var n := |actions| - 1;
            DiedAt(fallback, actions, id, j) <==> !actions[n].Crash? && DiedAt(fallback, actions[..n], id, j)
  {
    var n := |actions| - 1;
    var fewer := actions[..n];
    assert fewer[..j] == actions[..j] && fewer[j] == actions[j];
    assert forall m :: j < m < n ==> fewer[m] == actions[m];
  }

  // Two exceptions in a row, one in the work and one in `fail`, leave any run that was not cancelled interrupted
  // without a live thread, wherever its thread stood; once the future is reaped nothing points to it any more.
  lemma TwoExceptionsLoseTheRun(s: State, id: nat)
    requires Inv(s) && s.main.Polling? && id < |s.runs| && HasLiveThread(s, id) && !s.threads[id].pc.Failing?
    requires !s.runs[id].status.Cancelled?
    ensures var gone := DoReap(DoWork(DoWork(s, id, Raise), id, Raise), id);
            && gone.main.Polling? && id < |gone.runs| && id !in gone.threads && id in gone.lost
            && Interrupted(gone.runs[id].status)
  {
    var once := DoWork(s, id, Raise);
    var twice := DoWork(once, id, Raise);
    RaiseOnce(s, id);
    RaiseInFail(once, id);
    StepKeepsInvariant(s, Work(id, Raise));
    StepKeepsInvariant(once, Work(id, Raise));
    LostAndReaped(twice, id);
  }

  lemma LostAndReaped(s: State, id: nat)
    requires Inv(s) && s.main.Polling? && id < |s.runs| && id in s.lost && !s.runs[id].status.Cancelled?
    requires id in s.threads && s.threads[id].pc.Exited?
    ensures var gone := DoReap(s, id);
            && gone.main.Polling? && id < |gone.runs| && id !in gone.threads && id in gone.lost
            && Interrupted(gone.runs[id].status)
  {
    ThreadAndLoss(s, id);
  }

  lemma RaiseOnce(s: State, id: nat)
    requires Inv(s) && id < |s.runs| && HasLiveThread(s, id) && !s.threads[id].pc.Failing?
    ensures var t := DoWork(s, id, Raise);
            && id < |t.runs| && id in t.threads && t.threads[id].pc.Failing? && t.main == s.main
            && t.runs[id].status == s.runs[id].status
  {
    CommitStatus(s.runs[id], Next(s.runs[id].status.Cancelled?, s.threads[id].pc, Raise).0);
  }

  lemma RaiseInFail(s: State, id: nat)
    requires id < |s.runs| && id in s.threads && s.threads[id].pc.Failing?
    ensures var t := DoWork(s, id, Raise);
            && |t.runs| == |s.runs| && t.runs[id] == s.runs[id] && t.main == s.main
            && id in t.threads && t.threads[id].pc.Exited? && id in t.lost
  {
  }

  // One run, created and claimed by a Runner that has just started.
  function FirstRun(fallback: int): State {
    State([ClaimRun(Queue(0, DEFAULTS, 0, false))], map[0 := Thread(Loading, None)], {}, Polling, None, fallback, [0])
  }

  const FIRST_CLAIM: seq<Action> :=
    [Reconcile, CreateRun(0, map[], DEFAULTS, 0, false), ReadLimit, Claim(0), StopFilling]

  lemma DefaultsAreAccepted()
    ensures Create(map[], DEFAULTS, 0, false) == Success(DEFAULTS)
  {
  }

  // The same run while it is queued and the Runner is about to claim it.
  function QueuedRun(fallback: int, main: Main): State {
    State([Queue(0, DEFAULTS, 0, false)], map[], {}, main, None, fallback, [])
  }

  lemma FirstRunIsQueued(fallback: int)
    ensures Step(Start(fallback), Reconcile) == Start(fallback).(main := Polling)
    ensures Step(Start(fallback).(main := Polling), CreateRun(0, map[], DEFAULTS, 0, false))
            == QueuedRun(fallback, Polling)
    ensures Step(QueuedRun(fallback, Polling), ReadLimit) == QueuedRun(fallback, Filling(fallback))
  {
    DefaultsAreAccepted();
    assert Orphaned([]) == [];
  }

  lemma FirstRunIsClaimed(fallback: int)
    requires 1 <= fallback <= 16
    ensures Step(QueuedRun(fallback, Filling(fallback)), Claim(0)) == FirstRun(fallback).(main := Filling(fallback))
    ensures Step(FirstRun(fallback).(main := Filling(fallback)), StopFilling) == FirstRun(fallback)
  {
    var s := QueuedRun(fallback, Filling(fallback));
    assert MayClaim(s, 0);
    assert s.runs[0 := ClaimRun(s.runs[0])] == [ClaimRun(s.runs[0])];
    assert NoneClaimable(FirstRun(fallback).runs);
  }

  lemma FirstRunIsReached(fallback: int)
    requires 1 <= fallback <= 16
    ensures Reached(fallback, FIRST_CLAIM) == FirstRun(fallback)
  {
    FirstRunIsQueued(fallback);
    FirstRunIsClaimed(fallback);
    FiveSteps(Start(fallback), Start(fallback).(main := Polling), QueuedRun(fallback, Polling),
              QueuedRun(fallback, Filling(fallback)), FirstRun(fallback).(main := Filling(fallback)), FIRST_CLAIM);
  }

  lemma FiveSteps(s0: State, s1: State, s2: State, s3: State, s4: State, actions: seq<Action>)
    requires |actions| == 5 && Step(s0, actions[0]) == s1 && Step(s1, actions[1]) == s2 && Step(s2, actions[2]) == s3
    requires Step(s3, actions[3]) == s4
    ensures RunAll(s0, actions) == Step(s4, actions[4])
  {
    assert RunAll(s0, actions[..0]) == s0;
    NextPrefix(s0, actions, 0);
    NextPrefix(s0, actions, 1);
    NextPrefix(s0, actions, 2);
    NextPrefix(s0, actions, 3);
    NextPrefix(s0, actions, 4);
    assert actions[..5] == actions;
  }

  lemma NextPrefix(s: State, actions: seq<Action>, k: nat)
    requires k < |actions|
    ensures RunAll(s, actions[..k + 1]) == Step(RunAll(s, actions[..k]), actions[k])
  {
    assert actions[..k + 1][..k] == actions[..k];
  }

  ghost predicate IsLost(s: State, id: nat) {
    s.main.Polling? && id < |s.runs| && Interrupted(s.runs[id].status) && id !in s.threads && id in s.lost
  }

  // A working run: the Runner polls, and the run's thread is alive and not on its way to `fail`.
  ghost predicate AtWork(s: State, id: nat) {
    s.main.Polling? && id < |s.runs| && HasLiveThread(s, id) && !s.threads[id].pc.Failing? &&
    !s.runs[id].status.Cancelled?
  }

  lemma AnyWorkingRunCanBeLost(fallback: int, actions: seq<Action>, id: nat)
    requires 1 <= fallback <= 16 && AtWork(Reached(fallback, actions), id)
    ensures IsLost(Reached(fallback, actions + [Work(id, Raise)] + [Work(id, Raise)] + [Reap(id)]), id)
  {
    ReachedInvariant(fallback, actions);
    ThreeMoreSteps(Start(fallback), actions, Work(id, Raise), Work(id, Raise), Reap(id));
    TwoExceptionsLoseTheRun(Reached(fallback, actions), id);
  }

  // It does happen: a history after which the Runner is up and polling, and a run stays preparing without a thread.
  lemma LosingHistory(fallback: int)
    requires 1 <= fallback <= 16
    ensures IsLost(Reached(fallback, FIRST_CLAIM + [Work(0, Raise)] + [Work(0, Raise)] + [Reap(0)]), 0)
  {
    FirstRunIsReached(fallback);
    assert AtWork(FirstRun(fallback), 0);
    AnyWorkingRunCanBeLost(fallback, FIRST_CLAIM, 0);
  }

  lemma ThreeMoreSteps(s: State, actions: seq<Action>, a: Action, b: Action, c: Action)
    ensures RunAll(s, actions + [a] + [b] + [c]) == Step(Step(Step(RunAll(s, actions), a), b), c)
  {
    OneMoreStep(s, actions, a);
    OneMoreStep(s, actions + [a], b);
    OneMoreStep(s, actions + [a] + [b], c);
  }

  /* ---------- Restarts ---------- */

  ghost predicate OnlyRequests(meanwhile: seq<Action>) {
    forall k :: 0 <= k < |meanwhile| ==> meanwhile[k].Ask? || meanwhile[k].CreateRun? || meanwhile[k].Configure?
  }

  // After a restart and its reconciliation every run is queued or has ended, whatever requests came in between.
  lemma RestartLeavesNoneInterrupted(fallback: int, actions: seq<Action>, meanwhile: seq<Action>)
    requires 1 <= fallback <= 16 && OnlyRequests(meanwhile)
    ensures var up := DoReconcile(RunAll(DoCrash(Reached(fallback, actions)), meanwhile));
            up.main.Polling? && forall k :: 0 <= k < |up.runs| ==>
              up.runs[k].status.Queued? || Terminal(up.runs[k].status)
  {
    var before := Reached(fallback, actions);
    ReachedInvariant(fallback, actions);
    StepKeepsInvariant(before, Crash);
    HistoryKeepsInvariant(DoCrash(before), meanwhile);
    StaysDown(DoCrash(before), meanwhile);
    ReconciledRuns(RunAll(DoCrash(before), meanwhile));
  }

  lemma ReconciledRuns(s: State)
    requires Inv(s) && s.main.Down?
    ensures var up := DoReconcile(s);
            up.main.Polling? && forall k :: 0 <= k < |up.runs| ==>
              up.runs[k].status.Queued? || Terminal(up.runs[k].status)
  {
    forall k | 0 <= k < |s.runs| ensures !Interrupted(Orphan(s.runs[k]).status) {
      assert RowHolds(RowOf(s, k));
      OrphanKeeps(s.runs[k]);
    }
  }

  lemma {:induction false} StaysDown(s: State, meanwhile: seq<Action>)
    requires s.main.Down? && OnlyRequests(meanwhile)
    ensures RunAll(s, meanwhile).main.Down?
  {
    if meanwhile != [] {
      StaysDown(s, meanwhile[..|meanwhile| - 1]);
    }
  }

  // A restart fails exactly the runs that were not cancelled and had a live thread or had lost theirs; so the runs lost
  // in `fail` are failed by the next restart, and if nothing else was running, exactly those.
  lemma RestartFailsExactly(fallback: int, actions: seq<Action>, id: nat)
    requires 1 <= fallback <= 16
    requires var s := Reached(fallback, actions); !s.main.Down? && id < |s.runs|
    ensures var s := Reached(fallback, actions); var up := DoReconcile(DoCrash(s));
            && id < |up.runs|
            && (up.runs[id] != s.runs[id]
                <==> !s.runs[id].status.Cancelled? && (HasLiveThread(s, id) || id in s.lost))
            && (up.runs[id] != s.runs[id] ==> up.runs[id].status.Failed? && !Terminal(s.runs[id].status))
  {
    var s := Reached(fallback, actions);
    ReachedInvariant(fallback, actions);
    ThreadAndLoss(s, id);
    assert RowHolds(RowOf(s, id));
    OrphanChanges(s.runs[id]);
  }

  lemma OrphanChanges(r: Run)
    requires Consistent(r)
    ensures Orphan(r) != r <==> Interrupted(r.status)
    ensures Orphan(r) != r ==> Orphan(r).status.Failed?
  {
  }

  /* ---------- The engine's budget ---------- */

  ghost predicate EngineFollows(s: State, id: nat) {
    id < |s.runs| && id in s.threads &&
    var r := s.runs[id];
    s.threads[id].meter == Some(Meter(Applied(r.base, r.overrides), |r.overrides|)) &&
    Sufficient(Applied(r.base, r.overrides), r.minimumCalls)
  }

  // In every history, when the engine reads the override log it ends up with exactly the budget in force: it never
  // rejects what the API accepted.
  lemma EngineAlwaysFollows(fallback: int, actions: seq<Action>, id: nat)
    requires 1 <= fallback <= 16
    requires var s := Reached(fallback, actions); id in s.threads && s.threads[id].pc.Investigating?
    ensures EngineFollows(DoWork(Reached(fallback, actions), id, ReadOverrides), id)
  {
    ReachedInvariant(fallback, actions);
    PollInside(Reached(fallback, actions), id);
  }

  lemma PollInside(s: State, id: nat)
    requires Inv(s) && id in s.threads && s.threads[id].pc.Investigating?
    ensures EngineFollows(DoWork(s, id, ReadOverrides), id)
  {
    assert id < |s.runs|;
    assert RowHolds(RowOf(s, id));
    PollStep(s.runs[id], s.threads[id]);
  }

  /* ---------- Who changes a run ---------- */

  // A run completes only at the end of its own thread, fails only after an exception or a restart, is cancelled only
  // by request, and passes through preparing, running and scoring in this order.
  lemma StatusChangesHaveTheirCause(s: State, a: Action, id: nat)
    requires Inv(s) && id < |s.runs| && id < |Step(s, a).runs|
    requires Step(s, a).runs[id].status != s.runs[id].status
    ensures Causes(RowOf(s, id), EventFor(s, a, id), Step(s, a).runs[id].status)
  {
    StepByRow(s, a, id);
    RowStatusHasItsCause(RowOf(s, id), EventFor(s, a, id));
  }

  // Budgets change only by adjustments of active runs, pauses are requested and lifted only while running (or lifted by
  // the end of the run), and runs are archived only by request; worker threads change none of these.
  lemma RowChangesHaveTheirCause(s: State, a: Action, id: nat)
    requires id < |s.runs|
    ensures id < |Step(s, a).runs|
    ensures var r, after := s.runs[id], Step(s, a).runs[id];
            SameRest(r, after)
            || (a.Ask? && a.id == id && RequestMayChange(r, a.request, after))
            || (a.Reconcile? && after == Orphan(r))
  {
    StepByRow(s, a, id);
    RowRestHasItsCause(RowOf(s, id), EventFor(s, a, id));
  }
}
