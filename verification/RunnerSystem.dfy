// All runs, all worker threads, the claim loop and restarts as one state machine whose transactions interleave.
module RunnerSystem {
  import opened Wrappers
  import opened RunBudget
  import opened RunLifecycle
  import opened RunnerMachine
  import opened RunnerRows

  // Where the Runner's main loop stands. A Runner that is down has no threads; it reconciles before it polls.
  datatype Main = Down | Polling | Filling(limit: int)

  // `threads` is the futures of the main loop, by run; `lost` the runs whose thread died in `fail` since the Runner
  // came up; `claims` lists the claimed runs in order.
  datatype State = State(runs: seq<Run>, threads: map<nat, Thread>, lost: set<nat>, main: Main, setting: Option<int>,
                         fallback: int, claims: seq<nat>)

  // The Scenario's budget comes from a manifest that was validated.
  type ScenarioBudget = b: Budget | Valid(b) witness DEFAULTS

  datatype Action =
    | CreateRun(created: int, payload: Payload, scenario: ScenarioBudget, minimumCalls: int, antigravity: bool)
    | Ask(id: nat, request: Request)
    | Configure(setting: int)
    | ReadLimit
    | Claim(id: nat)
    | StopFilling
    | Work(id: nat, outcome: Outcome)
    | Reap(id: nat)
    | Crash
    | Reconcile

  // concurrency_limit: the platform's setting between 1 and 16, or the configured value.
  function ConcurrencyLimit(s: State): int {
    match s.setting
    case None => s.fallback
    case Some(n) => if n < 1 then 1 else if n > 16 then 16 else n
  }

  // The queued run that claim takes: no other queued run was created before it.
  predicate IsOldest(runs: seq<Run>, id: nat) {
    id < |runs| && Claimable(runs[id]) &&
    forall k :: 0 <= k < |runs| && Claimable(runs[k]) ==> runs[id].created <= runs[k].created
  }

  predicate NoneClaimable(runs: seq<Run>) {
    forall k :: 0 <= k < |runs| ==> !Claimable(runs[k])
  }

  function Orphaned(runs: seq<Run>): seq<Run> {
    seq(|runs|, k requires 0 <= k < |runs| => Orphan(runs[k]))
  }

  function DoCreate(s: State, created: int, base: Result<Budget>, minimumCalls: int, antigravity: bool): State {
    if base.Failure? then s else s.(runs := s.runs + [Queue(created, base.value, minimumCalls, antigravity)])
  }

  function DoAsk(s: State, id: nat, request: Request): State {
    if id < |s.runs| then s.(runs := s.runs[id := Handle(s.runs[id], request)]) else s
  }

  predicate MayClaim(s: State, id: nat) {
    s.main.Filling? && |s.threads| < s.main.limit && IsOldest(s.runs, id)
  }

  function DoClaim(s: State, id: nat): State {
    if !MayClaim(s, id) then s
    else s.(runs := s.runs[id := ClaimRun(s.runs[id])], threads := s.threads[id := Thread(Loading, None)],
            claims := s.claims + [id])
  }

  function DoWork(s: State, id: nat, outcome: Outcome): State {
    if id < |s.runs| && id in s.threads then
      var (after, next) := Step1(s.runs[id], s.threads[id], outcome);
      s.(runs := s.runs[id := after], threads := s.threads[id := next],
         lost := if Dies(s.threads[id].pc, outcome) then s.lost + {id} else s.lost)
    else s
  }

  predicate MayReap(s: State, id: nat) {
    s.main.Polling? && id in s.threads && s.threads[id].pc.Exited?
  }

  function DoReap(s: State, id: nat): State {
    if MayReap(s, id) then s.(threads := s.threads - {id}) else s
  }

  function DoStop(s: State): State {
    if s.main.Filling? && (|s.threads| >= s.main.limit || NoneClaimable(s.runs)) then s.(main := Polling) else s
  }

  function DoReadLimit(s: State): State {
    if s.main.Polling? then s.(main := Filling(ConcurrencyLimit(s))) else s
  }

  function DoCrash(s: State): State {
    s.(threads := map[], lost := {}, main := Down)
  }

  function DoReconcile(s: State): State {
    if s.main.Down? then s.(runs := Orphaned(s.runs), main := Polling) else s
  }

  // One transaction. A step whose guard does not hold changes nothing.
  function Step(s: State, a: Action): State {
    match a
    case CreateRun(created, payload, scenario, minimumCalls, antigravity) =>
      DoCreate(s, created, Create(payload, scenario, minimumCalls, antigravity), minimumCalls, antigravity)
    case Ask(id, request) => DoAsk(s, id, request)
    case Configure(n) => s.(setting := Some(n))
    case ReadLimit => DoReadLimit(s)
    case Claim(id) => DoClaim(s, id)
    case StopFilling => DoStop(s)
    case Work(id, outcome) => DoWork(s, id, outcome)
    case Reap(id) => DoReap(s, id)
    case Crash => DoCrash(s)
    case Reconcile => DoReconcile(s)
  }

  function Start(fallback: int): State {
    State([], map[], {}, Down, None, fallback, [])
  }

  function RunAll(s: State, actions: seq<Action>): State {
    if actions == [] then s else Step(RunAll(s, actions[..|actions| - 1]), actions[|actions| - 1])
  }

  /* ---------- The system run by run ---------- */

  function RowOf(s: State, k: nat): Row
    requires k < |s.runs|
  {
    Row(s.runs[k], if k in s.threads then Some(s.threads[k]) else None, k in s.lost, k in s.claims, !s.main.Down?)
  }

  // What an action means for one run.
  function EventFor(s: State, a: Action, k: nat): RowEvent {
    match a
    case Ask(id, request) => if id == k then Asked(request) else Untouched
    case Claim(id) => if id == k && MayClaim(s, id) then Claimed else Untouched
    case Work(id, outcome) => if id == k then Worked(outcome) else Untouched
    case Reap(id) => if id == k && MayReap(s, id) then Reaped else Untouched
    case Crash => Crashed
    case Reconcile => if s.main.Down? then Reconciled else Untouched
    case _ => Untouched
  }

  lemma WorkByRow(s: State, id: nat, outcome: Outcome, k: nat)
    requires k < |s.runs|
    ensures var after := DoWork(s, id, outcome);
            k < |after.runs| && RowOf(after, k) == RowAfter(RowOf(s, k), if id == k then Worked(outcome) else Untouched)
  {
  }

  lemma ClaimByRow(s: State, id: nat, k: nat)
    requires k < |s.runs|
    ensures var after := DoClaim(s, id);
            k < |after.runs| && RowOf(after, k) == RowAfter(RowOf(s, k), EventFor(s, Claim(id), k))
  {
  }

  lemma RestartByRow(s: State, a: Action, k: nat)
    requires k < |s.runs| && (a.Crash? || a.Reconcile?)
    ensures k < |Step(s, a).runs| && RowOf(Step(s, a), k) == RowAfter(RowOf(s, k), EventFor(s, a, k))
  {
  }

  // An action changes each run's row by its own event.
  lemma StepByRow(s: State, a: Action, k: nat)
    requires k < |s.runs|
    ensures k < |Step(s, a).runs| && RowOf(Step(s, a), k) == RowAfter(RowOf(s, k), EventFor(s, a, k))
  {
    match a
    case Work(id, outcome) => WorkByRow(s, id, outcome, k);
    case Claim(id) => ClaimByRow(s, id, k);
    case Crash => RestartByRow(s, a, k);
    case Reconcile => RestartByRow(s, a, k);
    case _ =>
  }

  lemma EventIsPossible(s: State, a: Action, k: nat)
    requires k < |s.runs|
    ensures Possible(RowOf(s, k), EventFor(s, a, k))
  {
  }

  /* ---------- The invariant ---------- */

  ghost predicate RowsHold(s: State) {
    forall k :: 0 <= k < |s.runs| ==> RowHolds(RowOf(s, k))
  }

  // Threads, losses and claims are of existing runs.
  ghost predicate KnownRuns(s: State) {
    (forall id :: id in s.threads ==> id < |s.runs|) && (forall id :: id in s.lost ==> id < |s.runs|) &&
    forall i :: 0 <= i < |s.claims| ==> s.claims[i] < |s.runs|
  }

  // Sixteen pool threads are always enough.
  ghost predicate PoolSuffices(s: State) {
    |s.threads| <= 16 && 1 <= s.fallback <= 16 && (s.main.Filling? ==> 1 <= s.main.limit <= 16)
  }

  ghost predicate NoRepeats(claims: seq<nat>) {
    forall i, j :: 0 <= i < j < |claims| ==> claims[i] != claims[j]
  }

  ghost predicate Inv(s: State) {
    RowsHold(s) && KnownRuns(s) && PoolSuffices(s) && NoRepeats(s.claims)
  }

  ghost predicate AllEvolve(before: seq<Run>, after: seq<Run>) {
    |before| <= |after| && forall k :: 0 <= k < |before| ==> Evolves(before[k], after[k])
  }

  lemma InitiallyInvariant(fallback: int)
    requires 1 <= fallback <= 16
    ensures Inv(Start(fallback))
  {
  }

  // The rows there were before a step.
  lemma OldRowKept(s: State, a: Action, k: nat)
    requires RowsHold(s) && k < |s.runs|
    ensures k < |Step(s, a).runs| && RowHolds(RowOf(Step(s, a), k)) && Evolves(s.runs[k], Step(s, a).runs[k])
  {
    StepByRow(s, a, k);
    EventIsPossible(s, a, k);
    RowStepHolds(RowOf(s, k), EventFor(s, a, k));
  }

  // A run appears only by creation, queued.
  lemma NewRunIsQueued(s: State, a: Action)
    ensures |Step(s, a).runs| == |s.runs| ||
            (|Step(s, a).runs| == |s.runs| + 1 && a.CreateRun? && CreatedRunHolds(Step(s, a).runs[|s.runs|]))
  {
    if a.CreateRun? {
      CreatedBudgetIsSufficient(a.payload, a.scenario, a.minimumCalls, a.antigravity);
      var base := Create(a.payload, a.scenario, a.minimumCalls, a.antigravity);
      if base.Success? {
        QueuedRunIsConsistent(a.created, base.value, a.minimumCalls, a.antigravity);
      }
    }
  }

  ghost predicate CreatedRunHolds(r: Run) {
    Consistent(r) && r.status.Queued?
  }

  lemma NewRowKept(s: State, a: Action)
    requires KnownRuns(s) && a.CreateRun? && |Step(s, a).runs| == |s.runs| + 1
    ensures RowHolds(RowOf(Step(s, a), |s.runs|))
  {
    NewRunIsQueued(s, a);
    NewRowHolds(Step(s, a).runs[|s.runs|], !s.main.Down?);
    assert RowOf(Step(s, a), |s.runs|) == Row(Step(s, a).runs[|s.runs|], None, false, false, !s.main.Down?);
  }

  lemma RowsKeep(s: State, a: Action)
    requires RowsHold(s) && KnownRuns(s)
    ensures RowsHold(Step(s, a)) && AllEvolve(s.runs, Step(s, a).runs)
  {
    var after := Step(s, a);
    NewRunIsQueued(s, a);
    forall k | 0 <= k < |after.runs|
      ensures RowHolds(RowOf(after, k)) && (k < |s.runs| ==> Evolves(s.runs[k], after.runs[k]))
    {
      if k < |s.runs| {
        OldRowKept(s, a, k);
      } else {
        NewRowKept(s, a);
      }
    }
  }

  lemma KnownRunsKeep(s: State, a: Action)
    requires KnownRuns(s)
    ensures KnownRuns(Step(s, a))
  {
    NewRunIsQueued(s, a);
  }

  lemma ThreadsKeepTheirNumber(threads: map<nat, Thread>, id: nat, next: Thread)
    ensures |threads[id := next]| == |threads| + if id in threads then 0 else 1
  {
    assert threads[id := next].Keys == threads.Keys + {id};
  }

  lemma OneThreadLess(threads: map<nat, Thread>, id: nat)
    ensures |threads - {id}| <= |threads|
  {
    assert (threads - {id}).Keys == threads.Keys - {id};
  }

  lemma PoolKeeps(s: State, a: Action)
    requires PoolSuffices(s)
    ensures PoolSuffices(Step(s, a))
  {
    match a
    case Claim(id) => ThreadsKeepTheirNumber(s.threads, id, Thread(Loading, None));
    case Work(id, outcome) =>
      if id < |s.runs| && id in s.threads {
        ThreadsKeepTheirNumber(s.threads, id, Step1(s.runs[id], s.threads[id], outcome).1);
      }
    case Reap(id) => OneThreadLess(s.threads, id);
    case _ =>
  }

  lemma ClaimsKeep(s: State, a: Action)
    requires RowsHold(s) && NoRepeats(s.claims)
    ensures NoRepeats(Step(s, a).claims)
  {
    if a.Claim? && MayClaim(s, a.id) {
      ClaimedKeeps(RowOf(s, a.id));
    }
  }

  // Every step of every kind keeps the invariant, and no step undoes what a run has reached.
  lemma StepKeepsInvariant(s: State, a: Action)
    requires Inv(s)
    ensures Inv(Step(s, a)) && AllEvolve(s.runs, Step(s, a).runs)
  {
    RowsKeep(s, a);
    KnownRunsKeep(s, a);
    PoolKeeps(s, a);
    ClaimsKeep(s, a);
  }

  lemma EvolvesItself(runs: seq<Run>)
    ensures AllEvolve(runs, runs)
  {
  }

  lemma AllEvolveTransitive(a: seq<Run>, b: seq<Run>, c: seq<Run>)
    requires AllEvolve(a, b) && AllEvolve(b, c)
    ensures AllEvolve(a, c)
  {
    forall k | 0 <= k < |a| ensures Evolves(a[k], c[k]) {
      EvolvesTransitive(a[k], b[k], c[k]);
    }
  }

  // Every interleaving keeps the invariant.
  lemma {:induction false} HistoryKeepsInvariant(s: State, actions: seq<Action>)
    requires Inv(s)
    ensures Inv(RunAll(s, actions)) && AllEvolve(s.runs, RunAll(s, actions).runs)
  {
    if actions == [] {
      EvolvesItself(s.runs);
    } else {
      var before := RunAll(s, actions[..|actions| - 1]);
      HistoryKeepsInvariant(s, actions[..|actions| - 1]);
      StepKeepsInvariant(before, actions[|actions| - 1]);
      AllEvolveTransitive(s.runs, before.runs, RunAll(s, actions).runs);
    }
  }

  // The state after a history from the start.
  function Reached(fallback: int, actions: seq<Action>): State {
    RunAll(Start(fallback), actions)
  }

  lemma ReachedInvariant(fallback: int, actions: seq<Action>)
    requires 1 <= fallback <= 16
    ensures Inv(Reached(fallback, actions))
  {
    InitiallyInvariant(fallback);
    HistoryKeepsInvariant(Start(fallback), actions);
  }

  lemma OneMoreStep(s: State, actions: seq<Action>, a: Action)
    ensures RunAll(s, actions + [a]) == Step(RunAll(s, actions), a)
  {
    assert (actions + [a])[..|actions|] == actions;
  }
}
