// One run: its row, its event log, and every transaction that touches them.
module RunLifecycle {
  import opened Wrappers
  import opened RunBudget

  datatype Status = Queued | Preparing | Running | Scoring | Completed | Failed | Cancelled

  predicate Terminal(s: Status) {
    s.Completed? || s.Failed? || s.Cancelled?
  }

  // The statuses a restart finds interrupted.
  predicate Interrupted(s: Status) {
    s.Preparing? || s.Running? || s.Scoring?
  }

  datatype Kind =
    | RunQueued | RunPreparing | ScenarioLoaded | ScenarioPrepared | SandboxStarted | RunScoring
    | JudgeNote(note: Note) | ProviderRetry
    | RunBudgetExhausted | RunCompleted | RunFailed | RunOrphaned | RunCancelled | RunArchived
    | PauseRequested | ResumeRequested | BudgetAdjustmentRequested
    | EngineNote(name: string)

  // The judge.* events between the scoring stage and completion.
  datatype Note =
    | CheckStarted | CheckCompleted | CheckFailed | AuditStarted | AuditCompleted
    | ScorecardStarted | SemanticSkipped | SemanticStarted | SemanticCompleted | SemanticFailed | ScorecardCompleted

  datatype Event = Event(sequence: nat, kind: Kind)

  datatype Run = Run(created: int, status: Status, pauseRequested: bool, archived: bool, log: seq<Event>,
                     base: Budget, overrides: seq<Override>, minimumCalls: int, antigravity: bool)

  /* ---------- append_event ---------- */

  function MaxSequence(log: seq<Event>): nat {
    if log == [] then 0
    else
      var rest := MaxSequence(log[..|log| - 1]);
      if log[|log| - 1].sequence > rest then log[|log| - 1].sequence else rest
  }

  function Append(log: seq<Event>, kind: Kind): seq<Event> {
    log + [Event(MaxSequence(log) + 1, kind)]
  }

  ghost predicate Numbered(log: seq<Event>) {
    forall k :: 0 <= k < |log| ==> log[k].sequence == k + 1
  }

  lemma {:induction false} NumberedMaximum(log: seq<Event>)
    requires Numbered(log)
    ensures MaxSequence(log) == |log|
  {
    if log != [] {
      NumberedMaximum(log[..|log| - 1]);
    }
  }

  lemma AppendKeepsNumbering(log: seq<Event>, kind: Kind)
    requires Numbered(log)
    ensures Numbered(Append(log, kind))
  {
    NumberedMaximum(log);
  }

  /* ---------- What a log says ---------- */

  // The status after an event.
  function StatusAfter(s: Status, kind: Kind): Status {
    match kind
    case RunQueued => Queued
    case RunPreparing => Preparing
    case ScenarioPrepared => Preparing
    case SandboxStarted => Running
    case RunScoring => Scoring
    case RunCompleted => Completed
    case RunFailed => Failed
    case RunOrphaned => Failed
    case RunCancelled => Cancelled
    case _ => s
  }

  function PauseAfter(paused: bool, kind: Kind): bool {
    match kind
    case PauseRequested => true
    case ResumeRequested => false
    case RunCancelled => false
    case RunOrphaned => false
    case _ => paused
  }

  predicate EndsARun(kind: Kind) {
    kind.RunCompleted? || kind.RunFailed? || kind.RunOrphaned? || kind.RunCancelled?
  }

  // Only archiving and the engine's own notes may follow the end of a run.
  predicate MayFollowTheEnd(kind: Kind) {
    kind.RunArchived? || kind.EngineNote?
  }

  // Everything a log says, event by event: `tidy` as long as nothing else followed the end, or archiving.
  datatype Summary = Summary(status: Status, paused: bool, archived: bool, claims: nat, ended: bool, tidy: bool)

  const UNWRITTEN := Summary(Queued, false, false, 0, false, true)

  function After(s: Summary, kind: Kind): Summary {
    Summary(StatusAfter(s.status, kind), PauseAfter(s.paused, kind), s.archived || kind.RunArchived?,
            s.claims + (if kind.RunPreparing? then 1 else 0), s.ended || EndsARun(kind),
            s.tidy && (s.ended ==> MayFollowTheEnd(kind)) && (s.archived ==> kind.EngineNote?))
  }

  function Told(log: seq<Event>): Summary {
    if log == [] then UNWRITTEN else After(Told(log[..|log| - 1]), log[|log| - 1].kind)
  }

  lemma TellOneMore(log: seq<Event>, event: Event)
    ensures Told(log + [event]) == After(Told(log), event.kind)
  {
    assert (log + [event])[..|log|] == log;
  }

  lemma {:induction false} EndedMeans(log: seq<Event>)
    ensures Told(log).ended <==> exists k :: 0 <= k < |log| && EndsARun(log[k].kind)
  {
    if log != [] {
      var before := log[..|log| - 1];
      EndedMeans(before);
      if Told(before).ended {
        var k :| 0 <= k < |before| && EndsARun(before[k].kind);
        assert log[k] == before[k];
      }
      if exists k :: 0 <= k < |log| && EndsARun(log[k].kind) {
        var k :| 0 <= k < |log| && EndsARun(log[k].kind);
        assert k < |before| ==> before[k] == log[k];
      }
    }
  }

  // In a tidy log, whatever comes after an event that ends the run is archiving or an engine note.
  lemma {:induction false} TidyMeans(log: seq<Event>, i: nat, j: nat)
    requires Told(log).tidy && i < j < |log| && EndsARun(log[i].kind)
    ensures MayFollowTheEnd(log[j].kind)
  {
    var before := log[..|log| - 1];
    if j < |before| {
      TidyMeans(before, i, j);
    } else {
      EndedMeans(before);
      assert before[i] == log[i];
    }
  }

  lemma {:induction false} ArchivedMeans(log: seq<Event>)
    ensures Told(log).archived <==> exists k :: 0 <= k < |log| && log[k].kind.RunArchived?
  {
    if log != [] {
      var before := log[..|log| - 1];
      ArchivedMeans(before);
      if Told(before).archived {
        var k :| 0 <= k < |before| && before[k].kind.RunArchived?;
        assert log[k] == before[k];
      }
      if exists k :: 0 <= k < |log| && log[k].kind.RunArchived? {
        var k :| 0 <= k < |log| && log[k].kind.RunArchived?;
        assert k < |before| ==> before[k] == log[k];
      }
    }
  }

  // In a tidy log a run is archived at most once, and only engine notes follow.
  lemma {:induction false} ArchivedIsLast(log: seq<Event>, i: nat, j: nat)
    requires Told(log).tidy && i < j < |log| && log[i].kind.RunArchived?
    ensures log[j].kind.EngineNote?
  {
    var before := log[..|log| - 1];
    if j < |before| {
      ArchivedIsLast(before, i, j);
    } else {
      ArchivedMeans(before);
      assert before[i] == log[i];
    }
  }

  /* ---------- Rows that agree with their logs ---------- */

  ghost predicate Agrees(r: Run) {
    Told(r.log) == Saying(r.status, r.pauseRequested, r.archived, Told(r.log).claims)
  }

  // A run is claimed before it is worked on, and at most once.
  ghost predicate ClaimsFit(r: Run) {
    && Told(r.log).claims <= 1
    && (r.status.Queued? ==> Told(r.log).claims == 0)
    && (Interrupted(r.status) || r.status.Completed? || r.status.Failed? ==> Told(r.log).claims == 1)
  }

  ghost predicate BudgetHolds(r: Run) {
    Valid(r.base) && Sufficient(Applied(r.base, r.overrides), r.minimumCalls) && NeverRemovesRequired(r.overrides)
  }

  ghost predicate Consistent(r: Run) {
    Numbered(r.log) && Agrees(r) && ClaimsFit(r) && BudgetHolds(r) && (r.archived ==> Terminal(r.status))
  }

  // What a transaction may never undo.
  ghost predicate Evolves(before: Run, after: Run) {
    && before.log <= after.log
    && before.overrides <= after.overrides
    && after.base == before.base && after.minimumCalls == before.minimumCalls && after.created == before.created
    && after.antigravity == before.antigravity
    && (Terminal(before.status) ==> after.status == before.status)
    && (before.archived ==> after.archived)
    && (after.status.Queued? ==> before.status.Queued?)
  }

  // The same, without a claim.
  ghost predicate Continues(before: Run, after: Run) {
    Evolves(before, after) && Told(after.log).claims == Told(before.log).claims
  }

  // A row and its log change together by one event.
  ghost predicate OneEvent(before: Run, after: Run, kind: Kind) {
    && after.log == Append(before.log, kind)
    && after.status == StatusAfter(before.status, kind)
    && after.pauseRequested == PauseAfter(before.pauseRequested, kind)
    && after.archived == (before.archived || kind.RunArchived?)
  }

  // When an event keeps the log tidy and the claims in order.
  ghost predicate Timely(s: Status, archived: bool, kind: Kind) {
    && (archived ==> kind.EngineNote?)
    && (Terminal(s) ==> MayFollowTheEnd(kind))
    && (kind.RunPreparing? <==> s.Queued? && Interrupted(StatusAfter(s, kind)))
    && (s.Queued? && Terminal(StatusAfter(s, kind)) ==> StatusAfter(s, kind).Cancelled?)
    && (kind.RunArchived? ==> Terminal(s))
    && !kind.RunQueued?
  }

  // What a tidy log says of a run in a given state, and what one more timely event adds.
  function Saying(s: Status, paused: bool, archived: bool, claims: nat): Summary {
    Summary(s, paused, archived, claims, Terminal(s), true)
  }

  lemma TimelyEventFits(s: Status, paused: bool, archived: bool, claims: nat, kind: Kind)
    requires Timely(s, archived, kind) && (archived ==> Terminal(s))
    ensures After(Saying(s, paused, archived, claims), kind)
            == Saying(StatusAfter(s, kind), PauseAfter(paused, kind), archived || kind.RunArchived?,
                      claims + if kind.RunPreparing? then 1 else 0)
    ensures archived || kind.RunArchived? ==> Terminal(StatusAfter(s, kind))
  {
  }

  lemma OneEventKeepsConsistent(before: Run, after: Run, kind: Kind)
    requires Consistent(before) && OneEvent(before, after, kind) && BudgetHolds(after)
    requires Timely(before.status, before.archived, kind)
    ensures Consistent(after)
    ensures Told(after.log).claims == Told(before.log).claims + if kind.RunPreparing? then 1 else 0
  {
    AppendKeepsNumbering(before.log, kind);
    TellOneMore(before.log, Event(MaxSequence(before.log) + 1, kind));
    TimelyEventFits(before.status, before.pauseRequested, before.archived, Told(before.log).claims, kind);
  }

  /* ---------- API transactions: an archived run is not found any more ---------- */

  function Queue(created: int, base: Budget, minimumCalls: int, antigravity: bool): Run {
    Run(created, Queued, false, false, Append([], RunQueued), base, [], minimumCalls, antigravity)
  }

  function ArchiveRun(r: Run): Result<Run> {
    if r.archived then Failure("Run not found")
    else if !Terminal(r.status) then Failure("Active runs must finish or be cancelled before archival")
    else Success(r.(log := Append(r.log, RunArchived), archived := true))
  }

  function AdjustBudget(r: Run, payload: Payload): Result<Run> {
    if r.archived then Failure("Run not found")
    else if !(r.status.Queued? || r.status.Preparing? || r.status.Running?) then
      Failure("Budget can only be adjusted while the run is active")
    else
      match Adjusted(r.base, r.overrides, payload, r.minimumCalls, r.antigravity)
      case Failure(error) => Failure(error)
      case Success(overrides) => Success(r.(overrides := overrides, log := Append(r.log, BudgetAdjustmentRequested)))
  }

  function CancelRun(r: Run): Run {
    if r.archived || Terminal(r.status) then r
    else r.(pauseRequested := false, status := Cancelled, log := Append(r.log, RunCancelled))
  }

  function PauseRun(r: Run): Result<Run> {
    if r.archived then Failure("Run not found")
    else if !r.status.Running? then Failure("Only an active candidate investigation can be paused")
    else if r.pauseRequested then Success(r)
    else Success(r.(pauseRequested := true, log := Append(r.log, PauseRequested)))
  }

  function ResumeRun(r: Run): Result<Run> {
    if r.archived then Failure("Run not found")
    else if !r.status.Running? || !r.pauseRequested then Failure("Run is not paused")
    else Success(r.(pauseRequested := false, log := Append(r.log, ResumeRequested)))
  }

  /* ---------- Runner transactions ---------- */

  predicate Claimable(r: Run) {
    r.status.Queued? && !r.archived
  }

  function ClaimRun(r: Run): Run {
    r.(status := Preparing, log := Append(r.log, RunPreparing))
  }

  function LoadScenario(r: Run): Run {
    if r.status.Cancelled? then r else r.(log := Append(r.log, ScenarioLoaded))
  }

  function AnnounceScenario(r: Run): Run {
    if r.status.Cancelled? then r else r.(status := Preparing, log := Append(r.log, ScenarioPrepared))
  }

  // set_stage: nothing happens to a cancelled run.
  function SetStage(r: Run, status: Option<Status>, kind: Kind): Run {
    if r.status.Cancelled? then r
    else r.(status := if status.Some? then status.value else r.status, log := Append(r.log, kind))
  }

  function RecordRetry(r: Run): Run {
    if r.status.Cancelled? then r else r.(log := Append(r.log, ProviderRetry))
  }

  // The engine writes its own events whatever the status is.
  function RecordEngineEvent(r: Run, name: string): Run {
    r.(log := Append(r.log, EngineNote(name)))
  }

  function Complete(r: Run, exhausted: bool): Run {
    if r.status.Cancelled? then r
    else
      var log := if exhausted then Append(r.log, RunBudgetExhausted) else r.log;
      r.(status := Completed, log := Append(log, RunCompleted))
  }

  function Fail(r: Run): Run {
    if r.status.Cancelled? then r else r.(status := Status.Failed, log := Append(r.log, RunFailed))
  }

  function Orphan(r: Run): Run {
    if !Interrupted(r.status) || r.archived then r
    else r.(pauseRequested := false, status := Status.Failed, log := Append(r.log, RunOrphaned))
  }

  /* ---------- What every transaction keeps ---------- */

  lemma QueuedRunIsConsistent(created: int, base: Budget, minimumCalls: int, antigravity: bool)
    requires Sufficient(base, minimumCalls)
    ensures Consistent(Queue(created, base, minimumCalls, antigravity))
  {
    FirstEvent();
    assert Applied(base, []) == base;
  }

  lemma FirstEvent()
    ensures var log := Append([], RunQueued); Numbered(log) && Told(log) == UNWRITTEN
  {
    var log := Append([], RunQueued);
    assert log == [] + [Event(1, RunQueued)];
    TellOneMore([], Event(1, RunQueued));
  }

  lemma ArchiveKeeps(r: Run)
    requires Consistent(r) && ArchiveRun(r).Success?
    ensures var after := ArchiveRun(r).value;
            Consistent(after) && Continues(r, after) && after.archived && after.status == r.status
  {
    OneEventKeepsConsistent(r, ArchiveRun(r).value, RunArchived);
  }

  lemma AdjustKeeps(r: Run, payload: Payload)
    requires Consistent(r) && AdjustBudget(r, payload).Success?
    ensures var after := AdjustBudget(r, payload).value;
            && Consistent(after) && Continues(r, after) && after.status == r.status
            && Applied(after.base, after.overrides) == Merged(Applied(r.base, r.overrides), payload)
  {
    AdjustmentIsExact(r.base, r.overrides, payload, r.minimumCalls, r.antigravity);
    EntriesNeverRemoveRequired(payload, FIELDS);
    var after := AdjustBudget(r, payload).value;
    assert NeverRemovesRequired(after.overrides);
    OneEventKeepsConsistent(r, after, BudgetAdjustmentRequested);
  }

  lemma CancelKeeps(r: Run)
    requires Consistent(r)
    ensures Consistent(CancelRun(r)) && Continues(r, CancelRun(r)) && Terminal(CancelRun(r).status)
  {
    if !Terminal(r.status) {
      OneEventKeepsConsistent(r, CancelRun(r), RunCancelled);
    }
  }

  lemma PauseKeeps(r: Run)
    requires Consistent(r) && PauseRun(r).Success?
    ensures var after := PauseRun(r).value;
            Consistent(after) && Continues(r, after) && after.status == r.status && after.pauseRequested
  {
    if !r.pauseRequested {
      OneEventKeepsConsistent(r, PauseRun(r).value, PauseRequested);
    }
  }

  lemma ResumeKeeps(r: Run)
    requires Consistent(r) && ResumeRun(r).Success?
    ensures var after := ResumeRun(r).value;
            Consistent(after) && Continues(r, after) && after.status == r.status && !after.pauseRequested
  {
    OneEventKeepsConsistent(r, ResumeRun(r).value, ResumeRequested);
  }

  lemma ClaimKeeps(r: Run)
    requires Consistent(r) && Claimable(r)
    ensures Consistent(ClaimRun(r)) && Evolves(r, ClaimRun(r))
    ensures Told(r.log).claims == 0 && Told(ClaimRun(r).log).claims == 1
  {
    OneEventKeepsConsistent(r, ClaimRun(r), RunPreparing);
  }

  // A worker transaction on a run that is being worked on, or that was cancelled meanwhile.
  ghost predicate InProgress(s: Status) {
    Interrupted(s) || s.Cancelled?
  }

  lemma LoadKeeps(r: Run)
    requires Consistent(r) && InProgress(r.status)
    ensures Consistent(LoadScenario(r)) && Continues(r, LoadScenario(r))
  {
    if !r.status.Cancelled? {
      OneEventKeepsConsistent(r, LoadScenario(r), ScenarioLoaded);
    }
  }

  lemma AnnounceKeeps(r: Run)
    requires Consistent(r) && InProgress(r.status)
    ensures Consistent(AnnounceScenario(r)) && Continues(r, AnnounceScenario(r))
  {
    if !r.status.Cancelled? {
      OneEventKeepsConsistent(r, AnnounceScenario(r), ScenarioPrepared);
    }
  }

  // The stages execute sets, with the status each one stands for.
  predicate IsStage(status: Option<Status>, kind: Kind) {
    (status == Some(Running) && kind.SandboxStarted?) || (status == Some(Scoring) && kind.RunScoring?) ||
    (status == None && kind.JudgeNote?)
  }

  lemma SetStageKeeps(r: Run, status: Option<Status>, kind: Kind)
    requires Consistent(r) && InProgress(r.status) && IsStage(status, kind)
    ensures Consistent(SetStage(r, status, kind)) && Continues(r, SetStage(r, status, kind))
  {
    if !r.status.Cancelled? {
      OneEventKeepsConsistent(r, SetStage(r, status, kind), kind);
    }
  }

  lemma RetryKeeps(r: Run)
    requires Consistent(r) && InProgress(r.status)
    ensures Consistent(RecordRetry(r)) && Continues(r, RecordRetry(r))
  {
    if !r.status.Cancelled? {
      OneEventKeepsConsistent(r, RecordRetry(r), ProviderRetry);
    }
  }

  lemma EngineEventKeeps(r: Run, name: string)
    requires Consistent(r)
    ensures Consistent(RecordEngineEvent(r, name)) && Continues(r, RecordEngineEvent(r, name))
  {
    OneEventKeepsConsistent(r, RecordEngineEvent(r, name), EngineNote(name));
  }

  lemma CompleteKeeps(r: Run, exhausted: bool)
    requires Consistent(r) && InProgress(r.status)
    ensures Consistent(Complete(r, exhausted)) && Continues(r, Complete(r, exhausted))
    ensures Terminal(Complete(r, exhausted).status)
  {
    if !exhausted || r.status.Cancelled? {
      PlainCompleteKeeps(r);
    } else {
      var noted := r.(log := Append(r.log, RunBudgetExhausted));
      OneEventKeepsConsistent(r, noted, RunBudgetExhausted);
      PlainCompleteKeeps(noted);
    }
  }

  lemma PlainCompleteKeeps(r: Run)
    requires Consistent(r) && InProgress(r.status)
    ensures Consistent(Complete(r, false)) && Continues(r, Complete(r, false)) && Terminal(Complete(r, false).status)
  {
    if !r.status.Cancelled? {
      OneEventKeepsConsistent(r, Complete(r, false), RunCompleted);
    }
  }

  lemma FailKeeps(r: Run)
    requires Consistent(r) && InProgress(r.status)
    ensures Consistent(Fail(r)) && Continues(r, Fail(r)) && Terminal(Fail(r).status)
  {
    if !r.status.Cancelled? {
      OneEventKeepsConsistent(r, Fail(r), RunFailed);
    }
  }

  // Orphaning ends every interrupted run: an archived run is never interrupted.
  lemma OrphanKeeps(r: Run)
    requires Consistent(r)
    ensures Consistent(Orphan(r)) && Continues(r, Orphan(r)) && !Interrupted(Orphan(r).status)
  {
    if Interrupted(r.status) {
      OneEventKeepsConsistent(r, Orphan(r), RunOrphaned);
    }
  }

  lemma EvolvesTransitive(a: Run, b: Run, c: Run)
    requires Evolves(a, b) && Evolves(b, c)
    ensures Evolves(a, c)
  {
  }
}
