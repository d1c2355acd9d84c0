// The order of events in the log of a run: what may follow what, and what a completed run has gone through.
module RunnerProtocol {
  import opened Wrappers
  import opened RunBudget
  import opened RunLifecycle
  import opened RunnerMachine
  import opened RunnerRows
  import opened RunnerSystem

  /* ---------- The protocol, on logs alone ---------- */

  // How far a run has come, by its log.
  datatype Phase =
    | Waiting         // queued
    | Taken           // claimed
    | Loaded
    | Prepared
    | Underway        // the investigation
    | ToCheck         // scoring, no hidden check open
    | InCheck
    | CheckLost       // a hidden check failed
    | InAudit
    | Audited
    | Grade           // the scorecard is being aggregated
    | InReview
    | Judged
    | ToArchive       // the scorecard is complete
    | Overspent       // an exhausted budget has been noted
    | Finished
    | Ended           // failed, orphaned or cancelled
    | Broken          // against the protocol

  predicate AtWork(p: Phase) {
    !p.Waiting? && !p.Finished? && !p.Ended? && !p.Broken? && !p.Overspent?
  }

  predicate Over(p: Phase) {
    p.Finished? || p.Ended?
  }

  function If(allowed: bool, p: Phase): Phase {
    if allowed then p else Broken
  }

  function AfterNote(p: Phase, note: Note): Phase {
    match note
    case CheckStarted => If(p.ToCheck?, InCheck)
    case CheckCompleted => If(p.InCheck?, ToCheck)
    case CheckFailed => If(p.InCheck?, CheckLost)
    case AuditStarted => If(p.ToCheck?, InAudit)
    case AuditCompleted => If(p.InAudit?, Audited)
    case ScorecardStarted => If(p.Audited?, Grade)
    case SemanticSkipped => If(p.Grade?, Judged)
    case SemanticStarted => If(p.Grade?, InReview)
    case SemanticFailed => If(p.Grade? || p.InReview?, Judged)
    case SemanticCompleted => If(p.InReview?, Judged)
    case ScorecardCompleted => If(p.Judged?, ToArchive)
  }

  function AfterEvent(p: Phase, kind: Kind): Phase {
    match kind
    case RunQueued => If(p.Waiting?, Waiting)
    case RunPreparing => If(p.Waiting?, Taken)
    case ScenarioLoaded => If(p.Taken?, Loaded)
    case ScenarioPrepared => If(p.Loaded?, Prepared)
    case SandboxStarted => If(p.Prepared?, Underway)
    case RunScoring => If(p.Underway?, ToCheck)
    case JudgeNote(note) => AfterNote(p, note)
    case ProviderRetry => If(p.Underway? || p.InReview?, p)
    case EngineNote(_) => If(p.Underway? || p.Ended?, p)
    case RunBudgetExhausted => If(p.ToArchive?, Overspent)
    case RunCompleted => If(p.ToArchive? || p.Overspent?, Finished)
    case RunFailed => If(AtWork(p), Ended)
    case RunOrphaned => If(AtWork(p), Ended)
    case RunCancelled => If(p.Waiting? || AtWork(p), Ended)
    case RunArchived => If(Over(p), p)
    case PauseRequested => If(p.Underway?, p)
    case ResumeRequested => If(p.Underway?, p)
    case BudgetAdjustmentRequested => If(p.Waiting? || p.Taken? || p.Loaded? || p.Prepared? || p.Underway?, p)
  }

  function PhaseOf(log: seq<Event>): Phase {
    if log == [] then Waiting else AfterEvent(PhaseOf(log[..|log| - 1]), log[|log| - 1].kind)
  }

  lemma PhaseGrows(log: seq<Event>, kind: Kind)
    ensures PhaseOf(Append(log, kind)) == AfterEvent(PhaseOf(log), kind)
  {
    assert Append(log, kind)[..|log|] == log;
  }

  // Pauses and resumes take turns.
  predicate Alternating(log: seq<Event>) {
    log == [] ||
    var before, kind := log[..|log| - 1], log[|log| - 1].kind;
    Alternating(before) && (kind.PauseRequested? ==> !Told(before).paused) &&
    (kind.ResumeRequested? ==> Told(before).paused)
  }

  lemma AlternatingGrows(log: seq<Event>, kind: Kind)
    requires kind.PauseRequested? ==> !Told(log).paused
    requires kind.ResumeRequested? ==> Told(log).paused
    ensures Alternating(Append(log, kind)) == Alternating(log)
  {
    assert Append(log, kind)[..|log|] == log;
  }

  // A log that has broken the protocol stays broken.
  lemma {:induction false} BrokenStays(log: seq<Event>, k: nat)
    requires k <= |log| && PhaseOf(log[..k]).Broken?
    ensures PhaseOf(log).Broken?
  {
    if k == |log| {
      assert log[..k] == log;
    } else {
      assert log[..|log| - 1][..k] == log[..k];
      BrokenStays(log[..|log| - 1], k);
    }
  }

  /* ---------- Every run keeps to it ---------- */

  // The phase in which a thread stands at a place; after an exception it can be any phase of work.
  predicate PlaceFits(pc: Pc, p: Phase) {
    match pc
    case Loading => p.Taken?
    case Preparing => p.Loaded?
    case Announcing => p.Loaded?
    case Sandboxing => p.Prepared?
    case Investigating => p.Underway?
    case Investigated => p.Underway?
    case Collecting => p.Underway?
    case Collected => p.ToCheck?
    case Checking => p.ToCheck?
    case CheckRunning => p.InCheck?
    case Checked => p.ToCheck?
    case Auditing => p.InAudit?
    case Grading => p.Audited?
    case Graded => p.Grade?
    case Reviewing => p.Grade?
    case Judging => p.InReview?
    case Reviewed => p.Judged?
    case Publishing => p.Judged?
    case Published => p.ToArchive?
    case Completing => p.ToArchive?
    case _ => AtWork(p) || Over(p)
  }

  // The phases of each status.
  predicate StatusTells(s: Status, p: Phase) {
    match s
    case Queued => p.Waiting?
    case Preparing => p.Taken? || p.Loaded? || p.Prepared?
    case Running => p.Underway?
    case Scoring => AtWork(p) && !p.Taken? && !p.Loaded? && !p.Prepared? && !p.Underway?
    case Completed => p.Finished?
    case Failed => p.Ended?
    case Cancelled => p.Ended?
  }

  predicate Proper(s: Status, p: Phase, pc: Option<Pc>) {
    StatusTells(s, p) && (pc.Some? && !s.Cancelled? ==> PlaceFits(pc.value, p))
  }

  ghost predicate RowProper(v: Row) {
    RunProper(v.run, PlaceOf(v.thread))
  }

  // The events of a transaction on a run that is not cancelled.
  function Logged(txn: Transaction): seq<Kind> {
    match txn
    case Nothing => []
    case Load => [ScenarioLoaded]
    case Announce => [ScenarioPrepared]
    case Stage(_, kind) => [kind]
    case EngineEvent(name) => [EngineNote(name)]
    case RetryEvent => [ProviderRetry]
    case Finish(exhausted) => if exhausted then [RunBudgetExhausted, RunCompleted] else [RunCompleted]
    case Abort => [RunFailed]
  }

  // On a cancelled run only the engine still writes.
  function Events(s: Status, txn: Transaction): seq<Kind> {
    if s.Cancelled? && !txn.EngineEvent? then [] else Logged(txn)
  }

  // The phase after a transaction of a worker, which writes at most two events.
  function PhaseUnder(s: Status, p: Phase, txn: Transaction): Phase {
    AfterFew(p, Events(s, txn))
  }

  function AfterFew(p: Phase, kinds: seq<Kind>): Phase {
    if |kinds| == 0 then p
    else if |kinds| == 1 then AfterEvent(p, kinds[0])
    else AfterEvent(AfterEvent(p, kinds[0]), kinds[1])
  }

  function AppendAll(log: seq<Event>, kinds: seq<Kind>): seq<Event> {
    if kinds == [] then log else Append(AppendAll(log, kinds[..|kinds| - 1]), kinds[|kinds| - 1])
  }

  function AfterAll(p: Phase, kinds: seq<Kind>): Phase {
    if kinds == [] then p else AfterEvent(AfterAll(p, kinds[..|kinds| - 1]), kinds[|kinds| - 1])
  }

  lemma AppendOne(log: seq<Event>, kind: Kind)
    ensures AppendAll(log, [kind]) == Append(log, kind)
  {
    assert [kind][..0] == [];
  }

  lemma AppendTwo(log: seq<Event>, a: Kind, b: Kind)
    ensures AppendAll(log, [a, b]) == Append(Append(log, a), b)
  {
    assert [a, b][..1] == [a];
    AppendOne(log, a);
  }

  lemma CommitAppends(r: Run, txn: Transaction)
    ensures Commit(r, txn).log == AppendAll(r.log, Events(r.status, txn))
  {
    match txn
    case Nothing =>
    case Load => AppendOne(r.log, ScenarioLoaded);
    case Announce => AppendOne(r.log, ScenarioPrepared);
    case Stage(_, kind) => AppendOne(r.log, kind);
    case EngineEvent(name) => AppendOne(r.log, EngineNote(name));
    case RetryEvent => AppendOne(r.log, ProviderRetry);
    case Finish(exhausted) =>
      AppendOne(r.log, RunCompleted);
      AppendTwo(r.log, RunBudgetExhausted, RunCompleted);
    case Abort => AppendOne(r.log, RunFailed);
  }

  lemma {:induction false} PhaseOfAll(log: seq<Event>, kinds: seq<Kind>)
    ensures PhaseOf(AppendAll(log, kinds)) == AfterAll(PhaseOf(log), kinds)
  {
    if kinds != [] {
      var n := |kinds| - 1;
      PhaseOfAll(log, kinds[..n]);
      PhaseGrows(AppendAll(log, kinds[..n]), kinds[n]);
    }
  }

  lemma FewAreAll(p: Phase, kinds: seq<Kind>)
    requires |kinds| <= 2
    ensures AfterAll(p, kinds) == AfterFew(p, kinds)
  {
    if |kinds| > 0 {
      assert kinds[..|kinds| - 1] == if |kinds| == 1 then [] else [kinds[0]];
      assert [kinds[0]][..0] == [];
    }
  }

  lemma CommitPhase(r: Run, txn: Transaction)
    ensures PhaseOf(Commit(r, txn).log) == PhaseUnder(r.status, PhaseOf(r.log), txn)
  {
    CommitAppends(r, txn);
    PhaseOfAll(r.log, Events(r.status, txn));
    FewAreAll(PhaseOf(r.log), Events(r.status, txn));
  }

  lemma CommitAlternates(r: Run, txn: Transaction)
    requires Alternating(r.log) && (txn.Stage? ==> IsStage(txn.status, txn.kind))
    ensures Alternating(Commit(r, txn).log)
  {
    match txn
    case Nothing =>
    case Load => AlternatingGrows(r.log, ScenarioLoaded);
    case Announce => AlternatingGrows(r.log, ScenarioPrepared);
    case Stage(_, kind) => AlternatingGrows(r.log, kind);
    case EngineEvent(name) => AlternatingGrows(r.log, EngineNote(name));
    case RetryEvent => AlternatingGrows(r.log, ProviderRetry);
    case Finish(exhausted) =>
      AlternatingGrows(r.log, RunBudgetExhausted);
      AlternatingGrows(if exhausted then Append(r.log, RunBudgetExhausted) else r.log, RunCompleted);
    case Abort => AlternatingGrows(r.log, RunFailed);
  }

  ghost predicate StepsProperly(s: Status, p: Phase, step: (Transaction, Pc)) {
    Proper(StatusUnder(s, step.0), PhaseUnder(s, p, step.0), Some(step.1))
  }

  lemma CancelledIsProper(s: Status, p: Phase, pc: Pc, o: Outcome)
    requires Proper(s, p, Some(pc)) && s.Cancelled?
    ensures StepsProperly(s, p, Next(true, pc, o))
  {
  }

  lemma RaisedIsProper(s: Status, p: Phase, pc: Pc)
    requires Placed(s, pc) && Proper(s, p, Some(pc)) && !s.Cancelled?
    ensures StepsProperly(s, p, Raised(pc))
  {
  }

  lemma EarlyIsProper(s: Status, p: Phase, pc: Pc, o: Outcome)
    requires Placed(s, pc) && Proper(s, p, Some(pc)) && !s.Cancelled? && !o.Raise?
    requires IsEarly(pc)
    ensures StepsProperly(s, p, Next(false, pc, o))
  {
  }

  lemma CheckingIsProper(s: Status, p: Phase, pc: Pc, o: Outcome)
    requires Placed(s, pc) && Proper(s, p, Some(pc)) && !s.Cancelled? && !o.Raise?
    requires pc.Checking? || pc.CheckRunning? || pc.Checked?
    ensures StepsProperly(s, p, Next(false, pc, o))
  {
  }

  lemma AuditIsProper(s: Status, p: Phase, pc: Pc, o: Outcome)
    requires Placed(s, pc) && Proper(s, p, Some(pc)) && !s.Cancelled? && !o.Raise?
    requires pc.Auditing? || pc.Grading? || pc.Graded?
    ensures StepsProperly(s, p, Next(false, pc, o))
  {
  }

  lemma ReviewIsProper(s: Status, p: Phase, pc: Pc, o: Outcome)
    requires Placed(s, pc) && Proper(s, p, Some(pc)) && !s.Cancelled? && !o.Raise?
    requires pc.Reviewing?
    ensures StepsProperly(s, p, Next(false, pc, o))
  {
  }

  lemma JudgingIsProper(s: Status, p: Phase, pc: Pc, o: Outcome)
    requires Placed(s, pc) && Proper(s, p, Some(pc)) && !s.Cancelled? && !o.Raise?
    requires pc.Judging?
    ensures StepsProperly(s, p, Next(false, pc, o))
  {
  }

  lemma ArchivalIsProper(s: Status, p: Phase, pc: Pc, o: Outcome)
    requires Placed(s, pc) && Proper(s, p, Some(pc)) && !s.Cancelled? && !o.Raise?
    requires pc.Reviewed? || pc.Publishing? || pc.Published?
    ensures StepsProperly(s, p, Next(false, pc, o))
  {
  }

  lemma CompletingIsProper(s: Status, p: Phase, pc: Pc, o: Outcome)
    requires Placed(s, pc) && Proper(s, p, Some(pc)) && !s.Cancelled? && !o.Raise?
    requires pc.Completing?
    ensures StepsProperly(s, p, Next(false, pc, o))
  {
  }

  lemma LastIsProper(s: Status, p: Phase, pc: Pc, o: Outcome)
    requires Placed(s, pc) && Proper(s, p, Some(pc)) && !s.Cancelled? && !o.Raise?
    requires pc.Failing? || pc.Exited?
    ensures StepsProperly(s, p, Next(false, pc, o))
  {
  }

  lemma NextIsProper(s: Status, p: Phase, pc: Pc, o: Outcome)
    requires Placed(s, pc) && Proper(s, p, Some(pc))
    ensures StepsProperly(s, p, Next(s.Cancelled?, pc, o))
  {
    if s.Cancelled? {
      CancelledIsProper(s, p, pc, o);
    } else if o.Raise? {
      RaisedIsProper(s, p, pc);
    } else if IsEarly(pc) {
      EarlyIsProper(s, p, pc, o);
    } else if pc.Reviewing? {
      ReviewIsProper(s, p, pc, o);
    } else if pc.Judging? {
      JudgingIsProper(s, p, pc, o);
    } else if pc.Reviewed? || pc.Publishing? || pc.Published? {
      ArchivalIsProper(s, p, pc, o);
    } else if pc.Completing? {
      CompletingIsProper(s, p, pc, o);
    } else if IsLast(pc) {
      LastIsProper(s, p, pc, o);
    } else if pc.Auditing? || pc.Grading? || pc.Graded? {
      AuditIsProper(s, p, pc, o);
    } else {
      CheckingIsProper(s, p, pc, o);
    }
  }

  lemma WorkedIsProper(v: Row, outcome: Outcome)
    requires RowHolds(v) && RowProper(v)
    ensures RowProper(RowAfter(v, Worked(outcome)))
  {
    if v.thread.Some? {
      var pc := v.thread.value.pc;
      var txn := Next(v.run.status.Cancelled?, pc, outcome).0;
      NextIsProper(v.run.status, PhaseOf(v.run.log), pc, outcome);
      NextIsPlaced(v.run.status, pc, outcome);
      CommitPhase(v.run, txn);
      CommitAlternates(v.run, txn);
      CommitStatus(v.run, txn);
    }
  }

  ghost predicate RunProper(r: Run, pc: Option<Pc>) {
    Proper(r.status, PhaseOf(r.log), pc) && Alternating(r.log)
  }

  function RequestEvent(q: Request): Kind {
    match q
    case Archive => RunArchived
    case Adjust(_) => BudgetAdjustmentRequested
    case Cancel => RunCancelled
    case Pause => PauseRequested
    case Resume => ResumeRequested
  }

  // When a request is carried out, and the status it leaves.
  predicate CarriedOut(s: Status, paused: bool, q: Request, after: Status) {
    match q
    case Archive => Terminal(s) && after == s
    case Adjust(_) => (s.Queued? || s.Preparing? || s.Running?) && after == s
    case Cancel => !Terminal(s) && after.Cancelled?
    case Pause => s.Running? && !paused && after == s
    case Resume => s.Running? && paused && after == s
  }

  lemma RequestLogs(r: Run, q: Request)
    ensures var after := Handle(r, q);
            after == r ||
            (after.log == Append(r.log, RequestEvent(q)) && CarriedOut(r.status, r.pauseRequested, q, after.status))
  {
    if q.Adjust? {
      AdjustLogs(r, q.payload);
    }
  }

  lemma AdjustLogs(r: Run, payload: Payload)
    ensures var after := Handle(r, Adjust(payload));
            after == r ||
            (after.log == Append(r.log, BudgetAdjustmentRequested) &&
             CarriedOut(r.status, r.pauseRequested, Adjust(payload), after.status))
  {
  }

  lemma RequestPhase(s: Status, paused: bool, p: Phase, pc: Option<Pc>, q: Request, after: Status)
    requires Proper(s, p, pc) && CarriedOut(s, paused, q, after)
    ensures Proper(after, AfterEvent(p, RequestEvent(q)), pc)
  {
  }

  lemma OneEventIsProper(r: Run, after: Run, pc: Option<Pc>, kind: Kind)
    requires Alternating(r.log) && after.log == Append(r.log, kind)
    requires Proper(after.status, AfterEvent(PhaseOf(r.log), kind), pc)
    requires kind.PauseRequested? ==> !Told(r.log).paused
    requires kind.ResumeRequested? ==> Told(r.log).paused
    ensures RunProper(after, pc)
  {
    PhaseGrows(r.log, kind);
    AlternatingGrows(r.log, kind);
  }

  lemma AskedIsProper(v: Row, q: Request)
    requires RowHolds(v) && RowProper(v)
    ensures RowProper(RowAfter(v, Asked(q)))
  {
    var r, after, pc := v.run, Handle(v.run, q), PlaceOf(v.thread);
    RequestLogs(r, q);
    if after != r {
      RequestPhase(r.status, r.pauseRequested, PhaseOf(r.log), pc, q, after.status);
      OneEventIsProper(r, after, pc, RequestEvent(q));
    }
  }

  lemma ClaimedIsProper(v: Row)
    requires RowHolds(v) && Possible(v, Claimed) && RowProper(v)
    ensures RowProper(RowAfter(v, Claimed))
  {
    OneEventIsProper(v.run, ClaimRun(v.run), Some(Loading), RunPreparing);
  }

  lemma ReconciledIsProper(v: Row)
    requires RowHolds(v) && Possible(v, Reconciled) && RowProper(v)
    ensures RowProper(RowAfter(v, Reconciled))
  {
    if Interrupted(v.run.status) && !v.run.archived {
      OneEventIsProper(v.run, Orphan(v.run), None, RunOrphaned);
    }
  }

  // Every step of the system keeps to the protocol.
  lemma StepIsProper(v: Row, e: RowEvent)
    requires RowHolds(v) && Possible(v, e) && RowProper(v)
    ensures RowProper(RowAfter(v, e))
  {
    match e
    case Untouched =>
    case Asked(request) => AskedIsProper(v, request);
    case Claimed => ClaimedIsProper(v);
    case Worked(outcome) => WorkedIsProper(v, outcome);
    case Reaped =>
    case Crashed =>
    case Reconciled => ReconciledIsProper(v);
  }

  /* ---------- Over histories ---------- */

  ghost predicate RowsProper(s: State) {
    forall k :: 0 <= k < |s.runs| ==> RowProper(RowOf(s, k))
  }

  lemma NewRunIsProper(s: State, a: Action)
    requires KnownRuns(s) && a.CreateRun? && |Step(s, a).runs| == |s.runs| + 1
    ensures RowProper(RowOf(Step(s, a), |s.runs|))
  {
    NewRunIsQueued(s, a);
    PhaseGrows([], RunQueued);
    AlternatingGrows([], RunQueued);
    assert PlaceOf(RowOf(Step(s, a), |s.runs|).thread) == None;
  }

  lemma RowsStayProper(s: State, a: Action)
    requires Inv(s) && RowsProper(s)
    ensures RowsProper(Step(s, a))
  {
    NewRunIsQueued(s, a);
    forall k | 0 <= k < |Step(s, a).runs| ensures RowProper(RowOf(Step(s, a), k)) {
      if k < |s.runs| {
        StepByRow(s, a, k);
        EventIsPossible(s, a, k);
        StepIsProper(RowOf(s, k), EventFor(s, a, k));
      } else {
        NewRunIsProper(s, a);
      }
    }
  }

  // In every history the log of every run keeps to the protocol and tells where its thread stands.
  lemma {:induction false} EveryLogIsProper(fallback: int, actions: seq<Action>)
    requires 1 <= fallback <= 16
    ensures RowsProper(Reached(fallback, actions))
  {
    if actions != [] {
      var n := |actions| - 1;
      EveryLogIsProper(fallback, actions[..n]);
      ReachedInvariant(fallback, actions[..n]);
      RowsStayProper(Reached(fallback, actions[..n]), actions[n]);
    }
  }
}
