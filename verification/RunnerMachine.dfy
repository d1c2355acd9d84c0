// One worker thread working through `execute`, and the API requests that meet it: every transaction is a step.
module RunnerMachine {
  import opened Wrappers
  import opened RunBudget
  import opened RunLifecycle

  /* ---------- Where `execute` stands ---------- */

  datatype Pc =
    | Loading         // before the scenario.loaded transaction
    | Preparing       // scenario.prepare, then the first is_cancelled
    | Announcing      // before the scenario.prepared transaction
    | Sandboxing      // sandbox.start, then the running stage
    | Investigating   // scenario.run with the engine
    | Investigated    // is_cancelled
    | Collecting      // before the scoring stage
    | Collected       // collect_artifacts, then is_cancelled
    | Checking        // before the next hidden check, or done with them
    | CheckRunning    // the check itself
    | Checked         // is_cancelled
    | Auditing        // resource audit
    | Grading         // before the scorecard.started stage
    | Graded          // grade and penalty, then is_cancelled
    | Reviewing       // before the first stage of the semantic review
    | Judging         // the semantic judge at work
    | Reviewed        // is_cancelled
    | Publishing      // before the scorecard.completed stage
    | Published       // is_cancelled
    | Completing      // archive and complete
    | Failing         // an exception is on its way to `fail`
    | Exited

  // What the code between two transactions does next.
  datatype Outcome =
    | Go                       // carry on
    | Raise                    // an exception, also from the transaction that would come next
    | MoreChecks               // another hidden check follows
    | CheckRaises              // the hidden check itself raises
    | Exhausted                // complete, with an exhausted budget
    | NotRequested             // no semantic review
    | Unavailable              // the semantic judge is unavailable or has failed
    | Engine(name: string)     // the engine writes an event
    | Retry                    // a Provider retry is recorded
    | ReadOverrides            // the engine reads the override log

  // One transaction on the run, or none.
  datatype Transaction =
    | Nothing
    | Load
    | Announce
    | Stage(status: Option<Status>, kind: Kind)
    | EngineEvent(name: string)
    | RetryEvent
    | Finish(exhausted: bool)
    | Abort

  function Judge(note: Note): Transaction {
    Stage(None, JudgeNote(note))
  }

  // is_cancelled: leave if the run was cancelled.
  function Unless(cancelled: bool, pc: Pc): (Transaction, Pc) {
    (Nothing, if cancelled then Exited else pc)
  }

  // Any point can raise, and the exception handler is next. An exception out of the handler's own transaction ends the
  // thread.
  function Raised(pc: Pc): (Transaction, Pc) {
    match pc
    case Failing => (Nothing, Exited)
    case Exited => (Nothing, Exited)
    case _ => (Nothing, Failing)
  }

  // The next transaction and the place behind it.
  function Next(cancelled: bool, pc: Pc, o: Outcome): (Transaction, Pc) {
    if o.Raise? then Raised(pc)
    else
      match pc
      case Loading => if cancelled then (Nothing, Exited) else (Load, Pc.Preparing)
      case Preparing => Unless(cancelled, Announcing)
      case Announcing => if cancelled then (Nothing, Exited) else (Announce, Sandboxing)
      case Sandboxing => (Stage(Some(Running), SandboxStarted), Investigating)
      case Investigating =>
        (match o
         case Engine(name) => (EngineEvent(name), Investigating)
         case Retry => (RetryEvent, Investigating)
         case ReadOverrides => (Nothing, Investigating)
         case _ => (Nothing, Investigated))
      case Investigated => Unless(cancelled, Collecting)
      case Collecting => (Stage(Some(Scoring), RunScoring), Collected)
      case Collected => Unless(cancelled, Checking)
      case Checking => if o.MoreChecks? then (Judge(CheckStarted), CheckRunning) else (Judge(AuditStarted), Auditing)
      case CheckRunning =>
        if o.CheckRaises? then (Judge(CheckFailed), Failing) else (Judge(CheckCompleted), Checked)
      case Checked => Unless(cancelled, Checking)
      case Auditing => (Judge(AuditCompleted), Grading)
      case Grading => (Judge(ScorecardStarted), Graded)
      case Graded => Unless(cancelled, Reviewing)
      case Reviewing =>
        if o.NotRequested? then (Judge(SemanticSkipped), Reviewed)
        else if o.Unavailable? then (Judge(SemanticFailed), Reviewed)
        else (Judge(SemanticStarted), Judging)
      case Judging =>
        if o.Retry? then (RetryEvent, Judging)
        else (Judge(if o.Unavailable? then SemanticFailed else SemanticCompleted), Reviewed)
      case Reviewed => Unless(cancelled, Publishing)
      case Publishing => (Judge(ScorecardCompleted), Published)
      case Published => Unless(cancelled, Completing)
      case Completing => (Finish(o.Exhausted?), Exited)
      case Failing => (Abort, Exited)
      case Exited => (Nothing, Exited)
  }

  function Commit(r: Run, txn: Transaction): Run {
    match txn
    case Nothing => r
    case Load => LoadScenario(r)
    case Announce => AnnounceScenario(r)
    case Stage(status, kind) => SetStage(r, status, kind)
    case EngineEvent(name) => RecordEngineEvent(r, name)
    case RetryEvent => RecordRetry(r)
    case Finish(exhausted) => Complete(r, exhausted)
    case Abort => Fail(r)
  }

  // The meter is the engine's budget and how many overrides it has consumed; it starts from the run's own budget.
  datatype Thread = Thread(pc: Pc, meter: Option<Meter>)

  function MeterAfter(r: Run, t: Thread, o: Outcome): Option<Meter> {
    if t.pc.Loading? && !o.Raise? && !r.status.Cancelled? then Some(Meter(r.base, 0))
    else if t.pc.Investigating? && o.ReadOverrides? && t.meter.Some? && t.meter.value.consumed <= |r.overrides| then
      Some(Poll(t.meter.value, r.overrides))
    else t.meter
  }

  function Step1(r: Run, t: Thread, o: Outcome): (Run, Thread) {
    var (txn, pc) := Next(r.status.Cancelled?, t.pc, o);
    (Commit(r, txn), Thread(pc, MeterAfter(r, t, o)))
  }

  // An exception in the transaction of `fail` itself: nothing is written, and the thread is gone.
  predicate Dies(pc: Pc, o: Outcome) {
    pc.Failing? && o.Raise?
  }

  /* ---------- The status a place goes with ---------- */

  // The status a run has while its thread stands at a place, unless it was cancelled.
  predicate StatusFits(pc: Pc, s: Status) {
    match pc
    case Loading => s == Status.Preparing
    case Preparing => s == Status.Preparing
    case Announcing => s == Status.Preparing
    case Sandboxing => s == Status.Preparing
    case Investigating => s.Running?
    case Investigated => s.Running?
    case Collecting => s.Running?
    case Failing => Interrupted(s)
    case Exited => Terminal(s) || Interrupted(s)
    case _ => s.Scoring?
  }

  predicate Placed(s: Status, pc: Pc) {
    s.Cancelled? || StatusFits(pc, s)
  }

  // The status after a transaction.
  function StatusUnder(s: Status, txn: Transaction): Status {
    if s.Cancelled? then s
    else
      match txn
      case Announce => Status.Preparing
      case Stage(status, _) => if status.Some? then status.value else s
      case Finish(_) => Completed
      case Abort => Status.Failed
      case _ => s
  }

  // The transactions a worker makes on a run in a given status.
  ghost predicate Allowed(s: Status, txn: Transaction) {
    match txn
    case Nothing => true
    case EngineEvent(_) => true
    case Stage(status, kind) => InProgress(s) && IsStage(status, kind)
    case _ => InProgress(s)
  }

  // The one place in `execute` that brings each status about.
  predicate Brings(pc: Pc, before: Status, after: Status) {
    match after
    case Running => pc.Sandboxing? && before == Status.Preparing
    case Scoring => pc.Collecting? && before.Running?
    case Completed => pc.Completing? && before.Scoring?
    case Failed => pc.Failing?
    case _ => false
  }

  // Wherever a thread goes next, its place fits the status that its transaction leaves.
  ghost predicate GoesWell(s: Status, step: (Transaction, Pc)) {
    Allowed(s, step.0) && Placed(StatusUnder(s, step.0), step.1)
  }

  lemma RaisedIsPlaced(s: Status, pc: Pc)
    requires Placed(s, pc)
    ensures GoesWell(s, Raised(pc))
  {
  }

  predicate IsEarly(pc: Pc) {
    pc.Loading? || pc.Preparing? || pc.Announcing? || pc.Sandboxing? || pc.Investigating? || pc.Investigated? ||
    pc.Collecting? || pc.Collected?
  }

  lemma EarlyIsPlaced(s: Status, pc: Pc, o: Outcome)
    requires Placed(s, pc) && IsEarly(pc) && !o.Raise?
    ensures GoesWell(s, Next(s.Cancelled?, pc, o))
  {
  }

  predicate IsReview(pc: Pc) {
    pc.Reviewing? || pc.Judging? || pc.Reviewed? || pc.Publishing? || pc.Published?
  }

  predicate IsLast(pc: Pc) {
    pc.Completing? || pc.Failing? || pc.Exited?
  }

  lemma CheckingIsPlaced(s: Status, pc: Pc, o: Outcome)
    requires Placed(s, pc) && !IsEarly(pc) && !IsReview(pc) && !IsLast(pc) && !o.Raise?
    ensures GoesWell(s, Next(s.Cancelled?, pc, o))
  {
  }

  lemma ReviewIsPlaced(s: Status, pc: Pc, o: Outcome)
    requires Placed(s, pc) && IsReview(pc) && !o.Raise?
    ensures GoesWell(s, Next(s.Cancelled?, pc, o))
  {
  }

  lemma LastIsPlaced(s: Status, pc: Pc, o: Outcome)
    requires Placed(s, pc) && IsLast(pc) && !o.Raise?
    ensures GoesWell(s, Next(s.Cancelled?, pc, o))
  {
  }

  lemma NextIsPlaced(s: Status, pc: Pc, o: Outcome)
    requires Placed(s, pc)
    ensures GoesWell(s, Next(s.Cancelled?, pc, o))
  {
    if o.Raise? {
      RaisedIsPlaced(s, pc);
    } else if IsEarly(pc) {
      EarlyIsPlaced(s, pc, o);
    } else if IsReview(pc) {
      ReviewIsPlaced(s, pc, o);
    } else if IsLast(pc) {
      LastIsPlaced(s, pc, o);
    } else {
      CheckingIsPlaced(s, pc, o);
    }
  }

  lemma NextBrings(s: Status, pc: Pc, o: Outcome)
    requires Placed(s, pc)
    ensures var after := StatusUnder(s, Next(s.Cancelled?, pc, o).0); after == s || Brings(pc, s, after)
  {
  }

  // A thread exits only from an ended run, or dies in `fail`.
  lemma NextExits(s: Status, pc: Pc, o: Outcome)
    requires Placed(s, pc) && !pc.Exited? && Next(s.Cancelled?, pc, o).1.Exited?
    ensures Dies(pc, o) || Terminal(StatusUnder(s, Next(s.Cancelled?, pc, o).0))
  {
  }

  lemma CommitStatus(r: Run, txn: Transaction)
    ensures Commit(r, txn).status == StatusUnder(r.status, txn)
    ensures SameRest(r, Commit(r, txn)) && Commit(r, txn).base == r.base
  {
  }

  // What no worker transaction touches.
  predicate SameRest(r: Run, after: Run) {
    after.overrides == r.overrides && after.pauseRequested == r.pauseRequested && after.archived == r.archived
  }

  lemma CommitKeeps(r: Run, txn: Transaction)
    requires Consistent(r) && Allowed(r.status, txn)
    ensures Consistent(Commit(r, txn)) && Continues(r, Commit(r, txn))
  {
    match txn
    case Nothing =>
    case Load => LoadKeeps(r);
    case Announce => AnnounceKeeps(r);
    case Stage(status, kind) => SetStageKeeps(r, status, kind);
    case EngineEvent(name) => EngineEventKeeps(r, name);
    case RetryEvent => RetryKeeps(r);
    case Finish(exhausted) => CompleteKeeps(r, exhausted);
    case Abort => FailKeeps(r);
  }

  // One place in `execute` brings each status about.
  lemma StatusMovesInOrder(r: Run, t: Thread, o: Outcome)
    requires Placed(r.status, t.pc)
    ensures var after := Step1(r, t, o).0; after.status == r.status || Brings(t.pc, r.status, after.status)
  {
    NextBrings(r.status, t.pc, o);
    CommitStatus(r, Next(r.status.Cancelled?, t.pc, o).0);
  }

  /* ---------- The engine's budget ---------- */

  // From loading to the end of the investigation the engine's budget is known.
  predicate NeedsMeter(pc: Pc) {
    pc.Preparing? || pc.Announcing? || pc.Sandboxing? || pc.Investigating?
  }

  ghost predicate Metered(t: Thread, base: Budget, overrides: seq<Override>) {
    (NeedsMeter(t.pc) ==> t.meter.Some?) &&
    (t.meter.Some? ==> InStep(t.meter.value, base, overrides) && Valid(t.meter.value.budget))
  }

  lemma MeterKeeps(r: Run, t: Thread, o: Outcome)
    requires BudgetHolds(r) && Metered(t, r.base, r.overrides)
    ensures Metered(Step1(r, t, o).1, r.base, r.overrides)
  {
    MeterIsKnown(r, t, o);
    if t.pc.Investigating? && o.ReadOverrides? && t.meter.Some? {
      PollCatchesUp(t.meter.value, r.base, r.overrides);
    } else {
      assert r.overrides[..0] == [];
    }
  }

  lemma MeterIsKnown(r: Run, t: Thread, o: Outcome)
    requires NeedsMeter(t.pc) ==> t.meter.Some?
    ensures NeedsMeter(Step1(r, t, o).1.pc) ==> Step1(r, t, o).1.meter.Some?
  {
  }

  // Reading the override log during the investigation brings the engine to the budget in force.
  lemma PollStep(r: Run, t: Thread)
    requires BudgetHolds(r) && Metered(t, r.base, r.overrides) && t.pc.Investigating?
    ensures Step1(r, t, ReadOverrides).0 == r
    ensures Step1(r, t, ReadOverrides).1.meter == Some(Meter(Applied(r.base, r.overrides), |r.overrides|))
  {
    PollCatchesUp(t.meter.value, r.base, r.overrides);
  }

  /* ---------- A step of a thread ---------- */

  ghost predicate Matches(r: Run, t: Thread) {
    Placed(r.status, t.pc) && Metered(t, r.base, r.overrides)
  }

  // A thread's step keeps its run consistent and its place in step with the run's status.
  lemma StepMatches(r: Run, t: Thread, o: Outcome)
    requires Consistent(r) && Matches(r, t)
    ensures var (after, next) := Step1(r, t, o); Consistent(after) && Continues(r, after) && Matches(after, next)
  {
    var txn := Next(r.status.Cancelled?, t.pc, o).0;
    NextIsPlaced(r.status, t.pc, o);
    CommitStatus(r, txn);
    CommitKeeps(r, txn);
    MeterKeeps(r, t, o);
  }

  // A thread leaves only a run that has ended, unless the transaction of `fail` raised; then nothing was written.
  lemma StepLeavesEnded(r: Run, t: Thread, o: Outcome)
    requires Placed(r.status, t.pc)
    ensures var (after, next) := Step1(r, t, o);
            && (next.pc.Exited? && !t.pc.Exited? && !Dies(t.pc, o) ==> Terminal(after.status))
            && (Dies(t.pc, o) ==> after == r && next.pc.Exited?)
  {
    if !t.pc.Exited? && Next(r.status.Cancelled?, t.pc, o).1.Exited? {
      NextExits(r.status, t.pc, o);
    }
    CommitStatus(r, Next(r.status.Cancelled?, t.pc, o).0);
  }

  lemma ThreadStepIsSound(r: Run, t: Thread, o: Outcome)
    requires Consistent(r) && Matches(r, t)
    ensures var (after, next) := Step1(r, t, o);
            && Consistent(after) && Continues(r, after) && Matches(after, next)
            && (next.pc.Exited? && !t.pc.Exited? && !Dies(t.pc, o) ==> Terminal(after.status))
            && (Dies(t.pc, o) ==> after == r && next.pc.Exited?)
  {
    StepMatches(r, t, o);
    StepLeavesEnded(r, t, o);
  }

  /* ---------- API requests meeting a thread ---------- */

  datatype Request = Archive | Adjust(payload: Payload) | Cancel | Pause | Resume

  function Handle(r: Run, q: Request): Run {
    match q
    case Archive => Accepted(r, ArchiveRun(r))
    case Adjust(payload) => Accepted(r, AdjustBudget(r, payload))
    case Cancel => CancelRun(r)
    case Pause => Accepted(r, PauseRun(r))
    case Resume => Accepted(r, ResumeRun(r))
  }

  // A rejected request changes nothing.
  function Accepted(r: Run, reply: Result<Run>): Run {
    match reply
    case Success(after) => after
    case Failure(_) => r
  }

  lemma RequestKeeps(r: Run, q: Request)
    requires Consistent(r)
    ensures Consistent(Handle(r, q)) && Continues(r, Handle(r, q))
    ensures Handle(r, q).status == r.status || Handle(r, q).status.Cancelled?
  {
    match q
    case Archive => ArchiveRequestKeeps(r);
    case Adjust(payload) => AdjustRequestKeeps(r, payload);
    case Cancel => CancelKeeps(r);
    case Pause => PauseRequestKeeps(r);
    case Resume => ResumeRequestKeeps(r);
  }

  lemma ArchiveRequestKeeps(r: Run)
    requires Consistent(r)
    ensures var after := Handle(r, Archive); Consistent(after) && Continues(r, after) && after.status == r.status
  {
    if ArchiveRun(r).Success? {
      ArchiveKeeps(r);
    }
  }

  lemma AdjustRequestKeeps(r: Run, payload: Payload)
    requires Consistent(r)
    ensures var after := Handle(r, Adjust(payload));
            Consistent(after) && Continues(r, after) && after.status == r.status
  {
    if AdjustBudget(r, payload).Success? {
      AdjustKeeps(r, payload);
    }
  }

  lemma PauseRequestKeeps(r: Run)
    requires Consistent(r)
    ensures var after := Handle(r, Pause); Consistent(after) && Continues(r, after) && after.status == r.status
  {
    if PauseRun(r).Success? {
      PauseKeeps(r);
    }
  }

  lemma ResumeRequestKeeps(r: Run)
    requires Consistent(r)
    ensures var after := Handle(r, Resume); Consistent(after) && Continues(r, after) && after.status == r.status
  {
    if ResumeRun(r).Success? {
      ResumeKeeps(r);
    }
  }

  // No request can throw a thread off its place.
  lemma RequestKeepsMatch(r: Run, q: Request, t: Thread)
    requires Consistent(r) && Matches(r, t)
    ensures Matches(Handle(r, q), t)
  {
    RequestKeeps(r, q);
    if t.meter.Some? {
      GrowingKeepsInStep(t.meter.value, r.base, r.overrides, Handle(r, q).overrides);
    }
  }

  /* ---------- What a request may change beside the status ---------- */

  ghost predicate RequestMayChange(r: Run, q: Request, after: Run) {
    && (after.overrides != r.overrides ==>
          q.Adjust? && (r.status.Queued? || r.status.Preparing? || r.status.Running?)
          && Success(after.overrides) == Adjusted(r.base, r.overrides, q.payload, r.minimumCalls, r.antigravity))
    && (after.pauseRequested && !r.pauseRequested ==> q.Pause? && r.status.Running?)
    && (!after.pauseRequested && r.pauseRequested ==>
          (q.Resume? && r.status.Running?) || (q.Cancel? && !Terminal(r.status)))
    && (after.archived != r.archived ==> q.Archive? && Terminal(r.status))
    && (after.status != r.status ==> q.Cancel? && after.status.Cancelled?)
  }

  lemma RequestsChangeOnlyTheirOwn(r: Run, q: Request)
    ensures RequestMayChange(r, q, Handle(r, q))
  {
    match q
    case Archive => assert RequestMayChange(r, Archive, Accepted(r, ArchiveRun(r)));
    case Adjust(payload) => AdjustChangesOverrides(r, payload);
    case Cancel =>
    case Pause => assert RequestMayChange(r, Pause, Accepted(r, PauseRun(r)));
    case Resume => assert RequestMayChange(r, Resume, Accepted(r, ResumeRun(r)));
  }

  lemma AdjustChangesOverrides(r: Run, payload: Payload)
    ensures RequestMayChange(r, Adjust(payload), Accepted(r, AdjustBudget(r, payload)))
  {
  }
}
