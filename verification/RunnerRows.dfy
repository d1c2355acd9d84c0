// One run together with everything the Runner knows about it: what each step of the whole system does to it, and what
// every step keeps.
module RunnerRows {
  import opened Wrappers
  import opened RunBudget
  import opened RunLifecycle
  import opened RunnerMachine

  // The run, its future if there is one, whether its thread died in `fail` since the Runner came up, whether it has
  // been claimed, and whether the Runner is up.
  datatype Row = Row(run: Run, thread: Option<Thread>, lost: bool, claimed: bool, up: bool)

  // What a step of the system means for one run.
  datatype RowEvent =
    | Untouched
    | Asked(request: Request)
    | Claimed
    | Worked(outcome: Outcome)
    | Reaped
    | Crashed
    | Reconciled

  function RowAfter(v: Row, e: RowEvent): Row {
    match e
    case Untouched => v
    case Asked(request) => v.(run := Handle(v.run, request))
    case Claimed => v.(run := ClaimRun(v.run), thread := Some(Thread(Loading, None)), claimed := true)
    case Worked(outcome) => if v.thread.None? then v else WorkedRow(v, v.thread.value, outcome)
    case Reaped => v.(thread := None)
    case Crashed => v.(thread := None, lost := false, up := false)
    case Reconciled => v.(run := Orphan(v.run), up := true)
  }

  function WorkedRow(v: Row, t: Thread, outcome: Outcome): Row {
    var (after, next) := Step1(v.run, t, outcome);
    v.(run := after, thread := Some(next), lost := v.lost || Dies(t.pc, outcome))
  }

  /* ---------- What holds of every row ---------- */

  predicate Live(pc: Option<Pc>) {
    pc.Some? && !pc.value.Exited?
  }

  // The status, the thread's place and the loss of a run go together: while the Runner is up, a run is interrupted
  // exactly when it has a live thread or has lost it, and was not cancelled.
  ghost predicate Steady(s: Status, pc: Option<Pc>, lost: bool, up: bool) {
    && (pc.Some? ==> up && Placed(s, pc.value))
    && (lost ==> up && InProgress(s) && !Live(pc))
    && (pc.Some? && pc.value.Exited? ==> Terminal(s) || lost)
    && (up && Interrupted(s) ==> lost || Live(pc))
  }

  function PlaceOf(t: Option<Thread>): Option<Pc> {
    match t
    case None => None
    case Some(thread) => Some(thread.pc)
  }

  ghost predicate RowHolds(v: Row) {
    && Consistent(v.run)
    && Steady(v.run.status, PlaceOf(v.thread), v.lost, v.up)
    && (v.thread.Some? ==> Metered(v.thread.value, v.run.base, v.run.overrides))
    && Told(v.run.log).claims == (if v.claimed then 1 else 0)
  }

  // When a step may happen to a row.
  ghost predicate Possible(v: Row, e: RowEvent) {
    match e
    case Claimed => v.up && Claimable(v.run)
    case Reaped => v.thread.Some? && v.thread.value.pc.Exited?
    case Reconciled => !v.up
    case _ => true
  }

  // What a step keeps of a row, and what it never undoes.
  ghost predicate Kept(v: Row, e: RowEvent) {
    RowHolds(RowAfter(v, e)) && Evolves(v.run, RowAfter(v, e).run)
  }

  lemma NewRowHolds(r: Run, up: bool)
    requires Consistent(r) && r.status.Queued?
    ensures RowHolds(Row(r, None, false, false, up))
  {
  }

  lemma CancellingStaysSteady(s: Status, after: Status, pc: Option<Pc>, lost: bool, up: bool)
    requires Steady(s, pc, lost, up) && (after == s || after.Cancelled?)
    ensures Steady(after, pc, lost, up)
  {
  }

  lemma LongerLogStaysMetered(t: Thread, base: Budget, overrides: seq<Override>, more: seq<Override>)
    requires Metered(t, base, overrides) && overrides <= more
    ensures Metered(t, base, more)
  {
    if t.meter.Some? {
      GrowingKeepsInStep(t.meter.value, base, overrides, more);
    }
  }

  lemma RequestedRunHolds(v: Row, after: Run)
    requires RowHolds(v) && Consistent(after) && Continues(v.run, after)
    requires after.status == v.run.status || after.status.Cancelled?
    ensures RowHolds(v.(run := after)) && Evolves(v.run, after)
  {
    CancellingStaysSteady(v.run.status, after.status, PlaceOf(v.thread), v.lost, v.up);
    if v.thread.Some? {
      LongerLogStaysMetered(v.thread.value, v.run.base, v.run.overrides, after.overrides);
    }
  }

  lemma AskedKeeps(v: Row, request: Request)
    requires RowHolds(v)
    ensures Kept(v, Asked(request))
  {
    RequestKeeps(v.run, request);
    RequestedRunHolds(v, Handle(v.run, request));
  }

  lemma ClaimedKeeps(v: Row)
    requires RowHolds(v) && Possible(v, Claimed)
    ensures Kept(v, Claimed) && !v.claimed && v.thread.None?
  {
    ClaimKeeps(v.run);
  }

  // The status and the place after a thread's step.
  lemma WorkedIsSteady(s: Status, pc: Pc, lost: bool, o: Outcome)
    requires Steady(s, Some(pc), lost, true)
    ensures var (txn, next) := Next(s.Cancelled?, pc, o);
            Steady(StatusUnder(s, txn), Some(next), lost || Dies(pc, o), true)
  {
    NextIsPlaced(s, pc, o);
    NextBrings(s, pc, o);
    if !pc.Exited? && Next(s.Cancelled?, pc, o).1.Exited? {
      NextExits(s, pc, o);
    }
  }

  lemma WorkedKeeps(v: Row, outcome: Outcome)
    requires RowHolds(v)
    ensures Kept(v, Worked(outcome))
  {
    if v.thread.Some? {
      var t := v.thread.value;
      WorkedIsSteady(v.run.status, t.pc, v.lost, outcome);
      CommitStatus(v.run, Next(v.run.status.Cancelled?, t.pc, outcome).0);
      StepMatches(v.run, t, outcome);
    }
  }

  lemma ReconciledKeeps(v: Row)
    requires RowHolds(v) && !v.up
    ensures Kept(v, Reconciled) && !Interrupted(RowAfter(v, Reconciled).run.status)
  {
    OrphanKeeps(v.run);
  }

  // Every step of the system keeps what holds of a row and undoes nothing the run has reached.
  lemma RowStepHolds(v: Row, e: RowEvent)
    requires RowHolds(v) && Possible(v, e)
    ensures Kept(v, e)
  {
    match e
    case Untouched =>
    case Asked(request) => AskedKeeps(v, request);
    case Claimed => ClaimedKeeps(v);
    case Worked(outcome) => WorkedKeeps(v, outcome);
    case Reaped =>
    case Crashed =>
    case Reconciled => ReconciledKeeps(v);
  }

  /* ---------- Who changes what ---------- */

  // The only step that can bring each status about.
  ghost predicate Causes(v: Row, e: RowEvent, status: Status) {
    match status
    case Queued => false
    case Preparing => e.Claimed?
    case Failed => e.Reconciled? || (e.Worked? && v.thread.Some? && v.thread.value.pc.Failing?)
    case Cancelled => e == Asked(Cancel)
    case _ => e.Worked? && v.thread.Some? && Brings(v.thread.value.pc, v.run.status, status)
  }

  lemma RowStatusHasItsCause(v: Row, e: RowEvent)
    requires RowHolds(v) && RowAfter(v, e).run.status != v.run.status
    ensures Causes(v, e, RowAfter(v, e).run.status)
  {
    match e
    case Asked(request) => RequestsChangeOnlyTheirOwn(v.run, request);
    case Worked(outcome) => StatusMovesInOrder(v.run, v.thread.value, outcome);
    case _ =>
  }

  // Budgets, pauses and archival change only by the request for it, or when a restart ends the run.
  lemma RowRestHasItsCause(v: Row, e: RowEvent)
    ensures SameRest(v.run, RowAfter(v, e).run)
            || (e.Asked? && RequestMayChange(v.run, e.request, RowAfter(v, e).run))
            || (e.Reconciled? && RowAfter(v, e).run == Orphan(v.run))
  {
    match e
    case Asked(request) => RequestsChangeOnlyTheirOwn(v.run, request);
    case Worked(outcome) =>
      if v.thread.Some? {
        CommitStatus(v.run, Next(v.run.status.Cancelled?, v.thread.value.pc, outcome).0);
      }
    case _ =>
  }
}
