// What the log of a run says it went through: the transcript of its work, which outcome leads to which transcript, and
// how soon a cancelled run is left alone.
module RunnerTranscript {
  import opened Wrappers
  import opened RunBudget
  import opened RunLifecycle
  import opened RunnerMachine
  import opened RunnerRows
  import opened RunnerSystem
  import opened RunnerProtocol

  /* ---------- The work in a log ---------- */

  // Requests, engine events and Provider retries aside.
  predicate IsWork(kind: Kind) {
    kind.RunPreparing? || kind.ScenarioLoaded? || kind.ScenarioPrepared? || kind.SandboxStarted? || kind.RunScoring? ||
    kind.JudgeNote? || kind.RunBudgetExhausted? || kind.RunCompleted? || kind.RunFailed? || kind.RunOrphaned? ||
    kind.RunCancelled?
  }

  // The events of a log that record work, in order.
  function Work(log: seq<Event>): seq<Kind> {
    if log == [] then []
    else
      var before, kind := Work(log[..|log| - 1]), log[|log| - 1].kind;
      if IsWork(kind) then before + [kind] else before
  }

  /* ---------- Transcripts ---------- */

  const SETUP: seq<Kind> := [RunPreparing, ScenarioLoaded, ScenarioPrepared, SandboxStarted, RunScoring]

  // Hidden checks, each with its result before the next one starts.
  function Checks(n: nat): seq<Kind> {
    if n == 0 then [] else Checks(n - 1) + [JudgeNote(CheckStarted), JudgeNote(CheckCompleted)]
  }

  const AUDIT: seq<Kind> := [JudgeNote(AuditStarted), JudgeNote(AuditCompleted), JudgeNote(ScorecardStarted)]

  datatype Review = Skipped | NoJudge | JudgeFailed | JudgeCompleted

  function ReviewNotes(review: Review): seq<Kind> {
    match review
    case Skipped => [JudgeNote(SemanticSkipped)]
    case NoJudge => [JudgeNote(SemanticFailed)]
    case JudgeFailed => [JudgeNote(SemanticStarted), JudgeNote(SemanticFailed)]
    case JudgeCompleted => [JudgeNote(SemanticStarted), JudgeNote(SemanticCompleted)]
  }

  function UpToChecks(n: nat): seq<Kind> {
    SETUP + Checks(n)
  }

  function UpToReview(n: nat, review: Review): seq<Kind> {
    UpToChecks(n) + AUDIT + ReviewNotes(review) + [JudgeNote(ScorecardCompleted)]
  }

  function Ending(exhausted: bool): seq<Kind> {
    if exhausted then [RunBudgetExhausted, RunCompleted] else [RunCompleted]
  }

  // All the work of a completed run.
  function Transcript(n: nat, review: Review, exhausted: bool): seq<Kind> {
    UpToReview(n, review) + Ending(exhausted)
  }

  // The work behind a log in each phase.
  ghost predicate Records(work: seq<Kind>, p: Phase, n: nat, review: Review, exhausted: bool) {
    match p
    case Waiting => work == []
    case Taken => work == SETUP[..1]
    case Loaded => work == SETUP[..2]
    case Prepared => work == SETUP[..3]
    case Underway => work == SETUP[..4]
    case ToCheck => work == UpToChecks(n)
    case InCheck => work == UpToChecks(n) + [JudgeNote(CheckStarted)]
    case InAudit => work == UpToChecks(n) + AUDIT[..1]
    case Audited => work == UpToChecks(n) + AUDIT[..2]
    case Grade => work == UpToChecks(n) + AUDIT
    case InReview => work == UpToChecks(n) + AUDIT + [JudgeNote(SemanticStarted)]
    case Judged => work == UpToChecks(n) + AUDIT + ReviewNotes(review)
    case ToArchive => work == UpToReview(n, review)
    case Overspent => work == UpToReview(n, review) + [RunBudgetExhausted]
    case Finished => work == Transcript(n, review, exhausted)
    case _ => true
  }

  lemma WorkGrows(log: seq<Event>)
    requires log != []
    ensures var before, kind := log[..|log| - 1], log[|log| - 1].kind;
            && Work(log) == (if IsWork(kind) then Work(before) + [kind] else Work(before))
            && PhaseOf(log) == AfterEvent(PhaseOf(before), kind)
  {
  }

  lemma SetupParts()
    ensures SETUP[..1] == [RunPreparing] && SETUP[..2] == SETUP[..1] + [ScenarioLoaded]
    ensures SETUP[..3] == SETUP[..2] + [ScenarioPrepared] && SETUP[..4] == SETUP[..3] + [SandboxStarted]
    ensures UpToChecks(0) == SETUP == SETUP[..4] + [RunScoring]
    ensures AUDIT[..1] == [JudgeNote(AuditStarted)] && AUDIT[..2] == AUDIT[..1] + [JudgeNote(AuditCompleted)]
    ensures AUDIT == AUDIT[..2] + [JudgeNote(ScorecardStarted)]
  {
  }

  lemma FirstRecords(work: seq<Kind>, p: Phase, kind: Kind)
    requires p.Waiting? || p.Taken?
    requires Records(work, p, 0, Skipped, false) && IsWork(kind)
    ensures Records(work + [kind], AfterEvent(p, kind), 0, Skipped, false)
  {
    SetupParts();
  }

  lemma EarlyRecords(work: seq<Kind>, p: Phase, kind: Kind)
    requires p.Loaded? || p.Prepared? || p.Underway?
    requires Records(work, p, 0, Skipped, false) && IsWork(kind)
    ensures Records(work + [kind], AfterEvent(p, kind), 0, Skipped, false)
  {
    SetupParts();
  }

  lemma CheckRecords(work: seq<Kind>, p: Phase, n: nat, kind: Kind)
    requires (p.ToCheck? || p.InCheck?) && Records(work, p, n, Skipped, false) && IsWork(kind)
    ensures var more := if kind == JudgeNote(CheckCompleted) then n + 1 else n;
            Records(work + [kind], AfterEvent(p, kind), more, Skipped, false)
  {
    SetupParts();
    if p.InCheck? && kind == JudgeNote(CheckCompleted) {
      assert UpToChecks(n) + [JudgeNote(CheckStarted)] + [kind] == UpToChecks(n + 1);
    }
  }

  lemma AuditRecords(work: seq<Kind>, p: Phase, n: nat, kind: Kind)
    requires (p.InAudit? || p.Audited?) && Records(work, p, n, Skipped, false) && IsWork(kind)
    ensures Records(work + [kind], AfterEvent(p, kind), n, Skipped, false)
  {
    SetupParts();
    assert UpToChecks(n) + AUDIT[..1] + [JudgeNote(AuditCompleted)] == UpToChecks(n) + AUDIT[..2];
    assert UpToChecks(n) + AUDIT[..2] + [JudgeNote(ScorecardStarted)] == UpToChecks(n) + AUDIT;
  }

  function ReviewBy(p: Phase, note: Note): Review {
    if note.SemanticSkipped? then Skipped
    else if note.SemanticCompleted? then JudgeCompleted
    else if p.InReview? then JudgeFailed else NoJudge
  }

  lemma ReviewRecords(work: seq<Kind>, p: Phase, n: nat, note: Note)
    requires (p.Grade? || p.InReview?) && Records(work, p, n, Skipped, false)
    ensures Records(work + [JudgeNote(note)], AfterEvent(p, JudgeNote(note)), n, ReviewBy(p, note), false)
  {
    var front := UpToChecks(n) + AUDIT;
    assert front + [JudgeNote(SemanticStarted)] + [JudgeNote(note)]
        == front + [JudgeNote(SemanticStarted), JudgeNote(note)];
  }

  lemma LateRecords(work: seq<Kind>, p: Phase, n: nat, review: Review, kind: Kind)
    requires (p.Judged? || p.ToArchive? || p.Overspent?) && Records(work, p, n, review, false) && IsWork(kind)
    ensures Records(work + [kind], AfterEvent(p, kind), n, review, p.Overspent?)
  {
    var front := UpToReview(n, review);
    assert front + [RunBudgetExhausted] + [RunCompleted] == front + [RunBudgetExhausted, RunCompleted];
  }

  predicate Settled(p: Phase) {
    Over(p) || p.Broken? || p.CheckLost?
  }

  lemma SettledRecords(work: seq<Kind>, p: Phase, kind: Kind, n: nat, review: Review, exhausted: bool)
    requires Settled(p) && IsWork(kind)
    ensures Records(work, AfterEvent(p, kind), n, review, exhausted)
  {
  }

  lemma NoWork(p: Phase, kind: Kind)
    requires !IsWork(kind)
    ensures AfterEvent(p, kind) == p || AfterEvent(p, kind).Broken?
  {
  }

  // A log records exactly the work of its phase.
  lemma {:induction false} LogRecords(log: seq<Event>) returns (n: nat, review: Review, exhausted: bool)
    ensures Records(Work(log), PhaseOf(log), n, review, exhausted)
  {
    if log == [] {
      n, review, exhausted := 0, Skipped, false;
    } else {
      var before, kind := log[..|log| - 1], log[|log| - 1].kind;
      var p, work := PhaseOf(before), Work(before);
      n, review, exhausted := LogRecords(before);
      WorkGrows(log);
      if !IsWork(kind) {
        NoWork(p, kind);
      } else {
        n, review, exhausted := OneMoreRecord(work, p, kind, n, review, exhausted);
      }
    }
  }

  lemma OneMoreRecord(work: seq<Kind>, p: Phase, kind: Kind, n: nat, review: Review, exhausted: bool)
    returns (n': nat, review': Review, exhausted': bool)
    requires Records(work, p, n, review, exhausted) && IsWork(kind)
    ensures Records(work + [kind], AfterEvent(p, kind), n', review', exhausted')
  {
    n', review', exhausted' := n, review, exhausted;
    if Settled(p) {
      SettledRecords(work + [kind], p, kind, n, review, exhausted);
    } else if p.ToCheck? || p.InCheck? {
      n' := if kind == JudgeNote(CheckCompleted) then n + 1 else n;
      CheckRecords(work, p, n, kind);
      AnyReview(work + [kind], AfterEvent(p, kind), n', review, exhausted);
    } else if p.InAudit? || p.Audited? {
      AuditRecords(work, p, n, kind);
      AnyReview(work + [kind], AfterEvent(p, kind), n, review, exhausted);
    } else if p.Grade? || p.InReview? {
      if kind.JudgeNote? {
        review', exhausted' := ReviewBy(p, kind.note), false;
        ReviewRecords(work, p, n, kind.note);
      }
    } else if p.Judged? || p.ToArchive? || p.Overspent? {
      exhausted' := p.Overspent?;
      LateRecords(work, p, n, review, kind);
    } else {
      n', review', exhausted' := 0, Skipped, false;
      if p.Waiting? || p.Taken? {
        FirstRecords(work, p, kind);
      } else {
        EarlyRecords(work, p, kind);
      }
    }
  }

  // Before the review it does not matter which one is named.
  lemma AnyReview(work: seq<Kind>, p: Phase, n: nat, review: Review, exhausted: bool)
    requires !p.Judged? && !p.ToArchive? && !p.Overspent? && !p.Finished? && Records(work, p, n, Skipped, false)
    ensures Records(work, p, n, review, exhausted)
  {
  }

  // In every history the work of a completed run is a full transcript: claimed, loaded, prepared, run in its sandbox
  // and scored; every hidden check with its result before the audit; then the audit, the scorecard, one semantic review
  // in one of its four forms, the finished scorecard and completion, behind a note of an exhausted budget or not.
  lemma CompletedRunsWentThroughAll(fallback: int, actions: seq<Action>, id: nat)
    returns (n: nat, review: Review, exhausted: bool)
    requires 1 <= fallback <= 16 && id < |Reached(fallback, actions).runs|
    requires Reached(fallback, actions).runs[id].status.Completed?
    ensures Work(Reached(fallback, actions).runs[id].log) == Transcript(n, review, exhausted)
  {
    var s := Reached(fallback, actions);
    EveryLogIsProper(fallback, actions);
    assert RowProper(RowOf(s, id));
    n, review, exhausted := LogRecords(s.runs[id].log);
  }

  // In every log, also of runs that failed or were cancelled later, the audit starts only when every hidden check
  // that was started has its result.
  lemma AuditsFollowAllChecks(fallback: int, actions: seq<Action>, id: nat, k: nat) returns (n: nat)
    requires 1 <= fallback <= 16 && id < |Reached(fallback, actions).runs|
    requires var log := Reached(fallback, actions).runs[id].log; k < |log| && log[k].kind == JudgeNote(AuditStarted)
    ensures Work(Reached(fallback, actions).runs[id].log[..k]) == UpToChecks(n)
  {
    var s := Reached(fallback, actions);
    var log := s.runs[id].log;
    EveryLogIsProper(fallback, actions);
    assert RowProper(RowOf(s, id));
    if PhaseOf(log[..k + 1]).Broken? {
      BrokenStays(log, k + 1);
    }
    assert log[..k + 1][..k] == log[..k];
    var review, exhausted;
    n, review, exhausted := LogRecords(log[..k]);
  }

  /* ---------- What the outcomes lead to ---------- */

  // What a thread writes that nothing disturbs, and where it ends.
  function Script(pc: Pc, outcomes: seq<Outcome>): (seq<Kind>, Pc)
    decreases |outcomes|
  {
    if outcomes == [] then ([], pc)
    else
      var (txn, next) := Next(false, pc, outcomes[0]);
      var (kinds, last) := Script(next, outcomes[1..]);
      (Logged(txn) + kinds, last)
  }

  // The thread itself.
  function RunOn(r: Run, t: Thread, outcomes: seq<Outcome>): (Run, Thread)
    decreases |outcomes|
  {
    if outcomes == [] then (r, t)
    else
      var (after, next) := Step1(r, t, outcomes[0]);
      RunOn(after, next, outcomes[1..])
  }

  function Kinds(log: seq<Event>): seq<Kind> {
    seq(|log|, k requires 0 <= k < |log| => log[k].kind)
  }

  lemma CommitLogs(r: Run, txn: Transaction)
    requires !r.status.Cancelled? && (txn.Stage? && txn.status.Some? ==> !txn.status.value.Cancelled?)
    ensures Kinds(Commit(r, txn).log) == Kinds(r.log) + Logged(txn) && !Commit(r, txn).status.Cancelled?
  {
  }

  lemma NextNeverCancels(pc: Pc, o: Outcome)
    ensures var txn := Next(false, pc, o).0; txn.Stage? && txn.status.Some? ==> !txn.status.value.Cancelled?
  {
  }

  lemma {:induction false} RunOnLogs(r: Run, t: Thread, outcomes: seq<Outcome>)
    requires !r.status.Cancelled?
    ensures var (after, last) := RunOn(r, t, outcomes);
            && Kinds(after.log) == Kinds(r.log) + Script(t.pc, outcomes).0
            && last.pc == Script(t.pc, outcomes).1 && !after.status.Cancelled?
    decreases |outcomes|
  {
    if outcomes == [] {
      assert Kinds(r.log) + [] == Kinds(r.log);
    } else {
      var txn := Next(false, t.pc, outcomes[0]).0;
      var (after, next) := Step1(r, t, outcomes[0]);
      NextNeverCancels(t.pc, outcomes[0]);
      CommitLogs(r, txn);
      RunOnLogs(after, next, outcomes[1..]);
      InOneLine(Kinds(r.log), Logged(txn), Script(next.pc, outcomes[1..]).0);
    }
  }

  lemma InOneLine<T>(a: seq<T>, b: seq<T>, c: seq<T>)
    ensures a + b + c == a + (b + c)
  {
  }

  // From one place these outcomes lead to another, and write these events.
  ghost predicate Leads(pc: Pc, outcomes: seq<Outcome>, kinds: seq<Kind>, last: Pc) {
    Script(pc, outcomes) == (kinds, last)
  }

  lemma {:induction false} Chain(pc: Pc, a: seq<Outcome>, before: seq<Kind>, middle: Pc, b: seq<Outcome>,
                                 behind: seq<Kind>, last: Pc)
    requires Leads(pc, a, before, middle) && Leads(middle, b, behind, last)
    ensures Leads(pc, a + b, before + behind, last)
    decreases |a|
  {
    if a == [] {
      assert a + b == b && before + behind == behind;
    } else {
      var (txn, next) := Next(false, pc, a[0]);
      var rest := Script(next, a[1..]).0;
      Chain(next, a[1..], rest, middle, b, behind, last);
      assert (a + b)[1..] == a[1..] + b && (a + b)[0] == a[0];
      InOneLine(Logged(txn), rest, behind);
    }
  }

  lemma OneOutcome(pc: Pc, o: Outcome, kinds: seq<Kind>, last: Pc)
    requires Next(false, pc, o).1 == last && Logged(Next(false, pc, o).0) == kinds
    ensures Leads(pc, [o], kinds, last)
  {
    assert [o][1..] == [];
    assert kinds + [] == kinds;
  }

  lemma TwoOutcomes(pc: Pc, a: Outcome, first: seq<Kind>, middle: Pc, b: Outcome, second: seq<Kind>, last: Pc)
    requires Next(false, pc, a).1 == middle && Logged(Next(false, pc, a).0) == first
    requires Next(false, middle, b).1 == last && Logged(Next(false, middle, b).0) == second
    ensures Leads(pc, [a, b], first + second, last)
  {
    OneOutcome(pc, a, first, middle);
    OneOutcome(middle, b, second, last);
    Chain(pc, [a], first, middle, [b], second, last);
    assert [a] + [b] == [a, b];
  }

  const SETUP_OUTCOMES: seq<Outcome> := [Go, Go, Go, Go, Go, Go, Go, Go]

  const AUDIT_OUTCOMES: seq<Outcome> := [Go, Go, Go, Go]
  const ARCHIVE_OUTCOMES: seq<Outcome> := [Go, Go, Go]

  function CheckOutcomes(n: nat): seq<Outcome> {
    if n == 0 then [] else CheckOutcomes(n - 1) + [MoreChecks, Go, Go]
  }

  function ReviewOutcomes(review: Review): seq<Outcome> {
    match review
    case Skipped => [NotRequested]
    case NoJudge => [Unavailable]
    case JudgeFailed => [Go, Unavailable]
    case JudgeCompleted => [Go, Go]
  }

  // An undisturbed run of `execute`: n hidden checks, one kind of review, an exhausted budget or not.
  function Outcomes(n: nat, review: Review, exhausted: bool): seq<Outcome> {
    Front(n, review) + [if exhausted then Exhausted else Go]
  }

  lemma PreparingScript()
    ensures Leads(Loading, [Go, Go, Go, Go], SETUP[1..4], Investigating)
  {
    var load, announce, start := [ScenarioLoaded], [ScenarioPrepared], [SandboxStarted];
    TwoOutcomes(Loading, Go, load, Pc.Preparing, Go, [], Announcing);
    TwoOutcomes(Announcing, Go, announce, Sandboxing, Go, start, Investigating);
    Chain(Loading, [Go, Go], load + [], Announcing, [Go, Go], announce + start, Investigating);
    assert [Go, Go] + [Go, Go] == [Go, Go, Go, Go];
    assert load + [] + (announce + start) == [ScenarioLoaded, ScenarioPrepared, SandboxStarted] == SETUP[1..4];
  }

  lemma InvestigatingScript()
    ensures Leads(Investigating, [Go, Go, Go, Go], [RunScoring], Checking)
  {
    TwoOutcomes(Investigating, Go, [], Investigated, Go, [], Collecting);
    TwoOutcomes(Collecting, Go, [RunScoring], Collected, Go, [], Checking);
    Chain(Investigating, [Go, Go], [] + [], Collecting, [Go, Go], [RunScoring] + [], Checking);
    assert [Go, Go] + [Go, Go] == [Go, Go, Go, Go];
    assert [] + [] + ([RunScoring] + []) == [RunScoring];
  }

  lemma SetupScript()
    ensures Leads(Loading, SETUP_OUTCOMES, SETUP[1..], Checking)
  {
    var four := [Go, Go, Go, Go];
    PreparingScript();
    InvestigatingScript();
    Chain(Loading, four, SETUP[1..4], Investigating, four, [RunScoring], Checking);
    assert SETUP_OUTCOMES == four + four && SETUP[1..] == SETUP[1..4] + [RunScoring];
  }

  lemma OneCheck()
    ensures Leads(Checking, [MoreChecks, Go, Go], [JudgeNote(CheckStarted), JudgeNote(CheckCompleted)], Checking)
  {
    var started, completed := [JudgeNote(CheckStarted)], [JudgeNote(CheckCompleted)];
    OneOutcome(Checking, MoreChecks, started, CheckRunning);
    TwoOutcomes(CheckRunning, Go, completed, Checked, Go, [], Checking);
    Chain(Checking, [MoreChecks], started, CheckRunning, [Go, Go], completed + [], Checking);
    assert [MoreChecks] + [Go, Go] == [MoreChecks, Go, Go];
    assert started + (completed + []) == [JudgeNote(CheckStarted), JudgeNote(CheckCompleted)];
  }

  lemma {:induction false} CheckScript(n: nat)
    ensures Leads(Checking, CheckOutcomes(n), Checks(n), Checking)
  {
    if n > 0 {
      CheckScript(n - 1);
      OneCheck();
      Chain(Checking, CheckOutcomes(n - 1), Checks(n - 1), Checking, [MoreChecks, Go, Go],
            [JudgeNote(CheckStarted), JudgeNote(CheckCompleted)], Checking);
    }
  }

  lemma AuditScript()
    ensures Leads(Checking, AUDIT_OUTCOMES, AUDIT, Reviewing)
  {
    var started, completed := [JudgeNote(AuditStarted)], [JudgeNote(AuditCompleted)];
    var grade := [JudgeNote(ScorecardStarted)];
    TwoOutcomes(Checking, Go, started, Auditing, Go, completed, Grading);
    TwoOutcomes(Grading, Go, grade, Graded, Go, [], Reviewing);
    Chain(Checking, [Go, Go], started + completed, Grading, [Go, Go], grade + [], Reviewing);
    assert [Go, Go] + [Go, Go] == AUDIT_OUTCOMES && started + completed + (grade + []) == AUDIT;
  }

  lemma ReviewScript(review: Review)
    ensures Leads(Reviewing, ReviewOutcomes(review), ReviewNotes(review), Reviewed)
  {
    var started, failed := [JudgeNote(SemanticStarted)], [JudgeNote(SemanticFailed)];
    var completed := [JudgeNote(SemanticCompleted)];
    match review
    case Skipped => OneOutcome(Reviewing, NotRequested, [JudgeNote(SemanticSkipped)], Reviewed);
    case NoJudge => OneOutcome(Reviewing, Unavailable, failed, Reviewed);
    case JudgeFailed =>
      TwoOutcomes(Reviewing, Go, started, Judging, Unavailable, failed, Reviewed);
      assert started + failed == ReviewNotes(review);
    case JudgeCompleted =>
      TwoOutcomes(Reviewing, Go, started, Judging, Go, completed, Reviewed);
      assert started + completed == ReviewNotes(review);
  }

  lemma ArchiveScript()
    ensures Leads(Reviewed, ARCHIVE_OUTCOMES, [JudgeNote(ScorecardCompleted)], Completing)
  {
    OneOutcome(Reviewed, Go, [], Publishing);
    TwoOutcomes(Publishing, Go, [JudgeNote(ScorecardCompleted)], Published, Go, [], Completing);
    Chain(Reviewed, [Go], [], Publishing, [Go, Go], [JudgeNote(ScorecardCompleted)] + [], Completing);
    assert [Go] + [Go, Go] == ARCHIVE_OUTCOMES;
    assert [] + ([JudgeNote(ScorecardCompleted)] + []) == [JudgeNote(ScorecardCompleted)];
  }

  // Everything but the last step.
  function Front(n: nat, review: Review): seq<Outcome> {
    SETUP_OUTCOMES + CheckOutcomes(n) + AUDIT_OUTCOMES + ReviewOutcomes(review) + ARCHIVE_OUTCOMES
  }

  lemma FrontScript(n: nat, review: Review)
    ensures Leads(Loading, Front(n, review), UpToReview(n, review)[1..], Completing)
  {
    var a, b, c, d := SETUP_OUTCOMES, CheckOutcomes(n), AUDIT_OUTCOMES, ReviewOutcomes(review);
    SetupScript();
    CheckScript(n);
    AuditScript();
    ReviewScript(review);
    ArchiveScript();
    Chain(Loading, a, SETUP[1..], Checking, b, Checks(n), Checking);
    Chain(Loading, a + b, SETUP[1..] + Checks(n), Checking, c, AUDIT, Reviewing);
    Chain(Loading, a + b + c, SETUP[1..] + Checks(n) + AUDIT, Reviewing, d, ReviewNotes(review), Reviewed);
    Chain(Loading, a + b + c + d, SETUP[1..] + Checks(n) + AUDIT + ReviewNotes(review), Reviewed, ARCHIVE_OUTCOMES,
          [JudgeNote(ScorecardCompleted)], Completing);
    FrontKinds(n, review);
  }

  lemma FrontKinds(n: nat, review: Review)
    ensures UpToReview(n, review)[1..]
            == SETUP[1..] + Checks(n) + AUDIT + ReviewNotes(review) + [JudgeNote(ScorecardCompleted)]
  {
    ButFirst(SETUP, Checks(n));
    ButFirst(UpToChecks(n), AUDIT);
    ButFirst(UpToChecks(n) + AUDIT, ReviewNotes(review));
    ButFirst(UpToChecks(n) + AUDIT + ReviewNotes(review), [JudgeNote(ScorecardCompleted)]);
  }

  lemma ButFirst<T>(a: seq<T>, b: seq<T>)
    requires a != []
    ensures (a + b)[1..] == a[1..] + b
  {
  }

  lemma WholeScript(n: nat, review: Review, exhausted: bool)
    ensures Leads(Loading, Outcomes(n, review, exhausted), Transcript(n, review, exhausted)[1..], Exited)
  {
    var o := if exhausted then Exhausted else Go;
    FrontScript(n, review);
    OneOutcome(Completing, o, Ending(exhausted), Exited);
    Chain(Loading, Front(n, review), UpToReview(n, review)[1..], Completing, [o], Ending(exhausted), Exited);
    ButFirst(UpToReview(n, review), Ending(exhausted));
  }

  // Each outcome has its meaning in the log: a claimed run that nothing disturbs writes exactly the transcript for its
  // number of checks, its kind of review and its budget, and is completed.
  lemma UndisturbedRunsComplete(r: Run, n: nat, review: Review, exhausted: bool)
    requires !r.status.Cancelled?
    ensures var (after, last) := RunOn(r, Thread(Loading, None), Outcomes(n, review, exhausted));
            && Kinds(after.log) == Kinds(r.log) + Transcript(n, review, exhausted)[1..]
            && after.status.Completed? && last.pc.Exited?
  {
    var front, o, t := Front(n, review), if exhausted then Exhausted else Go, Thread(Loading, None);
    WholeScript(n, review, exhausted);
    RunOnLogs(r, t, Outcomes(n, review, exhausted));
    FrontScript(n, review);
    RunOnLogs(r, t, front);
    RunOnConcat(r, t, front, [o]);
    LastStepCompletes(RunOn(r, t, front).0, RunOn(r, t, front).1, o);
  }

  // A hidden check that is asked for is in the log at once.
  lemma ChecksAreLogged(s: State, id: nat)
    requires id < |s.runs| && id in s.threads && s.threads[id].pc.Checking? && !s.runs[id].status.Cancelled?
    ensures var after := DoWork(s, id, MoreChecks);
            && after.runs[id].log == Append(s.runs[id].log, JudgeNote(CheckStarted))
            && after.threads[id].pc.CheckRunning?
  {
  }

  // An exception at any place fails the run, with nothing in between; a hidden check that raises is noted first.
  lemma ExceptionsFailTheRun(r: Run, t: Thread)
    requires !r.status.Cancelled? && !t.pc.Failing? && !t.pc.Exited?
    ensures var (after, last) := RunOn(r, t, [Raise, Go]);
            && Kinds(after.log) == Kinds(r.log) + [RunFailed] && after.status.Failed? && last.pc.Exited?
    ensures t.pc.CheckRunning? ==>
              var (after, last) := RunOn(r, t, [CheckRaises, Go]);
              && Kinds(after.log) == Kinds(r.log) + [JudgeNote(CheckFailed), RunFailed]
              && after.status.Failed? && last.pc.Exited?
  {
    FailsAfter(r, t, Raise, []);
    assert [] + [RunFailed] == [RunFailed];
    if t.pc.CheckRunning? {
      FailsAfter(r, t, CheckRaises, [JudgeNote(CheckFailed)]);
      assert [JudgeNote(CheckFailed)] + [RunFailed] == [JudgeNote(CheckFailed), RunFailed];
    }
  }

  lemma FailsAfter(r: Run, t: Thread, o: Outcome, kinds: seq<Kind>)
    requires !r.status.Cancelled? && Next(false, t.pc, o).1.Failing? && Logged(Next(false, t.pc, o).0) == kinds
    ensures var (after, last) := RunOn(r, t, [o, Go]);
            && Kinds(after.log) == Kinds(r.log) + (kinds + [RunFailed]) && after.status.Failed? && last.pc.Exited?
  {
    TwoOutcomes(t.pc, o, kinds, Failing, Go, [RunFailed], Exited);
    RunOnLogs(r, t, [o, Go]);
    var (after, next) := Step1(r, t, o);
    NextNeverCancels(t.pc, o);
    CommitLogs(r, Next(false, t.pc, o).0);
    assert [o, Go][1..] == [Go] && [Go][1..] == [];
    assert RunOn(after, next, [Go]) == Step1(after, next, Go);
  }

  lemma LastStepCompletes(r: Run, t: Thread, o: Outcome)
    requires t.pc.Completing? && !r.status.Cancelled? && (o.Go? || o.Exhausted?)
    ensures RunOn(r, t, [o]).0.status.Completed?
  {
    assert [o][1..] == [];
  }

  lemma {:induction false} RunOnConcat(r: Run, t: Thread, a: seq<Outcome>, b: seq<Outcome>)
    ensures RunOn(r, t, a + b) == RunOn(RunOn(r, t, a).0, RunOn(r, t, a).1, b)
    decreases |a|
  {
    if a == [] {
      assert a + b == b;
    } else {
      var (after, next) := Step1(r, t, a[0]);
      RunOnConcat(after, next, a[1..], b);
      assert (a + b)[1..] == a[1..] + b && (a + b)[0] == a[0];
    }
  }

  /* ---------- Cancelled runs ---------- */

  // Steps at most until a thread leaves a cancelled run, engine events, override reads and retries aside.
  function StepsToLeave(pc: Pc): nat {
    match pc
    case Exited => 0
    case Failing => 1
    case Sandboxing => 4
    case Investigating => 3
    case Collecting => 3
    case Checking => 5
    case CheckRunning => 3
    case Auditing => 4
    case Grading => 3
    case Reviewing => 4
    case Judging => 3
    case Publishing => 3
    case _ => 2
  }

  predicate MovesOn(o: Outcome) {
    !o.Engine? && !o.Retry? && !o.ReadOverrides?
  }

  lemma OneStepCloser(r: Run, t: Thread, o: Outcome)
    requires r.status.Cancelled? && MovesOn(o)
    ensures var (after, next) := Step1(r, t, o);
            after == r && StepsToLeave(next.pc) <= if StepsToLeave(t.pc) == 0 then 0 else StepsToLeave(t.pc) - 1
  {
  }

  // A thread leaves a cancelled run within five such steps, and writes nothing in them.
  lemma {:induction false} CancelledRunsAreLeft(r: Run, t: Thread, outcomes: seq<Outcome>)
    requires r.status.Cancelled? && forall k :: 0 <= k < |outcomes| ==> MovesOn(outcomes[k])
    requires |outcomes| >= StepsToLeave(t.pc)
    ensures RunOn(r, t, outcomes).0 == r && RunOn(r, t, outcomes).1.pc.Exited?
    decreases |outcomes|
  {
    if outcomes != [] {
      OneStepCloser(r, t, outcomes[0]);
      CancelledRunsAreLeft(r, Step1(r, t, outcomes[0]).1, outcomes[1..]);
    }
  }

  lemma FiveStepsAreEnough(pc: Pc)
    ensures StepsToLeave(pc) <= 5
  {
  }

  /* ---------- Which requests are answered ---------- */

  // By the log alone: when a request changes a run at all.
  ghost predicate Answers(r: Run, q: Request) {
    var told := Told(r.log);
    match q
    case Archive => Terminal(told.status) && !told.archived
    case Cancel => !Terminal(told.status)
    case Pause => told.status.Running? && !told.paused
    case Resume => told.status.Running? && told.paused
    case Adjust(payload) =>
      (told.status.Queued? || told.status.Preparing? || told.status.Running?) &&
      Adjusted(r.base, r.overrides, payload, r.minimumCalls, r.antigravity).Success?
  }

  lemma LongerLogDiffers(log: seq<Event>, kind: Kind)
    ensures Append(log, kind) != log
  {
    assert |Append(log, kind)| == |log| + 1;
  }

  // A request changes a run exactly when its log calls for it, whatever thread is at work.
  lemma RequestsAreAnsweredIff(r: Run, q: Request)
    requires Consistent(r)
    ensures Handle(r, q) != r <==> Answers(r, q)
  {
    match q
    case Archive => LongerLogDiffers(r.log, RunArchived);
    case Cancel => LongerLogDiffers(r.log, RunCancelled);
    case Pause => LongerLogDiffers(r.log, PauseRequested);
    case Resume => LongerLogDiffers(r.log, ResumeRequested);
    case Adjust(payload) =>
      LongerLogDiffers(r.log, BudgetAdjustmentRequested);
      AdjustAnswered(r, payload);
  }

  lemma AdjustAnswered(r: Run, payload: Payload)
    requires Consistent(r) && Append(r.log, BudgetAdjustmentRequested) != r.log
    ensures Handle(r, Adjust(payload)) != r <==> Answers(r, Adjust(payload))
  {
  }
}
