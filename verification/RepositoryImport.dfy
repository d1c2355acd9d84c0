// The schedule of import_repository: maintenance commits that carry the noise files, history variants spread between
// them, and the regression commit.
module RepositoryImport {
  import opened Distribution

  // What one commit after the first two is.
  datatype Slot =
    | Noise(commit: nat, from: nat, count: nat)   // files from .. from + count; commit 0 also deletes the freeze record
    | Variant(correct: bool, index: nat)
    | Regression

  // How many noise files and commits there are, and how many variants and noise commits precede the regression.
  datatype Plan = Plan(files: nat, commits: nat, early: nat, preNoise: nat)

  /* ---------- What a schedule contains ---------- */

  function NoiseFiles(slots: seq<Slot>): nat {
    if slots == [] then 0
    else
      var last := slots[|slots| - 1];
      NoiseFiles(slots[..|slots| - 1]) + if last.Noise? then last.count else 0
  }

  function NoiseCommits(slots: seq<Slot>): nat {
    if slots == [] then 0 else NoiseCommits(slots[..|slots| - 1]) + if slots[|slots| - 1].Noise? then 1 else 0
  }

  function Variants(slots: seq<Slot>): nat {
    if slots == [] then 0 else Variants(slots[..|slots| - 1]) + if slots[|slots| - 1].Variant? then 1 else 0
  }

  function Regressions(slots: seq<Slot>): nat {
    if slots == [] then 0 else Regressions(slots[..|slots| - 1]) + if slots[|slots| - 1].Regression? then 1 else 0
  }

  // The files of one maintenance commit: an even share, or nothing when no commit was planned for noise.
  function Share(files: nat, commits: nat, commit: nat): nat {
    if commit < commits then FloorSize(files, commits, commit) else 0
  }

  // Which variants state the correct claim: of the early ones two in three and always the last, of the late ones none.
  predicate StatesTruth(index: nat, early: nat) {
    index < early && (index == early - 1 || index % 3 != 1)
  }

  // Of three early variants in a row two state the truth, or all three if the last of all is the one in doubt; the last
  // one always does, and no late one.
  lemma TruthsAmongThree(index: nat, early: nat)
    ensures index + 3 < early ==>
              (if StatesTruth(index, early) then 1 else 0) + (if StatesTruth(index + 1, early) then 1 else 0) +
              (if StatesTruth(index + 2, early) then 1 else 0) == 2
    ensures early > 0 ==> StatesTruth(early - 1, early)
    ensures index >= early ==> !StatesTruth(index, early)
    ensures early > 2 ==> StatesTruth(0, early) && !StatesTruth(1, early)
  {
  }

  // What may come next: noise files and variants in order, each once.
  ghost predicate Follows(before: seq<Slot>, slot: Slot, plan: Plan) {
    match slot
    case Noise(commit, from, count) =>
      commit == NoiseCommits(before) && from == NoiseFiles(before) && count == Share(plan.files, plan.commits, commit)
    case Variant(correct, index) => index == Variants(before) && correct == StatesTruth(index, plan.early)
    case Regression => Variants(before) == plan.early && NoiseCommits(before) == plan.preNoise
  }

  ghost predicate InOrder(slots: seq<Slot>, plan: Plan) {
    slots == [] ||
    var before := slots[..|slots| - 1];
    InOrder(before, plan) && Follows(before, slots[|slots| - 1], plan)
  }

  lemma SlotAppended(slots: seq<Slot>, slot: Slot, plan: Plan)
    requires InOrder(slots, plan) && Follows(slots, slot, plan)
    ensures var after := slots + [slot];
            && after[..|slots|] == slots && InOrder(after, plan)
            && NoiseFiles(after) == NoiseFiles(slots) + (if slot.Noise? then slot.count else 0)
            && NoiseCommits(after) == NoiseCommits(slots) + (if slot.Noise? then 1 else 0)
            && Variants(after) == Variants(slots) + (if slot.Variant? then 1 else 0)
            && Regressions(after) == Regressions(slots) + (if slot.Regression? then 1 else 0)
  {
    assert (slots + [slot])[..|slots|] == slots;
  }

  // Files left before a maintenance commit.
  function Left(files: nat, commits: nat, commit: nat): nat {
    if commits == 0 then files else if commit <= commits then FloorLeft(files, commits, commit) else 0
  }

  lemma ShareIsTaken(files: nat, commits: nat, commit: nat)
    requires commit < commits || (commits == 0 && commit == 0)
    ensures Left(files, commits, commit) == Share(files, commits, commit) + Left(files, commits, commit + 1)
    ensures commits > 0 ==> FloorTake(Left(files, commits, commit), commits - commit) == Share(files, commits, commit)
  {
    if commits > 0 {
      FloorStep(files, commits, commit);
    }
  }

  // The files of a maintenance commit, from what is left.
  function Batch(left: nat, commitsLeft: nat): nat {
    if left != 0 && commitsLeft != 0 then FloorTake(left, commitsLeft) else 0
  }

  lemma BatchIsTheShare(files: nat, commits: nat, commit: nat, left: nat)
    requires commit < commits || (commits == 0 && commit == 0)
    requires left == Left(files, commits, commit)
    ensures Batch(left, commits - commit) == Share(files, commits, commit) <= left
    ensures left - Share(files, commits, commit) == Left(files, commits, commit + 1)
  {
    ShareIsTaken(files, commits, commit);
  }

  lemma NoiseAppended(slots: seq<Slot>, slot: Slot, plan: Plan, s: Stretch)
    requires InOrder(slots, plan) && Spread(slots, s) && OnTime(s, NoiseCommits(slots), Variants(slots))
    requires slot == Noise(NoiseCommits(slots), NoiseFiles(slots), Share(plan.files, plan.commits, NoiseCommits(slots)))
    ensures var after := slots + [slot];
            && InOrder(after, plan) && Spread(after, s) && Extends(slots, after, slot.commit)
            && NoiseFiles(after) == NoiseFiles(slots) + slot.count && NoiseCommits(after) == NoiseCommits(slots) + 1
            && Variants(after) == Variants(slots) && Regressions(after) == Regressions(slots)
  {
    SlotAppended(slots, slot, plan);
    SpreadGrows(slots, slot, s);
  }

  /* ---------- How the variants spread over a stretch ---------- */

  // The noise commits from `first` on, and how many variants are due before each of them.
  datatype Stretch = Stretch(first: nat, count: nat, due: nat -> nat)

  // `base` variants came before the stretch, and its own are spread over it.
  function Even(first: nat, count: nat, base: nat, variants: nat): Stretch {
    Stretch(first, count, (i: nat) => base + if i <= count then Due(i, variants, count) else variants)
  }

  // Before a noise commit of the stretch as many of its variants have come as were due.
  ghost predicate SpreadAt(front: seq<Slot>, slot: Slot, s: Stretch) {
    slot.Noise? ==> OnTime(s, slot.commit, Variants(front))
  }

  // As many variants as are due before a noise commit, if it belongs to the stretch.
  ghost predicate OnTime(s: Stretch, commit: nat, variants: nat) {
    s.first <= commit < s.first + s.count ==> variants == s.due(commit - s.first)
  }

  ghost predicate Spread(slots: seq<Slot>, s: Stretch) {
    forall p :: 0 <= p < |slots| ==> SpreadAt(slots[..p], slots[p], s)
  }

  // More slots, with noise commits only from `first` on.
  ghost predicate Extends(before: seq<Slot>, after: seq<Slot>, first: nat) {
    before <= after && forall p :: |before| <= p < |after| && after[p].Noise? ==> after[p].commit >= first
  }

  lemma FrontOfMore<T>(front: seq<T>, last: T, p: nat)
    requires p <= |front|
    ensures (front + [last])[..p] == front[..p] && (p == |front| ==> front[..p] == front)
  {
  }

  lemma SpreadGrows(slots: seq<Slot>, slot: Slot, s: Stretch)
    requires Spread(slots, s) && SpreadAt(slots, slot, s)
    ensures Spread(slots + [slot], s)
  {
    var more := slots + [slot];
    forall p | 0 <= p < |more| ensures SpreadAt(more[..p], more[p], s) {
      FrontOfMore(slots, slot, p);
    }
  }

  lemma FrontOfBoth<T>(before: seq<T>, after: seq<T>, p: nat)
    requires before <= after && p < |before|
    ensures after[..p] == before[..p] && after[p] == before[p]
  {
  }

  lemma SpreadStays(before: seq<Slot>, after: seq<Slot>, later: nat, s: Stretch)
    requires Spread(before, s) && Extends(before, after, later) && s.first + s.count <= later
    ensures Spread(after, s)
  {
    forall p | 0 <= p < |after| ensures SpreadAt(after[..p], after[p], s) {
      if p < |before| {
        FrontOfBoth(before, after, p);
      }
    }
  }

  // Nothing of a stretch has come yet.
  lemma {:induction false} SpreadBegins(slots: seq<Slot>, plan: Plan, s: Stretch)
    requires InOrder(slots, plan) && NoiseCommits(slots) <= s.first
    ensures Spread(slots, s)
  {
    if slots != [] {
      var n := |slots| - 1;
      SpreadBegins(slots[..n], plan, s);
      SpreadGrows(slots[..n], slots[n], s);
      assert slots[..n] + [slots[n]] == slots;
    }
  }

  ghost predicate Growing(s: Stretch) {
    forall i :: 0 <= i < s.count ==> s.due(i) <= s.due(i + 1)
  }

  lemma EvenGrows(first: nat, count: nat, base: nat, variants: nat)
    ensures var s := Even(first, count, base, variants);
            && Growing(s) && s.due(0) == base && s.due(count) <= base + variants
            && (count > 0 ==> s.due(count) == base + variants)
  {
    forall i | 0 <= i < count ensures Due(i, variants, count) <= Due(i + 1, variants, count) {
      DueGrows(i, variants, count);
    }
    AllAreDue(variants, count);
    NoneAreDue(variants, count);
  }

  lemma NoneAreDue(variants: nat, count: nat)
    ensures Due(0, variants, count) == 0
  {
    if count > 0 {
      assert 0 * variants == 0;
    }
  }

  // The numbers of variants between neighbouring noise commits of a stretch differ by one at most.
  lemma VariantsAreEven(variants: nat, count: nat, i: nat)
    requires i < count
    ensures variants / count <= Due(i + 1, variants, count) - Due(i, variants, count) <= variants / count + 1
  {
    var a, b := i * variants, (i + 1) * variants;
    assert b == a + variants;
    Euclid(a, count);
    Euclid(b, count);
    Euclid(variants, count);
    var q, r := a / count + variants / count, a % count + variants % count;
    assert q * count == a / count * count + variants / count * count;
    NextMultiple(q, count);
    if r < count {
      QuotientIs(b, count, q);
    } else {
      QuotientIs(b, count, q + 1);
    }
  }

  /* ---------- The writer's running counts ---------- */

  class Schedule {
    const plan: Plan
    var slots: seq<Slot>
    var remainingFiles: nat
    var remainingCommits: int

    ghost predicate Valid()
      reads this
    {
      && InOrder(slots, plan)
      && remainingCommits == plan.commits - NoiseCommits(slots)
      && remainingFiles == Left(plan.files, plan.commits, NoiseCommits(slots))
      && NoiseFiles(slots) + remainingFiles == plan.files
    }

    // How many commits of each kind have been written.
    ghost predicate Holds(noise: nat, variants: nat, regressions: nat)
      reads this
    {
      NoiseCommits(slots) == noise && Variants(slots) == variants && Regressions(slots) == regressions &&
      |slots| == noise + variants + regressions
    }

    constructor (plan: Plan)
      ensures Valid() && Holds(0, 0, 0) && this.plan == plan && slots == []
    {
      this.plan := plan;
      slots, remainingFiles, remainingCommits := [], plan.files, plan.commits;
      new;
      if plan.commits > 0 {
        BothEnds(plan.files, plan.commits);
      }
    }

    // write_noise: an even share of what is left; the last commit takes everything.
    method WriteNoise(commit: nat, ghost variants: nat, ghost regressions: nat, ghost s: Stretch)
      requires Valid() && Holds(commit, variants, regressions)
      requires commit < plan.commits || plan.commits == commit == 0
      requires Spread(slots, s) && OnTime(s, commit, variants)
      modifies this
      ensures Valid() && Holds(commit + 1, variants, regressions)
      ensures Spread(slots, s) && Extends(old(slots), slots, commit)
    {
      BatchIsTheShare(plan.files, plan.commits, commit, remainingFiles);
      var batch := Batch(remainingFiles, remainingCommits);
      var slot := Noise(commit, plan.files - remainingFiles, batch);
      NoiseAppended(slots, slot, plan, s);
      slots := slots + [slot];
      remainingFiles := remainingFiles - batch;
      remainingCommits := remainingCommits - 1;
    }

    // write_variant.
    method WriteVariant(index: nat, ghost noise: nat, ghost regressions: nat, ghost s: Stretch)
      requires Valid() && Holds(noise, index, regressions) && Spread(slots, s)
      modifies this`slots
      ensures Valid() && Holds(noise, index + 1, regressions) && Spread(slots, s)
      ensures Extends(old(slots), slots, noise)
    {
      var slot := Variant(StatesTruth(index, plan.early), index);
      SlotAppended(slots, slot, plan);
      SpreadGrows(slots, slot, s);
      slots := slots + [slot];
    }

    // Variants until all that are due have been written.
    method WriteVariants(emitted: nat, due: nat, ghost noise: nat, ghost regressions: nat, ghost s: Stretch)
      requires Valid() && Holds(noise, emitted, regressions) && emitted <= due && Spread(slots, s)
      modifies this`slots
      ensures Valid() && Holds(noise, due, regressions) && Spread(slots, s)
      ensures Extends(old(slots), slots, noise)
    {
      for index := emitted to due
        invariant Valid() && Holds(noise, index, regressions) && Spread(slots, s)
        invariant Extends(old(slots), slots, noise)
      {
        WriteVariant(index, noise, regressions, s);
      }
    }

    // Noise commits from `first` on, each followed by the variants then due; any left over follow at the end.
    method WriteStretch(first: nat, count: nat, base: nat, variants: nat, ghost regressions: nat)
      requires Valid() && Holds(first, base, regressions)
      requires count > 0 ==> first + count <= plan.commits || (plan.commits == first == 0 && count == 1)
      modifies this
      ensures Valid() && Holds(first + count, base + variants, regressions)
      ensures Spread(slots, Even(first, count, base, variants)) && Extends(old(slots), slots, first)
    {
      var s := Even(first, count, base, variants);
      EvenGrows(first, count, base, variants);
      WriteRounds(s, regressions);
      WriteVariants(s.due(count), base + variants, first + count, regressions, s);
    }

    // The rounds of a stretch.
    method WriteRounds(s: Stretch, ghost regressions: nat)
      requires Valid() && Holds(s.first, s.due(0), regressions) && Growing(s)
      requires s.count > 0 ==> s.first + s.count <= plan.commits || (plan.commits == s.first == 0 && s.count == 1)
      modifies this
      ensures Valid() && Holds(s.first + s.count, s.due(s.count), regressions)
      ensures Spread(slots, s) && Extends(old(slots), slots, s.first)
    {
      SpreadBegins(slots, plan, s);
      for i := 0 to s.count
        invariant Valid() && Holds(s.first + i, s.due(i), regressions) && Spread(slots, s)
        invariant Extends(old(slots), slots, s.first)
      {
        WriteRound(s.first + i, s.due(i), s.due(i + 1), regressions, s);
      }
    }

    // One noise commit and the variants that are due behind it.
    method WriteRound(commit: nat, emitted: nat, due: nat, ghost regressions: nat, ghost s: Stretch)
      requires Valid() && Holds(commit, emitted, regressions) && emitted <= due
      requires commit < plan.commits || plan.commits == commit == 0
      requires Spread(slots, s) && OnTime(s, commit, emitted)
      modifies this
      ensures Valid() && Holds(commit + 1, due, regressions)
      ensures Spread(slots, s) && Extends(old(slots), slots, commit)
    {
      WriteNoise(commit, emitted, regressions, s);
      WriteVariants(emitted, due, commit + 1, regressions, s);
    }

    // The regression commit.
    method WriteRegression(ghost s: Stretch)
      requires Valid() && Holds(plan.preNoise, plan.early, 0) && Spread(slots, s)
      modifies this`slots
      ensures Valid() && Holds(plan.preNoise, plan.early, 1) && Spread(slots, s)
    {
      SlotAppended(slots, Regression, plan);
      SpreadGrows(slots, Regression, s);
      slots := slots + [Regression];
    }

    // An early stretch, the regression, and a late stretch.
    method WriteBothStretches(postNoise: nat, variants: nat)
      requires Valid() && slots == [] && plan.early <= variants
      requires plan.preNoise <= plan.commits || (plan.commits == 0 && plan.preNoise == 1)
      requires postNoise > 0 ==> plan.preNoise + postNoise <= plan.commits
      modifies this
      ensures Valid() && Holds(plan.preNoise + postNoise, variants, 1)
      ensures Spread(slots, Even(0, plan.preNoise, 0, plan.early))
      ensures Spread(slots, Even(plan.preNoise, postNoise, plan.early, variants - plan.early))
    {
      WriteEarly();
      ghost var middle := slots;
      WriteStretch(plan.preNoise, postNoise, plan.early, variants - plan.early, 1);
      SpreadStays(middle, slots, plan.preNoise, Even(0, plan.preNoise, 0, plan.early));
    }

    // The early stretch and the regression.
    method WriteEarly()
      requires Valid() && slots == []
      requires plan.preNoise <= plan.commits || (plan.commits == 0 && plan.preNoise == 1)
      modifies this
      ensures Valid() && Holds(plan.preNoise, plan.early, 1) && Spread(slots, Even(0, plan.preNoise, 0, plan.early))
    {
      WriteStretch(0, plan.preNoise, 0, plan.early, 0);
      WriteRegression(Even(0, plan.preNoise, 0, plan.early));
    }
  }

  // Variants due after i of the noise commits.
  function Due(i: nat, variants: nat, count: nat): nat
    requires i <= count
  {
    if count == 0 then 0 else i * variants / count
  }

  lemma DueGrows(i: nat, variants: nat, count: nat)
    requires i < count
    ensures Due(i, variants, count) <= Due(i + 1, variants, count)
  {
    MulMonotone(i, i + 1, variants);
    QuotientGrows(i * variants, (i + 1) * variants, count);
  }

  lemma QuotientGrows(a: nat, b: nat, d: nat)
    requires a <= b && d > 0
    ensures a / d <= b / d
  {
    Euclid(a, d);
    Euclid(b, d);
    if b / d < a / d {
      MulMonotone(b / d + 1, a / d, d);
    }
  }

  // At the end of a stretch all its variants have been written, so the loop behind it finds nothing left to do.
  lemma AllAreDue(variants: nat, count: nat)
    ensures Due(count, variants, count) == if count == 0 then 0 else variants
  {
    if count > 0 {
      DivSum(variants, count, 0);
      assert count * variants == variants * count + 0;
    }
  }

  /* ---------- The whole schedule ---------- */

  // Variants before the regression: about a share of them, at least two.
  function EarlyVariants(variants: nat, share: nat): nat {
    if variants == 0 then 0 else if share < 2 then 2 else share
  }

  // The share is met exactly, unless there are variants and it leaves fewer than two of them for the early stretch.
  lemma EarlyVariantsAreTheShare(variants: nat, share: nat)
    requires share <= variants
    ensures EarlyVariants(variants, share) == share <==> variants == 0 || share >= 2
    ensures variants >= 2 ==> 2 <= EarlyVariants(variants, share) <= variants
    ensures variants == 0 ==> EarlyVariants(variants, share) == 0
  {
  }

  // With a final version of the core files the regression stands between an early and a late stretch; without one
  // there is noise only. `noiseShare` and `variantShare` are the 37 percent the source takes of each count.
  method ScheduleImport(noiseTotal: nat, noiseCommits: nat, variants: nat, regression: bool, noiseShare: nat,
                        variantShare: nat)
    returns (slots: seq<Slot>, converged: bool)
    requires noiseShare <= noiseCommits && variantShare <= variants && (variants > 0 ==> variants >= 24 && regression)
    ensures InOrder(slots, Plan(noiseTotal, noiseCommits, EarlyVariants(variants, variantShare), Max(1, noiseShare)))
    ensures converged <==> NoiseFiles(slots) == noiseTotal
    ensures converged <==> noiseTotal == 0 || noiseCommits > 0
    ensures Variants(slots) == variants && Regressions(slots) == (if regression then 1 else 0)
    ensures NoiseCommits(slots) == if regression then Max(1, noiseCommits) else noiseCommits
    ensures |slots| == NoiseCommits(slots) + Variants(slots) + Regressions(slots)
    ensures regression ==>
              var early, preNoise := EarlyVariants(variants, variantShare), Max(1, noiseShare);
              && Spread(slots, Even(0, preNoise, 0, early))
              && Spread(slots, Even(preNoise, NoiseCommits(slots) - preNoise, early, variants - early))
  {
    var early, preNoise := EarlyVariants(variants, variantShare), Max(1, noiseShare);
    var schedule := new Schedule(Plan(noiseTotal, noiseCommits, early, preNoise));
    if regression {
      schedule.WriteBothStretches(if noiseCommits > preNoise then noiseCommits - preNoise else 0, variants);
    } else {
      schedule.WriteStretch(0, noiseCommits, 0, 0, 0);
    }
    slots := schedule.slots;
    converged := schedule.remainingFiles == 0;
    NothingLeft(noiseTotal, noiseCommits, NoiseCommits(slots));
  }

  // All noise files are out after the last noise commit; with no noise commit planned none ever is.
  lemma NothingLeft(files: nat, commits: nat, commit: nat)
    requires commit == commits || commits == 0
    ensures Left(files, commits, commit) == if commits == 0 then files else 0
  {
    if commits > 0 {
      BothEnds(files, commits);
    }
  }

  /* ---------- How many commits there will be ---------- */

  function VariantCount(commitCount: nat, regression: bool, factory: bool): nat {
    if !(regression && factory) then 0
    else
      var wished := if commitCount / 6 > 24 then commitCount / 6 else 24;
      if wished < 192 then wished else 192
  }

  // One commit in six is a variant, from 24 up to 192 of them, if there is a regression and a source of variants.
  lemma VariantsAreASixth(commitCount: nat, regression: bool, factory: bool)
    ensures var n := VariantCount(commitCount, regression, factory);
            if !regression || !factory then n == 0
            else if commitCount <= 144 then n == 24
            else if commitCount >= 1152 then n == 192
            else 0 <= commitCount - 6 * n < 6
  {
  }

  // The snapshot, the key commit, the regression and the variants.
  function Reserved(commitCount: nat, regression: bool, factory: bool): nat {
    2 + (if regression then 1 else 0) + VariantCount(commitCount, regression, factory)
  }

  function NoiseCommitCount(commitCount: nat, regression: bool, factory: bool): nat {
    if commitCount > Reserved(commitCount, regression, factory)
    then commitCount - Reserved(commitCount, regression, factory) else 0
  }

  // All commits of the history: the first two and the scheduled ones.
  function CommitsWritten(commitCount: nat, regression: bool, factory: bool): nat {
    var noise := NoiseCommitCount(commitCount, regression, factory);
    2 + (if regression then Max(1, noise) + 1 else noise) + VariantCount(commitCount, regression, factory)
  }

  // The history has the requested number of commits exactly when there is room for a noise commit, or when none is
  // needed because there is no regression to introduce.
  lemma CommitCountIsMetIff(commitCount: nat, regression: bool, factory: bool)
    ensures var least := Reserved(commitCount, regression, factory) + if regression then 1 else 0;
            CommitsWritten(commitCount, regression, factory) == Max(commitCount, least)
    ensures CommitsWritten(commitCount, regression, factory) == commitCount
            <==> commitCount > Reserved(commitCount, regression, factory) ||
                 (!regression && commitCount == Reserved(commitCount, regression, factory))
  {
  }

  // A regression and its variants reserve 27 commits; asked for 27, the import writes 28.
  lemma OneCommitTooMany()
    ensures Reserved(27, true, true) == 27 && CommitsWritten(27, true, true) == 28
  {
  }
}
