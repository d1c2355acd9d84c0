// What git makes of import_repository: the calls behind the schedule, the files its HEAD holds, and when they are as
// many as were asked for.
module RepositoryHead {
  import opened Wrappers
  import opened Numerals
  import opened Utf8
  import opened FastImport
  import opened FastImportWriter
  import opened FastImportReplay
  import opened Distribution
  import opened RepositoryImport

  /* ---------- The paths of the noise files ---------- */

  const FAMILIES: seq<string> := ["ci-runs", "incident-exports", "migration-ledger", "runtime-captures", "issue-mirror",
                                  "pr-mirror", "audit-snapshots", "cache-manifests", "release-ledger", "legacy"]
  const EXTENSIONS: seq<string> := ["ts", "py", "json", "md", "log"]

  function NoiseFront(index: nat): string {
    FAMILIES[index % 10] + "/bucket-" + Padded(index % 97, 2) + "/artifact"
  }

  function NoisePath(index: nat): string {
    NoiseFront(index) + "-" + Padded(index, 5) + "." + EXTENSIONS[index % 5]
  }

  // A text up to its last dot, and the digits at the end of a text.
  function BeforeDot(text: string): string {
    if text == "" then ""
    else if text[|text| - 1] == '.' then text[..|text| - 1]
    else BeforeDot(text[..|text| - 1])
  }

  function LastDigits(text: string): string {
    if text == "" || DigitValue(text[|text| - 1]) >= 10 then ""
    else LastDigits(text[..|text| - 1]) + [text[|text| - 1]]
  }

  lemma {:induction false} DotFound(front: string, ending: string)
    requires '.' !in ending
    ensures BeforeDot(front + "." + ending) == front
  {
    var text := front + "." + ending;
    if ending == "" {
      assert text[..|text| - 1] == front;
    } else {
      DotFound(front, ending[..|ending| - 1]);
      assert text[..|text| - 1] == front + "." + ending[..|ending| - 1];
      assert text[|text| - 1] == ending[|ending| - 1];
    }
  }

  lemma {:induction false} DigitsFound(front: string, digits: string)
    requires IsNumeral(digits, 10)
    ensures LastDigits(front + "-" + digits) == digits
  {
    var text := front + "-" + digits;
    if digits == "" {
      assert text[|text| - 1] == '-';
    } else {
      var n := |digits| - 1;
      DigitsFound(front, digits[..n]);
      assert text[..|text| - 1] == front + "-" + digits[..n];
      assert text[|text| - 1] == digits[n] && digits == digits[..n] + [digits[n]];
    }
  }

  lemma ExtensionHasNoDot(index: nat)
    ensures '.' !in EXTENSIONS[index % 5]
  {
  }

  lemma PathTellsNumber(index: nat)
    ensures Read(LastDigits(BeforeDot(NoisePath(index))), 10) == index
  {
    ExtensionHasNoDot(index);
    PaddedDenotes(index, 5);
    DotFound(NoiseFront(index) + "-" + Padded(index, 5), EXTENSIONS[index % 5]);
    DigitsFound(NoiseFront(index), Padded(index, 5));
  }

  lemma NoisePathsDiffer(i: nat, j: nat)
    requires NoisePath(i) == NoisePath(j)
    ensures i == j
  {
    PathTellsNumber(i);
    PathTellsNumber(j);
  }

  const FREEZE := "history/compatibility-freeze.txt"

  lemma NoNoiseIsTheFreezeRecord(index: nat)
    ensures NoisePath(index) != FREEZE
  {
    var ending := EXTENSIONS[index % 5];
    assert NoisePath(index)[|NoisePath(index)| - 1] == ending[|ending| - 1];
    assert ending[|ending| - 1] != 't';
  }

  lemma FrontIsOneLine(index: nat)
    ensures OneLine(FAMILIES[index % 10]) && OneLine(EXTENSIONS[index % 5]) && OneLine(FREEZE)
  {
  }

  lemma NoisePathIsOneLine(index: nat)
    ensures OneLine(NoisePath(index))
  {
    FrontIsOneLine(index);
    PaddedDenotes(index, 5);
    PaddedDenotes(index % 97, 2);
    NumeralIsOneLine(Padded(index, 5));
    NumeralIsOneLine(Padded(index % 97, 2));
  }

  lemma NumeralIsOneLine(digits: string)
    requires IsNumeral(digits, 10)
    ensures OneLine(digits)
  {
    assert forall i :: 0 <= i < |digits| ==> DigitValue(digits[i]) < 10;
  }

  /* ---------- The calls of a schedule ---------- */

  type Files = seq<(string, string)>

  // What the caller supplies: the first snapshot, the files of the regression (none for a repository without one), the
  // variants, the text of the freeze record, and the paths and texts of the noise files.
  datatype Contents = Contents(core: Files, final: Files, variant: (bool, nat) -> Files, freeze: string,
                               path: nat -> string, noise: nat -> string)

  // The message and the time of each commit.
  type Stamps = nat -> (string, nat)

  function FilesOf(c: Contents, slot: Slot): Files {
    match slot
    case Noise(_, from, count) => seq(count, k requires 0 <= k < count => (c.path(from + k), c.noise(from + k)))
    case Variant(correct, index) => c.variant(correct, index)
    case Regression => c.final
  }

  function DeletesOf(slot: Slot): seq<string> {
    if slot.Noise? && slot.commit == 0 then [FREEZE] else []
  }

  function OnMain(stamp: (string, nat), files: Files, deletes: seq<string>): Call {
    CommitCall(stamp.0, files, stamp.1, MAIN, deletes)
  }

  function SlotCall(c: Contents, stamps: Stamps, number: nat, slot: Slot): Call {
    OnMain(stamps(number + 2), FilesOf(c, slot), DeletesOf(slot))
  }

  // The snapshot, the key commit, and one commit for each slot.
  function CallsOf(c: Contents, stamps: Stamps, slots: seq<Slot>): seq<Call> {
    if slots == [] then [OnMain(stamps(0), c.core, []), OnMain(stamps(1), [(FREEZE, c.freeze)], [])]
    else
      var n := |slots| - 1;
      CallsOf(c, stamps, slots[..n]) + [SlotCall(c, stamps, n, slots[n])]
  }

  function PathsOf(files: Files): set<string> {
    set k | 0 <= k < |files| :: files[k].0
  }

  ghost predicate OneLineFiles(files: Files) {
    forall k :: 0 <= k < |files| ==> OneLine(files[k].0)
  }

  ghost predicate DifferentPaths(files: Files) {
    forall i, j :: 0 <= i < j < |files| ==> files[i].0 != files[j].0
  }

  // No file is in the way of the freeze record or of a noise file.
  ghost predicate Clear(c: Contents, paths: set<string>) {
    FREEZE !in paths && forall i: nat :: c.path(i) !in paths
  }

  // The core files are told apart by their paths, and no supplied file has a generated path.
  ghost predicate ValidContents(c: Contents) {
    DifferentPaths(c.core) && Clear(c, PathsOf(c.core)) && Clear(c, PathsOf(c.final)) &&
    forall correct, index :: Clear(c, PathsOf(c.variant(correct, index)))
  }

  ghost predicate OneLineContents(c: Contents) {
    OneLineFiles(c.core) && OneLineFiles(c.final) && forall correct, index :: OneLineFiles(c.variant(correct, index))
  }

  // Every noise file has a path of its own.
  ghost predicate Numbered(path: nat -> string) {
    (forall i: nat, j: nat :: path(i) == path(j) ==> i == j) && forall i: nat :: path(i) != FREEZE
  }

  lemma NoiseIsNumbered(path: nat -> string)
    requires path == NoisePath
    ensures Numbered(path)
  {
    forall i: nat, j: nat | path(i) == path(j) ensures i == j {
      NoisePathsDiffer(i, j);
    }
    forall i: nat ensures path(i) != FREEZE {
      NoNoiseIsTheFreezeRecord(i);
    }
  }

  /* ---------- The files at HEAD ---------- */

  function NoisePaths(path: nat -> string, n: nat): set<string> {
    if n == 0 then {} else NoisePaths(path, n - 1) + {path(n - 1)}
  }

  lemma {:induction false} NoisePathsAre(path: nat -> string, n: nat, p: string)
    ensures p in NoisePaths(path, n) <==> exists i: nat :: i < n && path(i) == p
  {
    if n > 0 {
      NoisePathsAre(path, n - 1, p);
    }
  }

  lemma {:induction false} NoisePathsCount(path: nat -> string, n: nat)
    requires Numbered(path)
    ensures |NoisePaths(path, n)| == n
  {
    if n > 0 {
      NoisePathsCount(path, n - 1);
      NoisePathsAre(path, n - 1, path(n - 1));
    }
  }

  lemma {:induction false} PathsCount(files: Files)
    requires DifferentPaths(files)
    ensures |PathsOf(files)| == |files|
  {
    if files != [] {
      var n := |files| - 1;
      PathsCount(files[..n]);
      assert PathsOf(files) == PathsOf(files[..n]) + {files[n].0};
    }
  }

  lemma {:induction false} WrittenPaths(tree: Tree, files: Files)
    ensures WithFiles(tree, files).Keys == tree.Keys + PathsOf(files)
  {
    if files != [] {
      var n := |files| - 1;
      WrittenPaths(tree, files[..n]);
      assert PathsOf(files) == PathsOf(files[..n]) + {files[n].0};
    }
  }

  function Gone(deletes: seq<string>): set<string> {
    set p | p in deletes
  }

  lemma PaintedPaths(picture: Picture, stamp: (string, nat), files: Files, deletes: seq<string>)
    ensures Head(Paint(picture, OnMain(stamp, files, deletes)), MAIN).Keys
            == Head(picture, MAIN).Keys + PathsOf(files) - Gone(deletes)
  {
    WrittenPaths(Head(picture, MAIN), files);
  }

  // The paths of the core files and of every variant and regression written so far.
  function WorkPaths(c: Contents, slots: seq<Slot>): set<string> {
    if slots == [] then PathsOf(c.core)
    else
      var n := |slots| - 1;
      WorkPaths(c, slots[..n]) + if slots[n].Noise? then {} else PathsOf(FilesOf(c, slots[n]))
  }

  lemma WorkGrows(c: Contents, before: seq<Slot>, slot: Slot)
    ensures WorkPaths(c, before + [slot])
            == WorkPaths(c, before) + if slot.Noise? then {} else PathsOf(FilesOf(c, slot))
  {
    assert (before + [slot])[..|before|] == before;
  }

  lemma {:induction false} WorkIsClear(c: Contents, slots: seq<Slot>)
    requires ValidContents(c)
    ensures Clear(c, WorkPaths(c, slots))
  {
    if slots != [] {
      WorkIsClear(c, slots[..|slots| - 1]);
    }
  }

  // The supplied files, the noise files so far, and the freeze record until the first maintenance commit.
  function HeadPaths(c: Contents, slots: seq<Slot>): set<string> {
    WorkPaths(c, slots) + NoisePaths(c.path, NoiseFiles(slots)) + if NoiseCommits(slots) == 0 then {FREEZE} else {}
  }

  ghost predicate HoldsPaths(c: Contents, stamps: Stamps, slots: seq<Slot>) {
    Head(Painted(CallsOf(c, stamps, slots)), MAIN).Keys == HeadPaths(c, slots)
  }

  lemma NoisePathsGrow(c: Contents, from: nat, count: nat, files: Files)
    requires |files| == count && forall k :: 0 <= k < count ==> files[k].0 == c.path(from + k)
    ensures NoisePaths(c.path, from + count) == NoisePaths(c.path, from) + PathsOf(files)
  {
    forall p ensures p in NoisePaths(c.path, from + count) <==> p in NoisePaths(c.path, from) + PathsOf(files) {
      NoisePathsAre(c.path, from + count, p);
      NoisePathsAre(c.path, from, p);
      if i: nat :| i < from + count && c.path(i) == p {
        assert i >= from ==> files[i - from].0 == p;
      }
      if p in PathsOf(files) {
        var k :| 0 <= k < |files| && files[k].0 == p;
        assert c.path(from + k) == p;
      }
    }
  }

  lemma NoiseKeys(work: set<string>, noise: set<string>, more: set<string>, freeze: string, first: bool)
    requires freeze !in work && freeze !in noise && freeze !in more
    ensures var record := if first then {freeze} else {};
            work + (noise + more) == work + noise + record + more - record
  {
  }

  lemma NoiseSlotAdds(c: Contents, slot: Slot)
    requires Numbered(c.path) && slot.Noise?
    ensures var noise, more := NoisePaths(c.path, slot.from), PathsOf(FilesOf(c, slot));
            && NoisePaths(c.path, slot.from + slot.count) == noise + more
            && FREEZE !in noise && FREEZE !in more
  {
    NoisePathsGrow(c, slot.from, slot.count, FilesOf(c, slot));
    FreezeIsNoNoise(c.path, slot.from + slot.count);
  }

  lemma NoiseSlotPaths(c: Contents, before: seq<Slot>, slot: Slot, plan: Plan)
    requires ValidContents(c) && Numbered(c.path) && InOrder(before, plan) && Follows(before, slot, plan) && slot.Noise?
    ensures HeadPaths(c, before + [slot]) == HeadPaths(c, before) + PathsOf(FilesOf(c, slot)) - Gone(DeletesOf(slot))
  {
    var work, noise, more := WorkPaths(c, before), NoisePaths(c.path, slot.from), PathsOf(FilesOf(c, slot));
    NoiseSlotAdds(c, slot);
    WorkIsClear(c, before);
    NoiseKeys(work, noise, more, FREEZE, slot.commit == 0);
    GoneAre(slot);
    PathsBefore(c, before, slot, plan);
    PathsBehind(c, before, slot, plan);
  }

  lemma PathsBefore(c: Contents, before: seq<Slot>, slot: Slot, plan: Plan)
    requires InOrder(before, plan) && Follows(before, slot, plan) && slot.Noise?
    ensures HeadPaths(c, before)
            == WorkPaths(c, before) + NoisePaths(c.path, slot.from) + if slot.commit == 0 then {FREEZE} else {}
  {
  }

  lemma PathsBehind(c: Contents, before: seq<Slot>, slot: Slot, plan: Plan)
    requires InOrder(before, plan) && Follows(before, slot, plan) && slot.Noise?
    ensures HeadPaths(c, before + [slot]) == WorkPaths(c, before) + NoisePaths(c.path, slot.from + slot.count)
  {
    SlotAppended(before, slot, plan);
    WorkGrows(c, before, slot);
  }

  lemma GoneAre(slot: Slot)
    ensures Gone(DeletesOf(slot)) == if slot.Noise? && slot.commit == 0 then {FREEZE} else {}
  {
  }

  lemma SlotPaths(c: Contents, before: seq<Slot>, slot: Slot, plan: Plan)
    requires ValidContents(c) && Numbered(c.path) && InOrder(before, plan) && Follows(before, slot, plan)
    ensures HeadPaths(c, before + [slot]) == HeadPaths(c, before) + PathsOf(FilesOf(c, slot)) - Gone(DeletesOf(slot))
  {
    if slot.Noise? {
      NoiseSlotPaths(c, before, slot, plan);
    } else {
      SlotAppended(before, slot, plan);
      GoneAre(slot);
      WorkGrows(c, before, slot);
    }
  }

  lemma FreezeIsNoNoise(path: nat -> string, n: nat)
    requires Numbered(path)
    ensures FREEZE !in NoisePaths(path, n)
  {
    NoisePathsAre(path, n, FREEZE);
  }

  lemma CallsGrow(c: Contents, stamps: Stamps, before: seq<Slot>, slot: Slot)
    ensures CallsOf(c, stamps, before + [slot]) == CallsOf(c, stamps, before) + [SlotCall(c, stamps, |before|, slot)]
  {
    assert (before + [slot])[..|before|] == before;
  }

  lemma PaintedSlot(picture: Picture, c: Contents, stamps: Stamps, number: nat, slot: Slot)
    ensures Head(Paint(picture, SlotCall(c, stamps, number, slot)), MAIN).Keys
            == Head(picture, MAIN).Keys + PathsOf(FilesOf(c, slot)) - Gone(DeletesOf(slot))
  {
    PaintedPaths(picture, stamps(number + 2), FilesOf(c, slot), DeletesOf(slot));
  }

  lemma HeadGrows(c: Contents, stamps: Stamps, before: seq<Slot>, slot: Slot, plan: Plan)
    requires ValidContents(c) && Numbered(c.path) && InOrder(before, plan) && Follows(before, slot, plan)
    requires HoldsPaths(c, stamps, before)
    ensures HoldsPaths(c, stamps, before + [slot])
  {
    SlotPaths(c, before, slot, plan);
    CallsGrow(c, stamps, before, slot);
    PaintedNext(CallsOf(c, stamps, before), SlotCall(c, stamps, |before|, slot));
    PaintedSlot(Painted(CallsOf(c, stamps, before)), c, stamps, |before|, slot);
  }

  // The tip of the main branch holds these paths and no others.
  lemma {:induction false} HeadHolds(c: Contents, stamps: Stamps, slots: seq<Slot>, plan: Plan)
    requires ValidContents(c) && Numbered(c.path) && InOrder(slots, plan)
    ensures HoldsPaths(c, stamps, slots)
  {
    if slots == [] {
      FirstPaths(c, stamps);
    } else {
      LastSlot(slots, plan);
      var before := slots[..|slots| - 1];
      HeadHolds(c, stamps, before, plan);
      HeadGrows(c, stamps, before, slots[|before|], plan);
    }
  }

  lemma LastSlot(slots: seq<Slot>, plan: Plan)
    requires slots != [] && InOrder(slots, plan)
    ensures var before := slots[..|slots| - 1];
            && InOrder(before, plan) && Follows(before, slots[|before|], plan) && before + [slots[|before|]] == slots
  {
  }

  lemma FirstPaths(c: Contents, stamps: Stamps)
    ensures HoldsPaths(c, stamps, [])
  {
    var first, second := OnMain(stamps(0), c.core, []), OnMain(stamps(1), [(FREEZE, c.freeze)], []);
    PaintedNext([], first);
    PaintedNext([first], second);
    PaintedPaths(BLANK, stamps(0), c.core, []);
    PaintedPaths(Painted([first]), stamps(1), [(FREEZE, c.freeze)], []);
    assert [] + [first] == [first] && [first] + [second] == CallsOf(c, stamps, []);
    assert PathsOf([(FREEZE, c.freeze)]) == {FREEZE};
  }

  lemma HeadCount(c: Contents, slots: seq<Slot>)
    requires ValidContents(c) && Numbered(c.path)
    ensures |HeadPaths(c, slots)| == FilesLeft(c, slots)
  {
    var work, noise := WorkPaths(c, slots), NoisePaths(c.path, NoiseFiles(slots));
    NoisePathsCount(c.path, NoiseFiles(slots));
    FreezeIsNoNoise(c.path, NoiseFiles(slots));
    WorkIsClear(c, slots);
    forall p | p in noise ensures p !in work {
      NoisePathsAre(c.path, NoiseFiles(slots), p);
    }
    assert work !! noise && work + noise !! {FREEZE};
  }

  // The files a schedule leaves at HEAD.
  function FilesLeft(c: Contents, slots: seq<Slot>): nat {
    |WorkPaths(c, slots)| + NoiseFiles(slots) + if NoiseCommits(slots) == 0 then 1 else 0
  }

  /* ---------- What a whole schedule supplies ---------- */

  // The first n variants of a plan.
  function VariantPaths(c: Contents, n: nat, early: nat): set<string> {
    if n == 0 then {} else VariantPaths(c, n - 1, early) + PathsOf(c.variant(StatesTruth(n - 1, early), n - 1))
  }

  lemma {:induction false} WorkIsSupplied(c: Contents, slots: seq<Slot>, plan: Plan)
    requires InOrder(slots, plan)
    ensures WorkPaths(c, slots) == PathsOf(c.core) + VariantPaths(c, Variants(slots), plan.early) +
                                   if Regressions(slots) > 0 then PathsOf(c.final) else {}
  {
    if slots != [] {
      LastSlot(slots, plan);
      var before := slots[..|slots| - 1];
      WorkIsSupplied(c, before, plan);
      WorkGrows(c, before, slots[|before|]);
      SlotAppended(before, slots[|before|], plan);
    }
  }

  /* ---------- The branches that share the tip ---------- */

  // The last commit is the tip of the main branch.
  lemma TipIsLast(c: Contents, stamps: Stamps, slots: seq<Slot>)
    ensures var picture := Painted(CallsOf(c, stamps, slots));
            && MAIN in picture.heads && picture.last == Some(Head(picture, MAIN))
  {
    var calls := CallsOf(c, stamps, slots);
    var n := |calls| - 1;
    assert calls[n].CommitCall? && calls[n].branch == MAIN;
    PaintedNext(calls[..n], calls[n]);
    assert calls[..n] + [calls[n]] == calls;
  }

  lemma BranchesShareTheTip(calls: seq<Call>, a: string, b: string)
    requires MAIN in Painted(calls).heads && Painted(calls).last == Some(Head(Painted(calls), MAIN))
    ensures var tip, after := Head(Painted(calls), MAIN), Painted(calls + [ResetCall(a)] + [ResetCall(b)]);
            Head(after, MAIN) == Head(after, a) == Head(after, b) == tip
  {
    PaintedNext(calls, ResetCall(a));
    PaintedNext(calls + [ResetCall(a)], ResetCall(b));
  }

  lemma SlotIsOneLine(c: Contents, slot: Slot)
    requires OneLineContents(c) && c.path == NoisePath
    ensures OneLineFiles(FilesOf(c, slot))
  {
    var files := FilesOf(c, slot);
    forall k | 0 <= k < |files| ensures OneLine(files[k].0) {
      if slot.Noise? {
        NoisePathIsOneLine(slot.from + k);
      }
    }
  }

  lemma NamesAreOneLine()
    ensures OneLine(FREEZE) && OneLine(MAIN) && OneLine(RELEASE) && OneLine(PROPOSAL)
  {
    BranchNames();
  }

  lemma CommitIsOneLine(stamp: (string, nat), files: Files, deletes: seq<string>)
    requires OneLineFiles(files) && forall k :: 0 <= k < |deletes| ==> OneLine(deletes[k])
    ensures OneLinePaths(OnMain(stamp, files, deletes))
  {
    NamesAreOneLine();
  }

  lemma {:induction false} CallsAreOneLine(c: Contents, stamps: Stamps, slots: seq<Slot>)
    requires OneLineContents(c) && c.path == NoisePath
    ensures OneLineCalls(CallsOf(c, stamps, slots))
  {
    NamesAreOneLine();
    if slots == [] {
      CommitIsOneLine(stamps(0), c.core, []);
      CommitIsOneLine(stamps(1), [(FREEZE, c.freeze)], []);
    } else {
      var n := |slots| - 1;
      CallsAreOneLine(c, stamps, slots[..n]);
      SlotIsOneLine(c, slots[n]);
      CommitIsOneLine(stamps(n + 2), FilesOf(c, slots[n]), DeletesOf(slots[n]));
      assert OneLinePaths(SlotCall(c, stamps, n, slots[n]));
    }
  }

  /* ---------- The texts at HEAD ---------- */

  // The files give this text to the path; of several files with one path the last counts.
  ghost predicate Gives(files: Files, p: string, text: string) {
    exists j :: 0 <= j < |files| && files[j] == (p, text) && forall i :: j < i < |files| ==> files[i].0 != p
  }

  lemma {:induction false} WrittenTexts(tree: Tree, files: Files, p: string)
    ensures p !in PathsOf(files) ==>
              (p in WithFiles(tree, files) <==> p in tree) && (p in tree ==> WithFiles(tree, files)[p] == tree[p])
    ensures forall text :: Gives(files, p, text) ==>
              p in WithFiles(tree, files) && WithFiles(tree, files)[p] == Encode(text)
  {
    if files != [] {
      var n := |files| - 1;
      WrittenTexts(tree, files[..n], p);
      assert PathsOf(files) == PathsOf(files[..n]) + {files[n].0};
      forall text | Gives(files, p, text)
        ensures p in WithFiles(tree, files) && WithFiles(tree, files)[p] == Encode(text)
      {
        assert files[n].0 != p ==> Gives(files[..n], p, text);
      }
    }
  }

  // The tip of the main branch has this text under the path.
  ghost predicate Shows(c: Contents, stamps: Stamps, slots: seq<Slot>, p: string, text: string) {
    var head := Head(Painted(CallsOf(c, stamps, slots)), MAIN);
    p in head && head[p] == Encode(text)
  }

  lemma ShowsNext(c: Contents, stamps: Stamps, before: seq<Slot>, slot: Slot, p: string, text: string)
    requires p !in DeletesOf(slot)
    requires Gives(FilesOf(c, slot), p, text) ||
             (p !in PathsOf(FilesOf(c, slot)) && Shows(c, stamps, before, p, text))
    ensures Shows(c, stamps, before + [slot], p, text)
  {
    CallsGrow(c, stamps, before, slot);
    PaintedNext(CallsOf(c, stamps, before), SlotCall(c, stamps, |before|, slot));
    WrittenTexts(Head(Painted(CallsOf(c, stamps, before)), MAIN), FilesOf(c, slot), p);
  }

  lemma ShownFirst(c: Contents, stamps: Stamps, p: string, text: string)
    requires ValidContents(c)
    requires Gives(c.core, p, text) || (p == FREEZE && text == c.freeze)
    ensures Shows(c, stamps, [], p, text)
  {
    var first, second := OnMain(stamps(0), c.core, []), OnMain(stamps(1), [(FREEZE, c.freeze)], []);
    PaintedNext([], first);
    PaintedNext([first], second);
    assert [] + [first] == [first] && [first] + [second] == CallsOf(c, stamps, []);
    WrittenTexts(Head(BLANK, MAIN), c.core, p);
    assert p == FREEZE ==> Gives([(FREEZE, c.freeze)], p, text) by {
      assert [(FREEZE, c.freeze)][0] == (FREEZE, c.freeze);
    }
    WrittenTexts(Head(Painted([first]), MAIN), [(FREEZE, c.freeze)], p);
  }

  // The slot at k, or the snapshot for -1, gives this text to the path.
  ghost predicate Supplies(c: Contents, slots: seq<Slot>, k: int, p: string, text: string) {
    if k == -1 then Gives(c.core, p, text)
    else
      0 <= k < |slots| &&
      match slots[k]
      case Noise(_, _, _) => false
      case Variant(correct, index) => Gives(c.variant(correct, index), p, text)
      case Regression => Gives(c.final, p, text)
  }

  // No slot behind k has a file of its own with the path.
  ghost predicate Untouched(c: Contents, slots: seq<Slot>, k: int, p: string) {
    forall i :: 0 <= i < |slots| && k < i ==>
      match slots[i]
      case Noise(_, _, _) => true
      case Variant(correct, index) => p !in PathsOf(c.variant(correct, index))
      case Regression => p !in PathsOf(c.final)
  }

  lemma NoNoiseInTheWay(c: Contents, slot: Slot, p: string, paths: set<string>)
    requires Clear(c, paths) && p in paths && slot.Noise?
    ensures p !in PathsOf(FilesOf(c, slot)) && p !in DeletesOf(slot)
  {
  }

  lemma SuppliedIsClear(c: Contents, slots: seq<Slot>, k: int, p: string, text: string)
    requires ValidContents(c) && Supplies(c, slots, k, p, text)
    ensures Clear(c, {p})
  {
  }

  // A supplied file stands at HEAD with the text of the last commit that has it.
  lemma {:induction false} SuppliedTexts(c: Contents, stamps: Stamps, slots: seq<Slot>, k: int, p: string, text: string)
    requires ValidContents(c) && Supplies(c, slots, k, p, text) && Untouched(c, slots, k, p)
    ensures Shows(c, stamps, slots, p, text)
  {
    SuppliedIsClear(c, slots, k, p, text);
    if slots == [] {
      ShownFirst(c, stamps, p, text);
    } else {
      var n := |slots| - 1;
      assert slots[..n] + [slots[n]] == slots;
      if slots[n].Noise? {
        NoNoiseInTheWay(c, slots[n], p, {p});
      }
      if k < n {
        SuppliedTexts(c, stamps, slots[..n], k, p, text);
      }
      ShowsNext(c, stamps, slots[..n], slots[n], p, text);
    }
  }

  lemma NoiseGives(c: Contents, slot: Slot, i: nat)
    requires slot.Noise? && Numbered(c.path)
    ensures if slot.from <= i < slot.from + slot.count then Gives(FilesOf(c, slot), c.path(i), c.noise(i))
            else c.path(i) !in PathsOf(FilesOf(c, slot))
    ensures c.path(i) !in DeletesOf(slot)
  {
    if slot.from <= i < slot.from + slot.count {
      assert FilesOf(c, slot)[i - slot.from] == (c.path(i), c.noise(i));
    }
  }

  // Every noise file written so far stands at HEAD with its own text.
  lemma {:induction false} NoiseTexts(c: Contents, stamps: Stamps, slots: seq<Slot>, plan: Plan, i: nat)
    requires ValidContents(c) && Numbered(c.path) && InOrder(slots, plan) && i < NoiseFiles(slots)
    ensures Shows(c, stamps, slots, c.path(i), c.noise(i))
  {
    LastSlot(slots, plan);
    var before, slot := slots[..|slots| - 1], slots[|slots| - 1];
    SlotAppended(before, slot, plan);
    if slot.Noise? {
      NoiseGives(c, slot, i);
    }
    if i < NoiseFiles(before) {
      NoiseTexts(c, stamps, before, plan, i);
    }
    ShowsNext(c, stamps, before, slot, c.path(i), c.noise(i));
  }

  // The freeze record stands there until the first maintenance commit.
  lemma {:induction false} FreezeText(c: Contents, stamps: Stamps, slots: seq<Slot>)
    requires ValidContents(c) && NoiseCommits(slots) == 0
    ensures Shows(c, stamps, slots, FREEZE, c.freeze)
  {
    if slots == [] {
      ShownFirst(c, stamps, FREEZE, c.freeze);
    } else {
      var n := |slots| - 1;
      assert slots[..n] + [slots[n]] == slots;
      FreezeText(c, stamps, slots[..n]);
      ShowsNext(c, stamps, slots[..n], slots[n], FREEZE, c.freeze);
    }
  }

  // Every file at HEAD has the text it should have.
  ghost predicate HeadTexts(c: Contents, stamps: Stamps, slots: seq<Slot>) {
    && (forall k, p, text :: Supplies(c, slots, k, p, text) && Untouched(c, slots, k, p) ==>
          Shows(c, stamps, slots, p, text))
    && (forall i: nat :: i < NoiseFiles(slots) ==> Shows(c, stamps, slots, c.path(i), c.noise(i)))
    && (NoiseCommits(slots) == 0 ==> Shows(c, stamps, slots, FREEZE, c.freeze))
  }

  lemma HeadTells(c: Contents, stamps: Stamps, slots: seq<Slot>, plan: Plan)
    requires ValidContents(c) && Numbered(c.path) && InOrder(slots, plan)
    ensures HeadTexts(c, stamps, slots)
  {
    forall k, p, text | Supplies(c, slots, k, p, text) && Untouched(c, slots, k, p)
      ensures Shows(c, stamps, slots, p, text)
    {
      SuppliedTexts(c, stamps, slots, k, p, text);
    }
    forall i: nat | i < NoiseFiles(slots) ensures Shows(c, stamps, slots, c.path(i), c.noise(i)) {
      NoiseTexts(c, stamps, slots, plan, i);
    }
    if NoiseCommits(slots) == 0 {
      FreezeText(c, stamps, slots);
    }
  }

  // Commit k of the import, for k from 2 on, is for slot k - 2.
  ghost predicate IsCommitFor(c: Contents, call: Call, slot: Slot) {
    call.CommitCall? && call.branch == MAIN
    && call.deletes == (if slot.Noise? && slot.commit == 0 then [FREEZE] else [])
    && match slot
       case Noise(_, from, count) =>
         |call.files| == count && forall j :: 0 <= j < count ==> call.files[j] == (c.path(from + j), c.noise(from + j))
       case Variant(correct, index) => call.files == c.variant(correct, index)
       case Regression => call.files == c.final
  }

  ghost predicate Stamped(call: Call, stamp: (string, nat)) {
    call.CommitCall? && call.message == stamp.0 && call.timestamp == stamp.1
  }

  lemma {:induction false} CallsBegin(c: Contents, stamps: Stamps, slots: seq<Slot>)
    ensures var calls := CallsOf(c, stamps, slots);
            && |calls| == |slots| + 2
            && calls[0] == CommitCall(stamps(0).0, c.core, stamps(0).1, MAIN, [])
            && calls[1] == CommitCall(stamps(1).0, [(FREEZE, c.freeze)], stamps(1).1, MAIN, [])
  {
    if slots != [] {
      CallsBegin(c, stamps, slots[..|slots| - 1]);
    }
  }

  lemma {:induction false} CallForSlot(c: Contents, stamps: Stamps, slots: seq<Slot>, k: nat)
    requires k < |slots|
    ensures |CallsOf(c, stamps, slots)| == |slots| + 2
    ensures CallsOf(c, stamps, slots)[k + 2] == SlotCall(c, stamps, k, slots[k])
  {
    var n := |slots| - 1;
    CallsBegin(c, stamps, slots[..n]);
    if k < n {
      CallForSlot(c, stamps, slots[..n], k);
    }
  }

  lemma SlotCallIs(c: Contents, stamps: Stamps, number: nat, slot: Slot)
    ensures var call := SlotCall(c, stamps, number, slot);
            Stamped(call, stamps(number + 2)) && IsCommitFor(c, call, slot)
  {
  }

  // One commit for the snapshot, one for the freeze record and one for each slot, each with its own message and time.
  lemma CommitsAreStamped(c: Contents, stamps: Stamps, slots: seq<Slot>, k: nat)
    requires k < |slots| + 2
    ensures var calls := CallsOf(c, stamps, slots);
            && |calls| == |slots| + 2 && Stamped(calls[k], stamps(k))
            && if k == 0 then calls[k].files == c.core && calls[k].branch == MAIN && calls[k].deletes == []
               else if k == 1 then
                 calls[k].files == [(FREEZE, c.freeze)] && calls[k].branch == MAIN && calls[k].deletes == []
               else IsCommitFor(c, calls[k], slots[k - 2])
  {
    CallsBegin(c, stamps, slots);
    if k >= 2 {
      CallForSlot(c, stamps, slots, k - 2);
      SlotCallIs(c, stamps, k - 2, slots[k - 2]);
    }
  }

  /* ---------- The whole import ---------- */

  // How many files HEAD ends with: the noise brings the core files up to what was asked for, and the freeze record
  // stays when no maintenance commit takes it away.
  function FilesAtHead(c: Contents, order: Order, early: nat): nat {
    |SuppliedPaths(c, order, early)| + NoiseTotal(|c.core|, order.files) +
    if c.final != [] || NoiseFor(c, order) > 0 then 0 else 1
  }

  // The paths of all core files, variants and regression files.
  function SuppliedPaths(c: Contents, order: Order, early: nat): set<string> {
    PathsOf(c.core) + PathsOf(c.final) + VariantPaths(c, VariantsFor(c, order), early)
  }

  function NoiseTotal(core: nat, fileCount: nat): nat {
    if fileCount > core then fileCount - core else 0
  }

  // The branches as git holds them: main and the two named ones at tips with so many files.
  ghost predicate EveryTipHolds(calls: seq<Call>, files: nat) {
    |Head(Painted(calls), MAIN)| == files && |Head(Painted(calls), RELEASE)| == files &&
    |Head(Painted(calls), PROPOSAL)| == files
  }

  lemma MainTipHolds(c: Contents, stamps: Stamps, slots: seq<Slot>, plan: Plan)
    requires ValidContents(c) && c.path == NoisePath && InOrder(slots, plan)
    ensures |Head(Painted(CallsOf(c, stamps, slots)), MAIN)| == FilesLeft(c, slots)
  {
    NoiseIsNumbered(c.path);
    HeadHolds(c, stamps, slots, plan);
    HeadCount(c, slots);
    TreeSize(Head(Painted(CallsOf(c, stamps, slots)), MAIN));
  }

  function Finished(c: Contents, stamps: Stamps, slots: seq<Slot>): seq<Call> {
    CallsOf(c, stamps, slots) + [ResetCall(RELEASE)] + [ResetCall(PROPOSAL)]
  }

  lemma TipsHold(c: Contents, stamps: Stamps, slots: seq<Slot>, plan: Plan)
    requires ValidContents(c) && c.path == NoisePath && InOrder(slots, plan)
    ensures EveryTipHolds(Finished(c, stamps, slots), FilesLeft(c, slots))
  {
    MainTipHolds(c, stamps, slots, plan);
    TipIsLast(c, stamps, slots);
    BranchesShareTheTip(CallsOf(c, stamps, slots), RELEASE, PROPOSAL);
  }

  lemma TreeSize(tree: Tree)
    ensures |tree.Keys| == |tree|
  {
  }

  // The state holds the snapshot, the key commit and these slots.
  ghost predicate HoldsSlots(state: ImportState, c: Contents, stamps: Stamps, slots: seq<Slot>)
    reads state
  {
    state.Valid() && state.calls == CallsOf(c, stamps, slots)
  }

  // The commits of import_repository in its stream.
  method WriteSchedule(w: Words, c: Contents, stamps: Stamps, slots: seq<Slot>) returns (state: ImportState)
    ensures fresh(state) && state.w == w && HoldsSlots(state, c, stamps, slots)
  {
    state := new ImportState(w);
    WriteFirst(state, c, stamps);
    WriteSlots(state, c, stamps, slots);
  }

  method WriteSlots(state: ImportState, c: Contents, stamps: Stamps, slots: seq<Slot>)
    requires HoldsSlots(state, c, stamps, [])
    modifies state
    ensures HoldsSlots(state, c, stamps, slots)
  {
    Slices(slots);
    for i := 0 to |slots|
      invariant HoldsSlots(state, c, stamps, slots[..i])
    {
      WriteSlot(state, c, stamps(i + 2), slots[i], stamps, slots[..i]);
    }
  }

  lemma Slices<T>(s: seq<T>)
    ensures s[..0] == [] && s[..|s|] == s && forall i :: 0 <= i < |s| ==> s[..i + 1] == s[..i] + [s[i]]
  {
  }

  method WriteFirst(state: ImportState, c: Contents, stamps: Stamps)
    requires state.Valid() && state.calls == []
    modifies state
    ensures HoldsSlots(state, c, stamps, [])
  {
    var first := state.Commit(stamps(0).0, c.core, stamps(0).1, MAIN, []);
    var key := state.Commit(stamps(1).0, [(FREEZE, c.freeze)], stamps(1).1, MAIN, []);
  }

  method WriteSlot(state: ImportState, c: Contents, stamp: (string, nat), slot: Slot, ghost stamps: Stamps,
                   ghost before: seq<Slot>)
    requires stamp == stamps(|before| + 2) && HoldsSlots(state, c, stamps, before)
    modifies state
    ensures HoldsSlots(state, c, stamps, before + [slot])
  {
    var mark := state.Commit(stamp.0, FilesOf(c, slot), stamp.1, MAIN, DeletesOf(slot));
    CallsGrow(c, stamps, before, slot);
  }

  // The named branches, both at the last commit.
  method WriteBranches(state: ImportState, ghost c: Contents, ghost stamps: Stamps, ghost slots: seq<Slot>)
    requires HoldsSlots(state, c, stamps, slots)
    modifies state
    ensures state.Valid() && state.calls == Finished(c, stamps, slots)
  {
    var release := state.Reset(RELEASE);
    var proposal := state.Reset(PROPOSAL);
  }

  lemma FinishedReplays(t: Texts, c: Contents, stamps: Stamps, slots: seq<Slot>, plan: Plan, state: ImportState)
    requires Keywords(t) && state.w == Encoded(t) && state.Valid() && state.calls == Finished(c, stamps, slots)
    requires ValidContents(c) && OneLineContents(c) && c.path == NoisePath && InOrder(slots, plan)
    ensures ReadsBack(state.w, state.stream, state.calls) && EveryTipHolds(state.calls, FilesLeft(c, slots))
  {
    TipsHold(c, stamps, slots, plan);
    AllCallsAreOneLine(c, stamps, slots);
    StateReplays(t, state);
  }

  // What the caller asks for: files, commits, and whether a source of variants is at hand.
  datatype Order = Order(files: nat, commits: nat, factory: bool)

  function NoiseFor(c: Contents, order: Order): nat {
    NoiseCommitCount(order.commits, c.final != [], order.factory)
  }

  function VariantsFor(c: Contents, order: Order): nat {
    VariantCount(order.commits, c.final != [], order.factory)
  }

  function EarlyFor(c: Contents, order: Order, variantShare: nat): nat {
    EarlyVariants(VariantsFor(c, order), variantShare)
  }

  // The slots of an import.
  method PlanImport(c: Contents, order: Order, noiseShare: nat, variantShare: nat)
    returns (slots: seq<Slot>, ok: bool, ghost plan: Plan)
    requires noiseShare <= NoiseFor(c, order) && variantShare <= VariantsFor(c, order)
    ensures InOrder(slots, plan)
    ensures ok <==> order.files <= |c.core| || NoiseFor(c, order) > 0
    ensures ok ==> FilesLeft(c, slots) == FilesAtHead(c, order, EarlyFor(c, order, variantShare))
  {
    var noiseTotal, noise, variants := NoiseTotal(|c.core|, order.files), NoiseFor(c, order), VariantsFor(c, order);
    slots, ok := ScheduleImport(noiseTotal, noise, variants, c.final != [], noiseShare, variantShare);
    plan := Plan(noiseTotal, noise, EarlyVariants(variants, variantShare), Max(1, noiseShare));
    WorkIsSupplied(c, slots, plan);
    NothingSupplied(c);
    assert ok ==> WorkPaths(c, slots) == SuppliedPaths(c, order, plan.early);
  }

  lemma NothingSupplied(c: Contents)
    ensures c.final == [] ==> PathsOf(c.final) == {}
  {
  }

  // HEAD holds the files asked for exactly when the core files are not too many, variants and regression only replace
  // core files, and some maintenance commit deletes the freeze record.
  lemma FileCountIsMetIff(c: Contents, order: Order, early: nat)
    requires ValidContents(c) && (order.files <= |c.core| || NoiseFor(c, order) > 0)
    ensures FilesAtHead(c, order, early) == order.files
            <==> |c.core| <= order.files && SuppliedPaths(c, order, early) == PathsOf(c.core) &&
                 (c.final != [] || order.commits > 2)
  {
    PathsCount(c.core);
    LargerSet(PathsOf(c.core), SuppliedPaths(c, order, early));
  }

  lemma LargerSet(a: set<string>, b: set<string>)
    requires a <= b
    ensures |b| >= |a| && (|b| == |a| <==> a == b)
  {
    assert b == a + (b - a);
  }

  // The import fails exactly when there are noise files but no commit for them. Otherwise the stream is read back, and
  // every branch of the repository it makes ends with FilesAtHead files: those asked for exactly when the core files
  // are not too many, later versions replace core files only, and a maintenance commit deletes the freeze record. Each
  // of those files has the text it should have.
  method ImportRepository(t: Texts, c: Contents, stamps: Stamps, order: Order, noiseShare: nat, variantShare: nat)
    returns (state: ImportState, ok: bool, ghost slots: seq<Slot>, ghost plan: Plan)
    requires Keywords(t) && ValidContents(c) && OneLineContents(c) && c.path == NoisePath
    requires noiseShare <= NoiseFor(c, order) && variantShare <= VariantsFor(c, order)
    ensures fresh(state) && state.w == Encoded(t)
    ensures ok <==> order.files <= |c.core| || NoiseFor(c, order) > 0
    ensures ok ==>
              && ReadsBack(state.w, state.stream, state.calls)
              && EveryTipHolds(state.calls, FilesAtHead(c, order, EarlyFor(c, order, variantShare)))
    ensures InOrder(slots, plan) && HeadTexts(c, stamps, slots)
    ensures ok ==> state.calls == Finished(c, stamps, slots)
    ensures ok ==>
              var supplied := SuppliedPaths(c, order, EarlyFor(c, order, variantShare));
              EveryTipHolds(state.calls, order.files)
              <==> |c.core| <= order.files && supplied == PathsOf(c.core) && (c.final != [] || order.commits > 2)
  {
    var planned;
    planned, ok, plan := PlanImport(c, order, noiseShare, variantShare);
    slots := planned;
    NoiseIsNumbered(c.path);
    HeadTells(c, stamps, slots, plan);
    state := WriteSchedule(Encoded(t), c, stamps, planned);
    if ok {
      WriteBranches(state, c, stamps, planned);
      FinishedReplays(t, c, stamps, slots, plan, state);
      FileCountIsMetIff(c, order, EarlyFor(c, order, variantShare));
    }
  }

  lemma AllCallsAreOneLine(c: Contents, stamps: Stamps, slots: seq<Slot>)
    requires OneLineContents(c) && c.path == NoisePath
    ensures OneLineCalls(Finished(c, stamps, slots))
  {
    CallsAreOneLine(c, stamps, slots);
    NamesAreOneLine();
    var calls := Finished(c, stamps, slots);
    forall k | 0 <= k < |calls| ensures OneLinePaths(calls[k]) {
      assert k < |CallsOf(c, stamps, slots)| ==> calls[k] == CallsOf(c, stamps, slots)[k];
    }
  }

  // Two commits and no regression: the freeze record is still there at HEAD.
  lemma FreezeRecordStays(c: Contents, stamps: Stamps)
    requires ValidContents(c) && c.path == NoisePath && c.final == []
    ensures NoiseCommitCount(2, false, false) == 0
    ensures FREEZE in Head(Painted(CallsOf(c, stamps, [])), MAIN) &&
            FilesAtHead(c, Order(|c.core|, 2, false), 0) == |c.core| + 1
  {
    NoiseIsNumbered(c.path);
    HeadHolds(c, stamps, [], Plan(0, 0, 0, 1));
    FileCountIsMetIff(c, Order(|c.core|, 2, false), 0);
    PathsCount(c.core);
    NothingSupplied(c);
    assert SuppliedPaths(c, Order(|c.core|, 2, false), 0) == PathsOf(c.core);
  }
}
