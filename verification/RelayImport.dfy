// The relay import as git sees it, from the random draws to the repository with its two partial branches.
module RelayImport {
  import opened Wrappers
  import opened FastImport
  import opened FastImportWriter
  import opened FastImportReplay
  import opened RelayCells
  import opened RelayBundle
  import opened RelayRepository
  import opened RelayWorkspace
  import Distribution
  import RelayHistory

  // The message and the time of each commit.
  type Stamps = nat -> (string, nat)

  /* ---------- Paths on one line ---------- */

  predicate AllOneLine(paths: set<string>) {
    forall p :: p in paths ==> OneLine(p)
  }

  ghost predicate RecordsOneLine(records: seq<(string, string)>) {
    forall k :: 0 <= k < |records| ==> OneLine(records[k].0)
  }

  ghost predicate CommitOneLine(commit: RelayHistory.Commit) {
    forall p :: p in RelayHistory.Written(commit) ==> OneLine(p)
  }

  ghost predicate CommitsOneLine(commits: seq<RelayHistory.Commit>) {
    forall k :: 0 <= k < |commits| ==> CommitOneLine(commits[k])
  }

  lemma BothOneLine(a: seq<(string, string)>, b: seq<(string, string)>)
    requires RecordsOneLine(a + b)
    ensures RecordsOneLine(a) && RecordsOneLine(b)
  {
    forall k | 0 <= k < |a| ensures OneLine(a[k].0) {
      assert (a + b)[k] == a[k];
    }
    forall k | 0 <= k < |b| ensures OneLine(b[k].0) {
      assert (a + b)[|a| + k] == b[k];
    }
  }

  lemma {:induction false} BatchesOneLine(batches: seq<seq<(string, string)>>)
    requires RecordsOneLine(Distribution.Flatten(batches))
    ensures forall k :: 0 <= k < |batches| ==> RecordsOneLine(batches[k])
  {
    if batches != [] {
      var n := |batches| - 1;
      BothOneLine(Distribution.Flatten(batches[..n]), batches[n]);
      BatchesOneLine(batches[..n]);
      forall k | 0 <= k < |batches| ensures RecordsOneLine(batches[k]) {
        assert k < n ==> batches[..n][k] == batches[k];
      }
    }
  }

  // Records and files on one line make commits on one line.
  lemma HistoryOneLine(commits: seq<RelayHistory.Commit>, paths: set<string>, records: seq<(string, string)>)
    requires RelayHistory.FilesWithin(commits, paths) && AllOneLine(paths) && RecordsOneLine(records)
    requires Distribution.Flatten(RelayHistory.RecordBatches(commits)) == records
    ensures CommitsOneLine(commits)
  {
    var batches := RelayHistory.RecordBatches(commits);
    BatchesOneLine(batches);
    forall k | 0 <= k < |commits| ensures CommitOneLine(commits[k]) {
      assert RecordsOneLine(batches[k]) && batches[k] == commits[k].records;
    }
  }

  /* ---------- Writing the commits ---------- */

  // The files of a commit, in some order.
  method ListFiles(m: map<string, string>) returns (files: seq<(string, string)>)
    ensures Lists(files, m)
  {
    files := [];
    var left := m.Keys;
    while left != {}
      invariant left <= m.Keys && forall k :: 0 <= k < |files| ==> files[k].0 in m && files[k].1 == m[files[k].0]
      invariant forall p :: p in m && p !in left ==> InFiles(files, p)
      decreases |left|
    {
      var p :| p in left;
      OneMoreListed(files, p, m[p]);
      files := files + [(p, m[p])];
      left := left - {p};
    }
  }

  lemma OneMoreListed(files: seq<(string, string)>, p: string, content: string)
    ensures InFiles(files + [(p, content)], p)
    ensures forall q :: InFiles(files, q) ==> InFiles(files + [(p, content)], q)
  {
    var more := files + [(p, content)];
    assert more[|files|].0 == p;
    forall q | InFiles(files, q) ensures InFiles(more, q) {
      var k :| 0 <= k < |files| && files[k].0 == q;
      assert more[k].0 == q;
    }
  }

  // The stream holds these commits of the history on the main branch.
  ghost predicate Holds(state: ImportState, commits: seq<RelayHistory.Commit>, main: string)
    reads state
  {
    state.Valid() && WritesAll(state.calls, commits, main) && OneLineCalls(state.calls) &&
    |At(state.calls).marks| == |commits|
  }

  method WriteCommit(state: ImportState, commit: RelayHistory.Commit, stamp: (string, nat), main: string,
                     ghost before: seq<RelayHistory.Commit>) returns (mark: nat)
    requires Holds(state, before, main) && CommitOneLine(commit) && OneLine(main)
    modifies state
    ensures Holds(state, before + [commit], main) && At(state.calls).marks == At(old(state.calls)).marks + [mark]
  {
    var files := ListFiles(RelayHistory.Written(commit));
    ghost var calls, call := state.calls, CommitCall(stamp.0, files, stamp.1, main, []);
    mark := state.Commit(stamp.0, files, stamp.1, main, []);
    OneMoreWritten(calls, before, call, commit, main);
  }

  lemma OneMoreWritten(calls: seq<Call>, before: seq<RelayHistory.Commit>, call: Call, commit: RelayHistory.Commit,
                       main: string)
    requires WritesAll(calls, before, main) && OneLineCalls(calls) && Writes(call, commit, main)
    requires CommitOneLine(commit) && OneLine(main)
    ensures WritesAll(calls + [call], before + [commit], main) && OneLineCalls(calls + [call])
  {
    assert OneLinePaths(call);
  }

  // The marks of the wave commits among the first k.
  ghost predicate MarksWaves(waveMarks: seq<nat>, waves: seq<nat>, marks: seq<nat>, k: nat) {
    |waveMarks| <= |waves| && (forall w :: 0 <= w < |waves| ==> (w < |waveMarks| <==> waves[w] < k)) &&
    forall w :: 0 <= w < |waveMarks| ==> waves[w] < |marks| && waveMarks[w] == marks[waves[w]]
  }

  lemma NextMarksWaves(waveMarks: seq<nat>, waves: seq<nat>, marks: seq<nat>, k: nat, mark: nat)
    requires MarksWaves(waveMarks, waves, marks, k) && |marks| == k && RelayHistory.Increasing(waves)
    ensures MarksWaves(if k in waves then waveMarks + [mark] else waveMarks, waves, marks + [mark], k + 1)
  {
    if k in waves {
      var w :| 0 <= w < |waves| && waves[w] == k;
      var m := |waveMarks|;
      assert m <= w && waves[m] >= k;
    }
  }

  // The loop over the commits, which remembers the marks of the waves.
  method WriteCommits(state: ImportState, commits: seq<RelayHistory.Commit>, stamps: Stamps, main: string,
                      waves: seq<nat>) returns (waveMarks: seq<nat>)
    requires Holds(state, [], main) && CommitsOneLine(commits) && OneLine(main) && RelayHistory.Increasing(waves)
    modifies state
    ensures Holds(state, commits, main) && MarksWaves(waveMarks, waves, At(state.calls).marks, |commits|)
  {
    waveMarks := [];
    Prefixes(commits);
    for k := 0 to |commits|
      invariant Holds(state, commits[..k], main) && MarksWaves(waveMarks, waves, At(state.calls).marks, k)
    {
      ghost var marks := At(state.calls).marks;
      var mark := WriteCommit(state, commits[k], stamps(k), main, commits[..k]);
      NextMarksWaves(waveMarks, waves, marks, k, mark);
      if k in waves {
        waveMarks := waveMarks + [mark];
      }
    }
  }

  lemma Prefixes<T>(s: seq<T>)
    ensures s[..0] == [] && s[..|s|] == s && forall k :: 0 <= k < |s| ==> s[..k + 1] == s[..k] + [s[k]]
  {
  }

  /* ---------- The partial exports ---------- */

  // The history, and behind it branches at these commits.
  ghost predicate Exports(state: ImportState, commits: seq<RelayHistory.Commit>, main: string,
                          branches: map<string, nat>)
    reads state
  {
    state.Valid() && OneLineCalls(state.calls) && WritesThenResets(state.calls, commits, main) &&
    PointAt(state.calls, branches)
  }

  method ExportBranch(state: ImportState, branch: string, mark: nat, ghost j: nat,
                      ghost commits: seq<RelayHistory.Commit>, ghost main: string, ghost branches: map<string, nat>)
    requires Exports(state, commits, main, branches) && OneLine(branch) && branch !in branches
    requires j < |commits| && j < |At(state.calls).marks| && At(state.calls).marks[j] == mark
    modifies state
    ensures Exports(state, commits, main, branches[branch := j])
    ensures At(state.calls).marks == At(old(state.calls)).marks
  {
    OneMoreReset(state.calls, commits, main, branch, j, branches);
    ResetIsOneLine(state.calls, branch, j);
    state.ResetTo(branch, mark, j);
  }

  lemma ResetIsOneLine(calls: seq<Call>, branch: string, j: nat)
    requires OneLineCalls(calls) && OneLine(branch)
    ensures OneLineCalls(calls + [ResetToCall(branch, j)])
  {
  }

  // Where the branches of the relay repository point: main at HEAD, the two partial exports at the second and at the
  // second to last wave.
  function BranchCommits(main: string, release: string, proposal: string, count: nat, waves: seq<nat>): map<string, nat>
    requires count > 0 && |waves| == 7
  {
    map[main := count - 1][release := waves[1]][proposal := waves[5]]
  }

  predicate GoodNames(main: string, release: string, proposal: string) {
    OneLine(main) && OneLine(release) && OneLine(proposal) && main != release && main != proposal && release != proposal
  }

  // The words of git and the names of the source's branches are of this kind.
  lemma GitFits()
    ensures Keywords(GIT_TEXTS) && GoodNames(MAIN, RELEASE, PROPOSAL)
  {
    GitTextsAreKeywords();
    BranchNames();
  }

  // The commits and then the two branches, at the marks remembered for the waves.
  method WriteRelay(state: ImportState, commits: seq<RelayHistory.Commit>, stamps: Stamps, waves: seq<nat>,
                    main: string, release: string, proposal: string)
    requires Holds(state, [], main) && CommitsOneLine(commits) && commits != []
    requires GoodNames(main, release, proposal)
    requires |waves| == 7 && RelayHistory.Increasing(waves) && waves[6] < |commits|
    modifies state
    ensures Exports(state, commits, main, BranchCommits(main, release, proposal, |commits|, waves))
  {
    var waveMarks := WriteCommits(state, commits, stamps, main, waves);
    AllWavesMarked(waveMarks, waves, At(state.calls).marks);
    HistoryExports(state, commits, main);
    ExportBranches(state, waveMarks, waves, commits, main, release, proposal);
  }

  method ExportBranches(state: ImportState, waveMarks: seq<nat>, ghost waves: seq<nat>,
                        ghost commits: seq<RelayHistory.Commit>, main: string, release: string, proposal: string)
    requires GoodNames(main, release, proposal) && |waves| == 7 && |commits| > 0
    requires Exports(state, commits, main, map[main := |commits| - 1]) && |At(state.calls).marks| == |commits|
    requires EachMarked(waveMarks, waves, At(state.calls).marks)
    modifies state
    ensures Exports(state, commits, main, BranchCommits(main, release, proposal, |commits|, waves))
  {
    ghost var branches := map[main := |commits| - 1];
    ExportBranch(state, release, waveMarks[1], waves[1], commits, main, branches);
    ExportBranch(state, proposal, waveMarks[|waveMarks| - 2], waves[5], commits, main, branches[release := waves[1]]);
  }

  // Every wave has its mark.
  ghost predicate EachMarked(waveMarks: seq<nat>, waves: seq<nat>, marks: seq<nat>) {
    |waveMarks| == |waves| == 7 && forall w :: 0 <= w < 7 ==> waves[w] < |marks| && waveMarks[w] == marks[waves[w]]
  }

  lemma HistoryExports(state: ImportState, commits: seq<RelayHistory.Commit>, main: string)
    requires Holds(state, commits, main) && commits != []
    ensures Exports(state, commits, main, map[main := |commits| - 1])
  {
    OnlyWrites(state.calls, commits, main);
    MainIsLast(state.calls, commits, main);
  }

  lemma AllWavesMarked(waveMarks: seq<nat>, waves: seq<nat>, marks: seq<nat>)
    requires |waves| == 7 && RelayHistory.Increasing(waves) && waves[6] < |marks|
    requires MarksWaves(waveMarks, waves, marks, |marks|)
    ensures EachMarked(waveMarks, waves, marks)
  {
  }

  /* ---------- From the draws to the repository ---------- */

  // What the random draws and the surroundings of one import are.
  datatype Setting = Setting(draws: Namespace -> PlanDraws, paths: seq<string>, core: map<string, string>,
                             records: seq<(string, string)>, fileCount: nat, commitCount: nat)

  ghost predicate ValidSetting(s: Setting) {
    (forall name :: ValidDraws(name, s.draws(name)) && QuoteFreeDraws(s.draws(name))) &&
    |s.paths| == TOTAL && Different(s.paths) && RelayHistory.RecordsElsewhere(s.records, set p | p in s.paths) &&
    AllOneLine(s.core.Keys) && AllOneLine(set p | p in s.paths) && RecordsOneLine(s.records)
  }

  // HEAD ships the final cells; the cells at the second and the second to last wave are neither those nor the repaired
  // ones.
  ghost predicate PartialExports(c: RelayHistory.Cells, waves: seq<nat>, count: nat)
    requires RelayHistory.ValidCells(c) && |waves| == 7 && count > 0
  {
    RelayHistory.CellsAt(c, waves, count - 1) == c.final &&
    RelayHistory.CellsAt(c, waves, waves[1]) != c.final && RelayHistory.CellsAt(c, waves, waves[1]) != c.correct &&
    RelayHistory.CellsAt(c, waves, waves[5]) != c.final && RelayHistory.CellsAt(c, waves, waves[5]) != c.correct
  }

  // Everything promised about the repository: the stream is read back and replays with the cells of the waves so far at
  // every commit, main at HEAD, and two branches at partial exports.
  ghost predicate RelayStands(n: RelayHistory.Notation, c: RelayHistory.Cells, waves: seq<nat>, count: nat,
                              state: ImportState, main: string, release: string, proposal: string)
    requires RelayHistory.ValidCells(c) && |waves| == 7 && count > 0
    reads state
  {
    ReplaysAs(n, c, waves, count, BranchCommits(main, release, proposal, count, waves), state.w, state.stream,
              state.calls) &&
    PartialExports(c, waves, count)
  }

  lemma HeadIsFinal(c: RelayHistory.Cells, waves: seq<nat>, count: nat)
    requires RelayHistory.FourteenPaths(c) && RelayHistory.ValidCells(c)
    requires |waves| == 7 && RelayHistory.Increasing(waves) && waves[6] < count
    ensures RelayHistory.CellsAt(c, waves, count - 1) == c.final
  {
    forall p | p in c.correct ensures RelayHistory.CellAt(c, waves, count - 1, p) == c.final[p] {
      RelayHistory.AfterWave(c, waves, 7, count - 1, p);
    }
  }

  // The history that was generated for a bundle.
  ghost predicate Generated(n: RelayHistory.Notation, s: Setting, b: Bundle, waves: seq<nat>,
                            commits: seq<RelayHistory.Commit>)
  {
    LaidOut(b, s.paths) && RelayHistory.ValidCells(CellsOf(b, s.paths)) && |commits| == s.commitCount && |waves| == 7 &&
    RelayHistory.ImportedHistory(n, CellsOf(b, s.paths), waves, s.records, commits, Sorted(s.paths)) &&
    RelayHistory.FilesWithin(commits, s.core.Keys + set p | p in s.paths)
  }

  lemma ImportedRecords(n: RelayHistory.Notation, c: RelayHistory.Cells, waves: seq<nat>,
                        records: seq<(string, string)>, commits: seq<RelayHistory.Commit>, active: seq<string>)
    requires RelayHistory.ValidCells(c) && RelayHistory.ImportedHistory(n, c, waves, records, commits, active)
    ensures commits != [] && Distribution.Flatten(RelayHistory.RecordBatches(commits)) == records
  {
  }

  lemma GeneratedOneLine(n: RelayHistory.Notation, s: Setting, b: Bundle, waves: seq<nat>,
                         commits: seq<RelayHistory.Commit>)
    requires ValidSetting(s) && Generated(n, s, b, waves, commits)
    ensures commits != [] && CommitsOneLine(commits)
  {
    ImportedRecords(n, CellsOf(b, s.paths), waves, s.records, commits, Sorted(s.paths));
    SettingOneLine(s);
    HistoryOneLine(commits, s.core.Keys + (set p | p in s.paths), s.records);
  }

  lemma SettingOneLine(s: Setting)
    requires ValidSetting(s)
    ensures AllOneLine(s.core.Keys + set p | p in s.paths) && RecordsOneLine(s.records)
  {
  }

  lemma ExportsReplay(t: Texts, n: RelayHistory.Notation, s: Setting, b: Bundle, waves: seq<nat>,
                      commits: seq<RelayHistory.Commit>, state: ImportState, main: string, branches: map<string, nat>)
    requires Keywords(t) && state.w == Encoded(t) && Generated(n, s, b, waves, commits)
    requires Exports(state, commits, main, branches)
    ensures ReplaysAs(n, CellsOf(b, s.paths), waves, s.commitCount, branches, state.w, state.stream, state.calls)
  {
    GeneratedRelayReplays(t, n, b, s.paths, s.records, waves, commits, state, main, branches);
  }

  // The import from the draws on: it succeeds exactly under the file plan with at least thirteen commits, and then the
  // stream it wrote replays to the promised repository.
  method ImportRelay(t: Texts, n: RelayHistory.Notation, s: Setting, stamps: Stamps, main: string, release: string,
                     proposal: string) returns (b: Bundle, state: ImportState, ok: bool)
    requires Keywords(t) && WritesCellSource(n) && ValidSetting(s)
    requires GoodNames(main, release, proposal)
    ensures BuiltBundle(b) && LaidOut(b, s.paths) && RelayHistory.ValidCells(CellsOf(b, s.paths))
    ensures fresh(state) && state.w == Encoded(t)
    ensures ok <==> |s.core + RelayHistory.InitialTexts(n, CellsOf(b, s.paths))| + |s.records| == s.fileCount &&
                    s.commitCount >= 13
    ensures ok ==> s.commitCount >= 13 &&
                   RelayStands(n, CellsOf(b, s.paths), RelayHistory.Transitions(s.commitCount), s.commitCount, state,
                               main, release, proposal)
  {
    var r;
    b, r := GenerateRelay(n, s.draws, s.paths, s.core, s.records, s.fileCount, s.commitCount);
    state := NewImport(Encoded(t), main);
    ok := r.Success?;
    if ok {
      var waves := RelayHistory.Transitions(s.commitCount);
      RelayHistory.WavesFitOrCollide(s.commitCount);
      WriteGenerated(t, n, s, b, waves, r.value, stamps, state, main, release, proposal);
      BranchesStand(b, s.paths, s.commitCount);
    }
  }

  method NewImport(w: Words, ghost main: string) returns (state: ImportState)
    ensures fresh(state) && state.w == w && Holds(state, [], main)
  {
    state := new ImportState(w);
  }

  method WriteGenerated(ghost t: Texts, ghost n: RelayHistory.Notation, s: Setting, ghost b: Bundle, waves: seq<nat>,
                        commits: seq<RelayHistory.Commit>, stamps: Stamps, state: ImportState, main: string,
                        release: string, proposal: string)
    requires Keywords(t) && state.w == Encoded(t) && ValidSetting(s) && Generated(n, s, b, waves, commits)
    requires RelayHistory.Increasing(waves) && waves[6] < s.commitCount
    requires Holds(state, [], main) && GoodNames(main, release, proposal)
    modifies state
    ensures ReplaysAs(n, CellsOf(b, s.paths), waves, s.commitCount,
                      BranchCommits(main, release, proposal, s.commitCount, waves), state.w, state.stream, state.calls)
  {
    GeneratedOneLine(n, s, b, waves, commits);
    WriteRelay(state, commits, stamps, waves, main, release, proposal);
    ExportsReplay(t, n, s, b, waves, commits, state, main,
                  BranchCommits(main, release, proposal, s.commitCount, waves));
  }

  lemma BranchesStand(b: Bundle, paths: seq<string>, count: nat)
    requires BuiltBundle(b) && LaidOut(b, paths) && RelayHistory.ValidCells(CellsOf(b, paths)) && count >= 13
    ensures PartialExports(CellsOf(b, paths), RelayHistory.Transitions(count), count)
  {
    var c := CellsOf(b, paths);
    BundlePaths(b, paths);
    RelayHistory.WavesFitOrCollide(count);
    HeadIsFinal(c, RelayHistory.Transitions(count), count);
    RelayHistory.BranchesArePartial(c, count, 1);
    RelayHistory.BranchesArePartial(c, count, 5);
  }
}
