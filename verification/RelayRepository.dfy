// The relay history as git sees it: the commits of the import, written by the fast-import writer, read back and
// replayed, hold files that denote the cells expected at each commit.
module RelayRepository {
  import opened Wrappers
  import opened Utf8
  import opened Codecs
  import opened FastImport
  import opened FastImportWriter
  import opened FastImportReplay
  import opened RelayCells
  import RelayHistory

  /* ---------- File maps and the calls that write them ---------- */

  // The files of a call are those of a map, in any order.
  ghost predicate Lists(files: seq<(string, string)>, m: map<string, string>) {
    (forall k :: 0 <= k < |files| ==> files[k].0 in m && files[k].1 == m[files[k].0]) &&
    forall p :: p in m ==> InFiles(files, p)
  }

  predicate InFiles(files: seq<(string, string)>, p: string) {
    exists k :: 0 <= k < |files| && files[k].0 == p
  }

  function EncodedTree(m: map<string, string>): Tree {
    map p | p in m :: Encode(m[p])
  }

  lemma OneMoreFile(files: seq<(string, string)>, p: string)
    requires files != []
    ensures InFiles(files, p) <==> InFiles(files[..|files| - 1], p) || files[|files| - 1].0 == p
  {
    var before := files[..|files| - 1];
    if InFiles(files, p) {
      var k :| 0 <= k < |files| && files[k].0 == p;
      assert k < |before| ==> before[k].0 == p;
    }
    if InFiles(before, p) {
      var k :| 0 <= k < |before| && before[k].0 == p;
      assert files[k].0 == p;
    }
  }

  lemma {:induction false} FileAt(tree: Tree, files: seq<(string, string)>, m: map<string, string>, p: string)
    requires forall k :: 0 <= k < |files| ==> files[k].0 in m && files[k].1 == m[files[k].0]
    ensures p in WithFiles(tree, files) <==> p in tree || InFiles(files, p)
    ensures p in WithFiles(tree, files) ==>
              if InFiles(files, p) then p in m && WithFiles(tree, files)[p] == Encode(m[p])
              else p in tree && WithFiles(tree, files)[p] == tree[p]
  {
    if files != [] {
      OneMoreFile(files, p);
      FileAt(tree, files[..|files| - 1], m, p);
    }
  }

  lemma ListedFileAt(tree: Tree, files: seq<(string, string)>, m: map<string, string>, p: string)
    requires Lists(files, m)
    ensures p in WithFiles(tree, files) <==> p in tree || p in m
    ensures p in WithFiles(tree, files) ==>
              WithFiles(tree, files)[p] == if p in m then Encode(m[p]) else tree[p]
  {
    FileAt(tree, files, m, p);
    if InFiles(files, p) {
      var k :| 0 <= k < |files| && files[k].0 == p;
    }
  }

  lemma ListedFiles(tree: Tree, files: seq<(string, string)>, m: map<string, string>)
    requires Lists(files, m)
    ensures WithFiles(tree, files) == tree + EncodedTree(m)
  {
    var written, union := WithFiles(tree, files), tree + EncodedTree(m);
    forall p ensures p in written <==> p in union {
      ListedFileAt(tree, files, m, p);
    }
    forall p | p in written ensures written[p] == union[p] {
      ListedFileAt(tree, files, m, p);
    }
    SameTree(written, union);
  }

  lemma SameTree(a: Tree, b: Tree)
    requires (forall p :: p in a <==> p in b) && forall p :: p in a ==> a[p] == b[p]
    ensures a == b
  {
  }

  // A call of the writer that makes a commit of the history on its branch.
  ghost predicate Writes(call: Call, commit: RelayHistory.Commit, branch: string) {
    call.CommitCall? && call.branch == branch && call.deletes == [] && Lists(call.files, RelayHistory.Written(commit))
  }

  ghost predicate WritesAll(calls: seq<Call>, commits: seq<RelayHistory.Commit>, branch: string) {
    |calls| == |commits| && forall k :: 0 <= k < |calls| ==> Writes(calls[k], commits[k], branch)
  }

  /* ---------- The trees git holds are the trees of the history ---------- */

  lemma NothingDeleted(tree: Tree)
    ensures Without(tree, []) == tree
  {
  }

  lemma EncodedUnion(a: map<string, string>, b: map<string, string>)
    ensures EncodedTree(a + b) == EncodedTree(a) + EncodedTree(b)
  {
  }

  // The tree behind the first n commits.
  function TreeBehind(commits: seq<RelayHistory.Commit>): map<string, string> {
    if commits == [] then map[] else RelayHistory.Trees(commits)[|commits| - 1]
  }

  lemma TreeGrows(commits: seq<RelayHistory.Commit>, more: RelayHistory.Commit)
    ensures TreeBehind(commits + [more]) == TreeBehind(commits) + RelayHistory.Written(more)
    ensures RelayHistory.Trees(commits + [more]) == RelayHistory.Trees(commits) + [TreeBehind(commits + [more])]
  {
    assert (commits + [more])[..|commits|] == commits;
  }

  lemma PaintOne(picture: Picture, call: Call, commit: RelayHistory.Commit, branch: string, tree: map<string, string>)
    requires Writes(call, commit, branch) && Head(picture, branch) == EncodedTree(tree)
    ensures var after := EncodedTree(tree + RelayHistory.Written(commit));
            Head(Paint(picture, call), branch) == after && Paint(picture, call).history == picture.history + [after]
  {
    ListedFiles(EncodedTree(tree), call.files, RelayHistory.Written(commit));
    NothingDeleted(WithFiles(EncodedTree(tree), call.files));
    EncodedUnion(tree, RelayHistory.Written(commit));
  }

  ghost predicate Depicts(history: seq<Tree>, trees: seq<map<string, string>>) {
    |history| == |trees| && forall k :: 0 <= k < |trees| ==> history[k] == EncodedTree(trees[k])
  }

  lemma DepictsOneMore(history: seq<Tree>, trees: seq<map<string, string>>, tree: map<string, string>)
    requires Depicts(history, trees)
    ensures Depicts(history + [EncodedTree(tree)], trees + [tree])
  {
  }

  ghost predicate Pictures(picture: Picture, commits: seq<RelayHistory.Commit>, branch: string) {
    Head(picture, branch) == EncodedTree(TreeBehind(commits)) && Depicts(picture.history, RelayHistory.Trees(commits))
  }

  lemma PictureGrows(picture: Picture, commits: seq<RelayHistory.Commit>, branch: string, call: Call,
                     more: RelayHistory.Commit)
    requires Pictures(picture, commits, branch) && Writes(call, more, branch)
    ensures Pictures(Paint(picture, call), commits + [more], branch)
  {
    TreeGrows(commits, more);
    PaintOne(picture, call, more, branch, TreeBehind(commits));
    DepictsOneMore(picture.history, RelayHistory.Trees(commits), TreeBehind(commits + [more]));
  }

  // After every commit the tree git holds is the tree of the history, file by file.
  lemma {:induction false} HistoryIsPainted(calls: seq<Call>, commits: seq<RelayHistory.Commit>, branch: string)
    requires WritesAll(calls, commits, branch)
    ensures Pictures(Painted(calls), commits, branch)
  {
    if calls == [] {
      NothingPainted(branch);
      assert commits == [];
    } else {
      var n := |calls| - 1;
      FewerWrites(calls, commits, branch);
      HistoryIsPainted(calls[..n], commits[..n], branch);
      OneMorePainted(calls[..n], commits[..n], branch, calls[n], commits[n]);
    }
  }

  lemma OneMorePainted(calls: seq<Call>, commits: seq<RelayHistory.Commit>, branch: string, call: Call,
                       more: RelayHistory.Commit)
    requires Pictures(Painted(calls), commits, branch) && Writes(call, more, branch)
    ensures Pictures(Painted(calls + [call]), commits + [more], branch)
  {
    PictureGrows(Painted(calls), commits, branch, call, more);
    PaintedNext(calls, call);
  }

  lemma FewerWrites(calls: seq<Call>, commits: seq<RelayHistory.Commit>, branch: string)
    requires WritesAll(calls, commits, branch) && calls != []
    ensures var n := |calls| - 1;
            && WritesAll(calls[..n], commits[..n], branch) && Writes(calls[n], commits[n], branch)
            && calls[..n] + [calls[n]] == calls && commits[..n] + [commits[n]] == commits
  {
  }

  // The commits of the history, and behind them only resets of branches.
  ghost predicate WritesThenResets(calls: seq<Call>, commits: seq<RelayHistory.Commit>, branch: string) {
    |commits| <= |calls| && WritesAll(calls[..|commits|], commits, branch) &&
    forall k :: |commits| <= k < |calls| ==> !calls[k].CommitCall?
  }

  lemma ResetKeepsHistory(calls: seq<Call>, call: Call)
    requires !call.CommitCall?
    ensures Painted(calls + [call]).history == Painted(calls).history
  {
    PaintedNext(calls, call);
  }

  // Resets leave the trees of all commits as they are.
  lemma {:induction false} ResetsKeepHistory(calls: seq<Call>, resets: seq<Call>)
    requires forall k :: 0 <= k < |resets| ==> !resets[k].CommitCall?
    ensures Painted(calls + resets).history == Painted(calls).history
  {
    if resets == [] {
      assert calls + resets == calls;
    } else {
      var m := |resets| - 1;
      ResetsKeepHistory(calls, resets[..m]);
      ResetKeepsHistory(calls + resets[..m], resets[m]);
      LastApart(calls, resets);
    }
  }

  lemma LastApart<T>(a: seq<T>, b: seq<T>)
    requires b != []
    ensures var m := |b| - 1; a + b[..m] + [b[m]] == a + b
  {
  }

  // The history a list of calls leaves is that of its commits.
  lemma HistoryOfTheWrites(calls: seq<Call>, commits: seq<RelayHistory.Commit>, branch: string)
    requires WritesThenResets(calls, commits, branch)
    ensures Painted(calls).history == Painted(calls[..|commits|]).history
  {
    var n := |commits|;
    ResetsKeepHistory(calls[..n], calls[n..]);
    Apart(calls, n);
  }

  lemma Apart<T>(s: seq<T>, n: nat)
    requires n <= |s|
    ensures s[..n] + s[n..] == s
  {
  }

  lemma NothingPainted(branch: string)
    ensures Pictures(BLANK, [], branch)
  {
  }

  /* ---------- From the import to the repository ---------- */

  // A file of a git tree that decodes to the text of a cell.
  ghost predicate HoldsCell(n: RelayHistory.Notation, tree: Tree, p: string, cell: Cell) {
    p in tree && Decode(tree[p]).Some? && n.denote(Decode(tree[p]).value) == Some(cell)
  }

  lemma EncodedCell(n: RelayHistory.Notation, tree: map<string, string>, cells: map<string, Cell>, p: string)
    requires RelayHistory.TreeDenotes(n, tree, cells) && p in cells
    ensures HoldsCell(n, EncodedTree(tree), p, cells[p])
  {
    TextRoundTrip(tree[p]);
  }

  // Every commit of the replayed repository holds, at every cell's path, a text that denotes the cell expected there.
  ghost predicate RepositoryTells(n: RelayHistory.Notation, c: RelayHistory.Cells, waves: seq<nat>, repo: Repo)
    requires RelayHistory.ValidCells(c)
  {
    forall k, p :: 0 <= k < |repo.commits| && p in c.correct ==>
      repo.commits[k] in repo.trees &&
      HoldsCell(n, repo.trees[repo.commits[k]], p, RelayHistory.CellsAt(c, waves, k)[p])
  }

  lemma CommitTells(n: RelayHistory.Notation, c: RelayHistory.Cells, waves: seq<nat>, trees: seq<map<string, string>>,
                    history: seq<Tree>, k: nat, p: string)
    requires RelayHistory.ValidCells(c) && RelayHistory.FaithfulTrees(n, c, waves, trees) && Depicts(history, trees)
    requires k < |trees| && p in c.correct
    ensures HoldsCell(n, history[k], p, RelayHistory.CellsAt(c, waves, k)[p])
  {
    EncodedCell(n, trees[k], RelayHistory.CellsAt(c, waves, k), p);
  }

  lemma PictureTells(n: RelayHistory.Notation, c: RelayHistory.Cells, waves: seq<nat>, trees: seq<map<string, string>>,
                     picture: Picture, repo: Repo)
    requires RelayHistory.ValidCells(c) && RelayHistory.FaithfulTrees(n, c, waves, trees)
    requires Depicts(picture.history, trees) && Shows(repo, picture)
    ensures RepositoryTells(n, c, waves, repo)
  {
    forall k, p | 0 <= k < |repo.commits| && p in c.correct
      ensures repo.commits[k] in repo.trees &&
              HoldsCell(n, repo.trees[repo.commits[k]], p, RelayHistory.CellsAt(c, waves, k)[p])
    {
      CommitTells(n, c, waves, trees, picture.history, k, p);
    }
  }

  // The bytes of the relay history are read back as its commands, and the repository git makes of them holds at every
  // commit exactly the cells that the waves so far imply.
  lemma RelayHistoryReplays(words: Texts, text: Command -> Bytes, calls: seq<Call>, branch: string,
                            n: RelayHistory.Notation, c: RelayHistory.Cells, waves: seq<nat>,
                            commits: seq<RelayHistory.Commit>) returns (repo: Repo)
    requires Keywords(words) && forall x: Command {:trigger text(x)} :: text(x) == CommandText(Encoded(words), x)
    requires forall k :: 0 <= k < |calls| ==> OneLinePaths(calls[k])
    requires WritesThenResets(calls, commits, branch)
    requires RelayHistory.ValidCells(c) && RelayHistory.FaithfulTrees(n, c, waves, RelayHistory.Trees(commits))
    ensures ReadAll(Encoded(words), Written(text, Commands(calls))) == Some(Commands(calls))
    ensures Replay(NOTHING, Commands(calls)) == Some(repo) && |repo.commits| == |commits|
    ensures RepositoryTells(n, c, waves, repo) && Shows(repo, Painted(calls))
    ensures Depicts(Painted(calls).history, RelayHistory.Trees(commits))
  {
    repo := WrittenStreamReplays(words, text, calls);
    HistoryIsPainted(calls[..|commits|], commits, branch);
    HistoryOfTheWrites(calls, commits, branch);
    PictureTells(n, c, waves, RelayHistory.Trees(commits), Painted(calls), repo);
  }

  // A branch whose tip holds the cells expected after commit j.
  ghost predicate BranchTells(n: RelayHistory.Notation, c: RelayHistory.Cells, waves: seq<nat>, repo: Repo,
                              branch: string, j: nat)
    requires RelayHistory.ValidCells(c)
  {
    branch in repo.branches && repo.branches[branch] in repo.trees &&
    forall p :: p in c.correct ==>
      HoldsCell(n, repo.trees[repo.branches[branch]], p, RelayHistory.CellsAt(c, waves, j)[p])
  }

  lemma TipTells(n: RelayHistory.Notation, c: RelayHistory.Cells, waves: seq<nat>, trees: seq<map<string, string>>,
                 picture: Picture, repo: Repo, branch: string, j: nat)
    requires RelayHistory.ValidCells(c) && RelayHistory.FaithfulTrees(n, c, waves, trees)
    requires Depicts(picture.history, trees) && Shows(repo, picture) && j < |trees|
    requires branch in picture.heads && picture.heads[branch] == picture.history[j]
    ensures BranchTells(n, c, waves, repo, branch, j)
  {
    forall p | p in c.correct
      ensures HoldsCell(n, picture.history[j], p, RelayHistory.CellsAt(c, waves, j)[p])
    {
      CommitTells(n, c, waves, trees, picture.history, j, p);
    }
  }

  // The bytes are read back as the calls; their replay holds at each of `count` commits the cells expected there, and
  // at each of these branches those expected after its commit.
  ghost predicate ReplaysAs(n: RelayHistory.Notation, c: RelayHistory.Cells, waves: seq<nat>, count: nat,
                            branches: map<string, nat>, w: Words, stream: Bytes, calls: seq<Call>)
    requires RelayHistory.ValidCells(c)
  {
    ReadAll(w, stream) == Some(Commands(calls)) &&
    exists repo :: Replay(NOTHING, Commands(calls)) == Some(repo) && |repo.commits| == count &&
                   RepositoryTells(n, c, waves, repo) &&
                   forall b :: b in branches ==> BranchTells(n, c, waves, repo, b, branches[b])
  }

  // The branches of the calls point at these commits.
  ghost predicate PointAt(calls: seq<Call>, branches: map<string, nat>) {
    forall b :: b in branches ==>
      b in Painted(calls).heads && branches[b] < |Painted(calls).history| &&
      Painted(calls).heads[b] == Painted(calls).history[branches[b]]
  }

  lemma StateTells(words: Texts, state: ImportState, branch: string, n: RelayHistory.Notation, c: RelayHistory.Cells,
                   waves: seq<nat>, commits: seq<RelayHistory.Commit>, branches: map<string, nat>)
    requires Keywords(words) && state.Valid() && state.w == Encoded(words) && OneLineCalls(state.calls)
    requires WritesThenResets(state.calls, commits, branch) && PointAt(state.calls, branches)
    requires RelayHistory.ValidCells(c) && RelayHistory.FaithfulTrees(n, c, waves, RelayHistory.Trees(commits))
    ensures ReplaysAs(n, c, waves, |commits|, branches, state.w, state.stream, state.calls)
  {
    var repo := RelayHistoryReplays(words, state.text, state.calls, branch, n, c, waves, commits);
    forall b | b in branches ensures BranchTells(n, c, waves, repo, b, branches[b]) {
      TipTells(n, c, waves, RelayHistory.Trees(commits), Painted(state.calls), repo, b, branches[b]);
    }
  }

  /* ---------- The branches behind the history ---------- */

  lemma OnlyWrites(calls: seq<Call>, commits: seq<RelayHistory.Commit>, branch: string)
    requires WritesAll(calls, commits, branch)
    ensures WritesThenResets(calls, commits, branch)
  {
    assert calls[..|commits|] == calls;
  }

  lemma OneMoreReset(calls: seq<Call>, commits: seq<RelayHistory.Commit>, main: string, branch: string, j: nat,
                     branches: map<string, nat>)
    requires WritesThenResets(calls, commits, main) && PointAt(calls, branches) && branch !in branches
    requires j < |commits|
    ensures var more := calls + [ResetToCall(branch, j)];
            WritesThenResets(more, commits, main) && PointAt(more, branches[branch := j])
  {
    var more := calls + [ResetToCall(branch, j)];
    assert more[..|commits|] == calls[..|commits|];
    HistoryLength(calls, commits, main);
    PaintedNext(calls, ResetToCall(branch, j));
  }

  lemma HistoryLength(calls: seq<Call>, commits: seq<RelayHistory.Commit>, main: string)
    requires WritesThenResets(calls, commits, main)
    ensures |Painted(calls).history| == |commits|
  {
    HistoryIsPainted(calls[..|commits|], commits, main);
    HistoryOfTheWrites(calls, commits, main);
  }

  // Before any reset the main branch is at the last commit.
  lemma MainIsLast(calls: seq<Call>, commits: seq<RelayHistory.Commit>, main: string)
    requires WritesAll(calls, commits, main) && commits != []
    ensures PointAt(calls, map[main := |commits| - 1])
  {
    HistoryIsPainted(calls, commits, main);
    MainExists(calls, commits, main);
    LastTree(Painted(calls), commits, main);
  }

  lemma MainExists(calls: seq<Call>, commits: seq<RelayHistory.Commit>, main: string)
    requires WritesAll(calls, commits, main) && commits != []
    ensures main in Painted(calls).heads
  {
    var n := |calls| - 1;
    FewerWrites(calls, commits, main);
    PaintedNext(calls[..n], calls[n]);
  }

  lemma LastTree(picture: Picture, commits: seq<RelayHistory.Commit>, main: string)
    requires Pictures(picture, commits, main) && commits != []
    ensures |picture.history| == |commits| && Head(picture, main) == picture.history[|commits| - 1]
  {
  }
}
