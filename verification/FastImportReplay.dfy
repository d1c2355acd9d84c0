// What git makes of a fast-import stream: blobs by mark, commits on branches, one tree per commit.
// Replaying what ImportState wrote gives the fold of the file maps of its calls.
module FastImportReplay {
  import opened Wrappers
  import opened Utf8
  import opened Numerals
  import opened Codecs
  import opened FastImport
  import opened FastImportWriter

  type Tree = map<string, Bytes>

  /* ---------- The receiving side ---------- */

  // Blobs and commit trees by mark, commits in order, and the commit each branch points to.
  datatype Repo = Repo(blobs: map<nat, Bytes>, trees: map<nat, Tree>, commits: seq<nat>, branches: map<string, nat>)

  const NOTHING := Repo(map[], map[], [], map[])

  predicate Fresh(repo: Repo, mark: nat) {
    mark !in repo.blobs && mark !in repo.trees
  }

  // An M line must name a blob that is already there.
  function ApplyPuts(blobs: map<nat, Bytes>, tree: Tree, puts: seq<Put>): Option<Tree> {
    if puts == [] then Some(tree)
    else
      var before :- ApplyPuts(blobs, tree, puts[..|puts| - 1]);
      var last := puts[|puts| - 1];
      if last.mark in blobs then Some(before[last.path := blobs[last.mark]]) else None
  }

  function Without(tree: Tree, paths: seq<string>): Tree {
    map path | path in tree && path !in paths :: tree[path]
  }

  // A commit grows from the tip of its branch, if the branch exists.
  function ParentTree(repo: Repo, branch: string): Option<Tree> {
    if branch !in repo.branches then Some(map[])
    else if repo.branches[branch] in repo.trees then Some(repo.trees[repo.branches[branch]])
    else None
  }

  function Replay1(repo: Repo, command: Command): Option<Repo> {
    match command
    case BlobCommand(mark, data) =>
      if Fresh(repo, mark) then Some(repo.(blobs := repo.blobs[mark := data])) else None
    case CommitCommand(branch, mark, _, _, puts, deletes) =>
      if !Fresh(repo, mark) then None
      else
        var parent :- ParentTree(repo, branch);
        var tree :- ApplyPuts(repo.blobs, parent, puts);
        Some(repo.(trees := repo.trees[mark := Without(tree, deletes)], commits := repo.commits + [mark],
                   branches := repo.branches[branch := mark]))
    case ResetCommand(branch, from) =>
      if from in repo.trees then Some(repo.(branches := repo.branches[branch := from])) else None
  }

  function Replay(repo: Repo, commands: seq<Command>): Option<Repo> {
    if commands == [] then Some(repo)
    else
      var before :- Replay(repo, commands[..|commands| - 1]);
      Replay1(before, commands[|commands| - 1])
  }

  lemma {:induction false} ReplayConcat(repo: Repo, a: seq<Command>, b: seq<Command>)
    requires Replay(repo, a).Some?
    ensures Replay(repo, a + b) == Replay(Replay(repo, a).value, b)
  {
    if b == [] {
      assert a + b == a;
    } else {
      ReplayConcat(repo, a, b[..|b| - 1]);
      assert (a + b)[..|a + b| - 1] == a + b[..|b| - 1];
    }
  }

  lemma ReplayStep(repo: Repo, commands: seq<Command>, before: Repo)
    requires commands != [] && Replay(repo, commands[..|commands| - 1]) == Some(before)
    ensures Replay(repo, commands) == Replay1(before, commands[|commands| - 1])
  {
  }

  lemma ReplayOne(repo: Repo, command: Command)
    ensures Replay(repo, [command]) == Replay1(repo, command)
  {
    assert [command][..0] == [];
  }

  /* ---------- What the calls mean ---------- */

  // The tree at the tip of each branch, the tree of the last commit, and every commit's tree in order.
  datatype Picture = Picture(heads: map<string, Tree>, last: Option<Tree>, history: seq<Tree>)

  const BLANK := Picture(map[], None, [])

  function WithFiles(tree: Tree, files: seq<(string, string)>): Tree {
    if files == [] then tree
    else
      var last := files[|files| - 1];
      WithFiles(tree, files[..|files| - 1])[last.0 := Encode(last.1)]
  }

  function Head(picture: Picture, branch: string): Tree {
    if branch in picture.heads then picture.heads[branch] else map[]
  }

  function Paint(picture: Picture, call: Call): Picture {
    match call
    case CommitCall(_, files, _, branch, deletes) =>
      var tree := Without(WithFiles(Head(picture, branch), files), deletes);
      Picture(picture.heads[branch := tree], Some(tree), picture.history + [tree])
    case ResetCall(branch) =>
      if picture.last.None? then picture else picture.(heads := picture.heads[branch := picture.last.value])
    case ResetToCall(branch, commit) =>
      if commit >= |picture.history| then picture
      else picture.(heads := picture.heads[branch := picture.history[commit]])
  }

  function Painted(calls: seq<Call>): Picture {
    if calls == [] then BLANK else Paint(Painted(calls[..|calls| - 1]), calls[|calls| - 1])
  }

  lemma PaintedNext(calls: seq<Call>, call: Call)
    ensures Painted(calls + [call]) == Paint(Painted(calls), call)
  {
    assert (calls + [call])[..|calls|] == calls;
  }

  /* ---------- Both agree ---------- */

  // All marks so far are below the next one.
  ghost predicate Below(repo: Repo, next: nat) {
    (forall mark :: mark in repo.blobs ==> mark < next) && (forall mark :: mark in repo.trees ==> mark < next)
  }

  ghost predicate Shows(repo: Repo, picture: Picture) {
    repo.branches.Keys == picture.heads.Keys &&
    (forall b :: b in repo.branches ==>
       repo.branches[b] in repo.trees && repo.trees[repo.branches[b]] == picture.heads[b]) &&
    |repo.commits| == |picture.history| &&
    forall k :: 0 <= k < |repo.commits| ==>
      repo.commits[k] in repo.trees && repo.trees[repo.commits[k]] == picture.history[k]
  }

  ghost predicate TipShows(repo: Repo, tip: Option<nat>, last: Option<Tree>) {
    match tip
    case None => last.None?
    case Some(mark) => mark in repo.trees && last == Some(repo.trees[mark])
  }

  ghost predicate Agree(repo: Repo, p: Position, picture: Picture) {
    Below(repo, p.nextMark) && Shows(repo, picture) && TipShows(repo, p.tip, picture.last) && repo.commits == p.marks
  }

  ghost predicate HoldsBlob(blobs: map<nat, Bytes>, mark: nat, file: (string, string)) {
    mark in blobs && blobs[mark] == Encode(file.1)
  }

  ghost predicate HoldsBlobs(blobs: map<nat, Bytes>, first: nat, files: seq<(string, string)>) {
    forall k :: 0 <= k < |files| ==> HoldsBlob(blobs, first + k, files[k])
  }

  lemma {:induction false} BlobsReplay(repo: Repo, first: nat, files: seq<(string, string)>) returns (after: Repo)
    requires Below(repo, first)
    ensures Replay(repo, BlobCommands(first, files)) == Some(after)
    ensures after == repo.(blobs := after.blobs) && Below(after, first + |files|)
    ensures HoldsBlobs(after.blobs, first, files)
  {
    if files == [] {
      after := repo;
    } else {
      var n := |files| - 1;
      var before := BlobsReplay(repo, first, files[..n]);
      assert BlobCommands(first, files)[..n] == BlobCommands(first, files[..n]);
      var data := Encode(files[n].1);
      after := before.(blobs := before.blobs[first + n := data]);
      assert BlobCommands(first, files)[n] == BlobCommand(first + n, data);
      assert Replay1(before, BlobCommand(first + n, data)) == Some(after);
      ReplayStep(repo, BlobCommands(first, files), before);
      forall k | 0 <= k < |files| ensures HoldsBlob(after.blobs, first + k, files[k]) {
        if k < n {
          assert files[..n][k] == files[k];
        }
      }
    }
  }

  lemma {:induction false} PutsReplay(blobs: map<nat, Bytes>, tree: Tree, first: nat, files: seq<(string, string)>)
    requires HoldsBlobs(blobs, first, files)
    ensures ApplyPuts(blobs, tree, Puts(first, files)) == Some(WithFiles(tree, files))
  {
    if files != [] {
      var n := |files| - 1;
      forall k | 0 <= k < n ensures HoldsBlob(blobs, first + k, files[..n][k]) {
        assert files[..n][k] == files[k];
      }
      PutsReplay(blobs, tree, first, files[..n]);
      assert Puts(first, files)[..n] == Puts(first, files[..n]);
    }
  }

  lemma CommitReplays(repo: Repo, p: Position, picture: Picture, call: Call) returns (after: Repo)
    requires Agree(repo, p, picture) && call.CommitCall?
    ensures Replay(repo, CommandsOf(p, call)) == Some(after) && Agree(after, Advance(p, call), Paint(picture, call))
  {
    var loaded := BlobsReplay(repo, p.nextMark, call.files);
    var commit := TheCommit(p.nextMark, call);
    PutsReplay(loaded.blobs, Head(picture, call.branch), p.nextMark, call.files);
    assert ParentTree(loaded, call.branch) == Some(Head(picture, call.branch));
    var tree := Without(WithFiles(Head(picture, call.branch), call.files), call.deletes);
    after := loaded.(trees := loaded.trees[commit.mark := tree], commits := loaded.commits + [commit.mark],
                     branches := loaded.branches[call.branch := commit.mark]);
    assert Replay1(loaded, commit) == Some(after);
    ReplayOne(loaded, commit);
    ReplayConcat(repo, BlobCommands(p.nextMark, call.files), [commit]);
    CommitAgrees(loaded, commit.mark, call.branch, tree, p, picture);
  }

  lemma CommitAgrees(loaded: Repo, mark: nat, branch: string, tree: Tree, p: Position, picture: Picture)
    requires Below(loaded, mark) && Shows(loaded, picture) && loaded.commits == p.marks
    ensures Agree(loaded.(trees := loaded.trees[mark := tree], commits := loaded.commits + [mark],
                          branches := loaded.branches[branch := mark]),
                  CommitAt(p, mark),
                  Picture(picture.heads[branch := tree], Some(tree), picture.history + [tree]))
  {
  }

  lemma ResetReplays(repo: Repo, p: Position, picture: Picture, branch: string) returns (after: Repo)
    requires Agree(repo, p, picture)
    ensures Replay(repo, CommandsOf(p, ResetCall(branch))) == Some(after)
    ensures Agree(after, p, Paint(picture, ResetCall(branch)))
  {
    if p.tip.None? {
      after := repo;
    } else {
      after := repo.(branches := repo.branches[branch := p.tip.value]);
      ReplayOne(repo, ResetCommand(branch, p.tip.value));
    }
  }

  lemma ResetToReplays(repo: Repo, p: Position, picture: Picture, branch: string, commit: nat) returns (after: Repo)
    requires Agree(repo, p, picture)
    ensures Replay(repo, CommandsOf(p, ResetToCall(branch, commit))) == Some(after)
    ensures Agree(after, p, Paint(picture, ResetToCall(branch, commit)))
  {
    if commit < |p.marks| {
      after := repo.(branches := repo.branches[branch := p.marks[commit]]);
      ReplayOne(repo, ResetCommand(branch, p.marks[commit]));
    } else {
      after := repo;
    }
  }

  // Replaying the commands of any calls succeeds and shows the fold of their file maps.
  lemma {:induction false} CallsReplay(calls: seq<Call>) returns (repo: Repo)
    ensures Replay(NOTHING, Commands(calls)) == Some(repo) && Agree(repo, At(calls), Painted(calls))
  {
    if calls == [] {
      repo := NOTHING;
    } else {
      var before, call := calls[..|calls| - 1], calls[|calls| - 1];
      var middle := CallsReplay(before);
      if call.CommitCall? {
        repo := CommitReplays(middle, At(before), Painted(before), call);
      } else if call.ResetCall? {
        repo := ResetReplays(middle, At(before), Painted(before), call.branch);
      } else {
        repo := ResetToReplays(middle, At(before), Painted(before), call.branch, call.commit);
      }
      ReplayConcat(NOTHING, Commands(before), CommandsOf(At(before), call));
    }
  }

  /* ---------- The whole way: calls, bytes, reader, replay ---------- */

  predicate OneLinePaths(call: Call) {
    OneLine(call.branch) &&
    (call.CommitCall? ==>
       (forall k :: 0 <= k < |call.files| ==> OneLine(call.files[k].0)) &&
       forall k :: 0 <= k < |call.deletes| ==> OneLine(call.deletes[k]))
  }

  lemma {:induction false} CommandsAreWritable(calls: seq<Call>)
    requires forall k :: 0 <= k < |calls| ==> OneLinePaths(calls[k])
    ensures forall k :: 0 <= k < |Commands(calls)| ==> Writable(Commands(calls)[k])
  {
    if calls != [] {
      CommandsAreWritable(calls[..|calls| - 1]);
      var p, call := At(calls[..|calls| - 1]), calls[|calls| - 1];
      assert OneLinePaths(call);
      if call.CommitCall? {
        assert Writable(TheCommit(p.nextMark, call));
      }
      assert forall k :: 0 <= k < |CommandsOf(p, call)| ==> Writable(CommandsOf(p, call)[k]);
    }
  }

  // The stream ImportState holds is read back as its commands, and their replay shows the fold of the file maps.
  lemma WrittenStreamReplays(t: Texts, text: Command -> Bytes, calls: seq<Call>) returns (repo: Repo)
    requires Keywords(t) && forall c: Command {:trigger text(c)} :: text(c) == CommandText(Encoded(t), c)
    requires forall k :: 0 <= k < |calls| ==> OneLinePaths(calls[k])
    ensures ReadAll(Encoded(t), Written(text, Commands(calls))) == Some(Commands(calls))
    ensures Replay(NOTHING, Commands(calls)) == Some(repo) && Agree(repo, At(calls), Painted(calls))
  {
    var w, commands := Encoded(t), Commands(calls);
    CommandsAreWritable(calls);
    WordsAreDistinct(t);
    var print1 := CommandCodec(w).print1;
    forall k | 0 <= k < |commands| ensures Fronts(print1, commands[k]) && text(commands[k]) == print1(commands[k], []) {
      CommandSound(w, commands[k]);
      TextIsPrinted(w, commands[k]);
    }
    WrittenIsPrinted(text, print1, commands);
    StreamRoundTrip(t, commands);
    repo := CallsReplay(calls);
  }

  // A stream that is read back as exactly the commands of some calls, whose replay shows the fold of their files.
  ghost predicate ReadsBack(w: Words, stream: Bytes, calls: seq<Call>) {
    ReadAll(w, stream) == Some(Commands(calls)) &&
    exists repo :: Replay(NOTHING, Commands(calls)) == Some(repo) && Agree(repo, At(calls), Painted(calls))
  }

  ghost predicate OneLineCalls(calls: seq<Call>) {
    forall k :: 0 <= k < |calls| ==> OneLinePaths(calls[k])
  }

  // Whatever an ImportState was asked to write is read back and replays.
  lemma StateReplays(t: Texts, state: ImportState)
    requires Keywords(t) && state.Valid() && state.w == Encoded(t) && OneLineCalls(state.calls)
    ensures ReadsBack(state.w, state.stream, state.calls)
  {
    var repo := WrittenStreamReplays(t, state.text, state.calls);
  }

  // In particular with the words of git itself.
  lemma GitStreamReplays(state: ImportState)
    requires state.Valid() && state.w == Encoded(GIT_TEXTS) && OneLineCalls(state.calls)
    ensures ReadsBack(state.w, state.stream, state.calls)
  {
    GitTextsAreKeywords();
    StateReplays(GIT_TEXTS, state);
  }

  /* ---------- Marks ---------- */

  // The marks a list of commands defines, in order.
  function Marks(commands: seq<Command>): seq<nat> {
    if commands == [] then []
    else
      var before, last := Marks(commands[..|commands| - 1]), commands[|commands| - 1];
      if last.ResetCommand? then before else before + [last.mark]
  }

  lemma {:induction false} MarksConcat(a: seq<Command>, b: seq<Command>)
    ensures Marks(a + b) == Marks(a) + Marks(b)
  {
    if b == [] {
      assert a + b == a;
    } else {
      MarksConcat(a, b[..|b| - 1]);
      assert (a + b)[..|a + b| - 1] == a + b[..|b| - 1];
    }
  }

  function Run(first: nat, count: nat): seq<nat> {
    seq(count, k => first + k)
  }

  lemma {:induction false} BlobMarks(first: nat, files: seq<(string, string)>)
    ensures Marks(BlobCommands(first, files)) == Run(first, |files|)
  {
    if files != [] {
      var n := |files| - 1;
      BlobMarks(first, files[..n]);
      assert BlobCommands(first, files)[..n] == BlobCommands(first, files[..n]);
    }
  }

  lemma RunConcat(first: nat, a: nat, b: nat)
    ensures Run(first, a) + Run(first + a, b) == Run(first, a + b)
  {
  }

  lemma CommitMarks(p: Position, call: Call)
    requires call.CommitCall?
    ensures Marks(CommandsOf(p, call)) == Run(p.nextMark, |call.files| + 1)
  {
    var commit := TheCommit(p.nextMark, call);
    BlobMarks(p.nextMark, call.files);
    MarksConcat(BlobCommands(p.nextMark, call.files), [commit]);
    assert [commit][..0] == [];
    assert Marks([commit]) == Run(p.nextMark + |call.files|, 1);
    RunConcat(p.nextMark, |call.files|, 1);
  }

  lemma ResetMarks(p: Position, call: Call)
    requires !call.CommitCall?
    ensures Marks(CommandsOf(p, call)) == []
  {
    var commands := CommandsOf(p, call);
    if commands != [] {
      assert commands[..0] == [];
    }
  }

  lemma MarksStep(before: seq<Command>, p: Position, call: Call)
    requires p.nextMark >= 1 && Marks(before) == Run(1, p.nextMark - 1)
    ensures Marks(before + CommandsOf(p, call)) == Run(1, Advance(p, call).nextMark - 1)
  {
    MarksConcat(before, CommandsOf(p, call));
    if call.CommitCall? {
      CommitMarks(p, call);
      RunConcat(1, p.nextMark - 1, |call.files| + 1);
    } else {
      ResetMarks(p, call);
    }
  }

  ghost predicate Consecutive(calls: seq<Call>) {
    At(calls).nextMark >= 1 && Marks(Commands(calls)) == Run(1, At(calls).nextMark - 1)
  }

  lemma StaysConsecutive(calls: seq<Call>, call: Call)
    requires Consecutive(calls)
    ensures Consecutive(calls + [call])
  {
    CallsStep(calls, call);
    MarksStep(Commands(calls), At(calls), call);
  }

  // Every blob and every commit takes the next number: marks are 1, 2, 3 and so on without gaps or repeats.
  lemma {:induction false} MarksAreConsecutive(calls: seq<Call>)
    ensures Consecutive(calls)
  {
    if calls != [] {
      var n := |calls| - 1;
      MarksAreConsecutive(calls[..n]);
      StaysConsecutive(calls[..n], calls[n]);
      LastCall(calls);
    }
  }

  lemma LastCall(calls: seq<Call>)
    requires calls != []
    ensures var n := |calls| - 1; calls[..n] + [calls[n]] == calls
  {
  }

  /* ---------- Why paths must stay on one line ---------- */

  lemma {:induction false} EncodeConcat(a: string, b: string)
    ensures Encode(a + b) == Encode(a) + Encode(b)
  {
    if a == "" {
      assert a + b == b;
    } else {
      assert (a + b)[1..] == a[1..] + b;
      EncodeConcat(a[1..], b);
    }
  }

  lemma {:induction false} PutTextsLast(w: Words, puts: seq<Put>, last: Put)
    ensures PutTexts(w, puts + [last]) == PutTexts(w, puts) + PutLine(w, last.mark, last.path)
  {
    if puts == [] {
      assert puts + [last] == [last];
      assert [last][1..] == [];
    } else {
      assert (puts + [last])[1..] == puts[1..] + [last];
      PutTextsLast(w, puts[1..], last);
    }
  }

  // A path with a line feed writes a D line of its own: two different commits have the same bytes, so no reader can
  // tell them apart.
  lemma LineFeedPathsAreAmbiguous(t: Texts, commit: Command, puts: seq<Put>, mark: nat, a: string, b: string)
    requires commit.CommitCommand? && commit.puts == puts + [Put(mark, a + ("\n" + (t.drop + b)))]
    ensures CommandText(Encoded(t), commit)
            == CommandText(Encoded(t), commit.(puts := puts + [Put(mark, a)], deletes := [b] + commit.deletes))
  {
    var w := Encoded(t);
    var path := a + ("\n" + (t.drop + b));
    EncodeConcat(a, "\n" + (t.drop + b));
    EncodeConcat("\n", t.drop + b);
    EncodeConcat(t.drop, b);
    assert Encode("\n") == [LF];
    assert Encode(path) == Encode(a) + ([LF] + (w.drop + Encode(b)));
    PutTextsLast(w, puts, Put(mark, path));
    PutTextsLast(w, puts, Put(mark, a));
    var number := Encode(Decimal(mark));
    LinesCoincide(w.put + number + [SPACE], Encode(a), w.drop, Encode(b));
    assert PutLine(w, mark, path) == PutLine(w, mark, a) + DropLine(w, b);
    assert ([b] + commit.deletes)[1..] == commit.deletes;
    var signed := SignedText(w, commit.timestamp, commit.message);
    TailsCoincide(CommitHead(w, commit.branch, commit.mark) + signed, PutTexts(w, puts), PutLine(w, mark, a),
                  DropLine(w, b), DropTexts(w, commit.deletes));
  }

  lemma LinesCoincide(front: Bytes, a: Bytes, drop: Bytes, b: Bytes)
    ensures front + (a + ([LF] + (drop + b)) + [LF]) == front + (a + [LF]) + (drop + (b + [LF]))
  {
  }

  lemma TailsCoincide(head: Bytes, puts: Bytes, put: Bytes, drop: Bytes, drops: Bytes)
    ensures head + (puts + (put + drop)) + drops + [LF] == head + (puts + put) + (drop + drops) + [LF]
  {
  }
}
