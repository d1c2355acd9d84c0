// The history import that introduces the seven relay corruptions one wave at a
// time while every other commit only respells two cells.
module RelayHistory {
  import opened Wrappers
  import opened RelayCells
  import Distribution

  type Path = string

  /* ---------- Where the waves fall ---------- */

  // Python's round of hundredths/100: half goes to the even neighbour.
  function RoundPercent(hundredths: nat): nat {
    var q, r := hundredths / 100, hundredths % 100;
    if r < 50 || (r == 50 && q % 2 == 0) then q else q + 1
  }

  // It is the nearest whole number, and of two equally near ones the even one.
  lemma RoundPercentIsNearest(hundredths: nat)
    ensures -50 <= 100 * RoundPercent(hundredths) - hundredths <= 50
    ensures 100 * RoundPercent(hundredths) - hundredths in {-50, 50} ==> RoundPercent(hundredths) % 2 == 0
  {
  }

  const FRACTIONS: seq<nat> := [13, 22, 31, 43, 55, 67, 76]

  function Transitions(commitCount: nat): (t: seq<nat>)
    requires commitCount >= 1
    ensures |t| == 7 && forall w :: 0 <= w < 7 ==> t[w] >= 2
  {
    seq(7, w requires 0 <= w < 7 => Distribution.Max(2, RoundPercent((commitCount - 1) * FRACTIONS[w])))
  }

  predicate Increasing(t: seq<nat>) {
    forall v, w :: 0 <= v < w < |t| ==> t[v] < t[w]
  }

  lemma WavesFitOrCollide(commitCount: nat)
    requires commitCount >= 1
    ensures if commitCount >= 13 then Increasing(Transitions(commitCount)) && Transitions(commitCount)[6] < commitCount
            else Transitions(commitCount)[0] == Transitions(commitCount)[1]
  {
    WavesFitIff(commitCount);
    if commitCount < 13 {
      FirstWavesCollide(commitCount);
    }
  }

  lemma RoundSeparates(a: nat, b: nat)
    requires b > a + 100
    ensures RoundPercent(a) < RoundPercent(b)
  {
  }

  lemma FirstWavesCollide(commitCount: nat)
    requires 1 <= commitCount < 13
    ensures Transitions(commitCount)[0] == Transitions(commitCount)[1] == 2
  {
    var t, n := Transitions(commitCount), commitCount - 1;
    assert t[0] == Distribution.Max(2, RoundPercent(n * 13)) && t[1] == Distribution.Max(2, RoundPercent(n * 22));
    assert RoundPercent(n * 13) <= 2 && RoundPercent(n * 22) <= 2;
  }

  // Every wave gets a commit of its own exactly from thirteen commits on.
  lemma WavesFitIff(commitCount: nat)
    requires commitCount >= 1
    ensures Increasing(Transitions(commitCount)) && Transitions(commitCount)[6] < commitCount <==> commitCount >= 13
  {
    var t, n := Transitions(commitCount), commitCount - 1;
    assert t[0] == Distribution.Max(2, RoundPercent(n * 13)) && t[1] == Distribution.Max(2, RoundPercent(n * 22));
    if commitCount < 13 {
      FirstWavesCollide(commitCount);
    } else {
      RoundSeparates(n * 13, n * 22);
      RoundSeparates(n * 22, n * 31);
      RoundSeparates(n * 31, n * 43);
      RoundSeparates(n * 43, n * 55);
      RoundSeparates(n * 55, n * 67);
      RoundSeparates(n * 67, n * 76);
      assert RoundPercent(n * 22) >= 3;
      assert t == [t[0], RoundPercent(n * 22), RoundPercent(n * 31), RoundPercent(n * 43), RoundPercent(n * 55),
                   RoundPercent(n * 67), RoundPercent(n * 76)];
    }
  }

  /* ---------- What the history must show ---------- */

  // What the lists of target and decoy paths make of one path.
  datatype Role = Target(wave: nat) | Decoy(wave: nat) | Plain

  // The cells of a workspace by path: correct, shipped at HEAD, and at the start of history; the paths that
  // each wave corrupts and repairs, and the role this gives to every path.
  datatype Cells = Cells(correct: map<Path, Cell>, final: map<Path, Cell>, initial: map<Path, Cell>,
                         targets: seq<Path>, decoys: seq<Path>, role: map<Path, Role>)

  // Seven targets and seven decoys, all different; every path knows its place in the lists.
  ghost predicate FourteenPaths(c: Cells) {
    |c.targets| == |c.decoys| == 7 && c.role.Keys == c.correct.Keys &&
    (forall w :: 0 <= w < 7 ==>
       c.targets[w] in c.role && c.role[c.targets[w]] == Target(w) &&
       c.decoys[w] in c.role && c.role[c.decoys[w]] == Decoy(w)) &&
    (forall p :: p in c.role ==>
       match c.role[p]
       case Target(w) => w < 7 && p == c.targets[w]
       case Decoy(w) => w < 7 && p == c.decoys[w]
       case Plain => true)
  }

  // HEAD differs from the correct cells exactly at the targets, and the start of history only at decoys.
  ghost predicate ValidCells(c: Cells) {
    c.correct.Keys == c.final.Keys == c.initial.Keys == c.role.Keys &&
    (forall p :: p in c.correct ==>
       (c.role[p].Target? <==> c.final[p] != c.correct[p]) && (!c.role[p].Decoy? ==> c.initial[p] == c.correct[p]))
  }

  // Wave w has happened by commit j; a wave whose commit number repeats an earlier wave's never does.
  predicate Applied(t: seq<nat>, w: nat, j: nat) {
    w < |t| && t[w] <= j && forall v :: 0 <= v < w ==> t[v] != t[w]
  }

  // The cell each path means after commit j.
  function CellAt(c: Cells, t: seq<nat>, j: nat, p: Path): Cell
    requires ValidCells(c) && p in c.correct
  {
    match c.role[p]
    case Target(w) => if Applied(t, w, j) then c.final[p] else c.initial[p]
    case Decoy(w) => if Applied(t, w, j) then c.correct[p] else c.initial[p]
    case Plain => c.initial[p]
  }

  function CellsAt(c: Cells, t: seq<nat>, j: nat): map<Path, Cell>
    requires ValidCells(c)
  {
    map p | p in c.correct :: CellAt(c, t, j, p)
  }

  // One commit: the evidence records it imports and the other files it writes.
  datatype Commit = Commit(records: seq<(Path, string)>, files: map<Path, string>)

  function Chunk(records: seq<(Path, string)>): (m: map<Path, string>)
    ensures forall p :: p in m ==> exists i :: 0 <= i < |records| && records[i].0 == p
  {
    if records == [] then map[]
    else Chunk(records[..|records| - 1])[records[|records| - 1].0 := records[|records| - 1].1]
  }

  // The files one commit writes.
  function Written(commit: Commit): map<Path, string> {
    Chunk(commit.records) + commit.files
  }

  // The file tree after each commit: later commits overwrite earlier ones.
  function Trees(commits: seq<Commit>): (trees: seq<map<Path, string>>)
    ensures |trees| == |commits|
  {
    if commits == [] then []
    else
      var n := |commits| - 1;
      var before := Trees(commits[..n]);
      before + [if n == 0 then Written(commits[0]) else before[n - 1] + Written(commits[n])]
  }

  /* ---------- How the expected cells evolve ---------- */

  lemma QuietCommit(c: Cells, t: seq<nat>, j: nat)
    requires ValidCells(c) && j >= 1 && j !in t
    ensures CellsAt(c, t, j) == CellsAt(c, t, j - 1)
  {
    assert forall w :: 0 <= w < |t| ==> t[w] != j;
    forall p | p in c.correct ensures CellAt(c, t, j, p) == CellAt(c, t, j - 1, p) {
    }
  }

  ghost predicate IsWave(t: seq<nat>, j: nat, w: nat) {
    |t| == 7 && j >= 1 && w < 7 && t[w] == j && forall v :: 0 <= v < w ==> t[v] != j
  }

  // The cells after wave w: its decoy repaired, its target corrupted.
  function AfterOneWave(c: Cells, w: nat, current: map<Path, Cell>): map<Path, Cell>
    requires FourteenPaths(c) && ValidCells(c) && w < 7
  {
    current[c.decoys[w] := c.correct[c.decoys[w]]][c.targets[w] := c.final[c.targets[w]]]
  }

  lemma WaveCommit(c: Cells, t: seq<nat>, j: nat, w: nat)
    requires FourteenPaths(c) && ValidCells(c) && IsWave(t, j, w)
    ensures CellsAt(c, t, j) == AfterOneWave(c, w, CellsAt(c, t, j - 1))
  {
    var target, decoy := c.targets[w], c.decoys[w];
    CellsAtKeys(c, t, j - 1);
    CellsAtKeys(c, t, j);
    PathsAfterWave(c, t, j, w);
    TwoUpdates(c.correct.Keys, CellsAt(c, t, j - 1), CellsAt(c, t, j), decoy, c.correct[decoy], target,
               c.final[target]);
  }

  lemma CellsAtKeys(c: Cells, t: seq<nat>, j: nat)
    requires ValidCells(c)
    ensures CellsAt(c, t, j).Keys == c.correct.Keys
  {
  }

  lemma PathsAfterWave(c: Cells, t: seq<nat>, j: nat, w: nat)
    requires FourteenPaths(c) && ValidCells(c) && IsWave(t, j, w)
    ensures Updated(c.correct.Keys, CellsAt(c, t, j - 1), CellsAt(c, t, j), c.decoys[w], c.correct[c.decoys[w]],
                    c.targets[w], c.final[c.targets[w]])
  {
    var before, after := CellsAt(c, t, j - 1), CellsAt(c, t, j);
    var target, decoy := c.targets[w], c.decoys[w];
    forall p | p in c.correct.Keys
      ensures UpdatedAt(before, after, decoy, c.correct[decoy], target, c.final[target], p)
    {
      PathAfterWave(c, t, j, w, p);
    }
  }

  // One value of a map with two entries replaced.
  ghost predicate UpdatedAt<K, V>(before: map<K, V>, after: map<K, V>, d: K, x: V, t: K, y: V, p: K) {
    p in before && p in after && after[p] == if p == t then y else if p == d then x else before[p]
  }

  ghost predicate Updated<K(!new), V>(keys: set<K>, before: map<K, V>, after: map<K, V>, d: K, x: V, t: K, y: V) {
    forall p :: p in keys ==> UpdatedAt(before, after, d, x, t, y, p)
  }

  lemma TwoUpdates<K(!new), V>(keys: set<K>, before: map<K, V>, after: map<K, V>, d: K, x: V, t: K, y: V)
    requires before.Keys == after.Keys == keys && d in keys && t in keys && Updated(keys, before, after, d, x, t, y)
    ensures after == before[d := x][t := y]
  {
    assert forall p :: p in keys ==> UpdatedAt(before, after, d, x, t, y, p);
  }

  lemma OnlyThisWave(t: seq<nat>, j: nat, w: nat)
    requires IsWave(t, j, w)
    ensures Applied(t, w, j) && forall v :: 0 <= v < 7 && v != w ==> (Applied(t, v, j) <==> Applied(t, v, j - 1))
  {
  }

  lemma PathAfterWave(c: Cells, t: seq<nat>, j: nat, w: nat, p: Path)
    requires FourteenPaths(c) && ValidCells(c) && IsWave(t, j, w) && p in c.correct
    ensures CellAt(c, t, j, p)
            == if p == c.targets[w] then c.final[p] else if p == c.decoys[w] then c.correct[p]
              else CellAt(c, t, j - 1, p)
  {
    OnlyThisWave(t, j, w);
  }

  // Between wave k and the next, exactly the first k targets are corrupted and the first k decoys repaired.
  lemma AfterWave(c: Cells, t: seq<nat>, k: nat, j: nat, p: Path)
    requires FourteenPaths(c) && ValidCells(c) && |t| == 7 && Increasing(t) && k <= 7 && p in c.correct
    requires (k > 0 ==> t[k - 1] <= j) && (k < 7 ==> j < t[k])
    ensures c.role[p].Target? ==> CellAt(c, t, j, p) == (if c.role[p].wave < k then c.final else c.correct)[p]
    ensures c.role[p].Decoy? ==> CellAt(c, t, j, p) == (if c.role[p].wave < k then c.correct else c.initial)[p]
    ensures c.role[p].Plain? || k == 7 ==> CellAt(c, t, j, p) == c.final[p]
  {
    assert forall w :: 0 <= w < 7 ==> (Applied(t, w, j) <==> w < k);
  }

  // The branches named at the second and at the second to last wave are partial exports: neither HEAD nor repaired.
  lemma BranchesArePartial(c: Cells, commitCount: nat, w: nat)
    requires FourteenPaths(c) && ValidCells(c) && commitCount >= 13 && w < 6
    ensures var t := Transitions(commitCount); CellsAt(c, t, t[w]) != c.final && CellsAt(c, t, t[w]) != c.correct
  {
    var t := Transitions(commitCount);
    WavesFitOrCollide(commitCount);
    var next, first := c.targets[w + 1], c.targets[0];
    AfterWave(c, t, w + 1, t[w], next);
    AfterWave(c, t, w + 1, t[w], first);
    assert CellsAt(c, t, t[w])[next] == c.correct[next] != c.final[next];
    assert CellsAt(c, t, t[w])[first] == c.final[first] != c.correct[first];
  }

  // A wave that shares its commit with an earlier one, or falls past the end, leaves its target correct.
  lemma MissedWave(c: Cells, t: seq<nat>, j: nat, w: nat)
    requires FourteenPaths(c) && ValidCells(c) && w < 7 && !Applied(t, w, j)
    ensures CellAt(c, t, j, c.targets[w]) == c.correct[c.targets[w]] != c.final[c.targets[w]]
  {
  }

  /* ---------- The texts of one commit ---------- */

  // A way of writing cells as text, and of reading the text back.
  datatype Notation = Notation(render: (Cell, nat) -> string, denote: string -> Option<Cell>, writable: Cell -> bool)

  ghost predicate Faithful(n: Notation) {
    (forall cell: Cell, v: nat :: n.writable(cell) ==> n.denote(n.render(cell, v)) == Some(cell)) &&
    (forall cell: Cell, u: nat, v: nat :: n.writable(cell) && v == u + 1 ==> n.render(cell, u) != n.render(cell, v))
  }

  ghost predicate AllWritable(n: Notation, c: Cells) {
    (forall p :: p in c.correct ==> n.writable(c.correct[p])) &&
    (forall p :: p in c.final ==> n.writable(c.final[p])) &&
    (forall p :: p in c.initial ==> n.writable(c.initial[p]))
  }

  // The text kept for every path denotes the cell the path means now.
  ghost predicate InStep(n: Notation, current: map<Path, Cell>, source: map<Path, string>) {
    current.Keys == source.Keys &&
    forall p :: p in current ==> n.writable(current[p]) && n.denote(source[p]) == Some(current[p])
  }

  lemma TurnsElsewhere(a: nat, n: nat)
    requires n > 0 && 43 % n != 0
    ensures (a + 43) % n != a % n
  {
    if (a + 43) % n == a % n {
      var x, y := (a + 43) / n, a / n;
      assert a + 43 == n * x + (a + 43) % n && a == n * y + a % n;
      Multiple(n, x - y);
    }
  }

  lemma Multiple(n: nat, m: int)
    requires n > 0 && n * m == 43
    ensures 43 % n == 0
  {
    Distribution.DivSum(if m >= 0 then m else 0, n, 0);
    assert m > 0;
  }

  // A rendering that differs from the text kept so far, by the next variant if need be.
  method RenderAnew(n: Notation, cell: Cell, variant: nat, kept: string) returns (rendered: string)
    requires Faithful(n) && n.writable(cell)
    ensures n.denote(rendered) == Some(cell) && rendered != kept
    ensures rendered == n.render(cell, variant) || rendered == n.render(cell, variant + 1)
  {
    rendered := n.render(cell, variant);
    if rendered == kept {
      rendered := n.render(cell, variant + 1);
    }
  }

  ghost predicate Enumerates(active: seq<Path>, paths: set<Path>) {
    active != [] && (forall i :: 0 <= i < |active| ==> active[i] in paths) &&
    (forall i, j :: 0 <= i < j < |active| ==> active[i] != active[j])
  }

  // The text of no path but p and q changes.
  ghost predicate RewritesOnly(before: map<Path, string>, after: map<Path, string>, paths: set<Path>, p: Path,
                               q: Path) {
    forall x :: x in paths && x != p && x != q ==> x in before && x in after && after[x] == before[x]
  }

  // One path gets a new text of its cell, in the given spelling or in the next one.
  ghost predicate Respelled(n: Notation, before: map<Path, string>, after: map<Path, string>, p: Path, cell: Cell,
                            variant: nat) {
    p in before && p in after && after[p] != before[p] &&
    (after[p] == n.render(cell, variant) || after[p] == n.render(cell, variant + 1))
  }

  // The path whose turn it is.
  function Turn17(active: seq<Path>, j: nat, offset: nat): Path
    requires active != []
  {
    active[(17 * j + 43 * offset) % |active|]
  }

  // A quiet commit respells the two paths whose turn it is and touches no other.
  ghost predicate QuietTexts(n: Notation, active: seq<Path>, j: nat, cells: map<Path, Cell>,
                             before: map<Path, string>, after: map<Path, string>) {
    active != [] &&
    var p, q := Turn17(active, j, 0), Turn17(active, j, 1);
    p in cells && q in cells && RewritesOnly(before, after, cells.Keys, p, q) &&
    (p != q ==> Respelled(n, before, after, p, cells[p], j) && Respelled(n, before, after, q, cells[q], j + 1))
  }

  // The two rotating paths of an ordinary commit, respelled so that their text really changes.
  method Respell(n: Notation, active: seq<Path>, commitIndex: nat, current: map<Path, Cell>, source: map<Path, string>)
    returns (files: map<Path, string>)
    requires Faithful(n) && InStep(n, current, source) && Enumerates(active, current.Keys)
    ensures files.Keys <= current.Keys && InStep(n, current, source + files)
    ensures QuietTexts(n, active, commitIndex, current, source, source + files)
  {
    files := map[];
    var i, j := commitIndex * 17 % |active|, (commitIndex * 17 + 43) % |active|;
    var p, q := active[i], active[j];
    assert p == Turn17(active, commitIndex, 0) && q == Turn17(active, commitIndex, 1);
    var first := RenderAnew(n, current[p], commitIndex, source[p]);
    files := map[p := first];
    var second := RenderAnew(n, current[q], commitIndex + 1, (source + files)[q]);
    files := files[q := second];
    NewTextsInStep(n, current, source, files);
  }

  lemma NewTextsInStep(n: Notation, current: map<Path, Cell>, source: map<Path, string>, files: map<Path, string>)
    requires InStep(n, current, source) && files.Keys <= current.Keys
    requires forall p :: p in files ==> n.denote(files[p]) == Some(current[p])
    ensures InStep(n, current, source + files)
  {
  }

  // Writing the texts of two cells keeps every text in step with its cell.
  lemma TwoTextsInStep(n: Notation, current: map<Path, Cell>, source: map<Path, string>,
                       p: Path, a: Cell, q: Path, b: Cell, aText: string, bText: string)
    requires InStep(n, current, source) && p in current && q in current && p != q
    requires n.writable(a) && n.writable(b) && n.denote(aText) == Some(a) && n.denote(bText) == Some(b)
    ensures InStep(n, current[p := a][q := b], source + map[p := aText, q := bText])
  {
  }

  // A wave repairs one decoy and corrupts one target.
  method RunWave(n: Notation, decoy: Path, repaired: Cell, target: Path, corrupted: Cell, commitIndex: nat,
                 current: map<Path, Cell>, source: map<Path, string>)
    returns (next: map<Path, Cell>, files: map<Path, string>)
    requires Faithful(n) && n.writable(repaired) && n.writable(corrupted)
    requires InStep(n, current, source) && decoy in current && target in current && decoy != target
    ensures next == current[decoy := repaired][target := corrupted]
    ensures InStep(n, next, source + files) && files.Keys <= current.Keys
    ensures files == map[decoy := n.render(repaired, commitIndex), target := n.render(corrupted, commitIndex + 1)]
  {
    var first, second := n.render(repaired, commitIndex), n.render(corrupted, commitIndex + 1);
    next := current[decoy := repaired][target := corrupted];
    files := map[decoy := first, target := second];
    TwoTextsInStep(n, current, source, decoy, repaired, target, corrupted, first, second);
  }

  // A wave writes its decoy and its target, in the spellings of its commit, and touches no other cell.
  ghost predicate WaveTexts(n: Notation, c: Cells, w: nat, j: nat, before: map<Path, string>, after: map<Path, string>)
    requires ValidCells(c)
  {
    w < |c.decoys| && w < |c.targets| && c.decoys[w] in c.correct && c.targets[w] in c.correct &&
    RewritesOnly(before, after, c.correct.Keys, c.decoys[w], c.targets[w]) &&
    c.decoys[w] in after && after[c.decoys[w]] == n.render(c.correct[c.decoys[w]], j) &&
    c.targets[w] in after && after[c.targets[w]] == n.render(c.final[c.targets[w]], j + 1)
  }

  // What commit j does to the texts of the cells.
  ghost predicate TextStep(n: Notation, c: Cells, t: seq<nat>, j: nat, active: seq<Path>, before: map<Path, string>,
                           after: map<Path, string>)
    requires ValidCells(c)
  {
    (j !in t ==> QuietTexts(n, active, j, CellsAt(c, t, j), before, after)) &&
    forall w :: IsWave(t, j, w) ==> WaveTexts(n, c, w, j, before, after)
  }

  // Commit j moves the cells as planned; `files` are the texts that change.
  ghost predicate PlannedStep(n: Notation, c: Cells, t: seq<nat>, j: nat, active: seq<Path>, source: map<Path, string>,
                              next: map<Path, Cell>, files: map<Path, string>)
    requires ValidCells(c)
  {
    next == CellsAt(c, t, j) && InStep(n, next, source + files) && files.Keys <= source.Keys &&
    TextStep(n, c, t, j, active, source, source + files)
  }

  lemma OneWave(t: seq<nat>, j: nat, v: nat, w: nat)
    requires IsWave(t, j, v) && IsWave(t, j, w)
    ensures v == w
  {
  }

  lemma WaveWritten(n: Notation, c: Cells, w: nat, j: nat, source: map<Path, string>, files: map<Path, string>)
    requires FourteenPaths(c) && ValidCells(c) && w < 7 && c.correct.Keys <= source.Keys
    requires var decoy, target := c.decoys[w], c.targets[w];
             files == map[decoy := n.render(c.correct[decoy], j), target := n.render(c.final[target], j + 1)]
    ensures WaveTexts(n, c, w, j, source, source + files)
  {
    assert c.decoys[w] != c.targets[w];
  }

  // The first wave planned for this commit, or 7.
  method FindWave(t: seq<nat>, commitIndex: nat) returns (w: nat)
    requires |t| == 7 && commitIndex >= 1
    ensures if commitIndex in t then IsWave(t, commitIndex, w) else w == 7
  {
    w := 0;
    while w < 7 && t[w] != commitIndex
      invariant 0 <= w <= 7 && forall v :: 0 <= v < w ==> t[v] != commitIndex
    {
      w := w + 1;
    }
  }

  // The cell files of one commit after the first: a wave's two files, or two respellings.
  method CommitCells(n: Notation, c: Cells, t: seq<nat>, active: seq<Path>, commitIndex: nat,
                     current: map<Path, Cell>, source: map<Path, string>)
    returns (next: map<Path, Cell>, files: map<Path, string>)
    requires Faithful(n) && FourteenPaths(c) && ValidCells(c) && AllWritable(n, c) && |t| == 7 && commitIndex >= 1
    requires Enumerates(active, c.correct.Keys)
    requires current == CellsAt(c, t, commitIndex - 1) && InStep(n, current, source)
    ensures PlannedStep(n, c, t, commitIndex, active, source, next, files)
  {
    assert current.Keys == c.correct.Keys;
    var w := FindWave(t, commitIndex);
    if w < 7 {
      var decoy, target := c.decoys[w], c.targets[w];
      next, files := RunWave(n, decoy, c.correct[decoy], target, c.final[target], commitIndex, current, source);
      WaveCommit(c, t, commitIndex, w);
      WaveWritten(n, c, w, commitIndex, source, files);
      forall v | IsWave(t, commitIndex, v) ensures v == w {
        OneWave(t, commitIndex, v, w);
      }
    } else {
      QuietCommit(c, t, commitIndex);
      files := Respell(n, active, commitIndex, current, source);
      next := current;
    }
  }

  /* ---------- The trees of the history ---------- */

  ghost predicate TreeDenotes(n: Notation, tree: map<Path, string>, cells: map<Path, Cell>) {
    forall p :: p in cells ==> p in tree && n.denote(tree[p]) == Some(cells[p])
  }

  // Every tree of the history denotes the cells expected at its commit.
  ghost predicate FaithfulTrees(n: Notation, c: Cells, t: seq<nat>, trees: seq<map<Path, string>>)
    requires ValidCells(c)
  {
    forall j :: 0 <= j < |trees| ==> TreeDenotes(n, trees[j], CellsAt(c, t, j))
  }

  // Every commit after the first changes the texts of the cells as planned.
  ghost predicate PlannedTexts(n: Notation, c: Cells, t: seq<nat>, active: seq<Path>, trees: seq<map<Path, string>>)
    requires ValidCells(c)
  {
    forall j :: 1 <= j < |trees| ==> TextStep(n, c, t, j, active, trees[j - 1], trees[j])
  }

  lemma TreesGrow(commits: seq<Commit>, more: Commit)
    requires commits != []
    ensures Trees(commits + [more]) == Trees(commits) + [Trees(commits)[|commits| - 1] + Written(more)]
  {
    assert (commits + [more])[..|commits|] == commits;
  }

  // The tree carries the kept source of every cell path.
  ghost predicate Carries(tree: map<Path, string>, source: map<Path, string>) {
    forall p :: p in source ==> p in tree && tree[p] == source[p]
  }

  ghost predicate RecordsElsewhere(records: seq<(Path, string)>, paths: set<Path>) {
    forall i :: 0 <= i < |records| ==> records[i].0 !in paths
  }

  lemma NextTreeCarries(tree: map<Path, string>, more: Commit, source: map<Path, string>)
    requires Carries(tree, source)
    requires more.files.Keys <= source.Keys && RecordsElsewhere(more.records, source.Keys)
    ensures Carries(tree + Written(more), source + more.files)
  {
  }

  lemma CarriedQuietTexts(n: Notation, active: seq<Path>, j: nat, cells: map<Path, Cell>, before: map<Path, string>,
                          after: map<Path, string>, source: map<Path, string>, next: map<Path, string>)
    requires cells.Keys <= source.Keys && cells.Keys <= next.Keys && Carries(before, source) && Carries(after, next)
    requires QuietTexts(n, active, j, cells, source, next)
    ensures QuietTexts(n, active, j, cells, before, after)
  {
  }

  lemma CarriedWaveTexts(n: Notation, c: Cells, w: nat, j: nat, before: map<Path, string>, after: map<Path, string>,
                         source: map<Path, string>, next: map<Path, string>)
    requires ValidCells(c) && c.correct.Keys <= source.Keys && c.correct.Keys <= next.Keys
    requires Carries(before, source) && Carries(after, next) && WaveTexts(n, c, w, j, source, next)
    ensures WaveTexts(n, c, w, j, before, after)
  {
  }

  lemma CarriedTextStep(n: Notation, c: Cells, t: seq<nat>, j: nat, active: seq<Path>, before: map<Path, string>,
                        after: map<Path, string>, source: map<Path, string>, next: map<Path, string>)
    requires ValidCells(c) && c.correct.Keys <= source.Keys && c.correct.Keys <= next.Keys
    requires Carries(before, source) && Carries(after, next) && TextStep(n, c, t, j, active, source, next)
    ensures TextStep(n, c, t, j, active, before, after)
  {
    CellsAtKeys(c, t, j);
    if j !in t {
      CarriedQuietTexts(n, active, j, CellsAt(c, t, j), before, after, source, next);
    }
    forall w | IsWave(t, j, w) ensures WaveTexts(n, c, w, j, before, after) {
      CarriedWaveTexts(n, c, w, j, before, after, source, next);
    }
  }

  lemma CarriedDenotes(n: Notation, tree: map<Path, string>, current: map<Path, Cell>, source: map<Path, string>)
    requires InStep(n, current, source) && Carries(tree, source)
    ensures TreeDenotes(n, tree, current)
  {
  }

  /* ---------- The import loop ---------- */

  // The latest tree carries texts that are in step with the cells expected after commit j.
  ghost predicate Standing(n: Notation, c: Cells, t: seq<nat>, j: nat, tree: map<Path, string>,
                           current: map<Path, Cell>, source: map<Path, string>)
    requires ValidCells(c)
  {
    current == CellsAt(c, t, j) && InStep(n, current, source) && Carries(tree, source)
  }

  // The history so far is as promised.
  ghost predicate GoodTrees(n: Notation, c: Cells, t: seq<nat>, active: seq<Path>, trees: seq<map<Path, string>>)
    requires ValidCells(c)
  {
    FaithfulTrees(n, c, t, trees) && PlannedTexts(n, c, t, active, trees) && trees != [] &&
    Carries(trees[0], InitialTexts(n, c))
  }

  function InitialTexts(n: Notation, c: Cells): map<Path, string> {
    map p | p in c.initial :: n.render(c.initial[p], 0)
  }

  // The first commit writes the core files with every cell in its initial form.
  lemma FirstCommit(n: Notation, c: Cells, t: seq<nat>, core: map<Path, string>, active: seq<Path>)
    requires Faithful(n) && ValidCells(c) && AllWritable(n, c) && forall w :: 0 <= w < |t| ==> t[w] >= 1
    ensures var commits := [Commit([], core + InitialTexts(n, c))];
            && Trees(commits) == [Written(commits[0])]
            && Standing(n, c, t, 0, Written(commits[0]), c.initial, InitialTexts(n, c))
            && GoodTrees(n, c, t, active, Trees(commits))
  {
    var commits := [Commit([], core + InitialTexts(n, c))];
    assert c.initial == CellsAt(c, t, 0);
    assert Trees(commits) == [Written(commits[0])];
    CarriedDenotes(n, Written(commits[0]), c.initial, InitialTexts(n, c));
  }

  lemma StandingStep(n: Notation, c: Cells, t: seq<nat>, j: nat, active: seq<Path>, last: map<Path, string>,
                     more: Commit, current: map<Path, Cell>, source: map<Path, string>, next: map<Path, Cell>)
    requires ValidCells(c) && j >= 1 && Standing(n, c, t, j - 1, last, current, source)
    requires PlannedStep(n, c, t, j, active, source, next, more.files)
    requires RecordsElsewhere(more.records, c.correct.Keys)
    ensures Standing(n, c, t, j, last + Written(more), next, source + more.files)
    ensures TreeDenotes(n, last + Written(more), CellsAt(c, t, j))
    ensures TextStep(n, c, t, j, active, last, last + Written(more))
  {
    var tree := last + Written(more);
    assert current.Keys == c.correct.Keys == source.Keys;
    NextTreeCarries(last, more, source);
    CarriedDenotes(n, tree, next, source + more.files);
    CarriedTextStep(n, c, t, j, active, last, tree, source, source + more.files);
  }

  lemma GoodTreesGrow(n: Notation, c: Cells, t: seq<nat>, active: seq<Path>, trees: seq<map<Path, string>>,
                      tree: map<Path, string>)
    requires ValidCells(c) && GoodTrees(n, c, t, active, trees)
    requires TreeDenotes(n, tree, CellsAt(c, t, |trees|))
    requires TextStep(n, c, t, |trees|, active, trees[|trees| - 1], tree)
    ensures GoodTrees(n, c, t, active, trees + [tree])
  {
    FaithfulTreesGrow(n, c, t, trees, tree);
    PlannedTextsGrow(n, c, t, active, trees, tree);
  }

  lemma FaithfulTreesGrow(n: Notation, c: Cells, t: seq<nat>, trees: seq<map<Path, string>>, tree: map<Path, string>)
    requires ValidCells(c) && FaithfulTrees(n, c, t, trees) && TreeDenotes(n, tree, CellsAt(c, t, |trees|))
    ensures FaithfulTrees(n, c, t, trees + [tree])
  {
    var all := trees + [tree];
    forall j | 0 <= j < |all| ensures TreeDenotes(n, all[j], CellsAt(c, t, j)) {
      assert j < |trees| ==> all[j] == trees[j];
    }
  }

  lemma PlannedTextsGrow(n: Notation, c: Cells, t: seq<nat>, active: seq<Path>, trees: seq<map<Path, string>>,
                         tree: map<Path, string>)
    requires ValidCells(c) && PlannedTexts(n, c, t, active, trees) && trees != []
    requires TextStep(n, c, t, |trees|, active, trees[|trees| - 1], tree)
    ensures PlannedTexts(n, c, t, active, trees + [tree])
  {
    var all := trees + [tree];
    forall j | 1 <= j < |all| ensures TextStep(n, c, t, j, active, all[j - 1], all[j]) {
      assert j < |trees| ==> all[j] == trees[j];
      assert all[j - 1] == trees[j - 1];
    }
  }

  function RecordBatches(commits: seq<Commit>): seq<seq<(Path, string)>> {
    seq(|commits|, k requires 0 <= k < |commits| => commits[k].records)
  }

  lemma {:induction false} FlattenAfterEmpty<T>(batches: seq<seq<T>>)
    ensures Distribution.Flatten([[]] + batches) == Distribution.Flatten(batches)
  {
    var all := [[]] + batches;
    if batches == [] {
      assert all[..0] == [];
    } else {
      assert all[..|all| - 1] == [[]] + batches[..|batches| - 1];
      FlattenAfterEmpty(batches[..|batches| - 1]);
    }
  }

  // What the generator hands to the import: cells in a faithful notation, the list of their paths, and
  // records that live elsewhere.
  ghost predicate Workspace(n: Notation, c: Cells, records: seq<(Path, string)>, active: seq<Path>) {
    Faithful(n) && FourteenPaths(c) && ValidCells(c) && AllWritable(n, c) &&
    Enumerates(active, c.correct.Keys) && RecordsElsewhere(records, c.correct.Keys)
  }

  // Beside its records a commit writes only these paths.
  ghost predicate FilesWithin(commits: seq<Commit>, paths: set<Path>) {
    forall k :: 0 <= k < |commits| ==> commits[k].files.Keys <= paths
  }

  lemma OneMoreWithin(commits: seq<Commit>, more: Commit, paths: set<Path>)
    requires FilesWithin(commits, paths) && more.files.Keys <= paths
    ensures FilesWithin(commits + [more], paths)
  {
  }

  // One commit of the loop: its share of records and its two cell files.
  method ImportCommit(n: Notation, c: Cells, t: seq<nat>, chunk: seq<(Path, string)>, active: seq<Path>,
                      commitIndex: nat, ghost last: map<Path, string>,
                      current: map<Path, Cell>, source: map<Path, string>)
    returns (commit: Commit, next: map<Path, Cell>, spelled: map<Path, string>)
    requires Faithful(n) && FourteenPaths(c) && ValidCells(c) && AllWritable(n, c) && |t| == 7
    requires Enumerates(active, c.correct.Keys) && RecordsElsewhere(chunk, c.correct.Keys)
    requires 1 <= commitIndex && Standing(n, c, t, commitIndex - 1, last, current, source)
    ensures commit.records == chunk && commit.files.Keys <= c.correct.Keys
    ensures Standing(n, c, t, commitIndex, last + Written(commit), next, spelled)
    ensures TreeDenotes(n, last + Written(commit), CellsAt(c, t, commitIndex))
    ensures TextStep(n, c, t, commitIndex, active, last, last + Written(commit))
  {
    var files;
    next, files := CommitCells(n, c, t, active, commitIndex, current, source);
    commit := Commit(chunk, files);
    spelled := source + commit.files;
    StandingStep(n, c, t, commitIndex, active, last, commit, current, source, next);
  }

  // The first commit imports no records, commit k the k-th chunk.
  ghost predicate CarriesChunks(commits: seq<Commit>, chunks: seq<seq<(Path, string)>>) {
    1 <= |commits| <= |chunks| + 1 && commits[0].records == [] &&
    forall k :: 1 <= k < |commits| ==> commits[k].records == chunks[k - 1]
  }

  lemma CarriesNext(commits: seq<Commit>, more: Commit, chunks: seq<seq<(Path, string)>>)
    requires CarriesChunks(commits, chunks) && |commits| <= |chunks| && more.records == chunks[|commits| - 1]
    ensures CarriesChunks(commits + [more], chunks)
  {
  }

  // The commits written so far, the trees they make, and everything promised about both.
  ghost predicate SoFarAsPromised(n: Notation, c: Cells, t: seq<nat>, chunks: seq<seq<(Path, string)>>,
                                 active: seq<Path>, commits: seq<Commit>, last: map<Path, string>)
    requires ValidCells(c)
  {
    CarriesChunks(commits, chunks) && last == Trees(commits)[|commits| - 1] &&
    GoodTrees(n, c, t, active, Trees(commits))
  }

  lemma WriteNext(n: Notation, c: Cells, t: seq<nat>, chunks: seq<seq<(Path, string)>>, active: seq<Path>,
                  commits: seq<Commit>, last: map<Path, string>, more: Commit)
    requires ValidCells(c) && SoFarAsPromised(n, c, t, chunks, active, commits, last) && |commits| <= |chunks|
    requires more.records == chunks[|commits| - 1]
    requires TreeDenotes(n, last + Written(more), CellsAt(c, t, |commits|))
    requires TextStep(n, c, t, |commits|, active, last, last + Written(more))
    ensures SoFarAsPromised(n, c, t, chunks, active, commits + [more], last + Written(more))
  {
    TreesGrow(commits, more);
    GoodTreesGrow(n, c, t, active, Trees(commits), last + Written(more));
    CarriesNext(commits, more, chunks);
  }

  // The loop over the commits, each with the chunk of records that falls to it.
  method ImportCommits(n: Notation, c: Cells, t: seq<nat>, core: map<Path, string>,
                       chunks: seq<seq<(Path, string)>>, active: seq<Path>)
    returns (commits: seq<Commit>, current: map<Path, Cell>, ghost last: map<Path, string>)
    requires Faithful(n) && FourteenPaths(c) && ValidCells(c) && AllWritable(n, c) && |t| == 7
    requires Enumerates(active, c.correct.Keys)
    requires forall k :: 0 <= k < |chunks| ==> RecordsElsewhere(chunks[k], c.correct.Keys)
    requires forall w :: 0 <= w < 7 ==> t[w] >= 1
    ensures |commits| == |chunks| + 1 && SoFarAsPromised(n, c, t, chunks, active, commits, last)
    ensures current == CellsAt(c, t, |chunks|) && FilesWithin(commits, core.Keys + c.correct.Keys)
  {
    commits := [Commit([], core + InitialTexts(n, c))];
    current := c.initial;
    var source := InitialTexts(n, c);
    last := Written(commits[0]);
    FirstCommit(n, c, t, core, active);
    for commitIndex := 1 to |chunks| + 1
      invariant |commits| == commitIndex && SoFarAsPromised(n, c, t, chunks, active, commits, last)
      invariant Standing(n, c, t, commitIndex - 1, last, current, source)
      invariant FilesWithin(commits, core.Keys + c.correct.Keys)
    {
      var commit;
      commit, current, source := ImportCommit(n, c, t, chunks[commitIndex - 1], active, commitIndex, last, current,
                                              source);
      WriteNext(n, c, t, chunks, active, commits, last, commit);
      OneMoreWithin(commits, commit, core.Keys + c.correct.Keys);
      last := last + Written(commit);
      commits := commits + [commit];
    }
  }

  // What the import promises about the commits it writes.
  ghost predicate ImportedHistory(n: Notation, c: Cells, t: seq<nat>, records: seq<(Path, string)>,
                                  commits: seq<Commit>, active: seq<Path>)
    requires ValidCells(c)
  {
    commits != [] &&
    GoodTrees(n, c, t, active, Trees(commits)) &&
    TreeDenotes(n, Trees(commits)[|commits| - 1], c.final) &&
    Distribution.Flatten(RecordBatches(commits)) == records
  }

  lemma AllRecordsImported(commits: seq<Commit>, chunks: seq<seq<(Path, string)>>)
    requires CarriesChunks(commits, chunks) && |commits| == |chunks| + 1
    ensures Distribution.Flatten(RecordBatches(commits)) == Distribution.Flatten(chunks)
  {
    assert RecordBatches(commits) == [[]] + chunks;
    FlattenAfterEmpty(chunks);
  }

  lemma FinishedHistory(n: Notation, c: Cells, t: seq<nat>, chunks: seq<seq<(Path, string)>>, active: seq<Path>,
                        commits: seq<Commit>, last: map<Path, string>, records: seq<(Path, string)>)
    requires ValidCells(c) && |commits| == |chunks| + 1
    requires SoFarAsPromised(n, c, t, chunks, active, commits, last)
    requires CellsAt(c, t, |chunks|) == c.final && Distribution.Flatten(chunks) == records
    ensures ImportedHistory(n, c, t, records, commits, active)
  {
    AllRecordsImported(commits, chunks);
  }

  lemma BothElsewhere(a: seq<(Path, string)>, b: seq<(Path, string)>, paths: set<Path>)
    requires RecordsElsewhere(a + b, paths)
    ensures RecordsElsewhere(a, paths) && RecordsElsewhere(b, paths)
  {
    forall k | 0 <= k < |a| ensures a[k].0 !in paths {
      assert (a + b)[k] == a[k];
    }
    forall k | 0 <= k < |b| ensures b[k].0 !in paths {
      assert (a + b)[|a| + k] == b[k];
    }
  }

  lemma {:induction false} ChunksElsewhere(chunks: seq<seq<(Path, string)>>, paths: set<Path>)
    requires RecordsElsewhere(Distribution.Flatten(chunks), paths)
    ensures forall k :: 0 <= k < |chunks| ==> RecordsElsewhere(chunks[k], paths)
  {
    if chunks != [] {
      var n := |chunks| - 1;
      BothElsewhere(Distribution.Flatten(chunks[..n]), chunks[n], paths);
      ChunksElsewhere(chunks[..n], paths);
      forall k | 0 <= k < |chunks| ensures RecordsElsewhere(chunks[k], paths) {
        assert k < n ==> chunks[..n][k] == chunks[k];
      }
    }
  }

  // The import succeeds exactly when the file plan adds up and there are at least thirteen commits; then every
  // tree means what its wave count says, quiet commits only respell, and every record is imported once, in order.
  // The chunks of records do not depend on the cells, so they are cut before the loop over the commits.
  method ImportDeadLetter(n: Notation, c: Cells, core: map<Path, string>, records: seq<(Path, string)>,
                          active: seq<Path>, fileCount: nat, commitCount: nat)
    returns (r: Result<seq<Commit>>)
    requires Workspace(n, c, records, active)
    ensures r.Success? <==> |core + InitialTexts(n, c)| + |records| == fileCount && commitCount >= 13
    ensures r.Success? ==>
              && |r.value| == commitCount
              && ImportedHistory(n, c, Transitions(commitCount), records, r.value, active)
              && FilesWithin(r.value, core.Keys + c.correct.Keys)
  {
    if |core + InitialTexts(n, c)| + |records| != fileCount {
      return Failure("dead-letter file plan mismatch");
    }
    var chunks, converged := Distribution.FloorBatches(records, commitCount);
    if !converged || commitCount == 0 {
      return Failure("dead-letter history distribution did not converge");
    }
    ChunksElsewhere(chunks, c.correct.Keys);
    WavesFitOrCollide(commitCount);
    var ready, commits := ImportChunks(n, c, Transitions(commitCount), core, chunks, active, records);
    if !ready {
      return Failure("target transition missing or historical decoy not repaired");
    }
    return Success(commits);
  }

  // The commits for these chunks, and whether the final checks on targets and decoys pass.
  method ImportChunks(n: Notation, c: Cells, t: seq<nat>, core: map<Path, string>, chunks: seq<seq<(Path, string)>>,
                      active: seq<Path>, ghost records: seq<(Path, string)>)
    returns (ready: bool, commits: seq<Commit>)
    requires Faithful(n) && FourteenPaths(c) && ValidCells(c) && AllWritable(n, c) && Enumerates(active, c.correct.Keys)
    requires forall k :: 0 <= k < |chunks| ==> RecordsElsewhere(chunks[k], c.correct.Keys)
    requires Distribution.Flatten(chunks) == records
    requires |t| == 7 && ((Increasing(t) && t[6] <= |chunks|) || t[0] == t[1]) && forall w :: 0 <= w < 7 ==> t[w] >= 1
    ensures |commits| == |chunks| + 1 && (ready <==> t[0] != t[1])
    ensures ready ==> ImportedHistory(n, c, t, records, commits, active)
    ensures FilesWithin(commits, core.Keys + c.correct.Keys)
  {
    var current;
    ghost var last;
    commits, current, last := ImportCommits(n, c, t, core, chunks, active);
    ready := WavesArrived(c, t, |chunks|, current);
    if ready {
      FinishedHistory(n, c, t, chunks, active, commits, last, records);
    }
  }

  // The final checks of the import: every target shipped as planned, every decoy repaired.
  method WavesArrived(c: Cells, t: seq<nat>, last: nat, current: map<Path, Cell>) returns (ready: bool)
    requires FourteenPaths(c) && ValidCells(c) && |t| == 7 && current == CellsAt(c, t, last)
    requires (Increasing(t) && t[6] <= last) || t[0] == t[1]
    ensures ready <==> t[0] != t[1]
    ensures ready ==> current == c.final
  {
    for w := 0 to 7
      invariant t[0] == t[1] ==> w <= 1
    {
      if t[0] != t[1] {
        AfterWave(c, t, 7, last, c.targets[w]);
      } else if w == 1 {
        MissedWave(c, t, last, 1);
      }
      if current[c.targets[w]] != c.final[c.targets[w]] {
        return false;
      }
    }
    forall p | p in c.correct ensures current[p] == c.final[p] {
      AfterWave(c, t, 7, last, p);
    }
    for w := 0 to 7 {
      if current[c.decoys[w]] != c.correct[c.decoys[w]] {
        return false;
      }
    }
    return true;
  }
}

// The history written in the notation of cell_source.
module RelayHistoryText {
  import opened Wrappers
  import opened RelayCells
  import opened CellSource
  import opened RelayHistory

  // The notation of cell_source is faithful for every cell whose seal holds no quote.
  lemma CellTextIsFaithful(n: Notation)
    requires n.render == CellText && n.denote == CellOf && n.writable == ((cell: Cell) => '\"' !in cell.seal)
    ensures Faithful(n)
  {
    forall cell: Cell, v: nat | n.writable(cell) ensures n.denote(n.render(cell, v)) == Some(cell) {
      TextDenotesCell(cell, v);
    }
    forall cell: Cell, u: nat, v: nat | n.writable(cell) && v == u + 1
      ensures n.render(cell, u) != n.render(cell, v)
    {
      NextVariantDiffers(cell, u);
    }
  }
}
