// Which texts the quiet commits of the relay history change: two at a time, other ones each time, and all in turn.
module RelayRotation {
  import opened Wrappers
  import opened RelayCells
  import opened RelayHistory
  import Distribution

  /* ---------- Remainders ---------- */

  lemma RemainderIs(x: nat, n: nat, q: nat, r: nat)
    requires n > 0 && x == q * n + r && r < n
    ensures x % n == r
  {
    assert q * n >= 0;
    Distribution.QuotientIs(x, n, q);
    Distribution.Euclid(x, n);
  }

  // Going on by d comes back to the same place exactly if d is a number of whole rounds.
  lemma Shifted(a: nat, d: nat, n: nat)
    requires n > 0
    ensures (a + d) % n == a % n <==> d % n == 0
  {
    Distribution.Euclid(a, n);
    Distribution.Euclid(d, n);
    var q, p, r, e := a / n, d / n, a % n, d % n;
    assert (q + p) * n == q * n + p * n && (q + p + 1) * n == q * n + p * n + n;
    if r + e < n {
      RemainderIs(a + d, n, q + p, r + e);
    } else {
      RemainderIs(a + d, n, q + p + 1, r + e - n);
    }
  }

  lemma CommonRounds(n: nat)
    requires n > 0 && 26 % n == 0 && 60 % n == 0
    ensures n <= 2
  {
    Shifted(26, 34, n);
    Shifted(26, 8, n);
    Shifted(8, 18, n);
    Shifted(8, 10, n);
    Shifted(8, 2, n);
  }

  // 17 v + ... : what must be taken times n to make one less than a multiple of 17.
  function Lift(r: nat): nat {
    match r
    case 1 => 16
    case 2 => 8
    case 3 => 11
    case 4 => 4
    case 5 => 10
    case 6 => 14
    case 7 => 12
    case 8 => 2
    case 9 => 15
    case 10 => 5
    case 11 => 3
    case 12 => 7
    case 13 => 13
    case 14 => 6
    case 15 => 9
    case _ => 1
  }

  lemma LiftFits(r: nat)
    requires 1 <= r < 17
    ensures (r * Lift(r) + 1) % 17 == 0
  {
  }

  // Without a common factor, 17 has an inverse in rounds of n.
  lemma InverseOf17(n: nat) returns (u: nat, v: nat)
    requires n > 0 && n % 17 != 0
    ensures 17 * u == v * n + 1
  {
    var q, r := n / 17, n % 17;
    v := Lift(r);
    LiftFits(r);
    u := q * v + (r * v + 1) / 17;
    assert n == 17 * q + r;
    assert v * n == 17 * (q * v) + r * v by {
      assert v * (17 * q + r) == v * (17 * q) + v * r;
    }
  }

  // Among any n consecutive numbers one times 17 has a given remainder.
  lemma SomeTurn(a: nat, n: nat, k: nat) returns (j: nat)
    requires n % 17 != 0 && k < n
    ensures a <= j < a + n && (17 * j) % n == k
  {
    var u, v := InverseOf17(n);
    var x := k * u;
    // The place of x among a .. a + n, by its distance in rounds.
    var rounds := a + 1;
    var d := (x + rounds * n - a) % n;
    assert rounds * n >= rounds by { Distribution.MulMonotone(1, n, rounds); }
    j := a + d;
    Distribution.Euclid(x + rounds * n - a, n);
    TurnOf(j, n, k, u, v, rounds, (x + rounds * n - a) / n);
  }

  lemma TurnOf(j: nat, n: nat, k: nat, u: nat, v: nat, up: nat, down: nat)
    requires n > 0 && k < n && 17 * u == v * n + 1 && j + down * n == k * u + up * n
    ensures (17 * j) % n == k
  {
    assert 17 * (k * u) == k * (17 * u) == k * (v * n + 1);
    assert k * (v * n + 1) == k * (v * n) + k && k * (v * n) == k * v * n;
    assert 17 * j + 17 * (down * n) == 17 * (k * u) + 17 * (up * n);
    assert 17 * (down * n) == 17 * down * n && 17 * (up * n) == 17 * up * n;
    assert (k * v + 17 * up) * n == k * v * n + 17 * up * n;
    TurnRemainder(17 * j, n, k, k * v + 17 * up, 17 * down);
  }

  lemma TurnRemainder(x: nat, n: nat, k: nat, up: nat, down: nat)
    requires n > 0 && k < n && x + down * n == up * n + k
    ensures x % n == k
  {
    if up < down {
      Distribution.MulMonotone(up + 1, down, n);
      Distribution.NextMultiple(up, n);
    }
    assert (up - down) * n == up * n - down * n;
    RemainderIs(x, n, up - down, k);
  }

  /* ---------- The texts a commit changes ---------- */

  ghost function Changed(before: map<Path, string>, after: map<Path, string>, paths: set<Path>): set<Path> {
    set x | x in paths && !(x in before && x in after && before[x] == after[x])
  }

  lemma DifferentTurns(active: seq<Path>, paths: set<Path>, i: nat, d: nat)
    requires Enumerates(active, paths)
    ensures var n := |active|; active[(i + d) % n] == active[i % n] <==> d % n == 0
  {
    Shifted(i, d, |active|);
  }

  // A quiet commit changes the texts of exactly the two paths whose turn it is.
  lemma QuietCommitsChangeTwo(n: Notation, active: seq<Path>, j: nat, cells: map<Path, Cell>,
                              before: map<Path, string>, after: map<Path, string>)
    requires Enumerates(active, cells.Keys) && 43 % |active| != 0 && QuietTexts(n, active, j, cells, before, after)
    ensures Turn17(active, j, 0) != Turn17(active, j, 1)
    ensures Changed(before, after, cells.Keys) == {Turn17(active, j, 0), Turn17(active, j, 1)}
  {
    DifferentTurns(active, cells.Keys, 17 * j, 43);
  }

  // The two paths of one commit are those of the next one exactly in rounds of 17, of one or of two paths.
  lemma NextPairDiffersIff(active: seq<Path>, paths: set<Path>, j: nat)
    requires Enumerates(active, paths) && 43 % |active| != 0
    ensures {Turn17(active, j, 0), Turn17(active, j, 1)} != {Turn17(active, j + 1, 0), Turn17(active, j + 1, 1)}
            <==> 17 % |active| != 0 && |active| > 2
  {
    var n, i := |active|, 17 * j;
    var p, q := active[i % n], active[(i + 43) % n];
    var p', q' := active[(i + 17) % n], active[(i + 60) % n];
    assert Turn17(active, j, 0) == p && Turn17(active, j, 1) == q;
    assert Turn17(active, j + 1, 0) == p' && Turn17(active, j + 1, 1) == q';
    DifferentTurns(active, paths, i, 43);
    DifferentTurns(active, paths, i, 17);
    DifferentTurns(active, paths, i, 60);
    DifferentTurns(active, paths, i + 43, 17);
    DifferentTurns(active, paths, i + 17, 26);
    if 60 % n == 0 && 26 % n == 0 {
      CommonRounds(n);
    }
    PairsEqual(p, q, p', q');
    if n == 2 {
      assert 17 % 2 == 1 && 60 % 2 == 0 && 26 % 2 == 0;
    }
  }

  lemma PairsEqual<T>(p: T, q: T, p': T, q': T)
    ensures {p, q} == {p', q'} <==> (p == p' && q == q') || (p == q' && q == p') || (p == q == p' == q')
  {
    assert p in {p, q} && q in {p, q} && p' in {p', q'} && q' in {p', q'};
  }

  /* ---------- On the trees of an import ---------- */

  lemma QuietStep(n: Notation, c: Cells, t: seq<nat>, active: seq<Path>, trees: seq<map<Path, string>>, j: nat)
    requires ValidCells(c) && PlannedTexts(n, c, t, active, trees) && 1 <= j < |trees| && j !in t
    ensures CellsAt(c, t, j).Keys == c.correct.Keys
    ensures QuietTexts(n, active, j, CellsAt(c, t, j), trees[j - 1], trees[j])
  {
    CellsAtKeys(c, t, j);
    assert TextStep(n, c, t, j, active, trees[j - 1], trees[j]);
  }

  lemma TreesChangeTwo(n: Notation, c: Cells, t: seq<nat>, active: seq<Path>, trees: seq<map<Path, string>>, j: nat)
    requires ValidCells(c) && PlannedTexts(n, c, t, active, trees) && Enumerates(active, c.correct.Keys)
    requires 43 % |active| != 0 && 1 <= j < |trees| && j !in t
    ensures Turn17(active, j, 0) != Turn17(active, j, 1)
    ensures Changed(trees[j - 1], trees[j], c.correct.Keys) == {Turn17(active, j, 0), Turn17(active, j, 1)}
  {
    QuietStep(n, c, t, active, trees, j);
    QuietCommitsChangeTwo(n, active, j, CellsAt(c, t, j), trees[j - 1], trees[j]);
  }

  // Two quiet commits in a row change the texts of different pairs of paths.
  lemma QuietCommitsTakeTurns(n: Notation, c: Cells, t: seq<nat>, active: seq<Path>, trees: seq<map<Path, string>>,
                              j: nat)
    requires ValidCells(c) && PlannedTexts(n, c, t, active, trees) && Enumerates(active, c.correct.Keys)
    requires 43 % |active| != 0 && 17 % |active| != 0 && |active| > 2
    requires 1 <= j < |trees| - 1 && j !in t && j + 1 !in t
    ensures |Changed(trees[j - 1], trees[j], c.correct.Keys)| == 2
    ensures Changed(trees[j - 1], trees[j], c.correct.Keys) != Changed(trees[j], trees[j + 1], c.correct.Keys)
  {
    TreesChangeTwo(n, c, t, active, trees, j);
    TreesChangeTwo(n, c, t, active, trees, j + 1);
    NextPairDiffersIff(active, c.correct.Keys, j);
  }

  // As many quiet commits in a row as there are paths change the text of every path, when 17 does not divide their
  // number.
  lemma EveryPathHasItsTurn(n: Notation, c: Cells, t: seq<nat>, active: seq<Path>, trees: seq<map<Path, string>>,
                            first: nat, k: nat) returns (j: nat)
    requires ValidCells(c) && PlannedTexts(n, c, t, active, trees) && Enumerates(active, c.correct.Keys)
    requires 43 % |active| != 0 && |active| % 17 != 0 && k < |active|
    requires 1 <= first && first + |active| <= |trees| && forall i :: first <= i < first + |active| ==> i !in t
    ensures first <= j < first + |active| && active[k] in Changed(trees[j - 1], trees[j], c.correct.Keys)
  {
    j := SomeTurn(first, |active|, k);
    TreesChangeTwo(n, c, t, active, trees, j);
    assert Turn17(active, j, 0) == active[k];
  }

  // A wave changes no text but those of its decoy and its target.
  lemma WavesChangeTwo(n: Notation, c: Cells, t: seq<nat>, active: seq<Path>, trees: seq<map<Path, string>>, j: nat,
                       w: nat)
    requires ValidCells(c) && PlannedTexts(n, c, t, active, trees) && 1 <= j < |trees| && IsWave(t, j, w)
    ensures w < |c.decoys| && w < |c.targets|
    ensures Changed(trees[j - 1], trees[j], c.correct.Keys) <= {c.decoys[w], c.targets[w]}
  {
    assert TextStep(n, c, t, j, active, trees[j - 1], trees[j]);
    assert WaveTexts(n, c, w, j, trees[j - 1], trees[j]);
  }

  /* ---------- The rotation of a whole history ---------- */

  ghost predicate Quiet(t: seq<nat>, trees: seq<map<Path, string>>, j: nat) {
    1 <= j < |trees| && j !in t
  }

  ghost predicate AllQuiet(t: seq<nat>, trees: seq<map<Path, string>>, first: nat, count: nat) {
    1 <= first && first + count <= |trees| && forall i :: first <= i < first + count ==> i !in t
  }

  // Some commit from `first` on changes the text of p.
  ghost predicate ChangesSoon(trees: seq<map<Path, string>>, paths: set<Path>, first: nat, count: nat, p: Path) {
    exists j :: (1 <= j < |trees| && first <= j < first + count && p in Changed(trees[j - 1], trees[j], paths))
  }

  // Every quiet commit changes two texts, the next one two others, and as many as there are paths change them all.
  ghost predicate Rotates(t: seq<nat>, trees: seq<map<Path, string>>, paths: set<Path>, count: nat) {
    (forall j: nat :: Quiet(t, trees, j) ==> |Changed(trees[j - 1], trees[j], paths)| == 2) &&
    (forall j: nat :: Quiet(t, trees, j) && Quiet(t, trees, j + 1) ==>
       Changed(trees[j - 1], trees[j], paths) != Changed(trees[j], trees[j + 1], paths)) &&
    forall first: nat, p :: AllQuiet(t, trees, first, count) && p in paths ==>
      ChangesSoon(trees, paths, first, count, p)
  }

  lemma HistoryRotates(n: Notation, c: Cells, t: seq<nat>, active: seq<Path>, trees: seq<map<Path, string>>)
    requires ValidCells(c) && PlannedTexts(n, c, t, active, trees) && Enumerates(active, c.correct.Keys)
    requires forall p :: p in c.correct ==> p in active
    requires 43 % |active| != 0 && |active| % 17 != 0 && 17 % |active| != 0 && |active| > 2
    ensures Rotates(t, trees, c.correct.Keys, |active|)
  {
    forall j: nat | Quiet(t, trees, j) ensures |Changed(trees[j - 1], trees[j], c.correct.Keys)| == 2 {
      TreesChangeTwo(n, c, t, active, trees, j);
    }
    forall j: nat | Quiet(t, trees, j) && Quiet(t, trees, j + 1)
      ensures Changed(trees[j - 1], trees[j], c.correct.Keys) != Changed(trees[j], trees[j + 1], c.correct.Keys)
    {
      QuietCommitsTakeTurns(n, c, t, active, trees, j);
    }
    forall first: nat, p | AllQuiet(t, trees, first, |active|) && p in c.correct.Keys
      ensures ChangesSoon(trees, c.correct.Keys, first, |active|, p)
    {
      var k :| 0 <= k < |active| && active[k] == p;
      var j := EveryPathHasItsTurn(n, c, t, active, trees, first, k);
    }
  }
}
