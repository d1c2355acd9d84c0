// From the built bundle to its history: the five chains laid out on paths make a workspace for the import, so the
// history of the generated workspace is what git replays.
module RelayWorkspace {
  import opened Wrappers
  import opened TextOrder
  import opened FastImport
  import opened FastImportWriter
  import opened FastImportReplay
  import opened RelayCells
  import opened RelayFaults
  import opened RelayBundle
  import RelayCheckpoints
  import CellSource
  import RelayHistory
  import RelayHistoryText
  import RelayRotation
  import RelayRepository

  /* ---------- The chains one behind the other ---------- */

  const TOTAL := 704

  function Offset(name: Namespace): nat {
    match name
    case Query => 0
    case Lanes => 96
    case Policy => 352
    case Routing => 480
    case Codec => 576
  }

  function PlanOf(b: Bundle, name: Namespace): Plan {
    match name
    case Query => b.query
    case Lanes => b.lanes
    case Policy => b.policy
    case Routing => b.routing
    case Codec => b.codec
  }

  type Pick = Plan -> seq<Cell>

  function Flat(b: Bundle, pick: Pick): seq<Cell> {
    pick(b.query) + pick(b.lanes) + pick(b.policy) + pick(b.routing) + pick(b.codec)
  }

  const Correct: Pick := (plan: Plan) => plan.correct
  const Final: Pick := (plan: Plan) => plan.final
  const Initial: Pick := (plan: Plan) => plan.initial

  // A pick gives as many cells as the chain has.
  ghost predicate Fits(b: Bundle, pick: Pick) {
    forall name: Namespace :: |pick(PlanOf(b, name))| == Config(name).count
  }

  lemma PicksFit(b: Bundle)
    requires BuiltBundle(b)
    ensures Fits(b, Correct) && Fits(b, Final) && Fits(b, Initial)
  {
    forall name: Namespace ensures Built(name, PlanOf(b, name)) {
      PlanIsBuilt(b, name);
    }
  }

  lemma PlanIsBuilt(b: Bundle, name: Namespace)
    requires BuiltBundle(b)
    ensures Built(name, PlanOf(b, name))
  {
  }

  lemma FiveParts(a: seq<Cell>, b: seq<Cell>, c: seq<Cell>, d: seq<Cell>, e: seq<Cell>)
    requires |a| == 96 && |b| == 256 && |c| == 128 && |d| == 96 && |e| == 128
    ensures var all := a + b + c + d + e;
            && |all| == TOTAL && all[..96] == a && all[96..352] == b && all[352..480] == c && all[480..576] == d
            && all[576..] == e
  {
  }

  lemma FlatLength(b: Bundle, pick: Pick)
    requires Fits(b, pick)
    ensures |Flat(b, pick)| == TOTAL
  {
    assert |pick(PlanOf(b, Query))| == 96 && |pick(PlanOf(b, Lanes))| == 256 && |pick(PlanOf(b, Policy))| == 128;
    assert |pick(PlanOf(b, Routing))| == 96 && |pick(PlanOf(b, Codec))| == 128;
  }

  lemma FlatAt(b: Bundle, pick: Pick, name: Namespace, k: nat)
    requires Fits(b, pick) && k < Config(name).count
    ensures |Flat(b, pick)| == TOTAL && Offset(name) + k < TOTAL
    ensures k < |pick(PlanOf(b, name))| && Flat(b, pick)[Offset(name) + k] == pick(PlanOf(b, name))[k]
  {
    FlatLength(b, pick);
    assert |pick(PlanOf(b, Query))| == 96 && |pick(PlanOf(b, Lanes))| == 256 && |pick(PlanOf(b, Policy))| == 128;
    assert |pick(PlanOf(b, Routing))| == 96 && |pick(PlanOf(b, Codec))| == 128;
    FiveParts(pick(b.query), pick(b.lanes), pick(b.policy), pick(b.routing), pick(b.codec));
    var all := Flat(b, pick);
    match name
    case Query => assert all[..96][k] == all[k];
    case Lanes => assert all[96..352][k] == all[96 + k];
    case Policy => assert all[352..480][k] == all[352 + k];
    case Routing => assert all[480..576][k] == all[480 + k];
    case Codec => assert all[576..][k] == all[576 + k];
  }

  // The chain and the place in it of every cell.
  lemma Locate(i: nat) returns (name: Namespace, k: nat)
    requires i < TOTAL
    ensures k < Config(name).count && i == Offset(name) + k
  {
    name := if i < 96 then Query else if i < 352 then Lanes else if i < 480 then Policy else if i < 576 then Routing
            else Codec;
    k := i - Offset(name);
  }

  /* ---------- Targets and decoys ---------- */

  const TARGETS: seq<nat> := [37, 137, 289, 411, 497, 605, 685]
  const DECOYS: seq<nat> := [73, 180, 314, 453, 548, 630, 693]

  // The lists hold exactly the configured targets and decoys.
  lemma ConfiguredPlaces(name: Namespace, k: nat)
    requires k < Config(name).count
    ensures Offset(name) + k in TARGETS <==> k in Config(name).targets
    ensures Offset(name) + k in DECOYS <==> k in Config(name).decoys
  {
  }

  lemma PlanDiffers(name: Namespace, plan: Plan, k: nat)
    requires Built(name, plan) && k < Config(name).count
    ensures plan.final[k] != plan.correct[k] <==> k in Config(name).targets
    ensures k !in Config(name).decoys ==> plan.initial[k] == plan.correct[k]
  {
    if k in Config(name).targets {
      RelayCheckpoints.CorruptedCellChangesMeaning(name, plan, k);
    }
  }

  // The shipped cells differ at the targets, and the initial ones at decoys only.
  ghost predicate DiffersAt(b: Bundle, i: nat)
    requires |Flat(b, Correct)| == |Flat(b, Final)| == |Flat(b, Initial)| == TOTAL && i < TOTAL
  {
    (Flat(b, Final)[i] != Flat(b, Correct)[i] <==> i in TARGETS) &&
    (i !in DECOYS ==> Flat(b, Initial)[i] == Flat(b, Correct)[i])
  }

  lemma FlatDiffers(b: Bundle, i: nat)
    requires BuiltBundle(b) && i < TOTAL
    ensures |Flat(b, Correct)| == |Flat(b, Final)| == |Flat(b, Initial)| == TOTAL && DiffersAt(b, i)
  {
    PicksFit(b);
    var name, k := Locate(i);
    FlatAt(b, Correct, name, k);
    FlatAt(b, Final, name, k);
    FlatAt(b, Initial, name, k);
    ConfiguredPlaces(name, k);
    PlanIsBuilt(b, name);
    PlanDiffers(name, PlanOf(b, name), k);
  }

  /* ---------- Lists of paths ---------- */

  ghost predicate Different(s: seq<string>) {
    forall i, j :: 0 <= i < j < |s| ==> s[i] != s[j]
  }

  const Itself: string -> string := path => path

  // sorted(...)
  function Sorted(s: seq<string>): seq<string> {
    SortBy(Itself, s)
  }

  lemma SortedPaths(s: seq<string>)
    requires Different(s)
    ensures |Sorted(s)| == |s| && Different(Sorted(s)) && SameElements(Sorted(s), s) && Ascending(Itself, Sorted(s))
  {
    SortLength(Itself, s);
    SortIsAscending(Itself, s);
    forall i, j | 0 <= i < j < |Sorted(s)| ensures Sorted(s)[i] != Sorted(s)[j] {
      TextOrderIsTotal(Sorted(s)[i], Sorted(s)[j]);
    }
  }

  function PathsAt(paths: seq<string>, list: seq<nat>): seq<string>
    requires |paths| == TOTAL && forall w :: 0 <= w < |list| ==> list[w] < TOTAL
  {
    seq(|list|, w requires 0 <= w < |list| => paths[list[w]])
  }

  lemma PathsAtAre(paths: seq<string>, list: seq<nat>, i: nat)
    requires |paths| == TOTAL && Different(paths) && (forall w :: 0 <= w < |list| ==> list[w] < TOTAL) && i < TOTAL
    ensures paths[i] in PathsAt(paths, list) <==> i in list
  {
    if i in list {
      var w :| 0 <= w < |list| && list[w] == i;
      assert PathsAt(paths, list)[w] == paths[i];
    }
  }

  // The waves take the paths of their list in sorted order.
  lemma WavePaths(paths: seq<string>, list: seq<nat>)
    requires |paths| == TOTAL && Different(paths) && forall w :: 0 <= w < |list| ==> list[w] < TOTAL
    requires forall v, w :: 0 <= v < w < |list| ==> list[v] != list[w]
    ensures var waves := Sorted(PathsAt(paths, list)); |waves| == |list| && Different(waves)
    ensures forall i :: 0 <= i < TOTAL ==> (paths[i] in Sorted(PathsAt(paths, list)) <==> i in list)
    ensures Ascending(Itself, Sorted(PathsAt(paths, list)))
  {
    SortedPaths(PathsAt(paths, list));
    forall i | 0 <= i < TOTAL ensures paths[i] in Sorted(PathsAt(paths, list)) <==> i in list {
      PathsAtAre(paths, list, i);
    }
  }

  // The place of a path in a list.
  function WaveIn(list: seq<string>, path: string): Option<nat> {
    if list == [] then None
    else if list[|list| - 1] == path then Some(|list| - 1)
    else WaveIn(list[..|list| - 1], path)
  }

  lemma {:induction false} WaveInMeans(list: seq<string>, path: string)
    ensures match WaveIn(list, path)
            case None => path !in list
            case Some(w) => w < |list| && list[w] == path
  {
    if list != [] && list[|list| - 1] != path {
      WaveInMeans(list[..|list| - 1], path);
    }
  }

  function RoleIn(targets: seq<string>, decoys: seq<string>, path: string): RelayHistory.Role {
    match WaveIn(targets, path)
    case Some(w) => RelayHistory.Target(w)
    case None => match WaveIn(decoys, path) case Some(w) => RelayHistory.Decoy(w) case None => RelayHistory.Plain
  }

  lemma RoleMeans(targets: seq<string>, decoys: seq<string>, path: string)
    ensures match RoleIn(targets, decoys, path)
            case Target(w) => w < |targets| && path == targets[w]
            case Decoy(w) => w < |decoys| && path == decoys[w] && path !in targets
            case Plain => path !in targets && path !in decoys
  {
    WaveInMeans(targets, path);
    WaveInMeans(decoys, path);
  }

  lemma RolesFit(targets: seq<string>, decoys: seq<string>, w: nat)
    requires Different(targets) && Different(decoys) && w < |targets| == |decoys|
    requires forall p :: p in targets ==> p !in decoys
    ensures RoleIn(targets, decoys, targets[w]) == RelayHistory.Target(w)
    ensures RoleIn(targets, decoys, decoys[w]) == RelayHistory.Decoy(w)
  {
    assert targets[w] in targets && decoys[w] in decoys;
    WaveInMeans(targets, targets[w]);
    WaveInMeans(targets, decoys[w]);
    WaveInMeans(decoys, decoys[w]);
  }

  /* ---------- Cells by path ---------- */

  function ByPath<V>(paths: seq<string>, values: seq<V>): (m: map<string, V>)
    requires |values| == |paths| && Different(paths)
    ensures forall p :: p in m <==> p in paths
    ensures forall i :: 0 <= i < |paths| ==> m[paths[i]] == values[i]
  {
    map i | 0 <= i < |paths| :: paths[i] := values[i]
  }

  function Roles(paths: seq<string>, targets: seq<string>, decoys: seq<string>): seq<RelayHistory.Role> {
    seq(|paths|, i requires 0 <= i < |paths| => RoleIn(targets, decoys, paths[i]))
  }

  function TargetPaths(paths: seq<string>): seq<string>
    requires |paths| == TOTAL
  {
    Sorted(PathsAt(paths, TARGETS))
  }

  function DecoyPaths(paths: seq<string>): seq<string>
    requires |paths| == TOTAL
  {
    Sorted(PathsAt(paths, DECOYS))
  }

  // Every cell of the bundle has a path of its own.
  ghost predicate LaidOut(b: Bundle, paths: seq<string>) {
    |Flat(b, Correct)| == |Flat(b, Final)| == |Flat(b, Initial)| == |paths| == TOTAL && Different(paths)
  }

  // The bundle on its paths, as the import sees it.
  function CellsOf(b: Bundle, paths: seq<string>): RelayHistory.Cells
    requires LaidOut(b, paths)
  {
    RelayHistory.Cells(ByPath(paths, Flat(b, Correct)), ByPath(paths, Flat(b, Final)), ByPath(paths, Flat(b, Initial)),
                       TargetPaths(paths), DecoyPaths(paths),
                       ByPath(paths, Roles(paths, TargetPaths(paths), DecoyPaths(paths))))
  }

  lemma WaveLists(paths: seq<string>)
    requires |paths| == TOTAL && Different(paths)
    ensures |TargetPaths(paths)| == |DecoyPaths(paths)| == 7 && Different(TargetPaths(paths)) &&
            Different(DecoyPaths(paths))
    ensures forall i :: 0 <= i < TOTAL ==> (paths[i] in TargetPaths(paths) <==> i in TARGETS)
    ensures forall i :: 0 <= i < TOTAL ==> (paths[i] in DecoyPaths(paths) <==> i in DECOYS)
    ensures Ascending(Itself, TargetPaths(paths)) && Ascending(Itself, DecoyPaths(paths))
  {
    WavePaths(paths, TARGETS);
    WavePaths(paths, DECOYS);
  }

  /* ---------- The workspace of a bundle ---------- */

  lemma AnyPath(paths: seq<string>, p: string) returns (i: nat)
    requires p in paths
    ensures i < |paths| && paths[i] == p
  {
    i :| i < |paths| && paths[i] == p;
  }

  lemma TargetIsNoDecoy(w: nat)
    requires w < 7
    ensures TARGETS[w] < TOTAL && TARGETS[w] in TARGETS && TARGETS[w] !in DECOYS
  {
  }

  lemma NoPathIsBoth(paths: seq<string>, p: string)
    requires |paths| == TOTAL && Different(paths) && p in TargetPaths(paths)
    ensures p in paths && p !in DecoyPaths(paths)
  {
    WaveLists(paths);
    SortedPaths(PathsAt(paths, TARGETS));
    assert p in PathsAt(paths, TARGETS);
    var w :| 0 <= w < 7 && PathsAt(paths, TARGETS)[w] == p;
    TargetIsNoDecoy(w);
    assert paths[TARGETS[w]] == p;
  }

  lemma DecoysArePaths(paths: seq<string>, p: string)
    requires |paths| == TOTAL && Different(paths) && p in DecoyPaths(paths)
    ensures p in paths
  {
    SortedPaths(PathsAt(paths, DECOYS));
    assert p in PathsAt(paths, DECOYS);
    var w :| 0 <= w < 7 && PathsAt(paths, DECOYS)[w] == p;
  }

  lemma RoleAt(b: Bundle, paths: seq<string>, p: string)
    requires LaidOut(b, paths) && p in paths
    ensures p in CellsOf(b, paths).role
    ensures CellsOf(b, paths).role[p] == RoleIn(TargetPaths(paths), DecoyPaths(paths), p)
  {
    var i := AnyPath(paths, p);
  }

  lemma WaveRoles(b: Bundle, paths: seq<string>, w: nat)
    requires LaidOut(b, paths) && w < 7
    ensures var c := CellsOf(b, paths);
            && |c.targets| == |c.decoys| == 7
            && c.targets[w] in c.role && c.role[c.targets[w]] == RelayHistory.Target(w)
            && c.decoys[w] in c.role && c.role[c.decoys[w]] == RelayHistory.Decoy(w)
  {
    WaveLists(paths);
    forall p | p in TargetPaths(paths) ensures p !in DecoyPaths(paths) {
      NoPathIsBoth(paths, p);
    }
    NoPathIsBoth(paths, TargetPaths(paths)[w]);
    DecoysArePaths(paths, DecoyPaths(paths)[w]);
    RolesFit(TargetPaths(paths), DecoyPaths(paths), w);
    RoleAt(b, paths, TargetPaths(paths)[w]);
    RoleAt(b, paths, DecoyPaths(paths)[w]);
  }

  lemma BundlePaths(b: Bundle, paths: seq<string>)
    requires LaidOut(b, paths)
    ensures RelayHistory.FourteenPaths(CellsOf(b, paths))
  {
    var c := CellsOf(b, paths);
    WaveLists(paths);
    forall w | 0 <= w < 7
      ensures c.targets[w] in c.role && c.role[c.targets[w]] == RelayHistory.Target(w)
      ensures c.decoys[w] in c.role && c.role[c.decoys[w]] == RelayHistory.Decoy(w)
    {
      WaveRoles(b, paths, w);
    }
    forall p | p in c.role
      ensures match c.role[p]
              case Target(w) => w < 7 && p == c.targets[w]
              case Decoy(w) => w < 7 && p == c.decoys[w]
              case Plain => true
    {
      RoleAt(b, paths, p);
      RoleMeans(c.targets, c.decoys, p);
    }
  }

  lemma CellAtPath(b: Bundle, paths: seq<string>, i: nat)
    requires LaidOut(b, paths) && BuiltBundle(b) && i < TOTAL
    ensures var c, p := CellsOf(b, paths), paths[i];
            && p in c.correct && p in c.final && p in c.initial && p in c.role
            && (c.role[p].Target? <==> c.final[p] != c.correct[p])
            && (!c.role[p].Decoy? ==> c.initial[p] == c.correct[p])
  {
    FlatDiffers(b, i);
    WaveLists(paths);
    RoleAt(b, paths, paths[i]);
    RoleMeans(TargetPaths(paths), DecoyPaths(paths), paths[i]);
    if i in TARGETS { NoPathIsBoth(paths, paths[i]); }
  }

  lemma BundleCells(b: Bundle, paths: seq<string>)
    requires LaidOut(b, paths) && BuiltBundle(b)
    ensures RelayHistory.ValidCells(CellsOf(b, paths))
  {
    var c := CellsOf(b, paths);
    assert c.correct.Keys == c.final.Keys == c.initial.Keys == c.role.Keys;
    forall p | p in c.correct
      ensures c.role[p].Target? <==> c.final[p] != c.correct[p]
      ensures !c.role[p].Decoy? ==> c.initial[p] == c.correct[p]
    {
      var i := AnyPath(paths, p);
      CellAtPath(b, paths, i);
    }
  }

  /* ---------- Seals ---------- */

  // A cell that cell_source writes readably: its seal holds no quote.
  predicate QuoteFree(cell: Cell) {
    '\"' !in cell.seal
  }

  predicate AllQuoteFree(cells: seq<Cell>) {
    forall k :: 0 <= k < |cells| ==> QuoteFree(cells[k])
  }

  predicate QuoteFreeDraws(draws: PlanDraws) {
    '\"' !in draws.seal && '\"' !in draws.terminalSeal && AllQuoteFree(draws.cells)
  }

  lemma SealedQuoteFree(draws: PlanDraws, cells: seq<Cell>)
    requires QuoteFreeDraws(draws) && Sealed(draws, cells)
    ensures AllQuoteFree(cells)
  {
    forall k | 0 <= k < |cells| ensures QuoteFree(cells[k]) {
      assert DrawnSeal(draws, cells[k].seal);
      if i :| 0 <= i < |draws.cells| && draws.cells[i].seal == cells[k].seal {
        assert QuoteFree(draws.cells[i]);
      }
    }
  }

  lemma PlanQuoteFree(draws: PlanDraws, plan: Plan)
    requires QuoteFreeDraws(draws) && PlanSealed(draws, plan)
    ensures AllQuoteFree(plan.correct) && AllQuoteFree(plan.final) && AllQuoteFree(plan.initial)
  {
    SealedQuoteFree(draws, plan.correct);
    SealedQuoteFree(draws, plan.final);
    SealedQuoteFree(draws, plan.initial);
  }

  lemma FiveQuoteFree(a: seq<Cell>, b: seq<Cell>, c: seq<Cell>, d: seq<Cell>, e: seq<Cell>)
    requires AllQuoteFree(a) && AllQuoteFree(b) && AllQuoteFree(c) && AllQuoteFree(d) && AllQuoteFree(e)
    ensures AllQuoteFree(a + b + c + d + e)
  {
  }

  lemma FlatQuoteFree(draws: Namespace -> PlanDraws, b: Bundle)
    requires BundleSealed(draws, b) && forall name :: QuoteFreeDraws(draws(name))
    ensures AllQuoteFree(Flat(b, Correct)) && AllQuoteFree(Flat(b, Final)) && AllQuoteFree(Flat(b, Initial))
  {
    PlanQuoteFree(draws(Query), b.query);
    PlanQuoteFree(draws(Lanes), b.lanes);
    PlanQuoteFree(draws(Policy), b.policy);
    PlanQuoteFree(draws(Routing), b.routing);
    PlanQuoteFree(draws(Codec), b.codec);
    FiveQuoteFree(b.query.correct, b.lanes.correct, b.policy.correct, b.routing.correct, b.codec.correct);
    FiveQuoteFree(b.query.final, b.lanes.final, b.policy.final, b.routing.final, b.codec.final);
    FiveQuoteFree(b.query.initial, b.lanes.initial, b.policy.initial, b.routing.initial, b.codec.initial);
  }

  // The notation of cell_source.
  ghost predicate WritesCellSource(n: RelayHistory.Notation) {
    n.render == CellSource.CellText && n.denote == CellSource.CellOf &&
    n.writable == ((cell: Cell) => '\"' !in cell.seal)
  }

  lemma ByPathWritable(n: RelayHistory.Notation, paths: seq<string>, cells: seq<Cell>)
    requires WritesCellSource(n) && |cells| == |paths| && Different(paths) && AllQuoteFree(cells)
    ensures forall p :: p in ByPath(paths, cells) ==> n.writable(ByPath(paths, cells)[p])
  {
    forall p | p in ByPath(paths, cells) ensures n.writable(ByPath(paths, cells)[p]) {
      var i := AnyPath(paths, p);
      assert QuoteFree(cells[i]);
    }
  }

  /* ---------- The workspace ---------- */

  lemma ActivePaths(paths: seq<string>, cells: map<string, Cell>)
    requires |paths| == TOTAL && Different(paths) && forall p :: p in cells <==> p in paths
    ensures |Sorted(paths)| == TOTAL && RelayHistory.Enumerates(Sorted(paths), cells.Keys)
  {
    SortedPaths(paths);
    forall i | 0 <= i < |Sorted(paths)| ensures Sorted(paths)[i] in cells.Keys {
      assert Sorted(paths)[i] in Sorted(paths);
    }
  }

  lemma BundleWritable(n: RelayHistory.Notation, draws: Namespace -> PlanDraws, b: Bundle, paths: seq<string>)
    requires WritesCellSource(n) && BundleSealed(draws, b) && LaidOut(b, paths)
    requires forall name :: QuoteFreeDraws(draws(name))
    ensures RelayHistory.AllWritable(n, CellsOf(b, paths))
  {
    FlatQuoteFree(draws, b);
    ByPathWritable(n, paths, Flat(b, Correct));
    ByPathWritable(n, paths, Flat(b, Final));
    ByPathWritable(n, paths, Flat(b, Initial));
  }

  lemma BundleKeys(b: Bundle, paths: seq<string>)
    requires LaidOut(b, paths)
    ensures CellsOf(b, paths).correct.Keys == set p | p in paths
    ensures |Sorted(paths)| == TOTAL && RelayHistory.Enumerates(Sorted(paths), CellsOf(b, paths).correct.Keys)
  {
    ActivePaths(paths, CellsOf(b, paths).correct);
  }

  lemma NotationIsFaithful(n: RelayHistory.Notation)
    requires WritesCellSource(n)
    ensures RelayHistory.Faithful(n)
  {
    RelayHistoryText.CellTextIsFaithful(n);
  }

  lemma BundleLaidOut(b: Bundle, paths: seq<string>)
    requires BuiltBundle(b) && |paths| == TOTAL && Different(paths)
    ensures LaidOut(b, paths)
  {
    FlatDiffers(b, 0);
  }

  // What the generator builds, written on different paths with seals that hold no quote, is a workspace the import
  // can take.
  lemma BundleIsWorkspace(n: RelayHistory.Notation, draws: Namespace -> PlanDraws, b: Bundle, paths: seq<string>,
                          records: seq<(string, string)>)
    requires WritesCellSource(n) && BuiltBundle(b) && BundleSealed(draws, b)
    requires forall name :: QuoteFreeDraws(draws(name))
    requires LaidOut(b, paths) && RelayHistory.RecordsElsewhere(records, set p | p in paths)
    ensures RelayHistory.Workspace(n, CellsOf(b, paths), records, Sorted(paths)) && |Sorted(paths)| == TOTAL
  {
    NotationIsFaithful(n);
    BundlePaths(b, paths);
    BundleCells(b, paths);
    BundleWritable(n, draws, b, paths);
    BundleKeys(b, paths);
  }

  /* ---------- From the draws to the replayed repository ---------- */

  // The generated bundle and its history, from the random draws on.
  method GenerateRelay(n: RelayHistory.Notation, draws: Namespace -> PlanDraws, paths: seq<string>,
                       core: map<string, string>, records: seq<(string, string)>, fileCount: nat, commitCount: nat)
    returns (b: Bundle, r: Result<seq<RelayHistory.Commit>>)
    requires WritesCellSource(n) && forall name :: ValidDraws(name, draws(name)) && QuoteFreeDraws(draws(name))
    requires |paths| == TOTAL && Different(paths) && RelayHistory.RecordsElsewhere(records, set p | p in paths)
    ensures BuiltBundle(b) && LaidOut(b, paths) && RelayHistory.ValidCells(CellsOf(b, paths))
    ensures r.Success?
            <==> |core + RelayHistory.InitialTexts(n, CellsOf(b, paths))| + |records| == fileCount && commitCount >= 13
    ensures r.Success? ==>
              var waves := RelayHistory.Transitions(commitCount);
              && |r.value| == commitCount
              && RelayHistory.ImportedHistory(n, CellsOf(b, paths), waves, records, r.value, Sorted(paths))
              && RelayHistory.FilesWithin(r.value, core.Keys + set p | p in paths)
  {
    b := BuildRuntimeBundle(draws);
    BundleLaidOut(b, paths);
    BundleIsWorkspace(n, draws, b, paths, records);
    var c := CellsOf(b, paths);
    BundleKeys(b, paths);
    r := RelayHistory.ImportDeadLetter(n, c, core, records, Sorted(paths), fileCount, commitCount);
  }

  lemma ImportIsGood(n: RelayHistory.Notation, c: RelayHistory.Cells, waves: seq<nat>, records: seq<(string, string)>,
                     commits: seq<RelayHistory.Commit>, active: seq<string>)
    requires RelayHistory.ValidCells(c) && RelayHistory.ImportedHistory(n, c, waves, records, commits, active)
    ensures RelayHistory.FaithfulTrees(n, c, waves, RelayHistory.Trees(commits))
    ensures RelayHistory.PlannedTexts(n, c, waves, active, RelayHistory.Trees(commits))
  {
  }

  lemma GeneratedRotates(n: RelayHistory.Notation, b: Bundle, paths: seq<string>, waves: seq<nat>,
                         trees: seq<map<string, string>>)
    requires LaidOut(b, paths) && RelayHistory.ValidCells(CellsOf(b, paths))
    requires RelayHistory.PlannedTexts(n, CellsOf(b, paths), waves, Sorted(paths), trees)
    ensures RelayRotation.Rotates(waves, trees, (set p | p in paths), TOTAL)
  {
    BundleKeys(b, paths);
    SortedPaths(paths);
    TurnsOf704();
    RelayRotation.HistoryRotates(n, CellsOf(b, paths), waves, Sorted(paths), trees);
  }

  lemma TurnsOf704()
    ensures 43 % TOTAL != 0 && TOTAL % 17 != 0 && 17 % TOTAL != 0
  {
  }

  // A history so generated, once written to the import stream, is read back by git, which holds at every commit the
  // cells that the waves so far imply; the commits that are no waves change the texts of all cells in turn, two at a
  // time.
  lemma GeneratedRelayReplays(words: Texts, n: RelayHistory.Notation, b: Bundle, paths: seq<string>,
                              records: seq<(string, string)>, waves: seq<nat>, commits: seq<RelayHistory.Commit>,
                              state: ImportState, main: string, branches: map<string, nat>)
    requires LaidOut(b, paths) && RelayHistory.ValidCells(CellsOf(b, paths))
    requires RelayHistory.ImportedHistory(n, CellsOf(b, paths), waves, records, commits, Sorted(paths))
    requires Keywords(words) && state.Valid() && state.w == Encoded(words) && OneLineCalls(state.calls)
    requires RelayRepository.WritesThenResets(state.calls, commits, main)
    requires RelayRepository.PointAt(state.calls, branches)
    ensures RelayRepository.ReplaysAs(n, CellsOf(b, paths), waves, |commits|, branches, state.w, state.stream,
                                      state.calls)
    ensures RelayRotation.Rotates(waves, RelayHistory.Trees(commits), (set p | p in paths), TOTAL)
  {
    ImportIsGood(n, CellsOf(b, paths), waves, records, commits, Sorted(paths));
    GeneratedRotates(n, b, paths, waves, RelayHistory.Trees(commits));
    RelayRepository.StateTells(words, state, main, n, CellsOf(b, paths), waves, commits, branches);
    BundleKeys(b, paths);
  }
}
