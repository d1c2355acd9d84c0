// The five relay chains of a generated workspace, the runtime they drive, and
// the theorem that its seven corruptions are jointly required.
module RelayBundle {
  import opened Wrappers
  import opened RelayCells
  import opened RelayFaults

  datatype Namespace = Query | Lanes | Policy | Routing | Codec

  datatype ChainConfig = ChainConfig(count: nat, targets: seq<nat>, decoys: seq<nat>)

  function Config(name: Namespace): ChainConfig {
    match name
    case Query => ChainConfig(96, [37], [73])
    case Lanes => ChainConfig(256, [41, 193], [84, 218])
    case Policy => ChainConfig(128, [59], [101])
    case Routing => ChainConfig(96, [17], [68])
    case Codec => ChainConfig(128, [29, 109], [54, 117])
  }

  // Correct cells, the corrupted cells shipped at HEAD, and the cells the history starts from.
  datatype Plan = Plan(correct: seq<Cell>, final: seq<Cell>, initial: seq<Cell>)

  // All random choices behind one chain. A query decoy copies lane `source` plus one into lane `sink`.
  datatype PlanDraws = PlanDraws(cells: seq<Cell>, terminalSeal: string, touches: map<nat, seq<Touch>>,
                                 sink: Lane, source: Lane, seal: string)

  predicate ValidDraws(name: Namespace, draws: PlanDraws) {
    var config := Config(name);
    |draws.cells| == config.count - 1 &&
    (forall i :: 0 <= i < |draws.cells| ==> 1 <= draws.cells[i].rotate) &&
    forall k :: k in config.targets + config.decoys ==> k in draws.touches && ValidTouches(draws.touches[k])
  }

  ghost predicate MildlyCorrupted(cell: Cell, changed: Cell) {
    changed.rotate == cell.rotate &&
    exists inc: Vector :: Mild(inc) && changed.delta == AddVec(cell.delta, inc)
  }

  ghost predicate QueryCorrupted(cells: seq<Cell>, index: nat, changed: Cell)
    requires index < |cells|
  {
    changed == Nudged(cells[index], CarriedLane(cells, index), 1, changed.seal)
  }

  // The corrupted cells at `targets`, the rest as they were.
  ghost predicate CorruptedExactlyAt(name: Namespace, cells: seq<Cell>, final: seq<Cell>, targets: seq<nat>) {
    |final| == |cells| &&
    forall k :: 0 <= k < |cells| ==>
      if k !in targets then final[k] == cells[k]
      else if name.Query? then QueryCorrupted(cells, k, final[k])
      else MildlyCorrupted(cells[k], final[k])
  }

  // A query decoy takes one lane's successor into another; the write may change nothing.
  ghost predicate QueryDisturbed(cell: Cell, changed: Cell) {
    changed.rotate == cell.rotate &&
    exists sink: Lane, source: Lane :: CopiesSuccessor(cell, changed, sink, source)
  }

  predicate CopiesSuccessor(cell: Cell, changed: Cell, sink: Lane, source: Lane) {
    changed.delta == cell.delta[sink := Add(cell.delta[source], 1)]
  }

  ghost predicate DisturbedExactlyAt(name: Namespace, cells: seq<Cell>, initial: seq<Cell>, decoys: seq<nat>) {
    |initial| == |cells| &&
    forall k :: 0 <= k < |cells| ==>
      if k !in decoys then initial[k] == cells[k]
      else if name.Query? then QueryDisturbed(cells[k], initial[k])
      else MildlyCorrupted(cells[k], initial[k])
  }

  ghost predicate Built(name: Namespace, plan: Plan) {
    var config := Config(name);
    |plan.correct| == |plan.initial| == config.count &&
    IsIdentity(plan.correct) &&
    CorruptedExactlyAt(name, plan.correct, plan.final, config.targets) &&
    DisturbedExactlyAt(name, plan.correct, plan.initial, config.decoys)
  }

  // The seals of a plan are those drawn for it.
  predicate DrawnSeal(draws: PlanDraws, seal: string) {
    seal == draws.seal || seal == draws.terminalSeal ||
    exists i :: 0 <= i < |draws.cells| && draws.cells[i].seal == seal
  }

  ghost predicate Sealed(draws: PlanDraws, cells: seq<Cell>) {
    forall k :: 0 <= k < |cells| ==> DrawnSeal(draws, cells[k].seal)
  }

  ghost predicate PlanSealed(draws: PlanDraws, plan: Plan) {
    Sealed(draws, plan.correct) && Sealed(draws, plan.final) && Sealed(draws, plan.initial)
  }

  lemma ChainSealed(draws: PlanDraws, chain: seq<Cell>)
    requires |chain| == |draws.cells| + 1
    requires chain[..|draws.cells|] == draws.cells && chain[|draws.cells|].seal == draws.terminalSeal
    ensures Sealed(draws, chain)
  {
    forall k | 0 <= k < |chain| ensures DrawnSeal(draws, chain[k].seal) {
      if k < |draws.cells| {
        assert chain[..|draws.cells|][k] == draws.cells[k];
      }
    }
  }

  lemma SealedUpdate(draws: PlanDraws, cells: seq<Cell>, k: nat, changed: Cell)
    requires Sealed(draws, cells) && k < |cells| && changed.seal == draws.seal
    ensures Sealed(draws, cells[k := changed])
  {
  }

  // The cells but the last are those drawn, and a query decoy is disturbed in the lanes drawn for it.
  predicate FollowsDraws(name: Namespace, draws: PlanDraws, plan: Plan) {
    |draws.cells| <= |plan.correct| && plan.correct[..|draws.cells|] == draws.cells &&
    DecoysFollow(name, draws, plan.correct, plan.initial, Config(name).decoys)
  }

  predicate DecoysFollow(name: Namespace, draws: PlanDraws, cells: seq<Cell>, initial: seq<Cell>, decoys: seq<nat>) {
    name.Query? ==>
      forall d :: 0 <= d < |decoys| ==> FollowsAt(draws, cells, initial, decoys[d])
  }

  predicate FollowsAt(draws: PlanDraws, cells: seq<Cell>, initial: seq<Cell>, k: nat) {
    k < |cells| && k < |initial| && initial[k].rotate == cells[k].rotate &&
    CopiesSuccessor(cells[k], initial[k], draws.sink, draws.source)
  }

  method CorruptCell(name: Namespace, cells: seq<Cell>, index: nat, draws: PlanDraws) returns (changed: Cell)
    requires index < |cells|
    requires !name.Query? ==> index in draws.touches && ValidTouches(draws.touches[index])
    ensures if name.Query? then QueryCorrupted(cells, index, changed) else MildlyCorrupted(cells[index], changed)
    ensures changed.seal == draws.seal
  {
    if name == Query {
      var found := MutateQueryCell(cells, index, (_, _) => draws.seal);
      changed := found.value;
    } else {
      changed := Mutate(cells[index], draws.touches[index], draws.seal);
      IncrementsAreBounded(draws.touches[index]);
    }
  }

  method CorruptTargets(name: Namespace, cells: seq<Cell>, targets: seq<nat>, draws: PlanDraws)
    returns (final: seq<Cell>)
    requires forall t :: 0 <= t < |targets| ==>
               targets[t] < |cells| && targets[t] in draws.touches && ValidTouches(draws.touches[targets[t]])
    requires Sealed(draws, cells)
    ensures CorruptedExactlyAt(name, cells, final, targets) && Sealed(draws, final)
  {
    final := cells;
    for t := 0 to |targets|
      invariant CorruptedExactlyAt(name, cells, final, targets[..t]) && Sealed(draws, final)
    {
      var changed := CorruptCell(name, cells, targets[t], draws);
      SealedUpdate(draws, final, targets[t], changed);
      final := final[targets[t] := changed];
      assert targets[..t + 1] == targets[..t] + [targets[t]];
    }
    assert targets[..|targets|] == targets;
  }

  method DisturbDecoys(name: Namespace, cells: seq<Cell>, decoys: seq<nat>, draws: PlanDraws)
    returns (initial: seq<Cell>)
    requires forall d :: 0 <= d < |decoys| ==>
               decoys[d] < |cells| && decoys[d] in draws.touches && ValidTouches(draws.touches[decoys[d]])
    requires Sealed(draws, cells)
    ensures DisturbedExactlyAt(name, cells, initial, decoys) && Sealed(draws, initial)
    ensures DecoysFollow(name, draws, cells, initial, decoys)
  {
    initial := cells;
    for d := 0 to |decoys|
      invariant DisturbedExactlyAt(name, cells, initial, decoys[..d]) && Sealed(draws, initial)
      invariant DecoysFollow(name, draws, cells, initial, decoys[..d])
    {
      var cell := cells[decoys[d]];
      var changed;
      if name == Query {
        changed := cell.(delta := cell.delta[draws.sink := Add(cell.delta[draws.source], 1)], seal := draws.seal);
        assert CopiesSuccessor(cell, changed, draws.sink, draws.source);
      } else {
        changed := Mutate(cell, draws.touches[decoys[d]], draws.seal);
        IncrementsAreBounded(draws.touches[decoys[d]]);
      }
      SealedUpdate(draws, initial, decoys[d], changed);
      initial := initial[decoys[d] := changed];
      assert decoys[..d + 1] == decoys[..d] + [decoys[d]];
    }
    assert decoys[..|decoys|] == decoys;
  }

  method BuildPlan(name: Namespace, draws: PlanDraws) returns (plan: Plan)
    requires ValidDraws(name, draws)
    ensures Built(name, plan) && PlanSealed(draws, plan) && FollowsDraws(name, draws, plan)
  {
    var config := Config(name);
    var chain := IdentityChain(config.count, draws.cells, draws.terminalSeal);
    ChainSealed(draws, chain.value);
    var final := CorruptTargets(name, chain.value, config.targets, draws);
    var initial := DisturbDecoys(name, chain.value, config.decoys, draws);
    plan := Plan(chain.value, final, initial);
  }

  /* ---------- A partly repaired deployment ---------- */

  // The chain as it runs when the cells at `broken` still carry their corruption.
  function Deployed(plan: Plan, broken: set<nat>): seq<Cell>
    requires |plan.correct| == |plan.final|
  {
    seq(|plan.correct|, k requires 0 <= k < |plan.correct| => if k in broken then plan.final[k] else plan.correct[k])
  }

  function Sub(a: Residue, b: Residue): Residue {
    if a >= b then a - b else a - b + MODULUS
  }

  function Gap(cell: Cell, changed: Cell): Vector {
    seq(WIDTH, lane requires 0 <= lane < WIDTH => Sub(changed.delta[lane], cell.delta[lane]))
  }

  lemma GapIsIncrement(cell: Cell, changed: Cell)
    requires MildlyCorrupted(cell, changed)
    ensures Mild(Gap(cell, changed)) && changed.delta == AddVec(cell.delta, Gap(cell, changed))
  {
    var inc: Vector :| Mild(inc) && changed.delta == AddVec(cell.delta, inc);
    assert Gap(cell, changed) == inc;
  }

  function Gaps(plan: Plan, broken: set<nat>): seq<Vector>
    requires |plan.correct| == |plan.final|
  {
    seq(|plan.correct|, k requires 0 <= k < |plan.correct| =>
      if k in broken then Gap(plan.correct[k], plan.final[k]) else ZERO)
  }

  // What the corruptions left in a chain add to every state that passes through it.
  function Shift(plan: Plan, broken: set<nat>): Vector
    requires |plan.correct| == |plan.final|
  {
    Drift(plan.correct, Gaps(plan, broken))
  }

  function Targets(name: Namespace): set<nat> {
    set k | k in Config(name).targets
  }

  lemma GapsFit(name: Namespace, plan: Plan, broken: set<nat>)
    requires Built(name, plan) && !name.Query? && broken <= Targets(name)
    ensures BrokenAt(Gaps(plan, broken), broken) && Bumped(plan.correct, Deployed(plan, broken), Gaps(plan, broken))
  {
    forall k | 0 <= k < |plan.correct|
      ensures if k in broken then Mild(Gaps(plan, broken)[k]) else Gaps(plan, broken)[k] == ZERO
      ensures Deployed(plan, broken)[k].rotate == plan.correct[k].rotate
      ensures Deployed(plan, broken)[k].delta == AddVec(plan.correct[k].delta, Gaps(plan, broken)[k])
    {
      if k in broken {
        GapIsIncrement(plan.correct[k], plan.final[k]);
      } else {
        assert AddVec(plan.correct[k].delta, ZERO) == plan.correct[k].delta;
      }
    }
  }

  function Slack(name: Namespace): nat {
    match name
    case Query => 0
    case Lanes => 62
    case Policy => 31
    case Routing => 31
    case Codec => 62
  }

  lemma TargetCount(name: Namespace, broken: set<nat>)
    requires broken <= Targets(name) && !name.Query?
    ensures STEP * |broken| <= Slack(name) && |broken| <= 2
    ensures Below(broken, Config(name).count) == broken
  {
    var targets := Config(name).targets;
    var all := if |targets| == 1 then {targets[0]} else {targets[0], targets[1]};
    assert Targets(name) == all;
    SubsetSize(broken, all);
  }

  lemma SubsetSize(a: set<nat>, b: set<nat>)
    requires a <= b
    ensures |a| <= |b|
  {
    if a != {} {
      var x :| x in a;
      SubsetSize(a - {x}, b - {x});
    }
  }

  lemma ShiftIsExact(name: Namespace, plan: Plan, broken: set<nat>, state: Vector)
    requires Built(name, plan) && !name.Query? && broken <= Targets(name)
    ensures ApplyChain(state, Deployed(plan, broken)) == AddVec(state, Shift(plan, broken))
  {
    GapsFit(name, plan, broken);
    DriftIsExact(state, plan.correct, Deployed(plan, broken), Gaps(plan, broken));
  }

  // The shift of a chain is bounded, and zero exactly when nothing in it is left broken.
  lemma ShiftIsBounded(name: Namespace, plan: Plan, broken: set<nat>)
    requires Built(name, plan) && !name.Query? && broken <= Targets(name)
    ensures AtMost(Shift(plan, broken), Slack(name))
    ensures Shift(plan, broken) == ZERO <==> broken == {}
  {
    GapsFit(name, plan, broken);
    TargetCount(name, broken);
    assert |plan.correct| == Config(name).count;
    DriftCounts(plan.correct, Gaps(plan, broken), broken, Slack(name));
  }

  lemma DriftCounts(cells: seq<Cell>, incs: seq<Vector>, broken: set<nat>, slack: nat)
    requires |cells| == |incs| && BrokenAt(incs, broken) && Below(broken, |cells|) == broken
    requires |broken| <= 2 && STEP * |broken| <= slack
    ensures AtMost(Drift(cells, incs), slack) && (Drift(cells, incs) == ZERO <==> broken == {})
  {
    DriftBounds(cells, incs, broken);
    assert |broken| == 0 <==> broken == {};
    assert Total(ZERO) == 0;
  }

  /* ---------- The runtime contract ---------- */

  datatype Bundle = Bundle(query: Plan, lanes: Plan, policy: Plan, routing: Plan, codec: Plan)

  // Which corruptions a candidate has left in place, chain by chain.
  datatype Broken = Broken(query: set<nat>, lanes: set<nat>, policy: set<nat>, routing: set<nat>, codec: set<nat>)

  ghost predicate BuiltBundle(b: Bundle) {
    Built(Query, b.query) && Built(Lanes, b.lanes) && Built(Policy, b.policy) &&
    Built(Routing, b.routing) && Built(Codec, b.codec)
  }

  predicate ValidBroken(broken: Broken) {
    broken.query <= Targets(Query) && broken.lanes <= Targets(Lanes) && broken.policy <= Targets(Policy) &&
    broken.routing <= Targets(Routing) && broken.codec <= Targets(Codec)
  }

  const ALL_REPAIRED := Broken({}, {}, {}, {}, {})

  // The clause alternatives the compiled profile query picks from the query chain's terminal state.
  datatype Clauses = Clauses(identity: nat, status: nat, temporal: nat, ordering: nat)

  // One row read from the database; lanes are unchecked integers.
  datatype Profile = Profile(tenantKey: string, nonce: string, lanes: seq<int>)

  datatype Frame = Frame(tenantKey: string, nonce: string, lanes: Vector, deadRoot: string, palimpsestRoot: string)

  function CompileQuery(b: Bundle, broken: Broken): Clauses
    requires BuiltBundle(b)
  {
    var terminal := ApplyChain(QUERY_SEED, Deployed(b.query, broken.query));
    Clauses(terminal[0] % 3, terminal[1] % 3, terminal[2] % 3, terminal[3] % 3)
  }

  function Project(b: Bundle, broken: Broken, lanes: Vector): Vector
    requires BuiltBundle(b)
  {
    ApplyChain(ApplyChain(ApplyChain(lanes, Deployed(b.lanes, broken.lanes)),
                          Deployed(b.policy, broken.policy)),
               Deployed(b.routing, broken.routing))
  }

  function EncodeLanes(b: Bundle, broken: Broken, lanes: Vector): Vector
    requires BuiltBundle(b)
  {
    ApplyChain(Project(b, broken, lanes), Deployed(b.codec, broken.codec))
  }

  predicate LanesInRange(lanes: seq<int>) {
    |lanes| == WIDTH && forall k :: 0 <= k < WIDTH ==> 0 <= lanes[k] < MODULUS
  }

  // Capture, normalize and encode; a lane outside the residues is rejected.
  function EmitFrame(b: Bundle, broken: Broken, capture: Clauses -> Profile, dead: string, palimpsest: string)
    : Result<Frame>
    requires BuiltBundle(b)
  {
    var row := capture(CompileQuery(b, broken));
    if !LanesInRange(row.lanes) then Failure("invalid lane")
    else Success(Frame(row.tenantKey, row.nonce, EncodeLanes(b, broken, row.lanes), dead, palimpsest))
  }

  // The contract check compares digests; the expected digest is that of the expected frame.
  predicate Accepts<D(==)>(digest: Frame -> D, emitted: Result<Frame>, expected: Frame) {
    emitted.Success? && digest(emitted.value) == digest(expected)
  }

  const CORRECT_CLAUSES := Clauses(2, 1, 2, 2)
  const DRIFTED_CLAUSES := Clauses(0, 1, 2, 2)

  function FrameShift(b: Bundle, broken: Broken, lanes: Vector): Vector
    requires BuiltBundle(b)
  {
    AddVec(AddVec(AddVec(AddVec(lanes, Shift(b.lanes, broken.lanes)), Shift(b.policy, broken.policy)),
                  Shift(b.routing, broken.routing)), Shift(b.codec, broken.codec))
  }

  lemma FrameIsShifted(b: Bundle, broken: Broken, lanes: Vector)
    requires BuiltBundle(b) && ValidBroken(broken)
    ensures EncodeLanes(b, broken, lanes) == FrameShift(b, broken, lanes)
  {
    var s1 := AddVec(lanes, Shift(b.lanes, broken.lanes));
    var s2 := AddVec(s1, Shift(b.policy, broken.policy));
    var s3 := AddVec(s2, Shift(b.routing, broken.routing));
    ShiftIsExact(Lanes, b.lanes, broken.lanes, lanes);
    ShiftIsExact(Policy, b.policy, broken.policy, s1);
    ShiftIsExact(Routing, b.routing, broken.routing, s2);
    ShiftIsExact(Codec, b.codec, broken.codec, s3);
  }

  // Every subset of the six lane, policy, routing and codec corruptions shows in some lane, for every input.
  lemma FrameLanesRevealCorruption(b: Bundle, broken: Broken, lanes: Vector)
    requires BuiltBundle(b) && ValidBroken(broken)
    ensures EncodeLanes(b, broken, lanes) == lanes
            <==> broken.lanes == {} && broken.policy == {} && broken.routing == {} && broken.codec == {}
  {
    FrameIsShifted(b, broken, lanes);
    ShiftIsBounded(Lanes, b.lanes, broken.lanes);
    ShiftIsBounded(Policy, b.policy, broken.policy);
    ShiftIsBounded(Routing, b.routing, broken.routing);
    ShiftIsBounded(Codec, b.codec, broken.codec);
    FourShifts(lanes, Shift(b.lanes, broken.lanes), Shift(b.policy, broken.policy),
               Shift(b.routing, broken.routing), Shift(b.codec, broken.codec));
  }

  // Four shifts of at most 62, 31, 31 and 62 per lane never add up to a multiple of 257.
  lemma FourShifts(state: Vector, a: Vector, b: Vector, c: Vector, d: Vector)
    requires AtMost(a, 62) && AtMost(b, 31) && AtMost(c, 31) && AtMost(d, 62)
    ensures AddVec(AddVec(AddVec(AddVec(state, a), b), c), d) == state
            <==> a == ZERO && b == ZERO && c == ZERO && d == ZERO
  {
    var shown := AddVec(AddVec(AddVec(AddVec(state, a), b), c), d);
    forall lane: Lane
      ensures shown[lane] == state[lane] <==> a[lane] == 0 && b[lane] == 0 && c[lane] == 0 && d[lane] == 0
    {
    }
    if shown == state {
      assert forall lane: Lane :: shown[lane] == state[lane];
      assert a == ZERO && b == ZERO && c == ZERO && d == ZERO;
    }
  }

  // The query corruption replaces the literal tenant clause and nothing else.
  lemma QueryCorruptionSwapsTheTenantClause(b: Bundle, broken: Broken)
    requires BuiltBundle(b) && ValidBroken(broken)
    ensures CompileQuery(b, broken) == if broken.query == {} then CORRECT_CLAUSES else DRIFTED_CLAUSES
  {
    var cells := b.query.correct;
    assert ApplyChain(QUERY_SEED, cells) == QUERY_SEED;
    if broken.query == {} {
      assert Deployed(b.query, broken.query) == cells;
    } else {
      assert Targets(Query) == {37};
      assert broken.query == {37};
      var changed := b.query.final[37];
      assert Deployed(b.query, broken.query)
          == cells[37 := Nudged(cells[37], CarriedLane(cells, 37), 1, changed.seal)];
      NudgeMovesOneLane(cells, 37, CarriedLane(cells, 37), 1, changed.seal, QUERY_SEED);
      OnlyLaneZeroTurnsHome(CarriedLane(cells, 37));
    }
  }

  lemma OnlyLaneZeroTurnsHome(turn: Lane)
    ensures forall lane: Lane :: Turn(lane, turn) == turn <==> lane == 0
  {
  }

  // All seven repairs are required: with any other subset the emitted frame differs from the expected one,
  // so an accepted digest would be a collision. Only the literal tenant clause reads the expected tenant row.
  lemma SevenCorruptionsAreJointlyRequired<D>(
      b: Bundle, broken: Broken, capture: Clauses -> Profile, digest: Frame -> D, expected: Frame)
    requires BuiltBundle(b) && ValidBroken(broken)
    requires capture(CORRECT_CLAUSES) == Profile(expected.tenantKey, expected.nonce, expected.lanes)
    requires capture(DRIFTED_CLAUSES).tenantKey != expected.tenantKey ||
             capture(DRIFTED_CLAUSES).nonce != expected.nonce
    ensures var emitted := EmitFrame(b, broken, capture, expected.deadRoot, expected.palimpsestRoot);
            && (emitted == Success(expected) <==> broken == ALL_REPAIRED)
            && (broken == ALL_REPAIRED ==> Accepts(digest, emitted, expected))
            && (Accepts(digest, emitted, expected) && broken != ALL_REPAIRED ==>
                  emitted.value != expected && digest(emitted.value) == digest(expected))
  {
    QueryCorruptionSwapsTheTenantClause(b, broken);
    FrameLanesRevealCorruption(b, broken, expected.lanes);
  }

  ghost predicate BundleSealed(draws: Namespace -> PlanDraws, b: Bundle) {
    PlanSealed(draws(Query), b.query) && PlanSealed(draws(Lanes), b.lanes) && PlanSealed(draws(Policy), b.policy) &&
    PlanSealed(draws(Routing), b.routing) && PlanSealed(draws(Codec), b.codec)
  }

  method BuildRuntimeBundle(draws: Namespace -> PlanDraws) returns (b: Bundle)
    requires forall name: Namespace :: ValidDraws(name, draws(name))
    ensures BuiltBundle(b) && BundleSealed(draws, b) && FollowsDraws(Query, draws(Query), b.query)
  {
    var query := BuildPlan(Query, draws(Query));
    var lanes := BuildPlan(Lanes, draws(Lanes));
    var policy := BuildPlan(Policy, draws(Policy));
    var routing := BuildPlan(Routing, draws(Routing));
    var codec := BuildPlan(Codec, draws(Codec));
    b := Bundle(query, lanes, policy, routing, codec);
  }
}
