// Corruptions of relay chains, how they travel to the end of a chain, and why
// the corruptions of one bundle cannot hide each other.
module RelayFaults {
  import opened Wrappers
  import opened RelayCells

  const QUERY_SEED: Vector := [23, 19, 17, 11, 13, 7, 5, 3]

  function AddVec(a: Vector, b: Vector): Vector {
    seq(WIDTH, lane requires 0 <= lane < WIDTH => Add(a[lane], b[lane]))
  }

  function Turned(v: Vector, turn: Lane): Vector {
    seq(WIDTH, lane requires 0 <= lane < WIDTH => v[Turn(lane, turn)])
  }

  function Total(v: Vector): int {
    v[0] as int + v[1] as int + v[2] as int + v[3] as int + v[4] as int + v[5] as int + v[6] as int + v[7] as int
  }

  /* ---------- Drift: what per-cell increments become at the end of the chain ---------- */

  // The chain `changed` is `cells` with increment incs[k] added to the delta of cell k.
  ghost predicate Bumped(cells: seq<Cell>, changed: seq<Cell>, incs: seq<Vector>) {
    |cells| == |changed| == |incs| &&
    forall k :: 0 <= k < |cells| ==>
      changed[k].rotate == cells[k].rotate && changed[k].delta == AddVec(cells[k].delta, incs[k])
  }

  function Drift(cells: seq<Cell>, incs: seq<Vector>): Vector
    requires |cells| == |incs|
  {
    if cells == [] then ZERO
    else
      var n := |cells| - 1;
      Carried(Drift(cells[..n], incs[..n]), cells[n].rotate, incs[n])
  }

  function Carried(shift: Vector, turn: Lane, inc: Vector): Vector {
    AddVec(Turned(shift, turn), inc)
  }

  // One cell carries a shift of its input to its output and adds its own increment.
  lemma CellCarriesShift(state: Vector, shift: Vector, cell: Cell, changed: Cell, inc: Vector)
    requires changed.rotate == cell.rotate && changed.delta == AddVec(cell.delta, inc)
    ensures ApplyCell(AddVec(state, shift), changed)
            == AddVec(ApplyCell(state, cell), Carried(shift, cell.rotate, inc))
  {
  }

  // The changed chain ends exactly its drift away from the original, on every state.
  lemma {:induction false} DriftIsExact(state: Vector, cells: seq<Cell>, changed: seq<Cell>, incs: seq<Vector>)
    requires Bumped(cells, changed, incs)
    ensures ApplyChain(state, changed) == AddVec(ApplyChain(state, cells), Drift(cells, incs))
  {
    if cells == [] {
      assert AddVec(state, ZERO) == state;
    } else {
      var n := |cells| - 1;
      DriftIsExact(state, cells[..n], changed[..n], incs[..n]);
      CellCarriesShift(ApplyChain(state, cells[..n]), Drift(cells[..n], incs[..n]), cells[n], changed[n], incs[n]);
    }
  }

  // Turning only permutes the lanes.
  lemma TurnKeepsTotal(v: Vector, turn: Lane)
    ensures Total(Turned(v, turn)) == Total(v)
  {
    var t := Turned(v, turn);
    if turn == 0 { assert t == v; }
    else if turn == 1 { assert t == [v[1], v[2], v[3], v[4], v[5], v[6], v[7], v[0]]; }
    else if turn == 2 { assert t == [v[2], v[3], v[4], v[5], v[6], v[7], v[0], v[1]]; }
    else if turn == 3 { assert t == [v[3], v[4], v[5], v[6], v[7], v[0], v[1], v[2]]; }
    else if turn == 4 { assert t == [v[4], v[5], v[6], v[7], v[0], v[1], v[2], v[3]]; }
    else if turn == 5 { assert t == [v[5], v[6], v[7], v[0], v[1], v[2], v[3], v[4]]; }
    else if turn == 6 { assert t == [v[6], v[7], v[0], v[1], v[2], v[3], v[4], v[5]]; }
    else { assert t == [v[7], v[0], v[1], v[2], v[3], v[4], v[5], v[6]]; }
  }

  ghost predicate AtMost(v: Vector, bound: int) {
    forall lane: Lane :: v[lane] <= bound
  }

  /* ---------- Corrupted cells inside one chain ---------- */

  const STEP := 31

  // An increment that _mutate can add: every lane by at most 31, some lane by something.
  ghost predicate Mild(inc: Vector) {
    (forall lane: Lane :: inc[lane] <= STEP) && inc != ZERO
  }

  function Below(broken: set<nat>, n: nat): set<nat> {
    set i | i in broken && i < n
  }

  // The increments of a chain whose cells at `broken` are corrupted and whose others are correct.
  ghost predicate BrokenAt(incs: seq<Vector>, broken: set<nat>) {
    forall k :: 0 <= k < |incs| ==> if k in broken then Mild(incs[k]) else incs[k] == ZERO
  }

  lemma BelowGrows(broken: set<nat>, n: nat)
    ensures Below(broken, n + 1) == if n in broken then Below(broken, n) + {n} else Below(broken, n)
    ensures |Below(broken, n + 1)| == |Below(broken, n)| + if n in broken then 1 else 0
  {
    assert Below(broken, n + 1) == if n in broken then Below(broken, n) + {n} else Below(broken, n);
  }

  lemma CarryWithoutWrap(shift: Vector, turn: Lane, inc: Vector, bound: nat)
    requires bound + STEP < MODULUS
    requires forall lane: Lane :: shift[lane] <= bound && inc[lane] <= STEP
    ensures forall lane: Lane :: Carried(shift, turn, inc)[lane] <= bound + STEP
    ensures Total(Carried(shift, turn, inc)) == Total(shift) + Total(inc)
  {
    TurnKeepsTotal(shift, turn);
  }

  lemma CarryNothing(shift: Vector, turn: Lane)
    ensures Carried(shift, turn, ZERO) == Turned(shift, turn)
    ensures Total(Carried(shift, turn, ZERO)) == Total(shift)
  {
    TurnKeepsTotal(shift, turn);
    forall lane: Lane ensures Carried(shift, turn, ZERO)[lane] == Turned(shift, turn)[lane] {
      assert ZERO[lane] == 0;
    }
  }

  lemma CarryFromZero(turn: Lane, inc: Vector)
    ensures Carried(ZERO, turn, inc) == inc
  {
  }

  lemma MildHasTotal(inc: Vector)
    requires Mild(inc)
    ensures Total(inc) >= 1
  {
    assert exists lane: Lane :: inc[lane] != 0;
  }

  // Up to eight mild increments add up without wrapping, so the drift counts every one of them.
  lemma {:induction false} DriftBounds(cells: seq<Cell>, incs: seq<Vector>, broken: set<nat>)
    requires |cells| == |incs| && BrokenAt(incs, broken) && |Below(broken, |cells|)| <= 8
    ensures AtMost(Drift(cells, incs), STEP * |Below(broken, |cells|)|)
    ensures Total(Drift(cells, incs)) >= |Below(broken, |cells|)|
    ensures Below(broken, |cells|) == {} ==> Drift(cells, incs) == ZERO
  {
    if cells != [] {
      var n := |cells| - 1;
      var shift := Drift(cells[..n], incs[..n]);
      BelowGrows(broken, n);
      DriftBounds(cells[..n], incs[..n], broken);
      if n in broken {
        CarryWithoutWrap(shift, cells[n].rotate, incs[n], STEP * |Below(broken, n)|);
        MildHasTotal(incs[n]);
      } else {
        CarryNothing(shift, cells[n].rotate);
        CarryFromZero(cells[n].rotate, ZERO);
      }
    }
  }

  /* ---------- The corruption of a leaf cell ---------- */

  datatype Touch = Touch(lane: Lane, amount: Residue)

  // Three different lanes, each moved by one of four amounts.
  predicate ValidTouches(touches: seq<Touch>) {
    |touches| == 3 &&
    (forall i, j :: 0 <= i < j < 3 ==> touches[i].lane != touches[j].lane) &&
    (forall i :: 0 <= i < 3 ==> touches[i].amount in {7, 11, 19, 31})
  }

  function Increments(touches: seq<Touch>): Vector {
    if touches == [] then ZERO
    else
      var last := touches[|touches| - 1];
      Increments(touches[..|touches| - 1])[last.lane := last.amount]
  }

  method Mutate(cell: Cell, touches: seq<Touch>, seal: string) returns (r: Cell)
    requires ValidTouches(touches)
    ensures r == Cell(cell.rotate, AddVec(cell.delta, Increments(touches)), seal)
    ensures forall i :: 0 <= i < 3 ==>
              r.delta[touches[i].lane] == Add(cell.delta[touches[i].lane], touches[i].amount)
    ensures forall lane: Lane :: (forall i :: 0 <= i < 3 ==> touches[i].lane != lane) ==>
              r.delta[lane] == cell.delta[lane]
  {
    var delta: Vector := cell.delta;
    for i := 0 to |touches|
      invariant delta == AddVec(cell.delta, Increments(touches[..i]))
      invariant forall k :: i <= k < 3 ==> delta[touches[k].lane] == cell.delta[touches[k].lane]
      invariant forall k :: 0 <= k < i ==>
                  delta[touches[k].lane] == Add(cell.delta[touches[k].lane], touches[k].amount)
      invariant forall lane: Lane :: (forall k :: 0 <= k < i ==> touches[k].lane != lane) ==>
                  delta[lane] == cell.delta[lane]
    {
      assert touches[..i + 1][..i] == touches[..i];
      delta := delta[touches[i].lane := Add(delta[touches[i].lane], touches[i].amount)];
    }
    assert touches[..3] == touches;
    r := Cell(cell.rotate, delta, seal);
  }

  lemma {:induction false} IncrementsAreBounded(touches: seq<Touch>)
    requires forall i :: 0 <= i < |touches| ==> 1 <= touches[i].amount <= STEP
    ensures forall lane: Lane :: Increments(touches)[lane] <= STEP
    ensures touches != [] ==> Mild(Increments(touches))
  {
    if touches != [] {
      IncrementsAreBounded(touches[..|touches| - 1]);
      var last := touches[|touches| - 1];
      assert Increments(touches)[last.lane] == last.amount;
    }
  }

  /* ---------- The corruption of a query cell ---------- */

  function QuerySlot(state: Vector): nat {
    state[0] % 3
  }

  function Nudged(cell: Cell, lane: Lane, amount: Residue, seal: string): Cell {
    cell.(delta := cell.delta[lane := Add(cell.delta[lane], amount)], seal := seal)
  }

  // The local lane of cell `index` that the rest of the chain carries to lane 0 of the result.
  function CarriedLane(cells: seq<Cell>, index: nat): Lane
    requires index < |cells|
  {
    Summary(cells[index + 1..]).rotate
  }

  function SpikeIncs(n: nat, index: nat, lane: Lane, amount: Residue): seq<Vector>
    requires index < n
  {
    seq(n, k => if k == index then ZERO[lane := amount] else ZERO)
  }

  lemma {:induction false} QuietDrift(cells: seq<Cell>, incs: seq<Vector>)
    requires |cells| == |incs| && forall k :: 0 <= k < |incs| ==> incs[k] == ZERO
    ensures Drift(cells, incs) == ZERO
  {
    if cells != [] {
      QuietDrift(cells[..|cells| - 1], incs[..|cells| - 1]);
      CarryFromZero(cells[|cells| - 1].rotate, ZERO);
    }
  }

  lemma SuffixTurns(cells: seq<Cell>, index: nat, target: Lane)
    requires index < |cells| - 1
    ensures Turn(target, CarriedLane(cells, index))
            == Turn(Turn(target, cells[|cells| - 1].rotate), CarriedLane(cells[..|cells| - 1], index))
  {
    var n := |cells| - 1;
    assert cells[index + 1..][..n - index - 1] == cells[..n][index + 1..];
    TurnTwice(target, cells[n].rotate, CarriedLane(cells[..n], index));
  }

  lemma TurnTwice(lane: Lane, first: Lane, second: Lane)
    ensures Turn(Turn(lane, first), second) == Turn(lane, Turn(second, first))
  {
  }

  // One increment at one cell, nothing at the others.
  ghost predicate IsSpike(incs: seq<Vector>, index: nat, inc: Vector) {
    index < |incs| && incs[index] == inc && forall k :: 0 <= k < |incs| && k != index ==> incs[k] == ZERO
  }

  lemma SpikeAtTheEnd(cells: seq<Cell>, incs: seq<Vector>, inc: Vector)
    requires |cells| == |incs| && cells != [] && IsSpike(incs, |incs| - 1, inc)
    ensures Drift(cells, incs) == inc
  {
    var n := |cells| - 1;
    QuietDrift(cells[..n], incs[..n]);
    CarryFromZero(cells[n].rotate, incs[n]);
  }

  lemma QuietEnd(cells: seq<Cell>, incs: seq<Vector>, target: Lane)
    requires |cells| == |incs| && cells != [] && incs[|incs| - 1] == ZERO
    ensures var n := |cells| - 1;
            Drift(cells, incs)[target] == Drift(cells[..n], incs[..n])[Turn(target, cells[n].rotate)]
  {
    var n := |cells| - 1;
    CarryNothing(Drift(cells[..n], incs[..n]), cells[n].rotate);
  }

  lemma LastIsNotTurned(cells: seq<Cell>, target: Lane)
    requires cells != []
    ensures Turn(target, CarriedLane(cells, |cells| - 1)) == target
  {
    assert cells[|cells|..] == [];
  }

  lemma ShorterSpike(incs: seq<Vector>, index: nat, inc: Vector)
    requires IsSpike(incs, index, inc) && index < |incs| - 1
    ensures IsSpike(incs[..|incs| - 1], index, inc) && incs[|incs| - 1] == ZERO
  {
  }

  // The drift of one increment is that increment, turned by the rest of the chain.
  lemma {:induction false} SpikeIsCarried(cells: seq<Cell>, incs: seq<Vector>, index: nat, inc: Vector, target: Lane)
    requires |cells| == |incs| && IsSpike(incs, index, inc)
    ensures Drift(cells, incs)[target] == inc[Turn(target, CarriedLane(cells, index))]
    decreases |cells|
  {
    var n := |cells| - 1;
    if index == n {
      SpikeAtTheEnd(cells, incs, inc);
      LastIsNotTurned(cells, target);
    } else {
      var front, fewer, before := cells[..n], incs[..n], Turn(target, cells[n].rotate);
      ShorterSpike(incs, index, inc);
      SpikeIsCarried(front, fewer, index, inc, before);
      QuietEnd(cells, incs, target);
      SuffixTurns(cells, index, target);
    }
  }

  // A single changed lane arrives in exactly one lane of the result: the one the suffix turns it to.
  lemma SpikeDrift(cells: seq<Cell>, index: nat, lane: Lane, amount: Residue, target: Lane)
    requires index < |cells|
    ensures Drift(cells, SpikeIncs(|cells|, index, lane, amount))[target]
            == if Turn(target, CarriedLane(cells, index)) == lane then amount else 0
  {
    var inc := ZERO[lane := amount];
    SpikeIncsSpike(|cells|, index, lane, amount);
    SpikeIsCarried(cells, SpikeIncs(|cells|, index, lane, amount), index, inc, target);
    SpikeLane(lane, amount, Turn(target, CarriedLane(cells, index)));
  }

  lemma SpikeLane(lane: Lane, amount: Residue, at: Lane)
    ensures ZERO[lane := amount][at] == if at == lane then amount else 0
  {
  }

  lemma SpikeIncsSpike(n: nat, index: nat, lane: Lane, amount: Residue)
    requires index < n
    ensures IsSpike(SpikeIncs(n, index, lane, amount), index, ZERO[lane := amount])
  {
  }

  lemma NudgeMovesOneLane(cells: seq<Cell>, index: nat, lane: Lane, amount: Residue, seal: string, state: Vector)
    requires index < |cells|
    ensures var shown := ApplyChain(state, cells[index := Nudged(cells[index], lane, amount, seal)]);
            forall target: Lane :: shown[target]
              == Add(ApplyChain(state, cells)[target],
                     if Turn(target, CarriedLane(cells, index)) == lane then amount else 0)
  {
    var changed := cells[index := Nudged(cells[index], lane, amount, seal)];
    var incs := SpikeIncs(|cells|, index, lane, amount);
    forall k | 0 <= k < |cells| ensures changed[k].delta == AddVec(cells[k].delta, incs[k]) {
    }
    DriftIsExact(state, cells, changed, incs);
    forall target: Lane
      ensures ApplyChain(state, changed)[target]
              == Add(ApplyChain(state, cells)[target],
                     if Turn(target, CarriedLane(cells, index)) == lane then amount else 0)
    {
      SpikeDrift(cells, index, lane, amount, target);
    }
  }

  // The search always succeeds, on every chain and at every index, with the carried lane and increment 1.
  method MutateQueryCell(cells: seq<Cell>, index: nat, sealOf: (Lane, Residue) -> string) returns (r: Result<Cell>)
    requires index < |cells|
    ensures r == Success(Nudged(cells[index], CarriedLane(cells, index), 1, sealOf(CarriedLane(cells, index), 1)))
    ensures QuerySlot(ApplyChain(QUERY_SEED, cells[index := r.value])) != QuerySlot(ApplyChain(QUERY_SEED, cells))
  {
    var terminal := RunChain(QUERY_SEED, cells);
    var correctSlot := QuerySlot(terminal);
    var cell := cells[index];
    var localLane: int := 0;
    while localLane < WIDTH
      invariant 0 <= localLane <= CarriedLane(cells, index)
    {
      var increment: int := 1;
      while increment < 17
        invariant 1 <= increment <= 17
        invariant increment == 1 || localLane != CarriedLane(cells, index)
      {
        var candidate := Nudged(cell, localLane, increment, sealOf(localLane, increment));
        var shown := RunChain(QUERY_SEED, cells[index := candidate]);
        NudgeMovesOneLane(cells, index, localLane, increment, candidate.seal, QUERY_SEED);
        assert Turn(0, CarriedLane(cells, index)) == CarriedLane(cells, index);
        if QuerySlot(shown) != correctSlot {
          return Success(candidate);
        }
        increment := increment + 1;
      }
      localLane := localLane + 1;
    }
    return Failure("Could not construct a query-plan corruption");
  }
}
