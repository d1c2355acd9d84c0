// Affine relay cells over eight lanes of residues modulo 257, and the
// generator of cell chains that compose to the identity.
module RelayCells {
  import opened Wrappers

  const MODULUS := 257
  const WIDTH := 8

  type Residue = x: int | 0 <= x < 257
  type Lane = x: int | 0 <= x < 8
  type Vector = v: seq<Residue> | |v| == 8 witness [0, 0, 0, 0, 0, 0, 0, 0]

  const ZERO: Vector := [0, 0, 0, 0, 0, 0, 0, 0]
  const PROBE: Vector := [0, 1, 2, 3, 4, 5, 6, 7]

  datatype Cell = Cell(rotate: Lane, delta: Vector, seal: string)

  /* ---------- Arithmetic of residues and lanes, kept linear for the solver ---------- */

  function Add(a: Residue, b: Residue): Residue {
    if a + b < MODULUS then a + b else a + b - MODULUS
  }

  function Negate(a: Residue): Residue {
    if a == 0 then 0 else MODULUS - a
  }

  function Turn(lane: Lane, turn: Lane): Lane {
    if lane + turn < WIDTH then lane + turn else lane + turn - WIDTH
  }

  function TurnBack(turn: Lane): Lane {
    if turn == 0 then 0 else WIDTH - turn
  }

  // The linear forms are the remainders the generator computes.
  lemma ArithmeticIsModular(a: Residue, b: Residue, lane: Lane, turn: Lane)
    ensures Add(a, b) == (a + b) % MODULUS && Negate(a) == (0 - a) % MODULUS
    ensures Turn(lane, turn) == (lane + turn) % WIDTH && TurnBack(turn) == (0 - turn) % WIDTH
  {
  }

  /* ---------- Cells and chains ---------- */

  function ApplyCell(state: Vector, cell: Cell): Vector {
    seq(WIDTH, lane requires 0 <= lane < WIDTH => Add(state[Turn(lane, cell.rotate)], cell.delta[lane]))
  }

  function ApplyChain(state: Vector, cells: seq<Cell>): Vector {
    if cells == [] then state
    else ApplyCell(ApplyChain(state, cells[..|cells| - 1]), cells[|cells| - 1])
  }

  method RunChain(state: Vector, cells: seq<Cell>) returns (r: Vector)
    ensures r == ApplyChain(state, cells)
  {
    r := state;
    for i := 0 to |cells|
      invariant r == ApplyChain(state, cells[..i])
    {
      assert cells[..i + 1][..i] == cells[..i];
      r := ApplyCell(r, cells[i]);
    }
    assert cells[..|cells|] == cells;
  }

  lemma {:induction false} ChainConcat(state: Vector, left: seq<Cell>, right: seq<Cell>)
    ensures ApplyChain(state, left + right) == ApplyChain(ApplyChain(state, left), right)
  {
    if right == [] {
      assert left + right == left;
    } else {
      var last := |right| - 1;
      assert (left + right)[..|left + right| - 1] == left + right[..last];
      ChainConcat(state, left, right[..last]);
    }
  }

  ghost predicate IsIdentity(cells: seq<Cell>) {
    forall state: Vector :: ApplyChain(state, cells) == state
  }

  /* ---------- The affine normal form of a chain ---------- */

  datatype Affine = Affine(rotate: Lane, delta: Vector)

  const NEUTRAL := Affine(0, ZERO)

  function Then(form: Affine, cell: Cell): Affine {
    Affine(Turn(form.rotate, cell.rotate),
           seq(WIDTH, lane requires 0 <= lane < WIDTH =>
               Add(form.delta[Turn(lane, cell.rotate)], cell.delta[lane])))
  }

  function Summary(cells: seq<Cell>): Affine {
    if cells == [] then NEUTRAL
    else Then(Summary(cells[..|cells| - 1]), cells[|cells| - 1])
  }

  // What a form does to one lane.
  function Moved(state: Vector, form: Affine, lane: Lane): Residue {
    Add(state[Turn(lane, form.rotate)], form.delta[lane])
  }

  lemma ThenMoves(state: Vector, form: Affine, cell: Cell, lane: Lane)
    ensures Add(Moved(state, form, Turn(lane, cell.rotate)), cell.delta[lane]) == Moved(state, Then(form, cell), lane)
  {
    assert Turn(Turn(lane, cell.rotate), form.rotate) == Turn(lane, Turn(form.rotate, cell.rotate));
  }

  // A chain acts on every lane of every state as its affine normal form.
  lemma {:induction false} SummaryIsExact(state: Vector, cells: seq<Cell>, lane: Lane)
    ensures ApplyChain(state, cells)[lane] == Moved(state, Summary(cells), lane)
  {
    if cells != [] {
      var prefix, cell := cells[..|cells| - 1], cells[|cells| - 1];
      SummaryIsExact(state, prefix, Turn(lane, cell.rotate));
      ThenMoves(state, Summary(prefix), cell, lane);
    }
  }

  lemma NeutralIsIdentity(cells: seq<Cell>, state: Vector)
    requires Summary(cells) == NEUTRAL
    ensures ApplyChain(state, cells) == state
  {
    forall lane: Lane ensures ApplyChain(state, cells)[lane] == state[lane] {
      SummaryIsExact(state, cells, lane);
    }
  }

  const SPIKE: Vector := [1, 0, 0, 0, 0, 0, 0, 0]

  // Fixing the zero state and one spike already forces the neutral form.
  lemma FixedZeroAndSpike(cells: seq<Cell>)
    requires ApplyChain(ZERO, cells) == ZERO && ApplyChain(SPIKE, cells) == SPIKE
    ensures Summary(cells) == NEUTRAL
  {
    var form := Summary(cells);
    forall lane: Lane ensures form.delta[lane] == 0 {
      SummaryIsExact(ZERO, cells, lane);
    }
    SummaryIsExact(SPIKE, cells, 0);
  }

  // A chain is the identity on all states exactly when its normal form is neutral.
  lemma IdentityIffNeutral(cells: seq<Cell>)
    ensures IsIdentity(cells) <==> Summary(cells) == NEUTRAL
  {
    if Summary(cells) == NEUTRAL {
      forall state: Vector ensures ApplyChain(state, cells) == state {
        NeutralIsIdentity(cells, state);
      }
    }
    if IsIdentity(cells) {
      FixedZeroAndSpike(cells);
    }
  }

  /* ---------- The generator of identity chains ---------- */

  function Inverse(form: Affine, seal: string): Cell {
    var rotate := TurnBack(form.rotate);
    Cell(rotate, seq(WIDTH, lane requires 0 <= lane < WIDTH => Negate(form.delta[Turn(lane, rotate)])), seal)
  }

  // The random draws are arbitrary: each non-terminal cell turns by 1 to 7 lanes and adds any residues.
  method IdentityChain(count: int, draws: seq<Cell>, terminalSeal: string) returns (r: Result<seq<Cell>>)
    requires |draws| == if count <= 1 then 0 else count - 1
    requires forall i :: 0 <= i < |draws| ==> 1 <= draws[i].rotate
    ensures r.Success? && |r.value| == |draws| + 1 && IsIdentity(r.value)
    ensures r.value[..|draws|] == draws && r.value[|draws|].seal == terminalSeal
  {
    var cells: seq<Cell> := [];
    var stateRotate: Lane, stateDelta := 0, ZERO;
    for index := 0 to |draws|
      invariant cells == draws[..index]
      invariant Affine(stateRotate, stateDelta) == Summary(cells)
    {
      var cell := draws[index];
      assert (cells + [cell])[..index] == cells;
      cells := cells + [cell];
      stateDelta := seq(WIDTH, lane requires 0 <= lane < WIDTH =>
                        Add(stateDelta[Turn(lane, cell.rotate)], cell.delta[lane]));
      stateRotate := Turn(stateRotate, cell.rotate);
    }
    var inverseRotate := TurnBack(stateRotate);
    var inverseDelta: Vector := seq(WIDTH, lane requires 0 <= lane < WIDTH =>
                                    Negate(stateDelta[Turn(lane, inverseRotate)]));
    cells := cells + [Cell(inverseRotate, inverseDelta, terminalSeal)];
    InverseCloses(draws, terminalSeal);
    assert draws[..|draws|] == draws;
    var seen := RunChain(PROBE, cells);
    if seen != PROBE {
      return Failure("did not generate an identity composition");
    }
    return Success(cells);
  }

  lemma InverseCloses(prefix: seq<Cell>, seal: string)
    ensures IsIdentity(prefix + [Inverse(Summary(prefix), seal)])
  {
    var cells := prefix + [Inverse(Summary(prefix), seal)];
    assert cells[..|prefix|] == prefix;
    assert Summary(cells).delta == ZERO;
    IdentityIffNeutral(cells);
  }

  // The terminal cell is forced: any cell closing the prefix to the identity moves as the computed inverse.
  lemma TerminalIsForced(prefix: seq<Cell>, last: Cell)
    ensures IsIdentity(prefix + [last]) <==> last == Inverse(Summary(prefix), last.seal)
  {
    InverseCloses(prefix, last.seal);
    if IsIdentity(prefix + [last]) {
      IdentityIffNeutral(prefix + [last]);
      assert (prefix + [last])[..|prefix|] == prefix;
      var form := Summary(prefix);
      assert Then(form, last) == NEUTRAL;
      NeutralizingCell(form, last);
    }
  }

  lemma NeutralizingCell(form: Affine, last: Cell)
    requires Then(form, last) == NEUTRAL
    ensures last == Inverse(form, last.seal)
  {
    var inverse := Inverse(form, last.seal);
    assert Then(form, last).rotate == 0;
    assert last.rotate == inverse.rotate;
    forall lane: Lane ensures last.delta[lane] == inverse.delta[lane] {
      assert Then(form, last).delta[lane] == 0;
    }
  }

  /* ---------- What probes can and cannot see ---------- */

  // One probe alone does not decide the identity: this chain fixes the probe and moves other states.
  lemma OneProbeIsNotEnough()
    ensures exists cells :: ApplyChain(PROBE, cells) == PROBE && !IsIdentity(cells)
  {
    var cell := Cell(1, [256, 256, 256, 256, 256, 256, 256, 7], "");
    assert [cell][..0] == [];
    assert Summary([cell]) == Then(NEUTRAL, cell);
    assert Then(NEUTRAL, cell).rotate == 1;
    IdentityIffNeutral([cell]);
    ProbeStays(cell);
    assert ApplyChain(PROBE, [cell]) == ApplyCell(PROBE, cell);
  }

  // A chain that the probe accepts is the identity exactly when its rotations add up to none.
  lemma OneProbeDecidesIff(cells: seq<Cell>)
    requires ApplyChain(PROBE, cells) == PROBE
    ensures IsIdentity(cells) <==> Summary(cells).rotate == 0
  {
    var form := Summary(cells);
    IdentityIffNeutral(cells);
    if form.rotate == 0 {
      forall lane: Lane ensures form.delta[lane] == 0 {
        SummaryIsExact(PROBE, cells, lane);
        LaneStays(form, lane);
      }
      assert form.delta == ZERO;
    }
  }

  lemma LaneStays(form: Affine, lane: Lane)
    requires form.rotate == 0 && Moved(PROBE, form, lane) == PROBE[lane]
    ensures form.delta[lane] == 0
  {
  }

  lemma ProbeStays(cell: Cell)
    requires cell.rotate == 1 && cell.delta == [256, 256, 256, 256, 256, 256, 256, 7]
    ensures ApplyCell(PROBE, cell) == PROBE
  {
    forall lane: Lane ensures ApplyCell(PROBE, cell)[lane] == PROBE[lane] {
      assert PROBE[lane] == lane;
      assert cell.delta[lane] == if lane == 7 then 7 else 256;
    }
  }

  const VERIFY_PROBES: seq<Vector> := [
    [0, 1, 2, 3, 4, 5, 6, 7],
    [13, 8, 21, 34, 55, 89, 144, 233],
    [101, 103, 107, 109, 113, 127, 131, 137]]

  ghost predicate PassesSelfVerification(cells: seq<Cell>) {
    forall k :: 0 <= k < 3 ==> ApplyChain(VERIFY_PROBES[k], cells) == VERIFY_PROBES[k]
  }

  // The three probes of the self-verification accept a chain exactly when it is the identity everywhere.
  lemma SelfVerificationIsComplete(cells: seq<Cell>)
    ensures PassesSelfVerification(cells) <==> IsIdentity(cells)
  {
    if PassesSelfVerification(cells) {
      var form := Summary(cells);
      SummaryIsExact(VERIFY_PROBES[0], cells, 0);
      SummaryIsExact(VERIFY_PROBES[1], cells, 0);
      assert ApplyChain(VERIFY_PROBES[0], cells)[0] == 0 && ApplyChain(VERIFY_PROBES[1], cells)[0] == 13;
      assert form.rotate == 0;
      forall lane: Lane ensures form.delta[lane] == 0 {
        SummaryIsExact(VERIFY_PROBES[0], cells, lane);
        assert ApplyChain(VERIFY_PROBES[0], cells)[lane] == VERIFY_PROBES[0][lane];
      }
      IdentityIffNeutral(cells);
    }
  }
}
