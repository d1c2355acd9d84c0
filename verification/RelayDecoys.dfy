// The query decoy of the history: when it changes anything at all, and when it leaves the literal-identity slot.
module RelayDecoys {
  import opened RelayCells
  import opened RelayFaults
  import opened RelayBundle

  const DECOY: nat := 73

  /* ---------- A decoy is a nudge of one lane ---------- */

  // What the write of one lane's successor into another adds to that lane.
  function DecoyAmount(cell: Cell, sink: Lane, source: Lane): Residue {
    Sub(Add(cell.delta[source], 1), cell.delta[sink])
  }

  lemma DecoyIsANudge(cell: Cell, changed: Cell, sink: Lane, source: Lane)
    requires changed.rotate == cell.rotate && CopiesSuccessor(cell, changed, sink, source)
    ensures changed == Nudged(cell, sink, DecoyAmount(cell, sink, source), changed.seal)
    ensures DecoyAmount(cell, sink, source) == 0 <==> cell.delta[sink] == Add(cell.delta[source], 1)
  {
  }

  // The write changes nothing exactly when the lane already holds that successor; never if both lanes are the same.
  lemma DecoyIsVoidIff(cell: Cell, changed: Cell, sink: Lane, source: Lane)
    requires CopiesSuccessor(cell, changed, sink, source)
    ensures changed.delta == cell.delta <==> cell.delta[sink] == Add(cell.delta[source], 1)
    ensures sink == source ==> changed.delta != cell.delta
  {
    assert changed.delta[sink] == Add(cell.delta[source], 1);
  }

  // At the end of the chain it shows in exactly one lane: the one to which the rest of the chain carries the sink.
  lemma DecoyMovesOneLane(cells: seq<Cell>, initial: seq<Cell>, index: nat, sink: Lane, source: Lane, state: Vector)
    requires index < |cells| && |initial| == |cells| && initial == cells[index := initial[index]]
    requires initial[index].rotate == cells[index].rotate
    requires CopiesSuccessor(cells[index], initial[index], sink, source)
    ensures forall target: Lane :: ApplyChain(state, initial)[target]
              == Add(ApplyChain(state, cells)[target],
                     if Turn(target, CarriedLane(cells, index)) == sink
                     then DecoyAmount(cells[index], sink, source) else 0)
  {
    DecoyIsANudge(cells[index], initial[index], sink, source);
    NudgeMovesOneLane(cells, index, sink, DecoyAmount(cells[index], sink, source), initial[index].seal, state);
  }

  /* ---------- Where the rest of the chain carries a lane ---------- */

  lemma {:induction false} RotationsAdd(left: seq<Cell>, right: seq<Cell>)
    ensures Summary(left + right).rotate == Turn(Summary(left).rotate, Summary(right).rotate)
  {
    if right == [] {
      assert left + right == left;
    } else {
      var n := |right| - 1;
      RotationsAdd(left, right[..n]);
      assert (left + right)[..|left + right| - 1] == left + right[..n];
      TurnTwice(Summary(left).rotate, Summary(right[..n]).rotate, right[n].rotate);
    }
  }

  // In an identity chain the suffix undoes the rotations of the prefix.
  lemma PrefixTellsTheCarriedLane(cells: seq<Cell>, index: nat)
    requires IsIdentity(cells) && index < |cells|
    ensures CarriedLane(cells, index) == TurnBack(Summary(cells[..index + 1]).rotate)
  {
    IdentityIffNeutral(cells);
    Halves(cells, index + 1);
    RotationsAdd(cells[..index + 1], cells[index + 1..]);
    UndoneTurn(Summary(cells[..index + 1]).rotate, CarriedLane(cells, index));
  }

  lemma Halves<T>(s: seq<T>, k: nat)
    requires k <= |s|
    ensures s[..k] + s[k..] == s
  {
  }

  lemma UndoneTurn(first: Lane, second: Lane)
    requires Turn(first, second) == 0
    ensures second == TurnBack(first)
  {
  }

  /* ---------- The query decoy of a built plan ---------- */

  // The write that the draws imply finds its own value in place.
  predicate VoidDecoy(draws: PlanDraws)
    requires ValidDraws(Query, draws)
  {
    draws.cells[DECOY].delta[draws.sink] == Add(draws.cells[DECOY].delta[draws.source], 1)
  }

  // The lane of the decoy cell that the rest of the drawn chain carries to the identity clause.
  function IdentityLane(draws: PlanDraws): Lane
    requires ValidDraws(Query, draws)
  {
    TurnBack(Summary(draws.cells[..DECOY + 1]).rotate)
  }

  // Adding this to lane 0 of the seed, which is 23, leaves slot 2.
  predicate LeavesSlotTwo(amount: Residue) {
    if amount < 234 then amount % 3 != 0 else amount % 3 != 2
  }

  predicate LeavingDecoy(draws: PlanDraws)
    requires ValidDraws(Query, draws)
  {
    draws.sink == IdentityLane(draws) &&
    LeavesSlotTwo(DecoyAmount(draws.cells[DECOY], draws.sink, draws.source))
  }

  lemma SlotTwo(amount: Residue)
    ensures Add(QUERY_SEED[0], amount) % 3 != 2 <==> LeavesSlotTwo(amount)
  {
  }

  lemma DrawnDecoy(draws: PlanDraws, plan: Plan)
    requires ValidDraws(Query, draws) && Built(Query, plan) && FollowsDraws(Query, draws, plan)
    ensures |plan.correct| == |plan.initial| == 96 && plan.correct[DECOY] == draws.cells[DECOY]
    ensures plan.initial == plan.correct[DECOY := plan.initial[DECOY]]
    ensures FollowsAt(draws, plan.correct, plan.initial, DECOY)
    ensures CarriedLane(plan.correct, DECOY) == IdentityLane(draws)
  {
    assert plan.correct[..95][DECOY] == draws.cells[DECOY];
    assert plan.correct[..DECOY + 1] == draws.cells[..DECOY + 1];
    PrefixTellsTheCarriedLane(plan.correct, DECOY);
    assert FollowsAt(draws, plan.correct, plan.initial, Config(Query).decoys[0]);
  }

  // From the draws: every input of the query chain at the start of history comes out with the decoy's amount in the one
  // lane that the rest of the chain turns to the sink.
  lemma DrawnDecoyMoves(draws: PlanDraws, plan: Plan, state: Vector)
    requires ValidDraws(Query, draws) && Built(Query, plan) && FollowsDraws(Query, draws, plan)
    ensures forall target: Lane :: ApplyChain(state, plan.initial)[target]
              == Add(state[target], if Turn(target, IdentityLane(draws)) == draws.sink
                                    then DecoyAmount(draws.cells[DECOY], draws.sink, draws.source) else 0)
  {
    DrawnDecoy(draws, plan);
    DecoyMovesOneLane(plan.correct, plan.initial, DECOY, draws.sink, draws.source, state);
    assert ApplyChain(state, plan.correct) == state;
  }

  lemma SomeLaneIsTurnedTo(turn: Lane, sink: Lane) returns (target: Lane)
    ensures Turn(target, turn) == sink
  {
    target := Turn(sink, TurnBack(turn));
  }

  // The query chain at the start of history works like the correct one exactly when the drawn write changes nothing.
  lemma QueryDecoyIsVoidIff(draws: PlanDraws, plan: Plan)
    requires ValidDraws(Query, draws) && Built(Query, plan) && FollowsDraws(Query, draws, plan)
    ensures IsIdentity(plan.initial) <==> VoidDecoy(draws)
  {
    var amount := DecoyAmount(draws.cells[DECOY], draws.sink, draws.source);
    if VoidDecoy(draws) {
      forall state: Vector ensures ApplyChain(state, plan.initial) == state {
        DrawnDecoyMoves(draws, plan, state);
        SameLanes(ApplyChain(state, plan.initial), state);
      }
    } else {
      var target := SomeLaneIsTurnedTo(IdentityLane(draws), draws.sink);
      DrawnDecoyMoves(draws, plan, ZERO);
      assert ApplyChain(ZERO, plan.initial)[target] == Add(ZERO[target], amount) != ZERO[target];
    }
  }

  lemma SameLanes(a: Vector, b: Vector)
    requires forall target: Lane :: a[target] == Add(b[target], 0)
    ensures a == b
  {
  }

  // The query at the start of history leaves the literal-identity slot exactly when the sink is the one lane that
  // reaches it and the amount changes the residue.
  lemma QueryDecoyLeavesSlotIff(draws: PlanDraws, plan: Plan)
    requires ValidDraws(Query, draws) && Built(Query, plan) && FollowsDraws(Query, draws, plan)
    ensures QuerySlot(ApplyChain(QUERY_SEED, plan.correct)) == 2
    ensures QuerySlot(ApplyChain(QUERY_SEED, plan.initial)) != 2 <==> LeavingDecoy(draws)
  {
    assert ApplyChain(QUERY_SEED, plan.correct) == QUERY_SEED;
    DrawnDecoyMoves(draws, plan, QUERY_SEED);
    SlotTwo(DecoyAmount(draws.cells[DECOY], draws.sink, draws.source));
    TurnZero(IdentityLane(draws));
  }

  lemma TurnZero(turn: Lane)
    ensures Turn(0, turn) == turn
  {
  }

  /* ---------- Draws of each kind ---------- */

  // A chain that rotates by one lane per cell; its decoy writes from lane `source` to lane `sink`.
  function SampleDraws(sink: Lane, source: Lane): PlanDraws {
    var touches := [Touch(0, 7), Touch(1, 7), Touch(2, 7)];
    PlanDraws(seq(95, _ => SAMPLE_CELL), "", map[37 := touches, 73 := touches], sink, source, "")
  }

  const SAMPLE_CELL := Cell(1, ZERO[0 := 1], "")

  lemma SampleIsValid(sink: Lane, source: Lane)
    ensures ValidDraws(Query, SampleDraws(sink, source))
  {
    assert ValidTouches([Touch(0, 7), Touch(1, 7), Touch(2, 7)]);
  }

  lemma {:induction false} SampleRotates(cells: seq<Cell>)
    requires forall k :: 0 <= k < |cells| ==> cells[k].rotate == 1
    ensures Summary(cells).rotate == |cells| % WIDTH
  {
    if cells != [] {
      SampleRotates(cells[..|cells| - 1]);
      NextLane(|cells| - 1);
    }
  }

  lemma NextLane(n: nat)
    ensures Turn(n % WIDTH, 1) == (n + 1) % WIDTH
  {
  }

  // One void decoy, one that changes the chain but not the slot, and one that leaves the slot.
  lemma DecoysOfEveryKind()
    ensures forall sink: Lane, source: Lane :: ValidDraws(Query, SampleDraws(sink, source))
    ensures VoidDecoy(SampleDraws(0, 1)) && !LeavingDecoy(SampleDraws(0, 1))
    ensures !VoidDecoy(SampleDraws(0, 0)) && !LeavingDecoy(SampleDraws(0, 0))
    ensures !VoidDecoy(SampleDraws(6, 6)) && LeavingDecoy(SampleDraws(6, 6))
  {
    forall sink: Lane, source: Lane ensures ValidDraws(Query, SampleDraws(sink, source)) {
      SampleIsValid(sink, source);
    }
    SampleLane(0, 1);
    SampleLane(0, 0);
    SampleLane(6, 6);
  }

  lemma SampleLane(sink: Lane, source: Lane)
    requires ValidDraws(Query, SampleDraws(sink, source))
    ensures IdentityLane(SampleDraws(sink, source)) == 6
    ensures SampleDraws(sink, source).cells[DECOY] == SAMPLE_CELL
  {
    SampleRotates(SampleDraws(sink, source).cells[..DECOY + 1]);
  }
}
