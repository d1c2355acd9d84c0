// The penalty for exceeding the Scenario's own budget, applied to a finished scorecard.
module Overtime {
  import opened Wrappers
  import opened Rounding
  import opened RunBudget

  datatype Dimension = ActiveTime | ToolCalls | ProviderRequests | TotalTokens

  const DIMENSIONS := [ActiveTime, ToolCalls, ProviderRequests, TotalTokens]

  type Usage = map<Dimension, int>
  type Weights = map<Dimension, real>

  const DEFAULT_WEIGHTS: Weights :=
    map[ActiveTime := 30.0, ToolCalls := 30.0, ProviderRequests := 15.0, TotalTokens := 15.0]

  function Hard(budget: Budget, d: Dimension): Option<int> {
    match d
    case ActiveTime => budget.hardSeconds
    case ToolCalls => budget.hardToolCalls
    case ProviderRequests => budget.hardProviderRequests
    case TotalTokens => budget.hardTotalTokens
  }

  function Used(usage: Usage, d: Dimension): int {
    if d in usage then usage[d] else 0
  }

  function Weight(weights: Weights, d: Dimension): real {
    if d in weights then weights[d] else 0.0
  }

  function RealMax(x: real, y: real): real {
    if x < y then y else x
  }

  function RealMin(x: real, y: real): real {
    if x < y then x else y
  }

  // The part by which usage exceeds a limit, relative to the limit, at most the cap.
  function Overrun(used: int, hard: Option<int>, cap: real): real {
    if hard.None? then 0.0
    else RealMin(if hard.value == 0 then 0.0 else RealMax(0.0, (used - hard.value) as real / hard.value as real), cap)
  }

  function Charge(overrun: real, weight: real): real {
    Round2(overrun * weight)
  }

  type Penalties = Dimension -> real

  function PenaltiesOf(usage: Usage, budget: Budget, cap: real, weights: Weights): Penalties {
    (d: Dimension) => Charge(Overrun(Used(usage, d), Hard(budget, d), cap), Weight(weights, d))
  }

  function Total(penalties: Penalties, dimensions: seq<Dimension>): real {
    if dimensions == [] then 0.0
    else Total(penalties, dimensions[..|dimensions| - 1]) + penalties(dimensions[|dimensions| - 1])
  }

  function TotalPenalty(usage: Usage, budget: Budget, cap: real, weights: Weights): real {
    Total(PenaltiesOf(usage, budget, cap, weights), DIMENSIONS)
  }

  // Whether a limit was exceeded, as the scorecard says it: with a cap of zero nothing counts.
  predicate Exceeds(usage: Usage, budget: Budget, cap: real, d: Dimension) {
    Overrun(Used(usage, d), Hard(budget, d), cap) > 0.0
  }

  const REASON := "exceeded_default_budget"

  class Scorecard {
    var score: real
    var status: string
    var censored: bool
    var reasons: seq<string>
    var penalty: real

    // apply_overtime_penalty.
    method ApplyOvertimePenalty(usage: Usage, budget: Budget, cap: real, weights: Weights)
      modifies this
      ensures score == ScoreAfter(old(score), usage, budget, cap, weights)
      ensures penalty == Round2(TotalPenalty(usage, budget, cap, weights))
      ensures if AnyExceeds(usage, budget, cap) then Exhausted(old(reasons))
              else status == old(status) && censored == old(censored) && reasons == old(reasons)
    {
      var exceeds := (d: Dimension) => Exceeds(usage, budget, cap, d);
      var total, exceeded := AddPenalties(PenaltiesOf(usage, budget, cap, weights), exceeds);
      SomeDimension(usage, budget, cap);
      if exceeded {
        MarkExhausted();
      }
      score := Reduced(score, total);
      penalty := Round2(total);
    }

    predicate Exhausted(before: seq<string>)
      reads this
    {
      status == "budget_exhausted" && censored && reasons == if REASON in before then before else before + [REASON]
    }

    method MarkExhausted()
      modifies this`status, this`censored, this`reasons
      ensures Exhausted(old(reasons))
    {
      status, censored := "budget_exhausted", true;
      if REASON !in reasons {
        reasons := reasons + [REASON];
      }
    }
  }

  // The loop over the dimensions.
  method AddPenalties(penalties: Penalties, exceeds: Dimension -> bool) returns (total: real, exceeded: bool)
    ensures total == Total(penalties, DIMENSIONS)
    ensures exceeded <==> exists k :: 0 <= k < |DIMENSIONS| && exceeds(DIMENSIONS[k])
  {
    var dimensions := DIMENSIONS;
    total, exceeded := 0.0, false;
    for i := 0 to |dimensions|
      invariant total == Total(penalties, dimensions[..i])
      invariant exceeded <==> exists k :: 0 <= k < i && exceeds(dimensions[k])
    {
      assert dimensions[..i + 1][..i] == dimensions[..i];
      total := total + penalties(dimensions[i]);
      if exceeds(dimensions[i]) {
        exceeded := true;
      }
    }
    assert dimensions[..|dimensions|] == dimensions;
  }

  function ScoreAfter(score: real, usage: Usage, budget: Budget, cap: real, weights: Weights): real {
    Reduced(score, TotalPenalty(usage, budget, cap, weights))
  }

  function Reduced(score: real, penalty: real): real {
    Round2(RealMax(0.0, score - penalty))
  }

  ghost predicate AnyExceeds(usage: Usage, budget: Budget, cap: real) {
    exists d :: Exceeds(usage, budget, cap, d)
  }

  lemma SomeDimension(usage: Usage, budget: Budget, cap: real)
    ensures AnyExceeds(usage, budget, cap)
            <==> exists k :: 0 <= k < |DIMENSIONS| && Exceeds(usage, budget, cap, DIMENSIONS[k])
  {
    if d :| Exceeds(usage, budget, cap, d) {
      var k := match d case ActiveTime => 0 case ToolCalls => 1 case ProviderRequests => 2 case TotalTokens => 3;
      assert DIMENSIONS[k] == d;
    }
  }

  /* ---------- Bounds ---------- */

  ghost predicate NonNegative(weights: Weights) {
    forall d :: d in weights ==> weights[d] >= 0.0
  }

  lemma OverrunBounds(used: int, hard: Option<int>, cap: real)
    requires cap >= 0.0
    ensures 0.0 <= Overrun(used, hard, cap) <= cap || (hard.None? && Overrun(used, hard, cap) == 0.0)
  {
  }

  // Below the cap the overrun is what was used beyond the limit as a part of the limit; beyond it the cap counts.
  lemma OverrunMeans(used: int, hard: int, cap: real)
    requires hard > 0 && cap >= 0.0
    ensures used <= hard ==> Overrun(used, Some(hard), cap) == 0.0
    ensures used > hard && (used - hard) as real <= cap * hard as real ==>
              Overrun(used, Some(hard), cap) * hard as real == (used - hard) as real
    ensures (used - hard) as real > cap * hard as real ==> Overrun(used, Some(hard), cap) == cap
    ensures Overrun(used, None, cap) == 0.0
  {
    var h, beyond := hard as real, (used - hard) as real;
    assert beyond / h * h == beyond;
    if used <= hard {
      QuotientOrder(beyond, 0.0, h);
      assert 0.0 / h == 0.0;
    } else {
      QuotientSign(beyond, h);
      if beyond <= cap * h {
        FactorOrder(beyond / h, cap, h);
      } else if beyond / h <= cap {
        ProductKeepsOrder(beyond / h, cap, h);
      }
    }
  }

  // The penalty is the sum of four charges, each for its own limit and usage.
  lemma PenaltyInFull(usage: Usage, budget: Budget, cap: real, weights: Weights)
    ensures TotalPenalty(usage, budget, cap, weights)
            == Charge(Overrun(Used(usage, ActiveTime), budget.hardSeconds, cap), Weight(weights, ActiveTime))
             + Charge(Overrun(Used(usage, ToolCalls), budget.hardToolCalls, cap), Weight(weights, ToolCalls))
             + Charge(Overrun(Used(usage, ProviderRequests), budget.hardProviderRequests, cap),
                      Weight(weights, ProviderRequests))
             + Charge(Overrun(Used(usage, TotalTokens), budget.hardTotalTokens, cap), Weight(weights, TotalTokens))
  {
    FourTerms(PenaltiesOf(usage, budget, cap, weights));
  }

  // A number of whole hundredths.
  predicate InHundredths(x: real, n: int) {
    x == n as real / 100.0
  }

  lemma HundredthsStay(x: real, n: int)
    requires InHundredths(x, n)
    ensures Round2(x) == x
  {
    assert x * 100.0 == n as real;
    WholeNumbersStay(n);
  }

  lemma {:induction false} TotalInHundredths(penalties: Penalties, dimensions: seq<Dimension>) returns (n: int)
    requires forall d :: penalties(d) == Round2(penalties(d))
    ensures InHundredths(Total(penalties, dimensions), n)
  {
    if dimensions == [] {
      n := 0;
    } else {
      var m := TotalInHundredths(penalties, dimensions[..|dimensions| - 1]);
      n := m + RoundInt(penalties(dimensions[|dimensions| - 1]) * 100.0);
    }
  }

  lemma ChargesInHundredths(usage: Usage, budget: Budget, cap: real, weights: Weights) returns (n: int)
    ensures InHundredths(TotalPenalty(usage, budget, cap, weights), n)
  {
    var penalties := PenaltiesOf(usage, budget, cap, weights);
    forall d ensures penalties(d) == Round2(penalties(d)) {
      var x := Overrun(Used(usage, d), Hard(budget, d), cap) * Weight(weights, d);
      HundredthsStay(Round2(x), RoundInt(x * 100.0));
    }
    n := TotalInHundredths(penalties, DIMENSIONS);
  }

  // A score in hundredths loses exactly the penalty, or all it has.
  lemma ScoreLosesThePenalty(score: real, n: int, usage: Usage, budget: Budget, cap: real, weights: Weights)
    requires InHundredths(score, n)
    ensures var penalty := TotalPenalty(usage, budget, cap, weights);
            && Round2(penalty) == penalty
            && ScoreAfter(score, usage, budget, cap, weights) == if penalty <= score then score - penalty else 0.0
  {
    var m := ChargesInHundredths(usage, budget, cap, weights);
    var penalty := TotalPenalty(usage, budget, cap, weights);
    HundredthsStay(penalty, m);
    if penalty <= score {
      HundredthsStay(score - penalty, n - m);
    } else {
      HundredthsStay(0.0, 0);
    }
  }

  // A dimension counts as exceeded exactly when more than its limit was used and the cap lets it count.
  lemma ExceedsIff(usage: Usage, budget: Budget, cap: real, d: Dimension)
    requires Valid(budget) && cap >= 0.0
    ensures Exceeds(usage, budget, cap, d)
            <==> cap > 0.0 && Hard(budget, d).Some? && Used(usage, d) > Hard(budget, d).value
  {
    var hard := Hard(budget, d);
    if hard.Some? {
      assert hard.value >= 2;
      QuotientSign((Used(usage, d) - hard.value) as real, hard.value as real);
    }
  }

  // The same overrun counts with a cap and not without one.
  lemma ZeroCapHidesOverruns(usage: Usage, budget: Budget, d: Dimension)
    requires Valid(budget) && Hard(budget, d).Some? && Used(usage, d) > Hard(budget, d).value
    ensures Exceeds(usage, budget, 1.0, d) && !Exceeds(usage, budget, 0.0, d)
  {
    ExceedsIff(usage, budget, 1.0, d);
    ExceedsIff(usage, budget, 0.0, d);
  }

  lemma QuotientSign(x: real, h: real)
    requires h > 0.0
    ensures x / h > 0.0 <==> x > 0.0
  {
    var q := x / h;
    assert q * h == x;
  }

  lemma ChargeBounds(overrun: real, cap: real, weight: real)
    requires 0.0 <= overrun <= cap && weight >= 0.0
    ensures 0.0 <= Charge(overrun, weight) <= Charge(cap, weight)
  {
    ProductIsNonNegative(overrun, weight);
    ProductKeepsOrder(overrun, cap, weight);
    Round2KeepsOrder(0.0, overrun * weight);
    Round2KeepsOrder(overrun * weight, cap * weight);
    assert Round2(0.0) == 0.0;
  }

  ghost predicate AtMost(a: Penalties, b: Penalties) {
    forall d :: a(d) <= b(d)
  }

  lemma {:induction false} TotalsKeepOrder(a: Penalties, b: Penalties, dimensions: seq<Dimension>)
    requires AtMost(a, b)
    ensures Total(a, dimensions) <= Total(b, dimensions)
  {
    if dimensions != [] {
      TotalsKeepOrder(a, b, dimensions[..|dimensions| - 1]);
    }
  }

  const NOTHING: Penalties := (d: Dimension) => 0.0

  function FullPenalties(cap: real, weights: Weights): Penalties {
    (d: Dimension) => Charge(cap, Weight(weights, d))
  }

  lemma FourTerms(penalties: Penalties)
    ensures Total(penalties, DIMENSIONS)
            == penalties(ActiveTime) + penalties(ToolCalls) + penalties(ProviderRequests) + penalties(TotalTokens)
  {
    var dimensions := DIMENSIONS;
    var three, two, one := dimensions[..3], dimensions[..2], dimensions[..1];
    assert three[..2] == two && two[..1] == one && one[..0] == [];
    assert Total(penalties, one) == penalties(ActiveTime);
    assert Total(penalties, two) == penalties(ActiveTime) + penalties(ToolCalls);
    assert Total(penalties, three) == penalties(ActiveTime) + penalties(ToolCalls) + penalties(ProviderRequests);
  }

  lemma PenaltyBounds(usage: Usage, budget: Budget, cap: real, weights: Weights, d: Dimension)
    requires cap >= 0.0 && NonNegative(weights)
    ensures 0.0 <= PenaltiesOf(usage, budget, cap, weights)(d) <= FullPenalties(cap, weights)(d)
  {
    OverrunBounds(Used(usage, d), Hard(budget, d), cap);
    ChargeBounds(Overrun(Used(usage, d), Hard(budget, d), cap), cap, Weight(weights, d));
  }

  // The penalty lies between nothing and the capped weights.
  lemma TotalBounds(usage: Usage, budget: Budget, cap: real, weights: Weights)
    requires cap >= 0.0 && NonNegative(weights)
    ensures 0.0 <= TotalPenalty(usage, budget, cap, weights) <= Total(FullPenalties(cap, weights), DIMENSIONS)
  {
    var penalties := PenaltiesOf(usage, budget, cap, weights);
    var full := FullPenalties(cap, weights);
    forall d: Dimension ensures NOTHING(d) <= penalties(d) && penalties(d) <= full(d) {
      PenaltyBounds(usage, budget, cap, weights, d);
    }
    TotalsKeepOrder(penalties, full, DIMENSIONS);
    TotalsKeepOrder(NOTHING, penalties, DIMENSIONS);
    FourTerms(NOTHING);
  }

  // With the default cap and weights at most 180 points are lost.
  lemma DefaultPenaltyIsAtMost180(usage: Usage, budget: Budget)
    ensures 0.0 <= TotalPenalty(usage, budget, 2.0, DEFAULT_WEIGHTS) <= 180.0
  {
    TotalBounds(usage, budget, 2.0, DEFAULT_WEIGHTS);
    FourTerms(FullPenalties(2.0, DEFAULT_WEIGHTS));
    assert Charge(2.0, 30.0) == 60.0 && Charge(2.0, 15.0) == 30.0 by {
      WholeNumbersStay(6000);
      WholeNumbersStay(3000);
    }
  }

  /* ---------- Monotonicity ---------- */

  ghost predicate NoLess(more: Usage, less: Usage) {
    forall d :: Used(less, d) <= Used(more, d)
  }

  lemma OverrunGrows(less: int, more: int, hard: Option<int>, cap: real)
    requires less <= more && (hard.Some? ==> hard.value > 0)
    ensures Overrun(less, hard, cap) <= Overrun(more, hard, cap)
  {
    if hard.Some? {
      QuotientOrder((less - hard.value) as real, (more - hard.value) as real, hard.value as real);
    }
  }

  lemma ChargeGrows(less: real, more: real, weight: real)
    requires less <= more && weight >= 0.0
    ensures Charge(less, weight) <= Charge(more, weight)
  {
    ProductKeepsOrder(less, more, weight);
    Round2KeepsOrder(less * weight, more * weight);
  }

  lemma PenaltiesGrow(less: Usage, more: Usage, budget: Budget, cap: real, weights: Weights)
    requires NoLess(more, less) && Valid(budget) && NonNegative(weights)
    ensures TotalPenalty(less, budget, cap, weights) <= TotalPenalty(more, budget, cap, weights)
  {
    var a, b := PenaltiesOf(less, budget, cap, weights), PenaltiesOf(more, budget, cap, weights);
    forall d ensures a(d) <= b(d) {
      OverrunGrows(Used(less, d), Used(more, d), Hard(budget, d), cap);
      ChargeGrows(Overrun(Used(less, d), Hard(budget, d), cap), Overrun(Used(more, d), Hard(budget, d), cap),
                  Weight(weights, d));
    }
    TotalsKeepOrder(a, b, DIMENSIONS);
  }

  lemma LessIsLess(score: real, small: real, large: real)
    requires 0.0 <= small <= large
    ensures 0.0 <= Reduced(score, large) <= Reduced(score, small)
    ensures score >= 0.0 ==> Reduced(score, small) <= Round2(score)
  {
    Round2KeepsOrder(RealMax(0.0, score - large), RealMax(0.0, score - small));
    Round2KeepsOrder(0.0, RealMax(0.0, score - large));
    assert Round2(0.0) == 0.0;
    if score >= 0.0 {
      Round2KeepsOrder(RealMax(0.0, score - small), score);
    }
  }

  // Using more of anything never gives a better score, and no penalty raises a score.
  lemma MoreUsageNeverHelps(score: real, less: Usage, more: Usage, budget: Budget, cap: real, weights: Weights)
    requires NoLess(more, less) && Valid(budget) && NonNegative(weights) && cap >= 0.0
    ensures 0.0 <= ScoreAfter(score, more, budget, cap, weights) <= ScoreAfter(score, less, budget, cap, weights)
    ensures score >= 0.0 ==> ScoreAfter(score, less, budget, cap, weights) <= Round2(score)
  {
    PenaltiesGrow(less, more, budget, cap, weights);
    TotalBounds(less, budget, cap, weights);
    LessIsLess(score, TotalPenalty(less, budget, cap, weights), TotalPenalty(more, budget, cap, weights));
  }

  // A run within its limits loses nothing.
  lemma WithinLimitsNothingIsLost(usage: Usage, budget: Budget, cap: real, weights: Weights)
    requires Valid(budget) && cap >= 0.0
    requires forall d :: Hard(budget, d).Some? ==> Used(usage, d) <= Hard(budget, d).value
    ensures TotalPenalty(usage, budget, cap, weights) == 0.0
  {
    var penalties := PenaltiesOf(usage, budget, cap, weights);
    forall d ensures penalties(d) == 0.0 {
      ExceedsIff(usage, budget, cap, d);
      OverrunBounds(Used(usage, d), Hard(budget, d), cap);
      assert Overrun(Used(usage, d), Hard(budget, d), cap) == 0.0;
      WholeNumbersStay(0);
    }
    FourTerms(penalties);
  }
}
