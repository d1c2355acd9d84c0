// The graders: greedy subsequence search, clamped dimensions, deductions, caps in any order, verification after the
// last mutation, and recovered faults.
module Scoring {
  import opened Wrappers
  import opened Rounding

  /* ---------- Ordered subsequences ---------- */

  // The expected values occur in order at ascending places.
  ghost predicate EmbeddedAt(expected: seq<string>, values: seq<string>, places: seq<nat>) {
    && |places| == |expected|
    && (forall k :: 0 <= k < |places| ==> places[k] < |values| && values[places[k]] == expected[k])
    && (forall i, j :: 0 <= i < j < |places| ==> places[i] < places[j])
  }

  ghost predicate Embeds(expected: seq<string>, values: seq<string>) {
    exists places :: EmbeddedAt(expected, values, places)
  }

  // How many expected values the greedy pass has matched after n values.
  function Cursor(values: seq<string>, expected: seq<string>, n: nat): (cursor: nat)
    requires n <= |values|
    ensures cursor <= |expected|
  {
    if n == 0 then 0
    else
      var before := Cursor(values, expected, n - 1);
      if before < |expected| && values[n - 1] == expected[before] then before + 1 else before
  }

  // The greedy pass matches a prefix at ascending places.
  lemma {:induction false} GreedyPlaces(values: seq<string>, expected: seq<string>, n: nat) returns (places: seq<nat>)
    requires n <= |values|
    ensures EmbeddedAt(expected[..Cursor(values, expected, n)], values, places)
    ensures forall k :: 0 <= k < |places| ==> places[k] < n
  {
    if n == 0 {
      places := [];
    } else {
      places := GreedyPlaces(values, expected, n - 1);
      if Cursor(values, expected, n) > Cursor(values, expected, n - 1) {
        places := places + [n - 1];
      }
    }
  }

  // The greedy pass is never behind any embedding.
  lemma {:induction false} GreedyIsAhead(values: seq<string>, expected: seq<string>, places: seq<nat>, n: nat, k: nat)
    requires n <= |values| && EmbeddedAt(expected, values, places)
    requires k <= |places| && forall j :: 0 <= j < k ==> places[j] < n
    ensures Cursor(values, expected, n) >= k
    decreases n
  {
    assert k > 0 ==> n > 0 by {
      if k > 0 {
        assert places[k - 1] < n;
      }
    }
    if k > 0 {
      if places[k - 1] == n - 1 {
        GreedyIsAhead(values, expected, places, n - 1, k - 1);
      } else {
        forall j | 0 <= j < k ensures places[j] < n - 1 {
          assert j < k - 1 ==> places[j] < places[k - 1];
        }
        GreedyIsAhead(values, expected, places, n - 1, k);
      }
    }
  }

  lemma GreedyDecides(values: seq<string>, expected: seq<string>)
    ensures Cursor(values, expected, |values|) == |expected| <==> Embeds(expected, values)
  {
    var places := GreedyPlaces(values, expected, |values|);
    if Cursor(values, expected, |values|) == |expected| {
      assert expected[..|expected|] == expected;
    }
    if other :| EmbeddedAt(expected, values, other) {
      GreedyIsAhead(values, expected, other, |values|, |other|);
    }
  }

  method ContainsOrderedSubsequence(values: seq<string>, expected: seq<string>) returns (found: bool)
    ensures found <==> Embeds(expected, values)
  {
    var cursor := 0;
    for i := 0 to |values|
      invariant cursor == Cursor(values, expected, i)
    {
      if cursor < |expected| && values[i] == expected[cursor] {
        cursor := cursor + 1;
      }
    }
    GreedyDecides(values, expected);
    found := cursor == |expected|;
  }

  /* ---------- Dimensions ---------- */

  function Clamp(value: int, maximum: nat): (score: nat)
    ensures (0 <= value <= maximum ==> score == value) && (value < 0 ==> score == 0)
    ensures value > maximum ==> score == maximum
  {
    if value < 0 then 0 else if value > maximum then maximum else value
  }

  // A share of the points for a share of the maximum.
  function RatioPoints(value: int, maximum: int, points: nat): int {
    if maximum <= 0 then 0
    else RoundInt((points * (if value < maximum then value else maximum)) as real / maximum as real)
  }

  lemma RatioOrder(a: int, b: int, maximum: int)
    requires a <= b && maximum > 0
    ensures RoundInt(a as real / maximum as real) <= RoundInt(b as real / maximum as real)
  {
    QuotientOrder(a as real, b as real, maximum as real);
    RoundIntKeepsOrder(a as real / maximum as real, b as real / maximum as real);
  }

  lemma WholeShare(points: nat, maximum: int)
    requires maximum > 0
    ensures RoundInt((points * maximum) as real / maximum as real) == points && RoundInt(0.0 / maximum as real) == 0
  {
    assert (points * maximum) as real == points as real * maximum as real;
    assert points as real * maximum as real / maximum as real == points as real;
    WholeNumbersStay(points);
    WholeNumbersStay(0);
  }

  lemma IntProductOrder(a: int, b: int, points: nat)
    requires a <= b
    ensures points * a <= points * b
  {
    assert points * (b - a) >= 0;
  }

  // More never earns less, nothing earns nothing, and reaching the maximum earns all points and no more.
  lemma RatioPointsAreMonotone(a: int, b: int, maximum: int, points: nat)
    requires a <= b && maximum > 0
    ensures RatioPoints(a, maximum, points) <= RatioPoints(b, maximum, points) <= points
    ensures b >= maximum ==> RatioPoints(b, maximum, points) == points
    ensures a >= 0 ==> RatioPoints(a, maximum, points) >= 0
  {
    var low, high := (if a < maximum then a else maximum), (if b < maximum then b else maximum);
    IntProductOrder(low, high, points);
    IntProductOrder(high, maximum, points);
    RatioOrder(points * low, points * high, maximum);
    RatioOrder(points * high, points * maximum, maximum);
    WholeShare(points, maximum);
    if a >= 0 {
      IntProductOrder(0, low, points);
      RatioOrder(0, points * low, maximum);
    }
  }

  lemma NearestShare(y: real, h: real)
    requires h > 0.0
    ensures -0.5 * h <= RoundInt(y / h) as real * h - y <= 0.5 * h
  {
    RoundIntIsNearest(y / h);
    TimesWhole(y / h, RoundInt(y / h) as real, h, y);
  }

  lemma TimesWhole(x: real, r: real, h: real, y: real)
    requires h > 0.0 && x * h == y && -0.5 <= x - r <= 0.5
    ensures -0.5 * h <= r * h - y <= 0.5 * h
  {
    ProductKeepsOrder(x - 0.5, r, h);
    ProductKeepsOrder(r, x + 0.5, h);
    assert (x - 0.5) * h == x * h - 0.5 * h && (x + 0.5) * h == x * h + 0.5 * h;
  }

  // The points are in proportion: the nearest whole number to their share of the maximum.
  lemma RatioPointsAreInProportion(value: int, maximum: int, points: nat)
    requires maximum > 0 && value <= maximum
    ensures var h := maximum as real;
            -0.5 * h <= RatioPoints(value, maximum, points) as real * h - (points * value) as real <= 0.5 * h
  {
    NearestShare((points * value) as real, maximum as real);
  }

  function Share(x: real): real {
    if x < 0.0 then 0.0 else if x > 1.0 then 1.0 else x
  }

  function SharePoints(share: real, whole: real): int {
    RoundInt(share * whole)
  }

  // The release grader's share: a missing target earns everything.
  function Ratio(value: real, target: real, maximum: nat): int {
    if target <= 0.0 then maximum else SharePoints(Share(value / target), maximum as real)
  }

  lemma MoreShare(x: real, y: real, whole: real)
    requires x <= y && whole >= 0.0
    ensures SharePoints(x, whole) <= SharePoints(y, whole)
  {
    ProductKeepsOrder(x, y, whole);
    RoundIntKeepsOrder(x * whole, y * whole);
  }

  lemma ShareEnds(whole: real)
    ensures SharePoints(0.0, whole) == 0 && SharePoints(1.0, whole) == RoundInt(whole)
  {
    assert 0.0 * whole == 0.0 && 1.0 * whole == whole;
  }

  lemma ReachedTarget(value: real, target: real)
    requires value >= target > 0.0
    ensures Share(value / target) == 1.0
  {
    QuotientOrder(target, value, target);
    assert target / target == 1.0;
  }

  // It stays between nothing and the maximum, is reached at the target, and never falls as the value grows.
  lemma RatioIsMonotone(a: real, b: real, target: real, maximum: nat)
    requires a <= b
    ensures 0 <= Ratio(a, target, maximum) <= Ratio(b, target, maximum) <= maximum
    ensures b >= target ==> Ratio(b, target, maximum) == maximum
  {
    if target > 0.0 {
      QuotientOrder(a, b, target);
      var x, y := Share(a / target), Share(b / target);
      var whole := maximum as real;
      WholeNumbersStay(maximum);
      ShareEnds(whole);
      MoreShare(0.0, x, whole);
      MoreShare(x, y, whole);
      MoreShare(y, 1.0, whole);
      if b >= target {
        ReachedTarget(b, target);
      }
    }
  }

  // Below its target a value earns the nearest whole number to its share of the maximum.
  lemma RatioIsInProportion(value: real, target: real, maximum: nat)
    requires 0.0 <= value <= target && target > 0.0
    ensures -0.5 <= Ratio(value, target, maximum) as real - value / target * maximum as real <= 0.5
  {
    QuotientOrder(0.0, value, target);
    QuotientOrder(value, target, target);
    assert 0.0 / target == 0.0 && target / target == 1.0;
    RoundIntIsNearest(value / target * maximum as real);
  }

  /* ---------- Score, deductions, caps ---------- */

  datatype Deduction = Deduction(code: string, points: nat)

  datatype Cap = Cap(reason: string, maximum: nat)

  function SumScores(scores: seq<nat>): nat {
    if scores == [] then 0 else SumScores(scores[..|scores| - 1]) + scores[|scores| - 1]
  }

  function SumPoints(deductions: seq<Deduction>): nat {
    if deductions == [] then 0 else SumPoints(deductions[..|deductions| - 1]) + deductions[|deductions| - 1].points
  }

  // Deductions are recorded only where something is to be deducted, points for each time.
  function Deduct(deductions: seq<Deduction>, code: string, points: nat, count: int): seq<Deduction> {
    if count > 0 then deductions + [Deduction(code, points * count)] else deductions
  }

  // What a grader found: so many points, so many times.
  datatype Charge = Charge(code: string, points: nat, count: int)

  function Deducted(charges: seq<Charge>): seq<Deduction> {
    if charges == [] then []
    else
      var last := charges[|charges| - 1];
      Deduct(Deducted(charges[..|charges| - 1]), last.code, last.points, last.count)
  }

  // All charges together; a count that is not positive costs nothing.
  function TotalCharge(charges: seq<Charge>): nat {
    if charges == [] then 0
    else
      var last := charges[|charges| - 1];
      TotalCharge(charges[..|charges| - 1]) + last.points * (if last.count > 0 then last.count else 0)
  }

  lemma {:induction false} DeductedIsTheTotal(charges: seq<Charge>)
    ensures SumPoints(Deducted(charges)) == TotalCharge(charges)
  {
    if charges != [] {
      var before, last := Deducted(charges[..|charges| - 1]), charges[|charges| - 1];
      DeductedIsTheTotal(charges[..|charges| - 1]);
      if last.count > 0 {
        assert (before + [Deduction(last.code, last.points * last.count)])[..|before|] == before;
      }
    }
  }

  function Least(score: nat, caps: seq<Cap>): nat {
    if caps == [] then score
    else
      var before, maximum := Least(score, caps[..|caps| - 1]), caps[|caps| - 1].maximum;
      if maximum < before then maximum else before
  }

  function NetScore(scores: seq<nat>, deductions: seq<Deduction>): nat {
    if SumScores(scores) > SumPoints(deductions) then SumScores(scores) - SumPoints(deductions) else 0
  }

  method ApplyCaps(total: nat, caps: seq<Cap>) returns (score: nat)
    ensures score == Least(total, caps)
  {
    score := total;
    for i := 0 to |caps|
      invariant score == Least(total, caps[..i])
    {
      assert caps[..i + 1][..i] == caps[..i];
      if caps[i].maximum < score {
        score := caps[i].maximum;
      }
    }
    assert caps[..|caps|] == caps;
  }

  // A cap holds the score down, and the score is one of the candidates: no cap order can matter.
  lemma {:induction false} LeastIsTheMinimum(total: nat, caps: seq<Cap>)
    ensures Least(total, caps) <= total
    ensures forall c :: c in caps ==> Least(total, caps) <= c.maximum
    ensures Least(total, caps) == total || exists c :: c in caps && c.maximum == Least(total, caps)
  {
    if caps != [] {
      var before, last := caps[..|caps| - 1], caps[|caps| - 1];
      assert caps == before + [last];
      LeastIsTheMinimum(total, before);
      if Least(total, caps) == last.maximum {
        assert last in caps;
      } else if Least(total, before) != total {
        var c :| c in before && c.maximum == Least(total, before);
        assert c in caps;
      }
    }
  }

  lemma CapOrderDoesNotMatter(total: nat, a: seq<Cap>, b: seq<Cap>)
    requires forall c :: c in a <==> c in b
    ensures Least(total, a) == Least(total, b)
  {
    LeastIsTheMinimum(total, a);
    LeastIsTheMinimum(total, b);
  }

  const HIDDEN_WEIGHTS: seq<nat> := [170, 130, 120, 100, 90, 70, 70, 110, 100, 80, 50, 50, 60]
  const SCORING_WEIGHTS: seq<nat> := [160, 110, 110, 100, 70, 70, 90, 100, 100, 60, 70, 50, 60, 50]

  // Each dimension is clamped to its weight.
  function Dimensions(values: seq<int>, weights: seq<nat>): seq<nat>
    requires |values| == |weights|
  {
    seq(|values|, k requires 0 <= k < |values| => Clamp(values[k], weights[k]))
  }

  lemma {:induction false} SumsKeepOrder(a: seq<nat>, b: seq<nat>)
    requires |a| == |b| && forall k :: 0 <= k < |a| ==> a[k] <= b[k]
    ensures SumScores(a) <= SumScores(b)
  {
    if a != [] {
      SumsKeepOrder(a[..|a| - 1], b[..|b| - 1]);
    }
  }

  lemma {:induction false} SumFront(first: nat, rest: seq<nat>)
    ensures SumScores([first] + rest) == first + SumScores(rest)
  {
    var all := [first] + rest;
    if rest == [] {
      assert all[..0] == [];
    } else {
      assert all[..|all| - 1] == [first] + rest[..|rest| - 1];
      SumFront(first, rest[..|rest| - 1]);
    }
  }

  // Summing from the front, which a list of constants unfolds along.
  function SumFromFront(scores: seq<nat>): nat {
    if scores == [] then 0 else scores[0] + SumFromFront(scores[1..])
  }

  lemma {:induction false} SameSum(scores: seq<nat>)
    ensures SumScores(scores) == SumFromFront(scores)
  {
    if scores != [] {
      assert scores == [scores[0]] + scores[1..];
      SumFront(scores[0], scores[1..]);
      SameSum(scores[1..]);
    }
  }

  lemma BothGradersHave1200Points()
    ensures SumScores(HIDDEN_WEIGHTS) == 1200 && SumScores(SCORING_WEIGHTS) == 1200
  {
    SameSum(HIDDEN_WEIGHTS);
    SameSum(SCORING_WEIGHTS);
  }

  // The final score of either grader.
  function FinalScore(values: seq<int>, weights: seq<nat>, deductions: seq<Deduction>, caps: seq<Cap>): nat
    requires |values| == |weights|
  {
    Least(NetScore(Dimensions(values, weights), deductions), caps)
  }

  lemma {:induction false} SumWithOther(scores: seq<nat>, k: nat, x: nat)
    requires k < |scores|
    ensures SumScores(scores[k := x]) + scores[k] == SumScores(scores) + x
  {
    var n := |scores| - 1;
    if k < n {
      SumWithOther(scores[..n], k, x);
      assert scores[k := x][..n] == scores[..n][k := x];
    } else {
      assert scores[k := x][..n] == scores[..n];
    }
  }

  lemma {:induction false} SumOfZeros(scores: seq<nat>)
    requires forall k :: 0 <= k < |scores| ==> scores[k] == 0
    ensures SumScores(scores) == 0
  {
    if scores != [] {
      SumOfZeros(scores[..|scores| - 1]);
    }
  }

  // Every dimension counts by its own value: nothing below zero, and no more than its own weight.
  lemma EachDimensionCounts(values: seq<int>, weights: seq<nat>, k: nat, v: int)
    requires |values| == |weights| && k < |values|
    ensures var raw, other := SumScores(Dimensions(values, weights)), SumScores(Dimensions(values[k := v], weights));
            && (0 <= values[k] <= weights[k] && 0 <= v <= weights[k] ==> other - raw == v - values[k])
            && (values[k] <= 0 && v <= 0 ==> other == raw)
            && (values[k] >= weights[k] && v >= weights[k] ==> other == raw)
    ensures (forall i :: 0 <= i < |values| ==> values[i] <= 0) ==> SumScores(Dimensions(values, weights)) == 0
  {
    var scores := Dimensions(values, weights);
    SumWithOther(scores, k, Clamp(v, weights[k]));
    assert Dimensions(values[k := v], weights) == scores[k := Clamp(v, weights[k])];
    if forall i :: 0 <= i < |values| ==> values[i] <= 0 {
      SumOfZeros(scores);
    }
  }

  // Whatever the dimensions and deductions are, the score lies between 0 and every triggered cap, never above the raw
  // score, and the raw score never above the sum of the weights.
  lemma ScoreIsBounded(values: seq<int>, weights: seq<nat>, deductions: seq<Deduction>, caps: seq<Cap>)
    requires |values| == |weights|
    ensures var raw := SumScores(Dimensions(values, weights));
            FinalScore(values, weights, deductions, caps) <= raw <= SumScores(weights)
    ensures forall c :: c in caps ==> FinalScore(values, weights, deductions, caps) <= c.maximum
  {
    SumsKeepOrder(Dimensions(values, weights), weights);
    LeastIsTheMinimum(NetScore(Dimensions(values, weights), deductions), caps);
  }

  // One more deduction or one more cap never raises the score.
  lemma {:induction false} MoreStrictnessNeverHelps(total: nat, less: nat, caps: seq<Cap>, extra: Cap)
    requires less <= total
    ensures Least(less, caps) <= Least(total, caps) && Least(total, caps + [extra]) <= Least(total, caps)
  {
    assert (caps + [extra])[..|caps|] == caps;
    if caps != [] {
      MoreStrictnessNeverHelps(total, less, caps[..|caps| - 1], extra);
    }
  }

  lemma NetMeans(scores: seq<nat>, deductions: seq<Deduction>)
    ensures SumPoints(deductions) <= SumScores(scores) ==>
              NetScore(scores, deductions) + SumPoints(deductions) == SumScores(scores)
    ensures SumPoints(deductions) > SumScores(scores) ==> NetScore(scores, deductions) == 0
  {
  }

  // A score that is what the points leave, or one of the caps, and no more than either; nothing goes below zero.
  ghost predicate IsScore(score: nat, raw: nat, deducted: nat, caps: seq<Cap>) {
    (forall c :: c in caps ==> score <= c.maximum) &&
    (deducted <= raw ==> score + deducted <= raw) && (deducted > raw ==> score == 0) &&
    (score + deducted == raw || deducted > raw || exists c :: c in caps && c.maximum == score)
  }

  // The final score of either grader is the only one of this kind.
  lemma FinalScoreMeans(values: seq<int>, weights: seq<nat>, deductions: seq<Deduction>, caps: seq<Cap>)
    requires |values| == |weights|
    ensures IsScore(FinalScore(values, weights, deductions, caps), SumScores(Dimensions(values, weights)),
                    SumPoints(deductions), caps)
  {
    NetMeans(Dimensions(values, weights), deductions);
    LeastIsTheMinimum(NetScore(Dimensions(values, weights), deductions), caps);
  }

  lemma ScoreIsUnique(a: nat, b: nat, raw: nat, deducted: nat, caps: seq<Cap>)
    requires IsScore(a, raw, deducted, caps) && IsScore(b, raw, deducted, caps)
    ensures a == b
  {
  }

  lemma OneMoreCharge(charges: seq<Charge>, extra: Charge)
    ensures TotalCharge(charges + [extra]) >= TotalCharge(charges)
    ensures extra.count > 0 ==> TotalCharge(charges + [extra]) == TotalCharge(charges) + extra.points * extra.count
    ensures extra.count <= 0 ==> TotalCharge(charges + [extra]) == TotalCharge(charges)
  {
    assert (charges + [extra])[..|charges|] == charges;
    assert extra.count > 0 ==> extra.points * extra.count >= 0;
  }

  // One more charge never raises the final score, whatever caps apply.
  lemma MoreChargesNeverHelp(values: seq<int>, weights: seq<nat>, charges: seq<Charge>, extra: Charge, caps: seq<Cap>)
    requires |values| == |weights|
    ensures FinalScore(values, weights, Deducted(charges + [extra]), caps)
            <= FinalScore(values, weights, Deducted(charges), caps)
  {
    var scores := Dimensions(values, weights);
    DeductedIsTheTotal(charges);
    DeductedIsTheTotal(charges + [extra]);
    OneMoreCharge(charges, extra);
    NetMeans(scores, Deducted(charges));
    NetMeans(scores, Deducted(charges + [extra]));
    MoreStrictnessNeverHelps(NetScore(scores, Deducted(charges)), NetScore(scores, Deducted(charges + [extra])), caps,
                             Cap("", 0));
  }

  lemma ScoreIsAtMost(values: seq<int>, weights: seq<nat>, deductions: seq<Deduction>, caps: seq<Cap>, total: nat)
    requires |values| == |weights| && SumScores(weights) == total
    ensures FinalScore(values, weights, deductions, caps) <= total
  {
    ScoreIsBounded(values, weights, deductions, caps);
  }

  // Every score of either grader is at most 1200.
  lemma ReleaseScoreIsAtMost1200(values: seq<int>, deductions: seq<Deduction>, caps: seq<Cap>)
    requires |values| == |HIDDEN_WEIGHTS|
    ensures FinalScore(values, HIDDEN_WEIGHTS, deductions, caps) <= 1200
  {
    BothGradersHave1200Points();
    ScoreIsAtMost(values, HIDDEN_WEIGHTS, deductions, caps, 1200);
  }

  lemma IncidentScoreIsAtMost1200(values: seq<int>, deductions: seq<Deduction>, caps: seq<Cap>)
    requires |values| == |SCORING_WEIGHTS|
    ensures FinalScore(values, SCORING_WEIGHTS, deductions, caps) <= 1200
  {
    BothGradersHave1200Points();
    ScoreIsAtMost(values, SCORING_WEIGHTS, deductions, caps, 1200);
  }

  /* ---------- The end of the release grader ---------- */

  // A cap that applies under a condition.
  datatype Trigger = Trigger(reason: string, maximum: nat, condition: bool)

  function Triggered(triggers: seq<Trigger>): seq<Cap> {
    if triggers == [] then []
    else
      var before, last := Triggered(triggers[..|triggers| - 1]), triggers[|triggers| - 1];
      if last.condition then before + [Cap(last.reason, last.maximum)] else before
  }

  lemma {:induction false} TriggeredAre(triggers: seq<Trigger>)
    ensures forall c :: c in Triggered(triggers) <==>
              exists t :: t in triggers && t.condition && c == Cap(t.reason, t.maximum)
  {
    if triggers != [] {
      var before, last := triggers[..|triggers| - 1], triggers[|triggers| - 1];
      TriggeredAre(before);
      assert triggers == before + [last];
    }
  }

  // What a release grade promises of its score: the raw score less all charges, or the lowest maximum that was
  // triggered, whichever is less.
  ghost predicate IsGrade(score: nat, raw: nat, charged: nat, triggers: seq<Trigger>) {
    (forall t :: t in triggers && t.condition ==> score <= t.maximum) &&
    (charged <= raw ==> score + charged <= raw) && (charged > raw ==> score == 0) &&
    ((forall t :: t in triggers ==> !t.condition) ==> if charged <= raw then score + charged == raw else score == 0) &&
    (score + charged == raw || charged > raw || exists t :: t in triggers && t.condition && t.maximum == score)
  }

  lemma GradeMeans(score: nat, raw: nat, charged: nat, triggers: seq<Trigger>)
    requires IsScore(score, raw, charged, Triggered(triggers))
    ensures IsGrade(score, raw, charged, triggers)
  {
    TriggeredAre(triggers);
    forall t | t in triggers && t.condition ensures score <= t.maximum {
      assert Cap(t.reason, t.maximum) in Triggered(triggers);
    }
  }

  // The grade as its two closures leave it: `deduct` appends, `cap` appends and lowers the score.
  class Grade {
    var score: nat
    var deductions: seq<Deduction>
    var caps: seq<Cap>

    constructor ()
      ensures score == 0 && deductions == [] && caps == []
    {
      score, deductions, caps := 0, [], [];
    }

    method DeductFor(code: string, points: nat, count: int)
      modifies this`deductions
      ensures deductions == Deduct(old(deductions), code, points, count)
    {
      if count > 0 {
        deductions := deductions + [Deduction(code, points * count)];
      }
    }

    method CapAt(reason: string, maximum: nat, condition: bool)
      modifies this`score, this`caps
      ensures caps == if condition then old(caps) + [Cap(reason, maximum)] else old(caps)
      ensures score == if condition && maximum < old(score) then maximum else old(score)
    {
      if condition {
        caps := caps + [Cap(reason, maximum)];
        if maximum < score {
          score := maximum;
        }
      }
    }

    // The score of the release grader: the clamped dimensions less every charge, at most every cap that applies.
    method GradeRelease(values: seq<int>, charges: seq<Charge>, triggers: seq<Trigger>)
      requires |values| == |HIDDEN_WEIGHTS| && deductions == [] && caps == []
      modifies this
      ensures deductions == Deducted(charges) && SumPoints(deductions) == TotalCharge(charges)
      ensures caps == Triggered(triggers)
      ensures score == FinalScore(values, HIDDEN_WEIGHTS, deductions, caps) && score <= 1200
      ensures IsGrade(score, SumScores(Dimensions(values, HIDDEN_WEIGHTS)), TotalCharge(charges), triggers)
    {
      ApplyCharges(charges);
      DeductedIsTheTotal(charges);
      score := NetScore(Dimensions(values, HIDDEN_WEIGHTS), deductions);
      ApplyTriggers(triggers, score);
      ReleaseScoreIsAtMost1200(values, deductions, caps);
      FinalScoreMeans(values, HIDDEN_WEIGHTS, deductions, caps);
      GradeMeans(score, SumScores(Dimensions(values, HIDDEN_WEIGHTS)), TotalCharge(charges), triggers);
    }

    method ApplyCharges(charges: seq<Charge>)
      requires deductions == []
      modifies this`deductions
      ensures deductions == Deducted(charges)
    {
      for i := 0 to |charges|
        invariant deductions == Deducted(charges[..i])
      {
        assert charges[..i + 1][..i] == charges[..i];
        DeductFor(charges[i].code, charges[i].points, charges[i].count);
      }
      assert charges[..|charges|] == charges;
    }

    method ApplyTriggers(triggers: seq<Trigger>, ghost net: nat)
      requires caps == [] && score == net
      modifies this`score, this`caps
      ensures caps == Triggered(triggers) && score == Least(net, caps)
    {
      for i := 0 to |triggers|
        invariant caps == Triggered(triggers[..i]) && score == Least(net, caps)
      {
        assert triggers[..i + 1][..i] == triggers[..i];
        ghost var before := caps;
        CapAt(triggers[i].reason, triggers[i].maximum, triggers[i].condition);
        assert triggers[i].condition ==> caps[..|before|] == before;
      }
      assert triggers[..|triggers|] == triggers;
    }
  }
}
