// Tool calls paired with their results, and the distribution of a list of measurements.
module Telemetry {
  import opened Wrappers
  import opened Rounding

  /* ---------- Tool lifecycle ---------- */

  datatype Kind = ToolCall | ToolResult | OtherKind

  datatype Event = Event(kind: Kind, id: string)

  // Calls and results are named by their place in the event list.
  datatype Row = Row(ordinal: nat, id: string, call: nat, result: Option<nat>)

  // The places of one kind of event with one call id among the first n events.
  function Places(events: seq<Event>, kind: Kind, id: string, n: nat): seq<nat>
    requires n <= |events|
  {
    if n == 0 then []
    else
      var before := Places(events, kind, id, n - 1);
      if events[n - 1] == Event(kind, id) then before + [n - 1] else before
  }

  function AllResults(events: seq<Event>, id: string): seq<nat> {
    Places(events, ToolResult, id, |events|)
  }

  // The k-th item, if there is one.
  function Item(places: seq<nat>, k: nat): Option<nat> {
    if k < |places| then Some(places[k]) else None
  }

  // Rows of the calls among the first n events.
  function Rows(events: seq<Event>, n: nat): seq<Row>
    requires n <= |events|
  {
    if n == 0 then []
    else
      var before := Rows(events, n - 1);
      if events[n - 1].kind != ToolCall then before
      else
        var id := events[n - 1].id;
        before + [Row(|before| + 1, id, n - 1, Item(AllResults(events, id), |Places(events, ToolCall, id, n - 1)|))]
  }

  function Listed(results: map<string, seq<nat>>, id: string): seq<nat> {
    if id in results then results[id] else []
  }

  function Counted(consumed: map<string, nat>, id: string): nat {
    if id in consumed then consumed[id] else 0
  }

  method CollectResults(events: seq<Event>) returns (results: map<string, seq<nat>>)
    ensures forall id :: Listed(results, id) == AllResults(events, id)
  {
    results := map[];
    for i := 0 to |events|
      invariant forall id :: Listed(results, id) == Places(events, ToolResult, id, i)
    {
      if events[i].kind == ToolResult {
        var id := events[i].id;
        results := results[id := Listed(results, id) + [i]];
      }
    }
  }

  method ToolLifecycle(events: seq<Event>) returns (rows: seq<Row>)
    ensures rows == Rows(events, |events|)
  {
    var results := CollectResults(events);
    rows := [];
    var consumed: map<string, nat> := map[];
    for i := 0 to |events|
      invariant rows == Rows(events, i)
      invariant forall id :: Counted(consumed, id) == |Places(events, ToolCall, id, i)|
    {
      if events[i].kind == ToolCall {
        var id := events[i].id;
        rows := rows + [Row(|rows| + 1, id, i, Item(Listed(results, id), Counted(consumed, id)))];
        consumed := consumed[id := Counted(consumed, id) + 1];
      }
    }
  }

  predicate IsPlace(events: seq<Event>, kind: Kind, id: string, n: nat, place: nat)
    requires n <= |events|
  {
    place < n && events[place] == Event(kind, id)
  }

  lemma {:induction false} PlacesAreThePlaces(events: seq<Event>, kind: Kind, id: string, n: nat)
    requires n <= |events|
    ensures forall k :: 0 <= k < |Places(events, kind, id, n)| ==>
              IsPlace(events, kind, id, n, Places(events, kind, id, n)[k])
    ensures forall i, j :: 0 <= i < j < |Places(events, kind, id, n)| ==>
              Places(events, kind, id, n)[i] < Places(events, kind, id, n)[j]
    ensures forall i :: 0 <= i < n && events[i] == Event(kind, id) ==> i in Places(events, kind, id, n)
  {
    if n > 0 {
      PlacesAreThePlaces(events, kind, id, n - 1);
      var before := Places(events, kind, id, n - 1);
      if events[n - 1] == Event(kind, id) {
        assert forall i :: i in before ==> i in before + [n - 1];
        assert (before + [n - 1])[|before|] == n - 1;
      }
    }
  }

  lemma {:induction false} PlacesGrow(events: seq<Event>, kind: Kind, id: string, m: nat, n: nat)
    requires m <= n <= |events|
    ensures Places(events, kind, id, m) <= Places(events, kind, id, n)
  {
    if m < n {
      PlacesGrow(events, kind, id, m, n - 1);
    }
  }

  // The row of the k-th call of an id holds that call and the k-th result of the id, if there is one.
  ghost predicate Pairs(events: seq<Event>, row: Row, k: nat) {
    Item(Places(events, ToolCall, row.id, |events|), k) == Some(row.call) &&
    row.result == Item(AllResults(events, row.id), k)
  }

  lemma {:induction false} RowsPair(events: seq<Event>, n: nat, j: nat) returns (k: nat)
    requires n <= |events| && j < |Rows(events, n)|
    ensures Pairs(events, Rows(events, n)[j], k) && Rows(events, n)[j].ordinal == j + 1
    ensures Rows(events, n)[j].call < n
    ensures k == |Places(events, ToolCall, Rows(events, n)[j].id, Rows(events, n)[j].call)|
  {
    if j < |Rows(events, n - 1)| {
      k := RowsPair(events, n - 1, j);
    } else {
      var id := events[n - 1].id;
      k := |Places(events, ToolCall, id, n - 1)|;
      PlacesGrow(events, ToolCall, id, n, |events|);
    }
  }

  // Every call has its row, in the order of the calls.
  lemma {:induction false} EveryCallHasItsRow(events: seq<Event>, n: nat)
    requires n <= |events|
    ensures forall i, j :: 0 <= i < j < |Rows(events, n)| ==> Rows(events, n)[i].call < Rows(events, n)[j].call
    ensures forall j :: 0 <= j < |Rows(events, n)| ==> Rows(events, n)[j].call < n
    ensures forall c :: 0 <= c < n && events[c].kind == ToolCall ==>
              exists j :: (0 <= j < |Rows(events, n)| && Rows(events, n)[j].call == c &&
                           Rows(events, n)[j].id == events[c].id)
  {
    if n > 0 {
      EveryCallHasItsRow(events, n - 1);
      var before, rows := Rows(events, n - 1), Rows(events, n);
      forall c | 0 <= c < n && events[c].kind == ToolCall
        ensures exists j :: 0 <= j < |rows| && rows[j].call == c && rows[j].id == events[c].id
      {
        if c == n - 1 {
          assert rows[|rows| - 1].call == c;
        } else {
          var j :| 0 <= j < |before| && before[j].call == c && before[j].id == events[c].id;
          assert rows[j] == before[j];
        }
      }
    }
  }

  // No result is used twice.
  lemma ResultsAreUsedOnce(events: seq<Event>, i: nat, j: nat)
    requires i < j < |Rows(events, |events|)|
    ensures var rows := Rows(events, |events|); rows[i].result.Some? ==> rows[i].result != rows[j].result
  {
    var rows := Rows(events, |events|);
    var k := RowsPair(events, |events|, i);
    var l := RowsPair(events, |events|, j);
    EveryCallHasItsRow(events, |events|);
    assert rows[i].call < rows[j].call;
    if rows[i].result.Some? && rows[j].result.Some? {
      ResultIsOfItsId(events, rows[i], k);
      ResultIsOfItsId(events, rows[j], l);
      PlacesAreThePlaces(events, ToolResult, rows[i].id, |events|);
    }
  }

  lemma ResultIsOfItsId(events: seq<Event>, row: Row, k: nat)
    requires Pairs(events, row, k) && row.result.Some?
    ensures row.result.value < |events| && events[row.result.value].id == row.id
  {
    PlacesAreThePlaces(events, ToolResult, row.id, |events|);
    var results := Places(events, ToolResult, row.id, |events|);
    assert k < |results| && results[k] == row.result.value;
    assert IsPlace(events, ToolResult, row.id, |events|, results[k]);
  }

  function PairedRows(rows: seq<Row>, id: string): nat {
    if rows == [] then 0
    else
      var last := rows[|rows| - 1];
      PairedRows(rows[..|rows| - 1], id) + if last.id == id && last.result.Some? then 1 else 0
  }

  function Min(a: nat, b: nat): nat {
    if a < b then a else b
  }

  // Of each id as many calls are paired as there are calls and results for.
  lemma {:induction false} PairedIsTheSmallerCount(events: seq<Event>, n: nat, id: string)
    requires n <= |events|
    ensures PairedRows(Rows(events, n), id)
            == Min(|Places(events, ToolCall, id, n)|, |AllResults(events, id)|)
  {
    if n > 0 {
      PairedIsTheSmallerCount(events, n - 1, id);
      var before, rows := Rows(events, n - 1), Rows(events, n);
      assert events[n - 1].kind == ToolCall ==> rows[..|rows| - 1] == before;
    }
  }

  /* ---------- Distributions ---------- */

  function Insert(x: real, sorted: seq<real>): seq<real> {
    if sorted == [] || x < sorted[0] then [x] + sorted else [sorted[0]] + Insert(x, sorted[1..])
  }

  function Sorted(values: seq<real>): seq<real> {
    if values == [] then [] else Insert(values[|values| - 1], Sorted(values[..|values| - 1]))
  }

  ghost predicate Ordered(s: seq<real>) {
    forall i, j :: 0 <= i <= j < |s| ==> s[i] <= s[j]
  }

  lemma {:induction false} InsertKeepsValues(x: real, s: seq<real>)
    ensures multiset(Insert(x, s)) == multiset(s) + multiset{x}
  {
    if s != [] && x >= s[0] {
      assert s == [s[0]] + s[1..];
      InsertKeepsValues(x, s[1..]);
    }
  }

  lemma {:induction false} InsertKeepsOrder(x: real, s: seq<real>)
    requires Ordered(s)
    ensures Ordered(Insert(x, s))
  {
    if s != [] && x >= s[0] {
      InsertKeepsOrder(x, s[1..]);
      InsertKeepsValues(x, s[1..]);
      var rest := Insert(x, s[1..]);
      forall k | 0 <= k < |rest| ensures s[0] <= rest[k] {
        assert rest[k] in multiset(rest);
        assert rest[k] == x || rest[k] in s[1..];
      }
    }
  }

  lemma {:induction false} SortedIsOrdered(values: seq<real>)
    ensures Ordered(Sorted(values)) && multiset(Sorted(values)) == multiset(values) && |Sorted(values)| == |values|
  {
    if values != [] {
      SortedIsOrdered(values[..|values| - 1]);
      InsertKeepsOrder(values[|values| - 1], Sorted(values[..|values| - 1]));
      InsertKeepsValues(values[|values| - 1], Sorted(values[..|values| - 1]));
      assert values == values[..|values| - 1] + [values[|values| - 1]];
    }
    assert |Sorted(values)| == |multiset(Sorted(values))| == |multiset(values)|;
  }

  // Linear interpolation at a position.
  function Interpolated(ordered: seq<real>, position: real): real
    requires 0.0 <= position <= (|ordered| - 1) as real
  {
    var lower := position.Floor;
    var weight := position - lower as real;
    if weight == 0.0 then ordered[lower] else ordered[lower] * (1.0 - weight) + ordered[lower + 1] * weight
  }

  function Position(n: nat, percentile: real): (position: real)
    requires 0.0 <= percentile <= 1.0
    ensures 0.0 <= position <= n as real
  {
    PositionOrder(n as real, percentile, percentile);
    n as real * percentile
  }

  function Percentile(ordered: seq<real>, percentile: real): real
    requires ordered != [] && 0.0 <= percentile <= 1.0
  {
    if |ordered| == 1 then ordered[0] else Interpolated(ordered, Position(|ordered| - 1, percentile))
  }

  lemma PositionOrder(n: real, p: real, q: real)
    requires n >= 0.0 && 0.0 <= p <= q <= 1.0
    ensures 0.0 <= n * p <= n * q <= n
  {
    ProductIsNonNegative(n, p);
    ProductIsNonNegative(n, q - p);
    ProductIsNonNegative(n, 1.0 - q);
    assert n * (q - p) == n * q - n * p && n * (1.0 - q) == n - n * q;
  }

  lemma LaterPosition(n: nat, p: real, q: real)
    requires 0.0 <= p <= q <= 1.0
    ensures Position(n, p) <= Position(n, q)
  {
    PositionOrder(n as real, p, q);
  }

  lemma Between(a: real, b: real, weight: real)
    requires a <= b && 0.0 <= weight <= 1.0
    ensures a <= a * (1.0 - weight) + b * weight <= b
  {
    assert a * (1.0 - weight) + b * weight == a + (b - a) * weight == b - (b - a) * (1.0 - weight);
    ProductIsNonNegative(b - a, weight);
    ProductIsNonNegative(b - a, 1.0 - weight);
  }

  lemma WeightOrder(a: real, b: real, v: real, w: real)
    requires a <= b && v <= w
    ensures a * (1.0 - v) + b * v <= a * (1.0 - w) + b * w
  {
    ProductIsNonNegative(b - a, w - v);
    assert (b - a) * (w - v) == (b - a) * w - (b - a) * v;
  }

  // At a whole position the value there; between two positions the way from one value to the next, in proportion.
  lemma InterpolationIsLinear(ordered: seq<real>, k: nat, way: real)
    requires k < |ordered| && 0.0 <= way < 1.0 && (way > 0.0 ==> k + 1 < |ordered|)
    ensures Interpolated(ordered, k as real + way)
            == if way == 0.0 then ordered[k] else ordered[k] + way * (ordered[k + 1] - ordered[k])
  {
    var position := k as real + way;
    assert position.Floor == k;
    if way != 0.0 {
      assert ordered[k] * (1.0 - way) + ordered[k + 1] * way == ordered[k] + way * (ordered[k + 1] - ordered[k]);
    }
  }

  // The middle value, or half way between the two middle values.
  function Middle(ordered: seq<real>): real
    requires ordered != []
  {
    var n := |ordered|;
    if n % 2 == 1 then ordered[n / 2] else (ordered[n / 2 - 1] + ordered[n / 2]) / 2.0
  }

  lemma HalfWay(n: nat)
    requires n > 0
    ensures n % 2 == 1 ==> (n - 1) as real * 0.5 == (n / 2) as real
    ensures n % 2 == 0 ==> (n - 1) as real * 0.5 == (n / 2 - 1) as real + 0.5
  {
    var m := n / 2;
    if n % 2 == 1 {
      assert n - 1 == 2 * m;
      assert (n - 1) as real == 2.0 * m as real;
    } else {
      assert n - 1 == 2 * (m - 1) + 1;
      assert (n - 1) as real == 2.0 * (m - 1) as real + 1.0;
    }
  }

  // The median is the middle value, or half way between the two middle values.
  lemma MedianIsInTheMiddle(ordered: seq<real>)
    requires ordered != []
    ensures Percentile(ordered, 0.5) == Middle(ordered)
  {
    var n := |ordered|;
    HalfWay(n);
    if n == 1 {
    } else if n % 2 == 1 {
      PercentileStandsAt(ordered, 0.5, n / 2, 0.0);
    } else {
      PercentileStandsAt(ordered, 0.5, n / 2 - 1, 0.5);
    }
  }

  // The 95th percentile stands at 95 hundredths of the way from the first to the last place.
  lemma PercentileStandsAt(ordered: seq<real>, percentile: real, k: nat, way: real)
    requires |ordered| > 1 && 0.0 <= percentile <= 1.0 && k < |ordered| && 0.0 <= way < 1.0
    requires k as real + way == (|ordered| - 1) as real * percentile && (way > 0.0 ==> k + 1 < |ordered|)
    ensures Percentile(ordered, percentile)
            == if way == 0.0 then ordered[k] else ordered[k] + way * (ordered[k + 1] - ordered[k])
  {
    InterpolationIsLinear(ordered, k, way);
  }

  // The interpolated value lies between its neighbours.
  lemma InterpolatedIsBetween(ordered: seq<real>, position: real)
    requires Ordered(ordered) && 0.0 <= position <= (|ordered| - 1) as real
    ensures ordered[position.Floor] <= Interpolated(ordered, position)
    ensures position.Floor + 1 < |ordered| ==> Interpolated(ordered, position) <= ordered[position.Floor + 1]
    ensures ordered[0] <= Interpolated(ordered, position) <= ordered[|ordered| - 1]
  {
    var lower := position.Floor;
    var weight := position - lower as real;
    assert ordered[0] <= ordered[lower] <= ordered[|ordered| - 1];
    if weight != 0.0 {
      assert lower + 1 < |ordered|;
      assert ordered[lower] <= ordered[lower + 1] <= ordered[|ordered| - 1];
      Between(ordered[lower], ordered[lower + 1], weight);
    } else if lower + 1 < |ordered| {
      assert ordered[lower] <= ordered[lower + 1];
    }
  }

  // A later position has no smaller value.
  lemma InterpolationIsMonotone(ordered: seq<real>, p: real, q: real)
    requires Ordered(ordered) && 0.0 <= p <= q <= (|ordered| - 1) as real
    ensures Interpolated(ordered, p) <= Interpolated(ordered, q)
  {
    InterpolatedIsBetween(ordered, p);
    InterpolatedIsBetween(ordered, q);
    if p.Floor == q.Floor {
      SameCell(ordered, p, q);
    } else {
      assert p.Floor + 1 <= q.Floor;
    }
  }

  lemma SameCell(ordered: seq<real>, p: real, q: real)
    requires Ordered(ordered) && 0.0 <= p <= q <= (|ordered| - 1) as real && p.Floor == q.Floor
    ensures Interpolated(ordered, p) <= Interpolated(ordered, q)
  {
    var lower := p.Floor;
    var v, w := p - lower as real, q - lower as real;
    if w != 0.0 {
      WeightOrder(ordered[lower], ordered[lower + 1], v, w);
    }
  }

  lemma PercentileIsMonotone(ordered: seq<real>, p: real, q: real)
    requires ordered != [] && Ordered(ordered) && 0.0 <= p <= q <= 1.0
    ensures ordered[0] <= Percentile(ordered, p) <= Percentile(ordered, q) <= ordered[|ordered| - 1]
  {
    if |ordered| > 1 {
      LaterPosition(|ordered| - 1, p, q);
      ValuesAt(ordered, Position(|ordered| - 1, p), Position(|ordered| - 1, q));
    }
  }

  lemma ValuesAt(ordered: seq<real>, x: real, y: real)
    requires Ordered(ordered) && 0.0 <= x <= y <= (|ordered| - 1) as real
    ensures ordered[0] <= Interpolated(ordered, x) <= Interpolated(ordered, y) <= ordered[|ordered| - 1]
  {
    InterpolationIsMonotone(ordered, x, y);
    InterpolatedIsBetween(ordered, x);
    InterpolatedIsBetween(ordered, y);
  }

  function Sum(values: seq<real>): real {
    if values == [] then 0.0 else Sum(values[..|values| - 1]) + values[|values| - 1]
  }

  lemma {:induction false} SumBounds(values: seq<real>, low: real, high: real)
    requires forall k :: 0 <= k < |values| ==> low <= values[k] <= high
    ensures |values| as real * low <= Sum(values) <= |values| as real * high
  {
    if values != [] {
      var n := |values| - 1;
      SumBounds(values[..n], low, high);
      assert |values| as real * low == n as real * low + low;
      assert |values| as real * high == n as real * high + high;
    }
  }

  datatype Distribution =
    | NoValues
    | Distribution(count: nat, min: real, average: real, p50: real, p95: real, max: real)

  function Average(values: seq<real>): real
    requires values != []
  {
    Sum(values) / |values| as real
  }

  // The average times the count is the sum.
  lemma AverageTimesCount(values: seq<real>)
    requires values != []
    ensures Average(values) * |values| as real == Sum(values)
  {
    QuotientTimes(Sum(values), |values| as real);
  }

  lemma QuotientTimes(x: real, n: real)
    requires n > 0.0
    ensures x / n * n == x
  {
  }

  // Each value enters the sum once.
  lemma SumGrows(values: seq<real>, more: real)
    ensures Sum(values + [more]) == Sum(values) + more && Sum([]) == 0.0
  {
    assert (values + [more])[..|values|] == values;
  }

  lemma AverageIsInside(values: seq<real>, low: real, high: real)
    requires values != [] && forall k :: 0 <= k < |values| ==> low <= values[k] <= high
    ensures low <= Average(values) <= high
  {
    SumBounds(values, low, high);
    AverageBounds(Sum(values), |values| as real, low, high);
  }

  function Described(ordered: seq<real>): Distribution
    requires ordered != []
  {
    Distribution(|ordered|, Round3(ordered[0]), Round3(Average(ordered)),
                 Round3(Percentile(ordered, 0.5)), Round3(Percentile(ordered, 0.95)), Round3(ordered[|ordered| - 1]))
  }

  function DistributionOf(values: seq<real>): Distribution {
    if values == [] then NoValues
    else
      SortedIsOrdered(values);
      Described(Sorted(values))
  }

  // For every non-empty list the median lies between the extremes and below the 95th percentile, and the average lies
  // between the extremes, before and after rounding.
  lemma DistributionIsOrdered(values: seq<real>)
    requires values != []
    ensures var d := DistributionOf(values);
            && d.Distribution? && d.count == |values|
            && d.min <= d.p50 <= d.p95 <= d.max && d.min <= d.average <= d.max
  {
    SortedIsOrdered(values);
    DescribedIsOrdered(Sorted(values));
  }

  lemma DescribedIsOrdered(ordered: seq<real>)
    requires ordered != [] && Ordered(ordered)
    ensures var d := Described(ordered);
            && d.Distribution? && d.count == |ordered|
            && d.min <= d.p50 <= d.p95 <= d.max && d.min <= d.average <= d.max
  {
    var low, high := ordered[0], ordered[|ordered| - 1];
    PercentileIsMonotone(ordered, 0.5, 0.95);
    AverageIsInside(ordered, low, high);
    RoundedOrder(low, Percentile(ordered, 0.5), Percentile(ordered, 0.95), Average(ordered), high);
  }

  predicate Near(shown: real, x: real) {
    -0.0005 <= shown - x <= 0.0005
  }

  lemma RoundedNear(x: real)
    ensures Near(Round3(x), x)
  {
    RoundedIsNear(x);
  }

  // So much of the way from value k to the next.
  function OnTheWay(ordered: seq<real>, k: nat, way: real): real
    requires k + 1 < |ordered|
  {
    if way == 0.0 then ordered[k] else ordered[k] + way * (ordered[k + 1] - ordered[k])
  }

  lemma DescribedMedian(ordered: seq<real>)
    requires ordered != []
    ensures Described(ordered).Distribution? && Near(Described(ordered).p50, Middle(ordered))
  {
    MedianIsInTheMiddle(ordered);
    RoundedNear(Percentile(ordered, 0.5));
  }

  lemma DescribedTail(ordered: seq<real>, k: nat, way: real)
    requires |ordered| > 1 && 0.0 <= way < 1.0 && k + 1 < |ordered|
    requires k as real + way == (|ordered| - 1) as real * 0.95
    ensures Described(ordered).Distribution? && Near(Described(ordered).p95, OnTheWay(ordered, k, way))
  {
    PercentileStandsAt(ordered, 0.95, k, way);
    RoundedNear(Percentile(ordered, 0.95));
  }

  lemma DescribedRest(ordered: seq<real>)
    requires ordered != []
    ensures var d := Described(ordered);
            && d.Distribution? && d.count == |ordered| && Near(d.min, ordered[0])
            && Near(d.max, ordered[|ordered| - 1]) && Near(d.average, Sum(ordered) / |ordered| as real)
  {
    RoundedNear(ordered[0]);
    RoundedNear(ordered[|ordered| - 1]);
    RoundedNear(Average(ordered));
  }

  // Every number of a distribution is what it is called, but for half a thousandth: the extremes, the sum by the count,
  // the middle, and the value at 95 hundredths of the way from the first place to the last.
  lemma DistributionMeans(values: seq<real>, k: nat, way: real)
    requires |values| > 1 && 0.0 <= way < 1.0 && k + 1 < |values|
    requires k as real + way == (|values| - 1) as real * 0.95
    ensures var d, ordered := DistributionOf(values), Sorted(values);
            && d.Distribution? && |ordered| == |values| && Ordered(ordered) && multiset(ordered) == multiset(values)
            && d.count == |values| && Near(d.min, ordered[0]) && Near(d.max, ordered[|ordered| - 1])
            && Near(d.average, Sum(ordered) / |ordered| as real)
            && Near(d.p50, Middle(ordered)) && Near(d.p95, OnTheWay(ordered, k, way))
  {
    SortedIsOrdered(values);
    DescribedRest(Sorted(values));
    DescribedMedian(Sorted(values));
    DescribedTail(Sorted(values), k, way);
  }

  lemma RoundedOrder(low: real, p: real, q: real, average: real, high: real)
    requires low <= p <= q <= high && low <= average <= high
    ensures Round3(low) <= Round3(p) <= Round3(q) <= Round3(high) && Round3(low) <= Round3(average) <= Round3(high)
  {
    Round3KeepsOrder(low, p);
    Round3KeepsOrder(p, q);
    Round3KeepsOrder(q, high);
    Round3KeepsOrder(low, average);
    Round3KeepsOrder(average, high);
  }

  lemma AverageBounds(sum: real, n: real, low: real, high: real)
    requires n > 0.0 && n * low <= sum <= n * high
    ensures low <= sum / n <= high
  {
    assert sum == n * (sum / n);
  }

  // Each number of a distribution is an input value's or lies between input values: the extremes are taken on.
  lemma ExtremesAreTakenOn(values: seq<real>)
    requires values != []
    ensures var ordered := Sorted(values);
            && |ordered| == |values| && ordered[0] in values && ordered[|ordered| - 1] in values
            && forall v :: v in values ==> ordered[0] <= v <= ordered[|ordered| - 1]
  {
    SortedIsOrdered(values);
    var ordered := Sorted(values);
    assert ordered[0] in multiset(values) && ordered[|ordered| - 1] in multiset(values);
    forall v | v in values ensures ordered[0] <= v <= ordered[|ordered| - 1] {
      assert v in multiset(ordered);
      var k :| 0 <= k < |ordered| && ordered[k] == v;
    }
  }

  // The order of the measurements does not matter.
  lemma OnlyTheValuesCount(a: seq<real>, b: seq<real>)
    requires multiset(a) == multiset(b)
    ensures DistributionOf(a) == DistributionOf(b)
  {
    SortedIsOrdered(a);
    SortedIsOrdered(b);
    OneOrder(Sorted(a), Sorted(b));
    assert |a| == |multiset(a)| == |b|;
  }

  lemma {:induction false} OneOrder(a: seq<real>, b: seq<real>)
    requires Ordered(a) && Ordered(b) && multiset(a) == multiset(b)
    ensures a == b
  {
    assert |a| == |multiset(a)| == |multiset(b)| == |b|;
    if a != [] {
      SameFirst(a, b);
      SameFirst(b, a);
      RestOf(a);
      RestOf(b);
      OneOrder(a[1..], b[1..]);
      assert a == [a[0]] + a[1..] && b == [b[0]] + b[1..];
    }
  }

  lemma SameFirst(a: seq<real>, b: seq<real>)
    requires Ordered(a) && multiset(a) == multiset(b) && a != [] && b != []
    ensures a[0] <= b[0]
  {
    assert b[0] in multiset(a);
    var k :| 0 <= k < |a| && a[k] == b[0];
  }

  lemma RestOf(a: seq<real>)
    requires a != []
    ensures multiset(a[1..]) == multiset(a) - multiset{a[0]}
  {
    assert a == [a[0]] + a[1..];
  }

  /* ---------- Turn boundaries ---------- */

  datatype Boundary = Begin(turn: int) | End(turn: int, duration: real) | Neither

  predicate BeginsBefore(events: seq<Boundary>, turn: int, n: nat)
    requires n <= |events|
  {
    exists i :: 0 <= i < n && events[i] == Begin(turn)
  }

  // An end boundary that completes its turn: the turn has begun and no earlier end has completed it.
  predicate Completes(events: seq<Boundary>, k: nat)
    requires k < |events|
  {
    events[k].End? && BeginsBefore(events, events[k].turn, k) &&
    forall j :: 0 <= j < k && events[j].End? && events[j].turn == events[k].turn ==>
      !BeginsBefore(events, events[k].turn, j)
  }

  ghost predicate CompletedBy(events: seq<Boundary>, turn: int, n: nat)
    requires n <= |events|
  {
    exists k :: 0 <= k < n && events[k].End? && events[k].turn == turn && BeginsBefore(events, turn, k)
  }

  // The positive durations of the completing ends, in order.
  function Durations(events: seq<Boundary>, n: nat): seq<real>
    requires n <= |events|
  {
    if n == 0 then []
    else
      var before := Durations(events, n - 1);
      if Completes(events, n - 1) && events[n - 1].duration > 0.0 then before + [events[n - 1].duration] else before
  }

  datatype Summary = Summary(total: nat, completed: nat, average: Option<real>, maximum: Option<real>)

  // turn_summary: each turn counts once, completed turns are turns that began first, and the average duration is at
  // most the largest one.
  method TurnSummary(events: seq<Boundary>) returns (summary: Summary, ghost begun: set<int>, ghost completed: set<int>)
    ensures summary.total == |begun| && forall t :: t in begun <==> BeginsBefore(events, t, |events|)
    ensures summary.completed == |completed| && forall t :: t in completed <==> CompletedBy(events, t, |events|)
    ensures summary.completed <= summary.total
    ensures var d := Durations(events, |events|);
            if d == [] then summary.average.None? && summary.maximum.None?
            else summary.average == Some(Round3(Average(d))) && summary.maximum == Some(Round3(Largest(d)))
                 && summary.average.value <= summary.maximum.value
  {
    var begin, done: set<int>, durations := {}, {}, [];
    for i := 0 to |events|
      invariant forall t :: t in begin <==> BeginsBefore(events, t, i)
      invariant forall t :: t in done <==> CompletedBy(events, t, i)
      invariant durations == Durations(events, i) && done <= begin
    {
      match events[i]
      case Begin(turn) => begin := begin + {turn};
      case End(turn, duration) =>
        EndCounts(events, i);
        if turn in begin && turn !in done {
          done := done + {turn};
          if duration > 0.0 {
            durations := durations + [duration];
          }
        }
      case Neither =>
    }
    begun, completed := begin, done;
    assert begun == done + (begun - done);
    if durations == [] {
      summary := Summary(|begin|, |done|, None, None);
    } else {
      LargestBounds(durations);
      AverageBelowLargest(durations);
      summary := Summary(|begin|, |done|, Some(Round3(Average(durations))), Some(Round3(Largest(durations))));
    }
  }

  lemma EndCounts(events: seq<Boundary>, k: nat)
    requires k < |events| && events[k].End?
    ensures Completes(events, k) <==> BeginsBefore(events, events[k].turn, k) && !CompletedBy(events, events[k].turn, k)
  {
  }

  function Largest(values: seq<real>): real
    requires values != []
  {
    if |values| == 1 then values[0]
    else
      var rest := Largest(values[..|values| - 1]);
      if values[|values| - 1] > rest then values[|values| - 1] else rest
  }

  lemma {:induction false} LargestBounds(values: seq<real>)
    requires values != []
    ensures Largest(values) in values && forall k :: 0 <= k < |values| ==> values[k] <= Largest(values)
  {
    if |values| > 1 {
      LargestBounds(values[..|values| - 1]);
    }
  }

  function LowerBound(values: seq<real>): real {
    if values == [] then 0.0
    else
      var rest := LowerBound(values[..|values| - 1]);
      if values[|values| - 1] < rest then values[|values| - 1] else rest
  }

  lemma {:induction false} LowerBoundHolds(values: seq<real>)
    ensures forall k :: 0 <= k < |values| ==> LowerBound(values) <= values[k]
  {
    if values != [] {
      LowerBoundHolds(values[..|values| - 1]);
    }
  }

  lemma AverageBelowLargest(values: seq<real>)
    requires values != []
    ensures Round3(Average(values)) <= Round3(Largest(values))
  {
    LargestBounds(values);
    LowerBoundHolds(values);
    AverageIsInside(values, LowerBound(values), Largest(values));
    Round3KeepsOrder(Average(values), Largest(values));
  }
}
