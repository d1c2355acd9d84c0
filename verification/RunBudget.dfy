// The budget of a run: what a valid budget is, how accepted adjustments extend the override log of a run,
// and the three readers of that log (the next adjustment, the engine, the web client).
module RunBudget {
  import opened Wrappers

  datatype Field =
    | SoftSeconds | HardSeconds | SoftToolCalls | HardToolCalls
    | SoftProviderRequests | HardProviderRequests | SoftTotalTokens | HardTotalTokens

  const FIELDS: seq<Field> := [SoftSeconds, HardSeconds, SoftToolCalls, HardToolCalls,
                               SoftProviderRequests, HardProviderRequests, SoftTotalTokens, HardTotalTokens]

  lemma EveryFieldIsListed(f: Field)
    ensures f in FIELDS
  {
    assert FIELDS[0] == SoftSeconds && FIELDS[1] == HardSeconds && FIELDS[2] == SoftToolCalls &&
           FIELDS[3] == HardToolCalls;
    assert FIELDS[4] == SoftProviderRequests && FIELDS[5] == HardProviderRequests;
    assert FIELDS[6] == SoftTotalTokens && FIELDS[7] == HardTotalTokens;
  }

  predicate IsOptional(f: Field) {
    f.SoftProviderRequests? || f.HardProviderRequests? || f.SoftTotalTokens? || f.HardTotalTokens?
  }

  datatype Budget = Budget(softSeconds: Option<int>, hardSeconds: Option<int>, softToolCalls: Option<int>,
                           hardToolCalls: Option<int>, softProviderRequests: Option<int>,
                           hardProviderRequests: Option<int>, softTotalTokens: Option<int>,
                           hardTotalTokens: Option<int>)
  {
    function Get(f: Field): Option<int> {
      match f
      case SoftSeconds => softSeconds
      case HardSeconds => hardSeconds
      case SoftToolCalls => softToolCalls
      case HardToolCalls => hardToolCalls
      case SoftProviderRequests => softProviderRequests
      case HardProviderRequests => hardProviderRequests
      case SoftTotalTokens => softTotalTokens
      case HardTotalTokens => hardTotalTokens
    }

    function With(f: Field, value: Option<int>): Budget {
      match f
      case SoftSeconds => this.(softSeconds := value)
      case HardSeconds => this.(hardSeconds := value)
      case SoftToolCalls => this.(softToolCalls := value)
      case HardToolCalls => this.(hardToolCalls := value)
      case SoftProviderRequests => this.(softProviderRequests := value)
      case HardProviderRequests => this.(hardProviderRequests := value)
      case SoftTotalTokens => this.(softTotalTokens := value)
      case HardTotalTokens => this.(hardTotalTokens := value)
    }
  }

  /* ---------- BudgetSpec ---------- */

  predicate AtLeast(value: Option<int>, least: int) {
    value.Some? ==> value.value >= least
  }

  predicate RequiredPair(soft: Option<int>, hard: Option<int>) {
    soft.Some? && hard.Some? && soft.value < hard.value
  }

  predicate OptionalPair(soft: Option<int>, hard: Option<int>) {
    soft.Some? == hard.Some? && (soft.Some? && hard.Some? ==> soft.value < hard.value)
  }

  predicate Valid(b: Budget) {
    AtLeast(b.softSeconds, 1) && AtLeast(b.hardSeconds, 2) && RequiredPair(b.softSeconds, b.hardSeconds) &&
    AtLeast(b.softToolCalls, 1) && AtLeast(b.hardToolCalls, 2) && RequiredPair(b.softToolCalls, b.hardToolCalls) &&
    AtLeast(b.softProviderRequests, 1) && AtLeast(b.hardProviderRequests, 2) &&
    OptionalPair(b.softProviderRequests, b.hardProviderRequests) &&
    AtLeast(b.softTotalTokens, 1) && AtLeast(b.hardTotalTokens, 2) && OptionalPair(b.softTotalTokens, b.hardTotalTokens)
  }

  // Valid, and enough tool calls for the Scenario's completion contract.
  predicate Sufficient(b: Budget, minimumCalls: int) {
    Valid(b) && b.hardToolCalls.Some? && b.hardToolCalls.value >= minimumCalls
  }

  // The two fields of each pair, the soft one first.
  const PAIRS: seq<(Field, Field)> := [(SoftSeconds, HardSeconds), (SoftToolCalls, HardToolCalls),
                                       (SoftProviderRequests, HardProviderRequests), (SoftTotalTokens, HardTotalTokens)]

  // Of each pair both fields are set or neither is, the first two pairs are, and a set pair grows from one on.
  ghost predicate Ordered(b: Budget, k: nat)
    requires k < 4
  {
    var soft, hard := b.Get(PAIRS[k].0), b.Get(PAIRS[k].1);
    (soft.Some? <==> hard.Some?) && (k < 2 ==> soft.Some?) &&
    (soft.Some? && hard.Some? ==> 1 <= soft.value < hard.value)
  }

  // What makes a budget valid, pair by pair, and sufficient.
  lemma SufficientIff(b: Budget, minimumCalls: int)
    ensures Valid(b) <==> forall k: nat :: k < 4 ==> Ordered(b, k)
    ensures Sufficient(b, minimumCalls)
            <==> (forall k: nat :: k < 4 ==> Ordered(b, k)) && b.Get(HardToolCalls).value >= minimumCalls
  {
    if forall k: nat :: k < 4 ==> Ordered(b, k) {
      assert Ordered(b, 0) && Ordered(b, 1) && Ordered(b, 2) && Ordered(b, 3);
    }
  }

  /* ---------- Requests ---------- */

  // A request body: the fields it sets, null written as None.
  type Payload = map<Field, Option<int>>

  function Value(payload: Payload, f: Field): Option<int> {
    if f in payload then payload[f] else None
  }

  predicate Within(value: Option<int>, least: int, most: int) {
    value.Some? ==> least <= value.value <= most
  }

  // The bounds of RunCreate and of BudgetAdjustment on each field.
  function CreateBounds(f: Field): (int, int) {
    match f
    case SoftSeconds => (60, 14_400)
    case HardSeconds => (300, 21_600)
    case SoftToolCalls => (10, 2_000)
    case HardToolCalls => (20, 3_000)
    case SoftProviderRequests => (1, 5_000)
    case HardProviderRequests => (2, 10_000)
    case SoftTotalTokens => (1_000, 1_000_000_000)
    case HardTotalTokens => (2_000, 2_000_000_000)
  }

  function AdjustBounds(f: Field): (int, int) {
    match f
    case SoftSeconds => (60, 43_200)
    case HardSeconds => (300, 86_400)
    case SoftToolCalls => (10, 10_000)
    case HardToolCalls => (20, 20_000)
    case SoftProviderRequests => (1, 10_000)
    case HardProviderRequests => (2, 20_000)
    case SoftTotalTokens => (1_000, 4_000_000_000)
    case HardTotalTokens => (2_000, 8_000_000_000)
  }

  predicate InBounds(payload: Payload, bounds: Field -> (int, int)) {
    forall f :: f in payload ==> Within(payload[f], bounds(f).0, bounds(f).1)
  }

  /* ---------- Creating a run ---------- */

  const DEFAULTS := Budget(Some(10_800), Some(21_600), Some(600), Some(2_200), None, None, None, None)

  // The budget of RunCreate: given values, or the defaults.
  function Requested(payload: Payload): Budget {
    var pick := (f: Field) => if f in payload then payload[f] else DEFAULTS.Get(f);
    Budget(pick(SoftSeconds), pick(HardSeconds), pick(SoftToolCalls), pick(HardToolCalls), pick(SoftProviderRequests),
           pick(HardProviderRequests), pick(SoftTotalTokens), pick(HardTotalTokens))
  }

  // RunCreate rejects out-of-bounds values, null required fields and misordered pairs.
  predicate CreateAccepts(payload: Payload) {
    InBounds(payload, CreateBounds) &&
    var b := Requested(payload);
    RequiredPair(b.softSeconds, b.hardSeconds) && RequiredPair(b.softToolCalls, b.hardToolCalls) &&
    OptionalPair(b.softProviderRequests, b.hardProviderRequests) && OptionalPair(b.softTotalTokens, b.hardTotalTokens)
  }

  // create_run: the Scenario's Provider-request budget stands in when the request names neither field.
  function Create(payload: Payload, scenario: Budget, minimumCalls: int, antigravity: bool): Result<Budget> {
    if !CreateAccepts(payload) then Failure("validation error")
    else
      var b := Requested(payload);
      if antigravity && b.softTotalTokens.Some? then Failure("Antigravity CLI does not expose token usage")
      else if b.hardToolCalls.value < minimumCalls then Failure("hard tool-call budget is below the Scenario's minimum")
      else if SoftProviderRequests in payload || HardProviderRequests in payload then Success(b)
      else Success(b.(softProviderRequests := scenario.softProviderRequests,
                      hardProviderRequests := scenario.hardProviderRequests))
  }

  // Every created run starts with a sufficient budget, and an Antigravity run without token budgets.
  lemma CreatedBudgetIsSufficient(payload: Payload, scenario: Budget, minimumCalls: int, antigravity: bool)
    requires Valid(scenario)
    ensures var r := Create(payload, scenario, minimumCalls, antigravity);
            r.Success? ==> Sufficient(r.value, minimumCalls) &&
                           (antigravity ==> r.value.softTotalTokens.None? && r.value.hardTotalTokens.None?)
  {
    var r := Create(payload, scenario, minimumCalls, antigravity);
    if r.Success? {
      BoundedBudgetIsValid(payload);
    }
  }

  // The created budget is the requested one field by field: a value or an allowed null as given, the default for a
  // field that is not named, and the Scenario's Provider-request budget if neither of its two fields is.
  lemma CreatedAsRequested(payload: Payload, scenario: Budget, minimumCalls: int, antigravity: bool, f: Field)
    ensures var r := Create(payload, scenario, minimumCalls, antigravity);
            r.Success? ==>
              r.value.Get(f) == if f in payload then payload[f]
                                else if f in {SoftProviderRequests, HardProviderRequests} then
                                  if SoftProviderRequests in payload || HardProviderRequests in payload then None
                                  else scenario.Get(f)
                                else DEFAULTS.Get(f)
  {
  }

  // A request creates a run exactly if its values are in bounds and the budget it asks for, with the default for every
  // field it does not name, is valid, sufficient and without a token budget where none can be kept.
  lemma CreatedIff(payload: Payload, scenario: Budget, minimumCalls: int, antigravity: bool, wanted: Budget)
    requires forall f: Field :: wanted.Get(f) == if f in payload then payload[f] else DEFAULTS.Get(f)
    ensures Create(payload, scenario, minimumCalls, antigravity).Success?
            <==> (forall f :: f in payload && payload[f].Some? ==>
                    CreateBounds(f).0 <= payload[f].value <= CreateBounds(f).1) &&
                 Sufficient(wanted, minimumCalls) && !(antigravity && wanted.softTotalTokens.Some?)
  {
    forall f: Field ensures Requested(payload).Get(f) == wanted.Get(f) {
    }
    SameFields(Requested(payload), wanted);
    CreateBoundsMean(payload);
    if CreateAccepts(payload) {
      BoundedBudgetIsValid(payload);
    }
  }

  lemma CreateBoundsMean(payload: Payload)
    ensures InBounds(payload, CreateBounds)
            <==> forall f :: f in payload && payload[f].Some? ==>
                   CreateBounds(f).0 <= payload[f].value <= CreateBounds(f).1
  {
  }

  lemma BoundedBudgetIsValid(payload: Payload)
    requires CreateAccepts(payload)
    ensures Valid(Requested(payload))
  {
    var b := Requested(payload);
    GivenIsBounded(payload, SoftSeconds);
    GivenIsBounded(payload, HardSeconds);
    GivenIsBounded(payload, SoftToolCalls);
    GivenIsBounded(payload, HardToolCalls);
    GivenIsBounded(payload, SoftProviderRequests);
    GivenIsBounded(payload, HardProviderRequests);
    GivenIsBounded(payload, SoftTotalTokens);
    GivenIsBounded(payload, HardTotalTokens);
  }

  lemma GivenIsBounded(payload: Payload, f: Field)
    requires InBounds(payload, CreateBounds)
    ensures AtLeast(Requested(payload).Get(f), CreateBounds(f).0)
  {
    assert f in payload ==> Within(payload[f], CreateBounds(f).0, CreateBounds(f).1);
  }

  /* ---------- The override log ---------- */

  datatype Override = Override(field: Field, value: Option<int>)

  // The effective budget: every override replaces its field.
  function Applied(base: Budget, overrides: seq<Override>): Budget {
    if overrides == [] then base
    else
      var last := overrides[|overrides| - 1];
      Applied(base, overrides[..|overrides| - 1]).With(last.field, last.value)
  }

  lemma {:induction false} AppliedConcat(base: Budget, a: seq<Override>, b: seq<Override>)
    ensures Applied(base, a + b) == Applied(Applied(base, a), b)
  {
    if b == [] {
      assert a + b == a;
    } else {
      AppliedConcat(base, a, b[..|b| - 1]);
      assert (a + b)[..|a + b| - 1] == a + b[..|b| - 1];
    }
  }

  // A null counts only when the request names an optional field.
  predicate Named(payload: Payload, f: Field) {
    Value(payload, f).Some? || (f in payload && IsOptional(f))
  }

  function MergedField(current: Budget, payload: Payload, f: Field): Option<int> {
    if Named(payload, f) then Value(payload, f) else current.Get(f)
  }

  // The budget an adjustment asks for.
  function Merged(current: Budget, payload: Payload): Budget {
    var pick := (f: Field) => MergedField(current, payload, f);
    Budget(pick(SoftSeconds), pick(HardSeconds), pick(SoftToolCalls), pick(HardToolCalls), pick(SoftProviderRequests),
           pick(HardProviderRequests), pick(SoftTotalTokens), pick(HardTotalTokens))
  }

  // The overrides an accepted adjustment appends, in the order of the fields.
  function Entries(payload: Payload, fields: seq<Field>): seq<Override> {
    if fields == [] then []
    else
      var before, f := Entries(payload, fields[..|fields| - 1]), fields[|fields| - 1];
      if Named(payload, f) then before + [Override(f, Value(payload, f))] else before
  }

  lemma OneMoreOverride(base: Budget, overrides: seq<Override>, last: Override)
    ensures Applied(base, overrides + [last]) == Applied(base, overrides).With(last.field, last.value)
  {
    assert (overrides + [last])[..|overrides|] == overrides;
  }

  lemma OverrideSets(budget: Budget, g: Field, value: Option<int>, f: Field)
    ensures budget.With(g, value).Get(f) == if f == g then value else budget.Get(f)
  {
  }

  lemma LastEntry(payload: Payload, fields: seq<Field>, f: Field)
    requires fields != []
    ensures var before, g := Entries(payload, fields[..|fields| - 1]), fields[|fields| - 1];
            Entries(payload, fields) == if Named(payload, g) then before + [Override(g, Value(payload, g))] else before
    ensures f in fields <==> f in fields[..|fields| - 1] || f == fields[|fields| - 1]
  {
  }

  lemma {:induction false} EntriesSetTheNamedFields(current: Budget, payload: Payload, fields: seq<Field>, f: Field)
    ensures Applied(current, Entries(payload, fields)).Get(f)
            == if f in fields then MergedField(current, payload, f) else current.Get(f)
  {
    if fields != [] {
      var front, g := fields[..|fields| - 1], fields[|fields| - 1];
      EntriesSetTheNamedFields(current, payload, front, f);
      LastEntry(payload, fields, f);
      OneMoreOverride(current, Entries(payload, front), Override(g, Value(payload, g)));
      OverrideSets(Applied(current, Entries(payload, front)), g, Value(payload, g), f);
    }
  }

  // The appended overrides turn the current budget into the merged one.
  lemma EntriesReachTheMergedBudget(base: Budget, overrides: seq<Override>, payload: Payload)
    ensures Applied(base, overrides + Entries(payload, FIELDS)) == Merged(Applied(base, overrides), payload)
  {
    var current := Applied(base, overrides);
    AppliedConcat(base, overrides, Entries(payload, FIELDS));
    var reached := Applied(current, Entries(payload, FIELDS));
    forall f: Field ensures reached.Get(f) == Merged(current, payload).Get(f) {
      EntriesSetTheNamedFields(current, payload, FIELDS, f);
      EveryFieldIsListed(f);
    }
    SameFields(reached, Merged(current, payload));
  }

  lemma SameFields(a: Budget, b: Budget)
    requires forall f: Field :: a.Get(f) == b.Get(f)
    ensures a == b
  {
    assert a.Get(SoftSeconds) == b.Get(SoftSeconds) && a.Get(HardSeconds) == b.Get(HardSeconds);
    assert a.Get(SoftToolCalls) == b.Get(SoftToolCalls) && a.Get(HardToolCalls) == b.Get(HardToolCalls);
    assert a.Get(SoftProviderRequests) == b.Get(SoftProviderRequests);
    assert a.Get(HardProviderRequests) == b.Get(HardProviderRequests);
    assert a.Get(SoftTotalTokens) == b.Get(SoftTotalTokens) && a.Get(HardTotalTokens) == b.Get(HardTotalTokens);
  }

  // What adjust_run_budget does to the override log of an active run.
  function Adjusted(base: Budget, overrides: seq<Override>, payload: Payload, minimumCalls: int, antigravity: bool)
    : Result<seq<Override>>
  {
    var merged := Merged(Applied(base, overrides), payload);
    if !InBounds(payload, AdjustBounds) then Failure("validation error")
    else if antigravity && (Value(payload, SoftTotalTokens).Some? || Value(payload, HardTotalTokens).Some?) then
      Failure("Antigravity CLI does not expose token usage")
    else if !Valid(merged) then Failure("invalid budget")
    else if merged.hardToolCalls.value < minimumCalls then
      Failure("hard tool-call budget is below the Scenario's minimum")
    else Success(overrides + Entries(payload, FIELDS))
  }

  // An accepted adjustment leaves exactly the validated budget in force; the log only grows.
  lemma AdjustmentIsExact(base: Budget, overrides: seq<Override>, payload: Payload, minimumCalls: int,
                          antigravity: bool)
    ensures var r := Adjusted(base, overrides, payload, minimumCalls, antigravity);
            r.Success? ==>
              && Applied(base, r.value) == Merged(Applied(base, overrides), payload)
              && Sufficient(Applied(base, r.value), minimumCalls)
              && overrides <= r.value
  {
    EntriesReachTheMergedBudget(base, overrides, payload);
  }

  // What a request makes of one field: a value replaces it, an explicit null clears it if it is one of the four that
  // may be empty, and anything else leaves it.
  predicate Requests(payload: Payload, f: Field, before: Option<int>, after: Option<int>) {
    if f in payload && payload[f].Some? then after == payload[f]
    else if f in payload && f in {SoftProviderRequests, HardProviderRequests, SoftTotalTokens, HardTotalTokens} then
      after == None
    else after == before
  }

  lemma MergedMeans(current: Budget, payload: Payload, f: Field)
    ensures Requests(payload, f, current.Get(f), Merged(current, payload).Get(f))
  {
  }

  // An accepted adjustment changes each field in force exactly as the request says.
  lemma AdjustmentsTakeEffect(base: Budget, overrides: seq<Override>, payload: Payload, minimumCalls: int,
                              antigravity: bool, f: Field)
    ensures var r := Adjusted(base, overrides, payload, minimumCalls, antigravity);
            r.Success? ==> Requests(payload, f, Applied(base, overrides).Get(f), Applied(base, r.value).Get(f))
  {
    AdjustmentIsExact(base, overrides, payload, minimumCalls, antigravity);
    MergedMeans(Applied(base, overrides), payload, f);
  }

  // A request is accepted exactly if its values are in bounds, no token budget is asked for where none can be kept, and
  // the budget it would put in force, whichever way that is found, is valid and sufficient.
  lemma AcceptedIff(base: Budget, overrides: seq<Override>, payload: Payload, minimumCalls: int, antigravity: bool,
                    wanted: Budget)
    requires forall f: Field :: Requests(payload, f, Applied(base, overrides).Get(f), wanted.Get(f))
    ensures Adjusted(base, overrides, payload, minimumCalls, antigravity).Success?
            <==> (forall f :: f in payload && payload[f].Some? ==>
                    AdjustBounds(f).0 <= payload[f].value <= AdjustBounds(f).1) &&
                 !(antigravity && AsksForTokens(payload)) && Sufficient(wanted, minimumCalls)
  {
    var merged := Merged(Applied(base, overrides), payload);
    forall f: Field ensures merged.Get(f) == wanted.Get(f) {
      MergedMeans(Applied(base, overrides), payload, f);
    }
    SameFields(merged, wanted);
    BoundsMean(payload);
  }

  predicate AsksForTokens(payload: Payload) {
    (SoftTotalTokens in payload && payload[SoftTotalTokens].Some?) ||
    (HardTotalTokens in payload && payload[HardTotalTokens].Some?)
  }

  lemma BoundsMean(payload: Payload)
    ensures InBounds(payload, AdjustBounds)
            <==> forall f :: f in payload && payload[f].Some? ==>
                   AdjustBounds(f).0 <= payload[f].value <= AdjustBounds(f).1
  {
    if InBounds(payload, AdjustBounds) {
      forall f | f in payload && payload[f].Some?
        ensures AdjustBounds(f).0 <= payload[f].value <= AdjustBounds(f).1
      {
        assert Within(payload[f], AdjustBounds(f).0, AdjustBounds(f).1);
      }
    }
  }

  // Each appended override is a field the request names, with the value it gives, and no field is written twice.
  ghost predicate Justified(payload: Payload, entries: seq<Override>) {
    (forall k :: 0 <= k < |entries| ==> entries[k].field in payload && entries[k].value == payload[entries[k].field]) &&
    forall i, j :: 0 <= i < j < |entries| ==> entries[i].field != entries[j].field
  }

  lemma {:induction false} EntriesAreJustified(payload: Payload, fields: seq<Field>)
    requires forall i, j :: 0 <= i < j < |fields| ==> fields[i] != fields[j]
    ensures Justified(payload, Entries(payload, fields))
    ensures forall k :: 0 <= k < |Entries(payload, fields)| ==> Entries(payload, fields)[k].field in fields
  {
    if fields != [] {
      EntriesAreJustified(payload, fields[..|fields| - 1]);
    }
  }

  lemma FieldsDiffer()
    ensures forall i, j :: 0 <= i < j < |FIELDS| ==> FIELDS[i] != FIELDS[j]
  {
  }

  // An accepted adjustment appends one override for each field it changes or confirms, and nothing else.
  lemma AppendedOverrides(base: Budget, overrides: seq<Override>, payload: Payload, minimumCalls: int,
                          antigravity: bool)
    ensures var r := Adjusted(base, overrides, payload, minimumCalls, antigravity);
            r.Success? ==> overrides <= r.value && Justified(payload, r.value[|overrides|..])
  {
    FieldsDiffer();
    EntriesAreJustified(payload, FIELDS);
    assert (overrides + Entries(payload, FIELDS))[|overrides|..] == Entries(payload, FIELDS);
  }

  // The handler itself: two loops over the fields, one building `merged`, one appending overrides.
  method AdjustRunBudget(base: Budget, overrides: seq<Override>, payload: Payload, minimumCalls: int, antigravity: bool)
    returns (r: Result<seq<Override>>)
    ensures r == Adjusted(base, overrides, payload, minimumCalls, antigravity)
  {
    if !InBounds(payload, AdjustBounds) {
      return Failure("validation error");
    }
    if antigravity && (Value(payload, SoftTotalTokens).Some? || Value(payload, HardTotalTokens).Some?) {
      return Failure("Antigravity CLI does not expose token usage");
    }
    var current := EffectiveBudget(base, overrides);
    var merged := MergeFields(current, payload);
    if !Valid(merged) {
      return Failure("invalid budget");
    }
    if merged.hardToolCalls.value < minimumCalls {
      return Failure("hard tool-call budget is below the Scenario's minimum");
    }
    var appended := AppendEntries(overrides, payload);
    return Success(appended);
  }

  method EffectiveBudget(base: Budget, overrides: seq<Override>) returns (current: Budget)
    ensures current == Applied(base, overrides)
  {
    current := base;
    for i := 0 to |overrides|
      invariant current == Applied(base, overrides[..i])
    {
      assert overrides[..i + 1][..i] == overrides[..i];
      current := current.With(overrides[i].field, overrides[i].value);
    }
    assert overrides[..|overrides|] == overrides;
  }

  method MergeFields(current: Budget, payload: Payload) returns (merged: Budget)
    ensures merged == Merged(current, payload)
  {
    merged := current;
    for i := 0 to |FIELDS|
      invariant forall f: Field :: merged.Get(f) == if f in FIELDS[..i] then MergedField(current, payload, f)
                else current.Get(f)
    {
      assert FIELDS[..i + 1] == FIELDS[..i] + [FIELDS[i]];
      merged := merged.With(FIELDS[i], MergedField(current, payload, FIELDS[i]));
    }
    forall f: Field ensures merged.Get(f) == Merged(current, payload).Get(f) {
      EveryFieldIsListed(f);
      assert FIELDS[..|FIELDS|] == FIELDS;
    }
    SameFields(merged, Merged(current, payload));
  }

  method AppendEntries(overrides: seq<Override>, payload: Payload) returns (appended: seq<Override>)
    ensures appended == overrides + Entries(payload, FIELDS)
  {
    appended := overrides;
    for i := 0 to |FIELDS|
      invariant appended == overrides + Entries(payload, FIELDS[..i])
    {
      assert FIELDS[..i + 1][..i] == FIELDS[..i];
      if Named(payload, FIELDS[i]) {
        appended := appended + [Override(FIELDS[i], Value(payload, FIELDS[i]))];
      }
    }
    assert FIELDS[..|FIELDS|] == FIELDS;
  }

  /* ---------- The engine ---------- */

  // The running engine remembers how many overrides it has consumed.
  datatype Meter = Meter(budget: Budget, consumed: nat)

  function Poll(meter: Meter, overrides: seq<Override>): Meter
    requires meter.consumed <= |overrides|
  {
    var candidate := Applied(meter.budget, overrides[meter.consumed..]);
    Meter(if Valid(candidate) then candidate else meter.budget, |overrides|)
  }

  ghost predicate InStep(meter: Meter, base: Budget, overrides: seq<Override>) {
    meter.consumed <= |overrides| && meter.budget == Applied(base, overrides[..meter.consumed])
  }

  // The engine never rejects a log of accepted adjustments: after a poll it holds the effective budget.
  lemma PollCatchesUp(meter: Meter, base: Budget, overrides: seq<Override>)
    requires InStep(meter, base, overrides) && Valid(Applied(base, overrides))
    ensures Poll(meter, overrides) == Meter(Applied(base, overrides), |overrides|)
    ensures InStep(Poll(meter, overrides), base, overrides)
  {
    AppliedConcat(base, overrides[..meter.consumed], overrides[meter.consumed..]);
    assert overrides[..meter.consumed] + overrides[meter.consumed..] == overrides;
    assert overrides[..|overrides|] == overrides;
  }

  lemma GrowingKeepsInStep(meter: Meter, base: Budget, overrides: seq<Override>, more: seq<Override>)
    requires InStep(meter, base, overrides) && overrides <= more
    ensures InStep(meter, base, more)
  {
    assert more[..meter.consumed] == overrides[..meter.consumed];
  }

  // Rejecting would lose overrides for good: the count moves on and the budget stays. An engine that read an
  // adjustment of both token fields half-way would do exactly that.
  lemma HalfAnAdjustmentWouldBeLost(b: Budget, soft: int, hard: int)
    requires Valid(b) && b.softTotalTokens.None? && 1_000 <= soft < hard
    ensures var log := [Override(SoftTotalTokens, Some(soft)), Override(HardTotalTokens, Some(hard))];
            && Valid(Applied(b, log))
            && Poll(Poll(Meter(b, 0), log[..1]), log) == Meter(b, 2)
  {
    var log := [Override(SoftTotalTokens, Some(soft)), Override(HardTotalTokens, Some(hard))];
    assert log[..1] == [log[0]] && log[1..] == [log[1]];
    assert Applied(b, [log[0]]) == b.(softTotalTokens := Some(soft));
    assert Applied(b, [log[1]]) == b.(hardTotalTokens := Some(hard));
    AppliedConcat(b, [log[0]], [log[1]]);
    assert [log[0]] + [log[1]] == log;
    assert log[0..][..1] == log[..1];
    assert log[..1][0..] == [log[0]];
  }

  /* ---------- The web client ---------- */

  // mergeBudgetOverrides: nulls are skipped.
  function Displayed(base: Budget, overrides: seq<Override>): Budget {
    if overrides == [] then base
    else
      var before, last := Displayed(base, overrides[..|overrides| - 1]), overrides[|overrides| - 1];
      if last.value.Some? then before.With(last.field, last.value) else before
  }

  method MergeBudgetOverrides(base: Budget, overrides: seq<Override>) returns (merged: Budget)
    ensures merged == Displayed(base, overrides)
  {
    merged := base;
    for i := 0 to |overrides|
      invariant merged == Displayed(base, overrides[..i])
    {
      assert overrides[..i + 1][..i] == overrides[..i];
      if overrides[i].value.Some? {
        merged := merged.With(overrides[i].field, overrides[i].value);
      }
    }
    assert overrides[..|overrides|] == overrides;
  }

  // The last override of a field.
  function LastOf(overrides: seq<Override>, f: Field): Option<Override> {
    if overrides == [] then None
    else
      var last := overrides[|overrides| - 1];
      if last.field == f then Some(last) else LastOf(overrides[..|overrides| - 1], f)
  }

  predicate EverSet(base: Budget, overrides: seq<Override>, f: Field) {
    base.Get(f).Some? || exists k :: 0 <= k < |overrides| && overrides[k].field == f && overrides[k].value.Some?
  }

  lemma {:induction false} LastOverrideWins(base: Budget, overrides: seq<Override>, f: Field)
    ensures Applied(base, overrides).Get(f)
            == if LastOf(overrides, f).Some? then LastOf(overrides, f).value.value else base.Get(f)
  {
    if overrides != [] {
      LastOverrideWins(base, overrides[..|overrides| - 1], f);
    }
  }

  lemma {:induction false} DisplayedFollowsLastValue(base: Budget, overrides: seq<Override>, f: Field)
    ensures Displayed(base, overrides).Get(f).Some? == EverSet(base, overrides, f)
    ensures LastOf(overrides, f).None? ==> Displayed(base, overrides).Get(f) == base.Get(f)
    ensures LastOf(overrides, f).Some? && LastOf(overrides, f).value.value.Some? ==>
              Displayed(base, overrides).Get(f) == LastOf(overrides, f).value.value
  {
    if overrides != [] {
      var before, last := overrides[..|overrides| - 1], overrides[|overrides| - 1];
      DisplayedFollowsLastValue(base, before, f);
      assert EverSet(base, overrides, f) == (EverSet(base, before, f) || (last.field == f && last.value.Some?)) by {
        if EverSet(base, before, f) && base.Get(f).None? {
          var k :| 0 <= k < |before| && before[k].field == f && before[k].value.Some?;
          assert overrides[k] == before[k];
        }
        if EverSet(base, overrides, f) && base.Get(f).None? {
          var k :| 0 <= k < |overrides| && overrides[k].field == f && overrides[k].value.Some?;
          if k < |before| {
            assert before[k] == overrides[k];
          }
        }
      }
    }
  }

  // The client shows the value in force unless the field's last override removed a value it had seen.
  lemma DisplayAgreesIff(base: Budget, overrides: seq<Override>, f: Field)
    ensures Displayed(base, overrides).Get(f) == Applied(base, overrides).Get(f)
            <==> !(LastOf(overrides, f).Some? && LastOf(overrides, f).value.value.None? && EverSet(base, overrides, f))
  {
    LastOverrideWins(base, overrides, f);
    DisplayedFollowsLastValue(base, overrides, f);
  }

  // The two token fields, set or removed by one request.
  function TokenRequest(soft: Option<int>, hard: Option<int>): Payload {
    map[SoftTotalTokens := soft, HardTotalTokens := hard]
  }

  lemma {:induction false} NothingNamed(payload: Payload, fields: seq<Field>)
    requires forall f :: f in fields ==> !Named(payload, f)
    ensures Entries(payload, fields) == []
  {
    if fields != [] {
      assert fields[|fields| - 1] in fields;
      NothingNamed(payload, fields[..|fields| - 1]);
    }
  }

  lemma OneMoreField(payload: Payload, fields: seq<Field>, f: Field)
    requires Named(payload, f)
    ensures Entries(payload, fields + [f]) == Entries(payload, fields) + [Override(f, Value(payload, f))]
  {
    assert (fields + [f])[..|fields|] == fields;
  }

  lemma TokenEntries(soft: Option<int>, hard: Option<int>)
    ensures Entries(TokenRequest(soft, hard), FIELDS)
            == [Override(SoftTotalTokens, soft), Override(HardTotalTokens, hard)]
  {
    var payload := TokenRequest(soft, hard);
    var front := [SoftSeconds, HardSeconds, SoftToolCalls, HardToolCalls, SoftProviderRequests, HardProviderRequests];
    NothingNamed(payload, front);
    OneMoreField(payload, front, SoftTotalTokens);
    OneMoreField(payload, front + [SoftTotalTokens], HardTotalTokens);
    assert front + [SoftTotalTokens] + [HardTotalTokens] == FIELDS;
  }

  lemma TokensMerged(b: Budget, soft: Option<int>, hard: Option<int>)
    ensures Merged(b, TokenRequest(soft, hard)) == b.(softTotalTokens := soft, hardTotalTokens := hard)
  {
  }

  lemma TokensInBounds(soft: Option<int>, hard: Option<int>)
    requires Within(soft, 1_000, 4_000_000_000) && Within(hard, 2_000, 8_000_000_000)
    ensures InBounds(TokenRequest(soft, hard), AdjustBounds)
  {
  }

  lemma TokensValid(b: Budget, soft: Option<int>, hard: Option<int>, minimum: int)
    requires Sufficient(b, minimum) && OptionalPair(soft, hard) && AtLeast(soft, 1) && AtLeast(hard, 2)
    ensures Sufficient(b.(softTotalTokens := soft, hardTotalTokens := hard), minimum)
  {
  }

  lemma TokenRequestIsAccepted(base: Budget, overrides: seq<Override>, soft: Option<int>, hard: Option<int>,
                               minimum: int)
    requires Sufficient(Applied(base, overrides), minimum) && OptionalPair(soft, hard)
    requires Within(soft, 1_000, 4_000_000_000) && Within(hard, 2_000, 8_000_000_000)
    ensures var r := Adjusted(base, overrides, TokenRequest(soft, hard), minimum, false);
            && r == Success(overrides + [Override(SoftTotalTokens, soft), Override(HardTotalTokens, hard)])
            && Sufficient(Applied(base, r.value), minimum)
            && Applied(base, r.value).softTotalTokens == soft && Applied(base, r.value).hardTotalTokens == hard
  {
    TokenEntries(soft, hard);
    TokensMerged(Applied(base, overrides), soft, hard);
    TokensInBounds(soft, hard);
    TokensValid(Applied(base, overrides), soft, hard, minimum);
    AdjustmentIsExact(base, overrides, TokenRequest(soft, hard), minimum, false);
  }

  // Two accepted requests on any run, one setting the token budget and one removing it: no token budget is in force any
  // more, and the client goes on showing the old one.
  lemma RemovedBudgetIsStillShown(base: Budget, soft: int, hard: int, minimum: int)
    requires Sufficient(base, minimum) && 1_000 <= soft < hard && 2_000 <= hard && soft <= 4_000_000_000
    requires hard <= 8_000_000_000
    ensures var given := Adjusted(base, [], TokenRequest(Some(soft), Some(hard)), minimum, false);
            && given.Success?
            && var removed := Adjusted(base, given.value, TokenRequest(None, None), minimum, false);
            && removed.Success?
            && Applied(base, removed.value).hardTotalTokens == None
            && Displayed(base, removed.value).hardTotalTokens == Some(hard)
  {
    TokenRequestIsAccepted(base, [], Some(soft), Some(hard), minimum);
    var log := [Override(SoftTotalTokens, Some(soft)), Override(HardTotalTokens, Some(hard))];
    assert [] + log == log;
    TokenRequestIsAccepted(base, log, None, None, minimum);
    RemovalIsNotShown(base, log, Override(SoftTotalTokens, None), Override(HardTotalTokens, None));
    ShownLast(base, log[..1], log[1]);
    assert log[..1] + [log[1]] == log;
  }

  lemma ShownLast(base: Budget, overrides: seq<Override>, last: Override)
    ensures last.value.Some? ==> Displayed(base, overrides + [last]).Get(last.field) == last.value
    ensures last.value.None? ==> Displayed(base, overrides + [last]) == Displayed(base, overrides)
  {
    assert (overrides + [last])[..|overrides|] == overrides;
  }

  lemma RemovalIsNotShown(base: Budget, overrides: seq<Override>, a: Override, b: Override)
    requires a.value.None? && b.value.None?
    ensures Displayed(base, overrides + [a, b]) == Displayed(base, overrides)
  {
    ShownLast(base, overrides, a);
    ShownLast(base, overrides + [a], b);
    assert overrides + [a] + [b] == overrides + [a, b];
  }

  // Adjustments never write a null for a required field, so the required fields are always shown correctly.
  ghost predicate NeverRemovesRequired(overrides: seq<Override>) {
    forall k :: 0 <= k < |overrides| ==> IsOptional(overrides[k].field) || overrides[k].value.Some?
  }

  lemma {:induction false} EntriesNeverRemoveRequired(payload: Payload, fields: seq<Field>)
    ensures NeverRemovesRequired(Entries(payload, fields))
  {
    if fields != [] {
      EntriesNeverRemoveRequired(payload, fields[..|fields| - 1]);
    }
  }

  lemma {:induction false} LastOfIsMember(overrides: seq<Override>, f: Field)
    requires LastOf(overrides, f).Some?
    ensures LastOf(overrides, f).value in overrides && LastOf(overrides, f).value.field == f
  {
    if overrides[|overrides| - 1].field != f {
      LastOfIsMember(overrides[..|overrides| - 1], f);
    }
  }

  lemma RequiredFieldsAreShownCorrectly(base: Budget, overrides: seq<Override>, f: Field)
    requires NeverRemovesRequired(overrides) && !IsOptional(f)
    ensures Displayed(base, overrides).Get(f) == Applied(base, overrides).Get(f)
  {
    DisplayAgreesIff(base, overrides, f);
    if LastOf(overrides, f).Some? {
      LastOfIsMember(overrides, f);
    }
  }
}
