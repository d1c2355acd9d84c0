// Parameter trees of model profiles: the walk that validates them with one running key count, and the scrub that
// cleans trees stored before validation existed.
module JsonTree {
  datatype Json =
    | Null
    | Bool(b: bool)
    | Int(n: int)
    | Float(x: real)
    | NotFinite
    | Text(text: string)
    | List(items: seq<Json>)
    | Dict(members: seq<Member>)
    | Other(shown: string)

  datatype Member = Member(key: string, value: Json)
}

module ModelParameters {
  import opened Wrappers
  import opened JsonTree

  const CORE_KEYS := {"model", "messages", "input", "system", "instructions", "tools", "tool_choice", "stream"}
  const SENSITIVE_KEYS := {"api_key", "apikey", "authorization", "headers", "x_api_key", "x-api-key"}

  // A key is sensitive by its normalised form: stripped, lowered, spaces as underscores.
  function NamesCredential(normalised: string -> string): Sensitivity {
    (key: string) => normalised(key) in SENSITIVE_KEYS
  }

  const MAX_BYTES := 16_384
  const MAX_DEPTH := 8
  const MAX_KEYS := 256

  // Whether a key names a credential once it is stripped, lowered and written with underscores.
  type Sensitivity = string -> bool

  datatype Error = TooDeep | TooManyKeys | Credential(key: string) | NotJson

  datatype Outcome = Counted(keys: nat) | Refused(error: Error)

  /* ---------- The walk, with its running count ---------- */

  function Walk(sensitive: Sensitivity, v: Json, depth: nat, count: nat): Outcome
    decreases v, 0
  {
    if depth > MAX_DEPTH then Refused(TooDeep)
    else
      match v
      case Dict(members) =>
        if count + |members| > MAX_KEYS then Refused(TooManyKeys)
        else WalkMembers(sensitive, members, depth, count + |members|)
      case List(items) => WalkItems(sensitive, items, depth, count)
      case Other(_) => Refused(NotJson)
      case _ => Counted(count)
  }

  function WalkMembers(sensitive: Sensitivity, members: seq<Member>, depth: nat, count: nat): Outcome
    decreases members, 1
  {
    if members == [] then Counted(count)
    else
      match WalkMembers(sensitive, members[..|members| - 1], depth, count)
      case Refused(error) => Refused(error)
      case Counted(keys) =>
        var last := members[|members| - 1];
        if sensitive(last.key) then Refused(Credential(last.key)) else Walk(sensitive, last.value, depth + 1, keys)
  }

  function WalkItems(sensitive: Sensitivity, items: seq<Json>, depth: nat, count: nat): Outcome
    decreases items, 1
  {
    if items == [] then Counted(count)
    else
      match WalkItems(sensitive, items[..|items| - 1], depth, count)
      case Refused(error) => Refused(error)
      case Counted(keys) => Walk(sensitive, items[|items| - 1], depth + 1, keys)
  }

  // The walk as the source makes it: one counter that every visited dictionary advances.
  class Inspector {
    const sensitive: Sensitivity
    var keyCount: nat

    constructor (sensitive: Sensitivity)
      ensures keyCount == 0 && this.sensitive == sensitive
    {
      this.sensitive := sensitive;
      keyCount := 0;
    }

    method Inspect(v: Json, depth: nat) returns (error: Option<Error>)
      modifies this
      ensures Agrees(error, keyCount, Walk(sensitive, v, depth, old(keyCount)))
      decreases v, 0
    {
      if depth > MAX_DEPTH {
        return Some(TooDeep);
      }
      match v
      case Dict(members) =>
        keyCount := keyCount + |members|;
        if keyCount > MAX_KEYS {
          return Some(TooManyKeys);
        }
        error := InspectMembers(members, depth);
      case List(items) => error := InspectItems(items, depth);
      case Other(_) => error := Some(NotJson);
      case _ => error := None;
    }

    method InspectMembers(members: seq<Member>, depth: nat) returns (error: Option<Error>)
      modifies this
      ensures Agrees(error, keyCount, WalkMembers(sensitive, members, depth, old(keyCount)))
      decreases members, 0
    {
      error := None;
      for i := 0 to |members|
        invariant error == None && WalkMembers(sensitive, members[..i], depth, old(keyCount)) == Counted(keyCount)
      {
        assert members[..i + 1][..i] == members[..i];
        if sensitive(members[i].key) {
          MembersRefused(sensitive, members, depth, old(keyCount), i + 1);
          return Some(Credential(members[i].key));
        }
        error := Inspect(members[i].value, depth + 1);
        if error.Some? {
          MembersRefused(sensitive, members, depth, old(keyCount), i + 1);
          return;
        }
      }
      assert members[..|members|] == members;
    }

    method InspectItems(items: seq<Json>, depth: nat) returns (error: Option<Error>)
      modifies this
      ensures Agrees(error, keyCount, WalkItems(sensitive, items, depth, old(keyCount)))
      decreases items, 0
    {
      error := None;
      for i := 0 to |items|
        invariant error == None && WalkItems(sensitive, items[..i], depth, old(keyCount)) == Counted(keyCount)
      {
        assert items[..i + 1][..i] == items[..i];
        error := Inspect(items[i], depth + 1);
        if error.Some? {
          ItemsRefused(sensitive, items, depth, old(keyCount), i + 1);
          return;
        }
      }
      assert items[..|items|] == items;
    }
  }

  ghost predicate Agrees(error: Option<Error>, keyCount: nat, outcome: Outcome) {
    match outcome
    case Counted(keys) => error.None? && keyCount == keys
    case Refused(e) => error == Some(e)
  }

  lemma {:induction false} MembersRefused(sensitive: Sensitivity, members: seq<Member>, depth: nat, count: nat, i: nat)
    requires i <= |members| && WalkMembers(sensitive, members[..i], depth, count).Refused?
    ensures WalkMembers(sensitive, members, depth, count) == WalkMembers(sensitive, members[..i], depth, count)
    decreases |members|
  {
    if i == |members| {
      assert members[..i] == members;
    } else {
      var before := members[..|members| - 1];
      assert before[..i] == members[..i];
      MembersRefused(sensitive, before, depth, count, i);
    }
  }

  lemma {:induction false} ItemsRefused(sensitive: Sensitivity, items: seq<Json>, depth: nat, count: nat, i: nat)
    requires i <= |items| && WalkItems(sensitive, items[..i], depth, count).Refused?
    ensures WalkItems(sensitive, items, depth, count) == WalkItems(sensitive, items[..i], depth, count)
    decreases |items|
  {
    if i == |items| {
      assert items[..i] == items;
    } else {
      var before := items[..|items| - 1];
      assert before[..i] == items[..i];
      ItemsRefused(sensitive, before, depth, count, i);
    }
  }

  /* ---------- What the walk decides, without a counter ---------- */

  function Max(a: nat, b: nat): nat {
    if a < b then b else a
  }

  // How far values nest below this one.
  function Height(v: Json): nat
    decreases v, 0
  {
    match v
    case Dict(members) => MembersHeight(members)
    case List(items) => ItemsHeight(items)
    case _ => 0
  }

  function MembersHeight(members: seq<Member>): nat
    decreases members, 1
  {
    if members == [] then 0
    else Max(MembersHeight(members[..|members| - 1]), 1 + Height(members[|members| - 1].value))
  }

  function ItemsHeight(items: seq<Json>): nat
    decreases items, 1
  {
    if items == [] then 0 else Max(ItemsHeight(items[..|items| - 1]), 1 + Height(items[|items| - 1]))
  }

  // The keys of all dictionaries in the tree.
  function KeyCount(v: Json): nat
    decreases v, 0
  {
    match v
    case Dict(members) => |members| + MembersKeyCount(members)
    case List(items) => ItemsKeyCount(items)
    case _ => 0
  }

  function MembersKeyCount(members: seq<Member>): nat
    decreases members, 1
  {
    if members == [] then 0 else MembersKeyCount(members[..|members| - 1]) + KeyCount(members[|members| - 1].value)
  }

  function ItemsKeyCount(items: seq<Json>): nat
    decreases items, 1
  {
    if items == [] then 0 else ItemsKeyCount(items[..|items| - 1]) + KeyCount(items[|items| - 1])
  }

  // JSON values only, and no sensitive key at any depth.
  predicate Clean(sensitive: Sensitivity, v: Json)
    decreases v, 0
  {
    match v
    case Dict(members) => CleanMembers(sensitive, members)
    case List(items) => CleanItems(sensitive, items)
    case Other(_) => false
    case _ => true
  }

  predicate CleanMembers(sensitive: Sensitivity, members: seq<Member>)
    decreases members, 1
  {
    members == [] ||
    (CleanMembers(sensitive, members[..|members| - 1]) && !sensitive(members[|members| - 1].key) &&
     Clean(sensitive, members[|members| - 1].value))
  }

  predicate CleanItems(sensitive: Sensitivity, items: seq<Json>)
    decreases items, 1
  {
    items == [] || (CleanItems(sensitive, items[..|items| - 1]) && Clean(sensitive, items[|items| - 1]))
  }

  ghost predicate Decides(outcome: Outcome, fits: bool, keys: nat) {
    if fits then outcome == Counted(keys) else outcome.Refused?
  }

  // The walk with its running count accepts exactly the trees whose height, total number of keys and key names are
  // within the limits, wherever in the tree they occur, and ends with the total.
  lemma {:induction false} WalkDecides(sensitive: Sensitivity, v: Json, depth: nat, count: nat)
    requires count <= MAX_KEYS
    ensures Decides(Walk(sensitive, v, depth, count),
                    depth + Height(v) <= MAX_DEPTH && count + KeyCount(v) <= MAX_KEYS && Clean(sensitive, v),
                    count + KeyCount(v))
    decreases v, 0
  {
    match v
    case Dict(members) =>
      if depth <= MAX_DEPTH && count + |members| <= MAX_KEYS {
        MembersDecide(sensitive, members, depth, count + |members|);
      }
    case List(items) =>
      if depth <= MAX_DEPTH {
        ItemsDecide(sensitive, items, depth, count);
      }
    case _ =>
  }

  lemma {:induction false} MembersDecide(sensitive: Sensitivity, members: seq<Member>, depth: nat, count: nat)
    requires depth <= MAX_DEPTH && count <= MAX_KEYS
    ensures Decides(WalkMembers(sensitive, members, depth, count),
                    depth + MembersHeight(members) <= MAX_DEPTH && count + MembersKeyCount(members) <= MAX_KEYS &&
                    CleanMembers(sensitive, members),
                    count + MembersKeyCount(members))
    decreases members, 1
  {
    if members != [] {
      var before := members[..|members| - 1];
      MembersDecide(sensitive, before, depth, count);
      if WalkMembers(sensitive, before, depth, count).Counted? {
        WalkDecides(sensitive, members[|members| - 1].value, depth + 1, count + MembersKeyCount(before));
      }
    }
  }

  lemma {:induction false} ItemsDecide(sensitive: Sensitivity, items: seq<Json>, depth: nat, count: nat)
    requires depth <= MAX_DEPTH && count <= MAX_KEYS
    ensures Decides(WalkItems(sensitive, items, depth, count),
                    depth + ItemsHeight(items) <= MAX_DEPTH && count + ItemsKeyCount(items) <= MAX_KEYS &&
                    CleanItems(sensitive, items),
                    count + ItemsKeyCount(items))
    decreases items, 1
  {
    if items != [] {
      var before := items[..|items| - 1];
      ItemsDecide(sensitive, before, depth, count);
      if WalkItems(sensitive, before, depth, count).Counted? {
        WalkDecides(sensitive, items[|items| - 1], depth + 1, count + ItemsKeyCount(before));
      }
    }
  }

  /* ---------- The scrub ---------- */

  function Scrub(sensitive: Sensitivity, v: Json): Json
    decreases v, 0
  {
    match v
    case Dict(members) => Dict(ScrubMembers(sensitive, members))
    case List(items) => List(ScrubItems(sensitive, items))
    case _ => v
  }

  function ScrubMembers(sensitive: Sensitivity, members: seq<Member>): seq<Member>
    decreases members, 1
  {
    if members == [] then []
    else
      var before, last := ScrubMembers(sensitive, members[..|members| - 1]), members[|members| - 1];
      if sensitive(last.key) then before else before + [ScrubMember(sensitive, last)]
  }

  function ScrubMember(sensitive: Sensitivity, m: Member): Member
    decreases m, 2
  {
    Member(m.key, Scrub(sensitive, m.value))
  }

  function ScrubItems(sensitive: Sensitivity, items: seq<Json>): seq<Json>
    decreases items, 1
  {
    if items == [] then []
    else ScrubItems(sensitive, items[..|items| - 1]) + [Scrub(sensitive, items[|items| - 1])]
  }

  // No sensitive key at any depth.
  predicate Unsensitive(sensitive: Sensitivity, v: Json)
    decreases v, 0
  {
    match v
    case Dict(members) => UnsensitiveMembers(sensitive, members)
    case List(items) => UnsensitiveItems(sensitive, items)
    case _ => true
  }

  predicate UnsensitiveMembers(sensitive: Sensitivity, members: seq<Member>)
    decreases members, 1
  {
    members == [] ||
    (UnsensitiveMembers(sensitive, members[..|members| - 1]) && !sensitive(members[|members| - 1].key) &&
     Unsensitive(sensitive, members[|members| - 1].value))
  }

  predicate UnsensitiveItems(sensitive: Sensitivity, items: seq<Json>)
    decreases items, 1
  {
    items == [] || (UnsensitiveItems(sensitive, items[..|items| - 1]) && Unsensitive(sensitive, items[|items| - 1]))
  }

  // The scrub leaves no sensitive key at any depth, and changes exactly the trees that have one.
  lemma {:induction false} ScrubCleans(sensitive: Sensitivity, v: Json)
    ensures Unsensitive(sensitive, Scrub(sensitive, v))
    ensures Scrub(sensitive, v) == v <==> Unsensitive(sensitive, v)
    decreases v, 0
  {
    match v
    case Dict(members) => ScrubCleansMembers(sensitive, members);
    case List(items) => ScrubCleansItems(sensitive, items);
    case _ =>
  }

  lemma {:induction false} ScrubCleansMembers(sensitive: Sensitivity, members: seq<Member>)
    ensures UnsensitiveMembers(sensitive, ScrubMembers(sensitive, members))
    ensures |ScrubMembers(sensitive, members)| <= |members|
    ensures ScrubMembers(sensitive, members) == members <==> UnsensitiveMembers(sensitive, members)
    decreases members, 1
  {
    if members != [] {
      var n := |members| - 1;
      var before, last := ScrubMembers(sensitive, members[..n]), members[n];
      ScrubCleansMembers(sensitive, members[..n]);
      ScrubCleansMember(sensitive, last);
      UnsensitiveOneMore(sensitive, before, ScrubMember(sensitive, last));
      LastKept(members, before, ScrubMember(sensitive, last));
    }
  }

  lemma ScrubCleansMember(sensitive: Sensitivity, m: Member)
    ensures Unsensitive(sensitive, ScrubMember(sensitive, m).value)
    ensures ScrubMember(sensitive, m) == m <==> Unsensitive(sensitive, m.value)
    decreases m, 2
  {
    ScrubCleans(sensitive, m.value);
  }

  lemma UnsensitiveOneMore(sensitive: Sensitivity, before: seq<Member>, last: Member)
    ensures UnsensitiveMembers(sensitive, before + [last])
            <==> UnsensitiveMembers(sensitive, before) && !sensitive(last.key) && Unsensitive(sensitive, last.value)
  {
    assert (before + [last])[..|before|] == before;
  }

  lemma LastKept<T>(items: seq<T>, before: seq<T>, kept: T)
    requires items != []
    ensures before + [kept] == items <==> before == items[..|items| - 1] && kept == items[|items| - 1]
  {
    var n := |items| - 1;
    assert items == items[..n] + [items[n]];
    if before + [kept] == items {
      assert |before| == n;
      assert before == (before + [kept])[..n];
      assert kept == (before + [kept])[n];
    }
  }

  lemma {:induction false} ScrubCleansItems(sensitive: Sensitivity, items: seq<Json>)
    ensures UnsensitiveItems(sensitive, ScrubItems(sensitive, items))
    ensures ScrubItems(sensitive, items) == items <==> UnsensitiveItems(sensitive, items)
    decreases items, 1
  {
    if items != [] {
      var n := |items| - 1;
      var before, kept := ScrubItems(sensitive, items[..n]), Scrub(sensitive, items[n]);
      ScrubCleansItems(sensitive, items[..n]);
      ScrubCleans(sensitive, items[n]);
      assert (before + [kept])[..|before|] == before;
      LastKept(items, before, kept);
    }
  }

  lemma ScrubIsIdempotent(sensitive: Sensitivity, v: Json)
    ensures Scrub(sensitive, Scrub(sensitive, v)) == Scrub(sensitive, v)
  {
    ScrubCleans(sensitive, v);
    ScrubCleans(sensitive, Scrub(sensitive, v));
  }

  lemma {:induction false} CleanIsUnsensitive(sensitive: Sensitivity, v: Json)
    ensures Clean(sensitive, v) ==> Unsensitive(sensitive, v)
    decreases v, 0
  {
    match v
    case Dict(members) => CleanMembersAreUnsensitive(sensitive, members);
    case List(items) => CleanItemsAreUnsensitive(sensitive, items);
    case _ =>
  }

  lemma {:induction false} CleanMembersAreUnsensitive(sensitive: Sensitivity, members: seq<Member>)
    ensures CleanMembers(sensitive, members) ==> UnsensitiveMembers(sensitive, members)
    decreases members, 1
  {
    if members != [] {
      CleanMembersAreUnsensitive(sensitive, members[..|members| - 1]);
      CleanIsUnsensitive(sensitive, members[|members| - 1].value);
    }
  }

  lemma {:induction false} CleanItemsAreUnsensitive(sensitive: Sensitivity, items: seq<Json>)
    ensures CleanItems(sensitive, items) ==> UnsensitiveItems(sensitive, items)
    decreases items, 1
  {
    if items != [] {
      CleanItemsAreUnsensitive(sensitive, items[..|items| - 1]);
      CleanIsUnsensitive(sensitive, items[|items| - 1]);
    }
  }

  /* ---------- Nothing else is lost ---------- */

  datatype PathStep = ByKey(key: string) | ByIndex(index: nat)

  function Found(members: seq<Member>, key: string): Option<Json> {
    if members == [] then None
    else if members[|members| - 1].key == key then Some(members[|members| - 1].value)
    else Found(members[..|members| - 1], key)
  }

  function At(v: Json, path: seq<PathStep>): Option<Json>
    decreases |path|
  {
    if path == [] then Some(v)
    else
      match (v, path[0])
      case (Dict(members), ByKey(key)) =>
        var next :- Found(members, key);
        At(next, path[1..])
      case (List(items), ByIndex(i)) => if i < |items| then At(items[i], path[1..]) else None
      case _ => None
  }

  function ScrubOption(sensitive: Sensitivity, v: Option<Json>): Option<Json> {
    match v
    case None => None
    case Some(x) => Some(Scrub(sensitive, x))
  }

  lemma {:induction false} FoundAfterScrub(sensitive: Sensitivity, members: seq<Member>, key: string)
    requires !sensitive(key)
    ensures Found(ScrubMembers(sensitive, members), key) == ScrubOption(sensitive, Found(members, key))
  {
    if members != [] {
      var n := |members| - 1;
      var before, last := ScrubMembers(sensitive, members[..n]), members[n];
      FoundAfterScrub(sensitive, members[..n], key);
      var kept := ScrubMember(sensitive, last);
      assert (before + [kept])[..|before|] == before;
    }
  }

  lemma {:induction false} ItemAfterScrub(sensitive: Sensitivity, items: seq<Json>, i: nat)
    requires i < |items|
    ensures |ScrubItems(sensitive, items)| == |items| && ScrubItems(sensitive, items)[i] == Scrub(sensitive, items[i])
  {
    var n := |items| - 1;
    if n > 0 {
      ItemAfterScrub(sensitive, items[..n], if i < n then i else 0);
    }
  }

  // Along every path without a sensitive key the scrub commutes with looking up: only sensitive keys go.
  lemma {:induction false} ScrubKeepsTheRest(sensitive: Sensitivity, v: Json, path: seq<PathStep>)
    requires forall k :: 0 <= k < |path| && path[k].ByKey? ==> !sensitive(path[k].key)
    ensures At(Scrub(sensitive, v), path) == ScrubOption(sensitive, At(v, path))
    decreases |path|
  {
    if path != [] {
      match (v, path[0])
      case (Dict(members), ByKey(key)) =>
        FoundAfterScrub(sensitive, members, key);
        if Found(members, key).Some? {
          ScrubKeepsTheRest(sensitive, Found(members, key).value, path[1..]);
        }
      case (List(items), ByIndex(i)) =>
        if items != [] {
          ItemAfterScrub(sensitive, items, if i < |items| then i else 0);
        }
        if i < |items| {
          ScrubKeepsTheRest(sensitive, items[i], path[1..]);
        }
      case _ =>
    }
  }

  /* ---------- Whole parameter sets ---------- */

  predicate NoCoreKeys(members: seq<Member>) {
    forall k :: 0 <= k < |members| ==> members[k].key !in CORE_KEYS
  }

  // A setting, where present, is a number (never a boolean) between two bounds.
  predicate NumberFits(members: seq<Member>, key: string, least: real, most: real) {
    match Found(members, key)
    case None => true
    case Some(Int(n)) => least <= n as real <= most
    case Some(Float(x)) => least <= x <= most
    case Some(_) => false
  }

  predicate IntegerFits(members: seq<Member>, key: string, least: int, refused: set<int>) {
    match Found(members, key)
    case None => true
    case Some(Int(n)) => n >= least && n !in refused
    case Some(_) => false
  }

  predicate SettingsFit(members: seq<Member>) {
    NumberFits(members, "temperature", 0.0, 2.0) && NumberFits(members, "top_p", 0.0, 1.0) &&
    IntegerFits(members, "max_tokens", 1, {}) && IntegerFits(members, "max_output_tokens", 1, {}) &&
    IntegerFits(members, "max_completion_tokens", 1, {}) && IntegerFits(members, "num_predict", -1, {0})
  }

  /* ---------- The settings, one member at a time ---------- */

  // The member at k is the one a lookup of its key finds.
  ghost predicate InForce(members: seq<Member>, k: int) {
    0 <= k < |members| && forall j :: k < j < |members| ==> members[j].key != members[k].key
  }

  ghost predicate Between(v: Json, least: real, most: real) {
    (v.Int? && least <= v.n as real <= most) || (v.Float? && least <= v.x <= most)
  }

  // What is asked of one member.
  ghost predicate SettingIsValid(m: Member) {
    && (m.key == "temperature" ==> Between(m.value, 0.0, 2.0))
    && (m.key == "top_p" ==> Between(m.value, 0.0, 1.0))
    && (m.key in {"max_tokens", "max_output_tokens", "max_completion_tokens"} ==> m.value.Int? && m.value.n >= 1)
    && (m.key == "num_predict" ==> m.value.Int? && (m.value.n == -1 || m.value.n >= 1))
  }

  lemma InForceStays(members: seq<Member>, k: int)
    requires members != [] && InForce(members[..|members| - 1], k)
    requires members[|members| - 1].key != members[..|members| - 1][k].key
    ensures InForce(members, k)
  {
    var before := members[..|members| - 1];
    forall j | k < j < |members| ensures members[j].key != members[k].key {
      assert j < |before| ==> members[j] == before[j];
    }
  }

  lemma {:induction false} FoundIsInForce(members: seq<Member>, key: string)
    ensures Found(members, key).None? <==> forall k :: 0 <= k < |members| ==> members[k].key != key
    ensures Found(members, key).Some? ==>
      exists k :: InForce(members, k) && members[k] == Member(key, Found(members, key).value)
  {
    if members != [] {
      var n := |members| - 1;
      if members[n].key == key {
        assert InForce(members, n) && members[n] == Member(key, Found(members, key).value);
      } else {
        FoundIsInForce(members[..n], key);
        if Found(members, key).Some? {
          var k :| InForce(members[..n], k) && members[..n][k] == Member(key, Found(members[..n], key).value);
          assert members[k] == members[..n][k];
          InForceStays(members, k);
        }
      }
    }
  }

  lemma InForceIsFound(members: seq<Member>, k: int)
    requires InForce(members, k)
    ensures Found(members, members[k].key) == Some(members[k].value)
  {
    FoundIsInForce(members, members[k].key);
  }

  // The settings of a parameter set fit exactly if every member in force is valid by itself.
  lemma SettingsFitIff(members: seq<Member>)
    ensures SettingsFit(members) <==> forall k :: InForce(members, k) ==> SettingIsValid(members[k])
  {
    if SettingsFit(members) {
      forall k | InForce(members, k) ensures SettingIsValid(members[k]) {
        InForceIsFound(members, k);
      }
    }
    if forall k :: InForce(members, k) ==> SettingIsValid(members[k]) {
      FoundIsInForce(members, "temperature");
      FoundIsInForce(members, "top_p");
      FoundIsInForce(members, "max_tokens");
      FoundIsInForce(members, "max_output_tokens");
      FoundIsInForce(members, "max_completion_tokens");
      FoundIsInForce(members, "num_predict");
    }
  }

  // json.dumps: the size of the encoded text, or None for a number that is not finite.
  type Encoder = Json -> Option<nat>

  ghost predicate Acceptable(sensitive: Sensitivity, encoder: Encoder, members: seq<Member>) {
    && NoCoreKeys(members)
    && Height(Dict(members)) <= MAX_DEPTH && KeyCount(Dict(members)) <= MAX_KEYS && Clean(sensitive, Dict(members))
    && encoder(Dict(members)).Some? && encoder(Dict(members)).value <= MAX_BYTES
    && SettingsFit(members)
  }

  // validate_model_parameters accepts exactly the acceptable parameter sets.
  method ValidateModelParameters(sensitive: Sensitivity, encoder: Encoder, members: seq<Member>)
    returns (r: Result<seq<Member>>)
    ensures r.Success? <==> Acceptable(sensitive, encoder, members)
    ensures r.Success? ==> r.value == members
    ensures r.Success? ==> forall k :: InForce(members, k) ==> SettingIsValid(members[k])
  {
    SettingsFitIff(members);
    if !NoCoreKeys(members) {
      return Failure("parameters cannot override managed request fields");
    }
    WalkDecides(sensitive, Dict(members), 0, 0);
    var inspector := new Inspector(sensitive);
    var error := inspector.Inspect(Dict(members), 0);
    if error.Some? {
      return Failure("parameters were refused by the walk");
    }
    var encoded := encoder(Dict(members));
    if encoded.None? {
      return Failure("parameters must be valid finite JSON");
    }
    if encoded.value > MAX_BYTES {
      return Failure("parameters are too large");
    }
    if !SettingsFit(members) {
      return Failure("a setting is out of range");
    }
    return Success(members);
  }

  // safe_model_parameters: core and sensitive keys go at the top, sensitive keys further down.
  function SafeMembers(sensitive: Sensitivity, members: seq<Member>): seq<Member> {
    if members == [] then []
    else
      var before, last := SafeMembers(sensitive, members[..|members| - 1]), members[|members| - 1];
      if last.key in CORE_KEYS || sensitive(last.key) then before
      else before + [ScrubMember(sensitive, last)]
  }

  // The scrub leaves alone exactly the sets without managed and sensitive keys.
  lemma {:induction false} SafeKeepsIff(sensitive: Sensitivity, members: seq<Member>)
    ensures SafeMembers(sensitive, members) == members
            <==> NoCoreKeys(members) && UnsensitiveMembers(sensitive, members)
    ensures NoCoreKeys(SafeMembers(sensitive, members))
    ensures UnsensitiveMembers(sensitive, SafeMembers(sensitive, members))
    ensures |SafeMembers(sensitive, members)| <= |members|
  {
    if members != [] {
      var n := |members| - 1;
      var before, last := SafeMembers(sensitive, members[..n]), members[n];
      SafeKeepsIff(sensitive, members[..n]);
      ScrubCleans(sensitive, last.value);
      var kept := ScrubMember(sensitive, last);
      assert (before + [kept])[..|before|] == before;
      LastKept(members, before, kept);
      NoCoreKeysOneMore(members);
      NoCoreKeysAppended(before, kept);
    }
  }

  // Managed and sensitive keys are gone from the top; under every other key the scrubbed value stays.
  lemma {:induction false} SafeKeepsTheRest(sensitive: Sensitivity, members: seq<Member>, key: string)
    ensures Found(SafeMembers(sensitive, members), key) ==
            if key in CORE_KEYS || sensitive(key) then None else ScrubOption(sensitive, Found(members, key))
  {
    if members != [] {
      var n := |members| - 1;
      var before, kept := SafeMembers(sensitive, members[..n]), ScrubMember(sensitive, members[n]);
      SafeKeepsTheRest(sensitive, members[..n], key);
      assert (before + [kept])[..|before|] == before;
    }
  }

  lemma NoCoreKeysOneMore(members: seq<Member>)
    requires members != []
    ensures NoCoreKeys(members) <==> NoCoreKeys(members[..|members| - 1]) && members[|members| - 1].key !in CORE_KEYS
  {
  }

  lemma NoCoreKeysAppended(members: seq<Member>, last: Member)
    ensures NoCoreKeys(members + [last]) <==> NoCoreKeys(members) && last.key !in CORE_KEYS
  {
    NoCoreKeysOneMore(members + [last]);
    assert (members + [last])[..|members|] == members;
  }

  // Every accepted set is what the scrub would make of it, and the scrub is idempotent.
  lemma AcceptedSetsAreSafe(sensitive: Sensitivity, encoder: Encoder, members: seq<Member>)
    requires Acceptable(sensitive, encoder, members)
    ensures SafeMembers(sensitive, members) == members
  {
    CleanIsUnsensitive(sensitive, Dict(members));
    SafeKeepsIff(sensitive, members);
  }

  lemma SafeIsIdempotent(sensitive: Sensitivity, members: seq<Member>)
    ensures SafeMembers(sensitive, SafeMembers(sensitive, members)) == SafeMembers(sensitive, members)
  {
    SafeKeepsIff(sensitive, members);
    SafeKeepsIff(sensitive, SafeMembers(sensitive, members));
  }

  /* ---------- No credential, wherever one looks ---------- */

  ghost predicate NoStepNames(sensitive: Sensitivity, path: seq<PathStep>) {
    forall k :: 0 <= k < |path| && path[k].ByKey? ==> !sensitive(path[k].key)
  }

  lemma {:induction false} FoundIsUnsensitive(sensitive: Sensitivity, members: seq<Member>, key: string)
    requires UnsensitiveMembers(sensitive, members) && Found(members, key).Some?
    ensures !sensitive(key) && Unsensitive(sensitive, Found(members, key).value)
  {
    if members[|members| - 1].key != key {
      FoundIsUnsensitive(sensitive, members[..|members| - 1], key);
    }
  }

  lemma {:induction false} ItemIsUnsensitive(sensitive: Sensitivity, items: seq<Json>, i: nat)
    requires UnsensitiveItems(sensitive, items) && i < |items|
    ensures Unsensitive(sensitive, items[i])
  {
    if i < |items| - 1 {
      ItemIsUnsensitive(sensitive, items[..|items| - 1], i);
    }
  }

  // In a tree without sensitive keys no path that leads anywhere passes one.
  lemma {:induction false} UnsensitivePaths(sensitive: Sensitivity, v: Json, path: seq<PathStep>)
    requires Unsensitive(sensitive, v) && At(v, path).Some?
    ensures NoStepNames(sensitive, path)
    decreases |path|
  {
    if path != [] {
      match (v, path[0])
      case (Dict(members), ByKey(key)) =>
        FoundIsUnsensitive(sensitive, members, key);
        UnsensitivePaths(sensitive, Found(members, key).value, path[1..]);
      case (List(items), ByIndex(i)) =>
        ItemIsUnsensitive(sensitive, items, i);
        UnsensitivePaths(sensitive, items[i], path[1..]);
    }
  }

  // Neither an accepted parameter set nor a scrubbed one holds a credential key at the end of any path, and the scrub
  // changes nothing along any other path.
  lemma NoCredentialIsStored(normalised: string -> string, encoder: Encoder, members: seq<Member>, path: seq<PathStep>)
    ensures var sensitive := NamesCredential(normalised);
            && (Acceptable(sensitive, encoder, members) && At(Dict(members), path).Some? ==>
                NoStepNames(sensitive, path))
            && (At(Dict(SafeMembers(sensitive, members)), path).Some? ==> NoStepNames(sensitive, path))
  {
    var sensitive := NamesCredential(normalised);
    if Acceptable(sensitive, encoder, members) && At(Dict(members), path).Some? {
      CleanIsUnsensitive(sensitive, Dict(members));
      UnsensitivePaths(sensitive, Dict(members), path);
    }
    SafeKeepsIff(sensitive, members);
    if At(Dict(SafeMembers(sensitive, members)), path).Some? {
      UnsensitivePaths(sensitive, Dict(SafeMembers(sensitive, members)), path);
    }
  }
}
