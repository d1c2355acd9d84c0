// What leaves the system in a download: the same tree with the values of sensitive keys replaced.
module ExportSanitizer {
  import opened Wrappers
  import opened TextOrder
  import opened JsonTree
  import opened ModelParameters

  const REDACTED := Text("[redacted]")

  const KEY_PARTS := {"access_token", "api_key", "auth_json", "authorization", "client_secret", "encrypted_api_key",
                      "encrypted_payload", "id_token", "password", "password_hash", "refresh_token", "secret",
                      "thought_signature", "x_api_key", "x_goog_api_key"}

  const KEY_ENDINGS := ["_access_token", "_api_key", "_authorization", "_client_secret", "_id_token", "_password",
                        "_password_hash", "_refresh_token", "_secret", "_thought_signature"]

  // A key is sensitive by its folded form with underscores for hyphens.
  function NamesSecret(folded: string -> string): Sensitivity {
    (key: string) =>
      folded(key) in KEY_PARTS || exists k :: 0 <= k < |KEY_ENDINGS| && EndsWith(folded(key), KEY_ENDINGS[k])
  }

  function Sanitize(sensitive: Sensitivity, v: Json): Json
    decreases v, 0
  {
    match v
    case Dict(members) => Dict(SanitizeMembers(sensitive, members))
    case List(items) => List(SanitizeItems(sensitive, items))
    case Other(shown) => Text(shown)
    case _ => v
  }

  function SanitizeMembers(sensitive: Sensitivity, members: seq<Member>): seq<Member>
    decreases members, 1
  {
    if members == [] then []
    else
      SanitizeMembers(sensitive, members[..|members| - 1]) + [SanitizeMember(sensitive, members[|members| - 1])]
  }

  function SanitizeMember(sensitive: Sensitivity, m: Member): Member
    decreases m, 2
  {
    Member(m.key, if sensitive(m.key) then REDACTED else Sanitize(sensitive, m.value))
  }

  function SanitizeItems(sensitive: Sensitivity, items: seq<Json>): seq<Json>
    decreases items, 1
  {
    if items == [] then []
    else SanitizeItems(sensitive, items[..|items| - 1]) + [Sanitize(sensitive, items[|items| - 1])]
  }

  // Printable, and every sensitive key at any depth holds the redaction text.
  predicate Exportable(sensitive: Sensitivity, v: Json)
    decreases v, 0
  {
    match v
    case Dict(members) => ExportableMembers(sensitive, members)
    case List(items) => ExportableItems(sensitive, items)
    case Other(_) => false
    case _ => true
  }

  predicate ExportableMembers(sensitive: Sensitivity, members: seq<Member>)
    decreases members, 1
  {
    members == [] ||
    (ExportableMembers(sensitive, members[..|members| - 1]) && ExportableMember(sensitive, members[|members| - 1]))
  }

  predicate ExportableMember(sensitive: Sensitivity, m: Member)
    decreases m, 2
  {
    if sensitive(m.key) then m.value == REDACTED else Exportable(sensitive, m.value)
  }

  predicate ExportableItems(sensitive: Sensitivity, items: seq<Json>)
    decreases items, 1
  {
    items == [] || (ExportableItems(sensitive, items[..|items| - 1]) && Exportable(sensitive, items[|items| - 1]))
  }

  // The export holds no secret at any depth, and exactly the trees without one are exported as they are.
  lemma {:induction false} SanitizeIsExact(sensitive: Sensitivity, v: Json)
    ensures Exportable(sensitive, Sanitize(sensitive, v))
    ensures Sanitize(sensitive, v) == v <==> Exportable(sensitive, v)
    decreases v, 0
  {
    match v
    case Dict(members) => SanitizeMembersIsExact(sensitive, members);
    case List(items) => SanitizeItemsIsExact(sensitive, items);
    case _ =>
  }

  lemma {:induction false} SanitizeMembersIsExact(sensitive: Sensitivity, members: seq<Member>)
    ensures ExportableMembers(sensitive, SanitizeMembers(sensitive, members))
    ensures SanitizeMembers(sensitive, members) == members <==> ExportableMembers(sensitive, members)
    decreases members, 1
  {
    if members != [] {
      var n := |members| - 1;
      var before, kept := SanitizeMembers(sensitive, members[..n]), SanitizeMember(sensitive, members[n]);
      SanitizeMembersIsExact(sensitive, members[..n]);
      SanitizeMemberIsExact(sensitive, members[n]);
      assert (before + [kept])[..|before|] == before;
      LastKept(members, before, kept);
    }
  }

  lemma SanitizeMemberIsExact(sensitive: Sensitivity, m: Member)
    ensures ExportableMember(sensitive, SanitizeMember(sensitive, m))
    ensures SanitizeMember(sensitive, m) == m <==> ExportableMember(sensitive, m)
    decreases m, 2
  {
    SanitizeIsExact(sensitive, m.value);
  }

  lemma {:induction false} SanitizeItemsIsExact(sensitive: Sensitivity, items: seq<Json>)
    ensures ExportableItems(sensitive, SanitizeItems(sensitive, items))
    ensures SanitizeItems(sensitive, items) == items <==> ExportableItems(sensitive, items)
    decreases items, 1
  {
    if items != [] {
      var n := |items| - 1;
      var before, kept := SanitizeItems(sensitive, items[..n]), Sanitize(sensitive, items[n]);
      SanitizeItemsIsExact(sensitive, items[..n]);
      SanitizeIsExact(sensitive, items[n]);
      assert (before + [kept])[..|before|] == before;
      LastKept(items, before, kept);
    }
  }

  lemma SanitizeIsIdempotent(sensitive: Sensitivity, v: Json)
    ensures Sanitize(sensitive, Sanitize(sensitive, v)) == Sanitize(sensitive, v)
  {
    SanitizeIsExact(sensitive, v);
    SanitizeIsExact(sensitive, Sanitize(sensitive, v));
  }

  // Every key stays in its place, and a value under a key that is not sensitive is the sanitized value.
  lemma {:induction false} KeysStay(sensitive: Sensitivity, members: seq<Member>, k: nat)
    requires k < |members|
    ensures |SanitizeMembers(sensitive, members)| == |members|
    ensures var after := SanitizeMembers(sensitive, members)[k];
            && after.key == members[k].key
            && after.value == if sensitive(after.key) then REDACTED else Sanitize(sensitive, members[k].value)
  {
    var n := |members| - 1;
    if n > 0 {
      KeysStay(sensitive, members[..n], if k < n then k else 0);
    }
  }

  /* ---------- Nothing else is lost ---------- */

  lemma {:induction false} FoundAfterSanitize(sensitive: Sensitivity, members: seq<Member>, key: string)
    requires !sensitive(key)
    ensures match Found(members, key)
            case None => Found(SanitizeMembers(sensitive, members), key) == None
            case Some(v) => Found(SanitizeMembers(sensitive, members), key) == Some(Sanitize(sensitive, v))
  {
    if members != [] {
      var n := |members| - 1;
      var before, kept := SanitizeMembers(sensitive, members[..n]), SanitizeMember(sensitive, members[n]);
      FoundAfterSanitize(sensitive, members[..n], key);
      assert (before + [kept])[..|before|] == before;
    }
  }

  lemma {:induction false} ItemAfterSanitize(sensitive: Sensitivity, items: seq<Json>, i: int)
    ensures |SanitizeItems(sensitive, items)| == |items|
    ensures 0 <= i < |items| ==> SanitizeItems(sensitive, items)[i] == Sanitize(sensitive, items[i])
  {
    if items != [] {
      ItemAfterSanitize(sensitive, items[..|items| - 1], i);
    }
  }

  lemma {:induction false} SanitizeCommutes(sensitive: Sensitivity, v: Json, path: seq<PathStep>)
    requires NoStepNames(sensitive, path)
    ensures match At(v, path)
            case None => At(Sanitize(sensitive, v), path) == None
            case Some(x) => At(Sanitize(sensitive, v), path) == Some(Sanitize(sensitive, x))
    decreases |path|
  {
    if path != [] {
      match (v, path[0])
      case (Dict(members), ByKey(key)) =>
        FoundAfterSanitize(sensitive, members, key);
        if Found(members, key).Some? {
          SanitizeCommutes(sensitive, Found(members, key).value, path[1..]);
        }
      case (List(items), ByIndex(i)) =>
        ItemAfterSanitize(sensitive, items, i);
        if i < |items| {
          SanitizeCommutes(sensitive, items[i], path[1..]);
        }
      case _ =>
    }
  }

  // Along every path without a sensitive key the export has the same shape and the same plain values, and a value that
  // is not plain is shown as its text.
  lemma RestIsExported(sensitive: Sensitivity, v: Json, path: seq<PathStep>)
    requires NoStepNames(sensitive, path)
    ensures var after := At(Sanitize(sensitive, v), path);
            match At(v, path)
            case None => after == None
            case Some(Dict(members)) =>
              after.Some? && after.value.Dict? && |after.value.members| == |members| &&
              forall k :: 0 <= k < |members| ==> after.value.members[k].key == members[k].key
            case Some(List(items)) => after.Some? && after.value.List? && |after.value.items| == |items|
            case Some(Other(shown)) => after == Some(Text(shown))
            case Some(x) => after == Some(x)
  {
    SanitizeCommutes(sensitive, v, path);
    match At(v, path)
    case Some(Dict(members)) =>
      if members != [] {
        forall k: nat | k < |members|
          ensures |SanitizeMembers(sensitive, members)| == |members|
          ensures SanitizeMembers(sensitive, members)[k].key == members[k].key
        {
          KeysStay(sensitive, members, k);
        }
        KeysStay(sensitive, members, 0);
      }
    case Some(List(items)) => ItemAfterSanitize(sensitive, items, 0);
    case _ =>
  }

  /* ---------- No secret, wherever one looks ---------- */

  lemma {:induction false} FoundIsExportable(sensitive: Sensitivity, members: seq<Member>, key: string)
    requires ExportableMembers(sensitive, members) && Found(members, key).Some?
    ensures if sensitive(key) then Found(members, key) == Some(REDACTED)
            else Exportable(sensitive, Found(members, key).value)
  {
    if members[|members| - 1].key != key {
      FoundIsExportable(sensitive, members[..|members| - 1], key);
    }
  }

  lemma {:induction false} ItemIsExportable(sensitive: Sensitivity, items: seq<Json>, i: nat)
    requires ExportableItems(sensitive, items) && i < |items|
    ensures Exportable(sensitive, items[i])
  {
    if i < |items| - 1 {
      ItemIsExportable(sensitive, items[..|items| - 1], i);
    }
  }

  // A path that passes a sensitive key ends there, at the redaction text.
  lemma {:induction false} ExportedPaths(sensitive: Sensitivity, v: Json, path: seq<PathStep>, k: nat)
    requires Exportable(sensitive, v) && At(v, path).Some? && k < |path| && path[k].ByKey? && sensitive(path[k].key)
    ensures k == |path| - 1 && At(v, path) == Some(REDACTED)
    decreases |path|
  {
    match (v, path[0])
    case (Dict(members), ByKey(key)) =>
      FoundIsExportable(sensitive, members, key);
      if k > 0 {
        if !sensitive(key) {
          ExportedPaths(sensitive, Found(members, key).value, path[1..], k - 1);
        }
      } else {
        assert At(REDACTED, path[1..]).Some?;
      }
    case (List(items), ByIndex(i)) =>
      ItemIsExportable(sensitive, items, i);
      ExportedPaths(sensitive, items[i], path[1..], k - 1);
  }

  // In a download every path through a key that names a secret ends at the redaction text.
  lemma NoSecretIsExported(folded: string -> string, v: Json, path: seq<PathStep>, k: nat)
    requires k < |path| && path[k].ByKey? && NamesSecret(folded)(path[k].key)
    requires At(Sanitize(NamesSecret(folded), v), path).Some?
    ensures k == |path| - 1 && At(Sanitize(NamesSecret(folded), v), path) == Some(REDACTED)
  {
    SanitizeIsExact(NamesSecret(folded), v);
    ExportedPaths(NamesSecret(folded), Sanitize(NamesSecret(folded), v), path, k);
  }
}
