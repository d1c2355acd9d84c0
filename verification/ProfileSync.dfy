// Discovered models become profiles: fresh display names, and a sync that a second run leaves alone.
module ProfileSync {
  import opened Wrappers
  import opened Numerals

  /* ---------- Case folding ---------- */

  // Folding replaces each character on its own.
  type Folding = char -> string

  function Fold(f: Folding, text: string): string {
    if text == "" then "" else Fold(f, text[..|text| - 1]) + f(text[|text| - 1])
  }

  // Digits and the space have no case.
  ghost predicate KeepsDigits(f: Folding) {
    f(' ') == " " && forall c: char :: '0' <= c <= '9' ==> f(c) == [c]
  }

  lemma {:induction false} FoldConcat(f: Folding, a: string, b: string)
    ensures Fold(f, a + b) == Fold(f, a) + Fold(f, b)
  {
    if b == "" {
      assert a + b == a;
    } else {
      assert (a + b)[..|a + b| - 1] == a + b[..|b| - 1];
      FoldConcat(f, a, b[..|b| - 1]);
    }
  }

  lemma {:induction false} NumeralsStay(f: Folding, text: string)
    requires KeepsDigits(f) && IsNumeral(text, 10)
    ensures Fold(f, text) == text && ' ' !in text
  {
    if text != "" {
      NumeralsStay(f, text[..|text| - 1]);
      assert text == text[..|text| - 1] + [text[|text| - 1]];
    }
  }

  /* ---------- Candidate names ---------- */

  function Take(text: string, n: nat): string {
    if |text| <= n then text else text[..n]
  }

  // The display name cut so that the suffix fits, but never to nothing.
  function Cut(display: string, suffix: string): string {
    Take(display, if 120 - |suffix| >= 1 then 120 - |suffix| else 1)
  }

  const DOT: char := 0xB7 as char

  function Suffix(credential: string, k: nat): string
    requires k >= 1
  {
    if k == 1 then [' ', DOT, ' '] + credential else [' ', DOT, ' '] + credential + [' '] + Decimal(k)
  }

  // The plain name, the name with the credential, and then numbered names from 2 on.
  function Candidate(display: string, credential: string, k: nat): string {
    if k == 0 then Take(display, 120) else Cut(display, Suffix(credential, k)) + Suffix(credential, k)
  }

  // Every candidate but the plain one is a beginning of the display name, as long as there is room for and never empty
  // unless the name is, then the credential name behind a dot, and from the third on its number.
  lemma CandidatesNameTheCredential(display: string, credential: string, k: nat) returns (front: string)
    requires k >= 1
    ensures Candidate(display, credential, k)
            == front + [' ', DOT, ' '] + credential + if k == 1 then "" else [' '] + Decimal(k)
    ensures front <= display && (display != "" ==> front != "")
    ensures front == display || |Candidate(display, credential, k)| == 120 ||
            (|front| == 1 && |Candidate(display, credential, k)| > 120)
    ensures front == display && |display| > 1 ==> |Candidate(display, credential, k)| <= 120
  {
    front := Cut(display, Suffix(credential, k));
    assert front <= display;
    if k > 1 {
      Regroup(front, [' ', DOT, ' '] + credential, [' '], Decimal(k));
      assert front + ([' ', DOT, ' '] + credential) == front + [' ', DOT, ' '] + credential;
      assert front + [' ', DOT, ' '] + credential + ([' '] + Decimal(k))
          == front + [' ', DOT, ' '] + credential + [' '] + Decimal(k);
    }
  }

  // The plain candidate is the display name, or its first 120 characters.
  lemma PlainCandidate(display: string, credential: string)
    ensures Candidate(display, credential, 0) <= display
    ensures |Candidate(display, credential, 0)| == if |display| <= 120 then |display| else 120
  {
  }

  // The tail after the last space tells numbered candidates apart, even folded.
  lemma FoldedCandidatesDiffer(f: Folding, display: string, credential: string, i: nat, j: nat)
    requires KeepsDigits(f) && 2 <= i < j
    ensures Fold(f, Candidate(display, credential, i)) != Fold(f, Candidate(display, credential, j))
  {
    var x := FoldedTail(f, display, credential, i);
    var y := FoldedTail(f, display, credential, j);
    NumeralRoundTrip(i, 10);
    NumeralRoundTrip(j, 10);
    NumeralsStay(f, Decimal(i));
    NumeralsStay(f, Decimal(j));
    if x + " " + Decimal(i) == y + " " + Decimal(j) {
      SameTail(x, Decimal(i), y, Decimal(j));
      DecimalIsInjective(i, j);
    }
  }

  lemma FoldedTail(f: Folding, display: string, credential: string, k: nat) returns (front: string)
    requires KeepsDigits(f) && k >= 2
    ensures Fold(f, Candidate(display, credential, k)) == front + " " + Decimal(k)
  {
    var before := Cut(display, Suffix(credential, k)) + ([' ', DOT, ' '] + credential);
    front := Fold(f, before);
    NumeralRoundTrip(k, 10);
    NumeralsStay(f, Decimal(k));
    Regroup(Cut(display, Suffix(credential, k)), [' ', DOT, ' '] + credential, [' '], Decimal(k));
    assert Candidate(display, credential, k) == before + " " + Decimal(k);
    FoldConcat(f, before + " ", Decimal(k));
    FoldConcat(f, before, " ");
    assert Fold(f, " ") == " " by { assert " "[..0] == ""; }
  }

  lemma Regroup(a: string, b: string, c: string, d: string)
    ensures a + (b + c + d) == (a + b) + c + d
  {
  }

  lemma SameTail(x: string, a: string, y: string, b: string)
    requires x + " " + a == y + " " + b && ' ' !in a && ' ' !in b
    ensures a == b
  {
    LastSpace(x, a);
    LastSpace(y, b);
    assert |x| == |y|;
    assert a == (x + " " + a)[|x| + 1..] && b == (y + " " + b)[|y| + 1..];
  }

  lemma LastSpace(x: string, a: string)
    requires ' ' !in a
    ensures var s := x + " " + a; s[|x|] == ' ' && forall k :: |x| < k < |s| ==> s[k] != ' '
  {
  }

  /* ---------- The search ---------- */

  // The keys of the candidates: their folded names.
  function Keys(f: Folding, display: string, credential: string): nat -> string {
    (k: nat) => Fold(f, Candidate(display, credential, k))
  }

  // The name is the first candidate that is free.
  ghost predicate IsFreshName(f: Folding, name: string, display: string, credential: string, used: set<string>) {
    exists k :: IsFirstFree(Keys(f, display, credential), used, k) && name == Candidate(display, credential, k)
  }

  // The first candidate whose key is free.
  ghost predicate IsFirstFree(keys: nat -> string, used: set<string>, k: nat) {
    keys(k) !in used && forall j :: 0 <= j < k ==> keys(j) in used
  }

  ghost predicate NumberedDiffer(keys: nat -> string) {
    forall i, j :: 2 <= i < j ==> keys(i) != keys(j)
  }

  function Tried(keys: nat -> string, k: nat): set<string> {
    if k <= 2 then {} else Tried(keys, k - 1) + {keys(k - 1)}
  }

  lemma {:induction false} TriedKeys(keys: nat -> string, k: nat)
    requires NumberedDiffer(keys) && k >= 2
    ensures |Tried(keys, k)| == k - 2
    ensures forall j :: j >= k ==> keys(j) !in Tried(keys, k)
  {
    if k > 2 {
      TriedKeys(keys, k - 1);
    }
  }

  lemma {:induction false} TriedWereUsed(keys: nat -> string, used: set<string>, k: nat)
    requires forall j :: 2 <= j < k ==> keys(j) in used
    ensures Tried(keys, k) <= used
  {
    if k > 2 {
      TriedWereUsed(keys, used, k - 1);
    }
  }

  // Numbered candidates that failed are as many different used names: the search cannot go on for long.
  lemma FailuresAreFew(keys: nat -> string, used: set<string>, k: nat)
    requires NumberedDiffer(keys) && k >= 2 && forall j :: 2 <= j < k ==> keys(j) in used
    ensures k - 2 <= |used|
  {
    TriedKeys(keys, k);
    TriedWereUsed(keys, used, k);
    assert used == Tried(keys, k) + (used - Tried(keys, k));
  }

  // _unique_profile_name: terminates for every finite set of used names, with the first free candidate, which is then
  // used as well. At most |used| numbered candidates fail.
  method UniqueProfileName(f: Folding, display: string, credential: string, usedNames: set<string>)
    returns (name: string, used: set<string>, ghost k: nat)
    requires KeepsDigits(f)
    ensures IsFirstFree(Keys(f, display, credential), usedNames, k) && name == Candidate(display, credential, k)
    ensures Fold(f, name) !in usedNames && used == usedNames + {Fold(f, name)}
    ensures k <= |usedNames| + 2
  {
    name := Take(display, 120);
    k := 0;
    if Fold(f, name) !in usedNames {
      used := usedNames + {Fold(f, name)};
      return;
    }
    name := Cut(display, [' ', DOT, ' '] + credential) + ([' ', DOT, ' '] + credential);
    k := 1;
    if Fold(f, name) !in usedNames {
      used := usedNames + {Fold(f, name)};
      return;
    }
    CandidatesDiffer(f, display, credential);
    var index := NumberedName(Keys(f, display, credential), usedNames);
    k := index;
    name := Candidate(display, credential, index);
    used := usedNames + {Fold(f, name)};
  }

  lemma CandidatesDiffer(f: Folding, display: string, credential: string)
    requires KeepsDigits(f)
    ensures NumberedDiffer(Keys(f, display, credential))
  {
    var keys := Keys(f, display, credential);
    forall i, j | 2 <= i < j ensures keys(i) != keys(j) {
      FoldedCandidatesDiffer(f, display, credential, i, j);
    }
  }

  // The loop over numbered candidates.
  method NumberedName(keys: nat -> string, usedNames: set<string>) returns (index: nat)
    requires NumberedDiffer(keys) && keys(0) in usedNames && keys(1) in usedNames
    ensures IsFirstFree(keys, usedNames, index) && 2 <= index <= |usedNames| + 2
  {
    index := 2;
    while keys(index) in usedNames
      invariant index >= 2 && index - 2 <= |usedNames|
      invariant forall j :: 0 <= j < index ==> keys(j) in usedNames
      decreases |usedNames| + 2 - index
    {
      index := index + 1;
      FailuresAreFew(keys, usedNames, index);
    }
  }

  // A plain name always fits the column of 120 characters. A name with a suffix fits exactly when the suffix leaves
  // room for what is kept of the display name, which is never less than one character of a non-empty one.
  lemma NameFitsIff(display: string, credential: string, k: nat)
    ensures |Candidate(display, credential, k)| <= 120
            <==> k == 0 || |Suffix(credential, k)| + (if display == "" then 0 else 1) <= 120
  {
  }

  lemma {:induction false} FoldingNothing(f: Folding, text: string)
    requires forall c :: f(c) == [c]
    ensures Fold(f, text) == text
  {
    if text != "" {
      FoldingNothing(f, text[..|text| - 1]);
    }
  }

  // A taken display name of one character and a credential name of 117 to 120 characters, which its column allows: the
  // candidate found is longer than the column for profile names.
  lemma LongCredentialMakesLongName(f: Folding, credential: string)
    requires (forall c :: f(c) == [c]) && 117 <= |credential| <= 120
    ensures IsFirstFree(Keys(f, "M", credential), {"M"}, 1) && |Candidate("M", credential, 1)| > 120
  {
    var keys := Keys(f, "M", credential);
    FoldingNothing(f, Candidate("M", credential, 0));
    FoldingNothing(f, Candidate("M", credential, 1));
    assert Candidate("M", credential, 0) == "M";
    NameFitsIff("M", credential, 1);
    assert keys(0) == "M" && |keys(1)| > 120;
  }

  /* ---------- The tables and one sync ---------- */

  datatype Profile = Profile(name: string, provider: string, modelId: string, credential: Option<nat>, archived: bool)

  datatype Discovered = Discovered(modelId: string, displayName: string)

  datatype Synced = Synced(profile: nat, created: bool)

  predicate IsLive(p: Profile, provider: string, credential: nat) {
    p.credential == Some(credential) && p.provider == provider && !p.archived
  }

  // existing_by_model: the live profiles of a credential by model id; of several the last one counts.
  function ByModel(profiles: seq<Profile>, provider: string, credential: nat): map<string, nat> {
    if profiles == [] then map[]
    else
      var n := |profiles| - 1;
      var before := ByModel(profiles[..n], provider, credential);
      if IsLive(profiles[n], provider, credential) then before[profiles[n].modelId := n] else before
  }

  ghost predicate Finds(profiles: seq<Profile>, found: map<string, nat>, provider: string, credential: nat) {
    forall m :: m in found ==>
      found[m] < |profiles| && var p := profiles[found[m]]; p == Profile(p.name, provider, m, Some(credential), false)
  }

  ghost predicate FindsAll(profiles: seq<Profile>, found: map<string, nat>, provider: string, credential: nat) {
    forall k ::
      (0 <= k < |profiles| && profiles[k].credential == Some(credential) && profiles[k].provider == provider &&
       !profiles[k].archived)
      ==> profiles[k].modelId in found && k <= found[profiles[k].modelId]
  }

  lemma {:induction false} ByModelMeans(profiles: seq<Profile>, provider: string, credential: nat)
    ensures Finds(profiles, ByModel(profiles, provider, credential), provider, credential)
    ensures FindsAll(profiles, ByModel(profiles, provider, credential), provider, credential)
  {
    if profiles != [] {
      var n := |profiles| - 1;
      var before, found := ByModel(profiles[..n], provider, credential), ByModel(profiles, provider, credential);
      ByModelMeans(profiles[..n], provider, credential);
      forall m | m in found
        ensures found[m] < |profiles| && profiles[found[m]].modelId == m &&
                IsLive(profiles[found[m]], provider, credential)
      {
        if found[m] != n {
          assert m in before && profiles[..n][before[m]] == profiles[before[m]];
        }
      }
      forall k | 0 <= k < |profiles| && IsLive(profiles[k], provider, credential)
        ensures profiles[k].modelId in found && k <= found[profiles[k].modelId]
      {
        if k < n {
          assert profiles[..n][k] == profiles[k];
        }
      }
    }
  }

  // Live profiles of one credential and provider have different models.
  ghost predicate OnePerModel(profiles: seq<Profile>, provider: string, credential: nat) {
    forall i, j ::
      (0 <= i < j < |profiles| && IsLive(profiles[i], provider, credential) &&
       IsLive(profiles[j], provider, credential))
      ==> profiles[i].modelId != profiles[j].modelId
  }

  // Every discovered model has a live profile that the owner may use.
  ghost predicate Served(catalog: seq<Discovered>, byModel: map<string, nat>, access: set<(nat, nat)>, owner: nat) {
    forall k :: 0 <= k < |catalog| ==>
      catalog[k].modelId in byModel && (owner, byModel[catalog[k].modelId]) in access
  }

  // A name is free exactly if every profile that has it, whatever the case, is archived or not the owner's to use.
  lemma NameIsFreeIff(f: Folding, profiles: seq<Profile>, access: set<(nat, nat)>, owner: nat, name: string)
    ensures Fold(f, name) !in UsedNames(f, profiles, access, owner) <==>
            forall k :: 0 <= k < |profiles| && Fold(f, profiles[k].name) == Fold(f, name) ==>
              profiles[k].archived || (owner, k) !in access
  {
  }

  // The folded names of the live profiles a user may use.
  function UsedNames(f: Folding, profiles: seq<Profile>, access: set<(nat, nat)>, owner: nat): set<string> {
    set k | 0 <= k < |profiles| && (owner, k) in access && !profiles[k].archived :: Fold(f, profiles[k].name)
  }

  class Catalog {
    var profiles: seq<Profile>
    // Which user may use which profile.
    var access: set<(nat, nat)>

    // One discovered model: its live profile, or a new one under a fresh name, and access for the owner.
    method SyncOne(f: Folding, item: Discovered, credentialName: string, provider: string, credential: nat, owner: nat,
                   byModel: map<string, nat>, usedNames: set<string>)
      returns (found: map<string, nat>, used: set<string>, synced: Synced)
      requires KeepsDigits(f) && byModel == ByModel(profiles, provider, credential)
      modifies this
      ensures found == ByModel(profiles, provider, credential)
      ensures item.modelId in found && synced.profile == found[item.modelId] && (owner, synced.profile) in access
      ensures access == old(access) + {(owner, synced.profile)}
      ensures synced.created <==> item.modelId !in byModel
      ensures synced.created ==> synced.profile == |old(profiles)|
      ensures found == if synced.created then byModel[item.modelId := synced.profile] else byModel
      ensures old(profiles) <= profiles
      ensures RowAdded(f, old(profiles), profiles, item, credentialName, provider, credential, synced, usedNames, used)
    {
      found, used := byModel, usedNames;
      var created := item.modelId !in found;
      if created {
        var name;
        ghost var k;
        name, used, k := UniqueProfileName(f, item.displayName, credentialName, usedNames);
        var profile := Profile(name, provider, item.modelId, Some(credential), false);
        found := found[item.modelId := |profiles|];
        profiles := profiles + [profile];
        assert profiles[..|profiles| - 1] == old(profiles);
        ghost var freshName := name;
        assert profiles == old(profiles) + [Profile(freshName, provider, item.modelId, Some(credential), false)];
        assert IsFreshName(f, freshName, item.displayName, credentialName, usedNames);
      }
      synced := Synced(found[item.modelId], created);
      if (owner, synced.profile) !in access {
        access := access + {(owner, synced.profile)};
      }
    }

    // sync_credential_models. A second sync over the same catalog finds every model served and changes nothing.
    method Sync(f: Folding, catalog: seq<Discovered>, credentialName: string, provider: string, credential: nat,
                owner: nat)
      returns (results: seq<Synced>, created: nat)
      requires KeepsDigits(f)
      modifies this
      ensures Served(catalog, ByModel(profiles, provider, credential), access, owner)
      ensures Served(catalog, ByModel(old(profiles), provider, credential), old(access), owner) ==>
                profiles == old(profiles) && access == old(access) && created == 0
      ensures created == |profiles| - |old(profiles)| && OnlyAdds(old(profiles), profiles, old(access), access, owner)
      ensures OnePerModel(old(profiles), provider, credential) ==> OnePerModel(profiles, provider, credential)
      ensures FreshNames(f, profiles, |old(profiles)|, UsedNames(f, old(profiles), old(access), owner))
      ensures Answers(catalog, results, ByModel(old(profiles), provider, credential),
                      ByModel(profiles, provider, credential), |catalog|)
      ensures NamesFit(catalog, results, profiles, credentialName)
    {
      var byModel := ByModel(profiles, provider, credential);
      var used := UsedNames(f, profiles, access, owner);
      ghost var first, firstUsed, firstAccess := byModel, used, access;
      ghost var count := |profiles|;
      results, created := [], 0;
      for i := 0 to |catalog|
        invariant byModel == ByModel(profiles, provider, credential) && created == |profiles| - count
        invariant Served(catalog[..i], byModel, access, owner)
        invariant Served(catalog, first, firstAccess, owner) ==> profiles == old(profiles) && access == firstAccess
        invariant OnlyAdds(old(profiles), profiles, firstAccess, access, owner)
        invariant OnePerModel(old(profiles), provider, credential) ==> OnePerModel(profiles, provider, credential)
        invariant FreshNames(f, profiles, count, firstUsed) && UsedSoFar(f, profiles, count, firstUsed, used)
        invariant Answers(catalog, results, first, byModel, i) && Extends(first, byModel, catalog[..i])
        invariant NamesFit(catalog, results, profiles, credentialName)
      {
        ghost var before, hadAccess, beforeModel, beforeUsed := profiles, access, byModel, used;
        var synced;
        byModel, used, synced := SyncOne(f, catalog[i], credentialName, provider, credential, owner, byModel, used);
        if synced.created {
          created := created + 1;
        }
        RowsStep(f, before, profiles, catalog[i], credentialName, provider, credential, synced, beforeModel, count,
                 firstUsed, beforeUsed, used);
        NamesStep(f, before, profiles, catalog, results, synced, credentialName, provider, credential, beforeUsed,
                  used);
        AnswerOne(catalog, results, synced, first, beforeModel, byModel, i);
        ServedStep(catalog, i, first, firstAccess, beforeModel, byModel, hadAccess, access, owner, synced);
        AddsStep(old(profiles), before, profiles, firstAccess, hadAccess, access, owner, synced);
        results := results + [synced];
      }
      assert catalog[..|catalog|] == catalog;
    }
  }

  // What one item does to the table.
  ghost predicate RowAdded(f: Folding, before: seq<Profile>, after: seq<Profile>, item: Discovered,
                           credentialName: string, provider: string, credential: nat, synced: Synced,
                           hadUsed: set<string>, used: set<string>) {
    if synced.created then
      exists name :: after == before + [Profile(name, provider, item.modelId, Some(credential), false)]
                     && IsFreshName(f, name, item.displayName, credentialName, hadUsed)
                     && Fold(f, name) !in hadUsed && used == hadUsed + {Fold(f, name)}
    else after == before && used == hadUsed
  }

  lemma RowsStep(f: Folding, before: seq<Profile>, after: seq<Profile>, item: Discovered, credentialName: string,
                 provider: string, credential: nat, synced: Synced, beforeModel: map<string, nat>, from: nat,
                 first: set<string>, hadUsed: set<string>, used: set<string>)
    requires RowAdded(f, before, after, item, credentialName, provider, credential, synced, hadUsed, used)
    requires beforeModel == ByModel(before, provider, credential) && (synced.created ==> item.modelId !in beforeModel)
    requires from <= |before| && FreshNames(f, before, from, first) && UsedSoFar(f, before, from, first, hadUsed)
    ensures FreshNames(f, after, from, first) && UsedSoFar(f, after, from, first, used)
    ensures OnePerModel(before, provider, credential) ==> OnePerModel(after, provider, credential)
    ensures |after| == |before| + (if synced.created then 1 else 0)
  {
    if synced.created {
      var name :| after == before + [Profile(name, provider, item.modelId, Some(credential), false)]
                  && Fold(f, name) !in hadUsed && used == hadUsed + {Fold(f, name)};
      var next := Profile(name, provider, item.modelId, Some(credential), false);
      NameStaysFresh(f, before, next, from, first, hadUsed);
      StaysOnePerModel(before, next, provider, credential);
    }
  }

  lemma ServedStep(catalog: seq<Discovered>, i: nat, first: map<string, nat>, firstAccess: set<(nat, nat)>,
                   before: map<string, nat>, now: map<string, nat>, had: set<(nat, nat)>, has: set<(nat, nat)>,
                    owner: nat, synced: Synced)
    requires i < |catalog| && Served(catalog[..i], before, had, owner) && Extends(first, before, catalog[..i])
    requires catalog[i].modelId in now && synced.profile == now[catalog[i].modelId]
    requires now == before || (catalog[i].modelId !in before && now == before[catalog[i].modelId := synced.profile])
    requires has == had + {(owner, synced.profile)} && (synced.created <==> catalog[i].modelId !in before)
    ensures Served(catalog[..i + 1], now, has, owner)
    ensures Served(catalog, first, firstAccess, owner) && had == firstAccess ==> !synced.created && has == firstAccess
  {
    var seen := catalog[..i + 1];
    assert seen == catalog[..i] + [catalog[i]];
    forall k | 0 <= k < |seen| ensures seen[k].modelId in now && (owner, now[seen[k].modelId]) in has {
      if k < i {
        assert catalog[..i][k] == seen[k];
      }
    }
    if Served(catalog, first, firstAccess, owner) && had == firstAccess {
      assert catalog[i].modelId in first;
    }
  }

  lemma AddsStep(first: seq<Profile>, before: seq<Profile>, after: seq<Profile>, firstAccess: set<(nat, nat)>,
                 had: set<(nat, nat)>, has: set<(nat, nat)>, owner: nat, synced: Synced)
    requires OnlyAdds(first, before, firstAccess, had, owner) && before <= after &&
             has == had + {(owner, synced.profile)}
    ensures OnlyAdds(first, after, firstAccess, has, owner)
  {
  }

  // Profiles are only added at the end, and only the owner gains access.
  ghost predicate OnlyAdds(before: seq<Profile>, after: seq<Profile>, had: set<(nat, nat)>, has: set<(nat, nat)>,
                           owner: nat) {
    before <= after && had <= has && forall a :: a in has - had ==> a.0 == owner
  }

  // Names of profiles from an index on were free when they were given, and differ from each other.
  ghost predicate FreshNames(f: Folding, profiles: seq<Profile>, from: nat, used: set<string>) {
    forall j :: from <= j < |profiles| ==>
      Fold(f, profiles[j].name) !in used &&
      forall i :: from <= i < j ==> Fold(f, profiles[i].name) != Fold(f, profiles[j].name)
  }

  ghost predicate UsedSoFar(f: Folding, profiles: seq<Profile>, from: nat, first: set<string>, used: set<string>) {
    first <= used && forall j :: from <= j < |profiles| ==> Fold(f, profiles[j].name) in used
  }

  lemma NameStaysFresh(f: Folding, profiles: seq<Profile>, next: Profile, from: nat, first: set<string>,
                       used: set<string>)
    requires from <= |profiles| && FreshNames(f, profiles, from, first) && UsedSoFar(f, profiles, from, first, used)
    requires Fold(f, next.name) !in used
    ensures FreshNames(f, profiles + [next], from, first)
    ensures UsedSoFar(f, profiles + [next], from, first, used + {Fold(f, next.name)})
  {
  }

  lemma StaysOnePerModel(profiles: seq<Profile>, next: Profile, provider: string, credential: nat)
    requires next.modelId !in ByModel(profiles, provider, credential)
    ensures OnePerModel(profiles, provider, credential) ==> OnePerModel(profiles + [next], provider, credential)
  {
    ByModelMeans(profiles, provider, credential);
  }

  // The models known so far: those known at first, and those of the catalog.
  ghost predicate Extends(first: map<string, nat>, now: map<string, nat>, seen: seq<Discovered>) {
    (forall m :: m in first ==> m in now && now[m] == first[m]) &&
    (forall k :: 0 <= k < |seen| ==> seen[k].modelId in now) &&
    forall m :: m in now && m !in first ==> exists k :: 0 <= k < |seen| && seen[k].modelId == m
  }

  // The result for each item: the live profile of its model, marked created where the model first turned up.
  ghost predicate Answers(catalog: seq<Discovered>, results: seq<Synced>, first: map<string, nat>,
                          now: map<string, nat>, n: nat) {
    |results| == n <= |catalog| &&
    forall k :: 0 <= k < n ==>
      && catalog[k].modelId in now && results[k].profile == now[catalog[k].modelId]
      && (results[k].created <==> catalog[k].modelId !in first && Unseen(catalog, k))
  }

  // A profile made for an item is named after it.
  ghost predicate NamesFit(catalog: seq<Discovered>, results: seq<Synced>, profiles: seq<Profile>,
                           credentialName: string) {
    |results| <= |catalog| &&
    forall k :: 0 <= k < |results| && results[k].created ==>
      results[k].profile < |profiles| && NamedAfter(profiles[results[k].profile], catalog[k], credentialName)
  }

  ghost predicate NamedAfter(p: Profile, item: Discovered, credentialName: string) {
    p.modelId == item.modelId && exists k :: p.name == Candidate(item.displayName, credentialName, k)
  }

  lemma NamesStep(f: Folding, before: seq<Profile>, after: seq<Profile>, catalog: seq<Discovered>,
                  results: seq<Synced>, synced: Synced, credentialName: string, provider: string, credential: nat,
                  hadUsed: set<string>, used: set<string>)
    requires |results| < |catalog| && NamesFit(catalog, results, before, credentialName) && before <= after
    requires RowAdded(f, before, after, catalog[|results|], credentialName, provider, credential, synced, hadUsed, used)
    requires synced.created ==> synced.profile == |before|
    ensures NamesFit(catalog, results + [synced], after, credentialName)
  {
    if synced.created {
      assert NamedAfter(after[|before|], catalog[|results|], credentialName);
    }
  }

  ghost predicate Unseen(catalog: seq<Discovered>, k: nat)
    requires k < |catalog|
  {
    forall j :: 0 <= j < k ==> catalog[j].modelId != catalog[k].modelId
  }

  lemma AnswerNew(catalog: seq<Discovered>, first: map<string, nat>, before: map<string, nat>, i: nat)
    requires i < |catalog| && Extends(first, before, catalog[..i])
    ensures catalog[i].modelId !in before <==> catalog[i].modelId !in first && Unseen(catalog, i)
  {
    if catalog[i].modelId in before && catalog[i].modelId !in first {
      var k :| 0 <= k < |catalog[..i]| && catalog[..i][k].modelId == catalog[i].modelId;
      assert catalog[k].modelId == catalog[i].modelId;
    }
    if !Unseen(catalog, i) {
      var j :| 0 <= j < i && catalog[j].modelId == catalog[i].modelId;
      assert catalog[..i][j].modelId in before;
    }
  }

  lemma ExtendsOne(catalog: seq<Discovered>, first: map<string, nat>, before: map<string, nat>, now: map<string, nat>,
                   i: nat)
    requires i < |catalog| && Extends(first, before, catalog[..i])
    requires catalog[i].modelId in now
    requires now == before || (catalog[i].modelId !in before &&
                               now == before[catalog[i].modelId := now[catalog[i].modelId]])
    ensures Extends(first, now, catalog[..i + 1])
  {
    var seen := catalog[..i + 1];
    assert seen == catalog[..i] + [catalog[i]];
    forall m | m in now && m !in first ensures exists k :: 0 <= k < |seen| && seen[k].modelId == m {
      if m != catalog[i].modelId {
        var k :| 0 <= k < |catalog[..i]| && catalog[..i][k].modelId == m;
        assert seen[k].modelId == m;
      } else {
        assert seen[i].modelId == m;
      }
    }
  }

  lemma AnswerOne(catalog: seq<Discovered>, results: seq<Synced>, synced: Synced, first: map<string, nat>,
                  before: map<string, nat>, now: map<string, nat>, i: nat)
    requires i < |catalog| && Answers(catalog, results, first, before, i) && Extends(first, before, catalog[..i])
    requires catalog[i].modelId in now && synced.profile == now[catalog[i].modelId]
    requires synced.created <==> catalog[i].modelId !in before
    requires now == if synced.created then before[catalog[i].modelId := synced.profile] else before
    ensures Answers(catalog, results + [synced], first, now, i + 1) && Extends(first, now, catalog[..i + 1])
  {
    AnswerNew(catalog, first, before, i);
    ExtendsOne(catalog, first, before, now, i);
  }
}
