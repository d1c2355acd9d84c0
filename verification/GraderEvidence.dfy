// What the graders read from the event list: mutations, verifications after the last mutation, and recovered faults.
module GraderEvidence {
  import opened Wrappers
  import opened TextOrder

  datatype Kind = ToolCall | ToolResult | OtherKind

  // Texts are case-folded where the graders fold them; `faulted` marks a result with an injected fault.
  datatype Event = Event(kind: Kind, id: string, name: string, arguments: string, path: string, command: string,
                         mode: string, ok: bool, passed: bool, faulted: bool)

  /* ---------- Mutations ---------- */

  // Whether a command changes files, by the scorer's pattern.
  type Pattern = string -> bool

  predicate Mutates(pattern: Pattern, e: Event) {
    e.kind == ToolCall &&
    ((e.name == "write_file" && !EndsWith(e.path, "investigation.md")) ||
     (e.name == "exec_command" && pattern(e.command)))
  }

  method MutationEventIndices(pattern: Pattern, events: seq<Event>) returns (indices: seq<nat>)
    ensures forall i :: i in indices <==> 0 <= i < |events| && Mutates(pattern, events[i])
    ensures forall i, j :: 0 <= i < j < |indices| ==> indices[i] < indices[j]
  {
    indices := [];
    for i := 0 to |events|
      invariant forall k :: k in indices <==> 0 <= k < i && Mutates(pattern, events[k])
      invariant forall k :: 0 <= k < |indices| ==> indices[k] < i
      invariant forall k, l :: 0 <= k < l < |indices| ==> indices[k] < indices[l]
    {
      if events[i].kind == ToolCall {
        if events[i].name == "write_file" {
          if !EndsWith(events[i].path, "investigation.md") {
            indices := indices + [i];
          }
        } else if events[i].name == "exec_command" {
          if pattern(events[i].command) {
            indices := indices + [i];
          }
        }
      }
    }
  }

  // max(indices, default=-1) of an ascending list.
  function LastMutation(indices: seq<nat>): int {
    if indices == [] then -1 else indices[|indices| - 1]
  }

  /* ---------- Verification after a boundary ---------- */

  // The last event of a kind with an id among the first n, as a dictionary built in order keeps it.
  function LastOf(events: seq<Event>, kind: Kind, id: string, n: nat): Option<nat>
    requires n <= |events|
  {
    if n == 0 then None
    else if events[n - 1].kind == kind && events[n - 1].id == id then Some(n - 1)
    else LastOf(events, kind, id, n - 1)
  }

  lemma {:induction false} LastOfMeans(events: seq<Event>, kind: Kind, id: string, n: nat)
    requires n <= |events|
    ensures match LastOf(events, kind, id, n)
            case None => forall k :: 0 <= k < n ==> !(events[k].kind == kind && events[k].id == id)
            case Some(i) => i < n && events[i].kind == kind && events[i].id == id
                            && forall k :: i < k < n ==> !(events[k].kind == kind && events[k].id == id)
  {
    if n > 0 && !(events[n - 1].kind == kind && events[n - 1].id == id) {
      LastOfMeans(events, kind, id, n - 1);
    }
  }

  predicate Passed(events: seq<Event>, id: string) {
    var result := LastOf(events, ToolResult, id, |events|);
    result.Some? && result.value < |events| && events[result.value].ok && events[result.value].passed
  }

  // The last event of a kind with an id, as a dictionary keeps it.
  ghost predicate IsLastOf(events: seq<Event>, kind: Kind, id: string, i: int) {
    0 <= i < |events| && events[i].kind == kind && events[i].id == id &&
    forall k :: i < k < |events| ==> !(events[k].kind == kind && events[k].id == id)
  }

  // The result that counts for an id is good and verified.
  ghost predicate HasPassed(events: seq<Event>, id: string) {
    exists r :: IsLastOf(events, ToolResult, id, r) && events[r].ok && events[r].passed
  }

  lemma PassedMeans(events: seq<Event>, id: string)
    ensures Passed(events, id) <==> HasPassed(events, id)
  {
    LastOfMeans(events, ToolResult, id, |events|);
    var last := LastOf(events, ToolResult, id, |events|);
    if last.Some? {
      assert IsLastOf(events, ToolResult, id, last.value);
    }
  }

  // A verification call of the mode whose id was last called after the boundary and whose result passed.
  predicate Verifies(events: seq<Event>, mode: string, boundary: int, c: nat)
    requires c < |events|
  {
    var e := events[c];
    e.kind == ToolCall && e.name == "incident_verify" && e.mode == mode &&
    (match LastOf(events, ToolCall, e.id, |events|) case None => -1 case Some(i) => i) > boundary &&
    Passed(events, e.id)
  }

  // The same on the events alone.
  ghost predicate CreditedAfter(events: seq<Event>, mode: string, boundary: int, c: nat)
    requires c < |events|
  {
    events[c].kind == ToolCall && events[c].name == "incident_verify" && events[c].mode == mode &&
    (exists i :: IsLastOf(events, ToolCall, events[c].id, i) && i > boundary) && HasPassed(events, events[c].id)
  }

  lemma VerifiesMeans(events: seq<Event>, mode: string, boundary: int, c: nat)
    requires c < |events|
    ensures Verifies(events, mode, boundary, c) <==> CreditedAfter(events, mode, boundary, c)
  {
    PassedMeans(events, events[c].id);
    if events[c].kind == ToolCall {
      LastOfMeans(events, ToolCall, events[c].id, |events|);
      assert IsLastOf(events, ToolCall, events[c].id, LastOf(events, ToolCall, events[c].id, |events|).value);
    }
  }

  method SuccessfulVerificationAfter(events: seq<Event>, mode: string, boundary: int) returns (found: bool)
    ensures found <==> exists c :: 0 <= c < |events| && CreditedAfter(events, mode, boundary, c)
  {
    for c := 0 to |events|
      invariant forall k :: 0 <= k < c ==> !CreditedAfter(events, mode, boundary, k)
    {
      VerifiesMeans(events, mode, boundary, c);
      if Verifies(events, mode, boundary, c) {
        return true;
      }
    }
    return false;
  }

  ghost predicate DistinctCalls(events: seq<Event>) {
    forall i, j :: 0 <= i < j < |events| && events[i].kind == ToolCall && events[j].kind == ToolCall ==>
      events[i].id != events[j].id
  }

  ghost predicate AfterAllMutations(pattern: Pattern, events: seq<Event>, c: int) {
    forall m :: 0 <= m < |events| && Mutates(pattern, events[m]) ==> m < c
  }

  // A verification call of the mode whose id has a passing result.
  ghost predicate PassingCheck(events: seq<Event>, mode: string, c: nat)
    requires c < |events|
  {
    events[c].kind == ToolCall && events[c].name == "incident_verify" && events[c].mode == mode &&
    HasPassed(events, events[c].id)
  }

  // A passing verification call made after every mutation.
  ghost predicate VerifiedAfterAll(pattern: Pattern, events: seq<Event>, mode: string, c: nat)
    requires c < |events|
  {
    PassingCheck(events, mode, c) && AfterAllMutations(pattern, events, c)
  }

  // The id of call c is used again for call k, which comes after every mutation.
  ghost predicate RepeatedAfterAll(pattern: Pattern, events: seq<Event>, c: nat, k: nat)
    requires c < |events|
  {
    c < k < |events| && events[k].kind == ToolCall && events[k].id == events[c].id &&
    AfterAllMutations(pattern, events, k)
  }

  ghost predicate IsRepeatedAfterAll(pattern: Pattern, events: seq<Event>, c: nat)
    requires c < |events|
  {
    exists k :: RepeatedAfterAll(pattern, events, c, k)
  }

  // The ascending list of all mutations.
  ghost predicate ListsMutations(pattern: Pattern, events: seq<Event>, indices: seq<nat>) {
    (forall i :: i in indices <==> 0 <= i < |events| && Mutates(pattern, events[i])) &&
    forall i, j :: 0 <= i < j < |indices| ==> indices[i] < indices[j]
  }

  lemma BehindTheLastMutation(pattern: Pattern, events: seq<Event>, indices: seq<nat>, c: nat)
    requires ListsMutations(pattern, events, indices)
    ensures c > LastMutation(indices) <==> AfterAllMutations(pattern, events, c)
  {
    if indices != [] {
      assert LastMutation(indices) in indices;
      forall m | 0 <= m < |events| && Mutates(pattern, events[m]) ensures m <= LastMutation(indices) {
        var k :| 0 <= k < |indices| && indices[k] == m;
      }
    }
  }

  // The scorer credits a verification call exactly when it passed and was called after the last mutation, or its id was
  // used once more after the last mutation.
  lemma AfterTheLastMutation(pattern: Pattern, events: seq<Event>, indices: seq<nat>, mode: string, c: nat)
    requires c < |events| && ListsMutations(pattern, events, indices)
    ensures CreditedAfter(events, mode, LastMutation(indices), c)
            <==> VerifiedAfterAll(pattern, events, mode, c) ||
                 (PassingCheck(events, mode, c) && IsRepeatedAfterAll(pattern, events, c))
  {
    if events[c].kind == ToolCall {
      LastOfMeans(events, ToolCall, events[c].id, |events|);
      var last := LastOf(events, ToolCall, events[c].id, |events|).value;
      assert IsLastOf(events, ToolCall, events[c].id, last);
      BehindTheLastMutation(pattern, events, indices, c);
      BehindTheLastMutation(pattern, events, indices, last);
      if c < last && AfterAllMutations(pattern, events, last) {
        assert RepeatedAfterAll(pattern, events, c, last);
      }
      if k :| RepeatedAfterAll(pattern, events, c, k) {
        BehindTheLastMutation(pattern, events, indices, k);
      }
    }
  }

  // A credited call was made before some mutation exactly when its id comes back after all of them.
  lemma CreditedTooEarlyIff(pattern: Pattern, events: seq<Event>, indices: seq<nat>, mode: string, c: nat)
    requires c < |events| && ListsMutations(pattern, events, indices)
    ensures CreditedAfter(events, mode, LastMutation(indices), c) && !VerifiedAfterAll(pattern, events, mode, c)
            <==> PassingCheck(events, mode, c) && !AfterAllMutations(pattern, events, c) &&
                 IsRepeatedAfterAll(pattern, events, c)
  {
    AfterTheLastMutation(pattern, events, indices, mode, c);
  }

  // With different call ids the credited calls are exactly the passing ones made after the last mutation.
  lemma DistinctIdsAreJudgedRight(pattern: Pattern, events: seq<Event>, indices: seq<nat>, mode: string, c: nat)
    requires c < |events| && ListsMutations(pattern, events, indices) && DistinctCalls(events)
    ensures CreditedAfter(events, mode, LastMutation(indices), c) <==> VerifiedAfterAll(pattern, events, mode, c)
  {
    AfterTheLastMutation(pattern, events, indices, mode, c);
  }

  ghost predicate SomeVerifiedAfterAll(pattern: Pattern, events: seq<Event>, mode: string) {
    exists c :: 0 <= c < |events| && VerifiedAfterAll(pattern, events, mode, c)
  }

  // Some passing verification whose id is used again after the last mutation.
  ghost predicate SomeRepeatCredited(pattern: Pattern, events: seq<Event>, mode: string) {
    exists c :: 0 <= c < |events| && PassingCheck(events, mode, c) && IsRepeatedAfterAll(pattern, events, c)
  }

  // What the scorer asks of a mode: mutations first, then a verification behind the last of them. It answers yes
  // exactly for a passing verification after all mutations or one whose id comes back after them; so its yes is
  // unfounded exactly if every passing verification of the mode precedes some mutation and the id of one comes back
  // after all of them.
  method PostChangeVerified(pattern: Pattern, events: seq<Event>, mode: string) returns (found: bool)
    ensures found <==> SomeVerifiedAfterAll(pattern, events, mode) || SomeRepeatCredited(pattern, events, mode)
    ensures found && !SomeVerifiedAfterAll(pattern, events, mode)
            <==> SomeRepeatCredited(pattern, events, mode) &&
                 EveryPassingCheckIsEarly(pattern, events, mode)
    ensures DistinctCalls(events) ==> (found <==> SomeVerifiedAfterAll(pattern, events, mode))
  {
    var indices := MutationEventIndices(pattern, events);
    found := SuccessfulVerificationAfter(events, mode, LastMutation(indices));
    FoundMeans(pattern, events, indices, mode);
    NoneIsVerified(pattern, events, mode);
  }

  // Some mutation follows every passing verification of the mode.
  ghost predicate EveryPassingCheckIsEarly(pattern: Pattern, events: seq<Event>, mode: string) {
    forall c :: 0 <= c < |events| && PassingCheck(events, mode, c) ==> !AfterAllMutations(pattern, events, c)
  }

  lemma NoneIsVerified(pattern: Pattern, events: seq<Event>, mode: string)
    ensures !SomeVerifiedAfterAll(pattern, events, mode) <==> EveryPassingCheckIsEarly(pattern, events, mode)
  {
    if !SomeVerifiedAfterAll(pattern, events, mode) {
      forall c | 0 <= c < |events| && PassingCheck(events, mode, c) ensures !AfterAllMutations(pattern, events, c) {
        assert !VerifiedAfterAll(pattern, events, mode, c);
      }
    }
  }

  lemma DistinctIdsAreNotRepeated(pattern: Pattern, events: seq<Event>, c: nat)
    requires c < |events| && DistinctCalls(events) && events[c].kind == ToolCall
    ensures !IsRepeatedAfterAll(pattern, events, c)
  {
  }

  lemma FoundMeans(pattern: Pattern, events: seq<Event>, indices: seq<nat>, mode: string)
    requires ListsMutations(pattern, events, indices)
    ensures (exists c :: 0 <= c < |events| && CreditedAfter(events, mode, LastMutation(indices), c))
            <==> SomeVerifiedAfterAll(pattern, events, mode) || SomeRepeatCredited(pattern, events, mode)
    ensures DistinctCalls(events) ==> !SomeRepeatCredited(pattern, events, mode)
  {
    forall c | 0 <= c < |events|
      ensures CreditedAfter(events, mode, LastMutation(indices), c)
              <==> VerifiedAfterAll(pattern, events, mode, c) ||
                   (PassingCheck(events, mode, c) && IsRepeatedAfterAll(pattern, events, c))
    {
      AfterTheLastMutation(pattern, events, indices, mode, c);
    }
    if SomeVerifiedAfterAll(pattern, events, mode) {
      var c :| 0 <= c < |events| && VerifiedAfterAll(pattern, events, mode, c);
      assert CreditedAfter(events, mode, LastMutation(indices), c);
    } else if SomeRepeatCredited(pattern, events, mode) {
      var c :| 0 <= c < |events| && PassingCheck(events, mode, c) && IsRepeatedAfterAll(pattern, events, c);
      assert CreditedAfter(events, mode, LastMutation(indices), c);
      if DistinctCalls(events) { DistinctIdsAreNotRepeated(pattern, events, c); }
    }
  }

  // With a repeated call id the check can credit a verification that was called before the only mutation.
  lemma RepeatedIdsAreCredited(pattern: Pattern, check: Event, write: Event, again: Event, result: Event)
    requires check.kind == ToolCall && check.name == "incident_verify"
    requires Mutates(pattern, write) && write.id != check.id
    requires again.kind == ToolCall && again.id == check.id && again.name != "incident_verify" &&
             !Mutates(pattern, again)
    requires result.kind == ToolResult && result.id == check.id && result.ok && result.passed
    ensures var events := [check, write, again, result];
            && CreditedAfter(events, check.mode, 1, 0) && ListsMutations(pattern, events, [1])
            && !SomeVerifiedAfterAll(pattern, events, check.mode)
  {
    var events := [check, write, again, result];
    assert IsLastOf(events, ToolResult, check.id, 3);
    assert IsLastOf(events, ToolCall, check.id, 2);
    assert Mutates(pattern, events[1]);
  }

  /* ---------- Recovered faults ---------- */

  // The first call with an id.
  function FirstCall(calls: seq<Event>, id: string): Option<nat> {
    if calls == [] then None
    else
      match FirstCall(calls[..|calls| - 1], id)
      case Some(i) => Some(i)
      case None => if calls[|calls| - 1].id == id then Some(|calls| - 1) else None
  }

  lemma {:induction false} FirstCallMeans(calls: seq<Event>, id: string)
    ensures match FirstCall(calls, id)
            case None => forall k :: 0 <= k < |calls| ==> calls[k].id != id
            case Some(i) => i < |calls| && calls[i].id == id && forall k :: 0 <= k < i ==> calls[k].id != id
  {
    if calls != [] {
      FirstCallMeans(calls[..|calls| - 1], id);
    }
  }

  function LastResult(results: seq<Event>, id: string): Option<Event> {
    if results == [] then None
    else if results[|results| - 1].id == id then Some(results[|results| - 1])
    else LastResult(results[..|results| - 1], id)
  }

  predicate EndedWell(results: seq<Event>, id: string) {
    LastResult(results, id).Some? && LastResult(results, id).value.ok
  }

  ghost predicate IsFirstWith(list: seq<Event>, id: string, i: int) {
    0 <= i < |list| && list[i].id == id && forall k :: 0 <= k < i ==> list[k].id != id
  }

  ghost predicate IsLastWith(list: seq<Event>, id: string, i: int) {
    0 <= i < |list| && list[i].id == id && forall k :: i < k < |list| ==> list[k].id != id
  }

  ghost predicate EndsWell(results: seq<Event>, id: string) {
    exists r :: IsLastWith(results, id, r) && results[r].ok
  }

  lemma {:induction false} LastResultMeans(results: seq<Event>, id: string)
    ensures match LastResult(results, id)
            case None => forall k :: 0 <= k < |results| ==> results[k].id != id
            case Some(e) => exists r :: IsLastWith(results, id, r) && results[r] == e
  {
    if results != [] {
      var n := |results| - 1;
      if results[n].id == id {
        assert IsLastWith(results, id, n);
      } else {
        LastResultMeans(results[..n], id);
        if LastResult(results[..n], id).Some? {
          var r :| IsLastWith(results[..n], id, r) && results[..n][r] == LastResult(results[..n], id).value;
          assert IsLastWith(results, id, r);
        } else {
          forall k | 0 <= k < |results| ensures results[k].id != id {
            assert k < n ==> results[..n][k] == results[k];
          }
        }
      }
    }
  }

  lemma EndedWellMeans(results: seq<Event>, id: string)
    ensures EndedWell(results, id) <==> EndsWell(results, id)
  {
    LastResultMeans(results, id);
  }

  // A call after the first one with the fault's id, of the same name and arguments, ended well.
  ghost predicate RetriedBy(calls: seq<Event>, results: seq<Event>, fault: Event, later: nat)
    requires later < |calls|
  {
    EndsWell(results, calls[later].id) &&
    exists i :: (IsFirstWith(calls, fault.id, i) && i < later && calls[later].name == calls[i].name &&
                 calls[later].arguments == calls[i].arguments)
  }

  ghost predicate Recovered(calls: seq<Event>, results: seq<Event>, fault: Event) {
    fault.faulted && exists later :: 0 <= later < |calls| && RetriedBy(calls, results, fault, later)
  }

  function CountFaults(results: seq<Event>): nat {
    if results == [] then 0 else CountFaults(results[..|results| - 1]) + if results[|results| - 1].faulted then 1 else 0
  }

  ghost function CountRecovered(calls: seq<Event>, results: seq<Event>, faults: seq<Event>): nat {
    if faults == [] then 0
    else
      CountRecovered(calls, results, faults[..|faults| - 1]) +
      if Recovered(calls, results, faults[|faults| - 1]) then 1 else 0
  }

  method RecoveredFaultRuleCount(calls: seq<Event>, results: seq<Event>) returns (recovered: nat)
    ensures recovered == CountRecovered(calls, results, results)
  {
    recovered := 0;
    for i := 0 to |results|
      invariant recovered == CountRecovered(calls, results, results[..i])
    {
      assert results[..i + 1][..i] == results[..i];
      if results[i].faulted {
        var found := FindRetry(calls, results, results[i]);
        if found {
          recovered := recovered + 1;
        }
      }
    }
    assert results[..|results|] == results;
  }

  method FindRetry(calls: seq<Event>, results: seq<Event>, fault: Event) returns (found: bool)
    ensures found <==> exists later :: 0 <= later < |calls| && RetriedBy(calls, results, fault, later)
  {
    var first := FirstCall(calls, fault.id);
    FirstCallMeans(calls, fault.id);
    if first.None? {
      return false;
    }
    assert IsFirstWith(calls, fault.id, first.value);
    for later := first.value + 1 to |calls|
      invariant forall k :: 0 <= k < later ==> !RetriedBy(calls, results, fault, k)
    {
      EndedWellMeans(results, calls[later].id);
      if calls[later].name == calls[first.value].name && calls[later].arguments == calls[first.value].arguments &&
         EndedWell(results, calls[later].id)
      {
        assert RetriedBy(calls, results, fault, later);
        return true;
      }
    }
    return false;
  }

  // A fault counts as recovered at most once.
  lemma {:induction false} RecoveredIsAtMostFaults(calls: seq<Event>, results: seq<Event>, faults: seq<Event>)
    ensures CountRecovered(calls, results, faults) <= CountFaults(faults)
  {
    if faults != [] {
      RecoveredIsAtMostFaults(calls, results, faults[..|faults| - 1]);
    }
  }

  // Repeating the failed call once more with a good result recovers the fault.
  lemma RetryRecovers(calls: seq<Event>, results: seq<Event>, fault: Event, i: nat, retry: Event, result: Event)
    requires fault.faulted && IsFirstWith(calls, fault.id, i)
    requires retry.name == calls[i].name && retry.arguments == calls[i].arguments
    requires result.id == retry.id && result.ok
    ensures Recovered(calls + [retry], results + [result], fault)
  {
    assert IsFirstWith(calls + [retry], fault.id, i);
    assert IsLastWith(results + [result], retry.id, |results|);
    assert RetriedBy(calls + [retry], results + [result], fault, |calls|);
  }

  // A further call with a new id, whatever its result, loses no recovery.
  lemma RecoveriesStay(calls: seq<Event>, results: seq<Event>, fault: Event, retry: Event, result: Event)
    requires Recovered(calls, results, fault) && result.id == retry.id
    requires forall k :: 0 <= k < |calls| ==> calls[k].id != retry.id
    ensures Recovered(calls + [retry], results + [result], fault)
  {
    var later :| 0 <= later < |calls| && RetriedBy(calls, results, fault, later);
    var i :| IsFirstWith(calls, fault.id, i) && i < later && calls[later].name == calls[i].name &&
             calls[later].arguments == calls[i].arguments;
    var r :| IsLastWith(results, calls[later].id, r) && results[r].ok;
    assert IsFirstWith(calls + [retry], fault.id, i);
    assert IsLastWith(results + [result], calls[later].id, r);
    assert RetriedBy(calls + [retry], results + [result], fault, later);
  }

  /* ---------- The release grader's count ---------- */

  const RETRIED_BY_NAME := {"browser_search", "registry_inspect", "provenance_query", "attestation_verify",
                            "runtime_probe"}

  function LastCall(calls: seq<Event>, id: string): Option<Event> {
    LastResult(calls, id)
  }

  function NameOf(call: Option<Event>): string {
    match call case None => "" case Some(e) => e.name
  }

  function ArgumentsOf(call: Option<Event>): string {
    match call case None => "" case Some(e) => e.arguments
  }

  // The place of the first result equal to this one.
  function IndexOf(results: seq<Event>, fault: Event): nat
    requires fault in results
  {
    if results[0] == fault then 0 else 1 + IndexOf(results[1..], fault)
  }

  // A later good result of a call with the same name, and the same arguments unless the name alone is enough.
  predicate ReleaseRetriedBy(calls: seq<Event>, results: seq<Event>, fault: Event, later: nat)
    requires fault in results && later < |results|
  {
    var failed, call := LastCall(calls, fault.id), LastCall(calls, results[later].id);
    IndexOf(results, fault) < later && results[later].ok && NameOf(call) == NameOf(failed) &&
    (ArgumentsOf(call) == ArgumentsOf(failed) || NameOf(failed) in RETRIED_BY_NAME)
  }

  lemma {:induction false} IndexOfMeans(results: seq<Event>, fault: Event, later: nat)
    requires fault in results
    ensures IndexOf(results, fault) < later <==> exists i :: 0 <= i < |results| && i < later && results[i] == fault
  {
    if results[0] != fault {
      if later > 0 {
        IndexOfMeans(results[1..], fault, later - 1);
      }
      if exists i :: 0 <= i < |results| && i < later && results[i] == fault {
        var i :| 0 <= i < |results| && i < later && results[i] == fault;
        assert results[1..][i - 1] == fault;
      }
      if later > 0 && IndexOf(results, fault) < later {
        var i :| 0 <= i < |results[1..]| && i < later - 1 && results[1..][i] == fault;
        assert results[i + 1] == fault;
      }
    }
  }

  // On the lists alone: the result is good and comes after one equal to the fault, and the last calls with both ids
  // have the same name and, unless the name is one of five, the same arguments.
  lemma ReleaseRetriedMeans(calls: seq<Event>, results: seq<Event>, fault: Event, later: nat, a: nat, b: nat)
    requires fault in results && later < |results|
    requires IsLastWith(calls, fault.id, a) && IsLastWith(calls, results[later].id, b)
    ensures ReleaseRetriedBy(calls, results, fault, later)
            <==> (exists i :: 0 <= i < later && results[i] == fault) && results[later].ok &&
                 calls[b].name == calls[a].name &&
                 (calls[b].arguments == calls[a].arguments || calls[a].name in RETRIED_BY_NAME)
  {
    IndexOfMeans(results, fault, later);
    LastResultMeans(calls, fault.id);
    LastResultMeans(calls, results[later].id);
  }

  predicate ReleaseRecovered(calls: seq<Event>, results: seq<Event>, fault: Event)
    requires fault in results
  {
    exists later :: 0 <= later < |results| && ReleaseRetriedBy(calls, results, fault, later)
  }

  function Faults(results: seq<Event>): seq<Event> {
    if results == [] then []
    else if results[|results| - 1].faulted then Faults(results[..|results| - 1]) + [results[|results| - 1]]
    else Faults(results[..|results| - 1])
  }

  lemma {:induction false} FaultsAreResults(results: seq<Event>)
    ensures forall f :: f in Faults(results) <==> f in results && f.faulted
    ensures |Faults(results)| == CountFaults(results)
  {
    if results != [] {
      FaultsAreResults(results[..|results| - 1]);
      assert results == results[..|results| - 1] + [results[|results| - 1]];
    }
  }

  // Of every fault seen, whether some later result recovered it.
  method FaultRecoveryCount(calls: seq<Event>, results: seq<Event>)
    returns (seen: nat, recovered: nat, ghost which: seq<bool>)
    ensures seen == CountFaults(results) && recovered <= seen
    ensures |which| == seen && recovered == CountTrue(which)
    ensures |Faults(results)| == seen && forall k :: 0 <= k < seen ==>
              Faults(results)[k] in results && (which[k] <==> ReleaseRecovered(calls, results, Faults(results)[k]))
  {
    var faults := Faults(results);
    FaultsAreResults(results);
    recovered, which := 0, [];
    for i := 0 to |faults|
      invariant recovered <= i && |which| == i && recovered == CountTrue(which)
      invariant forall k :: 0 <= k < i ==> (which[k] <==> ReleaseRecovered(calls, results, faults[k]))
    {
      assert faults[i] in faults;
      var found := FindRelease(calls, results, faults[i]);
      CountOneMore(which, found);
      which := which + [found];
      if found {
        recovered := recovered + 1;
      }
    }
    seen := |faults|;
  }

  method FindRelease(calls: seq<Event>, results: seq<Event>, fault: Event) returns (found: bool)
    requires fault in results
    ensures found <==> ReleaseRecovered(calls, results, fault)
  {
    for later := 0 to |results|
      invariant forall k :: 0 <= k < later ==> !ReleaseRetriedBy(calls, results, fault, k)
    {
      if ReleaseRetriedBy(calls, results, fault, later) {
        return true;
      }
    }
    return false;
  }

  function CountTrue(flags: seq<bool>): nat {
    if flags == [] then 0 else CountTrue(flags[..|flags| - 1]) + if flags[|flags| - 1] then 1 else 0
  }

  lemma CountOneMore(flags: seq<bool>, flag: bool)
    ensures CountTrue(flags + [flag]) == CountTrue(flags) + if flag then 1 else 0
  {
    assert (flags + [flag])[..|flags|] == flags;
  }
}
