// How the importers spread evidence records over the commits of a history.
module Distribution {
  import opened Wrappers

  function Max(a: nat, b: nat): nat {
    if a > b then a else b
  }

  // Records taken by the next commit, floor form: the relay and capsule histories.
  function FloorTake(left: nat, commitsLeft: nat): nat {
    if left == 0 then 0 else Max(1, left / Max(1, commitsLeft))
  }

  // Records taken by the next commit, ceiling form: the release custody history.
  function CeilingTake(left: nat, commitsLeft: nat): nat
    requires commitsLeft > 0
  {
    if left == 0 then 0 else Max(1, (left + commitsLeft - 1) / commitsLeft)
  }

  function Flatten<T>(batches: seq<seq<T>>): seq<T> {
    if batches == [] then [] else Flatten(batches[..|batches| - 1]) + batches[|batches| - 1]
  }

  /* ---------- Closed forms ---------- */

  // Size of batch i when n records meet k commits: floor form fills late, and pads with empty batches
  // only when records run out.
  function FloorSize(n: nat, k: nat, i: nat): nat
    requires i < k
  {
    if n < k then (if i < n then 1 else 0)
    else if i < k - n % k then n / k else n / k + 1
  }

  // Ceiling form fills early.
  function CeilingSize(n: nat, k: nat, i: nat): nat
    requires i < k
  {
    if i < n % k then n / k + 1 else n / k
  }

  // Records not yet taken before batch i.
  function FloorLeft(n: nat, k: nat, i: nat): nat
    requires i <= k && k > 0
  {
    if n < k then (if i < n then n - i else 0)
    else DenseLeft(n / k, n % k, k, i)
  }

  function DenseLeft(q: nat, r: nat, k: nat, i: nat): nat
    requires i <= k
  {
    if i <= k - r then q * (k - i) + r else (q + 1) * (k - i)
  }

  function CeilingLeft(n: nat, k: nat, i: nat): nat
    requires i <= k && k > 0
  {
    Euclid(n, k);
    EvenLeft(n / k, n % k, k, i)
  }

  function EvenLeft(q: nat, r: nat, k: nat, i: nat): nat
    requires i <= k
  {
    MulMonotone(0, q, k - i);
    if i < r then q * (k - i) + (r - i) else q * (k - i)
  }

  lemma MulMonotone(a: int, b: int, m: nat)
    requires a <= b
    ensures a * m <= b * m
  {
    assert (b - a) * m >= 0;
    assert (b - a) * m == b * m - a * m;
  }

  lemma NextMultiple(q: nat, m: nat)
    ensures (q + 1) * m == q * m + m
  {
  }

  lemma DivisionBounds(n: nat, m: nat)
    requires m > 0
    ensures n / m * m <= n < n / m * m + m
  {
    assert n == m * (n / m) + n % m;
    assert m * (n / m) == n / m * m;
  }

  // There is only one quotient: a multiple of m that n reaches and the next one does not.
  lemma QuotientIs(n: nat, m: nat, q: nat)
    requires m > 0 && q * m <= n < q * m + m
    ensures n / m == q
  {
    var d := n / m;
    DivisionBounds(n, m);
    NextMultiple(d, m);
    NextMultiple(q, m);
    if d < q {
      MulMonotone(d + 1, q, m);
    } else if q < d {
      MulMonotone(q + 1, d, m);
    }
  }

  lemma DivSum(q: nat, m: nat, r: nat)
    requires r < m
    ensures (q * m + r) / m == q
  {
    assert q * m >= 0;
    QuotientIs(q * m + r, m, q);
  }

  lemma Euclid(n: nat, k: nat)
    requires k > 0
    ensures n == n / k * k + n % k && n % k < k
    ensures n < k ==> n / k == 0 && n % k == n
    ensures n >= k ==> n / k >= 1
  {
    assert n == k * (n / k) + n % k;
  }

  lemma OneMore(q: nat, m: nat)
    requires m > 0
    ensures q * m == q * (m - 1) + q
    ensures (q + 1) * m == q * m + m
  {
  }

  lemma FloorStep(n: nat, k: nat, i: nat)
    requires i < k
    ensures FloorTake(FloorLeft(n, k, i), k - i) == FloorSize(n, k, i)
    ensures FloorLeft(n, k, i) == FloorSize(n, k, i) + FloorLeft(n, k, i + 1)
  {
    Euclid(n, k);
    if n < k {
      if i < n {
        DivSum(0, k - i, n - i);
      }
    } else {
      FloorStepDense(n / k, n % k, k, i);
    }
  }

  lemma FloorStepDense(q: nat, r: nat, k: nat, i: nat)
    requires i < k && r < k && q >= 1
    ensures FloorTake(DenseLeft(q, r, k, i), k - i) == if i < k - r then q else q + 1
    ensures DenseLeft(q, r, k, i) == (if i < k - r then q else q + 1) + DenseLeft(q, r, k, i + 1)
  {
    var m := k - i;
    OneMore(q, m);
    OneMore(q + 1, m);
    if i < k - r {
      DivSum(q, m, r);
    } else {
      DivSum(q + 1, m, 0);
    }
  }

  lemma CeilingStep(n: nat, k: nat, i: nat)
    requires i < k
    ensures CeilingTake(CeilingLeft(n, k, i), k - i) == CeilingSize(n, k, i)
    ensures CeilingLeft(n, k, i) == CeilingSize(n, k, i) + CeilingLeft(n, k, i + 1)
  {
    var q, r, m := n / k, n % k, k - i;
    OneMore(q, m);
    if i < r {
      DivSum(q + 1, m, r - i - 1);
    } else {
      DivSum(q, m, m - 1);
    }
  }

  lemma BothEnds(n: nat, k: nat)
    requires k > 0
    ensures FloorLeft(n, k, 0) == n && FloorLeft(n, k, k) == 0
    ensures CeilingLeft(n, k, 0) == n && CeilingLeft(n, k, k) == 0
  {
    Euclid(n, k);
  }

  // Either way no two batches differ by more than one record.
  lemma BatchesAreBalanced(n: nat, k: nat, i: nat, j: nat)
    requires i < k && j < k
    ensures FloorSize(n, k, i) <= FloorSize(n, k, j) + 1
    ensures CeilingSize(n, k, i) <= CeilingSize(n, k, j) + 1
  {
  }

  /* ---------- The loops ---------- */

  // The floor loop: every record leaves once, in order, and the cursor reaches the end for two or more commits.
  method FloorBatches<T>(records: seq<T>, commitCount: nat) returns (batches: seq<seq<T>>, converged: bool)
    ensures converged <==> commitCount >= 2 || records == []
    ensures |batches| == (if commitCount >= 1 then commitCount - 1 else 0)
    ensures converged ==> Flatten(batches) == records
    ensures commitCount >= 2 ==>
              forall i :: 0 <= i < |batches| ==> |batches[i]| == FloorSize(|records|, commitCount - 1, i)
  {
    batches := [];
    var cursor := 0;
    var k := if commitCount >= 1 then commitCount - 1 else 0;
    if k > 0 { BothEnds(|records|, k); }
    for commitIndex := 1 to k + 1
      invariant |batches| == commitIndex - 1
      invariant 0 <= cursor <= |records| && Flatten(batches) == records[..cursor]
      invariant if k > 0 then |records| - cursor == FloorLeft(|records|, k, commitIndex - 1) else cursor == 0
      invariant forall i :: 0 <= i < |batches| ==> |batches[i]| == FloorSize(|records|, k, i)
    {
      var commitsLeft := k + 1 - commitIndex;
      var take := FloorTake(|records| - cursor, commitsLeft);
      FloorStep(|records|, k, commitIndex - 1);
      var chunk := records[cursor..cursor + take];
      assert (batches + [chunk])[..|batches|] == batches;
      batches := batches + [chunk];
      cursor := cursor + |chunk|;
    }
    converged := cursor == |records|;
  }

  // The ceiling loop refuses a commit with neither records nor transition files. It fails exactly when the
  // records run out before a commit that has no transition of its own.
  method CeilingBatches<T>(records: seq<T>, commitCount: nat, transitions: set<nat>)
    returns (r: Result<seq<seq<T>>>)
    ensures r.Success? <==> (commitCount >= 2 || records == []) &&
                            forall c :: |records| < c < commitCount ==> c in transitions
    ensures r.Success? && commitCount >= 2 ==> |r.value| == commitCount - 1 && Flatten(r.value) == records
    ensures r.Success? && commitCount >= 2 ==>
              forall i :: 0 <= i < |r.value| ==> |r.value[i]| == CeilingSize(|records|, commitCount - 1, i)
  {
    var batches: seq<seq<T>> := [];
    var cursor := 0;
    var k := if commitCount >= 1 then commitCount - 1 else 0;
    if k > 0 { BothEnds(|records|, k); }
    for commitIndex := 1 to k + 1
      invariant |batches| == commitIndex - 1
      invariant 0 <= cursor <= |records| && Flatten(batches) == records[..cursor]
      invariant if k > 0 then |records| - cursor == CeilingLeft(|records|, k, commitIndex - 1) else cursor == 0
      invariant forall i :: 0 <= i < |batches| ==> |batches[i]| == CeilingSize(|records|, k, i)
      invariant forall c :: |records| < c < commitIndex ==> c in transitions
    {
      var commitsLeft := k + 1 - commitIndex;
      var take := CeilingTake(|records| - cursor, commitsLeft);
      CeilingStep(|records|, k, commitIndex - 1);
      EmptyBatch(|records|, k, commitIndex - 1);
      var chunk := records[cursor..cursor + take];
      assert (batches + [chunk])[..|batches|] == batches;
      batches := batches + [chunk];
      cursor := cursor + |chunk|;
      if chunk == [] && commitIndex !in transitions {
        return Failure("commit has no evidence transition");
      }
    }
    if cursor != |records| {
      return Failure("evidence distribution did not converge");
    }
    return Success(batches);
  }

  lemma EmptyBatch(n: nat, k: nat, i: nat)
    requires i < k
    ensures CeilingSize(n, k, i) == 0 <==> n <= i
  {
    Euclid(n, k);
  }
}
