// Semantic checkpoints over eight segments of a chain, the audit tool that
// recomputes them, and what a disagreement locates.
module RelayCheckpoints {
  import opened RelayCells
  import opened RelayFaults
  import opened RelayBundle

  function Min(a: nat, b: nat): nat {
    if a < b then a else b
  }

  // A Python or JavaScript slice with non-negative bounds: out-of-range bounds are clamped.
  function Slice<T>(s: seq<T>, start: nat, end: nat): seq<T> {
    var from := Min(start, |s|);
    var to := Min(end, |s|);
    if from <= to then s[from..to] else []
  }

  // The generator's segments: floor width, the last one takes the rest.
  function GeneratorSegment<T>(cells: seq<T>, segment: nat): seq<T>
    requires segment < 8
  {
    var size := if |cells| / 8 == 0 then 1 else |cells| / 8;
    Slice(cells, segment * size, if segment == 7 then |cells| else (segment + 1) * size)
  }

  // The audit tool's segments: ceiling width throughout.
  function AuditSegment<T>(files: seq<T>, segment: nat): seq<T>
    requires segment < 8
  {
    var width := (|files| + 7) / 8;
    Slice(files, segment * width, (segment + 1) * width)
  }

  // The two tools cut every chain alike exactly when its length is below 8 or a multiple of 8.
  lemma SegmentationsAgreeIff<T>(cells: seq<T>)
    ensures (forall segment :: 0 <= segment < 8 ==> GeneratorSegment(cells, segment) == AuditSegment(cells, segment))
            <==> |cells| % 8 == 0 || |cells| < 8
  {
    var n := |cells|;
    if n % 8 == 0 || n < 8 {
      forall segment | 0 <= segment < 8 ensures GeneratorSegment(cells, segment) == AuditSegment(cells, segment) {
        if n % 8 == 0 {
          assert (n + 7) / 8 == n / 8;
        }
      }
    } else {
      assert |GeneratorSegment(cells, 0)| == n / 8 && |AuditSegment(cells, 0)| == (n + 7) / 8;
    }
  }

  function Joined<T>(parts: seq<seq<T>>): seq<T> {
    if parts == [] then [] else Joined(parts[..|parts| - 1]) + parts[|parts| - 1]
  }

  function GeneratorSegments<T>(cells: seq<T>, k: nat): seq<seq<T>>
    requires k <= 8
  {
    seq(k, segment requires 0 <= segment < k => GeneratorSegment(cells, segment))
  }

  // Where the first k segments end.
  function EndOf(n: nat, k: nat): nat
    requires k <= 8
  {
    var size := if n / 8 == 0 then 1 else n / 8;
    if k == 8 then n else Min(k * size, n)
  }

  lemma SegmentIsNext<T>(cells: seq<T>, k: nat)
    requires k < 8
    ensures EndOf(|cells|, k) <= EndOf(|cells|, k + 1) <= |cells|
    ensures GeneratorSegment(cells, k) == cells[EndOf(|cells|, k)..EndOf(|cells|, k + 1)]
  {
  }

  lemma {:induction false} FirstSegments<T>(cells: seq<T>, k: nat)
    requires k <= 8
    ensures EndOf(|cells|, k) <= |cells| && Joined(GeneratorSegments(cells, k)) == cells[..EndOf(|cells|, k)]
  {
    if k > 0 {
      FirstSegments(cells, k - 1);
      SegmentIsNext(cells, k - 1);
      NextSegment(GeneratorSegments(cells, k - 1), GeneratorSegment(cells, k - 1), cells, EndOf(|cells|, k - 1),
                  EndOf(|cells|, k));
      OneMoreSegment(cells, k);
    }
  }

  lemma OneMoreSegment<T>(cells: seq<T>, k: nat)
    requires 0 < k <= 8
    ensures GeneratorSegments(cells, k) == GeneratorSegments(cells, k - 1) + [GeneratorSegment(cells, k - 1)]
  {
  }

  lemma NextSegment<T>(parts: seq<seq<T>>, part: seq<T>, cells: seq<T>, from: nat, to: nat)
    requires from <= to <= |cells| && Joined(parts) == cells[..from] && part == cells[from..to]
    ensures Joined(parts + [part]) == cells[..to]
  {
    assert (parts + [part])[..|parts|] == parts;
    assert cells[..to] == cells[..from] + cells[from..to];
  }

  // The checkpoint segments partition the chain, whatever its length.
  lemma SegmentsPartition<T>(cells: seq<T>)
    ensures Joined(GeneratorSegments(cells, 8)) == cells
  {
    FirstSegments(cells, 8);
  }

  /* ---------- Digests of segments ---------- */

  datatype Meaning = Meaning(rotate: Lane, delta: Vector)

  // A checkpoint hashes what the cells mean; seals and spelling do not enter.
  function Semantic(cells: seq<Cell>): seq<Meaning> {
    seq(|cells|, k requires 0 <= k < |cells| => Meaning(cells[k].rotate, cells[k].delta))
  }

  method Checkpoints<D>(cells: seq<Cell>, digest: seq<Meaning> -> D) returns (r: seq<D>)
    ensures |r| == 8
    ensures forall segment :: 0 <= segment < 8 ==> r[segment] == digest(Semantic(GeneratorSegment(cells, segment)))
  {
    r := [];
    for segment := 0 to 8
      invariant |r| == segment
      invariant forall k :: 0 <= k < segment ==> r[k] == digest(Semantic(GeneratorSegment(cells, k)))
    {
      r := r + [digest(Semantic(GeneratorSegment(cells, segment)))];
    }
  }

  lemma CorruptedCellChangesMeaning(name: Namespace, plan: Plan, k: nat)
    requires Built(name, plan) && k in Config(name).targets && k < |plan.correct|
    ensures plan.final[k].delta != plan.correct[k].delta
  {
    if name.Query? {
      var lane := CarriedLane(plan.correct, k);
      assert plan.final[k].delta[lane] == Add(plan.correct[k].delta[lane], 1);
    } else {
      var inc: Vector :| Mild(inc) && plan.final[k].delta == AddVec(plan.correct[k].delta, inc);
      assert exists lane: Lane :: inc[lane] != 0;
      var lane: Lane :| inc[lane] != 0;
      assert plan.final[k].delta[lane] == Add(plan.correct[k].delta[lane], inc[lane]);
    }
  }

  // The width of the segments of a configured chain.
  function Width(name: Namespace): nat {
    Config(name).count / 8
  }

  ghost predicate Collides<S, D>(digest: S -> D, a: S, b: S) {
    a != b && digest(a) == digest(b)
  }

  predicate InSegment(name: Namespace, segment: nat, k: nat) {
    segment * Width(name) <= k < (segment + 1) * Width(name)
  }

  lemma EvenSegments<T>(cells: seq<T>, width: nat, segment: nat)
    requires |cells| == 8 * width && width > 0 && segment < 8
    ensures (segment + 1) * width <= |cells|
    ensures GeneratorSegment(cells, segment) == AuditSegment(cells, segment)
            == cells[segment * width..(segment + 1) * width]
  {
    assert |cells| / 8 == width == (|cells| + 7) / 8;
    assert segment * width <= 7 * width;
  }

  lemma SliceMeaning(cells: seq<Cell>, changed: seq<Cell>, from: nat, to: nat)
    requires from <= to <= |cells| == |changed|
    ensures Semantic(cells[from..to]) == Semantic(changed[from..to])
            <==> forall k :: from <= k < to ==>
                   cells[k].rotate == changed[k].rotate && cells[k].delta == changed[k].delta
  {
    var a, b := Semantic(cells[from..to]), Semantic(changed[from..to]);
    assert forall k :: from <= k < to ==> a[k - from] == Meaning(cells[k].rotate, cells[k].delta);
    assert forall k :: from <= k < to ==> b[k - from] == Meaning(changed[k].rotate, changed[k].delta);
    if forall k :: from <= k < to ==> cells[k].rotate == changed[k].rotate && cells[k].delta == changed[k].delta {
      forall j | 0 <= j < to - from ensures a[j] == b[j] {
        assert cells[from + j].rotate == changed[from + j].rotate;
      }
    }
  }

  // The audit of a partly repaired chain differs from the checkpointed segment exactly where a corruption
  // is still in place: equal meanings give equal digests, and an equal digest elsewhere is a collision.
  lemma AuditLocatesCorruption<D>(name: Namespace, plan: Plan, broken: set<nat>, segment: nat,
                                  digest: seq<Meaning> -> D)
    requires Built(name, plan) && broken <= Targets(name) && segment < 8
    ensures var claimed := Semantic(GeneratorSegment(plan.correct, segment));
            var audited := Semantic(AuditSegment(Deployed(plan, broken), segment));
            var clean := forall k :: k in broken ==> !InSegment(name, segment, k);
            && (clean <==> claimed == audited)
            && (digest(audited) == digest(claimed) <==> clean || Collides(digest, claimed, audited))
  {
    var deployed := Deployed(plan, broken);
    assert |plan.correct| == 8 * Width(name);
    EvenSegments(plan.correct, Width(name), segment);
    EvenSegments(deployed, Width(name), segment);
    var from, to := segment * Width(name), (segment + 1) * Width(name);
    SliceMeaning(plan.correct, deployed, from, to);
    DeployedDiffers(name, plan, broken, from, to);
  }

  lemma DeployedDiffers(name: Namespace, plan: Plan, broken: set<nat>, from: nat, to: nat)
    requires Built(name, plan) && broken <= Targets(name) && from <= to <= |plan.correct|
    ensures (forall k :: from <= k < to ==>
               plan.correct[k].rotate == Deployed(plan, broken)[k].rotate &&
               plan.correct[k].delta == Deployed(plan, broken)[k].delta)
            <==> forall k :: k in broken ==> !(from <= k < to)
  {
    var deployed := Deployed(plan, broken);
    forall k | k in broken && k < |plan.correct| ensures deployed[k].delta != plan.correct[k].delta {
      CorruptedCellChangesMeaning(name, plan, k);
    }
  }
}
