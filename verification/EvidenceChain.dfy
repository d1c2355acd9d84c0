// The hash-linked evidence records of a repository and the verifier that ships with them.
module EvidenceChain {
  import opened Wrappers
  import opened Numerals
  import opened TextOrder

  // One record without its own hash. The body stands for every other field.
  datatype Payload = Payload(id: string, predecessor: string, body: string)

  // A shard: the payload and the hash it claims.
  datatype Shard = Shard(payload: Payload, claimed: string)

  // SHA-256 of the canonical JSON text of a payload.
  type Digest = Payload -> string

  const GENESIS := "GENESIS"

  /* ---------- The generator ---------- */

  // What a chain is made from: the upper-case name, the remaining fields and the opaque path of each record.
  datatype Source = Source(name: string, bodies: nat -> string, paths: nat -> string)

  function RecordId(name: string, index: nat): string {
    name + "-" + Padded(index, 6)
  }

  function Link(source: Source, digest: Digest, index: nat): Payload {
    Payload(RecordId(source.name, index), if index == 0 then GENESIS else digest(Link(source, digest, index - 1)),
            source.bodies(index))
  }

  function Sealed(payload: Payload, digest: Digest): Shard {
    Shard(payload, digest(payload))
  }

  function Chain(source: Source, digest: Digest, count: nat): seq<Shard> {
    seq(count, k requires 0 <= k < count => Sealed(Link(source, digest, k), digest))
  }

  // A later record with the same path takes the place of an earlier one.
  function Shelf(source: Source, digest: Digest, count: nat): map<string, Shard> {
    if count == 0 then map[]
    else Shelf(source, digest, count - 1)[source.paths(count - 1) := Sealed(Link(source, digest, count - 1), digest)]
  }

  method ChainRecords(source: Source, digest: Digest, count: nat) returns (records: map<string, Shard>)
    ensures records == Shelf(source, digest, count)
  {
    records := map[];
    var predecessor := GENESIS;
    for index := 0 to count
      invariant records == Shelf(source, digest, index)
      invariant predecessor == if index == 0 then GENESIS else digest(Link(source, digest, index - 1))
    {
      var payload := Payload(RecordId(source.name, index), predecessor, source.bodies(index));
      var recordHash := digest(payload);
      predecessor := recordHash;
      records := records[source.paths(index) := Shard(payload, recordHash)];
    }
  }

  /* ---------- The verifier ---------- */

  // sorted(records, key=record_id).
  function SortById(shards: seq<Shard>): seq<Shard> {
    SortBy(Id, shards)
  }

  const Id: Shard -> string := (shard: Shard) => shard.payload.id

  datatype Report = Report(records: nat, root: string)

  // One pass over the sorted shards.
  function Walk(digest: Digest, ordered: seq<Shard>): Result<Report> {
    if ordered == [] then Success(Report(0, GENESIS))
    else
      match Walk(digest, ordered[..|ordered| - 1])
      case Failure(error) => Failure(error)
      case Success(report) =>
        var shard := ordered[|ordered| - 1];
        if shard.claimed != digest(shard.payload) then Failure("hash mismatch")
        else if shard.payload.predecessor != report.root then Failure("predecessor mismatch")
        else Success(Report(report.records + 1, shard.claimed))
  }

  method VerifyChain(digest: Digest, shards: seq<Shard>) returns (r: Result<Report>)
    ensures r == Walk(digest, SortById(shards))
  {
    var ordered := SortById(shards);
    var previous, count := GENESIS, 0;
    for i := 0 to |ordered|
      invariant Walk(digest, ordered[..i]) == Success(Report(count, previous))
    {
      var shard := ordered[i];
      assert ordered[..i + 1][..i] == ordered[..i];
      if shard.claimed != digest(shard.payload) {
        FailureStays(digest, ordered, i + 1);
        return Failure("hash mismatch");
      }
      if shard.payload.predecessor != previous {
        FailureStays(digest, ordered, i + 1);
        return Failure("predecessor mismatch");
      }
      previous := shard.claimed;
      count := count + 1;
    }
    assert ordered[..|ordered|] == ordered;
    return Success(Report(count, previous));
  }

  lemma {:induction false} FailureStays(digest: Digest, ordered: seq<Shard>, i: nat)
    requires i <= |ordered| && Walk(digest, ordered[..i]).Failure?
    ensures Walk(digest, ordered) == Walk(digest, ordered[..i])
  {
    if i == |ordered| {
      assert ordered[..i] == ordered;
    } else {
      assert ordered[..|ordered| - 1][..i] == ordered[..i];
      FailureStays(digest, ordered[..|ordered| - 1], i);
    }
  }

  /* ---------- What acceptance means ---------- */

  function Previous(ordered: seq<Shard>, k: nat): string
    requires k <= |ordered|
  {
    if k == 0 then GENESIS else ordered[k - 1].claimed
  }

  ghost predicate Fits(digest: Digest, ordered: seq<Shard>, k: nat)
    requires k < |ordered|
  {
    ordered[k].claimed == digest(ordered[k].payload) && ordered[k].payload.predecessor == Previous(ordered, k)
  }

  ghost predicate Linked(digest: Digest, ordered: seq<Shard>) {
    forall k :: 0 <= k < |ordered| ==> Fits(digest, ordered, k)
  }

  lemma LastFits(digest: Digest, ordered: seq<Shard>)
    requires ordered != []
    ensures Linked(digest, ordered)
            <==> Linked(digest, ordered[..|ordered| - 1]) && Fits(digest, ordered, |ordered| - 1)
    ensures Previous(ordered[..|ordered| - 1], |ordered| - 1) == Previous(ordered, |ordered| - 1)
  {
    var n := |ordered| - 1;
    forall k | 0 <= k < n ensures Fits(digest, ordered[..n], k) == Fits(digest, ordered, k) {
    }
    if Linked(digest, ordered[..n]) && Fits(digest, ordered, n) {
      forall k | 0 <= k < |ordered| ensures Fits(digest, ordered, k) {
        assert k < n ==> Fits(digest, ordered[..n], k);
      }
    }
    if Linked(digest, ordered) {
      forall k | 0 <= k < n ensures Fits(digest, ordered[..n], k) {
        assert Fits(digest, ordered, k);
      }
    }
  }

  lemma {:induction false} WalkAcceptsIff(digest: Digest, ordered: seq<Shard>)
    ensures Walk(digest, ordered).Success? <==> Linked(digest, ordered)
    ensures Linked(digest, ordered) ==>
              Walk(digest, ordered) == Success(Report(|ordered|, Previous(ordered, |ordered|)))
  {
    if ordered != [] {
      WalkAcceptsIff(digest, ordered[..|ordered| - 1]);
      LastFits(digest, ordered);
    }
  }

  /* ---------- The root binds the records ---------- */

  // Why two accepted chains could share a root without being the same: the digest has been broken.
  datatype Break = NoBreak | Collision(a: Payload, b: Payload) | Preimage(a: Payload)

  ghost predicate Shown(digest: Digest, b: Break) {
    match b
    case NoBreak => false
    case Collision(x, y) => x != y && digest(x) == digest(y)
    case Preimage(x) => digest(x) == GENESIS
  }

  // Two linked sequences with one root are the same sequence, or here is a collision or a preimage of GENESIS.
  lemma {:induction false} LinkedRootsBind(digest: Digest, a: seq<Shard>, b: seq<Shard>) returns (broken: Break)
    requires Linked(digest, a) && Linked(digest, b) && Previous(a, |a|) == Previous(b, |b|)
    ensures a == b || Shown(digest, broken)
    decreases |a|
  {
    broken := NoBreak;
    if a == [] && b == [] {
    } else if a == [] {
      assert Fits(digest, b, |b| - 1);
      broken := Preimage(b[|b| - 1].payload);
    } else if b == [] {
      assert Fits(digest, a, |a| - 1);
      broken := Preimage(a[|a| - 1].payload);
    } else {
      var x, y := a[|a| - 1], b[|b| - 1];
      assert Fits(digest, a, |a| - 1) && Fits(digest, b, |b| - 1);
      if x.payload != y.payload {
        broken := Collision(x.payload, y.payload);
      } else {
        LastFits(digest, a);
        LastFits(digest, b);
        broken := LinkedRootsBind(digest, a[..|a| - 1], b[..|b| - 1]);
        SameLast(a, b);
      }
    }
  }

  lemma SameLast(a: seq<Shard>, b: seq<Shard>)
    requires a != [] && b != [] && a[|a| - 1] == b[|b| - 1]
    ensures a[..|a| - 1] == b[..|b| - 1] ==> a == b
  {
    assert a == a[..|a| - 1] + [a[|a| - 1]] && b == b[..|b| - 1] + [b[|b| - 1]];
  }

  // Any two sets of shards that the verifier accepts with the same root hold the same records.
  lemma RootBindsRecords(digest: Digest, a: seq<Shard>, b: seq<Shard>) returns (broken: Break)
    requires Walk(digest, SortById(a)).Success? && Walk(digest, SortById(b)).Success?
    requires Walk(digest, SortById(a)).value.root == Walk(digest, SortById(b)).value.root
    ensures SortById(a) == SortById(b) || Shown(digest, broken)
  {
    WalkAcceptsIff(digest, SortById(a));
    WalkAcceptsIff(digest, SortById(b));
    broken := LinkedRootsBind(digest, SortById(a), SortById(b));
  }

  /* ---------- The verifier accepts what the generator made ---------- */

  const MILLION := 1_000_000

  ghost predicate DistinctPaths(source: Source, count: nat) {
    forall i, j :: 0 <= i < j < count ==> source.paths(i) != source.paths(j)
  }

  ghost predicate OnShelfAt(shelf: map<string, Shard>, path: string, shard: Shard) {
    path in shelf && shelf[path] == shard
  }

  lemma PutOnShelf(shelf: map<string, Shard>, path: string, shard: Shard, other: string, kept: Shard)
    ensures OnShelfAt(shelf[path := shard], path, shard)
    ensures OnShelfAt(shelf, other, kept) && other != path ==> OnShelfAt(shelf[path := shard], other, kept)
  {
  }

  lemma {:induction false} ShelfHolds(source: Source, digest: Digest, count: nat, k: nat)
    requires DistinctPaths(source, count) && k < count
    ensures OnShelfAt(Shelf(source, digest, count), source.paths(k), Sealed(Link(source, digest, k), digest))
  {
    var n := count - 1;
    var path, kept := source.paths(k), Sealed(Link(source, digest, k), digest);
    PutOnShelf(Shelf(source, digest, n), source.paths(n), Sealed(Link(source, digest, n), digest), path, kept);
    if k < n {
      ShelfHolds(source, digest, n, k);
    }
  }

  lemma {:induction false} OnShelf(source: Source, digest: Digest, count: nat, path: string) returns (k: nat)
    requires path in Shelf(source, digest, count)
    ensures k < count && source.paths(k) == path
  {
    if source.paths(count - 1) == path {
      k := count - 1;
    } else {
      k := OnShelf(source, digest, count - 1, path);
    }
  }

  // The files of a directory in some order, each once.
  ghost predicate Listing(records: map<string, Shard>, paths: seq<string>) {
    (forall path :: path in paths <==> path in records) && forall i, j :: 0 <= i < j < |paths| ==> paths[i] != paths[j]
  }

  function Loaded(records: map<string, Shard>, paths: seq<string>): seq<Shard>
    requires forall path :: path in paths ==> path in records
  {
    seq(|paths|, k requires 0 <= k < |paths| => records[paths[k]])
  }

  lemma IdsFollowIndices(name: string, a: nat, b: nat)
    ensures RecordId(name, a) == RecordId(name, b) ==> a == b
    ensures a < MILLION && b < MILLION ==> (TextLess(RecordId(name, a), RecordId(name, b)) <==> a < b)
  {
    PaddedDenotes(a, 6);
    PaddedDenotes(b, 6);
    SixDigits();
    if a < MILLION && b < MILLION {
      PaddedOrder(a, b, 6);
    }
    CommonPrefix(name + "-", Padded(a, 6), Padded(b, 6));
    if RecordId(name, a) == RecordId(name, b) {
      SameTail(name + "-", Padded(a, 6), Padded(b, 6));
    }
  }

  lemma SameTail(prefix: string, a: string, b: string)
    requires prefix + a == prefix + b
    ensures a == b
  {
    assert (prefix + a)[|prefix|..] == a && (prefix + b)[|prefix|..] == b;
  }

  lemma SixDigits()
    ensures Power10(6) == MILLION
  {
    assert Power10(1) == 10 && Power10(2) == 100 && Power10(3) == 1000;
  }

  lemma ReadIsTheChain(source: Source, digest: Digest, count: nat, paths: seq<string>)
    requires DistinctPaths(source, count) && Listing(Shelf(source, digest, count), paths)
    ensures DistinctKeys(Id, Loaded(Shelf(source, digest, count), paths))
    ensures SameElements(Loaded(Shelf(source, digest, count), paths), Chain(source, digest, count))
  {
    var shelf, chain := Shelf(source, digest, count), Chain(source, digest, count);
    var read := Loaded(shelf, paths);
    forall i, j | 0 <= i < j < |read| ensures read[i].payload.id != read[j].payload.id {
      var a := ReadFromChain(source, digest, count, paths, i);
      var b := ReadFromChain(source, digest, count, paths, j);
      IdsFollowIndices(source.name, a, b);
    }
    forall x | x in read ensures x in chain {
      var i :| 0 <= i < |read| && read[i] == x;
      var a := ReadFromChain(source, digest, count, paths, i);
      assert chain[a] == x;
    }
    forall x | x in chain ensures x in read {
      var a :| 0 <= a < count && chain[a] == x;
      ShelfHolds(source, digest, count, a);
      var i :| 0 <= i < |paths| && paths[i] == source.paths(a);
      assert read[i] == x;
    }
  }

  lemma ReadFromChain(source: Source, digest: Digest, count: nat, paths: seq<string>, i: nat) returns (k: nat)
    requires DistinctPaths(source, count) && Listing(Shelf(source, digest, count), paths) && i < |paths|
    ensures k < count && source.paths(k) == paths[i]
    ensures Loaded(Shelf(source, digest, count), paths)[i] == Sealed(Link(source, digest, k), digest)
    ensures Loaded(Shelf(source, digest, count), paths)[i].payload.id == RecordId(source.name, k)
  {
    assert paths[i] in paths;
    k := OnShelf(source, digest, count, paths[i]);
    ShelfHolds(source, digest, count, k);
  }

  lemma ChainIsLinked(source: Source, digest: Digest, count: nat)
    ensures Linked(digest, Chain(source, digest, count))
  {
  }

  // Whatever order the directory is listed in, the verifier accepts every generated chain of at most a million records
  // and reports its length and the hash of its last record.
  lemma GeneratedChainsAreAccepted(source: Source, digest: Digest, count: nat, paths: seq<string>)
    requires count <= MILLION && DistinctPaths(source, count) && Listing(Shelf(source, digest, count), paths)
    ensures var chain := Chain(source, digest, count);
            Walk(digest, SortById(Loaded(Shelf(source, digest, count), paths)))
            == Success(Report(count, Previous(chain, count)))
  {
    var chain, read := Chain(source, digest, count), Loaded(Shelf(source, digest, count), paths);
    ReadIsTheChain(source, digest, count, paths);
    SortIsAscending(Id, read);
    forall i, j | 0 <= i < j < |chain| ensures TextLess(chain[i].payload.id, chain[j].payload.id) {
      IdsFollowIndices(source.name, i, j);
    }
    OneAscendingOrder(Id, SortById(read), chain);
    ChainIsLinked(source, digest, count);
    WalkAcceptsIff(digest, chain);
  }

  // Beyond a million the seven-digit ids sort among the six-digit ones: the verifier refuses the chain, or the digest
  // has collided.
  lemma LongerChainsAreRefused(source: Source, digest: Digest, count: nat, paths: seq<string>) returns (broken: Break)
    requires count > MILLION && DistinctPaths(source, count) && Listing(Shelf(source, digest, count), paths)
    ensures Walk(digest, SortById(Loaded(Shelf(source, digest, count), paths))).Failure? || Shown(digest, broken)
  {
    var read := Loaded(Shelf(source, digest, count), paths);
    ReadIsTheChain(source, digest, count, paths);
    ChainHolds(source, digest, count, MILLION);
    SortIsAscending(Id, read);
    WalkAcceptsIff(digest, SortById(read));
    broken := NoBreak;
    if Walk(digest, SortById(read)).Success? {
      broken := MillionthHasTheWrongNeighbour(source, digest, SortById(read));
    }
  }

  lemma ChainHolds(source: Source, digest: Digest, count: nat, k: nat)
    requires k < count
    ensures Sealed(Link(source, digest, k), digest) in Chain(source, digest, count)
  {
    assert Chain(source, digest, count)[k] == Sealed(Link(source, digest, k), digest);
  }

  lemma MillionthHasTheWrongNeighbour(source: Source, digest: Digest, ordered: seq<Shard>) returns (broken: Break)
    requires Linked(digest, ordered) && Ascending(Id, ordered)
    requires Sealed(Link(source, digest, MILLION), digest) in ordered
    ensures Shown(digest, broken)
  {
    MillionSortsEarly(source.name);
    LinkIds(source, digest, MILLION);
    LinkIds(source, digest, MILLION - 1);
    LinkFollows(source, digest, MILLION);
    broken := WrongNeighbour(digest, ordered, Link(source, digest, MILLION), Link(source, digest, MILLION - 1));
  }

  lemma LinkIds(source: Source, digest: Digest, k: nat)
    ensures Link(source, digest, k).id == RecordId(source.name, k)
  {
  }

  lemma LinkFollows(source: Source, digest: Digest, k: nat)
    requires k > 0
    ensures Link(source, digest, k).predecessor == digest(Link(source, digest, k - 1))
  {
  }

  // A record that sorts before its predecessor cannot stand right behind it.
  lemma WrongNeighbour(digest: Digest, ordered: seq<Shard>, late: Payload, last: Payload) returns (broken: Break)
    requires Linked(digest, ordered) && Ascending(Id, ordered) && Sealed(late, digest) in ordered
    requires late.predecessor == digest(last) && TextLess(late.id, last.id)
    ensures Shown(digest, broken)
  {
    var k :| 0 <= k < |ordered| && ordered[k] == Sealed(late, digest);
    assert Fits(digest, ordered, k);
    if k == 0 {
      broken := Preimage(last);
    } else {
      assert Fits(digest, ordered, k - 1);
      assert TextLess(ordered[k - 1].payload.id, late.id);
      TextOrderIsTotal(late.id, last.id);
      broken := Collision(ordered[k - 1].payload, last);
    }
  }

  lemma FirstDigit(n: nat)
    requires n >= 10
    ensures Decimal(n / 10) != "" && Decimal(n) != "" && Decimal(n)[0] == Decimal(n / 10)[0]
  {
    NumeralRoundTrip(n / 10, 10);
    NumeralRoundTrip(n, 10);
  }

  lemma FirstDigits()
    ensures Decimal(MILLION) != "" && Decimal(MILLION)[0] == '1'
    ensures Decimal(MILLION - 1) != "" && Decimal(MILLION - 1)[0] == '9'
  {
    FirstDigit(1_000_000);
    FirstDigit(100_000);
    FirstDigit(10_000);
    FirstDigit(1_000);
    FirstDigit(100);
    FirstDigit(10);
    FirstDigit(999_999);
    FirstDigit(99_999);
    FirstDigit(9_999);
    FirstDigit(999);
    FirstDigit(99);
    assert Decimal(1) == "1" && Decimal(9) == "9";
  }

  lemma MillionSortsEarly(name: string)
    ensures TextLess(RecordId(name, MILLION), RecordId(name, MILLION - 1))
  {
    FirstDigits();
    SixDigits();
    DecimalLength(MILLION, 6);
    DecimalLength(MILLION - 1, 6);
    DecimalLength(MILLION - 1, 5);
    assert Power10(5) == 100_000;
    assert Padded(MILLION, 6) == Decimal(MILLION) && Padded(MILLION - 1, 6) == Decimal(MILLION - 1);
    CommonPrefix(name + "-", Padded(MILLION, 6), Padded(MILLION - 1, 6));
  }

  /* ---------- Missing records ---------- */

  // A record whose predecessor is not among the shards (dropped, or overwritten by a record with the same opaque path)
  // makes the verifier refuse, whatever else is there, or the digest has been broken.
  lemma MissingPredecessorIsNoticed(digest: Digest, shards: seq<Shard>, late: Shard, last: Payload)
    returns (broken: Break)
    requires late in shards && late.payload.predecessor == digest(last)
    requires forall x :: x in shards ==> x.payload != last
    ensures Walk(digest, SortById(shards)).Failure? || Shown(digest, broken)
  {
    var ordered := SortById(shards);
    broken := NoBreak;
    SortElements(Id, shards);
    WalkAcceptsIff(digest, ordered);
    if Linked(digest, ordered) {
      var k :| 0 <= k < |ordered| && ordered[k] == late;
      assert Fits(digest, ordered, k);
      if k == 0 {
        broken := Preimage(last);
      } else {
        assert Fits(digest, ordered, k - 1);
        assert ordered[k - 1] in shards;
        broken := Collision(ordered[k - 1].payload, last);
      }
    }
  }
}
