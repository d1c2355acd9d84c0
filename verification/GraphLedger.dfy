// The ledger over a repository's evidence graph: one root for all paths and digests, and its verifier.
module GraphLedger {
  import opened Wrappers
  import opened Numerals
  import opened TextOrder

  datatype File = File(path: string, content: string)

  datatype Entry = Entry(path: string, digest: string)

  datatype Ledger = Ledger(entries: seq<Entry>, root: string)

  const NUL: char := 0 as char
  const LF: char := '\n'

  // Hexadecimal SHA-256 of a text.
  type Hash = string -> string

  predicate IsHexDigest(digest: string) {
    |digest| == 64 && forall k :: 0 <= k < |digest| ==> '0' <= digest[k] <= '9' || 'a' <= digest[k] <= 'f'
  }

  ghost predicate HexHash(hash: Hash) {
    forall text :: IsHexDigest(hash(text))
  }

  /* ---------- The text under the root ---------- */

  function Material(entries: seq<Entry>): string {
    if entries == [] then ""
    else
      var last := entries[|entries| - 1];
      Material(entries[..|entries| - 1]) + EntryText(last)
  }

  function EntryText(e: Entry): string {
    e.path + [NUL] + e.digest + [LF]
  }

  // Everything up to the first occurrence of a character, and everything behind it.
  function Split(text: string, stop: char): Option<(string, string)> {
    if text == "" then None
    else if text[0] == stop then Some(("", text[1..]))
    else
      var (before, after) :- Split(text[1..], stop);
      Some(([text[0]] + before, after))
  }

  lemma {:induction false} SplitFinds(before: string, stop: char, after: string)
    requires stop !in before
    ensures Split(before + [stop] + after, stop) == Some((before, after))
  {
    var text := before + [stop] + after;
    if before == "" {
      assert text[1..] == after;
    } else {
      assert text[1..] == before[1..] + [stop] + after;
      SplitFinds(before[1..], stop, after);
      assert [text[0]] + before[1..] == before;
    }
  }

  lemma {:induction false} SplitShortens(text: string, stop: char)
    ensures Split(text, stop).Some? ==> |Split(text, stop).value.1| < |text|
  {
    if text != "" && text[0] != stop {
      SplitShortens(text[1..], stop);
    }
  }

  // Reading the entries back from the text.
  function Parse(text: string): Option<seq<Entry>>
    decreases |text|
  {
    if text == "" then Some([])
    else
      match Split(text, NUL)
      case None => None
      case Some((path, rest)) =>
        match Split(rest, LF)
        case None => None
        case Some((digest, more)) =>
          SplitShortens(text, NUL);
          SplitShortens(rest, LF);
          var entries :- Parse(more);
          Some([Entry(path, digest)] + entries)
  }

  ghost predicate Readable(entries: seq<Entry>) {
    forall e :: e in entries ==> NUL !in e.path && LF !in e.digest
  }

  lemma {:induction false} MaterialFront(first: Entry, rest: seq<Entry>)
    ensures Material([first] + rest) == EntryText(first) + Material(rest)
  {
    var all := [first] + rest;
    if rest == [] {
      assert all == [first];
      assert all[..0] == [];
    } else {
      var n := |rest| - 1;
      MaterialFront(first, rest[..n]);
      assert all[..|all| - 1] == [first] + rest[..n];
      assert EntryText(first) + Material(rest[..n]) + EntryText(rest[n])
             == EntryText(first) + (Material(rest[..n]) + EntryText(rest[n]));
    }
  }

  // The text determines the entries: no two lists of entries share it.
  lemma {:induction false} MaterialIsReadable(entries: seq<Entry>)
    requires Readable(entries)
    ensures Parse(Material(entries)) == Some(entries)
  {
    if entries != [] {
      var first, rest := entries[0], entries[1..];
      assert entries == [first] + rest;
      MaterialFront(first, rest);
      MaterialIsReadable(rest);
      var more := Material(rest);
      var tail := first.digest + [LF] + more;
      assert Material(entries) == first.path + [NUL] + tail;
      SplitFinds(first.path, NUL, tail);
      SplitFinds(first.digest, LF, more);
    }
  }

  // Why paths must not hold the separator: one entry can pass for two.
  lemma SeparatorInAPathIsAmbiguous(a: string, d: string, b: string, e: string)
    ensures Material([Entry(a + [NUL] + d + [LF] + b, e)]) == Material([Entry(a, d), Entry(b, e)])
  {
    MaterialFront(Entry(a, d), [Entry(b, e)]);
    assert [Entry(a, d)] + [Entry(b, e)] == [Entry(a, d), Entry(b, e)];
    MaterialFront(Entry(b, e), []);
    assert [Entry(b, e)] + [] == [Entry(b, e)];
    var one := Entry(a + [NUL] + d + [LF] + b, e);
    MaterialFront(one, []);
    assert [one] + [] == [one];
  }

  /* ---------- Building ---------- */

  const Path: File -> string := (file: File) => file.path

  function EntryOf(hash: Hash, file: File): Entry {
    Entry(file.path, hash(file.content))
  }

  function EntriesOf(hash: Hash, files: seq<File>): seq<Entry> {
    seq(|files|, k requires 0 <= k < |files| => EntryOf(hash, files[k]))
  }

  function Built(hash: Hash, files: seq<File>): Ledger {
    var entries := EntriesOf(hash, SortBy(Path, files));
    Ledger(entries, hash(Material(entries)))
  }

  method BuildGraphLedger(hash: Hash, files: seq<File>) returns (ledger: Ledger)
    ensures ledger == Built(hash, files)
  {
    var sorted := SortBy(Path, files);
    var entries := [];
    for i := 0 to |sorted|
      invariant |entries| == i && forall k :: 0 <= k < i ==> entries[k] == EntryOf(hash, sorted[k])
    {
      entries := entries + [Entry(sorted[i].path, hash(sorted[i].content))];
    }
    assert entries == EntriesOf(hash, sorted);
    var material := JoinEntries(entries);
    ledger := Ledger(entries, hash(material));
  }

  method JoinEntries(entries: seq<Entry>) returns (material: string)
    ensures material == Material(entries)
  {
    material := "";
    for i := 0 to |entries|
      invariant material == Material(entries[..i])
    {
      assert entries[..i + 1][..i] == entries[..i];
      material := material + (entries[i].path + [NUL] + entries[i].digest + [LF]);
    }
    assert entries[..|entries|] == entries;
  }

  /* ---------- Verifying ---------- */

  // A checked-out repository: the content of every file.
  type Repository = map<string, string>

  ghost predicate Matches(hash: Hash, repository: Repository, ledger: Ledger) {
    (forall e :: e in ledger.entries ==> e.path in repository && hash(repository[e.path]) == e.digest) &&
    hash(Material(ledger.entries)) == ledger.root
  }

  // One pass over the entries; a missing file or a wrong digest stops it.
  method Verify(hash: Hash, repository: Repository, ledger: Ledger) returns (r: Result<string>)
    ensures r.Success? <==> Matches(hash, repository, ledger)
    ensures r.Success? ==> r.value == ledger.root
  {
    var material := "";
    for i := 0 to |ledger.entries|
      invariant material == Material(ledger.entries[..i])
      invariant forall k :: 0 <= k < i ==>
                  ledger.entries[k].path in repository &&
                  hash(repository[ledger.entries[k].path]) == ledger.entries[k].digest
    {
      var entry := ledger.entries[i];
      assert entry in ledger.entries;
      assert ledger.entries[..i + 1][..i] == ledger.entries[..i];
      if entry.path !in repository {
        return Failure("no such file");
      }
      var digest := hash(repository[entry.path]);
      if digest != entry.digest {
        return Failure("evidence ledger mismatch");
      }
      material := material + (entry.path + [NUL] + digest + [LF]);
    }
    assert ledger.entries[..|ledger.entries|] == ledger.entries;
    if hash(material) != ledger.root {
      return Failure("evidence root mismatch");
    }
    return Success(hash(material));
  }

  /* ---------- What a root proves ---------- */

  // The files of a ledger are in the repository as they were when the ledger was built.
  ghost predicate Holds(repository: Repository, files: seq<File>) {
    forall f :: f in files ==> f.path in repository && repository[f.path] == f.content
  }

  // The verifier accepts every ledger on every repository that holds its files.
  lemma BuiltLedgersMatch(hash: Hash, files: seq<File>, repository: Repository)
    requires Holds(repository, files)
    ensures Matches(hash, repository, Built(hash, files))
  {
    SortElements(Path, files);
    var sorted := SortBy(Path, files);
    forall e | e in Built(hash, files).entries ensures e.path in repository && hash(repository[e.path]) == e.digest {
      var k :| 0 <= k < |sorted| && EntriesOf(hash, sorted)[k] == e;
      assert sorted[k] in files;
    }
  }

  // Two texts with one hash.
  datatype Collision = NoCollision | Collision(a: string, b: string)

  ghost predicate Collides(hash: Hash, c: Collision) {
    c.Collision? && c.a != c.b && hash(c.a) == hash(c.b)
  }

  // Equal roots mean equal entries, path by path and digest by digest, or a collision.
  lemma RootBindsEntries(hash: Hash, a: Ledger, b: Ledger) returns (c: Collision)
    requires Readable(a.entries) && Readable(b.entries)
    requires hash(Material(a.entries)) == a.root && hash(Material(b.entries)) == b.root && a.root == b.root
    ensures a.entries == b.entries || Collides(hash, c)
  {
    MaterialIsReadable(a.entries);
    MaterialIsReadable(b.entries);
    c := Collision(Material(a.entries), Material(b.entries));
  }

  ghost predicate CleanPaths(files: seq<File>) {
    forall f :: f in files ==> NUL !in f.path
  }

  lemma BuiltLedgersAreReadable(hash: Hash, files: seq<File>)
    requires HexHash(hash) && CleanPaths(files)
    ensures Readable(Built(hash, files).entries)
  {
    SortElements(Path, files);
    var sorted := SortBy(Path, files);
    forall e | e in Built(hash, files).entries ensures NUL !in e.path && LF !in e.digest {
      var k :| 0 <= k < |sorted| && EntriesOf(hash, sorted)[k] == e;
      assert sorted[k] in files;
      assert IsHexDigest(hash(sorted[k].content));
    }
  }

  // A repository that passes against a ledger with the root of the published files holds exactly those contents at
  // those paths, or a collision is at hand.
  lemma RootBindsContents(hash: Hash, files: seq<File>, repository: Repository, ledger: Ledger) returns (c: Collision)
    requires HexHash(hash) && CleanPaths(files) && Readable(ledger.entries)
    requires Matches(hash, repository, ledger) && ledger.root == Built(hash, files).root
    ensures (ledger.entries == Built(hash, files).entries && Holds(repository, files)) || Collides(hash, c)
  {
    BuiltLedgersAreReadable(hash, files);
    c := RootBindsEntries(hash, ledger, Built(hash, files));
    if ledger.entries == Built(hash, files).entries {
      c := ContentsAreBound(hash, files, repository);
    }
  }

  lemma ContentsAreBound(hash: Hash, files: seq<File>, repository: Repository) returns (c: Collision)
    requires Matches(hash, repository, Built(hash, files))
    ensures Holds(repository, files) || Collides(hash, c)
  {
    var sorted := SortBy(Path, files);
    SortElements(Path, files);
    forall f | f in files ensures f.path in repository && hash(repository[f.path]) == hash(f.content) {
      var k :| 0 <= k < |sorted| && sorted[k] == f;
      assert EntriesOf(hash, sorted)[k] in Built(hash, files).entries;
    }
    c := NoCollision;
    if f :| f in files && repository[f.path] != f.content {
      c := Collision(repository[f.path], f.content);
    }
  }

  // Two sets of files with different paths and one root are the same files, or a collision is at hand.
  lemma RootBindsFiles(hash: Hash, a: seq<File>, b: seq<File>) returns (c: Collision)
    requires HexHash(hash) && CleanPaths(a) && CleanPaths(b)
    requires Built(hash, a).root == Built(hash, b).root
    ensures SortBy(Path, a) == SortBy(Path, b) || Collides(hash, c)
  {
    BuiltLedgersAreReadable(hash, a);
    BuiltLedgersAreReadable(hash, b);
    c := RootBindsEntries(hash, Built(hash, a), Built(hash, b));
    if Built(hash, a).entries == Built(hash, b).entries {
      c := SameEntriesSameFiles(hash, SortBy(Path, a), SortBy(Path, b));
    }
  }

  lemma SameEntriesSameFiles(hash: Hash, a: seq<File>, b: seq<File>) returns (c: Collision)
    requires EntriesOf(hash, a) == EntriesOf(hash, b)
    ensures a == b || Collides(hash, c)
  {
    assert |EntriesOf(hash, a)| == |EntriesOf(hash, b)|;
    forall k | 0 <= k < |a| ensures a[k].path == b[k].path && hash(a[k].content) == hash(b[k].content) {
      assert EntriesOf(hash, a)[k] == EntriesOf(hash, b)[k];
    }
    c := NoCollision;
    if k :| 0 <= k < |a| && a[k].content != b[k].content {
      c := Collision(a[k].content, b[k].content);
    } else {
      assert forall k :: 0 <= k < |a| ==> a[k] == b[k];
    }
  }
}
