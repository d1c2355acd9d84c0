// ImportState: the mutable writer of a fast-import stream, proved to emit exactly
// the printed commands of its calls, and the replay of what a reader gets back.
module FastImportWriter {
  import opened Wrappers
  import opened Utf8
  import opened Numerals
  import opened Codecs
  import opened FastImport

  /* ---------- The bytes of one command, piece by piece ---------- */

  function Wire(w: Words, command: Command): Bytes {
    CommandCodec(w).print1(command, [])
  }

  function Line(text: string): Bytes {
    Encode(text) + [LF]
  }

  lemma BlobBodyWire(w: Words, mark: nat, data: Bytes)
    ensures BlobBody(w).print1((mark, data), [])
            == Line(Decimal(mark)) + (w.data + (Line(Decimal(|data|)) + (data + ([LF] + []))))
  {
    CountedPrints(data, []);
    BehindPrints(w.data, Counted(), data, []);
    PairPrints(Number(LF), Behind(w.data, Counted()), mark, data, []);
    NumberPrints(mark, LF, w.data + Counted().print1(data, []));
  }

  lemma BlobWire(w: Words, mark: nat, data: Bytes)
    ensures Wire(w, BlobCommand(mark, data))
            == w.blob + (Line(Decimal(mark)) + (w.data + (Line(Decimal(|data|)) + (data + ([LF] + [])))))
  {
    BlobBodyWire(w, mark, data);
    BehindPrints(w.blob, BlobBody(w), (mark, data), []);
    FirstPrints(Behind(w.blob, BlobBody(w)), OthersCodec(w), (mark, data), []);
    MappedPrints(PartsCodec(w), ToParts, FromParts, BlobCommand(mark, data), []);
  }

  lemma HeadWire(keyword: Bytes, branch: string, mark: nat, rest: Bytes)
    ensures HeadCodec(keyword).print1((branch, mark), rest)
            == Line(branch) + (keyword + (Line(Decimal(mark)) + rest))
  {
    NumberPrints(mark, LF, rest);
    BehindPrints(keyword, Number(LF), mark, rest);
    PairPrints(Text(LF), Behind(keyword, Number(LF)), branch, mark, rest);
  }

  lemma ResetWire(w: Words, branch: string, from: nat)
    ensures Wire(w, ResetCommand(branch, from))
            == w.reset + (Line(branch) + (w.from + (Line(Decimal(from)) + ([LF] + []))))
  {
    HeadWire(w.from, branch, from, [LF] + []);
    PairPrints(HeadCodec(w.from), LineFeed(), (branch, from), (), []);
    BehindPrints(w.reset, ResetBody(w), ((branch, from), ()), []);
    SecondPrints(Behind(w.commit, CommitBody(w)), Behind(w.reset, ResetBody(w)), ((branch, from), ()), []);
    SecondPrints(Behind(w.blob, BlobBody(w)), OthersCodec(w), Second(((branch, from), ())), []);
    MappedPrints(PartsCodec(w), ToParts, FromParts, ResetCommand(branch, from), []);
  }

  lemma PutWire(w: Words, mark: nat, path: string, rest: Bytes)
    ensures Behind(w.put, PutBody()).print1((mark, path), rest)
            == w.put + (Encode(Decimal(mark)) + [SPACE] + (Line(path) + rest))
  {
    NumberPrints(mark, SPACE, Line(path) + rest);
    PairPrints(Number(SPACE), Text(LF), mark, path, rest);
    BehindPrints(w.put, PutBody(), (mark, path), rest);
  }

  lemma DropWire(w: Words, path: string, rest: Bytes)
    ensures Behind(w.drop, Text(LF)).print1(path, rest) == w.drop + (Line(path) + rest)
  {
    BehindPrints(w.drop, Text(LF), path, rest);
  }

  // The two signature lines and the counted message.
  function Signed(w: Words, timestamp: nat, message: Bytes, rest: Bytes): Bytes {
    w.author + (Encode(Decimal(timestamp)) + [SPACE] +
      (w.committer + (Encode(Decimal(timestamp)) + [SPACE] +
        (w.zone + (Line(Decimal(|message|)) + (message + ([LF] + rest)))))))
  }

  lemma SignatureWire(w: Words, timestamp: nat, message: Bytes, rest: Bytes)
    ensures SignatureCodec(w).print1((timestamp, message), rest) == Signed(w, timestamp, message, rest)
  {
    var author, committer := Behind(w.author, Number(SPACE)), Behind(w.committer, Number(SPACE));
    var body := Behind(w.zone, Counted());
    var tail := Line(Decimal(|message|)) + (message + ([LF] + rest));
    CountedPrints(message, rest);
    BehindPrints(w.zone, Counted(), message, rest);
    NumberPrints(timestamp, SPACE, w.zone + tail);
    BehindPrints(w.committer, Number(SPACE), timestamp, w.zone + tail);
    PairPrints(committer, body, timestamp, message, rest);
    var second := w.committer + (Encode(Decimal(timestamp)) + [SPACE] + (w.zone + tail));
    NumberPrints(timestamp, SPACE, second);
    BehindPrints(w.author, Number(SPACE), timestamp, second);
    PairPrints(author, Pair(committer, body), timestamp, (timestamp, message), rest);
    MappedPrints(Pair(author, Pair(committer, body)), (s: Signature) => (s.0, s),
      (p: (nat, Signature)) => if p.0 == p.1.0 then Some(p.1) else None, (timestamp, message), rest);
  }

  // The M lines, the D lines and the closing line feed.
  function PutLines(w: Words, puts: seq<(nat, string)>, rest: Bytes): Bytes {
    PrintMany(Behind(w.put, PutBody()).print1, puts, rest)
  }

  function DropLines(w: Words, deletes: seq<string>, rest: Bytes): Bytes {
    PrintMany(Behind(w.drop, Text(LF)).print1, deletes, rest)
  }

  lemma ChangesWire(w: Words, puts: seq<(nat, string)>, deletes: seq<string>)
    ensures ChangesCodec(w).print1((puts, (deletes, ())), []) == PutLines(w, puts, DropLines(w, deletes, [LF] + []))
  {
    ListThenPrints(Behind(w.drop, Text(LF)), LineFeed(), deletes, (), []);
    ListThenPrints(Behind(w.put, PutBody()), DeletesCodec(w), puts, (deletes, ()), []);
  }

  lemma CommitWire(w: Words, command: Command)
    requires command.CommitCommand?
    ensures Wire(w, command)
            == w.commit + (Line(command.branch) + (w.mark + (Line(Decimal(command.mark)) +
                 Signed(w, command.timestamp, command.message,
                        PutLines(w, ToParts(command).b.a.1.1.0, DropLines(w, command.deletes, [LF] + []))))))
  {
    var puts, deletes := ToParts(command).b.a.1.1.0, command.deletes;
    var head, signature := (command.branch, command.mark), (command.timestamp, command.message);
    var changes := (puts, (deletes, ()));
    var tail := PutLines(w, puts, DropLines(w, deletes, [LF] + []));
    ChangesWire(w, puts, deletes);
    SignatureWire(w, command.timestamp, command.message, tail);
    PairPrints(SignatureCodec(w), ChangesCodec(w), signature, changes, []);
    HeadWire(w.mark, command.branch, command.mark, Signed(w, command.timestamp, command.message, tail));
    PairPrints(HeadCodec(w.mark), Pair(SignatureCodec(w), ChangesCodec(w)), head, (signature, changes), []);
    BehindPrints(w.commit, CommitBody(w), (head, (signature, changes)), []);
    FirstPrints(Behind(w.commit, CommitBody(w)), Behind(w.reset, ResetBody(w)), (head, (signature, changes)), []);
    SecondPrints(Behind(w.blob, BlobBody(w)), OthersCodec(w), First((head, (signature, changes))), []);
    MappedPrints(PartsCodec(w), ToParts, FromParts, command, []);
  }

  /* ---------- The calls of one import and their commands ---------- */

  // The files of a commit in the order of the source's dictionary; resets to the last commit, or to commit number k.
  datatype Call =
    | CommitCall(message: string, files: seq<(string, string)>, timestamp: nat, branch: string, deletes: seq<string>)
    | ResetCall(branch: string)
    | ResetToCall(branch: string, commit: nat)

  // The branches of a generated repository.
  const MAIN := "refs/heads/main"
  const RELEASE := "refs/heads/release/v1"
  const PROPOSAL := "refs/heads/proposal/v3"

  lemma BranchNames()
    ensures OneLine(MAIN) && OneLine(RELEASE) && OneLine(PROPOSAL)
    ensures MAIN != RELEASE && MAIN != PROPOSAL && RELEASE != PROPOSAL
  {
  }

  function BlobCommands(first: nat, files: seq<(string, string)>): seq<Command> {
    seq(|files|, k requires 0 <= k < |files| => BlobCommand(first + k, Encode(files[k].1)))
  }

  function Puts(first: nat, files: seq<(string, string)>): seq<Put> {
    seq(|files|, k requires 0 <= k < |files| => Put(first + k, files[k].0))
  }

  function TheCommit(first: nat, call: Call): Command
    requires call.CommitCall?
  {
    CommitCommand(call.branch, first + |call.files|, call.timestamp, Encode(call.message), Puts(first, call.files),
                  call.deletes)
  }

  // Where the writer stands: the next free mark, the mark of the last commit, and the marks of all commits in order.
  datatype Position = Position(nextMark: nat, tip: Option<nat>, marks: seq<nat>)

  function CommandsOf(p: Position, call: Call): seq<Command> {
    match call
    case CommitCall(_, files, _, _, _) => BlobCommands(p.nextMark, files) + [TheCommit(p.nextMark, call)]
    case ResetCall(branch) => if p.tip.None? then [] else [ResetCommand(branch, p.tip.value)]
    case ResetToCall(branch, commit) =>
      if commit < |p.marks| then [ResetCommand(branch, p.marks[commit])] else []
  }

  function Advance(p: Position, call: Call): Position {
    match call
    case CommitCall(_, files, _, _, _) => CommitAt(p, p.nextMark + |files|)
    case ResetCall(_) => p
    case ResetToCall(_, _) => p
  }

  function CommitAt(p: Position, mark: nat): Position {
    Position(mark + 1, Some(mark), p.marks + [mark])
  }

  const START := Position(1, None, [])

  function At(calls: seq<Call>): Position {
    if calls == [] then START else Advance(At(calls[..|calls| - 1]), calls[|calls| - 1])
  }

  function Commands(calls: seq<Call>): seq<Command> {
    if calls == [] then []
    else Commands(calls[..|calls| - 1]) + CommandsOf(At(calls[..|calls| - 1]), calls[|calls| - 1])
  }

  /* ---------- The text of one command as the writer composes it ---------- */

  function BlobHead(w: Words, mark: nat, size: nat): Bytes {
    w.blob + Line(Decimal(mark)) + w.data + Line(Decimal(size))
  }

  function CommitHead(w: Words, branch: string, mark: nat): Bytes {
    w.commit + Line(branch) + w.mark + Line(Decimal(mark))
  }

  function Stamp(word: Bytes, timestamp: nat): Bytes {
    word + Encode(Decimal(timestamp)) + [SPACE]
  }

  function SizeLine(word: Bytes, size: nat): Bytes {
    word + Line(Decimal(size))
  }

  function PutLine(w: Words, mark: nat, path: string): Bytes {
    w.put + Encode(Decimal(mark)) + [SPACE] + Line(path)
  }

  function DropLine(w: Words, path: string): Bytes {
    w.drop + Line(path)
  }

  function ResetText(w: Words, branch: string, from: nat): Bytes {
    w.reset + Line(branch) + w.from + Line(Decimal(from)) + [LF]
  }

  function PutTexts(w: Words, puts: seq<Put>): Bytes {
    if puts == [] then [] else PutLine(w, puts[0].mark, puts[0].path) + PutTexts(w, puts[1..])
  }

  function DropTexts(w: Words, paths: seq<string>): Bytes {
    if paths == [] then [] else DropLine(w, paths[0]) + DropTexts(w, paths[1..])
  }

  function SignedText(w: Words, timestamp: nat, message: Bytes): Bytes {
    Stamp(w.author, timestamp) + Stamp(w.committer, timestamp) + SizeLine(w.zone, |message|) + message + [LF]
  }

  function CommandText(w: Words, command: Command): Bytes {
    match command
    case BlobCommand(mark, data) => BlobHead(w, mark, |data|) + data + [LF]
    case CommitCommand(branch, mark, timestamp, message, puts, deletes) =>
      CommitHead(w, branch, mark) + SignedText(w, timestamp, message) + PutTexts(w, puts) + DropTexts(w, deletes) + [LF]
    case ResetCommand(branch, from) => ResetText(w, branch, from)
  }

  lemma {:induction false} PutTextsArePrinted(w: Words, puts: seq<Put>, pairs: seq<(nat, string)>, rest: Bytes)
    requires |pairs| == |puts| && forall k :: 0 <= k < |puts| ==> pairs[k] == (puts[k].mark, puts[k].path)
    ensures PutLines(w, pairs, rest) == PutTexts(w, puts) + rest
  {
    if puts != [] {
      PutTextsArePrinted(w, puts[1..], pairs[1..], rest);
      PutWire(w, puts[0].mark, puts[0].path, PutLines(w, pairs[1..], rest));
      assert pairs[0] == (puts[0].mark, puts[0].path);
      Regroup5(w.put, Encode(Decimal(puts[0].mark)), [SPACE], Line(puts[0].path), PutTexts(w, puts[1..]), rest);
    }
  }

  lemma Regroup5(a: Bytes, b: Bytes, c: Bytes, d: Bytes, e: Bytes, f: Bytes)
    ensures a + (b + c + (d + (e + f))) == (a + b + c + d) + e + f
  {
    Glue(b + c, d, e + f);
    Glue(a, b + c, d + (e + f));
  }

  lemma {:induction false} DropTextsArePrinted(w: Words, paths: seq<string>, rest: Bytes)
    ensures DropLines(w, paths, rest) == DropTexts(w, paths) + rest
  {
    if paths != [] {
      DropTextsArePrinted(w, paths[1..], rest);
      DropWire(w, paths[0], DropLines(w, paths[1..], rest));
    }
  }

  // The text composed by the writer is what the codec prints.
  lemma BlobTextIsPrinted(w: Words, mark: nat, data: Bytes)
    ensures CommandText(w, BlobCommand(mark, data)) == Wire(w, BlobCommand(mark, data))
  {
    BlobWire(w, mark, data);
    Regroup4(w.blob, Line(Decimal(mark)), w.data, Line(Decimal(|data|)), data, [LF] + []);
  }

  lemma Regroup4(a: Bytes, b: Bytes, c: Bytes, d: Bytes, e: Bytes, f: Bytes)
    ensures a + (b + (c + (d + (e + f)))) == a + b + c + d + e + f
  {
    Glue(a + b + c + d, e, f);
    Glue(a + b + c, d, e + f);
    Glue(a + b, c, d + (e + f));
    Glue(a, b, c + (d + (e + f)));
  }

  lemma ResetTextIsPrinted(w: Words, branch: string, from: nat)
    ensures CommandText(w, ResetCommand(branch, from)) == Wire(w, ResetCommand(branch, from))
  {
    ResetWire(w, branch, from);
    Regroup4(w.reset, Line(branch), w.from, Line(Decimal(from)), [LF], []);
  }

  lemma SignedTextIsPrinted(w: Words, timestamp: nat, message: Bytes, rest: Bytes)
    ensures Signed(w, timestamp, message, rest) == SignedText(w, timestamp, message) + rest
  {
    var stamp := Encode(Decimal(timestamp));
    var body := message + ([LF] + rest);
    var sized := w.zone + (Line(Decimal(|message|)) + body);
    Glue(w.zone, Line(Decimal(|message|)), body);
    var sizeLine := SizeLine(w.zone, |message|);
    assert sized == sizeLine + body;
    var a, c := Stamp(w.author, timestamp), Stamp(w.committer, timestamp);
    StampFront(w.committer, timestamp, sized);
    StampFront(w.author, timestamp, c + sized);
    assert Signed(w, timestamp, message, rest) == a + (c + (sizeLine + (message + ([LF] + rest))));
    Regroup4(a, c, sizeLine, message, [LF], rest);
  }

  lemma StampFront(word: Bytes, timestamp: nat, rest: Bytes)
    ensures word + (Encode(Decimal(timestamp)) + [SPACE] + rest) == Stamp(word, timestamp) + rest
  {
    Glue(word, Encode(Decimal(timestamp)), [SPACE]);
    Glue(word, Encode(Decimal(timestamp)) + [SPACE], rest);
  }

  lemma CommitTextIsPrinted(w: Words, command: Command)
    requires command.CommitCommand?
    ensures CommandText(w, command) == Wire(w, command)
  {
    CommitWire(w, command);
    var puts, drops := PutTexts(w, command.puts), DropTexts(w, command.deletes);
    var dropLines := DropLines(w, command.deletes, [LF] + []);
    DropTextsArePrinted(w, command.deletes, [LF] + []);
    var pairs := ToParts(command).b.a.1.1.0;
    PutTextsArePrinted(w, command.puts, pairs, dropLines);
    SignedTextIsPrinted(w, command.timestamp, command.message, puts + dropLines);
    var head := CommitHead(w, command.branch, command.mark);
    var signed := SignedText(w, command.timestamp, command.message);
    Front4(w.commit, Line(command.branch), w.mark, Line(Decimal(command.mark)), signed + (puts + dropLines));
    assert Wire(w, command) == head + (signed + (puts + (drops + ([LF] + []))));
    Regroup4(head, signed, puts, drops, [LF], []);
  }

  lemma Front4(a: Bytes, b: Bytes, c: Bytes, d: Bytes, e: Bytes)
    ensures a + (b + (c + (d + e))) == a + b + c + d + e
  {
    Glue(a + b + c, d, e);
    Glue(a + b, c, d + e);
    Glue(a, b, c + (d + e));
  }

  lemma TextIsPrinted(w: Words, command: Command)
    ensures CommandText(w, command) == Wire(w, command)
  {
    match command
    case BlobCommand(mark, data) => BlobTextIsPrinted(w, mark, data);
    case CommitCommand(_, _, _, _, _, _) => CommitTextIsPrinted(w, command);
    case ResetCommand(branch, from) => ResetTextIsPrinted(w, branch, from);
  }

  // The text of a list of commands, one after the other.
  function Written(text: Command -> Bytes, commands: seq<Command>): Bytes {
    if commands == [] then [] else Written(text, commands[..|commands| - 1]) + text(commands[|commands| - 1])
  }

  lemma WrittenOne(text: Command -> Bytes, commands: seq<Command>, command: Command)
    ensures Written(text, commands + [command]) == Written(text, commands) + text(command)
  {
    assert (commands + [command])[..|commands|] == commands;
  }

  lemma {:induction false} WrittenConcat(text: Command -> Bytes, left: seq<Command>, right: seq<Command>)
    ensures Written(text, left + right) == Written(text, left) + Written(text, right)
  {
    if right == [] {
      assert left + right == left;
    } else {
      var last := right[|right| - 1];
      WrittenConcat(text, left, right[..|right| - 1]);
      WrittenOne(text, left + right[..|right| - 1], last);
      assert left + right == left + right[..|right| - 1] + [last];
      Glue(Written(text, left), Written(text, right[..|right| - 1]), text(last));
    }
  }

  lemma {:induction false} WrittenIsPrinted(text: Command -> Bytes, print1: (Command, Bytes) -> Bytes,
                                            commands: seq<Command>)
    requires forall k :: 0 <= k < |commands| ==>
               Fronts(print1, commands[k]) && text(commands[k]) == print1(commands[k], [])
    ensures Written(text, commands) == PrintMany(print1, commands, [])
  {
    if commands != [] {
      var before, last := commands[..|commands| - 1], commands[|commands| - 1];
      WrittenIsPrinted(text, print1, before);
      ManyAppend(print1, before, [last]);
      assert before + [last] == commands;
      PrintOne(print1, last);
    }
  }

  lemma PrintOne<T>(print1: (T, Bytes) -> Bytes, item: T)
    ensures PrintMany(print1, [item], []) == print1(item, [])
  {
    assert [item][1..] == [];
  }

  // Bytes written one after the other.
  lemma Glue(stream: Bytes, a: Bytes, b: Bytes)
    ensures stream + a + b == stream + (a + b)
  {
  }

  /* ---------- The writer ---------- */

  // The commands of the blobs of some files, and the M lines collected for the first i of them.
  ghost predicate Listed(commands: seq<Command>, first: nat, files: seq<(string, string)>) {
    |commands| == |files| &&
    forall k :: 0 <= k < |files| ==> commands[k] == BlobCommand(first + k, Encode(files[k].1))
  }

  ghost predicate Collected(blobs: seq<Put>, first: nat, files: seq<(string, string)>, i: nat) {
    i <= |files| && |blobs| == i && forall k :: 0 <= k < i ==> blobs[k] == Put(first + k, files[k].0)
  }

  class ImportState {
    const w: Words
    var stream: Bytes
    var nextMark: nat
    var lastCommitMark: Option<nat>
    // How a command is composed, and the calls made so far.
    ghost const text: Command -> Bytes
    ghost var calls: seq<Call>

    constructor (words: Words)
      ensures w == words && Valid() && calls == []
    {
      w, stream, nextMark, lastCommitMark, calls := words, [], 1, None, [];
      text := (c: Command) => CommandText(words, c);
    }

    // The stream holds the commands of the calls, byte for byte.
    ghost predicate Valid()
      reads this
    {
      At(calls).nextMark == nextMark && At(calls).tip == lastCommitMark &&
      Composes() && stream == Written(text, Commands(calls))
    }

    method Write(bytes: Bytes)
      modifies this`stream
      ensures stream == old(stream) + bytes
    {
      stream := stream + bytes;
    }

    method Blob(content: string) returns (mark: nat)
      requires Composes()
      modifies this`stream, this`nextMark
      ensures mark == old(nextMark) && nextMark == mark + 1
      ensures stream == old(stream) + text(BlobCommand(mark, Encode(content)))
    {
      mark := nextMark;
      nextMark := nextMark + 1;
      var data := Encode(content);
      ghost var head := BlobHead(w, mark, |data|);
      Write(BlobHead(w, mark, |data|));
      Write(data);
      Write([LF]);
      assert text(BlobCommand(mark, data)) == head + data + [LF];
      Glue(old(stream), head, data);
      Glue(old(stream), head + data, [LF]);
    }

    // One more blob of a list.
    method NextBlob(files: seq<(string, string)>, i: nat, done: seq<Put>,
                    ghost commands: seq<Command>, ghost first: nat, ghost start: Bytes)
      returns (blobs: seq<Put>)
      requires Composes() && Listed(commands, first, files)
      requires i < |files| && nextMark == first + i && Collected(done, first, files, i)
      requires stream == start + Written(text, commands[..i])
      modifies this`stream, this`nextMark
      ensures nextMark == first + i + 1 && Collected(blobs, first, files, i + 1)
      ensures stream == start + Written(text, commands[..i + 1])
    {
      ghost var before := stream;
      var mark := Blob(files[i].1);
      blobs := done + [Put(mark, files[i].0)];
      AppendBlob(text, commands, i, start, before, stream, first, files, done, mark);
    }

    ghost predicate Composes() {
      forall c: Command {:trigger text(c)} :: text(c) == CommandText(w, c)
    }

    method WriteBlobs(files: seq<(string, string)>, ghost commands: seq<Command>)
      returns (blobs: seq<Put>)
      requires Composes() && Listed(commands, nextMark, files)
      modifies this`stream, this`nextMark
      ensures nextMark == old(nextMark) + |files| && Collected(blobs, old(nextMark), files, |files|)
      ensures stream == old(stream) + Written(text, commands)
    {
      blobs := [];
      ghost var first, start := nextMark, stream;
      for i := 0 to |files|
        invariant nextMark == first + i && Collected(blobs, first, files, i)
        invariant stream == start + Written(text, commands[..i])
      {
        blobs := NextBlob(files, i, blobs, commands, first, start);
      }
      assert commands[..|files|] == commands;
    }

    method WritePuts(blobs: seq<Put>)
      modifies this`stream
      ensures stream == old(stream) + PutTexts(w, blobs)
    {
      for i := 0 to |blobs|
        invariant stream + PutTexts(w, blobs[i..]) == old(stream) + PutTexts(w, blobs)
      {
        ghost var line, later := PutLine(w, blobs[i].mark, blobs[i].path), PutTexts(w, blobs[i + 1..]);
        assert blobs[i..][1..] == blobs[i + 1..];
        Glue(stream, line, later);
        Write(PutLine(w, blobs[i].mark, blobs[i].path));
      }
    }

    method WriteDeletes(paths: seq<string>)
      modifies this`stream
      ensures stream == old(stream) + DropTexts(w, paths)
    {
      for i := 0 to |paths|
        invariant stream + DropTexts(w, paths[i..]) == old(stream) + DropTexts(w, paths)
      {
        ghost var line, later := DropLine(w, paths[i]), DropTexts(w, paths[i + 1..]);
        assert paths[i..][1..] == paths[i + 1..];
        Glue(stream, line, later);
        Write(DropLine(w, paths[i]));
      }
    }

    method WriteCommit(c: Command)
      requires Composes() && c.CommitCommand?
      modifies this`stream
      ensures stream == old(stream) + text(c)
    {
      ghost var start, head, signed := stream, CommitHead(w, c.branch, c.mark), SignedText(w, c.timestamp, c.message);
      ghost var puts, drops := PutTexts(w, c.puts), DropTexts(w, c.deletes);
      Write(CommitHead(w, c.branch, c.mark));
      WriteSigned(c.timestamp, c.message);
      WritePuts(c.puts);
      WriteDeletes(c.deletes);
      Write([LF]);
      assert text(c) == head + signed + puts + drops + [LF];
      Regroup4(start, head, signed, puts, drops, [LF]);
      Front4(head, signed, puts, drops, [LF]);
    }

    method WriteSigned(timestamp: nat, message: Bytes)
      modifies this`stream
      ensures stream == old(stream) + SignedText(w, timestamp, message)
    {
      ghost var start, author, committer := stream, Stamp(w.author, timestamp), Stamp(w.committer, timestamp);
      ghost var size := SizeLine(w.zone, |message|);
      Write(Stamp(w.author, timestamp));
      Write(Stamp(w.committer, timestamp));
      Write(SizeLine(w.zone, |message|));
      Write(message);
      Write([LF]);
      Regroup4(start, author, committer, size, message, [LF]);
      Front4(author, committer, size, message, [LF]);
    }

    method Commit(message: string, files: seq<(string, string)>, timestamp: nat, branch: string, deletes: seq<string>)
      returns (mark: nat)
      requires Valid()
      modifies this
      ensures Valid() && calls == old(calls) + [CommitCall(message, files, timestamp, branch, deletes)]
      ensures mark == old(nextMark) + |files| && nextMark == mark + 1 && lastCommitMark == Some(mark)
      ensures At(calls).marks == At(old(calls)).marks + [mark]
    {
      var call := CommitCall(message, files, timestamp, branch, deletes);
      mark := WriteCall(call);
      lastCommitMark := Some(mark);
      calls := calls + [call];
    }

    // The blobs and then the commit that names them.
    method WriteCall(call: Call) returns (mark: nat)
      requires Valid() && call.CommitCall?
      modifies this`stream, this`nextMark
      ensures mark == old(nextMark) + |call.files| && nextMark == mark + 1
      ensures stream == Written(text, Commands(calls + [call])) && At(calls + [call]) == CommitAt(At(calls), mark)
    {
      ghost var start, first, listed := stream, nextMark, BlobCommands(nextMark, call.files);
      BlobsListed(nextMark, call.files);
      var blobs := WriteBlobs(call.files, listed);
      ghost var middle := stream;
      mark := WriteTheCommit(call, blobs);
      ghost var commit := CommitCommand(call.branch, mark, call.timestamp, Encode(call.message), blobs, call.deletes);
      CallWritten(text, calls, At(calls), call, start, middle, stream, listed, blobs, commit);
    }

    method WriteTheCommit(call: Call, blobs: seq<Put>) returns (mark: nat)
      requires Composes() && call.CommitCall?
      modifies this`stream, this`nextMark
      ensures mark == old(nextMark) && nextMark == mark + 1
      ensures stream == old(stream) + text(CommitCommand(call.branch, mark, call.timestamp, Encode(call.message), blobs,
                                                         call.deletes))
    {
      mark := nextMark;
      nextMark := nextMark + 1;
      WriteCommit(CommitCommand(call.branch, mark, call.timestamp, Encode(call.message), blobs, call.deletes));
    }

    // A branch name set to the tip of the import, as import_repository and the relay writers do.
    method Reset(branch: string) returns (ok: bool)
      requires Valid()
      modifies this
      ensures Valid() && ok == lastCommitMark.Some?
      ensures lastCommitMark == old(lastCommitMark) && nextMark == old(nextMark)
      ensures calls == old(calls) + [ResetCall(branch)]
    {
      ok := lastCommitMark.Some?;
      ghost var start := stream;
      if ok {
        assert text(ResetCommand(branch, lastCommitMark.value)) == ResetText(w, branch, lastCommitMark.value);
        Write(ResetText(w, branch, lastCommitMark.value));
        ResetWritten(text, calls, branch, start, stream, w, lastCommitMark.value);
      } else {
        ResetSkipped(text, calls, branch);
      }
      calls := calls + [ResetCall(branch)];
    }

    // A branch name set to an earlier commit by its mark, as the relay import does for its two partial exports.
    method ResetTo(branch: string, mark: nat, ghost commit: nat)
      requires Valid() && commit < |At(calls).marks| && At(calls).marks[commit] == mark
      modifies this
      ensures Valid() && calls == old(calls) + [ResetToCall(branch, commit)] && At(calls).marks == At(old(calls)).marks
      ensures lastCommitMark == old(lastCommitMark) && nextMark == old(nextMark)
    {
      ghost var start := stream;
      assert text(ResetCommand(branch, mark)) == ResetText(w, branch, mark);
      Write(ResetText(w, branch, mark));
      ResetToWritten(text, calls, branch, commit, start, stream, w, mark);
      calls := calls + [ResetToCall(branch, commit)];
    }
  }

  lemma BlobsListed(first: nat, files: seq<(string, string)>)
    ensures Listed(BlobCommands(first, files), first, files)
  {
  }

  lemma PutsCollected(first: nat, files: seq<(string, string)>, blobs: seq<Put>)
    requires Collected(blobs, first, files, |files|)
    ensures blobs == Puts(first, files)
  {
  }

  lemma CallsStep(calls: seq<Call>, call: Call)
    ensures Commands(calls + [call]) == Commands(calls) + CommandsOf(At(calls), call)
    ensures At(calls + [call]) == Advance(At(calls), call)
  {
    assert (calls + [call])[..|calls|] == calls;
  }

  lemma ThenListed(text: Command -> Bytes, before: seq<Command>, listed: seq<Command>, commit: Command, start: Bytes,
                   middle: Bytes, stream: Bytes)
    requires start == Written(text, before) && middle == start + Written(text, listed) &&
             stream == middle + text(commit)
    ensures stream == Written(text, before + (listed + [commit]))
  {
    Glue(start, Written(text, listed), text(commit));
    WrittenOne(text, listed, commit);
    WrittenConcat(text, before, listed + [commit]);
  }

  lemma CallWritten(text: Command -> Bytes, calls: seq<Call>, p: Position, call: Call, start: Bytes, middle: Bytes,
                    stream: Bytes, listed: seq<Command>, blobs: seq<Put>, commit: Command)
    requires call.CommitCall? && p == At(calls) && start == Written(text, Commands(calls))
    requires listed == BlobCommands(p.nextMark, call.files)
    requires Collected(blobs, p.nextMark, call.files, |call.files|)
    requires commit == CommitCommand(call.branch, p.nextMark + |call.files|, call.timestamp, Encode(call.message),
                                     blobs, call.deletes)
    requires middle == start + Written(text, listed) && stream == middle + text(commit)
    ensures stream == Written(text, Commands(calls + [call]))
    ensures At(calls + [call]) == CommitAt(p, commit.mark)
  {
    PutsCollected(p.nextMark, call.files, blobs);
    assert commit == TheCommit(p.nextMark, call);
    CommitStep(calls, call, p, listed, commit);
    ThenListed(text, Commands(calls), listed, commit, start, middle, stream);
  }

  lemma CommitCommands(p: Position, call: Call)
    requires call.CommitCall?
    ensures CommandsOf(p, call) == BlobCommands(p.nextMark, call.files) + [TheCommit(p.nextMark, call)]
    ensures Advance(p, call) == CommitAt(p, TheCommit(p.nextMark, call).mark)
  {
  }

  lemma CommitStep(calls: seq<Call>, call: Call, p: Position, listed: seq<Command>, commit: Command)
    requires call.CommitCall? && p == At(calls)
    requires listed == BlobCommands(p.nextMark, call.files) && commit == TheCommit(p.nextMark, call)
    ensures Commands(calls + [call]) == Commands(calls) + (listed + [commit])
    ensures At(calls + [call]) == CommitAt(p, commit.mark)
  {
    CallsStep(calls, call);
    CommitCommands(p, call);
  }

  lemma ResetWritten(text: Command -> Bytes, calls: seq<Call>, branch: string, start: Bytes, stream: Bytes, w: Words,
                     from: nat)
    requires At(calls).tip == Some(from) && start == Written(text, Commands(calls))
    requires text(ResetCommand(branch, from)) == ResetText(w, branch, from) &&
             stream == start + ResetText(w, branch, from)
    ensures stream == Written(text, Commands(calls + [ResetCall(branch)])) &&
            At(calls + [ResetCall(branch)]) == At(calls)
  {
    CallsStep(calls, ResetCall(branch));
    WrittenOne(text, Commands(calls), ResetCommand(branch, from));
  }

  lemma ResetToWritten(text: Command -> Bytes, calls: seq<Call>, branch: string, commit: nat, start: Bytes,
                       stream: Bytes, w: Words, from: nat)
    requires commit < |At(calls).marks| && At(calls).marks[commit] == from && start == Written(text, Commands(calls))
    requires text(ResetCommand(branch, from)) == ResetText(w, branch, from) &&
             stream == start + ResetText(w, branch, from)
    ensures stream == Written(text, Commands(calls + [ResetToCall(branch, commit)])) &&
            At(calls + [ResetToCall(branch, commit)]) == At(calls)
  {
    CallsStep(calls, ResetToCall(branch, commit));
    WrittenOne(text, Commands(calls), ResetCommand(branch, from));
  }

  lemma ResetSkipped(text: Command -> Bytes, calls: seq<Call>, branch: string)
    requires At(calls).tip.None?
    ensures Written(text, Commands(calls + [ResetCall(branch)])) == Written(text, Commands(calls))
    ensures At(calls + [ResetCall(branch)]) == At(calls)
  {
    CallsStep(calls, ResetCall(branch));
    assert Commands(calls) + [] == Commands(calls);
  }

  lemma AppendBlob(text: Command -> Bytes, commands: seq<Command>, i: nat, start: Bytes, before: Bytes, after: Bytes,
                   first: nat, files: seq<(string, string)>, done: seq<Put>, mark: nat)
    requires Listed(commands, first, files) && i < |files| && mark == first + i && Collected(done, first, files, i)
    requires before == start + Written(text, commands[..i])
    requires after == before + text(BlobCommand(mark, Encode(files[i].1)))
    ensures after == start + Written(text, commands[..i + 1])
    ensures Collected(done + [Put(mark, files[i].0)], first, files, i + 1)
  {
    AppendOne(text, commands, i, start, before, after);
  }

  lemma AppendOne(text: Command -> Bytes, commands: seq<Command>, i: nat, start: Bytes, before: Bytes, after: Bytes)
    requires i < |commands| && before == start + Written(text, commands[..i]) && after == before + text(commands[i])
    ensures after == start + Written(text, commands[..i + 1])
  {
    assert commands[..i + 1] == commands[..i] + [commands[i]];
    WrittenOne(text, commands[..i], commands[i]);
    Glue(start, Written(text, commands[..i]), text(commands[i]));
  }
}
