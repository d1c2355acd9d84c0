// The writer of a git fast-import stream, a reader of the same subset
// (blob, commit, M, D, reset), and the replay of what was read.
module FastImport {
  import opened Wrappers
  import opened Utf8
  import opened Numerals
  import opened Codecs

  datatype Put = Put(mark: nat, path: string)

  datatype Command =
    | BlobCommand(mark: nat, data: Bytes)
    | CommitCommand(branch: string, mark: nat, timestamp: nat, message: Bytes, puts: seq<Put>, deletes: seq<string>)
    | ResetCommand(branch: string, from: nat)

  /* ---------- The grammar of the subset ---------- */

  // The fixed words of the subset, as bytes.
  datatype Words = Words(blob: Bytes, data: Bytes, commit: Bytes, mark: Bytes, author: Bytes, committer: Bytes,
                         zone: Bytes, put: Bytes, drop: Bytes, reset: Bytes, from: Bytes)

  // The words that start an element differ in their first bytes.
  ghost predicate Distinct(w: Words) {
    Differ(w.put, w.drop) && w.put[0] != LF && w.drop[0] != LF &&
    Differ(w.blob, w.commit) && Differ(w.blob, w.reset) && Differ(w.commit, w.reset)
  }

  datatype Texts = Texts(blob: string, data: string, commit: string, mark: string, author: string, committer: string,
                         zone: string, put: string, drop: string, reset: string, from: string)

  function Encoded(t: Texts): Words {
    Words(Encode(t.blob), Encode(t.data), Encode(t.commit), Encode(t.mark), Encode(t.author), Encode(t.committer),
          Encode(t.zone), Encode(t.put), Encode(t.drop), Encode(t.reset), Encode(t.from))
  }

  const GIT_TEXTS := Texts("blob\nmark :", "data ", "commit ", "mark :",
                           "author Build Bot <buildbot@example.invalid> ",
                           "+0000\ncommitter Build Bot <buildbot@example.invalid> ",
                           "+0000\ndata ", "M 100644 :", "D ", "reset ", "from :")

  predicate StartsWith(text: string, c: char) {
    text != "" && text[0] == c
  }

  predicate Keywords(t: Texts) {
    StartsWith(t.blob, 'b') && StartsWith(t.commit, 'c') && StartsWith(t.reset, 'r') &&
    StartsWith(t.put, 'M') && StartsWith(t.drop, 'D')
  }

  lemma GitTextsAreKeywords()
    ensures Keywords(GIT_TEXTS)
  {
  }

  // The words start with b, c, r and M, D, so their encodings differ in the first byte.
  lemma WordsAreDistinct(t: Texts)
    requires Keywords(t)
    ensures Distinct(Encoded(t))
  {
    EncodeStarts(t.blob);
    EncodeStarts(t.commit);
    EncodeStarts(t.reset);
    EncodeStarts(t.put);
    EncodeStarts(t.drop);
  }

  type Signature = (nat, Bytes)
  type Changes = (seq<(nat, string)>, (seq<string>, ()))
  type CommitParts = ((string, nat), (Signature, Changes))
  type Parts = Choice<(nat, Bytes), Choice<CommitParts, ((string, nat), ())>>

  function BlobBody(w: Words): Codec<(nat, Bytes)> {
    Pair(Number(LF), Behind(w.data, Counted()))
  }

  // A branch line and a line with a mark.
  function HeadCodec(keyword: Bytes): Codec<(string, nat)> {
    Pair(Text(LF), Behind(keyword, Number(LF)))
  }

  // Author and committer lines share one timestamp; the counted message follows.
  function SignatureCodec(w: Words): Codec<Signature> {
    Mapped(Pair(Behind(w.author, Number(SPACE)), Pair(Behind(w.committer, Number(SPACE)), Behind(w.zone, Counted()))),
           (s: Signature) => (s.0, s),
           (p: (nat, Signature)) => if p.0 == p.1.0 then Some(p.1) else None)
  }

  function PutBody(): Codec<(nat, string)> {
    Pair(Number(SPACE), Text(LF))
  }

  function DeletesCodec(w: Words): Codec<(seq<string>, ())> {
    ListThen(Behind(w.drop, Text(LF)), LineFeed())
  }

  function ChangesCodec(w: Words): Codec<Changes> {
    ListThen(Behind(w.put, PutBody()), DeletesCodec(w))
  }

  function CommitBody(w: Words): Codec<CommitParts> {
    Pair(HeadCodec(w.mark), Pair(SignatureCodec(w), ChangesCodec(w)))
  }

  function ResetBody(w: Words): Codec<((string, nat), ())> {
    Pair(HeadCodec(w.from), LineFeed())
  }

  function OthersCodec(w: Words): Codec<Choice<CommitParts, ((string, nat), ())>> {
    Either(Behind(w.commit, CommitBody(w)), Behind(w.reset, ResetBody(w)))
  }

  // Blob, commit or reset, told apart by the keyword in front.
  function PartsCodec(w: Words): Codec<Parts> {
    Either(Behind(w.blob, BlobBody(w)), OthersCodec(w))
  }

  function ToParts(c: Command): Parts {
    match c
    case BlobCommand(mark, data) => First((mark, data))
    case CommitCommand(branch, mark, timestamp, message, puts, deletes) =>
      Second(First(((branch, mark), ((timestamp, message),
        (seq(|puts|, k requires 0 <= k < |puts| => (puts[k].mark, puts[k].path)), (deletes, ()))))))
    case ResetCommand(branch, from) => Second(Second(((branch, from), ())))
  }

  function FromParts(p: Parts): Option<Command> {
    match p
    case First((mark, data)) => Some(BlobCommand(mark, data))
    case Second(First(((branch, mark), ((timestamp, message), (puts, (deletes, _)))))) =>
      Some(CommitCommand(branch, mark, timestamp, message,
        seq(|puts|, k requires 0 <= k < |puts| => Put(puts[k].0, puts[k].1)), deletes))
    case Second(Second(((branch, from), _))) => Some(ResetCommand(branch, from))
  }

  function CommandCodec(w: Words): Codec<Command> {
    Mapped(PartsCodec(w), ToParts, FromParts)
  }

  function PrintAll(w: Words, commands: seq<Command>): Bytes {
    PrintMany(CommandCodec(w).print1, commands, [])
  }

  // The commands of a whole stream; a stream with anything else in it is refused.
  function ReadAll(w: Words, bytes: Bytes): Option<seq<Command>> {
    ReadWhole(CommandCodec(w), bytes)
  }

  /* ---------- Reading undoes printing ---------- */

  predicate OneLine(text: string) {
    '\n' !in text
  }

  predicate Writable(command: Command) {
    match command
    case BlobCommand(_, _) => true
    case CommitCommand(branch, _, _, _, puts, deletes) =>
      OneLine(branch) && (forall k :: 0 <= k < |puts| ==> OneLine(puts[k].path)) &&
      (forall k :: 0 <= k < |deletes| ==> OneLine(deletes[k]))
    case ResetCommand(branch, _) => OneLine(branch)
  }

  lemma LineSound(text: string)
    requires OneLine(text)
    ensures Sound(Text(LF), text)
  {
    LineFeedsOnlyFromText(text);
    TextSound(text, LF);
  }

  lemma BlobSound(w: Words, mark: nat, data: Bytes)
    ensures Sound(BlobBody(w), (mark, data))
  {
    NumberSound(mark, LF);
    CountedSound(data);
    BehindSound(w.data, Counted(), data);
    PairSound(Number(LF), Behind(w.data, Counted()), mark, data);
  }

  lemma HeadSound(keyword: Bytes, branch: string, mark: nat)
    requires OneLine(branch)
    ensures Sound(HeadCodec(keyword), (branch, mark))
  {
    LineSound(branch);
    NumberSound(mark, LF);
    BehindSound(keyword, Number(LF), mark);
    PairSound(Text(LF), Behind(keyword, Number(LF)), branch, mark);
  }

  lemma SignatureSound(w: Words, timestamp: nat, message: Bytes)
    ensures Sound(SignatureCodec(w), (timestamp, message))
  {
    var author, committer := Behind(w.author, Number(SPACE)), Behind(w.committer, Number(SPACE));
    var body := Behind(w.zone, Counted());
    NumberSound(timestamp, SPACE);
    CountedSound(message);
    BehindSound(w.author, Number(SPACE), timestamp);
    BehindSound(w.committer, Number(SPACE), timestamp);
    BehindSound(w.zone, Counted(), message);
    PairSound(committer, body, timestamp, message);
    PairSound(author, Pair(committer, body), timestamp, (timestamp, message));
    MappedSound(Pair(author, Pair(committer, body)), (s: Signature) => (s.0, s),
      (p: (nat, Signature)) => if p.0 == p.1.0 then Some(p.1) else None, (timestamp, message));
  }

  lemma DeletesSound(w: Words, deletes: seq<string>)
    requires Distinct(w)
    requires forall k :: 0 <= k < |deletes| ==> OneLine(deletes[k])
    ensures Sound(DeletesCodec(w), (deletes, ()))
  {
    forall k | 0 <= k < |deletes| ensures Sound(Behind(w.drop, Text(LF)), deletes[k]) {
      LineSound(deletes[k]);
      BehindSound(w.drop, Text(LF), deletes[k]);
    }
    LineFeedSound();
    forall rest: Bytes ensures Behind(w.drop, Text(LF)).read1(LineFeed().print1((), rest)) == None {
      BehindRejects(w.drop, Text(LF), LineFeed().print1((), rest));
    }
    ListThenSound(Behind(w.drop, Text(LF)), LineFeed(), deletes, ());
  }

  lemma PutSound(w: Words, mark: nat, path: string)
    requires OneLine(path)
    ensures Sound(Behind(w.put, PutBody()), (mark, path))
  {
    NumberSound(mark, SPACE);
    LineSound(path);
    PairSound(Number(SPACE), Text(LF), mark, path);
    BehindSound(w.put, PutBody(), (mark, path));
  }

  lemma ChangesSound(w: Words, puts: seq<(nat, string)>, deletes: seq<string>)
    requires Distinct(w)
    requires forall k :: 0 <= k < |puts| ==> OneLine(puts[k].1)
    requires forall k :: 0 <= k < |deletes| ==> OneLine(deletes[k])
    ensures Sound(ChangesCodec(w), (puts, (deletes, ())))
  {
    forall k | 0 <= k < |puts| ensures Sound(Behind(w.put, PutBody()), puts[k]) {
      PutSound(w, puts[k].0, puts[k].1);
    }
    DeletesSound(w, deletes);
    forall rest: Bytes
      ensures Behind(w.put, PutBody()).read1(DeletesCodec(w).print1((deletes, ()), rest)) == None
    {
      ListRejected(w.put, PutBody(), w.drop, Text(LF), deletes, rest);
    }
    ListThenSound(Behind(w.put, PutBody()), DeletesCodec(w), puts, (deletes, ()));
  }

  lemma CommitSound(w: Words, branch: string, mark: nat, timestamp: nat, message: Bytes,
                    puts: seq<(nat, string)>, deletes: seq<string>)
    requires Distinct(w)
    requires OneLine(branch)
    requires forall k :: 0 <= k < |puts| ==> OneLine(puts[k].1)
    requires forall k :: 0 <= k < |deletes| ==> OneLine(deletes[k])
    ensures Sound(CommitBody(w), ((branch, mark), ((timestamp, message), (puts, (deletes, ())))))
  {
    HeadSound(w.mark, branch, mark);
    SignatureSound(w, timestamp, message);
    ChangesSound(w, puts, deletes);
    TripleSound(HeadCodec(w.mark), SignatureCodec(w), ChangesCodec(w), (branch, mark), (timestamp, message),
                (puts, (deletes, ())));
  }

  lemma ResetSound(w: Words, branch: string, from: nat)
    requires OneLine(branch)
    ensures Sound(ResetBody(w), ((branch, from), ()))
  {
    HeadSound(w.from, branch, from);
    LineFeedSound();
    PairSound(HeadCodec(w.from), LineFeed(), (branch, from), ());
  }

  lemma PlainPartsSound(w: Words, command: Command)
    requires Distinct(w)
    requires Writable(command)
    ensures var parts := ToParts(command);
            && (parts.First? ==> Sound(BlobBody(w), parts.a))
            && (parts.Second? && parts.b.First? ==> Sound(CommitBody(w), parts.b.a))
            && (parts.Second? && parts.b.Second? ==> Sound(ResetBody(w), parts.b.b))
  {
    match command
    case BlobCommand(mark, data) => BlobSound(w, mark, data);
    case CommitCommand(branch, mark, timestamp, message, _, deletes) =>
      CommitSound(w, branch, mark, timestamp, message, ToParts(command).b.a.1.1.0, deletes);
    case ResetCommand(branch, from) => ResetSound(w, branch, from);
  }

  lemma PartsSound(w: Words, command: Command)
    requires Distinct(w)
    requires Writable(command)
    ensures Sound(PartsCodec(w), ToParts(command))
  {
    PlainPartsSound(w, command);
    ThreeKeywordsSound(w.blob, BlobBody(w), w.commit, CommitBody(w), w.reset, ResetBody(w), ToParts(command));
  }

  lemma PartsRecover(command: Command)
    ensures FromParts(ToParts(command)) == Some(command)
  {
    if command.CommitCommand? {
      var puts := ToParts(command).b.a.1.1.0;
      assert seq(|puts|, k requires 0 <= k < |puts| => Put(puts[k].0, puts[k].1)) == command.puts;
    }
  }

  lemma CommandSound(w: Words, command: Command)
    requires Distinct(w)
    requires Writable(command)
    ensures Sound(CommandCodec(w), command)
  {
    PartsSound(w, command);
    PartsRecover(command);
    MappedSound(PartsCodec(w), ToParts, FromParts, command);
  }

  lemma NothingToRead(w: Words)
    requires Distinct(w)
    ensures CommandCodec(w).read1([]) == None
  {
    ThreeKeywordsReadNothing(w.blob, BlobBody(w), w.commit, CommitBody(w), w.reset, ResetBody(w));
  }

  // The reader recovers every list of writable commands from its bytes.
  lemma StreamRoundTrip(t: Texts, commands: seq<Command>)
    requires Keywords(t)
    requires forall k :: 0 <= k < |commands| ==> Writable(commands[k])
    ensures ReadAll(Encoded(t), PrintAll(Encoded(t), commands)) == Some(commands)
  {
    var w := Encoded(t);
    WordsAreDistinct(t);
    forall k | 0 <= k < |commands| ensures Sound(CommandCodec(w), commands[k]) {
      CommandSound(w, commands[k]);
    }
    NothingToRead(w);
    WholeSound(CommandCodec(w), commands);
  }
}
