// Printers and readers of byte streams that undo each other by construction.
module Codecs {
  import opened Wrappers
  import opened Utf8
  import opened Numerals

  type Bytes = seq<Byte>

  // `print` puts one value in front of the bytes that follow it; `read` takes one value off the front.
  datatype Codec<!T> = Codec(print1: (T, Bytes) -> Bytes, read1: Bytes -> Option<(T, Bytes)>)

  // Printing only puts bytes in front, and reading takes them off again, whatever follows.
  ghost predicate Sound<T>(c: Codec<T>, x: T) {
    (forall rest: Bytes :: c.read1(c.print1(x, rest)) == Some((x, rest)) && |c.print1(x, rest)| > |rest|) &&
    Fronts(c.print1, x)
  }

  ghost predicate Fronts<T>(print1: (T, Bytes) -> Bytes, x: T) {
    forall rest: Bytes :: print1(x, rest) == print1(x, []) + rest
  }

  /* ---------- Elementary codecs ---------- */

  function Expect(bytes: Bytes, prefix: Bytes): Option<Bytes> {
    if prefix <= bytes then Some(bytes[|prefix|..]) else None
  }

  function Until(bytes: Bytes, stop: Byte): Option<(Bytes, Bytes)> {
    if bytes == [] then None
    else if bytes[0] == stop then Some(([], bytes[1..]))
    else
      var (before, after) :- Until(bytes[1..], stop);
      Some(([bytes[0]] + before, after))
  }

  lemma {:induction false} UntilFinds(before: Bytes, stop: Byte, after: Bytes)
    requires stop !in before
    ensures Until(before + [stop] + after, stop) == Some((before, after))
  {
    var bytes := before + [stop] + after;
    if before == [] {
      assert bytes[1..] == after;
    } else {
      assert bytes[1..] == before[1..] + [stop] + after;
      UntilFinds(before[1..], stop, after);
      assert [bytes[0]] + before[1..] == before;
    }
  }

  function ReadText(bytes: Bytes, end: Byte): Option<(string, Bytes)> {
    var (field, rest) :- Until(bytes, end);
    var text :- Decode(field);
    Some((text, rest))
  }

  // Text up to an end byte.
  function Text(end: Byte): Codec<string> {
    Codec((text: string, rest: Bytes) => Encode(text) + [end] + rest, (bytes: Bytes) => ReadText(bytes, end))
  }

  lemma TextSound(text: string, end: Byte)
    requires end !in Encode(text)
    ensures Sound(Text(end), text)
  {
    TextFronts(text, end);
    forall rest: Bytes ensures ReadText(Encode(text) + [end] + rest, end) == Some((text, rest)) {
      UntilFinds(Encode(text), end, rest);
      TextRoundTrip(text);
    }
  }

  lemma TextFronts(text: string, end: Byte)
    ensures Fronts(Text(end).print1, text)
  {
    forall rest: Bytes ensures Encode(text) + [end] + rest == Encode(text) + [end] + [] + rest {
    }
  }

  function ToNumber(text: string): Option<nat> {
    if text != "" && IsNumeral(text, 10) then Some(Read(text, 10)) else None
  }

  // A value stored as another one; reading may reject.
  function Mapped<S, T>(c: Codec<S>, from: T -> S, to: S -> Option<T>): Codec<T> {
    Codec((x: T, rest: Bytes) => c.print1(from(x), rest),
          (bytes: Bytes) =>
            match c.read1(bytes)
            case None => None
            case Some((y, rest)) => match to(y) case None => None case Some(x) => Some((x, rest)))
  }

  lemma MappedSound<S, T>(c: Codec<S>, from: T -> S, to: S -> Option<T>, x: T)
    requires Sound(c, from(x)) && to(from(x)) == Some(x)
    ensures Sound(Mapped(c, from, to), x)
  {
  }

  // A number in decimal up to an end byte.
  function Number(end: Byte): Codec<nat> {
    Mapped(Text(end), Decimal, ToNumber)
  }

  const SPACE: Byte := 32

  // Encoded numerals hold digits only.
  lemma {:induction false} NumeralBytes(text: string)
    requires IsNumeral(text, 10)
    ensures LF !in Encode(text) && SPACE !in Encode(text)
  {
    if text != "" {
      NumeralBytes(text[1..]);
      assert EncodeChar(text[0]) == [text[0] as int];
    }
  }

  lemma NumberSound(n: nat, end: Byte)
    requires end == LF || end == SPACE
    ensures Sound(Number(end), n)
  {
    NumeralRoundTrip(n, 10);
    NumeralBytes(Decimal(n));
    TextSound(Decimal(n), end);
    MappedSound(Text(end), Decimal, ToNumber, n);
  }

  function ReadCounted(bytes: Bytes): Option<(Bytes, Bytes)> {
    var (size, rest) :- Number(LF).read1(bytes);
    if |rest| <= size || rest[size] != LF then None else Some((rest[..size], rest[size + 1..]))
  }

  // A length in decimal, the bytes it counts, and a line feed.
  function Counted(): Codec<Bytes> {
    Codec((data: Bytes, rest: Bytes) => Number(LF).print1(|data|, data + ([LF] + rest)), ReadCounted)
  }

  lemma FrontsThenBytes(print1: (nat, Bytes) -> Bytes, n: nat, body: Bytes, rest: Bytes)
    requires Fronts(print1, n)
    ensures print1(n, body + rest) == print1(n, body) + rest
  {
    assert print1(n, body + rest) == print1(n, []) + (body + rest);
    assert print1(n, body) == print1(n, []) + body;
  }

  lemma CountedFronts(data: Bytes)
    ensures Fronts(Counted().print1, data)
  {
    NumberSound(|data|, LF);
    var print1 := Number(LF).print1;
    forall rest: Bytes ensures print1(|data|, data + ([LF] + rest)) == print1(|data|, data + ([LF] + [])) + rest {
      CountedRest(print1, |data|, data, rest);
    }
  }

  lemma CountedRest(print1: (nat, Bytes) -> Bytes, n: nat, data: Bytes, rest: Bytes)
    requires Fronts(print1, n)
    ensures print1(n, data + ([LF] + rest)) == print1(n, data + ([LF] + [])) + rest
  {
    FrontsThenBytes(print1, n, data + ([LF] + []), rest);
    assert data + ([LF] + rest) == data + ([LF] + []) + rest;
  }

  lemma CountedSound(data: Bytes)
    ensures Sound(Counted(), data)
  {
    NumberSound(|data|, LF);
    CountedFronts(data);
    forall rest: Bytes ensures ReadCounted(Number(LF).print1(|data|, data + ([LF] + rest))) == Some((data, rest)) {
      var counted := data + ([LF] + rest);
      assert counted[..|data|] == data && counted[|data|] == LF && counted[|data| + 1..] == rest;
    }
  }

  // The single end-of-block byte.
  function LineFeed(): Codec<()> {
    Codec((_: (), rest: Bytes) => [LF] + rest,
          (bytes: Bytes) => if bytes != [] && bytes[0] == LF then Some(((), bytes[1..])) else None)
  }

  lemma LineFeedSound()
    ensures Sound(LineFeed(), ())
  {
  }

  /* ---------- Combinations ---------- */

  function Pair<A, B>(a: Codec<A>, b: Codec<B>): Codec<(A, B)> {
    Codec((x: (A, B), rest: Bytes) => a.print1(x.0, b.print1(x.1, rest)),
          (bytes: Bytes) =>
            match a.read1(bytes)
            case None => None
            case Some((x, rest)) => match b.read1(rest) case None => None case Some((y, rest)) => Some(((x, y), rest)))
  }

  lemma PairSound<A, B>(a: Codec<A>, b: Codec<B>, x: A, y: B)
    requires Sound(a, x) && Sound(b, y)
    ensures Sound(Pair(a, b), (x, y))
  {
  }

  lemma TripleSound<A, B, C>(a: Codec<A>, b: Codec<B>, c: Codec<C>, x: A, y: B, z: C)
    requires Sound(a, x) && Sound(b, y) && Sound(c, z)
    ensures Sound(Pair(a, Pair(b, c)), (x, (y, z)))
  {
    PairSound(b, c, y, z);
    PairSound(a, Pair(b, c), x, (y, z));
  }

  // A value behind a fixed keyword.
  function Behind<T>(keyword: Bytes, c: Codec<T>): Codec<T> {
    Codec((x: T, rest: Bytes) => keyword + c.print1(x, rest),
          (bytes: Bytes) =>
            match Expect(bytes, keyword) case None => None case Some(rest) => c.read1(rest))
  }

  lemma BehindSound<T>(keyword: Bytes, c: Codec<T>, x: T)
    requires Sound(c, x)
    ensures Sound(Behind(keyword, c), x)
  {
    forall rest: Bytes ensures Expect(keyword + c.print1(x, rest), keyword) == Some(c.print1(x, rest)) {
    }
  }

  function PrintMany<T>(print1: (T, Bytes) -> Bytes, items: seq<T>, rest: Bytes): Bytes {
    if items == [] then rest else print1(items[0], PrintMany(print1, items[1..], rest))
  }

  // As many values as can be read.
  function ReadMany<T>(read1: Bytes -> Option<(T, Bytes)>, bytes: Bytes): (seq<T>, Bytes)
    decreases |bytes|
  {
    match read1(bytes)
    case None => ([], bytes)
    case Some((item, rest)) =>
      if |rest| >= |bytes| then ([], bytes)
      else
        var (items, rest) := ReadMany(read1, rest);
        ([item] + items, rest)
  }

  lemma {:induction false} ManyFront<T>(print1: (T, Bytes) -> Bytes, items: seq<T>, rest: Bytes)
    requires forall k :: 0 <= k < |items| ==> Fronts(print1, items[k])
    ensures PrintMany(print1, items, rest) == PrintMany(print1, items, []) + rest
  {
    if items != [] {
      ManyFront(print1, items[1..], rest);
      assert Fronts(print1, items[0]);
      var head, more := print1(items[0], []), PrintMany(print1, items[1..], []);
      assert print1(items[0], more + rest) == head + (more + rest);
      assert print1(items[0], more) == head + more;
    }
  }

  lemma {:induction false} ManyConcat<T>(print1: (T, Bytes) -> Bytes, left: seq<T>, right: seq<T>, rest: Bytes)
    ensures PrintMany(print1, left + right, rest) == PrintMany(print1, left, PrintMany(print1, right, rest))
  {
    if left == [] {
      assert left + right == right;
    } else {
      assert (left + right)[1..] == left[1..] + right;
      ManyConcat(print1, left[1..], right, rest);
    }
  }

  // Writing one more item at the end.
  lemma ManyAppend<T>(print1: (T, Bytes) -> Bytes, items: seq<T>, more: seq<T>)
    requires forall k :: 0 <= k < |items| ==> Fronts(print1, items[k])
    ensures PrintMany(print1, items + more, []) == PrintMany(print1, items, []) + PrintMany(print1, more, [])
  {
    ManyConcat(print1, items, more, []);
    ManyFront(print1, items, PrintMany(print1, more, []));
  }

  lemma {:induction false} ManySound<T>(c: Codec<T>, items: seq<T>, rest: Bytes)
    requires forall k :: 0 <= k < |items| ==> Sound(c, items[k])
    requires c.read1(rest) == None
    ensures ReadMany(c.read1, PrintMany(c.print1, items, rest)) == (items, rest)
    ensures |PrintMany(c.print1, items, rest)| >= |rest|
  {
    if items != [] {
      ManySound(c, items[1..], rest);
      assert Sound(c, items[0]);
      assert [items[0]] + items[1..] == items;
    }
  }

  // All values of a stream; anything left over is refused.
  function ReadWhole<T>(c: Codec<T>, bytes: Bytes): Option<seq<T>> {
    var (items, rest) := ReadMany(c.read1, bytes);
    if rest == [] then Some(items) else None
  }

  lemma WholeSound<T>(c: Codec<T>, items: seq<T>)
    requires (forall k :: 0 <= k < |items| ==> Sound(c, items[k])) && c.read1([]) == None
    ensures ReadWhole(c, PrintMany(c.print1, items, [])) == Some(items)
  {
    ManySound(c, items, []);
  }

  // A list of values and then a value that no list element can be mistaken for.
  function ListThen<A, B>(a: Codec<A>, b: Codec<B>): Codec<(seq<A>, B)> {
    Codec((x: (seq<A>, B), rest: Bytes) => PrintMany(a.print1, x.0, b.print1(x.1, rest)),
          (bytes: Bytes) =>
            var (items, rest) := ReadMany(a.read1, bytes);
            match b.read1(rest) case None => None case Some((y, rest)) => Some(((items, y), rest)))
  }

  lemma ListThenFronts<A, B>(a: Codec<A>, b: Codec<B>, items: seq<A>, y: B)
    requires forall k :: 0 <= k < |items| ==> Sound(a, items[k])
    requires Fronts(b.print1, y)
    ensures Fronts(ListThen(a, b).print1, (items, y))
  {
    forall rest: Bytes
      ensures PrintMany(a.print1, items, b.print1(y, rest)) == PrintMany(a.print1, items, b.print1(y, [])) + rest
    {
      var tail := b.print1(y, []);
      assert b.print1(y, rest) == tail + rest;
      assert forall k :: 0 <= k < |items| ==> Sound(a, items[k]) && Fronts(a.print1, items[k]);
      ManyFront(a.print1, items, tail + rest);
      ManyFront(a.print1, items, tail);
    }
  }

  lemma ListThenSound<A, B>(a: Codec<A>, b: Codec<B>, items: seq<A>, y: B)
    requires forall k :: 0 <= k < |items| ==> Sound(a, items[k])
    requires Sound(b, y) && forall rest: Bytes :: a.read1(b.print1(y, rest)) == None
    ensures Sound(ListThen(a, b), (items, y))
  {
    ListThenFronts(a, b, items, y);
    forall rest: Bytes
      ensures ReadMany(a.read1, PrintMany(a.print1, items, b.print1(y, rest))) == (items, b.print1(y, rest))
      ensures |PrintMany(a.print1, items, b.print1(y, rest))| > |rest|
    {
      ManySound(a, items, b.print1(y, rest));
    }
  }

  // The first of two codecs that reads something.
  function Either<A, B>(a: Codec<A>, b: Codec<B>): Codec<Choice<A, B>> {
    Codec((x: Choice<A, B>, rest: Bytes) =>
            match x case First(y) => a.print1(y, rest) case Second(y) => b.print1(y, rest),
          (bytes: Bytes) =>
            match a.read1(bytes)
            case Some((y, rest)) => Some((First(y), rest))
            case None => match b.read1(bytes) case None => None case Some((y, rest)) => Some((Second(y), rest)))
  }

  datatype Choice<+A, +B> = First(a: A) | Second(b: B)

  lemma EitherSound<A, B>(a: Codec<A>, b: Codec<B>, x: Choice<A, B>)
    requires x.First? ==> Sound(a, x.a)
    requires x.Second? ==> Sound(b, x.b) && forall rest: Bytes :: a.read1(b.print1(x.b, rest)) == None
    ensures Sound(Either(a, b), x)
  {
  }

  /* ---------- Keywords that tell values apart ---------- */

  ghost predicate Differ(a: Bytes, b: Bytes) {
    a != [] && b != [] && a[0] != b[0]
  }

  // A codec behind a keyword reads nothing from bytes that start differently.
  lemma BehindRejects<T>(keyword: Bytes, c: Codec<T>, bytes: Bytes)
    requires keyword != [] && (bytes == [] || bytes[0] != keyword[0])
    ensures Behind(keyword, c).read1(bytes) == None
  {
    assert !(keyword <= bytes);
    assert Expect(bytes, keyword) == None;
  }

  lemma OtherKeywordRejected<A, B>(k1: Bytes, a: Codec<A>, k2: Bytes, b: Codec<B>, y: B, rest: Bytes)
    requires Differ(k1, k2)
    ensures Behind(k1, a).read1(Behind(k2, b).print1(y, rest)) == None
  {
    BehindRejects(k1, a, k2 + b.print1(y, rest));
  }

  // Neither a list element behind another keyword nor the closing line feed is mistaken for one behind k1.
  lemma ListRejected<A, B>(k1: Bytes, a: Codec<A>, k2: Bytes, b: Codec<B>, items: seq<B>, rest: Bytes)
    requires Differ(k1, k2) && k1[0] != LF
    ensures Behind(k1, a).read1(ListThen(Behind(k2, b), LineFeed()).print1((items, ()), rest)) == None
  {
    var after := LineFeed().print1((), rest);
    if items == [] {
      BehindRejects(k1, a, after);
    } else {
      OtherKeywordRejected(k1, a, k2, b, items[0], PrintMany(Behind(k2, b).print1, items[1..], after));
    }
  }

  lemma EitherKeywordSound<A, B>(k1: Bytes, a: Codec<A>, k2: Bytes, b: Codec<B>, x: Choice<A, B>)
    requires Differ(k1, k2) && (x.First? ==> Sound(a, x.a)) && (x.Second? ==> Sound(b, x.b))
    ensures Sound(Either(Behind(k1, a), Behind(k2, b)), x)
  {
    if x.First? {
      BehindSound(k1, a, x.a);
    } else {
      BehindSound(k2, b, x.b);
      forall rest: Bytes ensures Behind(k1, a).read1(Behind(k2, b).print1(x.b, rest)) == None {
        OtherKeywordRejected(k1, a, k2, b, x.b, rest);
      }
    }
    EitherSound(Behind(k1, a), Behind(k2, b), x);
  }

  lemma FirstOfThreeRejects<A, B, C>(k1: Bytes, a: Codec<A>, k2: Bytes, b: Codec<B>, k3: Bytes, c: Codec<C>,
                                     x: Choice<B, C>, rest: Bytes)
    requires Differ(k1, k2) && Differ(k1, k3)
    ensures Behind(k1, a).read1(Either(Behind(k2, b), Behind(k3, c)).print1(x, rest)) == None
  {
    if x.First? {
      OtherKeywordRejected(k1, a, k2, b, x.a, rest);
    } else {
      OtherKeywordRejected(k1, a, k3, c, x.b, rest);
    }
  }

  // Three alternatives behind different keywords.
  lemma ThreeKeywordsSound<A, B, C>(k1: Bytes, a: Codec<A>, k2: Bytes, b: Codec<B>, k3: Bytes, c: Codec<C>,
                                    x: Choice<A, Choice<B, C>>)
    requires Differ(k1, k2) && Differ(k1, k3) && Differ(k2, k3)
    requires x.First? ==> Sound(a, x.a)
    requires x.Second? ==> (x.b.First? ==> Sound(b, x.b.a)) && (x.b.Second? ==> Sound(c, x.b.b))
    ensures Sound(Either(Behind(k1, a), Either(Behind(k2, b), Behind(k3, c))), x)
  {
    var later := Either(Behind(k2, b), Behind(k3, c));
    if x.First? {
      BehindSound(k1, a, x.a);
    } else {
      EitherKeywordSound(k2, b, k3, c, x.b);
      forall rest: Bytes ensures Behind(k1, a).read1(later.print1(x.b, rest)) == None {
        FirstOfThreeRejects(k1, a, k2, b, k3, c, x.b, rest);
      }
    }
    EitherSound(Behind(k1, a), later, x);
  }

  lemma ThreeKeywordsReadNothing<A, B, C>(k1: Bytes, a: Codec<A>, k2: Bytes, b: Codec<B>, k3: Bytes, c: Codec<C>)
    requires k1 != [] && k2 != [] && k3 != []
    ensures Either(Behind(k1, a), Either(Behind(k2, b), Behind(k3, c))).read1([]) == None
  {
    BehindRejects(k1, a, []);
    BehindRejects(k2, b, []);
    BehindRejects(k3, c, []);
  }

  lemma EncodeStarts(text: string)
    requires text != "" && text[0] < 128 as char
    ensures Encode(text) != [] && Encode(text)[0] == text[0] as int
  {
  }

  /* ---------- What the combinations print ---------- */

  lemma BehindPrints<T>(keyword: Bytes, c: Codec<T>, x: T, rest: Bytes)
    ensures Behind(keyword, c).print1(x, rest) == keyword + c.print1(x, rest)
  {
  }

  lemma PairPrints<A, B>(a: Codec<A>, b: Codec<B>, x: A, y: B, rest: Bytes)
    ensures Pair(a, b).print1((x, y), rest) == a.print1(x, b.print1(y, rest))
  {
  }

  lemma MappedPrints<S, T>(c: Codec<S>, from: T -> S, to: S -> Option<T>, x: T, rest: Bytes)
    ensures Mapped(c, from, to).print1(x, rest) == c.print1(from(x), rest)
  {
  }

  lemma NumberPrints(n: nat, end: Byte, rest: Bytes)
    ensures Number(end).print1(n, rest) == Encode(Decimal(n)) + [end] + rest
  {
  }

  lemma CountedPrints(data: Bytes, rest: Bytes)
    ensures Counted().print1(data, rest) == Encode(Decimal(|data|)) + [LF] + (data + ([LF] + rest))
  {
    NumberPrints(|data|, LF, data + ([LF] + rest));
  }

  lemma FirstPrints<A, B>(a: Codec<A>, b: Codec<B>, x: A, rest: Bytes)
    ensures Either(a, b).print1(First(x), rest) == a.print1(x, rest)
  {
  }

  lemma SecondPrints<A, B>(a: Codec<A>, b: Codec<B>, y: B, rest: Bytes)
    ensures Either(a, b).print1(Second(y), rest) == b.print1(y, rest)
  {
  }

  lemma ListThenPrints<A, B>(a: Codec<A>, b: Codec<B>, items: seq<A>, y: B, rest: Bytes)
    ensures ListThen(a, b).print1((items, y), rest) == PrintMany(a.print1, items, b.print1(y, rest))
  {
  }
}
