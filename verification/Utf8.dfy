// Text as bytes: the UTF-8 encoding of Unicode scalar values (section 3 of RFC 3629).
module Utf8 {
  import opened Wrappers

  type Byte = x: int | 0 <= x < 256

  const LF: Byte := 10

  function EncodeChar(c: char): (bytes: seq<Byte>)
    ensures 1 <= |bytes| <= 4
  {
    var v := c as int;
    if v < 0x80 then [v]
    else if v < 0x800 then [0xC0 + v / 64, 0x80 + v % 64]
    else if v < 0x1_0000 then [0xE0 + v / 4096, 0x80 + v / 64 % 64, 0x80 + v % 64]
    else [0xF0 + v / 262144, 0x80 + v / 4096 % 64, 0x80 + v / 64 % 64, 0x80 + v % 64]
  }

  function Encode(text: string): seq<Byte> {
    if text == "" then [] else EncodeChar(text[0]) + Encode(text[1..])
  }

  // How many bytes a first byte announces.
  function Announced(first: Byte): nat {
    if first < 0x80 then 1 else if first < 0xE0 then 2 else if first < 0xF0 then 3 else 4
  }

  function ScalarOf(bytes: seq<Byte>): int
    requires 1 <= |bytes| <= 4
  {
    var b := (i: nat) requires i < |bytes| => bytes[i] as int;
    if |bytes| == 1 then b(0)
    else if |bytes| == 2 then (b(0) - 0xC0) * 64 + (b(1) - 0x80)
    else if |bytes| == 3 then (b(0) - 0xE0) * 4096 + (b(1) - 0x80) * 64 + (b(2) - 0x80)
    else (b(0) - 0xF0) * 262144 + (b(1) - 0x80) * 4096 + (b(2) - 0x80) * 64 + (b(3) - 0x80)
  }

  predicate IsScalar(v: int) {
    0 <= v < 0xD800 || 0xE000 <= v < 0x11_0000
  }

  function Decode(bytes: seq<Byte>): Option<string> {
    if bytes == [] then Some("")
    else
      var n := Announced(bytes[0]);
      if |bytes| < n || !IsScalar(ScalarOf(bytes[..n])) then None
      else
        var rest :- Decode(bytes[n..]);
        Some([ScalarOf(bytes[..n]) as char] + rest)
  }

  // The bits of a scalar in groups of six.
  lemma SixBitGroups(v: nat)
    ensures v == v / 64 * 64 + v % 64
    ensures v == v / 4096 * 4096 + v / 64 % 64 * 64 + v % 64
    ensures v == v / 262144 * 262144 + v / 4096 % 64 * 4096 + v / 64 % 64 * 64 + v % 64
  {
    var w := v / 64;
    var u := w / 64;
    assert v / 4096 == u && v / 262144 == u / 64;
    assert w == u * 64 + w % 64 && u == u / 64 * 64 + u % 64;
  }

  lemma CharRoundTrip(c: char)
    ensures Announced(EncodeChar(c)[0]) == |EncodeChar(c)| && ScalarOf(EncodeChar(c)) == c as int
  {
    SixBitGroups(c as int);
  }

  // Decoding recovers every text.
  lemma {:induction false} TextRoundTrip(text: string)
    ensures Decode(Encode(text)) == Some(text)
  {
    if text != "" {
      var head := EncodeChar(text[0]);
      CharRoundTrip(text[0]);
      TextRoundTrip(text[1..]);
      assert Encode(text)[..|head|] == head && Encode(text)[|head|..] == Encode(text[1..]);
      assert [text[0]] + text[1..] == text;
    }
  }

  // A line feed byte only ever encodes a line feed.
  lemma {:induction false} LineFeedsOnlyFromText(text: string)
    requires '\n' !in text
    ensures LF !in Encode(text)
  {
    if text != "" {
      LineFeedsOnlyFromText(text[1..]);
      assert LF !in EncodeChar(text[0]);
    }
  }
}
