// Positional numerals as the generators print them: decimal, hexadecimal and zero-padded decimal.
module Numerals {
  const DIGITS := "0123456789abcdef"

  function DigitChar(d: nat): char
    requires d < 16
  {
    DIGITS[d]
  }

  // The value of a digit character, or 16 for any other character.
  function DigitValue(c: char): (d: nat)
    ensures d <= 16
  {
    if '0' <= c <= '9' then c as int - '0' as int
    else if 'a' <= c <= 'f' then c as int - 'a' as int + 10
    else 16
  }

  predicate IsNumeral(s: string, base: nat) {
    forall i :: 0 <= i < |s| ==> DigitValue(s[i]) < base
  }

  function Read(s: string, base: nat): nat {
    if s == "" then 0 else Read(s[..|s| - 1], base) * base + DigitValue(s[|s| - 1])
  }

  function Numeral(n: nat, base: nat): (s: string)
    requires 2 <= base <= 16
  {
    if n < base then [DigitChar(n)]
    else
      DivMod(n, base);
      Numeral(n / base, base) + [DigitChar(n % base)]
  }

  function Decimal(n: nat): string {
    Numeral(n, 10)
  }

  function Hex(n: nat): string {
    "0x" + Numeral(n, 16)
  }

  lemma AppendDigit(s: string, d: nat, base: nat)
    requires d < base <= 16 && IsNumeral(s, base)
    ensures IsNumeral(s + [DigitChar(d)], base)
    ensures Read(s + [DigitChar(d)], base) == Read(s, base) * base + d
  {
    assert DigitValue(DigitChar(d)) == d;
    assert (s + [DigitChar(d)])[..|s|] == s;
  }

  lemma DivMod(n: nat, base: nat)
    requires base >= 2
    ensures n / base * base + n % base == n && n % base < base
    ensures n >= base ==> 0 < n / base < n
  {
    assert n == base * (n / base) + n % base;
    if n >= base {
      assert n / base * 2 <= n / base * base;
    }
  }

  lemma {:induction false} NumeralRoundTrip(n: nat, base: nat)
    requires 2 <= base <= 16
    ensures Numeral(n, base) != "" && IsNumeral(Numeral(n, base), base) && Read(Numeral(n, base), base) == n
  {
    if n < base {
      AppendDigit("", n, base);
      assert "" + [DigitChar(n)] == [DigitChar(n)];
    } else {
      var high, low := n / base, n % base;
      DivMod(n, base);
      NumeralRoundTrip(high, base);
      AppendDigit(Numeral(high, base), low, base);
    }
  }

  lemma DecimalIsInjective(a: nat, b: nat)
    requires Decimal(a) == Decimal(b)
    ensures a == b
  {
    NumeralRoundTrip(a, 10);
    NumeralRoundTrip(b, 10);
  }

  /* ---------- Zero padding, and when text order is number order ---------- */

  function Power10(k: nat): nat {
    if k == 0 then 1 else 10 * Power10(k - 1)
  }

  function Zeros(k: nat): string {
    seq(k, _ => '0')
  }

  // The number in decimal, with zeros in front up to the given width.
  function Padded(n: nat, width: nat): string {
    var digits := Decimal(n);
    if |digits| < width then Zeros(width - |digits|) + digits else digits
  }

  // Lexicographic order of strings by code point, as Python compares them.
  predicate TextLess(a: string, b: string) {
    if a == "" then b != ""
    else b != "" && (a[0] < b[0] || (a[0] == b[0] && TextLess(a[1..], b[1..])))
  }

  lemma {:induction false} ReadConcat(left: string, right: string)
    ensures Read(left + right, 10) == Read(left, 10) * Power10(|right|) + Read(right, 10)
  {
    if right == "" {
      assert left + right == left;
    } else {
      var n := |right| - 1;
      assert (left + right)[..|left + right| - 1] == left + right[..n];
      ReadConcat(left, right[..n]);
    }
  }

  lemma {:induction false} ReadBelow(s: string)
    requires IsNumeral(s, 10)
    ensures Read(s, 10) < Power10(|s|)
  {
    if s != "" {
      ReadBelow(s[..|s| - 1]);
    }
  }

  // Numerals of one length compare as text exactly as the numbers they denote.
  lemma {:induction false} EqualLengthOrder(a: string, b: string)
    requires |a| == |b| && IsNumeral(a, 10) && IsNumeral(b, 10)
    ensures TextLess(a, b) <==> Read(a, 10) < Read(b, 10)
  {
    if a != "" {
      EqualLengthOrder(a[1..], b[1..]);
      ReadConcat([a[0]], a[1..]);
      ReadConcat([b[0]], b[1..]);
      assert a == [a[0]] + a[1..] && b == [b[0]] + b[1..];
      ReadBelow(a[1..]);
      ReadBelow(b[1..]);
      assert Read([a[0]], 10) == DigitValue(a[0]) by { assert [a[0]][..0] == ""; }
      assert Read([b[0]], 10) == DigitValue(b[0]) by { assert [b[0]][..0] == ""; }
      LeadingDigit(DigitValue(a[0]), DigitValue(b[0]), Read(a[1..], 10), Read(b[1..], 10), Power10(|a| - 1));
    }
  }

  lemma LeadingDigit(x: nat, y: nat, r: nat, t: nat, power: nat)
    requires r < power && t < power
    ensures x * power + r < y * power + t <==> x < y || (x == y && r < t)
  {
    if x < y {
      assert (x + 1) * power <= y * power;
    } else if y < x {
      assert (y + 1) * power <= x * power;
    }
  }

  lemma {:induction false} DecimalLength(n: nat, width: nat)
    requires width > 0
    ensures |Decimal(n)| <= width <==> n < Power10(width)
  {
    if n < 10 {
      PowerGrows(width);
    } else if width == 1 {
      NumeralRoundTrip(n / 10, 10);
      assert Power10(1) == 10 * Power10(0);
    } else {
      DecimalLength(n / 10, width - 1);
    }
  }

  lemma {:induction false} PowerGrows(k: nat)
    ensures k > 0 ==> Power10(k) >= 10
    ensures Power10(k) >= 1
  {
    if k > 0 {
      PowerGrows(k - 1);
    }
  }

  lemma {:induction false} ReadZeros(k: nat)
    ensures Read(Zeros(k), 10) == 0
  {
    if k > 0 {
      assert Zeros(k)[..k - 1] == Zeros(k - 1);
      ReadZeros(k - 1);
    }
  }

  lemma ZerosInFront(k: nat, digits: string)
    requires IsNumeral(digits, 10)
    ensures IsNumeral(Zeros(k) + digits, 10) && Read(Zeros(k) + digits, 10) == Read(digits, 10)
  {
    ReadZeros(k);
    ReadConcat(Zeros(k), digits);
  }

  lemma PaddedDenotes(n: nat, width: nat)
    requires width > 0
    ensures IsNumeral(Padded(n, width), 10) && Read(Padded(n, width), 10) == n
    ensures |Padded(n, width)| == width <==> n < Power10(width)
  {
    var digits := Decimal(n);
    NumeralRoundTrip(n, 10);
    DecimalLength(n, width);
    if |digits| < width {
      ZerosInFront(width - |digits|, digits);
    }
  }

  // Below 10^width the zero-padded texts are ordered as the numbers are.
  lemma PaddedOrder(a: nat, b: nat, width: nat)
    requires width > 0 && a < Power10(width) && b < Power10(width)
    ensures TextLess(Padded(a, width), Padded(b, width)) <==> a < b
  {
    PaddedDenotes(a, width);
    PaddedDenotes(b, width);
    EqualLengthOrder(Padded(a, width), Padded(b, width));
  }
}
