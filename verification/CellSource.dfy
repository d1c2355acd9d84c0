// The TypeScript text of a relay cell, in its four spellings of a number, and
// a reader that recovers the cell from the text.
module CellSource {
  import opened Wrappers
  import opened RelayCells
  import opened Numerals

  /* ---------- Printing ---------- */

  // A number as cell_source spells it in one of four styles.
  function Spelled(value: nat, style: nat): string {
    if style % 4 == 0 then Decimal(value)
    else if style % 4 == 1 then Hex(value)
    else if style % 4 == 2 && value != 0 then Difference(Decimal(value + 257), Decimal(257))
    else "Number(\"" + Decimal(value) + "\")"
  }

  function Difference(left: string, right: string): string {
    "(" + (left + " " + ("- " + (right + ")")))
  }

  function Join(tokens: seq<string>): string
    requires tokens != []
  {
    if |tokens| == 1 then tokens[0] else tokens[0] + ", " + Join(tokens[1..])
  }

  const HEADER := "import type { AffineCell } from \"../../../cell.ts\";\n\n" +
    "export const cell: AffineCell = Object.freeze({\n  rotate: "
  const BEFORE_DELTA := "\n  delta: Object.freeze(["
  const BEFORE_SEAL := "),\n  seal: \""
  const FOOTER := ",\n});\n"

  function DeltaTokens(cell: Cell, variant: nat): (tokens: seq<string>)
    ensures |tokens| == WIDTH
  {
    seq(WIDTH, k requires 0 <= k < WIDTH => Spelled(cell.delta[k], variant + k + 1))
  }

  function CellText(cell: Cell, variant: nat): string {
    HEADER + (Spelled(cell.rotate, variant) + "," +
              (BEFORE_DELTA + (Join(DeltaTokens(cell, variant)) + "]" +
                               (BEFORE_SEAL + (cell.seal + "\"" + FOOTER)))))
  }

  /* ---------- Reading ---------- */

  function Expect(text: string, prefix: string): Option<string> {
    if prefix <= text then Some(text[|prefix|..]) else None
  }

  // The text before the first `stop`, and the text after it.
  function Until(text: string, stop: char): Option<(string, string)> {
    if text == "" then None
    else if text[0] == stop then Some(("", text[1..]))
    else
      var (before, after) :- Until(text[1..], stop);
      Some(([text[0]] + before, after))
  }

  function SplitTokens(list: string): Option<seq<string>>
    decreases |list|
  {
    if ',' !in list then Some([list])
    else
      var (token, rest) :- Until(list, ',');
      var rest :- Expect(rest, " ");
      if |rest| >= |list| then None
      else
        var tokens :- SplitTokens(rest);
        Some([token] + tokens)
  }

  function ReadNumeral(text: string, base: nat): Option<nat> {
    if text != "" && IsNumeral(text, base) then Some(Read(text, base)) else None
  }

  // The value of one spelled number.
  function Evaluate(token: string): Option<nat> {
    if "0x" <= token then ReadNumeral(token[2..], 16)
    else if "(" <= token then
      var (left, rest) :- Until(token[1..], ' ');
      var rest :- Expect(rest, "- ");
      var (right, rest) :- Until(rest, ')');
      var a :- ReadNumeral(left, 10);
      var b :- ReadNumeral(right, 10);
      if rest == "" && b <= a then Some(a - b) else None
    else if "Number(\"" <= token then
      var (digits, rest) :- Until(token[8..], '\"');
      if rest == ")" then ReadNumeral(digits, 10) else None
    else ReadNumeral(token, 10)
  }

  datatype Tokens = Tokens(rotate: string, delta: seq<string>, seal: string)

  function ReadTokens(text: string): Option<Tokens> {
    var text :- Expect(text, HEADER);
    var (rotate, text) :- Until(text, ',');
    var text :- Expect(text, BEFORE_DELTA);
    var (list, text) :- Until(text, ']');
    var text :- Expect(text, BEFORE_SEAL);
    var (seal, text) :- Until(text, '\"');
    var delta :- SplitTokens(list);
    if text == FOOTER then Some(Tokens(rotate, delta, seal)) else None
  }

  function EvaluateAll(tokens: seq<string>): Option<seq<nat>> {
    if tokens == [] then Some([])
    else
      var first :- Evaluate(tokens[0]);
      var rest :- EvaluateAll(tokens[1..]);
      Some([first] + rest)
  }

  // The cell a source text denotes, if it denotes one.
  function CellOf(text: string): Option<Cell> {
    var tokens :- ReadTokens(text);
    var rotate :- Evaluate(tokens.rotate);
    var delta :- EvaluateAll(tokens.delta);
    if rotate < WIDTH && |delta| == WIDTH && forall k :: 0 <= k < |delta| ==> delta[k] < MODULUS
    then Some(Cell(rotate, delta, tokens.seal)) else None
  }

  /* ---------- Round trip ---------- */

  lemma ExpectFinds(prefix: string, rest: string)
    ensures Expect(prefix + rest, prefix) == Some(rest)
  {
  }

  lemma {:induction false} UntilFinds(before: string, stop: char, after: string)
    requires stop !in before
    ensures Until(before + [stop] + after, stop) == Some((before, after))
  {
    var text := before + [stop] + after;
    if before == "" {
      assert text[1..] == after;
    } else {
      assert text[1..] == before[1..] + [stop] + after;
      UntilFinds(before[1..], stop, after);
      assert [text[0]] + before[1..] == before;
    }
  }

  predicate PlainToken(token: string) {
    ',' !in token && ']' !in token
  }

  lemma {:induction false} SplitFinds(tokens: seq<string>)
    requires tokens != [] && forall k :: 0 <= k < |tokens| ==> PlainToken(tokens[k])
    ensures SplitTokens(Join(tokens)) == Some(tokens) && ']' !in Join(tokens)
  {
    if |tokens| == 1 {
      assert [tokens[0]] == tokens;
    } else {
      SplitFinds(tokens[1..]);
      var rest := Join(tokens[1..]);
      assert Join(tokens) == tokens[0] + [','] + (" " + rest);
      UntilFinds(tokens[0], ',', " " + rest);
      ExpectFinds(" ", rest);
      assert Join(tokens)[|tokens[0]|] == ',';
      assert [tokens[0]] + tokens[1..] == tokens;
    }
  }

  lemma NumeralIsPlain(n: nat, base: nat)
    requires 2 <= base <= 16
    ensures forall c: char :: c in Numeral(n, base) ==> DigitValue(c) < base
  {
    NumeralRoundTrip(n, base);
  }

  lemma SpelledIsPlain(value: nat, style: nat)
    ensures PlainToken(Spelled(value, style))
  {
    if style % 4 == 1 {
      DigitsArePlain(value, 16);
    } else if style % 4 == 2 && value != 0 {
      DigitsArePlain(value + 257, 10);
      DigitsArePlain(257, 10);
      DifferenceIsPlain(Decimal(value + 257), Decimal(257));
    } else {
      DigitsArePlain(value, 10);
    }
  }

  lemma DigitsArePlain(n: nat, base: nat)
    requires 2 <= base <= 16
    ensures PlainToken(Numeral(n, base))
  {
    NumeralIsPlain(n, base);
  }

  lemma DifferenceIsPlain(left: string, right: string)
    requires PlainToken(left) && PlainToken(right)
    ensures PlainToken(Difference(left, right))
  {
  }

  lemma EvaluateDifference(left: string, right: string)
    requires left != "" && IsNumeral(left, 10) && right != "" && IsNumeral(right, 10)
    requires Read(right, 10) <= Read(left, 10)
    ensures Evaluate(Difference(left, right)) == Some(Read(left, 10) - Read(right, 10))
  {
    var rest := "- " + (right + ")");
    var token := Difference(left, right);
    assert token[0] == '(' && token[1..] == left + [' '] + rest;
    UntilFinds(left, ' ', rest);
    ExpectFinds("- ", right + ")");
    assert right + ")" == right + [')'] + "";
    UntilFinds(right, ')', "");
  }

  lemma EvaluateConverted(n: nat)
    ensures Evaluate("Number(\"" + Decimal(n) + "\")") == Some(n)
  {
    var token := "Number(\"" + Decimal(n) + "\")";
    NumeralRoundTrip(n, 10);
    assert token[0] == 'N';
    assert token[8..] == Decimal(n) + ['\"'] + ")";
    UntilFinds(Decimal(n), '\"', ")");
  }

  lemma EvaluatePlain(n: nat)
    ensures Evaluate(Decimal(n)) == Some(n)
  {
    NumeralRoundTrip(n, 10);
    assert DigitValue(Decimal(n)[0]) < 10;
    assert |Decimal(n)| >= 2 ==> DigitValue(Decimal(n)[1]) < 10;
    assert DigitValue("0x"[1]) == 16;
  }

  // Every spelling of a number evaluates to that number.
  lemma EverySpellingDenotes(value: nat, style: nat)
    ensures Evaluate(Spelled(value, style)) == Some(value)
  {
    if style % 4 == 0 {
      EvaluatePlain(value);
    } else if style % 4 == 1 {
      NumeralRoundTrip(value, 16);
      assert Hex(value)[2..] == Numeral(value, 16);
    } else if style % 4 == 2 && value != 0 {
      NumeralRoundTrip(value + 257, 10);
      NumeralRoundTrip(257, 10);
      EvaluateDifference(Decimal(value + 257), Decimal(257));
    } else {
      EvaluateConverted(value);
    }
  }

  lemma TokensFound(cell: Cell, variant: nat)
    requires '\"' !in cell.seal
    ensures ReadTokens(CellText(cell, variant))
            == Some(Tokens(Spelled(cell.rotate, variant), DeltaTokens(cell, variant), cell.seal))
  {
    var tokens := DeltaTokens(cell, variant);
    forall k | 0 <= k < |tokens| ensures PlainToken(tokens[k]) {
      SpelledIsPlain(cell.delta[k], variant + k + 1);
    }
    SplitFinds(tokens);
    SpelledIsPlain(cell.rotate, variant);
    var seal := cell.seal + "\"" + FOOTER;
    var list := Join(tokens) + "]" + (BEFORE_SEAL + seal);
    var rotate := Spelled(cell.rotate, variant) + "," + (BEFORE_DELTA + list);
    ExpectFinds(HEADER, rotate);
    UntilFinds(Spelled(cell.rotate, variant), ',', BEFORE_DELTA + list);
    ExpectFinds(BEFORE_DELTA, list);
    UntilFinds(Join(tokens), ']', BEFORE_SEAL + seal);
    ExpectFinds(BEFORE_SEAL, seal);
    UntilFinds(cell.seal, '\"', FOOTER);
  }

  lemma {:induction false} EvaluateAllFinds(values: seq<nat>, tokens: seq<string>)
    requires |values| == |tokens|
    requires forall k :: 0 <= k < |values| ==> Evaluate(tokens[k]) == Some(values[k])
    ensures EvaluateAll(tokens) == Some(values)
  {
    if tokens != [] {
      EvaluateAllFinds(values[1..], tokens[1..]);
      assert values == [values[0]] + values[1..];
    }
  }

  lemma DeltaEvaluates(cell: Cell, variant: nat)
    ensures EvaluateAll(DeltaTokens(cell, variant)) == Some(cell.delta)
  {
    var tokens := DeltaTokens(cell, variant);
    forall k | 0 <= k < |tokens| ensures Evaluate(tokens[k]) == Some(cell.delta[k]) {
      EverySpellingDenotes(cell.delta[k], variant + k + 1);
    }
    EvaluateAllFinds(cell.delta, tokens);
  }

  lemma CellFromTokens(text: string, rotate: string, delta: seq<string>, cell: Cell)
    requires ReadTokens(text) == Some(Tokens(rotate, delta, cell.seal))
    requires Evaluate(rotate) == Some(cell.rotate) && EvaluateAll(delta) == Some(cell.delta)
    ensures CellOf(text) == Some(cell)
  {
  }

  // Whatever the variant, the text of a cell denotes that cell.
  lemma TextDenotesCell(cell: Cell, variant: nat)
    requires '\"' !in cell.seal
    ensures CellOf(CellText(cell, variant)) == Some(cell)
  {
    TokensFound(cell, variant);
    EverySpellingDenotes(cell.rotate, variant);
    DeltaEvaluates(cell, variant);
    CellFromTokens(CellText(cell, variant), Spelled(cell.rotate, variant), DeltaTokens(cell, variant), cell);
  }

  /* ---------- Consecutive variants differ ---------- */

  // How a spelling starts tells its style.
  lemma SpellingStarts(value: nat, style: nat)
    ensures Spelled(value, style) != ""
    ensures var text := Spelled(value, style);
            if style % 4 == 0 then DigitValue(text[0]) < 10 && (|text| >= 2 ==> DigitValue(text[1]) < 10)
            else if style % 4 == 1 then |text| >= 2 && text[0] == '0' && text[1] == 'x'
            else if style % 4 == 2 && value != 0 then text[0] == '('
            else text[0] == 'N'
  {
    if style % 4 == 0 {
      NumeralRoundTrip(value, 10);
    }
  }

  lemma SpellingsDiffer(value: nat, style: nat)
    ensures Spelled(value, style) == Spelled(value, style + 1) <==> value == 0 && style % 4 == 2
  {
    var now, next := Spelled(value, style), Spelled(value, style + 1);
    SpellingStarts(value, style);
    SpellingStarts(value, style + 1);
    assert (style + 1) % 4 == if style % 4 == 3 then 0 else style % 4 + 1;
    assert DigitValue('x') == DigitValue('(') == DigitValue('N') == 16;
  }

  // Consecutive variants of one cell are never the same text, even where zeros are spelled alike.
  lemma NextVariantDiffers(cell: Cell, variant: nat)
    requires '\"' !in cell.seal
    ensures CellText(cell, variant) != CellText(cell, variant + 1)
  {
    SpellingsDiffer(cell.rotate, variant);
    SpellingsDiffer(cell.delta[0], variant + 1);
    DeltaTokenAt(cell, variant, 0, variant + 1);
    DeltaTokenAt(cell, variant + 1, 0, variant + 2);
    TextHoldsTokens(cell, variant, variant + 1);
  }

  lemma DeltaTokenAt(cell: Cell, variant: nat, k: nat, style: nat)
    requires k < WIDTH && style == variant + k + 1
    ensures DeltaTokens(cell, variant)[k] == Spelled(cell.delta[k], style)
  {
  }

  // Variants with the same text have the same tokens.
  lemma TextHoldsTokens(cell: Cell, v: nat, w: nat)
    requires '\"' !in cell.seal
    ensures CellText(cell, v) == CellText(cell, w) ==>
              Spelled(cell.rotate, v) == Spelled(cell.rotate, w) && DeltaTokens(cell, v) == DeltaTokens(cell, w)
  {
    TokensFound(cell, v);
    TokensFound(cell, w);
  }
}
