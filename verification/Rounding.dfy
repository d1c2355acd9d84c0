// Rounding half to even, on exact numbers.
module Rounding {
  function RoundInt(x: real): int {
    var floor := x.Floor;
    var rest := x - floor as real;
    if rest < 0.5 || (rest == 0.5 && floor % 2 == 0) then floor else floor + 1
  }

  // Rounded to hundredths and to thousandths.
  function Round2(x: real): real {
    RoundInt(x * 100.0) as real / 100.0
  }

  function Round3(x: real): real {
    RoundInt(x * 1000.0) as real / 1000.0
  }

  // The nearest whole number; of two equally near ones the even one.
  lemma RoundIntIsNearest(x: real)
    ensures -0.5 <= x - RoundInt(x) as real <= 0.5
    ensures x - RoundInt(x) as real == 0.5 || RoundInt(x) as real - x == 0.5 ==> RoundInt(x) % 2 == 0
  {
  }

  // Rounded to thousandths a number moves by half a thousandth at most; to hundredths by half a hundredth.
  lemma RoundedIsNear(x: real)
    ensures -0.0005 <= Round3(x) - x <= 0.0005 && -0.005 <= Round2(x) - x <= 0.005
  {
    RoundIntIsNearest(x * 1000.0);
    RoundIntIsNearest(x * 100.0);
  }

  lemma RoundIntKeepsOrder(x: real, y: real)
    requires x <= y
    ensures RoundInt(x) <= RoundInt(y)
  {
    assert x.Floor <= y.Floor;
  }

  lemma Round2KeepsOrder(x: real, y: real)
    requires x <= y
    ensures Round2(x) <= Round2(y)
  {
    RoundIntKeepsOrder(x * 100.0, y * 100.0);
  }

  lemma Round3KeepsOrder(x: real, y: real)
    requires x <= y
    ensures Round3(x) <= Round3(y)
  {
    RoundIntKeepsOrder(x * 1000.0, y * 1000.0);
  }

  lemma WholeNumbersStay(n: int)
    ensures RoundInt(n as real) == n
  {
  }

  lemma ProductIsNonNegative(x: real, y: real)
    requires x >= 0.0 && y >= 0.0
    ensures x * y >= 0.0
  {
  }

  // A larger factor makes no smaller product.
  lemma ProductKeepsOrder(x: real, y: real, factor: real)
    requires x <= y && factor >= 0.0
    ensures x * factor <= y * factor
  {
    ProductIsNonNegative(y - x, factor);
    assert (y - x) * factor == y * factor - x * factor;
  }

  // A larger numerator makes no smaller quotient.
  lemma QuotientOrder(x: real, y: real, h: real)
    requires x <= y && h > 0.0
    ensures x / h <= y / h
  {
    assert x / h * h == x && y / h * h == y;
    FactorOrder(x / h, y / h, h);
  }

  lemma FactorOrder(p: real, q: real, h: real)
    requires p * h <= q * h && h > 0.0
    ensures p <= q
  {
    if p > q {
      StrictFactor(q, p, h);
    }
  }

  lemma StrictFactor(x: real, y: real, h: real)
    requires x < y && h > 0.0
    ensures x * h < y * h
  {
    assert (y - x) * h > 0.0;
    assert (y - x) * h == y * h - x * h;
  }
}
