/** The two texts in which a positive decimal is stored: the shortest one, which has an exponent for small
    numbers, and the fixed-point one, which never has. */
module StoredText {
  import opened Results
  import opened DecimalText
  import opened ExactDecimal
  import opened ExchangeMath

  /** The number n / 10^places written without an exponent. */
  function FixedText(n: nat, places: nat): string {
    PrintNatural(n, places)
  }

  function Scientific(n: nat, places: nat): string
    requires |Digits(n)| <= places
  {
    var d := Digits(n);
    d[..1] + (if |d| > 1 then "." + d[1..] else "") + "E-" + Digits(places + 1 - |d|)
  }

  /** The same number as it is written back: with an exponent when its first digit is further behind
      the point than the sixth place. */
  function ShortText(n: nat, places: nat): string {
    if |Digits(n)| - places > -6 then PrintNatural(n, places) else Scientific(n, places)
  }

  lemma {:induction false} DigitsMagnitude(n: nat)
    requires n > 0
    ensures Pow10(|Digits(n)| - 1) <= n < Pow10(|Digits(n)|)
  {
    if n >= 10 {
      DigitsMagnitude(n / 10);
      assert n / 10 + 1 <= Pow10(|Digits(n / 10)|);
      assert 10 * (n / 10) <= n < 10 * (n / 10) + 10;
    } else {
      assert Pow10(0) == 1 && Pow10(1) == 10 && |Digits(n)| == 1;
    }
  }

  lemma {:induction false} SmallExactly(n: nat, places: nat)
    requires n > 0
    ensures |Digits(n)| - places <= -6 <==> 1000000 * n < Pow10(places)
  {
    var width := |Digits(n)|;
    DigitsMagnitude(n);
    MillionTimes(width);
    MillionTimes(width - 1);
    if width + 6 <= places {
      PowGrows(width + 6, places);
    } else {
      PowGrows(places, width + 5);
    }
  }

  lemma MillionTimes(n: nat)
    ensures Pow10(n + 6) == 1000000 * Pow10(n)
  {
    PowAdd(n, 6);
    assert Pow10(6) == 1000000;
  }

  lemma BelowMillionth(n: nat, unit: nat)
    requires unit >= 1
    ensures 1000000 * n < unit <==> n as real / unit as real < 0.000001
  {
    var q, u := n as real / unit as real, unit as real;
    QuotientTimes(n as real, u);
    if q < 0.000001 {
      Scale(q, 0.000001, u);
    } else if q > 0.000001 {
      Scale(0.000001, q, u);
    }
    assert 1000000 * n < unit <==> 1000000.0 * n as real < u;
  }

  lemma QuotientTimes(a: real, b: real)
    requires b > 0.0
    ensures a / b * b == a
  {
  }

  lemma Scale(a: real, b: real, c: real)
    requires a < b && c > 0.0
    ensures a * c < b * c
  {
  }

  lemma NoExponent(n: nat, places: nat)
    ensures 'E' !in PrintNatural(n, places)
  {
    var text := PrintNatural(n, places);
    forall i | 0 <= i < |text| ensures IsDigit(text[i]) || text[i] == '.' {
    }
  }

  /** A fixed-point text reads back as the number it was written for, and it is the text written back
      exactly when the number is not below a millionth. */
  lemma TextsDifferExactly(n: nat, places: nat)
    requires n > 0
    ensures ParseAmount(FixedText(n, places)) == Some(Dec(n, -(places as int)))
    ensures ShortText(n, places) != FixedText(n, places) <==> Fraction(n, places) < 0.000001
  {
    NaturalReadsBack(n, places);
    SmallExactly(n, places);
    BelowMillionth(n, Pow10(places));
    NoExponent(n, places);
    if |Digits(n)| - places <= -6 {
      assert 'E' in Scientific(n, places);
    }
  }
}
