/** Step and tick arithmetic: rounding to a multiple of an exchange step, choosing order values on the
    lattice, and printing them so that they read back as the same number. */
module ExchangeMath {
  import opened Results
  import opened DecimalText
  import opened ExactDecimal

  datatype Mode = Down | Up | Nearest

  // ---------- rounding ----------

  /** Whole units; `Nearest` takes halves away from zero. */
  function RoundUnits(x: real, mode: Mode): int {
    match mode
    case Down => x.Floor
    case Up => -((-x).Floor)
    case Nearest => if x >= 0.0 then (x + 0.5).Floor else -((0.5 - x).Floor)
  }

  function Steps(value: real, step: real, mode: Mode): int
    requires step > 0.0
  {
    RoundUnits(value / step, mode)
  }

  function Multiple(n: int, step: real): real {
    n as real * step
  }

  function RoundStep(value: real, step: real, mode: Mode): real
    requires step > 0.0
  {
    Multiple(Steps(value, step, mode), step)
  }

  lemma MultipleLess(a: int, b: int, step: real)
    requires step > 0.0 && a < b
    ensures Multiple(a, step) < Multiple(b, step)
  {
    assert (b - a) as real * step > 0.0;
  }

  lemma MultiplesOrdered(a: int, b: int, step: real)
    requires step > 0.0
    ensures a <= b <==> Multiple(a, step) <= Multiple(b, step)
  {
    if a < b {
      MultipleLess(a, b, step);
    } else if b < a {
      MultipleLess(b, a, step);
    }
  }

  lemma NextMultiple(n: int, step: real)
    ensures Multiple(n + 1, step) == Multiple(n, step) + step
    ensures Multiple(0, step) == 0.0
  {
  }

  lemma QuotientAtLeast(n: int, value: real, step: real)
    requires step > 0.0 && n as real <= value / step
    ensures Multiple(n, step) <= value
  {
    var d := value / step - n as real;
    assert d * step >= 0.0;
    assert value / step * step == value;
  }

  lemma QuotientBelow(n: int, value: real, step: real)
    requires step > 0.0 && value / step < n as real
    ensures value < Multiple(n, step)
  {
    var d := n as real - value / step;
    assert d * step > 0.0;
    assert value / step * step == value;
  }

  lemma QuotientAbove(n: int, value: real, step: real)
    requires step > 0.0 && n as real < value / step
    ensures Multiple(n, step) < value
  {
    var d := value / step - n as real;
    assert d * step > 0.0;
    assert value / step * step == value;
  }

  lemma QuotientAtMost(n: int, value: real, step: real)
    requires step > 0.0 && value / step <= n as real
    ensures value <= Multiple(n, step)
  {
    var d := n as real - value / step;
    assert d * step >= 0.0;
    assert value / step * step == value;
  }

  /** Down: the largest multiple of the step not above the value. */
  lemma DownIsGreatest(value: real, step: real, k: int)
    requires step > 0.0
    ensures RoundStep(value, step, Down) <= value < RoundStep(value, step, Down) + step
    ensures Multiple(k, step) <= value <==> Multiple(k, step) <= RoundStep(value, step, Down)
  {
    var n := Steps(value, step, Down);
    QuotientAtLeast(n, value, step);
    QuotientBelow(n + 1, value, step);
    NextMultiple(n, step);
    MultiplesOrdered(k, n, step);
    MultiplesOrdered(n + 1, k, step);
  }

  /** Up: the least multiple of the step not below the value. */
  lemma UpIsLeast(value: real, step: real, k: int)
    requires step > 0.0
    ensures RoundStep(value, step, Up) - step < value <= RoundStep(value, step, Up)
    ensures value <= Multiple(k, step) <==> RoundStep(value, step, Up) <= Multiple(k, step)
  {
    var n := Steps(value, step, Up);
    QuotientAtMost(n, value, step);
    QuotientAbove(n - 1, value, step);
    NextMultiple(n - 1, step);
    MultiplesOrdered(n, k, step);
    MultiplesOrdered(k, n - 1, step);
  }

  /** Nearest: within half a step, and exact halves go away from zero. */
  lemma NearestIsClose(value: real, step: real)
    requires step > 0.0
    ensures var r := RoundStep(value, step, Nearest);
            && 2.0 * r - step <= 2.0 * value <= 2.0 * r + step
            && (value / step >= 0.0 ==> 2.0 * value < 2.0 * r + step)
            && (value / step < 0.0 ==> 2.0 * r - step < 2.0 * value)
  {
    var n := Steps(value, step, Nearest);
    assert 2.0 * value / step == 2.0 * (value / step);
    if value / step >= 0.0 {
      QuotientAtLeast(2 * n - 1, 2.0 * value, step);
      QuotientBelow(2 * n + 1, 2.0 * value, step);
    } else {
      QuotientAbove(2 * n - 1, 2.0 * value, step);
      QuotientAtMost(2 * n + 1, 2.0 * value, step);
    }
    HalfSteps(n, step);
  }

  lemma HalfSteps(n: int, step: real)
    ensures Multiple(2 * n - 1, step) == 2.0 * Multiple(n, step) - step
    ensures Multiple(2 * n + 1, step) == 2.0 * Multiple(n, step) + step
  {
  }

  /** Rounding a multiple of the step, in any mode, changes nothing. */
  lemma MultiplesAreFixed(k: int, step: real, mode: Mode)
    requires step > 0.0
    ensures RoundStep(Multiple(k, step), step, mode) == Multiple(k, step)
  {
    assert Multiple(k, step) / step == k as real;
  }

  // ---------- steps as decimals, and printing ----------

  function Size(d: Dec): real {
    if d.exp >= 0 then (d.coeff * Pow10(d.exp)) as real else d.coeff as real / Pow10(-d.exp) as real
  }

  /** Without trailing zeros in the coefficient. */
  function Normal(d: Dec): (n: Dec)
    requires d.coeff > 0
    ensures n.coeff > 0 && n.coeff % 10 != 0
    decreases d.coeff
  {
    if d.coeff % 10 == 0 then Normal(Dec(d.coeff / 10, d.exp + 1)) else d
  }

  function Places(step: Dec): nat
    requires step.coeff > 0
  {
    var e := Normal(step).exp;
    if e < 0 then -e else 0
  }

  // Half-even, as numbers are printed.
  function NearestEven(x: real): int {
    var n := x.Floor;
    if x - n as real > 0.5 || (x - n as real == 0.5 && n % 2 != 0) then n + 1 else n
  }

  function Padded(s: string, width: nat): (r: string)
    requires AllDigits(s)
    ensures AllDigits(r) && |r| == if |s| < width then width else |s|
    decreases width - |s|
  {
    if |s| >= width then s else Padded("0" + s, width)
  }

  function Over(n: nat, unit: nat): nat
    requires unit >= 1
  {
    n / unit
  }

  function Rest(n: nat, unit: nat): (r: nat)
    requires unit >= 1
    ensures r < unit
  {
    n % unit
  }

  /** n hundredths, thousandths, ...: digits with a point before the last `places` of them. */
  function PrintNatural(n: nat, places: nat): string {
    if places == 0 then Digits(n)
    else Digits(Over(n, Pow10(places))) + "." + Padded(Digits(Rest(n, Pow10(places))), places)
  }

  function Print(n: int, places: nat): string {
    if n < 0 then "-" + PrintNatural(-n, places) else PrintNatural(n, places)
  }

  function Scaled(value: real, places: nat): real {
    value * Pow10(places) as real
  }

  function FormatStep(value: real, step: Dec): string
    requires step.coeff > 0
  {
    Print(NearestEven(Scaled(value, Places(step))), Places(step))
  }

  function Read(s: string): Option<real> {
    var negative := s != "" && s[0] == '-';
    match ParseAmount(if negative then s[1..] else s)
    case None => None
    case Some(d) => Some(if negative then -Size(d) else Size(d))
  }

  lemma {:induction false} PaddedValue(s: string, width: nat)
    requires AllDigits(s)
    ensures Value(Padded(s, width)) == Value(s)
    decreases width - |s|
  {
    if |s| < width {
      PaddedValue("0" + s, width);
      ValueConcat("0", s);
      assert "0"[..0] == "" && Value("0") == 0;
    }
  }

  lemma {:induction false} DigitsWidth(n: nat, width: nat)
    requires width >= 1 && n < Pow10(width)
    ensures |Digits(n)| <= width
  {
    if n >= 10 {
      assert Pow10(1) == 10;
      DigitsWidth(n / 10, width - 1);
    }
  }

  lemma {:induction false} DotAfterDigits(a: string, rest: string)
    requires AllDigits(a) && (rest == "" || rest[0] == '.')
    ensures Dot(a + rest) == |a|
  {
    if a == "" {
      assert a + rest == rest;
    } else {
      assert (a + rest)[1..] == a[1..] + rest;
      DotAfterDigits(a[1..], rest);
    }
  }

  lemma OverAndRest(n: nat, unit: nat)
    requires unit >= 1
    ensures Over(n, unit) * unit + Rest(n, unit) == n
  {
  }

  lemma {:induction false} JoinedReads(whole: string, part: string)
    requires AllDigits(whole) && AllDigits(part) && whole != "" && part != ""
    ensures ParseAmount(whole + "." + part) == Some(Dec(Value(whole + part), -|part|))
  {
    var s := whole + "." + part;
    assert s == whole + ("." + part);
    DotAfterDigits(whole, "." + part);
    assert s[..|whole|] == whole && s[|whole| + 1..] == part;
  }

  lemma {:induction false} WholeReads(whole: string)
    requires AllDigits(whole) && whole != ""
    ensures ParseAmount(whole) == Some(Dec(Value(whole), 0))
  {
    assert whole + "" == whole && whole[..|whole|] == whole;
    DotAfterDigits(whole, "");
  }

  lemma {:induction false} SplitValue(n: nat, places: nat)
    requires places >= 1
    ensures var unit := Pow10(places);
            var part := Padded(Digits(Rest(n, unit)), places);
            |part| == places && Value(Digits(Over(n, unit)) + part) == n
  {
    var unit := Pow10(places);
    var part := Padded(Digits(Rest(n, unit)), places);
    DigitsWidth(Rest(n, unit), places);
    ValueConcat(Digits(Over(n, unit)), part);
    PaddedValue(Digits(Rest(n, unit)), places);
    DigitsRoundTrip(Over(n, unit));
    DigitsRoundTrip(Rest(n, unit));
    OverAndRest(n, unit);
  }

  /** A natural number of hundredths (or any decimal part) is printed so that it reads back as that many. */
  lemma NaturalReadsBack(n: nat, places: nat)
    ensures ParseAmount(PrintNatural(n, places)) == Some(Dec(n, -(places as int)))
  {
    if places == 0 {
      DigitsRoundTrip(n);
      WholeReads(Digits(n));
    } else {
      SplitValue(n, places);
      JoinedReads(Digits(Over(n, Pow10(places))), Padded(Digits(Rest(n, Pow10(places))), places));
    }
  }

  lemma FirstIsDigit(n: nat, places: nat)
    ensures PrintNatural(n, places) != "" && PrintNatural(n, places)[0] != '-'
  {
  }

  function Fraction(n: int, places: nat): real {
    n as real / Pow10(places) as real
  }

  lemma SizeOfPlaces(n: int, places: nat)
    requires n >= 0
    ensures Size(Dec(n, -(places as int))) == Fraction(n, places)
    ensures -Size(Dec(n, -(places as int))) == Fraction(-n, places)
  {
    assert Pow10(0) == 1;
    NegatedFraction(n, Pow10(places));
  }

  lemma NegatedFraction(n: int, unit: nat)
    requires unit > 0
    ensures (-n) as real / unit as real == -(n as real / unit as real)
  {
    assert (-n) as real == -(n as real);
  }

  lemma TextReads(s: string, d: Dec)
    requires s != "" && s[0] != '-' && ParseAmount(s) == Some(d)
    ensures Read(s) == Some(Size(d)) && Read("-" + s) == Some(-Size(d))
  {
    assert ("-" + s)[1..] == s;
  }

  lemma FractionReads(s: string, n: int, places: nat)
    requires n >= 0 && s != "" && s[0] != '-' && ParseAmount(s) == Some(Dec(n, -(places as int)))
    ensures Read(s) == Some(Fraction(n, places)) && Read("-" + s) == Some(Fraction(-n, places))
  {
    TextReads(s, Dec(n, -(places as int)));
    SizeOfPlaces(n, places);
  }

  lemma PrintedNaturalReads(n: int, places: nat)
    requires n >= 0
    ensures Read(PrintNatural(n, places)) == Some(Fraction(n, places))
    ensures Read("-" + PrintNatural(n, places)) == Some(Fraction(-n, places))
  {
    NaturalReadsBack(n, places);
    FirstIsDigit(n, places);
    FractionReads(PrintNatural(n, places), n, places);
  }

  lemma PrintedReadsBack(n: int, places: nat)
    ensures Read(Print(n, places)) == Some(Fraction(n, places))
  {
    PrintedNaturalReads(if n < 0 then -n else n, places);
  }

  lemma TenTimesUnit(c: nat, e: int)
    ensures c > 0 ==> Size(Dec(10 * c, e)) == Size(Dec(c, e + 1))
  {
    if e >= 0 {
      TenTimes(c, Pow10(e));
    } else {
      assert Pow10(-e) == 10 * Pow10(-e - 1);
      TenthQuotient(c as real, Pow10(-e - 1) as real);
    }
  }

  lemma TenthQuotient(a: real, b: real)
    requires b > 0.0
    ensures (10.0 * a) / (10.0 * b) == a / b
  {
  }

  lemma {:induction false} NormalKeepsSize(d: Dec)
    requires d.coeff > 0
    ensures Size(Normal(d)) == Size(d)
    decreases d.coeff
  {
    if d.coeff % 10 == 0 {
      NormalKeepsSize(Dec(d.coeff / 10, d.exp + 1));
      TenTimesUnit(d.coeff / 10, d.exp);
      assert d.coeff == 10 * (d.coeff / 10);
    }
  }

  // How many units of the last printed place one step is.
  function StepUnits(step: Dec): nat
    requires step.coeff > 0
  {
    var n := Normal(step);
    if n.exp < 0 then n.coeff else n.coeff * Pow10(n.exp)
  }

  lemma StepIsUnits(step: Dec)
    requires step.coeff > 0
    ensures Size(step) == Fraction(StepUnits(step), Places(step))
  {
    NormalKeepsSize(step);
    assert Pow10(0) == 1;
  }

  lemma MultipleInUnits(k: int, units: nat, places: nat, value: real)
    requires value == Multiple(k, Fraction(units, places))
    ensures Scaled(value, places) == (k * units) as real && value == Fraction(k * units, places)
  {
    var unit := Pow10(places) as real;
    var q := Fraction(units, places);
    assert q * unit == units as real;
    assert value == k as real * q;
    Regrouped(k as real, q, unit);
    assert (k * units) as real == k as real * units as real;
    Back(value, unit);
  }

  lemma Regrouped(a: real, q: real, unit: real)
    ensures (a * q) * unit == a * (q * unit)
  {
  }

  lemma Back(value: real, unit: real)
    requires unit > 0.0
    ensures value * unit / unit == value
  {
  }

  lemma WholeIsNearest(x: real, n: int)
    requires x == n as real
    ensures NearestEven(x) == n
  {
  }

  lemma PrintsAs(value: real, n: int, step: Dec)
    requires step.coeff > 0 && Scaled(value, Places(step)) == n as real
    ensures FormatStep(value, step) == Print(n, Places(step))
  {
    WholeIsNearest(Scaled(value, Places(step)), n);
  }

  lemma MultipleIsPrinted(k: int, step: Dec, value: real)
    requires step.coeff > 0 && value == Multiple(k, Size(step))
    ensures FormatStep(value, step) == Print(k * StepUnits(step), Places(step))
    ensures value == Fraction(k * StepUnits(step), Places(step))
  {
    StepIsUnits(step);
    MultipleInUnits(k, StepUnits(step), Places(step), value);
    PrintsAs(value, k * StepUnits(step), step);
  }

  /** Whatever the step, a multiple of it is printed so that it reads back as exactly that number. */
  lemma FormattedReadsBack(k: int, step: Dec)
    requires step.coeff > 0
    ensures Read(FormatStep(Multiple(k, Size(step)), step)) == Some(Multiple(k, Size(step)))
  {
    MultipleIsPrinted(k, step, Multiple(k, Size(step)));
    PrintedReadsBack(k * StepUnits(step), Places(step));
  }
}
