/** Non-negative decimals as a coefficient and an exponent, with arithmetic that rounds half-even to a number
    of digits, or not at all. */
module ExactDecimal {
  import opened Results
  import opened DecimalText

  /** The number coeff * 10^exp. */
  datatype Dec = Dec(coeff: nat, exp: int)

  const ZERO := Dec(0, 0)

  function Pow10(n: nat): (p: nat)
    ensures p >= 1
  {
    if n == 0 then 1 else 10 * Pow10(n - 1)
  }

  lemma {:induction false} PowAdd(m: nat, n: nat)
    ensures Pow10(m + n) == Pow10(m) * Pow10(n)
  {
    if m > 0 {
      PowAdd(m - 1, n);
      assert Pow10(m) * Pow10(n) == 10 * (Pow10(m - 1) * Pow10(n));
    }
  }

  lemma {:induction false} PowGrows(m: nat, n: nat)
    requires m <= n
    ensures Pow10(m) <= Pow10(n)
  {
    if m < n {
      PowGrows(m, n - 1);
    }
  }

  /** Digits to keep, or no limit. */
  type Precision = Option<nat>

  function Excess(coeff: nat, digits: nat): nat
    decreases coeff
  {
    if coeff < Pow10(digits) then 0 else 1 + Excess(coeff / 10, digits)
  }

  // Half-even: the kept part, one more if the dropped part is over a half, or a half and the kept part is odd.
  function HalfEven(coeff: nat, unit: nat): nat
    requires unit >= 1
  {
    var kept, dropped := coeff / unit, coeff % unit;
    if 2 * dropped > unit || (2 * dropped == unit && kept % 2 == 1) then kept + 1 else kept
  }

  /** Rounding is to the nearest multiple of the unit, and of two equally near ones to the even one. */
  lemma HalfEvenIsNearest(coeff: nat, unit: nat)
    requires unit >= 1
    ensures var r := HalfEven(coeff, unit);
            && -(unit as int) <= 2 * (coeff - r * unit) <= unit
            && (2 * (coeff - r * unit) == unit || 2 * (coeff - r * unit) == -(unit as int) ==> r % 2 == 0)
  {
    var kept, dropped := coeff / unit, coeff % unit;
    assert coeff == kept * unit + dropped;
    assert (kept + 1) * unit == kept * unit + unit;
  }

  function Fit(p: Precision, d: Dec): Dec {
    match p
    case None => d
    case Some(digits) =>
      if d.coeff < Pow10(digits) then d
      else
        var k := Excess(d.coeff, digits);
        var kept := HalfEven(d.coeff, Pow10(k));
        if kept < Pow10(digits) then Dec(kept, d.exp + k) else Dec(kept / 10, d.exp + k + 1)
  }

  function Lower(a: int, b: int): int { if a <= b then a else b }

  function Align(d: Dec, exp: int): nat
    requires exp <= d.exp
  {
    d.coeff * Pow10(d.exp - exp)
  }

  function Add(p: Precision, a: Dec, b: Dec): Dec {
    var e := Lower(a.exp, b.exp);
    Fit(p, Dec(Align(a, e) + Align(b, e), e))
  }

  /** The difference when it is positive. */
  function Subtract(p: Precision, a: Dec, b: Dec): Option<Dec> {
    var e := Lower(a.exp, b.exp);
    if Align(a, e) <= Align(b, e) then None else Some(Fit(p, Dec(Align(a, e) - Align(b, e), e)))
  }

  function Multiply(p: Precision, a: Dec, b: Dec): Dec {
    Fit(p, Dec(a.coeff * b.coeff, a.exp + b.exp))
  }

  /** Comparison is exact at any precision. */
  predicate Same(a: Dec, b: Dec) {
    var e := Lower(a.exp, b.exp);
    Align(a, e) == Align(b, e)
  }

  predicate AtMost(a: Dec, b: Dec) {
    var e := Lower(a.exp, b.exp);
    Align(a, e) <= Align(b, e)
  }

  // ---------- integer units at a scale ----------

  function Units(d: Dec, scale: nat): nat
    requires d.exp + scale >= 0
  {
    d.coeff * Pow10(d.exp + scale)
  }

  lemma AlignUnits(d: Dec, e: int, scale: nat)
    requires e <= d.exp && e + scale >= 0
    ensures Units(Dec(Align(d, e), e), scale) == Units(d, scale)
  {
    PowAdd(d.exp - e, e + scale);
    Associate(d.coeff, Pow10(d.exp - e), Pow10(e + scale));
  }

  lemma Associate(a: nat, x: nat, y: nat)
    ensures (a * x) * y == a * (x * y)
  {
  }

  lemma CoeffWithinUnits(d: Dec, scale: nat)
    requires d.exp + scale >= 0
    ensures d.coeff <= Units(d, scale)
  {
  }

  lemma Distribute(x: nat, y: nat, k: nat)
    ensures (x + y) * k == x * k + y * k
    ensures x >= y ==> (x - y) * k == x * k - y * k
    ensures k >= 1 ==> (x <= y <==> x * k <= y * k)
  {
    if x <= y {
      assert (y - x) * k >= 0;
    } else if k >= 1 {
      assert (x - y) * k >= 1;
    }
  }

  lemma ExactSum(a: Dec, b: Dec, scale: nat)
    requires a.exp + scale >= 0 && b.exp + scale >= 0
    ensures Add(None, a, b).exp + scale >= 0 && Units(Add(None, a, b), scale) == Units(a, scale) + Units(b, scale)
  {
    var e := Lower(a.exp, b.exp);
    AlignUnits(a, e, scale);
    AlignUnits(b, e, scale);
    Distribute(Align(a, e), Align(b, e), Pow10(e + scale));
  }

  lemma ExactDifference(a: Dec, b: Dec, scale: nat)
    requires a.exp + scale >= 0 && b.exp + scale >= 0
    ensures Subtract(None, a, b).Some? <==> Units(b, scale) < Units(a, scale)
    ensures Subtract(None, a, b).Some? ==>
              var d := Subtract(None, a, b).value;
                  d.exp + scale >= 0 && Units(d, scale) == Units(a, scale) - Units(b, scale)
  {
    var e := Lower(a.exp, b.exp);
    AlignUnits(a, e, scale);
    AlignUnits(b, e, scale);
    Distribute(Align(a, e), Align(b, e), Pow10(e + scale));
  }

  lemma ExactComparison(a: Dec, b: Dec, scale: nat)
    requires a.exp + scale >= 0 && b.exp + scale >= 0
    ensures Same(a, b) <==> Units(a, scale) == Units(b, scale)
    ensures AtMost(a, b) <==> Units(a, scale) <= Units(b, scale)
  {
    var e := Lower(a.exp, b.exp);
    AlignUnits(a, e, scale);
    AlignUnits(b, e, scale);
    Distribute(Align(a, e), Align(b, e), Pow10(e + scale));
    Distribute(Align(b, e), Align(a, e), Pow10(e + scale));
  }

  lemma ExactProduct(a: Dec, b: Dec, scale: nat)
    requires a.exp + scale >= 0 && b.exp + scale >= 0
    ensures Multiply(None, a, b).exp + 2 * scale >= 0
    ensures Units(Multiply(None, a, b), 2 * scale) == Units(a, scale) * Units(b, scale)
  {
    PowAdd(a.exp + scale, b.exp + scale);
    Regroup(a.coeff, Pow10(a.exp + scale), b.coeff, Pow10(b.exp + scale));
  }

  lemma Regroup(a: nat, x: nat, b: nat, y: nat)
    ensures (a * b) * (x * y) == (a * x) * (b * y)
  {
    calc {
      (a * b) * (x * y);
      a * (b * (x * y));
      a * (x * (b * y));
      (a * x) * (b * y);
    }
  }

  // ---------- amounts as text ----------

  function Dot(s: string): (i: nat)
    ensures i <= |s| && (i < |s| ==> s[i] == '.') && forall k | 0 <= k < i :: s[k] != '.'
  {
    if s == "" || s[0] == '.' then 0 else 1 + Dot(s[1..])
  }

  /** Digits, optionally followed by a point and more digits. */
  function ParseAmount(s: string): Option<Dec> {
    var i := Dot(s);
    var whole, part := s[..i], if i < |s| then s[i + 1..] else "";
    if whole == "" || !AllDigits(whole) || !AllDigits(part) || (i < |s| && part == "") then None
    else Some(Dec(Value(whole + part), -|part|))
  }

  lemma {:induction false} ValueConcat(a: string, b: string)
    requires AllDigits(a) && AllDigits(b)
    ensures Value(a + b) == Value(a) * Pow10(|b|) + Value(b)
  {
    if b == "" {
      assert a + b == a;
    } else {
      var rest := b[..|b| - 1];
      assert (a + b)[..|a + b| - 1] == a + rest;
      ValueConcat(a, rest);
      ShiftedSum(Value(a), Pow10(|rest|), Value(rest), DigitValue(b[|b| - 1]));
    }
  }

  lemma ShiftedSum(x: nat, y: nat, v: nat, d: nat)
    ensures 10 * (x * y + v) + d == x * (10 * y) + (10 * v + d)
  {
    TenTimes(x, y);
  }

  lemma TenTimes(x: nat, y: nat)
    ensures 10 * (x * y) == x * (10 * y)
  {
  }

  lemma {:induction false} ValueBelow(s: string)
    requires AllDigits(s)
    ensures Value(s) < Pow10(|s|)
  {
    if s != "" {
      ValueBelow(s[..|s| - 1]);
    }
  }

  lemma {:induction false} AmountBounds(s: string, width: nat)
    requires ParseAmount(s).Some? && |s| <= width && width >= 2
    ensures var d := ParseAmount(s).value; d.coeff < Pow10(width) && 2 - width <= d.exp <= 0
  {
    var i := Dot(s);
    var whole, part := s[..i], if i < |s| then s[i + 1..] else "";
    ValueBelow(whole + part);
    PowGrows(|whole + part|, width);
  }
}
