/** Why 512 digits are enough: no product needs more than 256 digits and no running sum more than 258, so a
    settlement never rounds and does not depend on the order of its fills. */
module SettlementExactness {
  import opened Results
  import opened DecimalText
  import opened ExactDecimal
  import opened BuySettlement
  import opened OrderJournal

  // Amounts have at most this many digits after the point.
  const SCALE := 126
  const UNIT_DIGITS := MAX_LENGTH + SCALE
  const PRODUCT_DIGITS := MAX_LENGTH + MAX_LENGTH
  const SUM_DIGITS := UNIT_DIGITS + 4

  predicate Enough(p: Precision) { p == None || p.value >= SUM_DIGITS }

  lemma {:induction false} FitsExactly(p: Precision, d: Dec, digits: nat)
    requires d.coeff < Pow10(digits) && (p == None || digits <= p.value)
    ensures Fit(p, d) == d
  {
    if p.Some? {
      PowGrows(digits, p.value);
    }
  }

  /** An amount: at most 128 digits, at most 126 of them after the point. */
  predicate Bounded(d: Dec) { d.coeff < Pow10(MAX_LENGTH) && -SCALE <= d.exp <= 0 }

  lemma AmountIsBounded(s: string, positive: bool)
    requires Amount(s, positive).Some?
    ensures Bounded(Amount(s, positive).value)
  {
    AmountBounds(s, MAX_LENGTH);
  }

  lemma Times(a: nat, b: nat, x: nat, y: nat)
    requires a < x && b < y
    ensures a * b < x * y
  {
    assert a * b <= a * (y - 1) <= (x - 1) * (y - 1);
  }

  lemma TimesAtMost(a: nat, b: nat, x: nat, y: nat)
    requires a <= x && b <= y
    ensures a * b <= x * y
  {
  }

  lemma ProductBelow(a: nat, b: nat, m: nat, n: nat)
    requires a < Pow10(m) && b < Pow10(n)
    ensures a * b < Pow10(m + n)
  {
    PowAdd(m, n);
    Times(a, b, Pow10(m), Pow10(n));
  }

  /** The product of two amounts has at most 256 digits. */
  lemma ProductFits(a: Dec, b: Dec, p: Precision)
    requires Bounded(a) && Bounded(b) && Enough(p)
    ensures a.coeff * b.coeff < Pow10(PRODUCT_DIGITS) && Multiply(p, a, b) == Multiply(None, a, b)
  {
    ProductBelow(a.coeff, b.coeff, MAX_LENGTH, MAX_LENGTH);
    ProductNotRounded(a, b, p, PRODUCT_DIGITS);
  }

  lemma {:induction false} ProductNotRounded(a: Dec, b: Dec, p: Precision, digits: nat)
    requires a.coeff * b.coeff < Pow10(digits) && (p == None || digits <= p.value)
    ensures Multiply(p, a, b) == Multiply(None, a, b)
  {
    FitsExactly(p, Dec(a.coeff * b.coeff, a.exp + b.exp), digits);
  }

  // In units of 10^-126 an amount stays below 10^254.
  lemma AmountUnits(d: Dec)
    requires Bounded(d)
    ensures Units(d, SCALE) <= Pow10(UNIT_DIGITS) - 1
  {
    ShiftedBelow(d.coeff, d.exp + SCALE, MAX_LENGTH, SCALE);
  }

  lemma ShiftedBelow(a: nat, shift: nat, digits: nat, most: nat)
    requires a < Pow10(digits) && shift <= most
    ensures a * Pow10(shift) <= Pow10(digits + most) - 1
  {
    PowGrows(shift, most);
    PowAdd(digits, most);
    TimesAtMost(a, Pow10(shift), Pow10(digits) - 1, Pow10(most));
    TimesStrict(Pow10(digits), Pow10(most));
  }

  lemma TimesStrict(x: nat, y: nat)
    requires x >= 1 && y >= 1
    ensures (x - 1) * y <= x * y - 1
  {
    assert (x - 1) * y == x * y - y;
  }

  /** A value of at most n amounts' worth. */
  predicate Small(d: Dec, n: nat) {
    d.exp >= -SCALE && Units(d, SCALE) <= n * (Pow10(UNIT_DIGITS) - 1)
  }

  lemma SmallFits(d: Dec, n: nat, p: Precision)
    requires Small(d, n) && n <= MAX_FILLS && Enough(p)
    ensures d.coeff < Pow10(SUM_DIGITS) && Fit(p, d) == d
  {
    CoeffWithinUnits(d, SCALE);
    PowAdd(4, UNIT_DIGITS);
    assert Pow10(4) == 10000;
    TimesAtMost(n, Pow10(UNIT_DIGITS) - 1, Pow10(4), Pow10(UNIT_DIGITS) - 1);
    assert Pow10(4) * (Pow10(UNIT_DIGITS) - 1) == Pow10(4) * Pow10(UNIT_DIGITS) - Pow10(4);
    FitsExactly(p, d, SUM_DIGITS);
  }

  lemma SumFits(a: Dec, b: Dec, n: nat, p: Precision)
    requires Small(a, n) && Small(b, 1) && n < MAX_FILLS && Enough(p)
    ensures Small(Add(None, a, b), n + 1) && Add(p, a, b) == Add(None, a, b)
  {
    ExactSum(a, b, SCALE);
    Distribute(n, 1, Pow10(UNIT_DIGITS) - 1);
    SmallFits(Add(None, a, b), n + 1, p);
  }

  lemma DifferenceFits(a: Dec, b: Dec, p: Precision)
    requires Bounded(a) && Bounded(b) && Enough(p)
    ensures Subtract(p, a, b) == Subtract(None, a, b)
    ensures Subtract(None, a, b).Some? ==> Small(Subtract(None, a, b).value, 1)
  {
    AmountUnits(a);
    ExactDifference(a, b, SCALE);
    if Subtract(None, a, b).Some? {
      SmallFits(Subtract(None, a, b).value, 1, p);
    }
  }

  predicate SmallPart(part: Part) { Small(part.gross, 1) && Small(part.net, 1) && Small(part.quote, 1) }

  lemma PartFromFits(p: Precision, qty: Dec, price: Dec, quote: Dec, commission: Dec, inBase: bool)
    requires Enough(p) && Bounded(qty) && Bounded(price) && Bounded(quote) && Bounded(commission)
    ensures PartFrom(p, qty, price, quote, commission, inBase) == PartFrom(None, qty, price, quote, commission, inBase)
    ensures var part := PartFrom(None, qty, price, quote, commission, inBase); part.Some? ==> SmallPart(part.value)
  {
    AmountUnits(qty);
    AmountUnits(quote);
    ProductFits(qty, price, p);
    DifferenceFits(qty, commission, p);
  }

  lemma PartFits(p: Precision, f: FillRow, symbol: string, orderId: int, base: string, quoteAsset: string)
    requires Enough(p)
    ensures PartOf(p, f, symbol, orderId, base, quoteAsset) == PartOf(None, f, symbol, orderId, base, quoteAsset)
    ensures PartOf(None, f, symbol, orderId, base, quoteAsset).Some?
            ==> SmallPart(PartOf(None, f, symbol, orderId, base, quoteAsset).value)
  {
    var q, r, n, c := Amount(f.qty, true), Amount(f.price, true), Amount(f.quote, true), Amount(f.commission, false);
    if q.Some? && r.Some? && n.Some? && c.Some? {
      AmountIsBounded(f.qty, true);
      AmountIsBounded(f.price, true);
      AmountIsBounded(f.quote, true);
      AmountIsBounded(f.commission, false);
      PartFromFits(p, q.value, r.value, n.value, c.value, f.asset == base);
    }
  }

  predicate SmallSums(s: Settlement, n: nat) { Small(s.gross, n) && Small(s.net, n) && Small(s.quote, n) }

  /** With at least 258 digits the running sums are those of unlimited precision. */
  lemma {:induction false} SumsFit(p: Precision, fills: seq<FillRow>, symbol: string, orderId: int, base: string,
                                   quoteAsset: string)
    requires Enough(p) && |fills| <= MAX_FILLS
    ensures Sums(p, fills, symbol, orderId, base, quoteAsset) == Sums(None, fills, symbol, orderId, base, quoteAsset)
    ensures var s := Sums(None, fills, symbol, orderId, base, quoteAsset); s.Some? ==> SmallSums(s.value, |fills|)
  {
    if fills != [] {
      var f, rest := fills[|fills| - 1], fills[..|fills| - 1];
      SumsFit(p, rest, symbol, orderId, base, quoteAsset);
      PartFits(p, f, symbol, orderId, base, quoteAsset);
      var s, part := Sums(None, rest, symbol, orderId, base, quoteAsset),
          PartOf(None, f, symbol, orderId, base, quoteAsset);
      if s.Some? && part.Some? {
        SumFits(s.value.gross, part.value.gross, |rest|, p);
        SumFits(s.value.net, part.value.net, |rest|, p);
        SumFits(s.value.quote, part.value.quote, |rest|, p);
      }
    }
  }

  /** A settlement in 512 digits is the settlement in unlimited precision; 258 digits would do. */
  lemma SettlementNeverRounds(p: Precision, order: Report, fills: seq<FillRow>, symbol: string, orderId: int,
                              base: string,
                              quoteAsset: string)
    requires Enough(p)
    ensures Settled(p, order, fills, symbol, orderId, base, quoteAsset)
            == Settled(None, order, fills, symbol, orderId, base, quoteAsset)
    ensures Enough(Some(DIGITS))
  {
    if |fills| <= MAX_FILLS {
      SumsFit(p, fills, symbol, orderId, base, quoteAsset);
    }
  }

  lemma Power28()
    ensures Pow10(28) == 10_000_000_000_000_000_000_000_000_000
  {
    assert Pow10(14) == 100_000_000_000_000;
    PowAdd(14, 14);
  }

  const LEFT := 99_999_999_999_999_999_999_999_999_995

  lemma LeftNeedsOneDigitLess()
    ensures Excess(LEFT, 28) == 1 && Pow10(1) == 10 && HalfEven(LEFT, 10) == Pow10(28) && LEFT >= Pow10(28)
  {
    Power28();
    assert Excess(LEFT, 28) == 1 + Excess(LEFT / 10, 28);
  }

  /** In the usual 28 digits a commission can disappear: what is left of 10^28 after a commission of one half
      rounds back to 10^28. */
  lemma DefaultPrecisionLosesCommission()
    ensures var qty, commission := Dec(Pow10(28), 0), Dec(5, -1);
            var net := Subtract(Some(28), qty, commission);
            net.Some? && Same(net.value, qty) && !Same(Subtract(None, qty, commission).value, qty)
  {
    Power28();
    LeftNeedsOneDigitLess();
    assert Align(Dec(Pow10(28), 0), -1) - Align(Dec(5, -1), -1) == LEFT;
    assert Fit(Some(28), Dec(LEFT, -1)) == Dec(Pow10(28) / 10, 1);
  }

  // ---------- amounts as whole units ----------

  function Shifted(n: nat, places: nat): nat { n * Pow10(places) }

  /** The number whole.part in units of 10^-scale. */
  function Fixed(whole: string, part: string, scale: nat): nat
    requires AllDigits(whole) && AllDigits(part) && |part| <= scale
  {
    Shifted(Shifted(Value(whole), |part|) + Value(part), scale - |part|)
  }

  // What stands before and after the point.
  function WholeText(s: string): string { s[..Dot(s)] }

  function PartText(s: string): string { if Dot(s) < |s| then s[Dot(s) + 1..] else "" }

  /** At most 128 characters: digits, and if there is a point, digits after it. */
  predicate PlainAmount(s: string) {
    && |s| <= 128 && WholeText(s) != "" && AllDigits(WholeText(s)) && AllDigits(PartText(s))
    && (Dot(s) < |s| ==> PartText(s) != "")
  }

  /** The number an amount text names, in such units. */
  function UnitsOf(s: string, scale: nat := SCALE): Option<nat>
    requires scale >= SCALE
  {
    if PlainAmount(s) then Some(Fixed(WholeText(s), PartText(s), scale)) else None
  }

  lemma {:induction false} FixedIs(whole: string, part: string, scale: nat)
    requires AllDigits(whole) && AllDigits(part) && |part| <= scale
    ensures AllDigits(whole + part) && Units(Dec(Value(whole + part), -|part|), scale) == Fixed(whole, part, scale)
    ensures Value(whole + part) > 0 <==> Fixed(whole, part, scale) > 0
  {
    ValueConcat(whole, part);
    Positive(Value(whole + part), Pow10(scale - |part|));
  }

  lemma PlainIsParsed(s: string)
    ensures Amount(s, false).Some? <==> PlainAmount(s)
    ensures PlainAmount(s) ==>
              Amount(s, false) == Some(Dec(Value(WholeText(s) + PartText(s)), -|PartText(s)|)) && |PartText(s)| <= SCALE
  {
  }

  lemma AmountReads(s: string, positive: bool)
    ensures Amount(s, positive).Some? <==> UnitsOf(s).Some? && (positive ==> UnitsOf(s).value > 0)
    ensures Amount(s, positive).Some? ==>
              && Bounded(Amount(s, positive).value) && Units(Amount(s, positive).value, SCALE) == UnitsOf(s).value
              && Units(Amount(s, positive).value, 2 * SCALE) == UnitsOf(s, 2 * SCALE).value
  {
    PlainIsParsed(s);
    if PlainAmount(s) {
      AmountIsBounded(s, false);
      FixedIs(WholeText(s), PartText(s), SCALE);
      FixedIs(WholeText(s), PartText(s), 2 * SCALE);
    }
  }

  lemma QuoteByUnits(p: Precision, a: Dec, b: Dec, quote: Dec)
    requires Enough(p) && Bounded(a) && Bounded(b) && Bounded(quote)
    ensures Same(quote, Multiply(p, a, b)) <==> Units(a, SCALE) * Units(b, SCALE) == Units(quote, 2 * SCALE)
    ensures Same(Multiply(p, a, b), quote) <==> Same(quote, Multiply(p, a, b))
  {
    ProductFits(a, b, p);
    ExactProduct(a, b, SCALE);
    ExactComparison(quote, Multiply(None, a, b), 2 * SCALE);
    ExactComparison(Multiply(None, a, b), quote, 2 * SCALE);
  }

  /** Quantity times price is the quote, all three read from their texts. */
  predicate Priced(quantity: string, price: string, quote: string) {
    && UnitsOf(quantity).Some? && UnitsOf(price).Some? && UnitsOf(quote, 2 * SCALE).Some?
    && UnitsOf(quantity).value * UnitsOf(price).value == UnitsOf(quote, 2 * SCALE).value
  }

  // ---------- what a settlement adds up to ----------

  datatype Market = Market(symbol: string, orderId: int, base: string, quoteAsset: string)

  /** Gross quantity, net quantity and quote of one fill, in units of 10^-126. */
  datatype Worth = Worth(gross: int, net: int, quote: int)

  function Plus(a: Worth, b: Worth): Worth { Worth(a.gross + b.gross, a.net + b.net, a.quote + b.quote) }

  predicate CommissionAsset(asset: string, m: Market) {
    && 1 <= |asset| <= 32 && (forall i | 0 <= i < |asset| :: 'A' <= asset[i] <= 'Z' || '0' <= asset[i] <= '9')
    && (asset == m.base || asset == m.quoteAsset || asset == "BNB")
  }

  // A numbered fill of this BUY, with a commission in an asset that can be accounted for.
  predicate FillOf(f: FillRow, m: Market) {
    f.symbol == m.symbol && f.orderId == m.orderId && f.isBuyer && f.id >= 0 && CommissionAsset(f.asset, m)
  }

  // A fill whose texts are amounts, the last one of any value and the others positive.
  predicate Legible(f: FillRow) {
    && UnitsOf(f.qty).Some? && UnitsOf(f.price).Some? && UnitsOf(f.quote).Some? && UnitsOf(f.commission).Some?
    && UnitsOf(f.qty).value > 0 && UnitsOf(f.price).value > 0 && UnitsOf(f.quote).value > 0
  }

  /** The quantities its texts name. A commission in the base asset is not acquired, one in another asset changes
      nothing. */
  function Named(f: FillRow, base: string): Worth
    requires Legible(f)
  {
    var quantity, commission := UnitsOf(f.qty).value, UnitsOf(f.commission).value;
    Worth(quantity, if f.asset == base then quantity - commission else quantity, UnitsOf(f.quote).value)
  }

  /** What a fill row says, read by itself: a fill of this BUY whose quote is its quantity times its price, and
      of which something is acquired. */
  function Reading(f: FillRow, m: Market): Option<Worth> {
    if !FillOf(f, m) || !Legible(f) then None
    else if Named(f, m.base).net > 0 && Priced(f.qty, f.price, f.quote) then Some(Named(f, m.base)) else None
  }

  function WorthOf(f: FillRow, m: Market): Worth {
    Reading(f, m).GetOr(Worth(0, 0, 0))
  }

  function SumOf(fills: seq<FillRow>, worth: FillRow -> Worth): Worth {
    if fills == [] then Worth(0, 0, 0) else Plus(SumOf(fills[..|fills| - 1], worth), worth(fills[|fills| - 1]))
  }

  function Measuring(m: Market): FillRow -> Worth {
    f => WorthOf(f, m)
  }

  function Totals(fills: seq<FillRow>, m: Market): Worth {
    SumOf(fills, Measuring(m))
  }

  // The parts of a fill in units.
  function PartWorth(part: Part): Worth
    requires SmallPart(part)
  {
    Worth(Units(part.gross, SCALE), Units(part.net, SCALE), Units(part.quote, SCALE))
  }

  lemma PartByUnits(qty: Dec, price: Dec, quote: Dec, commission: Dec, inBase: bool)
    requires Bounded(qty) && Bounded(price) && Bounded(quote) && Bounded(commission) && Units(qty, SCALE) > 0
    ensures var part := PartFrom(None, qty, price, quote, commission, inBase);
            var net := Units(qty, SCALE) - if inBase then Units(commission, SCALE) else 0;
            && (part.Some? <==> net > 0 && Units(qty, SCALE) * Units(price, SCALE) == Units(quote, 2 * SCALE))
            && (part.Some? ==>
                  SmallPart(part.value)
                  && PartWorth(part.value) == Worth(Units(qty, SCALE), net, Units(quote, SCALE)))
  {
    PartFromFits(None, qty, price, quote, commission, inBase);
    QuoteByUnits(None, qty, price, quote);
    ExactDifference(qty, commission, SCALE);
    Positive(commission.coeff, Pow10(commission.exp + SCALE));
  }

  lemma LegibleAmounts(f: FillRow)
    ensures Legible(f) <==> Amount(f.qty, true).Some? && Amount(f.price, true).Some? && Amount(f.quote, true).Some?
                            && Amount(f.commission, false).Some?
  {
    AmountReads(f.qty, true);
    AmountReads(f.price, true);
    AmountReads(f.quote, true);
    AmountReads(f.commission, false);
  }

  // The part that a legible fill of this BUY contributes, if its quote is right and something is left of it.
  predicate PartAsRead(f: FillRow, base: string, part: Option<Part>)
    requires Legible(f)
  {
    && (part.Some? <==> Named(f, base).net > 0 && Priced(f.qty, f.price, f.quote))
    && (part.Some? ==> SmallPart(part.value) && PartWorth(part.value) == Named(f, base))
  }

  lemma PartOfLegible(f: FillRow, base: string) returns (part: Option<Part>)
    requires Legible(f)
    ensures Amount(f.qty, true).Some? && Amount(f.price, true).Some? && Amount(f.quote, true).Some?
            && Amount(f.commission, false).Some?
    ensures part == PartFrom(None, Amount(f.qty, true).value, Amount(f.price, true).value,
                             Amount(f.quote, true).value, Amount(f.commission, false).value, f.asset == base)
    ensures PartAsRead(f, base, part)
  {
    AmountReads(f.qty, true);
    AmountReads(f.price, true);
    AmountReads(f.quote, true);
    AmountReads(f.commission, false);
    part := PartFrom(None, Amount(f.qty, true).value, Amount(f.price, true).value, Amount(f.quote, true).value,
                     Amount(f.commission, false).value, f.asset == base);
    PartByUnits(Amount(f.qty, true).value, Amount(f.price, true).value, Amount(f.quote, true).value,
                Amount(f.commission, false).value, f.asset == base);
  }

  lemma PartNeeds(f: FillRow, m: Market)
    ensures PartOf(None, f, m.symbol, m.orderId, m.base, m.quoteAsset)
            == if FillOf(f, m) && Amount(f.qty, true).Some? && Amount(f.price, true).Some?
                  && Amount(f.quote, true).Some? && Amount(f.commission, false).Some?
               then PartFrom(None, Amount(f.qty, true).value, Amount(f.price, true).value,
                             Amount(f.quote, true).value, Amount(f.commission, false).value, f.asset == m.base)
               else None
  {
    assert FillOf(f, m)
           <==> Identified(f, m.symbol, m.orderId) && AssetName(f.asset) && f.asset in {m.base, m.quoteAsset, "BNB"};
  }

  lemma PartIsRead(f: FillRow, m: Market) returns (part: Option<Part>)
    ensures part == PartOf(None, f, m.symbol, m.orderId, m.base, m.quoteAsset)
    ensures FillOf(f, m) && Legible(f) ==> PartAsRead(f, m.base, part)
    ensures !(FillOf(f, m) && Legible(f)) ==> part == None
  {
    PartNeeds(f, m);
    LegibleAmounts(f);
    part := None;
    if FillOf(f, m) && Legible(f) {
      part := PartOfLegible(f, m.base);
    }
  }

  lemma ReadingIsPart(f: FillRow, m: Market) returns (part: Option<Part>)
    ensures part == PartOf(None, f, m.symbol, m.orderId, m.base, m.quoteAsset)
    ensures part.Some? <==> Reading(f, m).Some?
    ensures part.Some? ==> SmallPart(part.value) && Reading(f, m) == Some(PartWorth(part.value))
  {
    part := PartIsRead(f, m);
  }

  predicate Acceptable(f: FillRow, m: Market) { Reading(f, m).Some? }

  predicate AllAcceptable(fills: seq<FillRow>, m: Market) {
    forall i | 0 <= i < |fills| :: Acceptable(fills[i], m)
  }

  predicate DistinctIds(fills: seq<FillRow>) {
    forall i, j | 0 <= i < j < |fills| :: fills[i].id != fills[j].id
  }

  predicate Measures(s: Settlement, w: Worth, ids: set<int>) {
    && s.gross.exp >= -SCALE && s.net.exp >= -SCALE && s.quote.exp >= -SCALE
    && Units(s.gross, SCALE) == w.gross && Units(s.net, SCALE) == w.net && Units(s.quote, SCALE) == w.quote
    && s.ids == ids
  }

  function Ids(fills: seq<FillRow>): set<int> {
    set f | f in fills :: f.id
  }

  lemma IdsNext(fills: seq<FillRow>)
    requires fills != []
    ensures Ids(fills) == Ids(fills[..|fills| - 1]) + {fills[|fills| - 1].id}
  {
    assert fills == fills[..|fills| - 1] + [fills[|fills| - 1]];
  }

  lemma DistinctNext(fills: seq<FillRow>)
    requires fills != []
    ensures var f, rest := fills[|fills| - 1], fills[..|fills| - 1];
            DistinctIds(fills) <==> DistinctIds(rest) && f.id !in Ids(rest)
  {
    var f, rest := fills[|fills| - 1], fills[..|fills| - 1];
    if f.id in Ids(rest) {
      var g :| g in rest && g.id == f.id;
      var i :| 0 <= i < |rest| && rest[i] == g;
      assert fills[i].id == fills[|fills| - 1].id;
    } else {
      forall i | 0 <= i < |rest| ensures fills[i].id != f.id {
        assert rest[i] in rest;
      }
    }
  }

  lemma OneTaken(s: Settlement, f: FillRow, m: Market, w: Worth)
    requires Measures(s, w, s.ids)
    ensures var r := Taken(None, s, f, m.symbol, m.orderId, m.base, m.quoteAsset);
            && (r.Some? <==> Acceptable(f, m) && f.id !in s.ids)
            && (r.Some? ==> Measures(r.value, Plus(w, WorthOf(f, m)), s.ids + {f.id}))
  {
    var read := ReadingIsPart(f, m);
    if Acceptable(f, m) {
      var part := read.value;
      ExactSum(s.gross, part.gross, SCALE);
      ExactSum(s.net, part.net, SCALE);
      ExactSum(s.quote, part.quote, SCALE);
    }
  }

  lemma AcceptableNext(fills: seq<FillRow>, m: Market)
    requires fills != []
    ensures AllAcceptable(fills, m) <==> AllAcceptable(fills[..|fills| - 1], m) && Acceptable(fills[|fills| - 1], m)
  {
  }

  lemma {:induction false} NextTotals(fills: seq<FillRow>, m: Market)
    requires fills != []
    requires var s, rest := Sums(None, fills[..|fills| - 1], m.symbol, m.orderId, m.base, m.quoteAsset),
             fills[..|fills| - 1];
             s.Some? ==> Measures(s.value, Totals(rest, m), Ids(rest))
    ensures var s, r := Sums(None, fills[..|fills| - 1], m.symbol, m.orderId, m.base, m.quoteAsset),
                        Sums(None, fills, m.symbol, m.orderId, m.base, m.quoteAsset);
            && (r.Some? <==> s.Some? && Acceptable(fills[|fills| - 1], m)
                             && fills[|fills| - 1].id !in Ids(fills[..|fills| - 1]))
            && (r.Some? ==> Measures(r.value, Totals(fills, m), Ids(fills)))
  {
    var s := Sums(None, fills[..|fills| - 1], m.symbol, m.orderId, m.base, m.quoteAsset);
    IdsNext(fills);
    if s.Some? {
      OneTaken(s.value, fills[|fills| - 1], m, Totals(fills[..|fills| - 1], m));
    }
  }

  /** The exact running sums exist exactly when every fill is acceptable and no id repeats, and then they are
      the totals of the fills. */
  lemma {:induction false} SumsAreTotals(fills: seq<FillRow>, m: Market)
    ensures var s := Sums(None, fills, m.symbol, m.orderId, m.base, m.quoteAsset);
            && (s.Some? <==> AllAcceptable(fills, m) && DistinctIds(fills))
            && (s.Some? ==> Measures(s.value, Totals(fills, m), Ids(fills)))
  {
    if fills != [] {
      SumsAreTotals(fills[..|fills| - 1], m);
      NextTotals(fills, m);
      DistinctNext(fills);
      AcceptableNext(fills, m);
    }
  }

  predicate OrderOf(order: Report, m: Market) {
    && m.orderId >= 0 && order.symbol == m.symbol && order.side == Buy && order.orderId == m.orderId
    && order.status in {Filled, Canceled, Expired, ExpiredInMatch}
  }

  /** Something was executed, not more than was ordered, and all of it if the order was filled. */
  predicate Consistent(order: Report) {
    && UnitsOf(order.original).Some? && UnitsOf(order.executed).Some? && UnitsOf(order.quote).Some?
    && 0 < UnitsOf(order.executed).value <= UnitsOf(order.original).value && UnitsOf(order.quote).value > 0
    && (order.status == Filled ==> UnitsOf(order.executed).value == UnitsOf(order.original).value)
  }

  /** Executed quantity and quote of an identified BUY that has ended, in units. */
  function Ended(order: Report, m: Market): Option<(nat, nat)> {
    if OrderOf(order, m) && Consistent(order)
    then Some((UnitsOf(order.executed).value, UnitsOf(order.quote).value)) else None
  }

  lemma ConsistentAmounts(order: Report)
    ensures Consistent(order)
            <==> && Amount(order.original, true).Some? && Amount(order.executed, true).Some?
                 && Amount(order.quote, true).Some?
                 && AtMost(Amount(order.executed, true).value, Amount(order.original, true).value)
                 && (order.status == Filled
                     ==> Same(Amount(order.executed, true).value, Amount(order.original, true).value))
  {
    AmountReads(order.original, true);
    AmountReads(order.executed, true);
    AmountReads(order.quote, true);
    if Amount(order.original, true).Some? && Amount(order.executed, true).Some? {
      ExactComparison(Amount(order.executed, true).value, Amount(order.original, true).value, SCALE);
    }
  }

  lemma ExpectedNeeds(order: Report, m: Market)
    ensures Expected(order, m.symbol, m.orderId)
            == if OrderOf(order, m) && Amount(order.original, true).Some? && Amount(order.executed, true).Some?
                  && Amount(order.quote, true).Some?
                  && AtMost(Amount(order.executed, true).value, Amount(order.original, true).value)
                  && (order.status == Filled
                      ==> Same(Amount(order.executed, true).value, Amount(order.original, true).value))
               then Some((Amount(order.executed, true).value, Amount(order.quote, true).value)) else None
  {
  }

  lemma EndedIsExpected(order: Report, m: Market)
    ensures var e := Expected(order, m.symbol, m.orderId);
            && (e.Some? <==> Ended(order, m).Some?)
            && (e.Some? ==>
                  && Bounded(e.value.0) && Bounded(e.value.1)
                  && Ended(order, m) == Some((Units(e.value.0, SCALE), Units(e.value.1, SCALE))))
  {
    ExpectedNeeds(order, m);
    ConsistentAmounts(order);
    if Consistent(order) {
      AmountReads(order.executed, true);
      AmountReads(order.quote, true);
    }
  }

  /** The fills are the whole of the order, and something of it was acquired. */
  predicate CoversExactly(w: Worth, executed: nat, quote: nat) {
    w.gross == executed && w.quote == quote && 0 < w.net <= w.gross
  }

  lemma CoverageByUnits(s: Settlement, w: Worth, executed: Dec, quote: Dec)
    requires Measures(s, w, s.ids) && Bounded(executed) && Bounded(quote)
    ensures Covers(s, executed, quote) <==> CoversExactly(w, Units(executed, SCALE), Units(quote, SCALE))
  {
    ExactComparison(s.gross, executed, SCALE);
    ExactComparison(s.quote, quote, SCALE);
    ExactComparison(s.net, s.gross, SCALE);
    Positive(s.net.coeff, Pow10(s.net.exp + SCALE));
  }

  lemma Positive(a: nat, b: nat)
    requires b >= 1
    ensures a > 0 <==> a * b > 0
  {
    if a > 0 {
      assert a * b >= b;
    }
  }

  /** A settlement exists exactly when the order is an identified BUY that has ended, there are one to ten thousand
      fills, each of them a whole fill of that BUY by its own texts, no trade id repeats and the exact totals are what
      the order reports. Its sums are those totals: the net quantity is what was bought less the commissions paid in
      the base asset, and nothing else. */
  lemma SettledMeans(order: Report, fills: seq<FillRow>, m: Market)
    ensures var s := Settled(Some(DIGITS), order, fills, m.symbol, m.orderId, m.base, m.quoteAsset);
            && (s.Some? <==> && Ended(order, m).Some? && 1 <= |fills| <= 10000 && AllAcceptable(fills, m)
                             && DistinctIds(fills)
                             && CoversExactly(Totals(fills, m), Ended(order, m).value.0, Ended(order, m).value.1))
            && (s.Some? ==> Measures(s.value, Totals(fills, m), Ids(fills)))
  {
    SettlementNeverRounds(Some(DIGITS), order, fills, m.symbol, m.orderId, m.base, m.quoteAsset);
    SumsAreTotals(fills, m);
    EndedIsExpected(order, m);
    var e := Expected(order, m.symbol, m.orderId);
    var sums := Sums(None, fills, m.symbol, m.orderId, m.base, m.quoteAsset);
    if e.Some? && sums.Some? {
      CoverageByUnits(sums.value, Totals(fills, m), e.value.0, e.value.1);
    }
  }

  // ---------- the order of fills ----------

  lemma {:induction false} SumConcat(a: seq<FillRow>, b: seq<FillRow>, worth: FillRow -> Worth)
    ensures SumOf(a + b, worth) == Plus(SumOf(a, worth), SumOf(b, worth))
  {
    if b == [] {
      assert a + b == a;
    } else {
      assert (a + b)[..|a + b| - 1] == a + b[..|b| - 1];
      SumConcat(a, b[..|b| - 1], worth);
    }
  }

  lemma Cancel(x: multiset<FillRow>, y: multiset<FillRow>, f: FillRow)
    requires x + multiset{f} == y + multiset{f}
    ensures x == y
  {
    assert x == (x + multiset{f}) - multiset{f};
    assert y == (y + multiset{f}) - multiset{f};
  }

  lemma LastElsewhere(a: seq<FillRow>, b: seq<FillRow>) returns (i: nat)
    requires multiset(a) == multiset(b) && a != []
    ensures i < |b| && b[i] == a[|a| - 1] && multiset(a[..|a| - 1]) == multiset(b[..i] + b[i + 1..])
  {
    var f := a[|a| - 1];
    assert a == a[..|a| - 1] + [f];
    assert f in multiset(b);
    i :| 0 <= i < |b| && b[i] == f;
    assert b == b[..i] + [f] + b[i + 1..];
    Cancel(multiset(a[..|a| - 1]), multiset(b[..i] + b[i + 1..]), f);
  }

  lemma {:induction false} SumAround(x: seq<FillRow>, f: FillRow, y: seq<FillRow>, worth: FillRow -> Worth)
    ensures SumOf(x + [f] + y, worth) == Plus(SumOf(x + y, worth), worth(f))
  {
    SumConcat(x + [f], y, worth);
    SumConcat(x, y, worth);
    assert (x + [f])[..|x|] == x;
  }

  lemma {:induction false} SumPermutes(a: seq<FillRow>, b: seq<FillRow>, worth: FillRow -> Worth)
    requires multiset(a) == multiset(b)
    ensures SumOf(a, worth) == SumOf(b, worth)
    decreases |a|
  {
    assert |multiset(a)| == |a| && |multiset(b)| == |b|;
    if a != [] {
      var i := LastElsewhere(a, b);
      SumPermutes(a[..|a| - 1], b[..i] + b[i + 1..], worth);
      assert b == b[..i] + [b[i]] + b[i + 1..];
      SumAround(b[..i], b[i], b[i + 1..], worth);
    }
  }

  lemma RepeatCounts(fills: seq<FillRow>, i: nat, j: nat)
    requires i < j < |fills| && fills[i] == fills[j]
    ensures multiset(fills)[fills[i]] >= 2
  {
    assert fills == fills[..j] + ([fills[j]] + fills[j + 1..]);
    assert fills[..j][i] == fills[i];
    assert multiset(fills[..j])[fills[i]] >= 1;
  }

  lemma DistinctCounts(fills: seq<FillRow>, f: FillRow)
    requires f in fills && DistinctIds(fills)
    ensures multiset(fills)[f] == 1
  {
    var k :| 0 <= k < |fills| && fills[k] == f;
    assert fills == fills[..k] + ([f] + fills[k + 1..]);
    assert f !in fills[..k] && f !in fills[k + 1..];
  }

  lemma DistinctPermutes(a: seq<FillRow>, b: seq<FillRow>)
    requires multiset(a) == multiset(b) && DistinctIds(a)
    ensures DistinctIds(b)
  {
    forall i, j | 0 <= i < j < |b| ensures b[i].id != b[j].id {
      assert b[i] in multiset(a) && b[j] in multiset(a);
      var k :| 0 <= k < |a| && a[k] == b[i];
      var l :| 0 <= l < |a| && a[l] == b[j];
      if b[i] == b[j] {
        RepeatCounts(b, i, j);
        DistinctCounts(a, b[i]);
      }
    }
  }

  lemma AcceptablePermutes(a: seq<FillRow>, b: seq<FillRow>, m: Market)
    requires multiset(a) == multiset(b)
    ensures AllAcceptable(a, m) ==> AllAcceptable(b, m)
    ensures Ids(a) == Ids(b)
  {
    forall f ensures f in a <==> f in b {
      assert f in multiset(a) <==> f in multiset(b);
    }
    if AllAcceptable(a, m) {
      forall i | 0 <= i < |b| ensures Acceptable(b[i], m) {
        assert b[i] in a;
      }
    }
  }

  /** The order in which the exchange lists the fills does not matter: the same fills settle to the same
      quantities, or not at all. */
  lemma OrderOfFillsIsIrrelevant(order: Report, a: seq<FillRow>, b: seq<FillRow>, m: Market)
    requires multiset(a) == multiset(b)
    ensures var s, t := Settled(Some(DIGITS), order, a, m.symbol, m.orderId, m.base, m.quoteAsset),
                        Settled(Some(DIGITS), order, b, m.symbol, m.orderId, m.base, m.quoteAsset);
            && (s.Some? <==> t.Some?)
            && (s.Some? ==> Measures(s.value, Totals(a, m), Ids(a)) && Measures(t.value, Totals(a, m), Ids(a)))
  {
    assert |multiset(a)| == |a| && |multiset(b)| == |b|;
    SettledMeans(order, a, m);
    SettledMeans(order, b, m);
    SumPermutes(a, b, Measuring(m));
    AcceptablePermutes(a, b, m);
    AcceptablePermutes(b, a, m);
    if DistinctIds(a) {
      DistinctPermutes(a, b);
    }
    if DistinctIds(b) {
      DistinctPermutes(b, a);
    }
  }
}
