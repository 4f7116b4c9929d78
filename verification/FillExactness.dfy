/** What the reader of complete fills accepts, for orders of either side: an independent reading of every fill,
    exact totals, and no dependence on rounding or on the order of the fills. */
module FillExactness {
  import opened Results
  import opened ExactDecimal
  import opened BuySettlement
  import opened SettlementExactness
  import opened FillEvidence
  import opened OrderJournal

  /** The order whose fills are read, and the validation of names and commission texts. */
  datatype Target = Target(reader: Reader, side: Side, symbol: string, orderId: int)

  // A numbered and dated fill of the order, on its side, with a name and a commission that are valid.
  predicate TradeOf(f: FillRow, t: Target) {
    && f.symbol == t.symbol && f.orderId == t.orderId && f.orderId >= 0 && f.isBuyer == (t.side == Buy)
    && f.id >= 0 && f.time > 0 && t.reader.named(f.asset) && t.reader.readable(f.commission)
  }

  // Quantity and price are positive amounts, the quote is an amount.
  predicate LegibleTrade(f: FillRow) {
    && UnitsOf(f.qty).Some? && UnitsOf(f.price).Some? && UnitsOf(f.quote).Some?
    && UnitsOf(f.qty).value > 0 && UnitsOf(f.price).value > 0
  }

  /** Quantity and quote of a fill of the order that is whole in itself, as its texts name them. */
  function Reading(f: FillRow, t: Target): Option<Worth> {
    if TradeOf(f, t) && LegibleTrade(f) && Priced(f.price, f.qty, f.quote)
    then Some(Worth(UnitsOf(f.qty).value, UnitsOf(f.qty).value, UnitsOf(f.quote).value)) else None
  }

  function WorthOf(f: FillRow, t: Target): Worth {
    Reading(f, t).GetOr(Worth(0, 0, 0))
  }

  function Measuring(t: Target): FillRow -> Worth {
    f => WorthOf(f, t)
  }

  function Totals(fills: seq<FillRow>, t: Target): Worth {
    SumOf(fills, Measuring(t))
  }

  predicate Readable(f: FillRow, t: Target) { Reading(f, t).Some? }

  predicate AllReadable(fills: seq<FillRow>, t: Target) {
    forall i | 0 <= i < |fills| :: Readable(fills[i], t)
  }

  predicate Measures(s: Seen, w: Worth, ids: set<int>) {
    && s.quantity.exp >= -SCALE && s.quote.exp >= -SCALE
    && Units(s.quantity, SCALE) == w.gross && Units(s.quote, SCALE) == w.quote && s.ids == ids
  }

  predicate SmallSeen(s: Seen, n: nat) {
    Small(s.quantity, n) && Small(s.quote, n)
  }

  // ---------- one fill ----------

  // The amounts of a fill in decimals.
  predicate Decodes(f: FillRow) {
    Amount(f.price, true).Some? && Amount(f.qty, true).Some? && Amount(f.quote, false).Some?
  }

  lemma LegibleDecodes(f: FillRow)
    ensures LegibleTrade(f) <==> Decodes(f)
    ensures Decodes(f) ==>
              && Bounded(Amount(f.price, true).value) && Bounded(Amount(f.qty, true).value)
              && Bounded(Amount(f.quote, false).value)
              && Units(Amount(f.qty, true).value, SCALE) == UnitsOf(f.qty).value
              && Units(Amount(f.quote, false).value, SCALE) == UnitsOf(f.quote).value
  {
    AmountReads(f.price, true);
    AmountReads(f.qty, true);
    AmountReads(f.quote, false);
  }

  lemma PricedByUnits(p: Precision, f: FillRow)
    requires Enough(p) && Decodes(f)
    ensures Same(Multiply(p, Amount(f.price, true).value, Amount(f.qty, true).value), Amount(f.quote, false).value)
            <==> Priced(f.price, f.qty, f.quote)
  {
    AmountReads(f.price, true);
    AmountReads(f.qty, true);
    AmountReads(f.quote, false);
    var a, b, c := Amount(f.price, true).value, Amount(f.qty, true).value, Amount(f.quote, false).value;
    QuoteByUnits(p, a, b, c);
  }

  lemma IndexedMeans(p: Precision, s: Seen, f: FillRow, t: Target)
    requires Enough(p)
    ensures Reading(f, t).Some? ==> Decodes(f)
    ensures Indexed(p, t.reader, t.side, s, f, t.symbol, t.orderId)
            == if Reading(f, t) == None || f.id in s.ids then None
               else Some(Seen(Add(p, s.quantity, Amount(f.qty, true).value),
                              Add(p, s.quote, Amount(f.quote, false).value), s.ids + {f.id}))
  {
    LegibleDecodes(f);
    if Decodes(f) {
      PricedByUnits(p, f);
    }
  }

  lemma ReadingIsSmall(f: FillRow, t: Target)
    requires Reading(f, t).Some?
    ensures Decodes(f) && Small(Amount(f.qty, true).value, 1) && Small(Amount(f.quote, false).value, 1)
  {
    LegibleDecodes(f);
    AmountUnits(Amount(f.qty, true).value);
    AmountUnits(Amount(f.quote, false).value);
  }

  // ---------- no rounding ----------

  lemma IndexFits(p: Precision, s: Seen, f: FillRow, t: Target, n: nat)
    requires Enough(p) && SmallSeen(s, n) && n < MAX_FILLS
    ensures var r := Indexed(None, t.reader, t.side, s, f, t.symbol, t.orderId);
            && Indexed(p, t.reader, t.side, s, f, t.symbol, t.orderId) == r
            && (r.Some? ==> SmallSeen(r.value, n + 1))
  {
    IndexedMeans(p, s, f, t);
    IndexedMeans(None, s, f, t);
    if Reading(f, t).Some? {
      ReadingIsSmall(f, t);
      SumFits(s.quantity, Amount(f.qty, true).value, n, p);
      SumFits(s.quote, Amount(f.quote, false).value, n, p);
    }
  }

  lemma {:induction false} AllIndexedFit(p: Precision, fills: seq<FillRow>, t: Target)
    requires Enough(p) && |fills| <= MAX_FILLS
    ensures var r := AllIndexed(None, t.reader, t.side, fills, t.symbol, t.orderId);
            && AllIndexed(p, t.reader, t.side, fills, t.symbol, t.orderId) == r
            && (r.Some? ==> SmallSeen(r.value, |fills|))
  {
    if fills != [] {
      var rest := fills[..|fills| - 1];
      AllIndexedFit(p, rest, t);
      var s := AllIndexed(None, t.reader, t.side, rest, t.symbol, t.orderId);
      if s.Some? {
        IndexFits(p, s.value, fills[|fills| - 1], t, |rest|);
      }
    }
  }

  /** The check in 512 digits is the check in unlimited precision; 258 digits would do. */
  lemma CompletenessNeverRounds(p: Precision, r: Reader, order: Report, fills: seq<FillRow>, symbol: string,
                                orderId: int)
    requires Enough(p)
    ensures CompleteFills(p, r, order, fills, symbol, orderId) == CompleteFills(None, r, order, fills, symbol, orderId)
    ensures Enough(Some(DIGITS))
  {
    if |fills| <= MAX_TRADES {
      AllIndexedFit(p, fills, Target(r, order.side, symbol, orderId));
    }
  }

  // ---------- what is accepted ----------

  lemma OneIndexed(s: Seen, f: FillRow, t: Target, w: Worth)
    requires Measures(s, w, s.ids)
    ensures var r := Indexed(None, t.reader, t.side, s, f, t.symbol, t.orderId);
            && (r.Some? <==> Reading(f, t).Some? && f.id !in s.ids)
            && (r.Some? ==> Measures(r.value, Plus(w, WorthOf(f, t)), s.ids + {f.id}))
  {
    IndexedMeans(None, s, f, t);
    if Reading(f, t).Some? {
      LegibleDecodes(f);
      ExactSum(s.quantity, Amount(f.qty, true).value, SCALE);
      ExactSum(s.quote, Amount(f.quote, false).value, SCALE);
    }
  }

  lemma AllReadableRest(fills: seq<FillRow>, last: FillRow, t: Target)
    requires AllReadable(fills + [last], t)
    ensures AllReadable(fills, t) && Readable(last, t)
  {
    forall i | 0 <= i < |fills| ensures Readable(fills[i], t) {
      assert (fills + [last])[i] == fills[i];
    }
    assert (fills + [last])[|fills|] == last;
  }

  lemma ReadableNext(fills: seq<FillRow>, t: Target)
    requires fills != []
    ensures AllReadable(fills, t) <==> AllReadable(fills[..|fills| - 1], t) && Readable(fills[|fills| - 1], t)
  {
    var rest, last := fills[..|fills| - 1], fills[|fills| - 1];
    assert fills == rest + [last];
    if AllReadable(fills, t) {
      AllReadableRest(rest, last, t);
    }
  }

  lemma {:induction false} IndexedAreTotals(fills: seq<FillRow>, t: Target)
    ensures var s := AllIndexed(None, t.reader, t.side, fills, t.symbol, t.orderId);
            && (s.Some? <==> AllReadable(fills, t) && DistinctIds(fills))
            && (s.Some? ==> Measures(s.value, Totals(fills, t), Ids(fills)))
  {
    if fills != [] {
      var rest := fills[..|fills| - 1];
      IndexedAreTotals(rest, t);
      IdsNext(fills);
      DistinctNext(fills);
      ReadableNext(fills, t);
      var s := AllIndexed(None, t.reader, t.side, rest, t.symbol, t.orderId);
      if s.Some? {
        OneIndexed(s.value, fills[|fills| - 1], t, Totals(rest, t));
      }
    }
  }

  predicate EndedOrder(r: Reader, order: Report, symbol: string, orderId: int) {
    && r.named(symbol) && orderId >= 0 && order.symbol == symbol && order.orderId == orderId
    && order.status in {Filled, Canceled, Expired, ExpiredInMatch}
  }

  /** Something was executed, not more than was ordered, and all of it if the order was filled. */
  predicate Measured(order: Report) {
    && UnitsOf(order.original).Some? && UnitsOf(order.executed).Some? && UnitsOf(order.quote).Some?
    && 0 < UnitsOf(order.executed).value <= UnitsOf(order.original).value
    && (order.status == Filled ==> UnitsOf(order.executed).value == UnitsOf(order.original).value)
  }

  predicate MeasuredAmounts(order: Report) {
    var o, e, q := Amount(order.original, false), Amount(order.executed, false), Amount(order.quote, false);
    && o.Some? && e.Some? && q.Some? && e.value.coeff > 0 && AtMost(e.value, o.value)
    && (order.status == Filled ==> Same(e.value, o.value))
  }

  lemma MeasuredByUnits(order: Report)
    ensures Measured(order) <==> MeasuredAmounts(order)
  {
    AmountReads(order.original, false);
    AmountReads(order.executed, false);
    AmountReads(order.quote, false);
    var o, e := Amount(order.original, false), Amount(order.executed, false);
    if o.Some? && e.Some? {
      ExactComparison(e.value, o.value, SCALE);
      Positive(e.value.coeff, Pow10(e.value.exp + SCALE));
    }
  }

  lemma TerminalNeeds(r: Reader, order: Report, symbol: string, orderId: int)
    ensures TerminalOrder(r, order, symbol, orderId)
            == if EndedOrder(r, order, symbol, orderId) && MeasuredAmounts(order)
               then Some((Amount(order.executed, false).value, Amount(order.quote, false).value)) else None
  {
  }

  lemma TerminalAmounts(r: Reader, order: Report, symbol: string, orderId: int)
    ensures var e := TerminalOrder(r, order, symbol, orderId);
            && (e.Some? <==> EndedOrder(r, order, symbol, orderId) && Measured(order))
            && (e.Some? ==>
                  && Bounded(e.value.0) && Units(e.value.0, SCALE) == UnitsOf(order.executed).value
                  && Bounded(e.value.1) && Units(e.value.1, SCALE) == UnitsOf(order.quote).value)
  {
    TerminalNeeds(r, order, symbol, orderId);
    MeasuredByUnits(order);
    if Measured(order) {
      AmountReads(order.executed, false);
      AmountReads(order.quote, false);
    }
  }

  /** Fills are complete evidence of an order of either side exactly when the order is an identified one that has
      ended, there are one to a thousand of them, each is a whole fill of that order and side by its own texts, no
      trade id repeats, and the exact totals are what the order reports. The answer is the set of their ids. */
  lemma CompleteMeans(r: Reader, order: Report, fills: seq<FillRow>, symbol: string, orderId: int)
    ensures var t := Target(r, order.side, symbol, orderId);
            CompleteFills(Some(DIGITS), r, order, fills, symbol, orderId)
            == if EndedOrder(r, order, symbol, orderId) && Measured(order) && 1 <= |fills| <= 1000
                  && AllReadable(fills, t) && DistinctIds(fills)
                  && Totals(fills, t).gross == UnitsOf(order.executed).value
                  && Totals(fills, t).quote == UnitsOf(order.quote).value
               then Some(Ids(fills)) else None
  {
    CompletenessNeverRounds(Some(DIGITS), r, order, fills, symbol, orderId);
    var t, e := Target(r, order.side, symbol, orderId), TerminalOrder(r, order, symbol, orderId);
    IndexedAreTotals(fills, t);
    TerminalAmounts(r, order, symbol, orderId);
    var s := AllIndexed(None, r, order.side, fills, symbol, orderId);
    if e.Some? && s.Some? {
      ExactComparison(s.value.quantity, e.value.0, SCALE);
      ExactComparison(s.value.quote, e.value.1, SCALE);
    }
  }

  lemma ReadablePermutes(a: seq<FillRow>, b: seq<FillRow>, t: Target)
    requires multiset(a) == multiset(b) && AllReadable(a, t)
    ensures AllReadable(b, t)
  {
    forall i | 0 <= i < |b| ensures Readable(b[i], t) {
      assert b[i] in multiset(a);
    }
  }

  lemma IdsPermute(a: seq<FillRow>, b: seq<FillRow>)
    requires multiset(a) == multiset(b)
    ensures Ids(a) == Ids(b)
  {
    forall f ensures f in a <==> f in b {
      assert f in multiset(a) <==> f in multiset(b);
    }
  }

  /** The answer does not depend on the order in which the exchange lists the fills. */
  lemma ListingOrderIsIrrelevant(r: Reader, order: Report, a: seq<FillRow>, b: seq<FillRow>, symbol: string,
                                 orderId: int)
    requires multiset(a) == multiset(b)
    ensures CompleteFills(Some(DIGITS), r, order, a, symbol, orderId)
            == CompleteFills(Some(DIGITS), r, order, b, symbol, orderId)
  {
    var t := Target(r, order.side, symbol, orderId);
    assert |multiset(a)| == |a| && |multiset(b)| == |b|;
    CompleteMeans(r, order, a, symbol, orderId);
    CompleteMeans(r, order, b, symbol, orderId);
    SumPermutes(a, b, Measuring(t));
    IdsPermute(a, b);
    if AllReadable(a, t) {
      ReadablePermutes(a, b, t);
    }
    if AllReadable(b, t) {
      ReadablePermutes(b, a, t);
    }
    if DistinctIds(a) {
      DistinctPermutes(a, b);
    }
    if DistinctIds(b) {
      DistinctPermutes(b, a);
    }
  }
}
