/** What the digest's window figures say, in the terms of the fills: cash, fees and counts of an included symbol, which
    cost is of the prior period, and why a symbol is excluded. */
module DigestFigures {
  import opened Results
  import opened FifoLots
  import opened TradeAccounting
  import opened FillTerms
  import opened DigestFifo
  import opened DigestConservation

  /** Cash and fees, and how many bought and sold. */
  datatype Tally = Tally(cash: real, fees: real, buys: nat, sells: nat)

  /** A purchase pays its quote and its cash fee, a sale brings its quote less its cash fee; a fee counts at its value
      wherever it is paid. */
  function Counting(t: Tally, fill: Fill): Tally {
    var fees := t.fees + fill.feeQuote.GetOr(0.0);
    if fill.isBuy then Tally(t.cash - (fill.price * fill.qty + CashPaid(fill)), fees, t.buys + 1, t.sells)
    else Tally(t.cash + (fill.price * fill.qty - CashPaid(fill)), fees, t.buys, t.sells + 1)
  }

  predicate Counts(row: Row, symbol: string, p: Period) {
    row.fill.symbol == symbol && symbol != "" && p.start <= row.time < p.end
  }

  /** The symbol's fills of a window among the first n rows. */
  function TallyOf(rows: seq<Row>, symbol: string, p: Period, n: nat): Tally
    requires n <= |rows|
  {
    if n == 0 then Tally(0.0, 0.0, 0, 0)
    else if Counts(rows[n - 1], symbol, p) then Counting(TallyOf(rows, symbol, p, n - 1), rows[n - 1].fill)
    else TallyOf(rows, symbol, p, n - 1)
  }

  predicate Shows(item: Item, t: Tally) {
    && item.cash == t.cash && item.fees == t.fees && item.buys == t.buys && item.sells == t.sells
    && item.fills == t.buys + t.sells
  }

  lemma StepCounts(s: SymbolState, periods: seq<Period>, row: Row, i: nat, t: Tally)
    requires |s.items| == |periods| && i < |periods| && Shows(s.items[i], t)
    requires Step(s, periods, row).excluded == None
    ensures Shows(Step(s, periods, row).items[i],
                  if periods[i].start <= row.time < periods[i].end then Counting(t, row.fill) else t)
  {
    InEngines(row.fill);
  }

  /** The figures of an included symbol are those of its fills in the window, every one of them and nothing else. */
  lemma {:induction false} FiguresAreTallied(rows: seq<Row>, periods: seq<Period>, symbol: string, i: nat, n: nat)
    requires n <= |rows| && i < |periods| && Replayed(rows, periods, symbol, n).excluded == None
    ensures Shows(Replayed(rows, periods, symbol, n).items[i], TallyOf(rows, symbol, periods[i], n))
  {
    if n > 0 {
      FiguresAreTallied(rows, periods, symbol, i, n - 1);
      if Concerns(rows[n - 1], symbol) {
        StepCounts(Replayed(rows, periods, symbol, n - 1), periods, rows[n - 1], i,
                   TallyOf(rows, symbol, periods[i], n - 1));
      }
    }
  }

  // ---------- why a symbol is excluded ----------

  /** The row's fill can be accounted for. */
  predicate Accountable(row: Row) { PossibleAmounts(row.fill) && FeeIsValued(row.fill) }

  /** A symbol is excluded at the first of its rows that cannot be accounted for, is in another quote asset, or
      sells more than its queue holds, for that reason; from then on nothing of it changes. */
  lemma ExcludedAt(rows: seq<Row>, periods: seq<Period>, symbol: string, n: nat)
    requires n < |rows| && rows[n].fill.symbol == symbol && symbol != ""
    ensures var s, t, row := Replayed(rows, periods, symbol, n), Replayed(rows, periods, symbol, n + 1), rows[n];
            if s.excluded.Some? then t == s
            else if !Accountable(row) then t == s.(excluded := Some(UnusableTrade))
            else if !row.reportable then t == s.(excluded := Some(OtherQuoteAsset))
            else t.excluded == if !row.fill.isBuy
                && Moved(row.fill) > Total(AsFifo(s.lots)) then Some(IncompleteHistory)
                               else None
  {
    var s, row := Replayed(rows, periods, symbol, n), rows[n];
    InEngines(row.fill);
    if s.excluded == None && Accountable(row) && !row.fill.isBuy {
      QueueIsSound(rows, periods, symbol, n);
      MatchConserves(s.lots, Moved(row.fill));
    }
  }

  // ---------- the cost of the prior period ----------

  predicate AcquiredFrom(lots: seq<CostLot>, start: int) {
    forall k | 0 <= k < |lots| :: lots[k].acquired >= start
  }

  predicate AcquiredBefore(lots: seq<CostLot>, start: int) {
    forall k | 0 <= k < |lots| :: lots[k].acquired < start
  }

  lemma {:induction false} TakesByAge(lots: seq<CostLot>, sold: real, start: int)
    ensures AcquiredFrom(lots, start) ==>
              TakenBefore(Takes(lots, sold), start) == 0.0 && AcquiredFrom(Left(lots, sold), start)
    ensures AcquiredBefore(lots, start) ==>
              TakenBefore(Takes(lots, sold), start) == TakenCost(Takes(lots, sold))
              && AcquiredBefore(Left(lots, sold), start)
    decreases |lots|
  {
    if lots != [] && sold > 0.0 {
      var t := TakeFrom(lots[0], sold);
      assert Takes(lots, sold)[1..] == Takes(lots[1..], sold - t.qty);
      TakesByAge(lots[1..], sold - t.qty, start);
      assert AcquiredFrom(lots, start) ==> AcquiredFrom(lots[1..], start);
      assert AcquiredBefore(lots, start) ==> AcquiredBefore(lots[1..], start);
    }
  }

  predicate BoughtFrom(rows: seq<Row>, symbol: string, start: int, n: nat)
    requires n <= |rows|
  {
    forall k | 0 <= k < n && rows[k].fill.symbol == symbol && rows[k].fill.isBuy :: rows[k].time >= start
  }

  predicate BoughtBefore(rows: seq<Row>, symbol: string, start: int, n: nat)
    requires n <= |rows|
  {
    forall k | 0 <= k < n && rows[k].fill.symbol == symbol && rows[k].fill.isBuy :: rows[k].time < start
  }

  lemma StepKeepsAge(s: SymbolState, periods: seq<Period>, row: Row, i: nat)
    requires |s.items| == |periods| && i < |periods|
    ensures var t, start := Step(s, periods, row), periods[i].start;
            && (AcquiredFrom(s.lots, start) && s.items[i].priorCost == 0.0 && (row.fill.isBuy ==> row.time >= start) ==>
                  AcquiredFrom(t.lots, start) && t.items[i].priorCost == 0.0)
            && (AcquiredBefore(s.lots, start) && s.items[i].priorCost == s.items[i].fifoCost
                && (row.fill.isBuy ==> row.time < start) ==>
                  AcquiredBefore(t.lots, start) && t.items[i].priorCost == t.items[i].fifoCost)
  {
    TakesByAge(s.lots, NetQuantity(row.fill), periods[i].start);
  }

  /** If nothing was bought before a window, none of the cost charged to it is of the prior period; if
      everything was, all of it is. */
  lemma {:induction false} PriorIsBefore(rows: seq<Row>, periods: seq<Period>, symbol: string, i: nat, n: nat)
    requires n <= |rows| && i < |periods|
    ensures var s, start := Replayed(rows, periods, symbol, n), periods[i].start;
            && (BoughtFrom(rows, symbol, start, n) ==> AcquiredFrom(s.lots, start) && s.items[i].priorCost == 0.0)
            && (BoughtBefore(rows, symbol, start, n) ==>
                  AcquiredBefore(s.lots, start) && s.items[i].priorCost == s.items[i].fifoCost)
  {
    if n > 0 {
      PriorIsBefore(rows, periods, symbol, i, n - 1);
      if Concerns(rows[n - 1], symbol) {
        StepKeepsAge(Replayed(rows, periods, symbol, n - 1), periods, rows[n - 1], i);
      }
    }
  }

  // ---------- figures that rest on a legacy valuation ----------

  predicate LegacyLots(lots: seq<CostLot>, legacy: bool) {
    forall k | 0 <= k < |lots| :: lots[k].legacy == legacy
  }

  lemma {:induction false} TakesByOrigin(lots: seq<CostLot>, sold: real, legacy: bool)
    requires LegacyLots(lots, legacy)
    ensures LegacyLots(Left(lots, sold), legacy)
    ensures forall k | 0 <= k < |Takes(lots, sold)| :: Takes(lots, sold)[k].legacy == legacy
    ensures lots != [] && sold > 0.0 ==> Takes(lots, sold) != []
    decreases |lots|
  {
    if lots != [] && sold > 0.0 {
      var t := TakeFrom(lots[0], sold);
      assert LegacyLots(lots[1..], legacy);
      TakesByOrigin(lots[1..], sold - t.qty, legacy);
    }
  }

  predicate BoughtAs(rows: seq<Row>, symbol: string, legacy: bool, n: nat)
    requires n <= |rows|
  {
    forall k | 0 <= k < n && rows[k].fill.symbol == symbol && rows[k].fill.isBuy :: rows[k].legacy == legacy
  }

  /** A row of the window that is itself of legacy origin. */
  predicate LegacyRow(rows: seq<Row>, symbol: string, p: Period, n: nat)
    requires n <= |rows|
  {
    exists k :: 0 <= k < n && Counts(rows[k], symbol, p) && rows[k].legacy
  }

  predicate SaleInside(rows: seq<Row>, symbol: string, p: Period, n: nat)
    requires n <= |rows|
  {
    exists k :: 0 <= k < n && Counts(rows[k], symbol, p) && !rows[k].fill.isBuy
  }

  lemma StepKeepsOrigin(s: SymbolState, periods: seq<Period>, row: Row, i: nat, legacy: bool)
    requires |s.items| == |periods| && i < |periods| && LegacyLots(s.lots, legacy)
    requires row.fill.isBuy ==> row.legacy == legacy
    requires Step(s, periods, row).excluded == None
    ensures var t, inside := Step(s, periods, row), periods[i].start <= row.time < periods[i].end;
            && LegacyLots(t.lots, legacy)
            && t.items[i].legacy == (s.items[i].legacy || (inside && (row.legacy || (legacy && !row.fill.isBuy))))
  {
    var net := NetQuantity(row.fill);
    TakesByOrigin(s.lots, net, legacy);
    if !row.fill.isBuy && Within(periods[i], row.time) {
      assert s.lots != [] && net > 0.0;
      assert AnyLegacy(Takes(s.lots, net)) == legacy by {
        assert Takes(s.lots, net)[0].legacy == legacy;
      }
    }
  }

  /** When nothing was bought on a legacy valuation, a window of an included symbol is marked exactly if one of its own
      rows is legacy; when everything was, also if it sells anything. */
  lemma {:induction false} LegacyIsMarked(rows: seq<Row>, periods: seq<Period>, symbol: string, i: nat, legacy: bool,
                                          n: nat)
    requires n <= |rows| && i < |periods| && Replayed(rows, periods, symbol, n).excluded == None
    requires BoughtAs(rows, symbol, legacy, n)
    ensures LegacyLots(Replayed(rows, periods, symbol, n).lots, legacy)
    ensures Replayed(rows, periods, symbol, n).items[i].legacy
            <==> LegacyRow(rows, symbol, periods[i], n) || (legacy && SaleInside(rows, symbol, periods[i], n))
  {
    if n > 0 {
      LegacyIsMarked(rows, periods, symbol, i, legacy, n - 1);
      if Concerns(rows[n - 1], symbol) {
        StepKeepsOrigin(Replayed(rows, periods, symbol, n - 1), periods, rows[n - 1], i, legacy);
      }
    }
  }
}
