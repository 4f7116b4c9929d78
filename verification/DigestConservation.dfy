/** What the digest's figures mean: cost is neither created nor lost, every lot keeps its unit cost,
    realised profit is proceeds less matched cost, and windows add up. */
module DigestConservation {
  import opened Results
  import opened FifoLots
  import opened TradeAccounting
  import opened DigestFifo

  // ---------- one sale ----------

  predicate SoundLots(lots: seq<CostLot>) {
    forall i | 0 <= i < |lots| :: lots[i].qty > 0.0 && lots[i].cost > 0.0
  }

  function LotsCost(lots: seq<CostLot>): real {
    if lots == [] then 0.0 else lots[0].cost + LotsCost(lots[1..])
  }

  datatype Tag = Tag(unitCost: real, acquired: int, legacy: bool)

  function UnitCost(lot: CostLot): real {
    if lot.qty == 0.0 then 0.0 else lot.cost / lot.qty
  }

  /** The queue as plain FIFO lots whose tag is the unit cost they were bought at. */
  function AsFifo(lots: seq<CostLot>): seq<Lot<Tag>> {
    if lots == [] then []
    else [Lot(lots[0].qty, Tag(UnitCost(lots[0]), lots[0].acquired, lots[0].legacy))] + AsFifo(lots[1..])
  }

  lemma WholeShare(cost: real, qty: real)
    requires qty > 0.0
    ensures cost * qty / qty == cost
  {
  }

  /** A partial take leaves a smaller lot at the same unit cost. */
  lemma PartialShare(cost: real, qty: real, take: real)
    requires cost > 0.0 && 0.0 < take < qty
    ensures var share := cost * take / qty; 0.0 < share < cost && (cost - share) / (qty - take) == cost / qty
  {
    var u := cost / qty;
    assert cost == u * qty;
    assert cost * take / qty == u * take by {
      assert cost * take == (u * take) * qty;
      WholeShare(u * take, qty);
    }
    assert cost - u * take == u * (qty - take);
    WholeShare(u, qty - take);
    assert u > 0.0;
    assert 0.0 < u * take;
    assert 0.0 < u * (qty - take);
  }

  lemma TakeIsFair(lot: CostLot, remaining: real)
    requires lot.qty > 0.0 && lot.cost > 0.0 && remaining > 0.0
    ensures var t := TakeFrom(lot, remaining);
            && 0.0 < t.cost <= lot.cost && 0.0 < t.qty <= lot.qty
            && (remaining >= lot.qty ==> t.qty == lot.qty && t.cost == lot.cost)
            && (remaining < lot.qty ==>
                  (t.qty == remaining && t.cost < lot.cost
                   && UnitCost(lot.(qty := lot.qty - t.qty, cost := lot.cost - t.cost)) == UnitCost(lot)))
  {
    if remaining >= lot.qty {
      WholeShare(lot.cost, lot.qty);
    } else {
      PartialShare(lot.cost, lot.qty, remaining);
    }
  }

  // What a sale that ends within the first lot takes and leaves.
  lemma CutShape(lots: seq<CostLot>, sold: real) returns (t: Take, cut: CostLot)
    requires SoundLots(lots) && lots != [] && 0.0 < sold < lots[0].qty
    ensures t == TakeFrom(lots[0], sold) && t.qty == sold && 0.0 < t.cost < lots[0].cost
    ensures cut == lots[0].(qty := lots[0].qty - sold, cost := lots[0].cost - t.cost)
    ensures UnitCost(cut) == UnitCost(lots[0])
    ensures Takes(lots, sold) == [t] && Left(lots, sold) == [cut] + lots[1..] && Unmatched(lots, sold) == 0.0
  {
    TakeIsFair(lots[0], sold);
    t := TakeFrom(lots[0], sold);
    cut := lots[0].(qty := lots[0].qty - t.qty, cost := lots[0].cost - t.cost);
    assert Takes(lots, sold) == [t] + Takes(lots[1..], 0.0);
  }

  lemma {:induction false} CutSums(lots: seq<CostLot>, t: Take, cut: CostLot)
    requires lots != [] && cut.cost == lots[0].cost - t.cost
    ensures TakenCost([t]) + LotsCost([cut] + lots[1..]) == LotsCost(lots) && TakenQuantity([t]) == t.qty
  {
    assert [t][1..] == [] && ([cut] + lots[1..])[1..] == lots[1..];
  }

  lemma {:induction false} CutDrains(lots: seq<CostLot>, cut: CostLot, sold: real)
    requires lots != [] && 0.0 < sold < lots[0].qty && cut.qty == lots[0].qty - sold
    requires cut.acquired == lots[0].acquired && cut.legacy == lots[0].legacy && UnitCost(cut) == UnitCost(lots[0])
    ensures AsFifo([cut] + lots[1..]) == Drain(AsFifo(lots), sold)
  {
    assert AsFifo(lots)[1..] == AsFifo(lots[1..]);
    assert ([cut] + lots[1..])[1..] == lots[1..];
  }

  /** Matching a sale splits the queue's cost and quantity into what was taken and what is left, and
      what is left is the plain FIFO remainder with every unit cost unchanged. */
  lemma {:induction false} MatchConserves(lots: seq<CostLot>, sold: real)
    requires SoundLots(lots) && sold >= 0.0
    ensures TakenCost(Takes(lots, sold)) + LotsCost(Left(lots, sold)) == LotsCost(lots)
    ensures TakenQuantity(Takes(lots, sold)) + Unmatched(lots, sold) == sold && Unmatched(lots, sold) >= 0.0
    ensures SoundLots(Left(lots, sold)) && AsFifo(Left(lots, sold)) == Drain(AsFifo(lots), sold)
    ensures Unmatched(lots, sold) > 0.0 <==> sold > Total(AsFifo(lots))
    decreases |lots|
  {
    AsFifoPositive(lots);
    TotalNonNegative(AsFifo(lots));
    if lots != [] && sold > 0.0 {
      assert AsFifo(lots)[1..] == AsFifo(lots[1..]);
      AsFifoPositive(lots[1..]);
      TotalNonNegative(AsFifo(lots[1..]));
      if sold >= lots[0].qty {
        TakeIsFair(lots[0], sold);
        var t := TakeFrom(lots[0], sold);
        assert Takes(lots, sold)[1..] == Takes(lots[1..], sold - t.qty);
        MatchConserves(lots[1..], sold - t.qty);
      } else {
        var t, cut := CutShape(lots, sold);
        CutSums(lots, t, cut);
        CutDrains(lots, cut, sold);
      }
    }
  }

  lemma {:induction false} AsFifoPositive(lots: seq<CostLot>)
    requires SoundLots(lots)
    ensures Positive(AsFifo(lots)) && |AsFifo(lots)| == |lots|
  {
    if lots != [] {
      AsFifoPositive(lots[1..]);
    }
  }

  lemma {:induction false} PriorIsPart(lots: seq<CostLot>, sold: real, start: int, later: int)
    requires SoundLots(lots) && start <= later
    ensures 0.0 <= TakenBefore(Takes(lots, sold), start) <= TakenBefore(Takes(lots, sold), later)
            <= TakenCost(Takes(lots, sold))
    decreases |lots|
  {
    if lots != [] && sold > 0.0 {
      TakeIsFair(lots[0], sold);
      var t := TakeFrom(lots[0], sold);
      assert Takes(lots, sold)[1..] == Takes(lots[1..], sold - t.qty);
      PriorIsPart(lots[1..], sold - t.qty, start, later);
    }
  }

  // ---------- whole ledgers ----------

  // The row is processed: its symbol is neither excluded before nor by this row's data.
  predicate Processed(s: SymbolState, row: Row) {
    s.excluded == None && Usable(row) && row.reportable
  }

  lemma {:induction false} QueueIsSound(rows: seq<Row>, periods: seq<Period>, symbol: string, n: nat)
    requires n <= |rows|
    ensures SoundLots(Replayed(rows, periods, symbol, n).lots)
  {
    if n > 0 {
      QueueIsSound(rows, periods, symbol, n - 1);
      var s, row := Replayed(rows, periods, symbol, n - 1), rows[n - 1];
      if Concerns(row, symbol) && Processed(s, row) {
        if row.fill.isBuy {
          BuyCostPositive(row.fill);
        } else {
          MatchConserves(s.lots, NetQuantity(row.fill));
        }
      }
    }
  }

  /** Cost of all purchases that entered the queue. */
  function PurchasedCost(rows: seq<Row>, periods: seq<Period>, symbol: string, n: nat): real
    requires n <= |rows|
  {
    if n == 0 then 0.0
    else PurchasedCost(rows, periods, symbol, n - 1)
         + if Concerns(rows[n - 1], symbol) && Processed(Replayed(rows, periods, symbol, n - 1), rows[n - 1])
             && rows[n - 1].fill.isBuy
           then BuyCost(rows[n - 1].fill) else 0.0
  }

  /** Cost of everything sales have matched, in or outside any window. */
  function MatchedCost(rows: seq<Row>, periods: seq<Period>, symbol: string, n: nat): real
    requires n <= |rows|
  {
    if n == 0 then 0.0
    else MatchedCost(rows, periods, symbol, n - 1)
         + if Concerns(rows[n - 1], symbol) && Processed(Replayed(rows, periods, symbol, n - 1), rows[n - 1])
             && !rows[n - 1].fill.isBuy
           then TakenCost(Takes(Replayed(rows, periods, symbol, n - 1).lots, NetQuantity(rows[n - 1].fill))) else 0.0
  }

  lemma {:induction false} LotsCostConcat(a: seq<CostLot>, b: seq<CostLot>)
    ensures LotsCost(a + b) == LotsCost(a) + LotsCost(b)
  {
    if a == [] {
      assert a + b == b;
    } else {
      assert (a + b)[1..] == a[1..] + b;
      LotsCostConcat(a[1..], b);
    }
  }

  lemma LotsCostOne(lot: CostLot)
    ensures LotsCost([lot]) == lot.cost
  {
    assert [lot][1..] == [];
  }

  /** At every moment the cost of all purchases is the cost still in the queue plus the cost matched. */
  lemma {:induction false} CostIsConserved(rows: seq<Row>, periods: seq<Period>, symbol: string, n: nat)
    requires n <= |rows|
    ensures PurchasedCost(rows, periods, symbol, n)
            == LotsCost(Replayed(rows, periods, symbol, n).lots) + MatchedCost(rows, periods, symbol, n)
  {
    if n > 0 {
      CostIsConserved(rows, periods, symbol, n - 1);
      var s, row := Replayed(rows, periods, symbol, n - 1), rows[n - 1];
      if Concerns(row, symbol) && Processed(s, row) {
        if row.fill.isBuy {
          var lot := CostLot(NetQuantity(row.fill), BuyCost(row.fill), row.time, row.legacy);
          LotsCostConcat(s.lots, [lot]);
          LotsCostOne(lot);
        } else {
          QueueIsSound(rows, periods, symbol, n - 1);
          MatchConserves(s.lots, NetQuantity(row.fill));
        }
      }
    }
  }

  // ---------- agreement with the closed form ----------

  function AsMove(row: Row): Move<Tag> {
    if row.fill.isBuy
    then Buy(Lot(NetQuantity(row.fill),
                 Tag(UnitCost(CostLot(NetQuantity(row.fill), BuyCost(row.fill), row.time, row.legacy)),
                                            row.time, row.legacy)))
    else Sell(NetQuantity(row.fill))
  }

  function AsMoves(rows: seq<Row>): seq<Move<Tag>> {
    seq(|rows|, i requires 0 <= i < |rows| => AsMove(rows[i]))
  }

  predicate AllUsable(rows: seq<Row>, symbol: string) {
    forall i | 0 <= i < |rows| :: Concerns(rows[i], symbol) && Usable(rows[i]) && rows[i].reportable
  }

  lemma {:induction false} AsFifoConcat(a: seq<CostLot>, b: seq<CostLot>)
    ensures AsFifo(a + b) == AsFifo(a) + AsFifo(b)
  {
    if a == [] {
      assert a + b == b;
    } else {
      assert (a + b)[1..] == a[1..] + b;
      AsFifoConcat(a[1..], b);
    }
  }

  lemma OneRowMoves(s: SymbolState, periods: seq<Period>, row: Row)
    requires |s.items| == |periods| && SoundLots(s.lots) && Processed(s, row)
    ensures var r := Step(s, periods, row);
            match AsMove(row)
            case Buy(lot) => r.excluded == None && AsFifo(r.lots) == AsFifo(s.lots) + [lot]
            case Sell(qty) =>
              (r.excluded == None <==> qty <= Total(AsFifo(s.lots))) && AsFifo(r.lots) == Drain(AsFifo(s.lots), qty)
  {
    if row.fill.isBuy {
      var lot := CostLot(NetQuantity(row.fill), BuyCost(row.fill), row.time, row.legacy);
      AsFifoConcat(s.lots, [lot]);
      assert [lot][1..] == [];
    } else {
      MatchConserves(s.lots, NetQuantity(row.fill));
    }
  }

  /** A symbol whose rows are all usable is excluded exactly when some sale exceeds its history, and
      otherwise its queue is the FIFO replay of its rows, unit costs included. */
  lemma {:induction false} QueueIsReplay(rows: seq<Row>, periods: seq<Period>, symbol: string, n: nat)
    requires n <= |rows| && AllUsable(rows, symbol)
    ensures var s, r := Replayed(rows, periods, symbol, n), Replay([], AsMoves(rows), n);
            && (s.excluded == None <==> r.Some?)
            && (s.excluded == None ==> AsFifo(s.lots) == r.value)
  {
    if n > 0 {
      QueueIsReplay(rows, periods, symbol, n - 1);
      var s := Replayed(rows, periods, symbol, n - 1);
      if s.excluded == None {
        QueueIsSound(rows, periods, symbol, n - 1);
        OneRowMoves(s, periods, rows[n - 1]);
      }
    }
  }

  // ---------- what the window figures mean ----------

  /** Proceeds of the processed sales inside a window. */
  function WindowProceeds(rows: seq<Row>, periods: seq<Period>, symbol: string, p: Period, n: nat): real
    requires n <= |rows|
  {
    if n == 0 then 0.0
    else WindowProceeds(rows, periods, symbol, p, n - 1)
         + if Concerns(rows[n - 1], symbol) && Processed(Replayed(rows, periods, symbol, n - 1), rows[n - 1])
              && !rows[n - 1].fill.isBuy && Within(p, rows[n - 1].time)
           then SellProceeds(rows[n - 1].fill) else 0.0
  }

  lemma {:induction false} FullGain(proceeds: real, net: real, takes: seq<Take>)
    requires net > 0.0 && TakenQuantity(takes) == net
    ensures Gain(proceeds, net, takes) == proceeds - TakenCost(takes)
  {
    EqualShare(proceeds, TakenQuantity(takes), net);
  }

  lemma EqualShare(proceeds: real, taken: real, net: real)
    requires net > 0.0 && taken == net
    ensures proceeds * taken / net == proceeds
  {
    WholeShare(proceeds, taken);
  }

  /** For an included symbol every window's realised profit is its sale proceeds less the cost matched
      to them, of which the prior-period part is a part. */
  lemma {:induction false} RealisedIsProceedsLessCost(rows: seq<Row>, periods: seq<Period>, symbol: string, i: nat,
                                                      n: nat)
    requires n <= |rows| && i < |periods| && Replayed(rows, periods, symbol, n).excluded == None
    ensures var item := Replayed(rows, periods, symbol, n).items[i];
            && item.realized == WindowProceeds(rows, periods, symbol, periods[i], n) - item.fifoCost
            && 0.0 <= item.priorCost <= item.fifoCost
  {
    if n > 0 {
      RealisedIsProceedsLessCost(rows, periods, symbol, i, n - 1);
      var s, row := Replayed(rows, periods, symbol, n - 1), rows[n - 1];
      if Concerns(row, symbol) && !row.fill.isBuy {
        QueueIsSound(rows, periods, symbol, n - 1);
        MatchConserves(s.lots, NetQuantity(row.fill));
        FullGain(SellProceeds(row.fill), NetQuantity(row.fill), Takes(s.lots, NetQuantity(row.fill)));
        PriorIsPart(s.lots, NetQuantity(row.fill), periods[i].start, periods[i].start);
      }
    }
  }

  // ---------- windows ----------

  /** A window's figures do not depend on which other windows are reported with it. */
  lemma {:induction false} WindowsAreIndependent(rows: seq<Row>, periods: seq<Period>, others: seq<Period>,
                                                 symbol: string, n: nat)
    requires n <= |rows|
    ensures var a, b := Replayed(rows, periods, symbol, n), Replayed(rows, others, symbol, n);
            && a.lots == b.lots && a.excluded == b.excluded
            && forall i, j | 0 <= i < |periods| && 0 <= j < |others| && periods[i] == others[j] ::
                a.items[i] == b.items[j]
  {
    if n > 0 {
      WindowsAreIndependent(rows, periods, others, symbol, n - 1);
    }
  }

  /** z covers two adjacent windows x and y. Only the prior-period cost is not additive: cost acquired
      in x and sold in y is prior to y but not to z. */
  predicate AddsUp(x: Item, y: Item, z: Item) {
    && z.realized == x.realized + y.realized && z.cash == x.cash + y.cash && z.fees == x.fees + y.fees
    && z.fills == x.fills + y.fills && z.buys == x.buys + y.buys && z.sells == x.sells + y.sells
    && z.fifoCost == x.fifoCost + y.fifoCost && z.priorCost <= x.priorCost + y.priorCost
    && z.legacy == (x.legacy || y.legacy)
  }

  lemma FirstWindowAddsUp(x: Item, y: Item, z: Item, a: int, row: Row, takes: seq<Take>, complete: bool)
    requires AddsUp(x, y, z)
    ensures AddsUp(ReportedInside(x, a, row, takes, complete), y, ReportedInside(z, a, row, takes, complete))
  {
  }

  lemma {:induction false} SecondWindowAddsUp(x: Item, y: Item, z: Item, a: int, b: int, row: Row, takes: seq<Take>,
                                              complete: bool)
    requires AddsUp(x, y, z) && TakenBefore(takes, a) <= TakenBefore(takes, b)
    ensures AddsUp(x, ReportedInside(y, b, row, takes, complete), ReportedInside(z, a, row, takes, complete))
  {
  }

  lemma {:induction false} OneRowAddsUp(x: Item, y: Item, z: Item, a: int, b: int, c: int, row: Row, takes: seq<Take>,
                                        complete: bool)
    requires AddsUp(x, y, z) && a <= b <= c && TakenBefore(takes, a) <= TakenBefore(takes, b)
    ensures AddsUp(Reported(x, Period(a, b), row, takes, complete), Reported(y, Period(b, c), row, takes, complete),
                   Reported(z, Period(a, c), row, takes, complete))
  {
    FirstWindowAddsUp(x, y, z, a, row, takes, complete);
    SecondWindowAddsUp(x, y, z, a, b, row, takes, complete);
  }

  /** Adjacent windows add up to the window that spans them, for included and excluded symbols alike. */
  lemma {:induction false} AdjacentWindowsAddUp(rows: seq<Row>, a: int, b: int, c: int, symbol: string, n: nat)
    requires n <= |rows| && a <= b <= c
    ensures var items := Replayed(rows, [Period(a, b), Period(b, c), Period(a, c)], symbol, n).items;
            AddsUp(items[0], items[1], items[2])
  {
    var periods := [Period(a, b), Period(b, c), Period(a, c)];
    if n > 0 {
      AdjacentWindowsAddUp(rows, a, b, c, symbol, n - 1);
      var s, row := Replayed(rows, periods, symbol, n - 1), rows[n - 1];
      if Concerns(row, symbol) && Processed(s, row) {
        QueueIsSound(rows, periods, symbol, n - 1);
        var net := NetQuantity(row.fill);
        PriorIsPart(s.lots, net, a, b);
        var takes := if row.fill.isBuy then [] else Takes(s.lots, net);
        OneRowAddsUp(s.items[0], s.items[1], s.items[2], a, b, c, row, takes, row.fill.isBuy
                     || Unmatched(s.lots, net) <= 0.0);
      }
    }
  }
}
