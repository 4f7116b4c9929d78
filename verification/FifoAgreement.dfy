/** The three FIFO engines on one history: the live lot table, the digest's queue and the importer's plan hold
    the same quantities in the same order. */
module FifoAgreement {
  import opened Results
  import opened FifoLots
  import opened TradeAccounting
  import Table = InventoryHistory
  import Lots = InventoryLots
  import Digest = DigestFifo
  import Conservation = DigestConservation
  import Import = CostBasisImport

  // ---------- replays do not look at tags ----------

  function Quantities<T>(lots: seq<Lot<T>>): (q: seq<real>)
    ensures |q| == |lots|
  {
    seq(|lots|, i requires 0 <= i < |lots| => lots[i].qty)
  }

  predicate SameMove<S, T>(a: Move<S>, b: Move<T>) {
    if a.Buy? then b.Buy? && a.lot.qty == b.lot.qty else b.Sell? && a.qty == b.qty
  }

  predicate SameMoves<S, T>(a: seq<Move<S>>, b: seq<Move<T>>) {
    |a| == |b| && forall i | 0 <= i < |a| :: SameMove(a[i], b[i])
  }

  lemma {:induction false} TotalOfQuantities<S, T>(a: seq<Lot<S>>, b: seq<Lot<T>>)
    requires Quantities(a) == Quantities(b)
    ensures Total(a) == Total(b)
  {
    if a != [] {
      TailQuantities(a, b);
      TotalOfQuantities(a[1..], b[1..]);
    }
  }

  lemma TailQuantities<S, T>(a: seq<Lot<S>>, b: seq<Lot<T>>)
    requires Quantities(a) == Quantities(b) && a != []
    ensures b != [] && a[0].qty == b[0].qty && Quantities(a[1..]) == Quantities(b[1..])
  {
    assert Quantities(a)[0] == Quantities(b)[0];
    assert Quantities(a)[1..] == Quantities(a[1..]) && Quantities(b)[1..] == Quantities(b[1..]);
  }

  lemma {:induction false} DrainQuantities<S, T>(a: seq<Lot<S>>, b: seq<Lot<T>>, sold: real)
    requires Quantities(a) == Quantities(b)
    ensures Quantities(Drain(a, sold)) == Quantities(Drain(b, sold))
  {
    if a != [] && sold > 0.0 {
      TailQuantities(a, b);
      if a[0].qty <= sold {
        DrainQuantities(a[1..], b[1..], sold - a[0].qty);
      } else {
        CutQuantities(a, sold);
        CutQuantities(b, sold);
      }
    }
  }

  lemma CutQuantities<T>(lots: seq<Lot<T>>, sold: real)
    requires lots != []
    ensures Quantities([lots[0].(qty := lots[0].qty - sold)] + lots[1..])
            == [lots[0].qty - sold] + Quantities(lots[1..])
  {
  }

  lemma AppendQuantities<T>(lots: seq<Lot<T>>, lot: Lot<T>)
    ensures Quantities(lots + [lot]) == Quantities(lots) + [lot.qty]
  {
  }

  /** Moves of the same kinds and quantities leave the same quantities, whatever the lots are tagged with. */
  lemma {:induction false} ReplayQuantities<S, T>(a: seq<Move<S>>, b: seq<Move<T>>, n: nat)
    requires n <= |a| && SameMoves(a, b)
    ensures Replay([], a, n).Some? <==> Replay([], b, n).Some?
    ensures Replay([], a, n).Some? ==> Quantities(Replay([], a, n).value) == Quantities(Replay([], b, n).value)
  {
    if n > 0 {
      ReplayQuantities(a, b, n - 1);
      assert SameMove(a[n - 1], b[n - 1]);
      if Replay([], a, n - 1).Some? {
        var x, y := Replay([], a, n - 1).value, Replay([], b, n - 1).value;
        TotalOfQuantities(x, y);
        if a[n - 1].Sell? {
          DrainQuantities(x, y, a[n - 1].qty);
        } else {
          AppendQuantities(x, a[n - 1].lot);
          AppendQuantities(y, b[n - 1].lot);
        }
      }
    }
  }

  // ---------- the table and the digest ----------

  /** Ledger rows of the same fills. */
  predicate SameFills(calls: seq<Table.Call>, rows: seq<Digest.Row>) {
    |calls| == |rows| && forall i | 0 <= i < |calls| :: rows[i].fill == calls[i].fill
  }

  function QueueQuantities(lots: seq<Digest.CostLot>): (q: seq<real>)
    ensures |q| == |lots|
  {
    seq(|lots|, i requires 0 <= i < |lots| => lots[i].qty)
  }

  lemma {:induction false} QueueAsLots(lots: seq<Digest.CostLot>)
    ensures Quantities(Conservation.AsFifo(lots)) == QueueQuantities(lots)
  {
    if lots != [] {
      QueueAsLots(lots[1..]);
      var fifo := Conservation.AsFifo(lots);
      assert Quantities(fifo) == [fifo[0].qty] + Quantities(fifo[1..]);
      assert QueueQuantities(lots) == [lots[0].qty] + QueueQuantities(lots[1..]);
    }
  }

  /** Fills that the table accepts one after the other and the digest can use leave the same quantities in
      both, oldest first; the symbol is not excluded from the digest. */
  lemma {:induction false} TableAndDigestAgree(calls: seq<Table.Call>, rows: seq<Digest.Row>,
                                               periods: seq<Digest.Period>, symbol: string)
    requires Table.FreshChronicle(calls, symbol) && Table.AllTakeEffect(calls, |calls|)
    requires SameFills(calls, rows) && Conservation.AllUsable(rows, symbol)
    ensures var s := Digest.Replayed(rows, periods, symbol, |rows|);
            var table := Table.BookAfter(Lots.Book([], map[]), calls, |calls|).rows;
            s.excluded == None && QueueQuantities(s.lots) == Quantities(Lots.OldestLots(table, symbol))
  {
    var n := |calls|;
    Table.TableIsReplay(calls, symbol, n);
    Conservation.QueueIsReplay(rows, periods, symbol, n);
    forall i | 0 <= i < n ensures SameMove(Table.AsMoves(calls)[i], Conservation.AsMoves(rows)[i]) {
    }
    ReplayQuantities(Table.AsMoves(calls), Conservation.AsMoves(rows), n);
    QueueAsLots(Digest.Replayed(rows, periods, symbol, n).lots);
  }

  // ---------- the table and the importer ----------

  predicate SameTrade(fill: Fill, t: Import.Trade, base: string) {
    && fill.isBuy == t.isBuyer && fill.qty == t.gross && fill.commission == t.commission
    && (fill.baseFee <==> t.commissionAsset == base)
  }

  predicate SameTrades(calls: seq<Table.Call>, trades: seq<Import.Trade>, base: string) {
    |calls| == |trades| && forall i | 0 <= i < |calls| :: SameTrade(calls[i].fill, trades[i], base)
  }

  lemma SameTradeSameQuantity(c: Table.Call, t: Import.Trade, base: string)
    requires SameTrade(c.fill, t, base) && Executable(c.fill)
    ensures Import.InventoryQuantity(t, base) == NetQuantity(c.fill) > 0.0
  {
  }

  lemma {:induction false} NothingBefore(calls: seq<Table.Call>, trades: seq<Import.Trade>, base: string, n: nat)
    requires n <= |trades| && Import.AllWellFormed(trades)
    requires SameTrades(calls, trades, base) && Table.AllTakeEffect(calls, n)
    requires NeverShort([], Table.AsMoves(calls), n)
    ensures Import.BadBuy(trades, base, n) == None && Import.MinimumRunning(trades, base, n) == 0.0
    ensures Import.Running(trades, base, n) == Balance(Table.AsMoves(calls), n)
  {
    if n > 0 {
      NothingBefore(calls, trades, base, n - 1);
      SameTradeSameQuantity(calls[n - 1], trades[n - 1], base);
      BalanceStep(Table.AsMoves(calls), n - 1);
      assert Total<nat>([]) + Balance(Table.AsMoves(calls), n) >= 0.0;
    }
  }

  lemma {:induction false} EffectiveCall(calls: seq<Table.Call>, i: nat, n: nat)
    requires i < n <= |calls| && Table.AllTakeEffect(calls, n)
    ensures Executable(calls[i].fill)
    decreases n
  {
    if i < n - 1 {
      EffectiveCall(calls, i, n - 1);
    }
  }

  /** The importer, given the same trades from the first one on, finds no prehistory, and its surviving lots hold
      what the table holds. */
  lemma {:induction false} TableAndImportAgree(calls: seq<Table.Call>, trades: seq<Import.Trade>, base: string,
                                               symbol: string)
    requires Table.FreshChronicle(calls, symbol) && Table.AllTakeEffect(calls, |calls|)
    requires SameTrades(calls, trades, base) && Import.AllWellFormed(trades)
    ensures var table := Table.BookAfter(Lots.Book([], map[]), calls, |calls|).rows;
            && Import.MinimumRunning(trades, base, |trades|) == 0.0
            && Quantities(Import.Survivors(trades, base)) == Quantities(Lots.OldestLots(table, symbol))
  {
    var n, moves := |calls|, Table.AsMoves(calls);
    Table.TableIsReplay(calls, symbol, n);
    Table.EffectiveMovesAreValid(calls, n);
    ReplayClosedForm([], moves, n);
    NothingBefore(calls, trades, base, n);
    forall i | 0 <= i < n ensures SameMove(moves[i], Import.Moves(trades, base)[i]) {
      EffectiveCall(calls, i, n);
      SameTradeSameQuantity(calls[i], trades[i], base);
    }
    ReplayQuantities(moves, Import.Moves(trades, base), n);
    assert Import.Seeded(trades, base, []);
    Import.ReplayIsSurvivors(trades, base, []);
  }
}
