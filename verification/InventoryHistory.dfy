/** Whole histories of exchange fills against the lot table: conservation of quantity, at-most-once
    effect, what a replay can and cannot do, and agreement with the closed form. */
module InventoryHistory {
  import opened Results
  import opened FifoLots
  import opened TradeAccounting
  import opened InventoryLots

  datatype Call = Call(fill: Fill, clock: int)

  function After(book: Book, c: Call): Book {
    var r := Synced(book, c.fill, c.clock);
    if r.Ok? then r.value else book
  }

  /** The book after the first n calls; a refused call leaves it as it was. */
  function BookAfter(book: Book, calls: seq<Call>, n: nat): Book
    requires n <= |calls|
  {
    if n == 0 then book else After(BookAfter(book, calls, n - 1), calls[n - 1])
  }

  predicate Recorded(book: Book, fill: Fill) {
    if fill.isBuy then FirstRow(book.rows, fill.symbol, fill.tradeId, 0).Some? else Key(fill) in book.consumptions
  }

  /** The call is accepted and its trade was not known before. */
  predicate TakesEffect(book: Book, c: Call) {
    Synced(book, c.fill, c.clock).Ok? && !Recorded(book, c.fill)
  }

  function SignedQuantity(fill: Fill): real {
    if fill.isBuy then NetQuantity(fill) else -NetQuantity(fill)
  }

  // ---------- conservation ----------

  function Change(book: Book, c: Call, symbol: string): real {
    if TakesEffect(book, c) && c.fill.symbol == symbol then SignedQuantity(c.fill) else 0.0
  }

  lemma OneCallConserves(book: Book, c: Call, symbol: string)
    ensures OpenQuantity(After(book, c).rows, symbol) == OpenQuantity(book.rows, symbol) + Change(book, c, symbol)
  {
    if Synced(book, c.fill, c.clock).Ok? && !Recorded(book, c.fill) {
      if c.fill.isBuy {
        AppendAdds(book.rows, PurchaseRow(c.fill, c.clock), symbol);
      } else {
        SaleConserves(book.rows, c.fill.symbol, NetQuantity(c.fill), symbol);
      }
    }
  }

  lemma {:induction false} SaleConserves(rows: seq<LotRow>, sold: string, net: real, symbol: string)
    requires 0.0 < net <= OpenQuantity(rows, sold)
    ensures OpenQuantity(ConsumeRows(rows, OldestIds(rows, sold), net), symbol)
            == OpenQuantity(rows, symbol) - if sold == symbol then net else 0.0
  {
    if sold == symbol {
      ConsumptionIsFifo(rows, symbol, net);
      OldestIdsAreLive(rows, symbol);
      LotsPositive(OldestIds(rows, symbol), rows);
      DrainKeeps(OldestLots(rows, symbol), net);
    } else {
      ConsumptionIsLocal(rows, sold, symbol, net);
    }
  }

  function TotalChange(book: Book, calls: seq<Call>, symbol: string, n: nat): real
    requires n <= |calls|
  {
    if n == 0 then 0.0
    else TotalChange(book, calls, symbol, n - 1) + Change(BookAfter(book, calls, n - 1), calls[n - 1], symbol)
  }

  /** Over every sequence of calls, refused ones included, a symbol's open quantity moves by exactly
      the purchases and sales that took effect. */
  lemma {:induction false} QuantityIsConserved(book: Book, calls: seq<Call>, symbol: string, n: nat)
    requires n <= |calls|
    ensures OpenQuantity(BookAfter(book, calls, n).rows, symbol)
            == OpenQuantity(book.rows, symbol) + TotalChange(book, calls, symbol, n)
  {
    if n > 0 {
      QuantityIsConserved(book, calls, symbol, n - 1);
      OneCallConserves(BookAfter(book, calls, n - 1), calls[n - 1], symbol);
    }
  }

  // ---------- at most once ----------

  /** How a call may change the table: rows keep their identity, at most one new row is appended. */
  predicate Extends(before: Book, after: Book) {
    && |before.rows| <= |after.rows|
    && (forall i | 0 <= i < |before.rows| ::
          after.rows[i] == before.rows[i].(qty := after.rows[i].qty, status := after.rows[i].status,
                                           fixedPoint := after.rows[i].fixedPoint))
    && (forall k | k in before.consumptions :: k in after.consumptions
          && after.consumptions[k].qty == before.consumptions[k].qty
          && after.consumptions[k].price == before.consumptions[k].price
          && (before.consumptions[k].orderId != "" ==> after.consumptions[k].orderId == before.consumptions[k].orderId))
  }

  lemma OneCallExtends(book: Book, c: Call)
    ensures Extends(book, After(book, c))
    ensures TakesEffect(book, c) ==> Recorded(After(book, c), c.fill)
  {
    if TakesEffect(book, c) && !c.fill.isBuy {
      var ids := OldestIds(book.rows, c.fill.symbol);
      forall i | 0 <= i < |book.rows|
        ensures var r := After(book, c).rows[i];
                r == book.rows[i].(qty := r.qty, status := r.status, fixedPoint := r.fixedPoint)
      {
        ConsumeTouchesOnly(book.rows, ids, NetQuantity(c.fill), i);
      }
    }
    if TakesEffect(book, c) && c.fill.isBuy {
      assert After(book, c).rows[|book.rows|] == PurchaseRow(c.fill, c.clock);
    }
  }

  lemma NextBook(book: Book, calls: seq<Call>, i: nat)
    requires i < |calls|
    ensures BookAfter(book, calls, i + 1) == After(BookAfter(book, calls, i), calls[i])
  {
  }

  lemma ExtendsFurther(a: Book, b: Book, c: Book)
    requires Extends(a, b) && Extends(b, c)
    ensures Extends(a, c)
  {
  }

  lemma {:induction false} LaterExtends(book: Book, calls: seq<Call>, i: nat, n: nat, first: Book)
    requires i < n <= |calls| && first == BookAfter(book, calls, i + 1)
    ensures Extends(first, BookAfter(book, calls, n))
    decreases n
  {
    if i + 1 < n {
      var b := BookAfter(book, calls, n - 1);
      LaterExtends(book, calls, i, n - 1, first);
      OneCallExtends(b, calls[n - 1]);
      ExtendsFurther(first, b, After(b, calls[n - 1]));
      NextBook(book, calls, n - 1);
    }
  }

  lemma {:induction false} FirstRowSurvives(before: Book, after: Book, symbol: string, tradeId: string, start: nat)
    requires Extends(before, after) && start <= |before.rows|
    requires FirstRow(before.rows, symbol, tradeId, start).Some?
    ensures FirstRow(after.rows, symbol, tradeId, start) == FirstRow(before.rows, symbol, tradeId, start)
    decreases |before.rows| - start
  {
    if !(before.rows[start].symbol == symbol && before.rows[start].tradeId == tradeId) {
      FirstRowSurvives(before, after, symbol, tradeId, start + 1);
    }
  }

  lemma StaysRecorded(before: Book, after: Book, fill: Fill)
    requires Extends(before, after) && Recorded(before, fill)
    ensures Recorded(after, fill)
  {
    if fill.isBuy {
      FirstRowSurvives(before, after, fill.symbol, fill.tradeId, 0);
    }
  }

  lemma {:induction false} RecordedForever(book: Book, calls: seq<Call>, i: nat, n: nat)
    requires i < n <= |calls| && TakesEffect(BookAfter(book, calls, i), calls[i])
    ensures Recorded(BookAfter(book, calls, n), calls[i].fill)
  {
    OneCallExtends(BookAfter(book, calls, i), calls[i]);
    NextBook(book, calls, i);
    var first := After(BookAfter(book, calls, i), calls[i]);
    LaterExtends(book, calls, i, n, first);
    StaysRecorded(first, BookAfter(book, calls, n), calls[i].fill);
  }

  /** A trade changes the lots at most once, however often and with whatever payload it is sent. */
  lemma EffectAtMostOnce(book: Book, calls: seq<Call>, i: nat, j: nat)
    requires i < j < |calls|
    requires TakesEffect(BookAfter(book, calls, i), calls[i])
    requires calls[j].fill.isBuy == calls[i].fill.isBuy && Key(calls[j].fill) == Key(calls[i].fill)
    ensures !TakesEffect(BookAfter(book, calls, j), calls[j])
    ensures BookAfter(book, calls, j + 1).rows == BookAfter(book, calls, j).rows
  {
    RecordedForever(book, calls, i, j);
  }

  // ---------- replays ----------

  // The sale is on record with its quantity and price, under its own order id if that is known.
  predicate SaleKnown(book: Book, fill: Fill) {
    && Key(fill) in book.consumptions
    && book.consumptions[Key(fill)].qty == NetQuantity(fill) && book.consumptions[Key(fill)].price == fill.price
    && (fill.orderId != "" ==> book.consumptions[Key(fill)].orderId == fill.orderId)
  }

  lemma EffectiveSaleIsKnown(book: Book, c: Call)
    requires TakesEffect(book, c) && !c.fill.isBuy
    ensures SaleKnown(After(book, c), c.fill)
  {
  }

  lemma KnownSaleReplays(book: Book, fill: Fill, clock: int)
    requires SaleKnown(book, fill) && Executable(fill) && fill.tradeId != "" && !fill.isBuy
    ensures Synced(book, fill, clock)
            == if fill.orderId != "" || book.consumptions[Key(fill)].orderId == "" then Ok(book) else Err(SellMismatch)
  {
    assert book.consumptions[Key(fill) := book.consumptions[Key(fill)]] == book.consumptions;
  }

  /** What comes of a sale sent again: it changes nothing, and it is accepted unless it names no order
      and another submission of the trade has named one since. */
  predicate SaleReplays(book: Book, fill: Fill, clock: int) {
    && Key(fill) in book.consumptions
    && Synced(book, fill, clock)
       == if fill.orderId != "" || book.consumptions[Key(fill)].orderId == "" then Ok(book) else Err(SellMismatch)
  }

  lemma ReplayOfSale(before: Book, c: Call, later: Book, clock: int)
    requires TakesEffect(before, c) && !c.fill.isBuy && Extends(After(before, c), later)
    ensures SaleReplays(later, c.fill, clock)
  {
    EffectiveSaleIsKnown(before, c);
    KnownSaleReplays(later, c.fill, clock);
  }

  /** Resubmitting a sale that took effect, at any later time. */
  lemma {:induction false} SaleReplayExactly(book: Book, calls: seq<Call>, i: nat, n: nat, clock: int)
    requires i < n <= |calls| && TakesEffect(BookAfter(book, calls, i), calls[i]) && !calls[i].fill.isBuy
    ensures SaleReplays(BookAfter(book, calls, n), calls[i].fill, clock)
  {
    NextBook(book, calls, i);
    LaterExtends(book, calls, i, n, After(BookAfter(book, calls, i), calls[i]));
    ReplayOfSale(BookAfter(book, calls, i), calls[i], BookAfter(book, calls, n), clock);
  }

  // A purchase that took effect, sent again to a later book.
  predicate PurchaseReplays(book: Book, fill: Fill, clock: int, id: nat) {
    && id < |book.rows| && book.rows[id].tradeId == fill.tradeId && book.rows[id].symbol == fill.symbol
    && Synced(book, fill, clock) == if book.rows[id].qty == NetQuantity(fill) then Ok(book) else Err(BuyMismatch)
  }

  lemma ReplayOfPurchase(before: Book, c: Call, later: Book, clock: int)
    requires TakesEffect(before, c) && c.fill.isBuy && Extends(After(before, c), later)
    ensures PurchaseReplays(later, c.fill, clock, |before.rows|)
  {
    var fill, first := c.fill, After(before, c);
    assert first.rows[|before.rows|] == PurchaseRow(fill, c.clock);
    NewRowIsFirst(before, first, fill, |before.rows|);
    FirstRowSurvives(first, later, fill.symbol, fill.tradeId, 0);
    BuyCostPositive(fill);
  }

  lemma NewRowIsFirst(before: Book, first: Book, fill: Fill, id: nat)
    requires FirstRow(before.rows, fill.symbol, fill.tradeId, 0) == None && |before.rows| == id == |first.rows| - 1
    requires first.rows[..id] == before.rows
    requires first.rows[id].symbol == fill.symbol && first.rows[id].tradeId == fill.tradeId
    ensures FirstRow(first.rows, fill.symbol, fill.tradeId, 0) == Some(id)
  {
    assert forall i | 0 <= i < id :: first.rows[i] == before.rows[i];
  }

  /** Resubmitting a purchase that took effect is recognised exactly while nothing of it has been
      sold; afterwards the same payload is refused. Either way nothing changes. */
  lemma PurchaseReplayExactly(book: Book, calls: seq<Call>, i: nat, n: nat, clock: int) returns (id: nat)
    requires i < n <= |calls| && TakesEffect(BookAfter(book, calls, i), calls[i]) && calls[i].fill.isBuy
    ensures PurchaseReplays(BookAfter(book, calls, n), calls[i].fill, clock, id)
  {
    NextBook(book, calls, i);
    LaterExtends(book, calls, i, n, After(BookAfter(book, calls, i), calls[i]));
    id := |BookAfter(book, calls, i).rows|;
    ReplayOfPurchase(BookAfter(book, calls, i), calls[i], BookAfter(book, calls, n), clock);
  }

  // ---------- agreement with the closed form ----------

  function OpeningTime(calls: seq<Call>, i: nat): int
    requires i < |calls|
  {
    OpenedAt(calls[i].fill.timeMs, calls[i].clock)
  }

  // Fills of one symbol in the order in which their lots open.
  predicate OpenedInTurn(calls: seq<Call>, symbol: string) {
    && (forall i | 0 <= i < |calls| :: calls[i].fill.symbol == symbol)
    && (forall i, j | 0 <= i < j < |calls| :: OpeningTime(calls, i) <= OpeningTime(calls, j))
  }

  /** Fills of one symbol in the order of the exchange's times, whenever they are submitted. */
  predicate FreshChronicle(calls: seq<Call>, symbol: string) {
    && (forall i | 0 <= i < |calls| :: calls[i].fill.symbol == symbol && calls[i].fill.timeMs >= 1000)
    && (forall i, j | 0 <= i < j < |calls| :: calls[i].fill.timeMs <= calls[j].fill.timeMs)
  }

  lemma ChronicleOpensInTurn(calls: seq<Call>, symbol: string)
    requires FreshChronicle(calls, symbol)
    ensures OpenedInTurn(calls, symbol)
  {
  }

  function PurchasesBefore(calls: seq<Call>, n: nat): nat
    requires n <= |calls|
  {
    if n == 0 then 0 else PurchasesBefore(calls, n - 1) + if calls[n - 1].fill.isBuy then 1 else 0
  }

  function AsMoves(calls: seq<Call>): seq<Move<nat>> {
    seq(|calls|, i requires 0 <= i < |calls| =>
      if calls[i].fill.isBuy then Buy(Lot(NetQuantity(calls[i].fill), PurchasesBefore(calls, i)))
      else Sell(NetQuantity(calls[i].fill)))
  }

  ghost predicate AllTakeEffect(calls: seq<Call>, n: nat)
    requires n <= |calls|
  {
    n == 0 || (AllTakeEffect(calls, n - 1) && TakesEffect(BookAfter(Book([], map[]), calls, n - 1), calls[n - 1]))
  }

  // No row is younger than the given opening time.
  predicate OpenedBy(rows: seq<LotRow>, time: int) {
    forall r | 0 <= r < |rows| :: rows[r].openedAt <= time
  }

  lemma PurchaseJoinsQueue(b: Book, c: Call)
    requires TakesEffect(b, c) && c.fill.isBuy && OpenedBy(b.rows, OpenedAt(c.fill.timeMs, c.clock))
    ensures var rows := After(b, c).rows;
            && OldestLots(rows, c.fill.symbol)
                == OldestLots(b.rows, c.fill.symbol) + [Lot(NetQuantity(c.fill), |b.rows|)]
            && |rows| == |b.rows| + 1 && OpenedBy(rows, OpenedAt(c.fill.timeMs, c.clock))
  {
    AppendYoungest(b.rows, PurchaseRow(c.fill, c.clock), c.fill.symbol);
  }

  lemma SaleDrainsQueue(b: Book, c: Call, time: int)
    requires TakesEffect(b, c) && !c.fill.isBuy && OpenedBy(b.rows, time)
    ensures var rows := After(b, c).rows;
            && OldestLots(rows, c.fill.symbol) == Drain(OldestLots(b.rows, c.fill.symbol), NetQuantity(c.fill))
            && NetQuantity(c.fill) <= OpenQuantity(b.rows, c.fill.symbol)
            && |rows| == |b.rows| && OpenedBy(rows, time)
  {
    ConsumptionIsFifo(b.rows, c.fill.symbol, NetQuantity(c.fill));
    var rows := After(b, c).rows;
    ConsumeKeepsAges(b.rows, OldestIds(b.rows, c.fill.symbol), NetQuantity(c.fill));
    forall r | 0 <= r < |rows| ensures rows[r].openedAt <= time {
      assert Ages(rows)[r] == Ages(b.rows)[r];
    }
  }

  ghost predicate QueueIsReplay(b: Book, calls: seq<Call>, symbol: string, n: nat)
    requires n <= |calls|
  {
    && |b.rows| == PurchasesBefore(calls, n)
    && (n > 0 ==> OpenedBy(b.rows, OpeningTime(calls, n - 1)))
    && (n == 0 ==> b.rows == [])
    && Replay([], AsMoves(calls), n) == Some(OldestLots(b.rows, symbol))
  }

  lemma OneCallReplays(b: Book, calls: seq<Call>, symbol: string, n: nat)
    requires n < |calls| && OpenedInTurn(calls, symbol) && QueueIsReplay(b, calls, symbol, n)
             && TakesEffect(b, calls[n])
    ensures QueueIsReplay(After(b, calls[n]), calls, symbol, n + 1)
  {
    assert n > 0 ==> OpeningTime(calls, n - 1) <= OpeningTime(calls, n);
    assert OpenedBy(b.rows, OpeningTime(calls, n));
    if calls[n].fill.isBuy {
      PurchaseJoinsQueue(b, calls[n]);
    } else {
      SaleDrainsQueue(b, calls[n], OpeningTime(calls, n));
    }
  }

  lemma NoCallsReplay(calls: seq<Call>, symbol: string)
    ensures QueueIsReplay(Book([], map[]), calls, symbol, 0)
  {
    assert Ages([]) == [] && OldestIds([], symbol) == [];
  }

  lemma {:induction false} ReplayedInTurn(calls: seq<Call>, symbol: string, n: nat)
    requires n <= |calls| && OpenedInTurn(calls, symbol) && AllTakeEffect(calls, n)
    ensures QueueIsReplay(BookAfter(Book([], map[]), calls, n), calls, symbol, n)
  {
    if n == 0 {
      NoCallsReplay(calls, symbol);
    } else {
      var b := BookAfter(Book([], map[]), calls, n - 1);
      ReplayedInTurn(calls, symbol, n - 1);
      OneCallReplays(b, calls, symbol, n - 1);
    }
  }

  /** From an empty table, fills in the order of the exchange's times leave exactly the lots of the FIFO replay: the
      table's row updates, the importer's list and the digest's queue agree on one closed form. */
  lemma {:induction false} TableIsReplay(calls: seq<Call>, symbol: string, n: nat)
    requires n <= |calls| && FreshChronicle(calls, symbol) && AllTakeEffect(calls, n)
    ensures var rows := BookAfter(Book([], map[]), calls, n).rows;
            |rows| == PurchasesBefore(calls, n) && Replay([], AsMoves(calls), n) == Some(OldestLots(rows, symbol))
  {
    ChronicleOpensInTurn(calls, symbol);
    ReplayedInTurn(calls, symbol, n);
  }

  lemma {:induction false} EffectiveMovesAreValid(calls: seq<Call>, n: nat)
    requires n <= |calls| && AllTakeEffect(calls, n)
    ensures ValidMoves(AsMoves(calls), n)
  {
    if n > 0 {
      EffectiveMovesAreValid(calls, n - 1);
    }
  }

  /** The table against the closed form: purchases drained by all sales together. */
  lemma {:induction false} TableIsClosedForm(calls: seq<Call>, symbol: string, n: nat)
    requires n <= |calls| && FreshChronicle(calls, symbol) && AllTakeEffect(calls, n)
    ensures var moves := AsMoves(calls);
            OldestLots(BookAfter(Book([], map[]), calls, n).rows, symbol) == Drain(Bought(moves, n), Sold(moves, n))
  {
    TableIsReplay(calls, symbol, n);
    var moves := AsMoves(calls);
    EffectiveMovesAreValid(calls, n);
    ReplayClosedForm([], moves, n);
    assert [] + Bought(moves, n) == Bought(moves, n);
  }
}
