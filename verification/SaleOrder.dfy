/** What one fill does to the lot table, in the fill's own terms: when a purchase or a sale is accepted, what the
    new lot holds and costs, and that the purchase which is older on the exchange is sold first, in whatever order the
    fills were submitted. */
module SaleOrder {
  import opened Results
  import opened FifoLots
  import opened TradeAccounting
  import opened FillTerms
  import opened InventoryLots
  import opened InventoryHistory

  // ---------- when a fill is accepted ----------

  predicate Possible(fill: Fill) { fill.tradeId != "" && PossibleAmounts(fill) }

  /** The row of a purchase: what was received, at the cost that was paid for each unit of it, opened in the second
      of the trade. */
  predicate IsPurchaseOf(row: LotRow, fill: Fill) {
    && row.symbol == fill.symbol && row.tradeId == fill.tradeId && row.orderId == fill.orderId && row.batch == ""
    && row.status == Open && !row.fixedPoint && row.qty == Moved(fill)
    && row.price * Moved(fill) == fill.price * fill.qty + CashPaid(fill)
    && (fill.timeMs >= 1000 ==> 0 <= fill.timeMs - 1000 * row.openedAt < 1000)
  }

  lemma PurchaseRowIs(fill: Fill, clock: int)
    requires Executable(fill) && FeeIsValued(fill)
    ensures IsPurchaseOf(PurchaseRow(fill, clock), fill)
  {
    InEngines(fill);
    CostPerUnit(BuyCost(fill), Moved(fill));
  }

  lemma CostPerUnit(cost: real, quantity: real)
    requires quantity > 0.0
    ensures cost / quantity * quantity == cost
  {
  }

  /** A purchase that is not on record is accepted exactly when its amounts are possible and its fee is valued,
      and then its row is added. */
  lemma NewPurchaseExactly(book: Book, fill: Fill, clock: int)
    requires fill.isBuy && !Recorded(book, fill)
    ensures Synced(book, fill, clock).Ok? <==> Possible(fill) && FeeIsValued(fill)
    ensures Synced(book, fill, clock).Ok? ==>
              var after := Synced(book, fill, clock).value;
              && after.consumptions == book.consumptions && |after.rows| == |book.rows| + 1
              && after.rows[..|book.rows|] == book.rows && IsPurchaseOf(after.rows[|book.rows|], fill)
  {
    InEngines(fill);
    if Executable(fill) {
      BuyCostPositive(fill);
      if FeeIsValued(fill) {
        PurchaseRowIs(fill, clock);
      }
    }
  }

  /** A sale that is not on record is accepted exactly when its amounts are possible, the open lots hold it, and
      every lot that older ones leave it to reach is stored as the text of its value. */
  lemma NewSaleExactly(book: Book, fill: Fill, clock: int)
    requires !fill.isBuy && !Recorded(book, fill)
    ensures var ids := OldestIds(book.rows, fill.symbol);
            Synced(book, fill, clock).Ok?
            <==> && Possible(fill) && Moved(fill) <= OpenQuantity(book.rows, fill.symbol)
                 && forall k | 0 <= k < |ids| && Total(AsLots(ids[..k], book.rows)) < Moved(fill) ::
                      book.rows[ids[k]].fixedPoint ==> book.rows[ids[k]].qty >= 0.000001
    ensures Synced(book, fill, clock).Ok? ==>
              Synced(book, fill, clock).value.consumptions
              == book.consumptions[(fill.symbol, fill.tradeId) := Consumption(fill.orderId, Moved(fill), fill.price)]
  {
    InEngines(fill);
    if Executable(fill) {
      TouchedAreRewritable(book.rows, fill.symbol, Moved(fill));
    }
  }

  /** A purchase that is on record is accepted exactly when the row of its trade still holds all that it received, at
      the same cost and under the same order, and was not imported; then nothing changes. */
  lemma KnownPurchaseExactly(book: Book, fill: Fill, clock: int, a: nat)
    requires fill.isBuy && a < |book.rows| && FirstRow(book.rows, fill.symbol, fill.tradeId, 0) == Some(a)
    ensures var row := book.rows[a];
            Synced(book, fill, clock).Ok?
            <==> && Possible(fill) && FeeIsValued(fill) && row.orderId == fill.orderId && row.batch == ""
                 && row.qty == Moved(fill) && row.price * Moved(fill) == fill.price * fill.qty + CashPaid(fill)
    ensures Synced(book, fill, clock).Ok? ==> Synced(book, fill, clock).value == book
  {
    InEngines(fill);
    if Possible(fill) && FeeIsValued(fill) {
      BuyCostPositive(fill);
      SamePerUnit(book.rows[a].price, BuyCost(fill), Moved(fill));
    }
  }

  lemma SamePerUnit(price: real, cost: real, quantity: real)
    requires quantity > 0.0
    ensures price == cost / quantity <==> price * quantity == cost
  {
    assert price * quantity / quantity == price;
  }

  /** A sale that is on record is accepted exactly when it has the quantity and the price on record, and its order
      unless none is on record; then no lot changes, and its order is on record. */
  lemma KnownSaleExactly(book: Book, fill: Fill, clock: int)
    requires !fill.isBuy && (fill.symbol, fill.tradeId) in book.consumptions
    ensures var known := book.consumptions[(fill.symbol, fill.tradeId)];
            && (Synced(book, fill, clock).Ok?
                <==> && Possible(fill) && known.qty == Moved(fill) && known.price == fill.price
                     && (known.orderId == "" || known.orderId == fill.orderId))
            && (Synced(book, fill, clock).Ok? ==>
                  Synced(book, fill, clock).value
                  == book.(consumptions :=
                           book.consumptions[(fill.symbol, fill.tradeId) := known.(orderId := fill.orderId)]))
  {
    InEngines(fill);
  }

  lemma {:induction false} TouchedAreRewritable(rows: seq<LotRow>, symbol: string, sold: real)
    ensures var ids := OldestIds(rows, symbol);
            Rewritable(rows, symbol, sold)
            <==> forall k | 0 <= k < |ids| && Total(AsLots(ids[..k], rows)) < sold :: Canonical(rows[ids[k]])
  {
    var ids := OldestIds(rows, symbol);
    OldestIdsAreLive(rows, symbol);
    forall k | 0 <= k < |ids|
      ensures Total(AsLots(ids[..k], rows)) < sold <==> k < |SalePlan(rows, symbol, sold)|
      ensures k < |SalePlan(rows, symbol, sold)| ==> SalePlan(rows, symbol, sold)[k].id == ids[k]
    {
      TouchedExactly(ids, rows, sold, k);
    }
    AllocationLength(ids, rows, sold);
  }

  // ---------- which lot is sold first ----------

  // Live lots a and b, of which a is the older one, stand in this order in the queue.
  lemma QueuePlaces(rows: seq<LotRow>, symbol: string, a: nat, b: nat) returns (p: nat, q: nat)
    requires a < |rows| && b < |rows| && Live(rows[a], symbol) && Live(rows[b], symbol)
    requires rows[a].openedAt < rows[b].openedAt
    ensures p < q < |OldestIds(rows, symbol)| && OldestIds(rows, symbol)[p] == a && OldestIds(rows, symbol)[q] == b
  {
    var ids := OldestIds(rows, symbol);
    ByAgeIsOrdered(Ages(rows));
    LiveIdsOrdered(ByAge(Ages(rows)), rows, symbol);
    LiveIdsMembers(ByAge(Ages(rows)), rows, symbol);
    assert a in ids && b in ids;
    p :| 0 <= p < |ids| && ids[p] == a;
    q :| 0 <= q < |ids| && ids[q] == b;
    if q < p {
      InAgeOrder(ids, Ages(rows), q, p);
      assert false;
    }
  }

  lemma InAgeOrder(order: seq<nat>, ages: seq<int>, j: nat, k: nat)
    requires Indices(order, |ages|) && OrderedByAge(order, ages) && j < k < |order|
    ensures Older(ages, order[j], order[k])
  {
  }

  lemma QueuedIsPositive(rows: seq<LotRow>, symbol: string, a: nat)
    requires a in OldestIds(rows, symbol)
    ensures a < |rows| && rows[a].qty > 0.0
  {
    OldestIdsAreLive(rows, symbol);
    var k :| 0 <= k < |OldestIds(rows, symbol)| && OldestIds(rows, symbol)[k] == a;
    assert Live(rows[OldestIds(rows, symbol)[k]], symbol);
  }

  predicate AllPositive(rows: seq<LotRow>, ids: seq<nat>)
    requires Indices(ids, |rows|)
  {
    forall k | 0 <= k < |ids| :: rows[ids[k]].qty > 0.0
  }

  // Consuming the first lot and then the rest.
  lemma FirstThenRest(rows: seq<LotRow>, ids: seq<nat>, sold: real) returns (cut: seq<LotRow>, left: real)
    requires Indices(ids, |rows|) && Distinct(ids) && ids != [] && sold > 0.0 && AllPositive(rows, ids)
    ensures |cut| == |rows| && cut == rows[ids[0] := Reduced(rows[ids[0]], sold - left)]
    ensures sold - left == Min(sold, rows[ids[0]].qty)
    ensures ConsumeRows(rows, ids, sold) == ConsumeRows(cut, ids[1..], left)
    ensures Distinct(ids[1..]) && AllPositive(cut, ids[1..]) && ids[0] !in ids[1..]
  {
    var head, rest, used := ids[0], ids[1..], Min(sold, rows[ids[0]].qty);
    cut, left := rows[head := Reduced(rows[head], used)], sold - used;
    assert ids == [head] + rest;
    ConsumeFirst(rows, head, rest, sold);
    assert forall k | 0 <= k < |rest| :: rest[k] == ids[k + 1] != head;
  }

  lemma {:induction false} NothingLeftToSell(rows: seq<LotRow>, ids: seq<nat>, sold: real)
    requires Indices(ids, |rows|) && sold <= 0.0
    ensures ConsumeRows(rows, ids, sold) == rows
  {
  }

  /** If a sale touches a lot, every lot before it in the queue is sold out. */
  lemma {:induction false} EarlierAreSoldOut(rows: seq<LotRow>, ids: seq<nat>, sold: real, p: nat, q: nat)
    requires Indices(ids, |rows|) && Distinct(ids) && p < q < |ids| && AllPositive(rows, ids)
    requires ConsumeRows(rows, ids, sold)[ids[q]] != rows[ids[q]]
    ensures ConsumeRows(rows, ids, sold)[ids[p]].qty == 0.0
    decreases |ids|
  {
    if sold <= 0.0 {
      NothingLeftToSell(rows, ids, sold);
    } else {
      var cut, left := FirstThenRest(rows, ids, sold);
      var rest := ids[1..];
      assert rest[q - 1] == ids[q] && ids[q] != ids[0];
      if p == 0 {
        if left <= 0.0 {
          NothingLeftToSell(cut, rest, left);
        }
        ConsumeTouchesOnly(cut, rest, left, ids[0]);
      } else {
        EarlierAreSoldOut(cut, rest, left, p - 1, q - 1);
      }
    }
  }

  // A row of a purchase: open with something left, or closed with nothing.
  predicate Kept(row: LotRow, fill: Fill, openedAt: int) {
    && row.symbol == fill.symbol && row.tradeId == fill.tradeId && row.openedAt == openedAt
    && ((row.status == Open && row.qty > 0.0) || (row.status == Closed && row.qty == 0.0))
  }

  lemma {:induction false} ConsumedIsKept(rows: seq<LotRow>, ids: seq<nat>, sold: real, a: nat, fill: Fill,
                                          openedAt: int)
    requires Indices(ids, |rows|) && Distinct(ids) && a < |rows| && Kept(rows[a], fill, openedAt)
    requires AllPositive(rows, ids)
    ensures Kept(ConsumeRows(rows, ids, sold)[a], fill, openedAt)
    decreases |ids|
  {
    if ids != [] && sold > 0.0 {
      var cut, left := FirstThenRest(rows, ids, sold);
      ConsumedIsKept(cut, ids[1..], left, a, fill, openedAt);
    }
  }

  lemma CallKeepsRow(book: Book, c: Call, a: nat, fill: Fill, openedAt: int)
    requires a < |book.rows| && Kept(book.rows[a], fill, openedAt)
    ensures a < |After(book, c).rows| && Kept(After(book, c).rows[a], fill, openedAt)
  {
    OneCallExtends(book, c);
    if TakesEffect(book, c) && !c.fill.isBuy {
      OldestIdsAreLive(book.rows, c.fill.symbol);
      ConsumedIsKept(book.rows, OldestIds(book.rows, c.fill.symbol), NetQuantity(c.fill), a, fill, openedAt);
    }
  }

  /** A purchase that took effect has one row for good, opened in the second of its trade. */
  lemma {:induction false} PurchaseKeepsRow(book: Book, calls: seq<Call>, i: nat, n: nat)
    requires i < n <= |calls| && TakesEffect(BookAfter(book, calls, i), calls[i])
    requires calls[i].fill.isBuy && calls[i].fill.timeMs >= 1000
    ensures var a, rows := |BookAfter(book, calls, i).rows|, BookAfter(book, calls, n).rows;
            a < |rows| && Kept(rows[a], calls[i].fill, calls[i].fill.timeMs / 1000)
    decreases n
  {
    if n == i + 1 {
      NewPurchaseExactly(BookAfter(book, calls, i), calls[i].fill, calls[i].clock);
    } else {
      PurchaseKeepsRow(book, calls, i, n - 1);
      CallKeepsRow(BookAfter(book, calls, n - 1), calls[n - 1], |BookAfter(book, calls, i).rows|, calls[i].fill,
                   calls[i].fill.timeMs / 1000);
    }
  }

  lemma SaleOfOlderFirst(book: Book, c: Call, a: nat, b: nat, earlier: Fill, later: Fill, s: int, t: int)
    requires a < |book.rows| && b < |book.rows| && Kept(book.rows[a], earlier, s) && Kept(book.rows[b], later, t)
    requires s < t && earlier.symbol == later.symbol && !c.fill.isBuy
    requires After(book, c).rows[b] != book.rows[b]
    ensures After(book, c).rows[a].qty == 0.0
  {
    var symbol := c.fill.symbol;
    var ids := OldestIds(book.rows, symbol);
    OldestIdsAreLive(book.rows, symbol);
    ConsumeTouchesOnly(book.rows, ids, NetQuantity(c.fill), b);
    ConsumeTouchesOnly(book.rows, ids, NetQuantity(c.fill), a);
    var k :| 0 <= k < |ids| && ids[k] == b;
    if book.rows[a].qty > 0.0 {
      var p, q := QueuePlaces(book.rows, symbol, a, b);
      EarlierAreSoldOut(book.rows, ids, NetQuantity(c.fill), p, q);
    } else {
      assert a !in ids by {
        if a in ids {
          QueuedIsPositive(book.rows, symbol, a);
          assert false;
        }
      }
    }
  }

  /** First in, first out: of two purchases at least a second apart on the exchange, no later sale takes anything of
      the second before the first is sold out, whichever of them was submitted first. */
  lemma FirstInFirstOut(book: Book, calls: seq<Call>, i: nat, j: nat, n: nat)
    requires i < n < |calls| && j < n && calls[i].fill.symbol == calls[j].fill.symbol
    requires calls[i].fill.isBuy && TakesEffect(BookAfter(book, calls, i), calls[i])
    requires calls[j].fill.isBuy && TakesEffect(BookAfter(book, calls, j), calls[j])
    requires 1000 <= calls[i].fill.timeMs && calls[i].fill.timeMs + 1000 <= calls[j].fill.timeMs
    requires !calls[n].fill.isBuy
    ensures var a, b := |BookAfter(book, calls, i).rows|, |BookAfter(book, calls, j).rows|;
            var before, after := BookAfter(book, calls, n).rows, BookAfter(book, calls, n + 1).rows;
            && a < |after| && b < |before| == |after|
            && after[a].tradeId == calls[i].fill.tradeId && after[b].tradeId == calls[j].fill.tradeId
            && (after[b] != before[b] ==> after[a].qty == 0.0)
  {
    var a, b := |BookAfter(book, calls, i).rows|, |BookAfter(book, calls, j).rows|;
    var now := BookAfter(book, calls, n);
    PurchaseKeepsRow(book, calls, i, n);
    PurchaseKeepsRow(book, calls, j, n);
    CallKeepsRow(now, calls[n], a, calls[i].fill, calls[i].fill.timeMs / 1000);
    CallKeepsRow(now, calls[n], b, calls[j].fill, calls[j].fill.timeMs / 1000);
    NextBook(book, calls, n);
    if After(now, calls[n]).rows[b] != now.rows[b] {
      SaleOfOlderFirst(now, calls[n], a, b, calls[i].fill, calls[j].fill, calls[i].fill.timeMs / 1000,
                       calls[j].fill.timeMs / 1000);
    }
  }
}
