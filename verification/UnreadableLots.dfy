/** A sale updates a lot only where the stored text is the text of the quantity that was read. The
    importer stores fixed-point texts, so a lot below a millionth is never found again: exactly which
    sales that refuses, for how long, and how such a lot comes into being. */
module UnreadableLots {
  import opened Results
  import opened FifoLots
  import opened TradeAccounting
  import opened InventoryLots
  import opened InventoryHistory
  import opened SaleOrder
  import opened CostBasisApply
  import Import = CostBasisImport

  // ---------- which sales are accepted ----------

  /** The lots a sale reaches: those before which the older ones do not suffice. */
  predicate Reaches(rows: seq<LotRow>, symbol: string, sold: real, k: nat)
    requires k < |OldestIds(rows, symbol)|
  {
    Total(AsLots(OldestIds(rows, symbol)[..k], rows)) < sold
  }

  /** A sale that is not known yet is accepted exactly when the lots hold it and every lot it reaches
      is stored as the text of its value. */
  lemma SaleAcceptedExactly(book: Book, fill: Fill, clock: int)
    requires Executable(fill) && !fill.isBuy && fill.tradeId != "" && !Recorded(book, fill)
    ensures var net := NetQuantity(fill);
            Synced(book, fill, clock).Ok?
            <==> net <= OpenQuantity(book.rows, fill.symbol)
                 && forall k | 0 <= k < |OldestIds(book.rows, fill.symbol)|
                 && Reaches(book.rows, fill.symbol, net, k) ::
                      Canonical(book.rows[OldestIds(book.rows, fill.symbol)[k]])
  {
    TouchedAreRewritable(book.rows, fill.symbol, NetQuantity(fill));
  }

  lemma {:induction false} ConsumeSkips(rows: seq<LotRow>, ids: seq<nat>, sold: real, i: nat)
    requires Indices(ids, |rows|) && Distinct(ids) && i < |rows|
    requires !Canonical(rows[i]) && AllCanonical(Allocated(ids, rows, sold), rows)
    ensures ConsumeRows(rows, ids, sold)[i] == rows[i]
    decreases |ids|
  {
    if ids != [] && sold > 0.0 {
      var used := Min(sold, rows[ids[0]].qty);
      var cut, plan := rows[ids[0] := Reduced(rows[ids[0]], used)], Allocated(ids, rows, sold);
      PlanHead(ids, rows, sold);
      var rest := Allocated(ids[1..], cut, sold - used);
      assert plan[0].id == ids[0];
      forall k | 0 <= k < |rest| ensures Canonical(cut[rest[k].id]) {
        assert plan[k + 1] == rest[k];
      }
      ConsumeSkips(cut, ids[1..], sold - used, i);
    }
  }

  lemma OneCallSkips(book: Book, c: Call, i: nat)
    requires i < |book.rows| && !Canonical(book.rows[i])
    ensures |book.rows| <= |After(book, c).rows| && After(book, c).rows[i] == book.rows[i]
  {
    OneCallExtends(book, c);
    if TakesEffect(book, c) && !c.fill.isBuy {
      OldestIdsAreLive(book.rows, c.fill.symbol);
      ConsumeSkips(book.rows, OldestIds(book.rows, c.fill.symbol), NetQuantity(c.fill), i);
    }
  }

  /** A lot that is not stored as the text of its value stays as it is through any fills whatever:
      it is never sold, and nothing that has to reach it is. */
  lemma {:induction false} UnreadableLotStays(book: Book, calls: seq<Call>, i: nat, n: nat)
    requires i < |book.rows| && !Canonical(book.rows[i]) && n <= |calls|
    ensures |book.rows| <= |BookAfter(book, calls, n).rows| && BookAfter(book, calls, n).rows[i] == book.rows[i]
  {
    if n > 0 {
      UnreadableLotStays(book, calls, i, n - 1);
      OneCallSkips(BookAfter(book, calls, n - 1), calls[n - 1], i);
    }
  }

  // ---------- an unreadable lot at the front stops all sales ----------

  /** Row i is an open lot of the symbol that cannot be updated, and no open lot is older. */
  ghost predicate Blocks(rows: seq<LotRow>, symbol: string, i: nat) {
    && i < |rows| && Live(rows[i], symbol) && !Canonical(rows[i])
    && forall j | 0 <= j < |rows| && j != i && IsOpen(rows[j], symbol) :: Older(Ages(rows), i, j)
  }

  lemma BlockingLotIsFirst(rows: seq<LotRow>, symbol: string, i: nat)
    requires Blocks(rows, symbol, i)
    ensures OldestIds(rows, symbol) != [] && OldestIds(rows, symbol)[0] == i
  {
    var ids := OldestIds(rows, symbol);
    ByAgeIsOrdered(Ages(rows));
    LiveIdsOrdered(ByAge(Ages(rows)), rows, symbol);
    LiveIdsMembers(ByAge(Ages(rows)), rows, symbol);
    assert i in ids && ids[0] in ids;
    var k :| 0 <= k < |ids| && ids[k] == i;
    assert ids[0] != i ==> Older(Ages(rows), i, ids[0]);
  }

  lemma BlockedSale(book: Book, fill: Fill, clock: int, i: nat)
    requires Blocks(book.rows, fill.symbol, i) && !fill.isBuy && !Recorded(book, fill)
    ensures Synced(book, fill, clock).Err?
  {
    if Executable(fill) && fill.tradeId != "" {
      BlockingLotIsFirst(book.rows, fill.symbol, i);
      assert OldestIds(book.rows, fill.symbol)[..0] == [];
      assert Reaches(book.rows, fill.symbol, NetQuantity(fill), 0);
      SaleAcceptedExactly(book, fill, clock);
    }
  }

  lemma OneCallKeepsBlock(book: Book, c: Call, symbol: string, i: nat)
    requires Blocks(book.rows, symbol, i) && OpenedAt(c.fill.timeMs, c.clock) >= book.rows[i].openedAt
    ensures Blocks(After(book, c).rows, symbol, i) && After(book, c).rows[i] == book.rows[i]
  {
    OneCallSkips(book, c, i);
    OneCallExtends(book, c);
    var rows := After(book, c).rows;
    forall j | 0 <= j < |rows| && j != i && IsOpen(rows[j], symbol) ensures Older(Ages(rows), i, j) {
      if j < |book.rows| {
        StaysShut(book, c, symbol, j);
        assert Older(Ages(book.rows), i, j);
      } else {
        assert rows[j] == PurchaseRow(c.fill, c.clock);
      }
    }
  }

  // A row that is not open stays so.
  lemma StaysShut(book: Book, c: Call, symbol: string, j: nat)
    requires j < |book.rows| && j < |After(book, c).rows| && IsOpen(After(book, c).rows[j], symbol)
    ensures IsOpen(book.rows[j], symbol)
  {
    if TakesEffect(book, c) && !c.fill.isBuy {
      var ids := OldestIds(book.rows, c.fill.symbol);
      ConsumeTouchesOnly(book.rows, ids, NetQuantity(c.fill), j);
      OldestIdsAreLive(book.rows, c.fill.symbol);
      if j in ids {
        var k :| 0 <= k < |ids| && ids[k] == j;
        assert Live(book.rows[ids[k]], c.fill.symbol);
      }
    }
  }

  lemma OpensInItsSecond(c: Call, second: int)
    requires c.fill.timeMs >= 1000 && c.fill.timeMs >= 1000 * second
    ensures OpenedAt(c.fill.timeMs, c.clock) >= second
  {
  }

  /** No fill of a later time unblocks it: whatever is bought afterwards, every new sale of the symbol
      is refused. */
  lemma {:induction false} SalesBlockedForever(book: Book, calls: seq<Call>, symbol: string, i: nat, n: nat)
    requires Blocks(book.rows, symbol, i) && n <= |calls|
    requires forall k | 0 <= k < n ::
               calls[k].fill.timeMs >= 1000 && calls[k].fill.timeMs >= 1000 * book.rows[i].openedAt
    ensures Blocks(BookAfter(book, calls, n).rows, symbol, i) && BookAfter(book, calls, n).rows[i] == book.rows[i]
    ensures forall fill: Fill, clock | fill.symbol == symbol && !fill.isBuy
            && !Recorded(BookAfter(book, calls, n), fill) ::
              Synced(BookAfter(book, calls, n), fill, clock).Err?
  {
    if n > 0 {
      SalesBlockedForever(book, calls, symbol, i, n - 1);
      OpensInItsSecond(calls[n - 1], book.rows[i].openedAt);
      OneCallKeepsBlock(BookAfter(book, calls, n - 1), calls[n - 1], symbol, i);
    }
    var b := BookAfter(book, calls, n);
    forall fill: Fill, clock | fill.symbol == symbol && !fill.isBuy && !Recorded(b, fill)
      ensures Synced(b, fill, clock).Err?
    {
      BlockedSale(b, fill, clock, i);
    }
  }

  // ---------- where such lots come from ----------

  lemma {:induction false} LotRowsAt(lots: seq<Import.ImportedLot>, symbol: string, batch: string, j: nat)
    requires j < |lots|
    ensures |LotRows(lots, symbol, batch)| == |lots|
    ensures LotRows(lots, symbol, batch)[j] == LotRowFor(lots[j], symbol, batch)
  {
    var rest := lots[..|lots| - 1];
    if j < |rest| {
      LotRowsAt(rest, symbol, batch, j);
    } else if rest != [] {
      LotRowsAt(rest, symbol, batch, 0);
    }
  }

  lemma AppliedRows(db: Database, plan: Import.Plan, symbol: string, batchOf: Import.Plan -> string,
                    statsMax: Option<int>)
    requires !WasApplied(db.imports, plan) && ApplyPlan(db, plan, plan, symbol, batchOf, statsMax, true).Ok?
    ensures ApplyPlan(db, plan, plan, symbol, batchOf, statsMax, true).value.rows
            == ReplacedRows(db.rows, plan, symbol, batchOf(plan))
  {
  }

  lemma ReplacedRowAt(rows: seq<LotRow>, plan: Import.Plan, symbol: string, batch: string, j: nat)
    requires j < |plan.lots|
    ensures |ReplacedRows(rows, plan, symbol, batch)| == |rows| + |plan.lots|
    ensures ReplacedRows(rows, plan, symbol, batch)[|rows| + j] == LotRowFor(plan.lots[j], symbol, batch)
  {
    LotRowsAt(plan.lots, symbol, batch, j);
  }

  /** An import leaves an unreadable lot exactly where the plan has one below a millionth. */
  lemma ImportedUnreadableExactly(db: Database, plan: Import.Plan, symbol: string, batchOf: Import.Plan -> string,
                                  statsMax: Option<int>, j: nat)
    requires !WasApplied(db.imports, plan) && j < |plan.lots|
    requires ApplyPlan(db, plan, plan, symbol, batchOf, statsMax, true).Ok?
    ensures var rows := ApplyPlan(db, plan, plan, symbol, batchOf, statsMax, true).value.rows;
            && |rows| == |db.rows| + |plan.lots| && rows[|db.rows| + j].qty == plan.lots[j].quantity
            && (Canonical(rows[|db.rows| + j]) <==> plan.lots[j].quantity >= 0.000001)
  {
    AppliedRows(db, plan, symbol, batchOf, statsMax);
    ReplacedRowAt(db.rows, plan, symbol, batchOf(plan), j);
  }

  // A purchase of 0.9995 with its commission in the base asset, and a sale of all but half a millionth of it.
  function ExampleRequest(): Import.Request {
    Import.Request("B", "Q", 0.0000005, 0.0, 0.0,
      [Import.RawTrade(1, "7", 1000, true, 10.0, 0.9995, 0.0009995, "B", None),
       Import.RawTrade(2, "8", 2000, false, 12.0, 0.9985, 0.0, "", None)], 3000)
  }

  function ExampleHistory(): seq<Import.Trade> {
    [Import.Trade(1, "7", 1000, true, 10.0, 0.9995, 0.0009995, "B", 0.009995),
     Import.Trade(2, "8", 2000, false, 12.0, 0.9985, 0.0, "", 0.0)]
  }

  lemma ExampleNormalizes()
    ensures var req := ExampleRequest(); Import.NormalizedAll(req.rows, req.base, req.quote) == Ok(ExampleHistory())
  {
    var req, h := ExampleRequest(), ExampleHistory();
    var rows := req.rows;
    assert rows[..1][..0] == [] && Import.NormalizedAll([], "B", "Q") == Ok([]);
    assert Import.Normalized(rows[0], "B", "Q") == Ok(h[0]);
    assert Import.NormalizedAll(rows[..1], "B", "Q") == Ok([] + [h[0]]);
    assert Import.Normalized(rows[1], "B", "Q") == Ok(h[1]);
    assert [] + [h[0]] + [h[1]] == h;
  }

  lemma ExampleSorted()
    ensures Import.Sorted(ExampleHistory()) == ExampleHistory()
  {
    var h := ExampleHistory();
    assert h[..1][..0] == [] && Import.Sorted([]) == [];
    assert Import.Sorted(h[..1]) == [h[0]];
    assert [h[0]] + [h[1]] == h;
  }

  lemma ExampleSurvivor()
    ensures var h := ExampleHistory();
            && Import.Running(h, "B", 2) == 0.0000005 && Import.MinimumRunning(h, "B", 2) == 0.0
            && Import.BadBuy(h, "B", 2) == None
            && |Import.Survivors(h, "B")| == 1 && Import.Survivors(h, "B")[0].qty == 0.0000005
            && !Import.Survivors(h, "B")[0].tag.unpriced
  {
    var h := ExampleHistory();
    var moves := Import.Moves(h, "B");
    assert Import.Running(h, "B", 1) == 0.9985005 && Import.MinimumRunning(h, "B", 1) == 0.0;
    assert moves[0].Buy? && moves[0].lot.qty == 0.9985005 && moves[1] == Sell(0.9985);
    assert Bought(moves, 1) == [] + [moves[0].lot] == [moves[0].lot];
    assert Bought(moves, 2) == [moves[0].lot] && Sold(moves, 1) == 0.0 && Sold(moves, 2) == 0.9985;
    assert Import.BadBuy(h, "B", 1) == None;
  }

  lemma ExamplePlan()
    ensures Import.PlanFor(ExampleRequest()).Ok?
    ensures var plan := Import.PlanFor(ExampleRequest()).value; |plan.lots| == 1 && plan.lots[0].quantity == 0.0000005
  {
    ExampleNormalizes();
    ExampleSorted();
    ExampleSurvivor();
    var survivors := Import.Survivors(ExampleHistory(), "B");
    assert survivors[..0] == [] && Import.Imported([]) == [];
  }

  /** Importing that history into an empty table leaves a lot that blocks every new sale of the symbol
      for good. */
  lemma BlockingLotIsReachable(batchOf: Import.Plan -> string, statsMax: Option<int>)
    ensures Import.PlanFor(ExampleRequest()).Ok?
    ensures var plan := Import.PlanFor(ExampleRequest()).value;
            var r := ApplyPlan(Database([], [], map[]), plan, plan, "BQ", batchOf, statsMax, true);
            r.Ok? && Blocks(r.value.rows, "BQ", 0)
  {
    ExamplePlan();
    var plan := Import.PlanFor(ExampleRequest()).value;
    RebuiltPlanApplies(Database([], [], map[]), ExampleRequest(), "BQ", batchOf, statsMax, true);
    AppliedRows(Database([], [], map[]), plan, "BQ", batchOf, statsMax);
    ReplacedRowAt([], plan, "BQ", batchOf(plan), 0);
  }
}
