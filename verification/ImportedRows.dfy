/** What an import does to the lot table: the rows it retires and those it adds, the queue it leaves for its symbol, and
    that no other symbol notices. */
module ImportedRows {
  import opened Results
  import opened FifoLots
  import opened InventoryLots
  import opened UnreadableLots
  import opened CostBasisApply
  import opened DecimalText
  import Import = CostBasisImport
  import Sources = CostBasisSources

  // ---------- when a plan is applied ----------

  /** A plan is applied exactly when it is the one that the exchange's state gives now, and it was applied
      before, or the imported rows pass their checks and the risk ledger accepts them. Otherwise the first of
      these that fails is reported. */
  lemma AppliedExactly(db: Database, plan: Import.Plan, rebuilt: Import.Plan, symbol: string,
                       batchOf: Import.Plan -> string, statsMax: Option<int>, riskAccepts: bool)
    ensures var refusal := Refusal(ReplacedRows(db.rows, plan, symbol, batchOf(plan)), plan, symbol);
            var r := ApplyPlan(db, plan, rebuilt, symbol, batchOf, statsMax, riskAccepts);
            var known := exists i | 0 <= i < |db.imports| :: db.imports[i].plan == plan;
            && (r.Ok? <==> rebuilt == plan && (known || (refusal == None && riskAccepts)))
            && (rebuilt != plan ==> r == Err(StalePlan))
            && (r.Ok? && known ==> r.value == db)
            && (rebuilt == plan && !known && refusal.Some? ==> r == Err(refusal.value))
            && (rebuilt == plan && !known && refusal == None && !riskAccepts ==> r == Err(RiskBasisRefused))
  {
  }

  // ---------- which rows change ----------

  /** The row of an imported lot. */
  predicate IsLot(row: LotRow, lot: Import.ImportedLot, symbol: string, batch: string) {
    && row.symbol == symbol && row.qty == lot.quantity && row.price == lot.unitCost && row.orderId == lot.orderId
    && row.batch == batch && row.status == Open && row.fixedPoint
    && 0 <= lot.openedAt - 1000 * row.openedAt < 1000
    && (lot.tradeId >= 0 ==> AllDigits(row.tradeId) && Value(row.tradeId) == lot.tradeId)
  }

  lemma LotIsKept(lot: Import.ImportedLot, symbol: string, batch: string)
    ensures IsLot(LotRowFor(lot, symbol, batch), lot, symbol, batch)
  {
    if lot.tradeId >= 0 {
      DigitsRoundTrip(lot.tradeId);
    }
  }

  /** A first application retires the symbol's open rows, adds one row a lot, in the plan's order, and changes nothing
      else; the symbol's inventory becomes the plan's, at the profit realised before. */
  lemma ImportExactly(db: Database, plan: Import.Plan, symbol: string, batchOf: Import.Plan -> string,
                      statsMax: Option<int>)
    requires !WasApplied(db.imports, plan) && ApplyPlan(db, plan, plan, symbol, batchOf, statsMax, true).Ok?
    ensures var after, n := ApplyPlan(db, plan, plan, symbol, batchOf, statsMax, true).value, |db.rows|;
            && |after.rows| == n + |plan.lots|
            && (forall k | 0 <= k < n ::
                  after.rows[k] == if db.rows[k].symbol == symbol && db.rows[k].status == Open
                                   then db.rows[k].(status := LotStatus.Superseded) else db.rows[k])
            && (forall j | 0 <= j < |plan.lots| :: IsLot(after.rows[n + j], plan.lots[j], symbol, batchOf(plan)))
            && |after.imports| == |db.imports| + 1 && after.imports[..|db.imports|] == db.imports
            && after.imports[|db.imports|].plan == plan
            && symbol in after.inventory
            && (forall other | other != symbol ::
                  (other in after.inventory <==> other in db.inventory)
                  && (other in db.inventory ==> after.inventory[other] == db.inventory[other]))
            && var now := after.inventory[symbol];
            && now.quantity == plan.reconstructed && now.average == plan.weightedAverage
            && now.lastTradeId == plan.lastTradeId
            && now.realized == (if symbol in db.inventory then db.inventory[symbol].realized else 0.0)
  {
    AppliedRows(db, plan, symbol, batchOf, statsMax);
    forall j | 0 <= j < |plan.lots|
      ensures var rows := ReplacedRows(db.rows, plan, symbol, batchOf(plan));
              |rows| == |db.rows| + |plan.lots| && IsLot(rows[|db.rows| + j], plan.lots[j], symbol, batchOf(plan))
    {
      ReplacedRowAt(db.rows, plan, symbol, batchOf(plan), j);
      LotIsKept(plan.lots[j], symbol, batchOf(plan));
    }
    RowsOfLots(plan.lots, symbol, batchOf(plan));
  }

  lemma {:induction false} RowsOfLots(lots: seq<Import.ImportedLot>, symbol: string, batch: string)
    ensures |LotRows(lots, symbol, batch)| == |lots|
  {
    if lots != [] {
      RowsOfLots(lots[..|lots| - 1], symbol, batch);
    }
  }

  // ---------- the queues ----------

  predicate Rising(ids: seq<nat>) {
    forall j, k | 0 <= j < k < |ids| :: ids[j] < ids[k]
  }

  predicate RangeOf(ids: seq<nat>, n: nat, m: nat) {
    (forall k | 0 <= k < |ids| :: n <= ids[k] < n + m) && forall x: nat | n <= x < n + m :: x in ids
  }

  lemma LastOfRange(ids: seq<nat>, n: nat, m: nat)
    requires Rising(ids) && RangeOf(ids, n, m) && m > 0
    ensures ids != [] && ids[|ids| - 1] == n + m - 1
    ensures Rising(ids[..|ids| - 1]) && RangeOf(ids[..|ids| - 1], n, m - 1)
  {
    var last := n + m - 1;
    assert last in ids;
    var p :| 0 <= p < |ids| && ids[p] == last;
    assert n <= ids[|ids| - 1] <= ids[p];
    var rest := ids[..|ids| - 1];
    forall x: nat | n <= x < last ensures x in rest {
      assert x in ids;
      var q :| 0 <= q < |ids| && ids[q] == x;
      assert rest[q] == x;
    }
  }

  // Rising numbers that are exactly those from n up to n + m.
  lemma {:induction false} RisingRange(ids: seq<nat>, n: nat, m: nat)
    requires Rising(ids) && RangeOf(ids, n, m)
    ensures |ids| == m && forall k | 0 <= k < m :: ids[k] == n + k
    decreases m
  {
    assert ids != [] ==> n <= ids[0] < n + m;
    if m > 0 {
      LastOfRange(ids, n, m);
      RisingRange(ids[..|ids| - 1], n, m - 1);
    }
  }

  lemma QueueIsRange(rows: seq<LotRow>, symbol: string, n: nat, m: nat)
    requires n + m == |rows| && (forall k | 0 <= k < n :: !Live(rows[k], symbol))
    requires forall k | n <= k < n + m :: Live(rows[k], symbol)
    requires forall j, k | n <= j < k < n + m :: rows[j].openedAt <= rows[k].openedAt
    ensures |OldestIds(rows, symbol)| == m && forall k | 0 <= k < m :: OldestIds(rows, symbol)[k] == n + k
  {
    var ids := OldestIds(rows, symbol);
    ByAgeIsOrdered(Ages(rows));
    LiveIdsOrdered(ByAge(Ages(rows)), rows, symbol);
    LiveIdsMembers(ByAge(Ages(rows)), rows, symbol);
    forall j, k | 0 <= j < k < |ids| ensures ids[j] < ids[k] {
      assert ids[j] in ids && ids[k] in ids;
      assert Older(Ages(rows), ids[j], ids[k]);
    }
    forall k | 0 <= k < |ids| ensures n <= ids[k] < n + m {
      assert ids[k] in ids;
    }
    RisingRange(ids, n, m);
  }

  /** The imported lots are the whole queue of the symbol, in the order of the plan, the oldest first. */
  lemma QueueIsPlan(db: Database, req: Import.Request, order: seq<Import.RawTrade>, symbol: string,
                    batchOf: Import.Plan -> string, statsMax: Option<int>)
    requires Sources.Arranged(order, req.rows) && Import.PlanFor(req).Ok?
    requires var plan := Import.PlanFor(req).value;
             !WasApplied(db.imports, plan) && ApplyPlan(db, plan, plan, symbol, batchOf, statsMax, true).Ok?
    ensures var plan := Import.PlanFor(req).value;
            var rows := ApplyPlan(db, plan, plan, symbol, batchOf, statsMax, true).value.rows;
            var ids := OldestIds(rows, symbol);
            |ids| == |plan.lots| && forall j | 0 <= j < |ids| ::
              ids[j] == |db.rows| + j && rows[ids[j]].qty == plan.lots[j].quantity
              && rows[ids[j]].price == plan.lots[j].unitCost
  {
    PlanIsInTime(req, order);
    QueueIsLots(db, Import.PlanFor(req).value, symbol, batchOf, statsMax);
  }

  lemma PlanIsInTime(req: Import.Request, order: seq<Import.RawTrade>)
    requires Sources.Arranged(order, req.rows) && Import.PlanFor(req).Ok?
    ensures SoundInTime(Import.PlanFor(req).value.lots)
  {
    var lots := Import.PlanFor(req).value.lots;
    Import.PlanReconciles(req);
    forall j | 0 <= j < |lots| ensures lots[j].quantity > 0.0 {
      assert Import.SoundLot(lots[j]);
    }
    forall i, j | 0 <= i < j < |lots| ensures lots[i].openedAt <= lots[j].openedAt {
      Sources.LotsAreInTime(req, order, i, j);
    }
  }

  lemma QueueIsLots(db: Database, plan: Import.Plan, symbol: string, batchOf: Import.Plan -> string,
                    statsMax: Option<int>)
    requires !WasApplied(db.imports, plan) && ApplyPlan(db, plan, plan, symbol, batchOf, statsMax, true).Ok?
    requires SoundInTime(plan.lots)
    ensures var rows := ApplyPlan(db, plan, plan, symbol, batchOf, statsMax, true).value.rows;
            var ids := OldestIds(rows, symbol);
            |ids| == |plan.lots| && forall j | 0 <= j < |ids| ::
              ids[j] == |db.rows| + j && rows[ids[j]].qty == plan.lots[j].quantity
              && rows[ids[j]].price == plan.lots[j].unitCost
  {
    ImportExactly(db, plan, symbol, batchOf, statsMax);
    var rows := ApplyPlan(db, plan, plan, symbol, batchOf, statsMax, true).value.rows;
    LotsAreQueued(rows, |db.rows|, plan.lots, symbol, batchOf(plan));
  }

  predicate SoundInTime(lots: seq<Import.ImportedLot>) {
    && (forall j | 0 <= j < |lots| :: lots[j].quantity > 0.0)
    && forall i, j | 0 <= i < j < |lots| :: lots[i].openedAt <= lots[j].openedAt
  }

  lemma LotsAreQueued(rows: seq<LotRow>, n: nat, lots: seq<Import.ImportedLot>, symbol: string, batch: string)
    requires n + |lots| == |rows| && (forall k | 0 <= k < n :: !IsOpen(rows[k], symbol))
    requires forall j | 0 <= j < |lots| :: IsLot(rows[n + j], lots[j], symbol, batch)
    requires SoundInTime(lots)
    ensures var ids := OldestIds(rows, symbol);
            |ids| == |lots| && forall j | 0 <= j < |ids| ::
              ids[j] == n + j && rows[ids[j]].qty == lots[j].quantity && rows[ids[j]].price == lots[j].unitCost
  {
    forall k | n <= k < |rows| ensures Live(rows[k], symbol) {
      assert IsLot(rows[n + (k - n)], lots[k - n], symbol, batch);
    }
    forall j, k | n <= j < k < |rows| ensures rows[j].openedAt <= rows[k].openedAt {
      assert IsLot(rows[n + (j - n)], lots[j - n], symbol, batch);
      assert IsLot(rows[n + (k - n)], lots[k - n], symbol, batch);
    }
    QueueIsRange(rows, symbol, n, |lots|);
  }

  /** The lots of every other symbol are the same as before, in the same order. */
  lemma OthersDoNotNotice(db: Database, plan: Import.Plan, symbol: string, batchOf: Import.Plan -> string,
                          statsMax: Option<int>, other: string)
    requires !WasApplied(db.imports, plan) && ApplyPlan(db, plan, plan, symbol, batchOf, statsMax, true).Ok?
    requires other != symbol
    ensures var rows := ApplyPlan(db, plan, plan, symbol, batchOf, statsMax, true).value.rows;
            OldestLots(rows, other) == OldestLots(db.rows, other)
  {
    AppliedRows(db, plan, symbol, batchOf, statsMax);
    var retired := SupersedeOpen(db.rows, symbol);
    RetiredElsewhere(ByAge(Ages(db.rows)), db.rows, symbol, other);
    assert Ages(retired) == Ages(db.rows);
    LotsElsewhere(plan.lots, symbol, batchOf(plan), other);
    AddedElsewhere(retired, LotRows(plan.lots, symbol, batchOf(plan)), other);
  }

  lemma {:induction false} LotsElsewhere(lots: seq<Import.ImportedLot>, symbol: string, batch: string, other: string)
    requires other != symbol
    ensures NoneLive(LotRows(lots, symbol, batch), other)
  {
    if lots != [] {
      LotsElsewhere(lots[..|lots| - 1], symbol, batch, other);
    }
  }

  lemma {:induction false} RetiredElsewhere(order: seq<nat>, rows: seq<LotRow>, symbol: string, other: string)
    requires Indices(order, |rows|) && other != symbol
    ensures LiveIds(order, SupersedeOpen(rows, symbol), other) == LiveIds(order, rows, other)
    ensures AsLots(LiveIds(order, rows, other), SupersedeOpen(rows, symbol))
            == AsLots(LiveIds(order, rows, other), rows)
  {
    if order != [] {
      RetiredElsewhere(order[1..], rows, symbol, other);
    }
  }

  predicate NoneLive(rows: seq<LotRow>, symbol: string) {
    forall k | 0 <= k < |rows| :: !Live(rows[k], symbol)
  }

  // A row that is not live for the symbol takes a place in the order of age, but none in the queue.
  lemma {:induction false} InsertIdle(order: seq<nat>, rows: seq<LotRow>, symbol: string, id: nat)
    requires Indices(order, |rows|) && id < |rows| && !Live(rows[id], symbol)
    ensures LiveIds(InsertByAge(order, Ages(rows), id), rows, symbol) == LiveIds(order, rows, symbol)
  {
    LiveOne(rows, symbol, id);
    if order == [] || Ages(rows)[order[|order| - 1]] <= Ages(rows)[id] {
      LiveIdsConcat(order, [id], rows, symbol);
    } else {
      var rest, last := order[..|order| - 1], order[|order| - 1];
      InsertIdle(rest, rows, symbol, id);
      assert order == rest + [last];
      LiveIdsConcat(rest, [last], rows, symbol);
      LiveIdsConcat(InsertByAge(rest, Ages(rows), id), [last], rows, symbol);
    }
  }

  lemma AddedIdle(rows: seq<LotRow>, row: LotRow, symbol: string)
    requires !Live(row, symbol)
    ensures OldestLots(rows + [row], symbol) == OldestLots(rows, symbol)
  {
    assert Ages(rows + [row])[..|rows|] == Ages(rows);
    LiveIdsOfPrefix(ByAge(Ages(rows)), rows, [row], symbol);
    InsertIdle(ByAge(Ages(rows)), rows + [row], symbol, |rows|);
  }

  lemma {:induction false} AddedElsewhere(rows: seq<LotRow>, more: seq<LotRow>, symbol: string)
    requires NoneLive(more, symbol)
    ensures OldestLots(rows + more, symbol) == OldestLots(rows, symbol)
  {
    if more == [] {
      assert rows + more == rows;
    } else {
      var rest, last := more[..|more| - 1], more[|more| - 1];
      AddedElsewhere(rows, rest, symbol);
      AddedIdle(rows + rest, last, symbol);
      assert rows + more == (rows + rest) + [last];
    }
  }
}
