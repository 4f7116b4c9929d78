/** Applying a verified cost-basis plan: the symbol's open lots are superseded by the plan's lots in
    one transaction, the result is checked against the account, and a plan is applied at most once. */
module CostBasisApply {
  import opened Results
  import opened FifoLots
  import opened InventoryLots
  import opened DecimalText
  import Import = CostBasisImport

  datatype CoverageReason = MissingProvenance | UncoveredQuantity | LotsExceedAccount | Covered

  datatype Coverage = Coverage(
    account: real, coveredQty: real, average: Option<real>, uncovered: real, tolerance: real,
    covered: bool, reason: CoverageReason)

  // ---------- coverage of an account quantity by priced, attributable lots ----------

  predicate Sourced(row: LotRow) {
    row.price > 0.0 && (row.orderId != "" || row.tradeId != "")
  }

  function QuantityPart(symbol: string): LotRow -> real {
    row => if Live(row, symbol) && Sourced(row) then row.qty else 0.0
  }

  function CostPart(symbol: string): LotRow -> real {
    row => if Live(row, symbol) && Sourced(row) then row.qty * row.price else 0.0
  }

  function BrokenPart(symbol: string): LotRow -> real {
    row => if Live(row, symbol) && !Sourced(row) then 1.0 else 0.0
  }

  function SumOver(order: seq<nat>, rows: seq<LotRow>, part: LotRow -> real): real
    requires Indices(order, |rows|)
  {
    if order == [] then 0.0 else SumOver(order[..|order| - 1], rows, part) + part(rows[order[|order| - 1]])
  }

  lemma {:induction false} SumOfNext(order: seq<nat>, k: nat, rows: seq<LotRow>, part: LotRow -> real)
    requires Indices(order, |rows|) && k < |order|
    ensures SumOver(order[..k + 1], rows, part) == SumOver(order[..k], rows, part) + part(rows[order[k]])
  {
    assert order[..k + 1][..k] == order[..k];
  }

  function Verdict(account: real, coveredQty: real, coveredCost: real, broken: bool, tolerance: real): Coverage {
    var limit, delta := Max(0.0, tolerance), account - coveredQty;
    Coverage(account, coveredQty, if coveredQty > 0.0 then Some(coveredCost / coveredQty) else None,
             Max(0.0, delta), limit, !broken && -limit <= delta <= limit,
             if broken then MissingProvenance else if delta > limit then UncoveredQuantity
             else if delta < -limit then LotsExceedAccount else Covered)
  }

  function CoverageOf(rows: seq<LotRow>, symbol: string, account: real, tolerance: real): Coverage {
    var order := ByAge(Ages(rows));
    Verdict(account, SumOver(order, rows, QuantityPart(symbol)), SumOver(order, rows, CostPart(symbol)),
            SumOver(order, rows, BrokenPart(symbol)) > 0.0, tolerance)
  }

  method CostBasisCoverage(rows: seq<LotRow>, symbol: string, account: real, tolerance: real)
      returns (r: Option<Coverage>)
    ensures r == if account < 0.0 then None else Some(CoverageOf(rows, symbol, account, tolerance))
  {
    if account < 0.0 {
      return None;
    }
    var order := ByAge(Ages(rows));
    var quantity, cost, broken := 0.0, 0.0, 0;
    for k := 0 to |order|
      invariant quantity == SumOver(order[..k], rows, QuantityPart(symbol))
      invariant cost == SumOver(order[..k], rows, CostPart(symbol))
      invariant broken as real == SumOver(order[..k], rows, BrokenPart(symbol))
    {
      var row := rows[order[k]];
      SumOfNext(order, k, rows, QuantityPart(symbol));
      SumOfNext(order, k, rows, CostPart(symbol));
      SumOfNext(order, k, rows, BrokenPart(symbol));
      if IsOpen(row, symbol) && row.qty > 0.0 {
        if row.price <= 0.0 || !(row.orderId != "" || row.tradeId != "") {
          broken := broken + 1;
        } else {
          quantity := quantity + row.qty;
          cost := cost + row.qty * row.price;
        }
      }
    }
    assert order[..|order|] == order;
    return Some(Verdict(account, quantity, cost, broken > 0, tolerance));
  }

  // ---------- sums do not depend on the order of reading ----------

  function RowSum(rows: seq<LotRow>, part: LotRow -> real): real {
    if rows == [] then 0.0 else RowSum(rows[..|rows| - 1], part) + part(rows[|rows| - 1])
  }

  lemma {:induction false} InsertSum(order: seq<nat>, rows: seq<LotRow>, id: nat, part: LotRow -> real)
    requires Indices(order, |rows|) && id < |rows|
    ensures SumOver(InsertByAge(order, Ages(rows), id), rows, part) == SumOver(order, rows, part) + part(rows[id])
  {
    var r := InsertByAge(order, Ages(rows), id);
    if order != [] && Ages(rows)[order[|order| - 1]] > Ages(rows)[id] {
      InsertSum(order[..|order| - 1], rows, id, part);
      assert r[..|r| - 1] == InsertByAge(order[..|order| - 1], Ages(rows), id);
    } else {
      assert r[..|r| - 1] == order;
    }
  }

  lemma {:induction false} SumOfPrefix(order: seq<nat>, rows: seq<LotRow>, more: seq<LotRow>, part: LotRow -> real)
    requires Indices(order, |rows|)
    ensures SumOver(order, rows + more, part) == SumOver(order, rows, part)
  {
    if order != [] {
      SumOfPrefix(order[..|order| - 1], rows, more, part);
    }
  }

  lemma {:induction false} ByAgeNext(rest: seq<LotRow>, last: LotRow)
    ensures var rows := rest + [last]; ByAge(Ages(rows)) == InsertByAge(ByAge(Ages(rest)), Ages(rows), |rest|)
  {
    assert Ages(rest + [last])[..|rest|] == Ages(rest);
  }

  lemma {:induction false} SumNext(rest: seq<LotRow>, last: LotRow, part: LotRow -> real)
    ensures var rows := rest + [last];
            SumOver(ByAge(Ages(rows)), rows, part) == SumOver(ByAge(Ages(rest)), rest, part) + part(last)
  {
    var order := ByAge(Ages(rest));
    ByAgeNext(rest, last);
    SumOfPrefix(order, rest, [last], part);
    InsertSum(order, rest + [last], |rest|, part);
  }

  lemma {:induction false} SumByAge(rows: seq<LotRow>, part: LotRow -> real)
    ensures SumOver(ByAge(Ages(rows)), rows, part) == RowSum(rows, part)
  {
    if rows != [] {
      var rest, last := rows[..|rows| - 1], rows[|rows| - 1];
      assert rows == rest + [last];
      SumByAge(rest, part);
      SumNext(rest, last, part);
    }
  }

  lemma {:induction false} RowSumConcat(a: seq<LotRow>, b: seq<LotRow>, part: LotRow -> real)
    ensures RowSum(a + b, part) == RowSum(a, part) + RowSum(b, part)
  {
    if b == [] {
      assert a + b == a;
    } else {
      assert (a + b)[..|a + b| - 1] == a + b[..|b| - 1];
      RowSumConcat(a, b[..|b| - 1], part);
    }
  }

  lemma {:induction false} RowSumZero(rows: seq<LotRow>, part: LotRow -> real)
    requires forall i | 0 <= i < |rows| :: part(rows[i]) == 0.0
    ensures RowSum(rows, part) == 0.0
  {
    if rows != [] {
      RowSumZero(rows[..|rows| - 1], part);
    }
  }

  // ---------- the import transaction ----------

  datatype Snapshot = Snapshot(quantity: real, average: real, lastTradeId: int, realized: real)

  /** Trade ids from `first` to `last`. */
  datatype Gap = Gap(first: int, last: int)

  /** What one import records of itself: the realised profit it found, how far the trade statistics
      reached, and which imported trades are missing there. */
  datatype Audit = Audit(plan: Import.Plan, baseline: real, statsMax: Option<int>, gap: Option<Gap>)

  datatype Database = Database(rows: seq<LotRow>, imports: seq<Audit>, inventory: map<string, Snapshot>)

  datatype ApplyError = StalePlan | NegativeAccount | CoverageFailed(reason: CoverageReason) | AverageMismatch
      | RiskBasisRefused

  function SupersedeOpen(rows: seq<LotRow>, symbol: string): (r: seq<LotRow>)
    ensures |r| == |rows|
  {
    seq(|rows|, i requires 0 <= i < |rows| => if IsOpen(rows[i], symbol) then rows[i].(status := LotStatus.Superseded)
        else rows[i])
  }

  function LotRowFor(lot: Import.ImportedLot, symbol: string, batch: string): LotRow {
    LotRow(symbol, lot.quantity, lot.unitCost, lot.openedAt / 1000, lot.orderId,
           if lot.tradeId < 0 then "" else Digits(lot.tradeId), batch, Open, true)
  }

  function LotRows(lots: seq<Import.ImportedLot>, symbol: string, batch: string): seq<LotRow> {
    if lots == [] then []
    else LotRows(lots[..|lots| - 1], symbol, batch) + [LotRowFor(lots[|lots| - 1], symbol, batch)]
  }

  function ReplacedRows(rows: seq<LotRow>, plan: Import.Plan, symbol: string, batch: string): seq<LotRow> {
    SupersedeOpen(rows, symbol) + LotRows(plan.lots, symbol, batch)
  }

  predicate WasApplied(imports: seq<Audit>, plan: Import.Plan) {
    exists i | 0 <= i < |imports| :: imports[i].plan == plan
  }

  function StatisticsGap(plan: Import.Plan, statsMax: Option<int>): Option<Gap> {
    if statsMax == None || statsMax.value < plan.lastTradeId then
      var next := if statsMax == None then 0 else statsMax.value + 1;
      Some(Gap(if plan.firstTradeId >= next then plan.firstTradeId else next, plan.lastTradeId))
    else None
  }

  function Baseline(inventory: map<string, Snapshot>, symbol: string): real {
    if symbol in inventory then inventory[symbol].realized else 0.0
  }

  function AuditOf(db: Database, plan: Import.Plan, symbol: string, statsMax: Option<int>): Audit {
    Audit(plan, Baseline(db.inventory, symbol), statsMax, StatisticsGap(plan, statsMax))
  }

  /** Why the imported rows fail the check against the account, if they do. */
  function Refusal(rows: seq<LotRow>, plan: Import.Plan, symbol: string): Option<ApplyError> {
    var verified := CoverageOf(rows, symbol, plan.account, plan.tolerance + plan.dust);
    if plan.account < 0.0 then Some(NegativeAccount)
    else if !verified.covered || verified.average == None then Some(CoverageFailed(verified.reason))
    else if !CloseTo(verified.average.value, plan.weightedAverage) then Some(AverageMismatch)
    else None
  }

  /** `batchOf` names a plan by its digest; `statsMax` is the last trade the statistics hold;
      `riskAccepts` is the answer of the risk ledger, which rebuilds its own copy of the lots inside the
      same transaction. */
  function ApplyPlan(db: Database, plan: Import.Plan, rebuilt: Import.Plan, symbol: string,
                     batchOf: Import.Plan -> string, statsMax: Option<int>, riskAccepts: bool)
      : Result<Database, ApplyError>
  {
    var rows := ReplacedRows(db.rows, plan, symbol, batchOf(plan));
    var refusal := Refusal(rows, plan, symbol);
    if rebuilt != plan then Err(StalePlan)
    else if WasApplied(db.imports, plan) then Ok(db)
    else if refusal.Some? then Err(refusal.value)
    else if !riskAccepts then Err(RiskBasisRefused)
    else Ok(Database(rows, db.imports + [AuditOf(db, plan, symbol, statsMax)],
                     db.inventory[symbol := Snapshot(plan.reconstructed, plan.weightedAverage, plan.lastTradeId,
                                                     Baseline(db.inventory, symbol))]))
  }

  predicate CloseTo(a: real, b: real) {
    -0.000000000000000001 <= a - b <= 0.000000000000000001
  }

  lemma {:induction false} PlanRowsSum(lots: seq<Import.ImportedLot>, symbol: string, batch: string)
    requires forall i | 0 <= i < |lots| :: Import.SoundLot(lots[i])
    ensures var rows := LotRows(lots, symbol, batch);
            && RowSum(rows, QuantityPart(symbol)) == Import.Quantity(lots)
            && RowSum(rows, CostPart(symbol)) == Import.Cost(lots)
            && RowSum(rows, BrokenPart(symbol)) == 0.0
  {
    if lots != [] {
      var rest, last := lots[..|lots| - 1], lots[|lots| - 1];
      PlanRowsSum(rest, symbol, batch);
      assert Import.SoundLot(last);
      var rows := LotRows(lots, symbol, batch);
      assert rows[..|rows| - 1] == LotRows(rest, symbol, batch);
    }
  }

  lemma {:induction false} ReplacedSum(rows: seq<LotRow>, plan: Import.Plan, symbol: string, batch: string,
                                       part: LotRow -> real)
    requires forall row: LotRow | !IsOpen(row, symbol) :: part(row) == 0.0
    ensures SumOver(ByAge(Ages(ReplacedRows(rows, plan, symbol, batch))), ReplacedRows(rows, plan, symbol, batch), part)
            == RowSum(LotRows(plan.lots, symbol, batch), part)
  {
    SumByAge(ReplacedRows(rows, plan, symbol, batch), part);
    RowSumConcat(SupersedeOpen(rows, symbol), LotRows(plan.lots, symbol, batch), part);
    RowSumZero(SupersedeOpen(rows, symbol), part);
  }

  // Only the plan's own rows count after the replacement.
  lemma ReplacedCoverage(rows: seq<LotRow>, plan: Import.Plan, symbol: string, batch: string, tolerance: real)
    requires forall i | 0 <= i < |plan.lots| :: Import.SoundLot(plan.lots[i])
    ensures CoverageOf(ReplacedRows(rows, plan, symbol, batch), symbol, plan.account, tolerance)
            == Verdict(plan.account, Import.Quantity(plan.lots), Import.Cost(plan.lots), false, tolerance)
  {
    PlanRowsSum(plan.lots, symbol, batch);
    ReplacedSum(rows, plan, symbol, batch, QuantityPart(symbol));
    ReplacedSum(rows, plan, symbol, batch, CostPart(symbol));
    ReplacedSum(rows, plan, symbol, batch, BrokenPart(symbol));
  }

  /** Whatever the table held before, a reconciled plan passes both post-import checks exactly: the
      account is covered and the average price is the planned one, not merely close to it. */
  lemma ReconciledPlanVerifies(rows: seq<LotRow>, plan: Import.Plan, symbol: string, batch: string)
    requires Import.Reconciled(plan)
    ensures var c := CoverageOf(ReplacedRows(rows, plan, symbol, batch), symbol, plan.account,
                                plan.tolerance + plan.dust);
            c.covered && c.reason == Covered && c.average == Some(plan.weightedAverage)
                && c.coveredQty == plan.reconstructed
    ensures Refusal(ReplacedRows(rows, plan, symbol, batch), plan, symbol) == None
  {
    ReplacedCoverage(rows, plan, symbol, batch, plan.tolerance + plan.dust);
    PlanVerdict(plan);
    NothingRefused(ReplacedRows(rows, plan, symbol, batch), plan, symbol);
  }

  lemma NothingRefused(rows: seq<LotRow>, plan: Import.Plan, symbol: string)
    requires var c := CoverageOf(rows, symbol, plan.account, plan.tolerance + plan.dust);
             plan.account >= 0.0 && c.covered && c.average == Some(plan.weightedAverage)
    ensures Refusal(rows, plan, symbol) == None
  {
  }

  lemma PlanVerdict(plan: Import.Plan)
    requires Import.Reconciled(plan)
    ensures var c := Verdict(plan.account, Import.Quantity(plan.lots), Import.Cost(plan.lots), false,
                             plan.tolerance + plan.dust);
            && c.covered && c.reason == Covered && c.average == Some(plan.weightedAverage)
            && c.coveredQty == plan.reconstructed
  {
  }

  /** A plan rebuilt from the live exchange is refused for no reason but the risk ledger's. */
  lemma RebuiltPlanApplies(db: Database, req: Import.Request, symbol: string, batchOf: Import.Plan -> string,
                           statsMax: Option<int>, riskAccepts: bool)
    requires Import.PlanFor(req).Ok?
    ensures var plan := Import.PlanFor(req).value;
            var r := ApplyPlan(db, plan, plan, symbol, batchOf, statsMax, riskAccepts);
            r.Ok? <==> riskAccepts || WasApplied(db.imports, plan)
  {
    Import.PlanReconciles(req);
    ReconciledPlanVerifies(db.rows, Import.PlanFor(req).value, symbol, batchOf(Import.PlanFor(req).value));
  }

  /** Applying the same plan again changes nothing, whatever was applied in between. */
  lemma ReapplyIsSilent(db: Database, plan: Import.Plan, symbol: string, batchOf: Import.Plan -> string,
                        statsMax: Option<int>, accepts: bool, later: Database, statsLater: Option<int>,
                            acceptsLater: bool)
    requires ApplyPlan(db, plan, plan, symbol, batchOf, statsMax, accepts).Ok?
    requires ApplyPlan(db, plan, plan, symbol, batchOf, statsMax, accepts).value.imports <= later.imports
    ensures ApplyPlan(later, plan, plan, symbol, batchOf, statsLater, acceptsLater) == Ok(later)
  {
    var imports := ApplyPlan(db, plan, plan, symbol, batchOf, statsMax, accepts).value.imports;
    if !WasApplied(db.imports, plan) {
      assert imports[|db.imports|] == AuditOf(db, plan, symbol, statsMax);
    }
    var i :| 0 <= i < |imports| && imports[i].plan == plan;
    assert later.imports[i] == imports[i];
  }

  /** The gap an import reports is exactly the range of imported trades beyond the statistics. */
  lemma GapIsMissingTrades(req: Import.Request, statsMax: Option<int>, id: int)
    requires Import.PlanFor(req).Ok?
    ensures var plan := Import.PlanFor(req).value;
            var gap := StatisticsGap(plan, statsMax);
            gap.Some? && gap.value.first <= id <= gap.value.last
            <==> plan.firstTradeId <= id <= plan.lastTradeId && (statsMax.Some? ==> id > statsMax.value)
  {
    Import.PlanStartsAtNaturalId(req);
  }

  /** No import changes realised profit, and each one records the profit it found. */
  lemma RealisedProfitIsKept(db: Database, plan: Import.Plan, symbol: string, other: string,
                             batchOf: Import.Plan -> string, statsMax: Option<int>, accepts: bool)
    requires ApplyPlan(db, plan, plan, symbol, batchOf, statsMax, accepts).Ok?
    ensures var after := ApplyPlan(db, plan, plan, symbol, batchOf, statsMax, accepts).value;
            && Baseline(after.inventory, other) == Baseline(db.inventory, other)
            && db.imports <= after.imports
            && (db.imports < after.imports ==> after.imports[|db.imports|].baseline == Baseline(db.inventory, symbol))
  {
  }

  class ImportLog {
    var imports: seq<Audit>
    var inventory: map<string, Snapshot>

    constructor ()
      ensures imports == [] && inventory == map[]
    {
      imports, inventory := [], map[];
    }

    ghost function Contents(table: LotTable): Database
      reads this, table
    {
      Database(table.rows, imports, inventory)
    }

    /** All or nothing: a refused plan leaves every row as it was. */
    method Apply(table: LotTable, plan: Import.Plan, rebuilt: Import.Plan, symbol: string,
                 batchOf: Import.Plan -> string, statsMax: Option<int>, riskAccepts: bool)
        returns (r: Result<string, ApplyError>)
      modifies this, table
      ensures match ApplyPlan(old(Contents(table)), plan, rebuilt, symbol, batchOf, statsMax, riskAccepts)
              case Err(e) => r == Err(e) && Contents(table) == old(Contents(table))
              case Ok(db) => r == Ok(batchOf(plan)) && Contents(table) == db
      ensures table.consumptions == old(table.consumptions)
    {
      if rebuilt != plan {
        return Err(StalePlan);
      }
      var batch := batchOf(plan);
      if WasApplied(imports, plan) {
        return Ok(batch);
      }
      var gap := None;
      if statsMax == None || statsMax.value < plan.lastTradeId {
        var next := if statsMax == None then 0 else statsMax.value + 1;
        gap := Some(Gap(if plan.firstTradeId >= next then plan.firstTradeId else next, plan.lastTradeId));
      }
      var baseline := if symbol in inventory then inventory[symbol].realized else 0.0;
      var before := table.rows;
      ReplaceOpenLots(table, plan, symbol, batch);
      var refusal := Verify(table.rows, plan, symbol);
      if refusal == None && !riskAccepts {
        refusal := Some(RiskBasisRefused);
      }
      if refusal.Some? {
        table.rows := before;
        return Err(refusal.value);
      }
      imports := imports + [Audit(plan, baseline, statsMax, gap)];
      inventory := inventory[symbol := Snapshot(plan.reconstructed, plan.weightedAverage, plan.lastTradeId, baseline)];
      return Ok(batch);
    }

    method ReplaceOpenLots(table: LotTable, plan: Import.Plan, symbol: string, batch: string)
      modifies table`rows
      ensures table.rows == ReplacedRows(old(table.rows), plan, symbol, batch)
    {
      table.rows := SupersedeOpen(table.rows, symbol);
      for k := 0 to |plan.lots|
        invariant table.rows == SupersedeOpen(old(table.rows), symbol) + LotRows(plan.lots[..k], symbol, batch)
      {
        assert plan.lots[..k + 1][..k] == plan.lots[..k];
        table.rows := table.rows + [LotRowFor(plan.lots[k], symbol, batch)];
      }
      assert plan.lots[..|plan.lots|] == plan.lots;
    }

    method Verify(rows: seq<LotRow>, plan: Import.Plan, symbol: string) returns (refusal: Option<ApplyError>)
      ensures refusal == Refusal(rows, plan, symbol)
    {
      var coverage := CostBasisCoverage(rows, symbol, plan.account, plan.tolerance + plan.dust);
      if coverage == None {
        return Some(NegativeAccount);
      }
      if !coverage.value.covered || coverage.value.average == None {
        return Some(CoverageFailed(coverage.value.reason));
      }
      if !CloseTo(coverage.value.average.value, plan.weightedAverage) {
        return Some(AverageMismatch);
      }
      return None;
    }
  }
}
