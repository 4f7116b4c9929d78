/** What the coverage check of an account says, in the terms of the lot table: the open lots that can be priced and
    attributed, what they hold and cost, and how that compares with the account. */
module CoverageFigures {
  import opened Results
  import opened InventoryLots
  import opened CostBasisApply
  import Import = CostBasisImport

  predicate Held(row: LotRow, symbol: string) {
    row.symbol == symbol && row.status == Open && row.qty > 0.0
  }

  predicate Attributed(row: LotRow) { row.price > 0.0 && (row.orderId != "" || row.tradeId != "") }

  datatype Holding = Holding(quantity: real, cost: real)

  /** What the attributed open lots among the first n rows hold and cost. */
  function HoldingOf(rows: seq<LotRow>, symbol: string, n: nat): Holding
    requires n <= |rows|
  {
    if n == 0 then Holding(0.0, 0.0)
    else
      var h, row := HoldingOf(rows, symbol, n - 1), rows[n - 1];
      if Held(row, symbol) && Attributed(row) then Holding(h.quantity + row.qty, h.cost + row.qty * row.price) else h
  }

  predicate Unattributed(rows: seq<LotRow>, symbol: string, n: nat)
    requires n <= |rows|
  {
    exists k :: 0 <= k < n && Held(rows[k], symbol) && !Attributed(rows[k])
  }

  lemma {:induction false} HoldingIsSummed(rows: seq<LotRow>, symbol: string, n: nat)
    requires n <= |rows|
    ensures HoldingOf(rows, symbol, n).quantity == RowSum(rows[..n], QuantityPart(symbol))
    ensures HoldingOf(rows, symbol, n).cost == RowSum(rows[..n], CostPart(symbol))
    ensures 0.0 <= RowSum(rows[..n], BrokenPart(symbol))
    ensures Unattributed(rows, symbol, n) <==> RowSum(rows[..n], BrokenPart(symbol)) > 0.0
  {
    if n > 0 {
      HoldingIsSummed(rows, symbol, n - 1);
      assert rows[..n][..n - 1] == rows[..n - 1] && rows[..n][n - 1] == rows[n - 1];
      assert Unattributed(rows, symbol, n)
             <==> Unattributed(rows, symbol, n - 1) || (Held(rows[n - 1], symbol) && !Attributed(rows[n - 1]));
    }
  }

  /** What the check of an account says of a quantity held at a cost: it is covered exactly when everything held
      is attributed and the two quantities agree within the tolerance, of which a negative one counts as none;
      otherwise the reason tells which failed. The average price times what is held is the cost. */
  predicate Says(c: Coverage, account: real, held: real, cost: real, unattributed: bool, tolerance: real) {
    var limit := if tolerance < 0.0 then 0.0 else tolerance;
    && c.coveredQty == held
    && c.uncovered == (if account > held then account - held else 0.0)
    && (c.average.Some? <==> held > 0.0)
    && (c.average.Some? ==> c.average.value * held == cost)
    && c.reason == (if unattributed then MissingProvenance else if account > held + limit then UncoveredQuantity
                    else if account + limit < held then LotsExceedAccount else Covered)
    && (c.covered <==> c.reason == Covered)
  }

  lemma VerdictExactly(account: real, held: real, cost: real, unattributed: bool, tolerance: real)
    ensures Says(Verdict(account, held, cost, unattributed, tolerance), account, held, cost, unattributed, tolerance)
  {
  }

  lemma {:induction false} CoverageIsVerdict(rows: seq<LotRow>, symbol: string, account: real, tolerance: real)
    ensures var h := HoldingOf(rows, symbol, |rows|);
            CoverageOf(rows, symbol, account, tolerance)
            == Verdict(account, h.quantity, h.cost, Unattributed(rows, symbol, |rows|), tolerance)
  {
    assert rows[..|rows|] == rows;
    HoldingIsSummed(rows, symbol, |rows|);
    SumByAge(rows, QuantityPart(symbol));
    SumByAge(rows, CostPart(symbol));
    SumByAge(rows, BrokenPart(symbol));
  }

  /** The check says this of what the attributed open lots of the symbol hold and cost, whatever their order. */
  lemma {:induction false} CoverageExactly(rows: seq<LotRow>, symbol: string, account: real, tolerance: real)
    ensures var h := HoldingOf(rows, symbol, |rows|);
            Says(CoverageOf(rows, symbol, account, tolerance), account, h.quantity, h.cost,
                 Unattributed(rows, symbol, |rows|), tolerance)
  {
    var h := HoldingOf(rows, symbol, |rows|);
    CoverageIsVerdict(rows, symbol, account, tolerance);
    VerdictExactly(account, h.quantity, h.cost, Unattributed(rows, symbol, |rows|), tolerance);
  }

  lemma AverageIsClose(average: real, planned: real, held: real, cost: real, bound: real)
    requires held > 0.0 && average * held == cost
    ensures -bound <= average - planned <= bound <==> -bound * held <= cost - planned * held <= bound * held
  {
    var d := average - planned;
    assert cost - planned * held == d * held;
    assert d <= bound <==> (bound - d) * held >= 0.0;
    assert -bound <= d <==> (d + bound) * held >= 0.0;
  }

  /** A cost is that of a quantity at a price, to eighteen places of the price. */
  predicate CostsAbout(cost: real, held: real, price: real) {
    -0.000000000000000001 * held <= cost - price * held <= 0.000000000000000001 * held
  }

  predicate AverageAgrees(c: Coverage, price: real) {
    c.average.Some? && -0.000000000000000001 <= c.average.value - price <= 0.000000000000000001
  }

  lemma AgreesExactly(c: Coverage, account: real, held: real, cost: real, unattributed: bool, tolerance: real,
                      price: real)
    requires Says(c, account, held, cost, unattributed, tolerance)
    ensures AverageAgrees(c, price) <==> held > 0.0 && CostsAbout(cost, held, price)
  {
    if held > 0.0 {
      AverageIsClose(c.average.value, price, held, cost, 0.000000000000000001);
    }
  }

  lemma CoveredExactly(c: Coverage, account: real, held: real, cost: real, unattributed: bool, tolerance: real)
    requires Says(c, account, held, cost, unattributed, tolerance)
    ensures var within := if tolerance < 0.0 then 0.0 else tolerance;
            c.covered <==> !unattributed && held - within <= account <= held + within
  {
  }

  lemma RefusalSplits(rows: seq<LotRow>, plan: Import.Plan, symbol: string, c: Coverage)
    requires c == CoverageOf(rows, symbol, plan.account, plan.tolerance + plan.dust)
    ensures Refusal(rows, plan, symbol) == None
            <==> plan.account >= 0.0 && c.covered && AverageAgrees(c, plan.weightedAverage)
  {
  }

  /** Imported rows pass their check exactly when they hold something that covers the account within tolerance
      plus dust, and their average price is the plan's to eighteen places. */
  lemma {:induction false} CheckedExactly(rows: seq<LotRow>, plan: Import.Plan, symbol: string)
    ensures var h, tolerance := HoldingOf(rows, symbol, |rows|), plan.tolerance + plan.dust;
            var within := if tolerance < 0.0 then 0.0 else tolerance;
            Refusal(rows, plan, symbol) == None
            <==> && plan.account >= 0.0 && !Unattributed(rows, symbol, |rows|) && h.quantity > 0.0
                 && h.quantity - within <= plan.account <= h.quantity + within
                 && CostsAbout(h.cost, h.quantity, plan.weightedAverage)
  {
    var h, tolerance := HoldingOf(rows, symbol, |rows|), plan.tolerance + plan.dust;
    var c, broken := CoverageOf(rows, symbol, plan.account, tolerance), Unattributed(rows, symbol, |rows|);
    CoverageExactly(rows, symbol, plan.account, tolerance);
    CoveredExactly(c, plan.account, h.quantity, h.cost, broken, tolerance);
    AgreesExactly(c, plan.account, h.quantity, h.cost, broken, tolerance, plan.weightedAverage);
    RefusalSplits(rows, plan, symbol, c);
  }
}
