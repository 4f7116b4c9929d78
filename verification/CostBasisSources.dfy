/** Imported lots against the exchange's own rows: which purchases they come from, what each of them cost with
    its commission, and when there is a plan at all. Everything is said of the rows as they were received. */
module CostBasisSources {
  import opened Results
  import opened FifoLots
  import opened CostBasisImport

  // ---------- what a row says ----------

  /** The row names its trade and order, its amounts are possible, and its commission has a value in quote. */
  predicate Readable(row: RawTrade, base: string, quote: string) {
    && row.id >= 0 && row.orderId != "" && row.price > 0.0 && row.qty > 0.0 && row.commission >= 0.0
    && (row.commission > 0.0 ==>
          && row.commissionAsset != ""
          && (row.commissionAsset != base && row.commissionAsset != quote ==>
                row.commissionQuote.Some? && row.commissionQuote.value > 0.0))
  }

  /** What a purchase brings in: a commission paid in the base asset is taken out of it. */
  function Received(row: RawTrade, base: string): real {
    row.qty - if row.commissionAsset == base then row.commission else 0.0
  }

  /** What a purchase costs: its quote, and a commission that was not taken out of the purchase itself. */
  function Paid(row: RawTrade, base: string, quote: string): real {
    row.price * row.qty
    + if row.commission == 0.0 || row.commissionAsset == base then 0.0
      else if row.commissionAsset == quote then row.commission
      else row.commissionQuote.GetOr(0.0)
  }

  /** The change of inventory: a sale also gives away a commission paid in the base asset. */
  function Flow(row: RawTrade, base: string): real {
    if row.isBuyer then Received(row, base)
    else -(row.qty + if row.commissionAsset == base then row.commission else 0.0)
  }

  function FlowOf(rows: seq<RawTrade>, base: string): real {
    if rows == [] then 0.0 else FlowOf(rows[..|rows| - 1], base) + Flow(rows[|rows| - 1], base)
  }

  predicate DistinctRows(rows: seq<RawTrade>) {
    forall i, j | 0 <= i < j < |rows| :: rows[i].id != rows[j].id
  }

  predicate Before(a: RawTrade, b: RawTrade) {
    a.time < b.time || (a.time == b.time && a.id < b.id)
  }

  predicate InTime(rows: seq<RawTrade>) {
    forall i, j | 0 <= i < j < |rows| :: Before(rows[i], rows[j])
  }

  /** The rows in the order of their times, then ids. */
  ghost predicate Arranged(order: seq<RawTrade>, rows: seq<RawTrade>) {
    multiset(order) == multiset(rows) && InTime(order)
  }

  // ---------- from rows to the history ----------

  // The trade kept of a row.
  function Kept(row: RawTrade, base: string, quote: string): Trade {
    Trade(row.id, row.orderId, row.time, row.isBuyer, row.price, row.qty, row.commission, row.commissionAsset,
          if row.commissionAsset == quote then row.commission
          else if row.commissionAsset == base then row.commission * row.price
          else if row.commission == 0.0 then 0.0 else row.commissionQuote.GetOr(0.0))
  }

  function AllKept(rows: seq<RawTrade>, base: string, quote: string): (trades: seq<Trade>)
    ensures |trades| == |rows|
  {
    seq(|rows|, i requires 0 <= i < |rows| => Kept(rows[i], base, quote))
  }

  predicate AllReadable(rows: seq<RawTrade>, base: string, quote: string) {
    forall i | 0 <= i < |rows| :: Readable(rows[i], base, quote)
  }

  lemma RowIsKept(row: RawTrade, base: string, quote: string)
    ensures Normalized(row, base, quote).Ok? <==> Readable(row, base, quote)
    ensures Normalized(row, base, quote).Ok? ==> Normalized(row, base, quote).value == Kept(row, base, quote)
  {
  }

  lemma {:induction false} RowsAreKept(rows: seq<RawTrade>, base: string, quote: string)
    ensures NormalizedAll(rows, base, quote).Ok? <==> AllReadable(rows, base, quote)
    ensures AllReadable(rows, base, quote) ==> NormalizedAll(rows, base, quote).value == AllKept(rows, base, quote)
  {
    if rows != [] {
      var rest, last := rows[..|rows| - 1], rows[|rows| - 1];
      RowsAreKept(rest, base, quote);
      RowIsKept(last, base, quote);
      assert rows == rest + [last];
      assert AllKept(rows, base, quote) == AllKept(rest, base, quote) + [Kept(last, base, quote)];
    }
  }

  lemma LastIn<T>(a: seq<T>, b: seq<T>) returns (i: nat)
    requires multiset(a) == multiset(b) && a != []
    ensures i < |b| && b[i] == a[|a| - 1]
  {
    assert a[|a| - 1] in multiset(b);
    i :| 0 <= i < |b| && b[i] == a[|a| - 1];
  }

  lemma SameRest<T>(a: seq<T>, b: seq<T>)
    requires a != [] && b != [] && a[|a| - 1] == b[|b| - 1] && multiset(a) == multiset(b)
    ensures multiset(a[..|a| - 1]) == multiset(b[..|b| - 1])
  {
    var last := a[|a| - 1];
    assert a == a[..|a| - 1] + [last] && b == b[..|b| - 1] + [last];
    assert multiset(a[..|a| - 1]) == multiset(a) - multiset{last};
    assert multiset(b[..|b| - 1]) == multiset(b) - multiset{last};
  }

  predicate StrictlyInTime(trades: seq<Trade>) {
    forall i, j | 0 <= i < j < |trades| :: !Earlier(trades[j], trades[i])
  }

  // There is one chronological arrangement of trades that do not tie.
  lemma {:induction false} OneOrder(a: seq<Trade>, b: seq<Trade>)
    requires multiset(a) == multiset(b) && Chronological(a) && Chronological(b) && StrictlyInTime(b)
    ensures a == b
    decreases |a|
  {
    assert |multiset(a)| == |a| && |multiset(b)| == |b|;
    if a != [] {
      SameLast(a, b);
      SameRest(a, b);
      OneOrder(a[..|a| - 1], b[..|b| - 1]);
      assert a == a[..|a| - 1] + [a[|a| - 1]] && b == b[..|b| - 1] + [b[|b| - 1]];
    }
  }

  lemma SameLast(a: seq<Trade>, b: seq<Trade>)
    requires multiset(a) == multiset(b) && Chronological(a) && StrictlyInTime(b) && a != [] && b != []
    ensures a[|a| - 1] == b[|b| - 1]
  {
    var i := LastIn(a, b);
    var j := LastIn(b, a);
    assert j == |a| - 1 || Earlier(a[j], a[|a| - 1]);
    assert i == |b| - 1 || !Earlier(b[|b| - 1], b[i]);
  }

  lemma {:induction false} KeptPermute(a: seq<RawTrade>, b: seq<RawTrade>, base: string, quote: string)
    requires multiset(a) == multiset(b)
    ensures multiset(AllKept(a, base, quote)) == multiset(AllKept(b, base, quote))
    decreases |a|
  {
    assert |multiset(a)| == |a| && |multiset(b)| == |b|;
    if a != [] {
      var i := LastIn(a, b);
      var moved := b[..i] + b[i + 1..] + [b[i]];
      assert b == b[..i] + [b[i]] + b[i + 1..];
      assert multiset(moved) == multiset(b);
      SameRest(a, moved);
      assert moved[..|moved| - 1] == b[..i] + b[i + 1..];
      KeptPermute(a[..|a| - 1], b[..i] + b[i + 1..], base, quote);
      KeptLast(a, base, quote);
      KeptAround(b, i, base, quote);
    }
  }

  lemma KeptLast(rows: seq<RawTrade>, base: string, quote: string)
    requires rows != []
    ensures AllKept(rows, base, quote)
            == AllKept(rows[..|rows| - 1], base, quote) + [Kept(rows[|rows| - 1], base, quote)]
  {
  }

  lemma KeptAround(rows: seq<RawTrade>, i: nat, base: string, quote: string)
    requires i < |rows|
    ensures multiset(AllKept(rows, base, quote))
            == multiset(AllKept(rows[..i] + rows[i + 1..], base, quote)) + multiset{Kept(rows[i], base, quote)}
  {
    var all, rest := AllKept(rows, base, quote), AllKept(rows[..i] + rows[i + 1..], base, quote);
    assert all == rest[..i] + [Kept(rows[i], base, quote)] + rest[i..];
    assert rest == rest[..i] + rest[i..];
  }

  lemma ArrangedReadable(order: seq<RawTrade>, rows: seq<RawTrade>, base: string, quote: string)
    requires multiset(order) == multiset(rows)
    ensures AllReadable(order, base, quote) <==> AllReadable(rows, base, quote)
    ensures |order| == |rows|
  {
    assert |multiset(order)| == |order| && |multiset(rows)| == |rows|;
    forall i | 0 <= i < |order| ensures order[i] in rows {
      assert order[i] in multiset(rows);
    }
    forall i | 0 <= i < |rows| ensures rows[i] in order {
      assert rows[i] in multiset(order);
    }
  }

  /** The history of the import is the rows in the order of their times. */
  lemma HistoryIsArranged(req: Request, order: seq<RawTrade>)
    requires Arranged(order, req.rows) && AllReadable(req.rows, req.base, req.quote)
    ensures NormalizedAll(req.rows, req.base, req.quote).Ok?
    ensures var history := AllKept(order, req.base, req.quote);
            && Sorted(NormalizedAll(req.rows, req.base, req.quote).value) == history
            && AllWellFormed(history) && |history| == |req.rows|
  {
    RowsAreKept(req.rows, req.base, req.quote);
    ArrangedReadable(order, req.rows, req.base, req.quote);
    KeptIsSound(order, req.base, req.quote);
    KeptPermute(order, req.rows, req.base, req.quote);
    SortedIs(AllKept(req.rows, req.base, req.quote), AllKept(order, req.base, req.quote));
  }

  lemma {:induction false} SortedIs(trades: seq<Trade>, history: seq<Trade>)
    requires multiset(history) == multiset(trades) && Chronological(history) && StrictlyInTime(history)
    ensures Sorted(trades) == history
  {
    SortedPermutes(trades);
    SortedSorts(trades);
    OneOrder(Sorted(trades), history);
  }

  lemma KeptIsSound(order: seq<RawTrade>, base: string, quote: string)
    requires InTime(order)
    ensures Chronological(AllKept(order, base, quote)) && StrictlyInTime(AllKept(order, base, quote))
    ensures AllReadable(order, base, quote) ==> AllWellFormed(AllKept(order, base, quote))
  {
    var kept := AllKept(order, base, quote);
    forall i, j | 0 <= i < j < |kept| ensures Earlier(kept[i], kept[j]) && !Earlier(kept[j], kept[i]) {
      assert Before(order[i], order[j]);
    }
    if AllReadable(order, base, quote) {
      forall i | 0 <= i < |kept| ensures WellFormed(kept[i]) {
        KeptIsWellFormed(order[i], base, quote);
      }
    }
  }

  lemma KeptIsWellFormed(row: RawTrade, base: string, quote: string)
    requires Readable(row, base, quote)
    ensures WellFormed(Kept(row, base, quote))
  {
    assert row.commission * row.price >= 0.0;
  }

  // ---------- when there is a plan ----------

  /** What must have been on hand before the first row: just enough for no moment to fall below zero. */
  ghost predicate Lacking(order: seq<RawTrade>, base: string, p: real) {
    && p >= 0.0 && (forall k: nat | k <= |order| :: p + FlowOf(order[..k], base) >= 0.0)
    && (p > 0.0 ==> exists k: nat :: k <= |order| && p + FlowOf(order[..k], base) == 0.0)
  }

  lemma {:induction false} RunningIsFlow(order: seq<RawTrade>, base: string, quote: string, n: nat)
    requires n <= |order|
    ensures Running(AllKept(order, base, quote), base, n) == FlowOf(order[..n], base)
  {
    if n > 0 {
      RunningIsFlow(order, base, quote, n - 1);
      assert order[..n][..n - 1] == order[..n - 1];
    }
  }

  lemma {:induction false} LackingIsPrehistory(order: seq<RawTrade>, base: string, quote: string, p: real)
    requires Lacking(order, base, p)
    ensures p == -MinimumRunning(AllKept(order, base, quote), base, |order|)
    ensures Running(AllKept(order, base, quote), base, |order|) == FlowOf(order, base)
  {
    var trades, n := AllKept(order, base, quote), |order|;
    assert order[..n] == order;
    RunningIsFlow(order, base, quote, n);
    MinimumIsLeast(trades, base, n, n);
    if MinimumRunning(trades, base, n) < 0.0 {
      var k := ResetAttainsMinimum(trades, base, n);
      RunningIsFlow(order, base, quote, k);
      assert p + FlowOf(order[..k], base) >= 0.0;
    }
    if p > 0.0 {
      var k: nat :| k <= n && p + FlowOf(order[..k], base) == 0.0;
      RunningIsFlow(order, base, quote, k);
      MinimumIsLeast(trades, base, k, n);
    }
  }

  /** Rows with distinct ids can be arranged, and something definite is lacking before them. */
  lemma {:induction false} CanBeArranged(rows: seq<RawTrade>, base: string) returns (order: seq<RawTrade>, p: real)
    requires DistinctRows(rows)
    ensures Arranged(order, rows) && Lacking(order, base, p)
  {
    order := ArrangementOf(rows);
    var trades, n := AllKept(order, base, ""), |order|;
    p := -MinimumRunning(trades, base, n);
    MinimumIsLeast(trades, base, n, n);
    forall k: nat | k <= n ensures p + FlowOf(order[..k], base) >= 0.0 {
      RunningIsFlow(order, base, "", k);
      MinimumIsLeast(trades, base, k, n);
    }
    if p > 0.0 {
      var k := ResetAttainsMinimum(trades, base, n);
      RunningIsFlow(order, base, "", k);
    }
  }

  lemma {:induction false} ArrangementOf(rows: seq<RawTrade>) returns (order: seq<RawTrade>)
    requires DistinctRows(rows)
    ensures Arranged(order, rows)
  {
    if rows == [] {
      order := [];
    } else {
      var rest, last := rows[..|rows| - 1], rows[|rows| - 1];
      var sorted := ArrangementOf(rest);
      forall i | 0 <= i < |sorted| ensures sorted[i].id != last.id {
        assert sorted[i] in multiset(rest);
      }
      order := Placed(sorted, last);
      assert rows == rest + [last];
    }
  }

  lemma {:induction false} Placed(sorted: seq<RawTrade>, row: RawTrade) returns (order: seq<RawTrade>)
    requires InTime(sorted) && forall i | 0 <= i < |sorted| :: sorted[i].id != row.id
    ensures InTime(order) && multiset(order) == multiset(sorted) + multiset{row}
  {
    if sorted == [] || Before(sorted[|sorted| - 1], row) {
      order := sorted + [row];
    } else {
      var rest, last := sorted[..|sorted| - 1], sorted[|sorted| - 1];
      var placed := Placed(rest, row);
      assert sorted == rest + [last];
      forall i | 0 <= i < |placed| ensures Before(placed[i], last) {
        assert placed[i] in multiset(rest) + multiset{row};
      }
      order := placed + [last];
    }
  }

  predicate AllReceived(rows: seq<RawTrade>, base: string) {
    forall i | 0 <= i < |rows| && rows[i].isBuyer :: Received(rows[i], base) > 0.0
  }

  lemma {:induction false} NoBadBuyExactly(order: seq<RawTrade>, base: string, quote: string, n: nat)
    requires n <= |order|
    ensures BadBuy(AllKept(order, base, quote), base, n) == None <==> AllReceived(order[..n], base)
  {
    if n > 0 {
      NoBadBuyExactly(order, base, quote, n - 1);
      assert order[..n] == order[..n - 1] + [order[n - 1]];
    }
  }

  lemma {:induction false} FlowNext(rows: seq<RawTrade>, row: RawTrade, base: string)
    ensures FlowOf(rows + [row], base) == FlowOf(rows, base) + Flow(row, base)
  {
    assert (rows + [row])[..|rows|] == rows;
  }

  lemma {:induction false} FlowAround(a: seq<RawTrade>, row: RawTrade, b: seq<RawTrade>, base: string)
    ensures FlowOf(a + [row] + b, base) == FlowOf(a + b, base) + Flow(row, base)
  {
    if b == [] {
      assert a + [row] + b == a + [row] && a + b == a;
      FlowNext(a, row, base);
    } else {
      var rest, last := b[..|b| - 1], b[|b| - 1];
      FlowAround(a, row, rest, base);
      assert a + [row] + b == (a + [row] + rest) + [last] && a + b == (a + rest) + [last];
      FlowNext(a + [row] + rest, last, base);
      FlowNext(a + rest, last, base);
    }
  }

  lemma {:induction false} FlowPermutes(a: seq<RawTrade>, b: seq<RawTrade>, base: string)
    requires multiset(a) == multiset(b)
    ensures FlowOf(a, base) == FlowOf(b, base)
    decreases |a|
  {
    assert |multiset(a)| == |a| && |multiset(b)| == |b|;
    if a != [] {
      var i := LastIn(a, b);
      var rest := b[..i] + b[i + 1..];
      assert b == b[..i] + [b[i]] + b[i + 1..];
      assert multiset(rest + [b[i]]) == multiset(b) && (rest + [b[i]])[..|rest|] == rest;
      SameRest(a, rest + [b[i]]);
      FlowPermutes(a[..|a| - 1], rest, base);
      FlowAround(b[..i], b[i], b[i + 1..], base);
    }
  }

  lemma {:induction false} SameRows(order: seq<RawTrade>, rows: seq<RawTrade>, base: string, quote: string)
    requires Arranged(order, rows)
    ensures AllReceived(order, base) <==> AllReceived(rows, base)
    ensures DistinctIds(AllKept(order, base, quote)) <==> DistinctRows(rows)
    ensures FlowOf(order, base) == FlowOf(rows, base)
  {
    FlowPermutes(order, rows, base);
    if AllReceived(order, base) {
      ReceivedMoves(order, rows, base);
    }
    if AllReceived(rows, base) {
      ReceivedMoves(rows, order, base);
    }
    KeptIds(order, base, quote);
    if DistinctRows(order) {
      DistinctMoves(order, rows);
    }
    if DistinctRows(rows) {
      DistinctMoves(rows, order);
    }
  }

  lemma KeptIds(rows: seq<RawTrade>, base: string, quote: string)
    ensures DistinctIds(AllKept(rows, base, quote)) <==> DistinctRows(rows)
  {
    var kept := AllKept(rows, base, quote);
    forall i | 0 <= i < |rows| ensures kept[i].id == rows[i].id {
    }
  }

  lemma ReceivedMoves(a: seq<RawTrade>, b: seq<RawTrade>, base: string)
    requires multiset(a) == multiset(b) && AllReceived(a, base)
    ensures AllReceived(b, base)
  {
    forall i | 0 <= i < |b| && b[i].isBuyer ensures Received(b[i], base) > 0.0 {
      assert b[i] in multiset(a);
      var k :| 0 <= k < |a| && a[k] == b[i];
      assert Received(a[k], base) > 0.0;
    }
  }

  lemma RowTwice(rows: seq<RawTrade>, i: nat, j: nat)
    requires i < j < |rows| && rows[i] == rows[j]
    ensures multiset(rows)[rows[i]] >= 2
  {
    assert rows == rows[..j] + ([rows[j]] + rows[j + 1..]);
    assert rows[..j][i] == rows[i];
    assert multiset(rows[..j])[rows[i]] >= 1;
  }

  lemma RowOnce(rows: seq<RawTrade>, row: RawTrade)
    requires row in rows && DistinctRows(rows)
    ensures multiset(rows)[row] == 1
  {
    var k :| 0 <= k < |rows| && rows[k] == row;
    assert rows == rows[..k] + ([row] + rows[k + 1..]);
    assert row !in rows[..k] && row !in rows[k + 1..];
  }

  lemma DistinctMoves(a: seq<RawTrade>, b: seq<RawTrade>)
    requires multiset(a) == multiset(b) && DistinctRows(a)
    ensures DistinctRows(b)
  {
    forall i, j | 0 <= i < j < |b| ensures b[i].id != b[j].id {
      assert b[i] in multiset(a) && b[j] in multiset(a);
      var k :| 0 <= k < |a| && a[k] == b[i];
      var l :| 0 <= l < |a| && a[l] == b[j];
      if b[i] == b[j] {
        RowTwice(b, i, j);
        RowOnce(a, b[i]);
      }
    }
  }

  /** The account agrees with the rows: what they leave is positive, and what the account has beyond it is within the
      tolerance or is dust below its limit. */
  predicate Explained(req: Request, left: real) {
    && left > 0.0 && req.account - left >= -req.tolerance
    && (req.account - left <= req.tolerance || req.account - left < req.dustLimit)
  }

  // The plan has the quantities of the rows.
  predicate PlanOf(plan: Plan, req: Request, history: seq<Trade>, p: real, left: real) {
    && plan.history == history && plan.prehistory == p && plan.reconstructed == left && plan.account == req.account
    && plan.dust == (if req.account > left then req.account - left else 0.0)
    && plan.base == req.base && plan.quote == req.quote && plan.tolerance == req.tolerance
  }

  lemma {:induction false} HistoryPlan(req: Request, history: seq<Trade>, p: real, left: real)
    requires history != [] && p == -MinimumRunning(history, req.base, |history|)
    requires left == p + Running(history, req.base, |history|) && req.tolerance >= 0.0 && req.dustLimit >= 0.0
    ensures PlanFromHistory(req, history).Ok?
            <==> BadBuy(history, req.base, |history|) == None && Explained(req, left)
    ensures PlanFromHistory(req, history).Ok? ==> PlanOf(PlanFromHistory(req, history).value, req, history, p, left)
    ensures req.account - left < -req.tolerance <==> PlanFromHistory(req, history) == Err(AccountBelowHistory)
    ensures req.account - left > req.tolerance && req.account - left >= req.dustLimit
            <==> PlanFromHistory(req, history) == Err(NotQuarantinableDust)
    ensures PlanFromHistory(req, history) == Err(NothingRemains) ==> left <= 0.0
  {
  }

  lemma PlanForIs(req: Request, order: seq<RawTrade>)
    requires Arranged(order, req.rows) && AllReadable(req.rows, req.base, req.quote)
    requires req.account >= 0.0 && req.tolerance >= 0.0 && req.dustLimit >= 0.0
    ensures var history := AllKept(order, req.base, req.quote);
            PlanFor(req) == if history == [] then Err(EmptyHistory)
                            else if !DistinctRows(req.rows) then Err(DuplicateTrade)
                            else PlanFromHistory(req, history)
  {
    HistoryIsArranged(req, order);
    SameRows(order, req.rows, req.base, req.quote);
  }

  /** No input is negative, there are rows, each of them readable and under its own id, every purchase brings
      something in, and the account is explained. */
  predicate Plannable(req: Request, left: real) {
    && req.account >= 0.0 && req.tolerance >= 0.0 && req.dustLimit >= 0.0
    && req.rows != [] && AllReadable(req.rows, req.base, req.quote) && DistinctRows(req.rows)
    && AllReceived(req.rows, req.base) && Explained(req, left)
  }

  /** There is a plan exactly then; and its history is the rows in time, its quantities are those of the rows. */
  lemma PlanExactly(req: Request, order: seq<RawTrade>, p: real)
    requires Arranged(order, req.rows) && Lacking(order, req.base, p)
    ensures var left := p + FlowOf(req.rows, req.base);
            && (PlanFor(req).Ok? <==> Plannable(req, left))
            && (PlanFor(req).Ok? ==>
                  PlanOf(PlanFor(req).value, req, AllKept(order, req.base, req.quote), p, left))
  {
    RowsAreKept(req.rows, req.base, req.quote);
    if AllReadable(req.rows, req.base, req.quote)
       && req.account >= 0.0 && req.tolerance >= 0.0 && req.dustLimit >= 0.0 {
      ReadablePlan(req, order, p);
    }
  }

  lemma ReadablePlan(req: Request, order: seq<RawTrade>, p: real)
    requires Arranged(order, req.rows) && Lacking(order, req.base, p)
    requires req.account >= 0.0 && req.tolerance >= 0.0 && req.dustLimit >= 0.0
    requires AllReadable(req.rows, req.base, req.quote)
    ensures var left := p + FlowOf(req.rows, req.base);
            && (PlanFor(req).Ok? <==> Plannable(req, left))
            && (PlanFor(req).Ok? ==>
                  PlanOf(PlanFor(req).value, req, AllKept(order, req.base, req.quote), p, left))
  {
    PlanForIs(req, order);
    var left := HistoryQuantities(req, order, p);
    if req.rows != [] {
      HistoryPlan(req, AllKept(order, req.base, req.quote), p, left);
    }
  }

  lemma HistoryQuantities(req: Request, order: seq<RawTrade>, p: real) returns (left: real)
    requires Arranged(order, req.rows) && Lacking(order, req.base, p)
    ensures var history := AllKept(order, req.base, req.quote);
            && left == p + FlowOf(req.rows, req.base) == p + Running(history, req.base, |history|)
            && p == -MinimumRunning(history, req.base, |history|) && |history| == |req.rows|
            && (BadBuy(history, req.base, |history|) == None <==> AllReceived(req.rows, req.base))
  {
    left := p + FlowOf(req.rows, req.base);
    LackingIsPrehistory(order, req.base, req.quote, p);
    SameRows(order, req.rows, req.base, req.quote);
    NoBadBuyExactly(order, req.base, req.quote, |order|);
    assert order[..|order|] == order;
    assert |multiset(order)| == |order| && |multiset(req.rows)| == |req.rows|;
  }

  /** Why there is none, once the rows themselves are in order. */
  lemma RefusedBecause(req: Request, order: seq<RawTrade>, p: real)
    requires Arranged(order, req.rows) && Lacking(order, req.base, p)
    requires req.account >= 0.0 && req.tolerance >= 0.0 && req.dustLimit >= 0.0
    requires req.rows != [] && AllReadable(req.rows, req.base, req.quote) && DistinctRows(req.rows)
    ensures var left := p + FlowOf(req.rows, req.base);
            && (req.account - left < -req.tolerance <==> PlanFor(req) == Err(AccountBelowHistory))
            && (req.account - left > req.tolerance && req.account - left >= req.dustLimit
                <==> PlanFor(req) == Err(NotQuarantinableDust))
            && (PlanFor(req).Err? && PlanFor(req).error.BuyNetNotPositive? ==>
                  exists row :: row in req.rows && row.isBuyer && Received(row, req.base) <= 0.0
                                && row.id == PlanFor(req).error.id)
            && (PlanFor(req) == Err(NothingRemains) ==> left <= 0.0)
  {
    PlanForIs(req, order);
    var left := HistoryQuantities(req, order, p);
    var trades := AllKept(order, req.base, req.quote);
    HistoryPlan(req, trades, p, left);
    if BadBuy(trades, req.base, |trades|).Some? {
      var k := BadBuyIs(trades, req.base, |trades|);
      assert order[k] in multiset(req.rows);
    }
  }

  lemma {:induction false} BadBuyIs(trades: seq<Trade>, base: string, n: nat) returns (k: nat)
    requires n <= |trades| && BadBuy(trades, base, n).Some?
    ensures k < n && trades[k].isBuyer && BadBuy(trades, base, n) == Some(trades[k].id)
    ensures (if trades[k].commissionAsset == base then trades[k].gross - trades[k].commission else trades[k].gross)
            <= 0.0
  {
    if BadBuy(trades, base, n - 1).Some? {
      k := BadBuyIs(trades, base, n - 1);
    } else {
      k := n - 1;
    }
  }

  // ---------- where a lot comes from ----------

  // The purchases among the moves, and where each of them stands.
  lemma {:induction false} BoughtAt(moves: seq<Move<Tag>>, k: nat, n: nat)
    requires k < n <= |moves| && moves[k].Buy?
    ensures |Bought(moves, k)| < |Bought(moves, n)| && Bought(moves, n)[|Bought(moves, k)|] == moves[k].lot
    decreases n
  {
    if k < n - 1 {
      BoughtAt(moves, k, n - 1);
    }
  }

  lemma {:induction false} BoughtFrom(moves: seq<Move<Tag>>, n: nat, i: nat) returns (k: nat)
    requires n <= |moves| && i < |Bought(moves, n)|
    ensures k < n && moves[k].Buy? && |Bought(moves, k)| == i && Bought(moves, n)[i] == moves[k].lot
  {
    if moves[n - 1].Buy? && i == |Bought(moves, n)| - 1 {
      k := n - 1;
    } else {
      k := BoughtFrom(moves, n - 1, i);
    }
  }

  lemma {:induction false} BoughtGrows(moves: seq<Move<Tag>>, k: nat, n: nat)
    requires k <= n <= |moves|
    ensures |Bought(moves, k)| <= |Bought(moves, n)|
    decreases n
  {
    if k < n {
      BoughtGrows(moves, k, n - 1);
    }
  }

  /** The lot is what is left of the purchase in this row, and costs what was paid for what was received. */
  predicate IsOf(lot: ImportedLot, row: RawTrade, base: string, quote: string) {
    && row.isBuyer && lot.tradeId == row.id && lot.orderId == row.orderId && lot.openedAt == row.time
    && lot.unitCost * Received(row, base) == Paid(row, base, quote)
    && 0.0 < lot.quantity <= Received(row, base)
  }

  lemma CostOfKept(row: RawTrade, base: string, quote: string)
    requires Readable(row, base, quote) && row.isBuyer && Received(row, base) > 0.0
    ensures var move := AsMove(Kept(row, base, quote), base);
            && move.Buy? && move.lot.qty == Received(row, base)
            && move.lot.tag.unitCost * Received(row, base) == Paid(row, base, quote)
            && move.lot.tag.tradeId == row.id && move.lot.tag.orderId == row.orderId
            && move.lot.tag.openedAt == row.time
  {
  }

  // The position of lot j among all purchases of the history.
  function PlaceOf(req: Request, history: seq<Trade>, j: nat): int
    requires PlanFor(req).Ok?
  {
    |Bought(Moves(history, req.base), |history|)| - |PlanFor(req).value.lots| + j
  }

  lemma {:induction false} ReceivedAt(order: seq<RawTrade>, base: string, quote: string, k: nat)
    requires BadBuy(AllKept(order, base, quote), base, |order|) == None && k < |order| && order[k].isBuyer
    ensures Received(order[k], base) > 0.0
  {
    NoBadBuyExactly(order, base, quote, |order|);
    assert order[..|order|] == order;
  }

  lemma LotIsPositive(p: Plan, j: nat)
    requires Derived(p) && j < |p.lots|
    ensures 0.0 < p.lots[j].quantity
  {
    DerivedReconciles(p);
    assert SoundLot(p.lots[j]);
  }

  lemma LotIsWithin(p: Plan, j: nat, i: nat)
    requires Derived(p) && j < |p.lots| && IsLatePurchase(p, j)
    requires var bought := Bought(Moves(p.history, p.base), |p.history|);
             i == |bought| - |p.lots| + j && bought[i].qty > 0.0
    ensures p.lots[j].quantity <= Bought(Moves(p.history, p.base), |p.history|)[i].qty
  {
    var moves := Moves(p.history, p.base);
    ResidualWithin(Bought(moves, |p.history|), i, Sold(moves, |p.history|) - p.prehistory);
  }

  // Lot j and its purchase.
  lemma LotAndPurchase(p: Plan, j: nat) returns (purchase: Lot<Tag>)
    requires Derived(p) && j < |p.lots|
    ensures var bought := Bought(Moves(p.history, p.base), |p.history|);
            var i := |bought| - |p.lots| + j;
            0 <= i && purchase == bought[i]
    ensures HasProvenance(p.lots[j], purchase.tag) && 0.0 < p.lots[j].quantity
    ensures purchase.qty > 0.0 ==> p.lots[j].quantity <= purchase.qty
    ensures j > 0 ==> p.lots[j].quantity == purchase.qty
  {
    LotIsPositive(p, j);
    DerivedLotIsLatePurchase(p, j);
    var bought := Bought(Moves(p.history, p.base), |p.history|);
    var i := |bought| - |p.lots| + j;
    purchase := bought[i];
    if purchase.qty > 0.0 {
      LotIsWithin(p, j, i);
    }
  }

  lemma LotOfPurchase(lot: ImportedLot, purchase: Lot<Tag>, row: RawTrade, base: string, quote: string)
    requires HasProvenance(lot, purchase.tag) && 0.0 < lot.quantity
    requires purchase.qty > 0.0 ==> lot.quantity <= purchase.qty
    requires Readable(row, base, quote) && row.isBuyer && Received(row, base) > 0.0
    requires purchase == AsMove(Kept(row, base, quote), base).lot
    ensures IsOf(lot, row, base, quote) && purchase.qty == Received(row, base)
  {
    CostOfKept(row, base, quote);
    assert lot.unitCost == purchase.tag.unitCost;
  }

  lemma ResidualWithin(lots: seq<Lot<Tag>>, i: nat, sold: real)
    requires i < |lots| && lots[i].qty > 0.0
    ensures Residual(lots, i, sold) <= lots[i].qty
  {
  }

  lemma PlaceIsReal(p: Plan, j: nat)
    requires Derived(p) && j < |p.lots|
    ensures |p.lots| <= |Bought(Moves(p.history, p.base), |p.history|)| + j
  {
    DerivedLotIsLatePurchase(p, j);
  }

  lemma PlanHistory(req: Request, order: seq<RawTrade>)
    requires Arranged(order, req.rows) && PlanFor(req).Ok?
    ensures Derived(PlanFor(req).value) && PlanFor(req).value.history == AllKept(order, req.base, req.quote)
    ensures PlanFor(req).value.base == req.base && PlanFor(req).value.quote == req.quote
    ensures AllReadable(order, req.base, req.quote)
  {
    RowsAreKept(req.rows, req.base, req.quote);
    PlanForIs(req, order);
    ArrangedReadable(order, req.rows, req.base, req.quote);
    PlanIsDerived(req);
  }

  // The row behind lot j, as a position in the history.
  lemma LotOrigin(req: Request, order: seq<RawTrade>, j: nat) returns (k: nat)
    requires Arranged(order, req.rows) && PlanFor(req).Ok? && j < |PlanFor(req).value.lots|
    ensures k < |order| && IsOf(PlanFor(req).value.lots[j], order[k], req.base, req.quote)
    ensures j > 0 ==> PlanFor(req).value.lots[j].quantity == Received(order[k], req.base)
    ensures var history := AllKept(order, req.base, req.quote);
            |Bought(Moves(history, req.base), k)| == PlaceOf(req, history, j)
  {
    PlanHistory(req, order);
    var plan := PlanFor(req).value;
    PlaceIsReal(plan, j);
    k := BoughtFrom(Moves(plan.history, plan.base), |order|, PlaceOf(req, plan.history, j));
    assert Moves(plan.history, plan.base)[k] == AsMove(Kept(order[k], req.base, req.quote), req.base);
    ReceivedAt(order, req.base, req.quote, k);
    var purchase := LotAndPurchase(plan, j);
    LotOfPurchase(plan.lots[j], purchase, order[k], req.base, req.quote);
  }

  /** Every imported lot is what is left of one purchase among the rows, under its ids and its time, at the cost
      that was paid for each unit received, the commission included; only the oldest lot can have been cut. */
  lemma LotsArePaidFor(req: Request, order: seq<RawTrade>, j: nat) returns (row: RawTrade)
    requires Arranged(order, req.rows) && PlanFor(req).Ok? && j < |PlanFor(req).value.lots|
    ensures row in req.rows && IsOf(PlanFor(req).value.lots[j], row, req.base, req.quote)
    ensures j > 0 ==> PlanFor(req).value.lots[j].quantity == Received(row, req.base)
  {
    var k := LotOrigin(req, order, j);
    row := order[k];
    assert row in multiset(req.rows);
  }

  /** The lots are in the order of their purchases. */
  lemma LotsAreInTime(req: Request, order: seq<RawTrade>, i: nat, j: nat)
    requires Arranged(order, req.rows) && PlanFor(req).Ok? && i < j < |PlanFor(req).value.lots|
    ensures PlanFor(req).value.lots[i].openedAt <= PlanFor(req).value.lots[j].openedAt
  {
    var moves := Moves(AllKept(order, req.base, req.quote), req.base);
    var k := LotOrigin(req, order, i);
    var l := LotOrigin(req, order, j);
    if l < k {
      BoughtGrows(moves, l, k);
    }
    assert k < l ==> Before(order[k], order[l]);
  }

  /** Of the purchases only the oldest are gone: a purchase without a lot was made before those of all lots. */
  lemma OnlyTheOldestAreGone(req: Request, order: seq<RawTrade>, row: RawTrade, j: nat)
    requires Arranged(order, req.rows) && PlanFor(req).Ok? && row in req.rows && row.isBuyer
    requires var lots := PlanFor(req).value.lots;
             j < |lots| && forall l | 0 <= l < |lots| :: lots[l].tradeId != row.id
    ensures var lot := PlanFor(req).value.lots[j];
            row.time < lot.openedAt || (row.time == lot.openedAt && row.id < lot.tradeId)
  {
    var lots := PlanFor(req).value.lots;
    assert row in multiset(order);
    var k :| 0 <= k < |order| && order[k] == row;
    var moves := Moves(AllKept(order, req.base, req.quote), req.base);
    BoughtAt(moves, k, |order|);
    var first := |Bought(moves, |order|)| - |lots|;
    if |Bought(moves, k)| >= first {
      var other := LotOrigin(req, order, |Bought(moves, k)| - first);
      SamePurchase(moves, k, other);
    } else {
      var later := LotOrigin(req, order, j);
      if later <= k {
        BoughtGrows(moves, later, k);
      }
      assert Before(order[k], order[later]);
    }
  }

  lemma {:induction false} SamePurchase(moves: seq<Move<Tag>>, k: nat, l: nat)
    requires k < |moves| && l < |moves| && moves[k].Buy? && moves[l].Buy?
    requires |Bought(moves, k)| == |Bought(moves, l)|
    ensures k == l
  {
    if k < l {
      BoughtAt(moves, k, l);
    } else if l < k {
      BoughtAt(moves, l, k);
    }
  }

  lemma Elsewhere<T>(a: seq<T>, b: seq<T>, i: nat) returns (j: nat)
    requires multiset(a) == multiset(b) && i < |a|
    ensures j < |b| && b[j] == a[i]
  {
    assert a[i] in multiset(b);
    j :| 0 <= j < |b| && b[j] == a[i];
  }

  lemma {:induction false} PlanKeepsHistory(req: Request, history: seq<Trade>)
    requires history != [] && PlanFromHistory(req, history).Ok?
    ensures PlanFromHistory(req, history).value.history == history
  {
  }

  lemma HistoryIsNormal(req: Request)
    requires PlanFor(req).Ok?
    ensures NormalizedAll(req.rows, req.base, req.quote).Ok?
    ensures PlanFor(req).value.history == Sorted(NormalizedAll(req.rows, req.base, req.quote).value)
  {
    var kept := NormalizedAll(req.rows, req.base, req.quote).value;
    SortedPermutes(kept);
    PlanKeepsHistory(req, Sorted(kept));
  }

  lemma HistoryIsSorted(req: Request)
    requires PlanFor(req).Ok?
    ensures PlanFor(req).value.history == Sorted(AllKept(req.rows, req.base, req.quote))
    ensures multiset(PlanFor(req).value.history) == multiset(AllKept(req.rows, req.base, req.quote))
  {
    HistoryIsNormal(req);
    RowsAreKept(req.rows, req.base, req.quote);
    SortedPermutes(AllKept(req.rows, req.base, req.quote));
  }

  /** The first and last trade id of a plan are the least and the greatest among the rows. */
  lemma IdsAreExtreme(req: Request, row: RawTrade) returns (first: RawTrade, last: RawTrade)
    requires PlanFor(req).Ok? && row in req.rows
    ensures PlanFor(req).value.firstTradeId <= row.id <= PlanFor(req).value.lastTradeId
    ensures first in req.rows && last in req.rows
    ensures first.id == PlanFor(req).value.firstTradeId && last.id == PlanFor(req).value.lastTradeId
  {
    HistoryIsSorted(req);
    var kept, history := AllKept(req.rows, req.base, req.quote), PlanFor(req).value.history;
    var k :| 0 <= k < |req.rows| && req.rows[k] == row;
    var i := Elsewhere(kept, history, k);
    var low, high := ExtremesOf(history, |history|, i);
    var a := Elsewhere(history, kept, low);
    var b := Elsewhere(history, kept, high);
    first, last := req.rows[a], req.rows[b];
  }

  lemma {:induction false} ExtremesOf(trades: seq<Trade>, n: nat, i: nat) returns (low: nat, high: nat)
    requires 0 < n <= |trades|
    ensures i < n ==> LowestId(trades, n) <= trades[i].id <= HighestId(trades, n)
    ensures low < n && high < n && trades[low].id == LowestId(trades, n) && trades[high].id == HighestId(trades, n)
  {
    low, high := n - 1, n - 1;
    if n > 1 {
      var l, h := ExtremesOf(trades, n - 1, i);
      if trades[n - 1].id >= LowestId(trades, n - 1) {
        low := l;
      }
      if trades[n - 1].id <= HighestId(trades, n - 1) {
        high := h;
      }
    }
  }
}
