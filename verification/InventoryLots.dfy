/** Age-ordered inventory lots in a transactional table: purchases append a row, sales consume the
    oldest open rows, and every exchange fill takes effect at most once. */
module InventoryLots {
  import opened Results
  import opened FifoLots
  import opened TradeAccounting

  datatype LotStatus = Open | Closed | Superseded

  /** A row's lot id is its position in the table. The quantity is stored as text, and two texts are
      in use: the shortest decimal text, and, when `fixedPoint` holds, one without an exponent. */
  datatype LotRow = LotRow(
    symbol: string, qty: real, price: real, openedAt: int, orderId: string, tradeId: string,
    batch: string, status: LotStatus, fixedPoint: bool)

  // Below this quantity the shortest text has an exponent (`StoredText.TextsDifferExactly`).
  const EXPONENT_LIMIT := 0.000001

  /** The stored text is the one that is written back for its value. */
  predicate Canonical(row: LotRow) {
    row.fixedPoint ==> row.qty >= EXPONENT_LIMIT
  }

  datatype Consumption = Consumption(orderId: string, qty: real, price: real)

  type FillKey = (string, string)

  datatype Book = Book(rows: seq<LotRow>, consumptions: map<FillKey, Consumption>)

  datatype SyncError =
    | InvalidExecution | MissingTradeId | Unpriced | NotPositive
    | BuyMismatch | SellMismatch | SellExceedsLots | ChangedDuringConsumption

  // ---------- age order ----------

  predicate Indices(order: seq<nat>, n: nat) {
    forall k | 0 <= k < |order| :: order[k] < n
  }

  function Ages(rows: seq<LotRow>): (r: seq<int>)
    ensures |r| == |rows|
  {
    seq(|rows|, i requires 0 <= i < |rows| => rows[i].openedAt)
  }

  // The newest id goes behind every row that is not younger.
  function InsertByAge(order: seq<nat>, ages: seq<int>, id: nat): (r: seq<nat>)
    requires Indices(order, |ages|) && id < |ages|
    ensures Indices(r, |ages|)
  {
    if order == [] || ages[order[|order| - 1]] <= ages[id] then order + [id]
    else InsertByAge(order[..|order| - 1], ages, id) + [order[|order| - 1]]
  }

  /** Ids by opening time, then by id. */
  function ByAge(ages: seq<int>): (r: seq<nat>)
    ensures Indices(r, |ages|)
  {
    if ages == [] then [] else InsertByAge(ByAge(ages[..|ages| - 1]), ages, |ages| - 1)
  }

  predicate IsOpen(row: LotRow, symbol: string) {
    row.symbol == symbol && row.status == Open
  }

  predicate Live(row: LotRow, symbol: string) {
    IsOpen(row, symbol) && row.qty > 0.0
  }

  function LiveIds(order: seq<nat>, rows: seq<LotRow>, symbol: string): (r: seq<nat>)
    requires Indices(order, |rows|)
    ensures Indices(r, |rows|)
  {
    if order == [] then []
    else
      var rest := LiveIds(order[1..], rows, symbol);
      if Live(rows[order[0]], symbol) then [order[0]] + rest else rest
  }

  function AsLots(ids: seq<nat>, rows: seq<LotRow>): seq<Lot<nat>>
    requires Indices(ids, |rows|)
  {
    if ids == [] then [] else [Lot(rows[ids[0]].qty, ids[0])] + AsLots(ids[1..], rows)
  }

  /** The positive open lots of a symbol, oldest first. */
  function OldestIds(rows: seq<LotRow>, symbol: string): (r: seq<nat>)
    ensures Indices(r, |rows|)
  {
    LiveIds(ByAge(Ages(rows)), rows, symbol)
  }

  function OldestLots(rows: seq<LotRow>, symbol: string): seq<Lot<nat>> {
    AsLots(OldestIds(rows, symbol), rows)
  }

  function OpenQuantity(rows: seq<LotRow>, symbol: string): real {
    Total(OldestLots(rows, symbol))
  }

  predicate Older(ages: seq<int>, a: nat, b: nat)
    requires a < |ages| && b < |ages|
  {
    ages[a] < ages[b] || (ages[a] == ages[b] && a < b)
  }

  ghost predicate OrderedByAge(order: seq<nat>, ages: seq<int>)
    requires Indices(order, |ages|)
  {
    forall j, k | 0 <= j < k < |order| :: Older(ages, order[j], order[k])
  }

  lemma {:induction false} InsertKeepsOrder(order: seq<nat>, ages: seq<int>, id: nat)
    requires Indices(order, id) && id < |ages| && OrderedByAge(order, ages)
    ensures OrderedByAge(InsertByAge(order, ages, id), ages)
    ensures forall x :: x in InsertByAge(order, ages, id) <==> x in order || x == id
  {
    if order != [] && ages[order[|order| - 1]] > ages[id] {
      var rest, last := order[..|order| - 1], order[|order| - 1];
      InsertKeepsOrder(rest, ages, id);
      var inner := InsertByAge(rest, ages, id);
      forall k | 0 <= k < |inner| ensures Older(ages, inner[k], last) {
        assert inner[k] in rest || inner[k] == id;
      }
      assert order == rest + [last];
    }
  }

  /** The order really is by age, and it lists every row exactly once. */
  lemma {:induction false} ByAgeIsOrdered(ages: seq<int>)
    ensures OrderedByAge(ByAge(ages), ages)
    ensures forall x: nat :: x in ByAge(ages) <==> x < |ages|
  {
    if ages != [] {
      var n := |ages| - 1;
      ByAgeIsOrdered(ages[..n]);
      var before := ByAge(ages[..n]);
      forall j, k | 0 <= j < k < |before| ensures Older(ages, before[j], before[k]) {
        assert Older(ages[..n], before[j], before[k]);
      }
      InsertKeepsOrder(before, ages, n);
    }
  }

  // ---------- consumption ----------

  function Reduced(row: LotRow, used: real): LotRow {
    row.(qty := row.qty - used, status := if row.qty - used > 0.0 then Open else Closed, fixedPoint := false)
  }

  /** The table after the lots `ids` have been consumed from the front. */
  function ConsumeRows(rows: seq<LotRow>, ids: seq<nat>, sold: real): (r: seq<LotRow>)
    requires Indices(ids, |rows|)
    ensures |r| == |rows|
    decreases |ids|
  {
    if ids == [] || sold <= 0.0 then rows
    else
      var used := Min(sold, rows[ids[0]].qty);
      ConsumeRows(rows[ids[0] := Reduced(rows[ids[0]], used)], ids[1..], sold - used)
  }

  lemma {:induction false} ConsumeTouchesOnly(rows: seq<LotRow>, ids: seq<nat>, sold: real, i: nat)
    requires Indices(ids, |rows|) && i < |rows|
    ensures var r := ConsumeRows(rows, ids, sold)[i];
            && r == rows[i].(qty := r.qty, status := r.status, fixedPoint := r.fixedPoint)
            && (i !in ids ==> r == rows[i])
    decreases |ids|
  {
    if ids != [] && sold > 0.0 {
      var used := Min(sold, rows[ids[0]].qty);
      ConsumeTouchesOnly(rows[ids[0] := Reduced(rows[ids[0]], used)], ids[1..], sold - used, i);
    }
  }

  predicate Distinct(order: seq<nat>) {
    forall j, k | 0 <= j < k < |order| :: order[j] != order[k]
  }

  lemma {:induction false} LiveIdsMembers(order: seq<nat>, rows: seq<LotRow>, symbol: string)
    requires Indices(order, |rows|)
    ensures forall x: nat :: x in LiveIds(order, rows, symbol) <==> x in order && Live(rows[x], symbol)
    ensures Distinct(order) ==> Distinct(LiveIds(order, rows, symbol))
  {
    if order != [] {
      LiveIdsMembers(order[1..], rows, symbol);
      assert order == [order[0]] + order[1..];
    }
  }

  // Live rows keep the order of age.
  lemma {:induction false} LiveIdsOrdered(order: seq<nat>, rows: seq<LotRow>, symbol: string)
    requires Indices(order, |rows|) && OrderedByAge(order, Ages(rows))
    ensures OrderedByAge(LiveIds(order, rows, symbol), Ages(rows))
  {
    if order != [] {
      var tail := order[1..];
      assert forall k | 0 <= k < |tail| :: tail[k] == order[k + 1];
      forall j, k | 0 <= j < k < |tail| ensures Older(Ages(rows), tail[j], tail[k]) {
        assert Older(Ages(rows), order[j + 1], order[k + 1]);
      }
      LiveIdsOrdered(tail, rows, symbol);
      LiveIdsMembers(tail, rows, symbol);
      var rest := LiveIds(tail, rows, symbol);
      forall k | 0 <= k < |rest| ensures Older(Ages(rows), order[0], rest[k]) {
        assert rest[k] in rest;
        var m :| 0 <= m < |tail| && tail[m] == rest[k];
        assert Older(Ages(rows), order[0], order[m + 1]);
      }
    }
  }

  lemma {:induction false} LiveIdsDependOn(order: seq<nat>, a: seq<LotRow>, b: seq<LotRow>, symbol: string)
    requires Indices(order, |a|) && |a| == |b| && forall k | 0 <= k < |order| :: a[order[k]] == b[order[k]]
    ensures LiveIds(order, a, symbol) == LiveIds(order, b, symbol)
    ensures AsLots(LiveIds(order, a, symbol), a) == AsLots(LiveIds(order, b, symbol), b)
  {
    if order != [] {
      assert forall k | 0 <= k < |order[1..]| :: order[1..][k] == order[k + 1];
      LiveIdsDependOn(order[1..], a, b, symbol);
    }
  }

  // Consuming a live head is cutting its row and consuming the rest.
  lemma ConsumeHead(order: seq<nat>, rows: seq<LotRow>, symbol: string, sold: real)
    requires order != [] && Indices(order, |rows|) && Distinct(order) && Live(rows[order[0]], symbol) && sold > 0.0
    ensures var head, tail, used := order[0], order[1..], Min(sold, rows[order[0]].qty);
            var cut := rows[head := Reduced(rows[head], used)];
            && AsLots(LiveIds(order, rows, symbol), rows)
               == [Lot(rows[head].qty, head)] + AsLots(LiveIds(tail, cut, symbol), cut)
            && ConsumeRows(rows, LiveIds(order, rows, symbol), sold)
               == ConsumeRows(cut, LiveIds(tail, cut, symbol), sold - used)
  {
    var head, tail, used := order[0], order[1..], Min(sold, rows[order[0]].qty);
    var cut := rows[head := Reduced(rows[head], used)];
    assert forall k | 0 <= k < |tail| :: tail[k] == order[k + 1] != head;
    LiveIdsDependOn(tail, rows, cut, symbol);
    HeadLot(order, rows, symbol);
    ConsumeFirst(rows, head, LiveIds(tail, cut, symbol), sold);
    assert LiveIds(order, rows, symbol) == [head] + LiveIds(tail, cut, symbol);
  }

  lemma {:induction false} ConsumeFirst(rows: seq<LotRow>, head: nat, rest: seq<nat>, sold: real)
    requires head < |rows| && Indices(rest, |rows|) && sold > 0.0
    ensures var used := Min(sold, rows[head].qty);
            ConsumeRows(rows, [head] + rest, sold)
            == ConsumeRows(rows[head := Reduced(rows[head], used)], rest, sold - used)
  {
    assert ([head] + rest)[1..] == rest;
  }

  // A row outside the consumed ids keeps its place among the live rows, or its absence.
  lemma {:induction false} HeadUntouched(order: seq<nat>, rows: seq<LotRow>, symbol: string, ids: seq<nat>, sold: real)
    requires order != [] && Indices(order, |rows|) && Indices(ids, |rows|) && order[0] !in ids
    ensures var after := ConsumeRows(rows, ids, sold);
            && after[order[0]] == rows[order[0]]
            && LiveIds(order, after, symbol) == if Live(rows[order[0]], symbol)
                 then [order[0]] + LiveIds(order[1..], after, symbol) else LiveIds(order[1..], after, symbol)
  {
    ConsumeTouchesOnly(rows, ids, sold, order[0]);
  }

  lemma {:induction false} TailAvoidsHead(order: seq<nat>, rows: seq<LotRow>, symbol: string)
    requires order != [] && Indices(order, |rows|) && Distinct(order)
    ensures Distinct(order[1..]) && order[0] !in LiveIds(order[1..], rows, symbol)
  {
    LiveIdsMembers(order[1..], rows, symbol);
    assert forall k | 0 <= k < |order[1..]| :: order[1..][k] == order[k + 1] != order[0];
  }

  /** Updating rows in place is draining lots: closed rows drop out, the cut row stays in its place. */
  lemma {:induction false} ConsumeDrains(order: seq<nat>, rows: seq<LotRow>, symbol: string, sold: real)
    requires Indices(order, |rows|) && Distinct(order)
    ensures var after := ConsumeRows(rows, LiveIds(order, rows, symbol), sold);
            AsLots(LiveIds(order, after, symbol), after) == Drain(AsLots(LiveIds(order, rows, symbol), rows), sold)
  {
    if order != [] && sold > 0.0 {
      var head, tail := order[0], order[1..];
      if !Live(rows[head], symbol) {
        TailAvoidsHead(order, rows, symbol);
        HeadUntouched(order, rows, symbol, LiveIds(tail, rows, symbol), sold);
        ConsumeDrains(tail, rows, symbol, sold);
      } else {
        ConsumeHead(order, rows, symbol, sold);
        var used := Min(sold, rows[head].qty);
        var cut := rows[head := Reduced(rows[head], used)];
        TailAvoidsHead(order, cut, symbol);
        HeadUntouched(order, cut, symbol, LiveIds(tail, cut, symbol), sold - used);
        ConsumeDrains(tail, cut, symbol, sold - used);
        DrainHead(Lot(rows[head].qty, head), AsLots(LiveIds(tail, cut, symbol), cut), sold);
        var after := ConsumeRows(cut, LiveIds(tail, cut, symbol), sold - used);
        HeadLot(order, after, symbol);
      }
    }
  }

  lemma {:induction false} HeadLot(order: seq<nat>, rows: seq<LotRow>, symbol: string)
    requires order != [] && Indices(order, |rows|)
    ensures AsLots(LiveIds(order, rows, symbol), rows)
            == (if Live(rows[order[0]], symbol) then [Lot(rows[order[0]].qty, order[0])] else [])
               + AsLots(LiveIds(order[1..], rows, symbol), rows)
  {
    assert Live(rows[order[0]], symbol) ==> LiveIds(order, rows, symbol)[1..] == LiveIds(order[1..], rows, symbol);
  }

  lemma {:induction false} DrainHead(first: Lot<nat>, rest: seq<Lot<nat>>, sold: real)
    requires sold > 0.0 && first.qty > 0.0
    ensures var used := Min(sold, first.qty);
            Drain([first] + rest, sold)
            == (if first.qty - used > 0.0 then [first.(qty := first.qty - used)] else []) + Drain(rest, sold - used)
  {
    assert ([first] + rest)[1..] == rest;
    DrainNothing(rest, sold - Min(sold, first.qty));
  }

  lemma {:induction false} DrainNothing(lots: seq<Lot<nat>>, sold: real)
    ensures sold <= 0.0 ==> Drain(lots, sold) == lots
  {
  }

  lemma {:induction false} ByAgeDistinct(ages: seq<int>)
    ensures Distinct(ByAge(ages))
  {
    ByAgeIsOrdered(ages);
    forall j, k | 0 <= j < k < |ByAge(ages)| ensures ByAge(ages)[j] != ByAge(ages)[k] {
      assert Older(ages, ByAge(ages)[j], ByAge(ages)[k]);
    }
  }

  lemma {:induction false} ConsumeKeepsAges(rows: seq<LotRow>, ids: seq<nat>, sold: real)
    requires Indices(ids, |rows|)
    ensures Ages(ConsumeRows(rows, ids, sold)) == Ages(rows)
  {
    forall i | 0 <= i < |rows| ensures ConsumeRows(rows, ids, sold)[i].openedAt == rows[i].openedAt {
      ConsumeTouchesOnly(rows, ids, sold, i);
    }
  }

  /** What a sale leaves of a symbol's lots is exactly the closed form, whatever else the table holds. */
  lemma {:induction false} ConsumptionIsFifo(rows: seq<LotRow>, symbol: string, sold: real)
    ensures var after := ConsumeRows(rows, OldestIds(rows, symbol), sold);
            OldestLots(after, symbol) == Drain(OldestLots(rows, symbol), sold)
  {
    ByAgeDistinct(Ages(rows));
    ConsumeDrains(ByAge(Ages(rows)), rows, symbol, sold);
    ConsumeKeepsAges(rows, OldestIds(rows, symbol), sold);
  }

  /** Another symbol's lots are not affected. */
  lemma {:induction false} ConsumptionIsLocal(rows: seq<LotRow>, symbol: string, other: string, sold: real)
    requires symbol != other
    ensures OldestLots(ConsumeRows(rows, OldestIds(rows, symbol), sold), other) == OldestLots(rows, other)
  {
    var ids := OldestIds(rows, symbol);
    ConsumeKeepsAges(rows, ids, sold);
    LiveIdsMembers(ByAge(Ages(rows)), rows, symbol);
    LocalIds(ByAge(Ages(rows)), rows, ids, sold, symbol, other);
  }

  lemma {:induction false} LocalIds(order: seq<nat>, rows: seq<LotRow>, ids: seq<nat>, sold: real, symbol: string,
                                    other: string)
    requires Indices(order, |rows|) && Indices(ids, |rows|) && symbol != other
    requires forall x :: x in ids ==> rows[x].symbol == symbol
    ensures var after := ConsumeRows(rows, ids, sold);
            LiveIds(order, after, other) == LiveIds(order, rows, other)
            && AsLots(LiveIds(order, after, other), after) == AsLots(LiveIds(order, rows, other), rows)
  {
    if order != [] {
      LocalIds(order[1..], rows, ids, sold, symbol, other);
      ConsumeTouchesOnly(rows, ids, sold, order[0]);
    }
  }

  // ---------- appending a purchase ----------

  lemma {:induction false} LiveIdsConcat(a: seq<nat>, b: seq<nat>, rows: seq<LotRow>, symbol: string)
    requires Indices(a + b, |rows|) && Indices(a, |rows|) && Indices(b, |rows|)
    ensures LiveIds(a + b, rows, symbol) == LiveIds(a, rows, symbol) + LiveIds(b, rows, symbol)
  {
    if a == [] {
      assert a + b == b;
    } else {
      assert (a + b)[1..] == a[1..] + b;
      LiveIdsConcat(a[1..], b, rows, symbol);
    }
  }

  lemma {:induction false} AsLotsConcat(a: seq<nat>, b: seq<nat>, rows: seq<LotRow>)
    requires Indices(a + b, |rows|) && Indices(a, |rows|) && Indices(b, |rows|)
    ensures AsLots(a + b, rows) == AsLots(a, rows) + AsLots(b, rows)
  {
    if a == [] {
      assert a + b == b;
    } else {
      assert (a + b)[1..] == a[1..] + b;
      AsLotsConcat(a[1..], b, rows);
    }
  }

  function LiveTotal(order: seq<nat>, rows: seq<LotRow>, symbol: string): real
    requires Indices(order, |rows|)
  {
    Total(AsLots(LiveIds(order, rows, symbol), rows))
  }

  lemma LiveTotalConcat(a: seq<nat>, b: seq<nat>, rows: seq<LotRow>, symbol: string)
    requires Indices(a + b, |rows|) && Indices(a, |rows|) && Indices(b, |rows|)
    ensures LiveTotal(a + b, rows, symbol) == LiveTotal(a, rows, symbol) + LiveTotal(b, rows, symbol)
  {
    LiveIdsConcat(a, b, rows, symbol);
    AsLotsConcat(LiveIds(a, rows, symbol), LiveIds(b, rows, symbol), rows);
    TotalConcat(AsLots(LiveIds(a, rows, symbol), rows), AsLots(LiveIds(b, rows, symbol), rows));
  }

  function LiveQuantity(row: LotRow, symbol: string): real {
    if Live(row, symbol) then row.qty else 0.0
  }

  lemma {:induction false} LiveOne(rows: seq<LotRow>, symbol: string, id: nat)
    requires id < |rows|
    ensures LiveIds([id], rows, symbol) == if Live(rows[id], symbol) then [id] else []
    ensures AsLots([id], rows) == [Lot(rows[id].qty, id)]
    ensures LiveTotal([id], rows, symbol) == LiveQuantity(rows[id], symbol)
  {
    assert [id][1..] == [];
    assert LiveIds([], rows, symbol) == [] && AsLots([], rows) == [];
    TotalOne(Lot(rows[id].qty, id));
  }

  lemma {:induction false} InsertTotal(order: seq<nat>, rows: seq<LotRow>, symbol: string, id: nat)
    requires Indices(order, |rows|) && id < |rows|
    ensures LiveTotal(InsertByAge(order, Ages(rows), id), rows, symbol)
            == LiveTotal(order, rows, symbol) + LiveQuantity(rows[id], symbol)
  {
    LiveOne(rows, symbol, id);
    if order == [] || rows[order[|order| - 1]].openedAt <= rows[id].openedAt {
      LiveTotalConcat(order, [id], rows, symbol);
    } else {
      var rest, last := order[..|order| - 1], order[|order| - 1];
      InsertTotal(rest, rows, symbol, id);
      assert order == rest + [last];
      LiveTotalConcat(rest, [last], rows, symbol);
      LiveTotalConcat(InsertByAge(rest, Ages(rows), id), [last], rows, symbol);
    }
  }

  lemma {:induction false} LiveIdsOfPrefix(order: seq<nat>, rows: seq<LotRow>, more: seq<LotRow>, symbol: string)
    requires Indices(order, |rows|)
    ensures LiveIds(order, rows + more, symbol) == LiveIds(order, rows, symbol)
    ensures AsLots(LiveIds(order, rows, symbol), rows + more) == AsLots(LiveIds(order, rows, symbol), rows)
  {
    if order != [] {
      LiveIdsOfPrefix(order[1..], rows, more, symbol);
    }
  }

  /** A new row adds its quantity to its own symbol, wherever its age puts it. */
  lemma AppendAdds(rows: seq<LotRow>, row: LotRow, symbol: string)
    ensures OpenQuantity(rows + [row], symbol) == OpenQuantity(rows, symbol) + LiveQuantity(row, symbol)
  {
    assert Ages(rows + [row])[..|rows|] == Ages(rows);
    LiveIdsOfPrefix(ByAge(Ages(rows)), rows, [row], symbol);
    InsertTotal(ByAge(Ages(rows)), rows + [row], symbol, |rows|);
  }

  /** A row that is not older than any other goes to the end of the queue. */
  lemma AppendYoungest(rows: seq<LotRow>, row: LotRow, symbol: string)
    requires Live(row, symbol) && forall i | 0 <= i < |rows| :: rows[i].openedAt <= row.openedAt
    ensures OldestLots(rows + [row], symbol) == OldestLots(rows, symbol) + [Lot(row.qty, |rows|)]
  {
    var n, all := |rows|, rows + [row];
    var order := ByAge(Ages(rows));
    assert Ages(all)[..n] == Ages(rows);
    LiveIdsOfPrefix(order, rows, [row], symbol);
    LiveIdsConcat(order, [n], all, symbol);
    AsLotsConcat(LiveIds(order, all, symbol), [n], all);
    LiveOne(all, symbol, n);
    assert ByAge(Ages(all)) == order + [n];
  }

  // ---------- the plan of a sale ----------

  datatype Allocation = Allocation(id: nat, qty: real)

  function Allocated(ids: seq<nat>, rows: seq<LotRow>, sold: real): (r: seq<Allocation>)
    requires Indices(ids, |rows|)
    ensures forall k | 0 <= k < |r| :: r[k].id < |rows|
  {
    if ids == [] || sold <= 0.0 then []
    else
      var used := Min(sold, rows[ids[0]].qty);
      [Allocation(ids[0], used)] + Allocated(ids[1..], rows, sold - used)
  }

  /** The sale as it is planned: which lots it touches and what it takes of each. */
  function SalePlan(rows: seq<LotRow>, symbol: string, sold: real): seq<Allocation> {
    Allocated(OldestIds(rows, symbol), rows, sold)
  }

  // The text of the quantity that was read is the stored text.
  predicate SameText(row: LotRow, seen: real) {
    row.qty == seen && Canonical(row)
  }

  predicate AllCanonical(plan: seq<Allocation>, rows: seq<LotRow>)
    requires forall k | 0 <= k < |plan| :: plan[k].id < |rows|
  {
    forall k | 0 <= k < |plan| :: Canonical(rows[plan[k].id])
  }

  /** Every lot the sale touches can be updated by its stored text. */
  predicate Rewritable(rows: seq<LotRow>, symbol: string, sold: real) {
    AllCanonical(SalePlan(rows, symbol, sold), rows)
  }

  // ---------- one exchange fill ----------

  function FirstRow(rows: seq<LotRow>, symbol: string, tradeId: string, start: nat): (r: Option<nat>)
    requires start <= |rows|
    ensures r.Some? ==> start <= r.value < |rows| && rows[r.value].symbol == symbol && rows[r.value].tradeId == tradeId
    ensures r == None ==> forall i | start <= i < |rows| :: !(rows[i].symbol == symbol && rows[i].tradeId == tradeId)
    decreases |rows| - start
  {
    if start == |rows| then None
    else if rows[start].symbol == symbol && rows[start].tradeId == tradeId then Some(start)
    else FirstRow(rows, symbol, tradeId, start + 1)
  }

  // Milliseconds to whole seconds, towards zero; a zero means "now" to the table.
  function OpenedAt(timeMs: int, clock: int): int {
    var seconds := if timeMs >= 0 then timeMs / 1000 else -(-timeMs / 1000);
    if seconds == 0 then clock else seconds
  }

  function PurchaseRow(fill: Fill, clock: int): LotRow
    requires Executable(fill)
  {
    LotRow(fill.symbol, NetQuantity(fill), BuyCost(fill) / NetQuantity(fill), OpenedAt(fill.timeMs, clock),
           fill.orderId, fill.tradeId, "", Open, false)
  }

  predicate SamePurchase(row: LotRow, lot: LotRow) {
    row.qty == lot.qty && row.price == lot.price && row.orderId == lot.orderId && row.batch == lot.batch
  }

  /** Appending a row, or recognising the purchase that is already there. The comparison is with the
      recorded row as it is now, that is, with what is left of the purchase. */
  function AddedRow(rows: seq<LotRow>, lot: LotRow): Result<seq<LotRow>, SyncError> {
    if lot.qty <= 0.0 || lot.price <= 0.0 then Err(NotPositive)
    else
      var existing := if lot.tradeId == "" then None else FirstRow(rows, lot.symbol, lot.tradeId, 0);
      if existing == None then Ok(rows + [lot])
      else if SamePurchase(rows[existing.value], lot) then Ok(rows)
      else Err(BuyMismatch)
  }

  function Key(fill: Fill): FillKey { (fill.symbol, fill.tradeId) }

  function SyncedSale(book: Book, fill: Fill): Result<Book, SyncError>
    requires Executable(fill)
  {
    var net := NetQuantity(fill);
    if Key(fill) in book.consumptions then
      var recorded := book.consumptions[Key(fill)];
      if (recorded.orderId != "" && recorded.orderId != fill.orderId) || recorded.qty != net
          || recorded.price != fill.price
      then Err(SellMismatch)
      else Ok(book.(consumptions := book.consumptions[Key(fill) := recorded.(orderId := fill.orderId)]))
    else if net > OpenQuantity(book.rows, fill.symbol) then Err(SellExceedsLots)
    else if !Rewritable(book.rows, fill.symbol, net) then Err(ChangedDuringConsumption)
    else Ok(Book(ConsumeRows(book.rows, OldestIds(book.rows, fill.symbol), net),
                 book.consumptions[Key(fill) := Consumption(fill.orderId, net, fill.price)]))
  }

  /** The effect of one exchange fill; an error means that nothing changes. */
  function Synced(book: Book, fill: Fill, clock: int): Result<Book, SyncError> {
    if !Executable(fill) then Err(InvalidExecution)
    else if fill.tradeId == "" then Err(MissingTradeId)
    else if !fill.isBuy then SyncedSale(book, fill)
    else if ValuedCommission(fill) == None then Err(Unpriced)
    else match AddedRow(book.rows, PurchaseRow(fill, clock))
      case Err(e) => Err(e)
      case Ok(rows) => Ok(book.(rows := rows))
  }

  // ---------- the table as a program ----------

  function Applied(rows: seq<LotRow>, plan: seq<Allocation>): (r: seq<LotRow>)
    requires forall k | 0 <= k < |plan| :: plan[k].id < |rows|
    ensures |r| == |rows|
    decreases |plan|
  {
    if plan == [] then rows
    else Applied(rows[plan[0].id := Reduced(rows[plan[0].id], plan[0].qty)], plan[1..])
  }

  // A plan depends on nothing but the lots it may touch.
  lemma {:induction false} AllocatedDependsOn(ids: seq<nat>, a: seq<LotRow>, b: seq<LotRow>, sold: real)
    requires Indices(ids, |a|) && |a| == |b| && forall k | 0 <= k < |ids| :: a[ids[k]] == b[ids[k]]
    ensures Allocated(ids, a, sold) == Allocated(ids, b, sold)
  {
    if ids != [] && sold > 0.0 {
      assert forall k | 0 <= k < |ids[1..]| :: ids[1..][k] == ids[k + 1];
      AllocatedDependsOn(ids[1..], a, b, sold - Min(sold, a[ids[0]].qty));
    }
  }

  // Planning a sale is planning its first lot and then the rest on the table without it.
  lemma PlanHead(ids: seq<nat>, rows: seq<LotRow>, sold: real)
    requires Indices(ids, |rows|) && Distinct(ids) && ids != [] && sold > 0.0
    ensures var used := Min(sold, rows[ids[0]].qty);
            Distinct(ids[1..])
            && Allocated(ids, rows, sold)
               == [Allocation(ids[0], used)]
                  + Allocated(ids[1..], rows[ids[0] := Reduced(rows[ids[0]], used)], sold - used)
  {
    var used := Min(sold, rows[ids[0]].qty);
    assert forall k | 0 <= k < |ids[1..]| :: ids[1..][k] == ids[k + 1] != ids[0];
    AllocatedDependsOn(ids[1..], rows, rows[ids[0] := Reduced(rows[ids[0]], used)], sold - used);
  }

  lemma {:induction false} AppliedFirst(rows: seq<LotRow>, first: Allocation, rest: seq<Allocation>)
    requires first.id < |rows| && forall k | 0 <= k < |rest| :: rest[k].id < |rows|
    ensures Applied(rows, [first] + rest) == Applied(rows[first.id := Reduced(rows[first.id], first.qty)], rest)
  {
    assert ([first] + rest)[1..] == rest;
  }

  // Carrying out the plan is the consumption.
  lemma {:induction false} AllocationConsumes(ids: seq<nat>, rows: seq<LotRow>, sold: real)
    requires Indices(ids, |rows|) && Distinct(ids)
    ensures Applied(rows, Allocated(ids, rows, sold)) == ConsumeRows(rows, ids, sold)
    decreases |ids|
  {
    if ids != [] && sold > 0.0 {
      var used := Min(sold, rows[ids[0]].qty);
      var cut := rows[ids[0] := Reduced(rows[ids[0]], used)];
      PlanHead(ids, rows, sold);
      AllocationConsumes(ids[1..], cut, sold - used);
      AppliedFirst(rows, Allocation(ids[0], used), Allocated(ids[1..], cut, sold - used));
    }
  }

  lemma {:induction false} AllocationFits(ids: seq<nat>, rows: seq<LotRow>, sold: real)
    requires Indices(ids, |rows|) && forall k | 0 <= k < |ids| :: rows[ids[k]].qty > 0.0
    ensures forall k | 0 <= k < |Allocated(ids, rows, sold)| ::
              k < |ids| && Allocated(ids, rows, sold)[k].id == ids[k]
                  && 0.0 < Allocated(ids, rows, sold)[k].qty <= rows[ids[k]].qty
  {
    if ids != [] && sold > 0.0 {
      AllocationFits(ids[1..], rows, sold - Min(sold, rows[ids[0]].qty));
    }
  }

  lemma OldestIdsAreLive(rows: seq<LotRow>, symbol: string)
    ensures Distinct(OldestIds(rows, symbol))
    ensures forall k | 0 <= k < |OldestIds(rows, symbol)| :: Live(rows[OldestIds(rows, symbol)[k]], symbol)
  {
    ByAgeDistinct(Ages(rows));
    LiveIdsMembers(ByAge(Ages(rows)), rows, symbol);
    forall k | 0 <= k < |OldestIds(rows, symbol)| ensures Live(rows[OldestIds(rows, symbol)[k]], symbol) {
      assert OldestIds(rows, symbol)[k] in OldestIds(rows, symbol);
    }
  }

  class LotTable {
    var rows: seq<LotRow>
    var consumptions: map<FillKey, Consumption>

    ghost function Contents(): Book
      reads this
    {
      Book(rows, consumptions)
    }

    constructor ()
      ensures Contents() == Book([], map[])
    {
      rows, consumptions := [], map[];
    }

    /** Open rows of a symbol by age, skipping damaged ones. */
    method ReadOldest(symbol: string) returns (ids: seq<nat>)
      ensures ids == OldestIds(rows, symbol)
    {
      var order := ByAge(Ages(rows));
      ids := [];
      for k := 0 to |order|
        invariant ids == LiveIds(order[..k], rows, symbol)
      {
        assert order[..k + 1] == order[..k] + [order[k]];
        LiveIdsConcat(order[..k], [order[k]], rows, symbol);
        LiveOne(rows, symbol, order[k]);
        if IsOpen(rows[order[k]], symbol) && rows[order[k]].qty > 0.0 {
          ids := ids + [order[k]];
        }
      }
      assert order[..|order|] == order;
    }

    method AddLot(lot: LotRow) returns (r: Result<nat, SyncError>)
      modifies this`rows
      ensures match AddedRow(old(rows), lot)
              case Err(e) => r == Err(e) && rows == old(rows)
              case Ok(after) => r.Ok? && rows == after
      ensures r.Ok? ==> r.value < |rows| && rows[r.value].symbol == lot.symbol && rows[r.value].tradeId == lot.tradeId
                        && SamePurchase(rows[r.value], lot)
    {
      if lot.qty <= 0.0 || lot.price <= 0.0 {
        return Err(NotPositive);
      }
      if lot.tradeId != "" {
        var existing := FirstRow(rows, lot.symbol, lot.tradeId, 0);
        if existing.Some? {
          var row := rows[existing.value];
          if row.qty != lot.qty || row.price != lot.price || row.orderId != lot.orderId || row.batch != lot.batch {
            return Err(BuyMismatch);
          }
          return Ok(existing.value);
        }
      }
      rows := rows + [lot];
      return Ok(|rows| - 1);
    }

    /** Two passes: plan the whole sale without touching anything, then apply it. Nothing is consumed
        unless everything is. Even without another writer the second pass can fail: a lot whose stored
        text is not the text of its value is never found again. */
    method ConsumeFifo(symbol: string, qty: real) returns (r: Result<seq<Allocation>, SyncError>)
      modifies this`rows
      ensures qty <= 0.0 ==> r == Err(NotPositive)
      ensures qty > 0.0 ==> r == if qty > OpenQuantity(old(rows), symbol) then Err(SellExceedsLots)
                                 else if !Rewritable(old(rows), symbol, qty) then Err(ChangedDuringConsumption)
                                 else Ok(SalePlan(old(rows), symbol, qty))
      ensures rows == if r.Ok? then ConsumeRows(old(rows), OldestIds(old(rows), symbol), qty) else old(rows)
    {
      if qty <= 0.0 {
        return Err(NotPositive);
      }
      OldestIdsAreLive(rows, symbol);
      var ids := ReadOldest(symbol);
      var consumed, remaining := FirstPass(symbol, ids, qty);
      if remaining > 0.0 {
        return Err(SellExceedsLots);
      }
      r := SecondPass(symbol, ids, consumed, qty);
    }

    method FirstPass(symbol: string, ids: seq<nat>, qty: real) returns (consumed: seq<Allocation>, remaining: real)
      requires ids == OldestIds(rows, symbol) && qty > 0.0
      ensures remaining > 0.0 <==> qty > OpenQuantity(rows, symbol)
      ensures consumed == Allocated(ids, rows, qty)
    {
      consumed, remaining := [], qty;
      var k := 0;
      OldestIdsAreLive(rows, symbol);
      PlanStarts(ids, rows, qty);
      while k < |ids| && remaining > 0.0
        invariant 0 <= k <= |ids| && PlannedUpTo(ids, rows, qty, consumed, remaining, k)
      {
        PlanOne(ids, rows, qty, consumed, remaining, k);
        var used := Min(remaining, rows[ids[k]].qty);
        consumed := consumed + [Allocation(ids[k], used)];
        remaining := remaining - used;
        k := k + 1;
      }
      PlanEnds(ids, rows, qty, consumed, remaining, k);
    }

    method SecondPass(symbol: string, ids: seq<nat>, consumed: seq<Allocation>, qty: real)
        returns (r: Result<seq<Allocation>, SyncError>)
      requires ids == OldestIds(rows, symbol) && consumed == Allocated(ids, rows, qty)
      modifies this`rows
      ensures r == if Rewritable(old(rows), symbol, qty) then Ok(consumed) else Err(ChangedDuringConsumption)
      ensures rows == if r.Ok? then ConsumeRows(old(rows), ids, qty) else old(rows)
    {
      AllocationFeasible(rows, symbol, qty);
      var savepoint := rows;
      var current := ReadOldest(symbol);
      var asRead := |consumed| <= |current| && forall k | 0 <= k < |consumed| :: current[k] == consumed[k].id;
      if asRead {
        asRead := ApplyPlan(consumed);
      }
      rows := if asRead then rows else savepoint;
      r := if asRead then Ok(consumed) else Err(ChangedDuringConsumption);
    }

    method ApplyPlan(plan: seq<Allocation>) returns (asRead: bool)
      requires Feasible(plan, rows)
      modifies this`rows
      ensures asRead <==> AllCanonical(plan, old(rows))
      ensures asRead ==> rows == Applied(old(rows), plan)
    {
      var seen := rows;
      var k := 0;
      asRead := true;
      assert plan[0..] == plan;
      while k < |plan| && asRead
        invariant 0 <= k <= |plan| && |rows| == |seen|
        invariant asRead ==> Applied(rows, plan[k..]) == Applied(seen, plan)
        invariant asRead ==> forall j | k <= j < |plan| :: rows[plan[j].id] == seen[plan[j].id]
        invariant asRead ==> forall j | 0 <= j < k :: Canonical(seen[plan[j].id])
        invariant !asRead ==> !AllCanonical(plan, seen)
      {
        assert plan[k..][1..] == plan[k + 1..];
        asRead := UpdateRow(plan[k], seen[plan[k].id].qty);
        k := k + 1;
      }
    }

    /** Conditional update: only while the row is open and its stored text is that of the quantity
        that was read. */
    method UpdateRow(a: Allocation, seen: real) returns (updated: bool)
      requires a.id < |rows|
      modifies this`rows
      ensures updated == (old(rows)[a.id].status == Open && old(rows)[a.id].qty == seen >= a.qty
                          && Canonical(old(rows)[a.id]))
      ensures rows == if updated then old(rows)[a.id := Reduced(old(rows)[a.id], a.qty)] else old(rows)
    {
      var row := rows[a.id];
      var left := seen - a.qty;
      if left < 0.0 || row.status != Open || !SameText(row, seen) {
        return false;
      }
      rows := rows[a.id := row.(qty := left, status := if left > 0.0 then Open else Closed, fixedPoint := false)];
      return true;
    }

    /** One fill, at most once: exactly the effect `Synced` describes, and nothing on refusal. */
    method SyncExchangeFill(fill: Fill, clock: int) returns (r: Result<seq<Allocation>, SyncError>)
      modifies this
      ensures match Synced(old(Contents()), fill, clock)
              case Err(e) => r == Err(e) && Contents() == old(Contents())
              case Ok(after) => r.Ok? && Contents() == after
      ensures r.Ok? ==> r.value == if fill.isBuy || Key(fill) in old(consumptions) then []
                                   else SalePlan(old(rows), fill.symbol, NetQuantity(fill))
    {
      if !Executable(fill) {
        return Err(InvalidExecution);
      }
      if fill.tradeId == "" {
        return Err(MissingTradeId);
      }
      if fill.isBuy {
        if ValuedCommission(fill) == None {
          return Err(Unpriced);
        }
        var added := AddLot(PurchaseRow(fill, clock));
        return if added.Ok? then Ok([]) else Err(added.error);
      }
      if Key(fill) in consumptions {
        var recorded := consumptions[Key(fill)];
        if (recorded.orderId != "" && recorded.orderId != fill.orderId)
           || recorded.qty != NetQuantity(fill) || recorded.price != fill.price {
          return Err(SellMismatch);
        }
        if recorded.orderId == "" && fill.orderId != "" {
          consumptions := consumptions[Key(fill) := recorded.(orderId := fill.orderId)];
        }
        return Ok([]);
      }
      r := ConsumeFifo(fill.symbol, NetQuantity(fill));
      if r.Ok? {
        consumptions := consumptions[Key(fill) := Consumption(fill.orderId, NetQuantity(fill), fill.price)];
      }
    }
  }

  lemma {:induction false} HeadTotal(ids: seq<nat>, rows: seq<LotRow>)
    requires Indices(ids, |rows|) && ids != []
    ensures Total(AsLots(ids, rows)) == rows[ids[0]].qty + Total(AsLots(ids[1..], rows))
  {
    assert AsLots(ids, rows)[1..] == AsLots(ids[1..], rows);
  }

  // While something is still to be taken, the lots ahead and the amount keep their difference.
  ghost predicate Progress(ids: seq<nat>, rows: seq<LotRow>, remaining: real, surplus: real)
    requires Indices(ids, |rows|)
  {
    (remaining > 0.0 ==> Total(AsLots(ids, rows)) - remaining == surplus) && (remaining == 0.0 ==> surplus >= 0.0)
  }

  ghost predicate PlannedUpTo(ids: seq<nat>, rows: seq<LotRow>, sold: real, plan: seq<Allocation>, remaining: real,
                              k: nat)
    requires Indices(ids, |rows|) && k <= |ids|
  {
    && remaining >= 0.0
    && plan + Allocated(ids[k..], rows, remaining) == Allocated(ids, rows, sold)
    && Progress(ids[k..], rows, remaining, Total(AsLots(ids, rows)) - sold)
  }

  lemma PlanOne(ids: seq<nat>, rows: seq<LotRow>, sold: real, plan: seq<Allocation>, remaining: real, k: nat)
    requires Indices(ids, |rows|) && k < |ids| && (forall j | 0 <= j < |ids| :: rows[ids[j]].qty > 0.0)
    requires PlannedUpTo(ids, rows, sold, plan, remaining, k) && remaining > 0.0
    ensures var used := Min(remaining, rows[ids[k]].qty);
            PlannedUpTo(ids, rows, sold, plan + [Allocation(ids[k], used)], remaining - used, k + 1)
  {
    var rest, used := ids[k..], Min(remaining, rows[ids[k]].qty);
    assert rest[1..] == ids[k + 1..];
    assert forall j | 0 <= j < |rest| :: rest[j] == ids[k + j];
    OneAllocation(rest, rows, remaining, Total(AsLots(ids, rows)) - sold);
    assert plan + Allocated(rest, rows, remaining)
           == plan + [Allocation(ids[k], used)] + Allocated(rest[1..], rows, remaining - used);
  }

  lemma PlanStarts(ids: seq<nat>, rows: seq<LotRow>, sold: real)
    requires Indices(ids, |rows|) && sold > 0.0
    ensures PlannedUpTo(ids, rows, sold, [], sold, 0)
  {
    assert ids[0..] == ids;
  }

  lemma {:induction false} PlanEnds(ids: seq<nat>, rows: seq<LotRow>, sold: real, plan: seq<Allocation>,
                                    remaining: real, k: nat)
    requires Indices(ids, |rows|) && k <= |ids| && PlannedUpTo(ids, rows, sold, plan, remaining, k)
    requires k == |ids| || remaining <= 0.0
    ensures plan == Allocated(ids, rows, sold) && (remaining > 0.0 <==> sold > Total(AsLots(ids, rows)))
  {
    assert k == |ids| ==> ids[k..] == [];
  }

  lemma OneAllocation(ids: seq<nat>, rows: seq<LotRow>, remaining: real, surplus: real)
    requires Indices(ids, |rows|) && ids != [] && (forall k | 0 <= k < |ids| :: rows[ids[k]].qty > 0.0)
    requires remaining > 0.0 && Progress(ids, rows, remaining, surplus)
    ensures Progress(ids[1..], rows, remaining - Min(remaining, rows[ids[0]].qty), surplus)
  {
    HeadTotal(ids, rows);
    LotsPositive(ids[1..], rows);
    TotalNonNegative(AsLots(ids[1..], rows));
  }

  // A plan the table can still carry out: distinct open rows that hold at least the planned quantity.
  predicate Feasible(plan: seq<Allocation>, rows: seq<LotRow>) {
    && (forall k | 0 <= k < |plan| :: plan[k].id < |rows| && rows[plan[k].id].status == Open
                                      && 0.0 < plan[k].qty <= rows[plan[k].id].qty)
    && forall j, k | 0 <= j < k < |plan| :: plan[j].id != plan[k].id
  }

  /** Which lots a sale touches: those before which the older lots do not already suffice. */
  lemma {:induction false} TouchedExactly(ids: seq<nat>, rows: seq<LotRow>, sold: real, k: nat)
    requires Indices(ids, |rows|) && k < |ids| && forall j | 0 <= j < |ids| :: rows[ids[j]].qty > 0.0
    ensures k < |Allocated(ids, rows, sold)| <==> Total(AsLots(ids[..k], rows)) < sold
    ensures k < |Allocated(ids, rows, sold)| ==> Allocated(ids, rows, sold)[k].id == ids[k]
  {
    if k == 0 {
      assert ids[..0] == [];
    } else {
      var rest := ids[1..];
      assert rest[..k - 1] == ids[..k][1..];
      HeadTotal(ids[..k], rows);
      LotsPositive(rest[..k - 1], rows);
      TotalNonNegative(AsLots(rest[..k - 1], rows));
      if sold > 0.0 {
        TouchedExactly(rest, rows, sold - Min(sold, rows[ids[0]].qty), k - 1);
      }
    }
  }

  lemma {:induction false} AllocationFeasible(rows: seq<LotRow>, symbol: string, sold: real)
    ensures var ids := OldestIds(rows, symbol);
            var plan := Allocated(ids, rows, sold);
            && Feasible(plan, rows) && |plan| <= |ids| && (forall k | 0 <= k < |plan| :: plan[k].id == ids[k])
            && Applied(rows, plan) == ConsumeRows(rows, ids, sold)
  {
    var ids := OldestIds(rows, symbol);
    OldestIdsAreLive(rows, symbol);
    AllocationFits(ids, rows, sold);
    AllocationConsumes(ids, rows, sold);
    AllocationLength(ids, rows, sold);
  }

  lemma {:induction false} AllocationLength(ids: seq<nat>, rows: seq<LotRow>, sold: real)
    requires Indices(ids, |rows|)
    ensures |Allocated(ids, rows, sold)| <= |ids|
  {
    if ids != [] && sold > 0.0 {
      AllocationLength(ids[1..], rows, sold - Min(sold, rows[ids[0]].qty));
    }
  }

  lemma {:induction false} LotsPositive(ids: seq<nat>, rows: seq<LotRow>)
    requires Indices(ids, |rows|) && forall k | 0 <= k < |ids| :: rows[ids[k]].qty > 0.0
    ensures Positive(AsLots(ids, rows)) && |AsLots(ids, rows)| == |ids|
  {
    if ids != [] {
      LotsPositive(ids[1..], rows);
    }
  }
}
