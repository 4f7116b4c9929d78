/** Reconstruction of the current priced FIFO lots from a complete exchange trade history.
    `BuildCostBasisPlan` is the two-pass loop program; `PlanFor` is the closed form it computes. */
module CostBasisImport {
  import opened Results
  import opened FifoLots

  /** An exchange trade row; amounts are exact decimals. */
  datatype RawTrade = RawTrade(
    id: int, orderId: string, time: int, isBuyer: bool, price: real, qty: real,
    commission: real, commissionAsset: string, commissionQuote: Option<real>)

  datatype Trade = Trade(
    id: int, orderId: string, time: int, isBuyer: bool, price: real, gross: real,
    commission: real, commissionAsset: string, commissionQuote: real)

  datatype BuildError =
    | NegativeInput | NoProvenance | InvalidAmount | CommissionWithoutAsset
    | UnpricedCommission(id: int) | InvalidConversion(id: int)
    | EmptyHistory | DuplicateTrade
    | AccountBelowHistory | NotQuarantinableDust
    | BuyNetNotPositive(id: int) | NothingRemains
    | SellExceedsHistory(id: int) | PrehistorySurvives | QuantityMismatch

  datatype Request = Request(
    base: string, quote: string, account: real, tolerance: real, dustLimit: real,
    rows: seq<RawTrade>, createdAt: int)

  datatype ImportedLot = ImportedLot(tradeId: int, orderId: string, quantity: real, unitCost: real, openedAt: int)

  /** The plan's own history stands for its digest: equal plans are exactly those with equal hashes. */
  datatype Plan = Plan(
    base: string, quote: string, account: real, reconstructed: real, tolerance: real, prehistory: real,
    dust: real, dustLimit: real, resetTradeId: int, weightedAverage: real,
    firstTradeId: int, lastTradeId: int, history: seq<Trade>, lots: seq<ImportedLot>, createdAt: int)

  datatype Tag = Tag(tradeId: int, orderId: string, unitCost: real, openedAt: int, unpriced: bool)

  // ---------- normalisation ----------

  function Normalized(row: RawTrade, base: string, quote: string): Result<Trade, BuildError> {
    if row.id < 0 || row.orderId == "" then Err(NoProvenance)
    else if row.price <= 0.0 || row.qty <= 0.0 || row.commission < 0.0 then Err(InvalidAmount)
    else if row.commission > 0.0 && row.commissionAsset == "" then Err(CommissionWithoutAsset)
    else
      var trade := (value: real) =>
        Trade(row.id, row.orderId, row.time, row.isBuyer, row.price, row.qty, row.commission, row.commissionAsset,
              value);
      if row.commissionAsset == quote then Ok(trade(row.commission))
      else if row.commissionAsset == base then Ok(trade(row.commission * row.price))
      else if row.commission == 0.0 then Ok(trade(0.0))
      else if row.commissionQuote == None then Err(UnpricedCommission(row.id))
      else if row.commissionQuote.value <= 0.0 then Err(InvalidConversion(row.id))
      else Ok(trade(row.commissionQuote.value))
  }

  function NormalizedAll(rows: seq<RawTrade>, base: string, quote: string): Result<seq<Trade>, BuildError> {
    if rows == [] then Ok([])
    else match NormalizedAll(rows[..|rows| - 1], base, quote)
      case Err(e) => Err(e)
      case Ok(done) =>
        match Normalized(rows[|rows| - 1], base, quote)
        case Err(e) => Err(e)
        case Ok(t) => Ok(done + [t])
  }

  predicate WellFormed(t: Trade) {
    t.price > 0.0 && t.gross > 0.0 && t.commission >= 0.0 && t.commissionQuote >= 0.0 && t.id >= 0 && t.orderId != ""
  }

  predicate AllWellFormed(trades: seq<Trade>) {
    forall i | 0 <= i < |trades| :: WellFormed(trades[i])
  }

  lemma {:induction false} NormalizedAllWellFormed(rows: seq<RawTrade>, base: string, quote: string)
    requires NormalizedAll(rows, base, quote).Ok?
    ensures AllWellFormed(NormalizedAll(rows, base, quote).value) && |NormalizedAll(rows, base, quote).value| == |rows|
  {
    if rows != [] {
      NormalizedAllWellFormed(rows[..|rows| - 1], base, quote);
    }
  }

  // ---------- chronological order ----------

  predicate Earlier(a: Trade, b: Trade) {
    a.time < b.time || (a.time == b.time && a.id <= b.id)
  }

  predicate Chronological(trades: seq<Trade>) {
    forall i, j | 0 <= i < j < |trades| :: Earlier(trades[i], trades[j])
  }

  function Insert(sorted: seq<Trade>, t: Trade): seq<Trade> {
    if sorted == [] || Earlier(sorted[|sorted| - 1], t) then sorted + [t]
    else Insert(sorted[..|sorted| - 1], t) + [sorted[|sorted| - 1]]
  }

  function Sorted(trades: seq<Trade>): seq<Trade> {
    if trades == [] then [] else Insert(Sorted(trades[..|trades| - 1]), trades[|trades| - 1])
  }

  lemma {:induction false} InsertPermutes(sorted: seq<Trade>, t: Trade)
    ensures multiset(Insert(sorted, t)) == multiset(sorted) + multiset{t}
  {
    if sorted != [] && !Earlier(sorted[|sorted| - 1], t) {
      InsertPermutes(sorted[..|sorted| - 1], t);
      assert sorted == sorted[..|sorted| - 1] + [sorted[|sorted| - 1]];
    }
  }

  lemma {:induction false} InsertSorts(sorted: seq<Trade>, t: Trade)
    requires Chronological(sorted)
    ensures Chronological(Insert(sorted, t))
    ensures forall bound | Earlier(t, bound) && (forall i | 0 <= i < |sorted| :: Earlier(sorted[i], bound)) ::
              forall i | 0 <= i < |Insert(sorted, t)| :: Earlier(Insert(sorted, t)[i], bound)
  {
    if sorted != [] && !Earlier(sorted[|sorted| - 1], t) {
      InsertSorts(sorted[..|sorted| - 1], t);
      assert Earlier(t, sorted[|sorted| - 1]);
    }
  }

  lemma {:induction false} SortedPermutes(trades: seq<Trade>)
    ensures multiset(Sorted(trades)) == multiset(trades) && |Sorted(trades)| == |trades|
  {
    if trades != [] {
      SortedPermutes(trades[..|trades| - 1]);
      InsertPermutes(Sorted(trades[..|trades| - 1]), trades[|trades| - 1]);
      assert trades == trades[..|trades| - 1] + [trades[|trades| - 1]];
      assert |multiset(Sorted(trades))| == |multiset(trades)|;
    }
  }

  lemma {:induction false} SortedSorts(trades: seq<Trade>)
    ensures Chronological(Sorted(trades))
  {
    if trades != [] {
      SortedSorts(trades[..|trades| - 1]);
      InsertSorts(Sorted(trades[..|trades| - 1]), trades[|trades| - 1]);
    }
  }

  predicate DistinctIds(trades: seq<Trade>) {
    forall i, j | 0 <= i < j < |trades| :: trades[i].id != trades[j].id
  }

  // ---------- the two passes in closed form ----------

  function InventoryQuantity(t: Trade, base: string): real {
    if t.commissionAsset != base then t.gross
    else if t.isBuyer then t.gross - t.commission else t.gross + t.commission
  }

  function Running(trades: seq<Trade>, base: string, n: nat): real
    requires n <= |trades|
  {
    if n == 0 then 0.0
    else Running(trades, base, n - 1)
         + if trades[n - 1].isBuyer then InventoryQuantity(trades[n - 1], base)
             else -InventoryQuantity(trades[n - 1], base)
  }

  function MinimumRunning(trades: seq<Trade>, base: string, n: nat): real
    requires n <= |trades|
  {
    if n == 0 then 0.0 else Min(MinimumRunning(trades, base, n - 1), Running(trades, base, n))
  }

  function ResetTradeId(trades: seq<Trade>, base: string, n: nat): int
    requires n <= |trades|
  {
    if n == 0 then 0
    else if Running(trades, base, n) < MinimumRunning(trades, base, n - 1) then trades[n - 1].id
    else ResetTradeId(trades, base, n - 1)
  }

  function UnitCost(t: Trade, base: string): real {
    var net := InventoryQuantity(t, base);
    var cashFee := if t.commissionAsset == base then 0.0 else t.commissionQuote;
    if net == 0.0 then 0.0 else (t.price * t.gross + cashFee) / net
  }

  function AsMove(t: Trade, base: string): Move<Tag> {
    if t.isBuyer then Buy(Lot(InventoryQuantity(t, base), Tag(t.id, t.orderId, UnitCost(t, base), t.time, false)))
    else Sell(InventoryQuantity(t, base))
  }

  function Moves(trades: seq<Trade>, base: string): seq<Move<Tag>> {
    seq(|trades|, i requires 0 <= i < |trades| => AsMove(trades[i], base))
  }

  /** The id of the first BUY whose commission eats its whole quantity. */
  function BadBuy(trades: seq<Trade>, base: string, n: nat): Option<int>
    requires n <= |trades|
  {
    if n == 0 then None
    else if BadBuy(trades, base, n - 1).Some? then BadBuy(trades, base, n - 1)
    else if trades[n - 1].isBuyer && InventoryQuantity(trades[n - 1], base) <= 0.0 then Some(trades[n - 1].id)
    else None
  }

  function Survivors(trades: seq<Trade>, base: string): seq<Lot<Tag>> {
    var n, moves := |trades|, Moves(trades, base);
    Drain(Bought(moves, n), Sold(moves, n) + MinimumRunning(trades, base, n))
  }

  function Imported(lots: seq<Lot<Tag>>): seq<ImportedLot> {
    if lots == [] then []
    else
      var rest, last := Imported(lots[..|lots| - 1]), lots[|lots| - 1];
      if last.qty > 0.0 && !last.tag.unpriced
      then rest + [ImportedLot(last.tag.tradeId, last.tag.orderId, last.qty, last.tag.unitCost, last.tag.openedAt)]
      else rest
  }

  function Quantity(lots: seq<ImportedLot>): real {
    if lots == [] then 0.0 else Quantity(lots[..|lots| - 1]) + lots[|lots| - 1].quantity
  }

  function Cost(lots: seq<ImportedLot>): real {
    if lots == [] then 0.0 else Cost(lots[..|lots| - 1]) + lots[|lots| - 1].quantity * lots[|lots| - 1].unitCost
  }

  function LowestId(trades: seq<Trade>, n: nat): int
    requires 0 < n <= |trades|
  {
    if n == 1 || trades[n - 1].id < LowestId(trades, n - 1) then trades[n - 1].id else LowestId(trades, n - 1)
  }

  function HighestId(trades: seq<Trade>, n: nat): int
    requires 0 < n <= |trades|
  {
    if n == 1 || trades[n - 1].id > HighestId(trades, n - 1) then trades[n - 1].id else HighestId(trades, n - 1)
  }

  function PlanFromHistory(req: Request, trades: seq<Trade>): Result<Plan, BuildError>
    requires trades != []
  {
    var n := |trades|;
    var prehistory := -MinimumRunning(trades, req.base, n);
    var target := Running(trades, req.base, n) + prehistory;
    var dust := Max(0.0, req.account - target);
    if req.account - target < -req.tolerance then Err(AccountBelowHistory)
    else if dust > req.tolerance && (req.dustLimit <= 0.0 || dust >= req.dustLimit) then Err(NotQuarantinableDust)
    else if BadBuy(trades, req.base, n).Some? then Err(BuyNetNotPositive(BadBuy(trades, req.base, n).value))
    else if target <= 0.0 then Err(NothingRemains)
    else
      var lots := Imported(Survivors(trades, req.base));
      Ok(Plan(req.base, req.quote, req.account, target, req.tolerance, prehistory, dust, req.dustLimit,
              ResetTradeId(trades, req.base, n), Cost(lots) / target, LowestId(trades, n), HighestId(trades, n),
              trades, lots, req.createdAt))
  }

  /** What the builder answers, without its loops and without its run-time re-checks. */
  function PlanFor(req: Request): Result<Plan, BuildError> {
    if req.account < 0.0 || req.tolerance < 0.0 || req.dustLimit < 0.0 then Err(NegativeInput)
    else match NormalizedAll(req.rows, req.base, req.quote)
      case Err(e) => Err(e)
      case Ok(trades) =>
        if trades == [] then Err(EmptyHistory)
        else if !DistinctIds(Sorted(trades)) then Err(DuplicateTrade)
        else SortedPermutes(trades); PlanFromHistory(req, Sorted(trades))
  }

  // ---------- why the seed is exact ----------

  lemma {:induction false} MinimumIsLeast(trades: seq<Trade>, base: string, k: nat, n: nat)
    requires k <= n <= |trades|
    ensures MinimumRunning(trades, base, n) <= Running(trades, base, k)
    ensures MinimumRunning(trades, base, n) <= 0.0
    decreases n
  {
    if n > k {
      MinimumIsLeast(trades, base, k, n - 1);
    } else if n > 0 {
      MinimumIsLeast(trades, base, n - 1, n - 1);
    }
  }

  /** The minimum is attained at the reset trade, the first one to reach it. */
  lemma {:induction false} ResetAttainsMinimum(trades: seq<Trade>, base: string, n: nat) returns (k: nat)
    requires n <= |trades| && MinimumRunning(trades, base, n) < 0.0
    ensures 0 < k <= n && Running(trades, base, k) == MinimumRunning(trades, base, n)
    ensures trades[k - 1].id == ResetTradeId(trades, base, n)
    ensures forall j | 0 <= j < k :: Running(trades, base, j) > MinimumRunning(trades, base, n)
  {
    if n > 0 && Running(trades, base, n) < MinimumRunning(trades, base, n - 1) {
      k := n;
      forall j | 0 <= j < k ensures Running(trades, base, j) > MinimumRunning(trades, base, n) {
        MinimumIsLeast(trades, base, j, n - 1);
      }
    } else {
      k := ResetAttainsMinimum(trades, base, n - 1);
    }
  }

  lemma {:induction false} MovesMatchRunning(trades: seq<Trade>, base: string, n: nat)
    requires n <= |trades| && AllWellFormed(trades) && BadBuy(trades, base, n) == None
    ensures ValidMoves(Moves(trades, base), n) && Balance(Moves(trades, base), n) == Running(trades, base, n)
    ensures forall i | 0 <= i < |Bought(Moves(trades, base), n)| ::
              Bought(Moves(trades, base), n)[i].tag.unitCost > 0.0 && !Bought(Moves(trades, base), n)[i].tag.unpriced
              && Bought(Moves(trades, base), n)[i].tag.orderId != ""
  {
    if n > 0 {
      MovesMatchRunning(trades, base, n - 1);
      BalanceStep(Moves(trades, base), n - 1);
      var t := trades[n - 1];
      assert WellFormed(t);
      if t.isBuyer {
        UnitCostPositive(t, base);
      }
    }
  }

  lemma UnitCostPositive(t: Trade, base: string)
    requires WellFormed(t) && InventoryQuantity(t, base) > 0.0
    ensures UnitCost(t, base) > 0.0
  {
    assert t.price * t.gross > 0.0;
  }

  function Seed(prehistory: real, openedAt: int): seq<Lot<Tag>> {
    if prehistory > 0.0 then [Lot(prehistory, Tag(0, "prehistory-unpriced", 0.0, openedAt, true))] else []
  }

  ghost predicate Seeded(trades: seq<Trade>, base: string, seed: seq<Lot<Tag>>) {
    && Positive(seed) && Total(seed) == -MinimumRunning(trades, base, |trades|) && |seed| <= 1
    && forall i | 0 <= i < |seed| :: seed[i].tag.unpriced
  }

  lemma {:induction false} SeedIsSeeded(trades: seq<Trade>, base: string, openedAt: int)
    ensures Seeded(trades, base, Seed(-MinimumRunning(trades, base, |trades|), openedAt))
  {
    MinimumIsLeast(trades, base, |trades|, |trades|);
    var seed := Seed(-MinimumRunning(trades, base, |trades|), openedAt);
    if seed != [] {
      assert seed[1..] == [] && Total(seed) == seed[0].qty + Total(seed[1..]);
    }
  }

  /** After every trade the open lots hold exactly prehistory plus the running balance, so no SELL
      can exceed them, whatever follows. */
  lemma {:induction false} ReplayNeverShort(trades: seq<Trade>, base: string, seed: seq<Lot<Tag>>, n: nat)
    requires n <= |trades| && AllWellFormed(trades) && BadBuy(trades, base, n) == None && Seeded(trades, base, seed)
    ensures var moves := Moves(trades, base);
            && Replay(seed, moves, n).Some?
            && Total(Replay(seed, moves, n).value) == Total(seed) + Running(trades, base, n)
            && Positive(Replay(seed, moves, n).value)
  {
    var moves := Moves(trades, base);
    forall k | 0 <= k <= n ensures Total(seed) + Balance(moves, k) >= 0.0 {
      GoodPrefix(trades, base, k, n);
      MovesMatchRunning(trades, base, k);
      MinimumIsLeast(trades, base, k, |trades|);
    }
    MovesMatchRunning(trades, base, n);
    ReplayClosedForm(seed, moves, n);
  }

  lemma {:induction false} GoodPrefix(trades: seq<Trade>, base: string, k: nat, n: nat)
    requires k <= n <= |trades| && BadBuy(trades, base, n) == None
    ensures BadBuy(trades, base, k) == None
    decreases n
  {
    if k < n {
      GoodPrefix(trades, base, k, n - 1);
    }
  }

  lemma {:induction false} SoldGrows(moves: seq<Move<Tag>>, k: nat, n: nat)
    requires k <= n <= |moves| && ValidMoves(moves, n)
    ensures Sold(moves, k) <= Sold(moves, n)
    decreases n
  {
    if k < n {
      SoldGrows(moves, k, n - 1);
    }
  }

  /** The reset trade empties the book, the unpriced seed included: nothing acquired before it can
      reach the imported position. */
  lemma ResetEmptiesBook(trades: seq<Trade>, base: string, seed: seq<Lot<Tag>>) returns (k: nat)
    requires AllWellFormed(trades) && BadBuy(trades, base, |trades|) == None && Seeded(trades, base, seed) && seed != []
    ensures 0 < k <= |trades| && trades[k - 1].id == ResetTradeId(trades, base, |trades|)
    ensures Replay(seed, Moves(trades, base), k) == Some([])
  {
    TotalNonNegative(seed);
    k := ResetAttainsMinimum(trades, base, |trades|);
    GoodPrefix(trades, base, k, |trades|);
    ReplayNeverShort(trades, base, seed, k);
    TotalNonNegative(Replay(seed, Moves(trades, base), k).value);
  }

  /** More has been sold than the seed ever held. */
  lemma {:induction false} SalesCoverPrehistory(trades: seq<Trade>, base: string)
    requires AllWellFormed(trades) && BadBuy(trades, base, |trades|) == None
    ensures Sold(Moves(trades, base), |trades|) + MinimumRunning(trades, base, |trades|) >= 0.0
  {
    var n, moves := |trades|, Moves(trades, base);
    MovesMatchRunning(trades, base, n);
    BoughtPositive(moves, n);
    if MinimumRunning(trades, base, n) < 0.0 {
      var k := ResetAttainsMinimum(trades, base, n);
      GoodPrefix(trades, base, k, n);
      MovesMatchRunning(trades, base, k);
      BoughtPositive(moves, k);
      TotalNonNegative(Bought(moves, k));
      SoldGrows(moves, k, n);
    }
  }

  /** What survives the replay of the seeded history is the closed form over purchases alone. */
  lemma {:induction false} ReplayIsSurvivors(trades: seq<Trade>, base: string, seed: seq<Lot<Tag>>)
    requires AllWellFormed(trades) && BadBuy(trades, base, |trades|) == None && Seeded(trades, base, seed)
    ensures Replay(seed, Moves(trades, base), |trades|) == Some(Survivors(trades, base))
  {
    var n, moves := |trades|, Moves(trades, base);
    ReplayNeverShort(trades, base, seed, n);
    MovesMatchRunning(trades, base, n);
    ReplayClosedForm(seed, moves, n);
    SalesCoverPrehistory(trades, base);
    var bought := Bought(moves, n);
    if seed == [] {
      assert seed + bought == bought;
    } else {
      assert seed[1..] == [] && Total(seed) == seed[0].qty + Total(seed[1..]);
      assert (seed + bought)[1..] == bought;
    }
  }

  // ---------- from lots to the plan ----------

  predicate Priced(lots: seq<Lot<Tag>>) {
    forall i | 0 <= i < |lots| :: lots[i].tag.unitCost > 0.0 && !lots[i].tag.unpriced && lots[i].tag.orderId != ""
  }

  function UnpricedQuantity(lots: seq<Lot<Tag>>): real {
    if lots == [] then 0.0
    else UnpricedQuantity(lots[..|lots| - 1]) + if lots[|lots| - 1].tag.unpriced then lots[|lots| - 1].qty else 0.0
  }

  lemma {:induction false} PricedLotsImport(lots: seq<Lot<Tag>>)
    requires Positive(lots) && Priced(lots)
    ensures UnpricedQuantity(lots) == 0.0 && Quantity(Imported(lots)) == Total(lots) && |Imported(lots)| == |lots|
    ensures forall i | 0 <= i < |lots| ::
              Imported(lots)[i] == ImportedLot(lots[i].tag.tradeId, lots[i].tag.orderId, lots[i].qty,
                                               lots[i].tag.unitCost, lots[i].tag.openedAt)
  {
    if lots != [] {
      var rest, last := lots[..|lots| - 1], lots[|lots| - 1];
      PricedLotsImport(rest);
      TotalConcat(rest, [last]);
      assert lots == rest + [last];
      assert Total([last]) == last.qty + Total<Tag>([]);
    }
  }

  /** Quantity sold beyond the prehistory, that is, out of recorded purchases. */
  function SoldFromPurchases(trades: seq<Trade>, base: string): real {
    Sold(Moves(trades, base), |trades|) + MinimumRunning(trades, base, |trades|)
  }

  /** Survivors are the latest purchases: a suffix of them, each with its own cost and provenance,
      each whole except possibly the first. */
  lemma {:induction false} SurvivorIsLatePurchase(trades: seq<Trade>, base: string, j: nat)
    requires AllWellFormed(trades) && BadBuy(trades, base, |trades|) == None && j < |Survivors(trades, base)|
    ensures var bought, s := Bought(Moves(trades, base), |trades|), Survivors(trades, base);
            var i := |bought| - |s| + j;
            && 0 <= i && s[j].tag == bought[i].tag
            && s[j].qty == Residual(bought, i, SoldFromPurchases(trades, base))
            && (j > 0 ==> s[j].qty == bought[i].qty)
  {
    var bought, sold := Bought(Moves(trades, base), |trades|), SoldFromPurchases(trades, base);
    SalesCoverPrehistory(trades, base);
    MovesMatchRunning(trades, base, |trades|);
    BoughtPositive(Moves(trades, base), |trades|);
    DrainClosedForm(bought, sold);
    assert Accounted(bought, Spent(bought, sold) + j, sold, Drain(bought, sold), Spent(bought, sold));
  }

  lemma {:induction false} SurvivorsArePriced(trades: seq<Trade>, base: string)
    requires AllWellFormed(trades) && BadBuy(trades, base, |trades|) == None
    ensures Priced(Survivors(trades, base))
  {
    MovesMatchRunning(trades, base, |trades|);
    forall j | 0 <= j < |Survivors(trades, base)|
      ensures var t := Survivors(trades, base)[j].tag; t.unitCost > 0.0 && !t.unpriced && t.orderId != ""
    {
      SurvivorIsLatePurchase(trades, base, j);
    }
  }

  lemma {:induction false} SurvivorsAddUp(trades: seq<Trade>, base: string)
    requires AllWellFormed(trades) && BadBuy(trades, base, |trades|) == None
    ensures Positive(Survivors(trades, base))
    ensures Total(Survivors(trades, base)) == Running(trades, base, |trades|) - MinimumRunning(trades, base, |trades|)
  {
    var seed := Seed(-MinimumRunning(trades, base, |trades|), 0);
    SeedIsSeeded(trades, base, 0);
    ReplayNeverShort(trades, base, seed, |trades|);
    ReplayIsSurvivors(trades, base, seed);
  }

  lemma {:induction false} SurvivorsImport(trades: seq<Trade>, base: string)
    requires AllWellFormed(trades) && BadBuy(trades, base, |trades|) == None
    ensures var open := Survivors(trades, base);
            && UnpricedQuantity(open) == 0.0
            && Quantity(Imported(open)) == Running(trades, base, |trades|) - MinimumRunning(trades, base, |trades|)
            && (Imported(open) == [] ==> Quantity(Imported(open)) == 0.0)
  {
    SurvivorsArePriced(trades, base);
    SurvivorsAddUp(trades, base);
    PricedLotsImport(Survivors(trades, base));
  }

  /** The importer as it runs. The three re-checks that guard against a SELL without inventory, a
      surviving unpriced seed and a late quantity mismatch are written as in the importer; the
      postcondition shows that none of them ever fires, because `PlanFor` has no such answer. */
  method BuildCostBasisPlan(req: Request) returns (r: Result<Plan, BuildError>)
    ensures r == PlanFor(req)
  {
    if req.account < 0.0 || req.tolerance < 0.0 || req.dustLimit < 0.0 {
      return Err(NegativeInput);
    }
    var normalized := NormalizedAll(req.rows, req.base, req.quote);
    if normalized.Err? {
      return Err(normalized.error);
    }
    var trades := Sorted(normalized.value);
    SortedPermutes(normalized.value);
    if trades == [] {
      return Err(EmptyHistory);
    }
    if !DistinctIds(trades) {
      return Err(DuplicateTrade);
    }
    SortedWellFormed(req);
    r := PlanTrades(req, trades);
  }

  lemma SortedWellFormed(req: Request)
    requires NormalizedAll(req.rows, req.base, req.quote).Ok?
    ensures AllWellFormed(Sorted(NormalizedAll(req.rows, req.base, req.quote).value))
  {
    var normalized := NormalizedAll(req.rows, req.base, req.quote).value;
    NormalizedAllWellFormed(req.rows, req.base, req.quote);
    SortedPermutes(normalized);
    forall i | 0 <= i < |Sorted(normalized)| ensures WellFormed(Sorted(normalized)[i]) {
      assert Sorted(normalized)[i] in multiset(normalized);
    }
  }

  method PlanTrades(req: Request, trades: seq<Trade>) returns (r: Result<Plan, BuildError>)
    requires trades != [] && AllWellFormed(trades)
    requires req.account >= 0.0 && req.tolerance >= 0.0 && req.dustLimit >= 0.0
    ensures r == PlanFromHistory(req, trades)
  {
    var running, minimum, reset := FirstPass(trades, req.base);
    var prehistory := Max(0.0, -minimum);
    MinimumIsLeast(trades, req.base, |trades|, |trades|);
    var dust := req.account - (running + prehistory);
    if dust < -req.tolerance {
      return Err(AccountBelowHistory);
    }
    if dust < 0.0 {
      dust := 0.0;
    }
    if dust > req.tolerance && (req.dustLimit <= 0.0 || dust >= req.dustLimit) {
      return Err(NotQuarantinableDust);
    }
    var replayed := SecondPass(trades, req.base, prehistory);
    if replayed.Err? {
      return Err(replayed.error);
    }
    SurvivorsImport(trades, req.base);
    var lots := Imported(replayed.value);
    var reconstructed := Quantity(lots);
    var delta := req.account - reconstructed;
    r := if UnpricedQuantity(replayed.value) > 0.0 then Err(PrehistorySurvives)
         else if reconstructed <= 0.0 || lots == [] then Err(NothingRemains)
         else if delta > req.tolerance + dust || -delta > req.tolerance + dust then Err(QuantityMismatch)
         else Ok(Plan(req.base, req.quote, req.account, reconstructed, req.tolerance, prehistory, dust, req.dustLimit,
                      reset, Cost(lots) / reconstructed, LowestId(trades, |trades|), HighestId(trades, |trades|),
                      trades, lots, req.createdAt));
  }

  method FirstPass(trades: seq<Trade>, base: string) returns (running: real, minimum: real, reset: int)
    ensures running == Running(trades, base, |trades|) && minimum == MinimumRunning(trades, base, |trades|)
    ensures reset == ResetTradeId(trades, base, |trades|)
  {
    running, minimum, reset := 0.0, 0.0, 0;
    for i := 0 to |trades|
      invariant running == Running(trades, base, i) && minimum == MinimumRunning(trades, base, i)
      invariant reset == ResetTradeId(trades, base, i)
    {
      var quantity := InventoryQuantity(trades[i], base);
      running := running + if trades[i].isBuyer then quantity else -quantity;
      if running < minimum {
        minimum, reset := running, trades[i].id;
      }
    }
  }

  method SecondPass(trades: seq<Trade>, base: string, prehistory: real)
      returns (r: Result<seq<Lot<Tag>>, BuildError>)
    requires trades != [] && AllWellFormed(trades) && prehistory == -MinimumRunning(trades, base, |trades|)
    ensures r == match BadBuy(trades, base, |trades|)
                 case Some(id) => Err(BuyNetNotPositive(id))
                 case None => Ok(Survivors(trades, base))
  {
    ghost var seed, moves := Seed(prehistory, trades[0].time - 1), Moves(trades, base);
    SeedIsSeeded(trades, base, trades[0].time - 1);
    var open := Seed(prehistory, trades[0].time - 1);
    for i := 0 to |trades|
      invariant BadBuy(trades, base, i) == None && Replay(seed, moves, i) == Some(open)
    {
      var t := trades[i];
      if t.isBuyer {
        var net := InventoryQuantity(t, base);
        if net <= 0.0 {
          FirstBadBuy(trades, base, i, |trades|);
          return Err(BuyNetNotPositive(t.id));
        }
        open := open + [Lot(net, Tag(t.id, t.orderId, UnitCost(t, base), t.time, false))];
      } else {
        ReplayNeverShort(trades, base, seed, i);
        ReplayNeverShort(trades, base, seed, i + 1);
        var remaining;
        open, remaining := SellOldest(open, InventoryQuantity(t, base));
        if remaining > 0.0 {
          assert false;
          return Err(SellExceedsHistory(t.id));
        }
      }
    }
    ReplayIsSurvivors(trades, base, seed);
    return Ok(open);
  }

  /** The inner loop: one SELL against the open lots, oldest first. */
  method SellOldest(lots: seq<Lot<Tag>>, quantity: real) returns (open: seq<Lot<Tag>>, remaining: real)
    requires Positive(lots) && quantity > 0.0
    ensures open == Drain(lots, quantity) && remaining == Max(0.0, quantity - Total(lots))
  {
    open, remaining := lots, quantity;
    TotalNonNegative(lots);
    while remaining > 0.0 && open != []
      invariant remaining >= 0.0 && Positive(open) && Drain(open, remaining) == Drain(lots, quantity)
      invariant remaining > 0.0 ==> Total(open) - remaining == Total(lots) - quantity
      invariant remaining == 0.0 ==> quantity <= Total(lots)
      decreases |open|, remaining > 0.0
    {
      var used := Min(open[0].qty, remaining);
      TotalNonNegative(open[1..]);
      if open[0].qty - used == 0.0 {
        open := open[1..];
      } else {
        open := [open[0].(qty := open[0].qty - used)] + open[1..];
      }
      remaining := remaining - used;
    }
  }

  lemma {:induction false} FirstBadBuy(trades: seq<Trade>, base: string, i: nat, n: nat)
    requires i < n <= |trades| && BadBuy(trades, base, i) == None
    requires trades[i].isBuyer && InventoryQuantity(trades[i], base) <= 0.0
    ensures BadBuy(trades, base, n) == Some(trades[i].id)
    decreases n
  {
    if n > i + 1 {
      FirstBadBuy(trades, base, i, n - 1);
    }
  }

  // Trade, order, unit cost and opening time are those of the purchase.
  predicate HasProvenance(lot: ImportedLot, tag: Tag) {
    && lot.tradeId == tag.tradeId && lot.orderId == tag.orderId
    && lot.unitCost == tag.unitCost && lot.openedAt == tag.openedAt
  }

  lemma {:induction false} SurvivorImported(trades: seq<Trade>, base: string, j: nat)
    requires AllWellFormed(trades) && BadBuy(trades, base, |trades|) == None
    ensures var s := Survivors(trades, base);
            && |Imported(s)| == |s|
            && (j < |s| ==> HasProvenance(Imported(s)[j], s[j].tag) && Imported(s)[j].quantity == s[j].qty)
  {
    SurvivorsArePriced(trades, base);
    SurvivorsAddUp(trades, base);
    PricedLotsImport(Survivors(trades, base));
  }

  lemma {:induction false} ImportedIsLatePurchase(trades: seq<Trade>, base: string, j: nat)
    requires AllWellFormed(trades) && BadBuy(trades, base, |trades|) == None && j < |Imported(Survivors(trades, base))|
    ensures var bought, lots := Bought(Moves(trades, base), |trades|), Imported(Survivors(trades, base));
            var i := |bought| - |lots| + j;
            && 0 <= i && HasProvenance(lots[j], bought[i].tag)
            && lots[j].quantity == Residual(bought, i, SoldFromPurchases(trades, base))
            && (j > 0 ==> lots[j].quantity == bought[i].qty)
  {
    SurvivorImported(trades, base, j);
    SurvivorIsLatePurchase(trades, base, j);
  }

  // ---------- what an accepted plan promises ----------

  predicate SoundLot(lot: ImportedLot) {
    lot.quantity > 0.0 && lot.unitCost > 0.0 && lot.orderId != ""
  }

  // A plan whose fields are the closed forms of its own history.
  ghost predicate Derived(p: Plan) {
    && p.history != [] && AllWellFormed(p.history) && BadBuy(p.history, p.base, |p.history|) == None
    && p.lots == Imported(Survivors(p.history, p.base))
    && p.prehistory == -MinimumRunning(p.history, p.base, |p.history|)
    && p.reconstructed == Running(p.history, p.base, |p.history|) + p.prehistory > 0.0
    && p.weightedAverage == Cost(p.lots) / p.reconstructed
    && p.dust == Max(0.0, p.account - p.reconstructed) && -p.tolerance <= p.account - p.reconstructed
    && (p.dust > p.tolerance ==> p.dust < p.dustLimit) && p.account >= 0.0 && p.tolerance >= 0.0
  }

  lemma HistoryPlanIsDerived(req: Request, trades: seq<Trade>)
    requires trades != [] && PlanFromHistory(req, trades).Ok? && AllWellFormed(trades)
    requires req.account >= 0.0 && req.tolerance >= 0.0
    ensures Derived(PlanFromHistory(req, trades).value)
  {
  }

  lemma PlanIsDerived(req: Request)
    requires PlanFor(req).Ok?
    ensures Derived(PlanFor(req).value)
  {
    SortedWellFormed(req);
    SortedPermutes(NormalizedAll(req.rows, req.base, req.quote).value);
    HistoryPlanIsDerived(req, Sorted(NormalizedAll(req.rows, req.base, req.quote).value));
  }

  /** Every accepted plan explains the account: within tolerance and quarantined dust, by positive
      lots with a positive cost and a known order, whose average is the recorded one. */
  ghost predicate Reconciled(p: Plan) {
    && p.reconstructed == Quantity(p.lots) > 0.0
    && -(p.tolerance + p.dust) <= p.account - p.reconstructed <= p.tolerance + p.dust
    && p.account >= 0.0 && p.tolerance >= 0.0 && p.dust >= 0.0 && p.prehistory >= 0.0
    && (p.dust > p.tolerance ==> p.dust < p.dustLimit)
    && p.weightedAverage == Cost(p.lots) / Quantity(p.lots)
    && forall i | 0 <= i < |p.lots| :: SoundLot(p.lots[i])
  }

  lemma DerivedReconciles(p: Plan)
    requires Derived(p)
    ensures Reconciled(p)
  {
    SurvivorsImport(p.history, p.base);
    LotsAreSound(p.history, p.base);
    MinimumIsLeast(p.history, p.base, |p.history|, |p.history|);
  }

  lemma {:induction false} LotsAreSound(trades: seq<Trade>, base: string)
    requires AllWellFormed(trades) && BadBuy(trades, base, |trades|) == None
    ensures forall i | 0 <= i < |Imported(Survivors(trades, base))| :: SoundLot(Imported(Survivors(trades, base))[i])
  {
    SurvivorsArePriced(trades, base);
    SurvivorsAddUp(trades, base);
    PricedLotsImport(Survivors(trades, base));
  }

  lemma PlanReconciles(req: Request)
    requires PlanFor(req).Ok?
    ensures Reconciled(PlanFor(req).value)
  {
    PlanIsDerived(req);
    DerivedReconciles(PlanFor(req).value);
  }

  /** Lot j is one of the latest purchases of the history, with that purchase's own cost, time and ids, and the
      quantity the closed form leaves of it once the prehistory has been sold first. */
  ghost predicate IsLatePurchase(p: Plan, j: nat)
    requires j < |p.lots|
  {
    var moves := Moves(p.history, p.base);
    var bought := Bought(moves, |p.history|);
    var i := |bought| - |p.lots| + j;
    && 0 <= i && HasProvenance(p.lots[j], bought[i].tag)
    && p.lots[j].quantity == Residual(bought, i, Sold(moves, |p.history|) - p.prehistory)
    && (j > 0 ==> p.lots[j].quantity == bought[i].qty)
  }

  lemma DerivedLotIsLatePurchase(p: Plan, j: nat)
    requires Derived(p) && j < |p.lots|
    ensures IsLatePurchase(p, j)
  {
    ImportedIsLatePurchase(p.history, p.base, j);
    assert Sold(Moves(p.history, p.base), |p.history|) - p.prehistory == SoldFromPurchases(p.history, p.base);
  }

  lemma PlanLotsAreLatestPurchases(req: Request, j: nat)
    requires PlanFor(req).Ok? && j < |PlanFor(req).value.lots|
    ensures IsLatePurchase(PlanFor(req).value, j)
  {
    PlanIsDerived(req);
    DerivedLotIsLatePurchase(PlanFor(req).value, j);
  }

  lemma {:induction false} LowestIdIsNatural(trades: seq<Trade>, n: nat)
    requires 0 < n <= |trades| && AllWellFormed(trades)
    ensures LowestId(trades, n) >= 0
  {
    assert WellFormed(trades[n - 1]);
    if n > 1 {
      LowestIdIsNatural(trades, n - 1);
    }
  }

  lemma PlanStartsAtNaturalId(req: Request)
    requires PlanFor(req).Ok?
    ensures PlanFor(req).value.firstTradeId >= 0
  {
    SortedWellFormed(req);
    SortedPermutes(NormalizedAll(req.rows, req.base, req.quote).value);
    var trades := Sorted(NormalizedAll(req.rows, req.base, req.quote).value);
    LowestIdIsNatural(trades, |trades|);
  }

  /** The importer refuses for business reasons only; its three internal alarms are unreachable. */
  lemma AlarmsAreUnreachable(req: Request)
    ensures PlanFor(req).Err? ==>
              && !PlanFor(req).error.SellExceedsHistory?
              && PlanFor(req).error != PrehistorySurvives
              && PlanFor(req).error != QuantityMismatch
  {
    if PlanFor(req).Err? && NormalizedAll(req.rows, req.base, req.quote).Err? {
      RefusalIsAboutOneRow(req.rows, req.base, req.quote);
    }
  }

  lemma {:induction false} RefusalIsAboutOneRow(rows: seq<RawTrade>, base: string, quote: string)
    requires NormalizedAll(rows, base, quote).Err?
    ensures exists row :: row in rows && Normalized(row, base, quote) == Err(NormalizedAll(rows, base, quote).error)
  {
    var init := rows[..|rows| - 1];
    if NormalizedAll(init, base, quote).Err? {
      RefusalIsAboutOneRow(init, base, quote);
      var row :| row in init && Normalized(row, base, quote) == Err(NormalizedAll(init, base, quote).error);
      assert row in rows;
    } else {
      assert rows[|rows| - 1] in rows;
    }
  }
}
