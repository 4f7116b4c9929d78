/** The daily digest: one pass over an interleaved ledger of all symbols replays every symbol's FIFO
    queue and charges matched costs to the reporting windows; a symbol whose history is unusable is
    excluded. `Step` is the per-symbol specification; `Summarise` is the loop over the whole ledger. */
module DigestFifo {
  import opened Results
  import opened FifoLots
  import opened TradeAccounting

  /** A ledger row: its fill, its time, whether its quote asset is reportable, and whether its
      commission value is of legacy provenance. */
  datatype Row = Row(fill: Fill, time: int, reportable: bool, legacy: bool)

  /** A half-open reporting window. */
  datatype Period = Period(start: int, end: int)

  datatype CostLot = CostLot(qty: real, cost: real, acquired: int, legacy: bool)

  datatype Item = Item(
    realized: real, cash: real, fees: real, fills: nat, buys: nat, sells: nat,
    fifoCost: real, priorCost: real, legacy: bool)

  const NOTHING := Item(0.0, 0.0, 0.0, 0, 0, 0, 0.0, 0.0, false)

  datatype Exclusion = UnusableTrade | OtherQuoteAsset | IncompleteHistory

  datatype SymbolState = SymbolState(lots: seq<CostLot>, items: seq<Item>, excluded: Option<Exclusion>)

  predicate Within(p: Period, time: int) {
    p.start <= time < p.end
  }

  predicate Usable(row: Row) {
    Executable(row.fill) && ValuedCommission(row.fill).Some?
  }

  // ---------- matching one sale ----------

  /** A part of a lot taken by a sale. */
  datatype Take = Take(qty: real, cost: real, acquired: int, legacy: bool)

  function Share(lot: CostLot, take: real): real {
    if lot.qty == 0.0 then 0.0 else lot.cost * take / lot.qty
  }

  function TakeFrom(lot: CostLot, remaining: real): Take {
    var take := Min(remaining, lot.qty);
    Take(take, Share(lot, take), lot.acquired, lot.legacy)
  }

  function Takes(lots: seq<CostLot>, remaining: real): seq<Take> {
    if lots == [] || remaining <= 0.0 then []
    else [TakeFrom(lots[0], remaining)] + Takes(lots[1..], remaining - TakeFrom(lots[0], remaining).qty)
  }

  function Left(lots: seq<CostLot>, remaining: real): seq<CostLot> {
    if lots == [] || remaining <= 0.0 then lots
    else
      var t := TakeFrom(lots[0], remaining);
      if lots[0].qty - t.qty <= 0.0 then Left(lots[1..], remaining - t.qty)
      else [lots[0].(qty := lots[0].qty - t.qty, cost := lots[0].cost - t.cost)] + lots[1..]
  }

  function Unmatched(lots: seq<CostLot>, remaining: real): real {
    if lots == [] || remaining <= 0.0 then remaining
    else
      var t := TakeFrom(lots[0], remaining);
      if lots[0].qty - t.qty <= 0.0 then Unmatched(lots[1..], remaining - t.qty) else remaining - t.qty
  }

  function TakenQuantity(takes: seq<Take>): real {
    if takes == [] then 0.0 else takes[0].qty + TakenQuantity(takes[1..])
  }

  function TakenCost(takes: seq<Take>): real {
    if takes == [] then 0.0 else takes[0].cost + TakenCost(takes[1..])
  }

  // The part of the matched cost that was acquired before the window began.
  function TakenBefore(takes: seq<Take>, start: int): real {
    if takes == [] then 0.0
    else (if takes[0].acquired < start then takes[0].cost else 0.0) + TakenBefore(takes[1..], start)
  }

  predicate AnyLegacy(takes: seq<Take>) {
    exists i | 0 <= i < |takes| :: takes[i].legacy
  }

  // ---------- one row of one symbol ----------

  function Counted(item: Item, row: Row): Item {
    var counted := item.(fills := item.fills + 1, fees := item.fees + ValuedCommission(row.fill).GetOr(0.0),
                         legacy := item.legacy || row.legacy);
    if row.fill.isBuy then counted.(buys := item.buys + 1, cash := item.cash - BuyCost(row.fill))
    else counted.(sells := item.sells + 1, cash := item.cash + SellProceeds(row.fill))
  }

  function Charged(item: Item, takes: seq<Take>, start: int): Item {
    item.(fifoCost := item.fifoCost + TakenCost(takes), priorCost := item.priorCost + TakenBefore(takes, start),
          legacy := item.legacy || AnyLegacy(takes))
  }

  /** Proceeds of the matched part of a sale of `net`, less its cost. */
  function Gain(proceeds: real, net: real, takes: seq<Take>): real {
    (if net == 0.0 then 0.0 else proceeds * TakenQuantity(takes) / net) - TakenCost(takes)
  }

  /** What a row inside a window does to its figures, given the sale's takes and whether it was fully
      matched; only the window's start matters. */
  function ReportedInside(item: Item, start: int, row: Row, takes: seq<Take>, complete: bool): Item {
    if row.fill.isBuy then Counted(item, row)
    else
      var charged := Charged(Counted(item, row), takes, start);
      if complete then charged.(realized := charged.realized
                                + Gain(SellProceeds(row.fill), NetQuantity(row.fill), takes))
      else charged
  }

  function Reported(item: Item, p: Period, row: Row, takes: seq<Take>, complete: bool): Item {
    if Within(p, row.time) then ReportedInside(item, p.start, row, takes, complete) else item
  }

  function ReportAll(items: seq<Item>, periods: seq<Period>, row: Row, takes: seq<Take>, complete: bool): (r: seq<Item>)
    requires |items| == |periods|
    ensures |r| == |items|
  {
    seq(|items|, i requires 0 <= i < |items|
        && |items| == |periods| => Reported(items[i], periods[i], row, takes, complete))
  }

  function Step(s: SymbolState, periods: seq<Period>, row: Row): (r: SymbolState)
    requires |s.items| == |periods|
    ensures |r.items| == |periods|
  {
    if s.excluded.Some? then s
    else if !Usable(row) then s.(excluded := Some(UnusableTrade))
    else if !row.reportable then s.(excluded := Some(OtherQuoteAsset))
    else if row.fill.isBuy then
      s.(items := ReportAll(s.items, periods, row, [], true),
         lots := s.lots + [CostLot(NetQuantity(row.fill), BuyCost(row.fill), row.time, row.legacy)])
    else
      var net := NetQuantity(row.fill);
      var takes, short := Takes(s.lots, net), Unmatched(s.lots, net) > 0.0;
      SymbolState(Left(s.lots, net), ReportAll(s.items, periods, row, takes, !short),
                  if short then Some(IncompleteHistory) else None)
  }

  function Initial(periods: seq<Period>): (r: SymbolState)
    ensures |r.items| == |periods|
  {
    SymbolState([], seq(|periods|, i => NOTHING), None)
  }

  predicate Concerns(row: Row, symbol: string) {
    row.fill.symbol == symbol && symbol != ""
  }

  /** The state of one symbol after the first n rows of a ledger; other symbols' rows, and rows without
      a symbol, do not touch it. */
  function Replayed(rows: seq<Row>, periods: seq<Period>, symbol: string, n: nat): (r: SymbolState)
    requires n <= |rows|
    ensures |r.items| == |periods|
  {
    if n == 0 then Initial(periods)
    else if !Concerns(rows[n - 1], symbol) then Replayed(rows, periods, symbol, n - 1)
    else Step(Replayed(rows, periods, symbol, n - 1), periods, rows[n - 1])
  }

  // ---------- symbol independence ----------

  function RowsOf(rows: seq<Row>, symbol: string): seq<Row> {
    if rows == [] then []
    else if Concerns(rows[|rows| - 1], symbol) then RowsOf(rows[..|rows| - 1], symbol) + [rows[|rows| - 1]]
    else RowsOf(rows[..|rows| - 1], symbol)
  }

  lemma {:induction false} ReplayedPrefix(rows: seq<Row>, more: seq<Row>, periods: seq<Period>, symbol: string, n: nat)
    requires n <= |rows|
    ensures Replayed(rows + more, periods, symbol, n) == Replayed(rows, periods, symbol, n)
  {
    if n > 0 {
      ReplayedPrefix(rows, more, periods, symbol, n - 1);
    }
  }

  /** A symbol's lots, window figures and exclusion are those of its own rows alone, whatever other
      symbols are interleaved with them. */
  lemma {:induction false} SymbolsAreIndependent(rows: seq<Row>, periods: seq<Period>, symbol: string)
    ensures Replayed(rows, periods, symbol, |rows|)
            == Replayed(RowsOf(rows, symbol), periods, symbol, |RowsOf(rows, symbol)|)
  {
    if rows != [] {
      var rest, last := rows[..|rows| - 1], rows[|rows| - 1];
      SymbolsAreIndependent(rest, periods, symbol);
      assert rows == rest + [last];
      ReplayedPrefix(rest, [last], periods, symbol, |rest|);
      if Concerns(last, symbol) {
        ReplayedPrefix(RowsOf(rest, symbol), [last], periods, symbol, |RowsOf(rest, symbol)|);
      }
    }
  }

  // ---------- the loop over the ledger ----------

  function ItemAt(values: map<string, Item>, symbol: string): Item {
    if symbol in values then values[symbol] else NOTHING
  }

  function ItemsOf(values: seq<map<string, Item>>, symbol: string): (r: seq<Item>)
    ensures |r| == |values|
  {
    seq(|values|, i requires 0 <= i < |values| => ItemAt(values[i], symbol))
  }

  class Digest {
    const periods: seq<Period>
    var lots: map<string, seq<CostLot>>
    var values: seq<map<string, Item>>
    var excluded: map<string, Exclusion>

    constructor (windows: seq<Period>)
      ensures periods == windows && |values| == |windows|
      ensures forall symbol :: StateOf(symbol) == Initial(windows)
    {
      periods, lots, excluded := windows, map[], map[];
      values := seq(|windows|, i => map[]);
      new;
      forall symbol ensures StateOf(symbol) == Initial(windows) {
        assert StateOf(symbol).items == Initial(windows).items;
      }
    }

    /** The figures kept for one symbol; a window without an entry has none. */
    ghost function StateOf(symbol: string): (s: SymbolState)
      reads this
      ensures |s.items| == |values|
    {
      SymbolState(if symbol in lots then lots[symbol] else [],
                  ItemsOf(values, symbol),
                  if symbol in excluded then Some(excluded[symbol]) else None)
    }

    /** Every symbol ends in the state of its own replay. */
    method Summarise(rows: seq<Row>)
      requires |values| == |periods| && forall symbol :: StateOf(symbol) == Initial(periods)
      modifies this
      ensures |values| == |periods|
      ensures forall symbol :: StateOf(symbol) == Replayed(rows, periods, symbol, |rows|)
    {
      for n := 0 to |rows|
        invariant |values| == |periods|
        invariant forall symbol :: StateOf(symbol) == Replayed(rows, periods, symbol, n)
      {
        if rows[n].fill.symbol != "" && rows[n].fill.symbol !in excluded {
          Record(rows[n]);
        }
      }
    }

    method Record(row: Row)
      requires |values| == |periods| && row.fill.symbol !in excluded
      modifies this
      ensures |values| == |periods|
      ensures StateOf(row.fill.symbol) == Step(old(StateOf(row.fill.symbol)), periods, row)
      ensures forall other | other != row.fill.symbol :: StateOf(other) == old(StateOf(other))
    {
      var symbol := row.fill.symbol;
      ghost var before := StateOf(symbol);
      if !Usable(row) {
        excluded := excluded[symbol := UnusableTrade];
        return;
      }
      if !row.reportable {
        excluded := excluded[symbol := OtherQuoteAsset];
        return;
      }
      var queue := if symbol in lots then lots[symbol] else [];
      if row.fill.isBuy {
        lots := lots[symbol := queue + [CostLot(NetQuantity(row.fill), BuyCost(row.fill), row.time, row.legacy)]];
        ReportRow(row, [], true);
        return;
      }
      var takes, remaining;
      takes, queue, remaining := MatchSale(queue, NetQuantity(row.fill));
      lots := lots[symbol := queue];
      ReportRow(row, takes, remaining <= 0.0);
      label reported:
      if remaining > 0.0 {
        excluded := excluded[symbol := IncompleteHistory];
      }
      assert forall other | other != symbol :: StateOf(other) == old@reported(StateOf(other));
    }

    method ReportRow(row: Row, takes: seq<Take>, complete: bool)
      requires |values| == |periods|
      modifies this`values
      ensures |values| == |periods|
      ensures StateOf(row.fill.symbol)
              == old(StateOf(row.fill.symbol)).(items :=
                                                ReportAll(old(StateOf(row.fill.symbol)).items, periods, row, takes,
                                                          complete))
      ensures forall other | other != row.fill.symbol :: StateOf(other) == old(StateOf(other))
    {
      var symbol := row.fill.symbol;
      ghost var before := values;
      for i := 0 to |periods|
        invariant |values| == |before|
        invariant forall j | i <= j < |values| :: values[j] == before[j]
        invariant forall j | 0 <= j < i ::
                    ItemAt(values[j], symbol) == Reported(ItemAt(before[j], symbol), periods[j], row, takes, complete)
        invariant forall j, other | 0 <= j < |values| && other != symbol ::
                  ItemAt(values[j], other) == ItemAt(before[j], other)
      {
        if Within(periods[i], row.time) {
          values := values[i :=
                           values[i][symbol := Reported(ItemAt(values[i], symbol), periods[i], row, takes, complete)]];
        }
      }
      assert ItemsOf(values, symbol) == ReportAll(ItemsOf(before, symbol), periods, row, takes, complete);
      forall other | other != symbol ensures StateOf(other) == old(StateOf(other)) {
        assert ItemsOf(values, other) == ItemsOf(before, other);
      }
    }

    /** The inner loop: one sale against the front of the queue. */
    method MatchSale(lots: seq<CostLot>, net: real) returns (takes: seq<Take>, queue: seq<CostLot>, remaining: real)
      ensures takes == Takes(lots, net) && queue == Left(lots, net) && remaining == Unmatched(lots, net)
    {
      takes, queue, remaining := [], lots, net;
      while remaining > 0.0 && queue != []
        invariant takes + Takes(queue, remaining) == Takes(lots, net)
        invariant Left(queue, remaining) == Left(lots, net) && Unmatched(queue, remaining) == Unmatched(lots, net)
        decreases |queue|, remaining > 0.0
      {
        var t := TakeFrom(queue[0], remaining);
        takes := takes + [t];
        remaining := remaining - t.qty;
        if queue[0].qty - t.qty <= 0.0 {
          queue := queue[1..];
        } else {
          queue := [queue[0].(qty := queue[0].qty - t.qty, cost := queue[0].cost - t.cost)] + queue[1..];
        }
      }
    }
  }
}
