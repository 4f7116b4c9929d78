/** The trade poller: fetch everything after the stored cursor, apply and deliver a contiguous prefix,
    and move the cursor over that prefix only. Every fault may strike any trade of any poll. */
module TradeCursor {
  import opened Results
  import opened TradeAccounting
  import opened InventoryLots
  import opened InventoryHistory

  datatype ExchangeTrade = ExchangeTrade(id: int, fill: Fill)

  /** What goes wrong with one trade before its delivery is complete. */
  datatype Fault = NoFault | BadRow | StatsLocked | StatsError | UnpricedFee | CallbackFails

  datatype Reply = RequestFails | NotAList | Trades(trades: seq<ExchangeTrade>)

  datatype PollError =
    | CursorReadFailed | RequestFailed | InvalidCollection | InvalidSequence | TradeFailed | CursorWriteFailed

  /** Stored cursor, trades in the statistics table, deliveries in order, and the sink's book. */
  datatype Poller = Poller(cursor: Option<int>, applied: set<int>, delivered: seq<int>, book: Book)

  /** The outside of one poll: does reading and writing the cursor work, what does the exchange
      answer, which fault strikes which trade, is the poll strict, and what time is it. */
  datatype Weather = Weather(
    readable: bool, reply: Reply, faults: nat -> Fault, writable: bool, strict: bool, clock: int)

  predicate AscendingIds(trades: seq<ExchangeTrade>) {
    (forall i | 0 <= i < |trades| :: trades[i].id >= 0)
    && forall i, j | 0 <= i < j < |trades| :: trades[i].id < trades[j].id
  }

  // ---------- specification of one poll ----------

  function Delivered(p: Poller, t: ExchangeTrade, book: Book): Poller {
    p.(applied := p.applied + {t.id}, delivered := p.delivered + [t.id], book := book)
  }

  /** Processing from trade i on; the second component is the number of trades fully delivered. */
  function Processed(p: Poller, trades: seq<ExchangeTrade>, w: Weather, i: nat): (Poller, nat)
    requires i <= |trades|
    decreases |trades| - i
  {
    if i == |trades| then (p, i)
    else
      var t := trades[i];
      match w.faults(i)
      case BadRow => (p, i)
      case StatsLocked => (p, i)
      case StatsError => (p, i)
      case UnpricedFee => (p.(applied := p.applied + {t.id}), i)
      case CallbackFails => (p.(applied := p.applied + {t.id}), i)
      case NoFault =>
        match Synced(p.book, t.fill, w.clock)
        case Err(_) => (p.(applied := p.applied + {t.id}), i)
        case Ok(book) => Processed(Delivered(p, t, book), trades, w, i + 1)
  }

  function NewCursor(last: int, trades: seq<ExchangeTrade>, done: nat): int
    requires done <= |trades|
  {
    if done == 0 then last
    else if trades[done - 1].id > last then trades[done - 1].id else last
  }

  function StoreCursor(p: Poller, last: int, trades: seq<ExchangeTrade>, done: nat,
                       w: Weather): (Poller, Option<PollError>)
    requires done <= |trades|
  {
    var target := NewCursor(last, trades, done);
    if done < |trades| && w.strict then (p, Some(TradeFailed))
    else if target == last then (p, None)
    else if w.writable then (p.(cursor := Some(target)), None)
    else (p, if w.strict then Some(CursorWriteFailed) else None)
  }

  function Polled(p: Poller, w: Weather): (Poller, Option<PollError>) {
    if !w.readable && w.strict then (p, Some(CursorReadFailed))
    else
      var last := if w.readable then p.cursor.GetOr(-1) else -1;
      match w.reply
      case RequestFails => (p, if w.strict then Some(RequestFailed) else None)
      case NotAList => (p, if w.strict then Some(InvalidCollection) else None)
      case Trades(trades) =>
        if !AscendingIds(trades) then (p, if w.strict then Some(InvalidSequence) else None)
        else
          var (after, done) := Processed(p, trades, w, 0);
          ProcessedBound(p, trades, w, 0);
          StoreCursor(after, last, trades, done, w)
  }

  lemma {:induction false} ProcessedBound(p: Poller, trades: seq<ExchangeTrade>, w: Weather, i: nat)
    requires i <= |trades|
    ensures i <= Processed(p, trades, w, i).1 <= |trades|
    ensures Processed(p, trades, w, i).0.cursor == p.cursor
    decreases |trades| - i
  {
    if i < |trades| && w.faults(i) == NoFault && Synced(p.book, trades[i].fill, w.clock).Ok? {
      ProcessedBound(Delivered(p, trades[i], Synced(p.book, trades[i].fill, w.clock).value), trades, w, i + 1);
    }
  }

  // ---------- the poller itself ----------

  class TradePoller {
    var cursor: Option<int>
    var applied: set<int>
    var delivered: seq<int>

    constructor (start: Option<int>)
      ensures cursor == start && applied == {} && delivered == []
    {
      cursor, applied, delivered := start, {}, [];
    }

    ghost function Contents(sink: LotTable): Poller
      reads this, sink
    {
      Poller(cursor, applied, delivered, sink.Contents())
    }

    method PollOnce(sink: LotTable, w: Weather) returns (error: Option<PollError>)
      modifies this, sink
      ensures (Contents(sink), error) == Polled(old(Contents(sink)), w)
    {
      if !w.readable && w.strict {
        return Some(CursorReadFailed);
      }
      var last := if w.readable then cursor.GetOr(-1) else -1;
      if w.reply.RequestFails? {
        return if w.strict then Some(RequestFailed) else None;
      }
      if w.reply.NotAList? {
        return if w.strict then Some(InvalidCollection) else None;
      }
      var trades := w.reply.trades;
      if !AscendingIds(trades) {
        return if w.strict then Some(InvalidSequence) else None;
      }
      ProcessedBound(Contents(sink), trades, w, 0);
      var done := DeliverPrefix(sink, trades, w);
      if done < |trades| && w.strict {
        return Some(TradeFailed);
      }
      var target := NewCursor(last, trades, done);
      if target != last {
        if w.writable {
          cursor := Some(target);
        } else if w.strict {
          return Some(CursorWriteFailed);
        }
      }
      return None;
    }

    /** The loop over the page: the first trade that fails in any way ends it. */
    method DeliverPrefix(sink: LotTable, trades: seq<ExchangeTrade>, w: Weather) returns (done: nat)
      modifies this, sink
      ensures done <= |trades|
      ensures (Contents(sink), done) == Processed(old(Contents(sink)), trades, w, 0)
    {
      done := 0;
      while done < |trades|
        invariant done <= |trades|
        invariant Processed(Contents(sink), trades, w, done) == Processed(old(Contents(sink)), trades, w, 0)
      {
        var t := trades[done];
        var fault := w.faults(done);
        if fault == BadRow || fault == StatsLocked || fault == StatsError {
          return;
        }
        ghost var before := Contents(sink);
        applied := applied + {t.id};
        if fault == UnpricedFee || fault == CallbackFails {
          return;
        }
        var r := sink.SyncExchangeFill(t.fill, w.clock);
        if r.Err? {
          return;
        }
        delivered := delivered + [t.id];
        assert Contents(sink) == Delivered(before, t, sink.Contents());
        done := done + 1;
      }
    }
  }
}
