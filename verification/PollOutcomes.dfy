/** What one poll delivers, stores and reports, trade by trade: the page up to the first trade that is struck or
    refused, the cursor over what was delivered, and for a strict poll the first thing that went wrong. */
module PollOutcomes {
  import opened Results
  import opened TradeAccounting
  import opened InventoryLots
  import opened InventoryHistory
  import opened TradeCursor

  /** The page as fills given to the sink at this poll's time. */
  function Offered(trades: seq<ExchangeTrade>, clock: int): (calls: seq<Call>)
    ensures |calls| == |trades|
  {
    seq(|trades|, k requires 0 <= k < |trades| => Call(trades[k].fill, clock))
  }

  function IdsOf(trades: seq<ExchangeTrade>): (ids: seq<int>)
    ensures |ids| == |trades|
  {
    seq(|trades|, k requires 0 <= k < |trades| => trades[k].id)
  }

  predicate PassedBy(book: Book, trades: seq<ExchangeTrade>, w: Weather, k: nat)
    requires k < |trades|
  {
    w.faults(k) == NoFault && Synced(BookAfter(book, Offered(trades, w.clock), k), trades[k].fill, w.clock).Ok?
  }

  /** The trade at which the page ends was written to the statistics all the same, unless it could not be read or the
      statistics failed. */
  predicate Counted(fault: Fault) { fault !in {BadRow, StatsLocked, StatsError} }

  /** The first `done` trades of a page, and no more, have been delivered: each of them is in the statistics, in
      the log and in the sink, in this order. */
  ghost predicate DeliveredUpTo(p: Poller, q: Poller, trades: seq<ExchangeTrade>, w: Weather, done: nat) {
    && done <= |trades| && (forall k | 0 <= k < done :: PassedBy(p.book, trades, w, k))
    && (done < |trades| ==> !PassedBy(p.book, trades, w, done))
    && q.book == BookAfter(p.book, Offered(trades, w.clock), done)
    && q.delivered == p.delivered + IdsOf(trades[..done])
    && (forall id :: id in q.applied <==>
          id in p.applied || id in IdsOf(trades[..done])
          || (done < |trades| && Counted(w.faults(done)) && id == trades[done].id))
  }

  // Processing goes on from a page delivered up to i.
  ghost predicate Ready(p: Poller, q: Poller, trades: seq<ExchangeTrade>, w: Weather, i: nat) {
    && i <= |trades| && (forall k | 0 <= k < i :: PassedBy(p.book, trades, w, k))
    && q.book == BookAfter(p.book, Offered(trades, w.clock), i)
    && q.delivered == p.delivered + IdsOf(trades[..i]) && q.cursor == p.cursor
    && (forall id :: id in q.applied <==> id in p.applied || id in IdsOf(trades[..i]))
  }

  lemma NextReady(p: Poller, q: Poller, trades: seq<ExchangeTrade>, w: Weather, i: nat)
    requires Ready(p, q, trades, w, i) && i < |trades| && PassedBy(p.book, trades, w, i)
    ensures Synced(q.book, trades[i].fill, w.clock).Ok?
    ensures Ready(p, Delivered(q, trades[i], Synced(q.book, trades[i].fill, w.clock).value), trades, w, i + 1)
  {
    assert IdsOf(trades[..i + 1]) == IdsOf(trades[..i]) + [trades[i].id];
    NextBook(p.book, Offered(trades, w.clock), i);
  }

  lemma {:induction false} ProcessedExactly(p: Poller, q: Poller, trades: seq<ExchangeTrade>, w: Weather, i: nat)
    requires Ready(p, q, trades, w, i)
    ensures var (r, done) := Processed(q, trades, w, i);
            DeliveredUpTo(p, r, trades, w, done) && r.cursor == p.cursor
    decreases |trades| - i
  {
    if i < |trades| && PassedBy(p.book, trades, w, i) {
      NextReady(p, q, trades, w, i);
      ProcessedExactly(p, Delivered(q, trades[i], Synced(q.book, trades[i].fill, w.clock).value), trades, w, i + 1);
    }
  }

  /** The ids of a page ascend from zero on. */
  predicate InSequence(trades: seq<ExchangeTrade>) {
    && (forall k | 0 <= k < |trades| :: 0 <= trades[k].id)
    && forall k, m | 0 <= k < m < |trades| :: trades[k].id < trades[m].id
  }

  /** The cursor that a poll starts from. */
  function Start(p: Poller, w: Weather): int {
    if w.readable && p.cursor.Some? then p.cursor.value else -1
  }

  /** Something was delivered that lies beyond the cursor. */
  predicate Beyond(p: Poller, w: Weather, trades: seq<ExchangeTrade>, done: nat)
    requires done <= |trades|
  {
    done > 0 && trades[done - 1].id > Start(p, w)
  }

  /** A poll with a page. Its trades are delivered up to the first that is struck or refused. The cursor is moved to the
      last of them if it lies beyond, the cursor can be written, and the poll is not a strict one that stopped short. */
  lemma PollExactly(p: Poller, w: Weather) returns (done: nat)
    requires w.reply.Trades? && InSequence(w.reply.trades) && (w.readable || !w.strict)
    ensures var trades, (q, error) := w.reply.trades, Polled(p, w);
            && done <= |trades| && DeliveredUpTo(p, q, trades, w, done)
            && q.cursor == (if Beyond(p, w, trades, done) && w.writable && (done == |trades| || !w.strict)
                            then Some(trades[done - 1].id) else p.cursor)
            && error == if !w.strict then None
                        else if done < |trades| then Some(TradeFailed)
                        else if Beyond(p, w, trades, done) && !w.writable then Some(CursorWriteFailed)
                        else None
  {
    var trades := w.reply.trades;
    assert trades[..0] == [] && p.delivered + [] == p.delivered;
    assert Ready(p, p, trades, w, 0);
    ProcessedExactly(p, p, trades, w, 0);
    ProcessedBound(p, trades, w, 0);
    done := Processed(p, trades, w, 0).1;
  }

  /** A poll without a page changes nothing. A strict one reports the first thing that failed, a lenient one nothing. */
  lemma PollWithoutPage(p: Poller, w: Weather)
    requires (!w.readable && w.strict) || !w.reply.Trades? || !InSequence(w.reply.trades)
    ensures Polled(p, w)
            == (p, if !w.strict then None
                   else if !w.readable then Some(CursorReadFailed)
                   else if w.reply.RequestFails? then Some(RequestFailed)
                   else if w.reply.NotAList? then Some(InvalidCollection)
                   else Some(InvalidSequence))
  {
  }
}
