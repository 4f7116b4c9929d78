/** Whole runs of the poller against one growing exchange history: nothing is skipped, nothing takes
    effect twice, and exactly when the poller can no longer advance. */
module CursorHistory {
  import opened Results
  import opened FifoLots
  import opened TradeAccounting
  import opened InventoryLots
  import opened InventoryHistory
  import opened TradeCursor

  /** The exchange's own list of a symbol's trades: ids ascend, and every trade has an order and a time. */
  ghost predicate ExchangeHistory(h: seq<ExchangeTrade>) {
    && AscendingIds(h)
    && (forall i | 0 <= i < |h| :: h[i].fill.orderId != "" && h[i].fill.timeMs >= 1000)
  }

  // The first k trades are those up to the cursor.
  ghost predicate CursorAt(h: seq<ExchangeTrade>, cursor: int, k: nat) {
    k <= |h| && (forall i | 0 <= i < k :: h[i].id <= cursor) && forall i | k <= i < |h| :: h[i].id > cursor
  }

  /** An honest reply is some block of the history that starts right after the cursor. */
  ghost predicate Honest(h: seq<ExchangeTrade>, k: nat, r: Reply) {
    r.Trades? ==> BlockAt(h, k, r.trades)
  }

  ghost predicate BlockAt(h: seq<ExchangeTrade>, k: nat, trades: seq<ExchangeTrade>) {
    k + |trades| <= |h| && forall i | 0 <= i < |trades| :: trades[i] == h[k + i]
  }

  /** The sink after the trades from `start` up to `end`, each of them accepted once, in order. */
  function Accepted(book: Book, h: seq<ExchangeTrade>, start: nat, end: nat): Option<Book>
    requires start <= end <= |h|
  {
    if start == end then Some(book)
    else match Accepted(book, h, start, end - 1)
      case None => None
      case Some(b) =>
        match Synced(b, h[end - 1].fill, 0)
        case Err(_) => None
        case Ok(after) => Some(after)
  }

  function Ids(h: seq<ExchangeTrade>, start: nat, end: nat): seq<int>
    requires start <= end <= |h|
  {
    if start == end then [] else Ids(h, start, end - 1) + [h[end - 1].id]
  }

  /** The log without repetitions: every id where it occurs first. */
  function FirstDeliveries(log: seq<int>): seq<int> {
    if log == [] then []
    else
      var rest := FirstDeliveries(log[..|log| - 1]);
      if log[|log| - 1] in rest then rest else rest + [log[|log| - 1]]
  }

  // ---------- fills the sink already knows ----------

  // The lot of a purchase, found by its trade.
  function LotOf(book: Book, fill: Fill): Option<nat> {
    FirstRow(book.rows, fill.symbol, fill.tradeId, 0)
  }

  /** The fill is on record as itself: the same sale, or a lot of this very purchase, of which some may
      have been sold since. */
  predicate Settled(book: Book, fill: Fill) {
    && Executable(fill) && fill.tradeId != ""
    && if fill.isBuy then
         var lot := PurchaseRow(fill, 0);
         && ValuedCommission(fill).Some? && LotOf(book, fill).Some?
         && SamePurchase(book.rows[LotOf(book, fill).value].(qty := lot.qty), lot)
       else
         && Key(fill) in book.consumptions
         && book.consumptions[Key(fill)] == Consumption(fill.orderId, NetQuantity(fill), fill.price)
  }

  /** Nothing of the purchase has been sold. */
  predicate LotIsWhole(book: Book, fill: Fill) {
    Executable(fill) && LotOf(book, fill).Some? && book.rows[LotOf(book, fill).value].qty == NetQuantity(fill)
  }

  lemma ClockIsIrrelevant(book: Book, fill: Fill, clock: int)
    requires fill.timeMs >= 1000
    ensures Synced(book, fill, clock) == Synced(book, fill, 0)
  {
  }

  lemma AcceptanceSettles(book: Book, fill: Fill)
    requires Synced(book, fill, 0).Ok? && fill.orderId != ""
    ensures Settled(Synced(book, fill, 0).value, fill) && Extends(book, Synced(book, fill, 0).value)
  {
    OneCallExtends(book, Call(fill, 0));
    var after := Synced(book, fill, 0).value;
    if fill.isBuy && !Recorded(book, fill) {
      assert after.rows[|book.rows|] == PurchaseRow(fill, 0);
      NewRowIsFirst(book, after, fill, |book.rows|);
    }
  }

  lemma SettledSurvives(before: Book, after: Book, fill: Fill)
    requires Extends(before, after) && Settled(before, fill) && fill.orderId != ""
    ensures Settled(after, fill)
  {
    if fill.isBuy {
      FirstRowSurvives(before, after, fill.symbol, fill.tradeId, 0);
    }
  }

  /** Redelivery of a settled fill never changes the book. It is refused exactly when the fill is a
      purchase of which something has been sold. */
  lemma RedeliveryExactly(book: Book, fill: Fill, clock: int)
    requires Settled(book, fill)
    ensures Synced(book, fill, clock) == if fill.isBuy && !LotIsWhole(book, fill) then Err(BuyMismatch) else Ok(book)
  {
    if fill.isBuy {
      BuyCostPositive(fill);
    } else {
      assert book.consumptions[Key(fill) := book.consumptions[Key(fill)]] == book.consumptions;
    }
  }

  // ---------- the invariant of a run ----------

  /** All trades from `start` up to `end` are settled. */
  predicate SettledUpTo(book: Book, h: seq<ExchangeTrade>, start: nat, end: nat)
    requires start <= end <= |h|
  {
    start == end || (SettledUpTo(book, h, start, end - 1) && Settled(book, h[end - 1].fill))
  }

  lemma {:induction false} SettledAt(book: Book, h: seq<ExchangeTrade>, start: nat, end: nat, i: nat)
    requires start <= i < end <= |h| && SettledUpTo(book, h, start, end)
    ensures Settled(book, h[i].fill)
    decreases end
  {
    if i < end - 1 {
      SettledAt(book, h, start, end - 1, i);
    }
  }

  lemma {:induction false} SettledStays(before: Book, after: Book, h: seq<ExchangeTrade>, start: nat, end: nat)
    requires ExchangeHistory(h) && start <= end <= |h| && Extends(before, after) && SettledUpTo(before, h, start, end)
    ensures SettledUpTo(after, h, start, end)
    decreases end
  {
    if start < end {
      SettledStays(before, after, h, start, end - 1);
      SettledSurvives(before, after, h[end - 1].fill);
    }
  }

  /** `k` trades of the history are at or below the cursor, `reached` have ever been delivered. */
  ghost predicate Contiguous(p: Poller, book: Book, h: seq<ExchangeTrade>, start: nat, k: nat, reached: nat) {
    && start <= k <= reached <= |h|
    && p.cursor.Some? && CursorAt(h, p.cursor.value, k) && p.cursor.value >= -1
    && Accepted(book, h, start, reached) == Some(p.book)
    && SettledUpTo(p.book, h, start, reached)
    && FirstDeliveries(p.delivered) == Ids(h, start, reached)
    && (forall i | start <= i < reached :: h[i].id in p.applied)
  }

  lemma {:induction false} IdsMembers(h: seq<ExchangeTrade>, start: nat, end: nat, i: nat)
    requires AscendingIds(h) && start <= end <= |h| && i < |h|
    ensures h[i].id in Ids(h, start, end) <==> start <= i < end
  {
    if start < end {
      IdsMembers(h, start, end - 1, i);
    }
  }

  lemma {:induction false} LogGrows(log: seq<int>, id: int)
    ensures FirstDeliveries(log + [id]) == if id in FirstDeliveries(log) then FirstDeliveries(log)
            else FirstDeliveries(log) + [id]
  {
    assert (log + [id])[..|log|] == log;
  }

  // A repeated delivery changes the log only.
  lemma RepeatedDelivery(p: Poller, book: Book, h: seq<ExchangeTrade>, start: nat, k: nat, reached: nat, j: nat,
                         after: Book)
    requires ExchangeHistory(h) && Contiguous(p, book, h, start, k, reached) && start <= j < reached
    requires Synced(p.book, h[j].fill, 0) == Ok(after)
    ensures Contiguous(Delivered(p, h[j], after), book, h, start, k, reached)
  {
    SettledAt(p.book, h, start, reached, j);
    RedeliveryExactly(p.book, h[j].fill, 0);
    IdsMembers(h, start, reached, j);
    LogGrows(p.delivered, h[j].id);
  }

  // A new delivery extends everything by one trade.
  lemma NewDelivery(p: Poller, book: Book, h: seq<ExchangeTrade>, start: nat, k: nat, reached: nat, after: Book)
    requires ExchangeHistory(h) && Contiguous(p, book, h, start, k, reached) && reached < |h|
    requires Synced(p.book, h[reached].fill, 0) == Ok(after)
    ensures Contiguous(Delivered(p, h[reached], after), book, h, start, k, reached + 1)
  {
    AcceptanceSettles(p.book, h[reached].fill);
    SettledStays(p.book, after, h, start, reached);
    IdsMembers(h, start, reached, reached);
    LogGrows(p.delivered, h[reached].id);
  }

  lemma AnyDelivery(p: Poller, book: Book, h: seq<ExchangeTrade>, start: nat, k: nat, reached: nat, j: nat, after: Book)
      returns (next: nat)
    requires ExchangeHistory(h) && Contiguous(p, book, h, start, k, reached) && start <= j <= reached && j < |h|
    requires Synced(p.book, h[j].fill, 0) == Ok(after)
    ensures next == if j == reached then reached + 1 else reached
    ensures Contiguous(Delivered(p, h[j], after), book, h, start, k, next)
  {
    if j == reached {
      NewDelivery(p, book, h, start, k, reached, after);
      next := reached + 1;
    } else {
      RepeatedDelivery(p, book, h, start, k, reached, j, after);
      next := reached;
    }
  }

  // Where processing stops, at most the statistics table has grown.
  lemma StoppedHere(p: Poller, book: Book, h: seq<ExchangeTrade>, start: nat, k: nat, reached: nat,
                    trades: seq<ExchangeTrade>, w: Weather, i: nat)
      returns (q: Poller)
    requires Contiguous(p, book, h, start, k, reached) && i <= |trades|
    requires i < |trades| ==> w.faults(i) != NoFault || Synced(p.book, trades[i].fill, w.clock).Err?
    ensures (q, i) == Processed(p, trades, w, i) && Contiguous(q, book, h, start, k, reached)
  {
    q := p.(applied := Processed(p, trades, w, i).0.applied);
  }

  lemma GoesOn(p: Poller, trades: seq<ExchangeTrade>, w: Weather, i: nat, after: Book)
    requires i < |trades| && w.faults(i) == NoFault && Synced(p.book, trades[i].fill, w.clock) == Ok(after)
    ensures Processed(p, trades, w, i) == Processed(Delivered(p, trades[i], after), trades, w, i + 1)
  {
  }

  function Later(a: nat, b: nat): nat {
    if a >= b then a else b
  }

  lemma {:induction false} PrefixStep(p: Poller, book: Book, h: seq<ExchangeTrade>, start: nat, k: nat, reached: nat,
                                      trades: seq<ExchangeTrade>, w: Weather, i: nat)
      returns (later: nat, q: Poller, done: nat)
    requires ExchangeHistory(h) && Contiguous(p, book, h, start, k, reached)
    requires BlockAt(h, k, trades) && i <= |trades| && k + i <= reached
    ensures (q, done) == Processed(p, trades, w, i)
    ensures i <= done <= |trades| && later == Later(reached, k + done)
    ensures Contiguous(q, book, h, start, k, later)
    decreases |trades| - i
  {
    if i == |trades| || w.faults(i) != NoFault || Synced(p.book, trades[i].fill, w.clock).Err? {
      later, done := reached, i;
      q := StoppedHere(p, book, h, start, k, reached, trades, w, i);
    } else {
      var next, r := DeliverOne(p, book, h, start, k, reached, trades, w, i);
      later, q, done := PrefixStep(r, book, h, start, k, next, trades, w, i + 1);
    }
  }

  lemma DeliverOne(p: Poller, book: Book, h: seq<ExchangeTrade>, start: nat, k: nat, reached: nat,
                   trades: seq<ExchangeTrade>, w: Weather, i: nat)
      returns (next: nat, q: Poller)
    requires ExchangeHistory(h) && Contiguous(p, book, h, start, k, reached)
    requires BlockAt(h, k, trades) && i < |trades| && k + i <= reached
    requires w.faults(i) == NoFault && Synced(p.book, trades[i].fill, w.clock).Ok?
    ensures next == Later(reached, k + i + 1) && Contiguous(q, book, h, start, k, next)
    ensures Processed(p, trades, w, i) == Processed(q, trades, w, i + 1)
  {
    assert trades[i] == h[k + i];
    ClockIsIrrelevant(p.book, h[k + i].fill, w.clock);
    var after := Synced(p.book, h[k + i].fill, 0).value;
    q := Delivered(p, h[k + i], after);
    GoesOn(p, trades, w, i, after);
    next := AnyDelivery(p, book, h, start, k, reached, k + i, after);
  }

  /** One poll that reads its stored cursor: whatever else goes wrong, the cursor does not move back,
      never passes an undelivered trade, and the sink holds every delivered trade exactly once. If the
      cursor can be stored and no strict poll stops inside its page, it does not fall behind either. */
  lemma PollKeepsContiguity(p: Poller, book: Book, h: seq<ExchangeTrade>, start: nat, k: nat, reached: nat, w: Weather)
      returns (k': nat, later: nat)
    requires ExchangeHistory(h) && Contiguous(p, book, h, start, k, reached) && w.readable && Honest(h, k, w.reply)
    ensures Contiguous(Polled(p, w).0, book, h, start, k', later)
    ensures k <= k' && reached <= later && p.cursor.value <= Polled(p, w).0.cursor.value
    ensures k == reached && Undisturbed(p, w) ==> k' == later
  {
    k', later := k, reached;
    if w.reply.Trades? && AscendingIds(w.reply.trades) {
      var trades := w.reply.trades;
      var q, done;
      ProcessedBound(p, trades, w, 0);
      later, q, done := PrefixStep(p, book, h, start, k, reached, trades, w, 0);
      PolledState(p, w, q, done);
      if Stores(p.cursor.value, trades, done, w) {
        assert trades[done - 1] == h[k + done - 1];
        CursorStored(q, book, h, start, k, later, done);
        k' := k + done;
      }
      if Undisturbed(p, w) {
        UndisturbedStores(p, w);
        assert done > 0 ==> trades[done - 1] == h[k + done - 1];
      }
    }
  }

  lemma {:induction false} PolledState(p: Poller, w: Weather, q: Poller, done: nat)
    requires w.readable && p.cursor.Some? && w.reply.Trades? && AscendingIds(w.reply.trades)
    requires (q, done) == Processed(p, w.reply.trades, w, 0) && done <= |w.reply.trades|
    ensures var trades := w.reply.trades;
            Polled(p, w).0
            == if Stores(p.cursor.value, trades, done, w) then q.(cursor := Some(trades[done - 1].id)) else q
  {
  }

  // The poll puts the end of what it delivered in the cursor's place.
  predicate Stores(last: int, trades: seq<ExchangeTrade>, done: nat, w: Weather)
    requires done <= |trades|
  {
    done > 0 && trades[done - 1].id > last && !(done < |trades| && w.strict) && w.writable
  }

  lemma CursorStored(q: Poller, book: Book, h: seq<ExchangeTrade>, start: nat, k: nat, later: nat, done: nat)
    requires ExchangeHistory(h) && Contiguous(q, book, h, start, k, later) && 0 < done && k + done <= later
    ensures Contiguous(q.(cursor := Some(h[k + done - 1].id)), book, h, start, k + done, later)
  {
    CursorAdvances(h, q.cursor.value, k, done);
  }

  lemma {:induction false} UndisturbedStores(p: Poller, w: Weather)
    requires w.readable && w.reply.Trades? && AscendingIds(w.reply.trades) && Undisturbed(p, w)
    ensures !(Processed(p, w.reply.trades, w, 0).1 < |w.reply.trades| && w.strict)
  {
    ProcessedBound(p, w.reply.trades, w, 0);
  }

  /** The cursor can be stored, and the poll does not end with a failed trade. */
  predicate Undisturbed(p: Poller, w: Weather) {
    w.writable && Polled(p, w).1 != Some(TradeFailed)
  }

  lemma CursorAdvances(h: seq<ExchangeTrade>, cursor: int, k: nat, done: nat)
    requires AscendingIds(h) && CursorAt(h, cursor, k) && 0 < done && k + done <= |h|
    ensures CursorAt(h, h[k + done - 1].id, k + done) && h[k + done - 1].id > cursor
  {
  }

  /** The poller after n polls. */
  function PollerAfter(p: Poller, ws: seq<Weather>, n: nat): Poller
    requires n <= |ws|
  {
    if n == 0 then p else Polled(PollerAfter(p, ws, n - 1), ws[n - 1]).0
  }

  ghost predicate HonestPoll(h: seq<ExchangeTrade>, cursor: int, r: Reply, k: nat) {
    CursorAt(h, cursor, k) && Honest(h, k, r)
  }

  ghost predicate HonestlyPolled(p: Poller, h: seq<ExchangeTrade>, w: Weather) {
    w.readable && p.cursor.Some? && exists k :: HonestPoll(h, p.cursor.value, w.reply, k)
  }

  /** Every poll reads its cursor and every reply is a block of the history after it. */
  ghost predicate HonestRun(p: Poller, h: seq<ExchangeTrade>, ws: seq<Weather>, n: nat)
    requires n <= |ws|
  {
    n == 0 || (HonestRun(p, h, ws, n - 1) && HonestlyPolled(PollerAfter(p, ws, n - 1), h, ws[n - 1]))
  }

  lemma CursorPositionIsUnique(h: seq<ExchangeTrade>, cursor: int, j: nat, k: nat)
    requires CursorAt(h, cursor, j) && CursorAt(h, cursor, k)
    ensures j == k
  {
    assert j < |h| ==> h[j].id > cursor;
    assert k < |h| ==> h[k].id > cursor;
  }

  lemma {:induction false} RunIsContiguous(p: Poller, h: seq<ExchangeTrade>, start: nat, ws: seq<Weather>, n: nat)
      returns (k: nat, reached: nat)
    requires ExchangeHistory(h) && n <= |ws| && HonestRun(p, h, ws, n)
    requires p.cursor.Some? && p.cursor.value >= -1 && CursorAt(h, p.cursor.value, start) && p.delivered == []
    ensures Contiguous(PollerAfter(p, ws, n), p.book, h, start, k, reached)
    ensures PollerAfter(p, ws, n).cursor.value >= p.cursor.value
  {
    if n == 0 {
      k, reached := start, start;
    } else {
      k, reached := RunIsContiguous(p, h, start, ws, n - 1);
      var q := PollerAfter(p, ws, n - 1);
      var j :| HonestPoll(h, q.cursor.value, ws[n - 1].reply, j);
      CursorPositionIsUnique(h, q.cursor.value, j, k);
      k, reached := PollKeepsContiguity(q, p.book, h, start, k, reached, ws[n - 1]);
    }
  }

  /** No gap: after any run of polls every exchange trade between the starting cursor and the current
      one has been applied and delivered, first deliveries follow the exchange's order without a hole,
      and the sink is the result of accepting exactly those trades once each. */
  lemma NoGapNoDuplicate(p: Poller, h: seq<ExchangeTrade>, start: nat, ws: seq<Weather>) returns (reached: nat)
    requires ExchangeHistory(h) && HonestRun(p, h, ws, |ws|)
    requires p.cursor.Some? && p.cursor.value >= -1 && CursorAt(h, p.cursor.value, start) && p.delivered == []
    ensures var q := PollerAfter(p, ws, |ws|);
            && start <= reached <= |h| && q.cursor.Some? && q.cursor.value >= p.cursor.value
            && FirstDeliveries(q.delivered) == Ids(h, start, reached)
            && Accepted(p.book, h, start, reached) == Some(q.book)
            && forall i | 0 <= i < |h| && p.cursor.value < h[i].id <= q.cursor.value ::
                h[i].id in q.applied && start <= i < reached
  {
    var k, r := RunIsContiguous(p, h, start, ws, |ws|);
    reached := r;
  }

  // ---------- when the poller cannot advance ----------

  /** The sink refuses the next trade. */
  predicate Wedged(p: Poller, h: seq<ExchangeTrade>, k: nat) {
    k < |h| && Synced(p.book, h[k].fill, 0).Err?
  }

  /** A trade that was delivered before is refused exactly when it is a purchase of which something has been
      sold since; any other refused trade is refused on its first delivery. */
  lemma WedgedByRedeliveryExactly(p: Poller, book: Book, h: seq<ExchangeTrade>, start: nat, k: nat, reached: nat)
    requires Contiguous(p, book, h, start, k, reached)
    ensures Wedged(p, h, k) && k < reached <==> k < reached && h[k].fill.isBuy && !LotIsWhole(p.book, h[k].fill)
  {
    if k < reached {
      SettledAt(p.book, h, start, reached, k);
      RedeliveryExactly(p.book, h[k].fill, 0);
    }
  }

  /** Every poll could store its cursor, and none ended with a failed trade. */
  ghost predicate UndisturbedRun(p: Poller, ws: seq<Weather>, n: nat)
    requires n <= |ws|
  {
    n == 0 || (UndisturbedRun(p, ws, n - 1) && Undisturbed(PollerAfter(p, ws, n - 1), ws[n - 1]))
  }

  /** Then the cursor is at the end of what has been delivered, and no redelivery can be refused. */
  lemma {:induction false} UndisturbedKeepsUp(p: Poller, h: seq<ExchangeTrade>, start: nat, ws: seq<Weather>, n: nat)
      returns (k: nat)
    requires ExchangeHistory(h) && n <= |ws| && HonestRun(p, h, ws, n) && UndisturbedRun(p, ws, n)
    requires p.cursor.Some? && p.cursor.value >= -1 && CursorAt(h, p.cursor.value, start) && p.delivered == []
    ensures Contiguous(PollerAfter(p, ws, n), p.book, h, start, k, k)
  {
    k := start;
    if n > 0 {
      k := UndisturbedKeepsUp(p, h, start, ws, n - 1);
      var q := PollerAfter(p, ws, n - 1);
      var j :| HonestPoll(h, q.cursor.value, ws[n - 1].reply, j);
      CursorPositionIsUnique(h, q.cursor.value, j, k);
      var reached;
      k, reached := PollKeepsContiguity(q, p.book, h, start, k, k, ws[n - 1]);
    }
  }

  /** A single undisturbed poll advances the cursor exactly when the sink accepts the next trade. */
  lemma ClearPollAdvancesExactly(p: Poller, h: seq<ExchangeTrade>, k: nat, w: Weather)
    requires ExchangeHistory(h) && p.cursor.Some? && p.cursor.value >= -1 && CursorAt(h, p.cursor.value, k)
    requires w.readable && w.writable && !w.strict && (forall i :: w.faults(i) == NoFault)
    requires Honest(h, k, w.reply) && w.reply.Trades? && w.reply.trades != []
    ensures Polled(p, w).0.cursor != p.cursor <==> Synced(p.book, h[k].fill, 0).Ok?
  {
    var trades := w.reply.trades;
    assert trades[0] == h[k];
    ClockIsIrrelevant(p.book, h[k].fill, w.clock);
    ProcessedBound(p, trades, w, 0);
    if Synced(p.book, h[k].fill, 0).Ok? {
      var q := Delivered(p, trades[0], Synced(p.book, trades[0].fill, w.clock).value);
      ProcessedBound(q, trades, w, 1);
      var done := Processed(p, trades, w, 0).1;
      assert trades[done - 1] == h[k + done - 1];
    }
  }

  lemma WedgedPoll(p: Poller, h: seq<ExchangeTrade>, k: nat, w: Weather)
    requires ExchangeHistory(h) && p.cursor.Some? && Wedged(p, h, k) && w.readable && Honest(h, k, w.reply)
    ensures var q := Polled(p, w).0; q.cursor == p.cursor && q.book == p.book && q.delivered == p.delivered
  {
    ClockIsIrrelevant(p.book, h[k].fill, w.clock);
    if w.reply.Trades? && w.reply.trades != [] {
      assert w.reply.trades[0] == h[k];
    }
  }

  /** Once wedged, the poller stays wedged: no weather whatever moves the cursor or the book again. */
  lemma {:induction false} WedgedForever(p: Poller, h: seq<ExchangeTrade>, k: nat, ws: seq<Weather>, n: nat)
    requires ExchangeHistory(h) && p.cursor.Some? && CursorAt(h, p.cursor.value, k) && Wedged(p, h, k)
    requires n <= |ws| && HonestRun(p, h, ws, n)
    ensures var q := PollerAfter(p, ws, n); q.cursor == p.cursor && q.book == p.book && q.delivered == p.delivered
  {
    if n > 0 {
      WedgedForever(p, h, k, ws, n - 1);
      var q := PollerAfter(p, ws, n - 1);
      var j :| HonestPoll(h, q.cursor.value, ws[n - 1].reply, j);
      CursorPositionIsUnique(h, q.cursor.value, j, k);
      WedgedPoll(q, h, k, ws[n - 1]);
    }
  }

  // ---------- examples ----------

  // A lot of one at hand; it is sold, two are bought, and half of those are sold.
  function StockRow(): LotRow {
    LotRow("S", 1.0, 9.0, 1, "5", "0", "", Open, false)
  }

  function FirstSale(): Fill {
    Fill("S", false, 11.0, 1.0, false, 0.0, None, true, "1", "6", 1000)
  }

  function ExampleBuy(): Fill {
    Fill("S", true, 10.0, 2.0, false, 0.0, None, true, "2", "7", 1000)
  }

  function SecondSale(): Fill {
    Fill("S", false, 12.0, 1.0, false, 0.0, None, true, "3", "8", 2000)
  }

  function ExampleHistory(): seq<ExchangeTrade> {
    [ExchangeTrade(1, FirstSale()), ExchangeTrade(2, ExampleBuy()), ExchangeTrade(3, SecondSale())]
  }

  // The table after the first i trades.
  function ExampleBook(i: nat): Book {
    var sold, bought := StockRow().(qty := 0.0, status := Closed), PurchaseRow(ExampleBuy(), 0);
    var first, second := Consumption("6", 1.0, 11.0), Consumption("8", 1.0, 12.0);
    if i == 0 then Book([StockRow()], map[])
    else if i == 1 then Book([sold], map[("S", "1") := first])
    else if i == 2 then Book([sold, bought], map[("S", "1") := first])
    else Book([sold, bought.(qty := 1.0)], map[("S", "1") := first, ("S", "3") := second])
  }

  lemma {:induction false} OnlyLotPlanned(rows: seq<LotRow>, id: nat)
    requires id < |rows| && rows[id].qty >= 1.0
    ensures Allocated([id], rows, 1.0) == [Allocation(id, 1.0)]
    ensures ConsumeRows(rows, [id], 1.0) == rows[id := Reduced(rows[id], 1.0)]
  {
    assert Allocated([id], rows, 1.0) == [Allocation(id, 1.0)] + Allocated([id][1..], rows, 0.0);
    ConsumeFirst(rows, id, [], 1.0);
    assert [id] + [] == [id];
  }

  lemma {:induction false} SaleOfOnlyLot(rows: seq<LotRow>, id: nat)
    requires id < |rows| && OldestIds(rows, "S") == [id] && rows[id].qty >= 1.0 && !rows[id].fixedPoint
    ensures OpenQuantity(rows, "S") == rows[id].qty && Rewritable(rows, "S", 1.0)
    ensures ConsumeRows(rows, OldestIds(rows, "S"), 1.0) == rows[id := Reduced(rows[id], 1.0)]
  {
    HeadTotal([id], rows);
    assert [id][1..] == [];
    OnlyLotPlanned(rows, id);
  }

  // A first sale of one unit takes it from the only live lot.
  lemma OnlyLotSold(book: Book, fill: Fill, id: nat)
    requires Executable(fill) && !fill.isBuy && fill.tradeId != "" && fill.symbol == "S" && NetQuantity(fill) == 1.0
    requires Key(fill) !in book.consumptions && id < |book.rows| && OldestIds(book.rows, "S") == [id]
    requires book.rows[id].qty >= 1.0 && !book.rows[id].fixedPoint
    ensures Synced(book, fill, 0)
            == Ok(Book(book.rows[id := Reduced(book.rows[id], 1.0)],
                       book.consumptions[Key(fill) := Consumption(fill.orderId, 1.0, fill.price)]))
  {
    SaleOfOnlyLot(book.rows, id);
  }

  lemma FirstSaleAccepted()
    ensures Synced(ExampleBook(0), FirstSale(), 0) == Ok(ExampleBook(1))
  {
    var rows := ExampleBook(0).rows;
    OneByAge(1);
    assert Ages(rows) == [1];
    LiveOne(rows, "S", 0);
    OnlyLotSold(ExampleBook(0), FirstSale(), 0);
    assert rows[0 := Reduced(rows[0], 1.0)] == ExampleBook(1).rows;
  }

  lemma PurchaseAccepted()
    ensures Synced(ExampleBook(1), ExampleBuy(), 0) == Ok(ExampleBook(2))
  {
    var row, rows := PurchaseRow(ExampleBuy(), 0), ExampleBook(1).rows;
    BuyCostPositive(ExampleBuy());
    assert FirstRow(rows, "S", "2", 1) == None && FirstRow(rows, "S", "2", 0) == None;
    assert rows + [row] == ExampleBook(2).rows;
  }

  lemma TwoOfOneAge()
    ensures ByAge([1, 1]) == [0, 1]
  {
    OneByAge(1);
    assert [1, 1][..1] == [1];
    var ages: seq<int> := [1, 1];
    assert InsertByAge([0], ages, 1) == [0] + [1];
    assert ByAge(ages) == InsertByAge(ByAge(ages[..1]), ages, 1);
  }

  lemma OneByAge(age: int)
    ensures ByAge([age]) == [0]
  {
    assert [age][..0] == [];
    assert ByAge([]) == [];
  }

  lemma SecondLotIsFirst()
    ensures OldestIds(ExampleBook(2).rows, "S") == [1]
  {
    var rows := ExampleBook(2).rows;
    assert Ages(rows) == [1, 1];
    TwoOfOneAge();
    assert [0, 1] == [0] + [1];
    LiveIdsConcat([0], [1], rows, "S");
    LiveOne(rows, "S", 0);
    LiveOne(rows, "S", 1);
  }

  lemma SecondSaleAccepted()
    ensures Synced(ExampleBook(2), SecondSale(), 0) == Ok(ExampleBook(3))
  {
    var rows := ExampleBook(2).rows;
    SecondLotIsFirst();
    OnlyLotSold(ExampleBook(2), SecondSale(), 1);
    assert rows[1 := Reduced(rows[1], 1.0)] == ExampleBook(3).rows;
  }

  // Three trades the sink accepts one after the other are delivered in turn.
  lemma {:induction false} ThreeDelivered(p: Poller, h: seq<ExchangeTrade>, w: Weather, first: Book, second: Book,
                                          third: Book)
    requires |h| == 3 && w.faults(0) == NoFault && w.faults(1) == NoFault && w.faults(2) == NoFault
    requires Synced(p.book, h[0].fill, w.clock) == Ok(first) && Synced(first, h[1].fill, w.clock) == Ok(second)
    requires Synced(second, h[2].fill, w.clock) == Ok(third)
    ensures Processed(p, h, w, 0)
            == (Delivered(Delivered(Delivered(p, h[0], first), h[1], second), h[2], third), 3)
  {
    var q := Delivered(p, h[0], first);
    var r := Delivered(q, h[1], second);
    GoesOn(p, h, w, 0, first);
    GoesOn(q, h, w, 1, second);
    GoesOn(r, h, w, 2, third);
  }

  lemma AllNoted(first: Book, second: Book, third: Book)
    ensures var h := ExampleHistory();
            Delivered(Delivered(Delivered(Poller(Some(0), {}, [], ExampleBook(0)), h[0], first), h[1], second),
                      h[2], third)
            == Poller(Some(0), {1, 2, 3}, [1, 2, 3], third)
  {
  }

  lemma {:induction false} PageDelivered(w: Weather)
    requires (forall i :: w.faults(i) == NoFault) && w.clock == 0
    ensures Processed(Poller(Some(0), {}, [], ExampleBook(0)), ExampleHistory(), w, 0)
            == (Poller(Some(0), {1, 2, 3}, [1, 2, 3], ExampleBook(3)), 3)
  {
    FirstSaleAccepted();
    PurchaseAccepted();
    SecondSaleAccepted();
    ThreeDelivered(Poller(Some(0), {}, [], ExampleBook(0)), ExampleHistory(), w,
                   ExampleBook(1), ExampleBook(2), ExampleBook(3));
    AllNoted(ExampleBook(1), ExampleBook(2), ExampleBook(3));
  }

  lemma ExampleIsHonest()
    ensures ExchangeHistory(ExampleHistory()) && CursorAt(ExampleHistory(), 0, 0) && CursorAt(ExampleHistory(), 1, 1)
    ensures Honest(ExampleHistory(), 0, Trades(ExampleHistory()))
  {
  }

  lemma PurchaseNoLongerWhole()
    ensures Synced(ExampleBook(3), ExampleBuy(), 0) == Err(BuyMismatch)
  {
    var rows := ExampleBook(3).rows;
    BuyCostPositive(ExampleBuy());
    assert FirstRow(rows, "S", "2", 1) == Some(1) && FirstRow(rows, "S", "2", 0) == Some(1);
  }

  lemma FirstSaleSettled()
    ensures Synced(ExampleBook(3), FirstSale(), 0) == Ok(ExampleBook(3))
  {
    RedeliveryExactly(ExampleBook(3), FirstSale(), 0);
  }

  /** A failed cursor write can leave the poller wedged for good. The purchase comes again, and the sink
      no longer recognises it, because part of it has been sold: two polls, of which the first delivers
      everything without storing its cursor and the second passes the first sale only. */
  lemma WedgeIsReachable() returns (unstored: Weather, clear: Weather)
    ensures var p, h := Poller(Some(0), {}, [], ExampleBook(0)), ExampleHistory();
            var after := Polled(Polled(p, unstored).0, clear).0;
            && ExchangeHistory(h) && HonestRun(p, h, [unstored, clear], 2) && clear.writable
            && after.cursor == Some(1) && CursorAt(h, 1, 1) && Wedged(after, h, 1)
  {
    var p, h := Poller(Some(0), {}, [], ExampleBook(0)), ExampleHistory();
    unstored := Weather(true, Trades(h), (i: nat) => NoFault, false, false, 0);
    clear := unstored.(writable := true);
    ExampleIsHonest();
    PageDelivered(unstored);
    var q := Poller(Some(0), {1, 2, 3}, [1, 2, 3], ExampleBook(3));
    assert Polled(p, unstored).0 == q;
    WedgeOnPurchase(q, clear);
    assert HonestPoll(h, 0, Trades(h), 0);
    var ws := [unstored, clear];
    assert PollerAfter(p, ws, 0) == p && HonestRun(p, h, ws, 0);
    assert PollerAfter(p, ws, 1) == q && HonestRun(p, h, ws, 1);
    assert HonestlyPolled(q, h, ws[1]);
  }

  // Sent the whole page again, the sink passes the first sale and refuses the purchase.
  lemma {:induction false} WedgeOnPurchase(q: Poller, w: Weather)
    requires q.book == ExampleBook(3) && (forall i :: w.faults(i) == NoFault) && w.clock == 0
    ensures var h := ExampleHistory();
            && Processed(q, h, w, 0).0.book == ExampleBook(3) && Processed(q, h, w, 0).0.cursor == q.cursor
            && Processed(q, h, w, 0).1 == 1 && Synced(ExampleBook(3), h[1].fill, 0).Err?
  {
    var h := ExampleHistory();
    FirstSaleSettled();
    PurchaseNoLongerWhole();
    GoesOn(q, h, w, 0, ExampleBook(3));
    var r := Delivered(q, h[0], ExampleBook(3));
    assert Processed(r, h, w, 1) == (r.(applied := r.applied + {2}), 1);
  }

  // ---------- a cursor that moves back ----------

  /** The first trade of a page that is struck by a fault or that the given book refuses, or the end. */
  function FirstStop(book: Book, trades: seq<ExchangeTrade>, w: Weather, i: nat): (f: nat)
    requires i <= |trades|
    ensures i <= f <= |trades|
    decreases |trades| - i
  {
    if i == |trades| || w.faults(i) != NoFault || Synced(book, trades[i].fill, w.clock).Err? then i
    else FirstStop(book, trades, w, i + 1)
  }

  /** Trades up to the cursor have been delivered: the sink has them on record. */
  predicate KnownBefore(book: Book, trades: seq<ExchangeTrade>, cursor: int) {
    forall i | 0 <= i < |trades| && trades[i].id < cursor :: Settled(book, trades[i].fill)
  }

  lemma KnownKeepsBook(book: Book, fill: Fill, clock: int, after: Book)
    requires Settled(book, fill) && Synced(book, fill, clock) == Ok(after)
    ensures after == book
  {
    RedeliveryExactly(book, fill, clock);
  }

  // As long as known trades are passed, the book is the one before the call.
  lemma {:induction false} StopsWhereExpected(p: Poller, trades: seq<ExchangeTrade>, w: Weather, cursor: int, i: nat,
                                              f: nat, done: nat)
    requires i <= |trades| && AscendingIds(trades) && KnownBefore(p.book, trades, cursor)
    requires f == FirstStop(p.book, trades, w, i) && done == Processed(p, trades, w, i).1
    ensures i <= done <= |trades| && (f == i <==> done == i)
    ensures f > i && trades[f - 1].id < cursor ==> f == done
    ensures done > i && trades[done - 1].id < cursor ==> f == done
    decreases |trades| - i
  {
    ProcessedBound(p, trades, w, i);
    if i < |trades| && w.faults(i) == NoFault && Synced(p.book, trades[i].fill, w.clock).Ok? {
      if trades[i].id < cursor {
        var q := KnownIsPassed(p, trades, w, i);
        StopsWhereExpected(q, trades, w, cursor, i + 1, f, done);
      } else {
        GoesOnFurther(p, trades, w, i);
        assert forall j | i <= j < |trades| :: trades[j].id >= cursor;
      }
    }
  }

  lemma {:induction false} GoesOnFurther(p: Poller, trades: seq<ExchangeTrade>, w: Weather, i: nat)
    requires i < |trades| && w.faults(i) == NoFault && Synced(p.book, trades[i].fill, w.clock).Ok?
    ensures FirstStop(p.book, trades, w, i) > i && Processed(p, trades, w, i).1 > i
  {
    var after := Synced(p.book, trades[i].fill, w.clock).value;
    GoesOn(p, trades, w, i, after);
    ProcessedBound(Delivered(p, trades[i], after), trades, w, i + 1);
  }

  lemma KnownIsPassed(p: Poller, trades: seq<ExchangeTrade>, w: Weather, i: nat) returns (q: Poller)
    requires i < |trades| && w.faults(i) == NoFault && Settled(p.book, trades[i].fill)
    requires Synced(p.book, trades[i].fill, w.clock).Ok?
    ensures q.book == p.book && Processed(p, trades, w, i) == Processed(q, trades, w, i + 1)
    ensures FirstStop(p.book, trades, w, i) == FirstStop(p.book, trades, w, i + 1)
  {
    var after := Synced(p.book, trades[i].fill, w.clock).value;
    q := Delivered(p, trades[i], after);
    GoesOn(p, trades, w, i, after);
    KnownKeepsBook(p.book, trades[i].fill, w.clock, after);
  }

  /** The cursor moves back exactly when a lenient poll cannot read it, and the first trade of the page that
      is struck by a fault or refused by the sink comes after one below the cursor (or the whole page
      lies below it): the poll then stores the end of that part in the cursor's place. */
  lemma {:induction false} CursorMovesBackExactly(p: Poller, w: Weather)
    requires p.cursor.Some? && p.cursor.value >= 0
    requires w.reply.Trades? ==> KnownBefore(p.book, w.reply.trades, p.cursor.value)
    ensures Polled(p, w).0.cursor.Some?
    ensures Polled(p, w).0.cursor.value < p.cursor.value
            <==> !w.readable && !w.strict && w.writable && w.reply.Trades? && AscendingIds(w.reply.trades)
                 && var f := FirstStop(p.book, w.reply.trades, w, 0);
                    f > 0 && w.reply.trades[f - 1].id < p.cursor.value
  {
    if w.reply.Trades? && AscendingIds(w.reply.trades) {
      ProcessedBound(p, w.reply.trades, w, 0);
      StopsWhereExpected(p, w.reply.trades, w, p.cursor.value, 0,
                         FirstStop(p.book, w.reply.trades, w, 0), Processed(p, w.reply.trades, w, 0).1);
    }
  }

  /** In a run every page of the history from its start on is such a page. */
  lemma PagesAreKnown(p: Poller, book: Book, h: seq<ExchangeTrade>, start: nat, k: nat, reached: nat, b: nat,
                      trades: seq<ExchangeTrade>)
    requires Contiguous(p, book, h, start, k, reached) && start <= b && BlockAt(h, b, trades)
    ensures KnownBefore(p.book, trades, p.cursor.value)
  {
    forall i | 0 <= i < |trades| && trades[i].id < p.cursor.value ensures Settled(p.book, trades[i].fill) {
      assert trades[i] == h[b + i] && b + i < k;
      SettledAt(p.book, h, start, reached, b + i);
    }
  }

  /** It happens: an undisturbed poll delivers three trades, and a poll that cannot read the cursor takes it
      back behind the first of them, where the poller is then wedged. */
  lemma CursorMovesBack() returns (clear: Weather, blind: Weather)
    ensures var p, h := Poller(Some(0), {}, [], ExampleBook(0)), ExampleHistory();
            var q := Polled(p, clear).0;
            && clear.readable && clear.reply == Trades(h) && blind.reply == Trades(h) && !blind.readable
            && q.cursor == Some(3) && Polled(q, blind).0.cursor == Some(1)
            && CursorAt(h, 1, 1) && Wedged(Polled(q, blind).0, h, 1)
  {
    var p, h := Poller(Some(0), {}, [], ExampleBook(0)), ExampleHistory();
    clear := Weather(true, Trades(h), (i: nat) => NoFault, true, false, 0);
    blind := clear.(readable := false);
    ExampleIsHonest();
    PageDelivered(clear);
    var q := Poller(Some(3), {1, 2, 3}, [1, 2, 3], ExampleBook(3));
    assert Polled(p, clear).0 == q;
    WedgeOnPurchase(q, blind);
  }
}
