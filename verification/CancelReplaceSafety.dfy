/** What one cancelReplace guarantees against an exchange that honours the modes of the request but may lose the
    answer, answer late, or still be holding the request when it is asked. */
module CancelReplaceSafety {
  import opened Results
  import opened OrderJournal
  import opened JournalHistory
  import opened CancelReplace
  import opened StartupReconciliation

  /** Where the one request is: not processed yet, never to be, the cancellation failed, both parts done, or
      cancelled but the new order rejected. */
  datatype Phase = InFlight | Dropped | CancelFailed | Done | CancelOnly

  datatype Market = Market(phase: Phase, former: OrderReply, placed: Option<OrderReply>)

  predicate Final(o: OrderReply) { o.status == Filled || IsTerminal(o.status) }

  predicate SameOrder(a: OrderReply, b: OrderReply) {
    && a.symbol == b.symbol && a.orderId == b.orderId && a.clientId == b.clientId && a.side == b.side
    && a.kind == b.kind
    && a.original == b.original
  }

  /** An order keeps its identity; once it has ended it does not change, once it is not new it is never new again. */
  predicate OrderMoves(a: OrderReply, b: OrderReply) {
    SameOrder(a, b) && (Final(a) ==> b == a) && (b.status == New ==> a.status == New)
  }

  predicate PlacedFor(o: OrderReply, post: Post) {
    o.clientId == post.clientId && o.side == Buy && o.original == post.quantity && WasPlaced(o)
  }

  /** The old order can be cancelled for this request. */
  predicate Cancellable(o: OrderReply, post: Post) {
    o.status == New || (o.status == PartiallyFilled && !post.onlyNew)
  }

  /** How the exchange deals with a request: it cancels the old order and then places or rejects the new one; or
      it does not cancel, and then places the new one only if it was not asked to stop. */
  predicate DealtWith(a: Market, b: Market, post: Post) {
    if b.phase == CancelOnly then
      Cancellable(a.former, post) && b.former == a.former.(status := Canceled) && b.placed == None
    else
      && b.placed.Some? && PlacedFor(b.placed.value, post)
      && if Cancellable(a.former, post) then b.former == a.former.(status := Canceled)
         else !post.stopOnFailure && b.former == a.former
  }

  /** One step of the exchange, as far as one request and the two orders are concerned. */
  predicate MarketMoves(a: Market, b: Market, post: Post) {
    if a.phase != InFlight then
      && b.phase == a.phase && OrderMoves(a.former, b.former)
      && (a.placed == None ==> b.placed == None)
      && (a.placed.Some? ==> b.placed.Some? && OrderMoves(a.placed.value, b.placed.value))
    else if b.phase == Done || b.phase == CancelOnly then DealtWith(a, b, post)
    else OrderMoves(a.former, b.former) && b.placed == None
  }

  /** The modes cancelReplace asks for. */
  predicate Strict(post: Post) { post.stopOnFailure && post.onlyNew }

  type Timeline = nat -> Market

  ghost predicate Lawful(market: Timeline, post: Post) {
    && market(0).phase == InFlight && market(0).placed == None
    && forall n: nat :: MarketMoves(market(n), market(n + 1), post)
  }

  // ---------- the exchange's side ----------

  predicate Coherent(m: Market) {
    && (m.placed.Some? <==> m.phase == Done)
    && (m.phase == Done || m.phase == CancelOnly ==> m.former.status == Canceled)
  }

  lemma {:induction false} AlwaysCoherent(market: Timeline, post: Post, n: nat)
    requires Lawful(market, post) && Strict(post)
    ensures Coherent(market(n))
  {
    if n > 0 {
      AlwaysCoherent(market, post, n - 1);
      assert MarketMoves(market(n - 1), market(n - 1 + 1), post);
    }
  }

  /** The request has been dealt with, or can no longer succeed. */
  predicate Decided(m: Market) { m.phase != InFlight || m.former.status != New }

  lemma {:induction false} StaysAbsent(market: Timeline, post: Post, s: nat, n: nat)
    requires Lawful(market, post) && Strict(post) && s <= n && Decided(market(s)) && market(s).placed == None
    ensures Decided(market(n)) && market(n).placed == None
  {
    if n > s {
      StaysAbsent(market, post, s, n - 1);
      assert MarketMoves(market(n - 1), market(n - 1 + 1), post);
    }
  }

  lemma {:induction false} StaysEnded(market: Timeline, post: Post, s: nat, n: nat)
    requires Lawful(market, post) && Strict(post) && s <= n
    ensures Final(market(s).former) ==> market(n).former == market(s).former
    ensures market(s).placed.Some? ==>
              market(n).placed.Some? && SameOrder(market(s).placed.value, market(n).placed.value)
              && (Final(market(s).placed.value) ==> market(n).placed == market(s).placed)
  {
    if n > s {
      StaysEnded(market, post, s, n - 1);
      AlwaysCoherent(market, post, n - 1);
      assert MarketMoves(market(n - 1), market(n - 1 + 1), post);
    }
  }

  function AppearsNext(market: Timeline, post: Post, s: nat): Timeline {
    var m := market(s);
    (n: nat) => if n <= s then market(n)
                else Market(Done, m.former.(status := Canceled),
                            Some(OrderReply(m.former.symbol, m.former.orderId + 1, post.clientId, None, Buy,
                                            m.former.kind, New,
                                            post.quantity, 0.0, 0.0)))
  }

  ghost predicate NeverAppears(market: Timeline, post: Post, s: nat) {
    forall other: Timeline | Lawful(other, post) && (forall k: nat | k <= s :: other(k) == market(k)) ::
      forall n: nat | s <= n :: other(n).placed == None
  }

  /** That the exchange knows no replacement now means that it never will, exactly when the request is no
      longer on its way or the old order is no longer new. */
  lemma AbsentIsFinalExactly(market: Timeline, post: Post, s: nat)
    requires Lawful(market, post) && Strict(post) && market(s).placed == None
    ensures NeverAppears(market, post, s) <==> Decided(market(s))
  {
    if Decided(market(s)) {
      forall other: Timeline | Lawful(other, post) && forall k: nat | k <= s :: other(k) == market(k)
        ensures forall n: nat | s <= n :: other(n).placed == None
      {
        assert other(s) == market(s);
        forall n: nat | s <= n ensures other(n).placed == None {
          StaysAbsent(other, post, s, n);
        }
      }
    } else {
      var other := AppearsNext(market, post, s);
      forall n: nat ensures MarketMoves(other(n), other(n + 1), post) {
        assert MarketMoves(market(n), market(n + 1), post);
      }
      assert Lawful(other, post) && forall k: nat | k <= s :: other(k) == market(k);
      assert other(s + 1).placed.Some?;
    }
  }

  // ---------- what the caller learns ----------

  /** An answer that does arrive tells what was done; no answer tells nothing. */
  ghost predicate HonestReply(market: Timeline, reply: PostReply, end: nat) {
    reply.Replied? ==>
      && (reply.cancel == Failure && reply.placed == NotAttempted ==> market(end).phase == CancelFailed)
      && (Complete(reply) ==>
            exists d: nat :: d <= end && market(d).phase == Done
                             && reply.canceled == Some(market(d).former) && reply.created == market(d).placed)
  }

  // The two orders are asked about one after the other.
  ghost predicate HonestLook(market: Timeline, look: Look, end: nat) {
    look.Seen? ==> exists a: nat, b: nat ::
        a <= b <= end && look.former == Some(market(a).former) && look.placed == market(b).placed
  }

  /** The request for a wish whose client id is new. */
  function PreparedPost(t: Tables, wish: Wish): Post {
    Post(FreshId(t, wish), wish.order.orderId, wish.order.original, wish.target, Some(Prepared), true, true)
  }

  /** A cancelReplace of a journalled BUY, with a client id not used before, against this exchange. */
  ghost predicate Setting(t: Tables, wish: Wish, i: nat, market: Timeline, reply: PostReply, looks: nat -> Look,
                          end: nat)
  {
    var id := FreshId(t, wish);
    && UniqueIds(t.rows) && Acceptable(wish) && FindOrder(t.rows, wish.order.orderId) == Some(i)
    && Find(t.rows, id) == None
    && Lawful(market, PreparedPost(t, wish))
    && HonestReply(market, reply, end) && forall k: nat :: HonestLook(market, looks(k), end)
  }

  function Recorded(row: Intent, o: OrderReply): Intent {
    row.(state := StateFor(o), orderId := Some(o.orderId), executed := o.executed, quote := o.quote)
  }

  // The journal right after the intent was written.
  function Announced(t: Tables, wish: Wish): Tables {
    t.(rows := t.rows + [NewIntent(wish, FreshId(t, wish))])
  }

  // The two rows of the protocol, the others as they were.
  function With(t: Tables, wish: Wish, i: nat, former: Intent, placed: Intent): Tables
    requires i < |t.rows|
  {
    t.(rows := t.rows[i := former] + [placed])
  }

  /** The old order was cancelled and the new one placed. */
  ghost predicate Happened(market: Timeline, end: nat, canceled: OrderReply, created: OrderReply) {
    exists a: nat, b: nat ::
      a <= end && b <= end && market(b).phase == Done && market(a).former == canceled && IsTerminal(canceled.status)
      && market(b).placed == Some(created)
  }

  lemma AnnouncedRows(t: Tables, wish: Wish, i: nat)
    requires UniqueIds(t.rows) && i < |t.rows| && Find(t.rows, FreshId(t, wish)) == None
    ensures UniqueIds(Announced(t, wish).rows)
    ensures Prepare(t, NewIntent(wish, FreshId(t, wish))) == Some(Announced(t, wish))
    ensures PostOf(Announced(t, wish), wish, FreshId(t, wish))
            == PreparedPost(t, wish)
  {
    var u := Announced(t, wish);
    forall a, b | 0 <= a < b < |u.rows| ensures u.rows[a].clientId != u.rows[b].clientId {
    }
    FindUnique(u.rows, |t.rows|, |u.rows|);
  }

  lemma BothRecorded(t: Tables, wish: Wish, i: nat, canceled: OrderReply, created: OrderReply)
    requires UniqueIds(t.rows) && i < |t.rows| && Find(t.rows, FreshId(t, wish)) == None
    ensures var u, id, intent := Announced(t, wish), FreshId(t, wish), NewIntent(wish, FreshId(t, wish));
            RecordBoth(u, t.rows[i].clientId, canceled, id, created)
            == [u, With(t, wish, i, Recorded(t.rows[i], canceled), intent),
                With(t, wish, i, Recorded(t.rows[i], canceled), Recorded(intent, created))]
  {
    var u, intent := Announced(t, wish), NewIntent(wish, FreshId(t, wish));
    AnnouncedRows(t, wish, i);
    OrderNoted(u, i, canceled);
    var v := With(t, wish, i, Recorded(t.rows[i], canceled), intent);
    assert u.rows[i := Recorded(u.rows[i], canceled)] == v.rows;
    UniqueKept(u.rows, v.rows);
    OrderNoted(v, |t.rows|, created);
    assert v.rows[|t.rows| := Recorded(intent, created)]
           == With(t, wish, i, Recorded(t.rows[i], canceled), Recorded(intent, created)).rows;
  }

  lemma OneMarked(t: Tables, wish: Wish, i: nat, state: IntentState)
    requires UniqueIds(t.rows) && i < |t.rows| && Find(t.rows, FreshId(t, wish)) == None
    ensures var u, id, intent := Announced(t, wish), FreshId(t, wish), NewIntent(wish, FreshId(t, wish));
            SetState(u, id, state) == Some(With(t, wish, i, t.rows[i], intent.(state := state)))
  {
    AnnouncedRows(t, wish, i);
    var u := Announced(t, wish);
    StateSet(u, |t.rows|, state);
    assert u.rows[|t.rows| := u.rows[|t.rows|].(state := state)]
           == t.rows[i := t.rows[i]] + [u.rows[|t.rows|].(state := state)];
  }

  /** The states the journal goes through, one of three ways. */
  ghost predicate Course(t: Tables, wish: Wish, i: nat, trial: Trial, market: Timeline, end: nat)
    requires i < |t.rows|
  {
    var u, row, intent := Announced(t, wish), t.rows[i], NewIntent(wish, FreshId(t, wish));
    match trial.answer
    case Refused => false
    case Replacement(o) =>
      exists c :: Happened(market, end, c, o)
                  && trial.history == [t, u, With(t, wish, i, Recorded(row, c), intent),
                                       With(t, wish, i, Recorded(row, c), Recorded(intent, o))]
    case NotReplaced =>
      market(end).phase == CancelFailed && trial.history == [t, u, With(t, wish, i, row, intent.(state := Failed))]
    case Ambiguous => trial.history == [t, u, With(t, wish, i, row, intent.(state := Unknown))]
  }

  lemma ResolveCourse(t: Tables, wish: Wish, i: nat, market: Timeline, reply: PostReply, looks: nat -> Look,
                      attempts: nat, end: nat)
      returns (c: OrderReply)
    requires Setting(t, wish, i, market, reply, looks, end)
    ensures var u, row, intent, id := Announced(t, wish), t.rows[i], NewIntent(wish, FreshId(t, wish)),
            FreshId(t, wish);
            var (states, halted, answer) := Resolve(u, row.clientId, id, reply, looks, attempts);
            match answer
            case Refused => false
            case Replacement(o) =>
              !halted && Happened(market, end, c, o)
              && states == [u, With(t, wish, i, Recorded(row, c), intent),
                            With(t, wish, i, Recorded(row, c), Recorded(intent, o))]
            case NotReplaced => !halted && market(end).phase == CancelFailed
                && states == [u, With(t, wish, i, row, intent.(state := Failed))]
            case Ambiguous => halted && states == [u, With(t, wish, i, row, intent.(state := Unknown))]
  {
    var post := PreparedPost(t, wish);
    c := wish.order;
    if reply.Replied? && reply.cancel == Failure && reply.placed == NotAttempted {
      OneMarked(t, wish, i, Failed);
    } else if Complete(reply) {
      c := reply.canceled.value;
      BothRecorded(t, wish, i, c, reply.created.value);
      var d: nat :| d <= end && market(d).phase == Done && reply.canceled == Some(market(d).former)
          && reply.created == market(d).placed;
      AlwaysCoherent(market, post, d);
      assert Happened(market, end, c, reply.created.value);
    } else if FirstProof(looks, 0, attempts).Some? {
      var look := looks(FirstProof(looks, 0, attempts).value);
      c := look.former.value;
      assert HonestLook(market, look, end);
      var a: nat, b: nat :| a <= b <= end && look.former == Some(market(a).former) && look.placed == market(b).placed;
      AlwaysCoherent(market, post, b);
      BothRecorded(t, wish, i, c, look.placed.value);
      assert Happened(market, end, c, look.placed.value);
    } else {
      OneMarked(t, wish, i, Unknown);
    }
  }

  lemma TrialCourse(t: Tables, wish: Wish, i: nat, market: Timeline, reply: PostReply, looks: nat -> Look,
                    attempts: int, end: nat)
    requires Setting(t, wish, i, market, reply, looks, end)
    ensures var trial, id := Replace(t, wish, reply, looks, attempts), FreshId(t, wish);
            && Course(t, wish, i, trial, market, end)
            && trial.posts == [PreparedPost(t, wish)]
            && (trial.halted <==> trial.answer == Ambiguous)
  {
    AnnouncedRows(t, wish, i);
    var c := ResolveCourse(t, wish, i, market, reply, looks, Attempts(attempts), end);
  }

  lemma HappenedForGood(market: Timeline, post: Post, end: nat, canceled: OrderReply, created: OrderReply, n: nat)
    requires Lawful(market, post) && Strict(post) && Happened(market, end, canceled, created) && end <= n
    ensures market(n).former == canceled && canceled.status == Canceled
    ensures market(n).placed.Some? && SameOrder(created, market(n).placed.value)
    ensures Final(created) ==> market(n).placed == Some(created)
  {
    var a: nat, b: nat :| a <= end && b <= end && market(b).phase == Done && market(a).former == canceled
                          && IsTerminal(canceled.status) && market(b).placed == Some(created);
    AlwaysCoherent(market, post, b);
    StaysEnded(market, post, a, n);
    StaysEnded(market, post, b, n);
    StaysEnded(market, post, a, if a <= b then b else a);
    StaysEnded(market, post, b, if a <= b then b else a);
  }

  lemma FailedForGood(market: Timeline, post: Post, end: nat, n: nat)
    requires Lawful(market, post) && Strict(post) && market(end).phase == CancelFailed && end <= n
    ensures market(n).placed == None
  {
    AlwaysCoherent(market, post, end);
    StaysAbsent(market, post, end, n);
  }

  lemma CourseEnds(t: Tables, wish: Wish, i: nat, market: Timeline, trial: Trial, end: nat, n: nat)
    requires i < |t.rows| && Course(t, wish, i, trial, market, end) && end <= n
    requires Lawful(market, PreparedPost(t, wish))
    ensures |trial.history| > 0
    ensures var u := trial.history[|trial.history| - 1];
            && |u.rows| == |t.rows| + 1 && u == t.(rows := u.rows) && u.rows[|t.rows|].clientId == FreshId(t, wish)
            && (forall k | 0 <= k < |t.rows| && k != i :: u.rows[k] == t.rows[k])
            && match trial.answer
               case Refused => false
               case Replacement(o) =>
                 && market(n).former.status == Canceled && market(n).placed.Some?
                 && SameOrder(o, market(n).placed.value)
                 && u.rows[i] == Recorded(t.rows[i], market(n).former)
                 && u.rows[|t.rows|].state == StateFor(o) && u.rows[|t.rows|].orderId == Some(o.orderId)
               case NotReplaced => market(n).placed == None && u.rows[|t.rows|].state == Failed
                   && u.rows[i] == t.rows[i]
               case Ambiguous => u.rows[|t.rows|].state == Unknown && u.rows[i] == t.rows[i]
  {
    var id := FreshId(t, wish);
    var post := PreparedPost(t, wish);
    match trial.answer
    case Replacement(o) =>
      var c :| Happened(market, end, c, o)
               && trial.history == [t, Announced(t, wish),
                                    With(t, wish, i, Recorded(t.rows[i], c), NewIntent(wish, id)),
                                    With(t, wish, i, Recorded(t.rows[i], c), Recorded(NewIntent(wish, id), o))];
      HappenedForGood(market, post, end, c, o, n);
    case NotReplaced => FailedForGood(market, post, end, n);
    case _ =>
  }

  /** Every run ends in one of three ways. A replacement is returned: from then on the exchange has the old
      BUY cancelled and that replacement, and both rows say so. Or nothing was replaced: the replacement is
      failed, never existed and never will, and the original row is untouched. Or the replacement is unknown,
      trading is halted and the original row is untouched. */
  lemma ThreeOutcomes(t: Tables, wish: Wish, i: nat, market: Timeline, reply: PostReply, looks: nat -> Look,
                      attempts: int, end: nat,
                      n: nat)
    requires Setting(t, wish, i, market, reply, looks, end) && end <= n
    ensures var trial, id := Replace(t, wish, reply, looks, attempts), FreshId(t, wish);
            && |trial.history| > 0 && var u := trial.history[|trial.history| - 1];
            && |u.rows| == |t.rows| + 1 && u == t.(rows := u.rows) && u.rows[|t.rows|].clientId == id
            && (forall k | 0 <= k < |t.rows| && k != i :: u.rows[k] == t.rows[k])
            && match trial.answer
               case Refused => false
               case Replacement(o) =>
                 && !trial.halted && market(n).former.status == Canceled
                 && market(n).placed.Some? && SameOrder(o, market(n).placed.value)
                 && u.rows[i] == Recorded(t.rows[i], market(n).former)
                 && u.rows[|t.rows|].state == StateFor(o) && u.rows[|t.rows|].orderId == Some(o.orderId)
               case NotReplaced =>
                 !trial.halted && market(n).placed == None && u.rows[|t.rows|].state == Failed && u.rows[i] == t.rows[i]
               case Ambiguous => trial.halted && u.rows[|t.rows|].state == Unknown && u.rows[i] == t.rows[i]
  {
    var trial, id := Replace(t, wish, reply, looks, attempts), FreshId(t, wish);
    TrialCourse(t, wish, i, market, reply, looks, attempts, end);
    CourseEnds(t, wish, i, market, trial, end, n);
  }

  // ---------- a crash anywhere, then a restart ----------

  /** What the exchange says about the two orders at one moment. */
  ghost predicate Tells(ask: ClientId -> Query, m: Market, former: ClientId, id: ClientId) {
    && ask(former) == Query.Found(m.former)
    && ask(id) == if m.placed.Some? then Query.Found(m.placed.value) else Absent
  }

  function Truth(m: Market): IntentState {
    if m.placed.Some? then StateFor(m.placed.value) else Failed
  }

  lemma {:induction false} RestartSettles(u: Tables, symbol: string, ask: ClientId -> Query, k: nat)
    requires k < |u.rows| && StopAt(u.rows, symbol, ask) == |u.rows|
    ensures Reconciled(u, symbol, ask).rows[k]
            == if Pending(u.rows[k], symbol) then Answered(u.rows[k], ask(u.rows[k].clientId)) else u.rows[k]
  {
  }

  // The two rows of the protocol say nothing that the exchange contradicts.
  ghost predicate Compatible(t: Tables, wish: Wish, i: nat, former: Intent, placed: Intent, m: Market, o: OrderReply)
    requires i < |t.rows|
  {
    var intent := NewIntent(wish, FreshId(t, wish));
    && (former == t.rows[i] || former == Recorded(t.rows[i], m.former))
    && (|| placed == intent || placed == intent.(state := Unknown)
        || (placed == intent.(state := Failed) && m.placed == None)
        || (placed == Recorded(intent, o) && m.placed.Some? && (Final(o) ==> m.placed == Some(o))))
  }

  lemma AfterRestart(t: Tables, wish: Wish, i: nat, former: Intent, placed: Intent, m: Market, o: OrderReply,
                     ask: ClientId -> Query)
    requires i < |t.rows| && Compatible(t, wish, i, former, placed, m, o)
             && Tells(ask, m, t.rows[i].clientId, FreshId(t, wish))
    requires wish.order.kind != Oco && wish.order.kind != Otoco && Pending(t.rows[i], wish.symbol)
    requires (m.former.status == Canceled) || former == t.rows[i]
    requires var u := With(t, wish, i, former, placed); StopAt(u.rows, wish.symbol, ask) == |u.rows|
    ensures var u := Reconciled(With(t, wish, i, former, placed), wish.symbol, ask);
            && |u.rows| == |t.rows| + 1 && u.rows[|t.rows|].clientId == FreshId(t, wish)
            && u.rows[|t.rows|].state == Truth(m) && u.rows[i].state == StateFor(m.former)
  {
    var u := With(t, wish, i, former, placed);
    assert u.rows[i] == former && u.rows[|t.rows|] == placed;
    RestartSettles(u, wish.symbol, ask, i);
    RestartSettles(u, wish.symbol, ask, |t.rows|);
  }

  lemma CrashedRows(t: Tables, wish: Wish, i: nat, market: Timeline, trial: Trial, end: nat, crash: nat, s: nat)
      returns (former: Intent, placed: Intent, o: OrderReply)
    requires i < |t.rows| && end <= s && Course(t, wish, i, trial, market, end) && 1 <= crash < |trial.history|
    requires Lawful(market, PreparedPost(t, wish))
    ensures trial.history[crash] == With(t, wish, i, former, placed)
    ensures Compatible(t, wish, i, former, placed, market(s), o)
    ensures market(s).former.status == Canceled || former == t.rows[i]
  {
    var intent := NewIntent(wish, FreshId(t, wish));
    var post := PreparedPost(t, wish);
    former, placed, o := t.rows[i], intent, wish.order;
    assert Announced(t, wish).rows == With(t, wish, i, former, placed).rows;
    match trial.answer
    case Replacement(order) =>
      var c :| Happened(market, end, c, order)
               && trial.history == [t, Announced(t, wish), With(t, wish, i, Recorded(t.rows[i], c), intent),
                                    With(t, wish, i, Recorded(t.rows[i], c), Recorded(intent, order))];
      HappenedForGood(market, post, end, c, order, s);
      o := order;
      if crash >= 2 {
        former := Recorded(t.rows[i], c);
      }
      if crash == 3 {
        placed := Recorded(intent, order);
      }
    case NotReplaced =>
      FailedForGood(market, post, end, s);
      if crash == 2 {
        placed := intent.(state := Failed);
      }
    case Ambiguous =>
      if crash == 2 {
        placed := intent.(state := Unknown);
      }
  }

  /** Whichever of its transactions cancelReplace had committed when the process died, a complete startup
      reconciliation afterwards leaves the replacement in exactly the state the exchange gives it, failed if
      the exchange knows no such order, and the original in the exchange's state as well. */
  lemma CrashThenRestart(t: Tables, wish: Wish, i: nat, market: Timeline, reply: PostReply, looks: nat -> Look,
                         attempts: int,
                         end: nat, crash: nat, s: nat, ask: ClientId -> Query)
    requires Setting(t, wish, i, market, reply, looks, end) && end <= s
    requires wish.order.kind != Oco && wish.order.kind != Otoco && Pending(t.rows[i], wish.symbol)
    requires var trial := Replace(t, wish, reply, looks, attempts);
             1 <= crash < |trial.history|
                 && StopAt(trial.history[crash].rows, wish.symbol, ask) == |trial.history[crash].rows|
    requires Tells(ask, market(s), t.rows[i].clientId, FreshId(t, wish))
    ensures var u := Reconciled(Replace(t, wish, reply, looks, attempts).history[crash], wish.symbol, ask);
            && |u.rows| == |t.rows| + 1
            && u.rows[|t.rows|].clientId == FreshId(t, wish) && u.rows[|t.rows|].state == Truth(market(s))
            && u.rows[i].state == StateFor(market(s).former)
  {
    TrialCourse(t, wish, i, market, reply, looks, attempts, end);
    var former, placed, o := CrashedRows(t, wish, i, market, Replace(t, wish, reply, looks, attempts), end, crash, s);
    AfterRestart(t, wish, i, former, placed, market(s), o, ask);
  }

  // ---------- all three outcomes occur ----------

  function NewOrder(wish: Wish, id: ClientId): OrderReply {
    OrderReply(wish.symbol, wish.order.orderId + 1, id, None, Buy, wish.order.kind, New, wish.order.original, 0.0, 0.0)
  }

  // The request stays on its way, or is dealt with at once in the given way.
  function Settling(wish: Wish, id: ClientId, phase: Phase): Timeline {
    (n: nat) =>
      if n == 0 then Market(InFlight, wish.order, None)
      else if phase == Done then Market(Done, wish.order.(status := Canceled), Some(NewOrder(wish, id)))
      else Market(phase, wish.order, None)
  }

  function AnswerFor(wish: Wish, id: ClientId, phase: Phase): PostReply {
    match phase
    case Done => Replied(Success, Success, Some(wish.order.(status := Canceled)), Some(NewOrder(wish, id)))
    case CancelFailed => Replied(Failure, NotAttempted, None, None)
    case _ => NoReply
  }

  /** For every acceptable wish each of the three outcomes occurs: with the request done, refused, or still on
      its way while nothing can be seen. */
  lemma EveryOutcomeOccurs(t: Tables, wish: Wish, i: nat, phase: Phase, attempts: int)
    requires UniqueIds(t.rows) && Acceptable(wish) && FindOrder(t.rows, wish.order.orderId) == Some(i)
    requires Find(t.rows, FreshId(t, wish)) == None && (phase == Done || phase == CancelFailed || phase == InFlight)
    ensures var id := FreshId(t, wish);
            var reply, looks := AnswerFor(wish, id, phase), (n: nat) => Faulty;
            && Setting(t, wish, i, Settling(wish, id, phase), reply, looks, 1)
            && match phase
               case Done => Replace(t, wish, reply, looks, attempts).answer == Replacement(NewOrder(wish, id))
               case CancelFailed => Replace(t, wish, reply, looks, attempts).answer == NotReplaced
               case _ => Replace(t, wish, reply, looks, attempts).answer == Ambiguous
  {
    var id := FreshId(t, wish);
    var market, reply, looks := Settling(wish, id, phase), AnswerFor(wish, id, phase), (n: nat) => Faulty;
    var post := PreparedPost(t, wish);
    AnnouncedRows(t, wish, i);
    forall n: nat ensures MarketMoves(market(n), market(n + 1), post) {
    }
    assert market(1).phase == phase;
    assert HonestReply(market, reply, 1);
    assert FirstProof(looks, 0, Attempts(attempts)) == None;
  }
}
