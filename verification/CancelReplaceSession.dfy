/** Many cancelReplace requests for one old BUY: tries that fail, end in doubt or die half-way, restarts between
    them, and any number of requests still on their way. At most one order is live, no more than the old
    quantity is ever bought, and nothing is sent that is not on record. */
module CancelReplaceSession {
  import opened Results
  import opened OrderJournal
  import opened JournalHistory
  import opened CancelReplace
  import opened StartupReconciliation
  import opened CancelReplaceSafety

  /** One request, where it is, and the order it has placed. */
  datatype Flight = Flight(post: Post, phase: Phase, placed: Option<OrderReply>)

  /** The exchange's side: the old order and every request to replace it. */
  datatype Floor = Floor(former: OrderReply, flights: seq<Flight>)

  datatype Session = Session(t: Tables, floor: Floor)

  /** The exchange takes a step, dealing with one request at most. Or the bot tries to replace the order; it may
      die after any of its transactions, and between journalling the intent and sending the request. Or
      it restarts and asks about every order in doubt. */
  datatype Event =
    | Exchange(next: Floor, who: nat)
    | Try(wish: Wish, reply: PostReply, looks: nat -> Look, attempts: int, crash: nat, sent: bool)
    | Restart(symbol: string, ask: ClientId -> Query)

  // ---------- the exchange with several requests ----------

  /** The exchange as one request sees it. */
  function View(floor: Floor, i: nat): Market
    requires i < |floor.flights|
  {
    Market(floor.flights[i].phase, floor.former, floor.flights[i].placed)
  }

  /** Quantities of an order: nothing is executed while it is new, and never more than was ordered. */
  predicate Plausible(o: OrderReply) {
    0.0 <= o.executed <= o.original && (o.status == New ==> o.executed == 0.0)
  }

  predicate FlightMoves(a: Floor, b: Floor, i: nat, who: nat)
    requires i < |a.flights| == |b.flights|
  {
    && b.flights[i].post == a.flights[i].post && MarketMoves(View(a, i), View(b, i), a.flights[i].post)
    && (i != who ==> b.flights[i].phase == a.flights[i].phase)
    && (b.flights[i].placed.Some? ==> Plausible(b.flights[i].placed.value))
  }

  predicate FloorMoves(a: Floor, b: Floor, who: nat) {
    && |a.flights| == |b.flights| && Plausible(b.former)
    && (|a.flights| == 0 ==> OrderMoves(a.former, b.former))
    && forall i | 0 <= i < |a.flights| :: FlightMoves(a, b, i, who)
  }

  // ---------- one event ----------

  function Arriving(posts: seq<Post>): (r: seq<Flight>)
    ensures |r| == |posts|
  {
    seq(|posts|, i requires 0 <= i < |posts| => Flight(posts[i], InFlight, None))
  }

  function TrialOf(t: Tables, e: Event): (r: Trial)
    requires e.Try?
    ensures r.history != []
  {
    Replace(t, e.wish, e.reply, e.looks, e.attempts)
  }

  // The last state that was committed, and the requests that were sent before the process died.
  function Survived(trial: Trial, crash: nat): Tables
    requires trial.history != []
  {
    trial.history[if crash < |trial.history| then crash else |trial.history| - 1]
  }

  function Sent(trial: Trial, crash: nat, sent: bool): seq<Post> {
    if crash == 0 || (crash == 1 && !sent) then [] else trial.posts
  }

  function Next(s: Session, e: Event): Session {
    match e
    case Exchange(next, _) => s.(floor := next)
    case Try(_, _, _, _, crash, sent) =>
      var trial := TrialOf(s.t, e);
      Session(Survived(trial, crash), s.floor.(flights := s.floor.flights + Arriving(Sent(trial, crash, sent))))
    case Restart(symbol, ask) => s.(t := Reconciled(s.t, symbol, ask))
  }

  /** The exchange follows its law, and every try is about the old order as the bot saw it at some time. */
  predicate Legal(s: Session, e: Event) {
    match e
    case Exchange(next, who) => FloorMoves(s.floor, next, who)
    case Try(wish, _, _, _, _, _) => SameOrder(wish.order, s.floor.former)
    case Restart(_, _) => true
  }

  function After(s: Session, es: seq<Event>, n: nat): Session
    requires n <= |es|
  {
    if n == 0 then s else Next(After(s, es, n - 1), es[n - 1])
  }

  ghost predicate LegalRun(s: Session, es: seq<Event>, n: nat)
    requires n <= |es|
  {
    n == 0 || (LegalRun(s, es, n - 1) && Legal(After(s, es, n - 1), es[n - 1]))
  }

  lemma LastEvent(s: Session, es: seq<Event>, n: nat)
    requires 0 < n <= |es| && LegalRun(s, es, n)
    ensures LegalRun(s, es, n - 1) && Legal(After(s, es, n - 1), es[n - 1])
    ensures After(s, es, n) == Next(After(s, es, n - 1), es[n - 1])
  {
  }

  // ---------- at most one live order ----------

  predicate Succeeded(x: Flight) { x.phase == Done }

  /** A request that has placed an order did so in the old one's place, and it is the only one that has. */
  predicate OneSuccessor(floor: Floor) {
    && (forall i | 0 <= i < |floor.flights| :: Strict(floor.flights[i].post) && Coherent(View(floor, i)))
    && forall i, j | 0 <= i < j < |floor.flights| :: !(Succeeded(floor.flights[i]) && Succeeded(floor.flights[j]))
  }

  lemma FloorStepKeeps(a: Floor, b: Floor, who: nat)
    requires OneSuccessor(a) && FloorMoves(a, b, who)
    ensures OneSuccessor(b)
  {
    forall i | 0 <= i < |b.flights| ensures Strict(b.flights[i].post) && Coherent(View(b, i)) {
      assert FlightMoves(a, b, i, who) && Coherent(View(a, i));
    }
    forall i, j | 0 <= i < j < |b.flights| ensures !(Succeeded(b.flights[i]) && Succeeded(b.flights[j])) {
      assert FlightMoves(a, b, i, who) && FlightMoves(a, b, j, who) && Coherent(View(a, i)) && Coherent(View(a, j));
    }
  }

  // What a try sends is one strict request for the old quantity, or nothing.
  lemma TryPosts(t: Tables, e: Event)
    requires e.Try?
    ensures var posts := TrialOf(t, e).posts;
            |posts| <= 1 && forall i | 0 <= i < |posts| :: Strict(posts[i]) && SentFor(posts[i], e.wish)
  {
  }

  /** A request of this wish: of its order and quantity, and within its cap. */
  predicate SentFor(post: Post, wish: Wish) {
    && Acceptable(wish) && post.cancels == wish.order.orderId && post.quantity == wish.order.original
    && post.price == wish.target && Notional(post.quantity, post.price) <= wish.cap
  }

  lemma ArrivalKeeps(floor: Floor, posts: seq<Post>)
    requires OneSuccessor(floor) && forall i | 0 <= i < |posts| :: Strict(posts[i])
    ensures OneSuccessor(floor.(flights := floor.flights + Arriving(posts)))
  {
    var b := floor.(flights := floor.flights + Arriving(posts));
    forall i | 0 <= i < |b.flights| ensures Strict(b.flights[i].post) && Coherent(View(b, i)) {
      assert i < |floor.flights| ==> View(b, i) == View(floor, i);
    }
  }

  lemma {:induction false} OneSuccessorAlways(s: Session, es: seq<Event>, n: nat)
    requires n <= |es| && LegalRun(s, es, n) && s.floor.flights == []
    ensures OneSuccessor(After(s, es, n).floor)
  {
    if n > 0 {
      OneSuccessorAlways(s, es, n - 1);
      var before, e := After(s, es, n - 1), es[n - 1];
      match e
      case Exchange(next, who) => FloorStepKeeps(before.floor, next, who);
      case Try(_, _, _, _, crash, sent) =>
        TryPosts(before.t, e);
        ArrivalKeeps(before.floor, Sent(TrialOf(before.t, e), crash, sent));
      case Restart(_, _) =>
    }
  }

  predicate Live(o: OrderReply) { !Final(o) }

  predicate LivePlaced(x: Flight) { x.placed.Some? && Live(x.placed.value) }

  /** Of the old order and all orders placed for it, at most one is live. */
  predicate AtMostOneIsLive(floor: Floor) {
    && (forall i | 0 <= i < |floor.flights| && LivePlaced(floor.flights[i]) :: !Live(floor.former))
    && forall i, j | 0 <= i < j < |floor.flights| :: !(LivePlaced(floor.flights[i]) && LivePlaced(floor.flights[j]))
  }

  /** However often the replacement is tried, whatever the bot was told, wherever it died and however many
      requests are still on their way: at no time are two of the orders live. */
  lemma {:induction false} NeverTwoLive(s: Session, es: seq<Event>, n: nat)
    requires n <= |es| && LegalRun(s, es, n) && s.floor.flights == []
    ensures AtMostOneIsLive(After(s, es, n).floor)
  {
    OneSuccessorAlways(s, es, n);
    var floor := After(s, es, n).floor;
    forall i | 0 <= i < |floor.flights| && LivePlaced(floor.flights[i])
      ensures !Live(floor.former) && Succeeded(floor.flights[i])
    {
      assert Coherent(View(floor, i));
    }
  }

  // ---------- no more than the old quantity ----------

  function ExecutedBy(x: Flight): real {
    if x.placed.Some? then x.placed.value.executed else 0.0
  }

  function ExecutedByAll(flights: seq<Flight>): real {
    if flights == [] then 0.0 else ExecutedByAll(flights[..|flights| - 1]) + ExecutedBy(flights[|flights| - 1])
  }

  /** Everything bought by the old order and the orders placed for it. */
  function Bought(floor: Floor): real { floor.former.executed + ExecutedByAll(floor.flights) }

  /** What is placed is of the old quantity, and then nothing of the old order was executed. */
  predicate Measured(floor: Floor, quantity: real) {
    && Plausible(floor.former) && floor.former.original == quantity
    && forall i | 0 <= i < |floor.flights| :: MeasuredFlight(floor, i, quantity)
  }

  predicate MeasuredFlight(floor: Floor, i: nat, quantity: real)
    requires i < |floor.flights|
  {
    && floor.flights[i].post.quantity == quantity
    && (floor.flights[i].placed.Some? ==>
          && Plausible(floor.flights[i].placed.value) && floor.flights[i].placed.value.original == quantity
          && floor.former.executed == 0.0)
  }

  lemma MeasuredStep(a: Floor, b: Floor, who: nat, quantity: real)
    requires OneSuccessor(a) && Measured(a, quantity) && FloorMoves(a, b, who)
    ensures Measured(b, quantity)
  {
    assert |b.flights| > 0 ==> FlightMoves(a, b, 0, who);
    forall i | 0 <= i < |b.flights| ensures MeasuredFlight(b, i, quantity) {
      assert FlightMoves(a, b, i, who) && MeasuredFlight(a, i, quantity) && Coherent(View(a, i));
    }
  }

  lemma MeasuredArrival(floor: Floor, posts: seq<Post>, quantity: real)
    requires Measured(floor, quantity) && forall i | 0 <= i < |posts| :: posts[i].quantity == quantity
    ensures Measured(floor.(flights := floor.flights + Arriving(posts)), quantity)
  {
    var b := floor.(flights := floor.flights + Arriving(posts));
    forall i | 0 <= i < |b.flights| ensures MeasuredFlight(b, i, quantity) {
      assert i < |floor.flights| ==> MeasuredFlight(floor, i, quantity);
    }
  }

  lemma {:induction false} MeasuredAlways(s: Session, es: seq<Event>, n: nat)
    requires n <= |es| && LegalRun(s, es, n) && s.floor.flights == [] && Plausible(s.floor.former)
    ensures Measured(After(s, es, n).floor, s.floor.former.original)
  {
    if n > 0 {
      MeasuredAlways(s, es, n - 1);
      OneSuccessorAlways(s, es, n - 1);
      LastEvent(s, es, n);
      MeasuredAfterOne(After(s, es, n - 1), es[n - 1], s.floor.former.original);
    }
  }

  lemma MeasuredAfterOne(before: Session, e: Event, quantity: real)
    requires Legal(before, e) && OneSuccessor(before.floor) && Measured(before.floor, quantity)
    ensures Measured(Next(before, e).floor, quantity)
  {
    match e
    case Exchange(next, who) => MeasuredStep(before.floor, next, who, quantity);
    case Try(_, _, _, _, crash, sent) =>
      TryPosts(before.t, e);
      MeasuredArrival(before.floor, Sent(TrialOf(before.t, e), crash, sent), quantity);
    case Restart(_, _) =>
  }

  lemma {:induction false} NothingPlaced(flights: seq<Flight>)
    requires forall i | 0 <= i < |flights| :: flights[i].placed == None
    ensures ExecutedByAll(flights) == 0.0
  {
    if flights != [] {
      NothingPlaced(flights[..|flights| - 1]);
    }
  }

  // With one order placed at most, all that is executed is executed by it.
  lemma {:induction false} AtMostOneExecutes(flights: seq<Flight>, quantity: real)
    requires quantity >= 0.0
    requires forall i | 0 <= i < |flights| :: 0.0 <= ExecutedBy(flights[i]) <= quantity
    requires forall i, j | 0 <= i < j < |flights| :: flights[i].placed == None || flights[j].placed == None
    ensures 0.0 <= ExecutedByAll(flights) <= quantity
  {
    if flights != [] {
      var rest, last := flights[..|flights| - 1], flights[|flights| - 1];
      assert forall i | 0 <= i < |rest| :: rest[i] == flights[i];
      if last.placed.Some? {
        NothingPlaced(rest);
      } else {
        AtMostOneExecutes(rest, quantity);
      }
    }
  }

  /** The old order and everything placed for it never buy more than the old order was for. */
  lemma {:induction false} NeverOverbought(s: Session, es: seq<Event>, n: nat)
    requires n <= |es| && LegalRun(s, es, n) && s.floor.flights == [] && Plausible(s.floor.former)
    ensures 0.0 <= Bought(After(s, es, n).floor) <= s.floor.former.original
  {
    var floor, quantity := After(s, es, n).floor, s.floor.former.original;
    OneSuccessorAlways(s, es, n);
    MeasuredAlways(s, es, n);
    forall i | 0 <= i < |floor.flights|
      ensures 0.0 <= ExecutedBy(floor.flights[i]) <= quantity
      ensures floor.flights[i].placed.Some? ==> floor.former.executed == 0.0 && Succeeded(floor.flights[i])
    {
      assert MeasuredFlight(floor, i, quantity) && Coherent(View(floor, i));
    }
    AtMostOneExecutes(floor.flights, quantity);
    if forall i | 0 <= i < |floor.flights| :: floor.flights[i].placed == None {
      NothingPlaced(floor.flights);
    }
  }

  // ---------- nothing is sent that is not on record ----------

  /** The intent of a request: a BUY of its quantity and price under its client id. */
  predicate IntentFor(row: Intent, post: Post) {
    row.clientId == post.clientId && row.side == Buy && row.quantity == post.quantity && row.price == post.price
  }

  predicate OnRecord(rows: seq<Intent>, post: Post) {
    exists i :: 0 <= i < |rows| && IntentFor(rows[i], post)
  }

  // Rows keep their identity; new ones may follow.
  predicate Continues(a: seq<Intent>, b: seq<Intent>) {
    |a| <= |b| && forall i | 0 <= i < |a| :: SameIdentity(a[i], b[i])
  }

  lemma RecordContinues(a: seq<Intent>, b: seq<Intent>, post: Post)
    requires OnRecord(a, post) && Continues(a, b)
    ensures OnRecord(b, post)
  {
    var i :| 0 <= i < |a| && IntentFor(a[i], post);
    assert SameIdentity(a[i], b[i]);
    assert IntentFor(b[i], post);
  }

  lemma RecordingContinues(t: Tables, id: ClientId, o: OrderReply)
    ensures Continues(t.rows, RecordOrder(t, id, o).GetOr(t).rows)
    ensures forall state :: Continues(t.rows, SetState(t, id, state).GetOr(t).rows)
  {
  }

  predicate AllContinue(t: Tables, states: seq<Tables>) {
    forall k | 0 <= k < |states| :: Continues(t.rows, states[k].rows)
  }

  lemma BothContinue(t: Tables, former: ClientId, canceled: OrderReply, id: ClientId, created: OrderReply)
    ensures AllContinue(t, RecordBoth(t, former, canceled, id, created))
  {
    RecordingContinues(t, former, canceled);
    RecordingContinues(RecordOrder(t, former, canceled).GetOr(t), id, created);
  }

  lemma OneContinues(t: Tables, id: ClientId, state: IntentState)
    ensures AllContinue(t, [t, SetState(t, id, state).GetOr(t)])
  {
  }

  lemma ReconcileContinues(t: Tables, former: ClientId, id: ClientId, looks: nat -> Look, attempts: nat)
    ensures AllContinue(t, Reconcile(t, former, id, looks, attempts).0)
  {
    match FirstProof(looks, 0, attempts)
    case Some(k) => BothContinue(t, former, looks(k).former.value, id, looks(k).placed.value);
    case None => OneContinues(t, id, Unknown);
  }

  lemma ResolveContinues(t: Tables, former: ClientId, id: ClientId, reply: PostReply, looks: nat -> Look, attempts: nat)
    ensures AllContinue(t, Resolve(t, former, id, reply, looks, attempts).0)
  {
    if reply.Replied? && reply.cancel == Failure && reply.placed == NotAttempted {
      OneContinues(t, id, Failed);
    } else if Complete(reply) {
      BothContinue(t, former, reply.canceled.value, id, reply.created.value);
    } else {
      ReconcileContinues(t, former, id, looks, attempts);
    }
  }

  lemma ContinuesFurther(a: seq<Intent>, b: seq<Intent>, c: seq<Intent>)
    requires Continues(a, b) && Continues(b, c)
    ensures Continues(a, c)
  {
    forall i | 0 <= i < |a| ensures SameIdentity(a[i], c[i]) {
      assert SameIdentity(a[i], b[i]) && SameIdentity(b[i], c[i]);
    }
  }

  // A try that sends something announces its intent and goes on from there.
  lemma TryShape(t: Tables, e: Event) returns (u: Tables, rest: seq<Tables>)
    requires e.Try? && TrialOf(t, e).posts != []
    ensures TrialOf(t, e).history == [t] + rest && AllContinue(u, rest)
    ensures Continues(t.rows, u.rows) && OnRecord(u.rows, TrialOf(t, e).posts[0])
  {
    var former, id := t.rows[FindOrder(t.rows, e.wish.order.orderId).value].clientId, FreshId(t, e.wish);
    u := Prepare(t, NewIntent(e.wish, id)).value;
    rest := Resolve(u, former, id, e.reply, e.looks, Attempts(e.attempts)).0;
    IntentIsRecorded(t, e.wish, id);
    ResolveContinues(u, former, id, e.reply, e.looks, Attempts(e.attempts));
  }

  lemma NothingSent(t: Tables, e: Event)
    requires e.Try? && TrialOf(t, e).posts == []
    ensures TrialOf(t, e).history == [t]
  {
  }

  // The intent is in the journal before the request is sent, and in all later states of the try.
  lemma TryRecords(t: Tables, e: Event, trial: Trial, k: nat)
    requires e.Try? && trial == TrialOf(t, e) && k < |trial.history|
    ensures Continues(t.rows, trial.history[k].rows)
    ensures k >= 1 && trial.posts != [] ==> OnRecord(trial.history[k].rows, trial.posts[0])
  {
    if trial.posts == [] {
      NothingSent(t, e);
    } else {
      var u, rest := TryShape(t, e);
      StatesRecord(t, trial, u, rest, k);
    }
  }

  lemma StatesRecord(t: Tables, trial: Trial, u: Tables, rest: seq<Tables>, k: nat)
    requires trial.history == [t] + rest && AllContinue(u, rest) && k < |trial.history|
    requires Continues(t.rows, u.rows) && trial.posts != [] && OnRecord(u.rows, trial.posts[0])
    ensures Continues(t.rows, trial.history[k].rows)
    ensures k >= 1 ==> OnRecord(trial.history[k].rows, trial.posts[0])
  {
    if k >= 1 {
      assert trial.history[k] == rest[k - 1];
      ContinuesFurther(t.rows, u.rows, trial.history[k].rows);
      RecordContinues(u.rows, trial.history[k].rows, trial.posts[0]);
    }
  }

  lemma IntentIsRecorded(t: Tables, wish: Wish, id: ClientId)
    requires Prepare(t, NewIntent(wish, id)).Some?
    ensures var u := Prepare(t, NewIntent(wish, id)).value;
            Continues(t.rows, u.rows) && OnRecord(u.rows, PostOf(u, wish, id))
  {
    var u := Prepare(t, NewIntent(wish, id)).value;
    var i := if Find(t.rows, id).Some? then Find(t.rows, id).value else |t.rows|;
    assert IntentFor(u.rows[i], PostOf(u, wish, id));
  }

  lemma RestartContinues(t: Tables, symbol: string, ask: ClientId -> Query)
    ensures Continues(t.rows, Reconciled(t, symbol, ask).rows)
  {
  }

  // Some try of the run so far sent this request for its wish.
  predicate SentInRun(es: seq<Event>, n: nat, post: Post)
    requires n <= |es|
  {
    exists k :: 0 <= k < n && es[k].Try? && SentFor(post, es[k].wish)
  }

  predicate Accounted(s: Session, es: seq<Event>, n: nat, i: nat)
    requires n <= |es| && i < |s.floor.flights|
  {
    OnRecord(s.t.rows, s.floor.flights[i].post) && SentInRun(es, n, s.floor.flights[i].post)
    && Strict(s.floor.flights[i].post)
  }

  /** Every request that ever left asked for both modes, was sent for some wish and within its cap, and has its
      intent in the journal. */
  ghost predicate AllAccounted(s: Session, es: seq<Event>, n: nat)
    requires n <= |es|
  {
    forall i | 0 <= i < |s.floor.flights| :: Accounted(s, es, n, i)
  }

  lemma StillAccounted(a: Session, b: Session, es: seq<Event>, n: nat, i: nat)
    requires n < |es| && i < |a.floor.flights| && i < |b.floor.flights| && Accounted(a, es, n, i)
    requires b.floor.flights[i].post == a.floor.flights[i].post && Continues(a.t.rows, b.t.rows)
    ensures Accounted(b, es, n + 1, i)
  {
    var post := a.floor.flights[i].post;
    var k :| 0 <= k < n && es[k].Try? && SentFor(post, es[k].wish);
    assert es[k].Try? && SentFor(post, es[k].wish);
    RecordContinues(a.t.rows, b.t.rows, post);
  }

  lemma AccountedAfterTry(before: Session, es: seq<Event>, n: nat)
    requires n < |es| && es[n].Try? && AllAccounted(before, es, n)
    ensures AllAccounted(Next(before, es[n]), es, n + 1)
  {
    var e, s, m := es[n], Next(before, es[n]), n + 1;
    var trial := TrialOf(before.t, e);
    TryPosts(before.t, e);
    TryRecords(before.t, e, trial, if e.crash < |trial.history| then e.crash else |trial.history| - 1);
    forall i | 0 <= i < |s.floor.flights| ensures Accounted(s, es, m, i) {
      if i < |before.floor.flights| {
        StillAccounted(before, s, es, n, i);
      } else {
        assert s.floor.flights[i].post == trial.posts[i - |before.floor.flights|];
        assert SentFor(s.floor.flights[i].post, es[n].wish);
      }
    }
  }

  lemma AccountedAfterOther(before: Session, es: seq<Event>, n: nat)
    requires n < |es| && !es[n].Try? && AllAccounted(before, es, n) && Legal(before, es[n])
    ensures AllAccounted(Next(before, es[n]), es, n + 1)
  {
    var e, s, m := es[n], Next(before, es[n]), n + 1;
    if e.Restart? {
      RestartContinues(before.t, e.symbol, e.ask);
    }
    forall i | 0 <= i < |s.floor.flights| ensures Accounted(s, es, m, i) {
      assert e.Exchange? ==> FlightMoves(before.floor, s.floor, i, e.who);
      StillAccounted(before, s, es, n, i);
    }
  }

  lemma AccountedAfterOne(before: Session, es: seq<Event>, n: nat, after: Session)
    requires 0 < n <= |es| && AllAccounted(before, es, n - 1)
    requires Legal(before, es[n - 1]) && after == Next(before, es[n - 1])
    ensures AllAccounted(after, es, n)
  {
    if es[n - 1].Try? {
      AccountedAfterTry(before, es, n - 1);
    } else {
      AccountedAfterOther(before, es, n - 1);
    }
  }

  lemma NothingSentYet(s: Session, es: seq<Event>)
    requires s.floor.flights == []
    ensures AllAccounted(s, es, 0)
  {
  }

  lemma AccountedAfterLast(s: Session, es: seq<Event>, n: nat, before: Session)
    requires 0 < n <= |es| && LegalRun(s, es, n) && before == After(s, es, n - 1)
    requires AllAccounted(before, es, n - 1)
    ensures AllAccounted(After(s, es, n), es, n)
  {
    var now := After(s, es, n);
    assert Legal(before, es[n - 1]) && now == Next(before, es[n - 1]) by {
      LastEvent(s, es, n);
    }
    AccountedAfterOne(before, es, n, now);
  }

  lemma EarlierIsLegal(s: Session, es: seq<Event>, n: nat)
    requires 0 < n <= |es| && LegalRun(s, es, n)
    ensures LegalRun(s, es, n - 1)
  {
  }

  /** Nothing was ever sent otherwise, whatever happened before and after: the intent was in the journal before
      the request left, and it is there at every later time. */
  lemma {:induction false} EveryRequestIsOnRecord(s: Session, es: seq<Event>, n: nat)
    requires n <= |es| && LegalRun(s, es, n) && s.floor.flights == []
    ensures AllAccounted(After(s, es, n), es, n)
    decreases n
  {
    if n == 0 {
      NothingSentYet(s, es);
    } else {
      EarlierIsLegal(s, es, n);
      EveryRequestIsOnRecord(s, es, n - 1);
      AccountedAfterLast(s, es, n, After(s, es, n - 1));
    }
  }

  // ---------- both modes are needed ----------

  function Half(o: OrderReply): OrderReply {
    o.(status := PartiallyFilled, executed := o.original / 2.0)
  }

  function PlacedOrder(o: OrderReply, post: Post, status: Status, executed: real): OrderReply {
    OrderReply(o.symbol, o.orderId + 1, post.clientId, None, Buy, o.kind, status, post.quantity, executed, 0.0)
  }

  /** Without STOP_ON_FAILURE two orders can be live: the old one is partly filled, is not cancelled, and the new
      one is placed. */
  lemma StopOnFailureIsNeeded(o: OrderReply, post: Post) returns (a: Floor, b: Floor)
    requires o.status == New && Plausible(o) && o.original > 0.0 && post.quantity == o.original
    requires !post.stopOnFailure && post.onlyNew
    ensures var start := Floor(o, [Flight(post, InFlight, None)]);
            FloorMoves(start, a, 0) && FloorMoves(a, b, 0) && !AtMostOneIsLive(b)
  {
    a := Floor(Half(o), [Flight(post, InFlight, None)]);
    b := Floor(Half(o), [Flight(post, Done, Some(PlacedOrder(o, post, New, 0.0)))]);
    assert LivePlaced(b.flights[0]) && Live(b.former);
  }

  /** Without ONLY_NEW too much can be bought: half of the old order is executed before it is cancelled, and the
      new one is executed in full. */
  lemma OnlyNewIsNeeded(o: OrderReply, post: Post) returns (a: Floor, b: Floor, c: Floor)
    requires o.status == New && Plausible(o) && o.original > 0.0 && post.quantity == o.original
    requires post.stopOnFailure && !post.onlyNew
    ensures var start := Floor(o, [Flight(post, InFlight, None)]);
            && FloorMoves(start, a, 0) && FloorMoves(a, b, 0) && FloorMoves(b, c, 0)
            && AtMostOneIsLive(b) && Bought(c) == 1.5 * o.original
  {
    a := Floor(Half(o), [Flight(post, InFlight, None)]);
    b := Floor(Half(o).(status := Canceled), [Flight(post, Done, Some(PlacedOrder(o, post, New, 0.0)))]);
    c := Floor(b.former, [Flight(post, Done, Some(PlacedOrder(o, post, Filled, o.original)))]);
    assert c.flights[..0] == [];
    assert ExecutedByAll(c.flights) == ExecutedByAll([]) + ExecutedBy(c.flights[0]);
  }

  // ---------- several requests at once ----------

  // A try whose answer is lost and whose looks all fail.
  function LostTry(wish: Wish): Event {
    Try(wish, NoReply, (n: nat) => Faulty, 1, 2, true)
  }

  lemma LostTrySends(t: Tables, wish: Wish)
    requires Acceptable(wish) && FindOrder(t.rows, wish.order.orderId).Some? && Find(t.rows, FreshId(t, wish)) == None
    ensures var trial := TrialOf(t, LostTry(wish));
            && |trial.posts| == 1 && trial.answer == Ambiguous
            && Survived(trial, 2) == SetState(Announced(t, wish), FreshId(t, wish), Unknown).GetOr(Announced(t, wish))
  {
    assert FirstProof((n: nat) => Faulty, 0, 1) == None;
  }

  lemma LostTryRows(t: Tables, wish: Wish, k: nat)
    requires k < |t.rows|
    ensures var u := SetState(Announced(t, wish), FreshId(t, wish), Unknown).GetOr(Announced(t, wish));
            && |u.rows| == |t.rows| + 1 && u.rows[|t.rows|].clientId == FreshId(t, wish)
            && u.rows[k].clientId == t.rows[k].clientId && u.rows[k].orderId == t.rows[k].orderId
  {
  }

  /** After a lost answer the same order can be tried again, and then two requests are on their way. */
  lemma TwoInFlight(t: Tables, wish: Wish, again: Wish)
    requires Acceptable(wish) && FindOrder(t.rows, wish.order.orderId).Some?
    requires Find(t.rows, FreshId(t, wish)) == None && Find(t.rows, again.first) == None
    requires again == wish.(first := again.first) && again.first != FreshId(t, wish)
    ensures var s, es := Session(t, Floor(wish.order, [])), [LostTry(wish), LostTry(again)];
            var flights := After(s, es, 2).floor.flights;
            LegalRun(s, es, 2) && |flights| == 2 && flights[0].phase == InFlight && flights[1].phase == InFlight
  {
    var s, es := Session(t, Floor(wish.order, [])), [LostTry(wish), LostTry(again)];
    var i := FindOrder(t.rows, wish.order.orderId).value;
    LostTrySends(t, wish);
    var u := After(s, es, 1).t;
    assert After(s, es, 0) == s && LegalRun(s, es, 0);
    assert u == Survived(TrialOf(t, es[0]), 2);
    forall k: nat | k < |u.rows| ensures u.rows[k].clientId != again.first {
      LostTryRows(t, wish, if k < |t.rows| then k else i);
    }
    LostTryRows(t, wish, i);
    assert u.rows[i].orderId == Some(wish.order.orderId);
    LostTrySends(u, again);
    assert LegalRun(s, es, 1);
  }
}
