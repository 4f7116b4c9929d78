/** Replacing an unfilled BUY by one cancelReplace request whose answer may be lost. The intent is journalled
    before the only request, and every answer that is not a complete success is settled by looking at both
    orders a bounded number of times. */
module CancelReplace {
  import opened Results
  import opened OrderJournal

  /** The BUY as the caller last saw it, the wanted price, the notional cap and two candidate client ids. */
  datatype Wish = Wish(symbol: string, order: OrderReply, target: real, cap: real, first: ClientId, second: ClientId)

  datatype Part = Success | Failure | NotAttempted | OtherPart

  datatype PostReply = NoReply
      | Replied(cancel: Part, placed: Part, canceled: Option<OrderReply>, created: Option<OrderReply>)

  /** One look at both orders; it may fail. */
  datatype Look = Faulty | Seen(former: Option<OrderReply>, placed: Option<OrderReply>)

  /** The request that was sent, and the state the journal had for its intent at that moment. STOP_ON_FAILURE
      asks not to place the new order unless the old one was cancelled; ONLY_NEW asks to cancel it only
      while it is new. */
  datatype Post = Post(clientId: ClientId, cancels: int, quantity: real, price: real, journalled: Option<IntentState>,
                       stopOnFailure: bool, onlyNew: bool)

  datatype Answer = Refused | Replacement(order: OrderReply) | NotReplaced | Ambiguous

  /** The journal after each transaction, the requests sent, whether trading was halted, and the answer. */
  datatype Trial = Trial(history: seq<Tables>, posts: seq<Post>, halted: bool, answer: Answer)

  predicate Acceptable(wish: Wish) {
    && wish.order.orderId > 0 && wish.order.side == Buy && wish.order.status == New && wish.order.executed == 0.0
    && wish.order.original > 0.0 && wish.target > 0.0 && wish.cap > 0.0
    && Notional(wish.order.original, wish.target) <= wish.cap
  }

  function FindOrder(rows: seq<Intent>, orderId: int): (r: Option<nat>)
    ensures r.Some? ==> r.value < |rows| && rows[r.value].orderId == Some(orderId)
    ensures r == None ==> forall i | 0 <= i < |rows| :: rows[i].orderId != Some(orderId)
  {
    if rows == [] then None
    else
      var earlier := FindOrder(rows[..|rows| - 1], orderId);
      if earlier.Some? then earlier
      else if rows[|rows| - 1].orderId == Some(orderId) then Some(|rows| - 1) else None
  }

  function FreshId(t: Tables, wish: Wish): ClientId {
    if Find(t.rows, wish.first).Some? then wish.second else wish.first
  }

  function NewIntent(wish: Wish, id: ClientId): Intent {
    Intent(id, wish.symbol, Buy, "adaptive-reanchor", wish.order.kind, wish.order.original, wish.target, None, "",
           Prepared,
           None, None, 0.0, 0.0, None, [], None)
  }

  predicate WasPlaced(o: OrderReply) { o.status == New || o.status == PartiallyFilled || o.status == Filled }

  predicate Proves(look: Look) {
    && look.Seen? && look.former.Some? && look.placed.Some?
    && IsTerminal(look.former.value.status) && WasPlaced(look.placed.value)
  }

  function FirstProof(looks: nat -> Look, k: nat, attempts: nat): (r: Option<nat>)
    requires k <= attempts
    ensures r.Some? ==> k <= r.value < attempts && Proves(looks(r.value))
    ensures r == None ==> forall i: nat | k <= i < attempts :: !Proves(looks(i))
    decreases attempts - k
  {
    if k == attempts then None else if Proves(looks(k)) then Some(k) else FirstProof(looks, k + 1, attempts)
  }

  // Both orders are recorded one after the other.
  function RecordBoth(t: Tables, former: ClientId, canceled: OrderReply, id: ClientId,
                      created: OrderReply): seq<Tables>
  {
    var u := RecordOrder(t, former, canceled).GetOr(t);
    [t, u, RecordOrder(u, id, created).GetOr(u)]
  }

  function Attempts(n: int): nat { if n < 1 then 1 else n }

  function Reconcile(t: Tables, former: ClientId, id: ClientId, looks: nat -> Look,
                     attempts: nat): (seq<Tables>, bool, Answer)
  {
    match FirstProof(looks, 0, attempts)
    case Some(k) => (RecordBoth(t, former, looks(k).former.value, id, looks(k).placed.value), false,
                     Replacement(looks(k).placed.value))
    case None => ([t, SetState(t, id, Unknown).GetOr(t)], true, Ambiguous)
  }

  predicate Complete(reply: PostReply) {
    reply.Replied? && reply.cancel == Success && reply.placed == Success && reply.canceled.Some? && reply.created.Some?
  }

  /** What happens after the intent is journalled and the request sent. */
  function Resolve(t: Tables, former: ClientId, id: ClientId, reply: PostReply, looks: nat -> Look, attempts: nat)
    : (r: (seq<Tables>, bool, Answer))
    ensures 2 <= |r.0| <= 3 && r.0[0] == t
  {
    if reply.Replied? && reply.cancel == Failure && reply.placed == NotAttempted then
      ([t, SetState(t, id, Failed).GetOr(t)], false, NotReplaced)
    else if Complete(reply) then
      (RecordBoth(t, former, reply.canceled.value, id, reply.created.value), false, Replacement(reply.created.value))
    else Reconcile(t, former, id, looks, attempts)
  }

  function Replace(t: Tables, wish: Wish, reply: PostReply, looks: nat -> Look, attempts: int): Trial {
    if !Acceptable(wish) || FindOrder(t.rows, wish.order.orderId) == None then Trial([t], [], false, Refused)
    else
      var former, id := t.rows[FindOrder(t.rows, wish.order.orderId).value].clientId, FreshId(t, wish);
      match Prepare(t, NewIntent(wish, id))
      case None => Trial([t], [], false, Refused)
      case Some(u) =>
        var (rest, halted, answer) := Resolve(u, former, id, reply, looks, Attempts(attempts));
        Trial([t] + rest, [PostOf(u, wish, id)], halted, answer)
  }

  function PostOf(t: Tables, wish: Wish, id: ClientId): Post {
    var row := Find(t.rows, id);
    Post(id, wish.order.orderId, wish.order.original, wish.target,
         if row.Some? then Some(t.rows[row.value].state) else None, true, true)
  }

  // ---------- as a program ----------

  /** What the caller's surroundings observe: requests sent, a halt, and (for the proof) every durable state. */
  class Surroundings {
    var posts: seq<Post>
    var halted: bool
    ghost var history: seq<Tables>

    constructor (t: Tables)
      ensures posts == [] && !halted && history == [t]
    {
      posts, halted, history := [], false, [t];
    }
  }

  method AtomicCancelReplaceBuy(journal: Journal, around: Surroundings, wish: Wish, reply: PostReply,
                                looks: nat -> Look,
                                attempts: int) returns (answer: Answer)
    requires around.posts == [] && !around.halted && around.history == [journal.Contents()]
    modifies journal, around
    ensures Trial(around.history, around.posts, around.halted, answer)
            == Replace(old(journal.Contents()), wish, reply, looks, attempts)
    ensures around.history != [] && journal.Contents() == around.history[|around.history| - 1]
  {
    ghost var t := journal.Contents();
    var sent, former, id := PrepareAndPost(journal, around, wish);
    if !sent {
      return Refused;
    }
    ghost var u := journal.Contents();
    answer := SettleReply(journal, around, former, id, reply, looks, Attempts(attempts));
    assert around.history == [t] + Resolve(u, former, id, reply, looks, Attempts(attempts)).0;
  }

  /** The journal holds the intent before the request leaves. */
  method PrepareAndPost(journal: Journal, around: Surroundings, wish: Wish)
      returns (sent: bool, former: ClientId, id: ClientId)
    requires around.posts == [] && around.history == [journal.Contents()]
    modifies journal, around`posts, around`history
    ensures var t := old(journal.Contents());
            var original := FindOrder(t.rows, wish.order.orderId);
            var next := Prepare(t, NewIntent(wish, FreshId(t, wish)));
            && sent == (Acceptable(wish) && original.Some? && next.Some?)
            && if sent then
                 && former == t.rows[original.value].clientId && id == FreshId(t, wish)
                 && journal.Contents() == next.value
                 && around.posts == [PostOf(next.value, wish, id)] && around.history == [t, next.value]
               else journal.Contents() == t && around.posts == [] && around.history == [t]
  {
    sent, former, id := false, "", wish.first;
    if !Acceptable(wish) {
      return;
    }
    var original := FindOrder(journal.rows, wish.order.orderId);
    if original == None {
      return;
    }
    former := journal.rows[original.value].clientId;
    if Find(journal.rows, id).Some? {
      id := wish.second;
    }
    sent := journal.PrepareIntent(NewIntent(wish, id));
    if sent {
      around.history := around.history + [journal.Contents()];
      var row := Find(journal.rows, id);
      around.posts := [Post(id, wish.order.orderId, wish.order.original, wish.target,
                            if row.Some? then Some(journal.rows[row.value].state) else None, true, true)];
    }
  }

  method SettleReply(journal: Journal, around: Surroundings, former: ClientId, id: ClientId, reply: PostReply,
                     looks: nat -> Look,
                     attempts: nat) returns (answer: Answer)
    requires around.history != [] && around.history[|around.history| - 1] == journal.Contents()
    modifies journal, around`history, around`halted
    ensures var (states, halted, settled) := Resolve(old(journal.Contents()), former, id, reply, looks, attempts);
            && around.history == old(around.history) + states[1..] && answer == settled
            && around.halted == (old(around.halted) || halted)
    ensures around.history != [] && around.history[|around.history| - 1] == journal.Contents()
  {
    if reply.Replied? && reply.cancel == Failure && reply.placed == NotAttempted {
      var _ := journal.ChangeState(id, Failed);
      around.history := around.history + [journal.Contents()];
      return NotReplaced;
    }
    if Complete(reply) {
      RecordOrders(journal, around, former, reply.canceled.value, id, reply.created.value);
      return Replacement(reply.created.value);
    }
    answer := ReconcileBoth(journal, around, former, id, looks, attempts);
  }

  method RecordOrders(journal: Journal, around: Surroundings, former: ClientId, canceled: OrderReply, id: ClientId,
                      created: OrderReply)
    requires around.history != [] && around.history[|around.history| - 1] == journal.Contents()
    modifies journal, around`history
    ensures around.history
            == old(around.history) + RecordBoth(old(journal.Contents()), former, canceled, id, created)[1..]
    ensures around.history[|around.history| - 1] == journal.Contents()
  {
    var _ := journal.RecordExchangeOrder(former, canceled);
    around.history := around.history + [journal.Contents()];
    var _ := journal.RecordExchangeOrder(id, created);
    around.history := around.history + [journal.Contents()];
  }

  method ReconcileBoth(journal: Journal, around: Surroundings, former: ClientId, id: ClientId, looks: nat -> Look,
                       attempts: nat)
      returns (answer: Answer)
    requires around.history != [] && around.history[|around.history| - 1] == journal.Contents()
    modifies journal, around`history, around`halted
    ensures var (states, halted, settled) := Reconcile(old(journal.Contents()), former, id, looks, attempts);
            && around.history == old(around.history) + states[1..] && answer == settled
            && around.halted == (old(around.halted) || halted)
    ensures around.history[|around.history| - 1] == journal.Contents()
  {
    var attempt := 0;
    while attempt < attempts
      invariant 0 <= attempt <= attempts && FirstProof(looks, attempt, attempts) == FirstProof(looks, 0, attempts)
    {
      var look := looks(attempt);
      if Proves(look) {
        RecordOrders(journal, around, former, look.former.value, id, look.placed.value);
        return Replacement(look.placed.value);
      }
      attempt := attempt + 1;
    }
    var _ := journal.ChangeState(id, Unknown);
    around.history := around.history + [journal.Contents()];
    around.halted := true;
    return Ambiguous;
  }
}
