/** Which answer a cancelReplace gives, for every reply and whatever is seen of the two orders afterwards, in the
    statuses that the exchange reports. */
module CancelReplaceOutcomes {
  import opened Results
  import opened OrderJournal
  import opened JournalHistory
  import opened JournalRecords
  import opened CancelReplace

  // ---------- what is seen ----------

  /** The look shows that the old order has ended without being filled and that `o` is live or filled in its place. */
  predicate Shows(look: Look, o: OrderReply) {
    && look.Seen? && look.former.Some? && look.placed == Some(o)
    && look.former.value.status in {Canceled, Expired, ExpiredInMatch, Rejected}
    && o.status in {New, PartiallyFilled, Filled}
  }

  predicate ShowsNothing(look: Look) {
    look.Seen? && look.placed.Some? ==> !Shows(look, look.placed.value)
  }

  /** The k-th look is the first of n to show a replacement. */
  predicate FirstShown(looks: nat -> Look, n: nat, k: nat, o: OrderReply) {
    k < n && Shows(looks(k), o) && forall i: nat | i < k :: ShowsNothing(looks(i))
  }

  lemma ProvesIsShown(look: Look)
    ensures Proves(look) <==> !ShowsNothing(look)
    ensures Proves(look) ==> Shows(look, look.placed.value)
  {
  }

  lemma {:induction false} FirstProofIsShown(looks: nat -> Look, k: nat, n: nat)
    requires k <= n && forall i: nat | i < k :: ShowsNothing(looks(i))
    ensures match FirstProof(looks, k, n)
            case Some(j) => FirstShown(looks, n, j, looks(j).placed.value)
            case None => forall i: nat | i < n :: ShowsNothing(looks(i))
    decreases n - k
  {
    if k < n {
      ProvesIsShown(looks(k));
      if !Proves(looks(k)) {
        FirstProofIsShown(looks, k + 1, n);
      }
    }
  }

  lemma FirstShownIsUnique(looks: nat -> Look, n: nat, k: nat, o: OrderReply, l: nat, p: OrderReply)
    requires FirstShown(looks, n, k, o) && FirstShown(looks, n, l, p)
    ensures k == l && o == p
  {
    assert k < l ==> ShowsNothing(looks(k));
    assert l < k ==> ShowsNothing(looks(l));
  }

  // ---------- whether a request is sent ----------

  /** The old order is an unfilled new BUY of some quantity, and the new one keeps within the cap. */
  predicate Wanted(wish: Wish) {
    && wish.order.orderId > 0 && wish.order.side == Buy && wish.order.status == New && wish.order.executed == 0.0
    && wish.order.original > 0.0 && wish.target > 0.0 && wish.cap > 0.0 && wish.order.original * wish.target <= wish.cap
  }

  predicate Known(rows: seq<Intent>, id: ClientId) {
    exists i | 0 <= i < |rows| :: rows[i].clientId == id
  }

  predicate OnRecord(rows: seq<Intent>, orderId: int) {
    exists i | 0 <= i < |rows| :: rows[i].orderId == Some(orderId)
  }

  /** The second candidate is used only if the first is taken. */
  function ChosenId(rows: seq<Intent>, wish: Wish): ClientId {
    if Known(rows, wish.first) then wish.second else wish.first
  }

  lemma FindKnown(rows: seq<Intent>, id: ClientId)
    ensures Find(rows, id).Some? <==> Known(rows, id)
  {
    var r := FindBelow(rows, id, |rows|);
  }

  /** With an id that the journal does not hold yet, exactly one request leaves, for the old order's quantity at the new
      price and in its place, if the wish is acceptable and the old order is on record; otherwise none does, and
      nothing is written. */
  lemma SentExactly(t: Tables, wish: Wish, reply: PostReply, looks: nat -> Look, attempts: int)
    requires !Known(t.rows, ChosenId(t.rows, wish))
    ensures var trial, id := Replace(t, wish, reply, looks, attempts), ChosenId(t.rows, wish);
            if Wanted(wish) && OnRecord(t.rows, wish.order.orderId) then
              && trial.answer != Refused && |trial.history| >= 2 && trial.history[0] == t
              && trial.posts == [Post(id, wish.order.orderId, wish.order.original, wish.target, Some(Prepared), true,
                                      true)]
              && |trial.history[1].rows| == |t.rows| + 1 && trial.history[1] == t.(rows := trial.history[1].rows)
              && trial.history[1].rows[..|t.rows|] == t.rows
              && var intent := trial.history[1].rows[|t.rows|];
              && intent.clientId == id && intent.symbol == wish.symbol && intent.side == Buy && intent.state == Prepared
              && intent.quantity == wish.order.original && intent.price == wish.target
              && intent.kind == wish.order.kind && intent.parent == None && intent.orderId == None
            else trial == Trial([t], [], false, Refused)
  {
    FindKnown(t.rows, wish.first);
    FindKnown(t.rows, ChosenId(t.rows, wish));
    if Wanted(wish) && OnRecord(t.rows, wish.order.orderId) {
      var u := Prepare(t, NewIntent(wish, FreshId(t, wish))).value;
      assert u.rows[|t.rows|].clientId == FreshId(t, wish);
    }
  }

  // ---------- which answer is given ----------

  /** The answer reports both parts done, with both orders. */
  predicate BothDone(reply: PostReply) {
    && reply.Replied? && reply.cancel == Success && reply.placed == Success
    && reply.canceled.Some? && reply.created.Some?
  }

  /** The answer reports that the old order was not cancelled and the new one not tried. */
  predicate NeitherDone(reply: PostReply) {
    reply.Replied? && reply.cancel == Failure && reply.placed == NotAttempted
  }

  /** How often both orders are looked at. */
  function Looks(attempts: int): nat { if attempts >= 1 then attempts else 1 }

  /** The answer to a request that was sent. A replacement is returned exactly when the reply gives it, or when
      the reply settles nothing and one of the looks shows it, the first that shows any; nothing was replaced
      exactly when the reply says so; otherwise the answer is ambiguous, and then, and only then, trading is
      halted. */
  lemma AnswerExactly(t: Tables, wish: Wish, reply: PostReply, looks: nat -> Look, attempts: int)
    requires Replace(t, wish, reply, looks, attempts).answer != Refused
    ensures var trial := Replace(t, wish, reply, looks, attempts);
            && (trial.answer == NotReplaced <==> NeitherDone(reply))
            && (forall o :: trial.answer == Replacement(o) <==>
                  || (BothDone(reply) && reply.created == Some(o))
                  || (!BothDone(reply) && !NeitherDone(reply)
                      && exists k: nat :: FirstShown(looks, Looks(attempts), k, o)))
            && (trial.answer == Ambiguous
                <==> (!BothDone(reply) && !NeitherDone(reply)
                      && forall k: nat | k < Looks(attempts) :: ShowsNothing(looks(k))))
            && (trial.halted <==> trial.answer == Ambiguous)
  {
    var trial, n := Replace(t, wish, reply, looks, attempts), Looks(attempts);
    FirstProofIsShown(looks, 0, n);
    var first := FirstProof(looks, 0, n);
    if !BothDone(reply) && !NeitherDone(reply) {
      forall o ensures trial.answer == Replacement(o) <==> exists k: nat :: FirstShown(looks, n, k, o) {
        if first.Some? {
          forall k: nat | FirstShown(looks, n, k, o) ensures o == looks(first.value).placed.value {
            FirstShownIsUnique(looks, n, k, o, first.value, looks(first.value).placed.value);
          }
        } else {
          forall k: nat ensures !FirstShown(looks, n, k, o) {
            assert k < n ==> ShowsNothing(looks(k));
          }
        }
      }
      if first.Some? {
        assert !ShowsNothing(looks(first.value));
      }
    }
  }

  // ---------- what is on record afterwards ----------

  /** What is known of the old order where a replacement is returned: the reply's report of it, or that of the look. */
  predicate FormerSeen(reply: PostReply, looks: nat -> Look, n: nat, o: OrderReply, former: OrderReply) {
    if BothDone(reply) then reply.canceled == Some(former)
    else exists k: nat | k < n :: FirstShown(looks, n, k, o) && looks(k).former == Some(former)
  }

  /** The rows after the answer: with a replacement, the old row i and the new row n are as the exchange reports the
      two orders; with nothing replaced, the new row is failed; with an ambiguous answer it is unknown. */
  ghost predicate LeftBy(first: Tables, last: Tables, i: nat, n: nat, answer: Answer, reply: PostReply,
                         looks: nat -> Look, attempts: nat)
    requires i < n && |first.rows| == |last.rows| == n + 1
  {
    match answer
    case Replacement(o) =>
      && Reports(first.rows[n], last.rows[n], o)
      && exists former :: FormerSeen(reply, looks, attempts, o, former)
                          && Reports(first.rows[i], last.rows[i], former)
    case NotReplaced => last.rows[i] == first.rows[i] && last.rows[n] == first.rows[n].(state := Failed)
    case Ambiguous => last.rows[i] == first.rows[i] && last.rows[n] == first.rows[n].(state := Unknown)
    case Refused => false
  }

  /** After a request under a fresh id, the last durable state differs from the journal with the new intent in
      two rows at most, the old order's and the new one's, and these are as the answer says. */
  lemma RecordedExactly(t: Tables, wish: Wish, reply: PostReply, looks: nat -> Look, attempts: int)
    requires UniqueIds(t.rows) && !Known(t.rows, ChosenId(t.rows, wish))
    requires Replace(t, wish, reply, looks, attempts).answer != Refused
    ensures var trial := Replace(t, wish, reply, looks, attempts);
            && |trial.history| >= 2 && FindOrder(t.rows, wish.order.orderId).Some?
            && var first, last := trial.history[1], trial.history[|trial.history| - 1];
            var i, n := FindOrder(t.rows, wish.order.orderId).value, |t.rows|;
            && |first.rows| == |last.rows| == n + 1 && first.rows[..n] == t.rows && last == first.(rows := last.rows)
            && (forall k | 0 <= k < n && k != i :: last.rows[k] == t.rows[k])
            && LeftBy(first, last, i, n, trial.answer, reply, looks, Looks(attempts))
  {
    SentExactly(t, wish, reply, looks, attempts);
    var trial, n := Replace(t, wish, reply, looks, attempts), |t.rows|;
    var u, i := trial.history[1], FindOrder(t.rows, wish.order.orderId).value;
    FreshKeepsIds(t, u);
    assert u.rows[i] == t.rows[i];
    TrialIs(t, wish, reply, looks, attempts, u);
    ResolvedRows(u, i, n, reply, looks, Looks(attempts));
  }

  lemma TrialIs(t: Tables, wish: Wish, reply: PostReply, looks: nat -> Look, attempts: int, u: Tables)
    requires Acceptable(wish) && FindOrder(t.rows, wish.order.orderId).Some?
    requires Prepare(t, NewIntent(wish, FreshId(t, wish))) == Some(u)
    ensures var trial, former := Replace(t, wish, reply, looks, attempts),
                                 t.rows[FindOrder(t.rows, wish.order.orderId).value].clientId;
            var (states, _, answer) := Resolve(u, former, FreshId(t, wish), reply, looks, Looks(attempts));
            trial.history == [t] + states && trial.answer == answer
  {
  }

  lemma ResolvedRows(u: Tables, i: nat, n: nat, reply: PostReply, looks: nat -> Look, attempts: nat)
    requires UniqueIds(u.rows) && i < n && |u.rows| == n + 1
    ensures var (states, _, answer) := Resolve(u, u.rows[i].clientId, u.rows[n].clientId, reply, looks, attempts);
            var last := states[|states| - 1];
            && |last.rows| == n + 1 && last == u.(rows := last.rows)
            && (forall k | 0 <= k < n && k != i :: last.rows[k] == u.rows[k])
            && LeftBy(u, last, i, n, answer, reply, looks, attempts)
  {
    FindUnique(u.rows, n, n + 1);
    if BothDone(reply) || (!NeitherDone(reply) && FirstProof(looks, 0, attempts).Some?) {
      var c := FormerOf(reply, looks, attempts);
      var o := if BothDone(reply) then reply.created.value
               else looks(FirstProof(looks, 0, attempts).value).placed.value;
      BothReported(u, i, n, c, o);
      assert FormerSeen(reply, looks, attempts, o, c);
    }
  }

  lemma FormerOf(reply: PostReply, looks: nat -> Look, n: nat) returns (former: OrderReply)
    requires !NeitherDone(reply) && (BothDone(reply) || FirstProof(looks, 0, n).Some?)
    ensures BothDone(reply) ==> reply.canceled == Some(former)
    ensures !BothDone(reply) ==>
              var k := FirstProof(looks, 0, n).value;
              && looks(k).former == Some(former) && FormerSeen(reply, looks, n, looks(k).placed.value, former)
  {
    if BothDone(reply) {
      former := reply.canceled.value;
    } else {
      FirstProofIsShown(looks, 0, n);
      var k := FirstProof(looks, 0, n).value;
      former := looks(k).former.value;
    }
  }

  lemma FreshKeepsIds(t: Tables, u: Tables)
    requires UniqueIds(t.rows) && |u.rows| == |t.rows| + 1 && u.rows[..|t.rows|] == t.rows
    requires !Known(t.rows, u.rows[|t.rows|].clientId)
    ensures UniqueIds(u.rows)
  {
    forall i, j | 0 <= i < j < |u.rows| ensures u.rows[i].clientId != u.rows[j].clientId {
      assert u.rows[i] == t.rows[i];
      assert j < |t.rows| ==> u.rows[j] == t.rows[j];
    }
  }

  lemma BothReported(u: Tables, i: nat, n: nat, canceled: OrderReply, created: OrderReply)
    requires UniqueIds(u.rows) && i < n < |u.rows|
    ensures var both := RecordBoth(u, u.rows[i].clientId, canceled, u.rows[n].clientId, created);
            && |both| == 3 && |both[2].rows| == |u.rows| && both[2] == u.(rows := both[2].rows)
            && (forall k | 0 <= k < |u.rows| && k != i && k != n :: both[2].rows[k] == u.rows[k])
            && Reports(u.rows[i], both[2].rows[i], canceled) && Reports(u.rows[n], both[2].rows[n], created)
  {
    FindUnique(u.rows, i, |u.rows|);
    FindUnique(u.rows, n, |u.rows|);
    var v := RecordOrder(u, u.rows[i].clientId, canceled).value;
    UniqueKept(u.rows, v.rows);
    FindUnique(v.rows, n, |v.rows|);
  }
}
