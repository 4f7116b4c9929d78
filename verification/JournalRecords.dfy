/** What each transaction of the journal writes, and exactly when it is accepted, in the fields of the rows: the
    protection in row i, its BUY in row j. */
module JournalRecords {
  import opened Results
  import opened OrderJournal
  import opened JournalHistory

  // ---------- which row is meant ----------

  /** The protection of a BUY is the latest SELL intent under its id. */
  lemma {:induction false} LatestSell(rows: seq<Intent>, parent: ClientId, n: nat)
    requires n <= |rows|
    ensures match LatestBelow(rows, parent, n)
            case Some(i) => && rows[i].side == Sell && rows[i].parent == Some(parent)
                            && forall k | i < k < n :: rows[k].side != Sell || rows[k].parent != Some(parent)
            case None => forall k | 0 <= k < n :: rows[k].side != Sell || rows[k].parent != Some(parent)
  {
    if n > 0 && !Protects(rows[n - 1], parent) {
      LatestSell(rows, parent, n - 1);
    }
  }

  /** Exits of one BUY add up; those of another do not count. */
  lemma {:induction false} ExitsAddUp(a: seq<PartialExit>, b: seq<PartialExit>, parent: ClientId)
    ensures ExitSum(a + b, parent) == ExitSum(a, parent) + ExitSum(b, parent)
    ensures (forall n | 0 <= n < |b| :: b[n].parent != parent) ==> ExitSum(b, parent) == 0.0
    ensures |b| == 1 && b[0].parent == parent ==> ExitSum(b, parent) == b[0].quantity
  {
    if b == [] {
      assert a + b == a;
    } else {
      assert (a + b)[..|a + b| - 1] == a + b[..|b| - 1];
      ExitsAddUp(a, b[..|b| - 1], parent);
      assert |b| == 1 ==> b[..|b| - 1] == [];
    }
  }

  // ---------- new intents ----------

  /** An intent under a new id is appended; under a known one it is accepted, without a change, exactly when it asks for
      the same and the row has no evidence of its execution yet. */
  lemma IntentIsPrepared(t: Tables, i: nat, intent: Intent)
    requires UniqueIds(t.rows)
    ensures (forall k | 0 <= k < |t.rows| :: t.rows[k].clientId != intent.clientId)
            ==> Prepare(t, intent) == Some(t.(rows := t.rows + [intent]))
    ensures i < |t.rows| && t.rows[i].clientId == intent.clientId ==>
              var row := t.rows[i];
              Prepare(t, intent)
              == if row.(state := intent.state, orderId := intent.orderId, listId := intent.listId,
                         executed := intent.executed, quote := intent.quote, settlement := intent.settlement,
                         verifiedLegs := intent.verifiedLegs, exactExit := intent.exactExit) == intent
                    && row.settlement == None && row.verifiedLegs == [] && row.exactExit == None
                 then Some(t) else None
  {
    if i < |t.rows| && t.rows[i].clientId == intent.clientId {
      FindUnique(t.rows, i, |t.rows|);
    }
    var r := FindBelow(t.rows, intent.clientId, |t.rows|);
  }

  // ---------- reports of the exchange ----------

  /** The row as the exchange's report leaves it. */
  predicate Reports(before: Intent, after: Intent, o: OrderReply) {
    && after == before.(state := after.state, orderId := Some(o.orderId), executed := o.executed, quote := o.quote)
    && after.state == match o.status
                      case New => Submitted
                      case PartiallyFilled => PartlyExecuted
                      case Filled => Executed
                      case OtherStatus => Unknown
                      case _ => if o.executed > 0.0 then ProtectionPending else Ended(o.status)
  }

  lemma OrderIsRecorded(t: Tables, i: nat, o: OrderReply)
    requires UniqueIds(t.rows) && i < |t.rows|
    ensures RecordOrder(t, t.rows[i].clientId, o).Some?
    ensures var u := RecordOrder(t, t.rows[i].clientId, o).value;
            |u.rows| == |t.rows| && u == t.(rows := t.rows[i := u.rows[i]]) && Reports(t.rows[i], u.rows[i], o)
  {
    FindUnique(t.rows, i, |t.rows|);
  }

  lemma ListIsRecorded(t: Tables, i: nat, done: bool, listId: Option<int>)
    requires UniqueIds(t.rows) && i < |t.rows|
    ensures RecordList(t, t.rows[i].clientId, done, listId)
            == Some(t.(rows := t.rows[i := t.rows[i].(state := if done then Executed else Submitted,
                                                      listId := listId)]))
  {
    FindUnique(t.rows, i, |t.rows|);
  }

  /** Settlement evidence is written on an open BUY whose order id, quantities and quote it repeats, once. */
  lemma SettlementIsRecorded(t: Tables, i: nat, s: SettledBuy)
    requires UniqueIds(t.rows) && i < |t.rows|
    ensures var row := t.rows[i];
            RecordSettlement(t, row.clientId, s)
            == if row.state != Closed && row.side == Buy && row.orderId == Some(s.orderId)
                  && row.executed == s.gross && row.quote == s.quote && row.quantity == s.original
                  && (row.settlement == None || row.settlement == Some(s))
               then Some(t.(rows := t.rows[i := row.(settlement := Some(s))])) else None
  {
    FindUnique(t.rows, i, |t.rows|);
  }

  // ---------- legs and protection ----------

  function LegOf(p: Intent, o: OrderReply): Leg { Leg(p.clientId, o.clientId, o.kind) }

  function RefOf(o: OrderReply): LegRef { LegRef(o.orderId, o.clientId, o.kind) }

  /** The order is not on record as another leg. */
  predicate MayBeLeg(t: Tables, p: Intent, o: OrderReply) {
    (p.symbol, o.orderId) in t.legs ==> t.legs[(p.symbol, o.orderId)] == LegOf(p, o)
  }

  predicate MayBePair(t: Tables, p: Intent, a: OrderReply, b: OrderReply) {
    a.orderId != b.orderId && MayBeLeg(t, p, a) && MayBeLeg(t, p, b)
  }

  /** The tables with the two orders on record as the legs of the protection in row i. */
  function WithLegs(t: Tables, i: nat, a: OrderReply, b: OrderReply): Tables
    requires i < |t.rows|
  {
    var p := t.rows[i];
    t.(legs := t.legs[(p.symbol, a.orderId) := LegOf(p, a)][(p.symbol, b.orderId) := LegOf(p, b)],
       rows := t.rows[i := p.(verifiedLegs := [RefOf(a), RefOf(b)])])
  }

  lemma LegsAreStored(t: Tables, i: nat, a: OrderReply, b: OrderReply)
    requires UniqueIds(t.rows) && i < |t.rows|
    ensures RecordVerifiedLegs(t, t.rows[i].clientId, [a, b])
            == if MayBePair(t, t.rows[i], a, b) then Some(WithLegs(t, i, a, b)) else None
  {
    FindUnique(t.rows, i, |t.rows|);
    var refs := Refs([a, b]);
    assert refs == [RefOf(a), RefOf(b)];
    if a.orderId != b.orderId {
      TwoStored(t.legs, t.rows[i], RefOf(a), RefOf(b));
    }
  }

  lemma {:induction false} TwoStored(known: map<OrderKey, Leg>, p: Intent, a: LegRef, b: LegRef)
    requires a.orderId != b.orderId
    ensures var k, l := (p.symbol, a.orderId), (p.symbol, b.orderId);
            var x, y := Leg(p.clientId, a.clientId, a.kind), Leg(p.clientId, b.clientId, b.kind);
            StoreLegs(known, p, [a, b])
            == if (k in known ==> known[k] == x) && (l in known ==> known[l] == y)
               then Some(known[k := x][l := y]) else None
  {
    assert [a, b][1..] == [b] && [b][1..] == [];
    var k, l := (p.symbol, a.orderId), (p.symbol, b.orderId);
    assert k != l;
    assert StoreLegs(known[k := Leg(p.clientId, a.clientId, a.kind)], p, [b])
           == if l in known && known[l] != Leg(p.clientId, b.clientId, b.kind) then None
              else StoreLegs(known[k := Leg(p.clientId, a.clientId, a.kind)]
                                  [l := Leg(p.clientId, b.clientId, b.kind)], p, []);
  }

  /** A pair protects its own BUY: legs, list id and both states are written together, or nothing is. */
  lemma PairIsProtected(t: Tables, i: nat, j: nat, a: OrderReply, b: OrderReply, listId: int)
    requires UniqueIds(t.rows) && i < |t.rows| && j < |t.rows| && i != j
    ensures var p, q := t.rows[i], t.rows[j];
            MarkVerifiedProtected(t, q.clientId, p.clientId, [a, b], listId)
            == if p.parent == Some(q.clientId) && MayBePair(t, p, a, b)
               then Some(WithLegs(t, i, a, b).(rows :=
                           t.rows[i := p.(verifiedLegs := [RefOf(a), RefOf(b)], state := Protected,
                                          listId := Some(listId))]
                                 [j := q.(state := Protected)]))
               else None
  {
    var p, q := t.rows[i], t.rows[j];
    FindUnique(t.rows, i, |t.rows|);
    LegsAreStored(t, i, a, b);
    if p.parent == Some(q.clientId) && MayBePair(t, p, a, b) {
      var u := WithLegs(t, i, a, b);
      var v := u.(rows := u.rows[i := u.rows[i].(state := Protected, listId := Some(listId))]);
      UniqueKept(t.rows, v.rows);
      StateSet(v, j, Protected);
      assert v.rows == t.rows[i := p.(verifiedLegs := [RefOf(a), RefOf(b)], state := Protected,
                                      listId := Some(listId))];
    }
  }

  lemma SingleIsProtected(t: Tables, i: nat, j: nat, orderId: int)
    requires UniqueIds(t.rows) && i < |t.rows| && j < |t.rows| && i != j
    ensures var p, q := t.rows[i], t.rows[j];
            MarkProtected(t, q.clientId, p.clientId, orderId)
            == if p.parent == Some(q.clientId)
               then Some(t.(rows := t.rows[i := p.(state := Protected, orderId := Some(orderId))]
                                          [j := q.(state := Protected)]))
               else None
  {
    var p, q := t.rows[i], t.rows[j];
    FindUnique(t.rows, i, |t.rows|);
    var v := t.(rows := t.rows[i := p.(state := Protected, orderId := Some(orderId))]);
    UniqueKept(t.rows, v.rows);
    StateSet(v, j, Protected);
  }

  // ---------- exits ----------

  predicate StopKind(kind: Kind) {
    kind == StopLoss || kind == StopLossLimit || (kind.OtherKind? && kind.stop)
  }

  /** The order is on record as a leg of this protection, of the kind that the reason names. */
  predicate LegFor(t: Tables, p: Intent, orderId: int, reason: ExitReason) {
    && (p.symbol, orderId) in t.legs && t.legs[(p.symbol, orderId)].protection == p.clientId
    && (StopKind(t.legs[(p.symbol, orderId)].kind) <==> reason == StopOut)
  }

  predicate OneExitPerOrder(exits: seq<PartialExit>) {
    forall m, n | 0 <= m < n < |exits| :: exits[m].symbol != exits[n].symbol || exits[m].orderId != exits[n].orderId
  }

  lemma {:induction false} TheExit(exits: seq<PartialExit>, k: nat)
    requires OneExitPerOrder(exits) && k < |exits|
    ensures FindExit(exits, exits[k].symbol, exits[k].orderId) == Some(exits[k])
  {
    if k < |exits| - 1 {
      TheExit(exits[..|exits| - 1], k);
    }
  }

  lemma {:induction false} ExitKnown(exits: seq<PartialExit>, exit: PartialExit)
    requires OneExitPerOrder(exits)
    ensures FindExit(exits, exit.symbol, exit.orderId).Some?
            <==> exists e :: e in exits && e.symbol == exit.symbol && e.orderId == exit.orderId
    ensures FindExit(exits, exit.symbol, exit.orderId) == Some(exit) <==> exit in exits
  {
    forall e | e in exits && e.symbol == exit.symbol && e.orderId == exit.orderId
      ensures FindExit(exits, exit.symbol, exit.orderId) == Some(e)
    {
      var k :| 0 <= k < |exits| && exits[k] == e;
      TheExit(exits, k);
    }
  }

  /** A partial exit is recorded for a positive quantity of an order that has ended and is a leg of the protection,
      unless that order is on record with another exit: the protection fails, its BUY waits for a new one, and the exit
      is there once. */
  lemma ExitIsRecorded(t: Tables, i: nat, j: nat, orderId: int, reason: ExitReason, quantity: real, status: Status)
    requires UniqueIds(t.rows) && OneExitPerOrder(t.exits) && i < |t.rows| && j < |t.rows| && i != j
    requires t.rows[i].parent == Some(t.rows[j].clientId)
    ensures var p, q := t.rows[i], t.rows[j];
            var exit := PartialExit(p.symbol, orderId, p.clientId, q.clientId, reason, quantity, status);
            RecordPartialExit(t, p.clientId, orderId, reason, quantity, status)
            == if quantity > 0.0 && status in {Canceled, Expired, ExpiredInMatch, Rejected}
                  && LegFor(t, p, orderId, reason)
                  && (exit in t.exits || forall e | e in t.exits :: e.symbol != p.symbol || e.orderId != orderId)
               then Some(t.(rows := t.rows[i := p.(state := Failed)][j := q.(state := ProtectionPending)],
                            exits := if exit in t.exits then t.exits else t.exits + [exit]))
               else None
  {
    var p, q := t.rows[i], t.rows[j];
    FindUnique(t.rows, i, |t.rows|);
    ExitKnown(t.exits, PartialExit(p.symbol, orderId, p.clientId, q.clientId, reason, quantity, status));
    StateSet(t, i, Failed);
    var v := t.(rows := t.rows[i := p.(state := Failed)]);
    UniqueKept(t.rows, v.rows);
    StateSet(v, j, ProtectionPending);
  }

  /** What the BUY brought in: its settlement's net quantity, or else what was executed. */
  function Inventory(q: Intent): real {
    match q.settlement
    case Some(s) => s.net
    case None => q.executed
  }

  /** The settlement on record is that of this order. */
  predicate SettlementFits(q: Intent) {
    q.settlement.Some? ==>
      var s := q.settlement.value;
      q.side == Buy && q.orderId == Some(s.orderId) && q.executed == s.gross && q.quote == s.quote
      && q.quantity == s.original
  }

  /** The order sells, completely filled, exactly what the BUY brought in less its recorded exits, as the leg on record
      of a protection that was placed for exactly that. */
  predicate SellsTheRest(t: Tables, p: Intent, q: Intent, exit: OrderReply) {
    var rest := Inventory(q) - ExitSum(t.exits, q.clientId);
    && p.side == Sell && q.side == Buy && p.symbol == q.symbol == exit.symbol && p.parent == Some(q.clientId)
    && SettlementFits(q) && p.listId.Some? && p.listId.value >= 0 && exit.listId == p.listId
    && exit.side == Sell && exit.status == Filled && exit.orderId >= 0 && exit.clientId != ""
    && rest > 0.0 && p.quantity == rest && exit.original == rest && exit.executed == rest
    && (p.symbol, exit.orderId) in t.legs && t.legs[(p.symbol, exit.orderId)] == LegOf(p, exit)
  }

  /** A lifecycle is closed exactly on such an order, for the reason of its kind, unless it is closed already on another
      order or for another reason. */
  lemma CloseIsRecorded(t: Tables, i: nat, j: nat, reason: ExitReason, exit: OrderReply)
    requires UniqueIds(t.rows) && i < |t.rows| && j < |t.rows| && i != j
    requires t.rows[i].parent == Some(t.rows[j].clientId)
    ensures var p, q := t.rows[i], t.rows[j];
            var id, closing := p.clientId, Some((exit.orderId, reason));
            MarkExactClosed(t, id, exit.orderId, reason, exit)
            == if SellsTheRest(t, p, q, exit) && (StopKind(exit.kind) <==> reason == StopOut)
                  && (id in t.closures ==>
                        t.closures[id].exitOrderId == exit.orderId && t.closures[id].reason == reason)
               then Some(t.(rows := t.rows[i := p.(state := Closed, exactExit := closing)]
                                          [j := q.(state := Closed, exactExit := closing)],
                            closures := if id in t.closures then t.closures
                                        else t.closures[id := Closure(p.symbol, q.clientId, exit.orderId, reason)]))
               else None
  {
    FindUnique(t.rows, i, |t.rows|);
    FindUnique(t.rows, j, |t.rows|);
  }
}
