/** The durable order journal: intents in order of creation, verified protection legs, terminal
    partial exits and lifecycle closures. Every change is one transaction that either succeeds as a
    whole or leaves all tables as they were; each is specified by a function on `Tables`. */
module OrderJournal {
  import opened Results

  type ClientId = string

  datatype Side = Buy | Sell

  function Notional(quantity: real, price: real): real { quantity * price }

  datatype Kind = Limit | LimitMaker | StopLoss | StopLossLimit | Oco | Otoco | OtherKind(stop: bool)

  predicate IsStop(kind: Kind) {
    kind == StopLoss || kind == StopLossLimit || (kind.OtherKind? && kind.stop)
  }

  datatype Status = New | PartiallyFilled | Filled | Canceled | Expired | ExpiredInMatch | Rejected | OtherStatus

  /** Ended on the exchange other than by a complete fill. */
  predicate IsTerminal(status: Status) {
    status == Canceled || status == Expired || status == ExpiredInMatch || status == Rejected
  }

  datatype IntentState =
    | Prepared | Unknown | Submitted | PartlyExecuted | Executed | ProtectionPending | Protected
    | Failed | Closed | Ended(status: Status)

  datatype ExitReason = TakeProfit | StopOut

  datatype LegRef = LegRef(orderId: int, clientId: ClientId, kind: Kind)

  /** Settlement evidence of a BUY, as settling it from its fills has verified it; the fills themselves are opaque. */
  datatype SettledBuy = SettledBuy(orderId: int, original: real, gross: real, net: real, quote: real, fills: string)

  datatype Intent = Intent(
    clientId: ClientId, symbol: string, side: Side, purpose: string, kind: Kind, quantity: real, price: real,
    parent: Option<ClientId>, tag: string, state: IntentState, orderId: Option<int>, listId: Option<int>,
    executed: real, quote: real, settlement: Option<SettledBuy>, verifiedLegs: seq<LegRef>,
        exactExit: Option<(int, ExitReason)>)

  /** An order as the exchange reports it. */
  datatype OrderReply = OrderReply(
    symbol: string, orderId: int, clientId: ClientId, listId: Option<int>, side: Side, kind: Kind, status: Status,
    original: real, executed: real, quote: real)

  type OrderKey = (string, int)

  datatype Leg = Leg(protection: ClientId, clientId: ClientId, kind: Kind)

  datatype Closure = Closure(symbol: string, parent: ClientId, exitOrderId: int, reason: ExitReason)

  datatype PartialExit = PartialExit(
    symbol: string, orderId: int, protection: ClientId, parent: ClientId, reason: ExitReason, quantity: real,
        status: Status)

  datatype Tables = Tables(
    rows: seq<Intent>, legs: map<OrderKey, Leg>, closures: map<ClientId, Closure>, exits: seq<PartialExit>)

  // ---------- reading ----------

  function FindBelow(rows: seq<Intent>, id: ClientId, n: nat): (r: Option<nat>)
    requires n <= |rows|
    ensures r.Some? ==> r.value < n && rows[r.value].clientId == id
    ensures r == None ==> forall i | 0 <= i < n :: rows[i].clientId != id
  {
    if n == 0 then None else if rows[n - 1].clientId == id then Some(n - 1) else FindBelow(rows, id, n - 1)
  }

  function Find(rows: seq<Intent>, id: ClientId): (r: Option<nat>)
    ensures r.Some? ==> r.value < |rows| && rows[r.value].clientId == id
  {
    FindBelow(rows, id, |rows|)
  }

  predicate Protects(intent: Intent, parent: ClientId) {
    intent.side == Sell && intent.parent == Some(parent)
  }

  function LatestBelow(rows: seq<Intent>, parent: ClientId, n: nat): (r: Option<nat>)
    requires n <= |rows|
    ensures r.Some? ==> r.value < n && Protects(rows[r.value], parent)
  {
    if n == 0 then None else if Protects(rows[n - 1], parent) then Some(n - 1) else LatestBelow(rows, parent, n - 1)
  }

  /** The most recently created SELL intent of a parent BUY. */
  function Protection(rows: seq<Intent>, parent: ClientId): (r: Option<nat>)
    ensures r.Some? ==> r.value < |rows| && Protects(rows[r.value], parent)
  {
    LatestBelow(rows, parent, |rows|)
  }

  /** Net inventory of a BUY: the settled net quantity when there is one, the executed quantity otherwise. */
  function Acquired(intent: Intent): real {
    if intent.settlement.Some? then intent.settlement.value.net else intent.executed
  }

  /** The evidence is about this order and agrees with what the journal says was executed. */
  predicate Agrees(intent: Intent, s: SettledBuy) {
    && intent.side == Buy && intent.orderId == Some(s.orderId)
    && s.gross == intent.executed && s.quote == intent.quote && s.original == intent.quantity
  }

  /** Evidence on record is verified again whenever the net inventory is asked for. */
  predicate SettlementHolds(intent: Intent) {
    intent.settlement.Some? ==> Agrees(intent, intent.settlement.value)
  }

  /** What terminal partial exits of a parent have already sold. */
  function ExitSum(exits: seq<PartialExit>, parent: ClientId): real {
    if exits == [] then 0.0
    else ExitSum(exits[..|exits| - 1], parent)
         + if exits[|exits| - 1].parent == parent then exits[|exits| - 1].quantity else 0.0
  }

  function FindExit(exits: seq<PartialExit>, symbol: string, orderId: int): (r: Option<PartialExit>)
    ensures r.Some? ==> r.value in exits && r.value.symbol == symbol && r.value.orderId == orderId
  {
    if exits == [] then None
    else if exits[|exits| - 1].symbol == symbol && exits[|exits| - 1].orderId == orderId then Some(exits[|exits| - 1])
    else FindExit(exits[..|exits| - 1], symbol, orderId)
  }

  // ---------- transactions ----------

  function WithRow(t: Tables, i: nat, intent: Intent): Tables
    requires i < |t.rows|
  {
    t.(rows := t.rows[i := intent])
  }

  function SetState(t: Tables, id: ClientId, state: IntentState): Option<Tables> {
    match Find(t.rows, id)
    case None => None
    case Some(i) => Some(WithRow(t, i, t.rows[i].(state := state)))
  }

  function StateFor(reply: OrderReply): IntentState {
    match reply.status
    case New => Submitted
    case PartiallyFilled => PartlyExecuted
    case Filled => Executed
    case OtherStatus => Unknown
    case _ => if reply.executed > 0.0 then ProtectionPending else Ended(reply.status)
  }

  function RecordOrder(t: Tables, id: ClientId, reply: OrderReply): Option<Tables> {
    match Find(t.rows, id)
    case None => None
    case Some(i) => Some(WithRow(t, i, t.rows[i].(state := StateFor(reply), orderId := Some(reply.orderId),
                                                  executed := reply.executed, quote := reply.quote)))
  }

  /** A reply without a list id takes back the one on record. */
  function RecordList(t: Tables, id: ClientId, done: bool, listId: Option<int>): Option<Tables> {
    match Find(t.rows, id)
    case None => None
    case Some(i) => Some(WithRow(t, i, t.rows[i].(state := if done then Executed else Submitted, listId := listId)))
  }

  predicate SameIntent(old': Intent, new': Intent) {
    && old'.symbol == new'.symbol && old'.side == new'.side && old'.purpose == new'.purpose && old'.kind == new'.kind
    && old'.parent == new'.parent && old'.quantity == new'.quantity && old'.price == new'.price && old'.tag == new'.tag
    && old'.settlement == None && old'.verifiedLegs == [] && old'.exactExit == None
  }

  /** An intent is written once, before any exchange mutation; the same intent may be written again. */
  function Prepare(t: Tables, intent: Intent): Option<Tables> {
    match Find(t.rows, intent.clientId)
    case None => Some(t.(rows := t.rows + [intent]))
    case Some(i) => if SameIntent(t.rows[i], intent) then Some(t) else None
  }

  function Refs(legs: seq<OrderReply>): seq<LegRef> {
    seq(|legs|, i requires 0 <= i < |legs| => LegRef(legs[i].orderId, legs[i].clientId, legs[i].kind))
  }

  /** Leg identities are written once; a leg known under another identity refuses the transaction. */
  function StoreLegs(known: map<OrderKey, Leg>, protection: Intent, refs: seq<LegRef>): Option<map<OrderKey, Leg>>
    decreases |refs|
  {
    if refs == [] then Some(known)
    else
      var key, leg := (protection.symbol, refs[0].orderId), Leg(protection.clientId, refs[0].clientId, refs[0].kind);
      if key in known && known[key] != leg then None else StoreLegs(known[key := leg], protection, refs[1..])
  }

  predicate TwoDistinct(refs: seq<LegRef>) {
    |refs| == 2 && refs[0].orderId != refs[1].orderId
  }

  function RecordVerifiedLegs(t: Tables, id: ClientId, legs: seq<OrderReply>): Option<Tables> {
    match Find(t.rows, id)
    case None => None
    case Some(i) =>
      if !TwoDistinct(Refs(legs)) then None
      else match StoreLegs(t.legs, t.rows[i], Refs(legs))
        case None => None
        case Some(known) => Some(WithRow(t.(legs := known), i, t.rows[i].(verifiedLegs := Refs(legs))))
  }

  function MarkVerifiedProtected(t: Tables, parent: ClientId, id: ClientId, legs: seq<OrderReply>,
                                 listId: int): Option<Tables>
  {
    match Find(t.rows, id)
    case None => None
    case Some(i) =>
      if t.rows[i].parent != Some(parent) then None
      else match RecordVerifiedLegs(t, id, legs)
        case None => None
        case Some(u) => SetState(WithRow(u, i, u.rows[i].(state := Protected, listId := Some(listId))), parent,
                                 Protected)
  }

  function MarkProtected(t: Tables, parent: ClientId, id: ClientId, orderId: int): Option<Tables> {
    match Find(t.rows, id)
    case None => None
    case Some(i) =>
      if t.rows[i].parent != Some(parent) then None
      else SetState(WithRow(t, i, t.rows[i].(state := Protected, orderId := Some(orderId))), parent, Protected)
  }

  /** A leg of this protection whose type agrees with the exit reason. */
  predicate VerifiedLeg(t: Tables, protection: Intent, orderId: int, reason: ExitReason) {
    var key := (protection.symbol, orderId);
    key in t.legs && t.legs[key].protection == protection.clientId && (reason == StopOut <==> IsStop(t.legs[key].kind))
  }

  /** The final writer's own proof that this exit sells exactly the residual of this BUY. */
  predicate ExactExit(t: Tables, parent: Intent, protection: Intent, exit: OrderReply, orderId: int) {
    var key, residual := (protection.symbol, orderId), Acquired(parent) - ExitSum(t.exits, parent.clientId);
    && parent.side == Buy && protection.side == Sell && parent.symbol == protection.symbol && SettlementHolds(parent)
    && protection.parent == Some(parent.clientId)
    && protection.listId.Some? && protection.listId.value >= 0
    && exit.symbol == protection.symbol && exit.orderId == orderId >= 0 && exit.clientId != ""
    && exit.listId == protection.listId
    && key in t.legs && t.legs[key] == Leg(protection.clientId, exit.clientId, exit.kind)
    && exit.side == Sell && exit.status == Filled
    && residual > 0.0 && protection.quantity == residual && exit.original == residual && exit.executed == residual
  }

  function MarkExactClosed(t: Tables, id: ClientId, orderId: int, reason: ExitReason,
                           exit: OrderReply): Option<Tables>
  {
    match Find(t.rows, id)
    case None => None
    case Some(i) =>
      var protection := t.rows[i];
      if protection.parent == None then None
      else match Find(t.rows, protection.parent.value)
        case None => None
        case Some(j) =>
          var closure := Closure(protection.symbol, protection.parent.value, orderId, reason);
          if !ExactExit(t, t.rows[j], protection, exit, orderId)
              || !VerifiedLeg(t, protection, orderId, reason) then None
          else if id in t.closures
              && (t.closures[id].exitOrderId != orderId || t.closures[id].reason != reason) then None
          else
            var u := WithRow(t, i, protection.(state := Closed, exactExit := Some((orderId, reason))));
            Some(WithRow(u, j, u.rows[j].(state := Closed, exactExit := Some((orderId, reason))))
                   .(closures := if id in t.closures then t.closures else t.closures[id := closure]))
  }

  function RecordPartialExit(t: Tables, id: ClientId, orderId: int, reason: ExitReason, quantity: real,
                             status: Status): Option<Tables>
  {
    if quantity <= 0.0 || !IsTerminal(status) then None
    else match Find(t.rows, id)
      case None => None
      case Some(i) =>
        var protection := t.rows[i];
        if protection.parent == None || !VerifiedLeg(t, protection, orderId, reason) then None
        else
          var exit := PartialExit(protection.symbol, orderId, id, protection.parent.value, reason, quantity, status);
          var existing := FindExit(t.exits, protection.symbol, orderId);
          if existing.Some? && existing.value != exit then None
          else match SetState(t, id, Failed)
            case None => None
            case Some(u) =>
              match SetState(u, protection.parent.value, ProtectionPending)
              case None => None
              case Some(v) => Some(if existing.Some? then v else v.(exits := v.exits + [exit]))
  }

  /** Settlement evidence must agree with the order, is immutable once written, and cannot be written on a closed
      BUY. */
  function RecordSettlement(t: Tables, id: ClientId, s: SettledBuy): Option<Tables> {
    match Find(t.rows, id)
    case None => None
    case Some(i) =>
      if t.rows[i].state == Closed || !Agrees(t.rows[i], s) then None
      else if t.rows[i].settlement.Some? && t.rows[i].settlement.value != s then None
      else Some(WithRow(t, i, t.rows[i].(settlement := Some(s))))
  }

  // ---------- the journal as a program ----------

  class Journal {
    var rows: seq<Intent>
    var legs: map<OrderKey, Leg>
    var closures: map<ClientId, Closure>
    var exits: seq<PartialExit>

    ghost function Contents(): Tables
      reads this
    {
      Tables(rows, legs, closures, exits)
    }

    constructor ()
      ensures Contents() == Tables([], map[], map[], [])
    {
      rows, legs, closures, exits := [], map[], map[], [];
    }

    // The transaction's answer: the new tables, or the old ones and a refusal.
    twostate predicate Committed(after: Option<Tables>, ok: bool)
      reads this
    {
      ok == after.Some? && Contents() == after.GetOr(old(Contents()))
    }

    method PrepareIntent(intent: Intent) returns (ok: bool)
      modifies this
      ensures Committed(Prepare(old(Contents()), intent), ok)
    {
      var existing := Find(rows, intent.clientId);
      if existing.Some? {
        return SameIntent(rows[existing.value], intent);
      }
      rows := rows + [intent];
      return true;
    }

    method ChangeState(id: ClientId, state: IntentState) returns (ok: bool)
      modifies this`rows
      ensures Committed(SetState(old(Contents()), id, state), ok)
    {
      var i := Find(rows, id);
      if i == None {
        return false;
      }
      rows := rows[i.value := rows[i.value].(state := state)];
      return true;
    }

    method RecordExchangeOrder(id: ClientId, reply: OrderReply) returns (ok: bool)
      modifies this
      ensures Committed(RecordOrder(old(Contents()), id, reply), ok)
    {
      var i := Find(rows, id);
      if i == None {
        return false;
      }
      var state := Unknown;
      if reply.status == New {
        state := Submitted;
      } else if reply.status == PartiallyFilled {
        state := PartlyExecuted;
      } else if reply.status == Filled {
        state := Executed;
      } else if IsTerminal(reply.status) {
        state := if reply.executed > 0.0 then ProtectionPending else Ended(reply.status);
      }
      rows := rows[i.value := rows[i.value].(state := state, orderId := Some(reply.orderId),
                                             executed := reply.executed, quote := reply.quote)];
      return true;
    }

    method RecordOrderList(id: ClientId, done: bool, listId: Option<int>) returns (ok: bool)
      modifies this
      ensures Committed(RecordList(old(Contents()), id, done, listId), ok)
    {
      var i := Find(rows, id);
      if i == None {
        return false;
      }
      rows := rows[i.value := rows[i.value].(state := if done then Executed else Submitted, listId := listId)];
      return true;
    }

    method SettleBuy(id: ClientId, s: SettledBuy) returns (ok: bool)
      modifies this
      ensures Committed(RecordSettlement(old(Contents()), id, s), ok)
    {
      var i := Find(rows, id);
      if i == None || rows[i.value].state == Closed {
        return false;
      }
      var row := rows[i.value];
      if row.side != Buy || row.orderId != Some(s.orderId) {
        return false;
      }
      if s.gross != row.executed || s.quote != row.quote || s.original != row.quantity {
        return false;
      }
      if row.settlement.Some? && row.settlement.value != s {
        return false;
      }
      rows := rows[i.value := row.(settlement := Some(s))];
      return true;
    }

    /** Insert the legs one by one; a conflict takes back those already inserted. */
    method InsertLegs(protection: Intent, refs: seq<LegRef>) returns (ok: bool)
      modifies this`legs
      ensures ok == StoreLegs(old(legs), protection, refs).Some?
      ensures legs == StoreLegs(old(legs), protection, refs).GetOr(old(legs))
    {
      var savepoint := legs;
      var k := 0;
      assert refs[0..] == refs;
      while k < |refs|
        invariant 0 <= k <= |refs| && StoreLegs(legs, protection, refs[k..]) == StoreLegs(savepoint, protection, refs)
      {
        var key := (protection.symbol, refs[k].orderId);
        var leg := Leg(protection.clientId, refs[k].clientId, refs[k].kind);
        assert refs[k..][1..] == refs[k + 1..];
        if key in legs && legs[key] != leg {
          legs := savepoint;
          return false;
        }
        legs := legs[key := leg];
        k := k + 1;
      }
      return true;
    }

    method RecordVerifiedProtectionLegs(id: ClientId, replies: seq<OrderReply>) returns (ok: bool)
      modifies this
      ensures Committed(RecordVerifiedLegs(old(Contents()), id, replies), ok)
    {
      var i := Find(rows, id);
      if i == None || !TwoDistinct(Refs(replies)) {
        return false;
      }
      ok := InsertLegs(rows[i.value], Refs(replies));
      if ok {
        rows := rows[i.value := rows[i.value].(verifiedLegs := Refs(replies))];
      }
    }

    method MarkVerified(parent: ClientId, id: ClientId, replies: seq<OrderReply>, listId: int) returns (ok: bool)
      modifies this
      ensures Committed(MarkVerifiedProtected(old(Contents()), parent, id, replies, listId), ok)
    {
      var savedRows, savedLegs := rows, legs;
      var i := Find(rows, id);
      if i == None || rows[i.value].parent != Some(parent) {
        return false;
      }
      ok := RecordVerifiedProtectionLegs(id, replies);
      if ok {
        rows := rows[i.value := rows[i.value].(state := Protected, listId := Some(listId))];
        ok := ChangeState(parent, Protected);
      }
      if !ok {
        rows, legs := savedRows, savedLegs;
      }
    }

    method MarkSingleProtected(parent: ClientId, id: ClientId, orderId: int) returns (ok: bool)
      modifies this
      ensures Committed(MarkProtected(old(Contents()), parent, id, orderId), ok)
    {
      var savedRows := rows;
      var i := Find(rows, id);
      if i == None || rows[i.value].parent != Some(parent) {
        return false;
      }
      rows := rows[i.value := rows[i.value].(state := Protected, orderId := Some(orderId))];
      ok := ChangeState(parent, Protected);
      if !ok {
        rows := savedRows;
      }
    }

    method MarkExactLifecycleClosed(id: ClientId, orderId: int, reason: ExitReason, exit: OrderReply) returns (ok: bool)
      modifies this
      ensures Committed(MarkExactClosed(old(Contents()), id, orderId, reason, exit), ok)
    {
      var i := Find(rows, id);
      if i == None || rows[i.value].parent == None {
        return false;
      }
      var protection := rows[i.value];
      var j := Find(rows, protection.parent.value);
      if j == None {
        return false;
      }
      var snapshot := Tables(rows, legs, closures, exits);
      if !ExactExit(snapshot, rows[j.value], protection, exit, orderId)
          || !VerifiedLeg(snapshot, protection, orderId, reason) {
        return false;
      }
      if id in closures && (closures[id].exitOrderId != orderId || closures[id].reason != reason) {
        return false;
      }
      rows := rows[i.value := protection.(state := Closed, exactExit := Some((orderId, reason)))];
      rows := rows[j.value := rows[j.value].(state := Closed, exactExit := Some((orderId, reason)))];
      if id !in closures {
        closures := closures[id := Closure(protection.symbol, protection.parent.value, orderId, reason)];
      }
      return true;
    }

    method RecordPartialProtectionExit(id: ClientId, orderId: int, reason: ExitReason, quantity: real, status: Status)
        returns (ok: bool)
      modifies this
      ensures Committed(RecordPartialExit(old(Contents()), id, orderId, reason, quantity, status), ok)
    {
      if quantity <= 0.0 || !IsTerminal(status) {
        return false;
      }
      var savedRows := rows;
      var i := Find(rows, id);
      if i == None || rows[i.value].parent == None {
        return false;
      }
      var protection := rows[i.value];
      if !VerifiedLeg(Tables(rows, legs, closures, exits), protection, orderId, reason) {
        return false;
      }
      var exit := PartialExit(protection.symbol, orderId, id, protection.parent.value, reason, quantity, status);
      var existing := FindExit(exits, protection.symbol, orderId);
      if existing.Some? && existing.value != exit {
        return false;
      }
      ok := ChangeState(id, Failed);
      if ok {
        ok := ChangeState(protection.parent.value, ProtectionPending);
      }
      if !ok {
        rows := savedRows;
        return;
      }
      if existing == None {
        exits := exits + [exit];
      }
    }

    method PartialExitQuantity(parent: ClientId) returns (total: real)
      ensures total == ExitSum(exits, parent)
    {
      total := 0.0;
      for k := 0 to |exits|
        invariant total == ExitSum(exits[..k], parent)
      {
        assert exits[..k + 1][..k] == exits[..k];
        if exits[k].parent == parent {
          total := total + exits[k].quantity;
        }
      }
      assert exits[..|exits|] == exits;
    }
  }
}
