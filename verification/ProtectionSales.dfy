/** What the exchange sells for a protection, against what the journal records of it: every recorded exit is
    backed by the exchange's own evidence, and exactly when an answer "not covered" leaves nothing of a
    protection that was, or still can be, sold without a record. */
module ProtectionSales {
  import opened Results
  import opened OrderJournal
  import opened ProtectionQuantity
  import opened ProtectionRecovery
  import opened JournalHistory
  import opened JournalRecords
  import opened ProtectionConvergence
  import opened ProtectionCoverage
  import opened ProtectionLifecycle

  // ---------- what the exchange has executed ----------

  // The known ones of the orders referred to, by order id or by client id.
  function KnownById(byId: map<int, OrderReply>, refs: seq<Ref>): seq<OrderReply> {
    if refs == [] then []
    else
      var rest, last := KnownById(byId, refs[..|refs| - 1]), refs[|refs| - 1];
      if last.orderId in byId then rest + [byId[last.orderId]] else rest
  }

  function KnownByClient(byClient: map<ClientId, OrderReply>, refs: seq<Ref>): seq<OrderReply> {
    if refs == [] then []
    else
      var rest, last := KnownByClient(byClient, refs[..|refs| - 1]), refs[|refs| - 1];
      if last.clientId in byClient then rest + [byClient[last.clientId]] else rest
  }

  /** The SELL orders the exchange has for a protection, whatever their state. */
  function SellOrders(x: Exchange, p: Intent, parent: ClientId): seq<OrderReply> {
    if p.kind == Oco then if p.clientId in x.lists then KnownById(x.byId, x.lists[p.clientId].refs) else []
    else if p.kind == Otoco then
      if p.clientId in x.lists then KnownByClient(x.byClient, Others(x.lists[p.clientId].refs, parent)) else []
    else if p.clientId in x.byClient then [x.byClient[p.clientId]] else []
  }

  /** What has been sold for a protection, recorded or not. */
  function SoldBy(x: Exchange, p: Intent, parent: ClientId): real {
    ExecutedSum(SellOrders(x, p, parent))
  }

  /** What the journal records as sold by a protection. */
  function RecordedFor(exits: seq<PartialExit>, id: ClientId): real {
    if exits == [] then 0.0
    else RecordedFor(exits[..|exits| - 1], id)
         + if exits[|exits| - 1].protection == id then exits[|exits| - 1].quantity else 0.0
  }

  // ---------- how the exchange goes on ----------

  predicate Sensible(o: OrderReply) {
    0.0 <= o.executed <= o.original && 0.0 < o.original && (o.status == Filled ==> o.executed == o.original)
  }

  ghost predicate SensibleOrders<K>(orders: map<K, OrderReply>) {
    forall id | id in orders :: Sensible(orders[id])
  }

  ghost predicate AllSensible(x: Exchange) {
    SensibleOrders(x.byId) && SensibleOrders(x.byClient)
  }

  // The same order, of which nothing is taken back.
  predicate SameOrderLater(a: OrderReply, b: OrderReply) {
    b == a.(status := b.status, executed := b.executed, quote := b.quote) && a.executed <= b.executed
  }

  // No order is forgotten or changes its identity, and an ended one does not change at all.
  ghost predicate OrdersGoOn<K>(a: map<K, OrderReply>, b: map<K, OrderReply>) {
    forall id | id in a :: id in b && SameOrderLater(a[id], b[id]) && (IsFinal(a[id].status) ==> b[id] == a[id])
  }

  // No list is forgotten or changes its references, and one that is done does not change at all.
  ghost predicate ListsGoOn(a: map<ClientId, ListReply>, b: map<ClientId, ListReply>) {
    forall id | id in a ::
        id in b && b[id] == a[id].(status := b[id].status) && (a[id].status == AllDone ==> b[id] == a[id])
  }

  /** How a lawful exchange goes on: besides keeping what has ended it forgets nothing and changes no references. */
  ghost predicate Continues(x: Exchange, y: Exchange) {
    && ListsGoOn(x.lists, y.lists) && OrdersGoOn(x.byId, y.byId) && OrdersGoOn(x.byClient, y.byClient)
    && AllSensible(y)
  }

  lemma ContinuesEvolves(x: Exchange, y: Exchange)
    requires Continues(x, y)
    ensures Evolves(x, y)
  {
  }

  lemma OrdersGoOnFurther<K>(a: map<K, OrderReply>, b: map<K, OrderReply>, c: map<K, OrderReply>)
    requires OrdersGoOn(a, b) && OrdersGoOn(b, c)
    ensures OrdersGoOn(a, c)
  {
  }

  lemma ContinuesItself(x: Exchange)
    requires AllSensible(x)
    ensures Continues(x, x)
  {
  }

  lemma ContinuesFurther(x: Exchange, y: Exchange, z: Exchange)
    requires Continues(x, y) && Continues(y, z)
    ensures Continues(x, z)
  {
    OrdersGoOnFurther(x.byId, y.byId, z.byId);
    OrdersGoOnFurther(x.byClient, y.byClient, z.byClient);
  }

  /** Whatever happens next, exactly what is recorded for the protection will have been sold by it. */
  ghost predicate FullyRecorded(x: Exchange, exits: seq<PartialExit>, p: Intent, parent: ClientId) {
    forall y | Continues(x, y) :: SoldBy(y, p, parent) == RecordedFor(exits, p.clientId)
  }

  // ---------- recorded exits are the exchange's ----------

  /** Exit n was executed by the leg that ended its protection, in exactly the recorded quantity. */
  ghost predicate ExitEvidenced(w: World, n: nat)
    requires n < |w.t.exits|
  {
    var exit := w.t.exits[n];
    var i := Find(w.t.rows, exit.protection);
    && i.Some? && Protects(w.t.rows[i.value], exit.parent) && exit.symbol == w.t.rows[i.value].symbol
    && EndedBy(w.x, w.t.rows[i.value], exit.parent, false, exit.orderId)
    && Classify(Known(w.x, w.t.rows[i.value], exit.parent).legs).leg.executed == exit.quantity
  }

  ghost predicate Evidenced(w: World) {
    OneExitPerOrder(w.t.exits) && forall n | 0 <= n < |w.t.exits| :: ExitEvidenced(w, n)
  }

  lemma {:induction false} NoneRecorded(exits: seq<PartialExit>, id: ClientId)
    requires forall n | 0 <= n < |exits| :: exits[n].protection != id
    ensures RecordedFor(exits, id) == 0.0
  {
    if exits != [] {
      NoneRecorded(exits[..|exits| - 1], id);
    }
  }

  lemma {:induction false} OneRecorded(exits: seq<PartialExit>, id: ClientId, k: nat)
    requires k < |exits| && exits[k].protection == id
    requires forall n | 0 <= n < |exits| && n != k :: exits[n].protection != id
    ensures RecordedFor(exits, id) == exits[k].quantity
  {
    var rest := exits[..|exits| - 1];
    if k == |exits| - 1 {
      NoneRecorded(rest, id);
    } else {
      OneRecorded(rest, id, k);
    }
  }

  /** A protection has at most one recorded exit: the execution of its ended leg. */
  lemma RecordedIsEvidence(w: World, i: nat, parent: ClientId)
    requires UniqueIds(w.t.rows) && Evidenced(w) && i < |w.t.rows| && Protects(w.t.rows[i], parent)
    ensures HasExit(w.t.exits, w.t.rows[i].clientId) ==>
              && FinalEvidence(w.x, w.t.rows[i], parent)
              && var leg := Classify(Known(w.x, w.t.rows[i], parent).legs).leg;
                 leg.status != Filled && RecordedFor(w.t.exits, w.t.rows[i].clientId) == leg.executed
    ensures !HasExit(w.t.exits, w.t.rows[i].clientId) ==> RecordedFor(w.t.exits, w.t.rows[i].clientId) == 0.0
  {
    var id := w.t.rows[i].clientId;
    FindUnique(w.t.rows, i, |w.t.rows|);
    if HasExit(w.t.exits, id) {
      var k :| 0 <= k < |w.t.exits| && w.t.exits[k].protection == id;
      assert ExitEvidenced(w, k);
      forall n | 0 <= n < |w.t.exits| && n != k ensures w.t.exits[n].protection != id {
        assert ExitEvidenced(w, n);
      }
      OneRecorded(w.t.exits, id, k);
    } else {
      NoneRecorded(w.t.exits, id);
    }
  }

  // ---------- evidence is kept ----------

  predicate Extended(a: seq<Intent>, b: seq<Intent>) {
    UniqueIds(b) && |a| <= |b| && SameIntents(a, b[..|a|])
  }

  lemma ExtendedFinds(a: seq<Intent>, b: seq<Intent>, id: ClientId)
    requires Extended(a, b) && Find(a, id).Some?
    ensures Find(b, id) == Find(a, id) && SameIdentity(a[Find(a, id).value], b[Find(a, id).value])
  {
    var i := Find(a, id).value;
    assert SameIdentity(a[i], b[..|a|][i]);
    FindUnique(b, i, |b|);
  }

  lemma ExitStaysEvidenced(w: World, v: World, n: nat)
    requires n < |w.t.exits| && n < |v.t.exits| && v.t.exits[n] == w.t.exits[n] && ExitEvidenced(w, n)
    requires Extended(w.t.rows, v.t.rows) && Evolves(w.x, v.x)
    ensures ExitEvidenced(v, n)
  {
    var exit := w.t.exits[n];
    var i := Find(w.t.rows, exit.protection).value;
    ExtendedFinds(w.t.rows, v.t.rows, exit.protection);
    EvidenceFrozen(w.x, v.x, w.t.rows[i], exit.parent);
    SameKnown(v.x, w.t.rows[i], v.t.rows[i], exit.parent);
  }

  lemma EvidenceStays(w: World, v: World)
    requires Evidenced(w) && v.t.exits == w.t.exits && Extended(w.t.rows, v.t.rows) && Evolves(w.x, v.x)
    ensures Evidenced(v)
  {
    forall n | 0 <= n < |v.t.exits| ensures ExitEvidenced(v, n) {
      assert ExitEvidenced(w, n);
      ExitStaysEvidenced(w, v, n);
    }
  }

  lemma RowsStay(w: World, v: World)
    requires UniqueIds(w.t.rows) && SameIntents(w.t.rows, v.t.rows)
    ensures Extended(w.t.rows, v.t.rows)
  {
    UniqueKept(w.t.rows, v.t.rows);
    assert v.t.rows[..|w.t.rows|] == v.t.rows;
  }

  lemma {:induction false} NotFoundBefore(exits: seq<PartialExit>, symbol: string, orderId: int)
    requires FindExit(exits, symbol, orderId) == None
    ensures forall n | 0 <= n < |exits| :: exits[n].symbol != symbol || exits[n].orderId != orderId
  {
    if exits != [] {
      NotFoundBefore(exits[..|exits| - 1], symbol, orderId);
    }
  }

  // The exit a recovery adds is that of the leg which ended the latest protection.
  lemma NewExitEvidenced(w: World, v: World, settled: Settlements, parent: ClientId, k: nat)
    requires Inv(w, settled) && Ready(w, settled, parent) && v == w.(t := Interrupted(w.t, w.x, parent, k))
    requires v.t.exits != w.t.exits
    ensures |v.t.exits| == |w.t.exits| + 1 && w.t.exits <= v.t.exits && ExitEvidenced(v, |w.t.exits|)
    ensures OneExitPerOrder(w.t.exits) ==> OneExitPerOrder(v.t.exits)
    ensures Protection(w.t.rows, parent).Some?
    ensures var p, exit := w.t.rows[Protection(w.t.rows, parent).value], v.t.exits[|w.t.exits|];
            exit.protection == p.clientId && exit.parent == parent
  {
    RecoveryLeaves(w.t, w.x, parent, k);
    ExitPlanMeans(w.t, w.x, parent);
    RowsStay(w, v);
    var i := Protection(w.t.rows, parent).value;
    var p, exit := w.t.rows[i], v.t.exits[|w.t.exits|];
    FindUnique(w.t.rows, i, |w.t.rows|);
    ExtendedFinds(w.t.rows, v.t.rows, p.clientId);
    SameKnown(w.x, p, v.t.rows[i], parent);
    NotFoundBefore(w.t.exits, p.symbol, exit.orderId);
  }

  lemma RecoveryKeepsEvidence(w: World, v: World, settled: Settlements, parent: ClientId, k: nat)
    requires Inv(w, settled) && Evidenced(w) && Ready(w, settled, parent)
             && v == w.(t := Interrupted(w.t, w.x, parent, k))
    ensures Evidenced(v) && Extended(w.t.rows, v.t.rows)
  {
    RecoveryLeaves(w.t, w.x, parent, k);
    RowsStay(w, v);
    if v.t.exits == w.t.exits {
      EvidenceStays(w, v);
    } else {
      NewExitEvidenced(w, v, settled, parent, k);
      forall n | 0 <= n < |v.t.exits| ensures ExitEvidenced(v, n) {
        if n < |w.t.exits| {
          assert ExitEvidenced(w, n);
          ExitStaysEvidenced(w, v, n);
        }
      }
    }
  }

  lemma AppendKeepsEvidence(w: World, v: World, intent: Intent)
    requires UniqueIds(w.t.rows) && OwnersKnown(w.t) && Evidenced(w)
    requires v == w.(t := Prepare(w.t, intent).GetOr(w.t))
    ensures Evidenced(v) && Extended(w.t.rows, v.t.rows)
  {
    if Find(w.t.rows, intent.clientId) == None {
      Appended(w.t, intent);
    }
    assert v.t.rows[..|w.t.rows|] == w.t.rows;
    EvidenceStays(w, v);
  }

  lemma BookkeepingKeepsRows(w: World, settled: Settlements, e: Event)
    requires UniqueIds(w.t.rows) && Enabled(w, settled, e) && (e.Report? || e.NoteAccepted? || e.Settle? || e.Mark?)
    ensures var v := Next(w, settled, e);
            SameIntents(w.t.rows, v.t.rows) && v.t.exits == w.t.exits && v.x == w.x
  {
    var i := Find(w.t.rows, e.id);
    if i.Some? && Next(w, settled, e) != w {
      var row := Next(w, settled, e).t.rows[i.value];
      assert Next(w, settled, e) == w.(t := WithRow(w.t, i.value, row));
      RowRewritten(w.t, i.value, row);
    }
  }

  lemma ReplaceKeepsEvidence(w: World, settled: Settlements, parent: ClientId, intent: Intent)
    requires Inv(w, settled) && Evidenced(w) && Enabled(w, settled, Replace(parent, intent))
    ensures Evidenced(Next(w, settled, Replace(parent, intent)))
  {
    WholeRecovery(w.t, w.x, parent);
    var k := |Decide(w.t, w.x, parent).txs|;
    var u := w.(t := Interrupted(w.t, w.x, parent, k));
    RecoverStep(w, settled, parent, k);
    RecoveryKeepsEvidence(w, u, settled, parent, k);
    AppendKeepsEvidence(u, Next(w, settled, Replace(parent, intent)), intent);
  }

  /** Every event keeps the records backed by the exchange. */
  lemma StepKeepsEvidence(w: World, settled: Settlements, e: Event)
    requires Inv(w, settled) && Evidenced(w) && Enabled(w, settled, e)
    ensures Evidenced(Next(w, settled, e))
  {
    var v := Next(w, settled, e);
    match e
    case ExchangeMoves(next) =>
      RowsStay(w, v);
      EvidenceStays(w, v);
    case Intend(intent) => AppendKeepsEvidence(w, v, intent);
    case Replace(parent, intent) => ReplaceKeepsEvidence(w, settled, parent, intent);
    case Recover(parent, k) => RecoveryKeepsEvidence(w, v, settled, parent, k);
    case _ =>
      BookkeepingKeepsRows(w, settled, e);
      RowsStay(w, v);
      EvidenceStays(w, v);
  }

  // ---------- the orders behind the evidence ----------

  lemma {:induction false} TwoById(x: Exchange, refs: seq<Ref>)
    requires |refs| == 2 && refs[0].orderId in x.byId && refs[1].orderId in x.byId
    ensures KnownById(x.byId, refs) == [x.byId[refs[0].orderId], x.byId[refs[1].orderId]]
  {
    assert refs[..1][..0] == [] && KnownById(x.byId, []) == [];
    assert KnownById(x.byId, refs[..1]) == [] + [x.byId[refs[0].orderId]];
  }

  lemma {:induction false} TwoByClient(x: Exchange, refs: seq<Ref>)
    requires |refs| == 2 && refs[0].clientId in x.byClient && refs[1].clientId in x.byClient
    ensures KnownByClient(x.byClient, refs) == [x.byClient[refs[0].clientId], x.byClient[refs[1].clientId]]
  {
    assert refs[..1][..0] == [] && KnownByClient(x.byClient, []) == [];
    assert KnownByClient(x.byClient, refs[..1]) == [] + [x.byClient[refs[0].clientId]];
  }

  lemma SumOfTwo(a: OrderReply, b: OrderReply)
    ensures ExecutedSum([a, b]) == a.executed + b.executed
  {
    assert [a, b][..1] == [a] && [a][..0] == [];
    assert ExecutedSum([a]) == 0.0 + a.executed;
  }

  /** The evidence about a list shows all of its SELL orders. */
  lemma EvidenceShowsOrders(x: Exchange, p: Intent, parent: ClientId)
    requires !ListEvidence(x, p, parent).NoEvidence?
    ensures |ListEvidence(x, p, parent).legs| == 2
    ensures SellOrders(x, p, parent) == ListEvidence(x, p, parent).legs
  {
    var l := x.lists[p.clientId];
    if p.kind == Oco {
      TwoById(x, l.refs);
    } else {
      TwoByClient(x, Others(l.refs, parent));
    }
  }

  lemma LaterOrders(x: Exchange, y: Exchange, p: Intent, parent: ClientId)
    requires !ListEvidence(x, p, parent).NoEvidence? && Continues(x, y)
    ensures var legs, orders := ListEvidence(x, p, parent).legs, SellOrders(y, p, parent);
            && |legs| == |orders| == 2 && SameOrderLater(legs[0], orders[0]) && SameOrderLater(legs[1], orders[1])
            && (IsFinal(legs[0].status) ==> orders[0] == legs[0]) && (IsFinal(legs[1].status) ==> orders[1] == legs[1])
  {
    var l := x.lists[p.clientId];
    assert y.lists[p.clientId].refs == l.refs;
    if p.kind == Oco {
      TwoById(y, l.refs);
    } else {
      TwoByClient(y, Others(l.refs, parent));
    }
  }

  predicate AllFinal(orders: seq<OrderReply>) {
    forall k | 0 <= k < |orders| :: IsFinal(orders[k].status)
  }

  // With both legs ended, what was sold is settled.
  lemma EndedPairSold(x: Exchange, y: Exchange, p: Intent, parent: ClientId)
    requires !ListEvidence(x, p, parent).NoEvidence? && AllFinal(ListEvidence(x, p, parent).legs) && Continues(x, y)
    ensures var legs := ListEvidence(x, p, parent).legs;
            |legs| == 2 && SoldBy(y, p, parent) == legs[0].executed + legs[1].executed
  {
    LaterOrders(x, y, p, parent);
    var legs := ListEvidence(x, p, parent).legs;
    assert SellOrders(y, p, parent) == [legs[0], legs[1]];
    SumOfTwo(legs[0], legs[1]);
  }

  // ---------- evidence that settles a protection ----------

  /** The evidence tells how the protection ended: without a sale, or by one leg of a list that is done; an unfilled
      working order with both SELL orders ended and nothing sold; or, for a single order, any answer. */
  predicate Reconciled(x: Exchange, p: Intent, parent: ClientId) {
    if p.kind == Oco || p.kind == Otoco then
      match ListEvidence(x, p, parent)
      case Pair(legs, status, _) =>
        Classify(legs) == CanceledWithoutFill || (Classify(legs).ClosedBy? && status == AllDone)
      case WorkingUnfilled(legs, _, _, _) => AllFinal(legs) && NothingExecuted(legs)
      case NoEvidence => false
    else p.clientId in x.byClient
  }

  predicate NothingExecuted(orders: seq<OrderReply>) {
    forall k | 0 <= k < |orders| :: orders[k].executed == 0.0
  }

  // A live order of which nothing has been executed can still be executed.
  function FilledUp(o: OrderReply): OrderReply { o.(status := Filled, executed := o.original) }

  lemma FilledById(x: Exchange, refs: seq<Ref>, k: nat) returns (y: Exchange)
    requires AllSensible(x) && |refs| == 2 && k < 2 && refs[0].orderId != refs[1].orderId
    requires refs[0].orderId in x.byId && refs[1].orderId in x.byId && !IsFinal(x.byId[refs[k].orderId].status)
    ensures Continues(x, y) && y.lists == x.lists && ExecutedSum(KnownById(y.byId, refs)) > 0.0
  {
    var leg := x.byId[refs[k].orderId];
    y := x.(byId := x.byId[refs[k].orderId := FilledUp(leg)]);
    TwoById(y, refs);
    SumOfTwo(y.byId[refs[0].orderId], y.byId[refs[1].orderId]);
  }

  lemma FilledByClient(x: Exchange, refs: seq<Ref>, k: nat) returns (y: Exchange)
    requires AllSensible(x) && |refs| == 2 && k < 2 && refs[0].clientId != refs[1].clientId
    requires refs[0].clientId in x.byClient && refs[1].clientId in x.byClient
    requires !IsFinal(x.byClient[refs[k].clientId].status)
    ensures Continues(x, y) && y.lists == x.lists && ExecutedSum(KnownByClient(y.byClient, refs)) > 0.0
  {
    var leg := x.byClient[refs[k].clientId];
    y := x.(byClient := x.byClient[refs[k].clientId := FilledUp(leg)]);
    TwoByClient(y, refs);
    SumOfTwo(y.byClient[refs[0].clientId], y.byClient[refs[1].clientId]);
  }

  predicate DistinctNames(refs: seq<Ref>) {
    forall i, j | 0 <= i < j < |refs| :: refs[i].clientId != refs[j].clientId
  }

  lemma {:induction false} OthersNames(refs: seq<Ref>, parent: ClientId)
    requires DistinctNames(refs)
    ensures DistinctNames(Others(refs, parent))
  {
    if refs != [] {
      var rest, last := refs[..|refs| - 1], refs[|refs| - 1];
      OthersNames(rest, parent);
      OthersWithin(rest, parent);
      forall i | 0 <= i < |Others(rest, parent)| ensures Others(rest, parent)[i].clientId != last.clientId {
        var k :| 0 <= k < |rest| && rest[k] == Others(rest, parent)[i];
        assert refs[k] == rest[k];
      }
    }
  }

  lemma LegFills(x: Exchange, p: Intent, parent: ClientId, k: nat) returns (y: Exchange)
    requires AllSensible(x) && !ListEvidence(x, p, parent).NoEvidence? && k < 2
    requires |ListEvidence(x, p, parent).legs| == 2 && !IsFinal(ListEvidence(x, p, parent).legs[k].status)
    ensures Continues(x, y) && SoldBy(y, p, parent) > 0.0
  {
    var refs := x.lists[p.clientId].refs;
    if p.kind == Oco {
      y := FilledById(x, refs, k);
    } else {
      OthersNames(refs, parent);
      y := FilledByClient(x, Others(refs, parent), k);
    }
  }

  lemma AlreadySold(x: Exchange, p: Intent, parent: ClientId, k: nat)
    requires AllSensible(x) && !ListEvidence(x, p, parent).NoEvidence? && k < 2
    requires |ListEvidence(x, p, parent).legs| == 2
    requires ListEvidence(x, p, parent).legs[k].executed > 0.0
    ensures Continues(x, x) && SoldBy(x, p, parent) > 0.0
  {
    EvidenceShowsOrders(x, p, parent);
    LaterOrders(x, x, p, parent);
    var legs := ListEvidence(x, p, parent).legs;
    assert legs == [legs[0], legs[1]];
    SumOfTwo(legs[0], legs[1]);
  }

  lemma AbsentAppears(x: Exchange, p: Intent, parent: ClientId) returns (y: Exchange)
    requires AllSensible(x) && p.kind != Oco && p.kind != Otoco && p.clientId !in x.byClient
    ensures Continues(x, y) && SoldBy(y, p, parent) > 0.0
  {
    var o := OrderReply(p.symbol, 0, p.clientId, None, Sell, p.kind, Filled, 1.0, 1.0, 1.0);
    y := x.(byClient := x.byClient[p.clientId := o]);
    assert [o][..0] == [] && ExecutedSum([o]) == 0.0 + o.executed;
  }

  // A pair of legs of which something was sold, or one of which is still live, sells.
  lemma PairSells(x: Exchange, p: Intent, parent: ClientId) returns (y: Exchange)
    requires AllSensible(x) && !ListEvidence(x, p, parent).NoEvidence?
    requires var legs := ListEvidence(x, p, parent).legs; !(AllFinal(legs) && NothingExecuted(legs))
    ensures Continues(x, y) && SoldBy(y, p, parent) > 0.0
  {
    EvidenceShowsOrders(x, p, parent);
    LaterOrders(x, x, p, parent);
    var legs := ListEvidence(x, p, parent).legs;
    y := x;
    if legs[0].executed > 0.0 {
      AlreadySold(x, p, parent, 0);
    } else if legs[1].executed > 0.0 {
      AlreadySold(x, p, parent, 1);
    } else {
      y := LegFills(x, p, parent, if IsFinal(legs[0].status) then 1 else 0);
    }
  }

  lemma UnsettledLegs(t: Tables, x: Exchange, parent: ClientId, i: nat)
    requires AllSensible(x) && Protection(t.rows, parent) == Some(i)
             && (t.rows[i].kind == Oco || t.rows[i].kind == Otoco)
    requires Decide(t, x, parent).verdict == NotCovered && !Reconciled(x, t.rows[i], parent)
    ensures !ListEvidence(x, t.rows[i], parent).NoEvidence?
    ensures var legs := ListEvidence(x, t.rows[i], parent).legs; !(AllFinal(legs) && NothingExecuted(legs))
  {
    var e := ListEvidence(x, t.rows[i], parent);
    if e.Pair? {
      EndedUnsold(e.legs);
    }
  }

  lemma EndedUnsold(legs: seq<OrderReply>)
    ensures AllFinal(legs) && NothingExecuted(legs)
            ==> Classify(legs) == CanceledWithoutFill || Classify(legs) == Ambiguous
  {
    assert |legs| == 2 && AllFinal(legs) ==> !IsActive(legs[0].status);
  }

  // Where the evidence does not settle the protection, something was sold or can still be.
  lemma UnsettledSells(t: Tables, x: Exchange, parent: ClientId, i: nat) returns (y: Exchange)
    requires AllSensible(x) && Protection(t.rows, parent) == Some(i)
    requires Decide(t, x, parent).verdict == NotCovered && !Reconciled(x, t.rows[i], parent)
    ensures Continues(x, y) && SoldBy(y, t.rows[i], parent) > 0.0
  {
    if t.rows[i].kind == Oco || t.rows[i].kind == Otoco {
      UnsettledLegs(t, x, parent, i);
      y := PairSells(x, t.rows[i], parent);
    } else {
      y := AbsentAppears(x, t.rows[i], parent);
    }
  }

  // ---------- what "not covered" leaves behind ----------

  // A recorded exit means settling evidence.
  lemma RecordedMeansReconciled(w: World, v: World, parent: ClientId, i: nat)
    requires UniqueIds(v.t.rows) && Evidenced(v) && v.x == w.x && i < |w.t.rows| && i < |v.t.rows|
    requires SameIdentity(w.t.rows[i], v.t.rows[i]) && Protects(w.t.rows[i], parent)
    requires Decide(w.t, w.x, parent).verdict == NotCovered && Protection(w.t.rows, parent) == Some(i)
    ensures RecordedFor(v.t.exits, w.t.rows[i].clientId) == 0.0 || Reconciled(w.x, w.t.rows[i], parent)
  {
    RecordedIsEvidence(v, i, parent);
    SameKnown(w.x, w.t.rows[i], v.t.rows[i], parent);
    KnownIsAll(w.x, w.t.rows[i], parent);
  }

  // What settling evidence says was sold.
  function SettledSale(x: Exchange, p: Intent, parent: ClientId): real {
    var e := ListEvidence(x, p, parent);
    if e.Pair? && Classify(e.legs).ClosedBy? then Classify(e.legs).leg.executed else 0.0
  }

  lemma SingleEnded(t: Tables, x: Exchange, parent: ClientId, i: nat)
    requires Protection(t.rows, parent) == Some(i) && t.rows[i].kind != Oco && t.rows[i].kind != Otoco
    requires Decide(t, x, parent).verdict == NotCovered && t.rows[i].clientId in x.byClient && AllSensible(x)
    ensures var o := x.byClient[t.rows[i].clientId]; IsFinal(o.status) && o.executed == 0.0
  {
    var o := x.byClient[t.rows[i].clientId];
    assert Verified(t, parent, t.rows[i], [o], false);
    assert LegConsistent([o][0], t.rows[i].quantity);
  }

  lemma SettledSum(legs: seq<OrderReply>)
    requires |legs| == 2
    ensures Classify(legs).ClosedBy? ==>
              AllFinal(legs) && legs[0].executed + legs[1].executed == Classify(legs).leg.executed
    ensures Classify(legs) == CanceledWithoutFill ==> AllFinal(legs) && legs[0].executed + legs[1].executed == 0.0
  {
  }

  lemma SettledPairIsSold(x: Exchange, p: Intent, parent: ClientId, y: Exchange)
    requires (p.kind == Oco || p.kind == Otoco) && Reconciled(x, p, parent) && Continues(x, y)
    ensures SoldBy(y, p, parent) == SettledSale(x, p, parent)
  {
    var e := ListEvidence(x, p, parent);
    EvidenceShowsOrders(x, p, parent);
    if e.Pair? {
      SettledSum(e.legs);
    }
    EndedPairSold(x, y, p, parent);
  }

  lemma SettledSingleIsSold(t: Tables, x: Exchange, parent: ClientId, i: nat, y: Exchange)
    requires Protection(t.rows, parent) == Some(i) && t.rows[i].kind != Oco && t.rows[i].kind != Otoco
    requires AllSensible(x) && Continues(x, y)
    requires Decide(t, x, parent).verdict == NotCovered && t.rows[i].clientId in x.byClient
    ensures SoldBy(y, t.rows[i], parent) == 0.0
  {
    SingleEnded(t, x, parent, i);
    var o := x.byClient[t.rows[i].clientId];
    assert y.byClient[t.rows[i].clientId] == o;
    assert [o][..0] == [] && ExecutedSum([o]) == 0.0 + o.executed;
  }

  lemma SettledIsSold(t: Tables, x: Exchange, parent: ClientId, i: nat, y: Exchange)
    requires Protection(t.rows, parent) == Some(i) && AllSensible(x) && Continues(x, y)
    requires Decide(t, x, parent).verdict == NotCovered && Reconciled(x, t.rows[i], parent)
    ensures SoldBy(y, t.rows[i], parent) == SettledSale(x, t.rows[i], parent)
  {
    if t.rows[i].kind == Oco || t.rows[i].kind == Otoco {
      SettledPairIsSold(x, t.rows[i], parent, y);
    } else {
      SettledSingleIsSold(t, x, parent, i, y);
    }
  }

  lemma {:induction false} PartlyCommitted(t: Tables, parent: ClientId, id: ClientId, legs: seq<OrderReply>,
                                           exit: OrderReply,
                        reason: ExitReason)
    requires CommitAll(t, parent, id, [StoreVerifiedLegs(legs), ExitPartly(exit, reason)]).1
    ensures HasExit(CommitAll(t, parent, id, [StoreVerifiedLegs(legs), ExitPartly(exit, reason)]).0.exits, id)
  {
    CommitTwo(t, parent, id, StoreVerifiedLegs(legs), ExitPartly(exit, reason));
    var t1 := RecordVerifiedLegs(t, id, legs).value;
    var u := RecordPartialExit(t1, id, exit.orderId, reason, exit.executed, exit.status).value;
    var symbol := t1.rows[Find(t1.rows, id).value].symbol;
    var existing := FindExit(t1.exits, symbol, exit.orderId);
    if existing.Some? {
      var n :| 0 <= n < |t1.exits| && t1.exits[n] == existing.value;
      assert t1.exits[n].protection == id;
    } else {
      assert u.exits[|t1.exits|].protection == id;
    }
  }

  lemma SettledIsRecorded(w: World, v: World, parent: ClientId, i: nat)
    requires UniqueIds(v.t.rows) && Evidenced(v) && v == w.(t := Recovered(w.t, w.x, parent).0)
    requires Recovered(w.t, w.x, parent).1 == NotCovered && Protection(w.t.rows, parent) == Some(i)
    requires i < |v.t.rows| && SameIdentity(w.t.rows[i], v.t.rows[i]) && Reconciled(w.x, w.t.rows[i], parent)
    ensures RecordedFor(v.t.exits, w.t.rows[i].clientId) == SettledSale(w.x, w.t.rows[i], parent)
  {
    var p := w.t.rows[i];
    RecordedIsEvidence(v, i, parent);
    SameKnown(w.x, p, v.t.rows[i], parent);
    KnownIsAll(w.x, p, parent);
    var e := ListEvidence(w.x, p, parent);
    if e.Pair? && Classify(e.legs).ClosedBy? {
      var o := Classify(e.legs);
      assert Decide(w.t, w.x, parent)
             == Plan(p.clientId, [StoreVerifiedLegs(e.legs), ExitPartly(o.leg, o.reason)], NotCovered);
      PartlyCommitted(w.t, parent, p.clientId, e.legs, o.leg, o.reason);
    }
  }

  /** An answer "not covered" leaves nothing of the protection that was sold, or can still be sold, without a
      record, exactly when the evidence settles it: not when the list is still executing although a leg has
      ended, nor when it is done although legs are live, nor in any other list status, nor when an
      unfilled working order leaves a SELL order live or executed, nor when a single order is not known. */
  lemma UncoveredExactly(w: World, settled: Settlements, parent: ClientId)
    requires Inv(w, settled) && Evidenced(w) && AllSensible(w.x) && Ready(w, settled, parent)
    requires Recovered(w.t, w.x, parent).1 == NotCovered && Protection(w.t.rows, parent).Some?
    ensures var p := w.t.rows[Protection(w.t.rows, parent).value];
            FullyRecorded(w.x, Recovered(w.t, w.x, parent).0.exits, p, parent) <==> Reconciled(w.x, p, parent)
  {
    var k, v := |Decide(w.t, w.x, parent).txs|, w.(t := Recovered(w.t, w.x, parent).0);
    var i := Protection(w.t.rows, parent).value;
    var p := w.t.rows[i];
    WholeRecovery(w.t, w.x, parent);
    RecoveryKeepsEvidence(w, v, settled, parent, k);
    assert SameIdentity(p, v.t.rows[..|w.t.rows|][i]);
    if Reconciled(w.x, p, parent) {
      SettledIsRecorded(w, v, parent, i);
      forall y | Continues(w.x, y) ensures SoldBy(y, p, parent) == RecordedFor(v.t.exits, p.clientId) {
        SettledIsSold(w.t, w.x, parent, i, y);
      }
    } else {
      RecordedMeansReconciled(w, v, parent, i);
      var y := UnsettledSells(w.t, w.x, parent, i);
    }
  }

  // ---------- reading one after the other ----------

  /** The recovery asks for the list first and for its legs afterwards, while the exchange goes on: the list as of
      `a`, its legs as of `b` and `c`. */
  function OcoReadInTurn(a: Exchange, b: Exchange, c: Exchange, p: Intent): Evidence {
    if p.clientId !in a.lists then NoEvidence
    else
      var l := a.lists[p.clientId];
      if !CheckedList(l, p.clientId, p.listId, p.symbol, OneCancelsOther)
          || !CheckedRefs(l.refs, p.symbol, 2) then NoEvidence
      else if l.refs[0].orderId !in b.byId || l.refs[1].orderId !in c.byId then NoEvidence
      else
        var legs := [b.byId[l.refs[0].orderId], c.byId[l.refs[1].orderId]];
        if (forall i | 0 <= i < 2 ::
              CheckedOrder(legs[i], p.symbol, Some(l.refs[i].orderId), Some(l.refs[i].clientId), Some(l.listId)))
           && ValidPair(legs) && StopTyped(legs)
        then Pair(legs, l.status, l.listId) else NoEvidence
  }

  /** The same for an OTOCO: the list as of `a`, the working order as of `b`, the SELL orders as of `c` and `d`. */
  function OtocoReadInTurn(a: Exchange, b: Exchange, c: Exchange, d: Exchange, p: Intent, parent: ClientId): Evidence {
    if p.clientId !in a.lists || parent !in b.byClient then NoEvidence
    else
      var l, working := a.lists[p.clientId], b.byClient[parent];
      var others := Others(l.refs, parent);
      if !CheckedList(l, p.clientId, p.listId, p.symbol, OneTriggersOther) || !CheckedRefs(l.refs, p.symbol, 3)
         || !CheckedOrder(working, p.symbol, None, Some(parent), Some(l.listId))
         || !(exists i | 0 <= i < |l.refs| :: l.refs[i].clientId == parent && l.refs[i].orderId == working.orderId)
         || |others| != 2 || !FoundByClient(c, p.symbol, others[0], l.listId)
         || !FoundByClient(d, p.symbol, others[1], l.listId)
      then NoEvidence
      else
        var legs := [c.byClient[others[0].clientId], d.byClient[others[1].clientId]];
        if working.status == Filled then Pair(legs, l.status, l.listId)
        else WorkingUnfilled(legs, IsTerminal(working.status) && working.executed > 0.0
                                   && IsTerminal(legs[0].status) && IsTerminal(legs[1].status),
                             l.status == AllDone, l.listId)
  }

  // The answer about one order by id, or by client id, is as of the later exchange.
  function SeenById(x: Exchange, later: Exchange, id: int): Exchange {
    if id in later.byId then x.(byId := x.byId[id := later.byId[id]]) else x
  }

  function SeenByClient(x: Exchange, later: Exchange, id: ClientId): Exchange {
    if id in later.byClient then x.(byClient := x.byClient[id := later.byClient[id]]) else x
  }

  // Such an exchange lies between the two.
  lemma BetweenOrders<K>(a: map<K, OrderReply>, b: map<K, OrderReply>, id: K)
    requires OrdersGoOn(a, b) && SensibleOrders(a) && SensibleOrders(b) && id in b
    ensures OrdersGoOn(a, a[id := b[id]]) && OrdersGoOn(a[id := b[id]], b) && SensibleOrders(a[id := b[id]])
  {
  }

  lemma BetweenById(x: Exchange, later: Exchange, id: int)
    requires Continues(x, later) && AllSensible(x)
    ensures Continues(x, SeenById(x, later, id)) && Continues(SeenById(x, later, id), later)
    ensures AllSensible(SeenById(x, later, id))
  {
    ContinuesItself(x);
    if id in later.byId {
      BetweenOrders(x.byId, later.byId, id);
    }
  }

  predicate SameAnswer(x: Exchange, y: Exchange, id: ClientId) {
    (id in x.byClient <==> id in y.byClient) && (id in x.byClient ==> x.byClient[id] == y.byClient[id])
  }

  lemma BetweenByClient(x: Exchange, later: Exchange, id: ClientId) returns (y: Exchange)
    requires Continues(x, later) && AllSensible(x)
    ensures Continues(x, y) && Continues(y, later) && AllSensible(y) && y.lists == x.lists
    ensures SameAnswer(y, later, id) && forall k | k != id :: SameAnswer(y, x, k)
  {
    y := SeenByClient(x, later, id);
    ContinuesItself(x);
    if id in later.byClient {
      BetweenOrders(x.byClient, later.byClient, id);
    }
  }

  lemma OcoSeenInTurn(a: Exchange, b: Exchange, c: Exchange, p: Intent) returns (z: Exchange)
    requires Continues(a, b) && Continues(b, c) && AllSensible(a)
    requires p.clientId in a.lists && CheckedRefs(a.lists[p.clientId].refs, p.symbol, 2)
    ensures Continues(a, z) && Continues(z, c) && OcoEvidence(z, p) == OcoReadInTurn(a, b, c, p)
  {
    var refs := a.lists[p.clientId].refs;
    BetweenById(a, b, refs[0].orderId);
    var y := SeenById(a, b, refs[0].orderId);
    ContinuesFurther(y, b, c);
    BetweenById(y, c, refs[1].orderId);
    z := SeenById(y, c, refs[1].orderId);
    ContinuesFurther(a, y, z);
    assert refs[0].orderId != refs[1].orderId;
  }

  /** What is read in turn is what could have been read at one moment: there is an exchange that the first may become,
      and that may become the last, whose evidence is the same. So nothing is lost by letting a recovery
      read a single state. */
  lemma OcoReadInTurnIsReadOnce(a: Exchange, b: Exchange, c: Exchange, p: Intent) returns (z: Exchange)
    requires Continues(a, b) && Continues(b, c) && AllSensible(a)
    ensures Continues(a, z) && Continues(z, c) && OcoEvidence(z, p) == OcoReadInTurn(a, b, c, p)
  {
    if p.clientId in a.lists && CheckedRefs(a.lists[p.clientId].refs, p.symbol, 2) {
      z := OcoSeenInTurn(a, b, c, p);
    } else {
      z := a;
      ContinuesItself(a);
      ContinuesFurther(a, b, c);
    }
  }

  // Three answers by client id, each as of a later exchange.
  lemma SeenInTurn(a: Exchange, b: Exchange, c: Exchange, d: Exchange, first: ClientId, second: ClientId,
                   third: ClientId)
      returns (z: Exchange)
    requires Continues(a, b) && Continues(b, c) && Continues(c, d) && AllSensible(a)
    requires first != second && first != third && second != third
    ensures Continues(a, z) && Continues(z, d) && z.lists == a.lists
    ensures SameAnswer(z, b, first) && SameAnswer(z, c, second) && SameAnswer(z, d, third)
  {
    var x := BetweenByClient(a, b, first);
    ContinuesFurther(x, b, c);
    var y := BetweenByClient(x, c, second);
    ContinuesFurther(y, c, d);
    z := BetweenByClient(y, d, third);
    ContinuesFurther(a, x, y);
    ContinuesFurther(a, y, z);
    assert SameAnswer(z, y, first) && SameAnswer(y, x, first) && SameAnswer(z, y, second);
  }

  lemma {:induction false} SameAnswersSameEvidence(z: Exchange, a: Exchange, b: Exchange, c: Exchange, d: Exchange,
                                                   p: Intent,
                                parent: ClientId)
    requires p.clientId in a.lists && z.lists == a.lists && |Others(a.lists[p.clientId].refs, parent)| == 2
    requires SameAnswer(z, b, parent)
    requires SameAnswer(z, c, Others(a.lists[p.clientId].refs, parent)[0].clientId)
    requires SameAnswer(z, d, Others(a.lists[p.clientId].refs, parent)[1].clientId)
    ensures OtocoEvidence(z, p, parent) == OtocoReadInTurn(a, b, c, d, p, parent)
  {
  }

  lemma OtocoReadInTurnIsReadOnce(a: Exchange, b: Exchange, c: Exchange, d: Exchange, p: Intent, parent: ClientId)
      returns (z: Exchange)
    requires Continues(a, b) && Continues(b, c) && Continues(c, d) && AllSensible(a)
    ensures Continues(a, z) && Continues(z, d) && OtocoEvidence(z, p, parent) == OtocoReadInTurn(a, b, c, d, p, parent)
  {
    if p.clientId in a.lists && CheckedRefs(a.lists[p.clientId].refs, p.symbol, 3)
       && |Others(a.lists[p.clientId].refs, parent)| == 2 {
      var others := Others(a.lists[p.clientId].refs, parent);
      OthersNames(a.lists[p.clientId].refs, parent);
      OthersNotWorking(a.lists[p.clientId].refs, parent);
      z := SeenInTurn(a, b, c, d, parent, others[0].clientId, others[1].clientId);
      SameAnswersSameEvidence(z, a, b, c, d, p, parent);
    } else {
      z := a;
      ContinuesItself(a);
      ContinuesFurther(a, b, c);
      ContinuesFurther(a, c, d);
    }
  }

  lemma {:induction false} OthersNotWorking(refs: seq<Ref>, parent: ClientId)
    ensures forall i | 0 <= i < |Others(refs, parent)| :: Others(refs, parent)[i].clientId != parent
  {
    if refs != [] {
      OthersNotWorking(refs[..|refs| - 1], parent);
    }
  }
}
