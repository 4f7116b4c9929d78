/** Whole runs of protections, fills, cancels, replacements, crashes and recoveries. A lifecycle closes on
    exactly what the BUY acquired less its recorded partial exits, once, and stays that way; recorded exits
    never exceed what was acquired. The exchange is free apart from one promise: what it has reported as
    ended does not change again. */
module ProtectionLifecycle {
  import opened Results
  import opened OrderJournal
  import opened ProtectionQuantity
  import opened ProtectionRecovery
  import opened JournalHistory
  import opened ProtectionConvergence

  datatype World = World(t: Tables, x: Exchange)

  /** The settlement of every BUY that has one; the others count what they executed. */
  type Settlements = map<ClientId, SettledBuy>

  datatype Event =
    | ExchangeMoves(next: Exchange)
    | Intend(intent: Intent)
    | Replace(parent: ClientId, intent: Intent)
    | Recover(parent: ClientId, k: nat)
    | Report(id: ClientId)
    | NoteAccepted(id: ClientId, done: bool, listId: Option<int>)
    | Settle(id: ClientId)
    | Mark(id: ClientId, state: IntentState)

  ghost predicate Evolves(x: Exchange, y: Exchange) {
    && (forall id | id in x.lists && x.lists[id].status == AllDone :: id in y.lists && y.lists[id] == x.lists[id])
    && (forall id | id in x.byId && IsFinal(x.byId[id].status) :: id in y.byId && y.byId[id] == x.byId[id])
    && (forall id | id in x.byClient && IsFinal(x.byClient[id].status) ::
        id in y.byClient && y.byClient[id] == x.byClient[id])
  }

  /** The BUY has ended, its final execution is on record, and so is its settlement if there is one. */
  predicate Ready(w: World, settled: Settlements, parent: ClientId) {
    var j := Find(w.t.rows, parent);
    && j.Some? && w.t.rows[j.value].side == Buy
    && parent in w.x.byClient && IsFinal(w.x.byClient[parent].status)
    && w.t.rows[j.value].executed == w.x.byClient[parent].executed
    && w.t.rows[j.value].quote == w.x.byClient[parent].quote
    && w.t.rows[j.value].orderId == Some(w.x.byClient[parent].orderId)
    && w.t.rows[j.value].settlement == if parent in settled then Some(settled[parent]) else None
  }

  function Residual(t: Tables, parent: ClientId): real {
    match Find(t.rows, parent)
    case None => 0.0
    case Some(j) => Acquired(t.rows[j]) - ExitSum(t.exits, parent)
  }

  /** A BUY gets a further SELL intent only when it has none yet, or right after a recovery found that
      nothing covers it, and then for no more than its residual. */
  ghost predicate Enabled(w: World, settled: Settlements, e: Event) {
    match e
    case ExchangeMoves(next) => Evolves(w.x, next)
    case Intend(intent) => intent.side == Sell && intent.parent.Some?
        ==> Protection(w.t.rows, intent.parent.value) == None
    case Replace(parent, intent) =>
      && Ready(w, settled, parent) && Protects(intent, parent) && Recovered(w.t, w.x, parent).1 == NotCovered
      && intent.quantity <= Residual(Recovered(w.t, w.x, parent).0, parent)
    case Recover(parent, _) => Ready(w, settled, parent)
    case Report(id) => id in w.x.byClient
    case Settle(id) => id in settled
    case NoteAccepted(_, _, _) => true
    case Mark(_, _) => true
  }

  function Next(w: World, settled: Settlements, e: Event): World {
    match e
    case ExchangeMoves(next) => w.(x := next)
    case Intend(intent) => w.(t := Prepare(w.t, intent).GetOr(w.t))
    case Replace(parent, intent) => var u := Recovered(w.t, w.x, parent).0; w.(t := Prepare(u, intent).GetOr(u))
    case Recover(parent, k) => w.(t := Interrupted(w.t, w.x, parent, k))
    case Report(id) => if id in w.x.byClient then w.(t := RecordOrder(w.t, id, w.x.byClient[id]).GetOr(w.t)) else w
    case NoteAccepted(id, done, listId) => w.(t := RecordList(w.t, id, done, listId).GetOr(w.t))
    case Settle(id) => if id in settled then w.(t := RecordSettlement(w.t, id, settled[id]).GetOr(w.t)) else w
    case Mark(id, state) => w.(t := SetState(w.t, id, state).GetOr(w.t))
  }

  // ---------- evidence of an ended pair stays ----------

  // The evidence about a protection when the exchange answers and no list id has been recorded.
  function Known(x: Exchange, p: Intent, parent: ClientId): Evidence {
    ListEvidence(x.(up := true), p.(listId := None), parent)
  }

  predicate FinalEvidence(x: Exchange, p: Intent, parent: ClientId) {
    var e := Known(x, p, parent);
    e.Pair? && e.status == AllDone && Classify(e.legs).ClosedBy?
  }

  lemma EvidenceFrozen(x: Exchange, y: Exchange, p: Intent, parent: ClientId)
    requires Evolves(x, y) && FinalEvidence(x, p, parent)
    ensures Known(y, p, parent) == Known(x, p, parent)
  {
  }

  lemma KnownIsAll(x: Exchange, p: Intent, parent: ClientId)
    ensures ListEvidence(x, p, parent) == NoEvidence || ListEvidence(x, p, parent) == Known(x, p, parent)
  {
  }

  /** Once the pair of the latest protection has ended by one leg, a recovery can only refuse or repeat
      the same exit. */
  lemma RecoveryRepeats(t: Tables, x: Exchange, parent: ClientId)
    requires Protection(t.rows, parent).Some?
    requires FinalEvidence(x, t.rows[Protection(t.rows, parent).value], parent)
    ensures var p, plan := t.rows[Protection(t.rows, parent).value], Decide(t, x, parent);
            var e := Known(x, p, parent);
            var leg, reason := Classify(e.legs).leg, Classify(e.legs).reason;
            || plan == REFUSAL
            || (plan.protection == p.clientId
                && if leg.status == Filled then plan.txs == [StoreVerifiedLegs(e.legs), Close(leg, reason)]
                && plan.verdict == Covered
                   else plan.txs == [StoreVerifiedLegs(e.legs), ExitPartly(leg, reason)] && plan.verdict == NotCovered)
  {
    KnownIsAll(x, t.rows[Protection(t.rows, parent).value], parent);
  }

  // ---------- what a recovery may leave behind ----------

  ghost predicate OnlyRows(t: Tables, u: Tables) {
    u.closures == t.closures && u.exits == t.exits
  }

  // The lifecycle of protection row i was closed, by this exit, on exactly the residual.
  ghost predicate ClosedNow(t: Tables, u: Tables, parent: ClientId, i: nat, exit: OrderReply, reason: ExitReason) {
    && i < |t.rows| && u.exits == t.exits && t.rows[i].clientId !in t.closures
    && u.closures == t.closures[t.rows[i].clientId := Closure(t.rows[i].symbol, parent, exit.orderId, reason)]
    && Residual(t, parent) == t.rows[i].quantity == exit.executed
  }

  // A partial exit of protection row i was added, for at most what it covered.
  ghost predicate SoldNow(t: Tables, u: Tables, parent: ClientId, i: nat, exit: OrderReply, reason: ExitReason) {
    && i < |t.rows| && u.closures == t.closures
    && FindExit(t.exits, t.rows[i].symbol, exit.orderId) == None
    && u.exits == t.exits
        + [PartialExit(t.rows[i].symbol, exit.orderId, t.rows[i].clientId, parent, reason, exit.executed, exit.status)]
  }

  lemma CloseLeaves(t: Tables, parent: ClientId, i: nat, exit: OrderReply, reason: ExitReason, u: Tables)
    requires UniqueIds(t.rows) && i < |t.rows| && t.rows[i].parent == Some(parent)
    requires MarkExactClosed(t, t.rows[i].clientId, exit.orderId, reason, exit) == Some(u)
    ensures OnlyRows(t, u) || ClosedNow(t, u, parent, i, exit, reason)
  {
    FindUnique(t.rows, i, |t.rows|);
  }

  lemma PartialLeaves(t: Tables, parent: ClientId, i: nat, exit: OrderReply, reason: ExitReason, u: Tables)
    requires UniqueIds(t.rows) && i < |t.rows| && t.rows[i].parent == Some(parent)
    requires RecordPartialExit(t, t.rows[i].clientId, exit.orderId, reason, exit.executed, exit.status) == Some(u)
    ensures OnlyRows(t, u) || SoldNow(t, u, parent, i, exit, reason)
  {
    FindUnique(t.rows, i, |t.rows|);
    PartialExitKeeps(t, t.rows[i].clientId, exit.orderId, reason, exit.executed, exit.status);
    StateChanges(t, t.rows[i].clientId, Failed);
  }

  lemma CloseAfterLegs(t: Tables, parent: ClientId, i: nat, legs: seq<OrderReply>, exit: OrderReply, reason: ExitReason,
                       u: Tables)
    requires Apart(t, parent, i) && RecordVerifiedLegs(t, t.rows[i].clientId, legs).Some?
    requires MarkExactClosed(RecordVerifiedLegs(t, t.rows[i].clientId, legs).value, t.rows[i].clientId, exit.orderId,
                             reason, exit)
             == Some(u)
    ensures OnlyRows(t, u) || ClosedNow(t, u, parent, i, exit, reason)
  {
    LegsStored(t, i, legs);
    var t1 := RecordVerifiedLegs(t, t.rows[i].clientId, legs).value;
    UniqueKept(t.rows, t1.rows);
    FindStable(t.rows, t1.rows, parent, |t.rows|);
    CloseLeaves(t1, parent, i, exit, reason, u);
  }

  lemma PartialAfterLegs(t: Tables, parent: ClientId, i: nat, legs: seq<OrderReply>, exit: OrderReply,
                         reason: ExitReason, u: Tables)
    requires Apart(t, parent, i) && RecordVerifiedLegs(t, t.rows[i].clientId, legs).Some?
    requires RecordPartialExit(RecordVerifiedLegs(t, t.rows[i].clientId, legs).value, t.rows[i].clientId, exit.orderId,
                               reason,
                               exit.executed, exit.status) == Some(u)
    ensures OnlyRows(t, u) || SoldNow(t, u, parent, i, exit, reason)
  {
    LegsStored(t, i, legs);
    var t1 := RecordVerifiedLegs(t, t.rows[i].clientId, legs).value;
    UniqueKept(t.rows, t1.rows);
    PartialLeaves(t1, parent, i, exit, reason, u);
  }

  lemma ExitLeaves(t: Tables, x: Exchange, parent: ClientId, i: nat, plan: Plan, u: Tables)
    requires Apart(t, parent, i) && PlanShape(t, x, parent, i, plan) && |plan.txs| == 2
             && plan.txs[0].StoreVerifiedLegs?
    requires Reaches(t, parent, plan.protection, plan.txs, u)
    ensures OnlyRows(t, u)
            || (plan.txs[1].Close? && ClosedNow(t, u, parent, i, plan.txs[1].exit, plan.txs[1].reason))
            || (plan.txs[1].ExitPartly? && SoldNow(t, u, parent, i, plan.txs[1].exit, plan.txs[1].reason))
  {
    var legs, id, b := plan.txs[0].legs, plan.protection, plan.txs[1];
    if u == t {
    } else if Commit(t, parent, id, plan.txs[0]) == Some(u) {
      VerifiedLegsKeep(t, id, legs);
    } else if b.Close? {
      CloseAfterLegs(t, parent, i, legs, b.exit, b.reason, u);
    } else {
      PartialAfterLegs(t, parent, i, legs, b.exit, b.reason, u);
    }
  }

  lemma OtherLeaves(t: Tables, x: Exchange, parent: ClientId, i: nat, plan: Plan, u: Tables)
    requires UniqueIds(t.rows) && i < |t.rows| && Protects(t.rows[i], parent)
    requires plan.txs != [] && !plan.txs[0].StoreVerifiedLegs? && (!plan.txs[0].NoteList? ==> Apart(t, parent, i))
    requires PlanShape(t, x, parent, i, plan) && Reaches(t, parent, plan.protection, plan.txs, u)
    ensures OnlyRows(t, u)
  {
    if u != t && plan.txs[0].ProtectByPair? {
      PairProtectedStored(t, parent, i, plan.txs[0].legs, plan.txs[0].listId);
    }
  }

  lemma RecoveryLeaves(t: Tables, x: Exchange, parent: ClientId, k: nat)
    requires UniqueIds(t.rows)
    ensures var plan, u, i := Decide(t, x, parent), Interrupted(t, x, parent, k), Protection(t.rows, parent);
            && SameIntents(t.rows, u.rows) && SameInventory(t.rows, u.rows)
            && (|| OnlyRows(t, u)
                || (i.Some? && |plan.txs| == 2 && plan.txs[1].Close?
                    && ClosedNow(t, u, parent, i.value, plan.txs[1].exit, plan.txs[1].reason))
                || (i.Some? && |plan.txs| == 2 && plan.txs[1].ExitPartly?
                    && SoldNow(t, u, parent, i.value, plan.txs[1].exit, plan.txs[1].reason)))
  {
    var plan := Decide(t, x, parent);
    if plan.txs != [] {
      PlanHasShape(t, x, parent);
      var i := Protection(t.rows, parent).value;
      PrefixReaches(t, parent, plan.protection, plan.txs, if k <= |plan.txs| then k else |plan.txs|);
      var u := Interrupted(t, x, parent, k);
      if plan.txs[0].StoreVerifiedLegs? {
        ExitShape(t, x, parent, i, plan, u);
        ExitLeaves(t, x, parent, i, plan, u);
      } else {
        OtherShape(t, x, parent, i, plan, u);
        OtherLeaves(t, x, parent, i, plan, u);
      }
    }
  }

  lemma ExitPairMeans(t: Tables, parent: ClientId, p: Intent, e: Evidence)
    requires e.Pair?
    requires var plan := DecidePair(t, parent, p, e.legs, e.status, e.listId);
             |plan.txs| == 2 && (plan.txs[1].Close? || plan.txs[1].ExitPartly?)
    ensures var plan, o := DecidePair(t, parent, p, e.legs, e.status, e.listId), Classify(e.legs);
            && e.status == AllDone && o.ClosedBy? && o.leg in e.legs
            && plan.txs[1].exit == o.leg && plan.txs[1].reason == o.reason
            && (plan.txs[1].Close? <==> o.leg.status == Filled)
            && Verified(t, parent, p, e.legs, IsClosing(o))
  {
  }

  lemma ExitPlanMeans(t: Tables, x: Exchange, parent: ClientId)
    requires var plan := Decide(t, x, parent); |plan.txs| == 2 && (plan.txs[1].Close? || plan.txs[1].ExitPartly?)
    ensures Protection(t.rows, parent).Some?
    ensures var plan, p := Decide(t, x, parent), t.rows[Protection(t.rows, parent).value];
            && FinalEvidence(x, p, parent)
            && var o := Classify(Known(x, p, parent).legs);
            && plan.txs[1].exit == o.leg && plan.txs[1].reason == o.reason
            && (plan.txs[1].Close? <==> o.leg.status == Filled)
            && Find(t.rows, parent).Some?
            && 0.0 <= o.leg.executed <= p.quantity <= Acquired(t.rows[Find(t.rows, parent).value])
  {
    var p := t.rows[Protection(t.rows, parent).value];
    var e := ListEvidence(x, p, parent);
    KnownIsAll(x, p, parent);
    ExitPairMeans(t, parent, p, e);
    assert LegConsistent(Classify(e.legs).leg, p.quantity);
  }

  // ---------- the invariant ----------

  predicate Sold(exits: seq<PartialExit>, parent: ClientId) {
    exists k | 0 <= k < |exits| :: exits[k].parent == parent
  }

  predicate HasExit(exits: seq<PartialExit>, id: ClientId) {
    exists k | 0 <= k < |exits| :: exits[k].protection == id
  }

  predicate EndedBy(x: Exchange, p: Intent, parent: ClientId, filled: bool, orderId: int) {
    && FinalEvidence(x, p, parent)
    && (Classify(Known(x, p, parent).legs).leg.status == Filled <==> filled)
    && Classify(Known(x, p, parent).legs).leg.orderId == orderId
  }

  /** A closure belongs to the latest protection of its BUY, whose quantity is exactly the residual, and
      the exchange has ended that protection by the recorded exit. */
  predicate ClosureSound(w: World, settled: Settlements, id: ClientId, c: Closure) {
    var i := Protection(w.t.rows, c.parent);
    && i.Some? && w.t.rows[i.value].clientId == id && Ready(w, settled, c.parent)
    && Residual(w.t, c.parent) == w.t.rows[i.value].quantity
    && EndedBy(w.x, w.t.rows[i.value], c.parent, true, c.exitOrderId)
    && Classify(Known(w.x, w.t.rows[i.value], c.parent).legs).reason == c.reason
    && Classify(Known(w.x, w.t.rows[i.value], c.parent).legs).leg.executed == w.t.rows[i.value].quantity
  }

  /** Recorded exits never exceed what was acquired, and the latest protection, until its own exit is
      recorded, covers no more than the residual. */
  ghost predicate ExitsSound(w: World, settled: Settlements, parent: ClientId) {
    var i := Protection(w.t.rows, parent);
    Sold(w.t.exits, parent) ==>
      && i.Some? && Ready(w, settled, parent) && Residual(w.t, parent) >= 0.0
      && var p := w.t.rows[i.value];
      if HasExit(w.t.exits, p.clientId)
      then exists orderId :: EndedBy(w.x, p, parent, false, orderId) && FindExit(w.t.exits, p.symbol, orderId).Some?
      else p.quantity <= Residual(w.t, parent)
  }

  predicate OwnersKnown(t: Tables) {
    forall k | 0 <= k < |t.exits| :: Find(t.rows, t.exits[k].protection).Some?
  }

  ghost predicate Inv(w: World, settled: Settlements) {
    && UniqueIds(w.t.rows) && OwnersKnown(w.t)
    && (forall id | id in w.t.closures :: ClosureSound(w, settled, id, w.t.closures[id]))
    && (forall parent :: ExitsSound(w, settled, parent))
  }

  // ---------- steps that leave a BUY alone ----------

  // Intents are never rewritten and no further SELL of this BUY appears.
  predicate Grown(a: seq<Intent>, b: seq<Intent>, parent: ClientId) {
    && UniqueIds(b) && |a| <= |b| && SameIntents(a, b[..|a|]) && forall k | |a| <= k < |b| :: !Protects(b[k], parent)
  }

  lemma {:induction false} LatestInPrefix(rows: seq<Intent>, parent: ClientId, m: nat, n: nat)
    requires m <= n <= |rows| && forall k | m <= k < n :: !Protects(rows[k], parent)
    ensures LatestBelow(rows, parent, n) == LatestBelow(rows[..m], parent, m)
  {
    if n > m {
      LatestInPrefix(rows, parent, m, n - 1);
    } else if n > 0 {
      LatestPrefix(rows, parent, m, n);
    }
  }

  lemma {:induction false} LatestPrefix(rows: seq<Intent>, parent: ClientId, m: nat, n: nat)
    requires n <= m <= |rows|
    ensures LatestBelow(rows, parent, n) == LatestBelow(rows[..m], parent, n)
  {
    if n > 0 {
      LatestPrefix(rows, parent, m, n - 1);
    }
  }

  lemma GrownFinds(a: seq<Intent>, b: seq<Intent>, parent: ClientId, id: ClientId)
    requires UniqueIds(a) && Grown(a, b, parent)
    ensures Protection(b, parent) == Protection(a, parent)
    ensures Find(a, id).Some? ==> Find(b, id) == Find(a, id)
  {
    LatestInPrefix(b, parent, |a|, |b|);
    ProtectionStable(a, b[..|a|], parent, |a|);
    if Find(a, id).Some? {
      var i := Find(a, id).value;
      assert SameIdentity(a[i], b[..|a|][i]);
      FindUnique(b, i, |b|);
    }
  }

  predicate SameAcquisition(a: seq<Intent>, b: seq<Intent>, parent: ClientId) {
    var j := Find(a, parent);
    j.Some? ==> j.value < |b| && SameResult(a[j.value], b[j.value])
  }

  // The exits of this BUY stay as they are.
  ghost predicate SameExits(t: Tables, u: Tables, parent: ClientId) {
    || u.exits == t.exits
    || (|u.exits| == |t.exits| + 1 && t.exits <= u.exits && u.exits[|t.exits|].parent != parent
        && (Protection(t.rows, parent).Some? ==>
              u.exits[|t.exits|].protection != t.rows[Protection(t.rows, parent).value].clientId))
  }

  ghost predicate Undisturbed(w: World, v: World, settled: Settlements, parent: ClientId) {
    && Grown(w.t.rows, v.t.rows, parent) && (Ready(w, settled, parent) ==> SameAcquisition(w.t.rows, v.t.rows, parent))
    && SameExits(w.t, v.t, parent) && Evolves(w.x, v.x)
  }

  lemma {:induction false} LastExit(a: seq<PartialExit>, b: seq<PartialExit>, parent: ClientId)
    requires |b| == |a| + 1 && a <= b
    ensures ExitSum(b, parent) == ExitSum(a, parent) + if b[|a|].parent == parent then b[|a|].quantity else 0.0
    ensures forall symbol, orderId :: FindExit(a, symbol, orderId).Some? ==> FindExit(b, symbol, orderId).Some?
    ensures b[|a|].parent != parent ==> Sold(b, parent) == Sold(a, parent)
    ensures forall id :: b[|a|].protection != id ==> HasExit(b, id) == HasExit(a, id)
  {
    assert b[..|b| - 1] == a;
    assert forall k | 0 <= k < |a| :: a[k] == b[k];
  }

  lemma ReadyKept(w: World, v: World, settled: Settlements, parent: ClientId)
    requires UniqueIds(w.t.rows) && Undisturbed(w, v, settled, parent) && Ready(w, settled, parent)
    ensures Ready(v, settled, parent) && Residual(v.t, parent) == Residual(w.t, parent)
  {
    GrownFinds(w.t.rows, v.t.rows, parent, parent);
    var j := Find(w.t.rows, parent).value;
    assert SameIdentity(w.t.rows[j], v.t.rows[..|w.t.rows|][j]);
    if v.t.exits != w.t.exits {
      LastExit(w.t.exits, v.t.exits, parent);
    }
  }

  lemma LatestKept(w: World, v: World, settled: Settlements, parent: ClientId)
    requires UniqueIds(w.t.rows) && Undisturbed(w, v, settled, parent) && Protection(w.t.rows, parent).Some?
    ensures Protection(v.t.rows, parent) == Protection(w.t.rows, parent)
    ensures var i := Protection(w.t.rows, parent).value;
            && SameIdentity(w.t.rows[i], v.t.rows[i])
            && (FinalEvidence(w.x, w.t.rows[i], parent)
                ==> Known(v.x, v.t.rows[i], parent) == Known(w.x, w.t.rows[i], parent))
  {
    GrownFinds(w.t.rows, v.t.rows, parent, parent);
    var i := Protection(w.t.rows, parent).value;
    assert SameIdentity(w.t.rows[i], v.t.rows[..|w.t.rows|][i]);
    if FinalEvidence(w.x, w.t.rows[i], parent) {
      EvidenceFrozen(w.x, v.x, w.t.rows[i], parent);
      SameKnown(v.x, w.t.rows[i], v.t.rows[i], parent);
    }
  }

  lemma SameKnown(x: Exchange, p: Intent, q: Intent, parent: ClientId)
    requires SameIdentity(p, q)
    ensures Known(x, p, parent) == Known(x, q, parent)
  {
  }

  lemma ClosureKept(w: World, v: World, settled: Settlements, id: ClientId, c: Closure)
    requires UniqueIds(w.t.rows) && Undisturbed(w, v, settled, c.parent) && ClosureSound(w, settled, id, c)
    ensures ClosureSound(v, settled, id, c)
  {
    ReadyKept(w, v, settled, c.parent);
    LatestKept(w, v, settled, c.parent);
  }

  lemma ExitsKept(w: World, v: World, settled: Settlements, parent: ClientId)
    requires UniqueIds(w.t.rows) && Undisturbed(w, v, settled, parent) && ExitsSound(w, settled, parent)
    ensures ExitsSound(v, settled, parent)
  {
    if v.t.exits != w.t.exits {
      LastExit(w.t.exits, v.t.exits, parent);
    }
    if Sold(v.t.exits, parent) {
      ReadyKept(w, v, settled, parent);
      LatestKept(w, v, settled, parent);
      var p := w.t.rows[Protection(w.t.rows, parent).value];
      if HasExit(w.t.exits, p.clientId) {
        var orderId :| EndedBy(w.x, p, parent, false, orderId) && FindExit(w.t.exits, p.symbol, orderId).Some?;
        assert EndedBy(v.x, v.t.rows[Protection(v.t.rows, parent).value], parent, false, orderId);
      }
    }
  }

  // ---------- one step ----------

  lemma QuietStep(w: World, v: World, settled: Settlements)
    requires Inv(w, settled) && SameIntents(w.t.rows, v.t.rows) && OnlyRows(w.t, v.t) && Evolves(w.x, v.x)
    requires forall parent :: Ready(w, settled, parent) ==> SameAcquisition(w.t.rows, v.t.rows, parent)
    ensures Inv(v, settled)
  {
    UniqueKept(w.t.rows, v.t.rows);
    assert v.t.rows[..|w.t.rows|] == v.t.rows;
    forall parent ensures ExitsSound(v, settled, parent) {
      assert Undisturbed(w, v, settled, parent);
      ExitsKept(w, v, settled, parent);
    }
    forall id | id in v.t.closures ensures ClosureSound(v, settled, id, v.t.closures[id]) {
      ClosureKept(w, v, settled, id, v.t.closures[id]);
    }
    forall k | 0 <= k < |v.t.exits| ensures Find(v.t.rows, v.t.exits[k].protection).Some? {
      FindStable(w.t.rows, v.t.rows, v.t.exits[k].protection, |w.t.rows|);
    }
  }

  // One row is rewritten, and if it is a BUY whose result is final, to the same acquisition.
  lemma RowStep(w: World, settled: Settlements, i: nat, row: Intent)
    requires Inv(w, settled) && i < |w.t.rows| && SameIdentity(w.t.rows[i], row)
    requires Ready(w, settled, row.clientId) ==> SameResult(w.t.rows[i], row)
    ensures Inv(w.(t := WithRow(w.t, i, row)), settled)
  {
    QuietStep(w, w.(t := WithRow(w.t, i, row)), settled);
  }

  lemma BookkeepingStep(w: World, settled: Settlements, e: Event)
    requires Inv(w, settled) && Enabled(w, settled, e) && (e.Report? || e.NoteAccepted? || e.Settle? || e.Mark?)
    ensures Inv(Next(w, settled, e), settled)
  {
    var i := Find(w.t.rows, e.id);
    if i.Some? && Next(w, settled, e) != w {
      var row := Next(w, settled, e).t.rows[i.value];
      assert Next(w, settled, e) == w.(t := WithRow(w.t, i.value, row));
      RowStep(w, settled, i.value, row);
    }
  }

  lemma Appended(t: Tables, intent: Intent)
    requires UniqueIds(t.rows) && OwnersKnown(t) && Find(t.rows, intent.clientId) == None
    ensures UniqueIds(t.rows + [intent]) && OwnersKnown(t.(rows := t.rows + [intent]))
    ensures forall parent | !Protects(intent, parent) :: Grown(t.rows, t.rows + [intent], parent)
    ensures forall id | Find(t.rows, id).Some? :: Find(t.rows + [intent], id) == Find(t.rows, id)
    ensures !HasExit(t.exits, intent.clientId)
  {
    var rows := t.rows + [intent];
    assert rows[..|t.rows|] == t.rows;
    forall id | Find(t.rows, id).Some? ensures Find(rows, id) == Find(t.rows, id) {
      FindUnique(rows, Find(t.rows, id).value, |rows|);
    }
  }

  // A new intent: only the BUY it would protect needs looking at.
  lemma AppendStep(w: World, v: World, settled: Settlements, intent: Intent)
    requires Inv(w, settled) && Find(w.t.rows, intent.clientId) == None
    requires v == w.(t := w.t.(rows := w.t.rows + [intent]))
    requires forall id | id in w.t.closures :: !Protects(intent, w.t.closures[id].parent)
    requires forall parent | Protects(intent, parent) :: ExitsSound(v, settled, parent)
    ensures Inv(v, settled)
  {
    Appended(w.t, intent);
    forall parent ensures ExitsSound(v, settled, parent) {
      if !Protects(intent, parent) {
        assert Undisturbed(w, v, settled, parent);
        ExitsKept(w, v, settled, parent);
      }
    }
    forall id | id in v.t.closures ensures ClosureSound(v, settled, id, v.t.closures[id]) {
      assert Undisturbed(w, v, settled, w.t.closures[id].parent);
      ClosureKept(w, v, settled, id, v.t.closures[id]);
    }
  }

  lemma IntendStep(w: World, settled: Settlements, intent: Intent)
    requires Inv(w, settled) && Enabled(w, settled, Intend(intent))
    ensures Inv(Next(w, settled, Intend(intent)), settled)
  {
    if Find(w.t.rows, intent.clientId) == None {
      forall id | id in w.t.closures ensures !Protects(intent, w.t.closures[id].parent) {
        assert ClosureSound(w, settled, id, w.t.closures[id]);
      }
      forall parent | Protects(intent, parent) ensures ExitsSound(Next(w, settled, Intend(intent)), settled, parent) {
        assert ExitsSound(w, settled, parent);
      }
      AppendStep(w, Next(w, settled, Intend(intent)), settled, intent);
    }
  }

  // ---------- the recovery step ----------

  lemma {:induction false} NothingSold(exits: seq<PartialExit>, parent: ClientId)
    requires !Sold(exits, parent)
    ensures ExitSum(exits, parent) == 0.0
  {
    if exits != [] {
      assert exits[|exits| - 1].parent != parent;
      NothingSold(exits[..|exits| - 1], parent);
    }
  }

  // What the recovery of one BUY means for every BUY, apart from exits of its own.
  lemma RecoveryDisturbs(w: World, v: World, settled: Settlements, parent: ClientId, k: nat, other: ClientId)
    requires UniqueIds(w.t.rows) && v == w.(t := Interrupted(w.t, w.x, parent, k))
    requires other != parent || v.t.exits == w.t.exits
    ensures Undisturbed(w, v, settled, other)
  {
    RecoveryLeaves(w.t, w.x, parent, k);
    UniqueKept(w.t.rows, v.t.rows);
    assert v.t.rows[..|w.t.rows|] == v.t.rows;
  }

  lemma NewExitSound(w: World, v: World, settled: Settlements, parent: ClientId, k: nat)
    requires Inv(w, settled) && Ready(w, settled, parent) && v == w.(t := Interrupted(w.t, w.x, parent, k))
    requires v.t.exits != w.t.exits
    ensures ExitsSound(v, settled, parent)
  {
    RecoveryLeaves(w.t, w.x, parent, k);
    ExitPlanMeans(w.t, w.x, parent);
    LastExit(w.t.exits, v.t.exits, parent);
    var i, j := Protection(w.t.rows, parent).value, Find(w.t.rows, parent).value;
    var p, exit := w.t.rows[i], v.t.exits[|w.t.exits|];
    ProtectionStable(w.t.rows, v.t.rows, parent, |w.t.rows|);
    FindStable(w.t.rows, v.t.rows, parent, |w.t.rows|);
    assert SameIdentity(p, v.t.rows[i]) && SameIdentity(w.t.rows[j], v.t.rows[j]);
    SameKnown(w.x, p, v.t.rows[i], parent);
    assert ExitsSound(w, settled, parent);
    if !Sold(w.t.exits, parent) {
      NothingSold(w.t.exits, parent);
    }
    assert HasExit(v.t.exits, p.clientId) && EndedBy(v.x, v.t.rows[i], parent, false, exit.orderId);
  }

  lemma NewClosureSound(w: World, v: World, settled: Settlements, parent: ClientId, k: nat)
    requires Inv(w, settled) && Ready(w, settled, parent) && v == w.(t := Interrupted(w.t, w.x, parent, k))
    requires v.t.closures != w.t.closures
    ensures Protection(w.t.rows, parent).Some? && v.t.exits == w.t.exits
    ensures var id := w.t.rows[Protection(w.t.rows, parent).value].clientId;
            && id !in w.t.closures && id in v.t.closures && v.t.closures == w.t.closures[id := v.t.closures[id]]
            && ClosureSound(v, settled, id, v.t.closures[id])
  {
    RecoveryLeaves(w.t, w.x, parent, k);
    ExitPlanMeans(w.t, w.x, parent);
    RecoveryDisturbs(w, v, settled, parent, k, parent);
    ReadyKept(w, v, settled, parent);
    LatestKept(w, v, settled, parent);
  }

  // With a closure on record a recovery finds the same exit again and records nothing more.
  lemma ClosedStaysClosed(w: World, v: World, settled: Settlements, parent: ClientId, k: nat, id: ClientId)
    requires Inv(w, settled) && v == w.(t := Interrupted(w.t, w.x, parent, k))
    requires id in w.t.closures && w.t.closures[id].parent == parent
    ensures OnlyRows(w.t, v.t) && Recovered(w.t, w.x, parent).1 != NotCovered
  {
    assert ClosureSound(w, settled, id, w.t.closures[id]);
    RecoveryRepeats(w.t, w.x, parent);
    RecoveryLeaves(w.t, w.x, parent, k);
  }

  lemma RecoverStep(w: World, settled: Settlements, parent: ClientId, k: nat)
    requires Inv(w, settled) && Ready(w, settled, parent)
    ensures Inv(w.(t := Interrupted(w.t, w.x, parent, k)), settled)
  {
    var v := w.(t := Interrupted(w.t, w.x, parent, k));
    RecoveryLeaves(w.t, w.x, parent, k);
    UniqueKept(w.t.rows, v.t.rows);
    forall other ensures ExitsSound(v, settled, other) {
      if other == parent && v.t.exits != w.t.exits {
        NewExitSound(w, v, settled, parent, k);
      } else {
        RecoveryDisturbs(w, v, settled, parent, k, other);
        ExitsKept(w, v, settled, other);
      }
    }
    forall id | id in v.t.closures ensures ClosureSound(v, settled, id, v.t.closures[id]) {
      RecoveryKeepsClosure(w, v, settled, parent, k, id);
    }
    forall n | 0 <= n < |v.t.exits| ensures Find(v.t.rows, v.t.exits[n].protection).Some? {
      FindStable(w.t.rows, v.t.rows, v.t.exits[n].protection, |w.t.rows|);
      if n == |w.t.exits| {
        FindUnique(w.t.rows, Protection(w.t.rows, parent).value, |w.t.rows|);
      }
    }
  }

  lemma RecoveryKeepsClosure(w: World, v: World, settled: Settlements, parent: ClientId, k: nat, id: ClientId)
    requires Inv(w, settled) && Ready(w, settled, parent) && v == w.(t := Interrupted(w.t, w.x, parent, k))
    requires id in v.t.closures
    ensures ClosureSound(v, settled, id, v.t.closures[id])
    ensures id in w.t.closures ==> v.t.closures[id] == w.t.closures[id]
  {
    if v.t.closures != w.t.closures {
      NewClosureSound(w, v, settled, parent, k);
    }
    if id in w.t.closures {
      var c := w.t.closures[id];
      if c.parent == parent {
        ClosedStaysClosed(w, v, settled, parent, k, id);
      }
      RecoveryDisturbs(w, v, settled, parent, k, c.parent);
      ClosureKept(w, v, settled, id, c);
    }
  }

  lemma UncoveredMeansOpen(u: World, settled: Settlements, parent: ClientId)
    requires Inv(u, settled) && Recovered(u.t, u.x, parent).1 == NotCovered
    ensures forall id | id in u.t.closures :: u.t.closures[id].parent != parent
  {
    forall id | id in u.t.closures ensures u.t.closures[id].parent != parent {
      if u.t.closures[id].parent == parent {
        ClosedStaysClosed(u, u.(t := Interrupted(u.t, u.x, parent, 0)), settled, parent, 0, id);
      }
    }
  }

  lemma ReplacedSound(u: World, v: World, settled: Settlements, parent: ClientId, intent: Intent)
    requires Inv(u, settled)
    requires Find(u.t.rows, intent.clientId) == None && Protects(intent, parent)
             && intent.quantity <= Residual(u.t, parent)
    requires v == u.(t := u.t.(rows := u.t.rows + [intent]))
    ensures ExitsSound(v, settled, parent)
  {
    assert ExitsSound(u, settled, parent);
    Appended(u.t, intent);
  }

  lemma UncoveredAppend(u: World, v: World, settled: Settlements, parent: ClientId, intent: Intent)
    requires Inv(u, settled) && Recovered(u.t, u.x, parent).1 == NotCovered
    requires Find(u.t.rows, intent.clientId) == None && Protects(intent, parent)
             && intent.quantity <= Residual(u.t, parent)
    requires v == u.(t := u.t.(rows := u.t.rows + [intent]))
    ensures Inv(v, settled)
  {
    UncoveredMeansOpen(u, settled, parent);
    ReplacedSound(u, v, settled, parent, intent);
    AppendStep(u, v, settled, intent);
  }

  lemma ReplaceStep(w: World, settled: Settlements, parent: ClientId, intent: Intent)
    requires Inv(w, settled) && Enabled(w, settled, Replace(parent, intent))
    ensures Inv(Next(w, settled, Replace(parent, intent)), settled)
  {
    WholeRecovery(w.t, w.x, parent);
    RecoverStep(w, settled, parent, |Decide(w.t, w.x, parent).txs|);
    var u := w.(t := Recovered(w.t, w.x, parent).0);
    if Find(u.t.rows, intent.clientId) == None {
      UncoveredAppend(u, u.(t := u.t.(rows := u.t.rows + [intent])), settled, parent, intent);
    }
  }

  lemma WholeRecovery(t: Tables, x: Exchange, parent: ClientId)
    requires UniqueIds(t.rows)
    ensures Interrupted(t, x, parent, |Decide(t, x, parent).txs|) == Recovered(t, x, parent).0
    ensures Recovered(Recovered(t, x, parent).0, x, parent) == Recovered(t, x, parent)
  {
    var plan := Decide(t, x, parent);
    assert plan.txs[..|plan.txs|] == plan.txs;
    Idempotent(t, x, parent);
  }

  lemma StepKeeps(w: World, settled: Settlements, e: Event)
    requires Inv(w, settled) && Enabled(w, settled, e)
    ensures Inv(Next(w, settled, e), settled)
  {
    match e
    case ExchangeMoves(next) => QuietStep(w, w.(x := next), settled);
    case Intend(intent) => IntendStep(w, settled, intent);
    case Replace(parent, intent) => ReplaceStep(w, settled, parent, intent);
    case Recover(parent, k) => RecoverStep(w, settled, parent, k);
    case _ => BookkeepingStep(w, settled, e);
  }

  // ---------- whole runs ----------

  ghost predicate Legal(w: World, settled: Settlements, es: seq<Event>)
    decreases |es|
  {
    es == [] || (Enabled(w, settled, es[0]) && Legal(Next(w, settled, es[0]), settled, es[1..]))
  }

  function Final(w: World, settled: Settlements, es: seq<Event>): World
    decreases |es|
  {
    if es == [] then w else Final(Next(w, settled, es[0]), settled, es[1..])
  }

  const EMPTY := Tables([], map[], map[], [])

  lemma {:induction false} RunKeeps(w: World, settled: Settlements, es: seq<Event>)
    requires Inv(w, settled) && Legal(w, settled, es)
    ensures Inv(Final(w, settled, es), settled)
    decreases |es|
  {
    if es != [] {
      StepKeeps(w, settled, es[0]);
      RunKeeps(Next(w, settled, es[0]), settled, es[1..]);
    }
  }

  /** Over every legal run from an empty journal: a lifecycle is closed only on everything the BUY acquired.
      The recorded partial exits and the final exit, completely filled for the protection's whole quantity,
      add up to it exactly, and a BUY has at most one closure. */
  lemma {:induction false} ClosesOnRecordedExits(x: Exchange, settled: Settlements, es: seq<Event>, id: ClientId)
    requires Legal(World(EMPTY, x), settled, es)
    requires id in Final(World(EMPTY, x), settled, es).t.closures
    ensures var w := Final(World(EMPTY, x), settled, es);
            var c := w.t.closures[id];
            var i, j := Find(w.t.rows, id), Find(w.t.rows, c.parent);
            && i.Some? && j.Some? && Protection(w.t.rows, c.parent) == i
            && EndedBy(w.x, w.t.rows[i.value], c.parent, true, c.exitOrderId)
            && var exit := Classify(Known(w.x, w.t.rows[i.value], c.parent).legs).leg;
            && Acquired(w.t.rows[j.value]) == ExitSum(w.t.exits, c.parent) + exit.executed
            && exit.executed == w.t.rows[i.value].quantity
            && forall id' | id' in w.t.closures && w.t.closures[id'].parent == c.parent :: id' == id
  {
    assert Inv(World(EMPTY, x), settled);
    RunKeeps(World(EMPTY, x), settled, es);
    var w := Final(World(EMPTY, x), settled, es);
    assert ClosureSound(w, settled, id, w.t.closures[id]);
    FindUnique(w.t.rows, Protection(w.t.rows, w.t.closures[id].parent).value, |w.t.rows|);
    forall id' | id' in w.t.closures && w.t.closures[id'].parent == w.t.closures[id].parent ensures id' == id {
      assert ClosureSound(w, settled, id', w.t.closures[id']);
    }
  }

  /** Over every legal run: what the recorded partial exits of a BUY sold never exceeds what it acquired. */
  lemma {:induction false} RecordedExitsFit(x: Exchange, settled: Settlements, es: seq<Event>, parent: ClientId)
    requires Legal(World(EMPTY, x), settled, es)
    requires Sold(Final(World(EMPTY, x), settled, es).t.exits, parent)
    ensures var w := Final(World(EMPTY, x), settled, es);
            Ready(w, settled, parent) && ExitSum(w.t.exits, parent) <= Acquired(w.t.rows[Find(w.t.rows, parent).value])
  {
    assert Inv(World(EMPTY, x), settled);
    RunKeeps(World(EMPTY, x), settled, es);
    assert ExitsSound(Final(World(EMPTY, x), settled, es), settled, parent);
  }

  lemma RecoveryRemembers(w: World, settled: Settlements, parent: ClientId, k: nat)
    requires Inv(w, settled) && Ready(w, settled, parent)
    ensures var u := Interrupted(w.t, w.x, parent, k); Within(w.t.closures, u.closures) && w.t.exits <= u.exits
  {
    RecoveryLeaves(w.t, w.x, parent, k);
  }

  lemma ReplaceRemembers(w: World, settled: Settlements, parent: ClientId, intent: Intent)
    requires Inv(w, settled) && Ready(w, settled, parent)
    ensures var v := Next(w, settled, Replace(parent, intent));
            Within(w.t.closures, v.t.closures) && w.t.exits <= v.t.exits
  {
    WholeRecovery(w.t, w.x, parent);
    RecoveryRemembers(w, settled, parent, |Decide(w.t, w.x, parent).txs|);
    PreparingRemembers(Recovered(w.t, w.x, parent).0, intent);
  }

  lemma PreparingRemembers(u: Tables, intent: Intent)
    ensures OnlyRows(u, Prepare(u, intent).GetOr(u))
  {
  }

  lemma BookkeepingRemembers(w: World, settled: Settlements, e: Event)
    requires Enabled(w, settled, e) && !e.Recover? && !e.Replace?
    ensures OnlyRows(w.t, Next(w, settled, e).t)
  {
  }

  lemma StepRemembers(w: World, settled: Settlements, e: Event)
    requires Inv(w, settled) && Enabled(w, settled, e)
    ensures Within(w.t.closures, Next(w, settled, e).t.closures) && w.t.exits <= Next(w, settled, e).t.exits
  {
    match e
    case Recover(parent, k) => RecoveryRemembers(w, settled, parent, k);
    case Replace(parent, intent) => ReplaceRemembers(w, settled, parent, intent);
    case _ => BookkeepingRemembers(w, settled, e);
  }

  /** A closure or a recorded exit, once written, is there unchanged at the end of every legal run. */
  lemma {:induction false} RunRemembers(w: World, settled: Settlements, es: seq<Event>)
    requires Inv(w, settled) && Legal(w, settled, es)
    ensures Within(w.t.closures, Final(w, settled, es).t.closures) && w.t.exits <= Final(w, settled, es).t.exits
    decreases |es|
  {
    if es != [] {
      StepKeeps(w, settled, es[0]);
      StepRemembers(w, settled, es[0]);
      RunRemembers(Next(w, settled, es[0]), settled, es[1..]);
    }
  }
}
