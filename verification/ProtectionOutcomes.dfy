/** What one recovery does for everything the exchange can show about a protection, in the statuses it reports and the
    rows that are left: the protection in row i, its BUY in row j. */
module ProtectionOutcomes {
  import opened Results
  import opened OrderJournal
  import opened JournalHistory
  import opened JournalRecords
  import opened ProtectionQuantity
  import opened ProtectionRecovery

  // ---------- what the exchange shows ----------

  predicate Live(o: OrderReply) { o.status == New || o.status == PartiallyFilled }

  predicate HasEnded(o: OrderReply) { o.status in {Filled, Canceled, Expired, ExpiredInMatch, Rejected} }

  predicate Cut(o: OrderReply) { o.status in {Canceled, Expired, ExpiredInMatch, Rejected} }

  /** The list is the one asked for, and its references are distinct orders of the symbol. */
  predicate ListShown(x: Exchange, p: Intent, l: ListReply, kind: Contingency, count: nat) {
    && x.up && p.clientId in x.lists && x.lists[p.clientId] == l
    && l.clientId == p.clientId != "" && l.symbol == p.symbol && l.contingency == kind && l.listId >= 0
    && (p.listId == None || p.listId == Some(l.listId))
    && |l.refs| == count
    && (forall k | 0 <= k < count :: l.refs[k].symbol == p.symbol && l.refs[k].orderId >= 0 && l.refs[k].clientId != "")
    && forall k, m | 0 <= k < m < count ::
         l.refs[k].orderId != l.refs[m].orderId && l.refs[k].clientId != l.refs[m].clientId
  }

  /** The order is the one referred to. */
  predicate Answers(o: OrderReply, ref: Ref, listId: int) {
    o.symbol == ref.symbol && o.orderId == ref.orderId && o.clientId == ref.clientId && o.listId == Some(listId)
  }

  predicate LimitKind(kind: Kind) { kind == LimitMaker || kind == Limit }

  predicate StopLossKind(kind: Kind) { kind == StopLoss || kind == StopLossLimit }

  /** Two SELL orders, one at a limit and one at a stop, with possible executions. */
  predicate SellPair(a: OrderReply, b: OrderReply) {
    && a.side == Sell && b.side == Sell && a.executed >= 0.0 && b.executed >= 0.0
    && (LimitKind(a.kind) || LimitKind(b.kind)) && (StopKind(a.kind) || StopKind(b.kind))
  }

  /** An OCO list and its two orders. */
  predicate OcoShown(x: Exchange, p: Intent, l: ListReply, a: OrderReply, b: OrderReply) {
    && ListShown(x, p, l, OneCancelsOther, 2)
    && l.refs[0].orderId in x.byId && x.byId[l.refs[0].orderId] == a && Answers(a, l.refs[0], l.listId)
    && l.refs[1].orderId in x.byId && x.byId[l.refs[1].orderId] == b && Answers(b, l.refs[1], l.listId)
    && SellPair(a, b) && (StopLossKind(a.kind) || StopLossKind(b.kind))
  }

  lemma OcoIsEvidence(x: Exchange, p: Intent, l: ListReply, a: OrderReply, b: OrderReply)
    requires x.up
    ensures OcoShown(x, p, l, a, b) ==> OcoEvidence(x, p) == Pair([a, b], l.status, l.listId)
  {
    if OcoShown(x, p, l, a, b) {
      var legs := [a, b];
      assert legs[0] == a && legs[1] == b;
      assert ValidPair(legs) by {
        assert LimitKind(a.kind) || LimitKind(b.kind);
      }
    }
  }

  lemma OcoNeedsEvidence(x: Exchange, p: Intent)
    requires x.up && OcoEvidence(x, p).Pair?
    ensures var e := OcoEvidence(x, p);
            && p.clientId in x.lists && |e.legs| == 2
            && OcoShown(x, p, x.lists[p.clientId], e.legs[0], e.legs[1])
  {
  }

  /** An OTOCO list, its working order under reference k, and its two other orders in the list's order. */
  predicate OtocoShown(x: Exchange, p: Intent, parent: ClientId, l: ListReply, k: nat, w: OrderReply, a: OrderReply,
                       b: OrderReply)
  {
    && ListShown(x, p, l, OneTriggersOther, 3) && k < 3 && l.refs[k].clientId == parent
    && parent in x.byClient && x.byClient[parent] == w && Answers(w, l.refs[k], l.listId)
    && var first, second := l.refs[if k == 0 then 1 else 0], l.refs[if k == 2 then 1 else 2];
    && first.clientId in x.byClient && x.byClient[first.clientId] == a && Answers(a, first, l.listId)
    && second.clientId in x.byClient && x.byClient[second.clientId] == b && Answers(b, second, l.listId)
  }

  // What is left of three references without the k-th.
  lemma {:induction false} OthersOfThree(refs: seq<Ref>, parent: ClientId, k: nat)
    requires |refs| == 3 && k < 3 && refs[k].clientId == parent
    requires forall m | 0 <= m < 3 && m != k :: refs[m].clientId != parent
    ensures Others(refs, parent) == [refs[if k == 0 then 1 else 0], refs[if k == 2 then 1 else 2]]
  {
    var one, two := refs[..1], refs[..2];
    assert one[..0] == [] && two[..1] == one && refs[..3] == refs;
    assert Others([], parent) == [];
    assert Others(one, parent) == if k == 0 then [] else [refs[0]];
    assert Others(two, parent) == if k == 0 then [refs[1]] else if k == 1 then [refs[0]] else [refs[0], refs[1]];
  }

  function OtocoAnswer(l: ListReply, w: OrderReply, a: OrderReply, b: OrderReply): Evidence {
    if w.status == Filled then Pair([a, b], l.status, l.listId)
    else WorkingUnfilled([a, b], Cut(w) && w.executed > 0.0 && Cut(a) && Cut(b), l.status == AllDone, l.listId)
  }

  lemma OtocoIsEvidence(x: Exchange, p: Intent, parent: ClientId, l: ListReply, k: nat, w: OrderReply, a: OrderReply,
                        b: OrderReply)
    requires OtocoShown(x, p, parent, l, k, w, a, b)
    ensures OtocoEvidence(x, p, parent) == OtocoAnswer(l, w, a, b)
  {
    OthersOfThree(l.refs, parent, k);
  }

  lemma OtocoNeedsEvidence(x: Exchange, p: Intent, parent: ClientId) returns (k: nat)
    requires x.up && OtocoEvidence(x, p, parent) != NoEvidence
    ensures p.clientId in x.lists && parent in x.byClient
    ensures var e := OtocoEvidence(x, p, parent);
            |e.legs| == 2 && OtocoShown(x, p, parent, x.lists[p.clientId], k, x.byClient[parent], e.legs[0], e.legs[1])
  {
    var l, w := x.lists[p.clientId], x.byClient[parent];
    k :| 0 <= k < |l.refs| && l.refs[k].clientId == parent && l.refs[k].orderId == w.orderId;
    OthersOfThree(l.refs, parent, k);
  }

  /** A pair of SELL orders under an OCO, or under an OTOCO whose working order is filled. */
  ghost predicate PairShown(x: Exchange, p: Intent, parent: ClientId, l: ListReply, a: OrderReply, b: OrderReply) {
    || (p.kind == Oco && OcoShown(x, p, l, a, b))
    || (p.kind == Otoco && SellPair(a, b)
        && exists k: nat, w: OrderReply :: OtocoShown(x, p, parent, l, k, w, a, b) && w.status == Filled)
  }

  // ---------- whether quantities agree ----------

  /** An order that was placed for `intended` and reports a possible execution. */
  predicate Fits(o: OrderReply, intended: real) {
    && o.status != OtherStatus && o.original == intended && 0.0 <= o.executed <= o.original
    && (o.status == Filled ==> o.executed == o.original) && (o.status == New ==> o.executed == 0.0)
    && (o.status == PartiallyFilled ==> 0.0 < o.executed < o.original)
  }

  /** One order ended by selling, the other without. */
  predicate SoldBy(exit: OrderReply, other: OrderReply) {
    HasEnded(exit) && HasEnded(other) && exit.executed > 0.0 && other.executed == 0.0
  }

  predicate Unsold(a: OrderReply, b: OrderReply) {
    HasEnded(a) && HasEnded(b) && a.executed == 0.0 && b.executed == 0.0
  }

  /** Everything that was placed has been sold by one of the two. */
  predicate SoldWhole(a: OrderReply, b: OrderReply) {
    (SoldBy(a, b) && a.status == Filled) || (SoldBy(b, a) && b.status == Filled)
  }

  /** Both are live, or both have ended and at most one of them sold. */
  predicate Definite(a: OrderReply, b: OrderReply) {
    (Live(a) && Live(b)) || Unsold(a, b) || SoldBy(a, b) || SoldBy(b, a)
  }

  /** The BUY is the protection's own, its settlement is in order, and the protection was placed for some of it. */
  predicate Related(p: Intent, q: Intent) {
    && q.side == Buy && q.symbol == p.symbol && p.parent == Some(q.clientId) && SettlementFits(q)
    && 0.0 < p.quantity <= Inventory(q)
  }

  predicate CoversRest(t: Tables, p: Intent, q: Intent) {
    p.quantity == Inventory(q) - ExitSum(t.exits, q.clientId)
  }

  predicate NamedBefore(p: Intent, a: OrderReply, b: OrderReply) {
    p.verifiedLegs == [] || (set r | r in p.verifiedLegs :: r.orderId) == {a.orderId, b.orderId}
  }

  /** The two orders fit the protection and its BUY; a live pair and one that sold whole must cover all that is left. */
  predicate PairAgrees(t: Tables, p: Intent, q: Intent, a: OrderReply, b: OrderReply) {
    && Related(p, q) && NamedBefore(p, a, b) && Fits(a, p.quantity) && Fits(b, p.quantity)
    && a.executed + b.executed <= p.quantity
    && ((Live(a) && Live(b)) || SoldWhole(a, b) ==> CoversRest(t, p, q))
  }

  lemma PairIds(p: Intent, a: OrderReply, b: OrderReply)
    ensures RefIds(p.verifiedLegs) == (set r | r in p.verifiedLegs :: r.orderId)
    ensures LegIds([a, b]) == {a.orderId, b.orderId}
  {
    var legs := [a, b];
    assert legs[0] == a && legs[1] == b;
    assert a in legs && b in legs;
  }

  lemma SumOfPair(a: OrderReply, b: OrderReply)
    ensures ExecutedSum([a, b]) == a.executed + b.executed
  {
    assert [a, b][..1] == [a] && [a][..0] == [];
    assert ExecutedSum([a]) == 0.0 + a.executed;
  }

  lemma PairIsVerified(t: Tables, j: nat, p: Intent, a: OrderReply, b: OrderReply, closing: bool)
    requires UniqueIds(t.rows) && j < |t.rows|
    requires closing == SoldWhole(a, b)
    ensures Verified(t, t.rows[j].clientId, p, [a, b], closing) <==> PairAgrees(t, p, t.rows[j], a, b)
  {
    var legs := [a, b];
    FindUnique(t.rows, j, |t.rows|);
    PairIds(p, a, b);
    SumOfPair(a, b);
    assert legs[0] == a && legs[1] == b;
    assert AllActive(legs) <==> Live(a) && Live(b);
    assert AllConsistent(legs, p.quantity) <==> Fits(a, p.quantity) && Fits(b, p.quantity) by {
      assert AllConsistent(legs, p.quantity)
             ==> LegConsistent(legs[0], p.quantity) && LegConsistent(legs[1], p.quantity);
    }
  }

  lemma PairIsClassified(a: OrderReply, b: OrderReply)
    requires SellPair(a, b)
    ensures var o := Classify([a, b]);
            && (o == Ambiguous <==> !Definite(a, b))
            && (Live(a) && Live(b) ==> o == Active)
            && (Unsold(a, b) ==> o == CanceledWithoutFill)
            && (SoldBy(a, b) ==> o == ClosedBy(a, if StopKind(a.kind) then StopOut else TakeProfit))
            && (SoldBy(b, a) ==> o == ClosedBy(b, if StopKind(b.kind) then StopOut else TakeProfit))
            && (IsClosing(o) <==> SoldWhole(a, b))
  {
    var legs := [a, b];
    assert legs[0] == a && legs[1] == b;
    assert ValidPair(legs);
    assert AllActive(legs) <==> Live(a) && Live(b);
  }

  // ---------- what is done about a pair ----------

  // The pair is the evidence on which the recovery decides.
  lemma PairIsDecided(t: Tables, x: Exchange, i: nat, j: nat, l: ListReply, a: OrderReply, b: OrderReply)
    requires UniqueIds(t.rows) && i < |t.rows| && j < |t.rows|
    requires Protection(t.rows, t.rows[j].clientId) == Some(i) && PairShown(x, t.rows[i], t.rows[j].clientId, l, a, b)
    ensures Decide(t, x, t.rows[j].clientId)
            == DecidePair(t, t.rows[j].clientId, t.rows[i], [a, b], l.status, l.listId)
    ensures SellPair(a, b)
  {
    var p, parent := t.rows[i], t.rows[j].clientId;
    if p.kind == Oco {
      OcoIsEvidence(x, p, l, a, b);
    } else {
      var k: nat, w: OrderReply :| OtocoShown(x, p, parent, l, k, w, a, b) && w.status == Filled;
      OtocoIsEvidence(x, p, parent, l, k, w, a, b);
    }
  }

  /** Protection i of BUY j and the pair that the exchange shows for it. */
  ghost predicate Setting(t: Tables, x: Exchange, i: nat, j: nat, l: ListReply, a: OrderReply, b: OrderReply) {
    && UniqueIds(t.rows) && OneExitPerOrder(t.exits) && i < |t.rows| && j < |t.rows|
    && Protection(t.rows, t.rows[j].clientId) == Some(i) && PairShown(x, t.rows[i], t.rows[j].clientId, l, a, b)
  }

  /** Orders that do not agree with the protection and its BUY, or do not tell how it stands, are refused. */
  lemma DoubtfulPairIsRefused(t: Tables, x: Exchange, i: nat, j: nat, l: ListReply, a: OrderReply, b: OrderReply)
    requires Setting(t, x, i, j, l, a, b)
    requires !Definite(a, b) || !PairAgrees(t, t.rows[i], t.rows[j], a, b)
    ensures Recovered(t, x, t.rows[j].clientId) == (t, Refused)
  {
    PairIsDecided(t, x, i, j, l, a, b);
    PairIsClassified(a, b);
    if Definite(a, b) {
      PairIsVerified(t, j, t.rows[i], a, b, SoldWhole(a, b));
    }
  }

  lemma AgreedPlan(t: Tables, x: Exchange, i: nat, j: nat, l: ListReply, a: OrderReply, b: OrderReply)
    requires Setting(t, x, i, j, l, a, b) && Definite(a, b) && PairAgrees(t, t.rows[i], t.rows[j], a, b)
    ensures var legs, id := [a, b], t.rows[i].clientId;
            Decide(t, x, t.rows[j].clientId)
            == if l.status == AllDone && SoldBy(a, b) then ExitPlan(id, legs, a)
               else if l.status == AllDone && SoldBy(b, a) then ExitPlan(id, legs, b)
               else if l.status == AllDone && Unsold(a, b) then Plan(id, [FailProtection, ReopenParent], NotCovered)
               else if l.status == ExecStarted && Live(a) && Live(b)
                 then Plan(id, [ProtectByPair(legs, l.listId)], Covered)
               else Plan(id, [], NotCovered)
    ensures i != j && t.rows[i].side == Sell && t.rows[j].side == Buy
  {
    PairIsDecided(t, x, i, j, l, a, b);
    PairIsClassified(a, b);
    PairIsVerified(t, j, t.rows[i], a, b, SoldWhole(a, b));
  }

  function ExitPlan(id: ClientId, legs: seq<OrderReply>, exit: OrderReply): Plan {
    var reason := if StopKind(exit.kind) then StopOut else TakeProfit;
    if exit.status == Filled then Plan(id, [StoreVerifiedLegs(legs), Close(exit, reason)], Covered)
    else Plan(id, [StoreVerifiedLegs(legs), ExitPartly(exit, reason)], NotCovered)
  }

  // An agreed pair leads to the tables after its plan.
  lemma AgreedRecovery(t: Tables, x: Exchange, i: nat, j: nat, l: ListReply, a: OrderReply, b: OrderReply, plan: Plan)
    requires Setting(t, x, i, j, l, a, b) && Definite(a, b) && PairAgrees(t, t.rows[i], t.rows[j], a, b)
    requires plan == Decide(t, x, t.rows[j].clientId)
    ensures Recovered(t, x, t.rows[j].clientId) == After(t, t.rows[j].clientId, plan)
    ensures i != j && t.rows[i].parent == Some(t.rows[j].clientId)
  {
    AgreedPlan(t, x, i, j, l, a, b);
  }

  function Reason(o: OrderReply): ExitReason { if StopKind(o.kind) then StopOut else TakeProfit }

  /** The legs and the list id are on record, and both rows say that the BUY is protected. */
  function ProtectedByPair(t: Tables, i: nat, j: nat, a: OrderReply, b: OrderReply, listId: int): Tables
    requires i < |t.rows| && j < |t.rows|
  {
    WithLegs(t, i, a, b).(rows :=
      t.rows[i := t.rows[i].(verifiedLegs := [RefOf(a), RefOf(b)], state := Protected, listId := Some(listId))]
            [j := t.rows[j].(state := Protected)])
  }

  lemma PairCommits(t: Tables, i: nat, j: nat, a: OrderReply, b: OrderReply, listId: int)
    requires UniqueIds(t.rows) && i < |t.rows| && j < |t.rows| && i != j
    requires t.rows[i].parent == Some(t.rows[j].clientId)
    ensures var id := t.rows[i].clientId;
            After(t, t.rows[j].clientId, Plan(id, [ProtectByPair([a, b], listId)], Covered))
            == if MayBePair(t, t.rows[i], a, b) then (ProtectedByPair(t, i, j, a, b, listId), Covered) else (t, Refused)
  {
    CommitOne(t, t.rows[j].clientId, t.rows[i].clientId, ProtectByPair([a, b], listId));
    PairIsProtected(t, i, j, a, b, listId);
  }

  /** A live pair of a list that is executing protects the BUY; it is refused, without a change, if one of the orders is
      on record as another leg. */
  lemma LivePairProtects(t: Tables, x: Exchange, i: nat, j: nat, l: ListReply, a: OrderReply, b: OrderReply)
    requires Setting(t, x, i, j, l, a, b) && PairAgrees(t, t.rows[i], t.rows[j], a, b)
    requires l.status == ExecStarted && Live(a) && Live(b)
    ensures Recovered(t, x, t.rows[j].clientId)
            == if MayBePair(t, t.rows[i], a, b) then (ProtectedByPair(t, i, j, a, b, l.listId), Covered)
               else (t, Refused)
  {
    AgreedPlan(t, x, i, j, l, a, b);
    AgreedRecovery(t, x, i, j, l, a, b, Plan(t.rows[i].clientId, [ProtectByPair([a, b], l.listId)], Covered));
    PairCommits(t, i, j, a, b, l.listId);
  }

  lemma ReopeningCommits(t: Tables, i: nat, j: nat)
    requires UniqueIds(t.rows) && i < |t.rows| && j < |t.rows| && i != j
    ensures After(t, t.rows[j].clientId, Plan(t.rows[i].clientId, [FailProtection, ReopenParent], NotCovered))
            == (t.(rows := t.rows[i := t.rows[i].(state := Failed)][j := t.rows[j].(state := ProtectionPending)]),
                NotCovered)
  {
    CommitTwo(t, t.rows[j].clientId, t.rows[i].clientId, FailProtection, ReopenParent);
    StateSet(t, i, Failed);
    var v := t.(rows := t.rows[i := t.rows[i].(state := Failed)]);
    UniqueKept(t.rows, v.rows);
    StateSet(v, j, ProtectionPending);
  }

  /** A pair that ended without selling, under a list that is done, fails the protection and reopens its BUY; nothing
      else changes. */
  lemma UnsoldPairReopens(t: Tables, x: Exchange, i: nat, j: nat, l: ListReply, a: OrderReply, b: OrderReply)
    requires Setting(t, x, i, j, l, a, b) && PairAgrees(t, t.rows[i], t.rows[j], a, b)
    requires l.status == AllDone && Unsold(a, b)
    ensures Recovered(t, x, t.rows[j].clientId)
            == (t.(rows := t.rows[i := t.rows[i].(state := Failed)][j := t.rows[j].(state := ProtectionPending)]),
                NotCovered)
  {
    AgreedPlan(t, x, i, j, l, a, b);
    AgreedRecovery(t, x, i, j, l, a, b, Plan(t.rows[i].clientId, [FailProtection, ReopenParent], NotCovered));
    ReopeningCommits(t, i, j);
  }

  /** What is recorded of an order that sold a part. */
  function ExitOf(t: Tables, i: nat, j: nat, exit: OrderReply): PartialExit
    requires i < |t.rows| && j < |t.rows|
  {
    PartialExit(t.rows[i].symbol, exit.orderId, t.rows[i].clientId, t.rows[j].clientId, Reason(exit), exit.executed,
                exit.status)
  }

  /** The order is on record with another exit. */
  predicate ExitDiffers(t: Tables, record: PartialExit) {
    record !in t.exits && exists e | e in t.exits :: e.symbol == record.symbol && e.orderId == record.orderId
  }

  /** The legs are on record, the exit is there once, the protection has failed and its BUY waits for another. */
  function PartlySold(t: Tables, i: nat, j: nat, a: OrderReply, b: OrderReply, exit: OrderReply): Tables
    requires i < |t.rows| && j < |t.rows|
  {
    var record := ExitOf(t, i, j, exit);
    WithLegs(t, i, a, b).(
      rows := t.rows[i := t.rows[i].(verifiedLegs := [RefOf(a), RefOf(b)], state := Failed)]
                    [j := t.rows[j].(state := ProtectionPending)],
      exits := if record in t.exits then t.exits else t.exits + [record])
  }

  lemma LegIsFor(t: Tables, i: nat, a: OrderReply, b: OrderReply, exit: OrderReply)
    requires i < |t.rows| && a.orderId != b.orderId && (exit == a || exit == b)
    ensures LegFor(WithLegs(t, i, a, b), WithLegs(t, i, a, b).rows[i], exit.orderId, Reason(exit))
    ensures var u := WithLegs(t, i, a, b);
            (u.rows[i].symbol, exit.orderId) in u.legs
            && u.legs[(u.rows[i].symbol, exit.orderId)] == LegOf(u.rows[i], exit)
  {
  }

  lemma PartialExitIsRecorded(t: Tables, i: nat, j: nat, a: OrderReply, b: OrderReply, exit: OrderReply)
    requires UniqueIds(t.rows) && OneExitPerOrder(t.exits) && i < |t.rows| && j < |t.rows| && i != j
    requires t.rows[i].parent == Some(t.rows[j].clientId) && a.orderId != b.orderId && (exit == a || exit == b)
    requires Cut(exit) && exit.executed > 0.0
    ensures RecordPartialExit(WithLegs(t, i, a, b), t.rows[i].clientId, exit.orderId, Reason(exit), exit.executed,
                              exit.status)
            == if ExitDiffers(t, ExitOf(t, i, j, exit)) then None else Some(PartlySold(t, i, j, a, b, exit))
  {
    var u := WithLegs(t, i, a, b);
    UniqueKept(t.rows, u.rows);
    LegIsFor(t, i, a, b, exit);
    ExitIsRecorded(u, i, j, exit.orderId, Reason(exit), exit.executed, exit.status);
    assert u.rows[i := u.rows[i].(state := Failed)]
           == t.rows[i := t.rows[i].(verifiedLegs := [RefOf(a), RefOf(b)], state := Failed)];
  }

  lemma PartialExitCommits(t: Tables, i: nat, j: nat, a: OrderReply, b: OrderReply, exit: OrderReply)
    requires UniqueIds(t.rows) && OneExitPerOrder(t.exits) && i < |t.rows| && j < |t.rows| && i != j
    requires t.rows[i].parent == Some(t.rows[j].clientId) && (exit == a || exit == b)
    requires Cut(exit) && exit.executed > 0.0
    ensures After(t, t.rows[j].clientId, ExitPlan(t.rows[i].clientId, [a, b], exit))
            == if !MayBePair(t, t.rows[i], a, b) then (t, Refused)
               else if ExitDiffers(t, ExitOf(t, i, j, exit)) then (WithLegs(t, i, a, b), Refused)
               else (PartlySold(t, i, j, a, b, exit), NotCovered)
  {
    CommitTwo(t, t.rows[j].clientId, t.rows[i].clientId, StoreVerifiedLegs([a, b]), ExitPartly(exit, Reason(exit)));
    LegsAreStored(t, i, a, b);
    if MayBePair(t, t.rows[i], a, b) {
      PartialExitIsRecorded(t, i, j, a, b, exit);
    }
  }

  /** A pair of which one order sold a part before it was ended, under a list that is done: the exit is recorded and the
      BUY reopened. It is refused if a leg or the exit is on record as something else; in the latter case the legs
      have been stored. */
  lemma PartialSaleReopens(t: Tables, x: Exchange, i: nat, j: nat, l: ListReply, a: OrderReply, b: OrderReply,
                           exit: OrderReply)
    requires Setting(t, x, i, j, l, a, b) && PairAgrees(t, t.rows[i], t.rows[j], a, b) && l.status == AllDone
    requires (exit == a && SoldBy(a, b)) || (exit == b && SoldBy(b, a))
    requires Cut(exit)
    ensures Recovered(t, x, t.rows[j].clientId)
            == if !MayBePair(t, t.rows[i], a, b) then (t, Refused)
               else if ExitDiffers(t, ExitOf(t, i, j, exit)) then (WithLegs(t, i, a, b), Refused)
               else (PartlySold(t, i, j, a, b, exit), NotCovered)
  {
    AgreedPlan(t, x, i, j, l, a, b);
    AgreedRecovery(t, x, i, j, l, a, b, ExitPlan(t.rows[i].clientId, [a, b], exit));
    PartialExitCommits(t, i, j, a, b, exit);
  }

  /** The lifecycle is closed, or was, by another order or for another reason. */
  predicate ClosedOtherwise(t: Tables, p: Intent, exit: OrderReply) {
    p.clientId in t.closures
    && (t.closures[p.clientId].exitOrderId != exit.orderId || t.closures[p.clientId].reason != Reason(exit))
  }

  /** The legs are on record, both rows are closed by the exit, and there is one closure. */
  function SoldOut(t: Tables, i: nat, j: nat, a: OrderReply, b: OrderReply, exit: OrderReply): Tables
    requires i < |t.rows| && j < |t.rows|
  {
    var p, q, closing := t.rows[i], t.rows[j], Some((exit.orderId, Reason(exit)));
    WithLegs(t, i, a, b).(
      rows := t.rows[i := p.(verifiedLegs := [RefOf(a), RefOf(b)], state := Closed, exactExit := closing)]
                    [j := q.(state := Closed, exactExit := closing)],
      closures := if p.clientId in t.closures then t.closures
                  else t.closures[p.clientId := Closure(p.symbol, q.clientId, exit.orderId, Reason(exit))])
  }

  // The order belongs to the list and is, with its quantities, all that is left of the BUY.
  predicate IsRest(t: Tables, p: Intent, q: Intent, exit: OrderReply, listId: int) {
    && Related(p, q) && CoversRest(t, p, q) && exit.original == exit.executed == p.quantity && exit.status == Filled
    && exit.symbol == p.symbol && exit.side == Sell && p.side == Sell && exit.orderId >= 0 && exit.clientId != ""
    && listId >= 0 && exit.listId == Some(listId) && (p.listId == None || p.listId == Some(listId))
  }

  lemma WholeExitIsRecorded(t: Tables, i: nat, j: nat, a: OrderReply, b: OrderReply, exit: OrderReply, listId: int)
    requires UniqueIds(t.rows) && i < |t.rows| && j < |t.rows| && i != j
    requires a.orderId != b.orderId && (exit == a || exit == b) && IsRest(t, t.rows[i], t.rows[j], exit, listId)
    ensures MarkExactClosed(WithLegs(t, i, a, b), t.rows[i].clientId, exit.orderId, Reason(exit), exit)
            == if t.rows[i].listId == None || ClosedOtherwise(t, t.rows[i], exit) then None
               else Some(SoldOut(t, i, j, a, b, exit))
  {
    var u := WithLegs(t, i, a, b);
    UniqueKept(t.rows, u.rows);
    LegIsFor(t, i, a, b, exit);
    CloseIsRecorded(u, i, j, Reason(exit), exit);
    var closing := Some((exit.orderId, Reason(exit)));
    assert u.rows[i := u.rows[i].(state := Closed, exactExit := closing)]
           == t.rows[i := t.rows[i].(verifiedLegs := [RefOf(a), RefOf(b)], state := Closed, exactExit := closing)];
  }

  lemma WholeExitCommits(t: Tables, i: nat, j: nat, a: OrderReply, b: OrderReply, exit: OrderReply, listId: int)
    requires UniqueIds(t.rows) && i < |t.rows| && j < |t.rows| && i != j
    requires (exit == a || exit == b) && IsRest(t, t.rows[i], t.rows[j], exit, listId)
    ensures After(t, t.rows[j].clientId, ExitPlan(t.rows[i].clientId, [a, b], exit))
            == if !MayBePair(t, t.rows[i], a, b) then (t, Refused)
               else if t.rows[i].listId == None || ClosedOtherwise(t, t.rows[i], exit)
                 then (WithLegs(t, i, a, b), Refused)
               else (SoldOut(t, i, j, a, b, exit), Covered)
  {
    CommitTwo(t, t.rows[j].clientId, t.rows[i].clientId, StoreVerifiedLegs([a, b]), Close(exit, Reason(exit)));
    LegsAreStored(t, i, a, b);
    if MayBePair(t, t.rows[i], a, b) {
      WholeExitIsRecorded(t, i, j, a, b, exit, listId);
    }
  }

  lemma WholeIsRest(t: Tables, x: Exchange, i: nat, j: nat, l: ListReply, a: OrderReply, b: OrderReply,
                    exit: OrderReply)
    requires Setting(t, x, i, j, l, a, b) && PairAgrees(t, t.rows[i], t.rows[j], a, b)
    requires (exit == a && SoldBy(a, b)) || (exit == b && SoldBy(b, a))
    requires exit.status == Filled
    ensures IsRest(t, t.rows[i], t.rows[j], exit, l.listId)
  {
    ShownIsNamed(x, t.rows[i], t.rows[j].clientId, l, a, b);
  }

  /** A pair of which one order sold everything, under a list that is done, closes the lifecycle, if the list id is on
      record and neither a leg nor an earlier closure says otherwise; if not, it is refused. */
  lemma WholeSaleCloses(t: Tables, x: Exchange, i: nat, j: nat, l: ListReply, a: OrderReply, b: OrderReply,
                        exit: OrderReply)
    requires Setting(t, x, i, j, l, a, b) && PairAgrees(t, t.rows[i], t.rows[j], a, b) && l.status == AllDone
    requires (exit == a && SoldBy(a, b)) || (exit == b && SoldBy(b, a))
    requires exit.status == Filled
    ensures Recovered(t, x, t.rows[j].clientId)
            == if !MayBePair(t, t.rows[i], a, b) then (t, Refused)
               else if t.rows[i].listId == None || ClosedOtherwise(t, t.rows[i], exit)
                 then (WithLegs(t, i, a, b), Refused)
               else (SoldOut(t, i, j, a, b, exit), Covered)
  {
    AgreedPlan(t, x, i, j, l, a, b);
    AgreedRecovery(t, x, i, j, l, a, b, ExitPlan(t.rows[i].clientId, [a, b], exit));
    WholeIsRest(t, x, i, j, l, a, b, exit);
    WholeExitCommits(t, i, j, a, b, exit, l.listId);
  }

  // The orders shown are numbered and named, and belong to the list.
  lemma ShownIsNamed(x: Exchange, p: Intent, parent: ClientId, l: ListReply, a: OrderReply, b: OrderReply)
    requires PairShown(x, p, parent, l, a, b)
    ensures l.listId >= 0 && (p.listId == None || p.listId == Some(l.listId))
    ensures a.orderId >= 0 && a.clientId != "" && a.listId == Some(l.listId) && a.symbol == p.symbol && a.side == Sell
    ensures b.orderId >= 0 && b.clientId != "" && b.listId == Some(l.listId) && b.symbol == p.symbol && b.side == Sell
  {
    if p.kind == Otoco {
      var k: nat, w: OrderReply :| OtocoShown(x, p, parent, l, k, w, a, b) && w.status == Filled;
    }
  }

  /** Anything else that a pair can show changes nothing, and the BUY is not covered: orders that ended although
      the list is not done, live orders of a list that is not executing, and every other list status. */
  lemma UnsettledPairWaits(t: Tables, x: Exchange, i: nat, j: nat, l: ListReply, a: OrderReply, b: OrderReply)
    requires Setting(t, x, i, j, l, a, b) && PairAgrees(t, t.rows[i], t.rows[j], a, b)
    requires (Live(a) && Live(b) && l.status != ExecStarted)
             || ((Unsold(a, b) || SoldBy(a, b) || SoldBy(b, a)) && l.status != AllDone)
    ensures Recovered(t, x, t.rows[j].clientId) == (t, NotCovered)
  {
    AgreedPlan(t, x, i, j, l, a, b);
  }

  // ---------- without a pair ----------

  /** An OTOCO whose working order is not filled covers nothing. If it was ended with something executed, the
      list is done and both SELL orders were ended as well, the list is noted as done; otherwise nothing
      changes. */
  lemma UnfilledOtocoWaits(t: Tables, x: Exchange, i: nat, j: nat, l: ListReply, k: nat, w: OrderReply, a: OrderReply,
                           b: OrderReply)
    requires UniqueIds(t.rows) && i < |t.rows| && j < |t.rows| && Protection(t.rows, t.rows[j].clientId) == Some(i)
    requires t.rows[i].kind == Otoco && OtocoShown(x, t.rows[i], t.rows[j].clientId, l, k, w, a, b)
    requires w.status != Filled
    ensures Recovered(t, x, t.rows[j].clientId)
            == (if Cut(w) && w.executed > 0.0 && l.status == AllDone && Cut(a) && Cut(b)
                then t.(rows := t.rows[i := t.rows[i].(state := Executed, listId := Some(l.listId))])
                else t, NotCovered)
  {
    OtocoIsEvidence(x, t.rows[i], t.rows[j].clientId, l, k, w, a, b);
    CommitOne(t, t.rows[j].clientId, t.rows[i].clientId, NoteList(l.listId));
    ListIsRecorded(t, i, true, Some(l.listId));
  }

  /** Without such evidence the recovery of a list is refused and changes nothing. */
  lemma NothingShownIsRefused(t: Tables, x: Exchange, i: nat, parent: ClientId)
    requires i < |t.rows| && Protection(t.rows, parent) == Some(i)
    requires t.rows[i].kind == Oco || t.rows[i].kind == Otoco
    requires t.rows[i].kind == Oco ==> forall l, a, b :: !OcoShown(x, t.rows[i], l, a, b)
    requires t.rows[i].kind == Otoco ==> forall l, k, w, a, b :: !OtocoShown(x, t.rows[i], parent, l, k, w, a, b)
    ensures Recovered(t, x, parent) == (t, Refused)
  {
    var p := t.rows[i];
    if x.up && p.kind == Oco && OcoEvidence(x, p).Pair? {
      OcoNeedsEvidence(x, p);
      assert false;
    } else if x.up && p.kind == Otoco && OtocoEvidence(x, p, parent) != NoEvidence {
      var k := OtocoNeedsEvidence(x, p, parent);
      assert false;
    }
  }

  /** Two orders of a filled OTOCO that are not a SELL pair are refused. */
  lemma OddPairIsRefused(t: Tables, x: Exchange, i: nat, j: nat, l: ListReply, k: nat, w: OrderReply, a: OrderReply,
                         b: OrderReply)
    requires i < |t.rows| && j < |t.rows| && Protection(t.rows, t.rows[j].clientId) == Some(i)
    requires t.rows[i].kind == Otoco && OtocoShown(x, t.rows[i], t.rows[j].clientId, l, k, w, a, b)
    requires w.status == Filled && !SellPair(a, b)
    ensures Recovered(t, x, t.rows[j].clientId) == (t, Refused)
  {
    OtocoIsEvidence(x, t.rows[i], t.rows[j].clientId, l, k, w, a, b);
    var legs := [a, b];
    assert legs[0] == a && legs[1] == b;
    assert !ValidPair(legs);
  }

  /** Without a SELL intent of the BUY nothing is covered, and nothing changes. */
  lemma NoProtectionNotCovered(t: Tables, x: Exchange, parent: ClientId)
    requires forall k | 0 <= k < |t.rows| :: t.rows[k].side != Sell || t.rows[k].parent != Some(parent)
    ensures Recovered(t, x, parent) == (t, NotCovered)
  {
    LatestSell(t.rows, parent, |t.rows|);
  }

  // ---------- a single stop ----------

  predicate SingleShown(p: Intent, o: OrderReply) {
    && o.symbol == p.symbol && o.clientId == p.clientId != "" && o.orderId >= 0
    && (p.orderId == None || p.orderId == Some(o.orderId))
    && p.side == Sell && o.side == Sell && StopLossKind(p.kind) && o.kind == p.kind
  }

  /** The order fits the protection and its BUY, and if it is not live it has sold nothing. */
  predicate SingleAgrees(t: Tables, p: Intent, q: Intent, o: OrderReply) {
    && Related(p, q) && Fits(o, p.quantity)
    && (p.verifiedLegs == [] || (set r | r in p.verifiedLegs :: r.orderId) == {o.orderId})
    && (Live(o) ==> CoversRest(t, p, q)) && (!Live(o) ==> o.executed == 0.0)
  }

  lemma SingleIsVerified(t: Tables, j: nat, p: Intent, o: OrderReply)
    requires UniqueIds(t.rows) && j < |t.rows|
    ensures SingleAgrees(t, p, t.rows[j], o)
            <==> Verified(t, t.rows[j].clientId, p, [o], false) && (Live(o) || o.executed <= 0.0)
  {
    var legs := [o];
    FindUnique(t.rows, j, |t.rows|);
    assert legs[0] == o && o in legs && legs[..0] == [];
    assert LegIds(legs) == {o.orderId} && ExecutedSum(legs) == 0.0 + o.executed;
    assert RefIds(p.verifiedLegs) == (set r | r in p.verifiedLegs :: r.orderId);
    assert AllActive(legs) <==> Live(o);
    assert AllConsistent(legs, p.quantity) <==> Fits(o, p.quantity) by {
      assert AllConsistent(legs, p.quantity) ==> LegConsistent(legs[0], p.quantity);
    }
  }

  // The exchange's report is recorded, and a live order protects the BUY.
  lemma SingleCommits(t: Tables, i: nat, j: nat, o: OrderReply)
    requires UniqueIds(t.rows) && i < |t.rows| && j < |t.rows| && i != j
    requires t.rows[i].parent == Some(t.rows[j].clientId)
    ensures var p, q := t.rows[i], t.rows[j];
            After(t, q.clientId, Plan(p.clientId, [NoteOrder(o), ProtectBySingle(o.orderId)], Covered))
            == (t.(rows := t.rows[i := p.(state := Protected, orderId := Some(o.orderId), executed := o.executed,
                                          quote := o.quote)]
                                 [j := q.(state := Protected)]), Covered)
    ensures var (u, verdict) := After(t, t.rows[j].clientId, Plan(t.rows[i].clientId, [NoteOrder(o)], NotCovered));
            && verdict == NotCovered && |u.rows| == |t.rows| && u == t.(rows := t.rows[i := u.rows[i]])
            && Reports(t.rows[i], u.rows[i], o)
  {
    var p, q := t.rows[i], t.rows[j];
    OrderIsRecorded(t, i, o);
    var u := RecordOrder(t, p.clientId, o).value;
    UniqueKept(t.rows, u.rows);
    CommitOne(t, q.clientId, p.clientId, NoteOrder(o));
    CommitTwo(t, q.clientId, p.clientId, NoteOrder(o), ProtectBySingle(o.orderId));
    SingleIsProtected(u, i, j, o.orderId);
    assert u.rows[i := u.rows[i].(state := Protected, orderId := Some(o.orderId))]
           == t.rows[i := p.(state := Protected, orderId := Some(o.orderId), executed := o.executed, quote := o.quote)];
  }

  lemma SinglePlan(t: Tables, x: Exchange, i: nat, j: nat)
    requires UniqueIds(t.rows) && i < |t.rows| && j < |t.rows|
    requires Protection(t.rows, t.rows[j].clientId) == Some(i) && t.rows[i].kind != Oco && t.rows[i].kind != Otoco
    ensures var p, q := t.rows[i], t.rows[j];
            Decide(t, x, q.clientId)
            == if !x.up then REFUSAL
               else if p.clientId !in x.byClient then Plan(p.clientId, [], NotCovered)
               else
                 var o := x.byClient[p.clientId];
                 if !SingleShown(p, o) || !SingleAgrees(t, p, q, o) then REFUSAL
                 else if Live(o) then Plan(p.clientId, [NoteOrder(o), ProtectBySingle(o.orderId)], Covered)
                 else Plan(p.clientId, [NoteOrder(o)], NotCovered)
  {
    if x.up && t.rows[i].clientId in x.byClient {
      SingleIsVerified(t, j, t.rows[i], x.byClient[t.rows[i].clientId]);
    }
  }

  /** A single stop: live, it protects the BUY; ended without selling, its report is recorded and the BUY is not
      covered; unknown to the exchange, nothing changes; in every other case the recovery is refused and changes
      nothing. */
  lemma SingleExactly(t: Tables, x: Exchange, i: nat, j: nat)
    requires UniqueIds(t.rows) && i < |t.rows| && j < |t.rows|
    requires Protection(t.rows, t.rows[j].clientId) == Some(i) && t.rows[i].kind != Oco && t.rows[i].kind != Otoco
    ensures var p, q := t.rows[i], t.rows[j];
            var (u, verdict) := Recovered(t, x, q.clientId);
            if !x.up then (u, verdict) == (t, Refused)
            else if p.clientId !in x.byClient then (u, verdict) == (t, NotCovered)
            else
              var o := x.byClient[p.clientId];
              if !SingleShown(p, o) || !SingleAgrees(t, p, q, o) then (u, verdict) == (t, Refused)
              else if Live(o) then
                verdict == Covered
                && u == t.(rows := t.rows[i := p.(state := Protected, orderId := Some(o.orderId),
                                                  executed := o.executed, quote := o.quote)]
                                         [j := q.(state := Protected)])
              else
                verdict == NotCovered && |u.rows| == |t.rows| && u == t.(rows := t.rows[i := u.rows[i]])
                && Reports(p, u.rows[i], o)
  {
    var p, q := t.rows[i], t.rows[j];
    SinglePlan(t, x, i, j);
    if x.up && p.clientId in x.byClient {
      var o := x.byClient[p.clientId];
      if SingleShown(p, o) && SingleAgrees(t, p, q, o) {
        SingleCommits(t, i, j, o);
      }
    }
  }

  // ---------- what an answer "not covered" means ----------

  /** A pair that has ended under a list that is done, or one that is not settled; and the tables it leaves. */
  predicate PairNotCovered(t: Tables, u: Tables, i: nat, j: nat, status: ListStatus, a: OrderReply, b: OrderReply)
    requires i < |t.rows| && j < |t.rows|
  {
    if status == AllDone && Unsold(a, b) then
      u == t.(rows := t.rows[i := t.rows[i].(state := Failed)][j := t.rows[j].(state := ProtectionPending)])
    else if status == AllDone && SoldBy(a, b) then Cut(a) && u == PartlySold(t, i, j, a, b, a)
    else if status == AllDone && SoldBy(b, a) then Cut(b) && u == PartlySold(t, i, j, a, b, b)
    else Definite(a, b) && !(status == ExecStarted && Live(a) && Live(b)) && u == t
  }

  lemma PairLeaves(t: Tables, x: Exchange, i: nat, j: nat, l: ListReply, a: OrderReply, b: OrderReply)
    requires Setting(t, x, i, j, l, a, b) && Recovered(t, x, t.rows[j].clientId).1 == NotCovered
    ensures PairAgrees(t, t.rows[i], t.rows[j], a, b)
    ensures PairNotCovered(t, Recovered(t, x, t.rows[j].clientId).0, i, j, l.status, a, b)
  {
    if !Definite(a, b) || !PairAgrees(t, t.rows[i], t.rows[j], a, b) {
      DoubtfulPairIsRefused(t, x, i, j, l, a, b);
    } else if Live(a) && Live(b) {
      if l.status == ExecStarted {
        LivePairProtects(t, x, i, j, l, a, b);
      } else {
        UnsettledPairWaits(t, x, i, j, l, a, b);
      }
    } else if l.status != AllDone {
      UnsettledPairWaits(t, x, i, j, l, a, b);
    } else if Unsold(a, b) {
      UnsoldPairReopens(t, x, i, j, l, a, b);
    } else {
      SoldPairLeaves(t, x, i, j, l, a, b, if SoldBy(a, b) then a else b);
    }
  }

  lemma SoldPairLeaves(t: Tables, x: Exchange, i: nat, j: nat, l: ListReply, a: OrderReply, b: OrderReply,
                       exit: OrderReply)
    requires Setting(t, x, i, j, l, a, b) && PairAgrees(t, t.rows[i], t.rows[j], a, b) && l.status == AllDone
    requires (exit == a && SoldBy(a, b)) || (exit == b && SoldBy(b, a))
    requires Recovered(t, x, t.rows[j].clientId).1 == NotCovered
    ensures Cut(exit) && Recovered(t, x, t.rows[j].clientId).0 == PartlySold(t, i, j, a, b, exit)
  {
    if exit.status == Filled {
      WholeSaleCloses(t, x, i, j, l, a, b, exit);
    } else {
      PartialSaleReopens(t, x, i, j, l, a, b, exit);
    }
  }

  /** The counterpart of a covered answer. When the recovery finds a BUY not covered: a pair that agrees with it
      has ended unsold and the BUY is reopened, or it has sold a part and the exit is recorded, or it is not
      settled and nothing changes; or an OTOCO is not filled, and at most its list is noted; or a single order
      has ended unsold and its report is recorded; or the exchange does not know it, and nothing changes. */
  lemma NotCoveredMeans(t: Tables, x: Exchange, i: nat, j: nat) returns (l: ListReply, a: OrderReply, b: OrderReply)
    requires UniqueIds(t.rows) && OneExitPerOrder(t.exits) && i < |t.rows| && j < |t.rows|
    requires Protection(t.rows, t.rows[j].clientId) == Some(i) && Recovered(t, x, t.rows[j].clientId).1 == NotCovered
    ensures var p, q, u := t.rows[i], t.rows[j], Recovered(t, x, t.rows[j].clientId).0;
            if p.kind != Oco && p.kind != Otoco then
              x.up && (if p.clientId !in x.byClient then u == t
                       else var o := x.byClient[p.clientId];
                         && SingleShown(p, o) && SingleAgrees(t, p, q, o) && !Live(o)
                         && |u.rows| == |t.rows| && u == t.(rows := t.rows[i := u.rows[i]])
                         && Reports(p, u.rows[i], o))
            else
              || (&& PairShown(x, p, q.clientId, l, a, b) && PairAgrees(t, p, q, a, b)
                  && PairNotCovered(t, u, i, j, l.status, a, b))
              || (&& p.kind == Otoco && q.clientId in x.byClient && x.byClient[q.clientId].status != Filled
                  && (u == t || u == t.(rows := t.rows[i := p.(state := Executed, listId := Some(l.listId))])))
  {
    var p, parent := t.rows[i], t.rows[j].clientId;
    var o := OrderReply("", 0, "", None, Sell, Limit, New, 0.0, 0.0, 0.0);
    l, a, b := ListReply(0, "", "", OneCancelsOther, AllDone, []), o, o;
    if p.kind == Oco {
      assert x.up;
      OcoNeedsEvidence(x, p);
      l, a, b := x.lists[p.clientId], OcoEvidence(x, p).legs[0], OcoEvidence(x, p).legs[1];
      PairLeaves(t, x, i, j, l, a, b);
    } else if p.kind == Otoco {
      assert x.up;
      var k := OtocoNeedsEvidence(x, p, parent);
      var w := x.byClient[parent];
      l, a, b := x.lists[p.clientId], OtocoEvidence(x, p, parent).legs[0], OtocoEvidence(x, p, parent).legs[1];
      if w.status != Filled {
        UnfilledOtocoWaits(t, x, i, j, l, k, w, a, b);
      } else if SellPair(a, b) {
        PairLeaves(t, x, i, j, l, a, b);
      } else {
        OddPairIsRefused(t, x, i, j, l, k, w, a, b);
      }
    } else {
      SingleExactly(t, x, i, j);
    }
  }
}
