/** What an answer of the recovery means: when it says a BUY is covered, the whole residual is either live on
    the exchange or completely sold; and exactly when it can say so. */
module ProtectionCoverage {
  import opened Results
  import opened OrderJournal
  import opened ProtectionQuantity
  import opened ProtectionRecovery
  import opened JournalHistory
  import opened ProtectionConvergence

  predicate AllSell(legs: seq<OrderReply>) {
    forall i | 0 <= i < |legs| :: legs[i].side == Sell
  }

  predicate AllOf(legs: seq<OrderReply>, quantity: real) {
    forall i | 0 <= i < |legs| :: legs[i].original == quantity
  }

  // The legs the recovery looked at: those of the list, or the single stop order.
  function Legs(x: Exchange, p: Intent, parent: ClientId): seq<OrderReply> {
    if p.kind == Otoco || p.kind == Oco then
      match ListEvidence(x, p, parent)
      case Pair(legs, _, _) => legs
      case _ => []
    else if p.clientId in x.byClient then [x.byClient[p.clientId]] else []
  }

  /** Every leg is live, sells, and was placed for exactly what the BUY acquired less its recorded exits. */
  predicate LiveFor(x: Exchange, u: Tables, parent: ClientId, i: nat, j: nat)
    requires i < |u.rows| && j < |u.rows|
  {
    var legs := Legs(x, u.rows[i], parent);
    && 1 <= |legs| <= 2 && AllActive(legs) && AllSell(legs)
    && AllOf(legs, Acquired(u.rows[j]) - ExitSum(u.exits, parent))
    && u.rows[i].state == Protected && u.rows[j].state == Protected
  }

  /** The lifecycle is closed by one filled leg, which with the recorded exits is all that was acquired. */
  predicate ClosedFor(x: Exchange, u: Tables, parent: ClientId, i: nat, j: nat)
    requires i < |u.rows| && j < |u.rows|
  {
    var id, o := u.rows[i].clientId, Classify(Legs(x, u.rows[i], parent));
    && id in u.closures && o.ClosedBy? && o.leg.status == Filled
    && u.closures[id].exitOrderId == o.leg.orderId && u.closures[id].reason == o.reason
    && Acquired(u.rows[j]) == ExitSum(u.exits, parent) + o.leg.executed
    && u.rows[i].state == Closed && u.rows[j].state == Closed
  }

  lemma {:induction false} ActiveMeansResidual(t: Tables, parent: ClientId, p: Intent, legs: seq<OrderReply>)
    requires Verified(t, parent, p, legs, false) && AllActive(legs)
    ensures Find(t.rows, parent).Some?
    ensures AllOf(legs, Acquired(t.rows[Find(t.rows, parent).value]) - ExitSum(t.exits, parent))
  {
    forall k | 0 <= k < |legs| ensures legs[k].original == p.quantity {
      assert LegConsistent(legs[k], p.quantity);
    }
  }

  lemma LegsAgree(x: Exchange, p: Intent, q: Intent, parent: ClientId)
    requires Attested(x, parent, p, q)
             && (ListEvidence(x, p, parent) != NoEvidence || (p.kind != Oco && p.kind != Otoco))
    ensures Legs(x, q, parent) == Legs(x, p, parent)
  {
    if ListEvidence(x, p, parent) != NoEvidence {
      EvidenceAgain(x, parent, p, q);
    }
  }

  lemma ProtectedRows(t: Tables, parent: ClientId, i: nat, legs: seq<OrderReply>, listId: int, u: Tables)
    requires Apart(t, parent, i) && MarkVerifiedProtected(t, parent, t.rows[i].clientId, legs, listId) == Some(u)
    ensures |u.rows| == |t.rows| && u.rows[i].state == Protected
            && u.rows[Find(t.rows, parent).value].state == Protected
  {
    PairProtectedStored(t, parent, i, legs, listId);
  }

  lemma ActivePairMeans(t: Tables, parent: ClientId, p: Intent, e: Evidence)
    requires e.Pair?
    requires DecidePair(t, parent, p, e.legs, e.status, e.listId)
             == Plan(p.clientId, [ProtectByPair(e.legs, e.listId)], Covered)
    ensures |e.legs| == 2 && AllActive(e.legs) && AllSell(e.legs) && Verified(t, parent, p, e.legs, false)
  {
  }

  lemma PairCovered(t: Tables, x: Exchange, parent: ClientId, i: nat, u: Tables)
    requires UniqueIds(t.rows) && Protection(t.rows, parent) == Some(i)
    requires ListEvidence(x, t.rows[i], parent).Pair?
    requires var e := ListEvidence(x, t.rows[i], parent);
             DecidePair(t, parent, t.rows[i], e.legs, e.status, e.listId)
             == Plan(t.rows[i].clientId, [ProtectByPair(e.legs, e.listId)], Covered)
             && MarkVerifiedProtected(t, parent, t.rows[i].clientId, e.legs, e.listId) == Some(u)
    ensures Find(t.rows, parent).Some? && |u.rows| == |t.rows| && LiveFor(x, u, parent, i, Find(t.rows, parent).value)
  {
    var e := ListEvidence(x, t.rows[i], parent);
    ActivePairMeans(t, parent, t.rows[i], e);
    ActiveMeansResidual(t, parent, t.rows[i], e.legs);
    ProtectedRows(t, parent, i, e.legs, e.listId, u);
    PairProtectProgress(t, parent, i, e.legs, e.listId, u);
    LegsAgree(x, t.rows[i], u.rows[i], parent);
  }

  lemma SingleCovered(t: Tables, x: Exchange, parent: ClientId, i: nat, u: Tables)
    requires UniqueIds(t.rows) && Protection(t.rows, parent) == Some(i) && t.rows[i].kind != Oco
             && t.rows[i].kind != Otoco
    requires DecideSingle(t, x, parent, t.rows[i]).verdict == Covered
    requires var reply := x.byClient[t.rows[i].clientId];
             RecordOrder(t, t.rows[i].clientId, reply).Some?
             && MarkProtected(RecordOrder(t, t.rows[i].clientId, reply).value, parent, t.rows[i].clientId,
                              reply.orderId) == Some(u)
    ensures Find(t.rows, parent).Some? && |u.rows| == |t.rows| && LiveFor(x, u, parent, i, Find(t.rows, parent).value)
  {
    var reply := x.byClient[t.rows[i].clientId];
    ActiveMeansResidual(t, parent, t.rows[i], [reply]);
    OrderNoted(t, i, reply);
    var t1 := RecordOrder(t, t.rows[i].clientId, reply).value;
    UniqueKept(t.rows, t1.rows);
    FindStable(t.rows, t1.rows, parent, |t.rows|);
    SingleProtectStored(t1, parent, i, reply.orderId);
  }

  // ---------- an ended pair ----------

  // The exchange reports the pair as done by one completely filled leg, and the quantities agree.
  predicate ClosingEvidence(t: Tables, x: Exchange, parent: ClientId, i: nat) {
    && i < |t.rows| && Protection(t.rows, parent) == Some(i)
    && var e := ListEvidence(x, t.rows[i], parent);
    && e.Pair? && e.status == AllDone && IsClosing(Classify(e.legs)) && Verified(t, parent, t.rows[i], e.legs, true)
  }

  predicate DistinctOrders(refs: seq<Ref>) {
    forall i, j | 0 <= i < j < |refs| :: refs[i].orderId != refs[j].orderId
  }

  lemma {:induction false} OthersWithin(refs: seq<Ref>, parent: ClientId)
    ensures forall i | 0 <= i < |Others(refs, parent)| :: Others(refs, parent)[i] in refs
  {
    if refs != [] {
      OthersWithin(refs[..|refs| - 1], parent);
      assert refs == refs[..|refs| - 1] + [refs[|refs| - 1]];
    }
  }

  lemma {:induction false} OthersDistinct(refs: seq<Ref>, parent: ClientId)
    requires DistinctOrders(refs)
    ensures DistinctOrders(Others(refs, parent))
  {
    if refs != [] {
      var rest, last := refs[..|refs| - 1], refs[|refs| - 1];
      OthersDistinct(rest, parent);
      OthersWithin(rest, parent);
      forall i | 0 <= i < |Others(rest, parent)| ensures Others(rest, parent)[i].orderId != last.orderId {
        var k :| 0 <= k < |rest| && rest[k] == Others(rest, parent)[i];
        assert refs[k] == rest[k];
      }
    }
  }

  lemma PairIsChecked(x: Exchange, p: Intent, parent: ClientId)
    requires ListEvidence(x, p, parent).Pair?
    ensures var e := ListEvidence(x, p, parent);
            && |e.legs| == 2 && e.legs[0].orderId != e.legs[1].orderId && e.listId >= 0
            && (p.listId.Some? ==> p.listId == Some(e.listId))
            && forall k | 0 <= k < 2 :: CheckedOrder(e.legs[k], p.symbol, None, None, Some(e.listId))
  {
    var l := x.lists[p.clientId];
    if p.kind == Otoco {
      OthersDistinct(l.refs, parent);
    } else {
      assert l.refs[0].orderId != l.refs[1].orderId;
    }
  }

  lemma ClosingLeg(t: Tables, x: Exchange, parent: ClientId, i: nat) returns (k: nat)
    requires ClosingEvidence(t, x, parent, i)
    ensures var p, e, j := t.rows[i], ListEvidence(x, t.rows[i], parent), Find(t.rows, parent).value;
            var o := Classify(e.legs);
            && k < |e.legs| && e.legs[k] == o.leg && o.reason == ReasonOf(o.leg)
            && CheckedOrder(o.leg, p.symbol, None, None, Some(e.listId)) && o.leg.side == Sell
            && RelatedParent(t.rows[j], parent, p) && t.rows[j].clientId == parent
            && 0.0 < p.quantity == o.leg.original == o.leg.executed == Acquired(t.rows[j]) - ExitSum(t.exits, parent)
  {
    var e := ListEvidence(x, t.rows[i], parent);
    PairIsChecked(x, t.rows[i], parent);
    k := if Classify(e.legs).leg == e.legs[0] then 0 else 1;
    assert LegConsistent(e.legs[k], t.rows[i].quantity);
  }

  lemma ClosedRows(t: Tables, parent: ClientId, i: nat, legs: seq<OrderReply>, exit: OrderReply, reason: ExitReason,
                   u: Tables)
    requires Apart(t, parent, i) && RecordVerifiedLegs(t, t.rows[i].clientId, legs).Some?
    requires MarkExactClosed(RecordVerifiedLegs(t, t.rows[i].clientId, legs).value, t.rows[i].clientId, exit.orderId,
                             reason, exit)
             == Some(u)
    ensures |u.rows| == |t.rows| && u.rows[i].state == Closed && u.rows[Find(t.rows, parent).value].state == Closed
    ensures var id := t.rows[i].clientId;
            id in u.closures && u.closures[id].exitOrderId == exit.orderId && u.closures[id].reason == reason
  {
    LegsStored(t, i, legs);
    var t1 := RecordVerifiedLegs(t, t.rows[i].clientId, legs).value;
    UniqueKept(t.rows, t1.rows);
    FindStable(t.rows, t1.rows, parent, |t.rows|);
    FindUnique(t1.rows, i, |t1.rows|);
    CloseStored(t1, i, exit.orderId, reason, exit);
  }

  lemma CloseCovered(t: Tables, x: Exchange, parent: ClientId, i: nat, u: Tables)
    requires UniqueIds(t.rows) && ClosingEvidence(t, x, parent, i)
    requires var legs, o := ListEvidence(x, t.rows[i], parent).legs, Classify(ListEvidence(x, t.rows[i], parent).legs);
             RecordVerifiedLegs(t, t.rows[i].clientId, legs).Some?
             && MarkExactClosed(RecordVerifiedLegs(t, t.rows[i].clientId, legs).value, t.rows[i].clientId,
                                o.leg.orderId,
                                o.reason, o.leg) == Some(u)
    ensures Find(t.rows, parent).Some? && |u.rows| == |t.rows| && ClosedFor(x, u, parent, i, Find(t.rows, parent).value)
  {
    var legs, o := ListEvidence(x, t.rows[i], parent).legs, Classify(ListEvidence(x, t.rows[i], parent).legs);
    var _ := ClosingLeg(t, x, parent, i);
    CloseProgress(t, parent, i, legs, o.leg, o.reason, u);
    ClosedRows(t, parent, i, legs, o.leg, o.reason, u);
    LegsAgree(x, t.rows[i], u.rows[i], parent);
  }

  predicate CoveredBy(t: Tables, x: Exchange, parent: ClientId, i: nat, u: Tables) {
    && i < |t.rows| == |u.rows| && Find(t.rows, parent).Some?
    && (LiveFor(x, u, parent, i, Find(t.rows, parent).value) || ClosedFor(x, u, parent, i, Find(t.rows, parent).value))
  }

  lemma PairPlans(t: Tables, parent: ClientId, p: Intent, e: Evidence)
    requires e.Pair? && DecidePair(t, parent, p, e.legs, e.status, e.listId).verdict == Covered
    ensures var plan, o := DecidePair(t, parent, p, e.legs, e.status, e.listId), Classify(e.legs);
            || plan == Plan(p.clientId, [ProtectByPair(e.legs, e.listId)], Covered)
            || (IsClosing(o) && Verified(t, parent, p, e.legs, true)
                && plan == Plan(p.clientId, [StoreVerifiedLegs(e.legs), Close(o.leg, o.reason)], Covered))
  {
  }

  lemma PairAnswer(t: Tables, x: Exchange, parent: ClientId, i: nat, plan: Plan)
    requires UniqueIds(t.rows) && Protection(t.rows, parent) == Some(i) && ListEvidence(x, t.rows[i], parent).Pair?
    requires var e := ListEvidence(x, t.rows[i], parent);
             plan == DecidePair(t, parent, t.rows[i], e.legs, e.status, e.listId)
    requires After(t, parent, plan).1 == Covered
    ensures CoveredBy(t, x, parent, i, After(t, parent, plan).0)
  {
    var id, e := t.rows[i].clientId, ListEvidence(x, t.rows[i], parent);
    PairPlans(t, parent, t.rows[i], e);
    if plan.txs == [ProtectByPair(e.legs, e.listId)] {
      CommitOne(t, parent, id, ProtectByPair(e.legs, e.listId));
      PairCovered(t, x, parent, i, After(t, parent, plan).0);
    } else {
      var o := Classify(e.legs);
      CommitTwo(t, parent, id, StoreVerifiedLegs(e.legs), Close(o.leg, o.reason));
      CloseCovered(t, x, parent, i, After(t, parent, plan).0);
    }
  }

  lemma SingleAnswer(t: Tables, x: Exchange, parent: ClientId, i: nat)
    requires UniqueIds(t.rows) && Protection(t.rows, parent) == Some(i) && t.rows[i].kind != Oco
             && t.rows[i].kind != Otoco
    requires After(t, parent, DecideSingle(t, x, parent, t.rows[i])).1 == Covered
    ensures CoveredBy(t, x, parent, i, After(t, parent, DecideSingle(t, x, parent, t.rows[i])).0)
  {
    var id, reply := t.rows[i].clientId, x.byClient[t.rows[i].clientId];
    CommitTwo(t, parent, id, NoteOrder(reply), ProtectBySingle(reply.orderId));
    SingleCovered(t, x, parent, i, After(t, parent, DecideSingle(t, x, parent, t.rows[i])).0);
  }

  /** Whenever the recovery answers that a BUY is covered, either its protection is live for exactly what was
      acquired less the recorded exits, or the lifecycle is closed and exits plus final fill are everything. */
  lemma CoveredMeans(t: Tables, x: Exchange, parent: ClientId)
    requires UniqueIds(t.rows) && Recovered(t, x, parent).1 == Covered
    ensures Protection(t.rows, parent).Some? && Find(t.rows, parent).Some?
    ensures var u, i, j := Recovered(t, x, parent).0, Protection(t.rows, parent).value, Find(t.rows, parent).value;
            |u.rows| == |t.rows| && (LiveFor(x, u, parent, i, j) || ClosedFor(x, u, parent, i, j))
  {
    var i := Protection(t.rows, parent).value;
    if t.rows[i].kind == Oco || t.rows[i].kind == Otoco {
      PairAnswer(t, x, parent, i, Decide(t, x, parent));
    } else {
      SingleAnswer(t, x, parent, i);
    }
  }

  // ---------- when an ended pair can be closed ----------

  predicate NoConflict(t: Tables, p: Intent, legs: seq<OrderReply>, orderId: int, reason: ExitReason) {
    && StoreLegs(t.legs, p, Refs(legs)).Some?
    && (p.clientId in t.closures
        ==> t.closures[p.clientId].exitOrderId == orderId && t.closures[p.clientId].reason == reason)
  }

  lemma ExitIsExact(t: Tables, x: Exchange, parent: ClientId, i: nat, known: map<OrderKey, Leg>)
    requires UniqueIds(t.rows) && ClosingEvidence(t, x, parent, i)
    requires LegsKnown(known, t.rows[i], Refs(ListEvidence(x, t.rows[i], parent).legs))
    ensures var o, j := Classify(ListEvidence(x, t.rows[i], parent).legs), Find(t.rows, parent).value;
            var u := t.(legs := known);
            && (ExactExit(u, t.rows[j], t.rows[i], o.leg, o.leg.orderId) <==> t.rows[i].listId.Some?)
            && VerifiedLeg(u, t.rows[i], o.leg.orderId, o.reason)
  {
    var p, legs := t.rows[i], ListEvidence(x, t.rows[i], parent).legs;
    PairIsChecked(x, p, parent);
    var k := ClosingLeg(t, x, parent, i);
    var ref := Refs(legs)[k];
    assert ref == LegRef(legs[k].orderId, legs[k].clientId, legs[k].kind);
    assert known[(p.symbol, ref.orderId)] == Leg(p.clientId, ref.clientId, ref.kind);
  }

  lemma CloseSucceeds(t: Tables, i: nat, j: nat, orderId: int, reason: ExitReason, exit: OrderReply)
    requires UniqueIds(t.rows) && i < |t.rows| && j < |t.rows| && t.rows[i].parent == Some(t.rows[j].clientId)
    ensures MarkExactClosed(t, t.rows[i].clientId, orderId, reason, exit).Some?
            <==> (&& ExactExit(t, t.rows[j], t.rows[i], exit, orderId) && VerifiedLeg(t, t.rows[i], orderId, reason)
                  && (t.rows[i].clientId in t.closures ==>
                        t.closures[t.rows[i].clientId].exitOrderId == orderId
                            && t.closures[t.rows[i].clientId].reason == reason))
  {
    FindUnique(t.rows, i, |t.rows|);
    FindUnique(t.rows, j, |t.rows|);
  }

  lemma CloseAccepted(t: Tables, x: Exchange, parent: ClientId, i: nat)
    requires UniqueIds(t.rows) && ClosingEvidence(t, x, parent, i)
    requires RecordVerifiedLegs(t, t.rows[i].clientId, ListEvidence(x, t.rows[i], parent).legs).Some?
    ensures var legs, o := ListEvidence(x, t.rows[i], parent).legs, Classify(ListEvidence(x, t.rows[i], parent).legs);
            var t1 := RecordVerifiedLegs(t, t.rows[i].clientId, legs).value;
            MarkExactClosed(t1, t.rows[i].clientId, o.leg.orderId, o.reason, o.leg).Some?
            <==> t.rows[i].listId.Some? && NoConflict(t, t.rows[i], legs, o.leg.orderId, o.reason)
  {
    var legs, o := ListEvidence(x, t.rows[i], parent).legs, Classify(ListEvidence(x, t.rows[i], parent).legs);
    var t1 := RecordVerifiedLegs(t, t.rows[i].clientId, legs).value;
    LegsStored(t, i, legs);
    FindUnique(t.rows, i, |t.rows|);
    UniqueKept(t.rows, t1.rows);
    FindStable(t.rows, t1.rows, parent, |t.rows|);
    ExitIsExact(t, x, parent, i, t1.legs);
    var j := Find(t.rows, parent).value;
    CloseSucceeds(t1, i, j, o.leg.orderId, o.reason, o.leg);
    assert ExactExit(t1, t1.rows[j], t1.rows[i], o.leg, o.leg.orderId)
           == ExactExit(t.(legs := t1.legs), t.rows[j], t.rows[i], o.leg, o.leg.orderId);
  }

  /** With the pair reported as done by one completely filled leg, the lifecycle is closed exactly when the
      protection's list id is on record and neither its legs nor an earlier closure contradict it. Otherwise
      the recovery is refused. */
  lemma ClosesExactly(t: Tables, x: Exchange, parent: ClientId, i: nat)
    requires UniqueIds(t.rows) && ClosingEvidence(t, x, parent, i)
    ensures var legs, o := ListEvidence(x, t.rows[i], parent).legs, Classify(ListEvidence(x, t.rows[i], parent).legs);
            Recovered(t, x, parent).1
            == if t.rows[i].listId.Some?
                && NoConflict(t, t.rows[i], legs, o.leg.orderId, o.reason) then Covered else Refused
  {
    var id, e := t.rows[i].clientId, ListEvidence(x, t.rows[i], parent);
    var o := Classify(e.legs);
    assert Decide(t, x, parent) == Plan(id, [StoreVerifiedLegs(e.legs), Close(o.leg, o.reason)], Covered);
    CommitTwo(t, parent, id, StoreVerifiedLegs(e.legs), Close(o.leg, o.reason));
    FindUnique(t.rows, i, |t.rows|);
    PairIsChecked(x, t.rows[i], parent);
    assert TwoDistinct(Refs(e.legs));
    if RecordVerifiedLegs(t, id, e.legs).Some? {
      CloseAccepted(t, x, parent, i);
    }
  }

  /** The tables after n complete recoveries against the same exchange. */
  function Retried(t: Tables, x: Exchange, parent: ClientId, n: nat): Tables {
    if n == 0 then t else Recovered(Retried(t, x, parent, n - 1), x, parent).0
  }

  lemma {:induction false} RetriesAgree(t: Tables, x: Exchange, parent: ClientId, n: nat)
    requires UniqueIds(t.rows)
    ensures Recovered(Retried(t, x, parent, n), x, parent) == Recovered(t, x, parent)
  {
    if n > 0 {
      RetriesAgree(t, x, parent, n - 1);
      Idempotent(t, x, parent);
    }
  }

  /** If the submission's answer was lost and the list id never recorded, an exit that then fills is refused
      on every attempt: retrying the recovery cannot close it. */
  lemma {:induction false} StuckWithoutListId(t: Tables, x: Exchange, parent: ClientId, i: nat, n: nat)
    requires UniqueIds(t.rows) && ClosingEvidence(t, x, parent, i) && t.rows[i].listId == None
    ensures Recovered(Retried(t, x, parent, n), x, parent).1 == Refused
  {
    ClosesExactly(t, x, parent, i);
    RetriesAgree(t, x, parent, n);
  }
}
