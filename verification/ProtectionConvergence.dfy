/** Recovery of a protection is idempotent and survives crashes: whatever prefix of its transactions was
    committed before, running it again against the same exchange gives the same tables and the same
    answer as one undisturbed run. */
module ProtectionConvergence {
  import opened Results
  import opened OrderJournal
  import opened ProtectionQuantity
  import opened ProtectionRecovery
  import opened JournalHistory

  // ---------- the plan does not change under its own transactions ----------

  function ListEvidence(x: Exchange, p: Intent, parent: ClientId): Evidence {
    if !x.up then NoEvidence
    else if p.kind == Otoco then OtocoEvidence(x, p, parent)
    else if p.kind == Oco then OcoEvidence(x, p)
    else NoEvidence
  }

  // The exchange's result of an order and its settlement are the same.
  predicate SameResult(a: Intent, b: Intent) {
    a.executed == b.executed && a.quote == b.quote && a.orderId == b.orderId && a.settlement == b.settlement
  }

  // No BUY changes what it acquired.
  predicate SameInventory(a: seq<Intent>, b: seq<Intent>)
    requires |a| == |b|
  {
    forall i | 0 <= i < |a| && a[i].side == Buy :: SameResult(a[i], b[i])
  }

  predicate SettledEvidence(e: Evidence) {
    e.Pair? && !AllActive(e.legs) && !IsClosing(Classify(e.legs))
  }

  /** `q` is the protection `p` with nothing added that the exchange's evidence does not say. */
  predicate Attested(x: Exchange, parent: ClientId, p: Intent, q: Intent) {
    var e := ListEvidence(x, p, parent);
    && SameIdentity(p, q)
    && (q.listId == p.listId || (e.Pair? && q.listId == Some(e.listId))
        || (e.WorkingUnfilled? && q.listId == Some(e.listId)))
    && (q.verifiedLegs == p.verifiedLegs || (e.Pair? && q.verifiedLegs == Refs(e.legs)))
    && (q.orderId == p.orderId || (p.clientId in x.byClient && q.orderId == Some(x.byClient[p.clientId].orderId)))
  }

  predicate SamePlanBasis(t: Tables, u: Tables, x: Exchange, parent: ClientId, i: nat) {
    && i < |t.rows| && SameIntents(t.rows, u.rows) && SameInventory(t.rows, u.rows)
    && Attested(x, parent, t.rows[i], u.rows[i])
    && (t.exits == u.exits || SettledEvidence(ListEvidence(x, t.rows[i], parent)))
  }

  lemma RefIdsAreLegIds(legs: seq<OrderReply>)
    ensures RefIds(Refs(legs)) == LegIds(legs)
  {
    var refs := Refs(legs);
    forall id | id in LegIds(legs) ensures id in RefIds(refs) {
      var leg :| leg in legs && leg.orderId == id;
      var k :| 0 <= k < |legs| && legs[k] == leg;
      assert refs[k].orderId == id && refs[k] in refs;
    }
    forall id | id in RefIds(refs) ensures id in LegIds(legs) {
      var r :| r in refs && r.orderId == id;
      var k :| 0 <= k < |refs| && refs[k] == r;
      assert legs[k].orderId == id && legs[k] in legs;
    }
  }

  lemma EvidenceAgain(x: Exchange, parent: ClientId, p: Intent, q: Intent)
    requires Attested(x, parent, p, q) && ListEvidence(x, p, parent) != NoEvidence
    ensures ListEvidence(x, q, parent) == ListEvidence(x, p, parent)
  {
  }

  lemma VerifiedAgain(t: Tables, u: Tables, parent: ClientId, p: Intent, q: Intent, legs: seq<OrderReply>,
                      closing: bool)
    requires SameIntents(t.rows, u.rows) && SameInventory(t.rows, u.rows) && SameIdentity(p, q)
    requires q.verifiedLegs == p.verifiedLegs || q.verifiedLegs == Refs(legs)
    requires t.exits == u.exits || (!AllActive(legs) && !closing)
    requires Verified(t, parent, p, legs, closing)
    ensures Verified(u, parent, q, legs, closing)
  {
    FindStable(t.rows, u.rows, parent, |t.rows|);
    RefIdsAreLegIds(legs);
    var j := Find(t.rows, parent).value;
    assert SameIdentity(t.rows[j], u.rows[j]);
  }

  lemma PairPlanAgain(t: Tables, u: Tables, parent: ClientId, p: Intent, q: Intent, e: Evidence)
    requires SameIntents(t.rows, u.rows) && SameInventory(t.rows, u.rows) && SameIdentity(p, q)
    requires e.Pair? && (q.verifiedLegs == p.verifiedLegs || q.verifiedLegs == Refs(e.legs))
    requires t.exits == u.exits || SettledEvidence(e)
    requires DecidePair(t, parent, p, e.legs, e.status, e.listId).verdict != Refused
    ensures DecidePair(u, parent, q, e.legs, e.status, e.listId) == DecidePair(t, parent, p, e.legs, e.status, e.listId)
  {
    VerifiedAgain(t, u, parent, p, q, e.legs, IsClosing(Classify(e.legs)));
  }

  lemma PlanAgain(t: Tables, u: Tables, x: Exchange, parent: ClientId, i: nat)
    requires Protection(t.rows, parent) == Some(i) && SamePlanBasis(t, u, x, parent, i)
    requires Decide(t, x, parent).verdict != Refused
    ensures Decide(u, x, parent) == Decide(t, x, parent)
  {
    ProtectionStable(t.rows, u.rows, parent, |t.rows|);
    var p, q := t.rows[i], u.rows[i];
    assert SameIdentity(p, q);
    var e := ListEvidence(x, p, parent);
    if p.kind == Otoco || p.kind == Oco {
      EvidenceAgain(x, parent, p, q);
      if e.Pair? {
        PairPlanAgain(t, u, parent, p, q, e);
      }
    } else if p.clientId in x.byClient {
      VerifiedAgain(t, u, parent, p, q, [x.byClient[p.clientId]], false);
    }
  }

  // ---------- a committed transaction is absorbed when it comes again ----------

  // Every leg of this protection is on record under this identity.
  predicate LegsKnown(known: map<OrderKey, Leg>, protection: Intent, refs: seq<LegRef>) {
    forall k | 0 <= k < |refs| ::
      (protection.symbol, refs[k].orderId) in known
      && known[(protection.symbol, refs[k].orderId)] == Leg(protection.clientId, refs[k].clientId, refs[k].kind)
  }

  lemma {:induction false} StoreKnown(known: map<OrderKey, Leg>, protection: Intent, refs: seq<LegRef>)
    requires LegsKnown(known, protection, refs)
    ensures StoreLegs(known, protection, refs) == Some(known)
    decreases |refs|
  {
    if refs != [] {
      assert forall k | 0 <= k < |refs[1..]| :: refs[1..][k] == refs[k + 1];
      assert known[(protection.symbol, refs[0].orderId) := known[(protection.symbol, refs[0].orderId)]] == known;
      StoreKnown(known, protection, refs[1..]);
    }
  }

  lemma LegsAgain(t: Tables, i: nat, legs: seq<OrderReply>)
    requires UniqueIds(t.rows) && i < |t.rows|
    requires t.rows[i].verifiedLegs == Refs(legs) && TwoDistinct(Refs(legs)) && LegsKnown(t.legs, t.rows[i], Refs(legs))
    ensures RecordVerifiedLegs(t, t.rows[i].clientId, legs) == Some(t)
  {
    FindUnique(t.rows, i, |t.rows|);
    StoreKnown(t.legs, t.rows[i], Refs(legs));
    assert t.rows[i := t.rows[i]] == t.rows;
  }

  lemma LegsStored(t: Tables, i: nat, legs: seq<OrderReply>)
    requires UniqueIds(t.rows) && i < |t.rows| && RecordVerifiedLegs(t, t.rows[i].clientId, legs).Some?
    ensures var u := RecordVerifiedLegs(t, t.rows[i].clientId, legs).value;
            && u == t.(legs := u.legs, rows := t.rows[i := t.rows[i].(verifiedLegs := Refs(legs))])
            && TwoDistinct(Refs(legs)) && LegsKnown(u.legs, u.rows[i], Refs(legs))
  {
    FindUnique(t.rows, i, |t.rows|);
    LegsGrow(t.legs, t.rows[i], Refs(legs));
  }

  /** What a successful exact close leaves: the two rows closed by this exit, one closure, nothing else. */
  lemma CloseStored(t: Tables, i: nat, orderId: int, reason: ExitReason, exit: OrderReply)
    requires UniqueIds(t.rows) && i < |t.rows| && MarkExactClosed(t, t.rows[i].clientId, orderId, reason, exit).Some?
    ensures var u := MarkExactClosed(t, t.rows[i].clientId, orderId, reason, exit).value;
            && t.rows[i].parent.Some? && Find(t.rows, t.rows[i].parent.value).Some?
            && var j := Find(t.rows, t.rows[i].parent.value).value;
            && i != j && t.rows[j].side == Buy
            && u.rows == t.rows[i := t.rows[i].(state := Closed, exactExit := Some((orderId, reason)))]
                               [j := t.rows[j].(state := Closed, exactExit := Some((orderId, reason)))]
            && u.legs == t.legs && u.exits == t.exits
  {
    FindUnique(t.rows, i, |t.rows|);
  }

  lemma CloseAgain(t: Tables, i: nat, orderId: int, reason: ExitReason, exit: OrderReply)
    requires UniqueIds(t.rows) && i < |t.rows| && MarkExactClosed(t, t.rows[i].clientId, orderId, reason, exit).Some?
    ensures var u := MarkExactClosed(t, t.rows[i].clientId, orderId, reason, exit).value;
            MarkExactClosed(u, t.rows[i].clientId, orderId, reason, exit) == Some(u)
  {
    var id := t.rows[i].clientId;
    var u := MarkExactClosed(t, id, orderId, reason, exit).value;
    CloseStored(t, i, orderId, reason, exit);
    ExactCloseKeeps(t, id, orderId, reason, exit);
    FindStable(t.rows, u.rows, id, |t.rows|);
    FindStable(t.rows, u.rows, t.rows[i].parent.value, |t.rows|);
    FindUnique(t.rows, i, |t.rows|);
    var j := Find(t.rows, t.rows[i].parent.value).value;
    assert u.rows[i := u.rows[i]][j := u.rows[j]] == u.rows;
    assert id in u.closures;
  }

  lemma {:induction false} PartialStored(t: Tables, i: nat, orderId: int, reason: ExitReason, quantity: real,
                                         status: Status)
    requires UniqueIds(t.rows) && i < |t.rows| && t.rows[i].side == Sell
    requires RecordPartialExit(t, t.rows[i].clientId, orderId, reason, quantity, status).Some?
    ensures var u := RecordPartialExit(t, t.rows[i].clientId, orderId, reason, quantity, status).value;
            && t.rows[i].parent.Some? && Find(t.rows, t.rows[i].parent.value).Some?
            && var j := Find(t.rows, t.rows[i].parent.value).value;
            var failed := t.rows[i := t.rows[i].(state := Failed)];
            && u.rows == failed[j := failed[j].(state := ProtectionPending)]
            && u.legs == t.legs && u.closures == t.closures
            && FindExit(u.exits, t.rows[i].symbol, orderId)
               == Some(PartialExit(t.rows[i].symbol, orderId, t.rows[i].clientId, t.rows[i].parent.value, reason,
                                   quantity, status))
  {
    FindUnique(t.rows, i, |t.rows|);
    StateSet(t, i, Failed);
    FindStable(t.rows, t.rows[i := t.rows[i].(state := Failed)], t.rows[i].parent.value, |t.rows|);
  }

  lemma PartialAgain(t: Tables, i: nat, orderId: int, reason: ExitReason, quantity: real, status: Status)
    requires UniqueIds(t.rows) && i < |t.rows| && t.rows[i].side == Sell
    requires RecordPartialExit(t, t.rows[i].clientId, orderId, reason, quantity, status).Some?
    requires t.rows[i].parent != Some(t.rows[i].clientId)
    ensures var u := RecordPartialExit(t, t.rows[i].clientId, orderId, reason, quantity, status).value;
            RecordPartialExit(u, t.rows[i].clientId, orderId, reason, quantity, status) == Some(u)
  {
    var id := t.rows[i].clientId;
    var u := RecordPartialExit(t, id, orderId, reason, quantity, status).value;
    PartialStored(t, i, orderId, reason, quantity, status);
    PartialExitKeeps(t, id, orderId, reason, quantity, status);
    UniqueKept(t.rows, u.rows);
    var j := Find(t.rows, t.rows[i].parent.value).value;
    FindUnique(u.rows, i, |u.rows|);
    FindUnique(u.rows, j, |u.rows|);
    StateSet(u, i, Failed);
    assert u.rows[i := u.rows[i].(state := Failed)] == u.rows;
    StateSet(u, j, ProtectionPending);
    assert u.rows[j := u.rows[j].(state := ProtectionPending)] == u.rows;
  }

  lemma PairProtectedStored(t: Tables, parent: ClientId, i: nat, legs: seq<OrderReply>, listId: int)
    requires UniqueIds(t.rows) && i < |t.rows|
             && MarkVerifiedProtected(t, parent, t.rows[i].clientId, legs, listId).Some?
    ensures var u := MarkVerifiedProtected(t, parent, t.rows[i].clientId, legs, listId).value;
            && Find(t.rows, parent).Some?
            && var j := Find(t.rows, parent).value;
            var done := t.rows[i := t.rows[i].(verifiedLegs := Refs(legs), state := Protected, listId := Some(listId))];
            && u.rows == done[j := done[j].(state := Protected)] && u.exits == t.exits && u.closures == t.closures
            && TwoDistinct(Refs(legs)) && LegsKnown(u.legs, t.rows[i], Refs(legs))
  {
    FindUnique(t.rows, i, |t.rows|);
    LegsStored(t, i, legs);
    var done := t.rows[i := t.rows[i].(verifiedLegs := Refs(legs), state := Protected, listId := Some(listId))];
    FindStable(t.rows, done, parent, |t.rows|);
  }

  lemma PairProtectedAgain(t: Tables, parent: ClientId, i: nat, legs: seq<OrderReply>, listId: int)
    requires UniqueIds(t.rows) && i < |t.rows|
             && MarkVerifiedProtected(t, parent, t.rows[i].clientId, legs, listId).Some?
    ensures var u := MarkVerifiedProtected(t, parent, t.rows[i].clientId, legs, listId).value;
            MarkVerifiedProtected(u, parent, t.rows[i].clientId, legs, listId) == Some(u)
  {
    var id := t.rows[i].clientId;
    var u := MarkVerifiedProtected(t, parent, id, legs, listId).value;
    PairProtectedStored(t, parent, i, legs, listId);
    VerifiedProtectedKeeps(t, parent, id, legs, listId);
    FindUnique(t.rows, i, |t.rows|);
    FindStable(t.rows, u.rows, id, |t.rows|);
    FindStable(t.rows, u.rows, parent, |t.rows|);
    UniqueKept(t.rows, u.rows);
    LegsAgain(u, i, legs);
    assert u.rows[i := u.rows[i].(state := Protected, listId := Some(listId))] == u.rows;
    var j := Find(t.rows, parent).value;
    StateSet(u, j, Protected);
    assert u.rows[j := u.rows[j].(state := Protected)] == u.rows;
  }

  // ---------- every committed prefix leads to the same end ----------

  // A state from which the same plan leads to the same end.
  lemma {:induction false} SameEnd(t: Tables, u: Tables, x: Exchange, parent: ClientId, i: nat)
    requires Protection(t.rows, parent) == Some(i) && SamePlanBasis(t, u, x, parent, i)
    requires Decide(t, x, parent).verdict != Refused
    requires var plan := Decide(t, x, parent);
             CommitAll(u, parent, plan.protection, plan.txs) == CommitAll(t, parent, plan.protection, plan.txs)
    ensures Recovered(u, x, parent) == Recovered(t, x, parent)
  {
    PlanAgain(t, u, x, parent, i);
  }

  // Where a run of at most two transactions can be interrupted.
  ghost predicate Reaches(t: Tables, parent: ClientId, id: ClientId, txs: seq<Tx>, u: Tables) {
    || u == t
    || (|txs| >= 1 && Commit(t, parent, id, txs[0]) == Some(u))
    || (|txs| == 2 && Commit(t, parent, id, txs[0]).Some?
        && Commit(Commit(t, parent, id, txs[0]).value, parent, id, txs[1]) == Some(u))
  }

  lemma {:induction false} PrefixReaches(t: Tables, parent: ClientId, id: ClientId, txs: seq<Tx>, n: nat)
    requires n <= |txs| <= 2
    ensures Reaches(t, parent, id, txs, CommitAll(t, parent, id, txs[..n]).0)
  {
    if n == 1 {
      assert txs[..n] == [txs[0]];
      CommitOne(t, parent, id, txs[0]);
    } else if n == 2 {
      assert txs[..n] == [txs[0], txs[1]];
      CommitTwo(t, parent, id, txs[0], txs[1]);
    }
  }

  // The parent of the protection in row i is a BUY, so it is another row.
  predicate Apart(t: Tables, parent: ClientId, i: nat) {
    && UniqueIds(t.rows) && i < |t.rows| && Protects(t.rows[i], parent)
    && Find(t.rows, parent).Some? && t.rows[Find(t.rows, parent).value].side == Buy
  }

  // What committed transactions may have added to the protection's row and to the exits.
  predicate Progressed(t: Tables, u: Tables, i: nat, listId: Option<int>, orderId: Option<int>, legs: seq<OrderReply>) {
    && i < |t.rows| && SameIntents(t.rows, u.rows) && SameInventory(t.rows, u.rows)
    && u.rows[i].listId in {t.rows[i].listId, listId} && u.rows[i].orderId in {t.rows[i].orderId, orderId}
    && u.rows[i].verifiedLegs in {t.rows[i].verifiedLegs, Refs(legs)}
  }

  lemma {:induction false} AbsorbOne(t: Tables, u: Tables, parent: ClientId, id: ClientId, a: Tx)
    requires Commit(t, parent, id, a) == Some(u) && Commit(u, parent, id, a) == Some(u)
    ensures CommitAll(u, parent, id, [a]) == CommitAll(t, parent, id, [a])
  {
    CommitOne(t, parent, id, a);
    CommitOne(u, parent, id, a);
  }

  lemma {:induction false} AbsorbFirst(t: Tables, u: Tables, parent: ClientId, id: ClientId, a: Tx, b: Tx)
    requires Commit(t, parent, id, a) == Some(u) && Commit(u, parent, id, a) == Some(u)
    ensures CommitAll(u, parent, id, [a, b]) == CommitAll(t, parent, id, [a, b])
  {
    CommitTwo(t, parent, id, a, b);
    CommitTwo(u, parent, id, a, b);
  }

  lemma {:induction false} AbsorbBoth(t: Tables, t1: Tables, u: Tables, u1: Tables, parent: ClientId, id: ClientId,
                                      a: Tx, b: Tx)
    requires Commit(t, parent, id, a) == Some(t1) && Commit(t1, parent, id, b) == Some(u)
    requires Commit(u, parent, id, a) == Some(u1) && Commit(u1, parent, id, b) == Some(u)
    ensures CommitAll(u, parent, id, [a, b]) == CommitAll(t, parent, id, [a, b])
  {
    CommitTwo(t, parent, id, a, b);
    CommitTwo(u, parent, id, a, b);
  }

  lemma {:induction false} LegsAbsorbed(t: Tables, parent: ClientId, i: nat, legs: seq<OrderReply>, b: Tx, u: Tables)
    requires Apart(t, parent, i) && RecordVerifiedLegs(t, t.rows[i].clientId, legs) == Some(u)
    ensures CommitAll(u, parent, t.rows[i].clientId, [StoreVerifiedLegs(legs), b])
            == CommitAll(t, parent, t.rows[i].clientId, [StoreVerifiedLegs(legs), b])
    ensures Progressed(t, u, i, t.rows[i].listId, t.rows[i].orderId, legs) && u.exits == t.exits
  {
    LegsStored(t, i, legs);
    UniqueKept(t.rows, u.rows);
    LegsAgain(u, i, legs);
    AbsorbFirst(t, u, parent, t.rows[i].clientId, StoreVerifiedLegs(legs), b);
  }

  lemma {:induction false} CloseAbsorbed(t: Tables, parent: ClientId, i: nat, legs: seq<OrderReply>, exit: OrderReply,
                                         reason: ExitReason,
                      u: Tables)
    requires Apart(t, parent, i) && RecordVerifiedLegs(t, t.rows[i].clientId, legs).Some?
    requires MarkExactClosed(RecordVerifiedLegs(t, t.rows[i].clientId, legs).value, t.rows[i].clientId, exit.orderId,
                             reason, exit)
             == Some(u)
    ensures CommitAll(u, parent, t.rows[i].clientId, [StoreVerifiedLegs(legs), Close(exit, reason)])
            == CommitAll(t, parent, t.rows[i].clientId, [StoreVerifiedLegs(legs), Close(exit, reason)])
  {
    var id := t.rows[i].clientId;
    LegsStored(t, i, legs);
    var t1 := RecordVerifiedLegs(t, id, legs).value;
    UniqueKept(t.rows, t1.rows);
    CloseStored(t1, i, exit.orderId, reason, exit);
    CloseAgain(t1, i, exit.orderId, reason, exit);
    UniqueKept(t1.rows, u.rows);
    LegsAgain(u, i, legs);
    AbsorbBoth(t, t1, u, u, parent, id, StoreVerifiedLegs(legs), Close(exit, reason));
  }

  lemma CloseProgress(t: Tables, parent: ClientId, i: nat, legs: seq<OrderReply>, exit: OrderReply, reason: ExitReason,
                      u: Tables)
    requires Apart(t, parent, i) && RecordVerifiedLegs(t, t.rows[i].clientId, legs).Some?
    requires MarkExactClosed(RecordVerifiedLegs(t, t.rows[i].clientId, legs).value, t.rows[i].clientId, exit.orderId,
                             reason, exit)
             == Some(u)
    ensures Progressed(t, u, i, t.rows[i].listId, t.rows[i].orderId, legs) && u.exits == t.exits
  {
    var id := t.rows[i].clientId;
    LegsStored(t, i, legs);
    var t1 := RecordVerifiedLegs(t, id, legs).value;
    UniqueKept(t.rows, t1.rows);
    CloseStored(t1, i, exit.orderId, reason, exit);
  }

  lemma LegsStillKnown(t: Tables, parent: ClientId, i: nat, legs: seq<OrderReply>, exit: OrderReply, reason: ExitReason,
                       u: Tables)
    requires Apart(t, parent, i) && RecordVerifiedLegs(t, t.rows[i].clientId, legs).Some?
    requires RecordPartialExit(RecordVerifiedLegs(t, t.rows[i].clientId, legs).value, t.rows[i].clientId, exit.orderId,
                               reason,
                               exit.executed, exit.status) == Some(u)
    ensures var t1 := RecordVerifiedLegs(t, t.rows[i].clientId, legs).value;
            UniqueIds(t1.rows) && |t1.rows| == |t.rows| && t1.rows[i].clientId == t.rows[i].clientId
            && t1.rows[i].parent == t.rows[i].parent && t1.rows[i].side == Sell
            && t.rows[i].parent != Some(t.rows[i].clientId)
    ensures RecordVerifiedLegs(u, t.rows[i].clientId, legs) == Some(u)
  {
    LegsStored(t, i, legs);
    var t1 := RecordVerifiedLegs(t, t.rows[i].clientId, legs).value;
    UniqueKept(t.rows, t1.rows);
    FindUnique(t.rows, i, |t.rows|);
    FindStable(t.rows, t1.rows, parent, |t.rows|);
    PartialStored(t1, i, exit.orderId, reason, exit.executed, exit.status);
    UniqueKept(t1.rows, u.rows);
    LegsAgain(u, i, legs);
  }

  lemma {:induction false} PartialAbsorbed(t: Tables, parent: ClientId, i: nat, legs: seq<OrderReply>, exit: OrderReply,
                        reason: ExitReason, u: Tables)
    requires Apart(t, parent, i) && RecordVerifiedLegs(t, t.rows[i].clientId, legs).Some?
    requires RecordPartialExit(RecordVerifiedLegs(t, t.rows[i].clientId, legs).value, t.rows[i].clientId, exit.orderId,
                               reason,
                               exit.executed, exit.status) == Some(u)
    ensures CommitAll(u, parent, t.rows[i].clientId, [StoreVerifiedLegs(legs), ExitPartly(exit, reason)])
            == CommitAll(t, parent, t.rows[i].clientId, [StoreVerifiedLegs(legs), ExitPartly(exit, reason)])
  {
    var id := t.rows[i].clientId;
    var t1 := RecordVerifiedLegs(t, id, legs).value;
    LegsStillKnown(t, parent, i, legs, exit, reason, u);
    PartialAgain(t1, i, exit.orderId, reason, exit.executed, exit.status);
    AbsorbBoth(t, t1, u, u, parent, id, StoreVerifiedLegs(legs), ExitPartly(exit, reason));
  }

  lemma PartialProgress(t: Tables, parent: ClientId, i: nat, legs: seq<OrderReply>, exit: OrderReply,
                        reason: ExitReason, u: Tables)
    requires Apart(t, parent, i) && RecordVerifiedLegs(t, t.rows[i].clientId, legs).Some?
    requires RecordPartialExit(RecordVerifiedLegs(t, t.rows[i].clientId, legs).value, t.rows[i].clientId, exit.orderId,
                               reason,
                               exit.executed, exit.status) == Some(u)
    ensures Progressed(t, u, i, t.rows[i].listId, t.rows[i].orderId, legs)
  {
    var id := t.rows[i].clientId;
    LegsStored(t, i, legs);
    var t1 := RecordVerifiedLegs(t, id, legs).value;
    UniqueKept(t.rows, t1.rows);
    FindStable(t.rows, t1.rows, parent, |t.rows|);
    PartialStored(t1, i, exit.orderId, reason, exit.executed, exit.status);
  }

  lemma {:induction false} EmptyEndAbsorbed(t: Tables, parent: ClientId, i: nat, u: Tables)
    requires Apart(t, parent, i)
    requires var id, t1 := t.rows[i].clientId, SetState(t, t.rows[i].clientId, Failed);
             t1 == Some(u) || (t1.Some? && SetState(t1.value, parent, ProtectionPending) == Some(u))
    ensures CommitAll(u, parent, t.rows[i].clientId, [FailProtection, ReopenParent])
            == CommitAll(t, parent, t.rows[i].clientId, [FailProtection, ReopenParent])
  {
    var id := t.rows[i].clientId;
    var j := Find(t.rows, parent).value;
    StateSet(t, i, Failed);
    var t1 := SetState(t, id, Failed).value;
    UniqueKept(t.rows, t1.rows);
    FindStable(t.rows, t1.rows, parent, |t.rows|);
    StateSet(t1, j, ProtectionPending);
    UniqueKept(t.rows, u.rows);
    StateSet(u, i, Failed);
    assert u.rows[i := u.rows[i].(state := Failed)] == u.rows;
    StateSet(u, j, ProtectionPending);
    FindStable(t.rows, u.rows, parent, |t.rows|);
    CommitTwo(t, parent, id, FailProtection, ReopenParent);
    CommitTwo(u, parent, id, FailProtection, ReopenParent);
    assert t1.rows[j := t1.rows[j].(state := ProtectionPending)] == u.rows[j := u.rows[j].(state := ProtectionPending)];
  }

  lemma EmptyEndProgress(t: Tables, parent: ClientId, i: nat, u: Tables)
    requires Apart(t, parent, i)
    requires var id, t1 := t.rows[i].clientId, SetState(t, t.rows[i].clientId, Failed);
             t1 == Some(u) || (t1.Some? && SetState(t1.value, parent, ProtectionPending) == Some(u))
    ensures Progressed(t, u, i, None, None, []) && u.exits == t.exits && u.rows[i].listId == t.rows[i].listId
            && u.rows[i].orderId == t.rows[i].orderId && u.rows[i].verifiedLegs == t.rows[i].verifiedLegs
  {
    var id := t.rows[i].clientId;
    var j := Find(t.rows, parent).value;
    StateSet(t, i, Failed);
    var t1 := SetState(t, id, Failed).value;
    UniqueKept(t.rows, t1.rows);
    FindStable(t.rows, t1.rows, parent, |t.rows|);
    StateSet(t1, j, ProtectionPending);
  }

  lemma {:induction false} PairProtectAbsorbed(t: Tables, parent: ClientId, i: nat, legs: seq<OrderReply>, listId: int,
                                               u: Tables)
    requires Apart(t, parent, i) && MarkVerifiedProtected(t, parent, t.rows[i].clientId, legs, listId) == Some(u)
    ensures CommitAll(u, parent, t.rows[i].clientId, [ProtectByPair(legs, listId)])
            == CommitAll(t, parent, t.rows[i].clientId, [ProtectByPair(legs, listId)])
  {
    var id := t.rows[i].clientId;
    PairProtectedAgain(t, parent, i, legs, listId);
    AbsorbOne(t, u, parent, id, ProtectByPair(legs, listId));
  }

  lemma PairProtectProgress(t: Tables, parent: ClientId, i: nat, legs: seq<OrderReply>, listId: int, u: Tables)
    requires Apart(t, parent, i) && MarkVerifiedProtected(t, parent, t.rows[i].clientId, legs, listId) == Some(u)
    ensures Progressed(t, u, i, Some(listId), t.rows[i].orderId, legs) && u.exits == t.exits
  {
    var id := t.rows[i].clientId;
    PairProtectedStored(t, parent, i, legs, listId);
  }

  lemma {:induction false} ListNoteAbsorbed(t: Tables, parent: ClientId, i: nat, listId: int, u: Tables)
    requires UniqueIds(t.rows) && i < |t.rows| && t.rows[i].side == Sell
    requires RecordList(t, t.rows[i].clientId, true, Some(listId)) == Some(u)
    ensures CommitAll(u, parent, t.rows[i].clientId, [NoteList(listId)])
            == CommitAll(t, parent, t.rows[i].clientId, [NoteList(listId)])
    ensures Progressed(t, u, i, Some(listId), t.rows[i].orderId, []) && u.exits == t.exits
            && u.rows[i].verifiedLegs == t.rows[i].verifiedLegs
  {
    var id := t.rows[i].clientId;
    FindUnique(t.rows, i, |t.rows|);
    FindStable(t.rows, u.rows, id, |t.rows|);
    assert u.rows[i := u.rows[i].(state := Executed, listId := Some(listId))] == u.rows;
    AbsorbOne(t, u, parent, id, NoteList(listId));
  }

  lemma {:induction false} OrderNoteAbsorbed(t: Tables, parent: ClientId, i: nat, reply: OrderReply, u: Tables)
    requires UniqueIds(t.rows) && i < |t.rows| && t.rows[i].side == Sell
    requires RecordOrder(t, t.rows[i].clientId, reply) == Some(u)
    ensures RecordOrder(u, t.rows[i].clientId, reply) == Some(u)
    ensures CommitAll(u, parent, t.rows[i].clientId, [NoteOrder(reply)])
            == CommitAll(t, parent, t.rows[i].clientId, [NoteOrder(reply)])
    ensures Progressed(t, u, i, t.rows[i].listId, Some(reply.orderId), []) && u.exits == t.exits
            && u.rows[i].verifiedLegs == t.rows[i].verifiedLegs
  {
    var id := t.rows[i].clientId;
    FindUnique(t.rows, i, |t.rows|);
    FindStable(t.rows, u.rows, id, |t.rows|);
    assert u.rows[i := u.rows[i]] == u.rows;
    AbsorbOne(t, u, parent, id, NoteOrder(reply));
  }

  lemma SingleProtectStored(t: Tables, parent: ClientId, i: nat, orderId: int)
    requires Apart(t, parent, i)
    ensures MarkProtected(t, parent, t.rows[i].clientId, orderId).Some?
    ensures var j := Find(t.rows, parent).value;
            var done := t.rows[i := t.rows[i].(state := Protected, orderId := Some(orderId))];
            MarkProtected(t, parent, t.rows[i].clientId, orderId).value
                == t.(rows := done[j := done[j].(state := Protected)])
  {
    FindUnique(t.rows, i, |t.rows|);
    var done := t.rows[i := t.rows[i].(state := Protected, orderId := Some(orderId))];
    FindStable(t.rows, done, parent, |t.rows|);
  }

  // Noting the order reopens the protection's state; protecting it again restores the very same row.
  lemma {:induction false} SingleProtectAbsorbed(t: Tables, parent: ClientId, i: nat, reply: OrderReply, u: Tables)
    requires Apart(t, parent, i) && RecordOrder(t, t.rows[i].clientId, reply).Some?
    requires MarkProtected(RecordOrder(t, t.rows[i].clientId, reply).value, parent, t.rows[i].clientId, reply.orderId)
             == Some(u)
    ensures CommitAll(u, parent, t.rows[i].clientId, [NoteOrder(reply), ProtectBySingle(reply.orderId)])
            == CommitAll(t, parent, t.rows[i].clientId, [NoteOrder(reply), ProtectBySingle(reply.orderId)])
  {
    var id := t.rows[i].clientId;
    var t1 := RecordOrder(t, id, reply).value;
    OrderNoted(t, i, reply);
    UniqueKept(t.rows, t1.rows);
    FindStable(t.rows, t1.rows, parent, |t.rows|);
    SingleProtectStored(t1, parent, i, reply.orderId);
    UniqueKept(t1.rows, u.rows);
    OrderNoted(u, i, reply);
    var u1 := RecordOrder(u, id, reply).value;
    UniqueKept(u.rows, u1.rows);
    FindStable(t.rows, u1.rows, parent, |t.rows|);
    SingleProtectStored(u1, parent, i, reply.orderId);
    assert MarkProtected(u1, parent, id, reply.orderId).value.rows == u.rows;
    AbsorbBoth(t, t1, u, u1, parent, id, NoteOrder(reply), ProtectBySingle(reply.orderId));
  }

  lemma SingleProtectProgress(t: Tables, parent: ClientId, i: nat, reply: OrderReply, u: Tables)
    requires Apart(t, parent, i) && RecordOrder(t, t.rows[i].clientId, reply).Some?
    requires MarkProtected(RecordOrder(t, t.rows[i].clientId, reply).value, parent, t.rows[i].clientId, reply.orderId)
             == Some(u)
    ensures Progressed(t, u, i, t.rows[i].listId, Some(reply.orderId), []) && u.exits == t.exits
            && u.rows[i].verifiedLegs == t.rows[i].verifiedLegs
  {
    var id := t.rows[i].clientId;
    var t1 := RecordOrder(t, id, reply).value;
    OrderNoted(t, i, reply);
    UniqueKept(t.rows, t1.rows);
    FindStable(t.rows, t1.rows, parent, |t.rows|);
    SingleProtectStored(t1, parent, i, reply.orderId);
  }

  // ---------- the theorem ----------

  // The plans a protection can get, by the evidence there is.
  predicate PlanShape(t: Tables, x: Exchange, parent: ClientId, i: nat, plan: Plan)
    requires i < |t.rows|
  {
    var e, p := ListEvidence(x, t.rows[i], parent), t.rows[i];
    && plan.protection == p.clientId && plan.verdict != Refused
    && var txs := plan.txs;
    || (e.Pair? && |txs| == 2 && txs[0] == StoreVerifiedLegs(e.legs)
        && (txs[1].Close? || (txs[1].ExitPartly? && SettledEvidence(e))))
    || txs == [FailProtection, ReopenParent]
    || (e.Pair? && txs == [ProtectByPair(e.legs, e.listId)])
    || (e.WorkingUnfilled? && txs == [NoteList(e.listId)])
    || (p.clientId in x.byClient && txs == [NoteOrder(x.byClient[p.clientId])])
    || (p.clientId in x.byClient
        && txs == [NoteOrder(x.byClient[p.clientId]), ProtectBySingle(x.byClient[p.clientId].orderId)])
  }

  lemma PairPlanHasShape(t: Tables, x: Exchange, parent: ClientId, i: nat)
    requires UniqueIds(t.rows) && i < |t.rows| && Protects(t.rows[i], parent)
    requires var e := ListEvidence(x, t.rows[i], parent);
             e.Pair? && DecidePair(t, parent, t.rows[i], e.legs, e.status, e.listId).txs != []
    ensures var e := ListEvidence(x, t.rows[i], parent);
            PlanShape(t, x, parent, i, DecidePair(t, parent, t.rows[i], e.legs, e.status, e.listId))
                && Apart(t, parent, i)
  {
  }

  lemma SinglePlanHasShape(t: Tables, x: Exchange, parent: ClientId, i: nat)
    requires UniqueIds(t.rows) && i < |t.rows| && Protects(t.rows[i], parent)
    requires DecideSingle(t, x, parent, t.rows[i]).txs != []
    ensures PlanShape(t, x, parent, i, DecideSingle(t, x, parent, t.rows[i])) && Apart(t, parent, i)
  {
  }

  lemma PlanHasShape(t: Tables, x: Exchange, parent: ClientId)
    requires UniqueIds(t.rows) && Decide(t, x, parent).txs != []
    ensures Protection(t.rows, parent).Some?
    ensures var i := Protection(t.rows, parent).value;
            PlanShape(t, x, parent, i, Decide(t, x, parent))
                && (!Decide(t, x, parent).txs[0].NoteList? ==> Apart(t, parent, i))
  {
    var i := Protection(t.rows, parent).value;
    var e := ListEvidence(x, t.rows[i], parent);
    if t.rows[i].kind != Otoco && t.rows[i].kind != Oco {
      SinglePlanHasShape(t, x, parent, i);
    } else if e.Pair? {
      PairPlanHasShape(t, x, parent, i);
    }
  }

  lemma {:induction false} ExitShape(t: Tables, x: Exchange, parent: ClientId, i: nat, plan: Plan, u: Tables)
    requires Apart(t, parent, i) && PlanShape(t, x, parent, i, plan) && |plan.txs| == 2
             && plan.txs[0].StoreVerifiedLegs?
    requires Reaches(t, parent, plan.protection, plan.txs, u)
    ensures SamePlanBasis(t, u, x, parent, i)
    ensures CommitAll(u, parent, plan.protection, plan.txs) == CommitAll(t, parent, plan.protection, plan.txs)
  {
    var legs, id, b := plan.txs[0].legs, plan.protection, plan.txs[1];
    assert plan.txs == [StoreVerifiedLegs(legs), b];
    if u == t {
    } else if Commit(t, parent, id, plan.txs[0]) == Some(u) {
      LegsAbsorbed(t, parent, i, legs, b, u);
    } else if b.Close? {
      CloseAbsorbed(t, parent, i, legs, b.exit, b.reason, u);
      CloseProgress(t, parent, i, legs, b.exit, b.reason, u);
    } else {
      PartialAbsorbed(t, parent, i, legs, b.exit, b.reason, u);
      PartialProgress(t, parent, i, legs, b.exit, b.reason, u);
    }
  }

  lemma {:induction false} OtherShape(t: Tables, x: Exchange, parent: ClientId, i: nat, plan: Plan, u: Tables)
    requires UniqueIds(t.rows) && i < |t.rows| && Protects(t.rows[i], parent)
    requires plan.txs != [] && !plan.txs[0].StoreVerifiedLegs? && (!plan.txs[0].NoteList? ==> Apart(t, parent, i))
    requires PlanShape(t, x, parent, i, plan) && Reaches(t, parent, plan.protection, plan.txs, u)
    ensures SamePlanBasis(t, u, x, parent, i)
    ensures CommitAll(u, parent, plan.protection, plan.txs) == CommitAll(t, parent, plan.protection, plan.txs)
  {
    var id, a := plan.protection, plan.txs[0];
    if u == t {
    } else if a.FailProtection? {
      EmptyEndAbsorbed(t, parent, i, u);
      EmptyEndProgress(t, parent, i, u);
    } else if a.ProtectByPair? {
      PairProtectAbsorbed(t, parent, i, a.legs, a.listId, u);
      PairProtectProgress(t, parent, i, a.legs, a.listId, u);
    } else if a.NoteList? {
      ListNoteAbsorbed(t, parent, i, a.listId, u);
    } else if |plan.txs| == 1 {
      OrderNoteAbsorbed(t, parent, i, a.reply, u);
    } else if Commit(t, parent, id, a) == Some(u) {
      OrderNoteAbsorbed(t, parent, i, a.reply, u);
      AbsorbFirst(t, u, parent, id, a, plan.txs[1]);
    } else {
      SingleProtectAbsorbed(t, parent, i, a.reply, u);
      SingleProtectProgress(t, parent, i, a.reply, u);
    }
  }

  /** A recovery killed between any two of its transactions, or not at all, and then run again on an
      unchanged exchange ends exactly where one undisturbed recovery ends, with the same answer. */
  lemma Converges(t: Tables, x: Exchange, parent: ClientId, k: nat)
    requires UniqueIds(t.rows)
    ensures Recovered(Interrupted(t, x, parent, k), x, parent) == Recovered(t, x, parent)
  {
    var plan := Decide(t, x, parent);
    if plan.txs != [] {
      PlanHasShape(t, x, parent);
      var i := Protection(t.rows, parent).value;
      PrefixReaches(t, parent, plan.protection, plan.txs, if k <= |plan.txs| then k else |plan.txs|);
      var u := Interrupted(t, x, parent, k);
      if plan.txs[0].StoreVerifiedLegs? {
        ExitShape(t, x, parent, i, plan, u);
      } else {
        OtherShape(t, x, parent, i, plan, u);
      }
      SameEnd(t, u, x, parent, i);
    }
  }

  /** Running a finished recovery again changes nothing and answers the same. */
  lemma Idempotent(t: Tables, x: Exchange, parent: ClientId)
    requires UniqueIds(t.rows)
    ensures var (u, verdict) := Recovered(t, x, parent); Recovered(u, x, parent) == (u, verdict)
  {
    var plan := Decide(t, x, parent);
    assert plan.txs[..|plan.txs|] == plan.txs;
    Converges(t, x, parent, |plan.txs|);
  }
}
