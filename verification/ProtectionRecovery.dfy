/** Recovery of an existing protection: the exchange's evidence about the latest SELL intent of a BUY is
    checked and turned into at most two journal transactions. `Decide` is what the evidence authorises;
    `RecoverExistingProtection` reads, checks and commits step by step. */
module ProtectionRecovery {
  import opened Results
  import opened OrderJournal
  import opened ProtectionQuantity

  datatype Contingency = OneCancelsOther | OneTriggersOther | OtherContingency

  datatype ListStatus = ExecStarted | AllDone | OtherListStatus

  datatype Ref = Ref(symbol: string, orderId: int, clientId: ClientId)

  datatype ListReply = ListReply(
    listId: int, clientId: ClientId, symbol: string, contingency: Contingency, status: ListStatus, refs: seq<Ref>)

  /** What the exchange would answer now. When it is not up, every query of this recovery fails. */
  datatype Exchange = Exchange(
    up: bool, lists: map<ClientId, ListReply>, byId: map<int, OrderReply>, byClient: map<ClientId, OrderReply>)

  // ---------- identity checks on replies ----------

  predicate CheckedOrder(o: OrderReply, symbol: string, orderId: Option<int>, clientId: Option<ClientId>,
                         listId: Option<int>)
  {
    && o.symbol == symbol && o.orderId >= 0 && o.clientId != ""
    && (orderId.Some? ==> o.orderId == orderId.value)
    && (clientId.Some? ==> o.clientId == clientId.value)
    && (listId.Some? ==> o.listId == listId)
  }

  predicate CheckedList(l: ListReply, clientId: ClientId, listId: Option<int>, symbol: string,
                        contingency: Contingency)
  {
    && l.listId >= 0 && l.clientId != "" && l.clientId == clientId && (listId.Some? ==> l.listId == listId.value)
    && l.symbol == symbol && l.contingency == contingency
  }

  predicate CheckedRefs(refs: seq<Ref>, symbol: string, count: nat) {
    && |refs| == count
    && (forall i | 0 <= i < |refs| :: refs[i].symbol == symbol && refs[i].orderId >= 0 && refs[i].clientId != "")
    && forall i, j | 0 <= i < j < |refs| :: refs[i].orderId != refs[j].orderId && refs[i].clientId != refs[j].clientId
  }

  // ---------- evidence ----------

  /** Legs of a list, with the list's status and id. */
  datatype Evidence =
    | NoEvidence
    | WorkingUnfilled(legs: seq<OrderReply>, partlyEnded: bool, done: bool, listId: int)
    | Pair(legs: seq<OrderReply>, status: ListStatus, listId: int)

  predicate StopTyped(legs: seq<OrderReply>) {
    exists i | 0 <= i < |legs| :: legs[i].kind == StopLossLimit || legs[i].kind == StopLoss
  }

  function OcoEvidence(x: Exchange, p: Intent): Evidence {
    if p.clientId !in x.lists then NoEvidence
    else
      var l := x.lists[p.clientId];
      if !CheckedList(l, p.clientId, p.listId, p.symbol, OneCancelsOther)
          || !CheckedRefs(l.refs, p.symbol, 2) then NoEvidence
      else if l.refs[0].orderId !in x.byId || l.refs[1].orderId !in x.byId then NoEvidence
      else
        var legs := [x.byId[l.refs[0].orderId], x.byId[l.refs[1].orderId]];
        if (forall i | 0 <= i < 2 ::
            CheckedOrder(legs[i], p.symbol, Some(l.refs[i].orderId), Some(l.refs[i].clientId), Some(l.listId)))
           && ValidPair(legs) && StopTyped(legs)
        then Pair(legs, l.status, l.listId) else NoEvidence
  }

  // The references of a list other than the working order's own.
  function Others(refs: seq<Ref>, parent: ClientId): seq<Ref> {
    if refs == [] then []
    else if refs[|refs| - 1].clientId == parent then Others(refs[..|refs| - 1], parent)
    else Others(refs[..|refs| - 1], parent) + [refs[|refs| - 1]]
  }

  predicate FoundByClient(x: Exchange, symbol: string, r: Ref, listId: int) {
    r.clientId in x.byClient
        && CheckedOrder(x.byClient[r.clientId], symbol, Some(r.orderId), Some(r.clientId), Some(listId))
  }

  function OtocoEvidence(x: Exchange, p: Intent, parent: ClientId): Evidence {
    if p.clientId !in x.lists || parent !in x.byClient then NoEvidence
    else
      var l, working := x.lists[p.clientId], x.byClient[parent];
      var others := Others(l.refs, parent);
      if !CheckedList(l, p.clientId, p.listId, p.symbol, OneTriggersOther) || !CheckedRefs(l.refs, p.symbol, 3)
         || !CheckedOrder(working, p.symbol, None, Some(parent), Some(l.listId))
         || !(exists i | 0 <= i < |l.refs| :: l.refs[i].clientId == parent && l.refs[i].orderId == working.orderId)
         || |others| != 2 || !FoundByClient(x, p.symbol, others[0], l.listId)
         || !FoundByClient(x, p.symbol, others[1], l.listId)
      then NoEvidence
      else
        var legs := [x.byClient[others[0].clientId], x.byClient[others[1].clientId]];
        if working.status == Filled then Pair(legs, l.status, l.listId)
        else WorkingUnfilled(legs, IsTerminal(working.status) && working.executed > 0.0
                                   && IsTerminal(legs[0].status) && IsTerminal(legs[1].status),
                             l.status == AllDone, l.listId)
  }

  // ---------- what the evidence authorises ----------

  datatype Tx =
    | StoreVerifiedLegs(legs: seq<OrderReply>)
    | Close(exit: OrderReply, reason: ExitReason)
    | ExitPartly(exit: OrderReply, reason: ExitReason)
    | FailProtection
    | ReopenParent
    | ProtectByPair(legs: seq<OrderReply>, listId: int)
    | NoteList(listId: int)
    | NoteOrder(reply: OrderReply)
    | ProtectBySingle(orderId: int)

  datatype Verdict = Covered | NotCovered | Refused

  datatype Plan = Plan(protection: ClientId, txs: seq<Tx>, verdict: Verdict)

  const REFUSAL := Plan("", [], Refused)

  predicate IsClosing(o: Outcome) { o.ClosedBy? && o.leg.status == Filled }

  function DecidePair(t: Tables, parent: ClientId, p: Intent, legs: seq<OrderReply>, status: ListStatus,
                      listId: int): Plan
  {
    var outcome := Classify(legs);
    if outcome == Ambiguous || !Verified(t, parent, p, legs, IsClosing(outcome)) then REFUSAL
    else if status == AllDone && outcome.ClosedBy? then
      if outcome.leg.status == Filled
      then Plan(p.clientId, [StoreVerifiedLegs(legs), Close(outcome.leg, outcome.reason)], Covered)
      else Plan(p.clientId, [StoreVerifiedLegs(legs), ExitPartly(outcome.leg, outcome.reason)], NotCovered)
    else if status == AllDone
        && outcome == CanceledWithoutFill then Plan(p.clientId, [FailProtection, ReopenParent], NotCovered)
    else if status == ExecStarted && outcome == Active then Plan(p.clientId, [ProtectByPair(legs, listId)], Covered)
    else Plan(p.clientId, [], NotCovered)
  }

  function DecideSingle(t: Tables, x: Exchange, parent: ClientId, p: Intent): Plan {
    if !x.up then REFUSAL
    else if p.clientId !in x.byClient then Plan(p.clientId, [], NotCovered)
    else
      var reply := x.byClient[p.clientId];
      if !CheckedOrder(reply, p.symbol, p.orderId, Some(p.clientId), None)
         || p.side != Sell || reply.side != Sell || (p.kind != StopLoss && p.kind != StopLossLimit)
         || reply.kind != p.kind
         || !Verified(t, parent, p, [reply], false) || (!IsActive(reply.status) && reply.executed > 0.0)
      then REFUSAL
      else if IsActive(reply.status) then Plan(p.clientId, [NoteOrder(reply), ProtectBySingle(reply.orderId)], Covered)
      else Plan(p.clientId, [NoteOrder(reply)], NotCovered)
  }

  function Decide(t: Tables, x: Exchange, parent: ClientId): Plan {
    match Protection(t.rows, parent)
    case None => Plan("", [], NotCovered)
    case Some(i) =>
      var p := t.rows[i];
      if p.kind == Otoco then
        match if x.up then OtocoEvidence(x, p, parent) else NoEvidence
        case NoEvidence => REFUSAL
        case WorkingUnfilled(_, partlyEnded, done, listId) =>
          Plan(p.clientId, if partlyEnded && done then [NoteList(listId)] else [], NotCovered)
        case Pair(legs, status, listId) => DecidePair(t, parent, p, legs, status, listId)
      else if p.kind == Oco then
        match if x.up then OcoEvidence(x, p) else NoEvidence
        case Pair(legs, status, listId) => DecidePair(t, parent, p, legs, status, listId)
        case _ => REFUSAL
      else DecideSingle(t, x, parent, p)
  }

  // ---------- committing ----------

  function Commit(t: Tables, parent: ClientId, id: ClientId, tx: Tx): Option<Tables> {
    match tx
    case StoreVerifiedLegs(legs) => RecordVerifiedLegs(t, id, legs)
    case Close(exit, reason) => MarkExactClosed(t, id, exit.orderId, reason, exit)
    case ExitPartly(exit, reason) => RecordPartialExit(t, id, exit.orderId, reason, exit.executed, exit.status)
    case FailProtection => SetState(t, id, Failed)
    case ReopenParent => SetState(t, parent, ProtectionPending)
    case ProtectByPair(legs, listId) => MarkVerifiedProtected(t, parent, id, legs, listId)
    case NoteList(listId) => RecordList(t, id, true, Some(listId))
    case NoteOrder(reply) => RecordOrder(t, id, reply)
    case ProtectBySingle(orderId) => MarkProtected(t, parent, id, orderId)
  }

  /** The tables after committing transactions in order; a refused one ends the run. */
  function CommitAll(t: Tables, parent: ClientId, id: ClientId, txs: seq<Tx>): (Tables, bool)
    decreases |txs|
  {
    if txs == [] then (t, true)
    else match Commit(t, parent, id, txs[0])
      case None => (t, false)
      case Some(u) => CommitAll(u, parent, id, txs[1..])
  }

  function After(t: Tables, parent: ClientId, plan: Plan): (Tables, Verdict) {
    var (u, ok) := CommitAll(t, parent, plan.protection, plan.txs);
    (u, if ok then plan.verdict else Refused)
  }

  /** One recovery: the tables it leaves and its answer. */
  function Recovered(t: Tables, x: Exchange, parent: ClientId): (Tables, Verdict) {
    After(t, parent, Decide(t, x, parent))
  }

  /** The tables left by a recovery that is killed after k of its transactions. */
  function Interrupted(t: Tables, x: Exchange, parent: ClientId, k: nat): Tables {
    var plan := Decide(t, x, parent);
    CommitAll(t, parent, plan.protection, plan.txs[..if k <= |plan.txs| then k else |plan.txs|]).0
  }

  lemma {:induction false} CommitOne(t: Tables, parent: ClientId, id: ClientId, a: Tx)
    ensures CommitAll(t, parent, id, [a]) == match Commit(t, parent, id, a) case None => (t, false) case Some(u) =>
            (u, true)
  {
    assert [a][1..] == [];
  }

  lemma {:induction false} CommitTwo(t: Tables, parent: ClientId, id: ClientId, a: Tx, b: Tx)
    ensures CommitAll(t, parent, id, [a, b])
            == match Commit(t, parent, id, a)
               case None => (t, false)
               case Some(u) => match Commit(u, parent, id, b) case None => (u, false) case Some(v) => (v, true)
  {
    assert [a, b][1..] == [b];
    if Commit(t, parent, id, a).Some? {
      CommitOne(Commit(t, parent, id, a).value, parent, id, b);
    }
  }

  // ---------- the recovery as a program ----------

  /** Read, check, commit. A refusal is what the recovery raises; it may come after a first
      transaction has been committed, never after a partial one. */
  method RecoverExistingProtection(journal: Journal, x: Exchange, parent: ClientId) returns (verdict: Verdict)
    modifies journal
    ensures (journal.Contents(), verdict) == Recovered(old(journal.Contents()), x, parent)
  {
    var i := Protection(journal.rows, parent);
    if i == None {
      return NotCovered;
    }
    var p := journal.rows[i.value];
    if p.kind == Otoco {
      var evidence := if x.up then OtocoEvidence(x, p, parent) else NoEvidence;
      if evidence.NoEvidence? {
        return Refused;
      }
      if evidence.WorkingUnfilled? {
        if evidence.partlyEnded && evidence.done {
          CommitOne(journal.Contents(), parent, p.clientId, NoteList(evidence.listId));
          var noted := journal.RecordOrderList(p.clientId, true, Some(evidence.listId));
          return if noted then NotCovered else Refused;
        }
        return NotCovered;
      }
      verdict := RecoverPair(journal, parent, p, evidence.legs, evidence.status, evidence.listId);
    } else if p.kind == Oco {
      var evidence := if x.up then OcoEvidence(x, p) else NoEvidence;
      if !evidence.Pair? {
        return Refused;
      }
      verdict := RecoverPair(journal, parent, p, evidence.legs, evidence.status, evidence.listId);
    } else {
      verdict := RecoverSingle(journal, x, parent, p);
    }
  }

  method RecoverPair(journal: Journal, parent: ClientId, p: Intent, legs: seq<OrderReply>, status: ListStatus,
                     listId: int)
      returns (verdict: Verdict)
    modifies journal
    ensures (journal.Contents(), verdict)
            == After(old(journal.Contents()), parent,
                     DecidePair(old(journal.Contents()), parent, p, legs, status, listId))
  {
    var outcome := Classify(legs);
    if outcome == Ambiguous {
      return Refused;
    }
    var verified := VerifyQuantities(journal, parent, p, legs, outcome.ClosedBy? && outcome.leg.status == Filled);
    if !verified {
      return Refused;
    }
    if status == AllDone && outcome.ClosedBy? {
      verdict := CommitExit(journal, parent, p, legs, outcome.leg, outcome.reason);
      return;
    }
    if status == AllDone && outcome == CanceledWithoutFill {
      CommitTwo(journal.Contents(), parent, p.clientId, FailProtection, ReopenParent);
      var failed := journal.ChangeState(p.clientId, Failed);
      if !failed {
        return Refused;
      }
      var reopened := journal.ChangeState(parent, ProtectionPending);
      return if reopened then NotCovered else Refused;
    }
    if status != ExecStarted || outcome != Active {
      return NotCovered;
    }
    CommitOne(journal.Contents(), parent, p.clientId, ProtectByPair(legs, listId));
    var marked := journal.MarkVerified(parent, p.clientId, legs, listId);
    return if marked then Covered else Refused;
  }

  method CommitExit(journal: Journal, parent: ClientId, p: Intent, legs: seq<OrderReply>, exit: OrderReply,
                    reason: ExitReason)
      returns (verdict: Verdict)
    modifies journal
    ensures (journal.Contents(), verdict)
            == After(old(journal.Contents()), parent,
                     if exit.status == Filled
                     then Plan(p.clientId, [StoreVerifiedLegs(legs), Close(exit, reason)], Covered)
                     else Plan(p.clientId, [StoreVerifiedLegs(legs), ExitPartly(exit, reason)], NotCovered))
  {
    CommitTwo(journal.Contents(), parent, p.clientId, StoreVerifiedLegs(legs),
              if exit.status == Filled then Close(exit, reason) else ExitPartly(exit, reason));
    var stored := journal.RecordVerifiedProtectionLegs(p.clientId, legs);
    if !stored {
      return Refused;
    }
    if exit.status == Filled {
      var closed := journal.MarkExactLifecycleClosed(p.clientId, exit.orderId, reason, exit);
      return if closed then Covered else Refused;
    }
    var noted := journal.RecordPartialProtectionExit(p.clientId, exit.orderId, reason, exit.executed, exit.status);
    return if noted then NotCovered else Refused;
  }

  method RecoverSingle(journal: Journal, x: Exchange, parent: ClientId, p: Intent) returns (verdict: Verdict)
    modifies journal
    ensures (journal.Contents(), verdict)
            == After(old(journal.Contents()), parent, DecideSingle(old(journal.Contents()), x, parent, p))
  {
    if !x.up {
      return Refused;
    }
    if p.clientId !in x.byClient {
      return NotCovered;
    }
    var reply := x.byClient[p.clientId];
    if !CheckedOrder(reply, p.symbol, p.orderId, Some(p.clientId), None) {
      return Refused;
    }
    if p.side != Sell || reply.side != Sell || (p.kind != StopLoss && p.kind != StopLossLimit) || reply.kind != p.kind {
      return Refused;
    }
    var verified := VerifyQuantities(journal, parent, p, [reply], false);
    if !verified || (!IsActive(reply.status) && reply.executed > 0.0) {
      return Refused;
    }
    CommitOne(journal.Contents(), parent, p.clientId, NoteOrder(reply));
    CommitTwo(journal.Contents(), parent, p.clientId, NoteOrder(reply), ProtectBySingle(reply.orderId));
    var noted := journal.RecordExchangeOrder(p.clientId, reply);
    if !noted {
      return Refused;
    }
    if IsActive(reply.status) {
      var marked := journal.MarkSingleProtected(parent, p.clientId, reply.orderId);
      return if marked then Covered else Refused;
    }
    return NotCovered;
  }
}
