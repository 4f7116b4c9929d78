/** Exact quantity evidence for a protection: what its legs say against what was acquired, what has
    already been sold, and what the durable intent promised. */
module ProtectionQuantity {
  import opened Results
  import opened OrderJournal

  predicate Recognised(status: Status) { status != OtherStatus }

  predicate IsActive(status: Status) { status == New || status == PartiallyFilled }

  predicate LegConsistent(leg: OrderReply, intended: real) {
    && Recognised(leg.status) && leg.original == intended && 0.0 <= leg.executed <= leg.original
    && (leg.status == Filled ==> leg.executed == leg.original)
    && (leg.status == New ==> leg.executed == 0.0)
    && (leg.status == PartiallyFilled ==> 0.0 < leg.executed < leg.original)
  }

  function ExecutedSum(legs: seq<OrderReply>): real {
    if legs == [] then 0.0 else ExecutedSum(legs[..|legs| - 1]) + legs[|legs| - 1].executed
  }

  function LegIds(legs: seq<OrderReply>): set<int> {
    set leg | leg in legs :: leg.orderId
  }

  function RefIds(refs: seq<LegRef>): set<int> {
    set r | r in refs :: r.orderId
  }

  predicate AllActive(legs: seq<OrderReply>) {
    forall i | 0 <= i < |legs| :: IsActive(legs[i].status)
  }

  predicate AllConsistent(legs: seq<OrderReply>, intended: real) {
    forall i | 0 <= i < |legs| :: LegConsistent(legs[i], intended)
  }

  predicate RelatedParent(parent: Intent, parentId: ClientId, protection: Intent) {
    parent.side == Buy && parent.symbol == protection.symbol && protection.parent == Some(parentId)
  }

  /** The quantities agree. `closing` is asked for a protection whose exit is completely filled. Only
      live or closing protection must cover the whole residual: a terminal partial exit may already
      have been subtracted. */
  predicate Verified(t: Tables, parentId: ClientId, protection: Intent, legs: seq<OrderReply>, closing: bool) {
    match Find(t.rows, parentId)
    case None => false
    case Some(j) =>
      var parent, intended := t.rows[j], protection.quantity;
      && RelatedParent(parent, parentId, protection) && SettlementHolds(parent)
      && (protection.verifiedLegs != [] ==> RefIds(protection.verifiedLegs) == LegIds(legs))
      && 0.0 < intended <= Acquired(parent)
      && AllConsistent(legs, intended)
      && ExecutedSum(legs) <= intended
      && (AllActive(legs) || closing ==> intended == Acquired(parent) - ExitSum(t.exits, parentId))
      && (closing ==> ExecutedSum(legs) == intended)
  }

  method VerifyQuantities(journal: Journal, parentId: ClientId, protection: Intent, legs: seq<OrderReply>,
                          closing: bool)
      returns (ok: bool)
    ensures ok == Verified(journal.Contents(), parentId, protection, legs, closing)
  {
    var j := Find(journal.rows, parentId);
    if j == None || !RelatedParent(journal.rows[j.value], parentId, protection) {
      return false;
    }
    if !SettlementHolds(journal.rows[j.value]) {
      return false;
    }
    var acquired, intended := Acquired(journal.rows[j.value]), protection.quantity;
    if protection.verifiedLegs != [] && RefIds(protection.verifiedLegs) != LegIds(legs) {
      return false;
    }
    if acquired <= 0.0 || intended <= 0.0 || intended > acquired {
      return false;
    }
    var executed, active := 0.0, true;
    for k := 0 to |legs|
      invariant executed == ExecutedSum(legs[..k])
      invariant active == forall i | 0 <= i < k :: IsActive(legs[i].status)
      invariant forall i | 0 <= i < k :: LegConsistent(legs[i], intended)
    {
      assert legs[..k + 1][..k] == legs[..k];
      if !LegConsistent(legs[k], intended) {
        return false;
      }
      executed := executed + legs[k].executed;
      active := active && IsActive(legs[k].status);
    }
    assert legs[..|legs|] == legs;
    if executed > intended {
      return false;
    }
    if active || closing {
      var prior := journal.PartialExitQuantity(parentId);
      if intended != acquired - prior || (closing && executed != intended) {
        return false;
      }
    }
    return true;
  }

  // ---------- two-leg classification ----------

  datatype Outcome = Active | ClosedBy(leg: OrderReply, reason: ExitReason) | CanceledWithoutFill | Ambiguous

  // Ended in any way, a complete fill included.
  predicate IsFinal(status: Status) { status == Filled || IsTerminal(status) }

  predicate ValidPair(legs: seq<OrderReply>) {
    && |legs| == 2 && legs[0].side == Sell && legs[1].side == Sell
    && (exists i | 0 <= i < 2 :: legs[i].kind == LimitMaker || legs[i].kind == Limit)
    && (exists i | 0 <= i < 2 :: IsStop(legs[i].kind))
    && legs[0].executed >= 0.0 && legs[1].executed >= 0.0
  }

  function ReasonOf(leg: OrderReply): ExitReason { if IsStop(leg.kind) then StopOut else TakeProfit }

  /** An exact two-leg exit: live, closed by its only executed leg, or ended without a fill. */
  function Classify(legs: seq<OrderReply>): Outcome {
    if !ValidPair(legs) then Ambiguous
    else if AllActive(legs) then Active
    else if !IsFinal(legs[0].status) || !IsFinal(legs[1].status) then Ambiguous
    else if legs[0].executed > 0.0 && legs[1].executed > 0.0 then Ambiguous
    else if legs[0].executed > 0.0 then ClosedBy(legs[0], ReasonOf(legs[0]))
    else if legs[1].executed > 0.0 then ClosedBy(legs[1], ReasonOf(legs[1]))
    else CanceledWithoutFill
  }
}
