/** Lives that the run theorems speak about: for every acquired quantity and every smaller partial exit there
    is a legal run in which the protection is partly sold, replaced for the residual, sold and closed. */
module ProtectionExample {
  import opened Results
  import opened OrderJournal
  import opened ProtectionQuantity
  import opened ProtectionRecovery
  import opened JournalHistory
  import opened ProtectionConvergence
  import opened ProtectionLifecycle
  import Coverage = ProtectionCoverage

  const SYMBOL := "S"
  const PARENT := "B"
  const FIRST := "P"
  const SECOND := "Q"

  function Bought(a: real): OrderReply {
    OrderReply(SYMBOL, 1, PARENT, None, Buy, Limit, Filled, a, a, a)
  }

  function Intended(id: ClientId, side: Side, kind: Kind, quantity: real, parent: Option<ClientId>): Intent {
    Intent(id, SYMBOL, side, "", kind, quantity, 0.0, parent, "", Prepared, None, None, 0.0, 0.0, None, [], None)
  }

  /** The legs of a list: its take-profit leg ends with `sold` executed, its stop leg without execution. */
  function TakeProfitLeg(list: int, id: int, name: ClientId, quantity: real, sold: real): OrderReply {
    OrderReply(SYMBOL, id, name, Some(list), Sell, LimitMaker,
               if sold == quantity then Filled else Canceled, quantity, sold, sold)
  }

  function StopLeg(list: int, id: int, name: ClientId, quantity: real): OrderReply {
    OrderReply(SYMBOL, id, name, Some(list), Sell, StopLossLimit, Expired, quantity, 0.0, 0.0)
  }

  function Legs(list: int, quantity: real, sold: real): seq<OrderReply> {
    [TakeProfitLeg(list, 10 * list, "t", quantity, sold), StopLeg(list, 10 * list + 1, "s", quantity)]
  }

  function ListOf(list: int, name: ClientId): ListReply {
    ListReply(list, name, SYMBOL, OneCancelsOther, AllDone,
              [Ref(SYMBOL, 10 * list, "t"), Ref(SYMBOL, 10 * list + 1, "s")])
  }

  /** The exchange at the end: the BUY filled, the first pair partly sold, the second completely. */
  function Ended(a: real, e: real): Exchange {
    Exchange(true, map[FIRST := ListOf(1, FIRST), SECOND := ListOf(2, SECOND)],
             map[10 := Legs(1, a, e)[0], 11 := Legs(1, a, e)[1], 20 := Legs(2, a - e, a - e)[0],
                 21 := Legs(2, a - e, a - e)[1]],
             map[PARENT := Bought(a)])
  }

  function Life(a: real, e: real): seq<Event> {
    [Intend(Intended(PARENT, Buy, Limit, a, None)), Report(PARENT), Intend(Intended(FIRST, Sell, Oco, a, Some(PARENT))),
     Recover(PARENT, 2), Replace(PARENT, Intended(SECOND, Sell, Oco, a - e, Some(PARENT))),
         NoteAccepted(SECOND, true, Some(2))]
  }

  // ---------- evidence ----------

  lemma PairClassified(list: int, quantity: real, sold: real)
    requires 0.0 < sold <= quantity
    ensures var legs := Legs(list, quantity, sold);
            ValidPair(legs) && StopTyped(legs) && Classify(legs) == ClosedBy(legs[0], TakeProfit)
  {
    var legs := Legs(list, quantity, sold);
    assert legs[0].kind == LimitMaker && legs[1].kind == StopLossLimit && !IsActive(legs[0].status);
  }

  lemma PairSeen(a: real, e: real, list: int, p: Intent, quantity: real, sold: real)
    requires 0.0 < e < a
    requires (list == 1 && p.clientId == FIRST && quantity == a && sold == e)
             || (list == 2 && p.clientId == SECOND && quantity == sold == a - e)
    requires p.symbol == SYMBOL && p.kind == Oco && (p.listId == None || p.listId == Some(list))
    ensures OcoEvidence(Ended(a, e), p) == Pair(Legs(list, quantity, sold), AllDone, list)
    ensures Classify(Legs(list, quantity, sold))
            == ClosedBy(TakeProfitLeg(list, 10 * list, "t", quantity, sold), TakeProfit)
  {
    var x, l, legs := Ended(a, e), ListOf(list, p.clientId), Legs(list, quantity, sold);
    assert FIRST != SECOND;
    assert x.lists[p.clientId] == l && x.byId[10 * list] == legs[0] && x.byId[10 * list + 1] == legs[1];
    PairClassified(list, quantity, sold);
  }

  // ---------- the journal along the way ----------

  function BoughtRow(a: real, state: IntentState): Intent {
    Intended(PARENT, Buy, Limit, a, None).(state := state, orderId := Some(1), executed := a, quote := a)
  }

  function FirstRow(a: real, e: real, recovered: bool): Intent {
    var p := Intended(FIRST, Sell, Oco, a, Some(PARENT));
    if recovered then p.(verifiedLegs := Refs(Legs(1, a, e)), state := Failed) else p
  }

  function SecondRow(a: real, e: real, accepted: bool): Intent {
    var q := Intended(SECOND, Sell, Oco, a - e, Some(PARENT));
    if accepted then q.(state := Executed, listId := Some(2)) else q
  }

  function FirstLegs(): map<OrderKey, Leg> {
    map[(SYMBOL, 10) := Leg(FIRST, "t", LimitMaker), (SYMBOL, 11) := Leg(FIRST, "s", StopLossLimit)]
  }

  function FirstExit(e: real): PartialExit {
    PartialExit(SYMBOL, 10, FIRST, PARENT, TakeProfit, e, Canceled)
  }

  function BeforeExit(a: real, e: real): Tables {
    Tables([BoughtRow(a, Executed), FirstRow(a, e, false)], map[], map[], [])
  }

  function AfterExit(a: real, e: real): Tables {
    Tables([BoughtRow(a, ProtectionPending), FirstRow(a, e, true)], FirstLegs(), map[], [FirstExit(e)])
  }

  function Replaced(a: real, e: real, accepted: bool): Tables {
    AfterExit(a, e).(rows := AfterExit(a, e).rows + [SecondRow(a, e, accepted)])
  }

  lemma NamesDiffer()
    ensures PARENT != FIRST && PARENT != SECOND && FIRST != SECOND
  {
    assert PARENT[0] != FIRST[0] && PARENT[0] != SECOND[0] && FIRST[0] != SECOND[0];
  }

  lemma Consistent(list: int, quantity: real, sold: real)
    requires 0.0 < sold <= quantity
    ensures var legs := Legs(list, quantity, sold);
            AllConsistent(legs, quantity) && ExecutedSum(legs) == sold && !AllActive(legs) && |legs| == 2
  {
    var legs := Legs(list, quantity, sold);
    assert legs[..1] == [legs[0]] && legs[..1][..0] == [];
    assert ExecutedSum(legs[..1]) == sold;
    assert !IsActive(legs[0].status);
  }

  lemma FirstVerified(a: real, e: real)
    requires 0.0 < e < a
    ensures Verified(BeforeExit(a, e), PARENT, FirstRow(a, e, false), Legs(1, a, e), false)
  {
    NamesDiffer();
    FindUnique(BeforeExit(a, e).rows, 0, 2);
    Consistent(1, a, e);
  }

  lemma FirstPlan(a: real, e: real)
    requires 0.0 < e < a
    ensures Decide(BeforeExit(a, e), Ended(a, e), PARENT)
            == Plan(FIRST, [StoreVerifiedLegs(Legs(1, a, e)), ExitPartly(Legs(1, a, e)[0], TakeProfit)], NotCovered)
  {
    assert Protection(BeforeExit(a, e).rows, PARENT) == Some(1);
    PairSeen(a, e, 1, FirstRow(a, e, false), a, e);
    FirstVerified(a, e);
  }

  lemma {:induction false} TwoLegsStored(p: Intent, a: LegRef, b: LegRef)
    requires a.orderId != b.orderId
    ensures StoreLegs(map[], p, [a, b])
            == Some(map[(p.symbol, a.orderId) := Leg(p.clientId, a.clientId, a.kind),
                        (p.symbol, b.orderId) := Leg(p.clientId, b.clientId, b.kind)])
  {
    var known: map<OrderKey, Leg> := map[(p.symbol, a.orderId) := Leg(p.clientId, a.clientId, a.kind)];
    assert [a, b][1..] == [b] && [b][1..] == [];
    assert map[][(p.symbol, a.orderId) := Leg(p.clientId, a.clientId, a.kind)] == known;
    assert StoreLegs(known, p, [b])
           == StoreLegs(known[(p.symbol, b.orderId) := Leg(p.clientId, b.clientId, b.kind)], p, []);
    assert StoreLegs(map[], p, [a, b]) == StoreLegs(known, p, [b]);
  }

  lemma FirstCommits(a: real, e: real)
    requires 0.0 < e < a
    ensures RecordVerifiedLegs(BeforeExit(a, e), FIRST, Legs(1, a, e)).Some?
    ensures RecordPartialExit(RecordVerifiedLegs(BeforeExit(a, e), FIRST, Legs(1, a, e)).value, FIRST, 10, TakeProfit,
                              e, Canceled)
            == Some(AfterExit(a, e))
  {
    var t, legs := BeforeExit(a, e), Legs(1, a, e);
    var refs := Refs(legs);
    NamesDiffer();
    FindUnique(t.rows, 1, 2);
    assert refs == [LegRef(10, "t", LimitMaker), LegRef(11, "s", StopLossLimit)];
    TwoLegsStored(t.rows[1], refs[0], refs[1]);
    var t1 := RecordVerifiedLegs(t, FIRST, legs).value;
    assert t1 == Tables([BoughtRow(a, Executed), FirstRow(a, e, false).(verifiedLegs := refs)], FirstLegs(), map[], []);
    FindUnique(t1.rows, 1, 2);
    StateSet(t1, 1, Failed);
    var t2 := SetState(t1, FIRST, Failed).value;
    FindUnique(t2.rows, 0, 2);
    StateSet(t2, 0, ProtectionPending);
    assert VerifiedLeg(t1, t1.rows[1], 10, TakeProfit);
    assert SetState(t2, PARENT, ProtectionPending).value.rows == AfterExit(a, e).rows;
    assert t2.exits + [FirstExit(e)] == [FirstExit(e)];
  }

  lemma FirstRecovery(a: real, e: real)
    requires 0.0 < e < a
    ensures Interrupted(BeforeExit(a, e), Ended(a, e), PARENT, 2) == AfterExit(a, e)
    ensures Recovered(AfterExit(a, e), Ended(a, e), PARENT) == (AfterExit(a, e), NotCovered)
  {
    var t, x := BeforeExit(a, e), Ended(a, e);
    FirstPlan(a, e);
    FirstCommits(a, e);
    var plan := Decide(t, x, PARENT);
    CommitTwo(t, PARENT, FIRST, plan.txs[0], plan.txs[1]);
    assert plan.txs[..2] == plan.txs;
    NamesDiffer();
    assert UniqueIds(t.rows);
    Idempotent(t, x, PARENT);
  }

  // ---------- the run ----------

  lemma BoughtReady(t: Tables, a: real, e: real)
    requires |t.rows| >= 1 && UniqueIds(t.rows) && t.rows[0].clientId == PARENT && t.rows[0].side == Buy
    requires t.rows[0].executed == a && t.rows[0].quote == a && t.rows[0].orderId == Some(1)
             && t.rows[0].settlement == None
    ensures Ready(World(t, Ended(a, e)), map[], PARENT) && Find(t.rows, PARENT) == Some(0)
  {
    FindUnique(t.rows, 0, |t.rows|);
  }

  lemma CoveredByClose(t: Tables, x: Exchange, parent: ClientId, id: ClientId, legs: seq<OrderReply>, exit: OrderReply,
                       reason: ExitReason)
    requires Decide(t, x, parent) == Plan(id, [StoreVerifiedLegs(legs), Close(exit, reason)], Covered)
    requires Recovered(t, x, parent).1 == Covered
    ensures id in Recovered(t, x, parent).0.closures && Recovered(t, x, parent).0.exits == t.exits
  {
    CommitTwo(t, parent, id, StoreVerifiedLegs(legs), Close(exit, reason));
    VerifiedLegsKeep(t, id, legs);
    ExactCloseKeeps(RecordVerifiedLegs(t, id, legs).value, id, exit.orderId, reason, exit);
  }

  lemma SecondVerified(a: real, e: real, accepted: bool)
    requires 0.0 < e < a
    ensures Verified(Replaced(a, e, accepted), PARENT, SecondRow(a, e, accepted), Legs(2, a - e, a - e), true)
    ensures ExitSum(Replaced(a, e, accepted).exits, PARENT) == e && UniqueIds(Replaced(a, e, accepted).rows)
  {
    NamesDiffer();
    FindUnique(Replaced(a, e, accepted).rows, 0, 3);
    Consistent(2, a - e, a - e);
    assert [FirstExit(e)][..0] == [];
  }

  lemma SecondEvidence(a: real, e: real, accepted: bool)
    requires 0.0 < e < a
    ensures Coverage.ClosingEvidence(Replaced(a, e, accepted), Ended(a, e), PARENT, 2)
    ensures ListEvidence(Ended(a, e), Replaced(a, e, accepted).rows[2], PARENT)
            == Pair(Legs(2, a - e, a - e), AllDone, 2)
    ensures Decide(Replaced(a, e, accepted), Ended(a, e), PARENT)
            == Plan(SECOND, [StoreVerifiedLegs(Legs(2, a - e, a - e)), Close(Legs(2, a - e, a - e)[0], TakeProfit)],
                    Covered)
  {
    assert Protection(Replaced(a, e, accepted).rows, PARENT) == Some(2);
    PairSeen(a, e, 2, SecondRow(a, e, accepted), a - e, a - e);
    SecondVerified(a, e, accepted);
  }

  lemma SecondFits(a: real, e: real)
    ensures StoreLegs(FirstLegs(), SecondRow(a, e, true), Refs(Legs(2, a - e, a - e))).Some?
  {
    var p, refs := SecondRow(a, e, true), Refs(Legs(2, a - e, a - e));
    var known := FirstLegs()[(SYMBOL, 20) := Leg(SECOND, "t", LimitMaker)];
    assert refs == [LegRef(20, "t", LimitMaker), LegRef(21, "s", StopLossLimit)];
    assert refs[1..] == [refs[1]] && refs[1..][1..] == [];
    assert StoreLegs(known, p, refs[1..]) == StoreLegs(known[(SYMBOL, 21) := Leg(SECOND, "s", StopLossLimit)], p, []);
  }

  // The journal before each of the six events, and at the end.
  function Along(a: real, e: real, n: nat): Tables {
    if n == 0 then EMPTY
    else if n == 1 then Tables([Intended(PARENT, Buy, Limit, a, None)], map[], map[], [])
    else if n == 2 then Tables([BoughtRow(a, Executed)], map[], map[], [])
    else if n == 3 then BeforeExit(a, e)
    else if n == 4 then AfterExit(a, e)
    else if n == 5 then Replaced(a, e, false)
    else Replaced(a, e, true)
  }

  lemma FirstSteps(a: real, e: real, n: nat)
    requires 0.0 < e < a && n < 3
    ensures Enabled(World(Along(a, e, n), Ended(a, e)), map[], Life(a, e)[n])
    ensures Next(World(Along(a, e, n), Ended(a, e)), map[], Life(a, e)[n]) == World(Along(a, e, n + 1), Ended(a, e))
  {
    NamesDiffer();
    var t := Along(a, e, n);
    if n == 0 {
      assert t.rows + [Intended(PARENT, Buy, Limit, a, None)] == Along(a, e, 1).rows;
    } else if n == 1 {
      FindUnique(t.rows, 0, 1);
      OrderNoted(t, 0, Bought(a));
      assert RecordOrder(t, PARENT, Bought(a)).value.rows == Along(a, e, 2).rows;
    } else {
      assert t.rows + [Intended(FIRST, Sell, Oco, a, Some(PARENT))] == BeforeExit(a, e).rows;
    }
  }

  lemma ExitStep(a: real, e: real)
    requires 0.0 < e < a
    ensures Enabled(World(Along(a, e, 3), Ended(a, e)), map[], Life(a, e)[3])
    ensures Next(World(Along(a, e, 3), Ended(a, e)), map[], Life(a, e)[3]) == World(Along(a, e, 4), Ended(a, e))
  {
    NamesDiffer();
    BoughtReady(BeforeExit(a, e), a, e);
    FirstRecovery(a, e);
  }

  lemma ResidualAfterExit(a: real, e: real)
    ensures Residual(AfterExit(a, e), PARENT) == a - e
    ensures UniqueIds(AfterExit(a, e).rows) && Find(AfterExit(a, e).rows, SECOND) == None
  {
    NamesDiffer();
    FindUnique(AfterExit(a, e).rows, 0, 2);
    assert [FirstExit(e)][..0] == [] && ExitSum([FirstExit(e)], PARENT) == e;
  }

  lemma ReplaceNext(w: World, parent: ClientId, intent: Intent)
    requires Recovered(w.t, w.x, parent) == (w.t, NotCovered) && Find(w.t.rows, intent.clientId) == None
    ensures Next(w, map[], Replace(parent, intent)) == w.(t := w.t.(rows := w.t.rows + [intent]))
  {
  }

  lemma ReplaceAgain(a: real, e: real)
    requires 0.0 < e < a
    ensures Enabled(World(Along(a, e, 4), Ended(a, e)), map[], Life(a, e)[4])
    ensures Next(World(Along(a, e, 4), Ended(a, e)), map[], Life(a, e)[4]) == World(Along(a, e, 5), Ended(a, e))
  {
    ResidualAfterExit(a, e);
    BoughtReady(AfterExit(a, e), a, e);
    FirstRecovery(a, e);
    ReplaceNext(World(AfterExit(a, e), Ended(a, e)), PARENT, SecondRow(a, e, false));
  }

  lemma AcceptedStep(a: real, e: real)
    requires 0.0 < e < a
    ensures Enabled(World(Along(a, e, 5), Ended(a, e)), map[], Life(a, e)[5])
    ensures Next(World(Along(a, e, 5), Ended(a, e)), map[], Life(a, e)[5]) == World(Along(a, e, 6), Ended(a, e))
  {
    NamesDiffer();
    var t := Replaced(a, e, false);
    FindUnique(t.rows, 2, 3);
    assert RecordList(t, SECOND, true, Some(2)).value.rows == Replaced(a, e, true).rows;
  }

  lemma OneStep(a: real, e: real, n: nat)
    requires 0.0 < e < a && n < 6
    ensures Enabled(World(Along(a, e, n), Ended(a, e)), map[], Life(a, e)[n])
    ensures Next(World(Along(a, e, n), Ended(a, e)), map[], Life(a, e)[n]) == World(Along(a, e, n + 1), Ended(a, e))
  {
    if n < 3 {
      FirstSteps(a, e, n);
    } else if n == 3 {
      ExitStep(a, e);
    } else if n == 4 {
      ReplaceAgain(a, e);
    } else {
      AcceptedStep(a, e);
    }
  }

  lemma {:induction false} RunFrom(a: real, e: real, n: nat)
    requires 0.0 < e < a && n <= 6
    ensures Legal(World(Along(a, e, n), Ended(a, e)), map[], Life(a, e)[n..])
    ensures Final(World(Along(a, e, n), Ended(a, e)), map[], Life(a, e)[n..]) == World(Along(a, e, 6), Ended(a, e))
    decreases 6 - n
  {
    if n < 6 {
      OneStep(a, e, n);
      RunFrom(a, e, n + 1);
      assert Life(a, e)[n..][1..] == Life(a, e)[n + 1..];
    }
  }

  /** For every acquired quantity and every smaller partial exit there is a legal run that records that exit
      and replaces the protection for exactly the rest. */
  lemma LifeIsLegal(a: real, e: real)
    requires 0.0 < e < a
    ensures Legal(World(EMPTY, Ended(a, e)), map[], Life(a, e))
    ensures Final(World(EMPTY, Ended(a, e)), map[], Life(a, e)) == World(Replaced(a, e, true), Ended(a, e))
  {
    RunFrom(a, e, 0);
    assert Life(a, e)[0..] == Life(a, e);
  }

  /** And from there a recovery closes the lifecycle on that rest. */
  lemma RestCanClose(a: real, e: real)
    requires 0.0 < e < a
    ensures var (u, verdict) := Recovered(Replaced(a, e, true), Ended(a, e), PARENT);
            verdict == Covered && SECOND in u.closures && ExitSum(u.exits, PARENT) == e
    ensures Enabled(World(Replaced(a, e, true), Ended(a, e)), map[], Recover(PARENT, 2))
  {
    var t, x, legs := Replaced(a, e, true), Ended(a, e), Legs(2, a - e, a - e);
    NamesDiffer();
    SecondEvidence(a, e, true);
    SecondFits(a, e);
    Coverage.ClosesExactly(t, x, PARENT, 2);
    SecondVerified(a, e, true);
    CoveredByClose(t, x, PARENT, SECOND, legs, legs[0], TakeProfit);
    BoughtReady(t, a, e);
  }

  /** If instead the answer to the second submission was lost, so that its list id was never recorded, the same
      completed exit is refused however often the recovery is tried. */
  lemma {:induction false} RestCanBeStuck(a: real, e: real, n: nat)
    requires 0.0 < e < a
    ensures var t, x := Replaced(a, e, false), Ended(a, e);
            && Coverage.ClosingEvidence(t, x, PARENT, 2) && t.rows[2].listId == None
            && Recovered(Coverage.Retried(t, x, PARENT, n), x, PARENT).1 == Refused
  {
    SecondEvidence(a, e, false);
    SecondVerified(a, e, false);
    Coverage.StuckWithoutListId(Replaced(a, e, false), Ended(a, e), PARENT, 2, n);
  }
}
