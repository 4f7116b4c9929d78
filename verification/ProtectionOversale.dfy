/** Two runs for the conservation of sales: one in which a leg fills while its list is still reported as executing,
    the protection is replaced on that evidence and twice the acquired quantity is sold; and a careful one. */
module ProtectionOversale {
  import opened Results
  import opened OrderJournal
  import opened ProtectionQuantity
  import opened ProtectionRecovery
  import opened JournalHistory
  import opened ProtectionConvergence
  import opened ProtectionLifecycle
  import opened ProtectionSales
  import opened ProtectionConservation
  import opened ProtectionExample
  import Coverage = ProtectionCoverage

  // ---------- the exchange ----------

  /** The take-profit leg has sold everything, but the list is still reported as executing. */
  function Raced(a: real): Exchange {
    Exchange(true, map[FIRST := ListOf(1, FIRST).(status := ExecStarted)],
             map[10 := Legs(1, a, a)[0], 11 := Legs(1, a, a)[1]], map[PARENT := Bought(a)])
  }

  /** Both lists are done, and both take-profit legs have sold everything. */
  function SoldTwice(a: real): Exchange {
    Exchange(true, map[FIRST := ListOf(1, FIRST), SECOND := ListOf(2, SECOND)],
             map[10 := Legs(1, a, a)[0], 11 := Legs(1, a, a)[1], 20 := Legs(2, a, a)[0], 21 := Legs(2, a, a)[1]],
             map[PARENT := Bought(a)])
  }

  function RaceEvents(a: real): seq<Event> {
    [Intend(Intended(PARENT, Buy, Limit, a, None)), Report(PARENT), Intend(Intended(FIRST, Sell, Oco, a, Some(PARENT))),
     Replace(PARENT, Intended(SECOND, Sell, Oco, a, Some(PARENT))), ExchangeMoves(SoldTwice(a)),
         NoteAccepted(SECOND, true, Some(2))]
  }

  lemma RaceIsLawful(a: real)
    requires a > 0.0
    ensures AllSensible(Raced(a)) && Continues(Raced(a), SoldTwice(a))
  {
    NamesDiffer();
  }

  lemma WholePairSeen(x: Exchange, list: int, p: Intent, quantity: real, status: ListStatus)
    requires quantity > 0.0 && list >= 1 && p.symbol == SYMBOL && p.kind == Oco && x.up
    requires p.clientId in x.lists && x.lists[p.clientId] == ListOf(list, p.clientId).(status := status)
             && p.clientId != ""
    requires 10 * list in x.byId && x.byId[10 * list] == Legs(list, quantity, quantity)[0]
    requires 10 * list + 1 in x.byId && x.byId[10 * list + 1] == Legs(list, quantity, quantity)[1]
    requires p.listId == None || p.listId == Some(list)
    ensures ListEvidence(x, p, PARENT) == Pair(Legs(list, quantity, quantity), status, list)
    ensures Classify(Legs(list, quantity, quantity)) == ClosedBy(Legs(list, quantity, quantity)[0], TakeProfit)
  {
    PairClassified(list, quantity, quantity);
  }

  // ---------- the journal ----------

  function SecondIntent(a: real, accepted: bool): Intent {
    var q := Intended(SECOND, Sell, Oco, a, Some(PARENT));
    if accepted then q.(state := Executed, listId := Some(2)) else q
  }

  function BothProtections(a: real, accepted: bool): Tables {
    BeforeExit(a, a).(rows := BeforeExit(a, a).rows + [SecondIntent(a, accepted)])
  }

  lemma RowsFound(a: real, accepted: bool)
    ensures UniqueIds(BeforeExit(a, a).rows) && Find(BeforeExit(a, a).rows, PARENT) == Some(0)
    ensures Find(BeforeExit(a, a).rows, SECOND) == None
    ensures UniqueIds(BothProtections(a, accepted).rows) && Find(BothProtections(a, accepted).rows, PARENT) == Some(0)
    ensures Find(BothProtections(a, accepted).rows, SECOND) == Some(2)
  {
    NamesDiffer();
    FindUnique(BeforeExit(a, a).rows, 0, 2);
    FindUnique(BothProtections(a, accepted).rows, 0, 3);
    FindUnique(BothProtections(a, accepted).rows, 2, 3);
  }

  lemma RacedVerified(a: real)
    requires a > 0.0
    ensures Verified(BeforeExit(a, a), PARENT, FirstRow(a, a, false), Legs(1, a, a), true)
    ensures Verified(BothProtections(a, true), PARENT, SecondIntent(a, true), Legs(2, a, a), true)
  {
    RowsFound(a, true);
    Consistent(1, a, a);
    Consistent(2, a, a);
  }

  lemma FirstIsLatest(a: real)
    ensures Protection(BeforeExit(a, a).rows, PARENT) == Some(1)
  {
  }

  /** With the list still executing, the filled leg is not recorded and the answer is "not covered". */
  lemma RaceIsUncovered(a: real)
    requires a > 0.0
    ensures Recovered(BeforeExit(a, a), Raced(a), PARENT) == (BeforeExit(a, a), NotCovered)
    ensures !Reconciled(Raced(a), FirstRow(a, a, false), PARENT)
  {
    FirstIsLatest(a);
    NamesDiffer();
    WholePairSeen(Raced(a), 1, FirstRow(a, a, false), a, ExecStarted);
    RacedVerified(a);
    assert Decide(BeforeExit(a, a), Raced(a), PARENT) == Plan(FIRST, [], NotCovered);
  }

  // ---------- the run ----------

  function RaceTables(a: real, n: nat): Tables {
    if n == 0 then EMPTY
    else if n == 1 then Tables([Intended(PARENT, Buy, Limit, a, None)], map[], map[], [])
    else if n == 2 then Tables([BoughtRow(a, Executed)], map[], map[], [])
    else if n == 3 then BeforeExit(a, a)
    else if n <= 5 then BothProtections(a, false)
    else BothProtections(a, true)
  }

  function RaceWorld(a: real, n: nat): World {
    World(RaceTables(a, n), if n <= 4 then Raced(a) else SoldTwice(a))
  }

  lemma RaceBegins(a: real, n: nat)
    requires a > 0.0 && n < 3
    ensures Enabled(RaceWorld(a, n), map[], RaceEvents(a)[n])
    ensures Next(RaceWorld(a, n), map[], RaceEvents(a)[n]) == RaceWorld(a, n + 1)
  {
    NamesDiffer();
    var t := RaceTables(a, n);
    if n == 0 {
      assert t.rows + [Intended(PARENT, Buy, Limit, a, None)] == RaceTables(a, 1).rows;
    } else if n == 1 {
      FindUnique(t.rows, 0, 1);
      OrderNoted(t, 0, Bought(a));
      assert RecordOrder(t, PARENT, Bought(a)).value.rows == RaceTables(a, 2).rows;
    } else {
      assert t.rows + [Intended(FIRST, Sell, Oco, a, Some(PARENT))] == BeforeExit(a, a).rows;
    }
  }

  lemma RaceReplaces(a: real)
    requires a > 0.0
    ensures Enabled(RaceWorld(a, 3), map[], RaceEvents(a)[3])
    ensures Next(RaceWorld(a, 3), map[], RaceEvents(a)[3]) == RaceWorld(a, 4)
  {
    RowsFound(a, false);
    RaceReady(a);
    RaceIsUncovered(a);
    ReplaceNext(RaceWorld(a, 3), PARENT, SecondIntent(a, false));
  }

  lemma RaceReady(a: real)
    requires a > 0.0
    ensures Ready(RaceWorld(a, 3), map[], PARENT) && Residual(BeforeExit(a, a), PARENT) == a
  {
    RowsFound(a, false);
  }

  lemma RaceEnds(a: real, n: nat)
    requires a > 0.0 && 4 <= n < 6
    ensures Enabled(RaceWorld(a, n), map[], RaceEvents(a)[n])
    ensures Next(RaceWorld(a, n), map[], RaceEvents(a)[n]) == RaceWorld(a, n + 1)
  {
    RaceIsLawful(a);
    ContinuesEvolves(Raced(a), SoldTwice(a));
    RowsFound(a, false);
    if n == 5 {
      assert RecordList(BothProtections(a, false), SECOND, true, Some(2)).value.rows == BothProtections(a, true).rows;
    }
  }

  lemma {:induction false} RaceFrom(a: real, n: nat)
    requires a > 0.0 && n <= 6
    ensures Legal(RaceWorld(a, n), map[], RaceEvents(a)[n..])
    ensures Final(RaceWorld(a, n), map[], RaceEvents(a)[n..]) == RaceWorld(a, 6)
    decreases 6 - n
  {
    if n < 6 {
      if n < 3 {
        RaceBegins(a, n);
      } else if n == 3 {
        RaceReplaces(a);
      } else {
        RaceEnds(a, n);
      }
      RaceFrom(a, n + 1);
      assert RaceEvents(a)[n..][1..] == RaceEvents(a)[n + 1..];
    }
  }

  lemma ThreeRows(w: World, sold: real)
    requires |w.t.rows| == 3 && !Protects(w.t.rows[0], PARENT) && Protects(w.t.rows[1], PARENT)
             && Protects(w.t.rows[2], PARENT)
    requires SoldBy(w.x, w.t.rows[1], PARENT) == sold && SoldBy(w.x, w.t.rows[2], PARENT) == sold
    ensures TotalSold(w, PARENT) == 2.0 * sold
  {
    assert SoldAmong(w, PARENT, 0) == 0.0;
    assert SoldAmong(w, PARENT, 1) == 0.0;
    assert SoldAmong(w, PARENT, 2) == sold;
  }

  lemma BothSold(a: real)
    requires a > 0.0
    ensures TotalSold(RaceWorld(a, 6), PARENT) == 2.0 * a
  {
    FirstSold(a);
    SecondSold(a);
    ThreeRows(RaceWorld(a, 6), a);
  }

  lemma FirstSold(a: real)
    requires a > 0.0
    ensures SoldBy(SoldTwice(a), FirstRow(a, a, false), PARENT) == a
  {
    NamesDiffer();
    WholePairSeen(SoldTwice(a), 1, FirstRow(a, a, false), a, AllDone);
    PairSold(SoldTwice(a), FirstRow(a, a, false), 1, a);
  }

  lemma SecondSold(a: real)
    requires a > 0.0
    ensures SoldBy(SoldTwice(a), SecondIntent(a, true), PARENT) == a
  {
    NamesDiffer();
    WholePairSeen(SoldTwice(a), 2, SecondIntent(a, true), a, AllDone);
    PairSold(SoldTwice(a), SecondIntent(a, true), 2, a);
  }

  lemma PairSold(x: Exchange, p: Intent, list: int, a: real)
    requires ListEvidence(x, p, PARENT) == Pair(Legs(list, a, a), AllDone, list)
    ensures SoldBy(x, p, PARENT) == a
  {
    EvidenceShowsOrders(x, p, PARENT);
    SumOfTwo(Legs(list, a, a)[0], Legs(list, a, a)[1]);
  }

  /** The conservation of sales fails where a protection is replaced on evidence that does not settle it: for every
      quantity there is a legal run against a lawful exchange in which the BUY sells twice what it
      acquired, and a recovery then closes its lifecycle. */
  lemma OversoldRun(a: real)
    requires a > 0.0
    ensures AllSensible(Raced(a)) && Continues(Raced(a), SoldTwice(a))
    ensures Legal(World(EMPTY, Raced(a)), map[], RaceEvents(a))
    ensures var w := Final(World(EMPTY, Raced(a)), map[], RaceEvents(a));
            && Find(w.t.rows, PARENT).Some? && Acquired(w.t.rows[Find(w.t.rows, PARENT).value]) == a
            && TotalSold(w, PARENT) == 2.0 * a
            && Recovered(w.t, w.x, PARENT).1 == Covered && SECOND in Recovered(w.t, w.x, PARENT).0.closures
  {
    RaceIsLawful(a);
    RaceFrom(a, 0);
    assert RaceEvents(a)[0..] == RaceEvents(a);
    RowsFound(a, true);
    BothSold(a);
    RaceCloses(a);
  }

  lemma RaceCloses(a: real)
    requires a > 0.0
    ensures Recovered(BothProtections(a, true), SoldTwice(a), PARENT).1 == Covered
    ensures SECOND in Recovered(BothProtections(a, true), SoldTwice(a), PARENT).0.closures
  {
    var t, x, legs := BothProtections(a, true), SoldTwice(a), Legs(2, a, a);
    NamesDiffer();
    RowsFound(a, true);
    assert Protection(t.rows, PARENT) == Some(2);
    WholePairSeen(x, 2, t.rows[2], a, AllDone);
    RacedVerified(a);
    assert Coverage.ClosingEvidence(t, x, PARENT, 2);
    var refs := Refs(legs);
    assert refs == [LegRef(20, "t", LimitMaker), LegRef(21, "s", StopLossLimit)];
    TwoLegsStored(t.rows[2], refs[0], refs[1]);
    Coverage.ClosesExactly(t, x, PARENT, 2);
    CoveredByClose(t, x, PARENT, SECOND, legs, legs[0], TakeProfit);
  }

  // ---------- a careful run ----------

  lemma LifeStepIsCareful(a: real, e: real, n: nat)
    requires 0.0 < e < a && n < 6
    ensures Careful(World(Along(a, e, n), ProtectionExample.Ended(a, e)), Life(a, e)[n])
  {
    if n == 4 {
      NamesDiffer();
      assert Protection(AfterExit(a, e).rows, PARENT) == Some(1);
      PairSeen(a, e, 1, AfterExit(a, e).rows[1], a, e);
    }
  }

  lemma {:induction false} LifeFrom(a: real, e: real, n: nat)
    requires 0.0 < e < a && n <= 6
    ensures CarefulRun(World(Along(a, e, n), ProtectionExample.Ended(a, e)), map[], Life(a, e)[n..])
    decreases 6 - n
  {
    if n < 6 {
      OneStep(a, e, n);
      LifeStepIsCareful(a, e, n);
      LifeFrom(a, e, n + 1);
      assert Life(a, e)[n..][1..] == Life(a, e)[n + 1..];
    }
  }

  /** The replacement of a partly sold protection for the rest is careful: the conservation theorems speak about
      runs that exist for every quantity and every smaller partial exit. */
  lemma LifeIsCareful(a: real, e: real)
    requires 0.0 < e < a
    ensures AllSensible(ProtectionExample.Ended(a, e))
            && CarefulRun(World(EMPTY, ProtectionExample.Ended(a, e)), map[], Life(a, e))
  {
    LifeFrom(a, e, 0);
    assert Life(a, e)[0..] == Life(a, e);
  }
}
