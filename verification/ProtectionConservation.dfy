/** What the exchange sells for a BUY over whole runs. If every replacement of a protection is made on evidence
    that settles it, all its protections together never sell more than was acquired, and a closed lifecycle
    has sold exactly that. */
module ProtectionConservation {
  import opened Results
  import opened OrderJournal
  import opened ProtectionQuantity
  import opened ProtectionRecovery
  import opened JournalHistory
  import opened ProtectionConvergence
  import opened ProtectionLifecycle
  import opened ProtectionSales

  /** What has been sold for a BUY by those of its protections that are among the first n intents. */
  function SoldAmong(w: World, parent: ClientId, n: nat): real
    requires n <= |w.t.rows|
  {
    if n == 0 then 0.0
    else SoldAmong(w, parent, n - 1)
         + if Protects(w.t.rows[n - 1], parent) then SoldBy(w.x, w.t.rows[n - 1], parent) else 0.0
  }

  /** Everything the exchange reports as sold for a BUY. */
  function TotalSold(w: World, parent: ClientId): real {
    SoldAmong(w, parent, |w.t.rows|)
  }

  /** The protection can sell nothing more. */
  ghost predicate Finished(x: Exchange, p: Intent, parent: ClientId) {
    forall y | Continues(x, y) :: SoldBy(y, p, parent) == SoldBy(x, p, parent)
  }

  predicate Superseded(rows: seq<Intent>, parent: ClientId, i: nat)
    requires i <= |rows|
  {
    exists k | 0 <= k < i :: Protects(rows[k], parent)
  }

  ghost predicate AllFinished(w: World, parent: ClientId, n: nat)
    requires n <= |w.t.rows|
  {
    forall k | 0 <= k < n && Protects(w.t.rows[k], parent) :: Finished(w.x, w.t.rows[k], parent)
  }

  /** Superseded protections are finished and sold what is recorded of them, and leave room for the latest. */
  ghost predicate SalesSound(w: World, settled: Settlements, parent: ClientId) {
    var latest := Protection(w.t.rows, parent);
    latest.Some? ==>
      var i := latest.value;
      && AllFinished(w, parent, i)
      && SoldAmong(w, parent, i) == ExitSum(w.t.exits, parent) - RecordedFor(w.t.exits, w.t.rows[i].clientId)
      && (Superseded(w.t.rows, parent, i) ==> RoomFor(w, settled, parent, i))
  }

  predicate RoomFor(w: World, settled: Settlements, parent: ClientId, i: nat)
    requires i < |w.t.rows|
  {
    && Ready(w, settled, parent)
    && SoldAmong(w, parent, i) + w.t.rows[i].quantity <= Acquired(w.t.rows[Find(w.t.rows, parent).value])
  }

  ghost predicate AllSalesSound(w: World, settled: Settlements) {
    forall parent :: SalesSound(w, settled, parent)
  }

  // ---------- sums ----------

  lemma SameSales(x: Exchange, p: Intent, q: Intent, parent: ClientId)
    requires SameIdentity(p, q)
    ensures SoldBy(x, p, parent) == SoldBy(x, q, parent) && Protects(p, parent) == Protects(q, parent)
    ensures Finished(x, p, parent) ==> Finished(x, q, parent)
  {
    if Finished(x, p, parent) {
      forall y | Continues(x, y) ensures SoldBy(y, q, parent) == SoldBy(x, q, parent) {
        assert SoldBy(y, p, parent) == SoldBy(x, p, parent);
      }
    }
  }

  lemma FinishedLater(x: Exchange, y: Exchange, p: Intent, parent: ClientId)
    requires Finished(x, p, parent) && Continues(x, y)
    ensures Finished(y, p, parent) && SoldBy(y, p, parent) == SoldBy(x, p, parent)
  {
    forall z | Continues(y, z) ensures SoldBy(z, p, parent) == SoldBy(y, p, parent) {
      ContinuesFurther(x, y, z);
    }
  }

  lemma OneSaleKept(x: Exchange, y: Exchange, p: Intent, q: Intent, parent: ClientId)
    requires SameIdentity(p, q) && Continues(x, y) && (Protects(p, parent) ==> Finished(x, p, parent))
    ensures Protects(q, parent) == Protects(p, parent)
    ensures Protects(p, parent) ==> Finished(y, q, parent) && SoldBy(y, q, parent) == SoldBy(x, p, parent)
  {
    SameSales(y, p, q, parent);
    if Protects(p, parent) {
      FinishedLater(x, y, p, parent);
    }
  }

  lemma {:induction false} SalesKept(w: World, v: World, parent: ClientId, n: nat)
    requires n <= |w.t.rows| <= |v.t.rows| && SameIntents(w.t.rows, v.t.rows[..|w.t.rows|])
    requires AllFinished(w, parent, n) && Continues(w.x, v.x)
    ensures SoldAmong(v, parent, n) == SoldAmong(w, parent, n) && AllFinished(v, parent, n)
  {
    forall k | 0 <= k < n
      ensures Protects(v.t.rows[k], parent) ==> Finished(v.x, v.t.rows[k], parent)
    {
      assert SameIdentity(w.t.rows[k], v.t.rows[..|w.t.rows|][k]);
      OneSaleKept(w.x, v.x, w.t.rows[k], v.t.rows[k], parent);
    }
    SoldKept(w, v, parent, n);
  }

  lemma {:induction false} SoldKept(w: World, v: World, parent: ClientId, n: nat)
    requires n <= |w.t.rows| <= |v.t.rows| && SameIntents(w.t.rows, v.t.rows[..|w.t.rows|])
    requires AllFinished(w, parent, n) && Continues(w.x, v.x)
    ensures SoldAmong(v, parent, n) == SoldAmong(w, parent, n)
  {
    if n > 0 {
      SoldKept(w, v, parent, n - 1);
      assert SameIdentity(w.t.rows[n - 1], v.t.rows[..|w.t.rows|][n - 1]);
      OneSaleKept(w.x, v.x, w.t.rows[n - 1], v.t.rows[n - 1], parent);
    }
  }

  lemma {:induction false} NoneAmong(w: World, parent: ClientId, m: nat, n: nat)
    requires m <= n <= |w.t.rows| && forall k | m <= k < n :: !Protects(w.t.rows[k], parent)
    ensures SoldAmong(w, parent, n) == SoldAmong(w, parent, m)
    decreases n
  {
    if m < n {
      NoneAmong(w, parent, m, n - 1);
    }
  }

  lemma {:induction false} LatestIsLast(rows: seq<Intent>, parent: ClientId, n: nat)
    requires n <= |rows|
    ensures match LatestBelow(rows, parent, n)
            case None => forall k | 0 <= k < n :: !Protects(rows[k], parent)
            case Some(i) => forall k | i < k < n :: !Protects(rows[k], parent)
  {
    if n > 0 && !Protects(rows[n - 1], parent) {
      LatestIsLast(rows, parent, n - 1);
    }
  }

  // All sales are those of the latest protection and of the superseded ones.
  lemma {:induction false} TotalSplits(w: World, parent: ClientId)
    ensures match Protection(w.t.rows, parent)
            case None => TotalSold(w, parent) == 0.0
            case Some(i) => TotalSold(w, parent) == SoldAmong(w, parent, i) + SoldBy(w.x, w.t.rows[i], parent)
  {
    LatestIsLast(w.t.rows, parent, |w.t.rows|);
    match Protection(w.t.rows, parent)
    case None => NoneAmong(w, parent, 0, |w.t.rows|);
    case Some(i) => NoneAmong(w, parent, i + 1, |w.t.rows|);
  }

  lemma {:induction false} LastRecorded(a: seq<PartialExit>, b: seq<PartialExit>, id: ClientId)
    requires |b| == |a| + 1 && a <= b
    ensures RecordedFor(b, id) == RecordedFor(a, id) + if b[|a|].protection == id then b[|a|].quantity else 0.0
  {
    assert b[..|b| - 1] == a;
  }

  // ---------- events that leave a BUY alone ----------

  lemma SupersededKept(a: seq<Intent>, b: seq<Intent>, parent: ClientId, i: nat)
    requires i <= |a| <= |b| && SameIntents(a, b[..|a|])
    ensures Superseded(b, parent, i) ==> Superseded(a, parent, i)
  {
    if Superseded(b, parent, i) {
      var k :| 0 <= k < i && Protects(b[k], parent);
      assert SameIdentity(a[k], b[..|a|][k]);
    }
  }

  lemma AcquiredKept(w: World, v: World, settled: Settlements, parent: ClientId)
    requires UniqueIds(w.t.rows) && Undisturbed(w, v, settled, parent) && Ready(w, settled, parent)
    ensures Ready(v, settled, parent) && Find(v.t.rows, parent) == Find(w.t.rows, parent)
    ensures var j := Find(w.t.rows, parent).value; Acquired(v.t.rows[j]) == Acquired(w.t.rows[j])
  {
    ReadyKept(w, v, settled, parent);
    GrownFinds(w.t.rows, v.t.rows, parent, parent);
  }

  lemma SoundKept(w: World, v: World, settled: Settlements, parent: ClientId)
    requires UniqueIds(w.t.rows) && SalesSound(w, settled, parent)
    requires Undisturbed(w, v, settled, parent) && Continues(w.x, v.x)
    ensures SalesSound(v, settled, parent)
  {
    GrownFinds(w.t.rows, v.t.rows, parent, parent);
    if Protection(w.t.rows, parent).Some? {
      var i := Protection(w.t.rows, parent).value;
      assert SameIdentity(w.t.rows[i], v.t.rows[..|w.t.rows|][i]);
      SalesKept(w, v, parent, i);
      SupersededKept(w.t.rows, v.t.rows, parent, i);
      if v.t.exits != w.t.exits {
        LastExit(w.t.exits, v.t.exits, parent);
        LastRecorded(w.t.exits, v.t.exits, w.t.rows[i].clientId);
      }
      if Superseded(w.t.rows, parent, i) {
        AcquiredKept(w, v, settled, parent);
      }
    }
  }

  lemma QuietKeepsSales(w: World, v: World, settled: Settlements)
    requires UniqueIds(w.t.rows) && AllSalesSound(w, settled)
    requires SameIntents(w.t.rows, v.t.rows) && v.t.exits == w.t.exits && Continues(w.x, v.x)
    requires forall parent :: Ready(w, settled, parent) ==> SameAcquisition(w.t.rows, v.t.rows, parent)
    ensures AllSalesSound(v, settled)
  {
    UniqueKept(w.t.rows, v.t.rows);
    assert v.t.rows[..|w.t.rows|] == v.t.rows;
    ContinuesEvolves(w.x, v.x);
    forall parent ensures SalesSound(v, settled, parent) {
      assert SalesSound(w, settled, parent);
      assert Undisturbed(w, v, settled, parent);
      SoundKept(w, v, settled, parent);
    }
  }

  lemma BookkeepingKeepsSales(w: World, settled: Settlements, e: Event)
    requires Inv(w, settled) && AllSalesSound(w, settled) && AllSensible(w.x) && Enabled(w, settled, e)
    requires e.Report? || e.NoteAccepted? || e.Settle? || e.Mark?
    ensures AllSalesSound(Next(w, settled, e), settled)
  {
    BookkeepingKeepsRows(w, settled, e);
    BookkeepingKeepsAcquired(w, settled, e);
    ContinuesItself(w.x);
    QuietKeepsSales(w, Next(w, settled, e), settled);
  }

  lemma BookkeepingKeepsAcquired(w: World, settled: Settlements, e: Event)
    requires UniqueIds(w.t.rows) && Enabled(w, settled, e) && (e.Report? || e.NoteAccepted? || e.Settle? || e.Mark?)
    ensures var v := Next(w, settled, e);
            |v.t.rows| == |w.t.rows|
            && forall parent :: Ready(w, settled, parent) ==> SameAcquisition(w.t.rows, v.t.rows, parent)
  {
    var i := Find(w.t.rows, e.id);
    if i.Some? && Next(w, settled, e) != w {
      assert Next(w, settled, e) == w.(t := WithRow(w.t, i.value, Next(w, settled, e).t.rows[i.value]));
    }
  }

  // ---------- recovery ----------

  // The latest protection's own exit is recorded on both sides of the balance.
  lemma ExitKeepsBalance(w: World, v: World, settled: Settlements, parent: ClientId, k: nat)
    requires Inv(w, settled) && SalesSound(w, settled, parent) && AllSensible(w.x)
    requires Ready(w, settled, parent) && v == w.(t := Interrupted(w.t, w.x, parent, k)) && v.t.exits != w.t.exits
    ensures SalesSound(v, settled, parent)
  {
    NewExitEvidenced(w, v, settled, parent, k);
    RecoveryLeaves(w.t, w.x, parent, k);
    var i := Protection(w.t.rows, parent).value;
    ProtectionStable(w.t.rows, v.t.rows, parent, |w.t.rows|);
    assert v.t.rows[..|w.t.rows|] == v.t.rows;
    ContinuesItself(w.x);
    SalesKept(w, v, parent, i);
    SupersededKept(w.t.rows, v.t.rows, parent, i);
    LastExit(w.t.exits, v.t.exits, parent);
    assert SameIdentity(w.t.rows[i], v.t.rows[i]);
    LastRecorded(w.t.exits, v.t.exits, w.t.rows[i].clientId);
    InventoryKept(w, v, settled, parent);
  }

  lemma InventoryKept(w: World, v: World, settled: Settlements, parent: ClientId)
    requires Ready(w, settled, parent) && v.x == w.x && SameIntents(w.t.rows, v.t.rows)
             && SameInventory(w.t.rows, v.t.rows)
    ensures Ready(v, settled, parent) && Find(v.t.rows, parent) == Find(w.t.rows, parent)
    ensures var j := Find(w.t.rows, parent).value; Acquired(v.t.rows[j]) == Acquired(w.t.rows[j])
  {
    FindStable(w.t.rows, v.t.rows, parent, |w.t.rows|);
    var j := Find(w.t.rows, parent).value;
    assert SameIdentity(w.t.rows[j], v.t.rows[j]);
  }

  lemma RecoveryKeepsSales(w: World, v: World, settled: Settlements, parent: ClientId, k: nat)
    requires Inv(w, settled) && AllSalesSound(w, settled) && AllSensible(w.x)
    requires Ready(w, settled, parent) && v == w.(t := Interrupted(w.t, w.x, parent, k))
    ensures AllSalesSound(v, settled)
  {
    ContinuesItself(w.x);
    forall other ensures SalesSound(v, settled, other) {
      assert SalesSound(w, settled, other);
      if other == parent && v.t.exits != w.t.exits {
        ExitKeepsBalance(w, v, settled, parent, k);
      } else {
        RecoveryDisturbs(w, v, settled, parent, k, other);
        SoundKept(w, v, settled, other);
      }
    }
  }

  // ---------- a new protection ----------

  lemma AppendKeepsOthers(w: World, v: World, settled: Settlements, intent: Intent, parent: ClientId)
    requires UniqueIds(w.t.rows) && OwnersKnown(w.t) && SalesSound(w, settled, parent) && AllSensible(w.x)
    requires Find(w.t.rows, intent.clientId) == None && v == w.(t := w.t.(rows := w.t.rows + [intent]))
    requires !Protects(intent, parent)
    ensures SalesSound(v, settled, parent)
  {
    Appended(w.t, intent);
    ContinuesItself(w.x);
    assert Undisturbed(w, v, settled, parent);
    SoundKept(w, v, settled, parent);
  }

  // The first protection of a BUY.
  lemma FirstProtection(w: World, v: World, settled: Settlements, intent: Intent, parent: ClientId)
    requires Inv(w, settled) && Find(w.t.rows, intent.clientId) == None && Protects(intent, parent)
    requires v == w.(t := w.t.(rows := w.t.rows + [intent])) && Protection(w.t.rows, parent) == None
    ensures SalesSound(v, settled, parent)
  {
    LatestIsLast(w.t.rows, parent, |w.t.rows|);
    assert forall k | 0 <= k < |w.t.rows| :: v.t.rows[k] == w.t.rows[k];
    NoneAmong(v, parent, 0, |w.t.rows|);
    assert ExitsSound(w, settled, parent);
    NothingSold(w.t.exits, parent);
    Appended(w.t, intent);
    NoneRecorded(w.t.exits, intent.clientId);
  }

  // Once it is recorded in full, the latest protection can be counted among the finished ones.
  lemma {:induction false} LatestCounts(w: World, settled: Settlements, parent: ClientId, i: nat)
    requires SalesSound(w, settled, parent) && AllSensible(w.x) && Protection(w.t.rows, parent) == Some(i)
    requires FullyRecorded(w.x, w.t.exits, w.t.rows[i], parent)
    ensures AllFinished(w, parent, |w.t.rows|) && SoldAmong(w, parent, |w.t.rows|) == ExitSum(w.t.exits, parent)
  {
    ContinuesItself(w.x);
    LatestIsLast(w.t.rows, parent, |w.t.rows|);
    NoneAmong(w, parent, i + 1, |w.t.rows|);
    assert SoldBy(w.x, w.t.rows[i], parent) == RecordedFor(w.t.exits, w.t.rows[i].clientId);
    forall k | 0 <= k < |w.t.rows| && Protects(w.t.rows[k], parent) ensures Finished(w.x, w.t.rows[k], parent) {
      if k < i {
        assert AllFinished(w, parent, i);
      } else {
        assert k == i;
        RecordedIsFinished(w.x, w.t.exits, w.t.rows[i], parent);
      }
    }
  }

  lemma RecordedIsFinished(x: Exchange, exits: seq<PartialExit>, p: Intent, parent: ClientId)
    requires AllSensible(x) && FullyRecorded(x, exits, p, parent)
    ensures Finished(x, p, parent)
  {
    ContinuesItself(x);
    assert SoldBy(x, p, parent) == RecordedFor(exits, p.clientId);
    forall y | Continues(x, y) ensures SoldBy(y, p, parent) == SoldBy(x, p, parent) {
      assert SoldBy(y, p, parent) == RecordedFor(exits, p.clientId);
    }
  }

  // A further protection, when the former one is finished and what it sold is recorded.
  lemma NextProtection(w: World, v: World, settled: Settlements, intent: Intent, parent: ClientId)
    requires Inv(w, settled) && SalesSound(w, settled, parent) && AllSensible(w.x) && Ready(w, settled, parent)
    requires Find(w.t.rows, intent.clientId) == None && Protects(intent, parent)
             && intent.quantity <= Residual(w.t, parent)
    requires v == w.(t := w.t.(rows := w.t.rows + [intent])) && Protection(w.t.rows, parent).Some?
    requires FullyRecorded(w.x, w.t.exits, w.t.rows[Protection(w.t.rows, parent).value], parent)
    ensures SalesSound(v, settled, parent)
  {
    LatestCounts(w, settled, parent, Protection(w.t.rows, parent).value);
    Appended(w.t, intent);
    NoneRecorded(w.t.exits, intent.clientId);
    ContinuesItself(w.x);
    assert v.t.rows[..|w.t.rows|] == w.t.rows;
    SalesKept(w, v, parent, |w.t.rows|);
    ReadyAppended(w, v, settled, intent, parent);
    LatestAppended(w.t.rows, intent, parent);
  }

  lemma ReadyAppended(w: World, v: World, settled: Settlements, intent: Intent, parent: ClientId)
    requires UniqueIds(w.t.rows) && OwnersKnown(w.t) && Find(w.t.rows, intent.clientId) == None
             && Ready(w, settled, parent)
    requires v == w.(t := w.t.(rows := w.t.rows + [intent]))
    ensures Ready(v, settled, parent) && Find(v.t.rows, parent) == Find(w.t.rows, parent)
    ensures var j := Find(w.t.rows, parent).value; v.t.rows[j] == w.t.rows[j]
  {
    Appended(w.t, intent);
  }

  lemma LatestAppended(rows: seq<Intent>, intent: Intent, parent: ClientId)
    requires Protects(intent, parent)
    ensures Protection(rows + [intent], parent) == Some(|rows|)
  {
  }

  /** The exchange goes on lawfully, and a protection is replaced only on evidence that settles it. */
  ghost predicate Careful(w: World, e: Event) {
    match e
    case ExchangeMoves(next) => Continues(w.x, next)
    case Replace(parent, _) =>
      Protection(w.t.rows, parent).Some? ==> Reconciled(w.x, w.t.rows[Protection(w.t.rows, parent).value], parent)
    case _ => true
  }

  lemma IntendKeepsSales(w: World, settled: Settlements, intent: Intent)
    requires Inv(w, settled) && AllSalesSound(w, settled) && AllSensible(w.x) && Enabled(w, settled, Intend(intent))
    ensures AllSalesSound(Next(w, settled, Intend(intent)), settled)
  {
    var v := Next(w, settled, Intend(intent));
    if Find(w.t.rows, intent.clientId) == None {
      forall parent ensures SalesSound(v, settled, parent) {
        assert SalesSound(w, settled, parent);
        if Protects(intent, parent) {
          FirstProtection(w, v, settled, intent, parent);
        } else {
          AppendKeepsOthers(w, v, settled, intent, parent);
        }
      }
    }
  }

  lemma AppendKeepsSales(u: World, v: World, settled: Settlements, parent: ClientId, intent: Intent)
    requires Inv(u, settled) && AllSalesSound(u, settled) && AllSensible(u.x) && Ready(u, settled, parent)
    requires Find(u.t.rows, intent.clientId) == None && Protects(intent, parent)
             && intent.quantity <= Residual(u.t, parent)
    requires v == u.(t := u.t.(rows := u.t.rows + [intent]))
    requires Protection(u.t.rows, parent).Some? ==>
               FullyRecorded(u.x, u.t.exits, u.t.rows[Protection(u.t.rows, parent).value], parent)
    ensures AllSalesSound(v, settled)
  {
    forall other ensures SalesSound(v, settled, other) {
      assert SalesSound(u, settled, other);
      if other != parent {
        AppendKeepsOthers(u, v, settled, intent, other);
      } else if Protection(u.t.rows, parent) == None {
        FirstProtection(u, v, settled, intent, parent);
      } else {
        NextProtection(u, v, settled, intent, parent);
      }
    }
  }

  lemma RecordedStays(x: Exchange, exits: seq<PartialExit>, p: Intent, q: Intent, parent: ClientId)
    requires SameIdentity(p, q) && FullyRecorded(x, exits, p, parent)
    ensures FullyRecorded(x, exits, q, parent)
  {
    forall y | Continues(x, y) ensures SoldBy(y, q, parent) == RecordedFor(exits, q.clientId) {
      SameSales(y, p, q, parent);
    }
  }

  lemma ReplaceKeepsSales(w: World, settled: Settlements, parent: ClientId, intent: Intent)
    requires Inv(w, settled) && Evidenced(w) && AllSalesSound(w, settled) && AllSensible(w.x)
    requires Enabled(w, settled, Replace(parent, intent)) && Careful(w, Replace(parent, intent))
    ensures AllSalesSound(Next(w, settled, Replace(parent, intent)), settled)
  {
    var k := |Decide(w.t, w.x, parent).txs|;
    var u := w.(t := Interrupted(w.t, w.x, parent, k));
    WholeRecovery(w.t, w.x, parent);
    RecoverStep(w, settled, parent, k);
    RecoveryKeepsSales(w, u, settled, parent, k);
    RecoveryLeaves(w.t, w.x, parent, k);
    ProtectionStable(w.t.rows, u.t.rows, parent, |w.t.rows|);
    InventoryKept(w, u, settled, parent);
    if Find(u.t.rows, intent.clientId) == None {
      if Protection(w.t.rows, parent).Some? {
        var i := Protection(w.t.rows, parent).value;
        UncoveredExactly(w, settled, parent);
        assert SameIdentity(w.t.rows[i], u.t.rows[i]);
        RecordedStays(w.x, u.t.exits, w.t.rows[i], u.t.rows[i], parent);
      }
      AppendKeepsSales(u, Next(w, settled, Replace(parent, intent)), settled, parent, intent);
    }
  }

  lemma StepKeepsSales(w: World, settled: Settlements, e: Event)
    requires Inv(w, settled) && Evidenced(w) && AllSalesSound(w, settled) && AllSensible(w.x)
    requires Enabled(w, settled, e) && Careful(w, e)
    ensures AllSalesSound(Next(w, settled, e), settled) && AllSensible(Next(w, settled, e).x)
  {
    match e
    case ExchangeMoves(next) => QuietKeepsSales(w, w.(x := next), settled);
    case Intend(intent) => IntendKeepsSales(w, settled, intent);
    case Replace(parent, intent) => ReplaceKeepsSales(w, settled, parent, intent);
    case Recover(parent, k) => RecoveryKeepsSales(w, Next(w, settled, e), settled, parent, k);
    case _ => BookkeepingKeepsSales(w, settled, e);
  }

  // ---------- whole runs ----------

  ghost predicate CarefulRun(w: World, settled: Settlements, es: seq<Event>)
    decreases |es|
  {
    es == [] || (Enabled(w, settled, es[0]) && Careful(w, es[0])
                 && CarefulRun(Next(w, settled, es[0]), settled, es[1..]))
  }

  lemma {:induction false} CarefulRunKeeps(w: World, settled: Settlements, es: seq<Event>)
    requires Inv(w, settled) && Evidenced(w) && AllSalesSound(w, settled) && AllSensible(w.x)
             && CarefulRun(w, settled, es)
    ensures var v := Final(w, settled, es);
            Inv(v, settled) && Evidenced(v) && AllSalesSound(v, settled)
    decreases |es|
  {
    if es != [] {
      StepKeeps(w, settled, es[0]);
      StepKeepsEvidence(w, settled, es[0]);
      StepKeepsSales(w, settled, es[0]);
      CarefulRunKeeps(Next(w, settled, es[0]), settled, es[1..]);
    }
  }

  lemma {:induction false} CarefulFromEmpty(x: Exchange, settled: Settlements, es: seq<Event>)
    requires AllSensible(x) && CarefulRun(World(EMPTY, x), settled, es)
    ensures var w := Final(World(EMPTY, x), settled, es);
            Inv(w, settled) && Evidenced(w) && AllSalesSound(w, settled)
  {
    assert Inv(World(EMPTY, x), settled) && Evidenced(World(EMPTY, x)) && AllSalesSound(World(EMPTY, x), settled);
    CarefulRunKeeps(World(EMPTY, x), settled, es);
  }

  /** Over every run in which protections are replaced only on settling evidence: all SELL intents of a BUY
      together have sold no more than it acquired, provided that the first asked for no more than that and
      that no pair sells more than it was placed for. */
  lemma {:induction false} NeverOversold(x: Exchange, settled: Settlements, es: seq<Event>, parent: ClientId)
    requires AllSensible(x) && CarefulRun(World(EMPTY, x), settled, es)
    requires var w := Final(World(EMPTY, x), settled, es);
             && Find(w.t.rows, parent).Some? && Protection(w.t.rows, parent).Some?
             && var i := Protection(w.t.rows, parent).value;
             && SoldBy(w.x, w.t.rows[i], parent) <= w.t.rows[i].quantity
             && (!Superseded(w.t.rows, parent, i) ==>
                   w.t.rows[i].quantity <= Acquired(w.t.rows[Find(w.t.rows, parent).value]))
    ensures var w := Final(World(EMPTY, x), settled, es);
            TotalSold(w, parent) <= Acquired(w.t.rows[Find(w.t.rows, parent).value])
  {
    CarefulFromEmpty(x, settled, es);
    var w := Final(World(EMPTY, x), settled, es);
    var i := Protection(w.t.rows, parent).value;
    assert SalesSound(w, settled, parent);
    TotalSplits(w, parent);
    if !Superseded(w.t.rows, parent, i) {
      NoneAmong(w, parent, 0, i);
    }
  }

  lemma ClosingSale(x: Exchange, p: Intent, parent: ClientId)
    requires FinalEvidence(x, p, parent)
    ensures SoldBy(x, p, parent) == Classify(Known(x, p, parent).legs).leg.executed
  {
    var z, q := x.(up := true), p.(listId := None);
    EvidenceShowsOrders(z, q, parent);
    var legs := Known(x, p, parent).legs;
    assert SellOrders(z, q, parent) == [legs[0], legs[1]];
    SettledSum(legs);
    SumOfTwo(legs[0], legs[1]);
  }

  /** And a closed lifecycle has sold exactly what was acquired, on the exchange and not only on record. */
  lemma {:induction false} ClosedMeansSold(x: Exchange, settled: Settlements, es: seq<Event>, id: ClientId)
    requires AllSensible(x) && CarefulRun(World(EMPTY, x), settled, es)
    requires id in Final(World(EMPTY, x), settled, es).t.closures
    ensures var w := Final(World(EMPTY, x), settled, es);
            var parent := w.t.closures[id].parent;
            Find(w.t.rows, parent).Some? && TotalSold(w, parent) == Acquired(w.t.rows[Find(w.t.rows, parent).value])
  {
    CarefulFromEmpty(x, settled, es);
    var w := Final(World(EMPTY, x), settled, es);
    var parent := w.t.closures[id].parent;
    assert ClosureSound(w, settled, id, w.t.closures[id]);
    assert SalesSound(w, settled, parent);
    ClosedBalance(w, settled, id, parent);
  }

  lemma ClosedBalance(w: World, settled: Settlements, id: ClientId, parent: ClientId)
    requires UniqueIds(w.t.rows) && Evidenced(w) && SalesSound(w, settled, parent)
    requires id in w.t.closures && w.t.closures[id].parent == parent && ClosureSound(w, settled, id, w.t.closures[id])
    ensures Find(w.t.rows, parent).Some? && TotalSold(w, parent) == Acquired(w.t.rows[Find(w.t.rows, parent).value])
  {
    var i := Protection(w.t.rows, parent).value;
    var p := w.t.rows[i];
    TotalSplits(w, parent);
    ClosingSale(w.x, p, parent);
    RecordedIsEvidence(w, i, parent);
    assert RecordedFor(w.t.exits, p.clientId) == 0.0;
    assert SoldBy(w.x, p, parent) == p.quantity == Residual(w.t, parent);
  }
}
