/** Reconciliation by client id: at startup every ordinary order whose final state the journal does not know
    is asked about on the exchange, and so are the BUYs a worker resumes. */
module StartupReconciliation {
  import opened Results
  import opened OrderJournal
  import opened JournalHistory

  /** What asking for an order by its client id gives: the query fails, the exchange knows no such order,
      the answer's identity is wrong, or the order. */
  datatype Query = Unavailable | Absent | Mismatched | Found(order: OrderReply)

  /** All ordinary orders before anything is traded, or the BUYs of a resuming worker. */
  datatype Pass = Startup | ResumeBuys

  predicate Unsettled(state: IntentState) {
    state == Prepared || state == Unknown || state == Submitted || state == PartlyExecuted || state == ProtectionPending
  }

  predicate Pending(intent: Intent, symbol: string, pass: Pass := Startup) {
    && intent.symbol == symbol
    && match pass
       case Startup => intent.kind != Oco && intent.kind != Otoco && Unsettled(intent.state)
       case ResumeBuys => intent.side == Buy && (Unsettled(intent.state) || intent.state == Executed)
  }

  // The order was never confirmed, so the exchange not knowing it is an answer.
  predicate NeverConfirmed(intent: Intent) { intent.state == Prepared || intent.state == Unknown }

  // The exchange's answer about this intent stops the reconciliation.
  predicate Stops(intent: Intent, answer: Query) {
    answer == Unavailable || answer == Mismatched || (answer == Absent && !NeverConfirmed(intent))
  }

  /** What becomes of one pending intent. An order that never existed fails at startup; a resuming worker
      leaves it to be sent again under the same id. */
  function Answered(intent: Intent, answer: Query, pass: Pass := Startup): Intent {
    match answer
    case Unavailable => intent.(state := Unknown)
    case Mismatched => intent
    case Absent => if NeverConfirmed(intent) && pass == Startup then intent.(state := Failed) else intent
    case Found(o) => intent.(state := StateFor(o), orderId := Some(o.orderId), executed := o.executed, quote := o.quote)
  }

  /** The first pending row whose answer stops the reconciliation, or the number of rows. */
  function StopAt(rows: seq<Intent>, symbol: string, ask: ClientId -> Query, pass: Pass := Startup): (n: nat)
    ensures n <= |rows|
    ensures n < |rows| ==> Pending(rows[n], symbol, pass) && Stops(rows[n], ask(rows[n].clientId))
    ensures forall i | 0 <= i < n && Pending(rows[i], symbol, pass) :: !Stops(rows[i], ask(rows[i].clientId))
  {
    if rows == [] then 0
    else
      var n := StopAt(rows[..|rows| - 1], symbol, ask, pass);
      if n < |rows| - 1 then n
      else if Pending(rows[n], symbol, pass) && Stops(rows[n], ask(rows[n].clientId)) then n else |rows|
  }

  /** Row by row: the exchange's answer up to the row that stops, every later row as it was. */
  function Reconciled(t: Tables, symbol: string, ask: ClientId -> Query, pass: Pass := Startup): Tables {
    var stop := StopAt(t.rows, symbol, ask, pass);
    t.(rows := seq(|t.rows|, i requires 0 <= i < |t.rows| =>
                                if i <= stop && Pending(t.rows[i], symbol, pass)
                                    then Answered(t.rows[i], ask(t.rows[i].clientId), pass)
                                else t.rows[i]))
  }

  // Rows before `done` have their answer, the others are untouched.
  ghost predicate Progress(t: Tables, u: Tables, symbol: string, ask: ClientId -> Query, pass: Pass, done: nat) {
    && done <= |t.rows| == |u.rows| && u == t.(rows := u.rows)
    && (forall i | 0 <= i < done && Pending(t.rows[i], symbol, pass) ::
        u.rows[i] == Answered(t.rows[i], ask(t.rows[i].clientId), pass))
    && forall i | 0 <= i < |t.rows| && (i >= done || !Pending(t.rows[i], symbol, pass)) :: u.rows[i] == t.rows[i]
  }

  lemma ProgressKeepsIds(t: Tables, u: Tables, symbol: string, ask: ClientId -> Query, pass: Pass, done: nat)
    requires UniqueIds(t.rows) && Progress(t, u, symbol, ask, pass, done)
    ensures SameIntents(t.rows, u.rows) && UniqueIds(u.rows)
  {
    forall i | 0 <= i < |t.rows| ensures SameIdentity(t.rows[i], u.rows[i]) {
    }
    UniqueKept(t.rows, u.rows);
  }

  // None of the first n rows stops the pass.
  predicate NoneStops(rows: seq<Intent>, symbol: string, ask: ClientId -> Query, pass: Pass, n: nat)
    requires n <= |rows|
  {
    forall i | 0 <= i < n && Pending(rows[i], symbol, pass) :: !Stops(rows[i], ask(rows[i].clientId))
  }

  lemma NoneStopsNext(rows: seq<Intent>, symbol: string, ask: ClientId -> Query, pass: Pass, n: nat)
    requires n < |rows| && NoneStops(rows, symbol, ask, pass, n)
    requires Pending(rows[n], symbol, pass) ==> !Stops(rows[n], ask(rows[n].clientId))
    ensures NoneStops(rows, symbol, ask, pass, n + 1)
  {
  }

  lemma {:induction false} StopsHere(rows: seq<Intent>, symbol: string, ask: ClientId -> Query, pass: Pass, n: nat)
    requires n <= |rows| && NoneStops(rows, symbol, ask, pass, n)
    requires n < |rows| ==> Pending(rows[n], symbol, pass) && Stops(rows[n], ask(rows[n].clientId))
    ensures StopAt(rows, symbol, ask, pass) == n
  {
  }

  lemma {:induction false} Finished(t: Tables, u: Tables, symbol: string, ask: ClientId -> Query, pass: Pass, n: nat)
    requires n <= |t.rows| && Progress(t, u, symbol, ask, pass, if n < |t.rows| then n + 1 else n)
    requires StopAt(t.rows, symbol, ask, pass) == n
    ensures u == Reconciled(t, symbol, ask, pass)
  {
    assert u.rows == Reconciled(t, symbol, ask, pass).rows;
  }

  lemma OneMore(t: Tables, u: Tables, symbol: string, ask: ClientId -> Query, pass: Pass, k: nat)
    requires k < |t.rows| && Pending(t.rows[k], symbol, pass) && Progress(t, u, symbol, ask, pass, k)
    ensures Progress(t, WithRow(u, k, Answered(t.rows[k], ask(t.rows[k].clientId), pass)), symbol, ask, pass, k + 1)
  {
  }

  // The next listed row is still as it was listed, and settling it makes one more row of progress.
  lemma NextRow(t: Tables, u: Tables, symbol: string, ask: ClientId -> Query, pass: Pass, k: nat)
    requires UniqueIds(t.rows) && k < |t.rows| && Pending(t.rows[k], symbol, pass)
             && Progress(t, u, symbol, ask, pass, k)
    ensures Find(u.rows, t.rows[k].clientId) == Some(k) && u.rows[k] == t.rows[k]
    ensures Progress(t, WithRow(u, k, Answered(t.rows[k], ask(t.rows[k].clientId), pass)), symbol, ask, pass, k + 1)
  {
    ProgressKeepsIds(t, u, symbol, ask, pass, k);
    FindUnique(u.rows, k, |u.rows|);
    OneMore(t, u, symbol, ask, pass, k);
  }

  lemma {:induction false} Halted(t: Tables, u: Tables, symbol: string, ask: ClientId -> Query, pass: Pass, n: nat)
    requires n < |t.rows| && Progress(t, u, symbol, ask, pass, n + 1)
    requires NoneStops(t.rows, symbol, ask, pass, n)
    requires Pending(t.rows[n], symbol, pass) && Stops(t.rows[n], ask(t.rows[n].clientId))
    ensures StopAt(t.rows, symbol, ask, pass) == n && u == Reconciled(t, symbol, ask, pass)
  {
    StopsHere(t.rows, symbol, ask, pass, n);
    Finished(t, u, symbol, ask, pass, n);
  }

  method Settle(journal: Journal, intent: Intent, answer: Query, pass: Pass) returns (ok: bool)
    requires Find(journal.rows, intent.clientId).Some?
             && journal.rows[Find(journal.rows, intent.clientId).value] == intent
    modifies journal
    ensures ok <==> !Stops(intent, answer)
    ensures var k := Find(old(journal.rows), intent.clientId).value;
            journal.Contents() == WithRow(old(journal.Contents()), k, Answered(intent, answer, pass))
  {
    ghost var k := Find(journal.rows, intent.clientId).value;
    assert journal.rows[k := intent] == journal.rows;
    match answer
    case Unavailable =>
      var _ := journal.ChangeState(intent.clientId, Unknown);
      return false;
    case Mismatched =>
      return false;
    case Absent =>
      ok := NeverConfirmed(intent);
      if ok && pass == Startup {
        ok := journal.ChangeState(intent.clientId, Failed);
      }
    case Found(o) =>
      ok := journal.RecordExchangeOrder(intent.clientId, o);
  }

  /** The intents are listed once, then asked about and rewritten one after the other; the first answer that
      settles nothing halts everything. */
  method ReconcileNonterminalOrders(journal: Journal, symbol: string, ask: ClientId -> Query) returns (ok: bool)
    requires UniqueIds(journal.rows)
    modifies journal
    ensures journal.Contents() == Reconciled(old(journal.Contents()), symbol, ask)
    ensures ok <==> StopAt(old(journal.rows), symbol, ask) == |old(journal.rows)|
  {
    ghost var t := journal.Contents();
    var listed := journal.rows;
    for k := 0 to |listed|
      invariant journal.Contents().rows == journal.rows && Progress(t, journal.Contents(), symbol, ask, Startup, k)
      invariant NoneStops(listed, symbol, ask, Startup, k)
    {
      if Pending(listed[k], symbol) {
        NextRow(t, journal.Contents(), symbol, ask, Startup, k);
        ok := Settle(journal, listed[k], ask(listed[k].clientId), Startup);
        if !ok {
          Halted(t, journal.Contents(), symbol, ask, Startup, k);
          return;
        }
      }
      NoneStopsNext(listed, symbol, ask, Startup, k);
    }
    StopsHere(listed, symbol, ask, Startup, |listed|);
    Finished(t, journal.Contents(), symbol, ask, Startup, |listed|);
    return true;
  }

  // ---------- resuming BUYs ----------

  predicate Working(state: IntentState) {
    state == Submitted || state == PartlyExecuted || state == Executed || state == ProtectionPending
  }

  /** The exchange still works on this BUY, or has filled some of it. */
  predicate Resumes(intent: Intent, symbol: string, answer: Query) {
    Pending(intent, symbol, ResumeBuys) && answer.Found? && Working(StateFor(answer.order))
  }

  function WithId(ids: seq<int>, id: int): seq<int> {
    if id in ids then ids else ids + [id]
  }

  /** Exchange ids of the resumed BUYs among the first n rows, each once, in the rows' order. */
  function Resumed(rows: seq<Intent>, symbol: string, ask: ClientId -> Query, n: nat): seq<int>
    requires n <= |rows|
  {
    if n == 0 then []
    else
      var earlier, answer := Resumed(rows, symbol, ask, n - 1), ask(rows[n - 1].clientId);
      if Resumes(rows[n - 1], symbol, answer) then WithId(earlier, answer.order.orderId) else earlier
  }

  method RecoverPendingBuyOrderIds(journal: Journal, symbol: string, ask: ClientId -> Query)
      returns (ids: Option<seq<int>>)
    requires UniqueIds(journal.rows)
    modifies journal
    ensures journal.Contents() == Reconciled(old(journal.Contents()), symbol, ask, ResumeBuys)
    ensures ids == if StopAt(old(journal.rows), symbol, ask, ResumeBuys) == |old(journal.rows)|
                   then Some(Resumed(old(journal.rows), symbol, ask, |old(journal.rows)|)) else None
  {
    ghost var t := journal.Contents();
    var listed := journal.rows;
    var recovered: seq<int> := [];
    for k := 0 to |listed|
      invariant journal.Contents().rows == journal.rows && Progress(t, journal.Contents(), symbol, ask, ResumeBuys, k)
      invariant NoneStops(listed, symbol, ask, ResumeBuys, k)
      invariant recovered == Resumed(listed, symbol, ask, k)
    {
      if Pending(listed[k], symbol, ResumeBuys) {
        var answer := ask(listed[k].clientId);
        NextRow(t, journal.Contents(), symbol, ask, ResumeBuys, k);
        var ok := Settle(journal, listed[k], answer, ResumeBuys);
        if !ok {
          Halted(t, journal.Contents(), symbol, ask, ResumeBuys, k);
          return None;
        }
        if answer.Found? && Working(StateFor(answer.order)) {
          recovered := WithId(recovered, answer.order.orderId);
        }
      }
      NoneStopsNext(listed, symbol, ask, ResumeBuys, k);
    }
    StopsHere(listed, symbol, ask, ResumeBuys, |listed|);
    Finished(t, journal.Contents(), symbol, ask, ResumeBuys, |listed|);
    return Some(recovered);
  }

  /** The ids returned are exactly those of BUYs the exchange works on or has filled, without repetition. */
  lemma {:induction false} ResumedExactly(rows: seq<Intent>, symbol: string, ask: ClientId -> Query, n: nat, id: int)
    requires n <= |rows|
    ensures id in Resumed(rows, symbol, ask, n)
            <==> exists i :: 0 <= i < n && Resumes(rows[i], symbol, ask(rows[i].clientId))
                             && ask(rows[i].clientId).order.orderId == id
    ensures forall i, j | 0 <= i < j < |Resumed(rows, symbol, ask, n)| ::
              Resumed(rows, symbol, ask, n)[i] != Resumed(rows, symbol, ask, n)[j]
  {
    if n > 0 {
      ResumedExactly(rows, symbol, ask, n - 1, id);
    }
  }

  /** A BUY that was never confirmed and is unknown to the exchange survives a resuming pass untouched; only
      the startup pass fails it. */
  lemma {:induction false} OnlyStartupWritesOff(t: Tables, symbol: string, ask: ClientId -> Query, i: nat)
    requires i < |t.rows| && t.rows[i].side == Buy && Pending(t.rows[i], symbol) && NeverConfirmed(t.rows[i])
    requires ask(t.rows[i].clientId) == Absent
    ensures Reconciled(t, symbol, ask, ResumeBuys).rows[i] == t.rows[i]
    ensures StopAt(t.rows, symbol, ask) == |t.rows|
            ==> Reconciled(t, symbol, ask).rows[i] == t.rows[i].(state := Failed)
  {
  }

  // ---------- what it achieves ----------

  /** After a complete reconciliation no ordinary intent is left in doubt, except where the exchange itself
      reports a status the journal does not know; and repeating it changes nothing. */
  lemma {:induction false} NothingLeftInDoubt(t: Tables, symbol: string, ask: ClientId -> Query)
    requires StopAt(t.rows, symbol, ask) == |t.rows|
    ensures var u := Reconciled(t, symbol, ask);
            && (forall i | 0 <= i < |t.rows| && Pending(u.rows[i], symbol) && NeverConfirmed(u.rows[i]) ::
                  ask(t.rows[i].clientId).Found? && ask(t.rows[i].clientId).order.status == OtherStatus)
            && StopAt(u.rows, symbol, ask) == |u.rows| && Reconciled(u, symbol, ask) == u
  {
    var u := Reconciled(t, symbol, ask);
    StopsHere(u.rows, symbol, ask, Startup, |u.rows|);
    assert Reconciled(u, symbol, ask).rows == u.rows;
  }

  // One intent through a sequence of startups: asked about for as long as it is pending.
  function Asked(intent: Intent, answers: seq<Query>): Intent {
    if answers == [] then intent
    else
      var before := Asked(intent, answers[..|answers| - 1]);
      if Pending(before, intent.symbol) then Answered(before, answers[|answers| - 1]) else before
  }

  ghost predicate AbsentAfterUnavailable(answers: seq<Query>) {
    exists i, j :: 0 <= i < j < |answers| && answers[i] == Unavailable && answers[j] == Absent
  }

  /** An order once confirmed and then reported absent must not be written off silently. It is, exactly when
      a failed query came in between: that query forgets the confirmation. */
  lemma {:induction false} WrittenOffExactly(intent: Intent, answers: seq<Query>)
    requires Pending(intent, intent.symbol) && !NeverConfirmed(intent)
    requires forall i | 0 <= i < |answers| :: answers[i] == Unavailable || answers[i] == Absent
    ensures Asked(intent, answers).state
            == if AbsentAfterUnavailable(answers) then Failed
               else if Unavailable in answers then Unknown
               else intent.state
    ensures Asked(intent, answers) == intent.(state := Asked(intent, answers).state)
  {
    if answers != [] {
      var rest, last := answers[..|answers| - 1], answers[|answers| - 1];
      WrittenOffExactly(intent, rest);
      assert answers == rest + [last];
      if AbsentAfterUnavailable(rest) {
        var i, j :| 0 <= i < j < |rest| && rest[i] == Unavailable && rest[j] == Absent;
        assert answers[i] == Unavailable && answers[j] == Absent;
      } else if AbsentAfterUnavailable(answers) {
        var i, j :| 0 <= i < j < |answers| && answers[i] == Unavailable && answers[j] == Absent;
        assert rest[i] == Unavailable;
      } else if last == Absent {
        assert forall i | 0 <= i < |rest| :: answers[i] == rest[i];
        assert Unavailable !in rest;
      }
    }
  }

  // ---------- repeated startups on the whole journal ----------

  /** The journal after startup passes that may each be stopped by any row. */
  function Passed(t: Tables, symbol: string, asks: seq<ClientId -> Query>): (u: Tables)
    ensures |u.rows| == |t.rows|
  {
    if asks == [] then t
    else Reconciled(Passed(t, symbol, asks[..|asks| - 1]), symbol, asks[|asks| - 1])
  }

  /** What the exchange said about row i, in the passes that were not stopped before they came to it. */
  function Heard(t: Tables, symbol: string, asks: seq<ClientId -> Query>, i: nat): seq<Query>
    requires i < |t.rows|
  {
    if asks == [] then []
    else
      var before, ask := Passed(t, symbol, asks[..|asks| - 1]), asks[|asks| - 1];
      var earlier := Heard(t, symbol, asks[..|asks| - 1], i);
      if i <= StopAt(before.rows, symbol, ask) then earlier + [ask(t.rows[i].clientId)] else earlier
  }

  lemma {:induction false} HeardNext(intent: Intent, answers: seq<Query>, answer: Query)
    ensures var before := Asked(intent, answers);
            Asked(intent, answers + [answer]) == if Pending(before, intent.symbol) then Answered(before, answer)
                else before
  {
    assert (answers + [answer])[..|answers|] == answers;
  }

  lemma {:induction false} AskedKeepsIdentity(intent: Intent, answers: seq<Query>)
    ensures SameIdentity(intent, Asked(intent, answers))
  {
    if answers != [] {
      AskedKeepsIdentity(intent, answers[..|answers| - 1]);
    }
  }

  /** A row of the journal lives through repeated startups as if it were alone with the answers heard about it:
      what other rows do matters only where a pass stops before it. */
  lemma {:induction false} RowIsAsked(t: Tables, symbol: string, asks: seq<ClientId -> Query>, i: nat)
    requires i < |t.rows| && t.rows[i].symbol == symbol
    ensures Passed(t, symbol, asks).rows[i] == Asked(t.rows[i], Heard(t, symbol, asks, i))
  {
    if asks != [] {
      var rest, ask := asks[..|asks| - 1], asks[|asks| - 1];
      RowIsAsked(t, symbol, rest, i);
      AskedKeepsIdentity(t.rows[i], Heard(t, symbol, rest, i));
      HeardNext(t.rows[i], Heard(t, symbol, rest, i), ask(t.rows[i].clientId));
    }
  }

  /** On the whole journal, over any number of startups: a confirmed order about which only failed queries and
      absences are heard is written off exactly when an absence is heard after a failed query. */
  lemma {:induction false} WrittenOffInJournalExactly(t: Tables, symbol: string, asks: seq<ClientId -> Query>, i: nat)
    requires i < |t.rows| && Pending(t.rows[i], symbol) && !NeverConfirmed(t.rows[i])
    requires forall k | 0 <= k < |Heard(t, symbol, asks, i)| ::
               Heard(t, symbol, asks, i)[k] == Unavailable || Heard(t, symbol, asks, i)[k] == Absent
    ensures var heard := Heard(t, symbol, asks, i);
            Passed(t, symbol, asks).rows[i]
            == t.rows[i].(state := if AbsentAfterUnavailable(heard) then Failed
                                   else if Unavailable in heard then Unknown else t.rows[i].state)
  {
    RowIsAsked(t, symbol, asks, i);
    WrittenOffExactly(t.rows[i], Heard(t, symbol, asks, i));
  }
}
