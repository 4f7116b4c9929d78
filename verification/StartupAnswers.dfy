/** What a reconciliation makes of each row, in its state and in the status that the exchange reports, and which BUYs a
    worker goes on with. */
module StartupAnswers {
  import opened Results
  import opened OrderJournal
  import opened JournalRecords
  import opened StartupReconciliation

  /** At startup every ordinary order of the symbol whose end is not known is asked about; a resuming worker
      asks about the symbol's BUYs, the filled ones included. */
  predicate AskedAbout(row: Intent, symbol: string, pass: Pass) {
    && row.symbol == symbol
    && (row.state in {Prepared, Unknown, Submitted, PartlyExecuted, ProtectionPending}
        || (pass == ResumeBuys && row.state == Executed))
    && (pass == Startup ==> row.kind != Oco && row.kind != Otoco) && (pass == ResumeBuys ==> row.side == Buy)
  }

  /** The answer lets the pass go on: an order, or none where none was ever confirmed. */
  predicate GoesOn(row: Intent, answer: Query) {
    answer.Found? || (answer == Absent && row.state in {Prepared, Unknown})
  }

  /** None of the rows before the i-th ends the pass. */
  predicate Reaches(rows: seq<Intent>, symbol: string, ask: ClientId -> Query, pass: Pass, i: nat)
    requires i <= |rows|
  {
    forall k | 0 <= k < i && AskedAbout(rows[k], symbol, pass) :: GoesOn(rows[k], ask(rows[k].clientId))
  }

  lemma AskedIsPending(row: Intent, symbol: string, pass: Pass)
    ensures AskedAbout(row, symbol, pass) <==> Pending(row, symbol, pass)
    ensures forall answer :: GoesOn(row, answer) <==> !Stops(row, answer)
  {
  }

  lemma {:induction false} ReachesExactly(rows: seq<Intent>, symbol: string, ask: ClientId -> Query, pass: Pass, i: nat)
    requires i <= |rows|
    ensures Reaches(rows, symbol, ask, pass, i) <==> i <= StopAt(rows, symbol, ask, pass)
  {
    var n := StopAt(rows, symbol, ask, pass);
    forall k | 0 <= k < |rows|
      ensures AskedAbout(rows[k], symbol, pass) <==> Pending(rows[k], symbol, pass)
      ensures GoesOn(rows[k], ask(rows[k].clientId)) <==> !Stops(rows[k], ask(rows[k].clientId))
    {
      AskedIsPending(rows[k], symbol, pass);
    }
  }

  /** One row through a pass. It changes exactly if it is asked about and the pass reaches it: an order found
      leaves the row as the exchange reports it, a failed query leaves it unknown, an order that is absent and
      was never confirmed has failed at startup, and any other answer changes nothing. */
  lemma RowExactly(t: Tables, symbol: string, ask: ClientId -> Query, pass: Pass, i: nat)
    requires i < |t.rows|
    ensures var u, row, answer := Reconciled(t, symbol, ask, pass), t.rows[i], ask(t.rows[i].clientId);
            && |u.rows| == |t.rows| && u == t.(rows := u.rows)
            && if !AskedAbout(row, symbol, pass) || !Reaches(t.rows, symbol, ask, pass, i) then u.rows[i] == row
               else match answer
                 case Found(o) => Reports(row, u.rows[i], o)
                 case Unavailable => u.rows[i] == row.(state := Unknown)
                 case Absent =>
                   u.rows[i] == if pass == Startup
                       && row.state in {Prepared, Unknown} then row.(state := Failed) else row
                 case Mismatched => u.rows[i] == row
  {
    ReachesExactly(t.rows, symbol, ask, pass, i);
    AskedIsPending(t.rows[i], symbol, pass);
  }

  /** The exchange has the order live or filled, or ended with something executed. */
  predicate WorkedOn(o: OrderReply) {
    o.status in {New, PartiallyFilled, Filled}
    || (o.status in {Canceled, Expired, ExpiredInMatch, Rejected} && o.executed > 0.0)
  }

  /** A worker resumes with exactly the BUYs it asked about that the exchange still works on or has filled
      something of. */
  lemma {:induction false} ResumedIdsExactly(rows: seq<Intent>, symbol: string, ask: ClientId -> Query, id: int)
    ensures id in Resumed(rows, symbol, ask, |rows|)
            <==> exists i | 0 <= i < |rows| ::
                   && AskedAbout(rows[i], symbol, ResumeBuys) && ask(rows[i].clientId).Found?
                   && WorkedOn(ask(rows[i].clientId).order) && ask(rows[i].clientId).order.orderId == id
  {
    ResumedExactly(rows, symbol, ask, |rows|, id);
    forall i | 0 <= i < |rows|
      ensures Resumes(rows[i], symbol, ask(rows[i].clientId))
              <==> && AskedAbout(rows[i], symbol, ResumeBuys) && ask(rows[i].clientId).Found?
                   && WorkedOn(ask(rows[i].clientId).order)
    {
      AskedIsPending(rows[i], symbol, ResumeBuys);
    }
  }
}
