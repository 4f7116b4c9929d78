/** What no transaction of the journal can undo: intents keep their identity, leg identities, partial
    exits and closures stay exactly as first written. */
module JournalHistory {
  import opened Results
  import opened OrderJournal

  predicate SameIdentity(a: Intent, b: Intent) {
    && a.clientId == b.clientId && a.symbol == b.symbol && a.side == b.side && a.purpose == b.purpose
    && a.kind == b.kind
    && a.quantity == b.quantity && a.price == b.price && a.parent == b.parent && a.tag == b.tag
  }

  predicate SameIntents(a: seq<Intent>, b: seq<Intent>) {
    |a| == |b| && forall i | 0 <= i < |a| :: SameIdentity(a[i], b[i])
  }

  ghost predicate Within<K, V>(a: map<K, V>, b: map<K, V>) {
    forall k | k in a :: k in b && b[k] == a[k]
  }

  /** `b` is a later state of the same tables. */
  ghost predicate Later(a: Tables, b: Tables) {
    SameIntents(a.rows, b.rows) && Within(a.legs, b.legs) && Within(a.closures, b.closures) && a.exits <= b.exits
  }

  predicate UniqueIds(rows: seq<Intent>) {
    forall i, j | 0 <= i < j < |rows| :: rows[i].clientId != rows[j].clientId
  }

  lemma {:induction false} FindUnique(rows: seq<Intent>, i: nat, n: nat)
    requires UniqueIds(rows) && i < n <= |rows|
    ensures FindBelow(rows, rows[i].clientId, n) == Some(i)
  {
    if n - 1 > i {
      FindUnique(rows, i, n - 1);
    }
  }

  lemma {:induction false} FindStable(a: seq<Intent>, b: seq<Intent>, id: ClientId, n: nat)
    requires SameIntents(a, b) && n <= |a|
    ensures FindBelow(a, id, n) == FindBelow(b, id, n)
  {
    if n > 0 {
      assert SameIdentity(a[n - 1], b[n - 1]);
      FindStable(a, b, id, n - 1);
    }
  }

  lemma {:induction false} ProtectionStable(a: seq<Intent>, b: seq<Intent>, parent: ClientId, n: nat)
    requires SameIntents(a, b) && n <= |a|
    ensures LatestBelow(a, parent, n) == LatestBelow(b, parent, n)
  {
    if n > 0 {
      assert SameIdentity(a[n - 1], b[n - 1]);
      ProtectionStable(a, b, parent, n - 1);
    }
  }

  lemma LaterTransitive(a: Tables, b: Tables, c: Tables)
    requires Later(a, b) && Later(b, c)
    ensures Later(a, c)
  {
    forall i | 0 <= i < |a.rows| ensures SameIdentity(a.rows[i], c.rows[i]) {
      assert SameIdentity(a.rows[i], b.rows[i]) && SameIdentity(b.rows[i], c.rows[i]);
    }
  }

  lemma RowRewritten(t: Tables, i: nat, intent: Intent)
    requires i < |t.rows| && SameIdentity(t.rows[i], intent)
    ensures Later(t, WithRow(t, i, intent))
  {
  }

  lemma StateChanges(t: Tables, id: ClientId, state: IntentState)
    requires SetState(t, id, state).Some?
    ensures Later(t, SetState(t, id, state).value)
    ensures SetState(t, id, state).value == t.(rows := SetState(t, id, state).value.rows)
  {
  }

  lemma {:induction false} LegsGrow(known: map<OrderKey, Leg>, protection: Intent, refs: seq<LegRef>)
    requires StoreLegs(known, protection, refs).Some?
    ensures Within(known, StoreLegs(known, protection, refs).value)
    ensures forall i | 0 <= i < |refs| ::
              var key := (protection.symbol, refs[i].orderId);
              key in StoreLegs(known, protection, refs).value
              && StoreLegs(known, protection, refs).value[key]
                  == Leg(protection.clientId, refs[i].clientId, refs[i].kind)
    decreases |refs|
  {
    if refs != [] {
      var key, leg := (protection.symbol, refs[0].orderId), Leg(protection.clientId, refs[0].clientId, refs[0].kind);
      LegsGrow(known[key := leg], protection, refs[1..]);
      forall i | 0 <= i < |refs|
        ensures var k := (protection.symbol, refs[i].orderId);
                k in StoreLegs(known, protection, refs).value
                && StoreLegs(known, protection, refs).value[k]
                    == Leg(protection.clientId, refs[i].clientId, refs[i].kind)
      {
        if i > 0 {
          assert refs[1..][i - 1] == refs[i];
        } else {
          assert key in known[key := leg];
        }
      }
    }
  }

  lemma VerifiedLegsKeep(t: Tables, id: ClientId, legs: seq<OrderReply>)
    requires RecordVerifiedLegs(t, id, legs).Some?
    ensures Later(t, RecordVerifiedLegs(t, id, legs).value)
    ensures var u := RecordVerifiedLegs(t, id, legs).value; u.exits == t.exits && u.closures == t.closures
  {
    var i := Find(t.rows, id).value;
    LegsGrow(t.legs, t.rows[i], Refs(legs));
  }

  lemma VerifiedProtectedKeeps(t: Tables, parent: ClientId, id: ClientId, legs: seq<OrderReply>, listId: int)
    requires MarkVerifiedProtected(t, parent, id, legs, listId).Some?
    ensures Later(t, MarkVerifiedProtected(t, parent, id, legs, listId).value)
    ensures var u := MarkVerifiedProtected(t, parent, id, legs, listId).value;
            u.exits == t.exits && u.closures == t.closures
  {
    var i := Find(t.rows, id).value;
    VerifiedLegsKeep(t, id, legs);
    var u := RecordVerifiedLegs(t, id, legs).value;
    var v := WithRow(u, i, u.rows[i].(state := Protected, listId := Some(listId)));
    RowRewritten(u, i, u.rows[i].(state := Protected, listId := Some(listId)));
    StateChanges(v, parent, Protected);
    LaterTransitive(t, u, v);
    LaterTransitive(t, v, SetState(v, parent, Protected).value);
  }

  lemma ExactCloseKeeps(t: Tables, id: ClientId, orderId: int, reason: ExitReason, exit: OrderReply)
    requires MarkExactClosed(t, id, orderId, reason, exit).Some?
    ensures Later(t, MarkExactClosed(t, id, orderId, reason, exit).value)
    ensures MarkExactClosed(t, id, orderId, reason, exit).value.exits == t.exits
  {
  }

  lemma PartialExitKeeps(t: Tables, id: ClientId, orderId: int, reason: ExitReason, quantity: real, status: Status)
    requires RecordPartialExit(t, id, orderId, reason, quantity, status).Some?
    ensures Later(t, RecordPartialExit(t, id, orderId, reason, quantity, status).value)
    ensures RecordPartialExit(t, id, orderId, reason, quantity, status).value.closures == t.closures
  {
    var parent := t.rows[Find(t.rows, id).value].parent.value;
    StateChanges(t, id, Failed);
    var u := SetState(t, id, Failed).value;
    StateChanges(u, parent, ProtectionPending);
    LaterTransitive(t, u, SetState(u, parent, ProtectionPending).value);
  }

  lemma UniqueKept(a: seq<Intent>, b: seq<Intent>)
    requires SameIntents(a, b) && UniqueIds(a)
    ensures UniqueIds(b)
  {
    forall i, j | 0 <= i < j < |b| ensures b[i].clientId != b[j].clientId {
      assert SameIdentity(a[i], b[i]) && SameIdentity(a[j], b[j]);
    }
  }

  lemma StateSet(t: Tables, i: nat, state: IntentState)
    requires UniqueIds(t.rows) && i < |t.rows|
    ensures SetState(t, t.rows[i].clientId, state) == Some(t.(rows := t.rows[i := t.rows[i].(state := state)]))
  {
    FindUnique(t.rows, i, |t.rows|);
  }

  lemma OrderNoted(t: Tables, i: nat, reply: OrderReply)
    requires UniqueIds(t.rows) && i < |t.rows|
    ensures RecordOrder(t, t.rows[i].clientId, reply)
            == Some(t.(rows := t.rows[i := t.rows[i].(state := StateFor(reply), orderId := Some(reply.orderId),
                                                      executed := reply.executed, quote := reply.quote)]))
  {
    FindUnique(t.rows, i, |t.rows|);
  }
}
