/** What the transport guarantees: how often a request can go out, what a certain answer to a mutation means,
    and that a rate limit is respected by every later request of the client. */
module RequestSafety {
  import opened Results
  import opened SignedRequest

  // The transmissions of a request itself, without server-time requests.
  function Own(wire: seq<Sent>): seq<Sent> {
    if wire == [] then []
    else Own(wire[..|wire| - 1]) + if wire[|wire| - 1].kind == Clock then [] else [wire[|wire| - 1]]
  }

  function Since(c: Client, d: Client): seq<Sent> {
    if |c.wire| <= |d.wire| then d.wire[|c.wire|..] else []
  }

  lemma {:induction false} OwnConcat(a: seq<Sent>, b: seq<Sent>)
    ensures Own(a + b) == Own(a) + Own(b)
  {
    if b == [] {
      assert a + b == a;
    } else {
      assert (a + b)[..|a + b| - 1] == a + b[..|b| - 1];
      OwnConcat(a, b[..|b| - 1]);
    }
  }

  // ---------- how often ----------

  function MostSends(allowed: int, k: nat, resynced: bool): int {
    if !resynced then allowed - k + 1 else if allowed - k >= 1 then allowed - k else 1
  }

  lemma Extended(c: Client, a: Client, b: Client)
    requires c.wire <= a.wire <= b.wire
    ensures Since(c, b) == Since(c, a) + Since(a, b) && |Own(Since(c, b))| == |Own(Since(c, a))| + |Own(Since(a, b))|
  {
    assert Since(c, b) == Since(c, a) + Since(a, b);
    OwnConcat(Since(c, a), Since(a, b));
  }

  lemma OneSent(c: Client, d: Client, s: Sent)
    requires d.wire == c.wire + [s] && s.kind != Clock
    ensures Since(c, d) == [s] && Own(Since(c, d)) == [s]
  {
    assert [s][..0] == [];
    assert Own([]) == [];
  }

  lemma SentThenClock(c: Client, d: Client, s: Sent, t: Sent)
    requires d.wire == c.wire + [s] + [t] && s.kind != Clock && t.kind == Clock
    ensures Since(c, d) == [s, t] && Own(Since(c, d)) == [s]
  {
    assert [s, t][..1] == [s];
    assert [s][..0] == [];
    assert Own([]) == [] && Own([s]) == [s];
  }

  // One attempt sends nothing when the client is cooling down, otherwise the request, and perhaps asks the time.
  lemma AttemptSends(c: Client, kind: Kind, allowed: int, m: Moment, n: nat, resynced: bool)
    requires kind != Clock
    ensures var d := Attempt(c, kind, allowed, m, n, resynced).client;
            var own, clock := Sent(kind, m.sent, m.reply, m.answered),
                Sent(Clock, m.clockSent, ClockReply(m.clock), m.clockSent);
            || (d == c && Own(Since(c, d)) == [] && c.wire <= d.wire)
            || (d.wire == c.wire + [own] && Since(c, d) == [own] && Own(Since(c, d)) == [own])
            || (d.wire == c.wire + [own] + [clock] && Since(c, d) == [own, clock] && Own(Since(c, d)) == [own]
                && Judge(kind, allowed, n, resynced, m.reply) == Resync)
  {
    var d := Attempt(c, kind, allowed, m, n, resynced).client;
    var own := Sent(kind, m.sent, m.reply, m.answered);
    if d == c {
      assert Since(c, c) == [] && Own([]) == [];
    } else if |d.wire| == |c.wire| + 1 {
      OneSent(c, d, own);
    } else {
      SentThenClock(c, d, own, d.wire[|d.wire| - 1]);
    }
  }

  lemma AttemptCount(c: Client, kind: Kind, allowed: int, m: Moment, n: nat, resynced: bool)
    requires kind != Clock
    ensures var d := Attempt(c, kind, allowed, m, n, resynced).client; c.wire <= d.wire && |Own(Since(c, d))| <= 1
  {
    AttemptSends(c, kind, allowed, m, n, resynced);
  }

  lemma {:induction false} AttemptsBounded(c: Client, kind: Kind, allowed: int, env: Environment, k: nat,
                                           resynced: bool)
    requires kind != Clock && if resynced then k <= allowed else k < allowed
    ensures var d := Attempts(c, kind, allowed, env, k, resynced).0;
            c.wire <= d.wire && |Own(Since(c, d))| <= MostSends(allowed, k, resynced)
    decreases if resynced then 0 else 1, if k <= allowed then allowed - k else 0
  {
    var step := Attempt(c, kind, allowed, env(k), k + 1, resynced);
    AttemptCount(c, kind, allowed, env(k), k + 1, resynced);
    if step.Go? {
      AttemptsBounded(step.client, kind, allowed, env, k + 1, step.resynced);
      Extended(c, step.client, Attempts(c, kind, allowed, env, k, resynced).0);
    }
  }

  /** A request goes out at most once more than the tries it is allowed, the extra one being the repetition
      after a clock correction: a mutation at most twice, a default read at most four times. In dry mode
      nothing that changes the exchange goes out at all. */
  lemma SendsBounded(c: Client, kind: Kind, live: bool, keys: bool, maxTries: Option<int>, env: Environment)
    requires kind != Clock
    ensures var d := Signed(c, kind, live, keys, maxTries, env).0;
            && c.wire <= d.wire && |Own(Since(c, d))| <= Allowed(kind, maxTries) + 1
            && (kind == Mutation && !live ==> d == c)
  {
    assert Since(c, c) == [];
    AttemptsBounded(c, kind, Allowed(kind, maxTries), env, 0, false);
  }

  // ---------- what a mutation's answer means ----------

  // Lost, or answered by a server error: the exchange may or may not have acted on the request.
  predicate Doubtful(s: Sent) {
    s.kind != Clock && (s.reply.Lost? || 500 <= s.reply.status < 600)
  }

  predicate ClockFailed(s: Sent) {
    s.kind == Clock && !(s.reply.Answer? && s.reply.status == 200)
  }

  // Refused server times are those that are not a valid 200 answer.
  ghost predicate Sensible(env: Environment) {
    forall k: nat :: env(k).clock.ClockRefused? ==> !(env(k).clock.reply.Answer? && env(k).clock.reply.status == 200)
  }

  lemma MutationAttempt(c: Client, m: Moment, n: nat, resynced: bool)
    ensures var step := Attempt(c, Mutation, 1, m, n + 1, resynced);
            var own, clock := Sent(Mutation, m.sent, m.reply, m.answered),
                Sent(Clock, m.clockSent, ClockReply(m.clock), m.clockSent);
            if step.Go? then
              !resynced && step.resynced && Stale(m.reply) && m.clock.ServerTime?
                  && step.client.wire == c.wire + [own] + [clock]
            else if step.client.wire == c.wire then step.outcome == CoolingDown
            else if step.client.wire == c.wire + [own] then step.outcome == Unreachable <==> Doubtful(own)
            else
              && step.client.wire == c.wire + [own] + [clock] && step.outcome == Unreachable
              && Stale(m.reply) && !resynced && m.clock.ClockRefused?
  {
  }

  lemma {:induction false} TwoAttempts(c: Client, env: Environment)
    ensures Attempts(c, Mutation, 1, env, 0, false)
            == match Attempt(c, Mutation, 1, env(0), 1, false)
               case Stop(d, outcome) => (d, outcome)
               case Go(d, _) => var last := Attempt(d, Mutation, 1, env(1), 2, true);
                                (last.client, if last.Stop? then last.outcome else Rejected)
  {
    var first := Attempt(c, Mutation, 1, env(0), 1, false);
    MutationAttempt(c, env(0), 0, false);
    if first.Go? {
      MutationAttempt(first.client, env(1), 1, true);
    }
  }

  /** A mutation is repeated only right after the exchange rejected it for a stale clock and the server time
      was obtained. It is reported as in doubt exactly when its last request is, or when asking the time
      failed; any other report is certain. */
  lemma MutationsAreNotReplayed(c: Client, live: bool, keys: bool, maxTries: Option<int>, env: Environment)
    requires Sensible(env)
    ensures var (d, outcome) := Signed(c, Mutation, live, keys, maxTries, env);
            var sent := Since(c, d);
            && |sent| <= 3
            && (|sent| >= 1 ==> sent[0].kind == Mutation)
            && (|sent| >= 2 ==> Stale(sent[0].reply) && sent[1].kind == Clock)
            && (|sent| == 3 ==> !ClockFailed(sent[1]) && sent[2].kind == Mutation)
            && (outcome == Unreachable <==> sent != [] && (Doubtful(sent[|sent| - 1]) || ClockFailed(sent[|sent| - 1])))
  {
    if live && keys {
      TwoAttempts(c, env);
      MutationAttempt(c, env(0), 0, false);
      var first := Attempt(c, Mutation, 1, env(0), 1, false);
      if first.Go? {
        MutationAttempt(first.client, env(1), 1, true);
      }
    }
  }

  // ---------- rate limits over a whole session ----------

  datatype Call =
    | SignedCall(kind: Kind, live: bool, keys: bool, maxTries: Option<int>, env: Environment)
    | PlainCall(tries: int, env: Environment)

  function Do(c: Client, call: Call): (Client, Outcome) {
    match call
    case SignedCall(kind, live, keys, maxTries, env) => Signed(c, kind, live, keys, maxTries, env)
    case PlainCall(tries, env) => Plain(c, tries, env, 0)
  }

  predicate Limited(s: Sent) { s.kind != Clock && Limits(s.reply) }

  function Deadline(s: Sent): real
    requires Limited(s)
  {
    s.answered + Silence(s.reply) as real
  }

  function Latest(c: Client, start: real): real {
    if c.wire == [] then start else c.wire[|c.wire| - 1].answered
  }

  // Time does not run backwards.
  predicate Forward(m: Moment) { m.checked <= m.sent <= m.answered <= m.clockSent }

  ghost predicate Clocked(env: Environment, start: real) {
    && start <= env(0).checked && forall k: nat :: Forward(env(k)) && env(k).clockSent <= env(k + 1).checked
  }

  /** Nothing goes out before the deadline of an earlier rate limit. */
  ghost predicate Honoured(wire: seq<Sent>) {
    forall a, b | 0 <= a < b < |wire| && Limited(wire[a]) :: Deadline(wire[a]) <= wire[b].at
  }

  ghost predicate Guarded(c: Client, start: real) {
    && Honoured(c.wire)
    && forall a | 0 <= a < |c.wire| && Limited(c.wire[a]) ::
         (c.limited && Deadline(c.wire[a]) <= c.until) || Deadline(c.wire[a]) <= Latest(c, start)
  }

  lemma SendGuarded(c: Client, start: real, s: Sent, d: Client, now: real)
    requires Guarded(c, start) && Latest(c, start) <= now <= s.at <= s.answered && Checked(c, now).1
    requires d.wire == c.wire + [s]
    requires Limited(s) ==> d.limited && d.until == Deadline(s)
    ensures Guarded(d, start)
  {
    forall a | 0 <= a < |c.wire| && Limited(c.wire[a]) ensures Deadline(c.wire[a]) <= now {
    }
    forall a, b | 0 <= a < b < |d.wire| && Limited(d.wire[a]) ensures Deadline(d.wire[a]) <= d.wire[b].at {
      assert d.wire[a] == c.wire[a];
    }
  }

  lemma ClockGuarded(c: Client, start: real, s: Sent, d: Client)
    requires Guarded(c, start) && c.wire != [] && !Limited(c.wire[|c.wire| - 1])
             && Latest(c, start) <= s.at <= s.answered
    requires forall a | 0 <= a < |c.wire| && Limited(c.wire[a]) :: Deadline(c.wire[a]) <= Latest(c, start)
    requires d.wire == c.wire + [s] && s.kind == Clock
    ensures Guarded(d, start)
  {
    forall a, b | 0 <= a < b < |d.wire| && Limited(d.wire[a]) ensures Deadline(d.wire[a]) <= d.wire[b].at {
      assert d.wire[a] == c.wire[a];
    }
  }

  lemma AttemptGuarded(c: Client, start: real, kind: Kind, allowed: int, m: Moment, n: nat, resynced: bool)
    requires kind != Clock && Guarded(c, start) && Latest(c, start) <= m.checked && Forward(m)
    ensures var d := Attempt(c, kind, allowed, m, n, resynced).client;
            Guarded(d, start) && Latest(d, start) <= m.clockSent
  {
    var (ready, passed) := Checked(c, m.checked);
    if passed {
      var own := Sent(kind, m.sent, m.reply, m.answered);
      var sent := Transmit(ready, kind, m.sent, m.reply, m.answered);
      var d := Attempt(c, kind, allowed, m, n, resynced).client;
      if Limits(m.reply) {
        SendGuarded(c, start, own, d, m.checked);
      } else {
        SendGuarded(c, start, own, sent, m.checked);
        if Judge(kind, allowed, n, resynced, m.reply) == Resync {
          ClockGuarded(sent, start, d.wire[|d.wire| - 1], d);
        }
      }
    }
  }

  lemma {:induction false} AttemptsGuarded(c: Client, start: real, kind: Kind, allowed: int, env: Environment, k: nat,
                                           resynced: bool)
    requires kind != Clock && Guarded(c, start) && Clocked(env, start) && Latest(c, start) <= env(k).checked
    ensures Guarded(Attempts(c, kind, allowed, env, k, resynced).0, start)
    decreases if resynced then 0 else 1, if k <= allowed then allowed - k else 0
  {
    var step := Attempt(c, kind, allowed, env(k), k + 1, resynced);
    AttemptGuarded(c, start, kind, allowed, env(k), k + 1, resynced);
    if step.Go? {
      AttemptsGuarded(step.client, start, kind, allowed, env, k + 1, step.resynced);
    }
  }

  lemma PlainAttemptGuarded(c: Client, start: real, maxTries: int, m: Moment, n: nat)
    requires Guarded(c, start) && Latest(c, start) <= m.checked && Forward(m)
    ensures var d := PlainAttempt(c, maxTries, m, n).client;
            Guarded(d, start) && Latest(d, start) <= m.clockSent
  {
    if Checked(c, m.checked).1 {
      SendGuarded(c, start, Sent(Read, m.sent, m.reply, m.answered), PlainAttempt(c, maxTries, m, n).client, m.checked);
    }
  }

  lemma {:induction false} PlainGuarded(c: Client, start: real, maxTries: int, env: Environment, k: nat)
    requires Guarded(c, start) && Clocked(env, start) && Latest(c, start) <= env(k).checked
    ensures Guarded(Plain(c, maxTries, env, k).0, start)
    decreases if k <= maxTries then maxTries - k else 0
  {
    PlainAttemptGuarded(c, start, maxTries, env(k), k + 1);
    var step := PlainAttempt(c, maxTries, env(k), k + 1);
    if step.Go? {
      PlainGuarded(step.client, start, maxTries, env, k + 1);
    }
  }

  function Session(c: Client, calls: seq<Call>): Client
    decreases |calls|
  {
    if calls == [] then c else Session(Do(c, calls[0]).0, calls[1..])
  }

  // One call after another: none begins before the last answer of those before it.
  ghost predicate Sequential(c: Client, start: real, calls: seq<Call>)
    decreases |calls|
  {
    calls == []
    || (&& Clocked(calls[0].env, start) && Latest(c, start) <= calls[0].env(0).checked
        && (calls[0].SignedCall? ==> calls[0].kind != Clock)
        && Sequential(Do(c, calls[0]).0, start, calls[1..]))
  }

  lemma {:induction false} SessionGuarded(c: Client, start: real, calls: seq<Call>)
    requires Guarded(c, start) && Sequential(c, start, calls)
    ensures Guarded(Session(c, calls), start)
    decreases |calls|
  {
    if calls != [] {
      match calls[0] {
        case SignedCall(kind, live, keys, maxTries, env) =>
          AttemptsGuarded(c, start, kind, Allowed(kind, maxTries), env, 0, false);
        case PlainCall(tries, env) => PlainGuarded(c, start, tries, env, 0);
      }
      SessionGuarded(Do(c, calls[0]).0, start, calls[1..]);
    }
  }

  /** Over any sequence of calls from a fresh client, once a request was answered 418 or 429 nothing at all
      goes out, neither its own retry nor a later call, before the silence it asked for is over. */
  lemma {:induction false} RateLimitsAreHonoured(start: real, calls: seq<Call>, a: nat, b: nat)
    requires Sequential(FRESH, start, calls)
    requires var wire := Session(FRESH, calls).wire; a < b < |wire| && Limited(wire[a])
    ensures var wire := Session(FRESH, calls).wire; Deadline(wire[a]) <= wire[b].at
  {
    SessionGuarded(FRESH, start, calls);
  }

  // ---------- which rate limits count ----------

  const FRESH := Client(0.0, false, 0, [])

  // Silent because of the very last answer, and only then.
  predicate CoolsExactly(c: Client) {
    if c.wire == [] then c == FRESH else c.limited <==> Limited(c.wire[|c.wire| - 1])
  }

  lemma {:induction false} AttemptsCool(c: Client, kind: Kind, allowed: int, env: Environment, k: nat, resynced: bool)
    requires kind != Clock && CoolsExactly(c)
    ensures CoolsExactly(Attempts(c, kind, allowed, env, k, resynced).0)
    decreases if resynced then 0 else 1, if k <= allowed then allowed - k else 0
  {
    var step := Attempt(c, kind, allowed, env(k), k + 1, resynced);
    assert CoolsExactly(step.client);
    if step.Go? {
      AttemptsCool(step.client, kind, allowed, env, k + 1, step.resynced);
    }
  }

  lemma {:induction false} PlainCools(c: Client, maxTries: int, env: Environment, k: nat)
    requires CoolsExactly(c)
    ensures CoolsExactly(Plain(c, maxTries, env, k).0)
    decreases if k <= maxTries then maxTries - k else 0
  {
    var step := PlainAttempt(c, maxTries, env(k), k + 1);
    assert CoolsExactly(step.client);
    if step.Go? {
      PlainCools(step.client, maxTries, env, k + 1);
    }
  }

  /** Between calls the client is cooling down exactly when the last thing it received was a rate limit
      answering one of its own requests. */
  lemma {:induction false} CoolsOnlyForOwnRequests(c: Client, calls: seq<Call>)
    requires CoolsExactly(c) && forall i | 0 <= i < |calls| && calls[i].SignedCall? :: calls[i].kind != Clock
    ensures CoolsExactly(Session(c, calls))
    decreases |calls|
  {
    if calls != [] {
      match calls[0] {
        case SignedCall(kind, live, keys, maxTries, env) =>
            AttemptsCool(c, kind, Allowed(kind, maxTries), env, 0, false);
        case PlainCall(tries, env) => PlainCools(c, tries, env, 0);
      }
      assert forall i | 0 <= i < |calls[1..]| :: calls[1..][i] == calls[i + 1];
      CoolsOnlyForOwnRequests(Do(c, calls[0]).0, calls[1..]);
    }
  }

  // A read is rejected for a stale clock, and the server-time request is told to stay away for an hour.
  const STALE := Moment(0.0, 0.0, Answer(400, Some(STALE_CLOCK), NoHeader), 0.0, 0.0,
                        ClockRefused(Answer(429, None, Seconds(3600.0))))
  const NEXT := Moment(1.0, 1.0, Answer(200, None, NoHeader), 1.0, 1.0, ClockRefused(Lost))

  /** A rate limit answering the server-time request is not respected: the next call goes out a second later. */
  lemma ClockLimitIsIgnored()
    ensures var calls := [SignedCall(Read, true, true, None, _ => STALE),
                          SignedCall(Read, true, true, None, _ => NEXT)];
            var wire := Session(FRESH, calls).wire;
            && |wire| == 3 && wire[1].kind == Clock && Limits(wire[1].reply) && Silence(wire[1].reply) == 3600
            && wire[2].kind == Read && wire[2].at < wire[1].answered + 3600.0
  {
    var stale, next: Environment := _ => STALE, _ => NEXT;
    var a, b := SignedCall(Read, true, true, None, stale), SignedCall(Read, true, true, None, next);
    var c := Do(FRESH, a).0;
    assert c.wire == [Sent(Read, 0.0, STALE.reply, 0.0), Sent(Clock, 0.0, STALE.clock.reply, 0.0)];
    assert Do(c, b).0.wire == c.wire + [Sent(Read, 1.0, NEXT.reply, 1.0)];
    assert [a, b][1..] == [b] && [b][1..] == [];
    assert Session(FRESH, [a, b]) == Session(c, [b]) == Session(Do(c, b).0, []);
  }
}
