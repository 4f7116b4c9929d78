/** What a request is reported as, by the last thing that went over the wire; what is tried again, and how
    often; how long a client is silent, and how it corrects its clock. */
module RequestOutcomes {
  import opened Results
  import opened SignedRequest
  import opened RequestSafety

  // ---------- kinds of answers ----------

  predicate TooMany(code: Option<int>) { code.Some? && code.value in {1003, -1003, -1015} }

  predicate RateLimiting(r: Reply) { r.Answer? && (r.status == 418 || r.status == 429) }

  predicate ServerError(r: Reply) { r.Answer? && 500 <= r.status <= 599 }

  /** The clock of the request was rejected. */
  predicate ClockRejected(r: Reply) { r.Answer? && r.code == Some(-1021) && !RateLimiting(r) }

  /** Nothing was heard, or the exchange failed or was too busy: a read may be tried again. */
  predicate Temporary(r: Reply) { r.Lost? || (!RateLimiting(r) && (ServerError(r) || TooMany(r.code))) }

  /** The request was carried out: no error status, and no error code in the body. */
  predicate Accepted(r: Reply) {
    r.Answer? && r.status < 400 && r.code != Some(-1021) && !TooMany(r.code)
  }

  /** What the last transmission of a signed request means. */
  function Meaning(s: Sent): Outcome {
    if s.kind == Clock then Unreachable
    else if RateLimiting(s.reply) then RateLimited
    else if Accepted(s.reply) then Delivered
    else if s.reply.Lost? || (s.kind == Mutation && ServerError(s.reply)) then Unreachable
    else Rejected
  }

  // ---------- how often, how long, how late ----------

  /** A mutation is tried once; a read as often as asked for, at least once, and three times if nothing is said. */
  lemma TriesAllowed(kind: Kind, maxTries: Option<int>)
    ensures kind == Mutation ==> Allowed(kind, maxTries) == 1
    ensures kind != Mutation && maxTries == None ==> Allowed(kind, maxTries) == 3
    ensures kind != Mutation && maxTries.Some? && maxTries.value >= 1 ==> Allowed(kind, maxTries) == maxTries.value
    ensures kind != Mutation && maxTries.Some? && maxTries.value < 1 ==> Allowed(kind, maxTries) == 1
  {
  }

  /** The silence is the least whole number of seconds that is not less than what was asked for, from one second
      to three days; two minutes for a ban and one second for a limit if nothing readable was asked for. */
  lemma SilenceExactly(r: Reply)
    requires RateLimiting(r)
    ensures r.retryAfter.Seconds? && 1.0 <= r.retryAfter.value <= 259200.0
            ==> r.retryAfter.value <= Silence(r) as real < r.retryAfter.value + 1.0
    ensures r.retryAfter.Seconds? && r.retryAfter.value < 1.0 ==> Silence(r) == 1
    ensures r.retryAfter.Seconds? && r.retryAfter.value > 259200.0 ==> Silence(r) == 259200
    ensures !r.retryAfter.Seconds? ==> Silence(r) == if r.status == 418 then 120 else 1
  {
  }

  /** With the corrected offset the local time half way through the exchange, rounded down, reads as the server's. */
  lemma OffsetIsMidpoint(t: ClockAnswer)
    requires t.ServerTime?
    ensures t.finished >= t.started ==> 0 <= t.started + t.finished - 2 * (t.server - Offset(t)) <= 1
    ensures t.finished < t.started ==> t.started + Offset(t) == t.server
  {
  }

  // ---------- one attempt ----------

  predicate Cooling(c: Client, now: real) { c.limited && now < c.until }

  /** An attempt of a signed request that is not cooling down. */
  lemma AttemptExactly(c: Client, kind: Kind, allowed: int, m: Moment, n: nat, resynced: bool)
    requires kind != Clock && !Cooling(c, m.checked) && (kind == Mutation ==> allowed <= n)
    ensures var step, own := Attempt(c, kind, allowed, m, n, resynced), Sent(kind, m.sent, m.reply, m.answered);
            if ClockRejected(m.reply) && !resynced then
              && step.client.wire == c.wire + [own] + [Sent(Clock, m.clockSent, ClockReply(m.clock), m.clockSent)]
              && !step.client.limited
              && if m.clock.ServerTime? then step.Go? && step.resynced && step.client.offset == Offset(m.clock)
                 else step.Stop? && step.outcome == Unreachable && step.client.offset == c.offset
            else
              && step.client.wire == c.wire + [own] && step.client.offset == c.offset
              && if Temporary(m.reply) && kind == Read && n < allowed then
                   step.Go? && step.resynced == resynced && !step.client.limited
                 else
                   && step.Stop? && step.outcome == Meaning(own)
                   && (step.client.limited <==> RateLimiting(m.reply))
                   && (RateLimiting(m.reply) ==> step.client.until == m.answered + Silence(m.reply) as real)
  {
  }

  // ---------- the signed request ----------

  /** Everything that went out but the last was followed by something for a reason: a read that may be tried again, or a
      rejected clock, followed by asking the time. */
  predicate OnlyForReasons(sent: seq<Sent>) {
    forall k | 0 <= k < |sent| - 1 && sent[k].kind != Clock ::
      || (Temporary(sent[k].reply) && sent[k].kind == Read)
      || (ClockRejected(sent[k].reply) && sent[k + 1].kind == Clock)
  }

  /** What was sent since, how it is reported, and that a read was not given up with tries left. */
  predicate EndsWell(c: Client, d: Client, outcome: Outcome, kind: Kind, tries: int) {
    var sent := Since(c, d);
    && c.wire <= d.wire && sent != [] && OnlyForReasons(sent) && sent[0].kind == kind
    && var last := sent[|sent| - 1];
    && outcome == Meaning(last)
    && (last.kind == kind || last.kind == Clock)
    && (last.kind == Read && Temporary(last.reply) ==> |Own(sent)| >= tries)
    && (outcome == RateLimited ==> d.limited && d.until == last.answered + Silence(last.reply) as real)
    && (outcome != RateLimited ==> !d.limited)
  }

  lemma FirstSent(c: Client, d: Client, s: Sent)
    requires d.wire == c.wire + [s] && s.kind != Clock
    ensures Since(c, d) == [s] && Own(Since(c, d)) == [s]
  {
    OneSent(c, d, s);
  }

  lemma Followed(c: Client, e: Client, d: Client, outcome: Outcome, kind: Kind, tries: int)
    requires c.wire <= e.wire && EndsWell(e, d, outcome, kind, tries - 1) && |Own(Since(c, e))| == 1
    requires var sent := Since(c, e);
             || (|sent| == 1 && sent[0].kind == kind == Read && Temporary(sent[0].reply))
             || (|sent| == 2 && sent[0].kind == kind && sent[1].kind == Clock && ClockRejected(sent[0].reply))
    ensures EndsWell(c, d, outcome, kind, tries)
  {
    Extended(c, e, d);
    var before, after := Since(c, e), Since(e, d);
    var sent := before + after;
    forall k | 0 <= k < |sent| - 1 && sent[k].kind != Clock
      ensures || (Temporary(sent[k].reply) && sent[k].kind == Read)
              || (ClockRejected(sent[k].reply) && sent[k + 1].kind == Clock)
    {
      if k >= |before| {
        assert sent[k] == after[k - |before|] && sent[k + 1] == after[k - |before| + 1];
      } else {
        assert sent[k] == before[k];
      }
    }
  }

  // An attempt that ends the request.
  lemma StopEndsWell(c: Client, kind: Kind, allowed: int, m: Moment, n: nat, resynced: bool)
    requires kind != Clock && !Cooling(c, m.checked) && (kind == Mutation ==> allowed <= n)
    requires Attempt(c, kind, allowed, m, n, resynced).Stop?
    ensures var step := Attempt(c, kind, allowed, m, n, resynced);
            EndsWell(c, step.client, step.outcome, kind, allowed - n + 1)
  {
    var d := Attempt(c, kind, allowed, m, n, resynced).client;
    AttemptExactly(c, kind, allowed, m, n, resynced);
    var own := Sent(kind, m.sent, m.reply, m.answered);
    if ClockRejected(m.reply) && !resynced {
      SentThenClock(c, d, own, Sent(Clock, m.clockSent, ClockReply(m.clock), m.clockSent));
    } else {
      FirstSent(c, d, own);
    }
  }

  // An attempt that goes on.
  lemma GoingOn(c: Client, kind: Kind, allowed: int, m: Moment, n: nat, resynced: bool)
    requires kind != Clock && !Cooling(c, m.checked) && (kind == Mutation ==> allowed <= n)
    requires Attempt(c, kind, allowed, m, n, resynced).Go?
    ensures var e := Attempt(c, kind, allowed, m, n, resynced).client;
            var sent := Since(c, e);
            && !e.limited && c.wire <= e.wire && |Own(sent)| == 1
            && (|| (|sent| == 1 && sent[0].kind == kind == Read && Temporary(sent[0].reply))
                || (|sent| == 2 && sent[0].kind == kind && sent[1].kind == Clock && ClockRejected(sent[0].reply)))
  {
    var e := Attempt(c, kind, allowed, m, n, resynced).client;
    AttemptExactly(c, kind, allowed, m, n, resynced);
    var own := Sent(kind, m.sent, m.reply, m.answered);
    if ClockRejected(m.reply) && !resynced {
      SentThenClock(c, e, own, Sent(Clock, m.clockSent, ClockReply(m.clock), m.clockSent));
    } else {
      FirstSent(c, e, own);
    }
  }

  lemma {:induction false} AttemptsEndWell(c: Client, kind: Kind, allowed: int, env: Environment, k: nat,
                                           resynced: bool)
    requires kind != Clock && !Cooling(c, env(k).checked) && (kind == Mutation ==> allowed <= k + 1)
    ensures var (d, outcome) := Attempts(c, kind, allowed, env, k, resynced);
            EndsWell(c, d, outcome, kind, allowed - k)
    decreases if resynced then 0 else 1, if k <= allowed then allowed - k else 0
  {
    var step := Attempt(c, kind, allowed, env(k), k + 1, resynced);
    if step.Go? {
      GoingOn(c, kind, allowed, env(k), k + 1, resynced);
      AttemptsEndWell(step.client, kind, allowed, env, k + 1, step.resynced);
      var (d, outcome) := Attempts(step.client, kind, allowed, env, k + 1, step.resynced);
      Followed(c, step.client, d, outcome, kind, allowed - k);
    } else {
      StopEndsWell(c, kind, allowed, env(k), k + 1, resynced);
    }
  }

  /** A signed request. In dry mode a mutation is blocked, without keys nothing is signed, and while the client
      cools down nothing goes out: in these cases, and only then, nothing is sent and the client is as it was.
      Otherwise the outcome is what the last transmission means: delivered exactly for an answer without an
      error status and without an error code, rate limited for a 418 or 429, unreachable if nothing certain was
      heard, and rejected for any other answer. A read is not given up with tries left while it may be tried
      again. */
  lemma SignedExactly(c: Client, kind: Kind, live: bool, keys: bool, maxTries: Option<int>, env: Environment)
    requires kind != Clock
    ensures var (d, outcome) := Signed(c, kind, live, keys, maxTries, env);
            if kind == Mutation && !live then (d, outcome) == (c, DryBlocked)
            else if !keys then (d, outcome) == (c, NoCredentials)
            else if c.limited && env(0).checked < c.until then (d, outcome) == (c, CoolingDown)
            else EndsWell(c, d, outcome, kind, Allowed(kind, maxTries))
  {
    if !Cooling(c, env(0).checked) {
      AttemptsEndWell(c, kind, Allowed(kind, maxTries), env, 0, false);
    }
  }

  // ---------- the unsigned request ----------

  function PlainMeaning(r: Reply): Outcome {
    if r.Lost? then Unreachable
    else if RateLimiting(r) then RateLimited
    else if r.status < 400 && !TooMany(r.code) then Delivered
    else Rejected
  }

  /** Every transmission but the last was one that may be tried again, and the last was not given up with tries left. */
  predicate PlainEndsWell(c: Client, d: Client, outcome: Outcome, tries: int) {
    var sent := Since(c, d);
    && c.wire <= d.wire && sent != [] && (forall k | 0 <= k < |sent| - 1 :: Temporary(sent[k].reply))
    && outcome == PlainMeaning(sent[|sent| - 1].reply)
    && (Temporary(sent[|sent| - 1].reply) ==> |sent| >= tries) && (|sent| > 1 ==> |sent| <= tries)
    && (outcome == RateLimited ==>
          d.limited && d.until == sent[|sent| - 1].answered + Silence(sent[|sent| - 1].reply) as real)
    && (outcome != RateLimited ==> !d.limited)
  }

  lemma PlainAttemptExactly(c: Client, maxTries: int, m: Moment, n: nat)
    requires !Cooling(c, m.checked)
    ensures var step, own := PlainAttempt(c, maxTries, m, n), Sent(Read, m.sent, m.reply, m.answered);
            && step.client.wire == c.wire + [own]
            && if Temporary(m.reply) && n < maxTries then step.Go? && !step.client.limited
               else
                 && step.Stop? && step.outcome == PlainMeaning(m.reply)
                 && (step.client.limited <==> RateLimiting(m.reply))
                 && (RateLimiting(m.reply) ==> step.client.until == m.answered + Silence(m.reply) as real)
  {
  }

  lemma {:induction false} PlainExactly(c: Client, maxTries: int, env: Environment, k: nat)
    requires !Cooling(c, env(k).checked)
    ensures var (d, outcome) := Plain(c, maxTries, env, k);
            PlainEndsWell(c, d, outcome, maxTries - k)
    decreases if k <= maxTries then maxTries - k else 0
  {
    var step := PlainAttempt(c, maxTries, env(k), k + 1);
    PlainAttemptExactly(c, maxTries, env(k), k + 1);
    var e := step.client;
    FirstSent(c, e, Sent(Read, env(k).sent, env(k).reply, env(k).answered));
    if step.Go? {
      PlainExactly(e, maxTries, env, k + 1);
      var (d, outcome) := Plain(e, maxTries, env, k + 1);
      Extended(c, e, d);
      var sent := Since(c, e) + Since(e, d);
      forall i | 0 <= i < |sent| - 1 ensures Temporary(sent[i].reply) {
        assert i > 0 ==> sent[i] == Since(e, d)[i - 1];
      }
    }
  }

  /** While it cools down, an unsigned request sends nothing either. */
  lemma {:induction false} PlainCooling(c: Client, maxTries: int, env: Environment)
    requires c.limited && env(0).checked < c.until
    ensures Plain(c, maxTries, env, 0) == (c, CoolingDown)
  {
  }
}
