/** The exchange transport: one sequential client whose requests may be lost, refused, rate limited or
    rejected for a stale clock. `Signed` and `Plain` are the two request loops as functions of what happens
    at each attempt; the class does the same with fields and loops. */
module SignedRequest {
  import opened Results

  /** The Retry-After header, when it parses as a finite number of seconds. */
  datatype Header = NoHeader | Malformed | Seconds(value: real)

  datatype Reply = Lost | Answer(status: nat, code: Option<int>, retryAfter: Header)

  datatype ClockAnswer = ServerTime(started: int, server: int, finished: int) | ClockRefused(reply: Reply)

  /** Everything outside the client at one attempt: when the cooldown is checked, when the request goes out,
      what comes back and when, and what the server-time request would get. */
  datatype Moment = Moment(checked: real, sent: real, reply: Reply, answered: real, clockSent: real, clock: ClockAnswer)

  type Environment = nat -> Moment

  datatype Kind = Mutation | Read | Clock

  datatype Sent = Sent(kind: Kind, at: real, reply: Reply, answered: real)

  datatype Client = Client(until: real, limited: bool, offset: int, wire: seq<Sent>)

  datatype Outcome = Delivered | Rejected | RateLimited | CoolingDown | Unreachable | DryBlocked | NoCredentials

  const STALE_CLOCK := -1021
  const THREE_DAYS := 259200

  // ---------- classification of answers ----------

  predicate Throttled(code: Option<int>) { code == Some(1003) || code == Some(-1003) || code == Some(-1015) }

  predicate Retryable(status: nat, code: Option<int>) { 500 <= status < 600 || Throttled(code) }

  predicate Limits(r: Reply) { r.Answer? && (r.status == 418 || r.status == 429) }

  predicate Stale(r: Reply) { r.Answer? && r.code == Some(STALE_CLOCK) && !Limits(r) }

  function Ceiling(x: real): int { -((-x).Floor) }

  /** How long a rate limited client must stay silent. */
  function Silence(r: Reply): (seconds: int)
    requires Limits(r)
    ensures 1 <= seconds <= THREE_DAYS
  {
    var default := if r.status == 418 then 120 else 1;
    var asked := if r.retryAfter.Seconds? then Ceiling(r.retryAfter.value) else default;
    if asked < 1 then 1 else if asked > THREE_DAYS then THREE_DAYS else asked
  }

  function Allowed(kind: Kind, maxTries: Option<int>): (tries: int)
    ensures 1 <= tries && (kind == Mutation ==> tries == 1)
  {
    if kind == Mutation then 1
    else match maxTries
      case None => 3
      case Some(n) => if n < 1 then 1 else n
  }

  datatype Action = Return | Raise(outcome: Outcome) | Again | Resync | Limit

  /** What the signed loop does with an answer, at its n-th try. */
  function Judge(kind: Kind, allowed: int, n: nat, resynced: bool, r: Reply): Action {
    match r
    case Lost => if kind == Mutation || n >= allowed then Raise(Unreachable) else Again
    case Answer(status, code, _) =>
      if status >= 400 then
        if status == 418 || status == 429 then Limit
        else if code == Some(STALE_CLOCK) && !resynced then Resync
        else if kind == Mutation && 500 <= status < 600 then Raise(Unreachable)
        else if Retryable(status, code) && n < allowed then Again
        else Raise(Rejected)
      else if code == Some(STALE_CLOCK) then if resynced then Raise(Rejected) else Resync
      else if Throttled(code) then if n >= allowed then Raise(Rejected) else Again
      else Return
  }

  /** What the unsigned loop does. */
  function JudgePlain(maxTries: int, n: nat, r: Reply): Action {
    match r
    case Lost => if n >= maxTries then Raise(Unreachable) else Again
    case Answer(status, code, _) =>
      if status >= 400 && (status == 418 || status == 429) then Limit
      else if (status >= 400 && Retryable(status, code)) || (status < 400 && Throttled(code)) then
        if n >= maxTries then Raise(Rejected) else Again
      else if status >= 400 then Raise(Rejected)
      else Return
  }

  // ---------- the loops ----------

  /** The cooldown check: past the deadline it is forgotten. */
  function Checked(c: Client, now: real): (Client, bool) {
    if now >= c.until then (c.(until := 0.0, limited := false), true) else (c, !c.limited)
  }

  function Transmit(c: Client, kind: Kind, at: real, reply: Reply, answered: real): Client {
    c.(wire := c.wire + [Sent(kind, at, reply, answered)])
  }

  function CoolDown(c: Client, m: Moment): Client
    requires Limits(m.reply)
  {
    c.(until := m.answered + Silence(m.reply) as real, limited := true)
  }

  // Half of the way between sending and receiving, rounded down.
  function Offset(t: ClockAnswer): int
    requires t.ServerTime?
  {
    t.server - (t.started + (if t.finished > t.started then t.finished - t.started else 0) / 2)
  }

  function ClockReply(t: ClockAnswer): Reply {
    if t.ServerTime? then Answer(200, None, NoHeader) else t.reply
  }

  datatype Step = Stop(client: Client, outcome: Outcome) | Go(client: Client, resynced: bool)

  /** One attempt of the signed loop, the n-th. It goes on only with tries left or right after correcting
      the clock, which happens once. */
  function Attempt(c: Client, kind: Kind, allowed: int, m: Moment, n: nat, resynced: bool): (step: Step)
    ensures step.Go? ==> if step.resynced == resynced then n < allowed else step.resynced
  {
    var (ready, passed) := Checked(c, m.checked);
    if !passed then Stop(c, CoolingDown)
    else
      var sent := Transmit(ready, kind, m.sent, m.reply, m.answered);
      match Judge(kind, allowed, n, resynced, m.reply)
      case Return => Stop(sent, Delivered)
      case Raise(outcome) => Stop(sent, outcome)
      case Again => Go(sent, resynced)
      case Limit => Stop(CoolDown(sent, m), RateLimited)
      case Resync =>
        var asked := Transmit(sent, Clock, m.clockSent, ClockReply(m.clock), m.clockSent);
        if m.clock.ServerTime? then Go(asked.(offset := Offset(m.clock)), true) else Stop(asked, Unreachable)
  }

  /** The signed loop from its attempt number k on. */
  function Attempts(c: Client, kind: Kind, allowed: int, env: Environment, k: nat, resynced: bool): (Client, Outcome)
    decreases if resynced then 0 else 1, if k <= allowed then allowed - k else 0
  {
    match Attempt(c, kind, allowed, env(k), k + 1, resynced)
    case Stop(d, outcome) => (d, outcome)
    case Go(d, corrected) => Attempts(d, kind, allowed, env, k + 1, corrected)
  }

  function Signed(c: Client, kind: Kind, live: bool, keys: bool, maxTries: Option<int>,
                  env: Environment): (Client, Outcome)
  {
    if kind == Mutation && !live then (c, DryBlocked)
    else if !keys then (c, NoCredentials)
    else Attempts(c, kind, Allowed(kind, maxTries), env, 0, false)
  }

  function PlainAttempt(c: Client, maxTries: int, m: Moment, n: nat): (step: Step)
    ensures step.Go? ==> n < maxTries
  {
    var (ready, passed) := Checked(c, m.checked);
    if !passed then Stop(c, CoolingDown)
    else
      var sent := Transmit(ready, Read, m.sent, m.reply, m.answered);
      match JudgePlain(maxTries, n, m.reply)
      case Again => Go(sent, false)
      case Limit => Stop(CoolDown(sent, m), RateLimited)
      case Raise(outcome) => Stop(sent, outcome)
      case _ => Stop(sent, Delivered)
  }

  function Plain(c: Client, maxTries: int, env: Environment, k: nat): (Client, Outcome)
    decreases if k <= maxTries then maxTries - k else 0
  {
    match PlainAttempt(c, maxTries, env(k), k + 1)
    case Stop(d, outcome) => (d, outcome)
    case Go(d, _) => Plain(d, maxTries, env, k + 1)
  }

  // ---------- the loops as a program ----------

  class Transport {
    var until: real
    var limited: bool
    var offset: int
    var wire: seq<Sent>

    ghost function State(): Client
      reads this
    {
      Client(until, limited, offset, wire)
    }

    constructor ()
      ensures State() == Client(0.0, false, 0, [])
    {
      until, limited, offset, wire := 0.0, false, 0, [];
    }

    method RaiseIfRateLimited(now: real) returns (passed: bool)
      modifies this`until, this`limited
      ensures (State(), passed) == Checked(old(State()), now)
    {
      if now >= until {
        until, limited := 0.0, false;
        return true;
      }
      return !limited;
    }

    method ActivateRateLimit(m: Moment)
      requires Limits(m.reply)
      modifies this`until, this`limited
      ensures State() == CoolDown(old(State()), m)
    {
      until, limited := m.answered + Silence(m.reply) as real, true;
    }

    method ResyncClock(m: Moment) returns (ok: bool)
      modifies this`offset, this`wire
      ensures ok == m.clock.ServerTime?
      ensures var asked := Transmit(old(State()), Clock, m.clockSent, ClockReply(m.clock), m.clockSent);
              State() == if ok then asked.(offset := Offset(m.clock)) else asked
    {
      wire := wire + [Sent(Clock, m.clockSent, ClockReply(m.clock), m.clockSent)];
      if !m.clock.ServerTime? {
        return false;
      }
      offset := Offset(m.clock);
      return true;
    }

    /** The n-th attempt: whether to go on, with the clock corrected or not, or the answer to raise or return. */
    method TryOnce(kind: Kind, allowed: int, m: Moment, n: nat, resynced: bool)
        returns (again: bool, corrected: bool, outcome: Outcome)
      modifies this
      ensures var step := Attempt(old(State()), kind, allowed, m, n, resynced);
              step == if again then Go(State(), corrected) else Stop(State(), outcome)
    {
      again, corrected, outcome := false, resynced, Rejected;
      var passed := RaiseIfRateLimited(m.checked);
      if !passed {
        outcome := CoolingDown;
        return;
      }
      wire := wire + [Sent(kind, m.sent, m.reply, m.answered)];
      if m.reply.Lost? {
        again := kind != Mutation && n < allowed;
        outcome := Unreachable;
        return;
      }
      var status, code := m.reply.status, m.reply.code;
      if status >= 400 {
        if status == 418 || status == 429 {
          ActivateRateLimit(m);
          outcome := RateLimited;
          return;
        }
        if code == Some(STALE_CLOCK) && !resynced {
          corrected := ResyncClock(m);
          again, outcome := corrected, Unreachable;
          return;
        }
        if kind == Mutation && 500 <= status < 600 {
          outcome := Unreachable;
          return;
        }
        again := Retryable(status, code) && n < allowed;
        return;
      }
      if code == Some(STALE_CLOCK) {
        if !resynced {
          corrected := ResyncClock(m);
          again, outcome := corrected, Unreachable;
        }
        return;
      }
      if Throttled(code) {
        again := n < allowed;
        return;
      }
      outcome := Delivered;
    }

    method SignedRequest(kind: Kind, live: bool, keys: bool, maxTries: Option<int>, env: Environment)
        returns (outcome: Outcome)
      modifies this
      ensures (State(), outcome) == Signed(old(State()), kind, live, keys, maxTries, env)
    {
      if kind == Mutation && !live {
        return DryBlocked;
      }
      if !keys {
        return NoCredentials;
      }
      var allowed := Allowed(kind, maxTries);
      var tries, resynced, again := 0, false, true;
      outcome := Rejected;
      ghost var all := Attempts(State(), kind, allowed, env, 0, false);
      while again
        invariant 0 <= tries
        invariant (if again then Attempts(State(), kind, allowed, env, tries, resynced) else (State(), outcome)) == all
        decreases again, if resynced then 0 else 1, if tries <= allowed then allowed - tries else 0
      {
        again, resynced, outcome := TryOnce(kind, allowed, env(tries), tries + 1, resynced);
        tries := tries + 1;
      }
    }

    method RequestWithBackoff(maxTries: int, env: Environment) returns (outcome: Outcome)
      modifies this
      ensures (State(), outcome) == Plain(old(State()), maxTries, env, 0)
    {
      var tries := 0;
      while true
        invariant 0 <= tries && Plain(State(), maxTries, env, tries) == Plain(old(State()), maxTries, env, 0)
        decreases if tries <= maxTries then maxTries - tries else 0
      {
        var m := env(tries);
        var passed := RaiseIfRateLimited(m.checked);
        if !passed {
          return CoolingDown;
        }
        tries := tries + 1;
        wire := wire + [Sent(Read, m.sent, m.reply, m.answered)];
        if m.reply.Lost? {
          if tries >= maxTries {
            return Unreachable;
          }
          continue;
        }
        var status, code := m.reply.status, m.reply.code;
        if status >= 400 {
          if status == 418 || status == 429 {
            ActivateRateLimit(m);
            return RateLimited;
          }
          if Retryable(status, code) {
            if tries >= maxTries {
              return Rejected;
            }
            continue;
          }
          return Rejected;
        }
        if Throttled(code) {
          if tries >= maxTries {
            return Rejected;
          }
          continue;
        }
        return Delivered;
      }
    }
  }
}
