/** Bounded host recovery: one observation per timer tick advances a persistent record that may
    authorise a reconnect, a network restart and at most one reboot per outage.
    `RecoveryRecord.Advance` updates the record in place; `Step` is its specification, and the
    theorems below are about every run of `Step`. */
module NetworkRecovery {

  const RECONNECT_AFTER := 180
  const RESTART_AFTER := 480
  const REBOOT_AFTER := 900
  const REARM_AFTER := 1800
  const REBOOT_COOLDOWN := 86400
  const MAXIMUM_GAP := 180

  datatype Action = Stay | Reconnect | RestartNetwork | Reboot

  datatype Event =
    | BootObserved
    | NetworkRestored
    | NetworkLost
    | RecoveryDeferred(reason: string)
    | RebootSuppressed

  datatype State = State(
    boot: string, seen: int, failedSince: int, healthySince: int, step: int,
    latched: bool, lastReboot: int, incident: int, blocked: string)

  /** Wall clock and monotonic uptime are whole seconds since a fixed origin. */
  datatype Observation = Observation(boot: string, now: nat, uptime: nat, reachable: bool, blocked: string)

  datatype Decision = Decision(state: State, action: Action, events: seq<Event>)

  function FreshState(boot: string): State {
    State(boot, 0, -1, -1, 0, false, 0, 0, "")
  }

  // ---------- specification of one observation ----------

  function ForgetEvidence(s: State): State {
    s.(failedSince := -1, healthySince := -1, step := 0)
  }

  function ObserveBoot(s: State, o: Observation): State {
    if s.boot == o.boot then s else ForgetEvidence(s).(boot := o.boot, seen := 0)
  }

  function BootEvents(s: State, o: Observation): seq<Event> {
    if s.boot == o.boot || !s.latched then []
    else if o.reachable then [BootObserved, NetworkRestored] else [BootObserved]
  }

  function ObserveTime(s: State, o: Observation): State {
    (if o.uptime < s.seen || o.uptime - s.seen > MAXIMUM_GAP then ForgetEvidence(s) else s).(seen := o.uptime)
  }

  function WhileReachable(s: State, o: Observation, events: seq<Event>): Decision {
    var since := if s.healthySince < 0 then o.uptime else s.healthySince;
    var rearm := o.uptime - since >= REARM_AFTER && o.now - s.lastReboot >= REBOOT_COOLDOWN;
    Decision(s.(failedSince := -1, step := 0, blocked := "", healthySince := since, latched := s.latched && !rearm),
             Stay,
             if s.failedSince >= 0 then events + [NetworkRestored] else events)
  }

  function WhileBlocked(s: State, o: Observation, events: seq<Event>): Decision {
    Decision(s.(healthySince := -1, failedSince := -1, step := 0, blocked := o.blocked),
             Stay,
             if s.blocked != o.blocked then events + [RecoveryDeferred(o.blocked)] else events)
  }

  predicate RebootForbidden(s: State, o: Observation) {
    s.latched || (s.lastReboot != 0 && o.now - s.lastReboot < REBOOT_COOLDOWN)
  }

  function Escalate(s: State, o: Observation, events: seq<Event>): Decision {
    var elapsed := o.uptime - s.failedSince;
    if elapsed >= REBOOT_AFTER && s.step < 3 then
      if RebootForbidden(s, o) then Decision(s.(step := 3), Stay, events + [RebootSuppressed])
      else Decision(s.(step := 3, latched := true, lastReboot := o.now), Reboot, events)
    else if elapsed >= RESTART_AFTER && s.step < 2 then Decision(s.(step := 2), RestartNetwork, events)
    else if elapsed >= RECONNECT_AFTER && s.step < 1 then Decision(s.(step := 1), Reconnect, events)
    else Decision(s, Stay, events)
  }

  function WhileFailing(s: State, o: Observation, events: seq<Event>): Decision {
    var s := s.(healthySince := -1, blocked := "");
    if s.failedSince < 0 then Escalate(s.(failedSince := o.uptime, incident := o.now), o, events + [NetworkLost])
    else Escalate(s, o, events)
  }

  function Step(s: State, o: Observation): Decision {
    var timed := ObserveTime(ObserveBoot(s, o), o);
    if o.reachable then WhileReachable(timed, o, BootEvents(s, o))
    else if o.blocked != "" then WhileBlocked(timed, o, BootEvents(s, o))
    else WhileFailing(timed, o, BootEvents(s, o))
  }

  // ---------- the record itself ----------

  class RecoveryRecord {
    var boot: string
    var seen: int
    var failedSince: int
    var healthySince: int
    var step: int
    var latched: bool
    var lastReboot: int
    var incident: int
    var blocked: string

    ghost function Contents(): State
      reads this
    {
      State(boot, seen, failedSince, healthySince, step, latched, lastReboot, incident, blocked)
    }

    constructor (bootId: string)
      ensures Contents() == FreshState(bootId)
    {
      boot, seen, failedSince, healthySince, step := bootId, 0, -1, -1, 0;
      latched, lastReboot, incident, blocked := false, 0, 0, "";
    }

    /** One observation: the record and the answer are exactly what `Step` says. */
    method Advance(o: Observation) returns (action: Action, events: seq<Event>)
      modifies this
      ensures Decision(Contents(), action, events) == Step(old(Contents()), o)
    {
      events := AdoptObservation(o);
      if o.reachable {
        action, events := Rest(o, events);
        return;
      }
      healthySince := -1;
      if o.blocked != "" {
        if blocked != o.blocked {
          events := events + [RecoveryDeferred(o.blocked)];
        }
        blocked := o.blocked;
        failedSince, step := -1, 0;
        return Stay, events;
      }
      blocked := "";
      if failedSince < 0 {
        failedSince, incident := o.uptime, o.now;
        events := events + [NetworkLost];
      }
      action, events := ActOnAge(o, events);
    }

    // A new boot or a gap in time discards evidence; a latched record announces the boot it asked for.
    method AdoptObservation(o: Observation) returns (events: seq<Event>)
      modifies this
      ensures Contents() == ObserveTime(ObserveBoot(old(Contents()), o), o)
      ensures events == BootEvents(old(Contents()), o)
    {
      events := [];
      if boot != o.boot {
        if latched {
          events := events + [BootObserved];
          if o.reachable {
            events := events + [NetworkRestored];
          }
        }
        boot, seen, failedSince, healthySince, step := o.boot, 0, -1, -1, 0;
      }
      if o.uptime < seen || o.uptime - seen > MAXIMUM_GAP {
        failedSince, healthySince, step := -1, -1, 0;
      }
      seen := o.uptime;
    }

    method Rest(o: Observation, before: seq<Event>) returns (action: Action, events: seq<Event>)
      modifies this
      ensures Decision(Contents(), action, events) == WhileReachable(old(Contents()), o, before)
    {
      events := before;
      if failedSince >= 0 {
        events := events + [NetworkRestored];
      }
      failedSince, step, blocked := -1, 0, "";
      if healthySince < 0 {
        healthySince := o.uptime;
      }
      if o.uptime - healthySince >= REARM_AFTER && o.now - lastReboot >= REBOOT_COOLDOWN {
        latched := false;
      }
      return Stay, events;
    }

    method ActOnAge(o: Observation, before: seq<Event>) returns (action: Action, events: seq<Event>)
      modifies this
      ensures Decision(Contents(), action, events) == Escalate(old(Contents()), o, before)
    {
      events := before;
      var elapsed := o.uptime - failedSince;
      if elapsed >= REBOOT_AFTER && step < 3 {
        if latched || (lastReboot != 0 && o.now - lastReboot < REBOOT_COOLDOWN) {
          if step != 3 {
            events := events + [RebootSuppressed];
          }
          step := 3;
          return Stay, events;
        }
        step, latched, lastReboot := 3, true, o.now;
        return Reboot, events;
      }
      if elapsed >= RESTART_AFTER && step < 2 {
        step := 2;
        return RestartNetwork, events;
      }
      if elapsed >= RECONNECT_AFTER && step < 1 {
        step := 1;
        return Reconnect, events;
      }
      return Stay, events;
    }
  }

  // ---------- runs ----------

  /** The record after the first n observations. */
  function Run(s: State, obs: seq<Observation>, n: nat): State
    requires n <= |obs|
  {
    if n == 0 then s else Step(Run(s, obs, n - 1), obs[n - 1]).state
  }

  function At(s: State, obs: seq<Observation>, i: nat): Decision
    requires i < |obs|
  {
    Step(Run(s, obs, i), obs[i])
  }

  /** A record that has not yet accumulated evidence of loss or of health, as a fresh one has not. */
  predicate WithoutEvidence(s: State) {
    s.failedSince < 0 && s.healthySince < 0 && s.step == 0
  }

  // Observation i belongs to the same stretch as its predecessor: same boot, time forward, no gap above the limit.
  predicate Joined(obs: seq<Observation>, i: nat) {
    0 < i < |obs| && obs[i - 1].boot == obs[i].boot
    && obs[i - 1].uptime <= obs[i].uptime <= obs[i - 1].uptime + MAXIMUM_GAP
  }

  predicate Failing(o: Observation) {
    !o.reachable && o.blocked == ""
  }

  predicate Outage(obs: seq<Observation>, m: nat, k: nat) {
    m <= k < |obs| && (forall i | m <= i <= k :: Failing(obs[i]))
    && forall i | m < i <= k :: Joined(obs, i)
  }

  predicate Healthy(obs: seq<Observation>, m: nat, k: nat) {
    m <= k < |obs| && (forall i | m <= i <= k :: obs[i].reachable)
    && forall i | m < i <= k :: Joined(obs, i)
  }

  // The stretch cannot be extended to the left.
  predicate OutageStart(obs: seq<Observation>, m: nat) {
    m < |obs| && Failing(obs[m]) && (m == 0 || !Outage(obs, m - 1, m))
  }

  predicate HealthyStart(obs: seq<Observation>, m: nat) {
    m < |obs| && obs[m].reachable && (m == 0 || !Healthy(obs, m - 1, m))
  }

  lemma {:induction false} FindOutageStart(obs: seq<Observation>, k: nat) returns (m: nat)
    requires k < |obs| && Failing(obs[k])
    ensures m <= k && OutageStart(obs, m) && Outage(obs, m, k)
  {
    if k == 0 || !Outage(obs, k - 1, k) {
      m := k;
    } else {
      assert Joined(obs, k);
      assert Failing(obs[k - 1]);
      m := FindOutageStart(obs, k - 1);
    }
  }

  lemma {:induction false} FindHealthyStart(obs: seq<Observation>, k: nat) returns (m: nat)
    requires k < |obs| && obs[k].reachable
    ensures m <= k && HealthyStart(obs, m) && Healthy(obs, m, k)
  {
    if k == 0 || !Healthy(obs, k - 1, k) {
      m := k;
    } else {
      assert Joined(obs, k);
      assert obs[k - 1].reachable;
      m := FindHealthyStart(obs, k - 1);
    }
  }

  // ---------- single observations ----------

  // The observation belongs to the stretch the record has been following.
  predicate Continues(r: State, o: Observation) {
    r.boot == o.boot && r.seen <= o.uptime <= r.seen + MAXIMUM_GAP
  }

  lemma StepRemembers(r: State, o: Observation)
    requires r.failedSince < 0 ==> r.step == 0
    ensures var t := Step(r, o).state;
            && t.boot == o.boot && t.seen == o.uptime
            && (t.failedSince < 0 ==> t.step == 0)
            && (Failing(o) ==>
                  && t.healthySince < 0
                  && t.failedSince == if Continues(r, o) && r.failedSince >= 0 then r.failedSince else o.uptime)
            && (o.reachable ==>
                  && t.failedSince < 0
                  && t.healthySince == if Continues(r, o) && r.healthySince >= 0 then r.healthySince else o.uptime)
            && (!o.reachable && !Failing(o) ==> t.failedSince < 0 && t.healthySince < 0)
  {
  }

  function Stage(elapsed: int): int {
    if elapsed >= REBOOT_AFTER then 3 else if elapsed >= RESTART_AFTER then 2
    else if elapsed >= RECONNECT_AFTER then 1 else 0
  }

  lemma StepStages(r: State, o: Observation)
    requires Failing(o) && Continues(r, o) && 0 <= r.failedSince <= r.seen && r.step == Stage(r.seen - r.failedSince)
    ensures Step(r, o).state.step == Stage(o.uptime - r.failedSince)
  {
  }

  lemma StepOfNewOutage(r: State, o: Observation)
    requires Failing(o) && !(Continues(r, o) && r.failedSince >= 0) && (r.failedSince < 0 ==> r.step == 0)
    ensures Step(r, o).state.step == 0
  {
  }

  // The latch opens only on a reachable observation that completes the healthy window.
  lemma LatchOpens(r: State, o: Observation)
    requires r.latched && !Step(r, o).state.latched
    ensures o.reachable && o.uptime - Step(r, o).state.healthySince >= REARM_AFTER
  {
  }

  lemma RebootCloses(r: State, o: Observation)
    requires Step(r, o).action == Reboot
    ensures Failing(o) && Step(r, o).state.latched && Step(r, o).state.lastReboot == o.now
    ensures !r.latched && (r.lastReboot > 0 ==> o.now - r.lastReboot >= REBOOT_COOLDOWN)
  {
  }

  lemma LastRebootStays(r: State, o: Observation)
    requires r.lastReboot > 0
    ensures Step(r, o).state.lastReboot >= r.lastReboot
  {
  }

  // ---------- runs from a record without evidence ----------

  /** What the record knows after any run: the last observation, and nothing it has not seen. */
  lemma {:induction false} RecordFollowsObservations(s: State, obs: seq<Observation>, n: nat)
    requires WithoutEvidence(s) && n <= |obs|
    ensures var r := Run(s, obs, n);
            && (n > 0 ==> r.boot == obs[n - 1].boot && r.seen == obs[n - 1].uptime)
            && (r.failedSince >= 0 ==> n > 0 && Failing(obs[n - 1]))
            && (r.healthySince >= 0 ==> n > 0 && obs[n - 1].reachable)
            && (r.failedSince < 0 ==> r.step == 0)
  {
    if n > 0 {
      RecordFollowsObservations(s, obs, n - 1);
      StepRemembers(Run(s, obs, n - 1), obs[n - 1]);
    }
  }

  // At the first observation of an outage the record does not continue an earlier one.
  lemma {:induction false} OutageStartIsNew(s: State, obs: seq<Observation>, m: nat)
    requires WithoutEvidence(s) && OutageStart(obs, m)
    ensures var r := Run(s, obs, m);
            !(Continues(r, obs[m]) && r.failedSince >= 0) && (r.failedSince < 0 ==> r.step == 0)
  {
    RecordFollowsObservations(s, obs, m);
    if m > 0 {
      assert Failing(obs[m - 1]) ==> !Joined(obs, m);
    }
  }

  lemma {:induction false} HealthyStartIsNew(s: State, obs: seq<Observation>, m: nat)
    requires WithoutEvidence(s) && HealthyStart(obs, m)
    ensures var r := Run(s, obs, m);
            !(Continues(r, obs[m]) && r.healthySince >= 0) && (r.failedSince < 0 ==> r.step == 0)
  {
    RecordFollowsObservations(s, obs, m);
    if m > 0 {
      assert obs[m - 1].reachable ==> !Joined(obs, m);
    }
  }

  // A continued outage keeps its start and moves its stage with its age.
  lemma OutageGoesOn(r: State, o: Observation, start: int)
    requires Failing(o) && Continues(r, o) && 0 <= start == r.failedSince <= r.seen && r.step == Stage(r.seen - start)
    ensures Step(r, o).state.failedSince == start && Step(r, o).state.step == Stage(o.uptime - start)
  {
    StepRemembers(r, o);
    StepStages(r, o);
  }

  /** The stored step is never history: it is a function of the outage's age. No observation can
      skip a stage because gaps are bounded by the distance between thresholds. */
  lemma {:induction false} StepIsStage(s: State, obs: seq<Observation>, m: nat, k: nat)
    requires WithoutEvidence(s) && OutageStart(obs, m) && Outage(obs, m, k)
    ensures Run(s, obs, k + 1).failedSince == obs[m].uptime <= obs[k].uptime
    ensures Run(s, obs, k + 1).step == Stage(obs[k].uptime - obs[m].uptime)
    decreases k
  {
    var r, o := Run(s, obs, k), obs[k];
    if k > m {
      assert Failing(o) && Joined(obs, k);
      RecordFollowsObservations(s, obs, k);
      StepIsStage(s, obs, m, k - 1);
      OutageGoesOn(r, o, obs[m].uptime);
    } else {
      OutageStartIsNew(s, obs, m);
      StepRemembers(r, o);
      StepOfNewOutage(r, o);
    }
  }

  lemma {:induction false} HealthySinceIsHealthyStart(s: State, obs: seq<Observation>, m: nat, k: nat)
    requires WithoutEvidence(s) && HealthyStart(obs, m) && Healthy(obs, m, k)
    ensures Run(s, obs, k + 1).healthySince == obs[m].uptime
    decreases k
  {
    var r, o := Run(s, obs, k), obs[k];
    RecordFollowsObservations(s, obs, k);
    StepRemembers(r, o);
    if k > m {
      assert o.reachable && Joined(obs, k);
      HealthySinceIsHealthyStart(s, obs, m, k - 1);
    } else {
      HealthyStartIsNew(s, obs, m);
    }
  }

  // ---------- escalation inside one outage ----------

  predicate Between(before: int, threshold: int, after: int) {
    before < threshold <= after
  }

  /** Observation i is the first of the outage starting at m whose age reaches the threshold. */
  predicate Crosses(obs: seq<Observation>, m: nat, i: nat, threshold: int) {
    m < i < |obs| && Between(obs[i - 1].uptime - obs[m].uptime, threshold, obs[i].uptime - obs[m].uptime)
  }

  lemma {:induction false} UptimeGrows(obs: seq<Observation>, m: nat, i: nat, j: nat)
    requires Outage(obs, m, j) && m <= i <= j
    ensures obs[i].uptime <= obs[j].uptime
    decreases j
  {
    if i < j {
      assert Joined(obs, j);
      UptimeGrows(obs, m, i, j - 1);
    }
  }

  /** A decision answers which thresholds the outage has just crossed, and nothing else. */
  predicate Ladder(d: Decision, forbidden: bool, first: bool, reconnect: bool, restart: bool, reboot: bool) {
    && (d.action == Reconnect <==> reconnect)
    && (d.action == RestartNetwork <==> restart)
    && (d.action == Reboot <==> reboot && !forbidden)
    && (RebootSuppressed in d.events <==> reboot && forbidden)
    && (NetworkLost in d.events <==> first)
  }

  // One observation that continues an outage, seen from the record alone.
  lemma ContinuedOutage(r: State, o: Observation, before: int, after: int)
    requires Failing(o) && Continues(r, o) && 0 <= r.failedSince <= r.seen && r.step == Stage(r.seen - r.failedSince)
    requires before == r.seen - r.failedSince && after == o.uptime - r.failedSince
    ensures Ladder(Step(r, o), RebootForbidden(r, o), false, Between(before, RECONNECT_AFTER, after),
                   Between(before, RESTART_AFTER, after), Between(before, REBOOT_AFTER, after))
  {
  }

  // One observation that begins an outage.
  lemma BegunOutage(r: State, o: Observation)
    requires Failing(o) && !(Continues(r, o) && r.failedSince >= 0) && (r.failedSince < 0 ==> r.step == 0)
    ensures Ladder(Step(r, o), RebootForbidden(r, o), true, false, false, false)
  {
  }

  /** Inside an outage every action is emitted exactly at the first observation past its threshold,
      a reboot decision is either taken or announced as suppressed, and nothing else happens. */
  lemma {:induction false} OutageLadder(s: State, obs: seq<Observation>, m: nat, i: nat)
    requires WithoutEvidence(s) && OutageStart(obs, m) && Outage(obs, m, i)
    ensures Ladder(At(s, obs, i), RebootForbidden(Run(s, obs, i), obs[i]), i == m, Crosses(obs, m, i, RECONNECT_AFTER),
                   Crosses(obs, m, i, RESTART_AFTER), Crosses(obs, m, i, REBOOT_AFTER))
  {
    var r, o := Run(s, obs, i), obs[i];
    assert Failing(o);
    if i > m {
      assert Joined(obs, i);
      RecordFollowsObservations(s, obs, i);
      StepIsStage(s, obs, m, i - 1);
      ContinuedOutage(r, o, obs[i - 1].uptime - obs[m].uptime, o.uptime - obs[m].uptime);
    } else {
      OutageStartIsNew(s, obs, m);
      BegunOutage(r, o);
    }
  }

  /** Outside an outage the machine never acts. */
  lemma ActionsOnlyWhileFailing(s: State, o: Observation)
    requires Step(s, o).action != Stay || RebootSuppressed in Step(s, o).events || NetworkLost in Step(s, o).events
    ensures Failing(o)
  {
  }

  lemma {:induction false} FindCrossing(obs: seq<Observation>, m: nat, k: nat, threshold: int) returns (i: nat)
    requires Outage(obs, m, k) && 0 < threshold <= obs[k].uptime - obs[m].uptime
    ensures m < i <= k && Crosses(obs, m, i, threshold)
    decreases k
  {
    if obs[k - 1].uptime - obs[m].uptime < threshold {
      i := k;
    } else {
      i := FindCrossing(obs, m, k - 1, threshold);
    }
  }

  lemma CrossingIsUnique(obs: seq<Observation>, m: nat, k: nat, i: nat, j: nat, threshold: int)
    requires Outage(obs, m, k) && i <= k && j <= k
    requires Crosses(obs, m, i, threshold) && Crosses(obs, m, j, threshold)
    ensures i == j
  {
    if i < j {
      UptimeGrows(obs, m, i, j - 1);
    } else if j < i {
      UptimeGrows(obs, m, j, i - 1);
    }
  }

  /** Every reboot closes an unbroken, unblocked, same-boot outage of at least 900 seconds in which
      one reconnect and one network restart came first, in that order, and nothing else was done. */
  lemma RebootIsLastResort(s: State, obs: seq<Observation>, k: nat) returns (m: nat, a: nat, b: nat)
    requires WithoutEvidence(s) && k < |obs| && At(s, obs, k).action == Reboot
    ensures m < a < b < k && Outage(obs, m, k) && OutageStart(obs, m)
    ensures obs[k].uptime - obs[m].uptime >= REBOOT_AFTER
    ensures At(s, obs, a).action == Reconnect && At(s, obs, b).action == RestartNetwork
    ensures forall i | m <= i < k && i != a && i != b :: At(s, obs, i).action == Stay
    ensures forall i | m <= i < k :: RebootSuppressed !in At(s, obs, i).events
  {
    ActionsOnlyWhileFailing(Run(s, obs, k), obs[k]);
    m := FindOutageStart(obs, k);
    OutageLadder(s, obs, m, k);
    a := FindCrossing(obs, m, k, RECONNECT_AFTER);
    b := FindCrossing(obs, m, k, RESTART_AFTER);
    OutageLadder(s, obs, m, a);
    OutageLadder(s, obs, m, b);
    assert Joined(obs, a) && Joined(obs, b);
    if b <= a {
      UptimeGrows(obs, m, b, a);
    }
    forall i | m <= i < k
      ensures RebootSuppressed !in At(s, obs, i).events
      ensures i != a && i != b ==> At(s, obs, i).action == Stay
    {
      QuietBetweenCrossings(s, obs, m, a, b, i, k);
    }
  }

  lemma QuietBetweenCrossings(s: State, obs: seq<Observation>, m: nat, a: nat, b: nat, i: nat, k: nat)
    requires WithoutEvidence(s) && OutageStart(obs, m) && Outage(obs, m, k) && m <= i < k && a <= k && b <= k
    requires Crosses(obs, m, a, RECONNECT_AFTER) && Crosses(obs, m, b, RESTART_AFTER)
             && Crosses(obs, m, k, REBOOT_AFTER)
    ensures RebootSuppressed !in At(s, obs, i).events
    ensures i != a && i != b ==> At(s, obs, i).action == Stay
  {
    OutageLadder(s, obs, m, i);
    if Crosses(obs, m, i, RECONNECT_AFTER) { CrossingIsUnique(obs, m, k, i, a, RECONNECT_AFTER); }
    if Crosses(obs, m, i, RESTART_AFTER) { CrossingIsUnique(obs, m, k, i, b, RESTART_AFTER); }
    if Crosses(obs, m, i, REBOOT_AFTER) { CrossingIsUnique(obs, m, k, i, k, REBOOT_AFTER); }
  }

  /** Nothing is repeated within an outage: two equal actions need two outages. */
  lemma AtMostOncePerOutage(s: State, obs: seq<Observation>, m: nat, i: nat, j: nat)
    requires WithoutEvidence(s) && OutageStart(obs, m) && Outage(obs, m, j) && m <= i < j
    requires At(s, obs, i).action != Stay || RebootSuppressed in At(s, obs, i).events
    ensures At(s, obs, j).action != At(s, obs, i).action || At(s, obs, i).action == Stay
    ensures At(s, obs, i).action == Reboot || RebootSuppressed in At(s, obs, i).events ==>
              At(s, obs, j).action == Stay && RebootSuppressed !in At(s, obs, j).events
  {
    assert Outage(obs, m, i);
    OutageLadder(s, obs, m, i);
    OutageLadder(s, obs, m, j);
    UptimeGrows(obs, m, i, j - 1);
    assert Joined(obs, j);
  }

  // ---------- the anti-loop latch over whole runs ----------

  lemma {:induction false} LatchNeedsHealthyStretch(s: State, obs: seq<Observation>, i: nat, n: nat)
      returns (m: nat, k: nat)
    requires WithoutEvidence(s) && i < n <= |obs| && At(s, obs, i).action == Reboot
    requires !Run(s, obs, n).latched
    ensures i < m <= k < n && Healthy(obs, m, k) && obs[k].uptime - obs[m].uptime >= REARM_AFTER
    decreases n
  {
    RebootCloses(Run(s, obs, i), obs[i]);
    if n - 1 > i && !Run(s, obs, n - 1).latched {
      m, k := LatchNeedsHealthyStretch(s, obs, i, n - 1);
    } else {
      k := n - 1;
      LatchOpens(Run(s, obs, k), obs[k]);
      m := FindHealthyStart(obs, k);
      HealthySinceIsHealthyStart(s, obs, m, k);
      assert Failing(obs[i]);
    }
  }

  lemma {:induction false} LastRebootNeverMovesBack(s: State, obs: seq<Observation>, i: nat, n: nat)
    requires i < n <= |obs| && At(s, obs, i).action == Reboot && obs[i].now > 0
    ensures Run(s, obs, n).lastReboot >= obs[i].now
    decreases n
  {
    if n > i + 1 {
      LastRebootNeverMovesBack(s, obs, i, n - 1);
      LastRebootStays(Run(s, obs, n - 1), obs[n - 1]);
    } else {
      RebootCloses(Run(s, obs, i), obs[i]);
    }
  }

  /** Between two reboots lies an unbroken reachable stretch of at least 1800 uptime seconds, and the
      wall clock has advanced by at least a day, even if it was set back in between. */
  lemma RebootsAreRare(s: State, obs: seq<Observation>, i: nat, j: nat) returns (m: nat, k: nat)
    requires WithoutEvidence(s) && i < j < |obs|
    requires At(s, obs, i).action == Reboot && At(s, obs, j).action == Reboot
    ensures i < m <= k < j && Healthy(obs, m, k) && obs[k].uptime - obs[m].uptime >= REARM_AFTER
    ensures obs[i].now != 0 ==> obs[j].now - obs[i].now >= REBOOT_COOLDOWN
  {
    RebootCloses(Run(s, obs, j), obs[j]);
    m, k := LatchNeedsHealthyStretch(s, obs, i, j);
    if obs[i].now != 0 {
      LastRebootNeverMovesBack(s, obs, i, j);
    }
  }

  // A run whose first reboot is requested at wall time zero, which the record cannot tell from
  // "never": after a healthy stretch the clock is set back and a second reboot follows at time 1.
  function EpochObservation(i: nat): Observation {
    Observation("a", if i == 16 then REBOOT_COOLDOWN else if i > 16 then 1 else 0, 180 * i, 6 <= i <= 16, "")
  }

  function EpochState(n: nat): State {
    if n == 0 then FreshState("a")
    else if n <= 5 then State("a", 180 * (n - 1), 0, -1, Stage(180 * (n - 1)), false, 0, 0, "")
    else if n == 6 then State("a", 900, 0, -1, 3, true, 0, 0, "")
    else if n <= 17 then State("a", 180 * (n - 1), -1, 1080, 0, n < 17, 0, 0, "")
    else State("a", 180 * (n - 1), 3060, -1, Stage(180 * (n - 1) - 3060), false, 0, 1, "")
  }

  lemma EpochStep(n: nat)
    requires n < 22
    ensures Step(EpochState(n), EpochObservation(n)).state == EpochState(n + 1)
  {
  }

  lemma {:induction false} EpochRun(obs: seq<Observation>, n: nat)
    requires |obs| == 23 && (forall i | 0 <= i < 23 :: obs[i] == EpochObservation(i)) && n <= 22
    ensures Run(FreshState("a"), obs, n) == EpochState(n)
  {
    if n > 0 {
      EpochRun(obs, n - 1);
      EpochStep(n - 1);
    }
  }

  /** Two reboot decisions whose wall clocks are less than a day apart, the first at time w. */
  ghost predicate CloseReboots(s: State, obs: seq<Observation>, i: nat, j: nat, w: nat) {
    WithoutEvidence(s) && i < j < |obs| && obs[i].now == w && obs[j].now - w < REBOOT_COOLDOWN
    && At(s, obs, i).action == Reboot && At(s, obs, j).action == Reboot
  }

  lemma EpochRunRebootsTwice() returns (obs: seq<Observation>)
    ensures CloseReboots(FreshState("a"), obs, 5, 22, 0)
  {
    obs := seq(23, i requires 0 <= i < 23 => EpochObservation(i));
    EpochRun(obs, 5);
    EpochRun(obs, 22);
    assert Step(EpochState(5), EpochObservation(5)).action == Reboot;
    assert Step(EpochState(22), EpochObservation(22)).action == Reboot;
  }

  /** The one-day spacing holds of every run exactly when the first request was not made at wall
      time zero: the stored zero is read as "no reboot yet". */
  lemma DaySpacingExactly(w: nat)
    ensures (exists s, obs, i, j :: CloseReboots(s, obs, i, j, w)) <==> w == 0
  {
    if w != 0 {
      forall s, obs, i, j | CloseReboots(s, obs, i, j, w)
        ensures false
      {
        var m, k := RebootsAreRare(s, obs, i, j);
      }
    } else {
      var obs := EpochRunRebootsTwice();
    }
  }
}
