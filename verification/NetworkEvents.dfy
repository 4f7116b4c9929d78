/** What the recovery announces and remembers after each observation of a run, in the observations themselves:
    when loss and restoration are announced, when a reboot is taken, and exactly when the latch opens again. */
module NetworkEvents {
  import opened NetworkRecovery

  // ---------- what is announced ----------

  // The boot, and the blocker, before the k-th observation.
  function BootBefore(s: State, obs: seq<Observation>, k: nat): string
    requires k <= |obs|
  {
    if k == 0 then s.boot else obs[k - 1].boot
  }

  function BlockedBefore(s: State, obs: seq<Observation>, k: nat): string
    requires k <= |obs|
  {
    if k == 0 then s.blocked else if obs[k - 1].reachable then "" else obs[k - 1].blocked
  }

  /** The network was failing right before, in the same stretch of observations. */
  predicate FailingBefore(obs: seq<Observation>, k: nat)
    requires k < |obs|
  {
    && k > 0 && !obs[k - 1].reachable && obs[k - 1].blocked == "" && obs[k - 1].boot == obs[k].boot
    && obs[k - 1].uptime <= obs[k].uptime <= obs[k - 1].uptime + 180
  }

  /** A boot is announced if a reboot had been asked for, with the network if it is there. */
  function BootAnnounced(asked: bool, o: Observation): seq<Event> {
    if !asked then [] else if o.reachable then [BootObserved, NetworkRestored] else [BootObserved]
  }

  lemma {:induction false} BlockerIsLast(s: State, obs: seq<Observation>, n: nat)
    requires n <= |obs|
    ensures Run(s, obs, n).blocked == BlockedBefore(s, obs, n)
  {
  }

  /** All that is announced at the k-th observation: the boot that was asked for; the network, as restored when it is
      reachable right after failing and as lost at the first failing observation of an outage; a blocker when it is
      another than before; and a reboot as suppressed when its time has come in vain. */
  lemma {:induction false} EventsExactly(s: State, obs: seq<Observation>, k: nat)
    requires WithoutEvidence(s) && k < |obs|
    ensures var r, o, events := Run(s, obs, k), obs[k], At(s, obs, k).events;
            var boot := BootAnnounced(r.latched && BootBefore(s, obs, k) != o.boot, o);
            && (o.reachable ==> events == boot + if FailingBefore(obs, k) then [NetworkRestored] else [])
            && (!o.reachable && o.blocked != "" ==>
                  events == boot + if BlockedBefore(s, obs, k) != o.blocked then [RecoveryDeferred(o.blocked)] else [])
            && (!o.reachable && o.blocked == "" ==>
                  events == boot + (if FailingBefore(obs, k) then [] else [NetworkLost])
                            + if RebootSuppressed in events then [RebootSuppressed] else [])
  {
    RecordFollowsObservations(s, obs, k);
    BlockerIsLast(s, obs, k);
    if k > 0 && Failing(obs[k - 1]) {
      FailingIsSince(s, obs, k);
    }
    EventsOfStep(Run(s, obs, k), obs[k]);
  }

  // A record after a failing observation dates the failure.
  lemma {:induction false} FailingIsSince(s: State, obs: seq<Observation>, k: nat)
    requires WithoutEvidence(s) && 0 < k <= |obs| && Failing(obs[k - 1])
    ensures Run(s, obs, k).failedSince >= 0
  {
    var m := FindOutageStart(obs, k - 1);
    StepIsStage(s, obs, m, k - 1);
  }

  lemma EventsOfStep(r: State, o: Observation)
    requires r.failedSince < 0 ==> r.step == 0
    ensures var events, boot := Step(r, o).events, BootAnnounced(r.latched && r.boot != o.boot, o);
            var goesOn := Continues(r, o) && r.failedSince >= 0;
            && (o.reachable ==> events == boot + if goesOn then [NetworkRestored] else [])
            && (!o.reachable && o.blocked != "" ==>
                  events == boot + if r.blocked != o.blocked then [RecoveryDeferred(o.blocked)] else [])
            && (Failing(o) ==>
                  events == boot + (if goesOn then [] else [NetworkLost])
                            + if RebootSuppressed in events then [RebootSuppressed] else [])
  {
  }

  // ---------- when a reboot is taken ----------

  /** A reboot is asked for, and may be: none was asked for since the last healthy stretch, nor within a day. */
  predicate MayReboot(r: State, now: int) {
    !r.latched && (r.lastReboot == 0 || now - r.lastReboot >= 86400)
  }

  /** The age of the outage that began with observation m reaches 900 seconds at observation k. */
  predicate ComesOfAge(obs: seq<Observation>, m: nat, k: nat)
    requires k < |obs|
  {
    m < k && obs[k - 1].uptime - obs[m].uptime < 900 <= obs[k].uptime - obs[m].uptime
  }

  /** In an outage a reboot is taken exactly when its age reaches 900 seconds and it may be; it is announced as
      suppressed exactly when it may not. */
  lemma {:induction false} RebootExactly(s: State, obs: seq<Observation>, m: nat, k: nat)
    requires WithoutEvidence(s) && OutageStart(obs, m) && Outage(obs, m, k)
    ensures At(s, obs, k).action == Reboot <==> ComesOfAge(obs, m, k) && MayReboot(Run(s, obs, k), obs[k].now)
    ensures RebootSuppressed in At(s, obs, k).events
            <==> ComesOfAge(obs, m, k) && !MayReboot(Run(s, obs, k), obs[k].now)
  {
    OutageLadder(s, obs, m, k);
  }

  // ---------- what is remembered ----------

  /** The network has been reachable for at least 1800 seconds without a break, up to observation k. */
  predicate Rested(obs: seq<Observation>, k: nat)
    requires k < |obs|
  {
    exists m | 0 <= m <= k :: Healthy(obs, m, k) && obs[k].uptime - obs[m].uptime >= 1800
  }

  lemma {:induction false} HealthyGrows(obs: seq<Observation>, m: nat, i: nat, k: nat)
    requires Healthy(obs, m, k) && m <= i <= k
    ensures obs[m].uptime <= obs[i].uptime
    decreases i
  {
    if m < i {
      assert Joined(obs, i);
      HealthyGrows(obs, m, i - 1, k);
    }
  }

  // No healthy stretch reaches further back than its start.
  lemma {:induction false} StartIsFirst(obs: seq<Observation>, m: nat, i: nat, k: nat)
    requires HealthyStart(obs, m) && Healthy(obs, m, k) && Healthy(obs, i, k)
    ensures m <= i
  {
    if i < m {
      assert Joined(obs, m) && obs[m - 1].reachable;
      assert Healthy(obs, m - 1, m);
      assert false;
    }
  }

  lemma {:induction false} RestedExactly(s: State, obs: seq<Observation>, k: nat)
    requires WithoutEvidence(s) && k < |obs| && obs[k].reachable
    ensures Rested(obs, k) <==> obs[k].uptime - Run(s, obs, k + 1).healthySince >= 1800
  {
    var m := FindHealthyStart(obs, k);
    HealthySinceIsHealthyStart(s, obs, m, k);
    if Rested(obs, k) {
      var i :| 0 <= i <= k && Healthy(obs, i, k) && obs[k].uptime - obs[i].uptime >= 1800;
      StartIsFirst(obs, m, i, k);
      HealthyGrows(obs, m, i, k);
    }
  }

  lemma LatchOfStep(r: State, o: Observation)
    ensures Step(r, o).state.latched
            <==> Step(r, o).action == Reboot
                 || (r.latched && !(o.reachable && o.uptime - Step(r, o).state.healthySince >= 1800
                                    && o.now - r.lastReboot >= 86400))
    ensures Step(r, o).state.lastReboot == if Step(r, o).action == Reboot then o.now else r.lastReboot
  {
  }

  /** The latch closes with a reboot and opens again exactly once the network has been reachable for 1800
      seconds without a break and a day has passed since; the time of the last reboot changes with a reboot
      only. */
  lemma LatchExactly(s: State, obs: seq<Observation>, k: nat)
    requires WithoutEvidence(s) && k < |obs|
    ensures var r, after, asked := Run(s, obs, k), Run(s, obs, k + 1), At(s, obs, k).action == Reboot;
            && (after.latched <==>
                  asked || (r.latched && !(Rested(obs, k) && obs[k].now - r.lastReboot >= 86400)))
            && after.lastReboot == (if asked then obs[k].now else r.lastReboot)
  {
    LatchOfStep(Run(s, obs, k), obs[k]);
    if obs[k].reachable {
      RestedExactly(s, obs, k);
    }
  }

  /** An outage is remembered by the wall clock of its first observation, until the next one begins. */
  lemma IncidentExactly(s: State, obs: seq<Observation>, k: nat)
    requires WithoutEvidence(s) && k < |obs|
    ensures Run(s, obs, k + 1).incident
            == if !obs[k].reachable && obs[k].blocked == "" && !FailingBefore(obs, k) then obs[k].now
               else Run(s, obs, k).incident
  {
    RecordFollowsObservations(s, obs, k);
    if k > 0 && Failing(obs[k - 1]) {
      FailingIsSince(s, obs, k);
    }
  }
}
