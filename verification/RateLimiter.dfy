/** The dashboard's per-client rate limit: buckets of admission times, popped lazily and pruned now and then,
    against a count over the whole history. */
module RateLimiter {

  type Peer = string

  const WINDOW := 60.0

  /** A decided request. */
  datatype Event = Event(peer: Peer, at: real, admitted: bool)

  // ---------- the whole history ----------

  function Admissions(history: seq<Event>, peer: Peer): seq<real> {
    if history == [] then []
    else
      var last := history[|history| - 1];
      Admissions(history[..|history| - 1], peer) + if last.admitted && last.peer == peer then [last.at] else []
  }

  /** How many of these times lie after the cutoff. */
  function CountAfter(times: seq<real>, cutoff: real): nat {
    if times == [] then 0
    else CountAfter(times[..|times| - 1], cutoff) + if times[|times| - 1] > cutoff then 1 else 0
  }

  /** Admissions of a client in the sixty seconds up to now. */
  function Recent(history: seq<Event>, peer: Peer, now: real): nat {
    CountAfter(Admissions(history, peer), now - WINDOW)
  }

  predicate Ordered(times: seq<real>) {
    forall i, j | 0 <= i < j < |times| :: times[i] <= times[j]
  }

  predicate Chronological(history: seq<Event>) {
    forall i, j | 0 <= i < j < |history| :: history[i].at <= history[j].at
  }

  predicate DecidedAt(history: seq<Event>, limit: nat, n: nat)
    requires n < |history|
  {
    history[n].admitted <==> Recent(history[..n], history[n].peer, history[n].at) < limit
  }

  /** Every request was decided by the history before it. */
  predicate Decided(history: seq<Event>, limit: nat) {
    forall n: nat | n < |history| :: DecidedAt(history, limit, n)
  }

  // ---------- buckets ----------

  /** What is left of a bucket after popping expired times off its front. */
  function Live(times: seq<real>, cutoff: real): seq<real> {
    if times != [] && times[0] <= cutoff then Live(times[1..], cutoff) else times
  }

  function Bucket(buckets: map<Peer, seq<real>>, peer: Peer): seq<real> {
    if peer in buckets then buckets[peer] else []
  }

  /** A bucket holds the admissions of its client except for some that had expired by `now`. */
  ghost predicate Holds(bucket: seq<real>, admissions: seq<real>, now: real) {
    exists n: nat :: Kept(bucket, admissions, now, n)
  }

  predicate Kept(bucket: seq<real>, admissions: seq<real>, now: real, n: nat) {
    n <= |admissions| && bucket == admissions[n..] && forall i | 0 <= i < n :: admissions[i] <= now - WINDOW
  }

  lemma {:induction false} AdmissionsBounded(history: seq<Event>, peer: Peer, now: real)
    requires Chronological(history) && forall i | 0 <= i < |history| :: history[i].at <= now
    ensures Ordered(Admissions(history, peer)) && forall i | 0 <= i < |Admissions(history, peer)| ::
            Admissions(history, peer)[i] <= now
  {
    if history != [] {
      AdmissionsBounded(history[..|history| - 1], peer, history[|history| - 1].at);
    }
  }

  lemma {:induction false} CountSplit(a: seq<real>, b: seq<real>, cutoff: real)
    ensures CountAfter(a + b, cutoff) == CountAfter(a, cutoff) + CountAfter(b, cutoff)
  {
    if b == [] {
      assert a + b == a;
    } else {
      assert (a + b)[..|a + b| - 1] == a + b[..|b| - 1];
      CountSplit(a, b[..|b| - 1], cutoff);
    }
  }

  lemma {:induction false} CountNone(times: seq<real>, cutoff: real)
    requires forall i | 0 <= i < |times| :: times[i] <= cutoff
    ensures CountAfter(times, cutoff) == 0
  {
    if times != [] {
      CountNone(times[..|times| - 1], cutoff);
    }
  }

  lemma {:induction false} CountAll(times: seq<real>, cutoff: real)
    requires forall i | 0 <= i < |times| :: times[i] > cutoff
    ensures CountAfter(times, cutoff) == |times|
  {
    if times != [] {
      CountAll(times[..|times| - 1], cutoff);
    }
  }

  lemma {:induction false} LiveFrom(times: seq<real>, k: nat, cutoff: real)
    requires k <= |times| && (forall i | 0 <= i < k :: times[i] <= cutoff) && (k < |times| ==> times[k] > cutoff)
    ensures Live(times, cutoff) == times[k..]
  {
    if k > 0 {
      LiveFrom(times[1..], k - 1, cutoff);
      assert times[1..][k - 1..] == times[k..];
    }
  }

  // Popping stops at the first time that has not expired.
  lemma {:induction false} LiveLength(times: seq<real>, cutoff: real)
    ensures |Live(times, cutoff)| <= |times|
    ensures var k := |times| - |Live(times, cutoff)|;
            (forall i | 0 <= i < k :: times[i] <= cutoff) && (k < |times| ==> times[k] > cutoff)
  {
    if times != [] && times[0] <= cutoff {
      LiveLength(times[1..], cutoff);
      var k := |times| - |Live(times, cutoff)|;
      forall i | 0 <= i < k ensures times[i] <= cutoff {
        if i > 0 {
          assert times[i] == times[1..][i - 1];
        }
      }
    }
  }

  lemma {:induction false} OrderedCount(times: seq<real>, k: nat, cutoff: real)
    requires Ordered(times) && k <= |times|
    requires (forall i | 0 <= i < k :: times[i] <= cutoff) && (k < |times| ==> times[k] > cutoff)
    ensures CountAfter(times, cutoff) == |times| - k
  {
    CountNone(times[..k], cutoff);
    CountAll(times[k..], cutoff);
    CountSplit(times[..k], times[k..], cutoff);
    assert times[..k] + times[k..] == times;
  }

  /** The popped bucket is what popping the whole history would leave: exactly the recent admissions. */
  lemma LiveCounts(bucket: seq<real>, admissions: seq<real>, now: real)
    requires Ordered(admissions) && Holds(bucket, admissions, now)
    ensures Live(bucket, now - WINDOW) == Live(admissions, now - WINDOW)
    ensures |Live(bucket, now - WINDOW)| == CountAfter(admissions, now - WINDOW)
    ensures Holds(Live(bucket, now - WINDOW), admissions, now)
  {
    var n: nat :| Kept(bucket, admissions, now, n);
    var cutoff := now - WINDOW;
    LiveLength(bucket, cutoff);
    var m := |bucket| - |Live(bucket, cutoff)|;
    LiveFrom(bucket, m, cutoff);
    var k := n + m;
    forall i | 0 <= i < k ensures admissions[i] <= cutoff {
      if i >= n {
        assert admissions[i] == bucket[i - n];
      }
    }
    LiveFrom(admissions, k, cutoff);
    assert admissions[n..][m..] == admissions[k..];
    assert Kept(Live(bucket, cutoff), admissions, now, k);
    OrderedCount(admissions, k, cutoff);
  }

  lemma {:induction false} FirstLive(times: seq<real>, cutoff: real)
    ensures Live(times, cutoff) != [] ==> Live(times, cutoff)[0] > cutoff
  {
    if times != [] && times[0] <= cutoff {
      FirstLive(times[1..], cutoff);
    }
  }

  function WaitFor(recent: seq<real>, now: real): int {
    if recent == [] then 1
    else var seconds := (61.0 - (now - recent[0])).Floor; if seconds < 1 then 1 else seconds
  }

  /** The announced wait, in whole seconds: until just after the oldest recent admission expires. */
  function Wait(history: seq<Event>, peer: Peer, now: real): int {
    WaitFor(Live(Admissions(history, peer), now - WINDOW), now)
  }

  lemma {:induction false} AdmittedNext(history: seq<Event>, e: Event, peer: Peer)
    ensures Admissions(history + [e], peer)
            == Admissions(history, peer) + if e.admitted && e.peer == peer then [e.at] else []
  {
    assert (history + [e])[..|history|] == history;
  }

  lemma DecidedNext(history: seq<Event>, e: Event, limit: nat)
    requires Decided(history, limit) && (e.admitted <==> Recent(history, e.peer, e.at) < limit)
    ensures Decided(history + [e], limit)
  {
    var longer := history + [e];
    forall n: nat | n < |longer| ensures DecidedAt(longer, limit, n) {
      assert longer[..n] == history[..n];
      assert n < |history| ==> DecidedAt(history, limit, n);
    }
  }

  // ---------- all buckets together ----------

  type Buckets = map<Peer, seq<real>>

  /** The buckets are the history, less admissions that had expired by `now`. */
  ghost predicate Faithful(buckets: Buckets, history: seq<Event>, now: real) {
    forall peer :: Holds(Bucket(buckets, peer), Admissions(history, peer), now)
  }

  lemma StaysFaithful(buckets: Buckets, history: seq<Event>, before: real, now: real)
    requires Faithful(buckets, history, before) && before <= now
    ensures Faithful(buckets, history, now)
  {
    forall peer ensures Holds(Bucket(buckets, peer), Admissions(history, peer), now) {
      assert Holds(Bucket(buckets, peer), Admissions(history, peer), before);
      var n: nat :| Kept(Bucket(buckets, peer), Admissions(history, peer), before, n);
      assert Kept(Bucket(buckets, peer), Admissions(history, peer), now, n);
    }
  }

  lemma {:induction false} SetFaithful(buckets: Buckets, history: seq<Event>, now: real, peer: Peer, bucket: seq<real>)
    requires Faithful(buckets, history, now) && Holds(bucket, Admissions(history, peer), now)
    ensures Faithful(buckets[peer := bucket], history, now)
    ensures bucket == [] ==> Faithful(buckets - {peer}, history, now)
  {
    forall other ensures Holds(Bucket(buckets[peer := bucket], other), Admissions(history, other), now) {
      assert Holds(Bucket(buckets, other), Admissions(history, other), now);
    }
    forall other ensures bucket == [] ==> Holds(Bucket(buckets - {peer}, other), Admissions(history, other), now) {
      assert Holds(Bucket(buckets, other), Admissions(history, other), now);
    }
  }

  lemma {:induction false} PoppedFaithful(buckets: Buckets, history: seq<Event>, now: real, peer: Peer)
    requires Chronological(history) && (forall i | 0 <= i < |history| :: history[i].at <= now)
             && Faithful(buckets, history, now)
    ensures var popped := Live(Bucket(buckets, peer), now - WINDOW);
            && Faithful(buckets[peer := popped], history, now)
            && (popped == [] ==> Faithful(buckets - {peer}, history, now))
            && popped == Live(Admissions(history, peer), now - WINDOW) && |popped| == Recent(history, peer, now)
            && Holds(popped, Admissions(history, peer), now)
  {
    AdmissionsBounded(history, peer, now);
    assert Holds(Bucket(buckets, peer), Admissions(history, peer), now);
    LiveCounts(Bucket(buckets, peer), Admissions(history, peer), now);
    SetFaithful(buckets, history, now, peer, Live(Bucket(buckets, peer), now - WINDOW));
  }

  lemma AppendHolds(bucket: seq<real>, admissions: seq<real>, now: real, at: real)
    requires Holds(bucket, admissions, now)
    ensures Holds(bucket + [at], admissions + [at], now)
  {
    var n: nat :| Kept(bucket, admissions, now, n);
    assert Kept(bucket + [at], admissions + [at], now, n);
  }

  function Noted(buckets: Buckets, e: Event): Buckets {
    if e.admitted then buckets[e.peer := Bucket(buckets, e.peer) + [e.at]] else buckets
  }

  lemma NotedFaithful(buckets: Buckets, history: seq<Event>, e: Event)
    requires Faithful(buckets, history, e.at)
    ensures Faithful(Noted(buckets, e), history + [e], e.at)
  {
    forall peer ensures Holds(Bucket(Noted(buckets, e), peer), Admissions(history + [e], peer), e.at) {
      NotedHolds(buckets, history, e, peer);
    }
  }

  lemma {:induction false} NotedHolds(buckets: Buckets, history: seq<Event>, e: Event, peer: Peer)
    requires Holds(Bucket(buckets, peer), Admissions(history, peer), e.at)
    ensures Holds(Bucket(Noted(buckets, e), peer), Admissions(history + [e], peer), e.at)
  {
    AdmittedNext(history, e, peer);
    if e.admitted && e.peer == peer {
      AppendHolds(Bucket(buckets, peer), Admissions(history, peer), e.at, e.at);
    } else {
      assert Admissions(history, peer) + [] == Admissions(history, peer);
      assert Bucket(Noted(buckets, e), peer) == Bucket(buckets, peer);
    }
  }

  /** The limiter's state after a decision is again one, with the decision in its history. */
  lemma NextState(buckets: Buckets, history: seq<Event>, e: Event, limit: nat)
    requires Chronological(history) && (forall i | 0 <= i < |history| :: history[i].at <= e.at)
    requires Decided(history, limit) && Faithful(buckets, history, e.at)
             && (e.admitted <==> Recent(history, e.peer, e.at) < limit)
    ensures Chronological(history + [e]) && (forall i | 0 <= i < |history + [e]| :: (history + [e])[i].at <= e.at)
    ensures Decided(history + [e], limit) && Faithful(Noted(buckets, e), history + [e], e.at)
  {
    NotedFaithful(buckets, history, e);
    DecidedNext(history, e, limit);
  }

  // Buckets that have been looked at are not empty and start with a live time.
  ghost predicate FrontsLive(buckets: Buckets, left: set<Peer>, now: real) {
    forall peer | peer in buckets && peer !in left :: buckets[peer] != [] && buckets[peer][0] > now - WINDOW
  }

  // Popping one of the buckets left leaves one less, whether it is kept or dropped.
  lemma {:induction false} BucketPruned(buckets: Buckets, left: set<Peer>, now: real, stale: Peer)
    requires stale in left && left <= buckets.Keys && FrontsLive(buckets, left, now)
    ensures var popped := Live(buckets[stale], now - WINDOW);
            if popped == [] then
              && buckets[stale := popped] - {stale} == buckets - {stale}
              && left - {stale} <= (buckets - {stale}).Keys && FrontsLive(buckets - {stale}, left - {stale}, now)
            else FrontsLive(buckets[stale := popped], left - {stale}, now)
  {
    FirstLive(buckets[stale], now - WINDOW);
  }

  // ---------- the limiter as a program ----------

  class Limiter {
    const limit: nat
    var buckets: Buckets
    var lastPrune: real
    ghost var history: seq<Event>
    ghost var clock: real

    ghost predicate Valid()
      reads this
    {
      && limit >= 1 && Chronological(history) && Decided(history, limit) && Faithful(buckets, history, clock)
      && forall i | 0 <= i < |history| :: history[i].at <= clock
    }

    constructor (configured: int, now: real)
      ensures Valid() && history == [] && clock == now && limit == if configured < 1 then 1 else configured
    {
      limit := if configured < 1 then 1 else configured;
      buckets, lastPrune := map[], 0.0;
      history, clock := [], now;
      new;
      forall peer ensures Holds(Bucket(buckets, peer), Admissions(history, peer), clock) {
        assert Kept([], [], clock, 0);
      }
    }

    /** Looking up a bucket creates it; expired times are popped off its front. */
    method PopExpired(peer: Peer, cutoff: real) returns (bucket: seq<real>)
      modifies this`buckets
      ensures bucket == Live(Bucket(old(buckets), peer), cutoff) && buckets == old(buckets)[peer := bucket]
    {
      bucket := Bucket(buckets, peer);
      while bucket != [] && bucket[0] <= cutoff
        invariant Live(bucket, cutoff) == Live(Bucket(buckets, peer), cutoff)
        decreases |bucket|
      {
        bucket := bucket[1..];
      }
      buckets := buckets[peer := bucket];
    }

    /** Once a minute every bucket is popped and the empty ones are dropped. */
    method Prune(now: real)
      requires Valid() && clock <= now
      modifies this`buckets, this`lastPrune
      ensures Faithful(buckets, history, now)
      ensures now - old(lastPrune) >= WINDOW ==> forall peer | peer in buckets ::
              buckets[peer] != [] && buckets[peer][0] > now - WINDOW
    {
      StaysFaithful(buckets, history, clock, now);
      if now - lastPrune < WINDOW {
        return;
      }
      var left := buckets.Keys;
      while left != {}
        invariant left <= buckets.Keys && Faithful(buckets, history, now)
        invariant FrontsLive(buckets, left, now)
        decreases left
      {
        var stale :| stale in left;
        PoppedFaithful(buckets, history, now, stale);
        BucketPruned(buckets, left, now, stale);
        var bucket := PopExpired(stale, now - WINDOW);
        if bucket == [] {
          buckets := buckets - {stale};
        }
        left := left - {stale};
      }
      lastPrune := now;
    }

    /** Decide one request. A refused client is told how many seconds to wait. */
    method Request(peer: Peer, now: real) returns (admitted: bool, retryAfter: int)
      requires Valid() && clock <= now
      modifies this
      ensures Valid() && clock == now && history == old(history) + [Event(peer, now, admitted)]
      ensures admitted <==> Recent(old(history), peer, now) < limit
      ensures !admitted ==> retryAfter == Wait(old(history), peer, now)
    {
      Prune(now);
      admitted, retryAfter := Count(peer, now);
      var e := Event(peer, now, admitted);
      NextState(buckets, history, e, limit);
      if admitted {
        buckets := buckets[peer := buckets[peer] + [now]];
      }
      history, clock := history + [e], now;
    }

    /** Pop this client's bucket and compare what is left with the limit. */
    method Count(peer: Peer, now: real) returns (admitted: bool, retryAfter: int)
      requires limit >= 1 && Chronological(history) && (forall i | 0 <= i < |history| :: history[i].at <= now)
      requires Faithful(buckets, history, now)
      modifies this`buckets
      ensures Faithful(buckets, history, now) && peer in buckets
      ensures admitted <==> Recent(history, peer, now) < limit
      ensures !admitted ==> retryAfter == Wait(history, peer, now)
    {
      PoppedFaithful(buckets, history, now, peer);
      var bucket := PopExpired(peer, now - WINDOW);
      admitted := |bucket| < limit;
      retryAfter := 0;
      if !admitted {
        var seconds := (61.0 - (now - bucket[0])).Floor;
        retryAfter := if seconds < 1 then 1 else seconds;
        assert retryAfter == WaitFor(bucket, now);
      }
    }
  }
}
