/** What the per-client decisions add up to: no sixty seconds see more admissions than the limit, and the
    wait announced to a refused client is long enough and not a second too long. */
module RateWindows {
  import opened RateLimiter

  /** How many times lie after `from` and not after `to`. */
  function CountBetween(times: seq<real>, from: real, to: real): nat {
    if times == [] then 0
    else CountBetween(times[..|times| - 1], from, to) + if from < times[|times| - 1] <= to then 1 else 0
  }

  lemma {:induction false} BetweenIsAfter(times: seq<real>, from: real, to: real, cutoff: real)
    requires cutoff <= from
    ensures CountBetween(times, from, to) <= CountAfter(times, cutoff)
  {
    if times != [] {
      BetweenIsAfter(times[..|times| - 1], from, to, cutoff);
    }
  }

  lemma {:induction false} AllBetween(times: seq<real>, from: real, to: real)
    requires forall i | 0 <= i < |times| :: times[i] <= to
    ensures CountBetween(times, from, to) == CountAfter(times, from)
  {
    if times != [] {
      AllBetween(times[..|times| - 1], from, to);
    }
  }

  lemma DecidedBefore(history: seq<Event>, limit: nat)
    requires history != [] && Decided(history, limit)
    ensures Decided(history[..|history| - 1], limit)
  {
    var before := history[..|history| - 1];
    forall n: nat | n < |before| ensures DecidedAt(before, limit, n) {
      assert DecidedAt(history, limit, n);
      assert before[..n] == history[..n];
    }
  }

  /** Any sixty seconds, at any place in the history, see at most `limit` admissions of a client. */
  lemma {:induction false} NoWindowExceeds(history: seq<Event>, limit: nat, peer: Peer, from: real)
    requires Decided(history, limit)
    ensures CountBetween(Admissions(history, peer), from, from + WINDOW) <= limit
  {
    if history != [] {
      var before, e := history[..|history| - 1], history[|history| - 1];
      DecidedBefore(history, limit);
      NoWindowExceeds(before, limit, peer, from);
      if e.admitted && e.peer == peer {
        assert Admissions(history, peer)[..|Admissions(history, peer)| - 1] == Admissions(before, peer);
        if from < e.at <= from + WINDOW {
          assert DecidedAt(history, limit, |before|);
          BetweenIsAfter(Admissions(before, peer), from, from + WINDOW, e.at - WINDOW);
        }
      } else {
        assert Admissions(history, peer) == Admissions(before, peer);
      }
    }
  }

  /** The admission whose expiry a refused client waits for. */
  function Oldest(history: seq<Event>, peer: Peer, now: real): real
    requires Live(Admissions(history, peer), now - WINDOW) != []
  {
    Live(Admissions(history, peer), now - WINDOW)[0]
  }

  lemma {:induction false} RefusedAtLimit(history: seq<Event>, limit: nat, peer: Peer, now: real)
    requires limit >= 1 && Chronological(history) && Decided(history, limit)
    requires (forall i | 0 <= i < |history| :: history[i].at <= now) && Recent(history, peer, now) >= limit
    ensures |Live(Admissions(history, peer), now - WINDOW)| == Recent(history, peer, now) == limit
    ensures Oldest(history, peer, now) > now - WINDOW && Oldest(history, peer, now) <= now
  {
    var times := Admissions(history, peer);
    AdmissionsBounded(history, peer, now);
    NoWindowExceeds(history, limit, peer, now - WINDOW);
    AllBetween(times, now - WINDOW, now - WINDOW + WINDOW);
    LiveLength(times, now - WINDOW);
    var k := |times| - |Live(times, now - WINDOW)|;
    OrderedCount(times, k, now - WINDOW);
    LiveFrom(times, k, now - WINDOW);
  }

  lemma {:induction false} CountFromOldest(times: seq<real>, k: nat, cutoff: real)
    requires Ordered(times) && k < |times|
    ensures times[k] <= cutoff ==> CountAfter(times, cutoff) <= |times| - k - 1
    ensures times[k] > cutoff ==> CountAfter(times, cutoff) >= |times| - k
  {
    if times[k] > cutoff {
      CountTail(times, k, cutoff);
    } else {
      CountHead(times, k, cutoff);
    }
  }

  lemma {:induction false} CountTail(times: seq<real>, k: nat, cutoff: real)
    requires Ordered(times) && k < |times| && times[k] > cutoff
    ensures CountAfter(times, cutoff) >= |times| - k
  {
    assert times == times[..k] + times[k..];
    CountSplit(times[..k], times[k..], cutoff);
    CountAll(times[k..], cutoff);
  }

  lemma {:induction false} CountHead(times: seq<real>, k: nat, cutoff: real)
    requires Ordered(times) && k < |times| && times[k] <= cutoff
    ensures CountAfter(times, cutoff) <= |times| - k - 1
  {
    assert times == times[..k + 1] + times[k + 1..];
    CountSplit(times[..k + 1], times[k + 1..], cutoff);
    CountNone(times[..k + 1], cutoff);
    CountAtMost(times[k + 1..], cutoff);
  }

  lemma {:induction false} CountAtMost(times: seq<real>, cutoff: real)
    ensures CountAfter(times, cutoff) <= |times|
  {
    if times != [] {
      CountAtMost(times[..|times| - 1], cutoff);
    }
  }

  lemma {:induction false} WaitOutlastsExpiry(history: seq<Event>, peer: Peer, now: real)
    requires Live(Admissions(history, peer), now - WINDOW) != []
    requires now - WINDOW < Oldest(history, peer, now) <= now
    ensures var expiry := Oldest(history, peer, now) + WINDOW;
            expiry < now + Wait(history, peer, now) as real <= expiry + 1.0
  {
  }

  lemma RefusedUntilExpiry(history: seq<Event>, limit: nat, peer: Peer, now: real, at: real)
    requires Ordered(Admissions(history, peer)) && now <= at
    requires limit >= 1 && |Live(Admissions(history, peer), now - WINDOW)| == limit
    ensures CountAfter(Admissions(history, peer), at - WINDOW) < limit <==> at >= Oldest(history, peer, now) + WINDOW
  {
    var times := Admissions(history, peer);
    LiveLength(times, now - WINDOW);
    var k := |times| - |Live(times, now - WINDOW)|;
    LiveFrom(times, k, now - WINDOW);
    CountFromOldest(times, k, at - WINDOW);
  }

  /** A refused client that waits the announced whole seconds (section 10.2.3 of RFC 9110) is admitted if
      nothing else was admitted for it meanwhile. Until its oldest recent admission expires it would still be
      refused, and the wait outlasts that moment by at most a second. */
  lemma {:induction false} AnnouncedWaitSuffices(history: seq<Event>, later: seq<Event>, limit: nat, peer: Peer,
                                                 now: real, at: real)
    requires limit >= 1 && Chronological(history) && Decided(history, limit)
    requires (forall i | 0 <= i < |history| :: history[i].at <= now) && Recent(history, peer, now) >= limit
    requires Admissions(later, peer) == Admissions(history, peer) && now <= at
    ensures Live(Admissions(history, peer), now - WINDOW) != []
    ensures var expiry := Oldest(history, peer, now) + WINDOW;
            && (Recent(later, peer, at) < limit <==> at >= expiry)
            && expiry < now + Wait(history, peer, now) as real <= expiry + 1.0
  {
    RefusedAtLimit(history, limit, peer, now);
    AdmissionsBounded(history, peer, now);
    RefusedUntilExpiry(history, limit, peer, now, at);
    WaitOutlastsExpiry(history, peer, now);
  }
}
