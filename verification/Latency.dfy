/** The latency estimate of a connection, made from pings and pongs without matching them up. */
module Latency {

  /** Send times of the pings that have not been answered yet, oldest first. */
  ghost predicate Ordered(times: seq<int>) {
    forall i, j :: 0 <= i < j < |times| ==> times[i] <= times[j]
  }

  function Gap(times: seq<int>, i: nat): int
    requires i + 1 < |times|
  {
    times[i + 1] - times[i]
  }

  function LastGap(times: seq<int>): int
    requires |times| >= 2
  {
    Gap(times, |times| - 2)
  }

  /** What is stored on a pong, from the time of the last ping and the interval before it. */
  function Estimate(now: int, lastPing: int, interval: int, pending: int): int {
    now - lastPing + (if pending > 1 then (pending - 1) * interval else 0)
  }

  /** By how much the gaps between outstanding pings fall short of the last of them, in all. */
  function Drift(times: seq<int>, gap: int): int {
    if |times| < 2 then 0 else gap - Gap(times, 0) + Drift(times[1..], gap)
  }

  /**
    The error of the estimate, for any number of outstanding pings: the true delay of the oldest
    ping plus the drift of the gaps.
   */
  lemma {:induction false} EstimateError(times: seq<int>, now: int, gap: int)
    requires times != []
    ensures Estimate(now, times[|times| - 1], gap, |times|) == now - times[0] + Drift(times, gap)
    decreases |times|
  {
    if |times| < 2 {
    } else {
      var rest := times[1..];
      assert rest[|rest| - 1] == times[|times| - 1] && rest[0] == times[1];
      EstimateError(rest, now, gap);
      assert (|times| - 1) * gap == (|rest| - 1) * gap + gap;
    }
  }

  lemma {:induction false} NoDrift(times: seq<int>, gap: int)
    requires forall i: nat :: i < |times| - 1 ==> Gap(times, i) == gap
    ensures Drift(times, gap) == 0
    decreases |times|
  {
    if |times| < 2 {
    } else {
      assert forall i: nat :: i < |times| - 2 ==> Gap(times[1..], i) == Gap(times, i + 1);
      NoDrift(times[1..], gap);
    }
  }

  /** The estimate is exact with one or two outstanding pings, and with any number at equal gaps. */
  lemma EstimateExact(times: seq<int>, now: int, gap: int)
    requires times != [] && (|times| >= 2 ==> gap == LastGap(times))
    requires |times| <= 2 || forall i: nat :: i < |times| - 1 ==> Gap(times, i) == LastGap(times)
    ensures Estimate(now, times[|times| - 1], gap, |times|) == now - times[0]
  {
    EstimateError(times, now, gap);
    if |times| >= 2 {
      NoDrift(times, gap);
    }
  }

  /** Pings sent further and further apart make the estimate too high, closer and closer together too low. */
  lemma {:induction false} DriftSign(times: seq<int>, gap: int)
    ensures (forall i: nat :: i < |times| - 1 ==> Gap(times, i) <= gap) ==> Drift(times, gap) >= 0
    ensures (forall i: nat :: i < |times| - 1 ==> Gap(times, i) >= gap) ==> Drift(times, gap) <= 0
    decreases |times|
  {
    if |times| < 2 {
    } else {
      assert forall i: nat :: i < |times| - 2 ==> Gap(times[1..], i) == Gap(times, i + 1);
      DriftSign(times[1..], gap);
    }
  }

  /** Among pings whose last gap is the longest (or the shortest), the estimate is exact only if all gaps are equal. */
  lemma {:induction false} ExactOnlyIfEven(times: seq<int>, gap: int)
    requires Drift(times, gap) == 0
    requires
      || (forall i: nat :: i < |times| - 1 ==> Gap(times, i) <= gap)
      || (forall i: nat :: i < |times| - 1 ==> Gap(times, i) >= gap)
    ensures forall i: nat :: i < |times| - 1 ==> Gap(times, i) == gap
    decreases |times|
  {
    if |times| < 2 {
    } else {
      var rest := times[1..];
      assert forall i: nat :: i < |times| - 2 ==> Gap(times[1..], i) == Gap(times, i + 1);
      assert Gap(times, 0) == gap by { DriftSign(rest, gap); }
      ExactOnlyIfEven(rest, gap);
      forall i: nat | i < |times| - 1 ensures Gap(times, i) == gap {
        if i > 0 {
          assert Gap(rest, i - 1) == Gap(times, i);
        }
      }
    }
  }

  class ConnectionStats {
    var lastPing: nat
    var lastPingInterval: nat
    var pendingPongs: int
    var lastLatency: nat
    ghost var outstanding: seq<int>   // send times of unanswered pings
    ghost var pings: nat
    ghost var pongs: nat              // all received, expected or not
    ghost var accepted: nat

    /** Counters agree; as long as no pong came unexpectedly, they describe the outstanding pings. */
    ghost predicate Valid()
      reads this
    {
      && pendingPongs == pings - pongs
      && accepted <= pongs && accepted <= pings
      && Ordered(outstanding)
      && (accepted == pongs ==>
            && |outstanding| == pendingPongs
            && (outstanding != [] ==> outstanding[|outstanding| - 1] == lastPing)
            && (|outstanding| >= 2 ==> lastPingInterval == LastGap(outstanding)))
      && (forall i :: 0 <= i < |outstanding| ==> outstanding[i] <= lastPing)
    }

    constructor ()
      ensures Valid() && pings == pongs == accepted == 0 && outstanding == []
    {
      lastPing, lastPingInterval, pendingPongs, lastLatency := 0, 0, 0, 0;
      outstanding, pings, pongs, accepted := [], 0, 0, 0;
    }

    /** A ping is sent at time `now`. The clock does not go backwards. */
    method NotifyPing(now: nat)
      requires Valid() && lastPing <= now
      modifies this
      ensures Valid() && outstanding == old(outstanding) + [now] && lastPing == now
      ensures pings == old(pings) + 1 && pongs == old(pongs) && accepted == old(accepted)
      ensures lastLatency == old(lastLatency)
    {
      var previousPing := lastPing;
      lastPing := now;
      lastPingInterval := now - previousPing;
      pendingPongs := pendingPongs + 1;
      outstanding := outstanding + [now];
      pings := pings + 1;
    }

    /**
      A pong arrives at time `now`. It is refused exactly when no ping is unanswered. If no pong
      came unexpectedly before, the stored value is the delay of the oldest unanswered ping plus
      the drift of the gaps between the unanswered ones.
     */
    method NotifyPong(now: nat) returns (ok: bool)
      requires Valid() && lastPing <= now
      modifies this
      ensures Valid()
      ensures ok <==> old(pongs) < old(pings)
      ensures pongs == old(pongs) + 1 && pings == old(pings) && accepted == old(accepted) + (if ok then 1 else 0)
      ensures ok && old(accepted) == old(pongs) ==>
                && old(outstanding) != [] && outstanding == old(outstanding)[1..]
                && lastLatency == now - old(outstanding)[0] + Drift(old(outstanding), lastPingInterval)
      ensures ok && old(accepted) == old(pongs) && old(|outstanding|) <= 2 ==> lastLatency == now - old(outstanding)[0]
      ensures !ok ==> lastLatency == old(lastLatency)
      ensures lastPing == old(lastPing) && lastPingInterval == old(lastPingInterval)
    {
      var oldPendingPongs := pendingPongs;
      pendingPongs := pendingPongs - 1;
      pongs := pongs + 1;
      if oldPendingPongs <= 0 {
        return false;
      }
      var extraDelay := if oldPendingPongs > 1 then (oldPendingPongs - 1) * lastPingInterval else 0;
      lastLatency := now - lastPing + extraDelay;
      accepted := accepted + 1;
      if accepted == pongs {
        EstimateError(outstanding, now, lastPingInterval);
        if |outstanding| <= 2 {
          EstimateExact(outstanding, now, lastPingInterval);
        }
        outstanding := outstanding[1..];
      }
      return true;
    }
  }
}
