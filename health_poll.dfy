/**
 * The deadline-bounded polling loop of `wait_and_resume_asg`: sample the
 * group's health while the clock is before the deadline, stop at the first
 * healthy sample, and sleep 30 seconds after each unhealthy one.
 */
module HealthPoll {
  import opened ScalingGroups
  import opened Remote

  /** `timedelta(minutes=10)`, in seconds. */
  const TimeoutSeconds: int := 600

  /** `time.sleep(30)`. */
  const PollIntervalSeconds: nat := 30

  /** How the loop ended: on a healthy sample or at the deadline, the index of
      the next describe call, the last clock reading and the index of the next
      guard evaluation. */
  datatype PollEnd = PollEnd(healthy: bool, next: nat, now: int, tick: nat)

  /** The loop, entered with the guard's clock reading `now` already taken;
      `next` indexes the describe call of the next sample, `tick` the next
      guard evaluation. */
  function Poll(oracle: Oracle, next: nat, now: int, tick: nat, deadline: int): PollEnd
    decreases deadline - now
  {
    if deadline <= now then PollEnd(false, next, now, tick)
    else if IsAsgInstancesHealthy(oracle.describe(next)) then PollEnd(true, next + 1, now, tick)
    else Poll(oracle, next + 1, now + PollIntervalSeconds + oracle.drift(tick), tick + 1, deadline)
  }

  /** How the loop can end: it samples at least once exactly when it is
      entered before the deadline; it ends healthy only on a healthy sample
      taken before the deadline, and otherwise only once the clock has
      reached the deadline; every sample before the last, and the last one too when the
      loop timed out, was unhealthy; the clock never goes back. */
  lemma {:induction false} PollExit(oracle: Oracle, next: nat, now: int, tick: nat, deadline: int)
    ensures var r := Poll(oracle, next, now, tick, deadline);
      && next <= r.next && now <= r.now
      && (now < deadline <==> next < r.next)
      && (r.healthy ==> next < r.next && r.now < deadline && IsAsgInstancesHealthy(oracle.describe(r.next - 1)))
      && (!r.healthy ==> deadline <= r.now)
      && (forall j :: next <= j < r.next && (j < r.next - 1 || !r.healthy) ==>
            !IsAsgInstancesHealthy(oracle.describe(j)))
    decreases deadline - now
  {
    if deadline <= now {
      assert Poll(oracle, next, now, tick, deadline) == PollEnd(false, next, now, tick);
    } else if IsAsgInstancesHealthy(oracle.describe(next)) {
      assert Poll(oracle, next, now, tick, deadline) == PollEnd(true, next + 1, now, tick);
    } else {
      var later := now + PollIntervalSeconds + oracle.drift(tick);
      assert Poll(oracle, next, now, tick, deadline) == Poll(oracle, next + 1, later, tick + 1, deadline);
      PollExit(oracle, next + 1, later, tick + 1, deadline);
    }
  }

  /** `n` unhealthy samples, each followed by a sleep. */
  function Rounds(roleArn: string, groupName: string, n: nat): (trace: seq<Call>)
    ensures |trace| == 2 * n
    decreases n
  {
    if n == 0 then []
    else Rounds(roleArn, groupName, n - 1) + [DescribeGroups(roleArn, groupName), Sleep(PollIntervalSeconds)]
  }

  /** The calls of a poll that took `samples` samples, the last one healthy when `healthy`. */
  function PollTrace(roleArn: string, groupName: string, samples: nat, healthy: bool): seq<Call>
    requires healthy ==> samples > 0
  {
    if healthy then Rounds(roleArn, groupName, samples - 1) + [DescribeGroups(roleArn, groupName)]
    else Rounds(roleArn, groupName, samples)
  }

  /** Samples are taken only before the deadline and at least 30 seconds
      apart, so the last of them is taken less than `deadline - now` seconds
      after a loop entered at `now`. */
  lemma {:induction false} PollSampleBound(oracle: Oracle, next: nat, now: int, tick: nat, deadline: int)
    ensures var samples := Poll(oracle, next, now, tick, deadline).next - next;
      samples > 0 ==> PollIntervalSeconds * (samples - 1) < deadline - now
    decreases deadline - now
  {
    if deadline <= now || IsAsgInstancesHealthy(oracle.describe(next)) {
    } else {
      var later := now + PollIntervalSeconds + oracle.drift(tick);
      PollSampleBound(oracle, next + 1, later, tick + 1, deadline);
    }
  }

  /** Within the ten-minute budget the loop takes at most 20 samples,
      whatever the clock does besides sleeping. */
  lemma PollAtMostTwentySamples(oracle: Oracle, next: nat, now: int, tick: nat)
    requires oracle.start <= now
    ensures Poll(oracle, next, now, tick, oracle.start + TimeoutSeconds).next - next <= 20
  {
    PollSampleBound(oracle, next, now, tick, oracle.start + TimeoutSeconds);
  }

  /** When only sleeping moves the clock and no sample is healthy, a loop
      entered 30 * n seconds before the deadline takes exactly n samples and
      ends exactly at the deadline. */
  lemma {:induction false} PollWithoutDriftTimesOut(oracle: Oracle, next: nat, now: int, tick: nat, n: nat)
    requires forall k :: oracle.drift(k) == 0
    requires forall j :: next <= j < next + n ==> !IsAsgInstancesHealthy(oracle.describe(j))
    ensures Poll(oracle, next, now, tick, now + PollIntervalSeconds * n) == PollEnd(false, next + n, now + PollIntervalSeconds * n, tick + n)
    decreases n
  {
    if n > 0 {
      assert oracle.drift(tick) == 0;
      PollWithoutDriftTimesOut(oracle, next + 1, now + PollIntervalSeconds, tick + 1, n - 1);
    }
  }

  /** A group that never turns healthy, on a clock moved only by sleeping,
      is sampled exactly 20 times before the ten-minute deadline. */
  lemma NeverHealthyTakesTwentySamples(oracle: Oracle, next: nat, tick: nat)
    requires forall k :: oracle.drift(k) == 0
    requires forall j :: next <= j ==> !IsAsgInstancesHealthy(oracle.describe(j))
    ensures Poll(oracle, next, oracle.start, tick, oracle.start + TimeoutSeconds) ==
      PollEnd(false, next + 20, oracle.start + TimeoutSeconds, tick + 20)
  {
    PollWithoutDriftTimesOut(oracle, next, oracle.start, tick, 20);
  }

  /** A loop entered before the deadline whose first sample is healthy
      breaks at once, without sleeping and without reading the clock again. */
  lemma PollHealthyAtOnce(oracle: Oracle, next: nat, now: int, tick: nat, deadline: int)
    requires now < deadline
    requires IsAsgInstancesHealthy(oracle.describe(next))
    ensures Poll(oracle, next, now, tick, deadline) == PollEnd(true, next + 1, now, tick)
  {
  }

  /** The calls of `n` rounds: n samples and n sleeps, all as `roleArn`,
      with no role assumed and nothing resumed. */
  lemma {:induction false} RoundsCalls(roleArn: string, groupName: string, n: nat)
    ensures var trace := Rounds(roleArn, groupName, n);
      && Count(trace, IsDescribe) == n && Count(trace, IsSleep) == n
      && Count(trace, IsResume) == 0 && Assumed(trace) == []
      && MadeAs(trace, [roleArn])
    decreases n
  {
    if n > 0 {
      var prev := Rounds(roleArn, groupName, n - 1);
      var round := [DescribeGroups(roleArn, groupName), Sleep(PollIntervalSeconds)];
      RoundsCalls(roleArn, groupName, n - 1);
      CountAppend(prev, round, IsDescribe);
      CountAppend(prev, round, IsSleep);
      CountAppend(prev, round, IsResume);
      AssumedAppend(prev, round);
      MadeAsAppend(prev, round, [roleArn]);
    }
  }

  /** A poll's calls: one describe per sample and one sleep after every
      unhealthy sample, all as `roleArn`; no role is assumed and nothing is
      resumed while polling. */
  lemma PollTraceCalls(roleArn: string, groupName: string, samples: nat, healthy: bool)
    requires healthy ==> samples > 0
    ensures var trace := PollTrace(roleArn, groupName, samples, healthy);
      && Count(trace, IsDescribe) == samples
      && Count(trace, IsSleep) == (if healthy then samples - 1 else samples)
      && Count(trace, IsResume) == 0 && Assumed(trace) == []
      && MadeAs(trace, [roleArn])
  {
    if healthy {
      var prev := Rounds(roleArn, groupName, samples - 1);
      var last := [DescribeGroups(roleArn, groupName)];
      assert PollTrace(roleArn, groupName, samples, healthy) == prev + last;
      RoundsCalls(roleArn, groupName, samples - 1);
      CountAppend(prev, last, IsDescribe);
      CountAppend(prev, last, IsSleep);
      CountAppend(prev, last, IsResume);
      AssumedAppend(prev, last);
      MadeAsAppend(prev, last, [roleArn]);
    } else {
      RoundsCalls(roleArn, groupName, samples);
    }
  }

  /** The polling loop of `wait_and_resume_asg` for the group found as
      `roleArn`, whose first sample is the describe call `first`: sample
      while the clock is before the deadline ten minutes after `start`, break
      on a healthy sample, sleep 30 seconds after an unhealthy one. Returns
      the index of the next describe call, whether the loop broke on a
      healthy sample, and the calls it made. */
  method PollUntilHealthy(groupName: string, roleArn: string, oracle: Oracle, first: nat)
    returns (next: nat, healthy: bool, polled: seq<Call>)
    ensures var p := Poll(oracle, first, oracle.start + oracle.drift(0), 1, oracle.start + TimeoutSeconds);
      next == p.next && healthy == p.healthy
    ensures first <= next && (healthy ==> first < next)
    ensures polled == PollTrace(roleArn, groupName, next - first, healthy)
  {
    var deadline := oracle.start + TimeoutSeconds;
    var tick := 1;
    var now := oracle.start + oracle.drift(0);
    next, healthy, polled := first, false, [];
    while now < deadline
      invariant first <= next && !healthy
      invariant Poll(oracle, first, oracle.start + oracle.drift(0), 1, deadline) == Poll(oracle, next, now, tick, deadline)
      invariant polled == Rounds(roleArn, groupName, next - first)
      decreases deadline - now
    {
      var sample := oracle.describe(next);
      next := next + 1;
      if IsAsgInstancesHealthy(sample) {
        assert polled + [DescribeGroups(roleArn, groupName)] == PollTrace(roleArn, groupName, next - first, true);
        polled := polled + [DescribeGroups(roleArn, groupName)];
        healthy := true;
        break;
      }
      assert polled + [DescribeGroups(roleArn, groupName), Sleep(PollIntervalSeconds)] == Rounds(roleArn, groupName, next - first);
      polled := polled + [DescribeGroups(roleArn, groupName), Sleep(PollIntervalSeconds)];
      now := now + PollIntervalSeconds;
      now := now + oracle.drift(tick);
      tick := tick + 1;
    }
  }
}
