/**
 * The remote services the orchestrator talks to (STS, the autoscaling API
 * and the wall clock), replaced by an oracle that fixes every answer in
 * advance, and the calls the orchestrator makes on them.
 */
module Remote {
  import opened Wrappers
  import opened RoleArn
  import opened ScalingGroups

  /** The answers of the outside world to one run.
      - `assumeOk(k)`: whether the k-th assume_role call (and building the
        session from its credentials) succeeds;
      - `describe(k)`: the response to the k-th describe_auto_scaling_groups
        call, counted over existence checks and health samples alike;
      - `resumeOk`: whether resume_processes succeeds;
      - `start`: the clock, in seconds, when the deadline is computed;
      - `drift(k)`: the seconds that pass, besides sleeping, between the
        previous event and the k-th evaluation of the polling loop's guard.
      Drift is never negative, so the clock only moves forward. */
  datatype Oracle = Oracle(
    assumeOk: nat -> bool,
    describe: nat -> Description,
    resumeOk: bool,
    start: int,
    drift: nat -> nat)

  /** An assumed-role session: the role it acts as and the session name it was opened under. */
  datatype Session = Session(roleArn: string, sessionName: string)

  /** A call on a remote service, as recorded in a run's trace. Every call
      but a sleep is made with the credentials of some role. */
  datatype Call =
    | AssumeRole(roleArn: string, sessionName: string)
    | DescribeGroups(roleArn: string, groupName: string)
    | ResumeProcesses(roleArn: string, groupName: string, scalingProcesses: seq<string>)
    | Sleep(seconds: nat)

  /** `get_session_for_account`: the session for `roleArn`, opened under the
      account's session name, or `None` when role assumption failed. */
  function GetSessionForAccount(account: string, roleArn: string, assumed: bool): (session: Option<Session>)
    ensures session.Some? <==> assumed
    ensures session.Some? ==> session.value.roleArn == roleArn
    ensures session.Some? ==> session.value.sessionName == SessionName(account)
  {
    if assumed then Some(Session(roleArn, SessionName(account))) else None
  }

  predicate IsResume(c: Call) { c.ResumeProcesses? }

  predicate IsDescribe(c: Call) { c.DescribeGroups? }

  predicate IsSleep(c: Call) { c.Sleep? }

  /** How many calls of the trace satisfy `p`. */
  function Count(trace: seq<Call>, p: Call -> bool): (n: nat)
    ensures n <= |trace|
    decreases |trace|
  {
    if trace == [] then 0 else (if p(trace[0]) then 1 else 0) + Count(trace[1..], p)
  }

  lemma {:induction false} CountAppend(a: seq<Call>, b: seq<Call>, p: Call -> bool)
    ensures Count(a + b, p) == Count(a, p) + Count(b, p)
    decreases |a|
  {
    if a == [] {
      assert a + b == b;
    } else {
      assert (a + b)[0] == a[0] && (a + b)[1..] == a[1..] + b;
      CountAppend(a[1..], b, p);
    }
  }

  /** The roles assumed in the trace, in the order they were assumed. */
  function Assumed(trace: seq<Call>): (roles: seq<string>)
    ensures |roles| <= |trace|
    decreases |trace|
  {
    if trace == [] then []
    else (if trace[0].AssumeRole? then [trace[0].roleArn] else []) + Assumed(trace[1..])
  }

  lemma {:induction false} AssumedAppend(a: seq<Call>, b: seq<Call>)
    ensures Assumed(a + b) == Assumed(a) + Assumed(b)
    decreases |a|
  {
    if a == [] {
      assert a + b == b;
    } else {
      assert (a + b)[0] == a[0] && (a + b)[1..] == a[1..] + b;
      AssumedAppend(a[1..], b);
    }
  }

  /** Every call of the trace but a sleep is made as one of `roles`. */
  ghost predicate MadeAs(trace: seq<Call>, roles: seq<string>)
  {
    forall n :: 0 <= n < |trace| && !trace[n].Sleep? ==> trace[n].roleArn in roles
  }

  lemma MadeAsAppend(a: seq<Call>, b: seq<Call>, roles: seq<string>)
    requires MadeAs(a, roles) && MadeAs(b, roles)
    ensures MadeAs(a + b, roles)
  {
    forall n | 0 <= n < |a + b| && !(a + b)[n].Sleep? ensures (a + b)[n].roleArn in roles {
      if n < |a| {
        assert (a + b)[n] == a[n];
      } else {
        assert (a + b)[n] == b[n - |a|];
      }
    }
  }

  /** Proof-cost helper: calls made as some of `roles` are made as any superset of them. */
  lemma MadeAsWiden(trace: seq<Call>, roles: seq<string>, more: seq<string>)
    requires MadeAs(trace, roles)
    requires forall r | r in roles :: r in more
    ensures MadeAs(trace, more)
  {
  }
}
