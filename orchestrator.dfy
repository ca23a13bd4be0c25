/**
 * `wait_and_resume_asg`: scan the cross-account roles in order, stop at the
 * first account where the group exists, poll its health for at most ten
 * minutes, then resume its Launch and Terminate processes once and answer
 * 200 or 500 according to whether that worked.
 */
module ResumeOrchestrator {
  import opened Wrappers
  import opened RoleArn
  import opened ScalingGroups
  import opened Remote
  import opened HealthPoll

  /** The processes `resume_asg` re-enables; any other suspended process stays suspended. */
  const ResumedProcesses: seq<string> := ["Launch", "Terminate"]

  /** `json.dumps("Successful")` and `json.dumps("Error")`. */
  const SuccessBody: string := "\"Successful\""
  const ErrorBody: string := "\"Error\""

  /** The exceptions that end a run: `split(":")[4]` on an ARN with fewer
      than five fields, and `.client` called on the `None` session left by a
      failed role assumption. */
  datatype Crash = IndexError | NoneSession

  /** What a run gives back: a response, Python's `None` when no candidate
      account holds the group, or an uncaught exception. */
  datatype Outcome = Response(statusCode: int, body: string) | NoResult | Crashed(crash: Crash)

  /** The outcome of a run with every remote call it made, in order. */
  datatype RunResult = RunResult(outcome: Outcome, trace: seq<Call>)

  /** The response for a resume that did or did not succeed. */
  function ResponseFor(resumed: bool): (response: Outcome)
    ensures response.Response?
    ensures response.statusCode == 200 <==> resumed
    ensures response.statusCode == 500 <==> !resumed
  {
    if resumed then Response(200, SuccessBody) else Response(500, ErrorBody)
  }

  function Prepend(calls: seq<Call>, r: RunResult): RunResult
  {
    RunResult(r.outcome, calls + r.trace)
  }

  /** What follows once the group is found in `session`'s account: the
      polling loop, then the one resume call, whatever the loop's outcome.
      `next` indexes the describe call of the first health sample. */
  function PollAndResume(groupName: string, session: Session, oracle: Oracle, next: nat): RunResult
  {
    var deadline := oracle.start + TimeoutSeconds;
    var p := Poll(oracle, next, oracle.start + oracle.drift(0), 1, deadline);
    PollExit(oracle, next, oracle.start + oracle.drift(0), 1, deadline);
    RunResult(
      ResponseFor(oracle.resumeOk),
      PollTrace(session.roleArn, groupName, p.next - next, p.healthy)
        + [ResumeProcesses(session.roleArn, groupName, ResumedProcesses)])
  }

  /** The run from candidate `i` on. Each earlier candidate made exactly one
      assume_role and one describe call, so candidate `i` is answered by
      `assumeOk(i)` and `describe(i)`. */
  function Scan(groupName: string, roles: seq<string>, oracle: Oracle, i: nat): RunResult
    requires i <= |roles|
    decreases |roles| - i
  {
    if i == |roles| then RunResult(NoResult, [])
    else match AccountId(roles[i])
      case None => RunResult(Crashed(IndexError), [])
      case Some(account) =>
        var assumed := [AssumeRole(roles[i], SessionName(account))];
        match GetSessionForAccount(account, roles[i], oracle.assumeOk(i))
        case None => RunResult(Crashed(NoneSession), assumed)
        case Some(session) =>
          var lookup := assumed + [DescribeGroups(session.roleArn, groupName)];
          if IsAsgExist(oracle.describe(i)) then Prepend(lookup, PollAndResume(groupName, session, oracle, i + 1))
          else Prepend(lookup, Scan(groupName, roles, oracle, i + 1))
  }

  /** The whole run of `wait_and_resume_asg` for group `groupName` over the candidate `roles`. */
  function Run(groupName: string, roles: seq<string>, oracle: Oracle): RunResult
  {
    Scan(groupName, roles, oracle, 0)
  }

  /** The run moves past candidate `j`: its ARN has an account id, its role
      was assumed, and the group is not in its account. */
  predicate Passes(roles: seq<string>, oracle: Oracle, j: nat)
    requires j < |roles|
  {
    AccountId(roles[j]).Some? && oracle.assumeOk(j) && !IsAsgExist(oracle.describe(j))
  }

  /** The group is found under candidate `j`. */
  predicate Found(roles: seq<string>, oracle: Oracle, j: nat)
    requires j < |roles|
  {
    AccountId(roles[j]).Some? && oracle.assumeOk(j) && IsAsgExist(oracle.describe(j))
  }

  /** The first candidate from `i` on that the run does not move past, or
      `|roles|` when it moves past all of them. */
  function FirstStop(roles: seq<string>, oracle: Oracle, i: nat): (m: nat)
    requires i <= |roles|
    ensures i <= m <= |roles|
    ensures forall j :: i <= j < m ==> Passes(roles, oracle, j)
    ensures m < |roles| ==> !Passes(roles, oracle, m)
    decreases |roles| - i
  {
    if i == |roles| || !Passes(roles, oracle, i) then i else FirstStop(roles, oracle, i + 1)
  }

  /** The two calls made for a candidate whose role is assumed: the
      assume_role call and the existence check. */
  function Lookup(groupName: string, roleArn: string): seq<Call>
  {
    match AccountId(roleArn)
    case None => []
    case Some(account) => [AssumeRole(roleArn, SessionName(account)), DescribeGroups(roleArn, groupName)]
  }

  /** The lookups of candidates `i` up to `m`, exclusive. */
  function Lookups(groupName: string, roles: seq<string>, i: nat, m: nat): seq<Call>
    requires i <= m <= |roles|
    decreases m - i
  {
    if i == m then [] else Lookup(groupName, roles[i]) + Lookups(groupName, roles, i + 1, m)
  }

  /** One step of the scan at candidate `i`, whose ARN has account id
      `account`: the assume_role call, then the crash if the role was not
      assumed, otherwise the describe call and either the poll and the resume
      or the rest of the scan. A proof-cost helper: it unfolds `Scan` once,
      outside the callers' proof contexts. */
  lemma ScanAt(groupName: string, roles: seq<string>, oracle: Oracle, i: nat, account: string)
    requires i < |roles| && AccountId(roles[i]) == Some(account)
    ensures var assumed := [AssumeRole(roles[i], SessionName(account))];
      var lookup := assumed + [DescribeGroups(roles[i], groupName)];
      Scan(groupName, roles, oracle, i) ==
        if !oracle.assumeOk(i) then RunResult(Crashed(NoneSession), assumed)
        else if IsAsgExist(oracle.describe(i))
        then Prepend(lookup, PollAndResume(groupName, Session(roles[i], SessionName(account)), oracle, i + 1))
        else Prepend(lookup, Scan(groupName, roles, oracle, i + 1))
  {
  }

  /** A candidate the run moves past contributes its lookup and nothing else. */
  lemma ScanPassStep(groupName: string, roles: seq<string>, oracle: Oracle, i: nat)
    requires i < |roles| && Passes(roles, oracle, i)
    ensures Scan(groupName, roles, oracle, i) == Prepend(Lookup(groupName, roles[i]), Scan(groupName, roles, oracle, i + 1))
  {
  }

  /** At the candidate whose account holds the group, the lookup is followed
      by the poll and the resume as that candidate's role. */
  lemma ScanFoundStep(groupName: string, roles: seq<string>, oracle: Oracle, i: nat)
    requires i < |roles| && Found(roles, oracle, i)
    ensures Scan(groupName, roles, oracle, i) ==
      Prepend(Lookup(groupName, roles[i]), PollAndResume(groupName, SessionOf(roles, i), oracle, i + 1))
  {
  }

  /** `trace` is what looking up the candidates `looked` leaves: two calls
      each, their roles assumed in order, one describe call each, no sleep,
      no resume, and every call made as one of them. */
  ghost predicate LookedUp(trace: seq<Call>, looked: seq<string>)
  {
    && |trace| == 2 * |looked|
    && Assumed(trace) == looked
    && Count(trace, IsDescribe) == |looked|
    && Count(trace, IsSleep) == 0 && Count(trace, IsResume) == 0
    && MadeAs(trace, looked)
  }

  lemma LookedUpAppend(a: seq<Call>, b: seq<Call>, la: seq<string>, lb: seq<string>)
    requires LookedUp(a, la) && LookedUp(b, lb)
    ensures LookedUp(a + b, la + lb)
  {
    AssumedAppend(a, b);
    CountAppend(a, b, IsDescribe);
    CountAppend(a, b, IsSleep);
    CountAppend(a, b, IsResume);
    forall r | r in la ensures r in la + lb {
      var k :| 0 <= k < |la| && la[k] == r;
      assert (la + lb)[k] == r;
    }
    forall r | r in lb ensures r in la + lb {
      var k :| 0 <= k < |lb| && lb[k] == r;
      assert (la + lb)[|la| + k] == r;
    }
    MadeAsWiden(a, la, la + lb);
    MadeAsWiden(b, lb, la + lb);
    MadeAsAppend(a, b, la + lb);
  }

  /** The lookup of one candidate with an account id is that candidate's
      two calls (a proof-cost helper for `LookupsCalls`). */
  lemma LookupCalls(groupName: string, roleArn: string)
    requires AccountId(roleArn).Some?
    ensures LookedUp(Lookup(groupName, roleArn), [roleArn])
  {
    var trace := Lookup(groupName, roleArn);
    assert trace[1..][1..] == [];
  }

  /** Candidates `i` up to `m`, all with an account id, are looked up in
      order: their roles are assumed in that order, one describe call is made
      for each, every call is made as one of them, and nothing sleeps or
      resumes. */
  lemma {:induction false} LookupsCalls(groupName: string, roles: seq<string>, i: nat, m: nat)
    requires i <= m <= |roles|
    requires forall j :: i <= j < m ==> AccountId(roles[j]).Some?
    ensures LookedUp(Lookups(groupName, roles, i, m), roles[i..m])
    decreases m - i
  {
    if i < m {
      LookupCalls(groupName, roles[i]);
      LookupsCalls(groupName, roles, i + 1, m);
      LookedUpAppend(Lookup(groupName, roles[i]), Lookups(groupName, roles, i + 1, m), [roles[i]], roles[i + 1..m]);
      assert roles[i..m] == [roles[i]] + roles[i + 1..m];
    } else {
      assert Count([], IsDescribe) == 0;
    }
  }

  /** The lookups up to `m + 1` are those up to `m` followed by `m`'s. */
  lemma {:induction false} LookupsSnoc(groupName: string, roles: seq<string>, i: nat, m: nat)
    requires i <= m < |roles|
    ensures Lookups(groupName, roles, i, m + 1) == Lookups(groupName, roles, i, m) + Lookup(groupName, roles[m])
    decreases m - i
  {
    if i < m {
      LookupsSnoc(groupName, roles, i + 1, m);
      var head := Lookup(groupName, roles[i]);
      assert head + (Lookups(groupName, roles, i + 1, m) + Lookup(groupName, roles[m])) ==
        (head + Lookups(groupName, roles, i + 1, m)) + Lookup(groupName, roles[m]);
    } else {
      assert Lookups(groupName, roles, m + 1, m + 1) == [];
      assert Lookup(groupName, roles[m]) + [] == Lookup(groupName, roles[m]);
    }
  }

  /** Every candidate the run moves past has an account id. */
  lemma PassedHaveAccounts(roles: seq<string>, oracle: Oracle, m: nat)
    requires m <= |roles|
    requires forall j :: 0 <= j < m ==> Passes(roles, oracle, j)
    ensures forall j :: 0 <= j < m ==> AccountId(roles[j]).Some?
  {
    forall j | 0 <= j < m
      ensures AccountId(roles[j]).Some?
    {
      assert Passes(roles, oracle, j);
    }
  }

  /** The candidates up to the first match all have an account id. */
  lemma FoundHaveAccounts(roles: seq<string>, oracle: Oracle, m: nat)
    requires m < |roles|
    requires forall j :: 0 <= j < m ==> Passes(roles, oracle, j)
    requires Found(roles, oracle, m)
    ensures forall j :: 0 <= j < m + 1 ==> AccountId(roles[j]).Some?
  {
    forall j | 0 <= j < m + 1
      ensures AccountId(roles[j]).Some?
    {
      if j < m { assert Passes(roles, oracle, j); }
    }
  }

  /** Moving past candidates `i` up to `m` only contributes their lookups to the trace. */
  lemma {:induction false} ScanSkipsPassed(groupName: string, roles: seq<string>, oracle: Oracle, i: nat, m: nat)
    requires i <= m <= |roles|
    requires forall j :: i <= j < m ==> Passes(roles, oracle, j)
    ensures Scan(groupName, roles, oracle, i) == Prepend(Lookups(groupName, roles, i, m), Scan(groupName, roles, oracle, m))
    decreases m - i
  {
    if i < m {
      ScanPassStep(groupName, roles, oracle, i);
      ScanSkipsPassed(groupName, roles, oracle, i + 1, m);
      var head := Lookup(groupName, roles[i]);
      var tail := Lookups(groupName, roles, i + 1, m);
      assert head + (tail + Scan(groupName, roles, oracle, m).trace) == (head + tail) + Scan(groupName, roles, oracle, m).trace;
    } else {
      assert [] + Scan(groupName, roles, oracle, m).trace == Scan(groupName, roles, oracle, m).trace;
    }
  }

  /** The run is the lookups of the candidates it moves past followed by
      what happens at the first candidate it does not move past. */
  lemma RunAtFirstStop(groupName: string, roles: seq<string>, oracle: Oracle)
    ensures var m := FirstStop(roles, oracle, 0);
      Run(groupName, roles, oracle) == Prepend(Lookups(groupName, roles, 0, m), Scan(groupName, roles, oracle, m))
  {
    ScanSkipsPassed(groupName, roles, oracle, 0, FirstStop(roles, oracle, 0));
  }

  /** Once the group is found: the poll's calls and then the resume, which
      is the last call, all made as the session's role; the poll takes at
      most 20 samples and 20 sleeps. */
  lemma PollAndResumeCalls(groupName: string, session: Session, oracle: Oracle, next: nat)
    ensures var t := PollAndResume(groupName, session, oracle, next).trace;
      && |t| > 0
      && t[|t| - 1] == ResumeProcesses(session.roleArn, groupName, ResumedProcesses)
      && Count(t, IsResume) == 1
      && Count(t, IsDescribe) <= 20 && Count(t, IsSleep) <= 20
      && Assumed(t) == []
      && MadeAs(t, [session.roleArn])
  {
    var now := oracle.start + oracle.drift(0);
    var deadline := oracle.start + TimeoutSeconds;
    var p := Poll(oracle, next, now, 1, deadline);
    PollExit(oracle, next, now, 1, deadline);
    var samples := p.next - next;
    PollAtMostTwentySamples(oracle, next, now, 1);
    PollTraceCalls(session.roleArn, groupName, samples, p.healthy);
    var c := PollTrace(session.roleArn, groupName, samples, p.healthy);
    var d := [ResumeProcesses(session.roleArn, groupName, ResumedProcesses)];
    assert PollAndResume(groupName, session, oracle, next).trace == c + d;
    CountAppend(c, d, IsResume);
    CountAppend(c, d, IsDescribe);
    CountAppend(c, d, IsSleep);
    AssumedAppend(c, d);
    MadeAsAppend(c, d, [session.roleArn]);
  }

  /** When the first health sample is taken before the deadline and is
      healthy, the found role makes just that one describe call and the
      resume: no sleep at all. */
  lemma PollAndResumeHealthyAtOnce(groupName: string, session: Session, oracle: Oracle, next: nat)
    requires oracle.drift(0) < TimeoutSeconds
    requires IsAsgInstancesHealthy(oracle.describe(next))
    ensures PollAndResume(groupName, session, oracle, next).trace ==
      [DescribeGroups(session.roleArn, groupName), ResumeProcesses(session.roleArn, groupName, ResumedProcesses)]
  {
    PollHealthyAtOnce(oracle, next, oracle.start + oracle.drift(0), 1, oracle.start + TimeoutSeconds);
    assert Rounds(session.roleArn, groupName, 0) == [];
  }

  /** The session opened for candidate `m` when its role is assumed. */
  function SessionOf(roles: seq<string>, m: nat): Session
    requires m < |roles| && AccountId(roles[m]).Some?
  {
    Session(roles[m], SessionName(AccountId(roles[m]).value))
  }

  /** When candidate `m` is the first whose account holds the group, the run
      is the lookups of the candidates up to and including `m`, then the
      poll and the resume as `m`'s role. */
  lemma RunWhenFound(groupName: string, roles: seq<string>, oracle: Oracle, m: nat)
    requires m < |roles|
    requires forall j :: 0 <= j < m ==> Passes(roles, oracle, j)
    requires Found(roles, oracle, m)
    ensures Run(groupName, roles, oracle) ==
      Prepend(Lookups(groupName, roles, 0, m + 1), PollAndResume(groupName, SessionOf(roles, m), oracle, m + 1))
  {
    ScanSkipsPassed(groupName, roles, oracle, 0, m);
    LookupsSnoc(groupName, roles, 0, m);
    var lookup := Lookup(groupName, roles[m]);
    var rest := PollAndResume(groupName, SessionOf(roles, m), oracle, m + 1);
    ScanFoundStep(groupName, roles, oracle, m);
    assert Lookups(groupName, roles, 0, m) + (lookup + rest.trace) == (Lookups(groupName, roles, 0, m) + lookup) + rest.trace;
  }

  /** First match wins: when candidate `m` is the first whose account holds
      the group, the response follows the resume's result, resume is called
      exactly once and is the last call, whatever the poll's outcome, and at
      most 20 health samples and 20 sleeps are taken. */
  lemma FirstMatchWins(groupName: string, roles: seq<string>, oracle: Oracle, m: nat)
    requires m < |roles|
    requires forall j :: 0 <= j < m ==> Passes(roles, oracle, j)
    requires Found(roles, oracle, m)
    ensures var r := Run(groupName, roles, oracle);
      && r.outcome == ResponseFor(oracle.resumeOk)
      && |r.trace| > 0
      && r.trace[|r.trace| - 1] == ResumeProcesses(roles[m], groupName, ResumedProcesses)
      && Count(r.trace, IsResume) == 1
      && m + 1 <= Count(r.trace, IsDescribe) <= m + 1 + 20
      && Count(r.trace, IsSleep) <= 20
  {
    RunWhenFound(groupName, roles, oracle, m);
    FoundHaveAccounts(roles, oracle, m);
    LookupsCalls(groupName, roles, 0, m + 1);
    var session := SessionOf(roles, m);
    PollAndResumeCalls(groupName, session, oracle, m + 1);
    var a := Lookups(groupName, roles, 0, m + 1);
    var t := PollAndResume(groupName, session, oracle, m + 1).trace;
    CountAppend(a, t, IsResume);
    CountAppend(a, t, IsDescribe);
    CountAppend(a, t, IsSleep);
    assert (a + t)[|a + t| - 1] == t[|t| - 1];
  }

  /** Calls made as roles `looked` assuming exactly those, followed by calls
      made as one of them that assume nothing. */
  lemma LookedUpThenPolled(a: seq<Call>, t: seq<Call>, looked: seq<string>, role: string)
    requires Assumed(a) == looked && MadeAs(a, looked)
    requires Assumed(t) == [] && MadeAs(t, [role]) && role in looked
    ensures Assumed(a + t) == looked && MadeAs(a + t, looked)
  {
    AssumedAppend(a, t);
    assert looked + [] == looked;
    MadeAsWiden(t, [role], looked);
    MadeAsAppend(a, t, looked);
  }

  /** The fast path: when candidate `m` is the first whose account holds the
      group and its first health sample, taken before the deadline, is
      healthy, the run never sleeps and makes exactly one describe call per
      candidate plus that one sample. */
  lemma FoundHealthyNeverSleeps(groupName: string, roles: seq<string>, oracle: Oracle, m: nat)
    requires m < |roles|
    requires forall j :: 0 <= j < m ==> Passes(roles, oracle, j)
    requires Found(roles, oracle, m)
    requires oracle.drift(0) < TimeoutSeconds
    requires IsAsgInstancesHealthy(oracle.describe(m + 1))
    ensures var r := Run(groupName, roles, oracle);
      && Count(r.trace, IsSleep) == 0
      && Count(r.trace, IsDescribe) == m + 2
  {
    RunWhenFound(groupName, roles, oracle, m);
    FoundHaveAccounts(roles, oracle, m);
    LookupsCalls(groupName, roles, 0, m + 1);
    var session := SessionOf(roles, m);
    PollAndResumeHealthyAtOnce(groupName, session, oracle, m + 1);
    var a := Lookups(groupName, roles, 0, m + 1);
    var t := PollAndResume(groupName, session, oracle, m + 1).trace;
    CountAppend(a, t, IsSleep);
    CountAppend(a, t, IsDescribe);
    assert t[1..][1..] == [];
  }

  /** No later role is touched: when candidate `m` is the first whose account
      holds the group, the run assumes the roles up to `m` in order and no
      other, and every call it makes is made as one of those roles. */
  lemma FirstMatchTouchesOnlyEarlierRoles(groupName: string, roles: seq<string>, oracle: Oracle, m: nat)
    requires m < |roles|
    requires forall j :: 0 <= j < m ==> Passes(roles, oracle, j)
    requires Found(roles, oracle, m)
    ensures var r := Run(groupName, roles, oracle);
      && Assumed(r.trace) == roles[..m + 1]
      && MadeAs(r.trace, roles[..m + 1])
  {
    RunWhenFound(groupName, roles, oracle, m);
    FoundHaveAccounts(roles, oracle, m);
    LookupsCalls(groupName, roles, 0, m + 1);
    var session := SessionOf(roles, m);
    PollAndResumeCalls(groupName, session, oracle, m + 1);
    var a := Lookups(groupName, roles, 0, m + 1);
    var t := PollAndResume(groupName, session, oracle, m + 1).trace;
    assert Run(groupName, roles, oracle).trace == a + t;
    assert roles[0..m + 1][m] == roles[m];
    LookedUpThenPolled(a, t, roles[0..m + 1], roles[m]);
    assert roles[0..m + 1] == roles[..m + 1];
  }

  /** Once the group is found under candidate `m`, every call after the two
      calls per candidate looked up (the health samples, the sleeps and the
      resume) is made as `m`'s role. */
  lemma FoundRoleMakesTheRest(groupName: string, roles: seq<string>, oracle: Oracle, m: nat)
    requires m < |roles|
    requires forall j :: 0 <= j < m ==> Passes(roles, oracle, j)
    requires Found(roles, oracle, m)
    ensures var r := Run(groupName, roles, oracle);
      && |r.trace| > 2 * (m + 1)
      && MadeAs(r.trace[2 * (m + 1)..], [roles[m]])
  {
    RunWhenFound(groupName, roles, oracle, m);
    FoundHaveAccounts(roles, oracle, m);
    LookupsCalls(groupName, roles, 0, m + 1);
    var session := SessionOf(roles, m);
    PollAndResumeCalls(groupName, session, oracle, m + 1);
    var a := Lookups(groupName, roles, 0, m + 1);
    var t := PollAndResume(groupName, session, oracle, m + 1).trace;
    assert (a + t)[|a|..] == t;
  }

  /** A candidate ARN with fewer than five fields ends the run with an
      IndexError before its role is assumed; nothing is resumed. */
  lemma MalformedArnCrashes(groupName: string, roles: seq<string>, oracle: Oracle, m: nat)
    requires m < |roles|
    requires forall j :: 0 <= j < m ==> Passes(roles, oracle, j)
    requires AccountId(roles[m]).None?
    ensures var r := Run(groupName, roles, oracle);
      && r.outcome == Crashed(IndexError)
      && Assumed(r.trace) == roles[..m]
      && Count(r.trace, IsResume) == 0 && Count(r.trace, IsSleep) == 0
  {
    ScanSkipsPassed(groupName, roles, oracle, 0, m);
    PassedHaveAccounts(roles, oracle, m);
    LookupsCalls(groupName, roles, 0, m);
    var a := Lookups(groupName, roles, 0, m);
    assert Scan(groupName, roles, oracle, m) == RunResult(Crashed(IndexError), []);
    assert a + [] == a;
    assert roles[0..m] == roles[..m];
  }

  /** A role that cannot be assumed leaves the session `None`, and the run
      ends at `session.client` instead of trying the next candidate; no
      later role is assumed and nothing is resumed. */
  lemma FailedAssumeCrashes(groupName: string, roles: seq<string>, oracle: Oracle, m: nat)
    requires m < |roles|
    requires forall j :: 0 <= j < m ==> Passes(roles, oracle, j)
    requires AccountId(roles[m]).Some? && !oracle.assumeOk(m)
    ensures var r := Run(groupName, roles, oracle);
      && r.outcome == Crashed(NoneSession)
      && Assumed(r.trace) == roles[..m + 1]
      && r.trace[|r.trace| - 1] == AssumeRole(roles[m], SessionName(AccountId(roles[m]).value))
      && Count(r.trace, IsResume) == 0 && Count(r.trace, IsSleep) == 0
  {
    ScanSkipsPassed(groupName, roles, oracle, 0, m);
    PassedHaveAccounts(roles, oracle, m);
    LookupsCalls(groupName, roles, 0, m);
    var a := Lookups(groupName, roles, 0, m);
    var b := [AssumeRole(roles[m], SessionName(AccountId(roles[m]).value))];
    ScanAt(groupName, roles, oracle, m, AccountId(roles[m]).value);
    AssumedAppend(a, b);
    CountAppend(a, b, IsResume);
    CountAppend(a, b, IsSleep);
    assert roles[..m + 1] == roles[0..m] + [roles[m]];
  }

  /** The run returns Python's `None` exactly when it moves past every
      candidate; it has then assumed every role in order and neither slept
      nor resumed. */
  lemma NoMatchGivesNoResult(groupName: string, roles: seq<string>, oracle: Oracle)
    ensures Run(groupName, roles, oracle).outcome == NoResult <==>
      forall j :: 0 <= j < |roles| ==> Passes(roles, oracle, j)
    ensures var r := Run(groupName, roles, oracle);
      r.outcome == NoResult ==>
        Assumed(r.trace) == roles && Count(r.trace, IsResume) == 0 && Count(r.trace, IsSleep) == 0
  {
    var m := FirstStop(roles, oracle, 0);
    RunAtFirstStop(groupName, roles, oracle);
    if m == |roles| {
      PassedHaveAccounts(roles, oracle, m);
    LookupsCalls(groupName, roles, 0, m);
      var a := Lookups(groupName, roles, 0, m);
      assert a + [] == a;
      assert roles[0..m] == roles;
    } else {
      assert Scan(groupName, roles, oracle, m).outcome != NoResult;
    }
  }

  /** The run answers with a response exactly when some candidate is the
      first whose account holds the group. */
  lemma ResponseIffFound(groupName: string, roles: seq<string>, oracle: Oracle)
    ensures Run(groupName, roles, oracle).outcome.Response? <==>
      exists m :: 0 <= m < |roles| && (forall j :: 0 <= j < m ==> Passes(roles, oracle, j)) && Found(roles, oracle, m)
  {
    var m := FirstStop(roles, oracle, 0);
    RunAtFirstStop(groupName, roles, oracle);
    if m < |roles| && Found(roles, oracle, m) {
      FirstMatchWins(groupName, roles, oracle, m);
    } else {
      forall k | 0 <= k < |roles| && (forall j :: 0 <= j < k ==> Passes(roles, oracle, j))
        ensures !Found(roles, oracle, k)
      {
        if k < m {
          assert Passes(roles, oracle, k);
        }
      }
      assert Scan(groupName, roles, oracle, m).outcome != NoResult ==> m < |roles|;
    }
  }

  /** Resume is called exactly once when the run answers and never
      otherwise, and the answer is 200 "Successful" exactly when the resume
      succeeded, 500 "Error" when it failed. */
  lemma StatusFollowsResume(groupName: string, roles: seq<string>, oracle: Oracle)
    ensures var r := Run(groupName, roles, oracle);
      Count(r.trace, IsResume) == if r.outcome.Response? then 1 else 0
    ensures var r := Run(groupName, roles, oracle);
      r.outcome.Response? ==>
        && (r.outcome.statusCode == 200 <==> oracle.resumeOk)
        && (r.outcome.statusCode == 500 <==> !oracle.resumeOk)
        && r.outcome.body == (if oracle.resumeOk then SuccessBody else ErrorBody)
  {
    var m := FirstStop(roles, oracle, 0);
    if m == |roles| {
      NoMatchGivesNoResult(groupName, roles, oracle);
    } else if AccountId(roles[m]).None? {
      MalformedArnCrashes(groupName, roles, oracle, m);
    } else if !oracle.assumeOk(m) {
      FailedAssumeCrashes(groupName, roles, oracle, m);
    } else {
      FirstMatchWins(groupName, roles, oracle, m);
    }
  }

  /** The ARN of the scheduler's role in account `account`. */
  function SchedulerRole(account: string): string
  {
    Join(["arn", "aws", "iam", "", account, "role/asg-scheduler"], ':')
  }

  /** Two candidate accounts, the group only in the second: both roles are
      assumed in order, the second one alone polls and resumes, and the
      answer follows the resume; when the first health sample is taken
      before the deadline and is healthy, nothing sleeps. */
  lemma GroupInSecondAccount(groupName: string, oracle: Oracle, first: string, second: string)
    requires ':' !in first && ':' !in second
    requires oracle.assumeOk(0) && oracle.assumeOk(1)
    requires oracle.describe(0) == [] && oracle.describe(1) != []
    ensures var roles := [SchedulerRole(first), SchedulerRole(second)];
      var r := Run(groupName, roles, oracle);
      && r.outcome == ResponseFor(oracle.resumeOk)
      && Assumed(r.trace) == roles
      && Count(r.trace, IsResume) == 1
      && r.trace[|r.trace| - 1] == ResumeProcesses(SchedulerRole(second), groupName, ResumedProcesses)
      && (oracle.drift(0) < TimeoutSeconds && IsAsgInstancesHealthy(oracle.describe(2)) ==>
            Count(r.trace, IsSleep) == 0 && Count(r.trace, IsDescribe) == 3)
  {
    var roles := [SchedulerRole(first), SchedulerRole(second)];
    AccountIdOfFields(["arn", "aws", "iam", "", first, "role/asg-scheduler"]);
    AccountIdOfFields(["arn", "aws", "iam", "", second, "role/asg-scheduler"]);
    assert Passes(roles, oracle, 0);
    assert Found(roles, oracle, 1);
    FirstMatchWins(groupName, roles, oracle, 1);
    FirstMatchTouchesOnlyEarlierRoles(groupName, roles, oracle, 1);
    assert roles[..2] == roles;
    if oracle.drift(0) < TimeoutSeconds && IsAsgInstancesHealthy(oracle.describe(2)) {
      FoundHealthyNeverSleeps(groupName, roles, oracle, 1);
    }
  }

  /** The samples and sleeps the polling loop made, followed by the resume,
      are the calls made once the group is found. A proof-cost helper: it
      unfolds `PollAndResume` outside the method's proof context. */
  lemma PolledThenResumed(groupName: string, session: Session, oracle: Oracle, first: nat, next: nat, healthy: bool, polled: seq<Call>)
    requires var p := Poll(oracle, first, oracle.start + oracle.drift(0), 1, oracle.start + TimeoutSeconds);
      next == p.next && healthy == p.healthy
    requires first <= next && (healthy ==> first < next)
    requires polled == PollTrace(session.roleArn, groupName, next - first, healthy)
    ensures polled + [ResumeProcesses(session.roleArn, groupName, ResumedProcesses)] == PollAndResume(groupName, session, oracle, first).trace
  {
  }

  /** Proof-cost helper: regrouping a concatenation, kept out of the method's proof context. */
  lemma Associative(a: seq<Call>, b: seq<Call>, c: seq<Call>)
    ensures a + (b + c) == (a + b) + c
  {
  }

  /** The part of `wait_and_resume_asg` after the group is found in
      `session`'s account: the polling loop, the one `resume_asg` call, and
      the 200 or 500 response. */
  method PollAndResumeAsg(groupName: string, session: Session, oracle: Oracle, first: nat) returns (outcome: Outcome, calls: seq<Call>)
    ensures RunResult(outcome, calls) == PollAndResume(groupName, session, oracle, first)
  {
    var next, healthy, polled := PollUntilHealthy(groupName, session.roleArn, oracle, first);
    PolledThenResumed(groupName, session, oracle, first, next, healthy, polled);
    calls := polled + [ResumeProcesses(session.roleArn, groupName, ResumedProcesses)];
    if oracle.resumeOk {
      outcome := Response(200, SuccessBody);
    } else {
      outcome := Response(500, ErrorBody);
    }
  }

  /** `wait_and_resume_asg` over the oracle's answers: the candidate loop
      with its early returns, the polling loop, and the one resume call.
      Returns the outcome and every remote call made, in order. */
  method WaitAndResumeAsg(groupName: string, roles: seq<string>, oracle: Oracle) returns (outcome: Outcome, trace: seq<Call>)
    ensures RunResult(outcome, trace) == Run(groupName, roles, oracle)
  {
    trace := [];
    var i := 0;
    while i < |roles|
      invariant i <= |roles|
      invariant Run(groupName, roles, oracle) == Prepend(trace, Scan(groupName, roles, oracle, i))
    {
      var account := AccountId(roles[i]);
      if account.None? {
        outcome := Crashed(IndexError);
        return;
      }
      var session := GetSessionForAccount(account.value, roles[i], oracle.assumeOk(i));
      var assumed := [AssumeRole(roles[i], SessionName(account.value))];
      if session.None? {
        ScanAt(groupName, roles, oracle, i, account.value);
        trace := trace + assumed;
        outcome := Crashed(NoneSession);
        return;
      }
      var client := session.value;
      var lookup := assumed + [DescribeGroups(client.roleArn, groupName)];
      if IsAsgExist(oracle.describe(i)) {
        var calls;
        outcome, calls := PollAndResumeAsg(groupName, client, oracle, i + 1);
        ScanAt(groupName, roles, oracle, i, account.value);
        Associative(trace, lookup, calls);
        trace := trace + lookup + calls;
        return;
      }
      ScanAt(groupName, roles, oracle, i, account.value);
      Associative(trace, lookup, Scan(groupName, roles, oracle, i + 1).trace);
      trace := trace + lookup;
      i := i + 1;
    }
    outcome := NoResult;
  }
}
