# ASG scheduler: resuming an auto scaling group across accounts

This project is a Dafny model of `wait_and_resume_asg`, the Lambda handler in
`source/code/resumeASG.py`. The model is given the name of an EC2 auto scaling
group (the handler reads it from `event["asg_name"]`) and a list of
cross-account IAM role ARNs (the handler reads the list from DynamoDB), and it
works as follows:

- It goes through the roles in order. For each one it:
  - takes the account id from the role ARN;
  - assumes the role under the session name `asg-scheduler-<account>`;
  - asks the autoscaling API whether the group exists in that account.
- At the first account that holds the group, it polls the group's health:
  - every 30 seconds, for up to ten minutes;
  - until no instance reports `Unhealthy`.
- It then re-enables the group's `Launch` and `Terminate` processes exactly
  once, whatever the poll's outcome.
- It answers `200 "Successful"` when that call succeeded and `500 "Error"` when
  it failed.

Every remote answer comes from an `Oracle` value, an input that fixes all of
them in advance:

- STS role assumption;
- the DescribeAutoScalingGroups responses;
- the ResumeProcesses result;
- the wall clock.

A run produces an `Outcome` and a trace: the sequence of remote calls it made,
in order. Properties about which roles are touched, how often the group is
sampled, and how often the resume happens are stated over that trace.

The modules, with the source parts each one covers:

| Module | File | Covers |
|---|---|---|
| `RoleArn` | `role_arn.dfy` | Python's `str.split(":")`, the account id (`split(":")[4]`, which is undefined when there are fewer than five fields) and the session name. |
| `ScalingGroups` | `scaling_groups.dfy` | A DescribeAutoScalingGroups response, and the two questions asked of it: `is_asg_exist` and `is_asg_instances_healthy`. |
| `Remote` | `remote.dfy` | The oracle, the `Call` alphabet of the trace, `get_session_for_account`, and the counting of calls in a trace. |
| `HealthPoll` | `health_poll.dfy` | The deadline-bounded `while` loop (lines 125-133). It has a specification function `Poll` and a method `PollUntilHealthy` with the loop itself. |
| `ResumeOrchestrator` | `orchestrator.dfy` | The candidate `for` loop with its early returns, `resume_asg` and the response mapping. It has a specification function `Run` (through `Scan`) and a method `WaitAndResumeAsg`, which is proved to compute exactly `Run`. |

Clock model:

- `oracle.start` is the reading taken when the deadline `now + 10 minutes` is
  computed (line 126).
- Before the k-th evaluation of the loop guard, `oracle.drift(k) >= 0` seconds
  pass besides the sleeps.
- Each `time.sleep(30)` adds 30 seconds.
- So the clock only moves forward, and the bound "at most 20 samples" holds
  however much drift there is.

Describe-call model:

- Before the group is found, every candidate makes exactly one assume_role call
  and one describe call.
- So candidate `i` is answered by `assumeOk(i)` and `describe(i)`.
- The health samples then use `describe(m+1)`, `describe(m+2)`, and so on.

In three places the code behaves in a way a reader might not expect; the model
follows the code:

- **A failed role assumption ends the run.** `get_session_for_account` returns
  `None` (lines 39-45), and line 120 calls `.client` on it. The run therefore
  ends with an AttributeError, modelled as `Crashed(NoneSession)`. It does not
  skip to the next candidate.
- **An ARN with fewer than five fields raises IndexError** at line 117, modelled
  as `Crashed(IndexError)`.
- **The deadline is checked before health.** When the clock is already past the
  deadline on entry to the loop, no sample is taken (line 128).

## Model

| member | source | states |
|---|---|---|
| RoleArn.SplitPieces | source/code/resumeASG.py:117 | `split(":")` yields one more piece than there are colons, no piece contains a colon, and joining the pieces with ':' gives back the ARN. |
| RoleArn.SplitJoin | source/code/resumeASG.py:117 | Splitting inverts joining whenever no part contains the separator. |
| RoleArn.AccountIdDefined | source/code/resumeASG.py:117 | `split(":")[4]` is defined exactly when the ARN has at least four colons, and the account id it yields contains no colon. |
| RoleArn.AccountIdOfFields | source/code/resumeASG.py:117 | For an ARN made of colon-free fields, the account id is exactly the fifth field. With fewer than five fields there is none (IndexError). |
| RoleArn.SessionName | source/code/resumeASG.py:27 | The session name is `asg-scheduler-` followed by the account id, with nothing else around it. |
| RoleArn.SessionNameInjective | source/code/resumeASG.py:27 | Different accounts never share a session name. |
| ScalingGroups.GroupArns | source/code/resumeASG.py:52 | The ARN projection has one entry per returned group: that group's ARN, in order. |
| ScalingGroups.HealthStatusesMembers | source/code/resumeASG.py:63 | The flattened `HealthStatus[]` list holds exactly the statuses reported by some instance of some returned group. |
| ScalingGroups.IsAsgExist | source/code/resumeASG.py:48-56 | True exactly when the response returned at least one group, i.e. the ARN list is non-empty; false for an empty result. |
| ScalingGroups.IsAsgInstancesHealthy | source/code/resumeASG.py:59-68 | False exactly when some instance of some returned group reports `"Unhealthy"`. Any other status, no instances, or no groups count as healthy. |
| Remote.GetSessionForAccount | source/code/resumeASG.py:23-45 | A session exists exactly when role assumption succeeded. It acts as the given role under the account's session name. Otherwise the result is `None`. |
| HealthPoll.PollExit | source/code/resumeASG.py:128-133 | The loop takes at least one sample exactly when it is entered before the deadline. It ends healthy only on a healthy sample taken before the deadline; otherwise it ends only once the clock has reached the deadline. Every earlier sample was unhealthy, and the clock never goes back. |
| HealthPoll.PollHealthyAtOnce | source/code/resumeASG.py:128-130 | A loop entered before the deadline whose first sample is healthy breaks at once, without sleeping. |
| HealthPoll.PollSampleBound | source/code/resumeASG.py:128-133 | Samples are at least 30 s apart and all are taken before the deadline, so the last one comes less than `deadline - now` seconds after entry. |
| HealthPoll.PollAtMostTwentySamples | source/code/resumeASG.py:125-133 | Within the 600-second budget the loop takes at most 20 health samples, whatever else moves the clock. |
| HealthPoll.PollWithoutDriftTimesOut | source/code/resumeASG.py:128-133 | If only the sleeps move the clock and every sample is unhealthy, a loop entered 30·n s before the deadline takes exactly n samples and stops exactly at the deadline. |
| HealthPoll.NeverHealthyTakesTwentySamples | source/code/resumeASG.py:125-133 | A group that never becomes healthy, on a clock moved only by sleeps, gets exactly 20 samples and then times out. |
| HealthPoll.RoundsCalls | source/code/resumeASG.py:129-133 | n unhealthy rounds make n describe calls and n 30-second sleeps, all as the found role. They assume no role and resume nothing. |
| HealthPoll.PollTraceCalls | source/code/resumeASG.py:128-133 | A poll makes one describe call per sample and sleeps after every unhealthy sample only. It never sleeps after the healthy sample that breaks the loop. |
| HealthPoll.PollUntilHealthy | source/code/resumeASG.py:125-133 | The `while` loop with `break` and `sleep(30)` gives the same exit and the same index of the next describe call as the specification `Poll`. It makes exactly the describe and sleep calls of `PollTrace`. |
| ResumeOrchestrator.ResponseFor | source/code/resumeASG.py:135-138 | The response has status 200 exactly when the resume succeeded and 500 exactly when it failed. |
| ResumeOrchestrator.FirstStop | source/code/resumeASG.py:116-122 | The first candidate the loop does not move past: every earlier one had an account id, an assumed role and no group. |
| ResumeOrchestrator.LookupCalls | source/code/resumeASG.py:117-122 | Visiting a candidate with an account id makes two calls: it assumes that role, then makes one describe call as it. |
| ResumeOrchestrator.LookupsCalls | source/code/resumeASG.py:116-122 | Candidates i to m are visited in list order: their roles are assumed in that order, with one describe call each, no sleep, no resume, and every call made as one of them. |
| ResumeOrchestrator.ScanSkipsPassed | source/code/resumeASG.py:116-122 | The candidates the loop moves past contribute only their two calls each to the run. |
| ResumeOrchestrator.RunAtFirstStop | source/code/resumeASG.py:116-138 | The run is the calls of the candidates moved past, followed by what happens at the first candidate where the loop stops. |
| ResumeOrchestrator.PollAndResumeCalls | source/code/resumeASG.py:125-135 | Once the group is found, the last call is the one `resume_processes` call with exactly `["Launch", "Terminate"]`, all calls are made as the found role, and there are at most 20 samples and 20 sleeps. |
| ResumeOrchestrator.PollAndResumeHealthyAtOnce | source/code/resumeASG.py:125-135 | When the first health sample is taken before the deadline and is healthy, the found role makes exactly one describe call and then the resume, with no sleep. |
| ResumeOrchestrator.RunWhenFound | source/code/resumeASG.py:116-138 | When candidate m is the first whose account holds the group, the run is the visits of candidates 0 to m, then the poll and the resume as m's role. |
| ResumeOrchestrator.FirstMatchWins | source/code/resumeASG.py:116-138 | The first matching candidate decides the run. The response follows the resume result, resume is called exactly once and last, whether the poll ended healthy or timed out, and at most 20 samples and 20 sleeps follow the m+1 existence checks. |
| ResumeOrchestrator.FoundHealthyNeverSleeps | source/code/resumeASG.py:116-135 | On the fast path (first match, first sample before the deadline and healthy) the run never sleeps and makes exactly m+2 describe calls: one existence check per candidate plus that sample. |
| ResumeOrchestrator.FirstMatchTouchesOnlyEarlierRoles | source/code/resumeASG.py:116-138 | No later role is touched: exactly the roles up to the first match are assumed, in order, and every call is made as one of them. |
| ResumeOrchestrator.FoundRoleMakesTheRest | source/code/resumeASG.py:120-135 | Every call after the candidate visits (samples, sleeps, resume) is made as the matching role. |
| ResumeOrchestrator.MalformedArnCrashes | source/code/resumeASG.py:117 | A candidate ARN with fewer than five fields ends the run with IndexError before its role is assumed. Nothing sleeps and nothing is resumed. |
| ResumeOrchestrator.FailedAssumeCrashes | source/code/resumeASG.py:116-120 | A role that cannot be assumed ends the run at `session.client`, right after its assume_role call. No later candidate is tried and nothing is resumed. |
| ResumeOrchestrator.NoMatchGivesNoResult | source/code/resumeASG.py:116-122 | The handler returns `None` exactly when it moves past every candidate. It has then assumed every role in order and neither slept nor resumed. |
| ResumeOrchestrator.ResponseIffFound | source/code/resumeASG.py:116-138 | A response is returned exactly when some candidate is the first whose account holds the group. |
| ResumeOrchestrator.StatusFollowsResume | source/code/resumeASG.py:71-138 | Resume is called once when the run answers and never otherwise. The answer is `200 "\"Successful\""` exactly when the resume succeeded, and `500 "\"Error\""` when `resume_asg` caught a failure. |
| ResumeOrchestrator.GroupInSecondAccount | source/code/resumeASG.py:116-138 | With two well-formed candidates and the group only in the second account, both roles are assumed in order, and one resume is made as the second role, last. When the first health sample comes before the deadline and is healthy, nothing sleeps and three describe calls are made. |
| ResumeOrchestrator.PollAndResumeAsg | source/code/resumeASG.py:125-138 | The polling loop, the one resume call and the 200/500 mapping produce exactly the specified outcome and calls. |
| ResumeOrchestrator.WaitAndResumeAsg | source/code/resumeASG.py:111-138 | The handler's `for` loop with its early returns and the nested polling loop gives exactly the outcome and the call trace of the specification `Run`. |

## Left out

- `get_config` (lines 10-20) reads the role list from a DynamoDB table. The model takes the role list as a parameter instead.
- The real clients (boto3 STS, sessions, autoscaling) and the JMESPath library are left out. Their answers are the oracle's fields, and a response is modelled as groups with instances and health statuses.
- `datetime.now()` and `time.sleep` are replaced by the integer clock `start`, the per-evaluation `drift` and a 30-second step. Sub-second timing is not modelled.
- Exceptions raised by `describe_auto_scaling_groups` (lines 49 and 60) and by `boto3.client("sts")` (line 25) are not modelled. They are not caught in the source and would end the run.
- A missing `event["asg_name"]` key (line 114) is not modelled. The group name is a parameter.
- `print`/`pprint` logging is left out. So is `json.dumps`, which only produces the two fixed bodies, kept as constants.
- The unused code in the string literal at lines 83-108 and the `__main__` stub at lines 141-142 are not part of this model.
- Python's `None` return is `NoResult`. The two uncaught exceptions are `Crashed(IndexError)` and `Crashed(NoneSession)`. Which exception object Python raises beyond that is not modelled.
