/**
 * The two questions the scheduler asks of a DescribeAutoScalingGroups
 * response: does the named group exist in this account, and does any of its
 * instances report "Unhealthy".
 */
module ScalingGroups {

  datatype Instance = Instance(instanceId: string, healthStatus: string)

  datatype Group = Group(groupName: string, groupArn: string, instances: seq<Instance>)

  /** The `AutoScalingGroups` list of one DescribeAutoScalingGroups response. */
  type Description = seq<Group>

  const UnhealthyStatus: string := "Unhealthy"

  /** The JMESPath projection `AutoScalingGroups[*].AutoScalingGroupARN`. */
  function GroupArns(d: Description): (arns: seq<string>)
    ensures |arns| == |d|
    ensures forall i :: 0 <= i < |d| ==> arns[i] == d[i].groupArn
    decreases |d|
  {
    if d == [] then [] else [d[0].groupArn] + GroupArns(d[1..])
  }

  /** The projection `Instances[*].HealthStatus` of one group. */
  function StatusesOf(instances: seq<Instance>): seq<string>
    decreases |instances|
  {
    if instances == [] then [] else [instances[0].healthStatus] + StatusesOf(instances[1..])
  }

  /** The flattened projection `AutoScalingGroups[*].Instances[*].HealthStatus[]`. */
  function HealthStatuses(d: Description): seq<string>
    decreases |d|
  {
    if d == [] then [] else StatusesOf(d[0].instances) + HealthStatuses(d[1..])
  }

  /** A group's statuses are exactly those its instances report. */
  lemma {:induction false} StatusesOfMembers(instances: seq<Instance>)
    ensures forall s :: s in StatusesOf(instances) <==> exists x :: x in instances && x.healthStatus == s
    decreases |instances|
  {
    if instances != [] {
      StatusesOfMembers(instances[1..]);
      assert forall x :: x in instances <==> x == instances[0] || x in instances[1..];
    }
  }

  /** The flattened list holds exactly the statuses reported by some
      instance of some returned group. */
  lemma {:induction false} HealthStatusesMembers(d: Description)
    ensures forall s :: s in HealthStatuses(d) <==>
      exists g, x :: g in d && x in g.instances && x.healthStatus == s
    decreases |d|
  {
    if d != [] {
      StatusesOfMembers(d[0].instances);
      HealthStatusesMembers(d[1..]);
      assert forall g :: g in d <==> g == d[0] || g in d[1..];
    }
  }

  /** `is_asg_exist`: the ARN projection is a non-empty (truthy) list, which
      happens exactly when the response returned some group. */
  function IsAsgExist(d: Description): (found: bool)
    ensures found <==> d != []
  {
    GroupArns(d) != []
  }

  /** `is_asg_instances_healthy`: false exactly when some instance of some
      returned group reports "Unhealthy"; any other status, no instance, or
      no group at all counts as healthy. */
  function IsAsgInstancesHealthy(d: Description): (healthy: bool)
    ensures healthy <==> forall g, x :: g in d && x in g.instances ==> x.healthStatus != UnhealthyStatus
  {
    HealthStatusesMembers(d);
    UnhealthyStatus !in HealthStatuses(d)
  }
}
