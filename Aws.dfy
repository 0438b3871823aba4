/** The client of aws.go: locating a service's NLBs by tag, listing a
    cluster's node instances, and resolving an NLB's single target group.
    Each SDK call is a parameter from the request to either an error or the
    records it returns. */
module Aws {
  import opened Results
  import opened Tags
  import opened Arns

  /** `ec2types.Instance`; only its id is read. */
  datatype Instance = Instance(instanceId: string)

  /** `ec2types.Reservation`: the instances started together. */
  datatype Reservation = Reservation(instances: seq<Instance>)

  /** `elbv2types.LoadBalancer`; only its ARN is read. */
  datatype LoadBalancer = LoadBalancer(loadBalancerArn: string)

  /** `elbv2types.TargetGroup`; only its ARN is read. */
  datatype TargetGroup = TargetGroup(targetGroupArn: string)

  const ResourcesContext := "unable to get resources"
  const InstancesContext := "unable to get instances"
  const NLBNotFound := "unable to find NLB"
  const TargetGroupNotFound := "unable to find target group"

  /** What `GetNLBARNs` returns for a given answer of the tag search: the
      search error wrapped, or the NLB ARNs among the found resources. */
  function LocateResult(search: Result<seq<ResourceTagMapping>>): (r: Result<seq<string>>)
    ensures search.Err? <==> r.Err?
    ensures search.Err? ==> r.msg == Wrap(ResourcesContext, search.msg)
    ensures search.Ok? ==> forall x :: x in r.value <==> x in ResourceArns(search.value) && IsNLB(x)
  {
    match search
    case Err(e) => Err(Wrap(ResourcesContext, e))
    case Ok(mappings) =>
      var nlbs := NLBs(ResourceArns(mappings));
      assert forall x :: x in nlbs <==> x in ResourceArns(mappings) && IsNLB(x) by {
        forall x { NLBsMember(ResourceArns(mappings), x); }
      }
      Ok(nlbs)
  }

  /** `GetNLBARNs`: search for the resources carrying the service's
      load-balancer tags and keep the NLB ARNs among them. `sent` is the
      filter list handed to the search, `order` the map order it was built in. */
  method GetNLBARNs(clusterName: string, serviceName: string,
                    getResources: seq<TagFilter> -> Result<seq<ResourceTagMapping>>)
    returns (sent: seq<TagFilter>, nlbArns: Result<seq<string>>, ghost order: seq<string>)
    ensures IsKeyOrder(LBMapTags(clusterName, serviceName), order)
    ensures sent == TagFiltersIn(LBMapTags(clusterName, serviceName), order) && |sent| == 2
    ensures nlbArns == LocateResult(getResources(sent))
  {
    sent, order := MapToTagFilter(LBMapTags(clusterName, serviceName));
    var result := getResources(sent);
    if result.Err? {
      return sent, Err(Wrap(ResourcesContext, result.msg)), order;
    }
    var arns := SelectNLBs(result.value);
    nlbArns := Ok(arns);
  }

  /** The instance ids of all reservations, reservation by reservation. */
  function InstanceIds(reservations: seq<Reservation>): (ids: seq<string>)
    ensures |ids| == InstanceCount(reservations)
  {
    if reservations == [] then []
    else
      var init := reservations[..|reservations| - 1];
      InstanceIds(init) + IdsOf(reservations[|reservations| - 1].instances)
  }

  /** The ids of some instances, in order. */
  function IdsOf(instances: seq<Instance>): (ids: seq<string>) {
    seq(|instances|, i requires 0 <= i < |instances| => instances[i].instanceId)
  }

  /** The total number of instances in some reservations. */
  function InstanceCount(reservations: seq<Reservation>): (n: nat) {
    if reservations == [] then 0
    else InstanceCount(reservations[..|reservations| - 1]) + |reservations[|reservations| - 1].instances|
  }

  /** An id is listed exactly when some instance of some reservation has it. */
  lemma {:induction false} InstanceIdsMember(reservations: seq<Reservation>, id: string)
    ensures id in InstanceIds(reservations) <==>
      exists r, k :: 0 <= r < |reservations| && 0 <= k < |reservations[r].instances|
                     && reservations[r].instances[k].instanceId == id
  {
    if reservations != [] {
      var n := |reservations| - 1;
      var init := reservations[..n];
      InstanceIdsMember(init, id);
      var last := IdsOf(reservations[n].instances);
      if id in InstanceIds(init) {
        var r, k :| 0 <= r < |init| && 0 <= k < |init[r].instances| && init[r].instances[k].instanceId == id;
        assert reservations[r] == init[r];
      } else if id in last {
        var k :| 0 <= k < |last| && last[k] == id;
        assert reservations[n].instances[k].instanceId == id;
      } else {
        forall r, k | 0 <= r < |reservations| && 0 <= k < |reservations[r].instances|
          ensures reservations[r].instances[k].instanceId != id
        {
          if r < n {
            assert reservations[r] == init[r];
          } else {
            assert last[k] == reservations[r].instances[k].instanceId;
          }
        }
      }
    }
  }

  /** Flattening distributes over concatenation of reservation lists. */
  lemma {:induction false} InstanceIdsAppend(a: seq<Reservation>, b: seq<Reservation>)
    ensures InstanceIds(a + b) == InstanceIds(a) + InstanceIds(b)
    decreases |b|
  {
    if b == [] {
      assert a + b == a;
    } else {
      var init, last := b[..|b| - 1], b[|b| - 1];
      InstanceIdsAppend(a, init);
      assert (a + b)[..|a + b| - 1] == a + init;
      assert (a + b)[|a + b| - 1] == last;
      calc {
        InstanceIds(a + b);
        InstanceIds(a + init) + IdsOf(last.instances);
        InstanceIds(a) + InstanceIds(init) + IdsOf(last.instances);
        InstanceIds(a) + InstanceIds(b);
      }
    }
  }

  /** `GetTaggedNodeInstanceIds`: describe the instances carrying the
      cluster's node tags and flatten their ids, reservation by reservation;
      the describe error is wrapped. */
  method GetTaggedNodeInstanceIds(cluster: string,
                                  describeInstances: seq<Filter> -> Result<seq<Reservation>>)
    returns (sent: seq<Filter>, instanceIds: Result<seq<string>>, ghost order: seq<string>)
    ensures IsKeyOrder(NodeMapTags(cluster), order)
    ensures sent == FiltersIn(NodeMapTags(cluster), order) && |sent| == 2
    ensures describeInstances(sent).Err? ==>
      instanceIds == Err(Wrap(InstancesContext, describeInstances(sent).msg))
    ensures describeInstances(sent).Ok? ==>
      instanceIds == Ok(InstanceIds(describeInstances(sent).value))
  {
    sent, order := MapToFilter(NodeMapTags(cluster));
    var result := describeInstances(sent);
    if result.Err? {
      return sent, Err(Wrap(InstancesContext, result.msg)), order;
    }
    var reservations := result.value;
    var ids := [];
    for r := 0 to |reservations|
      invariant ids == InstanceIds(reservations[..r])
    {
      var instances := reservations[r].instances;
      for k := 0 to |instances|
        invariant ids == InstanceIds(reservations[..r]) + IdsOf(instances[..k])
      {
        assert IdsOf(instances[..k + 1]) == IdsOf(instances[..k]) + [instances[k].instanceId];
        ids := ids + [instances[k].instanceId];
      }
      assert instances[..|instances|] == instances;
      assert reservations[..r + 1][..r] == reservations[..r];
    }
    assert reservations[..|reservations|] == reservations;
    instanceIds := Ok(ids);
  }

  /** A call made to the load-balancing API. */
  datatype ElbCall =
    | DescribeLoadBalancers(loadBalancerArns: seq<string>)
    | DescribeTargetGroups(loadBalancerArn: string)

  /** The answer `GetTargetGroupARN` returns and the calls it made to get it. */
  datatype Resolution = Resolution(targetGroupArn: Result<string>, calls: seq<ElbCall>)

  /** The lookup succeeded with exactly one record. */
  predicate Single<T>(lookup: Result<seq<T>>) {
    lookup.Ok? && |lookup.value| == 1
  }

  /** `GetTargetGroupARN` (the same in aws.go and main.go): describe the load
      balancer; unless exactly one comes back, fail with "unable to find NLB"
      without asking for target groups; otherwise describe the target groups
      of that load balancer's own ARN and, unless exactly one comes back, fail
      with "unable to find target group". SDK errors pass through unwrapped. */
  function GetTargetGroupARN(loadBalancerArn: string,
                             describeLoadBalancers: seq<string> -> Result<seq<LoadBalancer>>,
                             describeTargetGroups: string -> Result<seq<TargetGroup>>): (r: Resolution)
    ensures var lbs := describeLoadBalancers([loadBalancerArn]);
      && 1 <= |r.calls| <= 2
      && r.calls[0] == DescribeLoadBalancers([loadBalancerArn])
      && (|r.calls| == 2 <==> Single(lbs))
      && (lbs.Err? ==> r.targetGroupArn == Err(lbs.msg))
      && (lbs.Ok? && |lbs.value| != 1 ==> r.targetGroupArn == Err(NLBNotFound))
    ensures var lbs := describeLoadBalancers([loadBalancerArn]);
      Single(lbs) ==>
        var tgs := describeTargetGroups(lbs.value[0].loadBalancerArn);
        && r.calls[1] == DescribeTargetGroups(lbs.value[0].loadBalancerArn)
        && (tgs.Err? ==> r.targetGroupArn == Err(tgs.msg))
        && (tgs.Ok? && |tgs.value| != 1 ==> r.targetGroupArn == Err(TargetGroupNotFound))
        && (Single(tgs) ==> r.targetGroupArn == Ok(tgs.value[0].targetGroupArn))
  {
    var first := [DescribeLoadBalancers([loadBalancerArn])];
    match describeLoadBalancers([loadBalancerArn])
    case Err(e) => Resolution(Err(e), first)
    case Ok(lbs) =>
      if |lbs| != 1 then Resolution(Err(NLBNotFound), first)
      else
        var lb := lbs[0];
        var calls := first + [DescribeTargetGroups(lb.loadBalancerArn)];
        match describeTargetGroups(lb.loadBalancerArn)
        case Err(e) => Resolution(Err(e), calls)
        case Ok(tgs) =>
          if |tgs| != 1 then Resolution(Err(TargetGroupNotFound), calls)
          else Resolution(Ok(tgs[0].targetGroupArn), calls)
  }

  /** Resolution succeeds exactly when both lookups return exactly one record,
      and then yields the target group's ARN. */
  lemma TargetGroupFoundIff(loadBalancerArn: string,
                            describeLoadBalancers: seq<string> -> Result<seq<LoadBalancer>>,
                            describeTargetGroups: string -> Result<seq<TargetGroup>>)
    ensures var r := GetTargetGroupARN(loadBalancerArn, describeLoadBalancers, describeTargetGroups);
      var lbs := describeLoadBalancers([loadBalancerArn]);
      r.targetGroupArn.Ok? <==>
        Single(lbs) && Single(describeTargetGroups(lbs.value[0].loadBalancerArn))
  {
  }
}
