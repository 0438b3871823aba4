/** Concrete runs: a search that finds one NLB beside an application load
    balancer, a search that finds nothing, and one that finds two NLBs. */
module Scenarios {
  import opened Results
  import opened Strings
  import opened Arns
  import opened Reconcile
  import Aws
  import Istio

  /** The part of an elastic load balancer's ARN before its type; the
      region and account are elided. */
  const ArnHead := "arn:aws:" + "elasticloadbalancing" + ":...:"

  const NetArn := ArnHead + NLBMarker + "/a/1"
  const OtherNetArn := ArnHead + NLBMarker + "/c/3"
  /** An application load balancer. */
  const AppArn := (ArnHead + "loadbalancer") + "/app/b/2"

  lemma NetArnsAreNLBs()
    ensures IsNLB(NetArn) && IsNLB(OtherNetArn)
  {
    ContainsInfix(ArnHead, NLBMarker, "/a/1");
    ContainsInfix(ArnHead, NLBMarker, "/c/3");
  }

  /** The marker's `/n` straddles no boundary of this ARN: there is no slash
      before `/app/b/2` and no `n` in it. */
  lemma AppArnIsNotNLB()
    ensures !IsNLB(AppArn)
  {
    assert '/' !in "arn:aws:" && '/' !in "elasticloadbalancing" && '/' !in ":...:";
    assert '/' !in "loadbalancer";
    assert NLBMarker[12] == '/' && NLBMarker[13] == 'n' && 'n' !in "/app/b/2";
    NotContainsAcross(ArnHead + "loadbalancer", "/app/b/2", NLBMarker, 12);
  }

  /** The tag search returns an NLB and an application load balancer: only
      the NLB is located. */
  lemma MixedLocate()
    ensures Aws.LocateResult(Ok([ResourceTagMapping(NetArn), ResourceTagMapping(AppArn)])) == Ok([NetArn])
  {
    NetArnsAreNLBs();
    AppArnIsNotNLB();
    var arns := ResourceArns([ResourceTagMapping(NetArn), ResourceTagMapping(AppArn)]);
    assert arns == [NetArn] + [AppArn];
    NLBsAppend([NetArn], [AppArn]);
    NLBsKeepsNLBs([NetArn]);
    assert [AppArn][..0] == [];
    assert NLBs([AppArn]) == [];
    assert NLBs(arns) == [NetArn];
  }

  /** ... and its target group is resolved, once, with that ARN. */
  lemma MixedSearch(cluster: string, service: string, resolve: Resolver)
    ensures var r := Istio.ReconcileIstioServicePorts(cluster, service,
        (c, s) => Aws.LocateResult(Ok([ResourceTagMapping(NetArn), ResourceTagMapping(AppArn)])), resolve);
      ResolverCalls(r.events) == [NetArn]
  {
    MixedLocate();
  }

  /** The tag search returns nothing: the run fails with "unable to find NLB
      ARN" and never resolves. */
  lemma EmptySearch(cluster: string, service: string, resolve: Resolver)
    ensures var r := Istio.ReconcileIstioServicePorts(cluster, service,
        (c, s) => Aws.LocateResult(Ok([])), resolve);
      && r.status == Fail(NotFoundMessage)
      && ResolverCalls(r.events) == []
      && NotFoundMessage[..18] == "unable to find NLB"
  {
    assert ResourceArns([]) == [];
    assert Aws.LocateResult(Ok([])) == Ok([]);
    assert NotFoundMessage == "unable to find NLB" + " ARN";
  }

  /** The tag search returns two NLBs: the run fails with "found more than
      one NLB ARN" and never resolves. */
  lemma TwoNLBSearch(cluster: string, service: string, resolve: Resolver)
    ensures var r := Istio.ReconcileIstioServicePorts(cluster, service,
        (c, s) => Aws.LocateResult(Ok([ResourceTagMapping(NetArn), ResourceTagMapping(OtherNetArn)])), resolve);
      && r.status == Fail(AmbiguousMessage)
      && ResolverCalls(r.events) == []
  {
    NetArnsAreNLBs();
    var arns := ResourceArns([ResourceTagMapping(NetArn), ResourceTagMapping(OtherNetArn)]);
    assert arns == [NetArn] + [OtherNetArn];
    NLBsAppend([NetArn], [OtherNetArn]);
    NLBsKeepsNLBs([NetArn]);
    NLBsKeepsNLBs([OtherNetArn]);
  }
}
