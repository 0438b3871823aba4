/** istio.go's `ReconcileIstioServicePorts(aws, cluster, service)`: locate the
    service's NLB, insist on exactly one (more than one is checked first),
    resolve its target group and print the target group's ARN. */
module Istio {
  import opened Results
  import opened Reconcile

  function ReconcileIstioServicePorts(cluster: string, service: string,
                                      locate: Locator, resolve: Resolver): (r: Run)
    ensures LocatorCalls(r.events) == [(cluster, service)]
    ensures r.events[0] == LocateNLBs(cluster, service)
    ensures Reconciles(locate(cluster, service), resolve, r)
    ensures var d := Classify(locate(cluster, service));
      Printed(r.events) == if r.status.Pass? then [resolve(d.nlbArn).value] else []
  {
    var start := [LocateNLBs(cluster, service)];
    ProjectionsSingle(LocateNLBs(cluster, service));
    var located := locate(cluster, service);
    match located
    case Err(e) => Run(Fail(Wrap(LookupContext, e)), start)
    case Ok(nlbArns) =>
      if |nlbArns| > 1 then assert Classify(located) == SeveralFound; Run(Fail(AmbiguousMessage), start)
      else if |nlbArns| == 0 then Run(Fail(NotFoundMessage), start)
      else
        var nlbArn := nlbArns[0];
        assert Classify(located) == Found(nlbArn);
        ResolveAndPrint(start, nlbArn, resolve)
  }
}
