/** How the two copies of the program relate. main.go checks for no ARN
    before more than one, istio.go the other way round; main.go prints the
    NLB ARN before resolving it; main.go's `GetNLBARNs` does not wrap the
    search error. Otherwise they behave the same. */
module Agreement {
  import opened Results
  import opened Arns
  import opened Reconcile
  import Aws
  import Istio
  import MainProgram

  /** On the constants main.go writes in, the two reconcilers return the same
      error for every lookup result and resolver, call the resolver in the
      same way, and take the same steps except main.go's extra print of the
      NLB ARN right after the lookup. */
  lemma ReconcileVariantsAgree(locate: Locator, resolve: Resolver)
    ensures var m := MainProgram.ReconcileIstioServicePorts(locate, resolve);
      var i := Istio.ReconcileIstioServicePorts(MainProgram.Cluster, MainProgram.Service, locate, resolve);
      var d := Classify(locate(MainProgram.Cluster, MainProgram.Service));
      && m.status == i.status
      && ResolverCalls(m.events) == ResolverCalls(i.events)
      && m.events == if d.Found? then i.events[..1] + [PrintLine(d.nlbArn)] + i.events[1..] else i.events
  {
    var m := MainProgram.ReconcileIstioServicePorts(locate, resolve);
    var i := Istio.ReconcileIstioServicePorts(MainProgram.Cluster, MainProgram.Service, locate, resolve);
    var d := Classify(locate(MainProgram.Cluster, MainProgram.Service));
    if d.Found? {
      var start := [LocateNLBs(MainProgram.Cluster, MainProgram.Service)];
      var printed := start + [PrintLine(d.nlbArn)];
      assert i == ResolveAndPrint(start, d.nlbArn, resolve);
      assert m == ResolveAndPrint(printed, d.nlbArn, resolve);
      var called := [ResolveTargetGroup(d.nlbArn)];
      var tail := if resolve(d.nlbArn).Ok? then called + [PrintLine(resolve(d.nlbArn).value)] else called;
      assert i.events == start + tail;
      assert m.events == printed + tail;
      assert i.events[..1] == start && i.events[1..] == tail;
    } else {
      match locate(MainProgram.Cluster, MainProgram.Service)
      case Err(_) =>
      case Ok(arns) =>
        assert |arns| != 1;
    }
  }

  /** The order of the zero and more-than-one checks never matters: for every
      number of ARNs found, both orders pick the same branch. */
  lemma CheckOrderIrrelevant(arns: seq<string>, resolve: Resolver)
    ensures var locate: Locator := (c, s) => Ok(arns);
      MainProgram.ReconcileIstioServicePorts(locate, resolve).status
        == Istio.ReconcileIstioServicePorts(MainProgram.Cluster, MainProgram.Service, locate, resolve).status
  {
    ReconcileVariantsAgree((c, s) => Ok(arns), resolve);
  }

  /** The two `GetNLBARNs` select the same ARNs; only aws.go's wraps a
      search error in "unable to get resources". */
  lemma LocateVariantsDiffer(search: Result<seq<ResourceTagMapping>>)
    ensures search.Ok? ==> Aws.LocateResult(search) == MainProgram.LocateResult(search)
    ensures search.Err? ==>
      Aws.LocateResult(search) == Err(Wrap(Aws.ResourcesContext, MainProgram.LocateResult(search).msg))
  {
  }

  /** End to end, a tag-search error reaches the caller wrapped twice through
      istio.go and aws.go, and once through main.go. */
  lemma SearchErrorEndToEnd(e: string, resolve: Resolver)
    ensures var search: Result<seq<ResourceTagMapping>> := Err(e);
      && Istio.ReconcileIstioServicePorts(MainProgram.Cluster, MainProgram.Service,
           (c, s) => Aws.LocateResult(search), resolve).status
         == Fail(Wrap(LookupContext, Wrap(Aws.ResourcesContext, e)))
      && MainProgram.ReconcileIstioServicePorts((c, s) => MainProgram.LocateResult(search), resolve).status
         == Fail(Wrap(LookupContext, e))
  {
  }
}
