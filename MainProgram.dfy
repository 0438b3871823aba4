/** main.go, the older stand-alone copy: its own `GetNLBARNs`, which builds
    the tag filters inline and passes the search error on unwrapped, and a
    `ReconcileIstioServicePorts` with the cluster and service written in,
    which checks for no ARN before more than one and prints the NLB ARN
    before resolving it. Its `GetTargetGroupARN` is the same as aws.go's,
    `Aws.GetTargetGroupARN`. */
module MainProgram {
  import opened Results
  import opened Tags
  import opened Arns
  import opened Reconcile

  const Cluster := "tkg-dev-shared"
  const Service := "istio-system/istio-eastwestgateway"

  /** What this `GetNLBARNs` returns for a given answer of the tag search:
      the search error itself, or the NLB ARNs among the found resources. */
  function LocateResult(search: Result<seq<ResourceTagMapping>>): (r: Result<seq<string>>)
    ensures search.Err? ==> r == Err(search.msg)
    ensures search.Ok? ==> r.Ok? && forall x :: x in r.value <==> x in ResourceArns(search.value) && IsNLB(x)
  {
    match search
    case Err(e) => Err(e)
    case Ok(mappings) =>
      var nlbs := NLBs(ResourceArns(mappings));
      assert forall x :: x in nlbs <==> x in ResourceArns(mappings) && IsNLB(x) by {
        forall x { NLBsMember(ResourceArns(mappings), x); }
      }
      Ok(nlbs)
  }

  /** `GetNLBARNs` of main.go. Its inline `tags_to_find` map is the
      `getLBMapTags` map of aws.go, and its filter loop is `mapToTagFilter`'s. */
  method GetNLBARNs(clusterName: string, serviceName: string,
                    getResources: seq<TagFilter> -> Result<seq<ResourceTagMapping>>)
    returns (sent: seq<TagFilter>, nlbArns: Result<seq<string>>, ghost order: seq<string>)
    ensures IsKeyOrder(LBMapTags(clusterName, serviceName), order)
    ensures sent == TagFiltersIn(LBMapTags(clusterName, serviceName), order) && |sent| == 2
    ensures nlbArns == LocateResult(getResources(sent))
  {
    var tagsToFind := map[ServiceNameKey := [serviceName],
                          ClusterKeyPrefix + clusterName := [Owned]];
    assert tagsToFind == LBMapTags(clusterName, serviceName);
    sent, order := MapToTagFilter(tagsToFind);
    var result := getResources(sent);
    if result.Err? {
      return sent, Err(result.msg), order;
    }
    var arns := SelectNLBs(result.value);
    nlbArns := Ok(arns);
  }

  /** `ReconcileIstioServicePorts(aws)` of main.go. */
  function ReconcileIstioServicePorts(locate: Locator, resolve: Resolver): (r: Run)
    ensures LocatorCalls(r.events) == [(Cluster, Service)]
    ensures r.events[0] == LocateNLBs(Cluster, Service)
    ensures Reconciles(locate(Cluster, Service), resolve, r)
    ensures var d := Classify(locate(Cluster, Service));
      && (d.Found? ==> |r.events| >= 3 && r.events[1] == PrintLine(d.nlbArn)
                       && r.events[2] == ResolveTargetGroup(d.nlbArn))
      && Printed(r.events) ==
           (if d.Found? then [d.nlbArn] else [])
           + (if r.status.Pass? then [resolve(d.nlbArn).value] else [])
  {
    var start := [LocateNLBs(Cluster, Service)];
    ProjectionsSingle(LocateNLBs(Cluster, Service));
    var located := locate(Cluster, Service);
    match located
    case Err(e) => Run(Fail(Wrap(LookupContext, e)), start)
    case Ok(nlbArns) =>
      if |nlbArns| == 0 then assert Classify(located) == NoneFound; Run(Fail(NotFoundMessage), start)
      else if |nlbArns| > 1 then assert Classify(located) == SeveralFound; Run(Fail(AmbiguousMessage), start)
      else
        var nlbArn := nlbArns[0];
        assert Classify(located) == Found(nlbArn);
        var printed := start + [PrintLine(nlbArn)];
        ProjectionsSingle(PrintLine(nlbArn));
        ProjectionsSnoc(start, PrintLine(nlbArn));
        ResolveAndPrint(printed, nlbArn, resolve)
  }
}
