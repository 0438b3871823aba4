/** What the two copies of `ReconcileIstioServicePorts` share: the calls and
    prints a run makes, the messages it fails with, and the four-way
    classification of a lookup that decides the run. */
module Reconcile {
  import opened Results

  /** `aws.GetNLBARNs(cluster, service)`: an error or the NLB ARNs found. */
  type Locator = (string, string) -> Result<seq<string>>

  /** `aws.GetTargetGroupARN(nlbArn)`: an error or the target group's ARN. */
  type Resolver = string -> Result<string>

  /** One observable step of a run, in the order it happens. */
  datatype Event =
    | LocateNLBs(cluster: string, service: string)
    | ResolveTargetGroup(nlbArn: string)
    | PrintLine(line: string)

  /** The error a run returns (nil is `Pass`) and the steps it took. */
  datatype Run = Run(status: Outcome, events: seq<Event>)

  const LookupContext := "unable to get NLB ARNs"
  const AmbiguousMessage := "found more than one NLB ARN"
  const NotFoundMessage := "unable to find NLB ARN"
  const ResolveContext := "unable to get target group ARN"

  /** The arguments of the locator calls among `events`, in order. */
  function LocatorCalls(events: seq<Event>): (calls: seq<(string, string)>) {
    if events == [] then []
    else (if events[0].LocateNLBs? then [(events[0].cluster, events[0].service)] else [])
         + LocatorCalls(events[1..])
  }

  /** The ARNs handed to the resolver among `events`, in order. */
  function ResolverCalls(events: seq<Event>): (arns: seq<string>) {
    if events == [] then []
    else (if events[0].ResolveTargetGroup? then [events[0].nlbArn] else [])
         + ResolverCalls(events[1..])
  }

  /** The lines printed among `events`, in order. */
  function Printed(events: seq<Event>): (lines: seq<string>) {
    if events == [] then []
    else (if events[0].PrintLine? then [events[0].line] else []) + Printed(events[1..])
  }

  /** The four outcomes of a lookup that a run distinguishes. */
  datatype Decision =
    | LookupFailed(cause: string)
    | NoneFound
    | SeveralFound
    | Found(nlbArn: string)

  /** The reference classification: by the exact number of ARNs found. */
  function Classify(located: Result<seq<string>>): (d: Decision)
    ensures d.LookupFailed? <==> located.Err?
    ensures d.NoneFound? <==> located == Ok([])
    ensures d.SeveralFound? <==> located.Ok? && |located.value| >= 2
    ensures d.Found? <==> located.Ok? && |located.value| == 1
    ensures d.Found? ==> located == Ok([d.nlbArn])
    ensures d.LookupFailed? ==> d.cause == located.msg
  {
    match located
    case Err(e) => LookupFailed(e)
    case Ok(arns) =>
      if |arns| == 1 then assert arns == [arns[0]]; Found(arns[0])
      else if |arns| == 0 then NoneFound
      else SeveralFound
  }

  /** What both copies promise of a run on the lookup result `located`:
      the resolver is called once, with the ARN, when exactly one ARN was
      found, and never otherwise; the run fails with the message that names
      its class, the lookup's and the resolver's errors wrapped; it succeeds
      exactly when one ARN was found and the resolver succeeded. */
  ghost predicate Reconciles(located: Result<seq<string>>, resolve: Resolver, r: Run) {
    var d := Classify(located);
    && ResolverCalls(r.events) == (if d.Found? then [d.nlbArn] else [])
    && (d.LookupFailed? ==> r.status == Fail(Wrap(LookupContext, d.cause)))
    && (d.NoneFound? ==> r.status == Fail(NotFoundMessage))
    && (d.SeveralFound? ==> r.status == Fail(AmbiguousMessage))
    && (d.Found? && resolve(d.nlbArn).Err? ==>
          r.status == Fail(Wrap(ResolveContext, resolve(d.nlbArn).msg)))
    && (r.status.Pass? <==> d.Found? && resolve(d.nlbArn).Ok?)
  }

  /** The step both copies end with once the NLB is known: resolve its
      target group, on an error fail with the error wrapped, otherwise print
      the group's ARN and succeed. `before` is the run so far. */
  function ResolveAndPrint(before: seq<Event>, nlbArn: string, resolve: Resolver): (r: Run)
    ensures |r.events| > |before| && r.events[..|before|] == before
    ensures r.events[|before|] == ResolveTargetGroup(nlbArn)
    ensures LocatorCalls(r.events) == LocatorCalls(before)
    ensures ResolverCalls(r.events) == ResolverCalls(before) + [nlbArn]
    ensures r.status.Pass? <==> resolve(nlbArn).Ok?
    ensures resolve(nlbArn).Err? ==> r.status == Fail(Wrap(ResolveContext, resolve(nlbArn).msg))
    ensures Printed(r.events) == Printed(before) + if r.status.Pass? then [resolve(nlbArn).value] else []
  {
    var called := before + [ResolveTargetGroup(nlbArn)];
    ProjectionsSingle(ResolveTargetGroup(nlbArn));
    ProjectionsSnoc(before, ResolveTargetGroup(nlbArn));
    match resolve(nlbArn)
    case Err(e) => Run(Fail(Wrap(ResolveContext, e)), called)
    case Ok(tgArn) =>
      ProjectionsSingle(PrintLine(tgArn));
      ProjectionsSnoc(called, PrintLine(tgArn));
      assert (called + [PrintLine(tgArn)])[..|before|] == before;
      Run(Pass, called + [PrintLine(tgArn)])
  }

  /** The projections of a single event. */
  lemma ProjectionsSingle(e: Event)
    ensures LocatorCalls([e]) == if e.LocateNLBs? then [(e.cluster, e.service)] else []
    ensures ResolverCalls([e]) == if e.ResolveTargetGroup? then [e.nlbArn] else []
    ensures Printed([e]) == if e.PrintLine? then [e.line] else []
  {
    assert [e][1..] == [];
  }

  /** The projections of a run that appends one event. */
  lemma ProjectionsSnoc(a: seq<Event>, e: Event)
    ensures LocatorCalls(a + [e]) == LocatorCalls(a) + LocatorCalls([e])
    ensures ResolverCalls(a + [e]) == ResolverCalls(a) + ResolverCalls([e])
    ensures Printed(a + [e]) == Printed(a) + Printed([e])
  {
    ProjectionsAppend(a, [e]);
  }

  /** Projections of a concatenation are concatenations of projections. */
  lemma {:induction false} ProjectionsAppend(a: seq<Event>, b: seq<Event>)
    ensures LocatorCalls(a + b) == LocatorCalls(a) + LocatorCalls(b)
    ensures ResolverCalls(a + b) == ResolverCalls(a) + ResolverCalls(b)
    ensures Printed(a + b) == Printed(a) + Printed(b)
  {
    if a != [] {
      ProjectionsAppend(a[1..], b);
      assert (a + b)[0] == a[0];
      assert (a + b)[1..] == a[1..] + b;
    } else {
      assert a + b == b;
    }
  }
}
