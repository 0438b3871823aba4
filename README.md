# aws-istio-tools, modelled in Dafny

aws-istio-tools connects an Istio gateway service in a Kubernetes cluster to
the AWS Network Load Balancer (NLB) that fronts it. It finds the NLB by tag,
then finds the one target group attached to that NLB and prints the target
group's ARN. It only reads from AWS.

The repository holds two copies of the program that cannot be built
together:

- aws.go with istio.go is the parameterised copy. Every cluster and service
  name comes from the caller.
- main.go is the stand-alone copy. It writes the cluster and service in as
  constants.

This project models both copies and proves how they relate.

Each AWS SDK call is a parameter of the model. It is a function from the
request the program builds to either an error (`Err(msg)`) or the records
that come back (`Ok(records)`). The modules are:

- `Results`: Go's `(value, error)` pairs as `Result`, and a bare `error` as
  `Outcome`. `Wrap` is `fmt.Errorf("<context>, %v", err)`.
- `Strings`: `strings.Contains`. It is proved equal to a reference
  definition that asks whether the substring occurs at some index.
- `Tags`: the two tag maps (`getLBMapTags`, `getNodeMapTags`) and the two
  loops that turn a map into a filter list (`mapToTagFilter`,
  `mapToFilter`).
  - Go visits a map's keys in no fixed order. So each loop takes the next
    key with a nondeterministic `:|` choice and returns the order it used
    as a ghost out-parameter.
  - Lemmas show that every such order lists each key exactly once. Any two
    orders are permutations of each other, so the filter list always holds
    exactly the map's entries.
- `Arns`: picking out NLBs. An ARN names an NLB when it contains
  `loadbalancer/net`. `NLBs` is the reference definition. `SelectNLBs` is the
  loop that both copies of `GetNLBARNs` run.
- `Aws`: aws.go's `GetNLBARNs`, `GetTaggedNodeInstanceIds` and
  `GetTargetGroupARN`.
- `Reconcile`: what both reconcile procedures have in common.
  - A run records its observable steps as events: the locator call, the
    resolver call, and each `fmt.Println`.
  - `Classify` sorts every lookup result into one of four cases. `Reconciles`
    states what a run must do in each case.
- `Istio`: istio.go's `ReconcileIstioServicePorts`. It checks "more than one
  ARN" first.
- `MainProgram`: main.go's copy of `GetNLBARNs`, which returns the search
  error unwrapped. Also main.go's hard-coded `ReconcileIstioServicePorts`,
  which checks "no ARN" first and prints the NLB ARN before resolving it.
- `Agreement`: given the same lookup result and the same resolver, the two
  reconcile procedures return the same error and call the resolver in the
  same way. Their steps differ only by main.go's extra print. Each copy's own
  `GetNLBARNs` is a different matter: on a search error they return
  different messages.
- `Scenarios`: three concrete runs:
  - a search that finds an NLB next to an application load balancer;
  - a search that finds nothing;
  - a search that finds two NLBs.

## Two messages worth knowing

- A run with no NLB fails with "unable to find NLB ARN" (istio.go:25,
  main.go:102). The shorter "unable to find NLB" is a different error. It is
  what `GetTargetGroupARN` returns when the load-balancer lookup does not
  give exactly one load balancer (aws.go:48). `Scenarios.EmptySearch` proves
  that the longer message starts with the shorter one.
- Only aws.go's `GetNLBARNs` adds context to a search error, as "unable to
  get resources, <error>" (aws.go:135). main.go's copy returns the error as
  it is (main.go:79). See `Agreement.LocateVariantsDiffer` and
  `Agreement.SearchErrorEndToEnd`.

## Model

| member | source | states |
|---|---|---|
| `Results.Wrap` | aws.go:135 | A wrapped error message is the context, then exactly ", ", then the cause's message, and nothing else. Both parts can be recovered from it. |
| `Strings.ContainsIff` | aws.go:141 | `Contains(s, sub)` holds exactly when `sub` occurs in `s` at some index. So the empty string is contained in every string. |
| `Strings.Contains` | aws.go:141 | Every string contains the empty string. A string never contains anything longer than itself. |
| `Strings.NotContainsAcross` | aws.go:141 | `p + q` does not contain `sub` when one character of `sub` never occurs in `p` and the next character never occurs in `q`. |
| `Tags.ClusterKey` | aws.go:114 | The ownership key is `kubernetes.io/cluster/` followed by the cluster name, and the name can be read back from the key. |
| `Tags.LBMapTags` | aws.go:111-116 | `getLBMapTags(c, s)` has exactly two keys for every cluster name: `kubernetes.io/service-name` maps to `[s]` and `kubernetes.io/cluster/<c>` maps to `["owned"]`. |
| `Tags.NodeMapTags` | aws.go:118-123 | `getNodeMapTags(c)` has exactly two keys for every cluster name: `sigs.k8s.io/cluster-api-provider-aws/role` maps to `["node"]` and `kubernetes.io/cluster/<c>` maps to `["owned"]`. |
| `Tags.ClusterKeyIsNotServiceNameKey` | aws.go:113-114 | The cluster key never equals the service-name key, so neither map entry overwrites the other. |
| `Tags.ClusterKeyIsNotRoleKey` | aws.go:120-121 | The cluster key never equals the node-role key. |
| `Tags.MapToTagFilter` | aws.go:93-100 | Returns one `TagFilter` per map entry, as many as the map has keys, with the key and values unchanged. No key appears twice. The keys come in an order that lists every key of the map exactly once. |
| `Tags.MapToFilter` | aws.go:102-109 | Returns one EC2 `Filter` per map entry, as many as the map has keys. Each is named `tag:` plus the key, with the values unchanged. No name appears twice. The order lists every key exactly once. |
| `Tags.KeyOrderCovers` | aws.go:95 | A map iteration order leaves out no key. |
| `Tags.KeyOrdersArePermutations` | aws.go:95 | Any two iteration orders of the same map are permutations of each other. |
| `Tags.TagFiltersAreEntries` | aws.go:93-100 | Whatever the order, a tag filter is in the list exactly when it is an entry of the map. |
| `Tags.FiltersAreEntries` | aws.go:102-109 | Whatever the order, an EC2 filter is in the list exactly when it is `tag:<k>` with the values of some entry `k`. |
| `Tags.DistinctCardinality` | aws.go:95 | A key list with no repeats has as many distinct keys as entries. |
| `Tags.DistinctMultiplicity` | aws.go:95 | In a key list with no repeats, each key occurs once. |
| `Arns.IsNLB` | aws.go:141 | An ARN names an NLB exactly when `loadbalancer/net` occurs in it at some index. |
| `Arns.NLBs` | aws.go:138-146 | The selection is never longer than its input. Every ARN in it contains `loadbalancer/net` and comes from the input. |
| `Arns.NLBsAreSubsequence` | aws.go:138-146 | The selection is the input taken at exactly the positions that hold an NLB ARN, in ascending order. So it is a subsequence that keeps input order. |
| `Arns.NLBsMember` | aws.go:141-142 | An ARN is selected exactly when it is in the input and contains `loadbalancer/net`. |
| `Arns.NLBsMultiplicity` | aws.go:138-146 | Each NLB ARN is selected as often as it occurs in the input, so duplicates are kept. Any other ARN is selected zero times. |
| `Arns.NLBsAppend` | aws.go:139-144 | Selecting from a concatenation gives the concatenation of the two selections. |
| `Arns.NLBsKeepsNLBs` | aws.go:141 | A list made only of NLB ARNs comes back unchanged. |
| `Arns.NLBsIdempotent` | aws.go:138-146 | Selecting a second time changes nothing. |
| `Arns.SelectNLBs` | aws.go:138-146 | The filter loop reads each mapping's `ResourceARN` in input order and returns exactly `NLBs` of those ARNs. (main.go:82-89 is the same loop.) |
| `Aws.LocateResult` | aws.go:134-146 | A search error becomes "unable to get resources, <error>" and no ARNs. A successful search yields exactly the found ARNs that contain `loadbalancer/net`. |
| `Aws.GetNLBARNs` | aws.go:125-147 | Sends the two filters of `getLBMapTags(cluster, service)` in some map order. Returns `LocateResult` of the search's answer. |
| `Aws.InstanceIds` | aws.go:83-88 | Flattening yields one id per instance over all reservations. |
| `Aws.InstanceIdsMember` | aws.go:83-88 | An id is listed exactly when some instance of some reservation has that id. |
| `Aws.InstanceIdsAppend` | aws.go:84-88 | Flattening a concatenation of reservation lists gives the concatenation of the two flattenings. |
| `Aws.GetTaggedNodeInstanceIds` | aws.go:70-91 | Sends the `tag:`-prefixed filters of `getNodeMapTags(cluster)`. A describe error becomes "unable to get instances, <error>". Otherwise returns the `InstanceId` of every instance, reservation by reservation and in order within each. |
| `Aws.GetTargetGroupARN` | aws.go:34-68 | Describes the given ARN first. SDK errors pass through unwrapped. Fewer or more than one load balancer gives "unable to find NLB", and the target groups are then never queried. Otherwise it queries the target groups for that load balancer's own ARN. Fewer or more than one target group gives "unable to find target group". Otherwise it returns that group's ARN. (main.go:22-56 is the same function.) |
| `Aws.TargetGroupFoundIff` | aws.go:47-67 | Resolution succeeds exactly when both lookups return exactly one record. |
| `Reconcile.Classify` | istio.go:14-28 | Sorts a lookup result into four cases: lookup failed, none found (an empty list), several found (two or more), or found (exactly one, carrying that ARN). Each case holds exactly when its condition holds. |
| `Reconcile.ResolveAndPrint` | istio.go:28-39 | The step both copies end with (also main.go:113-121). It extends the run so far, unchanged, by exactly one resolver call with the NLB ARN and no locator call. It succeeds exactly when the resolver does, fails with "unable to get target group ARN, <error>" otherwise, and on success prints exactly the target group ARN. |
| `Istio.ReconcileIstioServicePorts` | istio.go:5-40 | Calls the locator once, with `cluster` and `service` unchanged. A lookup error fails as "unable to get NLB ARNs, <error>". Two or more ARNs fail as "found more than one NLB ARN". None fails as "unable to find NLB ARN". In those cases the resolver is never called. With exactly one ARN the resolver is called exactly once, with that ARN. Its error fails as "unable to get target group ARN, <error>". On success the run returns nil and prints only the target group ARN. |
| `MainProgram.LocateResult` | main.go:78-89 | A search error is returned unchanged. A successful search yields exactly the found ARNs that contain `loadbalancer/net`. |
| `MainProgram.GetNLBARNs` | main.go:58-90 | The inline tag map is `getLBMapTags(clusterName, serviceName)`. Sends one filter per key of that map, two in all. Returns `MainProgram.LocateResult` of the answer. |
| `MainProgram.ReconcileIstioServicePorts` | main.go:92-122 | Always calls the locator with `"tkg-dev-shared"` and `"istio-system/istio-eastwestgateway"`. It meets the same four-case promise as istio.go's copy. With exactly one ARN it prints that ARN before calling the resolver, then prints the target group ARN on success. |
| `Agreement.ReconcileVariantsAgree` | main.go:100-113 | On main.go's constants, both copies return the same error for every lookup result and resolver. They make the same resolver calls. main.go's steps are istio.go's with one print of the NLB ARN inserted after the lookup. |
| `Agreement.CheckOrderIrrelevant` | main.go:100-107 | For every list of ARNs, checking zero before more than one gives the same outcome as istio.go's reverse order (istio.go:18-26). |
| `Agreement.LocateVariantsDiffer` | main.go:78-80 | Both `GetNLBARNs` copies select the same ARNs. On a search error, aws.go's message is main.go's message behind "unable to get resources, ". |
| `Agreement.SearchErrorEndToEnd` | main.go:96-98 | A search error reaches the caller wrapped twice through istio.go with aws.go, and only once through main.go. |
| `Scenarios.NetArnsAreNLBs` | aws.go:141 | ARNs of the form `...:loadbalancer/net/...` are NLB ARNs. |
| `Scenarios.AppArnIsNotNLB` | aws.go:141 | An application load balancer's ARN `...:loadbalancer/app/b/2` is not an NLB ARN. |
| `Scenarios.MixedLocate` | aws.go:138-146 | A search that finds one NLB and one application load balancer locates only the NLB. |
| `Scenarios.MixedSearch` | istio.go:28-31 | After that search, the resolver is called exactly once, with the NLB's ARN. |
| `Scenarios.EmptySearch` | istio.go:23-26 | A search that finds nothing fails with "unable to find NLB ARN", which starts with "unable to find NLB", and never calls the resolver. |
| `Scenarios.TwoNLBSearch` | istio.go:18-20 | A search that finds two NLBs fails with "found more than one NLB ARN" and never calls the resolver. |

## Left out

- The AWS SDK clients and their calls (`GetResources`, `DescribeLoadBalancers`, `DescribeTargetGroups`, `DescribeInstances`) are function parameters from request to result. Their pagination, retries and error kinds are not modelled. Like the source, the model reads only the one page each call returns.
- `NewAWSClient`, `config.LoadDefaultConfig` and `context.TODO()` are left out. They load configuration and credentials.
- The lazy creation of the `elb`, `ec2` and `tg` client fields is left out. It has no effect on any result, so no class holds those fields.
- `main()` and its `log.Fatalf` exits are left out. They are process I/O.
- `fmt.Println` is not real output. It is a `PrintLine` event in a run's event list.
- A missing ARN or id in a record is not modelled. Every record carries its string, so the nil-pointer dereferences of `*rtm.ResourceARN`, `*i.InstanceId` and `*tg.TargetGroupArn` cannot fail, and a nil `lb.LoadBalancerArn` cannot be passed on to the target-group query.
- `%v` formatting is not modelled beyond "context, comma, space, message".
- Go's map iteration order is not modelled. It is a nondeterministic choice, and the filter lists are specified up to that order.
- `ReconcileIstioServicePorts` takes its locator and resolver as abstract functions, not the SDK-backed `GetNLBARNs` and `GetTargetGroupARN`. The `Scenarios` and `Agreement` lemmas plug in `LocateResult` as the locator, the function both `GetNLBARNs` methods are proved to compute. The resolver stays an abstract function in every lemma. Nothing connects it to `GetTargetGroupARN`.
- `Strings.Contains` compares characters, while Go's `strings.Contains` compares bytes. The two agree here because the marker `loadbalancer/net` is ASCII and the ARNs are valid UTF-8.
