/** The tag maps that select a service's load balancer and a cluster's nodes,
    and the two loops that turn such a map into the filter lists the tagging
    and EC2 APIs take. Go iterates a map in an unspecified order; the loops
    here pick the next key nondeterministically and report, as a ghost
    out-parameter, the order they picked. */
module Tags {

  /** A tag key and the values it may take (a Go `map[string][]string`). */
  type TagMap = map<string, seq<string>>

  /** The tagging API's `TagFilter{Key, Values}`. */
  datatype TagFilter = TagFilter(key: string, values: seq<string>)

  /** EC2's `Filter{Name, Values}`. */
  datatype Filter = Filter(name: string, values: seq<string>)

  const ServiceNameKey := "kubernetes.io/service-name"
  const RoleKey := "sigs.k8s.io/cluster-api-provider-aws/role"
  const ClusterKeyPrefix := "kubernetes.io/cluster/"
  const Owned := "owned"
  const NodeRole := "node"
  const FilterNamePrefix := "tag:"

  /** The ownership tag key of a cluster: the fixed prefix, then the cluster's
      name, which can be read back from the key. */
  function ClusterKey(cluster: string): (k: string)
    ensures |k| == |ClusterKeyPrefix| + |cluster|
    ensures k[..|ClusterKeyPrefix|] == ClusterKeyPrefix && k[|ClusterKeyPrefix|..] == cluster
  {
    ClusterKeyPrefix + cluster
  }

  /** `getLBMapTags`: exactly two keys, the service's name tag and the cluster
      ownership tag, each with one value. */
  function LBMapTags(cluster: string, service: string): (m: TagMap)
    ensures m.Keys == {ServiceNameKey, ClusterKey(cluster)}
    ensures |m| == 2
    ensures m[ServiceNameKey] == [service] && m[ClusterKey(cluster)] == [Owned]
  {
    ClusterKeyIsNotServiceNameKey(cluster);
    assert |{ServiceNameKey, ClusterKey(cluster)}| == 2;
    map[ServiceNameKey := [service], ClusterKey(cluster) := [Owned]]
  }

  /** `getNodeMapTags`: exactly two keys, the node role tag and the cluster
      ownership tag, each with one value. */
  function NodeMapTags(cluster: string): (m: TagMap)
    ensures m.Keys == {RoleKey, ClusterKey(cluster)}
    ensures |m| == 2
    ensures m[RoleKey] == [NodeRole] && m[ClusterKey(cluster)] == [Owned]
  {
    ClusterKeyIsNotRoleKey(cluster);
    assert |{RoleKey, ClusterKey(cluster)}| == 2;
    map[RoleKey := [NodeRole], ClusterKey(cluster) := [Owned]]
  }

  /** The cluster key never collides with the service-name key, whatever the
      cluster is called: they part at index 14. */
  lemma ClusterKeyIsNotServiceNameKey(cluster: string)
    ensures ClusterKey(cluster) != ServiceNameKey
  {
    assert ClusterKey(cluster)[14] == 'c' && ServiceNameKey[14] == 's';
  }

  /** Nor with the role key: they part at index 0. */
  lemma ClusterKeyIsNotRoleKey(cluster: string)
    ensures ClusterKey(cluster) != RoleKey
  {
    assert ClusterKey(cluster)[0] == 'k' && RoleKey[0] == 's';
  }

  /** `order` lists every key of `m` once: a possible Go iteration order. */
  ghost predicate IsKeyOrder(m: TagMap, order: seq<string>) {
    && |order| == |m|
    && (forall i :: 0 <= i < |order| ==> order[i] in m)
    && (forall i, j :: 0 <= i < j < |order| ==> order[i] != order[j])
  }

  /** The tag filters for `m`, visiting its keys in `order`. */
  ghost function TagFiltersIn(m: TagMap, order: seq<string>): seq<TagFilter>
    requires forall i :: 0 <= i < |order| ==> order[i] in m
  {
    seq(|order|, i requires 0 <= i < |order| => TagFilter(order[i], m[order[i]]))
  }

  /** The EC2 filters for `m`, visiting its keys in `order`. */
  ghost function FiltersIn(m: TagMap, order: seq<string>): seq<Filter>
    requires forall i :: 0 <= i < |order| ==> order[i] in m
  {
    seq(|order|, i requires 0 <= i < |order| => Filter(FilterNamePrefix + order[i], m[order[i]]))
  }

  /** `mapToTagFilter`: one `TagFilter` per entry of `m`, in an unspecified
      order, key and values unchanged. */
  method MapToTagFilter(m: TagMap) returns (filters: seq<TagFilter>, ghost order: seq<string>)
    ensures IsKeyOrder(m, order)
    ensures filters == TagFiltersIn(m, order)
    ensures |filters| == |m|
    ensures forall i :: 0 <= i < |filters| ==> filters[i].key in m && filters[i].values == m[filters[i].key]
    ensures forall i, j :: 0 <= i < j < |filters| ==> filters[i].key != filters[j].key
  {
    filters, order := [], [];
    var remaining := m.Keys;
    while remaining != {}
      invariant remaining <= m.Keys
      invariant |order| + |remaining| == |m|
      invariant forall i :: 0 <= i < |order| ==> order[i] in m && order[i] !in remaining
      invariant forall i, j :: 0 <= i < j < |order| ==> order[i] != order[j]
      invariant |filters| == |order|
      invariant forall i :: 0 <= i < |filters| ==> filters[i] == TagFilter(order[i], m[order[i]])
      decreases |remaining|
    {
      var key :| key in remaining;
      filters := filters + [TagFilter(key, m[key])];
      order := order + [key];
      remaining := remaining - {key};
    }
  }

  /** `mapToFilter`: one EC2 `Filter` per entry of `m`, in an unspecified
      order, named `tag:<key>`, values unchanged. */
  method MapToFilter(m: TagMap) returns (filters: seq<Filter>, ghost order: seq<string>)
    ensures IsKeyOrder(m, order)
    ensures filters == FiltersIn(m, order)
    ensures |filters| == |m|
    ensures forall i :: 0 <= i < |filters| ==>
      && FilterNamePrefix <= filters[i].name
      && filters[i].name[|FilterNamePrefix|..] in m
      && filters[i].values == m[filters[i].name[|FilterNamePrefix|..]]
    ensures forall i, j :: 0 <= i < j < |filters| ==> filters[i].name != filters[j].name
  {
    filters, order := [], [];
    var remaining := m.Keys;
    while remaining != {}
      invariant remaining <= m.Keys
      invariant |order| + |remaining| == |m|
      invariant forall i :: 0 <= i < |order| ==> order[i] in m && order[i] !in remaining
      invariant forall i, j :: 0 <= i < j < |order| ==> order[i] != order[j]
      invariant |filters| == |order|
      invariant forall i :: 0 <= i < |filters| ==> filters[i] == Filter(FilterNamePrefix + order[i], m[order[i]])
      decreases |remaining|
    {
      var key :| key in remaining;
      filters := filters + [Filter(FilterNamePrefix + key, m[key])];
      order := order + [key];
      remaining := remaining - {key};
    }
  }

  /** A duplicate-free sequence has as many distinct elements as entries. */
  lemma {:induction false} DistinctCardinality(s: seq<string>)
    requires forall i, j :: 0 <= i < j < |s| ==> s[i] != s[j]
    ensures |set x | x in s| == |s|
  {
    if s != [] {
      var init := s[..|s| - 1];
      DistinctCardinality(init);
      assert (set x | x in s) == (set x | x in init) + {s[|s| - 1]};
      assert s[|s| - 1] !in init;
    }
  }

  /** A key order visits every key of the map: nothing is dropped. */
  lemma KeyOrderCovers(m: TagMap, order: seq<string>)
    requires IsKeyOrder(m, order)
    ensures forall k :: k in m <==> k in order
  {
    DistinctCardinality(order);
    var visited := set x | x in order;
    assert visited <= m.Keys;
    assert |visited| == |m.Keys|;
    SubsetOfSameSize(visited, m.Keys);
  }

  /** A subset as large as its superset is the whole superset. */
  lemma SubsetOfSameSize(a: set<string>, b: set<string>)
    requires a <= b && |a| == |b|
    ensures a == b
  {
    assert b == a + (b - a);
    assert a * (b - a) == {};
    assert |b - a| == 0;
  }

  /** In a duplicate-free sequence each element occurs once. */
  lemma {:induction false} DistinctMultiplicity(s: seq<string>, x: string)
    requires forall i, j :: 0 <= i < j < |s| ==> s[i] != s[j]
    ensures multiset(s)[x] == if x in s then 1 else 0
  {
    if s != [] {
      var init := s[..|s| - 1];
      assert s == init + [s[|s| - 1]];
      DistinctMultiplicity(init, x);
    }
  }

  /** Any two iteration orders of one map are permutations of each other. */
  lemma KeyOrdersArePermutations(m: TagMap, order1: seq<string>, order2: seq<string>)
    requires IsKeyOrder(m, order1) && IsKeyOrder(m, order2)
    ensures multiset(order1) == multiset(order2)
  {
    KeyOrderCovers(m, order1);
    KeyOrderCovers(m, order2);
    forall x ensures multiset(order1)[x] == multiset(order2)[x] {
      DistinctMultiplicity(order1, x);
      DistinctMultiplicity(order2, x);
    }
  }

  /** Whatever the order, the tag filter list holds exactly the map's entries. */
  lemma TagFiltersAreEntries(m: TagMap, order: seq<string>, f: TagFilter)
    requires IsKeyOrder(m, order)
    ensures f in TagFiltersIn(m, order) <==> f.key in m && f.values == m[f.key]
  {
    KeyOrderCovers(m, order);
    if f.key in m && f.values == m[f.key] {
      var i :| 0 <= i < |order| && order[i] == f.key;
      assert TagFiltersIn(m, order)[i] == f;
    }
  }

  /** Whatever the order, the EC2 filter list holds exactly the map's entries,
      each key prefixed with `tag:`. */
  lemma FiltersAreEntries(m: TagMap, order: seq<string>, f: Filter)
    requires IsKeyOrder(m, order)
    ensures f in FiltersIn(m, order) <==>
      exists k :: k in m && f == Filter(FilterNamePrefix + k, m[k])
  {
    KeyOrderCovers(m, order);
    if exists k :: k in m && f == Filter(FilterNamePrefix + k, m[k]) {
      var k :| k in m && f == Filter(FilterNamePrefix + k, m[k]);
      var i :| 0 <= i < |order| && order[i] == k;
      assert FiltersIn(m, order)[i] == f;
    }
  }
}
