/** Picking the network load balancers out of a tag search's results: an ARN
    names an NLB when it contains `loadbalancer/net`. */
module Arns {
  import opened Strings

  /** One entry of the tag search's `ResourceTagMappingList`; only its ARN is
      read. */
  datatype ResourceTagMapping = ResourceTagMapping(resourceArn: string)

  const NLBMarker := "loadbalancer/net"

  /** An ARN names an NLB exactly when the marker occurs in it somewhere. */
  predicate IsNLB(arn: string)
    ensures IsNLB(arn) <==> exists i :: OccursAt(arn, NLBMarker, i)
  {
    ContainsIff(arn, NLBMarker);
    Contains(arn, NLBMarker)
  }

  /** The ARNs of a list of tag mappings, in order. */
  function ResourceArns(mappings: seq<ResourceTagMapping>): (arns: seq<string>) {
    seq(|mappings|, i requires 0 <= i < |mappings| => mappings[i].resourceArn)
  }

  /** The NLB ARNs among `arns`, in their order, duplicates kept. */
  function NLBs(arns: seq<string>): (nlbs: seq<string>)
    ensures |nlbs| <= |arns|
    ensures forall i :: 0 <= i < |nlbs| ==> IsNLB(nlbs[i]) && nlbs[i] in arns
  {
    if arns == [] then []
    else
      var init, last := arns[..|arns| - 1], arns[|arns| - 1];
      assert arns == init + [last];
      NLBs(init) + if IsNLB(last) then [last] else []
  }

  /** The positions of the NLB ARNs in `arns`, ascending. */
  ghost function NLBPositions(arns: seq<string>): seq<int> {
    if arns == [] then []
    else
      var init := arns[..|arns| - 1];
      NLBPositions(init) + if IsNLB(arns[|arns| - 1]) then [|arns| - 1] else []
  }

  /** The selection is the subsequence of `arns` at exactly the positions that
      hold an NLB ARN: every such position is taken, in ascending order, and
      no other. */
  lemma {:induction false} NLBsAreSubsequence(arns: seq<string>)
    ensures var pos := NLBPositions(arns);
      && |pos| == |NLBs(arns)|
      && (forall j :: 0 <= j < |pos| ==> 0 <= pos[j] < |arns| && NLBs(arns)[j] == arns[pos[j]])
      && (forall j, k :: 0 <= j < k < |pos| ==> pos[j] < pos[k])
      && (forall i :: i in pos <==> 0 <= i < |arns| && IsNLB(arns[i]))
  {
    if arns != [] {
      var n := |arns| - 1;
      var init, last := arns[..n], arns[n];
      NLBsAreSubsequence(init);
      assert arns == init + [last];
      var pos0, sel0 := NLBPositions(init), NLBs(init);
      assert forall j :: 0 <= j < |pos0| ==> init[pos0[j]] == arns[pos0[j]];
      if IsNLB(last) {
        assert NLBPositions(arns) == pos0 + [n];
        assert NLBs(arns) == sel0 + [last];
      } else {
        assert NLBPositions(arns) == pos0;
        assert NLBs(arns) == sel0;
      }
    }
  }

  /** An ARN is selected exactly when it is among the inputs and is an NLB. */
  lemma {:induction false} NLBsMember(arns: seq<string>, x: string)
    ensures x in NLBs(arns) <==> x in arns && IsNLB(x)
  {
    if arns != [] {
      var init := arns[..|arns| - 1];
      NLBsMember(init, x);
      assert arns == init + [arns[|arns| - 1]];
    }
  }

  /** Each NLB ARN is selected as many times as it occurs; no other ARN is. */
  lemma {:induction false} NLBsMultiplicity(arns: seq<string>, x: string)
    ensures multiset(NLBs(arns))[x] == if IsNLB(x) then multiset(arns)[x] else 0
  {
    if arns != [] {
      var init := arns[..|arns| - 1];
      NLBsMultiplicity(init, x);
      assert arns == init + [arns[|arns| - 1]];
    }
  }

  /** Selection distributes over concatenation of result pages. */
  lemma {:induction false} NLBsAppend(a: seq<string>, b: seq<string>)
    ensures NLBs(a + b) == NLBs(a) + NLBs(b)
    decreases |b|
  {
    if b == [] {
      assert a + b == a;
    } else {
      var init := b[..|b| - 1];
      NLBsAppend(a, init);
      assert a + b == (a + init) + [b[|b| - 1]];
      assert (a + b)[..|a + b| - 1] == a + init;
    }
  }

  /** A list of NLB ARNs is left as it is. */
  lemma {:induction false} NLBsKeepsNLBs(arns: seq<string>)
    requires forall i :: 0 <= i < |arns| ==> IsNLB(arns[i])
    ensures NLBs(arns) == arns
  {
    if arns != [] {
      var init := arns[..|arns| - 1];
      NLBsKeepsNLBs(init);
      assert arns == init + [arns[|arns| - 1]];
    }
  }

  /** Selecting twice selects nothing more. */
  lemma NLBsIdempotent(arns: seq<string>)
    ensures NLBs(NLBs(arns)) == NLBs(arns)
  {
    NLBsKeepsNLBs(NLBs(arns));
  }

  /** The filter loop shared by both copies of `GetNLBARNs`: walk the search
      results in order and append each ARN that contains the marker. */
  method SelectNLBs(mappings: seq<ResourceTagMapping>) returns (nlbArns: seq<string>)
    ensures nlbArns == NLBs(ResourceArns(mappings))
  {
    nlbArns := [];
    for i := 0 to |mappings|
      invariant nlbArns == NLBs(ResourceArns(mappings[..i]))
    {
      var arn := mappings[i].resourceArn;
      assert ResourceArns(mappings[..i + 1]) == ResourceArns(mappings[..i]) + [arn];
      if Contains(arn, NLBMarker) {
        nlbArns := nlbArns + [arn];
      }
    }
    assert mappings[..|mappings|] == mappings;
  }
}
