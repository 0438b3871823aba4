/** Go's `strings.Contains`, with a reference definition by occurrence index. */
module Strings {

  /** `sub` occurs in `s` starting at index `i`. */
  ghost predicate OccursAt(s: string, sub: string, i: int) {
    0 <= i && i + |sub| <= |s| && s[i..i + |sub|] == sub
  }

  /** `strings.Contains(s, sub)`: some window of `s` equals `sub`; the empty
      string is contained in every string. */
  predicate Contains(s: string, sub: string)
    ensures sub == [] ==> Contains(s, sub)
    ensures Contains(s, sub) ==> |sub| <= |s|
    decreases |s|
  {
    if |sub| > |s| then false
    else if s[..|sub|] == sub then true
    else Contains(s[1..], sub)
  }

  /** `Contains` holds exactly when `sub` occurs at some index of `s`. */
  lemma {:induction false} ContainsIff(s: string, sub: string)
    ensures Contains(s, sub) <==> exists i :: OccursAt(s, sub, i)
    decreases |s|
  {
    if |sub| > |s| {
      assert forall i :: !OccursAt(s, sub, i);
    } else if s[..|sub|] == sub {
      assert OccursAt(s, sub, 0);
    } else {
      ContainsIff(s[1..], sub);
      if Contains(s[1..], sub) {
        var i :| OccursAt(s[1..], sub, i);
        assert s[1..][i..i + |sub|] == s[i + 1..i + 1 + |sub|];
        assert OccursAt(s, sub, i + 1);
      } else {
        forall i | OccursAt(s, sub, i) ensures false {
          assert i != 0;
          assert s[1..][i - 1..i - 1 + |sub|] == s[i..i + |sub|];
          assert OccursAt(s[1..], sub, i - 1);
        }
      }
    }
  }

  /** An occurrence at a known index, for concrete strings. */
  lemma ContainsWitness(s: string, sub: string, i: int)
    requires OccursAt(s, sub, i)
    ensures Contains(s, sub)
  {
    ContainsIff(s, sub);
  }

  /** `sub` occurs in any string that has it as a middle part. */
  lemma ContainsInfix(a: string, sub: string, b: string)
    ensures Contains(a + sub + b, sub)
  {
    assert (a + sub + b)[|a|..|a| + |sub|] == sub;
    ContainsWitness(a + sub + b, sub, |a|);
  }

  /** `p + q` cannot contain `sub` when the character at some index `k` of
      `sub` never occurs in `p` and the next one never occurs in `q`: an
      occurrence would have to put the first in `q` and then the second
      there too. */
  lemma NotContainsAcross(p: string, q: string, sub: string, k: int)
    requires 0 <= k && k + 1 < |sub|
    requires sub[k] !in p && sub[k + 1] !in q
    ensures !Contains(p + q, sub)
  {
    var s := p + q;
    ContainsIff(s, sub);
    forall i ensures !OccursAt(s, sub, i) {
      if 0 <= i && i + |sub| <= |s| {
        var window := s[i..i + |sub|];
        assert window[k] == s[i + k] && window[k + 1] == s[i + k + 1];
        if i + k < |p| {
          assert s[i + k] == p[i + k];
          assert window[k] != sub[k];
        } else {
          assert s[i + k + 1] == q[i + k + 1 - |p|];
          assert window[k + 1] != sub[k + 1];
        }
      }
    }
  }
}
