/** `Array.prototype.filter`, and what it keeps. */
module Sequences {

  /** The elements of `s` that satisfy `p`, in their order in `s`. */
  function Filter<T>(p: T -> bool, s: seq<T>): (r: seq<T>)
    ensures |r| <= |s|
  {
    if |s| == 0 then []
    else (if p(s[0]) then [s[0]] else []) + Filter(p, s[1..])
  }

  /** `idx` lists positions below `n` in increasing order. */
  predicate IncreasingIndices(idx: seq<nat>, n: nat)
  {
    && (forall j :: 0 <= j < |idx| ==> idx[j] < n)
    && (forall i, j :: 0 <= i < j < |idx| ==> idx[i] < idx[j])
  }

  /** Every index of `tail` moved up by one. */
  lemma ShiftIndices(tail: seq<nat>, n: nat) returns (shifted: seq<nat>)
    requires IncreasingIndices(tail, n)
    ensures IncreasingIndices(shifted, n + 1)
    ensures |shifted| == |tail| && 0 !in shifted
    ensures forall j :: 0 <= j < |shifted| ==> shifted[j] == tail[j] + 1
    ensures forall i :: 0 < i < n + 1 ==> (i in shifted <==> i - 1 in tail)
  {
    shifted := seq(|tail|, j requires 0 <= j < |tail| => tail[j] + 1);
    forall i | 0 < i < n + 1 && i - 1 in tail ensures i in shifted {
      var j :| 0 <= j < |tail| && tail[j] == i - 1;
      assert shifted[j] == i;
    }
  }

  /** Index list of `[x] + s` from the index list of `s`: shift every index by one, and put 0 in front when `x` is kept (`lead` is 1). */
  lemma ConsIndices(tail: seq<nat>, n: nat, lead: nat) returns (idx: seq<nat>)
    requires lead <= 1
    requires IncreasingIndices(tail, n)
    ensures IncreasingIndices(idx, n + 1)
    ensures |idx| == |tail| + lead
    ensures lead == 1 ==> idx[0] == 0
    ensures forall j :: lead <= j < |idx| ==> idx[j] == tail[j - lead] + 1
    ensures forall i :: 0 <= i < n + 1 ==> (i in idx <==> (i == 0 && lead == 1) || (i > 0 && i - 1 in tail))
  {
    var shifted := ShiftIndices(tail, n);
    if lead == 1 {
      idx := [0] + shifted;
      assert forall j :: 1 <= j < |idx| ==> idx[j] == shifted[j - 1];
    } else {
      idx := shifted;
    }
  }

  /**
   * `Filter(p, s)` is `s` restricted to the positions where `p` holds, with the order of
   * `s` kept: there is an increasing list of exactly those positions that it reads off.
   */
  lemma {:induction false} FilterKeepsExactlyInOrder<T>(p: T -> bool, s: seq<T>) returns (idx: seq<nat>)
    ensures IncreasingIndices(idx, |s|)
    ensures |idx| == |Filter(p, s)|
    ensures forall j :: 0 <= j < |idx| ==> Filter(p, s)[j] == s[idx[j]]
    ensures forall i :: 0 <= i < |s| ==> (p(s[i]) <==> i in idx)
  {
    if |s| == 0 {
      idx := [];
    } else {
      var tail := FilterKeepsExactlyInOrder(p, s[1..]);
      var keep := p(s[0]);
      var lead := if keep then 1 else 0;
      idx := ConsIndices(tail, |s| - 1, lead);
      var r := Filter(p, s);
      var rt := Filter(p, s[1..]);
      assert r == (if keep then [s[0]] else []) + rt;
      forall j | 0 <= j < |idx| ensures r[j] == s[idx[j]] {
        if j >= lead {
          assert r[j] == rt[j - lead];
        }
      }
      forall i | 0 < i < |s| ensures p(s[i]) <==> i in idx {
        assert s[i] == s[1..][i - 1];
      }
    }
  }

  /** What the filter keeps comes from `s` and satisfies `p`. */
  lemma FilterMembers<T>(p: T -> bool, s: seq<T>)
    ensures forall x :: x in Filter(p, s) ==> x in s && p(x)
  {
    var idx := FilterKeepsExactlyInOrder(p, s);
    forall x | x in Filter(p, s) ensures x in s && p(x) {
      var j :| 0 <= j < |Filter(p, s)| && Filter(p, s)[j] == x;
      assert s[idx[j]] == x;
      assert idx[j] in idx;
    }
  }
}
