/**
 * DOM nodes by identity: a page keeps one distinct number per card node,
 * parallel to its cards, so that a timer set for a node finds that node
 * again however the cards have moved in the meantime.
 */
module Nodes {
  import opened Wrappers

  /** `s` with its `i`-th element taken out. */
  function Without<T>(s: seq<T>, i: nat): (r: seq<T>)
    requires i < |s|
    ensures |r| == |s| - 1
    ensures forall t :: 0 <= t < i ==> r[t] == s[t]
    ensures forall t :: i <= t < |r| ==> r[t] == s[t + 1]
  {
    s[..i] + s[i + 1..]
  }

  /** No node appears twice. */
  predicate Distinct(s: seq<nat>) {
    forall i, j :: 0 <= i < j < |s| ==> s[i] != s[j]
  }

  /** Taking a node out of a list of distinct nodes keeps them distinct and removes that node. */
  lemma WithoutDistinct(s: seq<nat>, i: nat)
    requires i < |s| && Distinct(s)
    ensures Distinct(Without(s, i)) && s[i] !in Without(s, i)
  {
    var r := Without(s, i);
    forall a, b | 0 <= a < b < |r| ensures r[a] != r[b] {
      var a' := if a < i then a else a + 1;
      var b' := if b < i then b else b + 1;
      assert r[a] == s[a'] && r[b] == s[b'];
    }
    forall t | 0 <= t < |r| ensures r[t] != s[i] {
      if t < i { assert r[t] == s[t]; } else { assert r[t] == s[t + 1]; }
    }
  }

  /** Nothing new appears. */
  lemma WithoutSubset(s: seq<nat>, i: nat)
    requires i < |s|
    ensures forall n :: n in Without(s, i) ==> n in s
  {
    var r := Without(s, i);
    forall n | n in r ensures n in s {
      var t :| 0 <= t < |r| && r[t] == n;
      if t < i { assert s[t] == n; } else { assert s[t + 1] == n; }
    }
  }

  /** Every other node stays. */
  lemma WithoutKeeps(s: seq<nat>, i: nat, m: nat)
    requires i < |s| && m in s && m != s[i]
    ensures m in Without(s, i)
  {
    var j :| 0 <= j < |s| && s[j] == m;
    if j < i { assert Without(s, i)[j] == m; } else { assert Without(s, i)[j - 1] == m; }
  }

  /** Where node `n` sits, if it is still on the page. */
  function PositionOf(nodes: seq<nat>, n: nat): (r: Option<nat>)
    ensures r.None? <==> n !in nodes
    ensures r.Some? ==> r.value < |nodes| && nodes[r.value] == n
  {
    if nodes == [] then None
    else if nodes[0] == n then Some(0)
    else match PositionOf(nodes[1..], n)
      case None => None
      case Some(i) => Some(i + 1)
  }
}
