/** When the kept sum of shared tokens is not the sum over the live entries: a leaf that has
    lost tokens of its own to a split is taken off with more than it was added with. */
module Drift {
  import opened RadixTree
  import opened WindowLog
  import opened Histogram

  /** Between trees (a, p) and (b, q) a node has come to lie on the edge above node i. */
  ghost predicate EdgeSplit(a: seq<Node>, p: seq<Path>, q: seq<Path>, i: nat)
    requires i < |a| == |p| <= |q| && a[i].parent.Some? && a[i].parent.value < |p|
  {
    exists m :: |p| <= m < |q| && p[a[i].parent.value] < q[m] && q[m] < p[i]
  }

  /** As the tree grows a node never gains tokens of its own, and it loses some exactly when
      the edge above it is split. */
  lemma OwnTokens(a: seq<Node>, p: seq<Path>, b: seq<Node>, q: seq<Path>, i: nat)
    requires Tree(a, p) && Tree(b, q) && |p| <= |q| && q[..|p|] == p && 0 < i < |a|
    ensures i < |b| && |a| == |p| && a[i].parent.Some? && a[i].parent.value < |p|
    ensures |b[i].key| <= |a[i].key|
    ensures |b[i].key| == |a[i].key| <==> !EdgeSplit(a, p, q, i)
  {
    hide Tree;
    RootPath(a, p);
    RootPath(b, q);
    var u := Up(a, p, i);
    var v := Up(b, q, i);
    assert forall k :: 0 <= k < |p| ==> q[k] == p[k];
    if |q[u]| > |q[v]| {
      assert q[u] <= q[i];
      Between(b, q, i, u);
    }
    if |q[v]| > |q[u]| {
      if v < |a| {
        assert p[v] <= p[i];
        Between(a, p, i, v);
      }
      assert p[u] < q[v] && q[v] < p[i];
    }
    forall m | |p| <= m < |q| && p[u] < q[m] && q[m] < p[i] && |q[v]| == |q[u]| ensures false {
      Between(b, q, i, m);
    }
  }

  /** The sum of shared tokens survives the expiry of the first entry exactly when the edge
      above its leaf has not been split since the entry was logged. (a, p) is the tree then,
      (b, q) the tree now. */
  lemma ShareExactSplit(a: seq<Node>, p: seq<Path>, b: seq<Node>, q: seq<Path>, log: seq<Entry>, added: seq<int>,
      share: int)
    requires Tree(a, p) && Tree(b, q) && |p| <= |q| && q[..|p|] == p
    requires log != [] && |added| == |log| && 0 < log[0].leaf < |a| && added[0] == |a[log[0].leaf].key|
    requires share == ShareTokens(log, added, Lens(b), log[0].node)
    ensures var leaf := log[0].leaf;
            && leaf < |b| && |a| == |p| && a[leaf].parent.Some? && a[leaf].parent.value < |p|
            && (EdgeSplit(a, p, q, leaf) <==>
                share - (b[leaf].contextLength - |b[leaf].key|)
                  != ShareTokens(log[1..], added[1..], Lens(b), log[0].node))
  {
    hide Tree, EdgeSplit, ShareTokens;
    OwnTokens(a, p, b, q, log[0].leaf);
    ShareExact(log, added, Lens(b), share, |b[log[0].leaf].key|);
  }
}
