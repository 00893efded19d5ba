/** The Preble scheduler's use of the radix tree and the histogram: one arrival and one release. */
module Preble {
  import opened Common
  import opened RadixTree
  import opened RadixCounts
  import opened RadixCache
  import opened WindowLog
  import opened Histogram

  /** `is_unshare_prefix_over_50_percent_for_node`: more tokens of its own than before it. */
  predicate LowShare(n: Node) { |n.key| > n.contextLength - |n.key| }

  /** a is the lowest node on the way from n up to the root that shares less than half. */
  ghost predicate Nearest(nodes: seq<Node>, paths: seq<Path>, n: nat, a: nat)
    requires n < |nodes| == |paths|
  {
    && a < |nodes| && paths[a] <= paths[n] && LowShare(nodes[a])
    && forall i :: 0 <= i < |nodes| && paths[i] <= paths[n] && |paths[i]| > |paths[a]| ==> !LowShare(nodes[i])
  }

  /** The node of a first edge has no tokens before its own. */
  lemma FirstEdge(nodes: seq<Node>, paths: seq<Path>, i: nat)
    requires Tree(nodes, paths) && 0 < i < |nodes| && nodes[i].parent == Some(0)
    ensures LowShare(nodes[i])
  {
    hide Tree;
    RootPath(nodes, paths);
    var p := Up(nodes, paths, i);
    ContextIsLength(nodes, paths, i);
  }

  lemma ContextIsLength(nodes: seq<Node>, paths: seq<Path>, i: nat)
    requires Tree(nodes, paths) && i < |nodes|
    ensures |nodes| == |paths| && nodes[i].contextLength == |paths[i]|
  {
    assert Linked(nodes, paths, i);
  }

  /** A node shares less than half exactly when its path is more than twice its parent's. */
  lemma LowShareIs(nodes: seq<Node>, paths: seq<Path>, i: nat)
    requires Tree(nodes, paths) && 0 < i < |nodes|
    ensures |nodes| == |paths| && nodes[i].parent.Some? && nodes[i].parent.value < |nodes|
    ensures LowShare(nodes[i]) <==> |paths[i]| > 2 * |paths[nodes[i].parent.value]|
  {
    hide Tree;
    var p := Up(nodes, paths, i);
    ContextIsLength(nodes, paths, i);
  }

  /** When the edge to c is split at a new node, the important node of a request whose important
      node was c is now the new one exactly when that shares less than half and c does not, and
      exactly then the entries of c go over. */
  lemma HandOverIs(nodes: seq<Node>, paths: seq<Path>, c: nat, len: nat, now: int, n: nat, log: seq<Entry>,
      keys: set<nat>)
    requires Tree(nodes, paths) && 0 < c < |nodes| == |paths| && 0 < len < |nodes[c].key|
    requires n < |nodes| && Nearest(nodes, paths, n, c)
    ensures nodes[c].parent.Some? && nodes[c].parent.value < |nodes|
    ensures var u, m := Split(nodes, c, len, now), |nodes|;
            var q := paths + [paths[nodes[c].parent.value] + nodes[c].key[..len]];
            && (Nearest(u, q, n, m) <==> LowShare(u[m]) && !LowShare(u[c]))
            && (Nearest(u, q, n, c) <==> LowShare(u[c]))
            && HandOver(log, keys, u, c, m) == if Nearest(u, q, n, m) && c in keys then Rename(log, c, m) else log
  {
    hide Tree;
    var p := Up(nodes, paths, c);
    var u, m, q := Split(nodes, c, len, now), |nodes|, paths + [paths[p] + nodes[c].key[..len]];
    SplitKeeps(nodes, paths, c, len, now);
    assert nodes[c].key == nodes[c].key[..len] + nodes[c].key[len..];
    assert paths[c] == q[m] + nodes[c].key[len..];
    assert q[m] <= paths[n];
    forall i | 0 <= i < m && i != c
      ensures LowShare(u[i]) <==> LowShare(nodes[i])
    {
      SplitShare(nodes, c, len, now, i);
    }
    forall i | 0 <= i < |u| && q[i] <= q[n] && |q[i]| > |q[m]| && |q[i]| <= |q[c]| ensures i == c {
      assert q[i] <= q[c] && q[c] == paths[c];
      SplitUp(nodes, c, len, now);
      Between(u, q, c, i);
    }
    if LowShare(u[m]) && !LowShare(u[c]) {
      forall i | 0 <= i < |u| && q[i] <= q[n] && |q[i]| > |q[m]| ensures !LowShare(u[i]) {
        if |q[i]| > |q[c]| { assert q[i] == paths[i]; }
      }
    }
  }

  lemma SplitShare(nodes: seq<Node>, c: nat, len: nat, now: int, i: nat)
    requires c < |nodes| && nodes[c].parent.Some? && nodes[c].parent.value < |nodes| && 0 < len < |nodes[c].key|
    requires i < |nodes| && i != c
    ensures LowShare(Split(nodes, c, len, now)[i]) <==> LowShare(nodes[i])
  {
  }

  lemma SplitUp(nodes: seq<Node>, c: nat, len: nat, now: int)
    requires c < |nodes| && nodes[c].parent.Some? && nodes[c].parent.value < |nodes| && 0 < len < |nodes[c].key|
    requires nodes[c].parent.value != c
    ensures Split(nodes, c, len, now)[c].parent == Some(|nodes|)
  {
  }

  /** Insertion keeps the context length of every old node, which is what the histogram adds
      on arrival and subtracts on expiry. */
  lemma LensKept(a: seq<Node>, p: seq<Path>, b: seq<Node>, q: seq<Path>)
    requires Tree(a, p) && Tree(b, q) && |a| <= |b| && |p| <= |q| && q[..|p|] == p
    ensures Lens(b)[..|a|] == Lens(a)
  {
    hide Tree;
    RootPath(a, p);
    RootPath(b, q);
    forall i | 0 <= i < |a| ensures Lens(b)[i] == Lens(a)[i] {
      ContextIsLength(a, p, i);
      ContextIsLength(b, q, i);
      assert q[i] == q[..|p|][i];
    }
  }

  lemma SumsKept(m: map<nat, int>, log: seq<Entry>, a: seq<nat>, b: seq<nat>)
    requires Logged(log, a) && Sums(m, log, a) && |a| <= |b| && b[..|a|] == a
    ensures Logged(log, b) && Sums(m, log, b)
  {
    SumsFrame(log, a, b, 0);
    forall n ensures PromptTokens(log, b, n) == PromptTokens(log, a, n) { SumsFrame(log, a, b, n); }
  }

  lemma SharesKept(m: map<nat, int>, drift: map<nat, int>, log: seq<Entry>, added: seq<int>, a: seq<nat>, b: seq<nat>)
    requires Logged(log, a) && Shares(m, drift, log, added, a) && |a| <= |b| && b[..|a|] == a
    ensures Shares(m, drift, log, added, b)
  {
    hide ShareTokens, Logged, Keyed;
    forall n ensures ShareTokens(log, added, b, n) == ShareTokens(log, added, a, n) { ShareFrame(log, added, a, b, n); }
  }

  lemma LensSame(a: seq<Node>, b: seq<Node>)
    requires SameShape(a, b)
    ensures Lens(a) == Lens(b)
  {
    forall i | 0 <= i < |a| ensures Lens(a)[i] == Lens(b)[i] { assert SameLinks(a[i], b[i]); }
  }

  lemma NearestSame(a: seq<Node>, b: seq<Node>, paths: seq<Path>, n: nat, i: nat)
    requires SameShape(a, b) && n < |a| == |paths| && Nearest(a, paths, n, i)
    ensures |a| == |b| && Nearest(b, paths, n, i) && i < |b|
  {
    assert forall j :: 0 <= j < |a| ==> SameLinks(a[j], b[j]) && (LowShare(a[j]) <==> LowShare(b[j]));
  }

  lemma PinnedStay(was: seq<Node>, gone: set<nat>, g: nat)
    requires Goes(was, gone, g)
    ensures forall i, h :: 0 <= i < |was| && Pinned(was[i], h) ==> Pinned(Without(was, gone, g)[i], h)
  {
  }

  /** A cached node that cannot be evicted is referenced. */
  lemma NothingLeft(nodes: seq<Node>, paths: seq<Path>, jobs: seq<Job>, n: nat, g: nat)
    requires Booked(nodes, paths, jobs, n) && g < n
    ensures forall i :: 0 < i < |nodes| && HasCached(nodes[i], g) && !EvictableAt(nodes[i], g) ==> Pinned(nodes[i], g)
  {
    forall i | 0 < i < |nodes|
      ensures |nodes[i].counts| == n && nodes[i].counts[g] >= 0
    {
      assert Exact(nodes, paths, jobs, n, i);
    }
  }

  /** The log after the new node m above c has become the important one. */
  ghost function HandOver(log: seq<Entry>, keys: set<nat>, nodes: seq<Node>, c: nat, m: nat): seq<Entry>
    requires c < |nodes| && m < |nodes|
  {
    if LowShare(nodes[m]) && !LowShare(nodes[c]) && c in keys then Rename(log, c, m) else log
  }

  /** An insertion into the nodes a has split the edge to c. */
  predicate BelowNew(a: seq<Node>, b: seq<Node>, c: nat) {
    c < |a| <= |b| && b[c].parent.Some? && |a| <= b[c].parent.value < |b|
  }

  /** After an insertion entries go over along the split edge, if there is one. */
  ghost predicate HandedOver(was: seq<Entry>, keys: set<nat>, a: seq<Node>, b: seq<Node>, log: seq<Entry>) {
    && (forall c: nat :: BelowNew(a, b, c) ==> log == HandOver(was, keys, b, c, b[c].parent.value))
    && ((forall c: nat :: !BelowNew(a, b, c)) ==> log == was)
  }

  lemma HandedOverSame(was: seq<Entry>, keys: set<nat>, a: seq<Node>, b: seq<Node>, d: seq<Node>, log: seq<Entry>)
    requires HandedOver(was, keys, a, b, log) && SameShape(b, d)
    ensures HandedOver(was, keys, a, d, log)
  {
    forall c: nat ensures BelowNew(a, b, c) <==> BelowNew(a, d, c) { if c < |b| { assert SameLinks(b[c], d[c]); } }
    forall c: nat | BelowNew(a, d, c) ensures log == HandOver(was, keys, d, c, d[c].parent.value) {
      assert BelowNew(a, b, c) && SameLinks(b[c], d[c]) && SameLinks(b[b[c].parent.value], d[b[c].parent.value]);
    }
  }

  /** The splits an insertion reports are those edges. */
  lemma SplitsAre(splits: map<nat, nat>, a: seq<Node>, b: seq<Node>, c: nat)
    requires Parents(splits, a, b) && (forall d :: d in splits ==> d < |a| && splits[d] < |b|)
    ensures BelowNew(a, b, c) <==> c in splits
    ensures c in splits ==> b[c].parent == Some(splits[c])
  {
  }

  class PrebleGlobalScheduler {
    const cache: LPRadixCache
    const histogram: SlidingWindowHistogram
    const maxTokens: seq<real>

    /** Both structures are in order, and the histogram speaks of existing nodes only. */
    ghost predicate Valid()
      reads this, cache, histogram
    {
      && histogram.cache == cache && |maxTokens| == cache.numGpus
      && cache.Valid() && histogram.Valid()
      && forall n :: n in histogram.histogram ==> n < |cache.nodes|
    }

    constructor (numGpus: nat, window: int, maxTokens: seq<real>, now: int)
      requires |maxTokens| == numGpus
      ensures Valid() && cache.numGpus == numGpus && cache.jobs == [] && histogram.timestamps == []
    {
      var tree := new LPRadixCache(numGpus, now);
      cache := tree;
      histogram := new SlidingWindowHistogram(window, tree);
      this.maxTokens := maxTokens;
    }

    /** The search fails exactly for the empty prompt. */
    method GetNearestAncestorNodeWithLowSharePrefixRatio(n: nat) returns (a: Option<nat>)
      requires cache.Valid() && n < |cache.nodes| == |cache.paths|
      ensures a.Some? ==> Nearest(cache.nodes, cache.paths, n, a.value)
      ensures a.None? <==> cache.paths[n] == []
    {
      hide Tree, Booked, Sized, LowShare;
      ghost var nodes, paths := cache.nodes, cache.paths;
      RootPath(nodes, paths);
      if n == 0 {
        assert !LowShare(nodes[0]) by { RootShares(nodes, paths); }
        return None;
      }
      var cur: nat := n;
      while !LowShare(cache.nodes[cur])
        invariant 0 < cur < |nodes| && paths[cur] <= paths[n]
        invariant forall i :: 0 <= i < |nodes| && paths[i] <= paths[n] && |paths[i]| > |paths[cur]| ==>
                  !LowShare(nodes[i])
        decreases |paths[cur]|
      {
        ghost var p := Up(nodes, paths, cur);
        if p == 0 { FirstEdge(nodes, paths, cur); }
        forall i | 0 <= i < |nodes| && paths[i] <= paths[n] && |paths[p]| < |paths[i]| <= |paths[cur]|
          ensures i == cur
        {
          assert paths[i] <= paths[cur];
          Between(nodes, paths, cur, i);
        }
        cur := cache.nodes[cur].parent.value;
      }
      ghost var p := Up(nodes, paths, cur);
      a := Some(cur);
    }

    static lemma RootShares(nodes: seq<Node>, paths: seq<Path>)
      requires Tree(nodes, paths)
      ensures |nodes| > 0 && !LowShare(nodes[0])
    {
      RootPath(nodes, paths);
      ContextIsLength(nodes, paths, 0);
    }

    /** The new node above a split edge takes over the histogram entries of the old one when it
        is now the important one. */
    method UpdateHistogramWithSplitNode(splits: map<nat, nat>)
      requires Valid()
      requires forall c :: c in splits ==>
               c < |cache.nodes| && splits[c] < |cache.nodes| && c != splits[c] && splits[c] !in histogram.histogram
      requires forall c, d :: c in splits && d in splits ==> c == d
      modifies histogram
      ensures Valid()
      ensures splits == map[] ==> histogram.timestamps == old(histogram.timestamps)
      ensures forall c :: c in splits ==>
        histogram.timestamps ==
            HandOver(old(histogram.timestamps), old(histogram.histogram.Keys), cache.nodes, c, splits[c])
    {
      hide LowShare, Tree, Booked, Sized, SlidingWindowHistogram.Right;
      var todo := splits.Keys;
      while todo != {}
        invariant Valid() && todo <= splits.Keys && (todo == {} || todo == splits.Keys)
        invariant todo != {} ==>
                  histogram.histogram == old(histogram.histogram) && histogram.timestamps == old(histogram.timestamps)
        invariant splits == map[] ==> histogram.timestamps == old(histogram.timestamps)
        invariant todo == {} ==> forall c :: c in splits ==>
          histogram.timestamps ==
              HandOver(old(histogram.timestamps), old(histogram.histogram.Keys), cache.nodes, c, splits[c])
      {
        var child := AnyOf(todo);
        var parent := splits[child];
        if LowShare(cache.nodes[parent]) && !LowShare(cache.nodes[child]) {
          histogram.ReplaceOldNodeWithNew(child, parent);
        }
        todo := todo - {child};
        assert forall d :: d in splits ==> d == child;
      }
    }

    /** Evicts from a GPU that holds more than it can: afterwards it holds no more than that,
        or all it holds, but for the root, is referenced. Referenced nodes stay, the least
        recently used of those with the fewest references go first, and no more than needed. */
    method HandleCacheEvictionForGpu(g: nat) returns (ghost gone: set<nat>)
      requires Valid() && g < cache.numGpus
      modifies cache`nodes, cache`allocatedSizes
      ensures Valid() && Fits(cache.nodes, cache.allocatedSizes, maxTokens, g)
      ensures SameShape(old(cache.nodes), cache.nodes)
      ensures forall i, h :: 0 <= i < |cache.nodes| && Pinned(old(cache.nodes)[i], h) ==> Pinned(cache.nodes[i], h)
      ensures cache.nodes == Without(old(cache.nodes), gone, g) && Goes(old(cache.nodes), gone, g)
      ensures LPRadixCache.SoonestFirst(old(cache.nodes), gone, g)
      ensures |old(cache.allocatedSizes)| == |cache.allocatedSizes| == cache.numGpus
      ensures old(cache.allocatedSizes)[g] as real <= maxTokens[g] ==> gone == {}
      ensures gone != {} ==>
                exists x :: x in gone && (cache.allocatedSizes[g] + |old(cache.nodes)[x].key|) as real > maxTokens[g]
    {
      hide Tree, Booked, LPRadixCache.SoonestFirst;
      gone := {};
      LPRadixCache.NoneGone(cache.nodes, g);
      assert LPRadixCache.SoonestFirst(cache.nodes, {}, g) by { LPRadixCache.NoneFirst(cache.nodes, g); }
      var most := maxTokens[g];
      if cache.allocatedSizes[g] as real > most {
        var need := cache.allocatedSizes[g] as real - most;
        ghost var was := cache.nodes;
        var evicted;
        evicted, gone := cache.EvictWithRuntimeIdWithoutRemoving(need, g);
        assert SameShape(was, cache.nodes) by { WithoutTree(was, cache.paths, gone, g); }
        LensSame(was, cache.nodes);
        PinnedStay(was, gone, g);
        if gone != {} {
          ghost var x :| x in gone && (evicted - |was[x].key|) as real < need;
          assert (cache.allocatedSizes[g] + |was[x].key|) as real > most;
        }
        assert Fits(cache.nodes, cache.allocatedSizes, maxTokens, g) by {
          NothingLeft(cache.nodes, cache.paths, cache.jobs, cache.numGpus, g);
        }
      }
    }

    static ghost predicate Fits(nodes: seq<Node>, sizes: seq<int>, most: seq<real>, g: nat)
      requires g < |most|
    {
      && g < |sizes|
      && (sizes[g] as real <= most[g] || forall i :: 0 < i < |nodes| && HasCached(nodes[i], g) ==> Pinned(nodes[i], g))
    }

    /** One arrival, routed to GPU g: insert the prompt, hand histogram entries over to a split
        node, book the request, log it, and evict. An empty prompt has no important ancestor;
        asking whether that shares its prefix raises after the booking. */
    method Schedule(prompt: Path, g: nat, now: int, decodingLength: int)
      returns (raised: bool, leaf: nat, node: nat, ghost log: seq<Entry>)
      requires Valid() && g < cache.numGpus
      modifies cache, histogram
      ensures Valid() && raised == (prompt == [])
      ensures cache.jobs == old(cache.jobs) + [Job(prompt, g)]
      ensures old(cache.paths) <= cache.paths && leaf < |cache.nodes| == |cache.paths| && cache.paths[leaf] == prompt
      ensures forall i :: 0 <= i < |cache.nodes| && cache.paths[i] <= prompt ==> Pinned(cache.nodes[i], g)
      ensures !raised ==> Fits(cache.nodes, cache.allocatedSizes, maxTokens, g)
      ensures !raised ==> Nearest(cache.nodes, cache.paths, leaf, node)
      ensures HandedOver(old(histogram.timestamps), old(histogram.histogram.Keys), old(cache.nodes), cache.nodes, log)
      ensures histogram.timestamps ==
                if raised then log else DropOld(log + [Entry(now, node, leaf)], now - histogram.window)
    {
      hide Tree, Booked, Sized, SlidingWindowHistogram.Right, SlidingWindowHistogram.Ratio;
      hide DropOld, SameShape, LowShare, Nearest, Lens, Pinned, Fits, Get, HandedOver;
      leaf := InsertAndHandOver(prompt, now);
      log, node := histogram.timestamps, 0;
      var important := GetNearestAncestorNodeWithLowSharePrefixRatio(leaf);
      ghost var inserted := cache.nodes;
      cache.UpdateCacheMetadata(leaf, g);
      ghost var booked := cache.nodes;
      LensSame(inserted, booked);
      HandedOverSame(old(histogram.timestamps), old(histogram.histogram.Keys), old(cache.nodes), inserted, booked, log);
      raised := important.None?;
      if raised { return; }
      node := important.value;
      NearestSame(inserted, booked, cache.paths, leaf, node);
      ContextIsLength(booked, cache.paths, leaf);
      histogram.AddRequest(now, node, leaf, decodingLength);
      ghost var gone := HandleCacheEvictionForGpu(g);
      NearestSame(booked, cache.nodes, cache.paths, leaf, node);
      HandedOverSame(old(histogram.timestamps), old(histogram.histogram.Keys), old(cache.nodes), booked, cache.nodes,
          log);
    }

    /** The insertion and what it means for the histogram. */
    method InsertAndHandOver(prompt: Path, now: int) returns (leaf: nat)
      requires Valid()
      modifies cache`nodes, cache`paths, histogram
      ensures Valid() && leaf < |cache.nodes| == |cache.paths| && cache.paths[leaf] == prompt
      ensures old(cache.paths) <= cache.paths
      ensures HandedOver(old(histogram.timestamps), old(histogram.histogram.Keys), old(cache.nodes), cache.nodes,
                         histogram.timestamps)
    {
      hide Tree, Booked, Sized, SlidingWindowHistogram.Right, LowShare, HandOver, Lens, Parents;
      ghost var was := cache.nodes;
      var splits;
      leaf, splits := InsertPrompt(prompt, now);
      UpdateHistogramWithSplitNode(splits);
      forall c: nat | BelowNew(was, cache.nodes, c)
        ensures histogram.timestamps == HandOver(old(histogram.timestamps), old(histogram.histogram.Keys), cache.nodes,
                                                 c, cache.nodes[c].parent.value)
      {
        SplitsAre(splits, was, cache.nodes, c);
      }
      if splits != map[] {
        assert splits.Keys != {};
        ghost var c := Member(splits.Keys);
        SplitsAre(splits, was, cache.nodes, c);
      }
    }

    /** The insertion, after which the histogram is still right. */
    method InsertPrompt(prompt: Path, now: int) returns (n: nat, splits: map<nat, nat>)
      requires Valid()
      modifies cache`nodes, cache`paths
      ensures Valid() && n < |cache.nodes| == |cache.paths| && cache.paths[n] == prompt
      ensures old(cache.paths) <= cache.paths
      ensures forall c :: c in splits ==>
                c < |cache.nodes| && splits[c] < |cache.nodes| && c != splits[c] && splits[c] !in histogram.histogram
      ensures forall c, d :: c in splits && d in splits ==> c == d
      ensures Parents(splits, old(cache.nodes), cache.nodes) && forall c :: c in splits ==> c < |old(cache.nodes)|
    {
      hide Tree, Booked, Sized, Parents, Logged, Sums, Counts, Keyed, Shares, Lens;
      ghost var was, paths := cache.nodes, cache.paths;
      RootPath(was, paths);
      n, splits := cache.Insert(prompt, now);
      LensKept(was, paths, cache.nodes, cache.paths);
      SumsKept(histogram.histogram, histogram.timestamps, Lens(was), Lens(cache.nodes));
      SumsKept(histogram.sumPrompt, histogram.timestamps, Lens(was), Lens(cache.nodes));
      SharesKept(histogram.sumShare, histogram.drift, histogram.timestamps, histogram.added, Lens(was),
          Lens(cache.nodes));
    }

    /** A release: only a successful request gives its references back. For a request that is
        booked (k) nothing raises. */
    method FinishRequest(success: bool, prompt: Path, g: nat, now: int, ghost k: Option<nat>) returns (raised: bool)
      requires Valid() && g < cache.numGpus
      requires k.Some? ==> k.value < |cache.jobs| && cache.jobs[k.value] == Job(prompt, g)
      modifies cache
      ensures cache.paths == old(cache.paths)
      ensures k.Some? || !success ==> Valid() && !raised
      ensures cache.jobs == if success && k.Some? then old(cache.jobs)[..k.value] + old(cache.jobs)[k.value + 1..]
                            else old(cache.jobs)
      ensures !success ==> cache.nodes == old(cache.nodes)
    {
      raised := false;
      if !success { return; }
      var r;
      raised, r := cache.RemoveCompletedInputIds(prompt, g, now, k);
      LensSame(old(cache.nodes), cache.nodes);
    }
  }
}
