/** Reference counts, pinning and cached sizes of the radix tree, and why growth keeps them. */
module RadixCounts {
  import opened Common
  import opened RadixTree

  /** A request that was scheduled on a GPU and has not been reported as successfully finished. */
  datatype Job = Job(prompt: Path, gpu: nat)

  /** How many jobs on g have a prompt that starts with path. */
  function Refs(jobs: seq<Job>, g: nat, path: Path): nat {
    if jobs == [] then 0 else (if jobs[0].gpu == g && path <= jobs[0].prompt then 1 else 0) + Refs(jobs[1..], g, path)
  }

  /** Tokens of the nodes cached on g. */
  function SizeOn(nodes: seq<Node>, g: nat): nat {
    if nodes == [] then 0 else SizeOn(nodes[..|nodes| - 1], g) + CachedLen(nodes[|nodes| - 1], g)
  }

  function CachedLen(n: Node, g: nat): nat { if HasCached(n, g) then |n.key| else 0 }

  /** The root starts with one reference per GPU that nothing gives back. */
  ghost predicate Exact(nodes: seq<Node>, paths: seq<Path>, jobs: seq<Job>, n: nat, i: nat)
    requires i < |nodes| == |paths|
  {
    && |nodes[i].counts| == n && nodes[i].cached !! nodes[i].evicted
    && forall g :: 0 <= g < n ==>
         if i == 0 then nodes[i].counts[g] > Refs(jobs, g, [])
         else nodes[i].counts[g] == Refs(jobs, g, paths[i]) && (nodes[i].counts[g] > 0 ==> HasCached(nodes[i], g))
  }

  /** Referenced on g, and cached there. */
  predicate Pinned(n: Node, g: nat) { g < |n.counts| && n.counts[g] > 0 && HasCached(n, g) }

  ghost predicate IsPath(paths: seq<Path>, p: Path) { exists i :: 0 <= i < |paths| && paths[i] == p }

  /** Reference counts are exact, referenced nodes are cached, and every job's prompt is the
      path of a node. */
  ghost predicate Booked(nodes: seq<Node>, paths: seq<Path>, jobs: seq<Job>, n: nat) {
    && |nodes| == |paths| > 0
    && (forall i :: 0 <= i < |nodes| ==> Exact(nodes, paths, jobs, n, i))
    && forall k :: 0 <= k < |jobs| ==> jobs[k].gpu < n && IsPath(paths, jobs[k].prompt)
  }

  ghost predicate Sized(nodes: seq<Node>, sizes: seq<int>, n: nat) {
    |sizes| == n && forall g :: 0 <= g < n ==> sizes[g] == SizeOn(nodes, g)
  }

  // ---------------------------------------------------------------- counting jobs

  lemma {:induction false} RefsAppend(a: seq<Job>, b: seq<Job>, g: nat, path: Path)
    ensures Refs(a + b, g, path) == Refs(a, g, path) + Refs(b, g, path)
  {
    if a == [] {
      assert a + b == b;
    } else {
      RefsAppend(a[1..], b, g, path);
      assert (a + b)[1..] == a[1..] + b;
    }
  }

  lemma RefsAdd(jobs: seq<Job>, j: Job, g: nat, path: Path)
    ensures Refs(jobs + [j], g, path) == Refs(jobs, g, path) + if j.gpu == g && path <= j.prompt then 1 else 0
  {
    RefsAppend(jobs, [j], g, path);
  }

  lemma RefsRemove(jobs: seq<Job>, k: nat, g: nat, path: Path)
    requires k < |jobs|
    ensures Refs(jobs[..k] + jobs[k + 1..], g, path) ==
              Refs(jobs, g, path) - if jobs[k].gpu == g && path <= jobs[k].prompt then 1 else 0
  {
    RefsAppend(jobs[..k], jobs[k + 1..], g, path);
    RefsAppend(jobs[..k], jobs[k..], g, path);
    assert jobs == jobs[..k] + jobs[k..];
    assert jobs[k..][1..] == jobs[k + 1..];
  }

  lemma {:induction false} RefsSame(jobs: seq<Job>, g: nat, a: Path, b: Path)
    requires forall k :: 0 <= k < |jobs| ==> (a <= jobs[k].prompt <==> b <= jobs[k].prompt)
    ensures Refs(jobs, g, a) == Refs(jobs, g, b)
  {
    if jobs != [] { RefsSame(jobs[1..], g, a, b); }
  }

  lemma {:induction false} RefsNone(jobs: seq<Job>, g: nat, path: Path)
    requires forall k :: 0 <= k < |jobs| ==> !(path <= jobs[k].prompt)
    ensures Refs(jobs, g, path) == 0
  {
    if jobs != [] { RefsNone(jobs[1..], g, path); }
  }

  lemma {:induction false} RefsOfRoot(jobs: seq<Job>, g: nat, path: Path)
    ensures Refs(jobs, g, path) <= Refs(jobs, g, [])
  {
    if jobs != [] { RefsOfRoot(jobs[1..], g, path); }
  }

  lemma {:induction false} RefsUp(jobs: seq<Job>, g: nat, a: Path, b: Path)
    requires a <= b
    ensures Refs(jobs, g, b) <= Refs(jobs, g, a)
  {
    if jobs != [] { RefsUp(jobs[1..], g, a, b); }
  }

  /** A node with references has referenced ancestors. */
  lemma ReferencedAbove(nodes: seq<Node>, paths: seq<Path>, jobs: seq<Job>, n: nat, g: nat, i: nat, c: nat)
    requires Booked(nodes, paths, jobs, n) && g < n && 0 < i < |nodes| && 0 < c < |nodes| && paths[c] <= paths[i]
    ensures |nodes[i].counts| == |nodes[c].counts| == n && nodes[c].counts[g] >= nodes[i].counts[g] >= 0
  {
    assert Exact(nodes, paths, jobs, n, i) && Exact(nodes, paths, jobs, n, c);
    RefsUp(jobs, g, paths[c], paths[i]);
  }

  // ---------------------------------------------------------------- growth keeps the counts

  /** No node's path, and so no job's prompt, starts with a path that leaves the tree at p. */
  lemma Fresh(nodes: seq<Node>, paths: seq<Path>, p: nat, key: Path, i: nat)
    requires Tree(nodes, paths) && p < |nodes| && key != [] && key[0] !in nodes[p].children && i < |nodes|
    ensures |nodes| == |paths| && !(paths[p] + key <= paths[i])
  {
    hide Tree;
    RootPath(nodes, paths);
    if paths[p] + key <= paths[i] {
      assert paths[p] < paths[i];
      assert paths[i][|paths[p]|] == key[0];
      Branch(nodes, paths, p, i);
    }
  }

  /** A path that ends inside c's edge starts the same paths as c's own. */
  lemma Inside(nodes: seq<Node>, paths: seq<Path>, c: nat, len: nat, i: nat)
    requires Tree(nodes, paths) && 0 < c < |nodes| && 0 < len <= |nodes[c].key| && i < |nodes|
    ensures |nodes| == |paths| && nodes[c].parent.Some? && nodes[c].parent.value < |nodes|
    ensures paths[nodes[c].parent.value] + nodes[c].key[..len] <= paths[i] <==> paths[c] <= paths[i]
  {
    hide Tree;
    var p := Up(nodes, paths, c);
    var mid := paths[p] + nodes[c].key[..len];
    assert paths[c] == mid + nodes[c].key[len..] by {
      assert nodes[c].key == nodes[c].key[..len] + nodes[c].key[len..];
    }
    if mid <= paths[i] {
      assert paths[p] < paths[i] && paths[i][|paths[p]|] == mid[|paths[p]|] == nodes[c].key[0];
      Branch(nodes, paths, p, i);
    }
  }

  lemma HomesKeep(paths: seq<Path>, q: Path, jobs: seq<Job>, n: nat)
    requires forall k :: 0 <= k < |jobs| ==> jobs[k].gpu < n && IsPath(paths, jobs[k].prompt)
    ensures forall k :: 0 <= k < |jobs| ==> jobs[k].gpu < n && IsPath(paths + [q], jobs[k].prompt)
  {
    forall k | 0 <= k < |jobs| ensures jobs[k].gpu < n && IsPath(paths + [q], jobs[k].prompt) {
      var i :| 0 <= i < |paths| && paths[i] == jobs[k].prompt;
      assert (paths + [q])[i] == jobs[k].prompt;
    }
  }

  /** Every fact about all node paths is one about all prompts. */
  lemma SplitBooked(nodes: seq<Node>, paths: seq<Path>, jobs: seq<Job>, n: nat, c: nat, len: nat, now: int)
    requires Tree(nodes, paths) && Booked(nodes, paths, jobs, n) && 0 < c < |nodes| && 0 < len < |nodes[c].key|
    ensures |nodes| == |paths| && nodes[c].parent.Some? && nodes[c].parent.value < |nodes|
    ensures Booked(Split(nodes, c, len, now), paths + [paths[nodes[c].parent.value] + nodes[c].key[..len]], jobs, n)
  {
    hide Tree;
    var p := Up(nodes, paths, c);
    var mid := paths[p] + nodes[c].key[..len];
    var r, q := Split(nodes, c, len, now), paths + [mid];
    HomesKeep(paths, mid, jobs, n);
    forall k | 0 <= k < |jobs| ensures mid <= jobs[k].prompt <==> paths[c] <= jobs[k].prompt {
      var i :| 0 <= i < |paths| && paths[i] == jobs[k].prompt;
      Inside(nodes, paths, c, len, i);
    }
    forall i | 0 <= i < |r| ensures Exact(r, q, jobs, n, i) {
      if i < |nodes| {
        assert Exact(nodes, paths, jobs, n, i);
      } else {
        assert Exact(nodes, paths, jobs, n, c);
        forall g | 0 <= g < n
          ensures Refs(jobs, g, mid) == Refs(jobs, g, paths[c])
        {
          RefsSame(jobs, g, mid, paths[c]);
        }
      }
    }
  }

  lemma GrowBooked(nodes: seq<Node>, paths: seq<Path>, jobs: seq<Job>, n: nat, p: nat, key: Path, now: int)
    requires Tree(nodes, paths) && Booked(nodes, paths, jobs, n)
    requires p < |nodes| && key != [] && key[0] !in nodes[p].children
    ensures |nodes| == |paths| && Booked(Grow(nodes, p, key, n, now), paths + [paths[p] + key], jobs, n)
  {
    hide Tree;
    RootPath(nodes, paths);
    var r, q := Grow(nodes, p, key, n, now), paths + [paths[p] + key];
    HomesKeep(paths, paths[p] + key, jobs, n);
    forall k | 0 <= k < |jobs| ensures !(paths[p] + key <= jobs[k].prompt) {
      var i :| 0 <= i < |paths| && paths[i] == jobs[k].prompt;
      Fresh(nodes, paths, p, key, i);
    }
    forall i | 0 <= i < |r| ensures Exact(r, q, jobs, n, i) {
      if i < |nodes| {
        assert Exact(nodes, paths, jobs, n, i);
      } else {
        forall g | 0 <= g < n ensures Refs(jobs, g, paths[p] + key) == 0 { RefsNone(jobs, g, paths[p] + key); }
      }
    }
  }

  // ---------------------------------------------------------------- growth keeps the sizes

  lemma {:induction false} SizeUpdate(nodes: seq<Node>, i: nat, v: Node, g: nat)
    requires i < |nodes|
    ensures SizeOn(nodes[i := v], g) == SizeOn(nodes, g) - CachedLen(nodes[i], g) + CachedLen(v, g)
  {
    var last := |nodes| - 1;
    if i < last {
      SizeUpdate(nodes[..last], i, v, g);
      assert nodes[i := v][..last] == nodes[..last][i := v];
    } else {
      assert nodes[i := v][..last] == nodes[..last];
    }
  }

  lemma SizeAppend(nodes: seq<Node>, v: Node, g: nat)
    ensures SizeOn(nodes + [v], g) == SizeOn(nodes, g) + CachedLen(v, g)
  {
    assert (nodes + [v])[..|nodes|] == nodes;
  }

  lemma {:induction false} SizeAtLeast(nodes: seq<Node>, i: nat, g: nat)
    requires i < |nodes|
    ensures CachedLen(nodes[i], g) <= SizeOn(nodes, g)
  {
    if i < |nodes| - 1 { SizeAtLeast(nodes[..|nodes| - 1], i, g); }
  }

  lemma SplitSize(nodes: seq<Node>, c: nat, len: nat, now: int, g: nat)
    requires c < |nodes| && nodes[c].parent.Some? && nodes[c].parent.value < |nodes| && 0 < len < |nodes[c].key|
    ensures SizeOn(Split(nodes, c, len, now), g) == SizeOn(nodes, g)
  {
    var child, p, m := nodes[c], nodes[c].parent.value, |nodes|;
    var low := child.(parent := Some(m), key := child.key[len..]);
    var below := nodes[c := low];
    var top := below[p].(children := below[p].children[child.key[0] := m]);
    SizeUpdate(nodes, c, low, g);
    SizeUpdate(below, p, top, g);
    SizeAppend(below[p := top], Split(nodes, c, len, now)[m], g);
  }

  lemma GrowSize(nodes: seq<Node>, p: nat, key: Path, n: nat, now: int, g: nat)
    requires p < |nodes| && key != []
    ensures SizeOn(Grow(nodes, p, key, n, now), g) == SizeOn(nodes, g)
  {
    var top := nodes[p].(children := nodes[p].children[key[0] := |nodes|]);
    SizeUpdate(nodes, p, top, g);
    SizeAppend(nodes[p := top], Grow(nodes, p, key, n, now)[|nodes|], g);
  }

  /** Tokens cached on g in the nodes of a set. */
  function SizeSeen(nodes: seq<Node>, seen: set<nat>, g: nat): nat {
    if nodes == [] then 0
    else
      var last := |nodes| - 1;
      SizeSeen(nodes[..last], seen, g) + if last in seen then CachedLen(nodes[last], g) else 0
  }

  lemma {:induction false} SeenAdd(nodes: seq<Node>, seen: set<nat>, x: nat, g: nat)
    requires x !in seen
    ensures SizeSeen(nodes, seen + {x}, g) == SizeSeen(nodes, seen, g) +
              if x < |nodes| then CachedLen(nodes[x], g) else 0
  {
    if nodes != [] { SeenAdd(nodes[..|nodes| - 1], seen, x, g); }
  }

  lemma {:induction false} SeenAll(nodes: seq<Node>, seen: set<nat>, g: nat)
    requires forall i :: 0 <= i < |nodes| ==> i in seen
    ensures SizeSeen(nodes, seen, g) == SizeOn(nodes, g)
  {
    if nodes != [] { SeenAll(nodes[..|nodes| - 1], seen, g); }
  }

  lemma {:induction false} SeenNone(nodes: seq<Node>, g: nat)
    ensures SizeSeen(nodes, {}, g) == 0
  {
    if nodes != [] { SeenNone(nodes[..|nodes| - 1], g); }
  }

  // ---------------------------------------------------------------- references along a path

  /** `update_cache_metadada` on one node. */
  function Referenced(n: Node, g: nat): Node
    requires g < |n.counts|
  {
    var m := n.(counts := n.counts[g := n.counts[g] + 1]);
    if HasCached(n, g) then m else m.(evicted := n.evicted - {g}, cached := n.cached + {g})
  }

  /** `dec_num_uncompleted_request_for_gpu` on one node. */
  function Released(n: Node, g: nat): Node
    requires g < |n.counts|
  {
    n.(counts := n.counts[g := n.counts[g] - 1])
  }

  function Changed(n: Node, g: nat, acquire: bool): Node
    requires g < |n.counts|
  {
    if acquire then Referenced(n, g) else Released(n, g)
  }

  ghost predicate OnPath(paths: seq<Path>, prompt: Path, bound: int, i: nat)
    requires i < |paths|
  {
    paths[i] <= prompt && |paths[i]| > bound
  }

  /** The nodes after the walk from the prompt's node up to path length bound. */
  ghost function Walked(nodes: seq<Node>, paths: seq<Path>, prompt: Path, g: nat, bound: int,
                                acquire: bool): (r: seq<Node>)
    requires |nodes| == |paths| && forall i :: 0 <= i < |nodes| ==> g < |nodes[i].counts|
    ensures |r| == |nodes|
  {
    seq(|nodes|, i requires 0 <= i < |nodes| =>
      if OnPath(paths, prompt, bound, i) then Changed(nodes[i], g, acquire) else nodes[i])
  }

  lemma WalkStart(nodes: seq<Node>, paths: seq<Path>, prompt: Path, g: nat, bound: int, acquire: bool)
    requires |nodes| == |paths| && forall i :: 0 <= i < |nodes| ==> g < |nodes[i].counts|
    requires bound >= |prompt|
    ensures Walked(nodes, paths, prompt, g, bound, acquire) == nodes
  {
  }

  /** One step of the walk: exactly c is added to what has been visited. */
  lemma WalkStep(nodes: seq<Node>, paths: seq<Path>, prompt: Path, g: nat, c: nat, acquire: bool)
    requires Tree(nodes, paths) && c < |nodes| && |nodes| == |paths| && paths[c] <= prompt
    requires forall i :: 0 <= i < |nodes| ==> g < |nodes[i].counts|
    ensures nodes[c].parent.Some? ==> nodes[c].parent.value < |nodes|
    ensures c > 0 ==>
              && nodes[c].parent.Some? && |paths[nodes[c].parent.value]| < |paths[c]|
              && paths[nodes[c].parent.value] <= prompt
    ensures var bound := if nodes[c].parent.Some? then |paths[nodes[c].parent.value]| else -1;
            Walked(nodes, paths, prompt, g, bound, acquire)
              == Walked(nodes, paths, prompt, g, |paths[c]|, acquire)[c := Changed(nodes[c], g, acquire)]
  {
    hide Tree, Changed;
    RootPath(nodes, paths);
    var bound := -1;
    if c > 0 {
      var p := Up(nodes, paths, c);
      bound := |paths[p]|;
    }
    forall i | 0 <= i < |nodes| && i != c
      ensures OnPath(paths, prompt, bound, i) <==> OnPath(paths, prompt, |paths[c]|, i)
    {
      if OnPath(paths, prompt, bound, i) && |paths[i]| <= |paths[c]| {
        assert paths[i] <= paths[c];
        if c > 0 { Between(nodes, paths, c, i); } else { SameNode(nodes, paths, i, c); }
      }
    }
  }

  /** A walk up from a node's path books one more request, and caches the whole path. */
  lemma AcquireBooked(nodes: seq<Node>, paths: seq<Path>, jobs: seq<Job>, n: nat, leaf: nat, g: nat)
    requires Tree(nodes, paths) && Booked(nodes, paths, jobs, n) && leaf < |nodes| && g < n
    requires forall i :: 0 <= i < |nodes| ==> g < |nodes[i].counts|
    ensures |nodes| == |paths|
    ensures var r := Walked(nodes, paths, paths[leaf], g, -1, true);
            && Booked(r, paths, jobs + [Job(paths[leaf], g)], n)
            && forall i :: 0 <= i < |r| && paths[i] <= paths[leaf] ==> Pinned(r[i], g)
  {
    RootPath(nodes, paths);
    var j := Job(paths[leaf], g);
    var r := Walked(nodes, paths, paths[leaf], g, -1, true);
    assert IsPath(paths, paths[leaf]);
    forall i | 0 <= i < |r|
      ensures Exact(r, paths, jobs + [j], n, i)
      ensures paths[i] <= paths[leaf] ==> Pinned(r[i], g)
    {
      assert Exact(nodes, paths, jobs, n, i);
      forall h | 0 <= h < n
        ensures Refs(jobs + [j], h, paths[i]) ==
                Refs(jobs, h, paths[i]) + if h == g && paths[i] <= paths[leaf] then 1 else 0
      {
        RefsAdd(jobs, j, h, paths[i]);
      }
    }
  }

  /** A walk up from the prompt of job k, up to but not including the root, gives its references
      back; no count falls below 0. */
  lemma ReleaseBooked(nodes: seq<Node>, paths: seq<Path>, jobs: seq<Job>, n: nat, k: nat)
    requires Tree(nodes, paths) && Booked(nodes, paths, jobs, n) && k < |jobs|
    requires forall i :: 0 <= i < |nodes| ==> jobs[k].gpu < |nodes[i].counts|
    ensures |nodes| == |paths| && jobs[k].gpu < n
    ensures Booked(Walked(nodes, paths, jobs[k].prompt, jobs[k].gpu, 0, false), paths, jobs[..k] + jobs[k + 1..], n)
    ensures forall i :: 0 < i < |nodes| && paths[i] <= jobs[k].prompt ==> nodes[i].counts[jobs[k].gpu] > 0
  {
    RootPath(nodes, paths);
    var prompt, g, rest := jobs[k].prompt, jobs[k].gpu, jobs[..k] + jobs[k + 1..];
    var r := Walked(nodes, paths, prompt, g, 0, false);
    forall i | 0 <= i < |r|
      ensures Exact(r, paths, rest, n, i)
      ensures 0 < i && paths[i] <= prompt ==> nodes[i].counts[g] > 0
    {
      assert Exact(nodes, paths, jobs, n, i);
      if i > 0 {
        var p := Up(nodes, paths, i);
        assert |paths[i]| > 0;
      }
      forall h | 0 <= h < n
        ensures Refs(rest, h, paths[i]) == Refs(jobs, h, paths[i]) - if h == g && paths[i] <= prompt then 1 else 0
      {
        RefsRemove(jobs, k, h, paths[i]);
      }
    }
    forall m | 0 <= m < |rest| ensures rest[m].gpu < n && IsPath(paths, rest[m].prompt) {
      assert rest[m] == jobs[if m < k then m else m + 1];
    }
  }

  // ---------------------------------------------------------------- eviction

  /** `evict_callback` */
  function Dropped(n: Node, g: nat): Node { n.(evicted := n.evicted + {g}, cached := n.cached - {g}) }

  predicate Evictable(n: Node, g: nat)
    requires g < |n.counts|
  {
    n.counts[g] == 0 && HasCached(n, g)
  }

  predicate EvictableAt(n: Node, g: nat) { g < |n.counts| && Evictable(n, g) }

  ghost predicate Goes(nodes: seq<Node>, gone: set<nat>, g: nat) {
    forall i :: i in gone ==> 0 < i < |nodes| && EvictableAt(nodes[i], g)
  }

  /** The nodes after the nodes in gone have been dropped from g. */
  ghost function Without(nodes: seq<Node>, gone: set<nat>, g: nat): (r: seq<Node>)
    ensures |r| == |nodes|
  {
    seq(|nodes|, i requires 0 <= i < |nodes| => if i in gone then Dropped(nodes[i], g) else nodes[i])
  }

  /** Dropping unreferenced nodes keeps the books. */
  lemma WithoutBooked(nodes: seq<Node>, paths: seq<Path>, jobs: seq<Job>, n: nat, gone: set<nat>, g: nat)
    requires Booked(nodes, paths, jobs, n) && g < n && Goes(nodes, gone, g)
    ensures Booked(Without(nodes, gone, g), paths, jobs, n)
  {
    var r := Without(nodes, gone, g);
    forall i | 0 <= i < |r| ensures Exact(r, paths, jobs, n, i) { assert Exact(nodes, paths, jobs, n, i); }
  }

  lemma WithoutTree(nodes: seq<Node>, paths: seq<Path>, gone: set<nat>, g: nat)
    requires Tree(nodes, paths)
    ensures SameShape(nodes, Without(nodes, gone, g)) && Tree(Without(nodes, gone, g), paths)
  {
    ShapeKeeps(nodes, Without(nodes, gone, g), paths);
  }

  lemma WalkedShape(nodes: seq<Node>, paths: seq<Path>, prompt: Path, g: nat, bound: int, acquire: bool)
    requires |nodes| == |paths| && forall i :: 0 <= i < |nodes| ==> g < |nodes[i].counts|
    requires Tree(nodes, paths)
    ensures SameShape(nodes, Walked(nodes, paths, prompt, g, bound, acquire))
    ensures Tree(Walked(nodes, paths, prompt, g, bound, acquire), paths)
  {
    ShapeKeeps(nodes, Walked(nodes, paths, prompt, g, bound, acquire), paths);
  }

  /** One more node x goes: it was evictable and has not gone before. */
  lemma DropStep(was: seq<Node>, gone: set<nat>, g: nat, x: nat)
    requires 0 < x < |was| && Goes(was, gone, g) && EvictableAt(Without(was, gone, g)[x], g)
    ensures x !in gone && Goes(was, gone + {x}, g)
    ensures Without(was, gone, g)[x] == was[x]
    ensures Without(was, gone, g)[x := Dropped(was[x], g)] == Without(was, gone + {x}, g)
    ensures CachedLen(was[x], g) == |was[x].key| && CachedLen(Dropped(was[x], g), g) == 0
    ensures forall h: nat :: h != g ==> CachedLen(Dropped(was[x], g), h) == CachedLen(was[x], h)
    ensures forall i :: 0 <= i < |was| && EvictableAt(Without(was, gone + {x}, g)[i], g) ==>
            EvictableAt(Without(was, gone, g)[i], g)
  {
  }

  /** When the root is a least entry of the queue, the queue holds nothing else. */
  lemma RootAlone(was: seq<Node>, paths: seq<Path>, jobs: seq<Job>, n: nat, gone: set<nat>, g: nat, i: nat)
    requires Booked(was, paths, jobs, n) && g < n && 0 < i < |was|
    ensures NodeLess(Without(was, gone, g)[i], Without(was, gone, g)[0])
  {
    RootLast(was, paths, jobs, n, i);
  }

  // ---------------------------------------------------------------- eviction order

  predicate LexLess(a: seq<int>, b: seq<int>) {
    b != [] && (a == [] || a[0] < b[0] || (a[0] == b[0] && LexLess(a[1..], b[1..])))
  }

  /** `TreeNode.__lt__` */
  predicate NodeLess(a: Node, b: Node) {
    if a.counts == b.counts then a.access < b.access else LexLess(a.counts, b.counts)
  }

  lemma {:induction false} LexTransitive(a: seq<int>, b: seq<int>, c: seq<int>)
    requires LexLess(a, b) && LexLess(b, c)
    ensures LexLess(a, c)
  {
    if a != [] && a[0] == b[0] == c[0] { LexTransitive(a[1..], b[1..], c[1..]); }
  }

  lemma {:induction false} LexTotal(a: seq<int>, b: seq<int>)
    ensures LexLess(a, b) ==> !LexLess(b, a) && a != b
    ensures a == b || LexLess(a, b) || LexLess(b, a)
  {
    if a != [] && b != [] && a[0] == b[0] {
      LexTotal(a[1..], b[1..]);
      assert a == [a[0]] + a[1..] && b == [b[0]] + b[1..];
    }
  }

  /** a has fewer references than b on the first GPU on which they differ. */
  ghost predicate FewerRefs(a: seq<int>, b: seq<int>) {
    exists k :: 0 <= k < |a| && k < |b| && a[..k] == b[..k] && a[k] < b[k]
  }

  /** a is evicted before b: it has fewer references, or as many and was used longer ago. */
  ghost predicate Sooner(a: Node, b: Node) {
    FewerRefs(a.counts, b.counts) || (a.counts == b.counts && a.access < b.access)
  }

  lemma {:induction false} LexIs(a: seq<int>, b: seq<int>)
    requires |a| == |b|
    ensures LexLess(a, b) <==> FewerRefs(a, b)
  {
    if a != [] {
      var a', b' := a[1..], b[1..];
      LexIs(a', b');
      if FewerRefs(a, b) {
        var k :| 0 <= k < |a| && k < |b| && a[..k] == b[..k] && a[k] < b[k];
        if k > 0 {
          assert a[0] == a[..k][0] == b[..k][0] == b[0];
          assert a'[..k - 1] == a[..k][1..] == b[..k][1..] == b'[..k - 1] && a'[k - 1] < b'[k - 1];
        }
      }
      if a[0] < b[0] { assert a[..0] == b[..0]; }
      if a[0] == b[0] && FewerRefs(a', b') {
        var k :| 0 <= k < |a'| && k < |b'| && a'[..k] == b'[..k] && a'[k] < b'[k];
        assert a[..k + 1] == [a[0]] + a'[..k] && b[..k + 1] == [b[0]] + b'[..k];
        assert a[k + 1] < b[k + 1];
      }
    }
  }

  /** The node order, for nodes of one tree. */
  lemma NodeLessIs(a: Node, b: Node)
    requires |a.counts| == |b.counts|
    ensures NodeLess(a, b) <==> Sooner(a, b)
  {
    LexIs(a.counts, b.counts);
    if a.counts == b.counts {
      assert !FewerRefs(a.counts, b.counts);
    }
  }

  /** The order is transitive, so a scan that keeps the lesser node ends at a least one. */
  lemma NodeLessTransitive(a: Node, b: Node, c: Node)
    requires NodeLess(a, b) && NodeLess(b, c)
    ensures NodeLess(a, c)
  {
    if a.counts != b.counts && b.counts != c.counts {
      LexTransitive(a.counts, b.counts, c.counts);
      LexTotal(a.counts, b.counts);
      LexTotal(b.counts, c.counts);
    }
  }

  /** The root comes last: it holds a reference that is never given back. */
  lemma RootLast(nodes: seq<Node>, paths: seq<Path>, jobs: seq<Job>, n: nat, i: nat)
    requires Booked(nodes, paths, jobs, n) && 0 < i < |nodes| && n > 0
    ensures NodeLess(nodes[i], nodes[0])
  {
    assert Exact(nodes, paths, jobs, n, 0) && Exact(nodes, paths, jobs, n, i);
    RefsOfRoot(jobs, 0, paths[i]);
  }
}
