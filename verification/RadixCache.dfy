/** The mutable radix tree of prompts. */
module RadixCache {
  import opened Common
  import opened RadixTree
  import opened RadixCounts

  /** Old nodes keep their paths, counts and cached sets. */
  ghost predicate Extends(a: seq<Node>, p: seq<Path>, b: seq<Node>, q: seq<Path>) {
    && |a| == |p| <= |b| == |q| && q[..|p|] == p
    && forall i :: 0 <= i < |a| ==>
        b[i].counts == a[i].counts && b[i].cached == a[i].cached && b[i].evicted == a[i].evicted
  }

  lemma ExtendsTransitive(a: seq<Node>, p: seq<Path>, b: seq<Node>, q: seq<Path>, c: seq<Node>, r: seq<Path>)
    requires Extends(a, p, b, q) && Extends(b, q, c, r)
    ensures Extends(a, p, c, r)
  {
    assert r[..|p|] == r[..|q|][..|p|];
  }

  lemma ExtendsPaths(a: seq<Node>, p: seq<Path>, b: seq<Node>, q: seq<Path>)
    requires Extends(a, p, b, q)
    ensures |a| == |p| <= |b| == |q| && q[..|p|] == p
  {
  }

  /** The splits of one insertion, old child to new parent: at most one, and the parent is new. */
  ghost predicate SplitsOne(splits: map<nat, nat>, p: seq<Path>, q: seq<Path>) {
    && |p| <= |q|
    && (forall c :: c in splits ==> c < |p| && splits[c] == |p| < |q| && q[|p|] < q[c])
    && (forall c, d :: c in splits && d in splits ==> c == d)
  }

  /** A walk from one path down towards another has set the access times of exactly the nodes
      on the way, and nothing else. */
  ghost predicate Visits(a: seq<Node>, b: seq<Node>, paths: seq<Path>, start: Path, end: Path, now: int) {
    && |a| == |b| == |paths|
    && forall j :: 0 <= j < |a| ==>
         b[j] == if start <= paths[j] && paths[j] <= end then a[j].(access := now) else a[j]
  }

  /** On the way from node i to a key lies only i, unless the key goes on through a child c. */
  ghost predicate WayOn(paths: seq<Path>, i: nat, c: Option<nat>, key: Path)
    requires i < |paths| && (c.Some? ==> c.value < |paths|)
  {
    forall j :: 0 <= j < |paths| && paths[i] <= paths[j] && paths[j] <= key ==>
      j == i || (c.Some? && paths[c.value] <= paths[j])
  }

  lemma VisitsOne(a: seq<Node>, b: seq<Node>, paths: seq<Path>, i: nat, key: Path, now: int)
    requires i < |a| == |paths| && b == a[i := a[i].(access := now)] && paths[i] <= key && WayOn(paths, i, None, key)
    ensures Visits(a, b, paths, paths[i], key, now)
  {
  }

  lemma VisitsOn(a: seq<Node>, b: seq<Node>, d: seq<Node>, paths: seq<Path>, i: nat, c: nat, key: Path, now: int)
    requires i < |a| == |paths| && b == a[i := a[i].(access := now)] && paths[i] <= key
    requires c < |paths| && paths[i] <= paths[c] && WayOn(paths, i, Some(c), key)
    requires Visits(b, d, paths, paths[c], key, now)
    ensures Visits(a, d, paths, paths[i], key, now)
  {
  }

  /** Below i the way to a key leads through the child on its next token, if there is one. */
  lemma WayThrough(nodes: seq<Node>, paths: seq<Path>, i: nat, key: Path)
    requires Tree(nodes, paths) && i < |nodes| == |paths|
    ensures key != [] && key[0] in nodes[i].children ==>
              nodes[i].children[key[0]] < |nodes| && WayOn(paths, i, Some(nodes[i].children[key[0]]), paths[i] + key)
    ensures key == [] || key[0] !in nodes[i].children ==> WayOn(paths, i, None, paths[i] + key)
  {
    hide Tree;
    var whole := paths[i] + key;
    if key != [] && key[0] in nodes[i].children { var c := Down(nodes, paths, i, key[0]); }
    forall j | 0 <= j < |paths| && paths[i] <= paths[j] && paths[j] <= whole && j != i
      ensures key != [] && key[0] in nodes[i].children && paths[nodes[i].children[key[0]]] <= paths[j]
    {
      if paths[j] == paths[i] { SameNode(nodes, paths, i, j); }
      Branch(nodes, paths, i, j);
      assert paths[j][|paths[i]|] == whole[|paths[i]|] == key[0];
    }
  }

  /** An insertion below node i has set the access times of node i, of the nodes on the way to
      the key but not at it, and of the new nodes. */
  ghost predicate Accessed(a: seq<Node>, p: seq<Path>, b: seq<Node>, i: nat, key: Path, now: int)
    requires i < |p|
  {
    && |a| == |p| <= |b|
    && (forall j :: 0 <= j < |a| ==>
          b[j].access == if j == i || (p[i] <= p[j] && p[j] < key) then now else a[j].access)
    && (forall j :: |a| <= j < |b| ==> b[j].access == now)
  }

  lemma AccessOne(a: seq<Node>, p: seq<Path>, b: seq<Node>, d: seq<Node>, i: nat, key: Path, now: int)
    requires i < |a| == |p| && b == a[i := a[i].(access := now)] && |b| <= |d| && WayOn(p, i, None, key)
    requires forall j :: 0 <= j < |b| ==> d[j].access == b[j].access
    requires forall j :: |b| <= j < |d| ==> d[j].access == now
    ensures Accessed(a, p, d, i, key, now)
  {
  }

  /** The key is the path of child c of i, which the insertion returns unvisited. */
  lemma AccessEnd(a: seq<Node>, p: seq<Path>, b: seq<Node>, i: nat, c: nat, key: Path, now: int)
    requires i < |a| == |p| && b == a[i := a[i].(access := now)] && c < |p| && p[c] == key && WayOn(p, i, Some(c), key)
    ensures Accessed(a, p, b, i, key, now)
  {
  }

  lemma AccessOn(a: seq<Node>, p: seq<Path>, b: seq<Node>, d: seq<Node>, i: nat, c: nat, key: Path, now: int)
    requires i < |a| == |p| && b == a[i := a[i].(access := now)] && c < |p| && p[i] <= p[c] && p[c] < key
    requires WayOn(p, i, Some(c), key) && Accessed(b, p, d, c, key, now)
    ensures Accessed(a, p, d, i, key, now)
  {
  }

  /** Through a split of the edge to child c of i, whose new node is the last of q. */
  lemma AccessSplit(a: seq<Node>, p: seq<Path>, b: seq<Node>, q: seq<Path>, s: seq<Node>, d: seq<Node>,
                    i: nat, key: Path, now: int)
    requires i < |a| == |p| && b == a[i := a[i].(access := now)] && WayOn(p, i, None, key)
    requires |s| == |q| == |p| + 1 && q[..|p|] == p && Accessed(s, q, d, |p|, key, now) && p[i] <= q[|p|]
    requires forall j :: 0 <= j < |p| ==> s[j].access == b[j].access
    ensures Accessed(a, p, d, i, key, now)
  {
    forall j | 0 <= j < |p| ensures d[j].access == b[j].access {
      assert q[j] == p[j];
      if q[|p|] <= q[j] && q[j] < key { assert p[i] <= p[j] && p[j] <= key; }
    }
  }

  ghost predicate SameParents(a: seq<Node>, b: seq<Node>) {
    |a| <= |b| && forall c :: 0 <= c < |a| ==> b[c].parent == a[c].parent
  }

  /** The splits are the old nodes that have come below a new one, with that one; all other old
      nodes keep their parents. */
  ghost predicate Parents(splits: map<nat, nat>, a: seq<Node>, b: seq<Node>) {
    && |a| <= |b|
    && forall c :: 0 <= c < |a| ==>
         if b[c].parent.Some? && b[c].parent.value >= |a| then c in splits && b[c].parent == Some(splits[c])
         else c !in splits && b[c].parent == a[c].parent
  }

  lemma ParentsBefore(splits: map<nat, nat>, a: seq<Node>, b: seq<Node>, nodes: seq<Node>)
    requires |a| == |b| && SameParents(a, b) && Parents(splits, b, nodes)
    ensures Parents(splits, a, nodes)
  {
  }

  lemma NoneBelow(nodes: seq<Node>, paths: seq<Path>, b: seq<Node>)
    requires Tree(nodes, paths) && SameParents(nodes, b)
    ensures Parents(map[], nodes, b)
  {
    hide Tree;
    forall c | 0 <= c < |nodes| ensures !(b[c].parent.Some? && b[c].parent.value >= |nodes|) {
      if c > 0 { var p := Up(nodes, paths, c); } else { RootPath(nodes, paths); }
    }
  }

  /** After a split at c nothing else comes below a new node. */
  lemma OneBelow(a: seq<Node>, p: seq<Path>, c: nat, len: nat, now: int, nodes: seq<Node>)
    requires Tree(a, p) && 0 < c < |a| && a[c].parent.Some? && a[c].parent.value < |a| && 0 < len < |a[c].key|
    requires Parents(map[], Split(a, c, len, now), nodes)
    ensures Parents(map[c := |a|], a, nodes)
  {
    hide Tree;
    var b := Split(a, c, len, now);
    var u := Up(a, p, c);
    forall d | 0 <= d < |a|
      ensures nodes[d].parent == b[d].parent && (d != c ==> b[d].parent == a[d].parent)
      ensures d != c ==> !(a[d].parent.Some? && a[d].parent.value >= |a|)
    {
      if d > 0 { var v := Up(a, p, d); } else { RootPath(a, p); }
    }
  }

  /** New nodes lie on the way to the inserted key. */
  ghost predicate Adds(p: seq<Path>, q: seq<Path>, key: Path) { forall i :: |p| <= i < |q| ==> q[i] <= key }

  class LPRadixCache {
    const numGpus: nat
    var nodes: seq<Node>
    var allocatedSizes: seq<int>
    ghost var paths: seq<Path>
    ghost var jobs: seq<Job>

    ghost predicate Valid()
      reads this
    {
      && Tree(nodes, paths) && Booked(nodes, paths, jobs, numGpus) && Sized(nodes, allocatedSizes, numGpus)
    }

    constructor (numGpus: nat, now: int)
      ensures Valid() && this.numGpus == numGpus && jobs == [] && paths == [[]]
    {
      this.numGpus := numGpus;
      nodes := [Node(None, [], map[], seq(numGpus, _ => 1), {}, {}, now, 0)];
      allocatedSizes := seq(numGpus, _ => 0);
      paths, jobs := [[]], [];
      new;
      assert Linked(nodes, paths, 0);
      assert Exact(nodes, paths, jobs, numGpus, 0);
      assert nodes[..0] == [] && forall g :: SizeOn(nodes, g) == 0;
    }

    // -------------------------------------------------------------- walking down

    /** The length of the common prefix. */
    static method Match(key: Path, other: Path) returns (i: nat)
      ensures i <= |key| && i <= |other| && key[..i] == other[..i]
      ensures i < |key| && i < |other| ==> key[i] != other[i]
    {
      i := 0;
      while i < |key| && i < |other|
        invariant i <= |key| && i <= |other| && key[..i] == other[..i]
      {
        if key[i] != other[i] { break; }
        i := i + 1;
      }
    }

    /** Access times are outside every invariant. */
    method Touch(i: nat, now: int)
      requires Valid() && i < |nodes|
      modifies this`nodes
      ensures Valid() && nodes == old(nodes)[i := old(nodes)[i].(access := now)]
      ensures SameShape(old(nodes), nodes) && Extends(old(nodes), paths, nodes, paths)
    {
      nodes := nodes[i := nodes[i].(access := now)];
      ShapeKeeps(old(nodes), nodes, paths);
      forall j | 0 <= j < |nodes| ensures Exact(nodes, paths, jobs, numGpus, j) {
        assert Exact(old(nodes), paths, jobs, numGpus, j);
      }
      forall g | 0 <= g < numGpus ensures SizeOn(nodes, g) == SizeOn(old(nodes), g) {
        SizeUpdate(old(nodes), i, nodes[i], g);
      }
    }

    /** `_match_prefix_helper`: the rest of the key is looked up below node i. */
    method MatchPrefixHelper(i: nat, key: Path, now: int) returns (r: Option<nat>)
      requires Valid() && i < |nodes| == |paths|
      modifies this`nodes
      ensures Valid() && |nodes| == |old(nodes)| && SameShape(old(nodes), nodes)
      ensures Extends(old(nodes), paths, nodes, paths)
      ensures Finds(nodes, paths, paths[i] + key, r)
      ensures Visits(old(nodes), nodes, paths, paths[i], paths[i] + key, now)
      decreases |key|
    {
      hide Tree, Booked, Sized, Extends, SameShape, Visits, WayOn;
      RootPath(nodes, paths);
      WayThrough(nodes, paths, i, key);
      Touch(i, now);
      ghost var touched := nodes;
      RootPath(nodes, paths);
      ghost var whole := paths[i] + key;
      if |key| == 0 {
        VisitsOne(old(nodes), nodes, paths, i, whole, now);
        return Some(i);
      }
      if key[0] in nodes[i].children {
        ghost var d := Down(nodes, paths, i, key[0]);
        var c := nodes[i].children[key[0]];
        var len := Match(nodes[c].key, key);
        if len < |nodes[c].key| {
          LeavesEdge(nodes, paths, i, key, len);
          NotPrefix(paths[i], nodes[c].key, key, len);
          assert WayOn(paths, i, None, whole) by { WayEnds(paths, i, c, whole); }
          VisitsOne(old(nodes), nodes, paths, i, whole, now);
          return None;
        }
        assert paths[c] + key[len..] == whole;
        r := MatchPrefixHelper(c, key[len..], now);
        ShapeTransitive(old(nodes), touched, nodes, paths);
        VisitsOn(old(nodes), touched, nodes, paths, i, c, whole, now);
      } else {
        VisitsOne(old(nodes), nodes, paths, i, whole, now);
        r := Some(i);
      }
    }

    static lemma WayEnds(paths: seq<Path>, i: nat, c: nat, key: Path)
      requires i < |paths| && c < |paths| && WayOn(paths, i, Some(c), key) && !(paths[c] <= key)
      ensures WayOn(paths, i, None, key)
    {
    }

    static lemma ShapeTransitive(a: seq<Node>, b: seq<Node>, c: seq<Node>, p: seq<Path>)
      requires SameShape(a, b) && SameShape(b, c) && Extends(a, p, b, p) && Extends(b, p, c, p)
      ensures SameShape(a, c) && Extends(a, p, c, p)
    {
      forall i | 0 <= i < |a| ensures SameLinks(a[i], c[i]) { assert SameLinks(a[i], b[i]) && SameLinks(b[i], c[i]); }
    }

    static lemma LeavesEdge(nodes: seq<Node>, paths: seq<Path>, i: nat, key: Path, len: nat)
      requires Tree(nodes, paths) && i < |nodes| == |paths| && key != [] && key[0] in nodes[i].children
      requires var c := nodes[i].children[key[0]];
               c < |nodes| && len < |nodes[c].key| && len <= |key| && (len < |key| ==> nodes[c].key[len] != key[len])
      ensures Finds(nodes, paths, paths[i] + key, None)
    {
      hide Tree;
      var c := Down(nodes, paths, i, key[0]);
      var whole := paths[i] + key;
      NotPrefix(paths[i], nodes[c].key, key, len);
      assert whole[|paths[i]|] == key[0];
      assert MidEdge(nodes, paths, whole, i);
    }

    static lemma NotPrefix(a: Path, k: Path, key: Path, len: nat)
      requires len < |k| && len <= |key| && (len < |key| ==> k[len] != key[len])
      ensures !(a + k <= a + key)
    {
      assert (a + k)[|a| + len] == k[len];
      assert len < |key| ==> (a + key)[|a| + len] == key[len];
    }

    /** The deepest node whose path is a prefix of the key, or None when the key ends or leaves
        the tree inside an edge. */
    method FindNode(key: Path, now: int) returns (r: Option<nat>)
      requires Valid()
      modifies this`nodes
      ensures Valid() && |nodes| == |old(nodes)| && SameShape(old(nodes), nodes)
      ensures Extends(old(nodes), paths, nodes, paths)
      ensures Finds(nodes, paths, key, r)
      ensures Visits(old(nodes), nodes, paths, [], key, now)
    {
      hide Tree, Booked, Sized, Extends, SameShape, Visits;
      RootPath(nodes, paths);
      assert paths[0] + key == key;
      r := MatchPrefixHelper(0, key, now);
    }

    // -------------------------------------------------------------- insertion

    method SplitNode(c: nat, len: nat, now: int) returns (m: nat)
      requires Valid() && 0 < c < |nodes| && 0 < len < |nodes[c].key|
      modifies this`nodes, this`paths
      ensures Valid() && old(nodes[c].parent.Some? && nodes[c].parent.value < |nodes| == |paths|)
      ensures m == |old(nodes)| && nodes == Split(old(nodes), c, len, now)
      ensures paths == old(paths) + [old(paths[nodes[c].parent.value] + nodes[c].key[..len])]
      ensures Extends(old(nodes), old(paths), nodes, paths)
    {
      hide Tree, Booked;
      ghost var p := Up(nodes, paths, c);
      SplitKeeps(nodes, paths, c, len, now);
      SplitBooked(nodes, paths, jobs, numGpus, c, len, now);
      forall g ensures SizeOn(Split(nodes, c, len, now), g) == SizeOn(nodes, g) { SplitSize(nodes, c, len, now, g); }
      m := |nodes|;
      paths := paths + [paths[p] + nodes[c].key[..len]];
      nodes := Split(nodes, c, len, now);
    }

    method AddLeaf(i: nat, key: Path, contextLength: nat, now: int) returns (m: nat)
      requires Valid() && i < |nodes| == |paths| && key != [] && key[0] !in nodes[i].children
      requires contextLength == |paths[i]|
      modifies this`nodes, this`paths
      ensures Valid() && m == |old(nodes)| == |nodes| - 1
      ensures paths == old(paths) + [old(paths)[i] + key]
      ensures Extends(old(nodes), old(paths), nodes, paths)
      ensures nodes[m].access == now && forall j :: 0 <= j < m ==> nodes[j].access == old(nodes)[j].access
      ensures SameParents(old(nodes), nodes)
    {
      hide Booked;
      GrowKeeps(nodes, paths, i, key, numGpus, now);
      GrowBooked(nodes, paths, jobs, numGpus, i, key, now);
      forall g
        ensures SizeOn(Grow(nodes, i, key, numGpus, now), g) == SizeOn(nodes, g)
      {
        GrowSize(nodes, i, key, numGpus, now, g);
      }
      assert Linked(nodes, paths, i);
      m := |nodes|;
      paths := paths + [paths[i] + key];
      var leaf := Node(Some(i), key, map[], seq(numGpus, _ => 0), {}, {}, now, contextLength + |key|);
      nodes := nodes[i := nodes[i].(children := nodes[i].children[key[0] := m])] + [leaf];
    }

    /** `_insert_helper`: makes the rest of the key a path below node i. At most one edge is
        split, and a split node is new. */
    method InsertHelper(i: nat, key: Path, contextLength: nat, now: int) returns (n: nat, splits: map<nat, nat>)
      requires Valid() && i < |nodes| == |paths| && contextLength == |paths[i]|
      modifies this`nodes, this`paths
      ensures Valid() && n < |nodes| == |paths| && Extends(old(nodes), old(paths), nodes, paths)
      ensures paths[n] == old(paths)[i] + key
      ensures SplitsOne(splits, old(paths), paths)
      ensures Adds(old(paths), paths, old(paths)[i] + key)
      ensures key == [] || key[0] !in old(nodes[i].children) ==> splits == map[]
      ensures Accessed(old(nodes), old(paths), nodes, i, old(paths)[i] + key, now)
      ensures Parents(splits, old(nodes), nodes)
      decreases |key|
    {
      hide Tree, Booked, Sized, Extends, SplitsOne, Accessed, WayOn, Parents, SameParents;
      RootPath(nodes, paths);
      WayThrough(nodes, paths, i, key);
      Touch(i, now);
      ghost var touched := nodes;
      ghost var whole, was := paths[i] + key, paths;
      assert SameParents(old(nodes), touched) by { TouchParents(old(nodes), i, now); }
      if key != [] && key[0] in nodes[i].children {
        ghost var d := Down(nodes, paths, i, key[0]);
        var c := nodes[i].children[key[0]];
        var len := Match(nodes[c].key, key);
        if len == |nodes[c].key| {
          assert paths[c] + key[len..] == whole;
          if len == |key| {
            NoSplit(paths, paths);
            AccessEnd(old(nodes), was, touched, i, c, whole, now);
            NoneBelow(old(nodes), was, touched);
            return c, map[];
          }
          n, splits := InsertHelper(c, key[len..], contextLength + len, now);
          ExtendsTransitive(old(nodes), was, touched, was, nodes, paths);
          AccessOn(old(nodes), was, touched, nodes, i, c, whole, now);
          ParentsBefore(splits, old(nodes), touched, nodes);
        } else {
          ghost var p := Up(nodes, paths, c);
          assert WayOn(was, i, None, whole) by {
            NotPrefix(was[i], nodes[c].key, key, len);
            WayEnds(was, i, c, whole);
          }
          var m := SplitNode(c, len, now);
          ghost var split, between := nodes, paths;
          SplitStops(nodes, touched, c, len, key);
          assert paths[m] + key[len..] == whole && paths[m] <= whole;
          n, splits := InsertHelper(m, key[len..], contextLength + len, now);
          OneBelow(touched, was, c, len, now, nodes);
          splits := splits[c := m];
          ParentsBefore(splits, old(nodes), touched, nodes);
          assert SplitsOne(splits, was, paths) by {
            ExtendsPaths(split, between, nodes, paths);
            SplitParent(touched, was, between, paths, c, len);
          }
          assert Adds(was, paths, whole) by {
            ExtendsPaths(split, between, nodes, paths);
            AddsOneMore(was, between, paths, whole);
          }
          SplitAccess(touched, c, len, now);
          AccessSplit(old(nodes), was, touched, between, split, nodes, i, whole, now);
          ExtendsTransitive(touched, was, split, between, nodes, paths);
          ExtendsTransitive(old(nodes), was, touched, was, nodes, paths);
        }
      } else if |key| > 0 {
        n := AddLeaf(i, key, contextLength, now);
        AccessOne(old(nodes), was, touched, nodes, i, whole, now);
        LeafBelow(old(nodes), was, touched, nodes);
        ExtendsTransitive(old(nodes), was, touched, was, nodes, paths);
        splits := map[];
        NoSplit(was, paths);
      } else {
        assert paths[i] == whole;
        NoSplit(paths, paths);
        AccessOne(old(nodes), was, touched, nodes, i, whole, now);
        NoneBelow(old(nodes), was, touched);
        n, splits := i, map[];
      }
    }

    static lemma TouchParents(a: seq<Node>, i: nat, now: int)
      requires i < |a|
      ensures SameParents(a, a[i := a[i].(access := now)])
    {
    }

    static lemma LeafBelow(a: seq<Node>, p: seq<Path>, b: seq<Node>, nodes: seq<Node>)
      requires Tree(a, p) && |a| == |b| && SameParents(a, b) && SameParents(b, nodes)
      ensures Parents(map[], a, nodes)
    {
      hide Tree;
      NoneBelow(a, p, nodes);
    }

    static lemma SplitAccess(nodes: seq<Node>, c: nat, len: nat, now: int)
      requires c < |nodes| && nodes[c].parent.Some? && nodes[c].parent.value < |nodes| && 0 < len < |nodes[c].key|
      ensures forall j :: 0 <= j < |nodes| ==> Split(nodes, c, len, now)[j].access == nodes[j].access
    {
    }

    static lemma AddsOneMore(p: seq<Path>, q: seq<Path>, r: seq<Path>, key: Path)
      requires |q| == |p| + 1 && q[|p|] <= key && Adds(q, r, key) && |q| <= |r| && r[..|q|] == q
      ensures Adds(p, r, key)
    {
      assert r[|p|] == q[|p|];
    }

    static lemma NoSplit(p: seq<Path>, q: seq<Path>)
      requires |p| <= |q|
      ensures SplitsOne(map[], p, q)
    {
    }

    static lemma SplitParent(nodes: seq<Node>, p: seq<Path>, q: seq<Path>, r: seq<Path>, c: nat, len: nat)
      requires Tree(nodes, p) && 0 < c < |nodes| == |p| && 0 < len < |nodes[c].key|
      requires nodes[c].parent.Some? && nodes[c].parent.value < |nodes|
      requires q == p + [p[nodes[c].parent.value] + nodes[c].key[..len]] && |q| <= |r| && r[..|q|] == q
      ensures SplitsOne(map[c := |p|], p, r)
    {
      hide Tree;
      var u := Up(nodes, p, c);
      assert r[c] == q[c] == p[c] && r[|p|] == q[|p|];
      assert nodes[c].key == nodes[c].key[..len] + nodes[c].key[len..];
      assert p[c] == q[|p|] + nodes[c].key[len..];
    }

    /** Below the new node the rest of the key branches off at once. */
    static lemma SplitStops(nodes: seq<Node>, was: seq<Node>, c: nat, len: nat, key: Path)
      requires c < |was| && was[c].parent.Some? && was[c].parent.value < |was| && 0 < len < |was[c].key|
      requires exists now :: nodes == Split(was, c, len, now)
      requires len <= |key| && (len < |key| ==> was[c].key[len] != key[len])
      ensures |nodes| == |was| + 1 && (key[len..] == [] || key[len..][0] !in nodes[|was|].children)
    {
    }

    /** Makes the key the path of a node and returns that node. */
    method Insert(key: Path, now: int) returns (n: nat, splits: map<nat, nat>)
      requires Valid()
      modifies this`nodes, this`paths
      ensures Valid() && n < |nodes| == |paths| && Extends(old(nodes), old(paths), nodes, paths)
      ensures paths[n] == key
      ensures SplitsOne(splits, old(paths), paths) && Adds(old(paths), paths, key)
      ensures forall r :: Finds(nodes, paths, key, r) <==> r == Some(n)
      ensures |old(paths)| > 0 && Accessed(old(nodes), old(paths), nodes, 0, key, now)
      ensures Parents(splits, old(nodes), nodes)
    {
      hide Tree, Booked, Sized, Extends, SplitsOne, Accessed, Parents;
      RootPath(nodes, paths);
      assert paths[0] + key == key;
      n, splits := InsertHelper(0, key, 0, now);
      forall r ensures Finds(nodes, paths, key, r) <==> r == Some(n) {
        if Finds(nodes, paths, key, r) { FindsPath(nodes, paths, n, r); }
      }
    }

    // -------------------------------------------------------------- references

    /** Books a request for node n on GPU g: one more reference to every node from n up to and
        including the root, all of which are cached on g from then on. */
    method UpdateCacheMetadata(n: nat, g: nat)
      requires Valid() && n < |nodes| == |paths| && g < numGpus
      modifies this`nodes, this`allocatedSizes, this`jobs
      ensures Valid() && jobs == old(jobs) + [Job(paths[n], g)]
      ensures forall i :: 0 <= i < |nodes| ==> g < |old(nodes)[i].counts|
      ensures nodes == Walked(old(nodes), paths, paths[n], g, -1, true) && SameShape(old(nodes), nodes)
      ensures forall i :: 0 <= i < |nodes| && paths[i] <= paths[n] ==> Pinned(nodes[i], g)
    {
      hide Tree, Exact;
      ghost var was, prompt := nodes, paths[n];
      RootPath(nodes, paths);
      CountsOk(nodes, paths, jobs, numGpus);
      AcquireBooked(nodes, paths, jobs, numGpus, n, g);
      WalkStart(nodes, paths, prompt, g, |prompt|, true);
      WalkedShape(nodes, paths, prompt, g, -1, true);
      var cur: nat, at := n, true;
      while at
        invariant paths == old(paths) && jobs == old(jobs) && |nodes| == |was| && cur < |was|
        invariant Sized(nodes, allocatedSizes, numGpus) && paths[cur] <= prompt
        invariant nodes == Walked(was, paths, prompt, g, if at then |paths[cur]| else -1, true)
        decreases at, |paths[cur]|
      {
        WalkStep(was, paths, prompt, g, cur, true);
        assert nodes[cur] == was[cur];
        SizeChanged(nodes, allocatedSizes, numGpus, cur, Referenced(nodes[cur], g), g);
        var parent := nodes[cur].parent;
        var cached := HasCached(nodes[cur], g);
        if !cached { allocatedSizes := allocatedSizes[g := allocatedSizes[g] + |nodes[cur].key|]; }
        nodes := nodes[cur := Referenced(nodes[cur], g)];
        if parent == None { at := false; } else { cur := parent.value; }
      }
      jobs := jobs + [Job(prompt, g)];
    }

    static lemma CountsOk(nodes: seq<Node>, paths: seq<Path>, jobs: seq<Job>, n: nat)
      requires Booked(nodes, paths, jobs, n)
      ensures forall i :: 0 <= i < |nodes| ==> |nodes[i].counts| == n
    {
      forall i | 0 <= i < |nodes| ensures |nodes[i].counts| == n { assert Exact(nodes, paths, jobs, n, i); }
    }

    /** A change of one node moves the size of one GPU by what the change caches or drops. */
    static lemma SizeChanged(nodes: seq<Node>, sizes: seq<int>, n: nat, i: nat, v: Node, g: nat)
      requires Sized(nodes, sizes, n) && i < |nodes| && g < n
      requires forall h: nat :: h != g ==> CachedLen(v, h) == CachedLen(nodes[i], h)
      ensures Sized(nodes[i := v], sizes[g := sizes[g] - CachedLen(nodes[i], g) + CachedLen(v, g)], n)
    {
      forall h | 0 <= h < n
        ensures SizeOn(nodes[i := v], h) == SizeOn(nodes, h) - CachedLen(nodes[i], h) + CachedLen(v, h)
      {
        SizeUpdate(nodes, i, v, h);
      }
    }

    /** Takes one reference off every node from n up to but without the root. The assertion on
        the count fails exactly when n itself has none to give. For a job that is booked (k) it
        holds, and the books are right again; without one, others' references are taken. */
    method DecNumUncompletedRequest(n: nat, g: nat, ghost k: Option<nat>) returns (raised: bool)
      requires Valid() && n < |nodes| == |paths| && g < numGpus
      requires k.Some? ==> k.value < |jobs| && jobs[k.value] == Job(paths[n], g)
      modifies this`nodes, this`jobs
      ensures forall i :: 0 <= i < |old(nodes)| ==> g < |old(nodes)[i].counts|
      ensures raised <==> n != 0 && old(nodes)[n].counts[g] == 0
      ensures nodes == if raised then old(nodes)[n := Released(old(nodes)[n], g)]
                       else Walked(old(nodes), paths, paths[n], g, 0, false)
      ensures SameShape(old(nodes), nodes) && Sized(nodes, allocatedSizes, numGpus)
      ensures k.Some? ==> !raised && Valid() && jobs == old(jobs)[..k.value] + old(jobs)[k.value + 1..]
      ensures k.None? ==> jobs == old(jobs)
    {
      hide Tree, Exact;
      ghost var was, prompt := nodes, paths[n];
      RootPath(nodes, paths);
      CountsOk(nodes, paths, jobs, numGpus);
      if k.Some? { ReleaseBooked(nodes, paths, jobs, numGpus, k.value); }
      WalkStart(nodes, paths, prompt, g, |prompt|, false);
      WalkedShape(nodes, paths, prompt, g, 0, false);
      var cur: nat := n;
      while cur != 0
        invariant paths == old(paths) && jobs == old(jobs) && |nodes| == |was| && cur < |was|
        invariant Sized(nodes, allocatedSizes, numGpus) && paths[cur] <= prompt
        invariant nodes == Walked(was, paths, prompt, g, |paths[cur]|, false)
        invariant cur != n ==> n != 0 && was[n].counts[g] > 0
        decreases |paths[cur]|
      {
        WalkStep(was, paths, prompt, g, cur, false);
        ReferencedAbove(was, paths, jobs, numGpus, g, n, cur);
        assert nodes[cur] == was[cur];
        SizeChanged(nodes, allocatedSizes, numGpus, cur, Released(nodes[cur], g), g);
        nodes := nodes[cur := Released(nodes[cur], g)];
        if nodes[cur].counts[g] < 0 {
          OneReleased(was, n, g);
          return true;
        }
        cur := nodes[cur].parent.value;
      }
      raised := false;
      if k.Some? { jobs := jobs[..k.value] + jobs[k.value + 1..]; }
    }

    static lemma OneReleased(nodes: seq<Node>, n: nat, g: nat)
      requires n < |nodes| && g < |nodes[n].counts|
      ensures SameShape(nodes, nodes[n := Released(nodes[n], g)])
    {
    }

    /** `remove_completed_input_ids`: on the node r the prompt leads to, which for a request
        that is scheduled and unfinished is its own. It fails when the prompt leads nowhere. */
    method RemoveCompletedInputIds(prompt: Path, g: nat, now: int, ghost k: Option<nat>)
        returns (raised: bool, r: Option<nat>)
      requires Valid() && g < numGpus && (k.Some? ==> k.value < |jobs| && jobs[k.value] == Job(prompt, g))
      modifies this`nodes, this`jobs
      ensures |old(nodes)| == |paths| && Finds(old(nodes), paths, prompt, r)
      ensures raised <==>
                || r.None?
                || (r.value != 0 && (g < |old(nodes)[r.value].counts| ==> old(nodes)[r.value].counts[g] == 0))
      ensures k.Some? ==> !raised && Valid() && jobs == old(jobs)[..k.value] + old(jobs)[k.value + 1..]
      ensures k.None? ==> jobs == old(jobs)
      ensures SameShape(old(nodes), nodes)
      ensures forall i :: 0 <= i < |nodes| ==>
                && nodes[i].cached == old(nodes)[i].cached && nodes[i].evicted == old(nodes)[i].evicted
                && nodes[i].counts == Lowered(old(nodes)[i].counts, g, r.Some? && Passed(paths, i, r.value, raised))
                && nodes[i].access == if paths[i] <= prompt then now else old(nodes)[i].access
    {
      hide Tree, Sized, Exact, Extends, Visits;
      r := FindNode(prompt, now);
      ghost var found := nodes;
      SameFinds(old(nodes), nodes, paths, prompt, r);
      if k.Some? {
        ghost var i := NodeOf(k.value);
        FindsPath(nodes, paths, i, r);
      }
      SameCounts(old(nodes), nodes, paths);
      VisitsAt(old(nodes), nodes, paths, prompt, now);
      if r == None { return true, r; }
      raised := DecNumUncompletedRequest(r.value, g, k);
      forall i | 0 <= i < |nodes|
        ensures SameLinks(old(nodes)[i], nodes[i])
        ensures nodes[i].cached == old(nodes)[i].cached && nodes[i].evicted == old(nodes)[i].evicted
        ensures nodes[i].counts == Lowered(old(nodes)[i].counts, g, Passed(paths, i, r.value, raised))
        ensures nodes[i].access == found[i].access
      {
        assert SameLinks(old(nodes)[i], found[i]) && SameLinks(found[i], nodes[i]);
        LowersPassed(found, paths, r.value, g, raised, i);
      }
    }

    /** One reference less for g. */
    static function Lowered(counts: seq<int>, g: nat, less: bool): seq<int> {
      if less && g < |counts| then counts[g := counts[g] - 1] else counts
    }

    /** A release at n passes every node from n up to but without the root, and stops at n
        itself when the assertion fails there. */
    static predicate Passed(paths: seq<Path>, i: nat, n: nat, raised: bool)
      requires i < |paths|
    {
      n < |paths| && i != 0 && if raised then i == n else paths[i] <= paths[n]
    }

    static lemma LowersPassed(nodes: seq<Node>, paths: seq<Path>, n: nat, g: nat, raised: bool, i: nat)
      requires Tree(nodes, paths) && |nodes| == |paths| && n < |nodes| && i < |nodes| && (raised ==> n != 0)
      requires forall j :: 0 <= j < |nodes| ==> g < |nodes[j].counts|
      ensures var u := if raised then nodes[n := Released(nodes[n], g)]
                       else Walked(nodes, paths, paths[n], g, 0, false);
              && u[i].counts == Lowered(nodes[i].counts, g, Passed(paths, i, n, raised))
              && u[i].cached == nodes[i].cached && u[i].evicted == nodes[i].evicted && u[i].access == nodes[i].access
    {
      hide Tree;
      RootPath(nodes, paths);
      if i != 0 && paths[i] == [] { SameNode(nodes, paths, i, 0); }
    }

    static lemma SameFinds(a: seq<Node>, b: seq<Node>, paths: seq<Path>, key: Path, r: Option<nat>)
      requires SameShape(a, b) && |a| == |paths| && Finds(b, paths, key, r)
      ensures Finds(a, paths, key, r)
    {
      if r.None? {
        var n :| 0 <= n < |b| && MidEdge(b, paths, key, n);
        assert SameLinks(a[n], b[n]);
        assert MidEdge(a, paths, key, n);
      } else {
        assert SameLinks(a[r.value], b[r.value]);
      }
    }

    static lemma VisitsAt(a: seq<Node>, b: seq<Node>, paths: seq<Path>, key: Path, now: int)
      requires Visits(a, b, paths, [], key, now)
      ensures |a| == |b| == |paths|
      ensures forall i :: 0 <= i < |a| ==> b[i].access == if paths[i] <= key then now else a[i].access
    {
    }

    static lemma SameCounts(a: seq<Node>, b: seq<Node>, paths: seq<Path>)
      requires Extends(a, paths, b, paths)
      ensures |a| == |b|
      ensures forall i :: 0 <= i < |a| ==>
                a[i].counts == b[i].counts && a[i].cached == b[i].cached && a[i].evicted == b[i].evicted
    {
    }

    lemma NodeOf(k: nat) returns (i: nat)
      requires Valid() && k < |jobs|
      ensures i < |nodes| == |paths| && paths[i] == jobs[k].prompt && jobs[k].gpu < numGpus
    {
      assert IsPath(paths, jobs[k].prompt);
      i :| 0 <= i < |paths| && paths[i] == jobs[k].prompt;
    }

    // -------------------------------------------------------------- eviction

    /** The nodes at and below i in the order of `_collect_nodes`. */
    method Dfs(i: nat, ghost longest: nat) returns (list: seq<nat>)
      requires Valid() && i < |nodes| == |paths| && forall j :: 0 <= j < |paths| ==> |paths[j]| <= longest
      ensures Distinct(list) && forall j :: j in list <==> 0 <= j < |nodes| && paths[i] <= paths[j]
      decreases longest - |paths[i]|
    {
      hide Tree, Booked, Sized;
      list := [i];
      var tokens := nodes[i].children.Keys;
      OnlySelf(nodes, paths, i);
      while tokens != {}
        invariant tokens <= nodes[i].children.Keys && Distinct(list)
        invariant forall j :: j in list <==> 0 <= j < |nodes| && Below(paths, i, tokens, j)
      {
        var t := AnyOf(tokens);
        ghost var d := Down(nodes, paths, i, t);
        var below := Dfs(nodes[i].children[t], longest);
        ThroughChild(nodes, paths, i, tokens, t);
        DistinctAppend(list, below);
        list := list + below;
        tokens := tokens - {t};
      }
    }

    static lemma DistinctAppend(a: seq<nat>, b: seq<nat>)
      requires Distinct(a) && Distinct(b) && forall x :: x in b ==> x !in a
      ensures Distinct(a + b)
    {
      forall i, j | 0 <= i < j < |a + b| ensures (a + b)[i] != (a + b)[j] {
        if i < |a| <= j { assert (a + b)[j] in b; }
      }
    }

    /** j is node i or is below it through a child whose token is not among these. */
    static ghost predicate Below(paths: seq<Path>, i: nat, tokens: set<Token>, j: nat)
      requires i < |paths| && j < |paths|
    {
      paths[i] <= paths[j] && (paths[i] < paths[j] ==> paths[j][|paths[i]|] !in tokens)
    }

    static lemma OnlySelf(nodes: seq<Node>, paths: seq<Path>, i: nat)
      requires Tree(nodes, paths) && i < |nodes| == |paths|
      ensures forall j :: 0 <= j < |nodes| ==> (Below(paths, i, nodes[i].children.Keys, j) <==> j == i)
    {
      hide Tree;
      forall j | 0 <= j < |nodes| ensures Below(paths, i, nodes[i].children.Keys, j) <==> j == i {
        if paths[i] == paths[j] { SameNode(nodes, paths, i, j); }
        if paths[i] < paths[j] { Branch(nodes, paths, i, j); }
      }
    }

    static lemma ThroughChild(nodes: seq<Node>, paths: seq<Path>, i: nat, tokens: set<Token>, t: Token)
      requires Tree(nodes, paths) && i < |nodes| == |paths| && t in tokens && tokens <= nodes[i].children.Keys
      ensures nodes[i].children[t] < |nodes|
      ensures forall j :: 0 <= j < |nodes| ==>
                (Below(paths, i, tokens - {t}, j) <==>
                    Below(paths, i, tokens, j) || paths[nodes[i].children[t]] <= paths[j])
      ensures forall j :: 0 <= j < |nodes| ==> !(Below(paths, i, tokens, j) && paths[nodes[i].children[t]] <= paths[j])
    {
      hide Tree;
      var c := Down(nodes, paths, i, t);
      forall j | 0 <= j < |nodes|
        ensures paths[c] <= paths[j] <==> paths[i] < paths[j] && paths[j][|paths[i]|] == t
      {
        Inside(nodes, paths, c, 1, j);
        assert nodes[c].key[..1] == [t];
        assert paths[i] + [t] <= paths[j] <==> paths[i] < paths[j] && paths[j][|paths[i]|] == t;
      }
    }

    static ghost function Longest(paths: seq<Path>): (n: nat)
      ensures forall j :: 0 <= j < |paths| ==> |paths[j]| <= n
    {
      if paths == [] then 0
      else var n := Longest(paths[..|paths| - 1]); if |paths[|paths| - 1]| > n then |paths[|paths| - 1]| else n
    }

    method CollectNodes() returns (list: seq<nat>)
      requires Valid()
      ensures Distinct(list) && forall j :: j in list <==> 0 <= j < |nodes|
    {
      hide Tree, Booked, Sized;
      RootPath(nodes, paths);
      list := Dfs(0, Longest(paths));
    }

    /** The eviction candidates on g. The cached size is counted again on the way, and the
        recount changes nothing. */
    method CollectedNodesWithRuntimeIdx(g: nat) returns (queue: seq<nat>)
      requires Valid() && g < numGpus
      modifies this`allocatedSizes
      ensures allocatedSizes == old(allocatedSizes)
      ensures forall i :: i in queue <==> 0 <= i < |nodes| && EvictableAt(nodes[i], g)
    {
      hide Tree, Exact;
      CountsOk(nodes, paths, jobs, numGpus);
      var list := CollectNodes();
      var current := 0;
      queue := [];
      ghost var seen: set<nat> := {};
      SeenNone(nodes, g);
      for k := 0 to |list|
        invariant allocatedSizes == old(allocatedSizes)
        invariant forall i :: i in seen <==> i in list[..k]
        invariant current == SizeSeen(nodes, seen, g)
        invariant forall i :: i in queue <==> i in list[..k] && i < |nodes| && EvictableAt(nodes[i], g)
      {
        var i := list[k];
        assert i in list && list[..k + 1] == list[..k] + [i];
        SeenAdd(nodes, seen, i, g);
        seen := seen + {i};
        if HasCached(nodes[i], g) { current := current + |nodes[i].key|; }
        if nodes[i].counts[g] == 0 && HasCached(nodes[i], g) { queue := queue + [i]; }
      }
      assert list[..|list|] == list;
      SeenAll(nodes, seen, g);
      allocatedSizes := allocatedSizes[g := current];
    }

    /** heappop: one least entry. Which of several least ones it is is left open. */
    method PopLeast(queue: seq<nat>) returns (x: nat, rest: seq<nat>)
      requires queue != [] && forall i :: i in queue ==> i < |nodes|
      ensures x in queue && forall y :: y in queue ==> !NodeLess(nodes[y], nodes[x])
      ensures |rest| == |queue| - 1 && (forall y :: y in rest ==> y in queue)
      ensures forall y :: y in queue ==> y == x || y in rest
    {
      hide NodeLess;
      assert forall j :: 0 <= j < |queue| ==> queue[j] in queue;
      var k := 0;
      SelfNotLess(nodes[queue[0]]);
      for m := 1 to |queue|
        invariant k < m && forall j :: 0 <= j < m ==> !NodeLess(nodes[queue[j]], nodes[queue[k]])
      {
        if NodeLess(nodes[queue[m]], nodes[queue[k]]) {
          SelfNotLess(nodes[queue[m]]);
          forall j | 0 <= j < m ensures !NodeLess(nodes[queue[j]], nodes[queue[m]]) {
            if NodeLess(nodes[queue[j]], nodes[queue[m]]) {
              NodeLessTransitive(nodes[queue[j]], nodes[queue[m]], nodes[queue[k]]);
            }
          }
          k := m;
        }
      }
      x, rest := queue[k], queue[..k] + queue[k + 1..];
    }

    static lemma SelfNotLess(a: Node)
      ensures !NodeLess(a, a)
    {
    }

    method AnySiblingCached(x: nat, g: nat) returns (any: bool)
      requires Tree(nodes, paths) && 0 < x < |nodes|
      ensures nodes[x].parent.Some? && nodes[x].parent.value < |nodes|
      ensures any <==> SiblingCached(nodes, x, nodes[nodes[x].parent.value].children.Keys, g)
    {
      hide Tree;
      ghost var p := Up(nodes, paths, x);
      var children := nodes[nodes[x].parent.value].children;
      var tokens := children.Keys;
      any := false;
      while tokens != {}
        invariant tokens <= children.Keys && any == SiblingCached(nodes, x, children.Keys - tokens, g)
      {
        var t := AnyOf(tokens);
        ghost var d := Down(nodes, paths, p, t);
        assert children.Keys - (tokens - {t}) == (children.Keys - tokens) + {t};
        if children[t] != x && HasCached(nodes[children[t]], g) { any := true; }
        tokens := tokens - {t};
      }
      assert children.Keys - {} == children.Keys;
    }

    /** Another child of x's parent, on one of these tokens, is cached on g. */
    static ghost predicate SiblingCached(nodes: seq<Node>, x: nat, tokens: set<Token>, g: nat)
      requires x < |nodes| && nodes[x].parent.Some? && nodes[x].parent.value < |nodes|
      requires tokens <= nodes[nodes[x].parent.value].children.Keys
    {
      exists t :: t in tokens &&
        var c := nodes[nodes[x].parent.value].children[t]; c != x && c < |nodes| && HasCached(nodes[c], g)
    }

    method EvictCallback(x: nat, g: nat) returns (size: nat)
      requires x < |nodes|
      modifies this`nodes
      ensures nodes == old(nodes)[x := Dropped(old(nodes)[x], g)] && size == |old(nodes)[x].key|
      ensures nodes[x].evicted == old(nodes[x].evicted) + {g} && nodes[x].cached == old(nodes[x].cached) - {g}
    {
      nodes := nodes[x := nodes[x].(evicted := nodes[x].evicted + {g}, cached := nodes[x].cached - {g})];
      size := |nodes[x].key|;
    }

    /** Drops one node. Returns its parent when no sibling is cached on g. */
    method DropNode(x: nat, g: nat, ghost was: seq<Node>, ghost gone: set<nat>) returns (size: nat, parent: Option<nat>)
      requires Tree(was, paths) && nodes == Without(was, gone, g) && Sized(nodes, allocatedSizes, numGpus)
      requires g < numGpus
      requires Goes(was, gone, g) && 0 < x < |was| && EvictableAt(nodes[x], g)
      modifies this`nodes, this`allocatedSizes
      ensures nodes == Without(was, gone + {x}, g) && Goes(was, gone + {x}, g) && x !in gone
      ensures Sized(nodes, allocatedSizes, numGpus) && size == |was[x].key|
      ensures allocatedSizes == old(allocatedSizes)[g := old(allocatedSizes)[g] - size]
      ensures parent.Some? ==> parent.value < |was|
      ensures forall i :: 0 <= i < |was| && EvictableAt(nodes[i], g) ==> i != x && EvictableAt(old(nodes)[i], g)
    {
      hide Tree, Without, Dropped;
      DropStep(was, gone, g, x);
      WithoutTree(was, paths, gone + {x}, g);
      SizeChanged(nodes, allocatedSizes, numGpus, x, Dropped(was[x], g), g);
      allocatedSizes := allocatedSizes[g := allocatedSizes[g] - |nodes[x].key|];
      size := EvictCallback(x, g);
      var any := AnySiblingCached(x, g);
      parent := if any then None else nodes[x].parent;
      DropIsGone(was[x], g);
    }

    static lemma DropIsGone(n: Node, g: nat)
      ensures !EvictableAt(Dropped(n, g), g)
    {
    }

    static ghost function Ids(n: nat): (s: set<nat>)
      ensures forall i :: i in s <==> 0 <= i < n
    {
      if n == 0 then {} else Ids(n - 1) + {n - 1}
    }

    /** The queue holds every node that can still be dropped. */
    static ghost predicate Queued(nodes: seq<Node>, queue: seq<nat>, g: nat) {
      && (forall i :: i in queue ==> i < |nodes|)
      && (forall i :: 0 < i < |nodes| && EvictableAt(nodes[i], g) ==> i in queue)
    }

    /** One round after x has been popped. */
    method EvictOne(x: nat, rest: seq<nat>, g: nat, ghost was: seq<Node>, ghost gone: set<nat>)
      returns (size: nat, queue: seq<nat>, ghost dropped: bool)
      requires Tree(was, paths) && Booked(was, paths, jobs, numGpus) && g < numGpus
      requires nodes == Without(was, gone, g) && Goes(was, gone, g) && Sized(nodes, allocatedSizes, numGpus)
      requires 0 < x < |was| && Queued(nodes, [x] + rest, g)
      modifies this`nodes, this`allocatedSizes
      ensures Queued(nodes, queue, g) && Sized(nodes, allocatedSizes, numGpus)
      ensures allocatedSizes == old(allocatedSizes)[g := old(allocatedSizes)[g] - size]
      ensures dropped ==> x !in gone && nodes == Without(was, gone + {x}, g) && Goes(was, gone + {x}, g)
      ensures dropped ==> size == |was[x].key|
      ensures !dropped ==> nodes == old(nodes) && size == 0 && queue == rest
    {
      hide Tree, Booked, Without;
      CountsKept(was, paths, jobs, numGpus, gone, g);
      size, queue, dropped := 0, rest, false;
      assert forall i :: i in [x] + rest <==> i == x || i in rest;
      if nodes[x].counts[g] > 0 { return; }
      if HasCached(nodes[x], g) {
        var parent;
        size, parent := DropNode(x, g, was, gone);
        if parent.Some? { queue := queue + [parent.value]; }
        dropped := true;
      }
    }

    /** Drops unreferenced nodes from g in heap order until enough tokens are gone. */
    method EvictWithRuntimeIdWithoutRemoving(need: real, g: nat) returns (evicted: nat, ghost gone: set<nat>)
      requires Valid() && g < numGpus
      modifies this`nodes, this`allocatedSizes
      ensures Valid()
      ensures nodes == Without(old(nodes), gone, g)
      ensures forall i :: i in gone ==> 0 < i < |nodes| && EvictableAt(old(nodes)[i], g)
      ensures allocatedSizes == old(allocatedSizes)[g := old(allocatedSizes)[g] - evicted]
      ensures evicted as real >= need || forall i :: 0 < i < |nodes| ==> !EvictableAt(nodes[i], g)
      ensures gone != {} ==> exists last :: last in gone && (evicted - |old(nodes)[last].key|) as real < need
      ensures SoonestFirst(old(nodes), gone, g)
    {
      hide Tree, Booked, Without, NodeLess, EvictableAt, SoonestFirst;
      ghost var was, last: nat := nodes, 0;
      var queue: seq<nat> := CollectedNodesWithRuntimeIdx(g);
      RootPath(nodes, paths);
      evicted, gone := 0, {};
      ghost var left := Ids(|was|);
      NoneGone(was, g);
      while evicted as real < need && queue != []
        invariant paths == old(paths) && jobs == old(jobs) && nodes == Without(was, gone, g)
        invariant Goes(was, gone, g) && Sized(nodes, allocatedSizes, numGpus) && Queued(nodes, queue, g)
        invariant |allocatedSizes| == numGpus
        invariant allocatedSizes == old(allocatedSizes)[g := old(allocatedSizes)[g] - evicted]
        invariant gone != {} ==> last in gone && (evicted - |was[last].key|) as real < need
        invariant forall i :: 0 <= i < |was| && i !in gone ==> i in left
        invariant LeastFirst(was, gone, g)
        decreases left, |queue|
      {
        var x, rest := PopLeast(queue);
        if x == 0 {
          forall i | 0 < i < |nodes| ensures i !in queue { RootAlone(was, paths, jobs, numGpus, gone, g, i); }
          break;
        }
        assert Queued(nodes, [x] + rest, g);
        assert LeastFirst(was, gone + {x}, g) by { LeastNext(was, gone, queue, x, g); }
        var size;
        ghost var dropped;
        size, queue, dropped := EvictOne(x, rest, g, was, gone);
        evicted := evicted + size;
        if dropped { gone, left, last := gone + {x}, left - {x}, x; }
      }
      WithoutTree(was, paths, gone, g);
      WithoutBooked(was, paths, jobs, numGpus, gone, g);
      LeastIsSoonest(was, paths, jobs, numGpus, gone, g);
    }

    /** Whatever could be evicted and comes before an evicted node has been evicted too. */
    static ghost predicate SoonestFirst(was: seq<Node>, gone: set<nat>, g: nat) {
      forall i, j :: i in gone && i < |was| && 0 < j < |was| && EvictableAt(was[j], g) && Sooner(was[j], was[i]) ==>
          j in gone
    }

    static ghost predicate LeastFirst(was: seq<Node>, gone: set<nat>, g: nat) {
      forall i, j :: i in gone && i < |was| && 0 < j < |was| && EvictableAt(was[j], g) && NodeLess(was[j], was[i]) ==>
          j in gone
    }

    static lemma LeastNext(was: seq<Node>, gone: set<nat>, queue: seq<nat>, x: nat, g: nat)
      requires LeastFirst(was, gone, g) && x < |was| && Queued(Without(was, gone, g), queue, g)
      requires forall y :: y in queue ==> !NodeLess(Without(was, gone, g)[y], Without(was, gone, g)[x])
      ensures LeastFirst(was, gone + {x}, g)
    {
      forall j | 0 < j < |was| && EvictableAt(was[j], g) && NodeLess(was[j], was[x]) ensures j in gone {
        StaysAt(was, gone, g, j);
      }
    }

    static lemma StaysAt(was: seq<Node>, gone: set<nat>, g: nat, j: nat)
      requires j < |was|
      ensures j !in gone ==> Without(was, gone, g)[j] == was[j]
    {
    }

    static lemma LeastIsSoonest(was: seq<Node>, paths: seq<Path>, jobs: seq<Job>, n: nat, gone: set<nat>, g: nat)
      requires Booked(was, paths, jobs, n) && LeastFirst(was, gone, g)
      ensures SoonestFirst(was, gone, g)
    {
      hide NodeLess, Sooner;
      forall i, j | i in gone && i < |was| && 0 < j < |was| && EvictableAt(was[j], g) && Sooner(was[j], was[i])
        ensures j in gone
      {
        assert Exact(was, paths, jobs, n, i) && Exact(was, paths, jobs, n, j);
        NodeLessIs(was[j], was[i]);
      }
    }

    static lemma CountsKept(nodes: seq<Node>, paths: seq<Path>, jobs: seq<Job>, n: nat, gone: set<nat>, g: nat)
      requires Booked(nodes, paths, jobs, n) && g < n
      ensures forall i :: 0 <= i < |nodes| ==> |Without(nodes, gone, g)[i].counts| == n
      ensures forall i :: 0 <= i < |nodes| ==> Without(nodes, gone, g)[i].counts[g] >= 0
    {
      forall i | 0 <= i < |nodes|
        ensures |nodes[i].counts| == n && nodes[i].counts[g] >= 0
      {
        assert Exact(nodes, paths, jobs, n, i);
      }
    }

    static lemma NoneFirst(nodes: seq<Node>, g: nat)
      ensures SoonestFirst(nodes, {}, g)
    {
    }

    static lemma NoneGone(nodes: seq<Node>, g: nat)
      ensures Without(nodes, {}, g) == nodes
    {
    }
  }
}
