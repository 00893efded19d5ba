/** The radix tree of prompts on values. A node is known by its creation number, as the source
    compares and hashes nodes by a unique id; nodes are never deleted. Number 0 is the root.
    A node's value is always a copy of its key and is not kept apart. */
module RadixTree {
  import opened Common

  type Token = int
  type Path = seq<Token>

  datatype Node = Node(parent: Option<nat>, key: Path, children: map<Token, nat>, counts: seq<int>,
                       cached: set<nat>, evicted: set<nat>, access: int, contextLength: nat)

  predicate HasCached(n: Node, g: nat) { g in n.cached && g !in n.evicted }

  // ---------------------------------------------------------------- shape

  ghost predicate ChildOk(nodes: seq<Node>, i: nat, t: Token)
    requires i < |nodes| && t in nodes[i].children
  {
    var c := nodes[i].children[t];
    0 < c < |nodes| && nodes[c].parent == Some(i) && nodes[c].key != [] && nodes[c].key[0] == t
  }

  ghost predicate ParentOk(nodes: seq<Node>, paths: seq<Path>, i: nat)
    requires i < |nodes| == |paths|
  {
    var n := nodes[i];
    && n.parent.Some? && n.parent.value < |nodes|
    && n.key != [] && paths[i] == paths[n.parent.value] + n.key
    && n.key[0] in nodes[n.parent.value].children && nodes[n.parent.value].children[n.key[0]] == i
  }

  ghost predicate Linked(nodes: seq<Node>, paths: seq<Path>, i: nat)
    requires i < |nodes| == |paths|
  {
    && nodes[i].contextLength == |paths[i]|
    && (if i == 0 then nodes[i].parent == None && nodes[i].key == [] && paths[i] == [] else ParentOk(nodes, paths, i))
    && forall t :: t in nodes[i].children ==> ChildOk(nodes, i, t)
  }

  /** paths[i] is the concatenation of the keys from the root to node i. */
  ghost predicate Tree(nodes: seq<Node>, paths: seq<Path>) {
    && |nodes| == |paths| > 0
    && forall i :: 0 <= i < |nodes| ==> Linked(nodes, paths, i)
  }

  lemma Up(nodes: seq<Node>, paths: seq<Path>, i: nat) returns (p: nat)
    requires Tree(nodes, paths) && 0 < i < |nodes|
    ensures |nodes| == |paths| && nodes[i].parent == Some(p) && p < |nodes| && nodes[i].key != []
    ensures paths[i] == paths[p] + nodes[i].key && paths[p] == paths[i][..|paths[p]|]
    ensures nodes[i].key[0] in nodes[p].children && nodes[p].children[nodes[i].key[0]] == i
  {
    assert Linked(nodes, paths, i);
    p := nodes[i].parent.value;
  }

  lemma Down(nodes: seq<Node>, paths: seq<Path>, i: nat, t: Token) returns (c: nat)
    requires Tree(nodes, paths) && i < |nodes| && t in nodes[i].children
    ensures |nodes| == |paths| && c == nodes[i].children[t] && 0 < c < |nodes|
    ensures nodes[c].parent == Some(i) && nodes[c].key != [] && nodes[c].key[0] == t
    ensures paths[c] == paths[i] + nodes[c].key
  {
    assert Linked(nodes, paths, i) && ChildOk(nodes, i, t);
    c := nodes[i].children[t];
    assert Linked(nodes, paths, c);
  }

  /** Below a node, the tree branches on the next token alone. */
  lemma {:induction false} Branch(nodes: seq<Node>, paths: seq<Path>, a: nat, b: nat)
    requires Tree(nodes, paths) && a < |nodes| && b < |nodes| && paths[a] < paths[b]
    ensures paths[b][|paths[a]|] in nodes[a].children
    ensures var c := nodes[a].children[paths[b][|paths[a]|]]; c < |nodes| && paths[c] <= paths[b]
    decreases |paths[b]|
  {
    hide Tree;
    RootPath(nodes, paths);
    var p := Up(nodes, paths, b);
    if |paths[a]| < |paths[p]| {
      assert paths[a] < paths[p];
      Branch(nodes, paths, a, p);
    } else if |paths[a]| == |paths[p]| {
      assert paths[a] == paths[p];
      SameNode(nodes, paths, a, p);
    } else {
      assert paths[p] < paths[a];
      Branch(nodes, paths, p, a);
    }
  }

  /** No two nodes have the same path. */
  lemma {:induction false} SameNode(nodes: seq<Node>, paths: seq<Path>, a: nat, b: nat)
    requires Tree(nodes, paths) && a < |nodes| && b < |nodes| && paths[a] == paths[b]
    ensures a == b
    decreases |paths[b]|
  {
    hide Tree;
    RootPath(nodes, paths);
    if a != 0 && b != 0 {
      var p := Up(nodes, paths, a);
      var q := Up(nodes, paths, b);
      if |paths[p]| == |paths[q]| {
        assert paths[p] == paths[q];
        SameNode(nodes, paths, p, q);
      } else if |paths[p]| < |paths[q]| {
        assert paths[p] < paths[q];
        Branch(nodes, paths, p, q);
      } else {
        assert paths[q] < paths[p];
        Branch(nodes, paths, q, p);
      }
    } else if a != 0 {
      var p := Up(nodes, paths, a);
    } else if b != 0 {
      var q := Up(nodes, paths, b);
    }
  }

  lemma RootPath(nodes: seq<Node>, paths: seq<Path>)
    requires Tree(nodes, paths)
    ensures |nodes| == |paths| > 0 && paths[0] == [] && nodes[0].parent == None && nodes[0].key == []
  {
    assert Linked(nodes, paths, 0);
  }

  /** Between a node and its parent there is nothing. */
  lemma Between(nodes: seq<Node>, paths: seq<Path>, c: nat, i: nat)
    requires Tree(nodes, paths) && 0 < c < |nodes| && i < |nodes|
    requires paths[i] <= paths[c] && nodes[c].parent.Some? && nodes[c].parent.value < |nodes|
    requires |paths[i]| > |paths[nodes[c].parent.value]|
    ensures i == c
  {
    hide Tree;
    var p := Up(nodes, paths, c);
    assert paths[p] < paths[i];
    Branch(nodes, paths, p, i);
    assert paths[i][|paths[p]|] == nodes[c].key[0];
    assert paths[i] == paths[c];
    SameNode(nodes, paths, i, c);
  }

  // ---------------------------------------------------------------- lookup

  /** What a walk down from the root comes to: the node where the walk has to stop, or nothing
      when the key leaves the tree in the middle of an edge. */
  ghost predicate Finds(nodes: seq<Node>, paths: seq<Path>, key: Path, r: Option<nat>)
    requires |nodes| == |paths|
  {
    match r
    case Some(n) => n < |nodes| && paths[n] <= key && (paths[n] < key ==> key[|paths[n]|] !in nodes[n].children)
    case None => exists n :: 0 <= n < |nodes| && MidEdge(nodes, paths, key, n)
  }

  ghost predicate MidEdge(nodes: seq<Node>, paths: seq<Path>, key: Path, n: nat)
    requires n < |nodes| == |paths|
  {
    && paths[n] < key && key[|paths[n]|] in nodes[n].children
    && var c := nodes[n].children[key[|paths[n]|]]; c < |nodes| && !(paths[c] <= key)
  }

  /** A key that is the path of a node finds that node. */
  lemma FindsPath(nodes: seq<Node>, paths: seq<Path>, m: nat, r: Option<nat>)
    requires Tree(nodes, paths) && m < |nodes| && Finds(nodes, paths, paths[m], r)
    ensures r == Some(m)
  {
    hide Tree;
    RootPath(nodes, paths);
    if r.None? {
      var n :| 0 <= n < |nodes| && MidEdge(nodes, paths, paths[m], n);
      Branch(nodes, paths, n, m);
    } else if paths[r.value] < paths[m] {
      Branch(nodes, paths, r.value, m);
    } else {
      SameNode(nodes, paths, r.value, m);
    }
  }

  /** The node found is the deepest one whose path is a prefix of the key. */
  lemma FindsDeepest(nodes: seq<Node>, paths: seq<Path>, key: Path, n: nat, m: nat)
    requires Tree(nodes, paths) && m < |nodes| && Finds(nodes, paths, key, Some(n)) && paths[m] <= key
    ensures paths[m] <= paths[n]
  {
    hide Tree;
    RootPath(nodes, paths);
    if |paths[m]| > |paths[n]| {
      assert paths[n] < paths[m];
      Branch(nodes, paths, n, m);
    }
  }

  /** A key has one outcome. */
  lemma FindsOne(nodes: seq<Node>, paths: seq<Path>, key: Path, r: Option<nat>, s: Option<nat>)
    requires Tree(nodes, paths) && Finds(nodes, paths, key, r) && Finds(nodes, paths, key, s)
    ensures r == s
  {
    if r.Some? && s.Some? {
      FindsDeepest(nodes, paths, key, r.value, s.value);
      FindsDeepest(nodes, paths, key, s.value, r.value);
      SameNode(nodes, paths, r.value, s.value);
    } else if r.Some? {
      MidEdgeAlone(nodes, paths, key, r.value);
    } else if s.Some? {
      MidEdgeAlone(nodes, paths, key, s.value);
    }
  }

  lemma MidEdgeAlone(nodes: seq<Node>, paths: seq<Path>, key: Path, n: nat)
    requires Tree(nodes, paths) && Finds(nodes, paths, key, Some(n))
    ensures !Finds(nodes, paths, key, None)
  {
    hide Tree;
    RootPath(nodes, paths);
    if Finds(nodes, paths, key, None) {
      var m :| 0 <= m < |nodes| && MidEdge(nodes, paths, key, m);
      FindsDeepest(nodes, paths, key, n, m);
      if paths[m] == paths[n] {
        SameNode(nodes, paths, m, n);
      } else {
        assert paths[m] < paths[n] && key[|paths[m]|] == paths[n][|paths[m]|];
        Branch(nodes, paths, m, n);
      }
    }
  }

  // ---------------------------------------------------------------- growth

  /** `_split_node`: a new node takes over the first len tokens of c's edge. */
  function Split(nodes: seq<Node>, c: nat, len: nat, now: int): (r: seq<Node>)
    requires c < |nodes| && nodes[c].parent.Some? && nodes[c].parent.value < |nodes| && 0 < len < |nodes[c].key|
    ensures |r| == |nodes| + 1
  {
    var child, p, m := nodes[c], nodes[c].parent.value, |nodes|;
    var below := nodes[c := child.(parent := Some(m), key := child.key[len..])];
    var mid := Node(Some(p), child.key[..len], map[child.key[len] := c], child.counts, child.cached, child.evicted,
                    now, nodes[p].contextLength + len);
    below[p := below[p].(children := below[p].children[child.key[0] := m])] + [mid]
  }

  /** A new leaf below p. */
  function Grow(nodes: seq<Node>, p: nat, key: Path, numGpus: nat, now: int): (r: seq<Node>)
    requires p < |nodes| && key != []
    ensures |r| == |nodes| + 1
  {
    nodes[p := nodes[p].(children := nodes[p].children[key[0] := |nodes|])]
      + [Node(Some(p), key, map[], seq(numGpus, _ => 0), {}, {}, now, nodes[p].contextLength + |key|)]
  }

  /** The structure of two nodes agrees; counts, cached sets and access times may differ. */
  predicate SameLinks(a: Node, b: Node) {
    a.parent == b.parent && a.key == b.key && a.children == b.children && a.contextLength == b.contextLength
  }

  ghost predicate SameShape(a: seq<Node>, b: seq<Node>) {
    |a| == |b| && forall i :: 0 <= i < |a| ==> SameLinks(a[i], b[i])
  }

  lemma ShapeKeeps(a: seq<Node>, b: seq<Node>, paths: seq<Path>)
    requires Tree(a, paths) && SameShape(a, b)
    ensures Tree(b, paths)
  {
    forall i | 0 <= i < |b| ensures Linked(b, paths, i) {
      assert Linked(a, paths, i) && SameLinks(a[i], b[i]);
      assert i > 0 ==> SameLinks(a[a[i].parent.value], b[a[i].parent.value]);
      forall t | t in b[i].children ensures ChildOk(b, i, t) {
        assert ChildOk(a, i, t) && SameLinks(a[a[i].children[t]], b[a[i].children[t]]);
      }
    }
  }

  /** A split gives the new node the prefix of c's path, and c and all others keep theirs. */
  lemma SplitKeeps(nodes: seq<Node>, paths: seq<Path>, c: nat, len: nat, now: int)
    requires Tree(nodes, paths) && 0 < c < |nodes| && 0 < len < |nodes[c].key|
    ensures nodes[c].parent.Some? && nodes[c].parent.value < |nodes|
    ensures Tree(Split(nodes, c, len, now), paths + [paths[nodes[c].parent.value] + nodes[c].key[..len]])
  {
    var p := Up(nodes, paths, c);
    var r, q, m := Split(nodes, c, len, now), paths + [paths[p] + nodes[c].key[..len]], |nodes|;
    assert p != c by { assert |paths[p]| < |paths[c]|; }
    assert nodes[c].key == nodes[c].key[..len] + nodes[c].key[len..];
    assert r[p].children == nodes[p].children[nodes[c].key[0] := m];
    assert paths[c] == (paths[p] + nodes[c].key[..len]) + nodes[c].key[len..];
    forall i | 0 <= i < |r| ensures Linked(r, q, i) {
      if i < m { SplitLinked(nodes, paths, c, len, now, i); }
      else { assert Linked(nodes, paths, p) && r[c].key[0] == nodes[c].key[len]; assert ParentOk(r, q, m); }
    }
  }

  lemma SplitLinked(nodes: seq<Node>, paths: seq<Path>, c: nat, len: nat, now: int, i: nat)
    requires Tree(nodes, paths) && 0 < c < |nodes| && 0 < len < |nodes[c].key| && i < |nodes|
    requires nodes[c].parent.Some? && nodes[c].parent.value < |nodes| && nodes[c].parent.value != c
    ensures Linked(Split(nodes, c, len, now), paths + [paths[nodes[c].parent.value] + nodes[c].key[..len]], i)
  {
    var p := Up(nodes, paths, c);
    var r, q, m := Split(nodes, c, len, now), paths + [paths[p] + nodes[c].key[..len]], |nodes|;
    assert nodes[c].key == nodes[c].key[..len] + nodes[c].key[len..];
    assert Linked(nodes, paths, i);
    forall t | t in r[i].children ensures ChildOk(r, i, t) {
      if i == p && t == nodes[c].key[0] {
      } else {
        var d := Down(nodes, paths, i, t);
        assert d != c;
      }
    }
    if i == c {
      assert ParentOk(r, q, c);
    } else if i > 0 {
      var u := Up(nodes, paths, i);
      assert ParentOk(r, q, i);
    }
  }

  lemma GrowKeeps(nodes: seq<Node>, paths: seq<Path>, p: nat, key: Path, numGpus: nat, now: int)
    requires Tree(nodes, paths) && p < |nodes| && key != [] && key[0] !in nodes[p].children
    ensures Tree(Grow(nodes, p, key, numGpus, now), paths + [paths[p] + key])
  {
    var r, q := Grow(nodes, p, key, numGpus, now), paths + [paths[p] + key];
    forall i | 0 <= i < |r| ensures Linked(r, q, i) {
      if i < |nodes| {
        assert Linked(nodes, paths, i);
        forall t | t in r[i].children ensures ChildOk(r, i, t) {
          if i == p && t == key[0] {
          } else {
            var d := Down(nodes, paths, i, t);
          }
        }
        if i > 0 {
          var u := Up(nodes, paths, i);
          assert ParentOk(r, q, i);
        }
      } else {
        assert Linked(nodes, paths, p);
        assert ParentOk(r, q, i);
      }
    }
  }
}
