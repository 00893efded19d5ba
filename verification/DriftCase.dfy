/** Two prompts after which the kept sum of shared tokens is short of the live entries. */
module DriftCase {
  import opened Common
  import opened RadixTree
  import opened WindowLog
  import opened Histogram

  function Empty(): seq<Node> { [Node(None, [], map[], [1], {}, {}, 0, 0)] }

  /** The tree after the prompt [1, 2, 3, 4], and while and after [1, 2, 5] splits its edge. */
  function First(): seq<Node> { Grow(Empty(), 0, [1, 2, 3, 4], 1, 0) }

  function Halved(): (nodes: seq<Node>)
    ensures |nodes| == 3 && nodes[2].children.Keys == {3} && |nodes[2].counts| == 1
  {
    Split(First(), 1, 2, 1)
  }

  function Second(): seq<Node> { Grow(Halved(), 2, [5], 1, 1) }

  function FirstPaths(): seq<Path> { [[], [1, 2, 3, 4]] }

  function SecondPaths(): seq<Path> { [[], [1, 2, 3, 4], [1, 2], [1, 2, 5]] }

  lemma FirstTree()
    ensures Tree(First(), FirstPaths())
  {
    assert Linked(Empty(), [[]], 0);
    GrowKeeps(Empty(), [[]], 0, [1, 2, 3, 4], 1, 0);
    assert [] + [1, 2, 3, 4] == [1, 2, 3, 4];
  }

  lemma SplitTree()
    ensures Tree(Halved(), FirstPaths() + [[1, 2]])
  {
    FirstTree();
    SplitKeeps(First(), FirstPaths(), 1, 2, 1);
    assert [] + [1, 2, 3, 4][..2] == [1, 2];
  }

  lemma Trees()
    ensures Tree(First(), FirstPaths()) && Tree(Second(), SecondPaths())
  {
    hide Tree;
    FirstTree();
    SplitTree();
    GrowKeeps(Halved(), FirstPaths() + [[1, 2]], 2, [5], 1, 1);
    assert [1, 2] + [5] == [1, 2, 5];
    assert FirstPaths() + [[1, 2]] + [[1, 2, 5]] == SecondPaths();
  }

  /** Two requests, both logged under the node of [1, 2], which took the first one's entry over
      when it was split off. The sum is 2 when the first expires and 0 afterwards, but the live
      request shares 2 tokens: the sum is short by the 2 tokens the split took. */
  lemma ShareDrifts()
    ensures Tree(First(), FirstPaths()) && Tree(Second(), SecondPaths())
    ensures var log, added := [Entry(0, 2, 1), Entry(9, 2, 3)], [|First()[1].key|, |Second()[3].key|];
            var leaf := Second()[1];
            && ShareTokens(log, added, Lens(Second()), 2) - (leaf.contextLength - |leaf.key|) == 0
            && ShareTokens(log[1..], added[1..], Lens(Second()), 2) == 2
  {
    Trees();
    assert Lens(Second()) == [0, 4, 2, 3];
    var e, f := Entry(0, 2, 1), Entry(9, 2, 3);
    assert ShareTokens([f][1..], [1][1..], Lens(Second()), 2) == 0;
    assert ShareTokens([f], [1], Lens(Second()), 2) == 2;
    assert [e, f][1..] == [f] && [4, 1][1..] == [1];
  }
}
