/** The binary heap that Python's heapq keeps in a list, on sequences: the queues call it,
    and two facts about it matter to them, that the root is least and that the entries are
    conserved. */
module Heapq {
  import opened Requests

  type Heap = seq<Item>

  function Parent(i: nat): nat
    requires i > 0
  {
    (i - 1) / 2
  }

  /** No entry at or below `start` is less than its parent. */
  ghost predicate IsHeapFrom(h: Heap, start: nat) {
    forall i {:trigger Parent(i)} :: 0 < i < |h| && start <= Parent(i) ==> Le(h[Parent(i)], h[i])
  }

  ghost predicate IsHeap(h: Heap) { IsHeapFrom(h, 0) }

  function Swap(h: Heap, i: nat, j: nat): (r: Heap)
    requires i < |h| && j < |h|
    ensures |r| == |h|
  {
    h[i := h[j]][j := h[i]]
  }

  /** `_siftdown`: move the entry at pos towards start past larger parents. Every caller
      passes a descendant of start, so the parent is never above start. */
  function SiftDown(h: Heap, start: nat, pos: nat): (r: Heap)
    requires start <= pos < |h|
    ensures |r| == |h|
    decreases pos
  {
    if pos > start && start <= Parent(pos) && Less(h[pos], h[Parent(pos)])
    then SiftDown(Swap(h, pos, Parent(pos)), start, Parent(pos))
    else h
  }

  /** The smaller child of pos, the right one on a draw. */
  function SmallerChild(h: Heap, pos: nat): (c: nat)
    requires 2 * pos + 1 < |h|
    ensures pos < c < |h| && Parent(c) == pos
  {
    var c := 2 * pos + 1;
    if c + 1 < |h| && !Less(h[c], h[c + 1]) then c + 1 else c
  }

  /** The first half of `_siftup`: bubble smaller children up until pos is a leaf. */
  function ToLeaf(h: Heap, pos: nat): (r: (Heap, nat))
    requires pos < |h|
    ensures |r.0| == |h| && pos <= r.1 < |h|
    decreases |h| - pos
  {
    if 2 * pos + 1 < |h|
    then var c := SmallerChild(h, pos); ToLeaf(Swap(h, pos, c), c)
    else (h, pos)
  }

  function SiftUp(h: Heap, pos: nat): (r: Heap)
    requires pos < |h|
    ensures |r| == |h|
  {
    var (g, leaf) := ToLeaf(h, pos);
    SiftDown(g, pos, leaf)
  }

  function HeapPush(h: Heap, x: Item): (r: Heap)
    ensures |r| == |h| + 1
  {
    SiftDown(h + [x], 0, |h|)
  }

  /** What `heappop` leaves after returning h[0]. */
  function HeapPop(h: Heap): (r: Heap)
    requires h != []
    ensures |r| == |h| - 1
  {
    var last, rest := h[|h| - 1], h[..|h| - 1];
    if rest == [] then [] else SiftUp(rest[0 := last], 0)
  }

  /** `heapify`: sift up every inner position, last first. */
  function HeapifyFrom(h: Heap, k: nat): (r: Heap)
    requires k <= |h|
    ensures |r| == |h|
    decreases k
  {
    if k == 0 then h else HeapifyFrom(SiftUp(h, k - 1), k - 1)
  }

  function Heapify(h: Heap): (r: Heap)
    ensures |r| == |h|
  {
    HeapifyFrom(h, |h| / 2)
  }

  // ---------------------------------------------------------------- conservation

  lemma {:induction false} SiftDownSame(h: Heap, start: nat, pos: nat)
    requires start <= pos < |h|
    ensures multiset(SiftDown(h, start, pos)) == multiset(h)
    decreases pos
  {
    if pos > start && start <= Parent(pos) && Less(h[pos], h[Parent(pos)]) {
      SiftDownSame(Swap(h, pos, Parent(pos)), start, Parent(pos));
    }
  }

  lemma {:induction false} ToLeafSame(h: Heap, pos: nat)
    requires pos < |h|
    ensures multiset(ToLeaf(h, pos).0) == multiset(h)
    decreases |h| - pos
  {
    if 2 * pos + 1 < |h| {
      var c := SmallerChild(h, pos);
      ToLeafSame(Swap(h, pos, c), c);
    }
  }

  lemma SiftUpSame(h: Heap, pos: nat)
    requires pos < |h|
    ensures multiset(SiftUp(h, pos)) == multiset(h)
  {
    ToLeafSame(h, pos);
    SiftDownSame(ToLeaf(h, pos).0, pos, ToLeaf(h, pos).1);
  }

  lemma PushSame(h: Heap, x: Item)
    ensures multiset(HeapPush(h, x)) == multiset(h) + multiset{x}
  {
    SiftDownSame(h + [x], 0, |h|);
  }

  lemma PopSame(h: Heap)
    requires h != []
    ensures multiset(HeapPop(h)) == multiset(h) - multiset{h[0]}
  {
    var last, rest := h[|h| - 1], h[..|h| - 1];
    assert h == rest + [last];
    if rest != [] {
      assert rest == [rest[0]] + rest[1..];
      assert rest[0 := last] == [last] + rest[1..];
      SiftUpSame(rest[0 := last], 0);
    }
  }

  lemma {:induction false} HeapifyFromSame(h: Heap, k: nat)
    requires k <= |h|
    ensures multiset(HeapifyFrom(h, k)) == multiset(h)
    decreases k
  {
    if k > 0 {
      var g := SiftUp(h, k - 1);
      assert multiset(g) == multiset(h) by { SiftUpSame(h, k - 1); }
      HeapifyFromSame(g, k - 1);
    }
  }

  // ---------------------------------------------------------------- order

  /** A heap below start except that the entry at pos may be too small for its parent. */
  ghost predicate HeapButLow(h: Heap, start: nat, pos: nat) {
    && (forall i {:trigger Parent(i)} :: 0 < i < |h| && i != pos && start <= Parent(i) ==> Le(h[Parent(i)], h[i]))
    && (forall i {:trigger Parent(i)} :: 0 < i < |h| && Parent(i) == pos && pos > start && start <= Parent(pos) ==>
        Le(h[Parent(pos)], h[i]))
  }

  lemma SwapLow(h: Heap, start: nat, pos: nat)
    requires start < pos < |h| && start <= Parent(pos) && HeapButLow(h, start, pos)
    requires Less(h[pos], h[Parent(pos)])
    ensures HeapButLow(Swap(h, pos, Parent(pos)), start, Parent(pos))
  {
    var g, up := Swap(h, pos, Parent(pos)), Parent(pos);
    forall i | 0 < i < |g| && i != up && start <= Parent(i) ensures Le(g[Parent(i)], g[i]) {
      if Parent(i) == pos || Parent(i) == up { assert i != pos ==> Le(h[Parent(i)], h[i]); }
    }
    forall i | 0 < i < |g| && Parent(i) == up && up > start && start <= Parent(up) ensures Le(g[Parent(up)], g[i]) {
      assert Le(h[Parent(up)], h[up]);
      assert i != pos ==> Le(h[up], h[i]);
    }
  }

  lemma {:induction false} SiftDownHeap(h: Heap, start: nat, pos: nat)
    requires start <= pos < |h| && HeapButLow(h, start, pos)
    ensures IsHeapFrom(SiftDown(h, start, pos), start)
    ensures forall i :: 0 <= i < start ==> SiftDown(h, start, pos)[i] == h[i]
    decreases pos
  {
    if pos > start && start <= Parent(pos) && Less(h[pos], h[Parent(pos)]) {
      SwapLow(h, start, pos);
      SiftDownHeap(Swap(h, pos, Parent(pos)), start, Parent(pos));
    }
  }

  /** A heap below start except around pos: its own entry is out of place, but its children
      fit under its parent. */
  ghost predicate HeapButAt(h: Heap, start: nat, pos: nat) {
    && (forall i {:trigger Parent(i)} :: 0 < i < |h| && i != pos && start <= Parent(i) != pos ==>
        Le(h[Parent(i)], h[i]))
    && (forall i {:trigger Parent(i)} :: 0 < i < |h| && Parent(i) == pos && pos > start && start <= Parent(pos) ==>
        Le(h[Parent(pos)], h[i]))
  }

  lemma ChildSwap(h: Heap, start: nat, pos: nat)
    requires start <= pos && 2 * pos + 1 < |h| && HeapButAt(h, start, pos)
    ensures var c := SmallerChild(h, pos); HeapButAt(Swap(h, pos, c), start, c)
  {
    var c := SmallerChild(h, pos);
    assert forall d {:trigger Parent(d)} :: 0 < d < |h| && Parent(d) == pos ==> d == 2 * pos + 1 || d == 2 * pos + 2;
  }

  lemma {:induction false} ToLeafHeap(h: Heap, start: nat, pos: nat)
    requires start <= pos < |h| && HeapButAt(h, start, pos)
    ensures HeapButLow(ToLeaf(h, pos).0, start, ToLeaf(h, pos).1)
    ensures forall i :: 0 <= i < start ==> ToLeaf(h, pos).0[i] == h[i]
    decreases |h| - pos
  {
    if 2 * pos + 1 < |h| {
      var c := SmallerChild(h, pos);
      ChildSwap(h, start, pos);
      ToLeafHeap(Swap(h, pos, c), start, c);
    }
  }

  lemma SiftUpHeap(h: Heap, pos: nat)
    requires pos < |h| && IsHeapFrom(h, pos + 1)
    ensures IsHeapFrom(SiftUp(h, pos), pos)
    ensures forall i :: 0 <= i < pos ==> SiftUp(h, pos)[i] == h[i]
  {
    ToLeafHeap(h, pos, pos);
    var (g, leaf) := ToLeaf(h, pos);
    SiftDownHeap(g, pos, leaf);
  }

  lemma PushHeap(h: Heap, x: Item)
    requires IsHeap(h)
    ensures IsHeap(HeapPush(h, x))
  {
    SiftDownHeap(h + [x], 0, |h|);
  }

  lemma PopHeap(h: Heap)
    requires IsHeap(h) && h != []
    ensures IsHeap(HeapPop(h))
  {
    var last, rest := h[|h| - 1], h[..|h| - 1];
    if rest != [] { SiftUpHeap(rest[0 := last], 0); }
  }

  lemma {:induction false} HeapifyFromHeap(h: Heap, k: nat)
    requires k <= |h| && IsHeapFrom(h, k)
    ensures IsHeap(HeapifyFrom(h, k))
    decreases k
  {
    if k > 0 {
      var g := SiftUp(h, k - 1);
      assert IsHeapFrom(g, k - 1) by { SiftUpHeap(h, k - 1); }
      HeapifyFromHeap(g, k - 1);
    }
  }

  lemma HeapifyHeap(h: Heap)
    ensures IsHeap(Heapify(h)) && multiset(Heapify(h)) == multiset(h)
  {
    HeapifyFromSame(h, |h| / 2);
    HeapifyFromHeap(h, |h| / 2);
  }

  lemma {:induction false} RootLeast(h: Heap, i: nat)
    requires IsHeap(h) && i < |h|
    ensures Le(h[0], h[i])
  {
    if i > 0 { RootLeast(h, Parent(i)); }
  }
}
