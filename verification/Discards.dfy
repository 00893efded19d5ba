/** Which entries `discard_expired` may drop from the list without breaking the heap, whatever
    their priorities: the answer is a matter of positions alone. */
module Discards {
  import opened Common
  import opened Requests
  import opened Heapq
  import opened RequestQueue

  /** The positions in h that survive, counted from `at` on. */
  function Survivors(h: Heap, threshold: int, now: int, at: nat): (ps: seq<nat>)
    requires at <= |h|
    ensures forall i :: 0 <= i < |ps| ==> at <= ps[i] < |h|
    ensures forall i, j :: 0 <= i < j < |ps| ==> ps[i] < ps[j]
    decreases |h| - at
  {
    if at == |h| then []
    else (if now - h[at].arrived > threshold then [] else [at]) + Survivors(h, threshold, now, at + 1)
  }

  lemma {:induction false} SurvivorsKept(h: Heap, threshold: int, now: int, at: nat)
    requires at <= |h|
    ensures var ps, kept := Survivors(h, threshold, now, at), Kept(h[at..], threshold, now);
            |ps| == |kept| && forall i :: 0 <= i < |ps| ==> kept[i] == h[ps[i]]
    decreases |h| - at
  {
    if at < |h| {
      SurvivorsKept(h, threshold, now, at + 1);
      assert h[at..][1..] == h[at + 1..];
    }
  }

  /** a is b or lies above it in the heap. */
  predicate Above(a: nat, b: nat)
    decreases b
  {
    a == b || (b > 0 && Above(a, Parent(b)))
  }

  /** Every survivor moves below one it was below before. */
  ghost predicate KeepsOrder(ps: seq<nat>) {
    forall i {:trigger Parent(i)} :: 0 < i < |ps| ==> Above(ps[Parent(i)], ps[i])
  }

  lemma LeTransitive(a: Item, b: Item, c: Item)
    requires Le(a, b) && Le(b, c)
    ensures Le(a, c)
  {
  }

  lemma {:induction false} AboveLe(h: Heap, a: nat, b: nat)
    requires IsHeap(h) && b < |h| && Above(a, b)
    ensures a <= b && Le(h[a], h[b])
    decreases b
  {
    if a != b {
      AboveLe(h, a, Parent(b));
      LeTransitive(h[a], h[Parent(b)], h[b]);
    }
  }

  // ---------------------------------------------------------------- the worst heap

  function Prompt(n: nat): (p: seq<int>)
    ensures |p| == 2 * n + 2
  {
    seq(2 * n + 2, _ => 0)
  }

  /** The entry at position j of n: the higher up the longer its hit, and those above b longer
      than all others; it is old when it is to expire. */
  function EntryAt(n: nat, ps: seq<nat>, b: nat, j: nat): Item {
    var arrived := if j in ps then 2 * n + j else j;
    ItemFor(Request(j, Prompt(n), 2 * n + 2, arrived, 0), n - j + if Above(j, b) then n + 1 else 1)
  }

  /** A heap of n entries of which exactly those at ps survive, and in which whatever is above
      b comes before whatever is not. */
  function Worst(n: nat, ps: seq<nat>, b: nat): (h: Heap)
    ensures |h| == n
  {
    seq(n, j requires 0 <= j < n => EntryAt(n, ps, b, j))
  }

  lemma WorstIsHeap(n: nat, ps: seq<nat>, b: nat)
    ensures IsHeap(Worst(n, ps, b)) && RealEntries(Worst(n, ps, b))
  {
    var h := Worst(n, ps, b);
    forall i | 0 < i < |h| ensures Le(h[Parent(i)], h[i]) {
      assert Above(i, b) ==> Above(Parent(i), b) by { if Above(i, b) { ParentAbove(i, b); } }
    }
    forall it | it in h
      ensures it.arrived == it.req.arrived && Tokens(it) >= 0
      ensures it.req.numPrefill == |it.req.inputIds| && 0 < -it.neg < |it.req.inputIds|
    {
      var j :| 0 <= j < n && it == EntryAt(n, ps, b, j);
    }
  }

  lemma {:induction false} ParentAbove(i: nat, b: nat)
    requires i > 0 && Above(i, b)
    ensures Above(Parent(i), b)
    decreases b
  {
    if i != b { ParentAbove(i, Parent(b)); } else { assert Above(Parent(i), Parent(b)); }
  }

  ghost predicate Ascending(n: nat, ps: seq<nat>) {
    && (forall i :: 0 <= i < |ps| ==> ps[i] < n)
    && (forall i, j :: 0 <= i < j < |ps| ==> ps[i] < ps[j])
  }

  lemma WorstAt(n: nat, ps: seq<nat>, b: nat, j: nat)
    requires j < n
    ensures Worst(n, ps, b)[j].arrived == if j in ps then 2 * n + j else j
    ensures b < n && !Above(j, b) ==> Less(EntryAt(n, ps, b, b), Worst(n, ps, b)[j])
  {
  }

  lemma WorstSurvivors(n: nat, ps: seq<nat>, b: nat)
    requires Ascending(n, ps)
    ensures Survivors(Worst(n, ps, b), n, 2 * n, 0) == ps
  {
    hide Worst, EntryAt, Above, Ascending, Survivors;
    var h := Worst(n, ps, b);
    var qs := Survivors(h, n, 2 * n, 0);
    assert Ascending(n, qs) by { SurvivorsAscend(h, n, 2 * n); }
    forall j: nat ensures j in qs <==> j in ps {
      SurvivorsAre(h, n, 2 * n, 0, j);
      if j < n { WorstAt(n, ps, b, j); } else { Below(n, ps, j); }
    }
    SameAscending(n, qs, ps);
  }

  lemma SurvivorsAscend(h: Heap, threshold: int, now: int)
    ensures Ascending(|h|, Survivors(h, threshold, now, 0))
  {
  }

  lemma {:induction false} SurvivorsAre(h: Heap, threshold: int, now: int, at: nat, j: nat)
    requires at <= |h|
    ensures j in Survivors(h, threshold, now, at) <==> at <= j < |h| && now - h[j].arrived <= threshold
    decreases |h| - at
  {
    if at < |h| { SurvivorsAre(h, threshold, now, at + 1, j); }
  }

  lemma Below(n: nat, ps: seq<nat>, j: nat)
    requires Ascending(n, ps) && j >= n
    ensures j !in ps
  {
  }

  lemma {:induction false} SameAscending(n: nat, a: seq<nat>, b: seq<nat>)
    requires Ascending(n, a) && Ascending(n, b) && forall j: nat :: j in a <==> j in b
    ensures a == b
  {
    if a == [] {
      FirstIn(b);
    } else {
      var x := LastOf(n, a, b);
      var a', b' := a[..|a| - 1], b[..|b| - 1];
      assert a == a' + [x] && b == b' + [x];
      forall j: nat ensures j in a' <==> j in b' {
        assert j in a <==> j in a' || j == x;
        assert j in b <==> j in b' || j == x;
        assert x !in a' && x !in b';
      }
      SameAscending(n, a', b');
    }
  }

  lemma LastOf(n: nat, a: seq<nat>, b: seq<nat>) returns (x: nat)
    requires Ascending(n, a) && Ascending(n, b) && a != [] && forall j: nat :: j in a <==> j in b
    ensures b != [] && x == a[|a| - 1] == b[|b| - 1]
  {
    x := a[|a| - 1];
    assert x in b;
    var y := b[|b| - 1];
    assert y in a;
  }

  // ---------------------------------------------------------------- the exact condition

  /** The list stays a heap whenever it was one and exactly the entries at ps survive. */
  ghost predicate SafeToKeep(n: nat, ps: seq<nat>) {
    forall h, threshold, now :: |h| == n && IsHeap(h) && RealEntries(h) && Survivors(h, threshold, now, 0) == ps ==>
      IsHeap(Kept(h, threshold, now))
  }

  lemma KeptIsHeap(h: Heap, threshold: int, now: int)
    requires IsHeap(h) && KeepsOrder(Survivors(h, threshold, now, 0))
    ensures IsHeap(Kept(h, threshold, now))
  {
    var ps, kept := Survivors(h, threshold, now, 0), Kept(h, threshold, now);
    SurvivorsKept(h, threshold, now, 0);
    assert h[0..] == h;
    forall i | 0 < i < |kept| ensures Le(kept[Parent(i)], kept[i]) {
      assert Above(ps[Parent(i)], ps[i]);
      AboveLe(h, ps[Parent(i)], ps[i]);
    }
  }

  lemma Breaks(n: nat, ps: seq<nat>, i: nat)
    requires Ascending(n, ps) && 0 < i < |ps| && !Above(ps[Parent(i)], ps[i])
    ensures !SafeToKeep(n, ps)
  {
    hide Worst, EntryAt, Above, Survivors, Kept, RealEntries;
    var a, b := ps[Parent(i)], ps[i];
    var h := Worst(n, ps, b);
    WorstIsHeap(n, ps, b);
    WorstSurvivors(n, ps, b);
    SurvivorsKept(h, n, 2 * n, 0);
    assert h[0..] == h;
    var kept := Kept(h, n, 2 * n);
    WorstAt(n, ps, b, a);
    assert h[b] == EntryAt(n, ps, b, b) by { WorstSelf(n, ps, b); }
    assert kept[i] == h[b] && kept[Parent(i)] == h[a];
    assert !IsHeap(kept);
  }

  lemma WorstSelf(n: nat, ps: seq<nat>, b: nat)
    requires b < n
    ensures Worst(n, ps, b)[b] == EntryAt(n, ps, b, b)
  {
  }

  /** Dropping the entries that are not at ps keeps every heap of n real entries a heap exactly
      when every survivor ends up below one it was below before. */
  lemma DiscardExact(n: nat, ps: seq<nat>)
    requires Ascending(n, ps)
    ensures SafeToKeep(n, ps) <==> KeepsOrder(ps)
  {
    hide IsHeap, RealEntries, Survivors, Kept;
    if KeepsOrder(ps) {
      forall h, threshold, now | |h| == n && IsHeap(h) && RealEntries(h) && Survivors(h, threshold, now, 0) == ps
        ensures IsHeap(Kept(h, threshold, now))
      {
        KeptIsHeap(h, threshold, now);
      }
    } else {
      var i :| 0 < i < |ps| && !Above(ps[Parent(i)], ps[i]);
      Breaks(n, ps, i);
    }
  }
}
