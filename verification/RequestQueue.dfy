/** The global queues: one heap of waiting requests per replica with two running token
    counters. First the value-level operations and what they mean, then the class. */
module RequestQueue {
  import opened Common
  import opened Requests
  import opened Heapq

  datatype Queues = Queues(heaps: seq<Heap>, actual: seq<int>, inputs: seq<int>)

  predicate Shape(q: Queues, n: nat) { |q.heaps| == |q.actual| == |q.inputs| == n }

  ghost predicate Counted(h: Heap, tokens: int, inputs: int) {
    IsHeap(h) && tokens == SumTokens(h) && inputs == SumInputs(h)
  }

  /** Every list is a heap and both counters equal a recount. */
  ghost predicate WellFormed(q: Queues, n: nat) {
    && Shape(q, n)
    && forall r :: 0 <= r < n ==> Counted(q.heaps[r], q.actual[r], q.inputs[r])
  }

  function Update(q: Queues, r: nat, h: Heap, tokens: int, inputs: int): (u: Queues)
    requires r < |q.heaps| && Shape(q, |q.heaps|)
    ensures Shape(u, |q.heaps|)
  {
    Queues(q.heaps[r := h], q.actual[r := q.actual[r] + tokens], q.inputs[r := q.inputs[r] + inputs])
  }

  function Push(q: Queues, r: nat, req: Request, hit: int): (u: Queues)
    requires r < |q.heaps| && Shape(q, |q.heaps|)
    ensures Shape(u, |q.heaps|)
  {
    var it := ItemFor(req, hit);
    Update(q, r, HeapPush(q.heaps[r], it), Tokens(it), InputLen(it))
  }

  /** The queues without their least entry at r. */
  function Popped(q: Queues, r: nat): (u: Queues)
    requires r < |q.heaps| && Shape(q, |q.heaps|) && q.heaps[r] != []
    ensures Shape(u, |q.heaps|)
  {
    var it := q.heaps[r][0];
    Update(q, r, HeapPop(q.heaps[r]), -Tokens(it), -InputLen(it))
  }

  /** Position of the first entry of req, or |h|. */
  function Find(h: Heap, req: Request): (i: nat)
    ensures i <= |h| && (i < |h| ==> h[i].req == req) && forall j :: 0 <= j < i ==> h[j].req != req
  {
    if h == [] || h[0].req == req then 0 else 1 + Find(h[1..], req)
  }

  predicate Has(h: Heap, req: Request) { exists i :: 0 <= i < |h| && h[i].req == req }

  function DelReq(q: Queues, r: nat, req: Request): (u: Queues)
    requires r < |q.heaps| && Shape(q, |q.heaps|)
    ensures Shape(u, |q.heaps|)
  {
    var h := q.heaps[r];
    var i := Find(h, req);
    if i == |h| then q
    else Update(q, r, Heapify(h[..i] + h[i + 1..]), -Tokens(h[i]), -InputLen(h[i]))
  }

  /** The entries in the order repeated pops serve them. */
  function Drain(h: Heap): (d: seq<Item>)
    ensures |d| == |h|
    decreases |h|
  {
    if h == [] then [] else [h[0]] + Drain(HeapPop(h))
  }

  /** How many entries of the service order d one pass takes, `pops` pops into it. */
  function TakeCount(d: seq<Item>, budget: int, max: Option<int>, pops: nat): (k: nat)
    ensures k <= |d|
  {
    if d == [] || (max.Some? && pops >= max.value) then 0
    else if budget - Tokens(d[0]) <= 0 then 1
    else 1 + TakeCount(d[1..], budget - Tokens(d[0]), max, pops + 1)
  }

  /** `pop_schedulable`: the entries taken and the queues left. */
  function PopSchedulable(q: Queues, r: nat, budget: int, max: Option<int>): (p: (seq<Item>, Queues))
    requires r < |q.heaps| && Shape(q, |q.heaps|)
    ensures Shape(p.1, |q.heaps|)
  {
    var h := q.heaps[r];
    var k := TakeCount(Drain(h), budget, max, 0);
    (Drain(h)[..k], PoppedMany(q, r, k))
  }

  /** The queues after k pops at r. */
  function PoppedMany(q: Queues, r: nat, k: nat): (u: Queues)
    requires r < |q.heaps| && Shape(q, |q.heaps|) && k <= |q.heaps[r]|
    ensures Shape(u, |q.heaps|) && |u.heaps[r]| == |q.heaps[r]| - k
  {
    if k == 0 then q else Popped(PoppedMany(q, r, k - 1), r)
  }

  lemma WellFormedShape(q: Queues, n: nat)
    requires WellFormed(q, n)
    ensures Shape(q, n)
  {
  }

  // ---------------------------------------------------------------- counters and heap order

  lemma UpdateKeeps(q: Queues, n: nat, r: nat, h: Heap, tokens: int, inputs: int)
    requires WellFormed(q, n) && r < n && IsHeap(h)
    requires SumTokens(h) == SumTokens(q.heaps[r]) + tokens && SumInputs(h) == SumInputs(q.heaps[r]) + inputs
    ensures WellFormed(Update(q, r, h, tokens, inputs), n)
  {
    assert Counted(q.heaps[r], q.actual[r], q.inputs[r]);
    assert Counted(h, q.actual[r] + tokens, q.inputs[r] + inputs);
  }

  lemma PushSums(h: Heap, it: Item, x: Item)
    ensures SumTokens(HeapPush(h, it)) == SumTokens(h) + Tokens(it)
    ensures SumInputs(HeapPush(h, it)) == SumInputs(h) + InputLen(it)
  {
    PushSame(h, it);
    SumsAppend(h, [it], x);
    SumsPermuted(h + [it], HeapPush(h, it), x);
  }

  lemma PushKeeps(q: Queues, n: nat, r: nat, req: Request, hit: int)
    requires WellFormed(q, n) && r < n
    ensures WellFormed(Push(q, r, req, hit), n)
  {
    hide HeapPush;
    var it := ItemFor(req, hit);
    PushHeap(q.heaps[r], it);
    PushSums(q.heaps[r], it, it);
    UpdateKeeps(q, n, r, HeapPush(q.heaps[r], it), Tokens(it), InputLen(it));
  }

  lemma PopSums(h: Heap, x: Item)
    requires h != []
    ensures var rest := HeapPop(h);
            && SumTokens(h) == Tokens(h[0]) + SumTokens(rest) && SumInputs(h) == InputLen(h[0]) + SumInputs(rest)
            && TokensBefore(h, x) == (if Less(h[0], x) then Tokens(h[0]) else 0) + TokensBefore(rest, x)
  {
    hide HeapPop;
    var rest := HeapPop(h);
    PopSame(h);
    assert h == [h[0]] + h[1..];
    assert multiset(h[1..]) == multiset(rest);
    SumsPermuted(h[1..], rest, x);
  }

  lemma PoppedKeeps(q: Queues, n: nat, r: nat)
    requires WellFormed(q, n) && r < n && q.heaps[r] != []
    ensures WellFormed(Popped(q, r), n)
  {
    hide HeapPop;
    var it := q.heaps[r][0];
    PopHeap(q.heaps[r]);
    PopSums(q.heaps[r], it);
    UpdateKeeps(q, n, r, HeapPop(q.heaps[r]), -Tokens(it), -InputLen(it));
  }

  lemma DelSums(h: Heap, i: nat)
    requires i < |h|
    ensures var g := Heapify(h[..i] + h[i + 1..]);
            && IsHeap(g) && multiset(g) == multiset(h) - multiset{h[i]}
            && SumTokens(g) == SumTokens(h) - Tokens(h[i]) && SumInputs(g) == SumInputs(h) - InputLen(h[i])
  {
    var rest := h[..i] + h[i + 1..];
    SumsRemove(h, i, h[i]);
    MultisetRemove(h, i);
    HeapifySums(rest, h[i]);
  }

  lemma HeapifySums(h: Heap, x: Item)
    ensures IsHeap(Heapify(h)) && multiset(Heapify(h)) == multiset(h)
    ensures SumTokens(Heapify(h)) == SumTokens(h) && SumInputs(Heapify(h)) == SumInputs(h)
  {
    HeapifyHeap(h);
    SumsPermuted(h, Heapify(h), x);
  }

  lemma DelReqKeeps(q: Queues, n: nat, r: nat, req: Request)
    requires WellFormed(q, n) && r < n
    ensures WellFormed(DelReq(q, r, req), n)
  {
    hide Heapify;
    var h, i := q.heaps[r], Find(q.heaps[r], req);
    if i < |h| {
      DelSums(h, i);
      UpdateKeeps(q, n, r, Heapify(h[..i] + h[i + 1..]), -Tokens(h[i]), -InputLen(h[i]));
    }
  }

  lemma {:induction false} PoppedManyKeeps(q: Queues, n: nat, r: nat, k: nat)
    requires WellFormed(q, n) && r < n && k <= |q.heaps[r]|
    ensures WellFormed(PoppedMany(q, r, k), n)
  {
    hide Popped;
    if k > 0 {
      PoppedManyKeeps(q, n, r, k - 1);
      PoppedKeeps(PoppedMany(q, r, k - 1), n, r);
    }
  }

  lemma {:induction false} PoppedManyDrain(q: Queues, r: nat, k: nat)
    requires r < |q.heaps| && Shape(q, |q.heaps|) && k <= |q.heaps[r]|
    ensures Drain(PoppedMany(q, r, k).heaps[r]) == Drain(q.heaps[r])[k..]
    ensures forall s :: 0 <= s < |q.heaps| && s != r ==> PoppedMany(q, r, k).heaps[s] == q.heaps[s]
  {
    hide HeapPop;
    if k > 0 {
      var u := PoppedMany(q, r, k - 1);
      PoppedManyDrain(q, r, k - 1);
      assert Drain(u.heaps[r]) == [u.heaps[r][0]] + Drain(Popped(u, r).heaps[r]);
    }
  }

  // ---------------------------------------------------------------- service order

  lemma {:induction false} DrainSame(h: Heap)
    ensures multiset(Drain(h)) == multiset(h)
    decreases |h|
  {
    hide HeapPop;
    if h != [] {
      PopSame(h);
      DrainSame(HeapPop(h));
    }
  }

  ghost predicate Sorted(s: seq<Item>) { forall i, j :: 0 <= i < j < |s| ==> Le(s[i], s[j]) }

  lemma SortedCons(x: Item, s: seq<Item>)
    requires Sorted(s) && forall j :: 0 <= j < |s| ==> Le(x, s[j])
    ensures Sorted([x] + s)
  {
  }

  lemma RootBelow(h: Heap, s: seq<Item>)
    requires IsHeap(h) && multiset(s) <= multiset(h)
    ensures forall j :: 0 <= j < |s| ==> Le(h[0], s[j])
  {
    forall j | 0 <= j < |s| ensures Le(h[0], s[j]) {
      assert s[j] in multiset(s);
      var i := PositionOf(h, s[j]);
      RootLeast(h, i);
    }
  }

  /** Pops come in priority order. */
  lemma {:induction false} DrainSorted(h: Heap)
    requires IsHeap(h)
    ensures Sorted(Drain(h))
    decreases |h|
  {
    hide HeapPop;
    if h != [] {
      var rest := HeapPop(h);
      assert IsHeap(rest) by { PopHeap(h); }
      DrainSorted(rest);
      assert forall j :: 0 <= j < |rest| ==> Le(h[0], Drain(rest)[j]) by {
        PopSame(h);
        DrainSame(rest);
        RootBelow(h, Drain(rest));
      }
      SortedCons(h[0], Drain(rest));
    }
  }

  /** After j pops the pass goes on: the queue is not empty, the cap is not reached and the
      budget is not used up. */
  ghost predicate GoesOn(d: seq<Item>, j: nat, budget: int, max: Option<int>, pops: nat) {
    && j < |d|
    && (max.Some? ==> pops + j < max.value)
    && (j > 0 ==> SumTokens(d[..j]) < budget)
  }

  ghost predicate StopsAt(d: seq<Item>, k: nat, budget: int, max: Option<int>, pops: nat) {
    k <= |d| && !GoesOn(d, k, budget, max, pops) && forall j :: 0 <= j < k ==> GoesOn(d, j, budget, max, pops)
  }

  lemma GoesOnCons(it: Item, d: seq<Item>, j: nat, budget: int, max: Option<int>, pops: nat)
    requires budget - Tokens(it) > 0
    ensures GoesOn([it] + d, j + 1, budget, max, pops) <==> GoesOn(d, j, budget - Tokens(it), max, pops + 1)
  {
    if j <= |d| {
      assert ([it] + d)[..j + 1] == [it] + d[..j];
      assert ([it] + d[..j])[1..] == d[..j];
      assert j == 0 ==> d[..j] == [];
      assert SumTokens([it] + d[..j]) == Tokens(it) + SumTokens(d[..j]);
    }
  }

  lemma StopsAtCons(it: Item, d: seq<Item>, m: nat, budget: int, max: Option<int>, pops: nat)
    requires max.Some? ==> pops < max.value
    requires budget - Tokens(it) > 0 && StopsAt(d, m, budget - Tokens(it), max, pops + 1)
    ensures StopsAt([it] + d, m + 1, budget, max, pops)
  {
    GoesOnCons(it, d, m, budget, max, pops);
    forall j | 0 <= j < m + 1 ensures GoesOn([it] + d, j, budget, max, pops) {
      if j > 0 { GoesOnCons(it, d, j - 1, budget, max, pops); }
    }
  }

  lemma StopsAtFirst(it: Item, d: seq<Item>, budget: int, max: Option<int>, pops: nat)
    requires max.Some? ==> pops < max.value
    requires budget - Tokens(it) <= 0
    ensures StopsAt([it] + d, 1, budget, max, pops)
  {
    assert ([it] + d)[..1] == [it];
    assert SumTokens([it]) == Tokens(it);
  }

  lemma {:induction false} TakeCountStops(d: seq<Item>, budget: int, max: Option<int>, pops: nat)
    ensures StopsAt(d, TakeCount(d, budget, max, pops), budget, max, pops)
  {
    if d != [] && !(max.Some? && pops >= max.value) {
      assert d == [d[0]] + d[1..];
      if budget - Tokens(d[0]) <= 0 {
        StopsAtFirst(d[0], d[1..], budget, max, pops);
      } else {
        TakeCountStops(d[1..], budget - Tokens(d[0]), max, pops + 1);
        StopsAtCons(d[0], d[1..], TakeCount(d[1..], budget - Tokens(d[0]), max, pops + 1), budget, max, pops);
      }
    }
  }

  /** The entries taken are the first k in service order, and what is left keeps its order,
      for the one k at which a pass may stop. */
  lemma PassMeaning(q: Queues, r: nat, budget: int, max: Option<int>, k: nat)
    requires r < |q.heaps| && Shape(q, |q.heaps|) && StopsAt(Drain(q.heaps[r]), k, budget, max, 0)
    ensures var (taken, u) := PopSchedulable(q, r, budget, max);
            taken == Drain(q.heaps[r])[..k] && Drain(u.heaps[r]) == Drain(q.heaps[r])[k..]
  {
    var d := Drain(q.heaps[r]);
    TakeCountStops(d, budget, max, 0);
    StopsAtOnce(d, k, TakeCount(d, budget, max, 0), budget, max, 0);
    PoppedManyDrain(q, r, k);
  }

  lemma StopsAtOnce(d: seq<Item>, j: nat, k: nat, budget: int, max: Option<int>, pops: nat)
    requires StopsAt(d, j, budget, max, pops) && StopsAt(d, k, budget, max, pops)
    ensures j == k
  {
    assert !GoesOn(d, j, budget, max, pops) && !GoesOn(d, k, budget, max, pops);
  }

  // ---------------------------------------------------------------- predicted waits

  /** No two entries compare equal, which Python's tuple comparison needs. */
  ghost predicate NoTies(s: seq<Item>, x: Item) {
    forall i :: 0 <= i < |s| ==> Less(s[i], x) || Less(x, s[i])
  }

  /** The tokens popped before req comes up. */
  function AheadInDrain(d: seq<Item>, req: Request): int {
    if d == [] || d[0].req == req then 0 else Tokens(d[0]) + AheadInDrain(d[1..], req)
  }

  function Insert(x: Item, s: seq<Item>): seq<Item> {
    if s == [] || Less(x, s[0]) then [x] + s else [s[0]] + Insert(x, s[1..])
  }

  /** sorted() */
  function Sort(s: seq<Item>): seq<Item> {
    if s == [] then [] else Insert(s[|s| - 1], Sort(s[..|s| - 1]))
  }

  /** `get_max_waiting_delay`: the age of the oldest entry, 0 for an empty queue. */
  function MaxDelay(h: Heap, now: int): int { if h == [] then 0 else now - MinArrived(h) }

  function MinArrived(h: Heap): (m: int)
    requires h != []
    ensures forall i :: 0 <= i < |h| ==> m <= h[i].arrived
  {
    if |h| == 1 then h[0].arrived
    else var m := MinArrived(h[1..]); if h[0].arrived <= m then h[0].arrived else m
  }

  /** The oldest entry has waited `delay`; in an empty list nothing has waited. */
  ghost predicate IsOldest(h: Heap, now: int, delay: int) {
    if h == [] then delay == 0
    else
      && (forall i :: 0 <= i < |h| ==> now - h[i].arrived <= delay)
      && (exists i :: 0 <= i < |h| && now - h[i].arrived == delay)
  }

  lemma {:induction false} MinIsThere(h: Heap)
    requires h != []
    ensures exists i :: 0 <= i < |h| && h[i].arrived == MinArrived(h)
  {
    assert h[0].arrived == MinArrived(h) || |h| > 1;
    if |h| > 1 {
      MinIsThere(h[1..]);
      var i :| 0 <= i < |h[1..]| && h[1..][i].arrived == MinArrived(h[1..]);
      assert h[i + 1].arrived == MinArrived(h[1..]);
      assert h[0].arrived == MinArrived(h) || h[i + 1].arrived == MinArrived(h);
    }
  }

  /** The maximal waiting delay is the age of the oldest entry. */
  lemma DelayIs(h: Heap, now: int)
    ensures IsOldest(h, now, MaxDelay(h, now))
  {
    if h != [] {
      MinIsThere(h);
      var i :| 0 <= i < |h| && h[i].arrived == MinArrived(h);
      assert now - h[i].arrived == MaxDelay(h, now);
    }
  }

  /** The entries `discard_expired` keeps, in list order. */
  function Kept(h: seq<Item>, threshold: int, now: int): seq<Item> {
    if h == [] then []
    else (if now - h[0].arrived > threshold then [] else [h[0]]) + Kept(h[1..], threshold, now)
  }

  function Expired(h: seq<Item>, threshold: int, now: int): seq<Item> {
    if h == [] then []
    else (if now - h[0].arrived > threshold then [h[0]] else []) + Expired(h[1..], threshold, now)
  }

  /** Exactly the entries older than the threshold expire. */
  lemma {:induction false} ExpiredIs(h: seq<Item>, threshold: int, now: int)
    ensures multiset(Kept(h, threshold, now)) + multiset(Expired(h, threshold, now)) == multiset(h)
    ensures forall it :: it in Kept(h, threshold, now) ==> now - it.arrived <= threshold
    ensures forall it :: it in Expired(h, threshold, now) ==> now - it.arrived > threshold
  {
    if h != [] {
      ExpiredIs(h[1..], threshold, now);
      assert h == [h[0]] + h[1..];
    }
  }

  /** Entries carry their request's arrival time and count no negative number of tokens. */
  ghost predicate CleanList(h: Heap) {
    forall it :: it in h ==> it.arrived == it.req.arrived && Tokens(it) >= 0
  }

  /** Entries as `push` makes them: the prompt is all prefill, and a hit leaves at least one
      token of it to compute. */
  ghost predicate RealEntries(h: Heap) {
    CleanList(h) && forall it :: it in h ==>
        it.req.numPrefill == |it.req.inputIds| && (it.neg == 0 || 0 < -it.neg < |it.req.inputIds|)
  }

  /** A request with a prompt of 9 tokens. */
  function Nine(id: nat, arrived: int): Request { Request(id, [1, 2, 3, 4, 5, 6, 7, 8, 9], 9, arrived, 0) }

  /** `discard_expired` can break the heap: dropping the root of a valid three-entry heap
      leaves a larger entry in front of a smaller one. */
  lemma DiscardBreaksHeap()
    ensures exists h, threshold, now :: IsHeap(h) && RealEntries(h) && !IsHeap(Kept(h, threshold, now))
  {
    var a, b, c := ItemFor(Nine(0, 0), 8), ItemFor(Nine(1, 10), 1), ItemFor(Nine(2, 11), 5);
    var h := [a, b, c];
    assert h[1..] == [b, c] && [b, c][1..] == [c];
    assert Kept([c], 5, 12) == [c];
    assert Kept([b, c], 5, 12) == [b, c];
    assert Parent(1) == 0 && !Le([b, c][0], [b, c][1]);
    assert IsHeap(h) && RealEntries(h) && !IsHeap(Kept(h, 5, 12));
  }

  /** The expired entries are the last ones of the list. */
  ghost predicate ExpiredLast(h: Heap, threshold: int, now: int) {
    forall i, j :: 0 <= i < j < |h| && now - h[i].arrived > threshold ==> now - h[j].arrived > threshold
  }

  lemma {:induction false} KeptPrefix(h: Heap, threshold: int, now: int)
    requires ExpiredLast(h, threshold, now)
    ensures Kept(h, threshold, now) <= h
  {
    if h != [] {
      var t := h[1..];
      assert ExpiredLast(t, threshold, now) by {
        assert forall i :: 0 <= i < |t| ==> t[i] == h[i + 1];
      }
      KeptPrefix(t, threshold, now);
      assert h == [h[0]] + t;
      if now - h[0].arrived > threshold {
        NoneKept(t, threshold, now);
      }
    }
  }

  lemma {:induction false} NoneKept(h: Heap, threshold: int, now: int)
    requires forall i :: 0 <= i < |h| ==> now - h[i].arrived > threshold
    ensures Kept(h, threshold, now) == []
  {
    if h != [] { NoneKept(h[1..], threshold, now); }
  }

  /** It keeps the heap when the expired entries are the last of the list, as when none or all
      expire, and whenever the list is in service order. */
  lemma DiscardKeepsHeap(h: Heap, threshold: int, now: int)
    ensures IsHeap(h) && ExpiredLast(h, threshold, now) ==> IsHeap(Kept(h, threshold, now))
    ensures Sorted(h) ==> IsHeap(Kept(h, threshold, now))
  {
    if ExpiredLast(h, threshold, now) { KeptPrefix(h, threshold, now); }
    if Sorted(h) { KeptSorted(h, threshold, now); }
  }

  lemma {:induction false} KeptSorted(h: Heap, threshold: int, now: int)
    requires Sorted(h)
    ensures Sorted(Kept(h, threshold, now)) && forall it :: it in Kept(h, threshold, now) ==> it in h
  {
    if h != [] {
      KeptSorted(h[1..], threshold, now);
      assert h == [h[0]] + h[1..];
      var rest := Kept(h[1..], threshold, now);
      forall j | 0 <= j < |rest| ensures Le(h[0], rest[j]) {
        assert rest[j] in h[1..];
        var i :| 0 <= i < |h[1..]| && h[1..][i] == rest[j];
        assert h[i + 1] == rest[j];
      }
      SortedCons(h[0], rest);
    }
  }

  function Reqs(s: seq<Item>): (r: seq<Request>)
    ensures |r| == |s| && forall i :: 0 <= i < |s| ==> r[i] == s[i].req
  {
    if s == [] then [] else [s[0].req] + Reqs(s[1..])
  }

  /** `get_num_global_actual_waiting_tokens` */
  function Predict(h: Heap, req: Request, hit: int): int {
    AheadInDrain(Sort(h + [ItemFor(req, hit)]), req)
  }

  lemma {:induction false} InsertSame(x: Item, s: seq<Item>)
    ensures multiset(Insert(x, s)) == multiset(s) + multiset{x}
    decreases |s|
  {
    if s != [] && !Less(x, s[0]) {
      InsertSame(x, s[1..]);
      assert s == [s[0]] + s[1..];
    }
  }

  lemma {:induction false} InsertSorted(x: Item, s: seq<Item>)
    requires Sorted(s)
    ensures Sorted(Insert(x, s))
    decreases |s|
  {
    if s != [] && !Less(x, s[0]) {
      var t := Insert(x, s[1..]);
      InsertSorted(x, s[1..]);
      InsertSame(x, s[1..]);
      forall j | 0 <= j < |t| ensures Le(s[0], t[j]) {
        assert t[j] in multiset(t);
        if t[j] != x { var i := PositionOf(s[1..], t[j]); }
      }
      SortedCons(s[0], t);
    }
  }

  lemma {:induction false} SortFacts(s: seq<Item>)
    ensures Sorted(Sort(s)) && multiset(Sort(s)) == multiset(s)
  {
    if s != [] {
      SortFacts(s[..|s| - 1]);
      InsertSorted(s[|s| - 1], Sort(s[..|s| - 1]));
      InsertSame(s[|s| - 1], Sort(s[..|s| - 1]));
      assert s == s[..|s| - 1] + [s[|s| - 1]];
    }
  }

  lemma {:induction false} NothingBefore(s: seq<Item>, x: Item)
    requires forall i :: 0 <= i < |s| ==> Le(x, s[i])
    ensures TokensBefore(s, x) == 0
  {
    if s != [] { NothingBefore(s[1..], x); }
  }

  lemma AheadOfNewcomer(h: Heap, x: Item, d: seq<Item>)
    requires !Has(h, x.req) && NoTies(h, x)
    requires Sorted(d) && multiset(d) == multiset(h + [x])
    ensures AheadInDrain(d, x.req) == TokensBefore(h, x)
  {
    assert x in multiset(h + [x]) by { assert (h + [x])[|h|] == x; }
    forall i | 0 <= i < |d|
      ensures d[i].req == x.req <==> d[i] == x
      ensures d[i] != x ==> Less(d[i], x) || Less(x, d[i])
    {
      assert d[i] in multiset(d);
      var k := PositionOf(h + [x], d[i]);
    }
    assert x in multiset(d);
    AheadOfLeast(d, x);
    SumsPermuted(d, h + [x], x);
    SumsAppend(h, [x], x);
    NothingBefore([x], x);
  }

  /** The predicted wait is the real wait: the sorted-list simulation returns exactly the
      tokens that repeated pops serve ahead of the request once it is pushed. */
  lemma PredictedIsReal(h: Heap, req: Request, hit: int)
    requires IsHeap(h) && !Has(h, req) && NoTies(h, ItemFor(req, hit))
    ensures Predict(h, req, hit) == AheadInDrain(Drain(HeapPush(h, ItemFor(req, hit))), req)
    ensures Predict(h, req, hit) == TokensBefore(h, ItemFor(req, hit))
  {
    hide Sort, HeapPop, HeapPush;
    var x := ItemFor(req, hit);
    PushHeap(h, x);
    PushSame(h, x);
    DrainSorted(HeapPush(h, x));
    DrainSame(HeapPush(h, x));
    SortFacts(h + [x]);
    assert multiset(h + [x]) == multiset(h) + multiset{x};
    AheadOfNewcomer(h, x, Drain(HeapPush(h, x)));
    AheadOfNewcomer(h, x, Sort(h + [x]));
  }

  /** The same simulation for a request already queued as e: the walk stops at the first of
      its two entries. */
  lemma PredictedQueued(h: Heap, e: Item, hit: int)
    requires IsHeap(h) && e in h && e.arrived == e.req.arrived
    requires forall i :: 0 <= i < |h| && h[i] != e ==> h[i].req != e.req
    requires forall i :: 0 <= i < |h| && h[i] != e ==> h[i].arrived != e.arrived
    ensures AheadInDrain(Drain(h), e.req) == TokensBefore(h, e)
    ensures var x := ItemFor(e.req, hit);
            Predict(h, e.req, hit) == TokensBefore(h, if Less(x, e) then x else e)
  {
    hide Sort, HeapPop;
    var x := ItemFor(e.req, hit);
    assert AheadInDrain(Drain(h), e.req) == TokensBefore(h, e) by {
      DrainSorted(h);
      DrainSame(h);
      AheadSame(Drain(h), h, e, e);
    }
    PredictQueued(h, e, x);
  }

  /** Some entry with tokens to serve is ahead of e, but would not be ahead of x. */
  ghost predicate Overtaken(h: Heap, e: Item, x: Item) {
    exists f :: f in h && Less(f, e) && !Less(f, x) && Tokens(f) > 0
  }

  lemma {:induction false} BeforeLess(h: seq<Item>, x: Item, e: Item)
    requires CleanList(h) && Less(x, e)
    ensures TokensBefore(h, x) <= TokensBefore(h, e)
    ensures TokensBefore(h, x) == TokensBefore(h, e) <==> !Overtaken(h, e, x)
  {
    if h != [] {
      var t := h[1..];
      assert h == [h[0]] + t;
      assert h[0] in h && forall f :: f in h <==> f == h[0] || f in t;
      BeforeLess(t, x, e);
      assert Overtaken(h, e, x) <==> Overtaken(t, e, x) || (Less(h[0], e) && !Less(h[0], x) && Tokens(h[0]) > 0);
    }
  }

  /** For a request already queued the simulated wait is never above the real one, and equals
      it exactly when the hit length it is asked for would not overtake any entry with tokens
      that is now ahead of the request. */
  lemma PredictedExact(h: Heap, e: Item, hit: int)
    requires IsHeap(h) && CleanList(h) && e in h
    requires forall i :: 0 <= i < |h| && h[i] != e ==> h[i].req != e.req
    requires forall i :: 0 <= i < |h| && h[i] != e ==> h[i].arrived != e.arrived
    ensures Predict(h, e.req, hit) <= AheadInDrain(Drain(h), e.req)
    ensures Predict(h, e.req, hit) == AheadInDrain(Drain(h), e.req) <==> !Overtaken(h, e, ItemFor(e.req, hit))
  {
    hide Predict, Drain;
    var x := ItemFor(e.req, hit);
    PredictedQueued(h, e, hit);
    if Less(x, e) { BeforeLess(h, x, e); }
  }

  /** It can be below: the request's cache hit has grown from 1 to 8 tokens since it was
      queued, and the simulation serves it first while the queue still serves it second. */
  lemma PredictedLow()
    ensures exists h: Heap, e: Item, hit: int ::
              && IsHeap(h) && RealEntries(h) && e in h && hit < |e.req.inputIds|
              && Predict(h, e.req, hit) < AheadInDrain(Drain(h), e.req)
  {
    hide Predict, Drain;
    var f, e := ItemFor(Nine(0, 0), 5), ItemFor(Nine(1, 1), 1);
    var h, x := [f, e], ItemFor(Nine(1, 1), 8);
    assert IsHeap(h) && RealEntries(h) && h[0] == f && h[1] == e;
    assert f in h && Less(f, e) && !Less(f, x) && Tokens(f) > 0;
    assert Overtaken(h, e, x);
    PredictedExact(h, e, 8);
    assert Predict(h, e.req, 8) < AheadInDrain(Drain(h), e.req);
  }

  lemma PredictQueued(h: seq<Item>, e: Item, x: Item)
    requires e in h && e.arrived == e.req.arrived && x == ItemFor(e.req, -x.neg)
    requires forall i :: 0 <= i < |h| && h[i] != e ==> h[i].req != e.req && h[i].arrived != e.arrived
    ensures AheadInDrain(Sort(h + [x]), e.req) == TokensBefore(h, if Less(x, e) then x else e)
  {
    hide Sort;
    var y := if Less(x, e) then x else e;
    SortFacts(h + [x]);
    AheadSame(Sort(h + [x]), h + [x], e, x);
    SumsAppend(h, [x], y);
    NothingBefore([x], y);
  }

  /** With the request of e queued under e and perhaps x as well, the walk over a sorted
      arrangement d of h stops at the lesser of the two. */
  lemma AheadSame(d: seq<Item>, h: seq<Item>, e: Item, x: Item)
    requires Sorted(d) && multiset(d) == multiset(h) && e in h && x in h
    requires e.req == x.req && e.arrived == x.arrived
    requires forall i :: 0 <= i < |h| && h[i] != e && h[i] != x ==> h[i].req != e.req && h[i].arrived != e.arrived
    ensures AheadInDrain(d, e.req) == TokensBefore(h, if Less(x, e) then x else e)
  {
    var y := if Less(x, e) then x else e;
    forall i | 0 <= i < |d|
      ensures d[i].req == y.req ==> d[i] == e || d[i] == x
      ensures d[i].arrived == y.arrived ==> d[i] == e || d[i] == x
    {
      assert d[i] in multiset(d);
      var k := PositionOf(h, d[i]);
    }
    assert y in multiset(h);
    assert y in multiset(d);
    AheadOfLeast(d, y);
    SumsPermuted(d, h, y);
  }

  /** In a sorted order where only entries of y's request draw with y, and y is the least of
      those, what is ahead of that request is what is less than y. */
  lemma {:induction false} AheadOfLeast(d: seq<Item>, y: Item)
    requires Sorted(d) && y in d
    requires forall i :: 0 <= i < |d| && d[i].req == y.req ==> Le(y, d[i])
    requires forall i :: 0 <= i < |d| && !Less(d[i], y) && !Less(y, d[i]) ==> d[i].req == y.req
    ensures AheadInDrain(d, y.req) == TokensBefore(d, y)
  {
    if d[0].req == y.req {
      assert Le(d[0], y);
      forall i | 0 <= i < |d| ensures Le(y, d[i]) { assert Le(d[0], d[i]); }
      NothingBefore(d, y);
    } else {
      assert Le(d[0], y);
      AheadOfLeast(d[1..], y);
    }
  }
}
