/** The mutable global queues. */
module GlobalQueue {
  import opened Common
  import opened Requests
  import opened Heapq
  import Q = RequestQueue

  class GlobalRequestQueue {
    const numReplicas: nat
    var queues: seq<Heap>
    var actual: seq<int>
    var inputs: seq<int>

    function Abs(): Q.Queues
      reads this
    {
      Q.Queues(queues, actual, inputs)
    }

    ghost predicate Valid()
      reads this
    {
      Q.WellFormed(Abs(), numReplicas)
    }

    constructor (numReplicas: nat)
      ensures Valid() && this.numReplicas == numReplicas
      ensures queues == seq(numReplicas, _ => [])
    {
      this.numReplicas := numReplicas;
      queues := seq(numReplicas, _ => []);
      actual := seq(numReplicas, _ => 0);
      inputs := seq(numReplicas, _ => 0);
    }

    method Push(r: nat, req: Request, hit: int)
      requires Valid() && r < numReplicas
      modifies this
      ensures Valid() && Abs() == Q.Push(old(Abs()), r, req, hit)
    {
      hide HeapPush;
      Q.PushKeeps(Abs(), numReplicas, r, req, hit);
      var it := ItemFor(req, hit);
      queues := queues[r := HeapPush(queues[r], it)];
      actual := actual[r := actual[r] + Tokens(it)];
      inputs := inputs[r := inputs[r] + InputLen(it)];
    }

    /** The least entry's request, or None. */
    method Pop(r: nat) returns (req: Option<Request>)
      requires Valid() && r < numReplicas
      modifies this
      ensures Valid()
      ensures old(queues)[r] == [] ==> req == None && Abs() == old(Abs())
      ensures old(queues)[r] != [] ==>
                && req == Some(Q.Drain(old(queues)[r])[0].req)
                && Abs() == Q.Popped(old(Abs()), r)
    {
      hide HeapPop;
      if queues[r] == [] { return None; }
      Q.PoppedKeeps(Abs(), numReplicas, r);
      var it := queues[r][0];
      queues := queues[r := HeapPop(queues[r])];
      actual := actual[r := actual[r] - Tokens(it)];
      inputs := inputs[r := inputs[r] - InputLen(it)];
      req := Some(it.req);
    }

    /** Deletes the first entry of the request in array order and restores the heap. */
    method DelReq(r: nat, req: Request) returns (found: bool)
      requires Valid() && r < numReplicas
      modifies this
      ensures Valid() && Abs() == Q.DelReq(old(Abs()), r, req)
      ensures found <==> Q.Has(old(queues)[r], req)
    {
      hide Heapify;
      Q.DelReqKeeps(Abs(), numReplicas, r, req);
      var h := queues[r];
      for i := 0 to |h|
        invariant Abs() == old(Abs())
        invariant forall j :: 0 <= j < i ==> h[j].req != req
      {
        if h[i].req == req {
          assert Q.Find(h, req) == i;
          var it := h[i];
          queues := queues[r := Heapify(h[..i] + h[i + 1..])];
          actual := actual[r := actual[r] - Tokens(it)];
          inputs := inputs[r := inputs[r] - InputLen(it)];
          return true;
        }
      }
      return false;
    }

    method TakeHead(r: nat, ghost next: Q.Queues) returns (it: Item)
      requires Q.Shape(Abs(), numReplicas) && r < numReplicas && queues[r] != []
      requires next == Q.Popped(Abs(), r)
      modifies this
      ensures it == old(queues)[r][0] && Abs() == next
    {
      it := queues[r][0];
      queues := queues[r := HeapPop(queues[r])];
      actual := actual[r := actual[r] - Tokens(it)];
      inputs := inputs[r := inputs[r] - InputLen(it)];
    }

    /** One scheduling pass over a queue. */
    method PopSchedulable(r: nat, budget: int, max: Option<int>) returns (schedulable: seq<Request>)
      requires Valid() && r < numReplicas
      modifies this
      ensures Valid()
      ensures var (taken, left) := Q.PopSchedulable(old(Abs()), r, budget, max);
              schedulable == Q.Reqs(taken) && Abs() == left
    {
      ghost var q := Abs();
      ghost var count;
      schedulable, count := PopLoop(r, budget, max);
      Q.PoppedManyKeeps(q, numReplicas, r, count);
    }

    /** Its loop. */
    method PopLoop(r: nat, budget: int, max: Option<int>) returns (schedulable: seq<Request>, ghost pops: nat)
      requires Q.Shape(Abs(), numReplicas) && r < numReplicas
      modifies this
      ensures var (taken, left) := Q.PopSchedulable(old(Abs()), r, budget, max);
              schedulable == Q.Reqs(taken) && Abs() == left
      ensures pops <= |old(queues)[r]| && Abs() == Q.PoppedMany(old(Abs()), r, pops)
    {
      hide Q.Popped, HeapPop;
      ghost var q := Abs();
      ghost var u := q;
      var remaining, count := budget, 0;
      schedulable := [];
      while queues[r] != []
        invariant Abs() == u
        invariant Progress(q, r, budget, max, count, remaining, schedulable, u) && (count == 0 || remaining > 0)
        decreases |q.heaps[r]| - count
      {
        if max.Some? && count >= max.value { break; }
        u := ProgressStep(q, r, budget, max, count, remaining, schedulable, u);
        var it := TakeHead(r, u);
        schedulable := schedulable + [it.req];
        count := count + 1;
        remaining := remaining - Tokens(it);
        if remaining <= 0 { break; }
      }
      ProgressEnd(q, r, budget, max, count, remaining, schedulable, u);
      pops := count;
    }

    /** What the pop loop has done after `count` rounds, started on q. */
    ghost predicate Progress(q: Q.Queues, r: nat, budget: int, max: Option<int>, count: nat, remaining: int,
                             schedulable: seq<Request>, u: Q.Queues) {
      && r < numReplicas && Q.Shape(q, numReplicas) && count <= |q.heaps[r]|
      && u == Q.PoppedMany(q, r, count)
      && var d := Q.Drain(q.heaps[r]);
         && schedulable == Q.Reqs(d[..count])
         && Q.TakeCount(d, budget, max, 0) == count +
              if count > 0 && remaining <= 0 then 0 else Q.TakeCount(d[count..], remaining, max, count)
    }

    lemma ProgressStep(q: Q.Queues, r: nat, budget: int, max: Option<int>, count: nat, remaining: int,
                       schedulable: seq<Request>, u: Q.Queues) returns (next: Q.Queues)
      requires Progress(q, r, budget, max, count, remaining, schedulable, u)
      requires count == 0 || remaining > 0
      requires u.heaps[r] != [] && (max.Some? ==> count < max.value)
      ensures next == Q.Popped(u, r) && count < |q.heaps[r]|
      ensures var it := u.heaps[r][0];
              Progress(q, r, budget, max, count + 1, remaining - Tokens(it), schedulable + [it.req], next)
    {
      hide Q.Popped;
      next := Q.PoppedMany(q, r, count + 1);
      var d, it := Q.Drain(q.heaps[r]), u.heaps[r][0];
      assert it == d[count] by {
        Q.PoppedManyDrain(q, r, count);
        assert Q.Drain(u.heaps[r])[0] == d[count];
      }
      PassStep(d, count, remaining, max);
    }

    static lemma PassStep(d: seq<Item>, i: nat, budget: int, max: Option<int>)
      requires i < |d| && (max.Some? ==> i < max.value)
      ensures Q.TakeCount(d[i..], budget, max, i) ==
              1 + if budget - Tokens(d[i]) <= 0 then 0 else Q.TakeCount(d[i + 1..], budget - Tokens(d[i]), max, i + 1)
      ensures Q.Reqs(d[..i + 1]) == Q.Reqs(d[..i]) + [d[i].req]
    {
      assert d[i..][1..] == d[i + 1..];
    }

    lemma ProgressEnd(q: Q.Queues, r: nat, budget: int, max: Option<int>, count: nat, remaining: int,
                      schedulable: seq<Request>, u: Q.Queues)
      requires Progress(q, r, budget, max, count, remaining, schedulable, u)
      requires u.heaps[r] == [] || (max.Some? && count >= max.value) || (count > 0 && remaining <= 0)
      ensures var (taken, left) := Q.PopSchedulable(q, r, budget, max);
              && schedulable == Q.Reqs(taken) && u == left && count <= |q.heaps[r]|
              && left == Q.PoppedMany(q, r, count)
    {
    }

    /** Simulates the service order with the request added and adds up what is ahead. */
    method GetNumGlobalActualWaitingTokens(r: nat, req: Request, hit: int) returns (total: int)
      requires r < |queues|
      ensures total == Q.Predict(queues[r], req, hit)
    {
      var simulated := Q.Sort(queues[r] + [ItemFor(req, hit)]);
      total := 0;
      for i := 0 to |simulated|
        invariant Q.AheadInDrain(simulated, req) == total + Q.AheadInDrain(simulated[i..], req)
      {
        if simulated[i].req == req { break; }
        assert simulated[i..][1..] == simulated[i + 1..];
        total := total + Tokens(simulated[i]);
      }
    }

    /** Drops the entries older than the threshold from the list and from both counters. The
        list is not made a heap again. */
    method DiscardExpired(r: nat, threshold: int, now: int) returns (discarded: seq<Request>)
      requires Valid() && r < numReplicas
      modifies this
      ensures Q.Shape(Abs(), numReplicas)
      ensures queues == old(queues)[r := Q.Kept(old(queues)[r], threshold, now)]
      ensures discarded == Q.Reqs(Q.Expired(old(queues)[r], threshold, now))
      ensures forall s :: 0 <= s < numReplicas ==>
              actual[s] == SumTokens(queues[s]) && inputs[s] == SumInputs(queues[s])
    {
      hide Q.Kept, Q.Expired, SumTokens, SumInputs, IsHeapFrom;
      var h := queues[r];
      var kept, gone := [], [];
      assert h[0..] == h;
      DiscardDone(threshold, now);
      for i := 0 to |h|
        invariant queues == old(queues) && Q.Shape(Abs(), numReplicas)
        invariant kept + Q.Kept(h[i..], threshold, now) == Q.Kept(h, threshold, now)
        invariant gone + Q.Expired(h[i..], threshold, now) == Q.Expired(h, threshold, now)
        invariant actual[r] == SumTokens(kept) + SumTokens(h[i..])
        invariant inputs[r] == SumInputs(kept) + SumInputs(h[i..])
        invariant forall s :: 0 <= s < numReplicas && s != r ==>
                  actual[s] == old(actual)[s] && inputs[s] == old(inputs)[s]
      {
        var it := h[i];
        DiscardStep(h, i, threshold, now);
        if now - it.arrived > threshold {
          gone := gone + [it];
          actual := actual[r := actual[r] - Tokens(it)];
          inputs := inputs[r := inputs[r] - InputLen(it)];
        } else {
          SumsAppend(kept, [it], it);
          OneEntry(it);
          kept := kept + [it];
        }
      }
      assert h[|h|..] == [];
      assert kept == Q.Kept(h, threshold, now) && gone == Q.Expired(h, threshold, now);
      queues := queues[r := kept];
      discarded := Q.Reqs(gone);
    }

    static lemma DiscardStep(h: Heap, i: nat, threshold: int, now: int)
      requires i < |h|
      ensures Q.Kept(h[i..], threshold, now) ==
              (if now - h[i].arrived > threshold then [] else [h[i]]) + Q.Kept(h[i + 1..], threshold, now)
      ensures Q.Expired(h[i..], threshold, now) ==
              (if now - h[i].arrived > threshold then [h[i]] else []) + Q.Expired(h[i + 1..], threshold, now)
      ensures SumTokens(h[i..]) == Tokens(h[i]) + SumTokens(h[i + 1..])
      ensures SumInputs(h[i..]) == InputLen(h[i]) + SumInputs(h[i + 1..])
    {
      assert h[i..][1..] == h[i + 1..];
    }

    static lemma DiscardDone(threshold: int, now: int)
      ensures Q.Kept([], threshold, now) == [] && Q.Expired([], threshold, now) == [] && SumTokens([]) == 0
      ensures SumInputs([]) == 0
    {
    }

    static lemma OneEntry(it: Item)
      ensures SumTokens([it]) == Tokens(it) && SumInputs([it]) == InputLen(it)
    {
      assert [it][1..] == [];
    }
  }
}
