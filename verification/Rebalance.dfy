/** Hotspot-aware rebalancing of one replica's global queue, on values. */
module Rebalance {
  import opened Common
  import opened Requests
  import opened Heapq
  import opened RequestQueue
  import opened Latency

  /** What one rebalance reads and does not change. `recompute(r, req)` is the prefill length
      replica r's cache leaves, `pend` the local pending tokens of each replica, `tpot` the
      seconds per prefill token. */
  datatype Env = Env(n: nat, hash1: int -> int, hash2: int -> int, recompute: (int, Request) -> int,
                     pend: seq<int>, threshold: int, latency: int, now: int, tpot: real)

  ghost predicate EnvOk(env: Env) {
    && env.n > 0 && |env.pend| == env.n && env.tpot > 0.0
    && (forall s :: 0 <= env.hash1(s) < env.n)
    && (forall s :: 0 <= env.hash2(s) < env.n)
  }

  /** The queues, the two stamps each request carries, and the loop's own counters: the
      snapshot of waiting tokens and the tokens migrated so far. */
  datatype State = State(q: Queues, primary: map<Request, int>, second: map<Request, int>,
                         waiting: seq<int>, migrated: int)

  ghost predicate StateOk(env: Env, st: State) {
    EnvOk(env) && WellFormed(st.q, env.n) && |st.waiting| == env.n
  }

  datatype Choice = Choice(index: nat, cost: real, sourceLen: int, target: int, targetLen: int)

  function First(env: Env, req: Request): int { env.hash1(req.session) }

  function Second(env: Env, req: Request): int
    requires env.n > 0
  {
    if env.hash2(req.session) == First(env, req) then (First(env, req) + 1) % env.n else env.hash2(req.session)
  }

  predicate Overloaded(env: Env, waiting: seq<int>, delay: seq<int>, r: int, req: Request)
    requires 0 <= r < |waiting| && r < |delay| && r < |env.pend|
  {
    waiting[r] + env.pend[r] + env.recompute(r, req) > env.threshold || delay[r] >= env.latency
  }

  /** Where a request of the source queue may go: its other hashed replica, or a neighbour
      when that one is overloaded, or nowhere. */
  function Target(env: Env, waiting: seq<int>, delay: seq<int>, source: int, req: Request): Option<int>
    requires env.n > 0 && |waiting| == |delay| == |env.pend| == env.n && 0 <= source < env.n
  {
    var t := if source == First(env, req) then Second(env, req) else First(env, req);
    if t < 0 || t >= env.n then None
    else if source == t || Overloaded(env, waiting, delay, t, req) then
      var next := (source + 1) % env.n;
      var tmp := if next == source || next == t then (t + 1) % env.n else next;
      if tmp == source || tmp == t || Overloaded(env, waiting, delay, tmp, req) then None else Some(tmp)
    else Some(t)
  }

  function Hit(req: Request, prefill: int): int {
    if req.numPrefill - prefill > 0 then req.numPrefill - prefill else 0
  }

  /** Predicted tokens until the request's first token on replica r. */
  function Wait(env: Env, q: Queues, r: int, req: Request): int
    requires 0 <= r < |q.heaps| && r < |env.pend|
  {
    var prefill := env.recompute(r, req);
    Predict(q.heaps[r], req, Hit(req, prefill)) + env.pend[r] + prefill
  }

  function Candidate(env: Env, st: State, delay: seq<int>, source: int, i: nat): Option<Choice>
    requires env.n > 0 && Shape(st.q, env.n) && |st.waiting| == |delay| == |env.pend| == env.n
    requires 0 <= source < env.n && i < |st.q.heaps[source]|
  {
    var req := st.q.heaps[source][i].req;
    match Target(env, st.waiting, delay, source, req)
    case None => None
    case Some(t) =>
      if 0 <= t < env.n then
        Some(Choice(i, Cost(env.tpot, Wait(env, st.q, t, req), Wait(env, st.q, source, req)),
                    env.recompute(source, req), t, env.recompute(t, req)))
      else None
  }

  /** The first cheapest candidate among the first i entries: sorted by cost, element 0. */
  function Best(env: Env, st: State, delay: seq<int>, source: int, i: nat): (c: Option<Choice>)
    requires env.n > 0 && Shape(st.q, env.n) && |st.waiting| == |delay| == |env.pend| == env.n
    requires 0 <= source < env.n && i <= |st.q.heaps[source]|
    ensures c.Some? ==> c.value.index < i && Candidate(env, st, delay, source, c.value.index) == c
  {
    if i == 0 then None
    else
      var b, c := Best(env, st, delay, source, i - 1), Candidate(env, st, delay, source, i - 1);
      if b == None || (c.Some? && c.value.cost < b.value.cost) then c else b
  }

  function Migrate(env: Env, st: State, source: int, c: Choice): (u: State)
    requires Shape(st.q, env.n) && |st.waiting| == env.n
    requires 0 <= source < env.n && 0 <= c.target < env.n && c.index < |st.q.heaps[source]|
    ensures Shape(u.q, env.n) && |u.waiting| == env.n
  {
    var req := st.q.heaps[source][c.index].req;
    State(Moved(st.q, source, c.target, req, req.numPrefill - c.targetLen),
          st.primary[req := c.target], st.second[req := source],
          st.waiting[c.target := st.waiting[c.target] + c.targetLen], st.migrated + c.sourceLen)
  }

  lemma TargetFacts(env: Env, waiting: seq<int>, delay: seq<int>, source: int, req: Request)
    requires EnvOk(env) && |waiting| == |delay| == env.n && 0 <= source < env.n
    ensures var t := Target(env, waiting, delay, source, req);
            t.Some? ==> 0 <= t.value < env.n && t.value != source && !Overloaded(env, waiting, delay, t.value, req)
  {
    var s := req.session;
    assert 0 <= env.hash1(s) < env.n && 0 <= env.hash2(s) < env.n;
  }

  lemma CandidateTarget(env: Env, st: State, delay: seq<int>, source: int, c: Choice)
    requires EnvOk(env) && Shape(st.q, env.n) && |st.waiting| == |delay| == env.n && 0 <= source < env.n
    requires c.index < |st.q.heaps[source]| && Candidate(env, st, delay, source, c.index) == Some(c)
    ensures 0 <= c.target < env.n && c.target != source
  {
    hide Wait, Overloaded;
    TargetFacts(env, st.waiting, delay, source, st.q.heaps[source][c.index].req);
  }

  lemma MigrateShrinks(env: Env, st: State, source: int, c: Choice)
    requires Shape(st.q, env.n) && |st.waiting| == env.n
    requires 0 <= source < env.n && 0 <= c.target < env.n && c.target != source && c.index < |st.q.heaps[source]|
    ensures |Migrate(env, st, source, c).q.heaps[source]| == |st.q.heaps[source]| - 1
  {
    var h := st.q.heaps[source];
    assert Find(h, h[c.index].req) <= c.index;
  }

  /** The migration loop; it ends because every round takes one request off the source. */
  function Loop(env: Env, st: State, delay: seq<int>, source: int, goal: int): (u: State)
    requires EnvOk(env) && Shape(st.q, env.n) && |st.waiting| == |delay| == env.n && 0 <= source < env.n
    ensures Shape(u.q, env.n) && |u.waiting| == env.n
    decreases |st.q.heaps[source]|
  {
    match Best(env, st, delay, source, |st.q.heaps[source]|)
    case None => st
    case Some(c) =>
      if c.cost >= 0.0 || (goal > 0 && st.migrated >= goal) then st
      else
        TargetFacts(env, st.waiting, delay, source, st.q.heaps[source][c.index].req);
        MigrateShrinks(env, st, source, c);
        Loop(env, Migrate(env, st, source, c), delay, source, goal)
  }

  function Delays(q: Queues, now: int): (d: seq<int>)
    ensures |d| == |q.heaps|
  {
    seq(|q.heaps|, r requires 0 <= r < |q.heaps| => MaxDelay(q.heaps[r], now))
  }

  /** `rebalance_replica_global_waiting_reqs` for balance type "dualmap". */
  function Rebalanced(env: Env, st: State, source: int, goal: int): (u: State)
    requires EnvOk(env) && Shape(st.q, env.n) && |st.waiting| == env.n && 0 <= source < env.n
    ensures Shape(u.q, env.n) && |u.waiting| == env.n
  {
    if |st.q.heaps[source]| <= 1 then st
    else Loop(env, st.(waiting := st.q.actual, migrated := 0), Delays(st.q, env.now), source, goal)
  }

  // ---------------------------------------------------------------- conservation

  /** How often x is queued in a list. */
  function Count(h: seq<Item>, x: Request): nat {
    if h == [] then 0 else (if h[0].req == x then 1 else 0) + Count(h[1..], x)
  }

  /** How often x is queued anywhere. */
  function Total(heaps: seq<Heap>, x: Request): nat {
    if heaps == [] then 0 else Count(heaps[0], x) + Total(heaps[1..], x)
  }

  /** The same requests are queued, each equally often. */
  ghost predicate SameRequests(a: seq<Heap>, b: seq<Heap>) { forall x :: Total(a, x) == Total(b, x) }

  lemma {:induction false} CountAppend(a: seq<Item>, b: seq<Item>, x: Request)
    ensures Count(a + b, x) == Count(a, x) + Count(b, x)
  {
    if a == [] {
      assert a + b == b;
    } else {
      CountAppend(a[1..], b, x);
      assert (a + b)[1..] == a[1..] + b;
    }
  }

  lemma CountRemove(h: seq<Item>, i: nat, x: Request)
    requires i < |h|
    ensures Count(h, x) == (if h[i].req == x then 1 else 0) + Count(h[..i] + h[i + 1..], x)
  {
    CountAppend(h[..i], h[i + 1..], x);
    CountAppend(h[..i], h[i..], x);
    assert h == h[..i] + h[i..];
    assert h[i..][1..] == h[i + 1..];
  }

  lemma {:induction false} CountPermuted(a: seq<Item>, b: seq<Item>, x: Request)
    requires multiset(a) == multiset(b)
    ensures Count(a, x) == Count(b, x)
  {
    if a == [] {
      assert |multiset(b)| == 0;
    } else {
      assert a[0] in multiset(a);
      var i := PositionOf(b, a[0]);
      var a', b' := a[1..], b[..i] + b[i + 1..];
      assert multiset(a') == multiset(b') by {
        assert a == [a[0]] + a';
        MultisetRemove(b, i);
      }
      CountPermuted(a', b', x);
      CountRemove(b, i, x);
    }
  }

  lemma {:induction false} TotalUpdate(heaps: seq<Heap>, r: nat, h: Heap, x: Request)
    requires r < |heaps|
    ensures Total(heaps[r := h], x) == Total(heaps, x) - Count(heaps[r], x) + Count(h, x)
  {
    if r > 0 {
      TotalUpdate(heaps[1..], r - 1, h, x);
      assert heaps[r := h][1..] == heaps[1..][r - 1 := h];
    } else {
      assert heaps[r := h][1..] == heaps[1..];
    }
  }

  lemma {:induction false} TotalAtLeast(heaps: seq<Heap>, r: nat, x: Request)
    requires r < |heaps|
    ensures Count(heaps[r], x) <= Total(heaps, x)
  {
    if r > 0 { TotalAtLeast(heaps[1..], r - 1, x); }
  }

  lemma {:induction false} CountHas(h: seq<Item>, x: Request)
    ensures Count(h, x) > 0 <==> Has(h, x)
  {
    if h != [] {
      CountHas(h[1..], x);
      assert Has(h[1..], x) ==> Has(h, x) by {
        if Has(h[1..], x) {
          var i :| 0 <= i < |h[1..]| && h[1..][i].req == x;
          assert h[i + 1].req == x;
        }
      }
      if Has(h, x) && h[0].req != x {
        var i :| 0 <= i < |h| && h[i].req == x;
        assert h[1..][i - 1].req == x;
      }
    }
  }

  lemma PushCount(q: Queues, r: nat, req: Request, hit: int, x: Request)
    requires r < |q.heaps| && Shape(q, |q.heaps|)
    ensures Total(Push(q, r, req, hit).heaps, x) == Total(q.heaps, x) + if x == req then 1 else 0
    ensures Count(Push(q, r, req, hit).heaps[r], x) == Count(q.heaps[r], x) + if x == req then 1 else 0
  {
    hide HeapPush;
    var h, it := q.heaps[r], ItemFor(req, hit);
    var g := HeapPush(h, it);
    assert Count(g, x) == Count(h, x) + if x == req then 1 else 0 by {
      PushSame(h, it);
      assert multiset(h + [it]) == multiset(h) + multiset{it};
      CountPermuted(g, h + [it], x);
      CountAppend(h, [it], x);
    }
    TotalUpdate(q.heaps, r, g, x);
  }

  lemma DelReqCount(q: Queues, r: nat, req: Request, x: Request)
    requires r < |q.heaps| && Shape(q, |q.heaps|) && Has(q.heaps[r], req)
    ensures Total(DelReq(q, r, req).heaps, x) == Total(q.heaps, x) - if x == req then 1 else 0
    ensures Count(DelReq(q, r, req).heaps[r], x) == Count(q.heaps[r], x) - if x == req then 1 else 0
  {
    hide Heapify;
    var h := q.heaps[r];
    var i := Find(h, req);
    var g := Heapify(h[..i] + h[i + 1..]);
    assert Count(g, x) == Count(h, x) - if x == req then 1 else 0 by {
      DelSums(h, i);
      MultisetRemove(h, i);
      CountPermuted(g, h[..i] + h[i + 1..], x);
      CountRemove(h, i, x);
    }
    TotalUpdate(q.heaps, r, g, x);
  }

  lemma PoppedCount(q: Queues, r: nat, x: Request)
    requires r < |q.heaps| && Shape(q, |q.heaps|) && q.heaps[r] != []
    ensures Total(Popped(q, r).heaps, x) == Total(q.heaps, x) - if x == q.heaps[r][0].req then 1 else 0
    ensures Count(Popped(q, r).heaps[r], x) == Count(q.heaps[r], x) - if x == q.heaps[r][0].req then 1 else 0
  {
    hide HeapPop;
    var h := q.heaps[r];
    var g := HeapPop(h);
    assert Count(g, x) == Count(h, x) - if x == h[0].req then 1 else 0 by {
      PopSame(h);
      assert h == [h[0]] + h[1..];
      CountPermuted(g, h[1..], x);
    }
    TotalUpdate(q.heaps, r, g, x);
  }

  // ---------------------------------------------------------------- one migration

  /** A queue other than the source is as it was, or within the threshold. */
  predicate Within(env: Env, was: Heap, now: Heap, tokens: int, r: int)
    requires 0 <= r < |env.pend|
  {
    now == was || tokens + env.pend[r] <= env.threshold
  }

  /** What every round of the loop keeps: the snapshot of waiting tokens is the live counter
      everywhere but at the source, and no queue has received what overloads it. */
  ghost predicate LoopInv(env: Env, was: Queues, st: State, source: int) {
    && StateOk(env, st) && 0 <= source < env.n && |was.heaps| == env.n
    && (forall r :: 0 <= r < env.n && r != source ==> st.waiting[r] == st.q.actual[r])
    && (forall r :: 0 <= r < env.n && r != source ==> Within(env, was.heaps[r], st.q.heaps[r], st.q.actual[r], r))
    && |st.q.heaps[source]| <= |was.heaps[source]|
  }

  /** The queues after one migration. */
  function Moved(q: Queues, source: nat, target: nat, req: Request, hit: int): (u: Queues)
    requires Shape(q, |q.heaps|) && source < |q.heaps| && target < |q.heaps|
    ensures Shape(u, |q.heaps|)
  {
    Push(DelReq(q, source, req), target, req, hit)
  }

  lemma MovedKeeps(q: Queues, n: nat, source: nat, target: nat, req: Request, hit: int)
    requires WellFormed(q, n) && source < n && target < n
    ensures WellFormed(Moved(q, source, target, req, hit), n)
  {
    DelReqKeeps(q, n, source, req);
    PushKeeps(DelReq(q, source, req), n, target, req, hit);
  }

  lemma MovedFrame(q: Queues, source: nat, target: nat, req: Request, hit: int)
    requires Shape(q, |q.heaps|) && source < |q.heaps| && target < |q.heaps| && source != target
    ensures var u := Moved(q, source, target, req, hit);
            && u.actual[target] == q.actual[target] + req.numPrefill - hit
            && (forall r :: 0 <= r < |q.heaps| && r != source && r != target ==>
                  u.heaps[r] == q.heaps[r] && u.actual[r] == q.actual[r])
  {
    hide Heapify, HeapPush;
  }

  lemma MovedSame(q: Queues, source: nat, target: nat, req: Request, hit: int)
    requires Shape(q, |q.heaps|) && source < |q.heaps| && target < |q.heaps| && Has(q.heaps[source], req)
    ensures SameRequests(Moved(q, source, target, req, hit).heaps, q.heaps)
  {
    forall x ensures Total(Moved(q, source, target, req, hit).heaps, x) == Total(q.heaps, x) {
      DelReqCount(q, source, req, x);
      PushCount(DelReq(q, source, req), target, req, hit, x);
    }
  }

  lemma MigrateKeeps(env: Env, was: Queues, st: State, delay: seq<int>, source: int, c: Choice)
    requires LoopInv(env, was, st, source) && |delay| == env.n
    requires c.index < |st.q.heaps[source]| && Candidate(env, st, delay, source, c.index) == Some(c)
    ensures 0 <= c.target < env.n && c.target != source
    ensures LoopInv(env, was, Migrate(env, st, source, c), source)
    ensures SameRequests(Migrate(env, st, source, c).q.heaps, st.q.heaps)
  {
    hide DelReq, Push, Predict;
    var req := st.q.heaps[source][c.index].req;
    var hit, u := req.numPrefill - c.targetLen, Migrate(env, st, source, c);
    assert c.target != source && st.waiting[c.target] + env.pend[c.target] + c.targetLen <= env.threshold by {
      TargetFacts(env, st.waiting, delay, source, req);
    }
    assert WellFormed(u.q, env.n) by { MovedKeeps(st.q, env.n, source, c.target, req, hit); }
    assert SameRequests(u.q.heaps, st.q.heaps) by { MovedSame(st.q, source, c.target, req, hit); }
    assert |u.q.heaps[source]| < |was.heaps[source]| by { MigrateShrinks(env, st, source, c); }
    MovedFrame(st.q, source, c.target, req, hit);
  }

  lemma {:induction false} LoopKeeps(env: Env, was: Queues, st: State, delay: seq<int>, source: int, goal: int)
    requires LoopInv(env, was, st, source) && |delay| == env.n
    ensures LoopInv(env, was, Loop(env, st, delay, source, goal), source)
    ensures SameRequests(Loop(env, st, delay, source, goal).q.heaps, st.q.heaps)
    decreases |st.q.heaps[source]|
  {
    hide DelReq, Push, Predict;
    var b := Best(env, st, delay, source, |st.q.heaps[source]|);
    if b.Some? && b.value.cost < 0.0 && !(goal > 0 && st.migrated >= goal) {
      var c := b.value;
      var u := Migrate(env, st, source, c);
      MigrateKeeps(env, was, st, delay, source, c);
      MigrateShrinks(env, st, source, c);
      LoopKeeps(env, was, u, delay, source, goal);
    }
  }

  /** Rebalancing conserves the requests over all queues, keeps heaps and counters right,
      and overloads no replica: whichever queue changed, other than the source, ends with
      waiting plus local pending tokens within the threshold. */
  lemma RebalanceSafe(env: Env, st: State, source: int, goal: int)
    requires StateOk(env, st) && 0 <= source < env.n
    ensures var u := Rebalanced(env, st, source, goal);
            && WellFormed(u.q, env.n)
            && SameRequests(u.q.heaps, st.q.heaps)
            && |u.q.heaps[source]| <= |st.q.heaps[source]|
            && forall r :: 0 <= r < env.n && r != source && u.q.heaps[r] != st.q.heaps[r] ==>
                 u.q.actual[r] + env.pend[r] <= env.threshold
  {
    var start := st.(waiting := st.q.actual, migrated := 0);
    if |st.q.heaps[source]| > 1 {
      LoopKeeps(env, st.q, start, Delays(st.q, env.now), source, goal);
      var u := Rebalanced(env, st, source, goal);
      assert forall r :: 0 <= r < env.n && r != source ==> Within(env, st.q.heaps[r], u.q.heaps[r], u.q.actual[r], r);
    }
  }
}
