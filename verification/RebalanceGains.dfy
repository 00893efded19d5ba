/** What a migration does for the request it moves, and for the stamps. */
module RebalanceGains {
  import opened Common
  import opened Requests
  import opened Heapq
  import opened RequestQueue
  import opened Latency
  import opened Rebalance

  /** Each request waits at most once, entries carry their request's arrival and a
      non-negative token count, and no two requests arrived at the same instant. */
  ghost predicate Clean(q: Queues) {
    && (forall x :: Total(q.heaps, x) <= 1)
    && (forall r :: 0 <= r < |q.heaps| ==> CleanList(q.heaps[r]))
    && (forall x, y :: Total(q.heaps, x) > 0 && Total(q.heaps, y) > 0 && x != y ==> x.arrived != y.arrived)
  }

  lemma QueuedOnce(q: Queues, r: nat, i: nat, j: nat)
    requires Clean(q) && r < |q.heaps| && i < |q.heaps[r]| && j < |q.heaps[r]| && i != j
    ensures q.heaps[r][i].req != q.heaps[r][j].req
    ensures q.heaps[r][i].arrived != q.heaps[r][j].arrived
  {
    var h, x := q.heaps[r], q.heaps[r][i].req;
    CountRemove(h, i, x);
    TotalAtLeast(q.heaps, r, x);
    var rest := h[..i] + h[i + 1..];
    CountHas(rest, x);
    assert rest[if j < i then j else j - 1] == h[j];
    InSome(q, r, i);
    InSome(q, r, j);
  }

  lemma InSome(q: Queues, r: nat, i: nat)
    requires r < |q.heaps| && i < |q.heaps[r]|
    ensures Count(q.heaps[r], q.heaps[r][i].req) > 0 && Total(q.heaps, q.heaps[r][i].req) > 0
  {
    var x := q.heaps[r][i].req;
    assert Has(q.heaps[r], x);
    CountHas(q.heaps[r], x);
    TotalAtLeast(q.heaps, r, x);
  }

  lemma {:induction false} TwoQueues(heaps: seq<Heap>, r: nat, s: nat, x: Request)
    requires r < s < |heaps|
    ensures Count(heaps[r], x) + Count(heaps[s], x) <= Total(heaps, x)
  {
    if r > 0 {
      TwoQueues(heaps[1..], r - 1, s - 1, x);
    } else {
      TotalAtLeast(heaps[1..], s - 1, x);
    }
  }

  lemma NotElsewhere(q: Queues, r: nat, s: nat, x: Request)
    requires Clean(q) && r < |q.heaps| && s < |q.heaps| && r != s && Count(q.heaps[r], x) > 0
    ensures Count(q.heaps[s], x) == 0
  {
    if r < s { TwoQueues(q.heaps, r, s, x); } else { TwoQueues(q.heaps, s, r, x); }
  }

  /** Tokens the replica really processes before req's first token, once req waits there. */
  function RealWait(env: Env, q: Queues, r: int, req: Request): int
    requires 0 <= r < |q.heaps| && r < |env.pend|
  {
    AheadInDrain(Drain(q.heaps[r]), req) + env.pend[r] + env.recompute(r, req)
  }

  lemma SourceWait(env: Env, q: Queues, source: nat, i: nat)
    requires EnvOk(env) && WellFormed(q, env.n) && Clean(q) && source < env.n && i < |q.heaps[source]|
    ensures Wait(env, q, source, q.heaps[source][i].req) <= RealWait(env, q, source, q.heaps[source][i].req)
  {
    var h, e := q.heaps[source], q.heaps[source][i];
    forall j | 0 <= j < |h| && h[j] != e ensures h[j].req != e.req && h[j].arrived != e.arrived {
      QueuedOnce(q, source, i, j);
    }
    assert Counted(h, q.actual[source], q.inputs[source]) && CleanList(h);
    PredictedExact(h, e, Hit(e.req, env.recompute(source, e.req)));
  }

  lemma TargetWait(env: Env, q: Queues, source: nat, i: nat, target: nat)
    requires EnvOk(env) && WellFormed(q, env.n) && Clean(q)
    requires source < env.n && target < env.n && source != target && i < |q.heaps[source]|
    requires env.recompute(target, q.heaps[source][i].req) <= q.heaps[source][i].req.numPrefill
    ensures var req := q.heaps[source][i].req;
            var u := Moved(q, source, target, req, req.numPrefill - env.recompute(target, req));
            RealWait(env, u, target, req) == Wait(env, q, target, req)
  {
    hide Drain, Sort, Heapify, HeapPush;
    var req := q.heaps[source][i].req;
    var hit := req.numPrefill - env.recompute(target, req);
    var h := q.heaps[target];
    InSome(q, source, i);
    NotElsewhere(q, source, target, req);
    CountHas(h, req);
    forall j | 0 <= j < |h| ensures h[j].arrived != req.arrived {
      InSome(q, target, j);
      assert CleanList(h);
      assert h[j].req != req;
    }
    assert Counted(h, q.actual[target], q.inputs[target]);
    PredictedIsReal(h, req, hit);
    assert DelReq(q, source, req).heaps[target] == h;
  }

  /** What the cost of a candidate says of the tokens really ahead of the request's first
      token, its own recomputation included: on the new replica they are at most as many as on
      the old one, and fewer unless the two predictions draw and rounding decides. At any
      speed the new time is less than half a ten-thousandth of a second above the old one. */
  lemma MigrationHelps(env: Env, st: State, delay: seq<int>, source: int, c: Choice)
    requires StateOk(env, st) && Clean(st.q) && |delay| == env.n && 0 <= source < env.n
    requires c.index < |st.q.heaps[source]| && Candidate(env, st, delay, source, c.index) == Some(c)
    requires c.cost < 0.0 && c.targetLen <= st.q.heaps[source][c.index].req.numPrefill
    ensures 0 <= c.target < env.n && c.target != source
    ensures var req := st.q.heaps[source][c.index].req;
            var now := RealWait(env, Migrate(env, st, source, c).q, c.target, req);
            var was := RealWait(env, st.q, source, req);
            && now as real * env.tpot < was as real * env.tpot + 0.00005
            && (env.tpot > 0.00005 ==> now <= was)
            && (env.tpot > 0.00005 && !Draw(env.tpot, now, Wait(env, st.q, source, req)) ==> now < was)
  {
    hide RealWait, Wait, Migrate, Candidate, Draw, Cost, Clean, WellFormed;
    WellFormedShape(st.q, env.n);
    MovedWait(env, st, delay, source, c);
    SourceWait(env, st.q, source, c.index);
    var req := st.q.heaps[source][c.index].req;
    var target, predicted := Wait(env, st.q, c.target, req), Wait(env, st.q, source, req);
    CheaperWait(env.tpot, target, predicted, RealWait(env, st.q, source, req));
  }

  /** The predicted wait at the target is what really awaits the request there. */
  lemma MovedWait(env: Env, st: State, delay: seq<int>, source: int, c: Choice)
    requires StateOk(env, st) && Clean(st.q) && |delay| == env.n && 0 <= source < env.n
    requires c.index < |st.q.heaps[source]| && Candidate(env, st, delay, source, c.index) == Some(c)
    requires c.targetLen <= st.q.heaps[source][c.index].req.numPrefill
    ensures 0 <= c.target < env.n && c.target != source
    ensures var req := st.q.heaps[source][c.index].req;
            && c.cost == Cost(env.tpot, Wait(env, st.q, c.target, req), Wait(env, st.q, source, req))
            && RealWait(env, Migrate(env, st, source, c).q, c.target, req) == Wait(env, st.q, c.target, req)
  {
    hide Predict, Drain, DelReq, Push, Cost, Clean, WellFormed;
    WellFormedShape(st.q, env.n);
    var req := st.q.heaps[source][c.index].req;
    assert 0 <= c.target < env.n && c.target != source by { TargetFacts(env, st.waiting, delay, source, req); }
    assert c.targetLen == env.recompute(c.target, req);
    TargetWait(env, st.q, source, c.index, c.target);
  }

  lemma CheaperWait(tpot: real, target: int, source: int, actual: int)
    requires tpot > 0.0 && Cost(tpot, target, source) < 0.0 && source <= actual
    ensures target as real * tpot < actual as real * tpot + 0.00005
    ensures tpot > 0.00005 ==> target <= actual
    ensures tpot > 0.00005 && !Draw(tpot, target, source) ==> target < actual
  {
    hide Rounded;
    RoundedNear(target as real * tpot * 10000.0);
    TimesMono(tpot, source, actual);
    if tpot > 0.00005 { CostSign(tpot, target, source); }
  }

  // ---------------------------------------------------------------- stamps

  /** Every waiting request is stamped with the replica in whose queue it waits. */
  ghost predicate Stamped(q: Queues, primary: map<Request, int>) {
    forall r, x :: 0 <= r < |q.heaps| && Count(q.heaps[r], x) > 0 ==> x in primary && primary[x] == r
  }

  /** A migration takes one occurrence from the source, adds one at the target and leaves the
      other queues alone. */
  lemma MovedCounts(q: Queues, source: nat, target: nat, req: Request, hit: int, r: nat, x: Request)
    requires Shape(q, |q.heaps|) && source < |q.heaps| && target < |q.heaps| && source != target && r < |q.heaps|
    requires Has(q.heaps[source], req)
    ensures Count(Moved(q, source, target, req, hit).heaps[r], x) == Count(q.heaps[r], x) +
              if x == req && r == target then 1 else if x == req && r == source then -1 else 0
  {
    hide Heapify, HeapPush;
    DelReqCount(q, source, req, x);
    PushCount(DelReq(q, source, req), target, req, hit, x);
  }

  lemma MovedStamps(q: Queues, primary: map<Request, int>, source: nat, i: nat, target: nat, hit: int, r: nat,
      x: Request)
    requires Shape(q, |q.heaps|) && Clean(q) && Stamped(q, primary)
    requires source < |q.heaps| && target < |q.heaps| && target != source && i < |q.heaps[source]| && r < |q.heaps|
    requires Count(Moved(q, source, target, q.heaps[source][i].req, hit).heaps[r], x) > 0
    ensures var req := q.heaps[source][i].req;
            if x == req then r == target else x in primary && primary[x] == r
  {
    hide Moved;
    var req := q.heaps[source][i].req;
    assert Has(q.heaps[source], req);
    MovedCounts(q, source, target, req, hit, r, x);
    if x == req {
      InSome(q, source, i);
      TotalAtLeast(q.heaps, source, x);
      if r != source { NotElsewhere(q, source, r, req); }
    }
  }

  lemma MigrateStamps(env: Env, st: State, source: int, c: Choice)
    requires Shape(st.q, env.n) && |st.waiting| == env.n && Clean(st.q) && Stamped(st.q, st.primary)
    requires 0 <= source < env.n && 0 <= c.target < env.n && c.target != source && c.index < |st.q.heaps[source]|
    ensures Stamped(Migrate(env, st, source, c).q, Migrate(env, st, source, c).primary)
  {
    hide DelReq, Push;
    var req, u := st.q.heaps[source][c.index].req, Migrate(env, st, source, c);
    forall r, x | 0 <= r < env.n && Count(u.q.heaps[r], x) > 0 ensures x in u.primary && u.primary[x] == r {
      MovedStamps(st.q, st.primary, source, c.index, c.target, req.numPrefill - c.targetLen, r, x);
    }
  }

  lemma CleanSubset(a: Heap, b: Heap)
    requires CleanList(a) && multiset(b) <= multiset(a)
    ensures CleanList(b)
  {
    forall it | it in b ensures it in a {
      assert it in multiset(b);
      assert it in multiset(a);
    }
  }

  lemma CleanPush(h: Heap, it: Item)
    requires CleanList(h) && it.arrived == it.req.arrived && Tokens(it) >= 0
    ensures CleanList(HeapPush(h, it))
  {
    PushSame(h, it);
    assert multiset(h + [it]) == multiset(h) + multiset{it};
    CleanSubset(h + [it], HeapPush(h, it));
  }

  lemma CleanDelete(h: Heap, i: nat)
    requires CleanList(h) && i < |h|
    ensures CleanList(Heapify(h[..i] + h[i + 1..]))
  {
    DelSums(h, i);
    CleanSubset(h, Heapify(h[..i] + h[i + 1..]));
  }

  lemma MovedClean(q: Queues, source: nat, i: nat, target: nat, hit: int)
    requires Shape(q, |q.heaps|) && Clean(q)
    requires source < |q.heaps| && target < |q.heaps| && target != source && i < |q.heaps[source]|
    requires q.heaps[source][i].req.numPrefill - hit >= 0
    ensures Clean(Moved(q, source, target, q.heaps[source][i].req, hit))
  {
    hide Heapify, HeapPush;
    var req := q.heaps[source][i].req;
    var u := Moved(q, source, target, req, hit);
    assert Has(q.heaps[source], req);
    MovedSame(q, source, target, req, hit);
    CleanDelete(q.heaps[source], Find(q.heaps[source], req));
    CleanPush(q.heaps[target], ItemFor(req, hit));
    forall r | 0 <= r < |u.heaps| ensures CleanList(u.heaps[r]) {
      if r != source && r != target { assert u.heaps[r] == q.heaps[r]; }
    }
  }

  ghost predicate Prefills(env: Env) { forall r, x :: env.recompute(r, x) >= 0 }

  lemma {:induction false} LoopStamps(env: Env, st: State, delay: seq<int>, source: int, goal: int)
    requires StateOk(env, st) && |delay| == env.n && 0 <= source < env.n && Prefills(env)
    requires Clean(st.q) && Stamped(st.q, st.primary)
    ensures var u := Loop(env, st, delay, source, goal); Clean(u.q) && Stamped(u.q, u.primary)
    decreases |st.q.heaps[source]|
  {
    hide DelReq, Push, Predict, Cost;
    var b := Best(env, st, delay, source, |st.q.heaps[source]|);
    if b.Some? && b.value.cost < 0.0 && !(goal > 0 && st.migrated >= goal) {
      var c := b.value;
      var req := st.q.heaps[source][c.index].req;
      assert 0 <= c.target < env.n && c.target != source && c.targetLen >= 0 by {
        TargetFacts(env, st.waiting, delay, source, req);
      }
      var hit, u := req.numPrefill - c.targetLen, Migrate(env, st, source, c);
      assert Clean(u.q) by { MovedClean(st.q, source, c.index, c.target, hit); }
      assert Stamped(u.q, u.primary) by { MigrateStamps(env, st, source, c); }
      assert WellFormed(u.q, env.n) by { MovedKeeps(st.q, env.n, source, c.target, req, hit); }
      MigrateShrinks(env, st, source, c);
      LoopStamps(env, u, delay, source, goal);
    }
  }

  /** A rebalance keeps every request queued once and stamped with its queue. */
  lemma RebalanceStamps(env: Env, st: State, source: int, goal: int)
    requires StateOk(env, st) && 0 <= source < env.n && Prefills(env)
    requires Clean(st.q) && Stamped(st.q, st.primary)
    ensures var u := Rebalanced(env, st, source, goal); Clean(u.q) && Stamped(u.q, u.primary)
  {
    if |st.q.heaps[source]| > 1 {
      LoopStamps(env, st.(waiting := st.q.actual, migrated := 0), Delays(st.q, env.now), source, goal);
    }
  }
}
