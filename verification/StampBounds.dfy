/** Conditions on the state before an arrival that decide whether its stamp will be right,
    without following the migration loop. */
module StampBounds {
  import opened Common
  import opened Requests
  import opened Heapq
  import opened RequestQueue
  import opened Latency
  import opened Rebalance
  import opened RebalanceGains
  import opened Dispatch
  import opened Stamps

  // ---------------------------------------------------------------- the one place to go

  /** The neighbour of p, or of s when that is the neighbour. */
  function Spare(env: Env, p: int, s: int): int
    requires env.n > 0
  {
    if (p + 1) % env.n == s then (s + 1) % env.n else (p + 1) % env.n
  }

  ghost predicate Candidates(env: Env, req: Request, p: int, s: int)
    requires env.n > 0
  {
    && 0 <= p < env.n && 0 <= s < env.n && p != s
    && ((p == First(env, req) && s == Second(env, req)) || (s == First(env, req) && p == Second(env, req)))
  }

  /** With the other candidate overloaded a request at p can only go to one replica, and on
      two replicas it can go nowhere. */
  lemma NextButS(env: Env, p: int, s: int)
    requires env.n > 0 && 0 <= p < env.n && 0 <= s < env.n && p != s
    ensures (p + 1) % env.n != p && 0 <= Spare(env, p, s) < env.n && Spare(env, p, s) != s
    ensures Spare(env, p, s) == p <==> env.n == 2
  {
  }

  lemma OnlyTarget(env: Env, waiting: seq<int>, delay: seq<int>, p: int, s: int, req: Request)
    requires EnvOk(env) && |waiting| == |delay| == env.n && Candidates(env, req, p, s)
    requires Overloaded(env, waiting, delay, s, req)
    ensures 0 <= Spare(env, p, s) < env.n
    ensures env.n > 2 ==> Spare(env, p, s) != p && Spare(env, p, s) != s
    ensures Target(env, waiting, delay, p, req) ==
              if env.n > 2 && !Overloaded(env, waiting, delay, Spare(env, p, s), req)
              then Some(Spare(env, p, s)) else None
  {
    hide Overloaded;
    NextButS(env, p, s);
  }

  // ---------------------------------------------------------------- waits as others migrate

  lemma DropWait(h: Heap, i: nat, e: Item, hit: int)
    requires IsHeap(h) && CleanList(h) && i < |h| && e in h && h[i] != e
    requires forall j :: 0 <= j < |h| && h[j] != e ==> h[j].req != e.req && h[j].arrived != e.arrived
    ensures Predict(Heapify(h[..i] + h[i + 1..]), e.req, hit) <= Predict(h, e.req, hit)
  {
    hide Predict, Heapify, Drain;
    var rest := h[..i] + h[i + 1..];
    var g, x := Heapify(rest), ItemFor(e.req, hit);
    var y := if Less(x, e) then x else e;
    HeapifyHeap(rest);
    MultisetRemove(h, i);
    SumsRemove(h, i, y);
    SumsPermuted(g, rest, y);
    assert e in multiset(h);
    assert e in multiset(g);
    forall j | 0 <= j < |g| ensures g[j] in h {
      assert g[j] in multiset(g);
      assert g[j] in multiset(h);
    }
    assert h[i] in h;
    PredictedQueued(h, e, hit);
    PredictedQueued(g, e, hit);
  }

  lemma PushWait(h: Heap, it: Item, req: Request, hit: int)
    requires IsHeap(h) && Tokens(it) >= 0 && it.req != req && it.arrived != req.arrived
    requires forall j :: 0 <= j < |h| ==> h[j].req != req && h[j].arrived != req.arrived
    ensures Predict(HeapPush(h, it), req, hit) >= Predict(h, req, hit)
  {
    hide Predict, HeapPush, Drain;
    var g, x := HeapPush(h, it), ItemFor(req, hit);
    PushHeap(h, it);
    PushSame(h, it);
    assert multiset(h + [it]) == multiset(h) + multiset{it};
    forall j | 0 <= j < |g| ensures g[j].req != req && g[j].arrived != req.arrived {
      assert g[j] in multiset(g);
      var k := PositionOf(h + [it], g[j]);
    }
    SumsPermuted(g, h + [it], x);
    SumsAppend(h, [it], x);
    assert TokensBefore([it], x) >= 0;
    PredictedIsReal(h, req, hit);
    PredictedIsReal(g, req, hit);
  }

  /** A migration of another request from the source shortens the wait there ... */
  lemma SourceShorter(env: Env, q: Queues, source: nat, i: nat, k: nat, target: nat, hit: int)
    requires EnvOk(env) && WellFormed(q, env.n) && Clean(q) && source < env.n && target < env.n && target != source
    requires i < |q.heaps[source]| && k < |q.heaps[source]| && i != k
    ensures var req := q.heaps[source][k].req;
            Wait(env, Moved(q, source, target, q.heaps[source][i].req, hit), source, req) <= Wait(env, q, source, req)
  {
    hide Predict, Heapify, HeapPush;
    var h, e := q.heaps[source], q.heaps[source][k];
    assert Counted(h, q.actual[source], q.inputs[source]) && CleanList(h);
    forall j | 0 <= j < |h| && h[j] != e
      ensures h[j].req != e.req && h[j].arrived != e.arrived
    {
      QueuedOnce(q, source, k, j);
    }
    var f := Find(h, h[i].req);
    assert f == i by { if f != i { QueuedOnce(q, source, f, i); } }
    QueuedOnce(q, source, i, k);
    DropWait(h, i, e, Hit(e.req, env.recompute(source, e.req)));
  }

  /** ... and shortens no wait the request would have elsewhere. */
  lemma TargetLonger(env: Env, q: Queues, source: nat, i: nat, k: nat, target: nat, hit: int, r: nat)
    requires EnvOk(env) && WellFormed(q, env.n) && Clean(q) && source < env.n && target < env.n && target != source
    requires i < |q.heaps[source]| && k < |q.heaps[source]| && i != k && r < env.n && r != source
    requires q.heaps[source][i].req.numPrefill - hit >= 0
    ensures var req := q.heaps[source][k].req;
            Wait(env, Moved(q, source, target, q.heaps[source][i].req, hit), r, req) >= Wait(env, q, r, req)
  {
    hide Predict, Heapify, HeapPush;
    var req, x := q.heaps[source][k].req, q.heaps[source][i].req;
    var h := q.heaps[r];
    assert DelReq(q, source, x).heaps[r] == h;
    if r == target {
      InSome(q, source, i);
      InSome(q, source, k);
      QueuedOnce(q, source, i, k);
      assert Counted(h, q.actual[r], q.inputs[r]);
      forall j | 0 <= j < |h| ensures h[j].req != req && h[j].arrived != req.arrived {
        InSome(q, r, j);
        NotElsewhere(q, source, r, req);
        assert CleanList(h) && h[j] in h;
      }
      PushWait(h, ItemFor(x, hit), req, Hit(req, env.recompute(r, req)));
    }
  }

  // ---------------------------------------------------------------- bounds before the call

  /** What a move to the spare replica would cost the request, in seconds. */
  function MoveCost(env: Env, q: Queues, p: int, s: int, req: Request): real
    requires EnvOk(env) && Shape(q, env.n) && 0 <= p < env.n && 0 <= Spare(env, p, s) < env.n
  {
    Cost(env.tpot, Wait(env, q, Spare(env, p, s), req), Wait(env, q, p, req))
  }

  /** A replica to go to that has room and where the request is predicted to be served earlier. */
  predicate Tempting(env: Env, q: Queues, waiting: seq<int>, delay: seq<int>, p: int, s: int, req: Request)
    requires EnvOk(env) && Shape(q, env.n) && |waiting| == |delay| == env.n && 0 <= p < env.n
    requires 0 <= Spare(env, p, s) < env.n
  {
    env.n > 2 && !Overloaded(env, waiting, delay, Spare(env, p, s), req) && MoveCost(env, q, p, s, req) < 0.0
  }

  lemma PickIsTempting(env: Env, st: State, delay: seq<int>, p: int, s: int, c: Choice)
    requires EnvOk(env) && Shape(st.q, env.n) && |st.waiting| == |delay| == env.n && 0 <= p < env.n
    requires c.index < |st.q.heaps[p]| && Candidate(env, st, delay, p, c.index) == Some(c) && c.cost < 0.0
    requires Candidates(env, st.q.heaps[p][c.index].req, p, s)
    requires Overloaded(env, st.waiting, delay, s, st.q.heaps[p][c.index].req)
    ensures 0 <= Spare(env, p, s) < env.n && Tempting(env, st.q, st.waiting, delay, p, s, st.q.heaps[p][c.index].req)
  {
    hide Target, Overloaded, Wait;
    OnlyTarget(env, st.waiting, delay, p, s, st.q.heaps[p][c.index].req);
  }

  /** What is not tempting does not become so while others migrate. */
  lemma StaysUntempting(env: Env, st: State, delay: seq<int>, p: int, s: int, c: Choice, k: nat)
    requires StateOk(env, st) && Clean(st.q) && Prefills(env) && |delay| == env.n
    requires 0 <= p < env.n && 0 <= s < env.n && p != s && env.n > 2
    requires c.index < |st.q.heaps[p]| && k < |st.q.heaps[p]| && k != c.index
    requires Candidate(env, st, delay, p, c.index) == Some(c)
    ensures 0 <= c.target < env.n && c.target != p && c.targetLen >= 0 && 0 <= Spare(env, p, s) < env.n
    ensures var req, v := st.q.heaps[p][k].req, Migrate(env, st, p, c);
            Tempting(env, v.q, v.waiting, delay, p, s, req) ==> Tempting(env, st.q, st.waiting, delay, p, s, req)
  {
    hide Wait, Target, Moved, WellFormed, Clean, Overloaded;
    WellFormedShape(st.q, env.n);
    CandidateTarget(env, st, delay, p, c);
    NextButS(env, p, s);
    var x := st.q.heaps[p][c.index].req;
    assert c.targetLen == env.recompute(c.target, x) >= 0;
    SourceShorter(env, st.q, p, c.index, k, c.target, x.numPrefill - c.targetLen);
    TargetLonger(env, st.q, p, c.index, k, c.target, x.numPrefill - c.targetLen, Spare(env, p, s));
    WaitsCost(env, st.q, Migrate(env, st, p, c).q, p, s, st.q.heaps[p][k].req);
    MoreLoad(env, st.waiting, st.waiting[c.target := st.waiting[c.target] + c.targetLen], delay, Spare(env, p, s),
        st.q.heaps[p][k].req);
  }

  lemma WaitsCost(env: Env, q: Queues, u: Queues, p: int, s: int, req: Request)
    requires EnvOk(env) && Shape(q, env.n) && Shape(u, env.n) && 0 <= p < env.n && 0 <= Spare(env, p, s) < env.n
    requires Wait(env, u, Spare(env, p, s), req) >= Wait(env, q, Spare(env, p, s), req)
    requires Wait(env, u, p, req) <= Wait(env, q, p, req)
    ensures MoveCost(env, u, p, s, req) >= MoveCost(env, q, p, s, req)
  {
    hide Wait, Cost, Spare;
    CostMono(env.tpot, Wait(env, q, Spare(env, p, s), req), Wait(env, q, p, req),
             Wait(env, u, Spare(env, p, s), req), Wait(env, u, p, req));
  }

  lemma MoreLoad(env: Env, a: seq<int>, b: seq<int>, delay: seq<int>, r: int, req: Request)
    requires |a| == |b| && 0 <= r < |a| && r < |delay| && r < |env.pend| && a[r] <= b[r]
    ensures Overloaded(env, a, delay, r, req) ==> Overloaded(env, b, delay, r, req)
  {
  }

  lemma PlaceOf(h: Heap, req: Request) returns (k: nat)
    requires Count(h, req) > 0
    ensures k < |h| && h[k].req == req
  {
    CountHas(h, req);
    k :| 0 <= k < |h| && h[k].req == req;
  }

  /** The loop does not pick a request that is not tempted when it begins. */
  lemma {:induction false} NeverPicked(env: Env, st: State, delay: seq<int>, p: int, goal: int, s: int, req: Request)
    requires StateOk(env, st) && Clean(st.q) && Prefills(env) && |delay| == env.n && Candidates(env, req, p, s)
    requires Only(st.q, p, req) && Overloaded(env, st.waiting, delay, s, req)
    requires 0 <= Spare(env, p, s) < env.n && !Tempting(env, st.q, st.waiting, delay, p, s, req)
    ensures !Leaves(env, st, delay, p, goal, req)
    decreases |st.q.heaps[p]|
  {
    hide Moved, Target, Wait, Count, Clean, WellFormed, Tempting, Only, Overloaded, Candidates;
    WellFormedShape(st.q, env.n);
    CandidatesMeaning(env, req, p, s);
    var m := Best(env, st, delay, p, |st.q.heaps[p]|);
    if m.Some? && m.value.cost < 0.0 && !(goal > 0 && st.migrated >= goal) {
      var c := m.value;
      if st.q.heaps[p][c.index].req == req {
        PickIsTempting(env, st, delay, p, s, c);
      } else {
        OnlyMeaning(st.q, p, req);
        var k := PlaceOf(st.q.heaps[p], req);
        NeverPickedStep(env, st, delay, p, s, c, k);
        MigrateShrinks(env, st, p, c);
        NeverPicked(env, Migrate(env, st, p, c), delay, p, goal, s, req);
      }
    }
  }

  lemma NeverPickedStep(env: Env, st: State, delay: seq<int>, p: int, s: int, c: Choice, k: nat)
    requires StateOk(env, st) && Clean(st.q) && Prefills(env) && |delay| == env.n && 0 <= p < env.n
    requires c.index < |st.q.heaps[p]| && k < |st.q.heaps[p]| && Candidate(env, st, delay, p, c.index) == Some(c)
    requires var req := st.q.heaps[p][k].req;
             && Candidates(env, req, p, s) && Only(st.q, p, req) && Overloaded(env, st.waiting, delay, s, req)
             && st.q.heaps[p][c.index].req != req
             && 0 <= Spare(env, p, s) < env.n && !Tempting(env, st.q, st.waiting, delay, p, s, req)
    ensures 0 <= c.target < env.n && c.target != p
    ensures var req, v := st.q.heaps[p][k].req, Migrate(env, st, p, c);
            && StateOk(env, v) && Clean(v.q) && Only(v.q, p, req) && Overloaded(env, v.waiting, delay, s, req)
            && !Tempting(env, v.q, v.waiting, delay, p, s, req)
  {
    hide Moved, Target, Wait, Count, Clean, WellFormed, Tempting, Only, Candidates;
    WellFormedShape(st.q, env.n);
    CandidatesMeaning(env, st.q.heaps[p][k].req, p, s);
    var x := st.q.heaps[p][c.index].req;
    CandidateTarget(env, st, delay, p, c);
    assert c.targetLen == env.recompute(c.target, x) >= 0;
    MovedOnly(env, st, delay, p, c, st.q.heaps[p][k].req);
    MovedClean(st.q, p, c.index, c.target, x.numPrefill - c.targetLen);
    MovedKeeps(st.q, env.n, p, c.target, x, x.numPrefill - c.targetLen);
    if env.n > 2 {
      StaysUntempting(env, st, delay, p, s, c, k);
    } else {
      NotTempting(env, Migrate(env, st, p, c), delay, p, s, st.q.heaps[p][k].req);
    }
  }

  lemma NotTempting(env: Env, st: State, delay: seq<int>, p: int, s: int, req: Request)
    requires EnvOk(env) && Shape(st.q, env.n) && |st.waiting| == |delay| == env.n && env.n <= 2
    requires 0 <= p < env.n && 0 <= Spare(env, p, s) < env.n
    ensures !Tempting(env, st.q, st.waiting, delay, p, s, req)
  {
  }

  lemma CandidatesMeaning(env: Env, req: Request, p: int, s: int)
    requires env.n > 0 && Candidates(env, req, p, s)
    ensures 0 <= p < env.n && 0 <= s < env.n && p != s
  {
  }

  lemma OnlyMeaning(q: Queues, r: nat, req: Request)
    requires r < |q.heaps| && Only(q, r, req)
    ensures Count(q.heaps[r], req) == 1
  {
  }

  /** Both candidates are hot, and the newcomer has company at the primary. */
  predicate Rebalances(cfg: Config, o: Oracle, w: World, req: Request)
    requires ConfigOk(cfg) && Sized(cfg, w)
  {
    var env := EnvOf(cfg, o, w.reps);
    EnvOkOf(cfg, o, w.reps);
    Hashed(cfg, env, req);
    var (p, s) := Select(cfg, o, env, w.q, req);
    Hot(env, w.q, p, p, req) && Hot(env, w.q, p, s, req) && w.q.heaps[p] != []
  }

  /** Once pushed, the newcomer is tempted by the spare replica. */
  predicate Tempted(cfg: Config, o: Oracle, w: World, req: Request)
    requires ConfigOk(cfg) && Sized(cfg, w)
  {
    var env := EnvOf(cfg, o, w.reps);
    EnvOkOf(cfg, o, w.reps);
    Hashed(cfg, env, req);
    var (p, s) := Select(cfg, o, env, w.q, req);
    var st := AfterPush(env, w, p, req);
    p != s && 0 <= Spare(env, p, s) < env.n && Tempting(env, st.q, st.waiting, Delays(st.q, env.now), p, s, req)
  }

  /** It is the loop's first choice. */
  predicate FirstChoice(cfg: Config, o: Oracle, w: World, req: Request)
    requires ConfigOk(cfg) && Sized(cfg, w)
  {
    var env := EnvOf(cfg, o, w.reps);
    EnvOkOf(cfg, o, w.reps);
    Hashed(cfg, env, req);
    var p := Select(cfg, o, env, w.q, req).0;
    var st := AfterPush(env, w, p, req);
    var m := Best(env, st, Delays(st.q, env.now), p, |st.q.heaps[p]|);
    m.Some? && m.value.cost < 0.0 && st.q.heaps[p][m.value.index].req == req
  }

  lemma SelectsCandidates(cfg: Config, o: Oracle, env: Env, q: Queues, req: Request)
    requires env.n > 0 && |q.actual| == env.n == |env.pend|
    requires 0 <= First(env, req) < env.n && 0 <= Second(env, req) < env.n
    ensures var (p, s) := Select(cfg, o, env, q, req); p == s || Candidates(env, req, p, s)
  {
    hide CacheHit, Virtual;
  }

  /** A newcomer moves on only if it is tempted before the loop begins. */
  lemma MovesOnlyTempted(cfg: Config, o: Oracle, w: World, req: Request)
    requires ConfigOk(cfg) && OracleOk(o) && Sized(cfg, w) && WellFormed(w.q, cfg.n)
    requires Clean(w.q) && Stamped(w.q, w.primary) && Joins(w.q, req) && MovesOn(cfg, o, w, req)
    ensures Rebalances(cfg, o, w, req) && Tempted(cfg, o, w, req)
  {
    hide Clean, Stamped, WellFormed, Select, Hot, Backlog, Push, Loads, Leaves, Delays, Tempting, Candidates,
        Overloaded, Only, Spare;
    var env := EnvOf(cfg, o, w.reps);
    EnvOkOf(cfg, o, w.reps);
    Hashed(cfg, env, req);
    var (p, s) := Select(cfg, o, env, w.q, req);
    TwoCandidates(cfg, o, env, w.q, req);
    SelectsCandidates(cfg, o, env, w.q, req);
    assert Prefills(env) by { forall r, x ensures env.recompute(r, x) >= 0 { assert o.recompute(r, x) >= 0; } }
    var st := AfterPush(env, w, p, req);
    PushedState(env, w, p, req);
    var goal := Backlog(env, w.q, p, p, req) - cfg.threshold;
    if p == s {
      NoLeave(env, st, Delays(st.q, env.now), p, goal, req);
    } else {
      NextButSpare(env, req, p, s);
      HotIsOverloaded(env, w, p, s, req);
      if !Tempting(env, st.q, st.waiting, Delays(st.q, env.now), p, s, req) {
        NeverPicked(env, st, Delays(st.q, env.now), p, goal, s, req);
      }
    }
  }

  lemma NextButSpare(env: Env, req: Request, p: int, s: int)
    requires env.n > 0 && Candidates(env, req, p, s)
    ensures 0 <= Spare(env, p, s) < env.n
  {
    NextButS(env, p, s);
  }

  lemma NoLeave(env: Env, st: State, delay: seq<int>, source: int, goal: int, req: Request)
    requires EnvOk(env) && env.n == 1 && Shape(st.q, env.n) && |st.waiting| == |delay| == env.n && 0 <= source < env.n
    ensures !Leaves(env, st, delay, source, goal, req)
  {
    hide Best;
    NowhereToGo(env, st, delay, source, |st.q.heaps[source]|);
  }

  lemma PushedState(env: Env, w: World, p: int, req: Request)
    requires EnvOk(env) && Prefills(env) && WellFormed(w.q, env.n) && Clean(w.q) && Stamped(w.q, w.primary)
    requires Joins(w.q, req)
    requires 0 <= p < env.n
    ensures Shape(w.q, env.n)
    ensures StateOk(env, AfterPush(env, w, p, req)) && Clean(AfterPush(env, w, p, req).q)
    ensures Only(AfterPush(env, w, p, req).q, p, req)
  {
    hide Push, Clean, Stamped, Only, WellFormed;
    WellFormedShape(w.q, env.n);
    var hit := CacheHit(env, p, req);
    assert req.numPrefill - hit >= 0 by { assert env.recompute(p, req) >= 0; }
    PushKeeps(w.q, env.n, p, req, hit);
    PushStamped(w.q, w.primary, p, req, hit);
    PushOnly(env, w, p, req);
  }

  /** Stamps stay right whenever no rebalance with company follows the push, or the newcomer is
      not tempted: on one or two replicas always, and where the spare replica has no room for
      it or is not predicted to serve it earlier. */
  lemma StampKept(cfg: Config, o: Oracle, w: World, req: Request)
    requires ConfigOk(cfg) && OracleOk(o) && Sized(cfg, w) && WellFormed(w.q, cfg.n)
    requires Clean(w.q) && Stamped(w.q, w.primary) && Joins(w.q, req)
    requires !Rebalances(cfg, o, w, req) || !Tempted(cfg, o, w, req) || cfg.n <= 2
    ensures Stamped(AddRequest(cfg, o, w, req).q, AddRequest(cfg, o, w, req).primary)
  {
    hide Clean, Stamped, WellFormed, AddRequest, Rebalances, MovesOn, Joins;
    StampExact(cfg, o, w, req);
    if MovesOn(cfg, o, w, req) {
      MovesOnlyTempted(cfg, o, w, req);
      TemptedMany(cfg, o, w, req);
    }
  }

  lemma TemptedMany(cfg: Config, o: Oracle, w: World, req: Request)
    requires ConfigOk(cfg) && Sized(cfg, w) && Tempted(cfg, o, w, req)
    ensures cfg.n > 2
  {
    hide Select, Push, Loads, Overloaded, MoveCost, Delays;
  }

  /** A stamp goes stale whenever the newcomer is the loop's first choice. */
  lemma StampLost(cfg: Config, o: Oracle, w: World, req: Request)
    requires ConfigOk(cfg) && OracleOk(o) && Sized(cfg, w) && WellFormed(w.q, cfg.n)
    requires Clean(w.q) && Stamped(w.q, w.primary) && Joins(w.q, req)
    requires Rebalances(cfg, o, w, req) && FirstChoice(cfg, o, w, req)
    ensures !Stamped(AddRequest(cfg, o, w, req).q, AddRequest(cfg, o, w, req).primary)
  {
    hide Clean, Stamped, WellFormed, AddRequest, Joins, Best, Select, Hot, Backlog, Push, Delays;
    StampExact(cfg, o, w, req);
  }
}
