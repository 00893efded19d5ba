/** No schedule call overloads a replica: over all the rebalances of an arrival and of a pass,
    a queue only loses entries or ends within the threshold. */
module Overload {
  import opened Common
  import opened Requests
  import opened Heapq
  import opened RequestQueue
  import opened Rebalance
  import opened RebalanceGains
  import opened Replicas
  import opened Dispatch
  import opened Runs
  import opened Strands
  import opened CleanRuns

  /** Every queue of `now` has lost entries only, or its waiting and local pending tokens are
      within the threshold. */
  ghost predicate Fits(env: Env, was: Queues, now: Queues) {
    && Shape(was, env.n) && WellFormed(now, env.n) && |env.pend| == env.n
    && forall r :: 0 <= r < env.n ==>
         multiset(now.heaps[r]) <= multiset(was.heaps[r]) || now.actual[r] + env.pend[r] <= env.threshold
  }

  lemma {:induction false} FewerTokens(a: Heap, b: Heap)
    requires CleanList(a) && multiset(b) <= multiset(a)
    ensures SumTokens(b) <= SumTokens(a)
  {
    if b == [] {
      if a != [] { FewerTokens(a[1..], []); }
    } else {
      assert b == [b[0]] + b[1..];
      assert b[0] in multiset(b);
      assert b[0] in multiset(a);
      var i := PositionOf(a, b[0]);
      var rest := a[..i] + a[i + 1..];
      MultisetRemove(a, i);
      SumsRemove(a, i, b[0]);
      CleanSubset(a, rest);
      FewerTokens(rest, b[1..]);
    }
  }

  /** Losing entries that count no negative number of tokens keeps a queue within the threshold. */
  lemma FitsOn(env: Env, was: Queues, mid: Queues, now: Queues)
    requires Fits(env, was, mid) && Fits(env, mid, now) && Lists(mid)
    ensures Fits(env, was, now)
  {
    hide IsHeap;
    forall r | 0 <= r < env.n
      ensures multiset(now.heaps[r]) <= multiset(was.heaps[r]) || now.actual[r] + env.pend[r] <= env.threshold
    {
      assert Counted(mid.heaps[r], mid.actual[r], mid.inputs[r]) && Counted(now.heaps[r], now.actual[r], now.inputs[r]);
      if multiset(now.heaps[r]) <= multiset(mid.heaps[r]) { FewerTokens(mid.heaps[r], now.heaps[r]); }
    }
  }

  /** The source of a migration only loses entries. */
  lemma {:induction false} LoopSource(env: Env, st: State, delay: seq<int>, source: int, goal: int)
    requires EnvOk(env) && Shape(st.q, env.n) && |st.waiting| == |delay| == env.n && 0 <= source < env.n
    ensures multiset(Loop(env, st, delay, source, goal).q.heaps[source]) <= multiset(st.q.heaps[source])
    decreases |st.q.heaps[source]|
  {
    hide Push, Heapify, Target, Wait;
    var m := Best(env, st, delay, source, |st.q.heaps[source]|);
    if m.Some? && m.value.cost < 0.0 && !(goal > 0 && st.migrated >= goal) {
      var c := m.value;
      CandidateTarget(env, st, delay, source, c);
      MigrateShrinks(env, st, source, c);
      SourceLoses(st.q, source, c.index, c.target, st.q.heaps[source][c.index].req.numPrefill - c.targetLen);
      LoopSource(env, Migrate(env, st, source, c), delay, source, goal);
    }
  }

  lemma SourceLoses(q: Queues, source: nat, i: nat, target: nat, hit: int)
    requires Shape(q, |q.heaps|) && source < |q.heaps| && target < |q.heaps| && source != target
    requires i < |q.heaps[source]|
    ensures multiset(Moved(q, source, target, q.heaps[source][i].req, hit).heaps[source]) <= multiset(q.heaps[source])
  {
    hide Heapify, HeapPush;
    var f := Find(q.heaps[source], q.heaps[source][i].req);
    assert f <= i;
    DelSums(q.heaps[source], f);
  }

  lemma RebalancedFits(env: Env, st: State, source: int, goal: int)
    requires StateOk(env, st) && 0 <= source < env.n
    ensures Fits(env, st.q, Rebalanced(env, st, source, goal).q)
  {
    hide Loop, IsHeap;
    RebalanceSafe(env, st, source, goal);
    if |st.q.heaps[source]| > 1 {
      LoopSource(env, st.(waiting := st.q.actual, migrated := 0), Delays(st.q, env.now), source, goal);
    }
  }

  lemma {:induction false} RebalanceFromFits(env: Env, st: State, r: nat)
    requires StateOk(env, st) && Prefills(env) && r <= env.n && Lists(st.q)
    ensures Fits(env, st.q, RebalanceFrom(env, st, r).q)
    decreases env.n - r
  {
    hide Rebalanced, Lists, MaxDelay, IsHeap;
    if r < env.n {
      var tokens := st.q.actual[r] + env.pend[r];
      if tokens > env.threshold || MaxDelay(st.q.heaps[r], env.now) >= env.latency {
        var u := Rebalanced(env, st, r, tokens - env.threshold);
        RebalancedFits(env, st, r, tokens - env.threshold);
        RebalancedLists(env, st, r, tokens - env.threshold);
        RebalanceFromFits(env, u, r + 1);
        FitsOn(env, st.q, u.q, RebalanceFrom(env, u, r + 1).q);
      } else {
        RebalanceFromFits(env, st, r + 1);
      }
    }
  }

  lemma {:induction false} PoppedManyLoses(q: Queues, r: nat, k: nat)
    requires r < |q.heaps| && Shape(q, |q.heaps|) && k <= |q.heaps[r]|
    ensures multiset(PoppedMany(q, r, k).heaps[r]) <= multiset(q.heaps[r])
    ensures forall s :: 0 <= s < |q.heaps| && s != r ==> PoppedMany(q, r, k).heaps[s] == q.heaps[s]
  {
    hide HeapPop;
    if k > 0 {
      PoppedManyLoses(q, r, k - 1);
      var h := PoppedMany(q, r, k - 1).heaps[r];
      PopSame(h);
      assert h == [h[0]] + h[1..];
    }
  }

  lemma {:induction false} PopFromLoses(cfg: Config, o: Oracle, reps: seq<Rep>, q: Queues, r: nat)
    requires Shape(q, cfg.n) && |reps| == cfg.n && r <= cfg.n
    ensures forall s :: 0 <= s < cfg.n ==> multiset(PopFrom(cfg, o, reps, q, r).1.heaps[s]) <= multiset(q.heaps[s])
    decreases cfg.n - r
  {
    hide Drain, PoppedMany, TakeCount;
    if r < cfg.n {
      if Served(cfg, o, reps, q, r) {
        var max := Some(cfg.cap - |reps[r].pending|);
        PoppedManyLoses(q, r, TakeCount(Drain(q.heaps[r]), reps[r].budget, max, 0));
        PopFromLoses(cfg, o, reps, PopSchedulable(q, r, reps[r].budget, max).1, r + 1);
      } else {
        PopFromLoses(cfg, o, reps, q, r + 1);
      }
    }
  }

  lemma PassFits(cfg: Config, o: Oracle, w: World)
    requires ConfigOk(cfg) && OracleOk(o) && Sized(cfg, w) && QueuesOk(cfg.n, w.q, w.primary) && Lists(w.q)
    ensures Fits(EnvOf(cfg, o, w.reps), w.q, Pass(cfg, o, w).1.q)
  {
    hide RebalanceFrom, PopFrom, Lists, Loads, IsHeap;
    var env := EnvOf(cfg, o, w.reps);
    EnvOkOf(cfg, o, w.reps);
    PrefillsOf(cfg, o, w.reps);
    var st := State(w.q, w.primary, w.second, w.q.actual, 0);
    var q := RebalanceFrom(env, st, 0).q;
    RebalanceFromFits(env, st, 0);
    RebalanceFromLists(env, st, 0);
    PassOk(cfg, o, w);
    PopFromLoses(cfg, o, w.reps, q, 0);
    FitsOn(env, w.q, q, Pass(cfg, o, w).1.q);
  }

  /** The queues once a newcomer has joined its primary's queue, before any rebalance. */
  function Joined(cfg: Config, o: Oracle, w: World, arrival: Option<Request>): (q: Queues)
    requires ConfigOk(cfg) && Sized(cfg, w)
    ensures Shape(q, cfg.n)
  {
    if arrival == None then w.q
    else
      var env, req := EnvOf(cfg, o, w.reps), arrival.value;
      Hashed(cfg, env, req);
      var p := Select(cfg, o, env, w.q, req).0;
      Push(w.q, p, req, CacheHit(env, p, req))
  }

  lemma AddRequestFits(cfg: Config, o: Oracle, w: World, req: Request)
    requires ConfigOk(cfg) && OracleOk(o) && Sized(cfg, w) && WellFormed(w.q, cfg.n) && Lists(w.q)
    requires req.numPrefill == |req.inputIds|
    ensures Fits(EnvOf(cfg, o, w.reps), Joined(cfg, o, w, Some(req)), AddRequest(cfg, o, w, req).q)
  {
    hide Lists, Push, Rebalanced, Select, Hot, Backlog, Loads, IsHeap, Counted;
    var env := EnvOf(cfg, o, w.reps);
    EnvOkOf(cfg, o, w.reps);
    Hashed(cfg, env, req);
    var (p, s) := Select(cfg, o, env, w.q, req);
    SelectRange(cfg, o, env, w.q, req);
    PrefillsOf(cfg, o, w.reps);
    assert o.recompute(p, req) >= 0;
    var hit := CacheHit(env, p, req);
    PushLists(w.q, p, req, hit);
    PushKeeps(w.q, cfg.n, p, req, hit);
    var st := State(Push(w.q, p, req, hit), w.primary, w.second, w.q.actual, 0);
    if Hot(env, w.q, p, p, req) && Hot(env, w.q, p, s, req) {
      var g1, g2 := Backlog(env, w.q, p, p, req) - cfg.threshold, Backlog(env, w.q, p, s, req) - cfg.threshold;
      var st1 := Rebalanced(env, st, p, g1);
      RebalancedFits(env, st, p, g1);
      RebalancedLists(env, st, p, g1);
      RebalancedFits(env, st1, s, g2);
      FitsOn(env, st.q, st1.q, Rebalanced(env, st1, s, g2).q);
    }
  }

  /** Over one schedule call, the arrival's rebalances, the pass's and its pops together, every
      queue loses entries only or ends within the threshold; only the newcomer's own entry may
      push its primary's queue beyond it. */
  lemma ScheduleFits(cfg: Config, o: Oracle, w: World, arrival: Option<Request>)
    requires ConfigOk(cfg) && OracleOk(o) && Sized(cfg, w) && QueuesOk(cfg.n, w.q, w.primary) && Lists(w.q)
    requires arrival.Some? ==> arrival.value.numPrefill == |arrival.value.inputIds|
    ensures Fits(EnvOf(cfg, o, w.reps), Joined(cfg, o, w, arrival), Schedule(cfg, o, w, arrival).q)
  {
    hide AddRequest, Pass, PostAll, Lists, Loads, Joined, IsHeap, Counted;
    var v := AtPass(cfg, o, w, arrival);
    if arrival.Some? {
      AddRequestFits(cfg, o, w, arrival.value);
      AddRequestLists(cfg, o, w, arrival.value);
      AddRequestOk(cfg, o, w, arrival.value);
    } else {
      assert Joined(cfg, o, w, arrival) == w.q by { JoinedNone(cfg, o, w); }
    }
    PassFits(cfg, o, v);
    PostKeepsQueues(cfg, o, v);
    if arrival.Some? { FitsOn(EnvOf(cfg, o, w.reps), Joined(cfg, o, w, arrival), v.q, Schedule(cfg, o, w, arrival).q); }
  }

  lemma JoinedNone(cfg: Config, o: Oracle, w: World)
    requires ConfigOk(cfg) && Sized(cfg, w)
    ensures Joined(cfg, o, w, None) == w.q
  {
  }

  /** At every step of a run. */
  lemma RunFits(cfg: Config, ws: seq<World>, es: seq<(Event, Oracle)>, i: nat)
    requires IsRun(cfg, ws, es) && Orderly(es) && i < |es|
    ensures Sized(cfg, ws[i])
    ensures Fits(EnvOf(cfg, es[i].1, ws[i].reps), Joined(cfg, es[i].1, ws[i], Newcomer(es[i].0)), ws[i + 1].q)
  {
    hide Start, Lists, RepOk, Schedule, Joined, Loads, IsHeap, Counted, Added, Prefilled, Decoded, Aborted;
    RunCore(cfg, ws, es, i);
    RunLists(cfg, ws, es, i);
    var o, w, e := es[i].1, ws[i], es[i].0;
    assert ws[i + 1] == Step(cfg, o, w, e);
    if e.Arrive? {
      ScheduleFits(cfg, o, w, Some(e.req));
    } else {
      JoinedNone(cfg, o, w);
      if e.Callback? {
        var v := w.(tasks := w.tasks - {e.req}, finished := w.finished + {e.req});
        JoinedNone(cfg, o, v);
        ScheduleFits(cfg, o, v, None);
      }
    }
  }
}
