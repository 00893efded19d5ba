/** The worlds of a run meet what the theorems on predicted waits, migrations and stamps ask of
    the queues, when arrival times differ and prompts are all prefill. */
module CleanRuns {
  import opened Common
  import opened Requests
  import opened Heapq
  import opened RequestQueue
  import opened Rebalance
  import opened RebalanceGains
  import opened Replicas
  import opened Dispatch
  import opened Runs
  import opened Completion
  import opened Stamps

  ghost predicate Lists(q: Queues) { forall r :: 0 <= r < |q.heaps| ==> CleanList(q.heaps[r]) }

  lemma PushLists(q: Queues, r: nat, req: Request, hit: int)
    requires r < |q.heaps| && Shape(q, |q.heaps|) && Lists(q) && req.numPrefill - hit >= 0
    ensures Lists(Push(q, r, req, hit))
  {
    hide HeapPush;
    CleanPush(q.heaps[r], ItemFor(req, hit));
  }

  lemma MovedLists(q: Queues, source: nat, i: nat, target: nat, hit: int)
    requires Shape(q, |q.heaps|) && Lists(q) && source < |q.heaps| && target < |q.heaps| && i < |q.heaps[source]|
    requires q.heaps[source][i].req.numPrefill - hit >= 0
    ensures Lists(Moved(q, source, target, q.heaps[source][i].req, hit))
  {
    hide Push, Heapify;
    var h, req := q.heaps[source], q.heaps[source][i].req;
    var f := Find(h, req);
    assert f <= i;
    CleanDelete(h, f);
    var u := DelReq(q, source, req);
    forall r | 0 <= r < |u.heaps| ensures CleanList(u.heaps[r]) { if r != source { assert u.heaps[r] == q.heaps[r]; } }
    PushLists(u, target, req, hit);
  }

  lemma {:induction false} LoopLists(env: Env, st: State, delay: seq<int>, source: int, goal: int)
    requires EnvOk(env) && Prefills(env) && Shape(st.q, env.n) && |st.waiting| == |delay| == env.n
    requires 0 <= source < env.n
    requires Lists(st.q)
    ensures Lists(Loop(env, st, delay, source, goal).q)
    decreases |st.q.heaps[source]|
  {
    hide Moved, Target, Wait, Lists;
    var m := Best(env, st, delay, source, |st.q.heaps[source]|);
    if m.Some? && m.value.cost < 0.0 && !(goal > 0 && st.migrated >= goal) {
      var c := m.value;
      CandidateTarget(env, st, delay, source, c);
      assert c.targetLen == env.recompute(c.target, st.q.heaps[source][c.index].req) >= 0;
      MovedLists(st.q, source, c.index, c.target, st.q.heaps[source][c.index].req.numPrefill - c.targetLen);
      MigrateShrinks(env, st, source, c);
      LoopLists(env, Migrate(env, st, source, c), delay, source, goal);
    }
  }

  lemma RebalancedLists(env: Env, st: State, source: int, goal: int)
    requires EnvOk(env) && Prefills(env) && Shape(st.q, env.n) && |st.waiting| == env.n && 0 <= source < env.n
    requires Lists(st.q)
    ensures Lists(Rebalanced(env, st, source, goal).q)
  {
    hide Loop, Lists;
    if |st.q.heaps[source]| > 1 {
      LoopLists(env, st.(waiting := st.q.actual, migrated := 0), Delays(st.q, env.now), source, goal);
    }
  }

  lemma {:induction false} RebalanceFromLists(env: Env, st: State, r: nat)
    requires EnvOk(env) && Prefills(env) && Shape(st.q, env.n) && |st.waiting| == env.n && r <= env.n && Lists(st.q)
    ensures Lists(RebalanceFrom(env, st, r).q)
    decreases env.n - r
  {
    hide Rebalanced, Lists, MaxDelay;
    if r < env.n {
      var tokens := st.q.actual[r] + env.pend[r];
      if tokens > env.threshold || MaxDelay(st.q.heaps[r], env.now) >= env.latency {
        RebalancedLists(env, st, r, tokens - env.threshold);
        RebalanceFromLists(env, Rebalanced(env, st, r, tokens - env.threshold), r + 1);
      } else {
        RebalanceFromLists(env, st, r + 1);
      }
    }
  }

  lemma {:induction false} PoppedLists(q: Queues, r: nat, k: nat)
    requires r < |q.heaps| && Shape(q, |q.heaps|) && k <= |q.heaps[r]| && Lists(q)
    ensures Lists(PoppedMany(q, r, k))
  {
    hide HeapPop;
    if k > 0 {
      PoppedLists(q, r, k - 1);
      var h := PoppedMany(q, r, k - 1).heaps[r];
      PopSame(h);
      CleanSubset(h, HeapPop(h));
    }
  }

  lemma {:induction false} PopFromLists(cfg: Config, o: Oracle, reps: seq<Rep>, q: Queues, r: nat)
    requires Shape(q, cfg.n) && |reps| == cfg.n && r <= cfg.n && Lists(q)
    ensures Lists(PopFrom(cfg, o, reps, q, r).1)
    decreases cfg.n - r
  {
    hide Drain, PoppedMany, Lists, TakeCount;
    if r < cfg.n {
      if Served(cfg, o, reps, q, r) {
        var max := Some(cfg.cap - |reps[r].pending|);
        PoppedLists(q, r, TakeCount(Drain(q.heaps[r]), reps[r].budget, max, 0));
        PopFromLists(cfg, o, reps, PopSchedulable(q, r, reps[r].budget, max).1, r + 1);
      } else {
        PopFromLists(cfg, o, reps, q, r + 1);
      }
    }
  }

  lemma AddRequestLists(cfg: Config, o: Oracle, w: World, req: Request)
    requires ConfigOk(cfg) && OracleOk(o) && Sized(cfg, w) && Lists(w.q) && req.numPrefill == |req.inputIds|
    ensures Lists(AddRequest(cfg, o, w, req).q)
  {
    hide Lists, Push, Rebalanced, Select, Hot, Backlog, Loads;
    var env := EnvOf(cfg, o, w.reps);
    EnvOkOf(cfg, o, w.reps);
    Hashed(cfg, env, req);
    var (p, s) := Select(cfg, o, env, w.q, req);
    SelectRange(cfg, o, env, w.q, req);
    PrefillsOf(cfg, o, w.reps);
    assert o.recompute(p, req) >= 0;
    PushLists(w.q, p, req, CacheHit(env, p, req));
    var st := State(Push(w.q, p, req, CacheHit(env, p, req)), w.primary, w.second, w.q.actual, 0);
    if Hot(env, w.q, p, p, req) && Hot(env, w.q, p, s, req) {
      var st1 := Rebalanced(env, st, p, Backlog(env, w.q, p, p, req) - cfg.threshold);
      RebalancedLists(env, st, p, Backlog(env, w.q, p, p, req) - cfg.threshold);
      RebalancedLists(env, st1, s, Backlog(env, w.q, p, s, req) - cfg.threshold);
    }
  }

  lemma PrefillsOf(cfg: Config, o: Oracle, reps: seq<Rep>)
    requires OracleOk(o)
    ensures Prefills(EnvOf(cfg, o, reps))
  {
    forall r, x ensures EnvOf(cfg, o, reps).recompute(r, x) >= 0 { assert o.recompute(r, x) >= 0; }
  }

  lemma ScheduleLists(cfg: Config, o: Oracle, w: World, arrival: Option<Request>)
    requires ConfigOk(cfg) && OracleOk(o) && Sized(cfg, w) && QueuesOk(cfg.n, w.q, w.primary) && Lists(w.q)
    requires arrival.Some? ==> arrival.value.numPrefill == |arrival.value.inputIds|
    ensures Lists(Schedule(cfg, o, w, arrival).q)
  {
    hide Lists, AddRequest, PostAll, RebalanceFrom, PopFrom, Loads, QueuesOk;
    var v := w;
    if arrival.Some? {
      v := AddRequest(cfg, o, w, arrival.value);
      AddRequestLists(cfg, o, w, arrival.value);
      AddRequestOk(cfg, o, w, arrival.value);
    }
    var env := EnvOf(cfg, o, v.reps);
    EnvOkOf(cfg, o, v.reps);
    PrefillsOf(cfg, o, v.reps);
    var st := State(v.q, v.primary, v.second, v.q.actual, 0);
    RebalanceFromLists(env, st, 0);
    PopFromLists(cfg, o, v.reps, RebalanceFrom(env, st, 0).q, 0);
    PostKeepsQueues(cfg, o, v);
  }

  lemma PostKeepsQueues(cfg: Config, o: Oracle, v: World)
    requires ConfigOk(cfg) && Sized(cfg, v) && QueuesOk(cfg.n, v.q, v.primary)
    ensures var (taken, u) := Pass(cfg, o, v); PostAll(cfg, o, u, taken).q == u.q
  {
    hide Pass, PostAll;
    PassOk(cfg, o, v);
    var (taken, u) := Pass(cfg, o, v);
    forall x | Count(taken, x) > 0 ensures InRange(u.primary, x, cfg.n) {
      assert Total(u.q.heaps, x) + Count(taken, x) == Total(v.q.heaps, x);
    }
    PostOk(cfg, o, u, taken);
  }

  // ---------------------------------------------------------------- runs

  /** Arrivals with prompts that are all prefill and distinct arrival times, and caches that
      report no negative prefill length. */
  ghost predicate Orderly(es: seq<(Event, Oracle)>) {
    && (forall i :: 0 <= i < |es| ==> OracleOk(es[i].1))
    && (forall i :: 0 <= i < |es| && es[i].0.Arrive? ==> es[i].0.req.numPrefill == |es[i].0.req.inputIds|)
    && (forall i, j :: 0 <= i < |es| && 0 <= j < |es| && es[i].0.Arrive? && es[j].0.Arrive? ==>
          es[i].0.req == es[j].0.req || es[i].0.req.arrived != es[j].0.req.arrived)
  }

  lemma {:induction false} RunLists(cfg: Config, ws: seq<World>, es: seq<(Event, Oracle)>, i: nat)
    requires IsRun(cfg, ws, es) && Orderly(es) && i < |ws|
    ensures Lists(ws[i].q)
  {
    hide Step, Start, QueuesOk, RepOk, Lists;
    if i == 0 {
      StartLists(cfg);
    } else {
      RunLists(cfg, ws, es, i - 1);
      RunCore(cfg, ws, es, i - 1);
      StepLists(cfg, es[i - 1].1, ws[i - 1], es[i - 1].0);
    }
  }

  lemma StartLists(cfg: Config)
    ensures Lists(Start(cfg).q)
  {
  }

  lemma StepLists(cfg: Config, o: Oracle, w: World, e: Event)
    requires ConfigOk(cfg) && OracleOk(o) && Sized(cfg, w) && Enabled(w, e) && QueuesOk(cfg.n, w.q, w.primary)
    requires Lists(w.q)
    requires e.Arrive? ==> e.req.numPrefill == |e.req.inputIds|
    ensures Lists(Step(cfg, o, w, e).q)
  {
    hide Schedule, QueuesOk, Lists, Added, Prefilled, Decoded, Aborted;
    if e.Arrive? {
      ScheduleLists(cfg, o, w, Some(e.req));
    } else if e.Callback? {
      ScheduleLists(cfg, o, w.(tasks := w.tasks - {e.req}, finished := w.finished + {e.req}), None);
    }
  }

  /** In every world of a run the queues are clean. */
  lemma RunClean(cfg: Config, ws: seq<World>, es: seq<(Event, Oracle)>, i: nat)
    requires IsRun(cfg, ws, es) && Orderly(es) && i < |ws|
    ensures Clean(ws[i].q)
  {
    hide Step, Start, QueuesOk, RepOk, IsRun, Orderly;
    RunLists(cfg, ws, es, i);
    var q := ws[i].q;
    forall x ensures Total(q.heaps, x) <= 1 { Conserved(cfg, ws, es, i, x); }
    forall x, y | Total(q.heaps, x) > 0 && Total(q.heaps, y) > 0 && x != y ensures x.arrived != y.arrived {
      var k := WaitingArrived(cfg, ws, es, i, x);
      var m := WaitingArrived(cfg, ws, es, i, y);
      DifferentTimes(es, k, m);
    }
  }

  lemma DifferentTimes(es: seq<(Event, Oracle)>, k: nat, m: nat)
    requires Orderly(es) && k < |es| && m < |es| && es[k].0.Arrive? && es[m].0.Arrive? && es[k].0.req != es[m].0.req
    ensures es[k].0.req.arrived != es[m].0.req.arrived
  {
  }

  lemma WaitingArrived(cfg: Config, ws: seq<World>, es: seq<(Event, Oracle)>, i: nat, x: Request) returns (k: nat)
    requires IsRun(cfg, ws, es) && i < |ws| && Total(ws[i].q.heaps, x) > 0
    ensures k < i && i <= |es| && es[k].0 == Arrive(x)
  {
    hide Step, Start;
    Conserved(cfg, ws, es, i, x);
    k := ArrivedAt(es, i, x);
  }

  /** A newcomer of a run joins cleanly, so the stamp theorems speak of every arrival. */
  lemma RunJoins(cfg: Config, ws: seq<World>, es: seq<(Event, Oracle)>, i: nat)
    requires IsRun(cfg, ws, es) && Orderly(es) && i < |es| && es[i].0.Arrive?
    ensures Joins(ws[i].q, es[i].0.req)
  {
    hide Step, Start;
    var req := es[i].0.req;
    assert Enabled(ws[i], es[i].0);
    forall x | Total(ws[i].q.heaps, x) > 0 ensures x.arrived != req.arrived {
      var k := WaitingArrived(cfg, ws, es, i, x);
      DifferentTimes(es, k, i);
    }
  }

  /** At an arrival of a run that finds the stamps right they are right afterwards, up to the
      pass, exactly when the newcomer does not move on. */
  lemma RunStamp(cfg: Config, ws: seq<World>, es: seq<(Event, Oracle)>, i: nat)
    requires IsRun(cfg, ws, es) && Orderly(es) && i < |es| && es[i].0.Arrive?
    requires Stamped(ws[i].q, ws[i].primary)
    ensures Sized(cfg, ws[i])
    ensures var u := AddRequest(cfg, es[i].1, ws[i], es[i].0.req);
            Stamped(u.q, u.primary) <==> !MovesOn(cfg, es[i].1, ws[i], es[i].0.req)
  {
    hide Step, Start, Clean, Stamped, Joins, RepOk, AddRequest, MovesOn;
    RunCore(cfg, ws, es, i);
    RunClean(cfg, ws, es, i);
    RunJoins(cfg, ws, es, i);
    assert OracleOk(es[i].1);
    StampExact(cfg, es[i].1, ws[i], es[i].0.req);
  }
}
