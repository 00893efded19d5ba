/** The mutable scheduler: the global queues, the stamps and the posted tasks. Its methods are
    proved to compute the functions of Rebalance and Dispatch. */
module Scheduler {
  import opened Common
  import opened Requests
  import Q = RequestQueue
  import opened Latency
  import opened Rebalance
  import opened Replicas
  import opened Dispatch
  import opened GlobalQueue

  class DoubleHashScheduler {
    const cfg: Config
    const queue: GlobalRequestQueue
    var primary: map<Request, int>
    var second: map<Request, int>
    var tasks: map<Request, Task>

    ghost predicate Valid()
      reads this, queue
    {
      ConfigOk(cfg) && queue.numReplicas == cfg.n && queue.Valid()
    }

    /** The queues and stamps are those of st. */
    ghost predicate Is(st: State)
      reads this, queue
    {
      st.q == queue.Abs() && st.primary == primary && st.second == second
    }

    /** The scheduler in a system whose replicas are in the states reps. */
    ghost function AsWorld(reps: seq<Rep>, ledger: Ledger, finished: set<Request>): World
      reads this, queue
    {
      World(queue.Abs(), primary, second, reps, ledger, tasks, finished)
    }

    constructor (cfg: Config)
      requires ConfigOk(cfg)
      ensures Valid() && fresh(queue) && this.cfg == cfg
      ensures primary == map[] && second == map[] && tasks == map[]
      ensures queue.queues == seq(cfg.n, _ => [])
    {
      this.cfg := cfg;
      queue := new GlobalRequestQueue(cfg.n);
      primary, second, tasks := map[], map[], map[];
    }

    // -------------------------------------------------------------- rebalancing

    static predicate TooMuch(env: Env, waiting: seq<int>, delay: seq<int>, r: int, prefill: int)
      requires 0 <= r < |waiting| && r < |delay| && r < |env.pend|
    {
      waiting[r] + env.pend[r] + prefill > env.threshold || delay[r] >= env.latency
    }

    /** The other hashed replica, or a neighbour of the source or of that replica. */
    method ChooseTarget(env: Env, waiting: seq<int>, delay: seq<int>, source: int, req: Request)
        returns (t: Option<int>)
      requires EnvOk(env) && |waiting| == |delay| == env.n && 0 <= source < env.n
      ensures t == Target(env, waiting, delay, source, req)
    {
      var id1, id2 := env.hash1(req.session), env.hash2(req.session);
      if id1 == id2 { id2 := (id1 + 1) % env.n; }
      var target := if source == id1 then id2 else id1;
      if target < 0 || target >= env.n { return None; }
      if source == target || TooMuch(env, waiting, delay, target, env.recompute(target, req)) {
        var tmp := (source + 1) % env.n;
        if tmp == source || tmp == target { tmp := (target + 1) % env.n; }
        if tmp == source || tmp == target { return None; }
        if TooMuch(env, waiting, delay, tmp, env.recompute(tmp, req)) { return None; }
        target := tmp;
      }
      t := Some(target);
    }

    /** Where the i-th waiting request of the source could go and at what cost. */
    method ConsiderMigration(env: Env, waiting: seq<int>, delay: seq<int>, source: int, i: nat, ghost st: State)
      returns (choice: Option<Choice>)
      requires EnvOk(env) && Q.Shape(st.q, env.n) && |waiting| == |delay| == env.n && 0 <= source < env.n
      requires st.q == queue.Abs() && st.waiting == waiting && i < |queue.queues[source]|
      ensures choice == Candidate(env, st, delay, source, i)
    {
      hide Q.Predict, Target;
      var req := queue.queues[source][i].req;
      var sourceLen := env.recompute(source, req);
      var sourceAhead := queue.GetNumGlobalActualWaitingTokens(source, req, Hit(req, sourceLen));
      var t := ChooseTarget(env, waiting, delay, source, req);
      if t == None { return None; }
      TargetFacts(env, waiting, delay, source, req);
      var target := t.value;
      var targetLen := env.recompute(target, req);
      var targetAhead := queue.GetNumGlobalActualWaitingTokens(target, req, Hit(req, targetLen));
      var cost := Cost(env.tpot, targetAhead + env.pend[target] + targetLen,
          sourceAhead + env.pend[source] + sourceLen);
      choice := Some(Choice(i, cost, sourceLen, target, targetLen));
    }

    /** sorted(choices, key=cost)[0] */
    static function Cheapest(choices: seq<Choice>): Option<Choice> {
      if choices == [] then None
      else
        var b, c := Cheapest(choices[..|choices| - 1]), choices[|choices| - 1];
        if b == None || c.cost < b.value.cost then Some(c) else b
    }

    method ConsiderAll(env: Env, waiting: seq<int>, delay: seq<int>, source: int, ghost st: State)
      returns (choices: seq<Choice>)
      requires EnvOk(env) && Q.Shape(st.q, env.n) && |waiting| == |delay| == env.n && 0 <= source < env.n
      requires st.q == queue.Abs() && st.waiting == waiting
      ensures Cheapest(choices) == Best(env, st, delay, source, |queue.queues[source]|)
    {
      hide Candidate;
      choices := [];
      for i := 0 to |queue.queues[source]|
        invariant Cheapest(choices) == Best(env, st, delay, source, i)
      {
        var c := ConsiderMigration(env, waiting, delay, source, i, st);
        if c.Some? {
          assert (choices + [c.value])[..|choices|] == choices;
          choices := choices + [c.value];
        }
      }
    }

    /** Deletes the request at the source, queues it at the target and stamps it. */
    method MigrateTo(env: Env, source: int, c: Choice, ghost st: State)
      requires Valid() && Is(st) && env.n == cfg.n == |st.waiting| && 0 <= source < cfg.n
      requires 0 <= c.target < cfg.n && c.index < |queue.queues[source]| && Q.Shape(st.q, env.n)
      modifies this`primary, this`second, queue
      ensures Valid() && Is(Migrate(env, st, source, c))
    {
      hide Q.DelReq, Q.Push, Q.WellFormed;
      var req := queue.queues[source][c.index].req;
      var found := queue.DelReq(source, req);
      queue.Push(c.target, req, req.numPrefill - c.targetLen);
      primary := primary[req := c.target];
      second := second[req := source];
    }

    /** `rebalance_replica_global_waiting_reqs`. */
    method Rebalance(env: Env, source: int, goal: int, ghost st: State)
      requires EnvOk(env) && env.n == cfg.n == |st.waiting| && Valid() && Is(st) && 0 <= source < env.n
      modifies this`primary, this`second, queue
      ensures Q.Shape(st.q, env.n) && Valid() && Is(Rebalanced(env, st, source, goal))
    {
      hide Q.WellFormed, Best, Candidate, Migrate, Cheapest, Delays;
      Q.WellFormedShape(queue.Abs(), cfg.n);
      if |queue.queues[source]| <= 1 { return; }
      var waiting, delay, migrated := queue.actual, Delays(queue.Abs(), env.now), 0;
      ghost var u := st.(waiting := waiting, migrated := 0);
      ghost var end := Loop(env, u, delay, source, goal);
      while true
        invariant Valid() && Is(u) && u.waiting == waiting && u.migrated == migrated
        invariant Q.Shape(u.q, env.n) && |waiting| == env.n && Loop(env, u, delay, source, goal) == end
        decreases |queue.queues[source]|
      {
        var choices := ConsiderAll(env, waiting, delay, source, u);
        var best := Cheapest(choices);
        if best == None { break; }
        var c := best.value;
        if c.cost >= 0.0 { break; }
        if goal > 0 && migrated >= goal { break; }
        CandidateTarget(env, u, delay, source, c);
        MigrateShrinks(env, u, source, c);
        MigrateTo(env, source, c, u);
        waiting := waiting[c.target := waiting[c.target] + c.targetLen];
        migrated := migrated + c.sourceLen;
        u := Next(env, u, source, c);
      }
    }

    static lemma Next(env: Env, u: State, source: int, c: Choice) returns (v: State)
      requires Q.Shape(u.q, env.n) && |u.waiting| == env.n
      requires 0 <= source < env.n && 0 <= c.target < env.n && c.index < |u.q.heaps[source]|
      ensures v == Migrate(env, u, source, c)
      ensures v.waiting == u.waiting[c.target := u.waiting[c.target] + c.targetLen]
      ensures v.migrated == u.migrated + c.sourceLen
    {
      v := Migrate(env, u, source, c);
    }

    // -------------------------------------------------------------- arrival

    /** Two candidates, the chosen one first. */
    method SelectReplicas(a: int, b: int, metricA: int, metricB: int, max: bool, o: Oracle) returns (p: int, s: int)
      ensures (p, s) == Pick(a, b, metricA, metricB, max, o.blocks(a), o.blocks(b), cfg.coin)
    {
      p, s := b, a;
      if metricA != metricB {
        if (metricA > metricB) == max { p, s := a, b; }
      } else if o.blocks(a) != o.blocks(b) {
        if o.blocks(a) < o.blocks(b) { p, s := a, b; }
      } else if cfg.coin {
        p, s := a, b;
      }
    }

    method ChooseReplicas(env: Env, o: Oracle, req: Request) returns (p: int, s: int)
      requires ConfigOk(cfg) && Q.Shape(queue.Abs(), cfg.n) && EnvOk(env) && env.n == cfg.n
      requires env.hash1 == cfg.hash1 && env.hash2 == cfg.hash2
      ensures 0 <= First(env, req) < cfg.n && 0 <= Second(env, req) < cfg.n && 0 <= p < cfg.n && 0 <= s < cfg.n
      ensures (p, s) == Select(cfg, o, env, queue.Abs(), req)
    {
      hide Pick;
      Hashed(cfg, env, req);
      var a, b := env.hash1(req.session), env.hash2(req.session);
      if a == b { b := (a + 1) % env.n; }
      var tokensA := queue.actual[a] + env.pend[a] + env.recompute(a, req);
      var tokensB := queue.actual[b] + env.pend[b] + env.recompute(b, req);
      p, s := SelectReplicas(a, b, CacheHit(env, a, req), CacheHit(env, b, req), true, o);
      PickOne(a, b, CacheHit(env, a, req), CacheHit(env, b, req), true, o);
      if (if p == a then tokensA else tokensB) > cfg.firstThreshold {
        p, s := SelectReplicas(a, b, Ticks(env.tpot, tokensA), Ticks(env.tpot, tokensB), false, o);
        PickOne(a, b, Ticks(env.tpot, tokensA), Ticks(env.tpot, tokensB), false, o);
      }
    }

    lemma PickOne(a: int, b: int, metricA: int, metricB: int, max: bool, o: Oracle)
      ensures var (p, s) := Pick(a, b, metricA, metricB, max, o.blocks(a), o.blocks(b), cfg.coin);
              (p == a && s == b) || (p == b && s == a)
    {
    }

    /** `add_request_to_best_global_queue`, with the replicas in the states reps. */
    method AddRequestToBestGlobalQueue(o: Oracle, reps: seq<Rep>, req: Request, ghost w: World)
      requires Valid() && |reps| == cfg.n && w == AsWorld(reps, w.ledger, w.finished)
      modifies this`primary, this`second, queue
      ensures Sized(cfg, w) && Valid()
      ensures AsWorld(reps, w.ledger, w.finished) == AddRequest(cfg, o, w, req)
    {
      hide Q.WellFormed, Q.Push, Select, Rebalanced, Loads, Hot, Backlog;
      Q.WellFormedShape(queue.Abs(), cfg.n);
      var env := EnvOf(cfg, o, reps);
      EnvOkOf(cfg, o, reps);
      var p, s := ChooseReplicas(env, o, req);
      var hotP, hotS := Hot(env, queue.Abs(), p, p, req), Hot(env, queue.Abs(), p, s, req);
      var goalP, goalS := Backlog(env, queue.Abs(), p, p, req) - cfg.threshold,
          Backlog(env, queue.Abs(), p, s, req) - cfg.threshold;
      ghost var st := State(Q.Push(w.q, p, req, CacheHit(env, p, req)), primary, second, w.q.actual, 0);
      queue.Push(p, req, CacheHit(env, p, req));
      if hotP && hotS {
        Rebalance(env, p, goalP, st);
        ghost var st1 := Rebalanced(env, st, p, goalP);
        Rebalance(env, s, goalS, st1);
        st := Rebalanced(env, st1, s, goalS);
      }
      assert st == Placed(cfg, o, w, req);
      primary := primary[req := p];
      second := second[req := s];
    }

    // -------------------------------------------------------------- one schedule call

    method RebalanceAll(env: Env, ghost st: State)
      requires EnvOk(env) && env.n == cfg.n == |st.waiting| && Valid() && Is(st)
      modifies this`primary, this`second, queue
      ensures Q.Shape(st.q, env.n) && Valid() && Is(RebalanceFrom(env, st, 0))
    {
      hide Q.WellFormed, Rebalanced;
      Q.WellFormedShape(queue.Abs(), cfg.n);
      ghost var u := st;
      for r := 0 to cfg.n
        invariant Valid() && Is(u) && Q.Shape(u.q, env.n) && |u.waiting| == env.n
        invariant RebalanceFrom(env, u, r) == RebalanceFrom(env, st, 0)
      {
        var tokens := queue.actual[r] + env.pend[r];
        if tokens > env.threshold || Q.MaxDelay(queue.queues[r], env.now) >= env.latency {
          Rebalance(env, r, tokens - env.threshold, u);
          u := Rebalanced(env, u, r, tokens - env.threshold);
        }
      }
    }

    method PopAll(o: Oracle, reps: seq<Rep>) returns (schedulable: seq<Request>)
      requires Valid() && |reps| == cfg.n
      modifies queue
      ensures Q.Shape(old(queue.Abs()), cfg.n) && Valid()
      ensures var (taken, q) := PopFrom(cfg, o, reps, old(queue.Abs()), 0);
              schedulable == Q.Reqs(taken) && queue.Abs() == q
    {
      hide Q.WellFormed, Q.PopSchedulable;
      Q.WellFormedShape(queue.Abs(), cfg.n);
      schedulable := [];
      ghost var q, done := queue.Abs(), [];
      ghost var all := PopFrom(cfg, o, reps, q, 0);
      for r := 0 to cfg.n
        invariant Valid() && Q.Shape(queue.Abs(), cfg.n) && schedulable == Q.Reqs(done)
        invariant PopFrom(cfg, o, reps, queue.Abs(), r).1 == all.1
        invariant done + PopFrom(cfg, o, reps, queue.Abs(), r).0 == all.0
      {
        if queue.queues[r] != [] && reps[r].budget > 0 {
          if |reps[r].pending| == 0 || (|reps[r].pending| <= cfg.cap && o.recent(r)) {
            ghost var taken := Q.PopSchedulable(queue.Abs(), r, reps[r].budget, Some(cfg.cap - |reps[r].pending|)).0;
            var some := queue.PopSchedulable(r, reps[r].budget, Some(cfg.cap - |reps[r].pending|));
            ReqsAppend(done, taken);
            schedulable := schedulable + some;
            done := done + taken;
          }
        }
      }
    }

    static lemma ReqsAppend(a: seq<Item>, b: seq<Item>)
      ensures Q.Reqs(a + b) == Q.Reqs(a) + Q.Reqs(b)
    {
      hide Q.Reqs;
      assert forall i :: 0 <= i < |a + b| ==> Q.Reqs(a + b)[i] == (Q.Reqs(a) + Q.Reqs(b))[i];
    }

    /** `get_schedulable_waiting_req_list` */
    method GetSchedulableWaitingReqList(o: Oracle, reps: seq<Rep>, ghost w: World) returns (schedulable: seq<Request>)
      requires Valid() && |reps| == cfg.n && w == AsWorld(reps, w.ledger, w.finished)
      modifies this`primary, this`second, queue
      ensures Sized(cfg, w) && Valid()
      ensures var (taken, u) := Pass(cfg, o, w);
              schedulable == Q.Reqs(taken) && AsWorld(reps, w.ledger, w.finished) == u
    {
      hide Q.WellFormed, RebalanceFrom, PopFrom, Loads;
      Q.WellFormedShape(queue.Abs(), cfg.n);
      var env := EnvOf(cfg, o, reps);
      EnvOkOf(cfg, o, reps);
      RebalanceAll(env, State(queue.Abs(), primary, second, queue.actual, 0));
      schedulable := PopAll(o, reps);
    }

    /** `schedule`: the arrival if there is one, the pass, and a posting task for each popped
        request at the replica it is stamped with. */
    method Schedule(o: Oracle, reps: seq<Rep>, arrival: Option<Request>, ghost w: World)
      requires Valid() && |reps| == cfg.n && w == AsWorld(reps, w.ledger, w.finished)
      modifies this`primary, this`second, this`tasks, queue
      ensures Sized(cfg, w) && Valid()
      ensures AsWorld(reps, w.ledger, w.finished) == Dispatch.Schedule(cfg, o, w, arrival)
    {
      hide Q.WellFormed, AddRequest, Pass;
      Q.WellFormedShape(queue.Abs(), cfg.n);
      ghost var w1 := w;
      if arrival.Some? {
        AddRequestToBestGlobalQueue(o, reps, arrival.value, w);
        w1 := AddRequest(cfg, o, w, arrival.value);
      }
      ghost var (taken, w2) := Pass(cfg, o, w1);
      var schedulable := GetSchedulableWaitingReqList(o, reps, w1);
      ghost var end := PostAll(cfg, o, w2, taken);
      for i := 0 to |schedulable|
        invariant Valid() && Sized(cfg, w2) && AsWorld(reps, w.ledger, w.finished) == w2
        invariant PostAll(cfg, o, w2, taken[i..]) == end
      {
        var req := schedulable[i];
        assert taken[i..][0].req == req && taken[i..][1..] == taken[i + 1..];
        if req in primary && 0 <= primary[req] < cfg.n {
          tasks := tasks[req := Task(Posted, primary[req])];
          w2 := w2.(tasks := tasks);
        } else {
          AddRequestToBestGlobalQueue(o, reps, req, w2);
          w2 := AddRequest(cfg, o, w2, req);
        }
      }
    }
  }
}
