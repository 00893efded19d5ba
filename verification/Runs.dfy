/** What holds along every run of the DualMap scheduler. */
module Runs {
  import opened Common
  import opened Requests
  import opened Heapq
  import opened RequestQueue
  import opened Rebalance
  import opened Replicas
  import opened Dispatch

  // ---------------------------------------------------------------- invariants

  predicate InRange(primary: map<Request, int>, x: Request, n: nat) { x in primary && 0 <= primary[x] < n }

  /** Queues are well formed and every waiting request is stamped with some replica. */
  ghost predicate QueuesOk(n: nat, q: Queues, primary: map<Request, int>) {
    WellFormed(q, n) && forall x :: Total(q.heaps, x) > 0 ==> InRange(primary, x, n)
  }

  predicate At(w: World, x: Request, phase: Phase, r: int) { x in w.tasks && w.tasks[x] == Task(phase, r) }

  /** A replica's budget is right and its running list is its running tasks. Its pending list
      holds its pending tasks; what else it holds is done. */
  ghost predicate RepOk(cfg: Config, w: World, r: int)
    requires 0 <= r < |w.reps|
  {
    && Balanced(cfg.slo, w.reps[r], w.ledger)
    && (forall x :: x in w.reps[r].running <==> At(w, x, Running, r))
    && (forall x :: At(w, x, Pending, r) ==> x in w.reps[r].pending)
    && (forall x :: x in w.reps[r].pending ==> At(w, x, Pending, r) || At(w, x, Done, r) || x in w.finished)
  }

  /** Pending on r for no task: its prefill will never be given back. */
  predicate Leaked(w: World, r: int, x: Request) {
    0 <= r < |w.reps| && x in w.reps[r].pending && !At(w, x, Pending, r)
  }

  ghost predicate NoLeaks(w: World) { forall r, x :: !Leaked(w, r, x) }

  /** A step leaks exactly the request of a silent completion, and no leak is ever mended. */
  ghost predicate Leaks(w: World, u: World, e: Event) {
    forall r, x :: Leaked(u, r, x) <==> Leaked(w, r, x) || (e == Silent(x) && At(w, x, Pending, r))
  }

  function Places(w: World, x: Request): nat {
    Total(w.q.heaps, x) + (if x in w.tasks then 1 else 0) + if x in w.finished then 1 else 0
  }

  ghost predicate Core(cfg: Config, w: World) {
    && ConfigOk(cfg) && Sized(cfg, w)
    && QueuesOk(cfg.n, w.q, w.primary)
    && (forall x :: Places(w, x) <= 1)
    && (forall x :: x in w.tasks ==> 0 <= w.tasks[x].replica < cfg.n)
    && (forall r :: 0 <= r < cfg.n ==> RepOk(cfg, w, r))
  }

  /** Work waits only while something is in flight whose completion reruns the pass. */
  ghost predicate NotStranded(w: World) {
    (exists r :: 0 <= r < |w.q.heaps| && w.q.heaps[r] != []) ==> w.tasks.Keys != {}
  }

  // ---------------------------------------------------------------- rebalances

  lemma {:induction false} LoopRange(env: Env, st: State, delay: seq<int>, source: int, goal: int, x: Request)
    requires EnvOk(env) && Shape(st.q, env.n) && |st.waiting| == |delay| == env.n && 0 <= source < env.n
    requires InRange(st.primary, x, env.n)
    ensures InRange(Loop(env, st, delay, source, goal).primary, x, env.n)
    decreases |st.q.heaps[source]|
  {
    hide Moved, Predict, Delays;
    var b := Best(env, st, delay, source, |st.q.heaps[source]|);
    if b.Some? && b.value.cost < 0.0 && !(goal > 0 && st.migrated >= goal) {
      var c := b.value;
      TargetFacts(env, st.waiting, delay, source, st.q.heaps[source][c.index].req);
      MigrateShrinks(env, st, source, c);
      LoopRange(env, Migrate(env, st, source, c), delay, source, goal, x);
    }
  }

  lemma RebalancedOk(env: Env, st: State, source: int, goal: int)
    requires EnvOk(env) && QueuesOk(env.n, st.q, st.primary) && |st.waiting| == env.n && 0 <= source < env.n
    ensures var u := Rebalanced(env, st, source, goal);
            QueuesOk(env.n, u.q, u.primary) && SameRequests(u.q.heaps, st.q.heaps)
            && forall x :: InRange(st.primary, x, env.n) ==> InRange(u.primary, x, env.n)
  {
    hide Loop, Delays;
    RebalanceSafe(env, st, source, goal);
    var u := Rebalanced(env, st, source, goal);
    forall x | InRange(st.primary, x, env.n) ensures InRange(u.primary, x, env.n) {
      if |st.q.heaps[source]| > 1 {
        LoopRange(env, st.(waiting := st.q.actual, migrated := 0), Delays(st.q, env.now), source, goal, x);
      }
    }
    assert forall x :: Total(u.q.heaps, x) == Total(st.q.heaps, x);
  }

  lemma {:induction false} RebalanceFromOk(env: Env, st: State, r: nat)
    requires EnvOk(env) && QueuesOk(env.n, st.q, st.primary) && |st.waiting| == env.n && r <= env.n
    ensures var u := RebalanceFrom(env, st, r);
            QueuesOk(env.n, u.q, u.primary) && SameRequests(u.q.heaps, st.q.heaps)
    decreases env.n - r
  {
    hide Rebalanced;
    if r < env.n {
      var tokens := st.q.actual[r] + env.pend[r];
      if tokens > env.threshold || MaxDelay(st.q.heaps[r], env.now) >= env.latency {
        RebalancedOk(env, st, r, tokens - env.threshold);
        var u := Rebalanced(env, st, r, tokens - env.threshold);
        RebalanceFromOk(env, u, r + 1);
        assert forall x :: Total(RebalanceFrom(env, u, r + 1).q.heaps, x) == Total(u.q.heaps, x);
      } else {
        RebalanceFromOk(env, st, r + 1);
      }
    }
  }

  // ---------------------------------------------------------------- arrival

  /** An arrival adds exactly the newcomer to the queues. */
  lemma AddRequestOk(cfg: Config, o: Oracle, w: World, req: Request)
    requires ConfigOk(cfg) && Sized(cfg, w) && QueuesOk(cfg.n, w.q, w.primary)
    ensures var u := AddRequest(cfg, o, w, req);
            && QueuesOk(cfg.n, u.q, u.primary)
            && (forall x :: Total(u.q.heaps, x) == Total(w.q.heaps, x) + if x == req then 1 else 0)
            && u == w.(q := u.q, primary := u.primary, second := u.second)
  {
    hide Push, Rebalanced, Select, Hot, Backlog, Loads;
    var env := EnvOf(cfg, o, w.reps);
    EnvOkOf(cfg, o, w.reps);
    Hashed(cfg, env, req);
    var (p, s) := Select(cfg, o, env, w.q, req);
    SelectRange(cfg, o, env, w.q, req);
    var hit := CacheHit(env, p, req);
    PushKeeps(w.q, cfg.n, p, req, hit);
    forall x ensures Total(Push(w.q, p, req, hit).heaps, x) == Total(w.q.heaps, x) + if x == req then 1 else 0 {
      PushCount(w.q, p, req, hit, x);
    }
    // the newcomer's stamp is not written yet; a rebalance does not read it
    var st := State(Push(w.q, p, req, hit), w.primary[req := p], w.second, w.q.actual, 0);
    var st0 := st.(primary := w.primary);
    assert QueuesOk(cfg.n, st.q, st.primary);
    if Hot(env, w.q, p, p, req) && Hot(env, w.q, p, s, req) {
      var g1, g2 := Backlog(env, w.q, p, p, req) - cfg.threshold, Backlog(env, w.q, p, s, req) - cfg.threshold;
      RebalancedOk(env, st, p, g1);
      RebalancedUnstamped(env, st0, st, p, g1, req);
      var st1, st2 := Rebalanced(env, st, p, g1), Rebalanced(env, st0, p, g1);
      RebalancedOk(env, st1, s, g2);
      RebalancedUnstamped(env, st2, st1, s, g2, req);
    }
  }

  lemma SelectRange(cfg: Config, o: Oracle, env: Env, q: Queues, req: Request)
    requires env.n > 0 && 0 <= First(env, req) < |q.actual| && 0 <= Second(env, req) < |q.actual| <= |env.pend|
    ensures var (p, s) := Select(cfg, o, env, q, req); 0 <= p < |q.actual| && 0 <= s < |q.actual|
  {
  }

  /** Equal but for the primary stamp of one request. */
  ghost predicate ButStamp(a: State, b: State, req: Request) {
    && a.q == b.q && a.second == b.second && a.waiting == b.waiting && a.migrated == b.migrated
    && forall x :: x != req ==>
        (x in a.primary <==> x in b.primary) && (x in a.primary ==> a.primary[x] == b.primary[x])
  }

  lemma {:induction false} BestUnstamped(env: Env, a: State, b: State, delay: seq<int>, source: int, i: nat)
    requires env.n > 0 && Shape(a.q, env.n) && |a.waiting| == |delay| == |env.pend| == env.n
    requires 0 <= source < env.n && i <= |a.q.heaps[source]|
    requires a.q == b.q && a.waiting == b.waiting
    ensures Best(env, a, delay, source, i) == Best(env, b, delay, source, i)
  {
    hide Target, Wait;
    if i > 0 { BestUnstamped(env, a, b, delay, source, i - 1); }
  }

  lemma {:induction false} LoopUnstamped(env: Env, a: State, b: State, delay: seq<int>, source: int, goal: int,
      req: Request)
    requires EnvOk(env) && Shape(a.q, env.n) && |a.waiting| == |delay| == env.n && 0 <= source < env.n
    requires ButStamp(a, b, req)
    ensures ButStamp(Loop(env, a, delay, source, goal), Loop(env, b, delay, source, goal), req)
    decreases |a.q.heaps[source]|
  {
    hide Moved, Candidate;
    BestUnstamped(env, a, b, delay, source, |a.q.heaps[source]|);
    var m := Best(env, a, delay, source, |a.q.heaps[source]|);
    if m.Some? && m.value.cost < 0.0 && !(goal > 0 && a.migrated >= goal) {
      var c := m.value;
      CandidateTarget(env, a, delay, source, c);
      MigrateShrinks(env, a, source, c);
      LoopUnstamped(env, Migrate(env, a, source, c), Migrate(env, b, source, c), delay, source, goal, req);
    }
  }

  lemma RebalancedUnstamped(env: Env, a: State, b: State, source: int, goal: int, req: Request)
    requires EnvOk(env) && Shape(a.q, env.n) && |a.waiting| == env.n && 0 <= source < env.n
    requires ButStamp(a, b, req)
    ensures ButStamp(Rebalanced(env, a, source, goal), Rebalanced(env, b, source, goal), req)
  {
    hide Loop, Delays;
    if |a.q.heaps[source]| > 1 {
      LoopUnstamped(env, a.(waiting := a.q.actual, migrated := 0), b.(waiting := b.q.actual, migrated := 0),
                    Delays(a.q, env.now), source, goal, req);
    }
  }

  // ---------------------------------------------------------------- the pass

  lemma {:induction false} PoppedManyCount(q: Queues, r: nat, k: nat, x: Request)
    requires r < |q.heaps| && Shape(q, |q.heaps|) && k <= |q.heaps[r]|
    ensures Total(PoppedMany(q, r, k).heaps, x) + Count(Drain(q.heaps[r])[..k], x) == Total(q.heaps, x)
  {
    hide Popped, HeapPop;
    if k > 0 {
      var u, d := PoppedMany(q, r, k - 1), Drain(q.heaps[r]);
      PoppedManyCount(q, r, k - 1, x);
      PoppedManyDrain(q, r, k - 1);
      assert u.heaps[r][0] == d[k - 1] by { assert Drain(u.heaps[r])[0] == d[k - 1]; }
      PoppedCount(u, r, x);
      assert d[..k] == d[..k - 1] + [d[k - 1]];
      CountAppend(d[..k - 1], [d[k - 1]], x);
    }
  }

  lemma PopSchedulableOk(q: Queues, n: nat, r: nat, budget: int, max: Option<int>)
    requires WellFormed(q, n) && r < n
    ensures var (taken, u) := PopSchedulable(q, r, budget, max);
            && WellFormed(u, n)
            && (forall x :: Total(u.heaps, x) + Count(taken, x) == Total(q.heaps, x))
            && (forall s :: 0 <= s < n && s != r ==> u.heaps[s] == q.heaps[s])
            && (q.heaps[r] != [] && (max.Some? ==> max.value > 0) ==> taken != [])
  {
    hide Drain, PoppedMany;
    var d := Drain(q.heaps[r]);
    var k := TakeCount(d, budget, max, 0);
    PoppedManyKeeps(q, n, r, k);
    PoppedManyDrain(q, r, k);
    forall x ensures Total(PoppedMany(q, r, k).heaps, x) + Count(d[..k], x) == Total(q.heaps, x) {
      PoppedManyCount(q, r, k, x);
    }
  }

  /** Pops take entries off the queues and nothing else; an idle replica with budget always
      gives up at least one. */
  lemma {:induction false} PopFromOk(cfg: Config, o: Oracle, reps: seq<Rep>, q: Queues, r: nat)
    requires WellFormed(q, cfg.n) && |reps| == cfg.n && r <= cfg.n
    ensures var (taken, u) := PopFrom(cfg, o, reps, q, r);
            && WellFormed(u, cfg.n)
            && (forall x :: Total(u.heaps, x) + Count(taken, x) == Total(q.heaps, x))
            && (forall s :: 0 <= s < r ==> u.heaps[s] == q.heaps[s])
            && (taken == [] && cfg.cap > 0 ==>
                  forall s :: r <= s < cfg.n && reps[s].pending == [] && reps[s].budget > 0 ==> u.heaps[s] == [])
    decreases cfg.n - r
  {
    hide PopSchedulable;
    if r < cfg.n {
      if Served(cfg, o, reps, q, r) {
        var max := Some(cfg.cap - |reps[r].pending|);
        PopSchedulableOk(q, cfg.n, r, reps[r].budget, max);
        var (taken, q1) := PopSchedulable(q, r, reps[r].budget, max);
        PopFromOk(cfg, o, reps, q1, r + 1);
        var (rest, q2) := PopFrom(cfg, o, reps, q1, r + 1);
        forall x ensures Total(q2.heaps, x) + Count(taken + rest, x) == Total(q.heaps, x) {
          CountAppend(taken, rest, x);
          assert Total(q2.heaps, x) + Count(rest, x) == Total(q1.heaps, x);
        }
      } else {
        PopFromOk(cfg, o, reps, q, r + 1);
      }
    }
  }

  // ---------------------------------------------------------------- posting

  function Posts(tasks: map<Request, Task>, primary: map<Request, int>, reqs: seq<Item>): map<Request, Task>
    decreases |reqs|
  {
    if reqs == [] then tasks
    else
      var x := reqs[0].req;
      Posts(if x in primary then tasks[x := Task(Posted, primary[x])] else tasks, primary, reqs[1..])
  }

  /** With stamps in range nothing goes back to a queue: every popped request is posted. */
  lemma {:induction false} PostAllOk(cfg: Config, o: Oracle, w: World, reqs: seq<Item>)
    requires ConfigOk(cfg) && Sized(cfg, w)
    requires forall i :: 0 <= i < |reqs| ==> InRange(w.primary, reqs[i].req, cfg.n)
    ensures PostAll(cfg, o, w, reqs) == w.(tasks := Posts(w.tasks, w.primary, reqs))
    decreases |reqs|
  {
    hide AddRequest;
    if reqs != [] {
      var x := reqs[0].req;
      assert InRange(w.primary, x, cfg.n);
      PostAllOk(cfg, o, w.(tasks := w.tasks[x := Task(Posted, w.primary[x])]), reqs[1..]);
    }
  }

  lemma {:induction false} PostsAt(tasks: map<Request, Task>, primary: map<Request, int>, reqs: seq<Item>, x: Request)
    requires forall i :: 0 <= i < |reqs| ==> reqs[i].req in primary
    ensures x in Posts(tasks, primary, reqs) <==> x in tasks || Count(reqs, x) > 0
    ensures Count(reqs, x) == 0 && x in tasks ==> Posts(tasks, primary, reqs)[x] == tasks[x]
    ensures Count(reqs, x) > 0 ==> x in primary && Posts(tasks, primary, reqs)[x] == Task(Posted, primary[x])
    decreases |reqs|
  {
    if reqs != [] {
      var y := reqs[0].req;
      PostsAt(tasks[y := Task(Posted, primary[y])], primary, reqs[1..], x);
    }
  }

  // ---------------------------------------------------------------- one schedule call

  /** A schedule call as a whole: the newcomer joins the queues, requests `moved` go from the
      queues to posted tasks, and nothing else changes. */
  ghost predicate Dispatches(cfg: Config, w: World, u: World, arrival: Option<Request>, moved: seq<Item>) {
    && Sized(cfg, u) && QueuesOk(cfg.n, u.q, u.primary)
    && u.reps == w.reps && u.ledger == w.ledger && u.finished == w.finished
    && (forall x :: Total(u.q.heaps, x) + Count(moved, x) == Total(w.q.heaps, x) + if arrival == Some(x) then 1 else 0)
    && (forall x :: x in u.tasks <==> x in w.tasks || Count(moved, x) > 0)
    && (forall x :: Count(moved, x) == 0 && x in w.tasks ==> u.tasks[x] == w.tasks[x])
    && (forall x :: Count(moved, x) > 0 ==> u.tasks[x].phase == Posted && 0 <= u.tasks[x].replica < cfg.n)
  }

  lemma PassOk(cfg: Config, o: Oracle, w: World)
    requires ConfigOk(cfg) && Sized(cfg, w) && QueuesOk(cfg.n, w.q, w.primary)
    ensures var (taken, u) := Pass(cfg, o, w);
            && WellFormed(u.q, cfg.n) && u == w.(q := u.q, primary := u.primary, second := u.second)
            && (forall x :: Total(u.q.heaps, x) + Count(taken, x) == Total(w.q.heaps, x))
            && (forall x :: Total(w.q.heaps, x) > 0 ==> InRange(u.primary, x, cfg.n))
            && (taken == [] && cfg.cap > 0 ==>
                  forall s :: 0 <= s < cfg.n && w.reps[s].pending == [] && w.reps[s].budget > 0 ==> u.q.heaps[s] == [])
  {
    hide RebalanceFrom, PopFrom;
    var env := EnvOf(cfg, o, w.reps);
    EnvOkOf(cfg, o, w.reps);
    var st0 := State(w.q, w.primary, w.second, w.q.actual, 0);
    RebalanceFromOk(env, st0, 0);
    var st := RebalanceFrom(env, st0, 0);
    PopFromOk(cfg, o, w.reps, st.q, 0);
    assert forall x :: Total(st.q.heaps, x) == Total(w.q.heaps, x);
  }

  lemma PostOk(cfg: Config, o: Oracle, w: World, reqs: seq<Item>)
    requires ConfigOk(cfg) && Sized(cfg, w)
    requires forall x :: Count(reqs, x) > 0 ==> InRange(w.primary, x, cfg.n)
    ensures var u := PostAll(cfg, o, w, reqs);
            && u == w.(tasks := u.tasks)
            && (forall x :: x in u.tasks <==> x in w.tasks || Count(reqs, x) > 0)
            && (forall x :: Count(reqs, x) == 0 && x in w.tasks ==> u.tasks[x] == w.tasks[x])
            && (forall x :: Count(reqs, x) > 0 ==> u.tasks[x].phase == Posted && 0 <= u.tasks[x].replica < cfg.n)
  {
    hide PostAll, Posts;
    forall i | 0 <= i < |reqs| ensures InRange(w.primary, reqs[i].req, cfg.n) {
      CountHas(reqs, reqs[i].req);
      assert Has(reqs, reqs[i].req);
    }
    PostAllOk(cfg, o, w, reqs);
    var tasks := Posts(w.tasks, w.primary, reqs);
    forall x
      ensures x in tasks <==> x in w.tasks || Count(reqs, x) > 0
      ensures Count(reqs, x) == 0 && x in w.tasks ==> tasks[x] == w.tasks[x]
      ensures Count(reqs, x) > 0 ==> x in w.primary && tasks[x] == Task(Posted, w.primary[x])
    {
      PostsAt(w.tasks, w.primary, reqs, x);
    }
  }

  lemma ScheduleOk(cfg: Config, o: Oracle, w: World, arrival: Option<Request>) returns (moved: seq<Item>)
    requires ConfigOk(cfg) && Sized(cfg, w) && QueuesOk(cfg.n, w.q, w.primary)
    ensures var u := Schedule(cfg, o, w, arrival);
            && Dispatches(cfg, w, u, arrival, moved)
            && (moved == [] && cfg.cap > 0 ==>
                  forall s :: 0 <= s < cfg.n && w.reps[s].pending == [] && w.reps[s].budget > 0 ==> u.q.heaps[s] == [])
  {
    hide AddRequest, Pass, PostAll, QueuesOk;
    var w1 := if arrival.Some? then AddRequest(cfg, o, w, arrival.value) else w;
    if arrival.Some? { AddRequestOk(cfg, o, w, arrival.value); }
    moved := PassPostOk(cfg, o, w1);
  }

  /** The pass and the posting of what it takes. */
  lemma PassPostOk(cfg: Config, o: Oracle, w: World) returns (moved: seq<Item>)
    requires ConfigOk(cfg) && Sized(cfg, w) && QueuesOk(cfg.n, w.q, w.primary)
    ensures var u := PostAll(cfg, o, Pass(cfg, o, w).1, Pass(cfg, o, w).0);
            && Dispatches(cfg, w, u, None, moved)
            && (moved == [] && cfg.cap > 0 ==>
                  forall s :: 0 <= s < cfg.n && w.reps[s].pending == [] && w.reps[s].budget > 0 ==> u.q.heaps[s] == [])
  {
    hide AddRequest, Pass, PostAll, WellFormed;
    PassOk(cfg, o, w);
    var (taken, w2) := Pass(cfg, o, w);
    moved := taken;
    forall x | Count(taken, x) > 0 ensures InRange(w2.primary, x, cfg.n) {
      assert Total(w2.q.heaps, x) + Count(taken, x) == Total(w.q.heaps, x);
    }
    PostOk(cfg, o, w2, taken);
    assert forall x :: Total(w2.q.heaps, x) > 0 ==> Total(w.q.heaps, x) > 0 by {
      assert forall x :: Total(w2.q.heaps, x) + Count(taken, x) == Total(w.q.heaps, x);
    }
  }

  lemma ScheduleKeeps(cfg: Config, o: Oracle, w: World, arrival: Option<Request>)
    requires Core(cfg, w) && (arrival.Some? ==> Places(w, arrival.value) == 0)
    ensures var u := Schedule(cfg, o, w, arrival);
            && Core(cfg, u) && Progress(w, u) && Arrivals(w, u, arrival)
            && (forall r, x :: Leaked(u, r, x) <==> Leaked(w, r, x))
            && (NoLeaks(w) && cfg.slo > 0 && cfg.cap > 0 ==> NotStranded(u))
  {
    hide Schedule, QueuesOk, Balanced;
    assert QueuesOk(cfg.n, w.q, w.primary);
    var moved := ScheduleOk(cfg, o, w, arrival);
    var u := Schedule(cfg, o, w, arrival);
    assert Dispatches(cfg, w, u, arrival, moved);
    DispatchesKeeps(cfg, w, u, arrival, moved);
    if NoLeaks(w) && cfg.slo > 0 && cfg.cap > 0 {
      if moved == [] {
        StrandedSchedule(cfg, w, u);
      } else {
        CountHas(moved, moved[0].req);
        assert Has(moved, moved[0].req);
        assert moved[0].req in u.tasks;
      }
    }
  }

  lemma DispatchesKeeps(cfg: Config, w: World, u: World, arrival: Option<Request>, moved: seq<Item>)
    requires Core(cfg, w) && (arrival.Some? ==> Places(w, arrival.value) == 0)
    requires Dispatches(cfg, w, u, arrival, moved)
    ensures Core(cfg, u) && Progress(w, u) && Arrivals(w, u, arrival)
    ensures forall r, x :: Leaked(u, r, x) <==> Leaked(w, r, x)
  {
    hide QueuesOk, Balanced;
    forall x ensures Places(u, x) <= 1 && (Places(u, x) == Places(w, x) + if arrival == Some(x) then 1 else 0) {
      assert Places(w, x) <= 1;
      assert Total(u.q.heaps, x) + Count(moved, x) == Total(w.q.heaps, x) + if arrival == Some(x) then 1 else 0;
    }
    forall x | x in u.tasks && x !in w.tasks ensures u.tasks[x].phase == Posted { assert Count(moved, x) > 0; }
    forall x | x in w.tasks ensures x in u.tasks && u.tasks[x] == w.tasks[x] { assert Places(w, x) <= 1; }
    forall r | 0 <= r < cfg.n ensures RepOk(cfg, u, r) { assert RepOk(cfg, w, r); }
  }

  lemma StrandedSchedule(cfg: Config, w: World, u: World)
    requires Core(cfg, w) && NoLeaks(w) && cfg.slo > 0 && |u.q.heaps| == cfg.n && u.tasks.Keys == w.tasks.Keys
    requires forall s :: 0 <= s < cfg.n && w.reps[s].pending == [] && w.reps[s].budget > 0 ==> u.q.heaps[s] == []
    ensures NotStranded(u)
  {
    if w.tasks.Keys == {} {
      forall s | 0 <= s < cfg.n ensures u.q.heaps[s] == [] {
        assert RepOk(cfg, w, s);
        forall x | x in w.reps[s].pending ensures x in w.tasks { assert !Leaked(w, s, x); }
        NothingPending(w.reps[s].pending, w.tasks);
      }
    }
  }

  lemma NothingPending(pending: seq<Request>, tasks: map<Request, Task>)
    requires tasks.Keys == {} && forall x :: x in pending ==> x in tasks
    ensures pending == []
  {
    FirstIn(pending);
  }

  // ---------------------------------------------------------------- every step

  /** Dispatch is final: what left the queues never comes back, and what finished stays so. */
  ghost predicate Progress(w: World, u: World) {
    && (forall x :: x in w.tasks ==> x in u.tasks || x in u.finished)
    && w.finished <= u.finished
  }

  /** The requests of the system are those of before and the newcomer. */
  ghost predicate Arrivals(w: World, u: World, arrival: Option<Request>) {
    forall x :: Places(u, x) == Places(w, x) + if arrival == Some(x) then 1 else 0
  }

  lemma WithRepKeeps(cfg: Config, w: World, r: int, rep: Rep, e: Event, phase: Phase, led: Ledger)
    requires Core(cfg, w) && e.req in w.tasks && r == w.tasks[e.req].replica
    requires Balanced(cfg.slo, rep, led)
    requires forall s :: 0 <= s < cfg.n && s != r ==> Balanced(cfg.slo, w.reps[s], led)
    requires forall x :: x != e.req ==> (x in rep.pending <==> x in w.reps[r].pending)
    requires e.req in rep.pending <==> phase == Pending || e.Silent?
    requires w.tasks[e.req].phase != Done && (e.Silent? ==> phase == Done && w.tasks[e.req].phase == Pending)
    requires forall x :: x in rep.running <==> if x == e.req then phase == Running else x in w.reps[r].running
    ensures var u := WithRep(w, r, rep, e.req, phase).(ledger := led);
            Core(cfg, u) && NotStranded(u) && Progress(w, u) && Arrivals(w, u, None) && Leaks(w, u, e)
  {
    hide QueuesOk, RepOk, Balanced;
    var u := WithRep(w, r, rep, e.req, phase).(ledger := led);
    forall x ensures Places(u, x) == Places(w, x) { }
    assert Places(w, e.req) <= 1;
    forall s | 0 <= s < cfg.n ensures RepOk(cfg, u, s) {
      assert RepOk(cfg, w, s);
      WithRepOk(cfg, w, r, rep, e, phase, led, s);
    }
    forall s, x ensures Leaked(u, s, x) <==> Leaked(w, s, x) || (e == Silent(x) && At(w, x, Pending, s)) {
      if 0 <= s < cfg.n {
        assert RepOk(cfg, w, s);
        WithRepLeaks(cfg, w, r, rep, e, phase, s, x);
      }
    }
    assert e.req in u.tasks;
  }

  lemma WithRepOk(cfg: Config, w: World, r: int, rep: Rep, e: Event, phase: Phase, led: Ledger, s: int)
    requires 0 <= r < |w.reps| && 0 <= s < |w.reps| && e.req in w.tasks && r == w.tasks[e.req].replica
    requires RepOk(cfg, w, s) && Places(w, e.req) <= 1
    requires if s == r then Balanced(cfg.slo, rep, led) else Balanced(cfg.slo, w.reps[s], led)
    requires forall x :: x != e.req ==> (x in rep.pending <==> x in w.reps[r].pending)
    requires e.req in rep.pending <==> phase == Pending || e.Silent?
    requires e.Silent? ==> phase == Done
    requires forall x :: x in rep.running <==> if x == e.req then phase == Running else x in w.reps[r].running
    ensures RepOk(cfg, WithRep(w, r, rep, e.req, phase).(ledger := led), s)
  {
    hide Balanced, Total;
  }

  lemma WithRepLeaks(cfg: Config, w: World, r: int, rep: Rep, e: Event, phase: Phase, s: int, x: Request)
    requires 0 <= r < |w.reps| && 0 <= s < |w.reps| && e.req in w.tasks && r == w.tasks[e.req].replica
    requires RepOk(cfg, w, s) && Places(w, e.req) <= 1
    requires x != e.req ==> (x in rep.pending <==> x in w.reps[r].pending)
    requires e.req in rep.pending <==> phase == Pending || e.Silent?
    requires w.tasks[e.req].phase != Done && (e.Silent? ==> phase == Done && w.tasks[e.req].phase == Pending)
    ensures Leaked(WithRep(w, r, rep, e.req, phase), s, x) <==>
            Leaked(w, s, x) || (e == Silent(x) && At(w, x, Pending, s))
  {
    hide Balanced, Total;
  }

  function Newcomer(e: Event): Option<Request> { if e.Arrive? then Some(e.req) else None }

  lemma AcceptedKeeps(cfg: Config, o: Oracle, w: World, req: Request)
    requires Core(cfg, w) && In(w, req, Posted)
    ensures var u := Step(cfg, o, w, Accepted(req));
            Core(cfg, u) && NotStranded(u) && Progress(w, u) && Arrivals(w, u, None) && Leaks(w, u, Accepted(req))
  {
    hide QueuesOk;
    var r := w.tasks[req].replica;
    var tokens := o.recompute(r, req);
    var (rep, led) := Added(w.reps[r], w.ledger, req, tokens);
    assert Places(w, req) <= 1;
    assert RepOk(cfg, w, r);
    AddKeeps(cfg.slo, w.reps[r], w.ledger, req, tokens);
    forall s | 0 <= s < cfg.n && s != r ensures Balanced(cfg.slo, w.reps[s], led) {
      assert RepOk(cfg, w, s);
      AddElsewhere(cfg.slo, w.reps[s], w.ledger, req, tokens);
    }
    WithRepKeeps(cfg, w, r, rep, Accepted(req), Pending, led);
  }

  lemma TaskStepKeeps(cfg: Config, o: Oracle, w: World, e: Event)
    requires Core(cfg, w) && Enabled(w, e) && (e.FirstToken? || e.Finish? || e.Fail? || e.Silent?)
    ensures var u := Step(cfg, o, w, e);
            Core(cfg, u) && NotStranded(u) && Progress(w, u) && Arrivals(w, u, None) && Leaks(w, u, e)
  {
    hide QueuesOk, Remove;
    var r, req := w.tasks[e.req].replica, e.req;
    assert Places(w, req) <= 1;
    forall s | 0 <= s < cfg.n ensures Balanced(cfg.slo, w.reps[s], w.ledger) { assert RepOk(cfg, w, s); }
    assert RepOk(cfg, w, r);
    RemoveFacts(w.reps[r].pending, req, w.ledger);
    RemoveFacts(w.reps[r].running, req, w.ledger);
    match e
    case FirstToken(_) =>
      PrefillKeeps(cfg.slo, w.reps[r], w.ledger, req);
      WithRepKeeps(cfg, w, r, Prefilled(w.reps[r], w.ledger, req), e, Running, w.ledger);
    case Fail(_) =>
      AbortKeeps(cfg.slo, w.reps[r], w.ledger, req);
      WithRepKeeps(cfg, w, r, Aborted(w.reps[r], w.ledger, req), e, Done, w.ledger);
    case Finish(_) =>
      DecodeKeeps(cfg.slo, w.reps[r], w.ledger, req);
      WithRepKeeps(cfg, w, r, Decoded(w.reps[r], req), e, Done, w.ledger);
    case Silent(_) =>
      DecodeKeeps(cfg.slo, w.reps[r], w.ledger, req);
      WithRepKeeps(cfg, w, r, Decoded(w.reps[r], req), e, Done, w.ledger);
  }

  lemma CallbackKeeps(cfg: Config, o: Oracle, w: World, req: Request)
    requires Core(cfg, w) && In(w, req, Done)
    ensures var u := Step(cfg, o, w, Callback(req));
            && Core(cfg, u) && Progress(w, u) && Arrivals(w, u, None) && Leaks(w, u, Callback(req))
            && (NoLeaks(w) && cfg.slo > 0 && cfg.cap > 0 ==> NotStranded(u))
  {
    hide QueuesOk, Balanced, Schedule;
    var v := w.(tasks := w.tasks - {req}, finished := w.finished + {req});
    forall x ensures Places(v, x) == Places(w, x) { }
    forall s | 0 <= s < cfg.n ensures RepOk(cfg, v, s) { assert RepOk(cfg, w, s); }
    forall s, x ensures Leaked(v, s, x) <==> Leaked(w, s, x) { }
    ScheduleKeeps(cfg, o, v, None);
    var u := Schedule(cfg, o, v, None);
    assert Arrivals(v, u, None) && Progress(v, u);
    forall x ensures Places(u, x) == Places(w, x) { assert Places(v, x) == Places(w, x); }
  }

  /** Every step keeps the invariants: heaps and counters, each request in exactly one place,
      budgets; only silent completions leak. Without leaks no work is stranded. */
  lemma StepKeeps(cfg: Config, o: Oracle, w: World, e: Event)
    requires Core(cfg, w) && Enabled(w, e)
    ensures var u := Step(cfg, o, w, e);
            && Core(cfg, u) && Progress(w, u) && Arrivals(w, u, Newcomer(e)) && Leaks(w, u, e)
            && (NoLeaks(w) && cfg.slo > 0 && cfg.cap > 0 ==> NotStranded(u))
  {
    hide QueuesOk, Balanced, Schedule, NoLeaks;
    match e
    case Arrive(req) => ScheduleKeeps(cfg, o, w, Some(req));
    case Accepted(req) => AcceptedKeeps(cfg, o, w, req);
    case Callback(req) => CallbackKeeps(cfg, o, w, req);
    case _ => TaskStepKeeps(cfg, o, w, e);
  }

  // ---------------------------------------------------------------- runs

  function Start(cfg: Config): World {
    World(Queues(seq(cfg.n, _ => []), seq(cfg.n, _ => 0), seq(cfg.n, _ => 0)), map[], map[],
          seq(cfg.n, _ => Rep(cfg.slo, [], [])), map[], map[], {})
  }

  /** ws[0] is the start and every later world is one enabled step from the one before. */
  ghost predicate IsRun(cfg: Config, ws: seq<World>, es: seq<(Event, Oracle)>) {
    && ConfigOk(cfg) && |ws| == |es| + 1 && ws[0] == Start(cfg)
    && forall i :: 0 <= i < |es| ==>
         Sized(cfg, ws[i]) && Enabled(ws[i], es[i].0) && ws[i + 1] == Step(cfg, es[i].1, ws[i], es[i].0)
  }

  ghost predicate Loud(es: seq<(Event, Oracle)>) { forall i :: 0 <= i < |es| ==> !es[i].0.Silent? }

  /** The clock never goes back, and no request arrives before its arrival time. */
  ghost predicate Clocked(es: seq<(Event, Oracle)>) {
    && (forall i, j :: 0 <= i <= j < |es| ==> es[i].1.now <= es[j].1.now)
    && (forall i :: 0 <= i < |es| && es[i].0.Arrive? ==> es[i].0.req.arrived <= es[i].1.now)
  }

  lemma {:induction false} NoneQueued(heaps: seq<Heap>, x: Request)
    requires forall r :: 0 <= r < |heaps| ==> heaps[r] == []
    ensures Total(heaps, x) == 0
  {
    if heaps != [] { NoneQueued(heaps[1..], x); }
  }

  lemma StartOk(cfg: Config)
    requires ConfigOk(cfg)
    ensures Core(cfg, Start(cfg)) && NotStranded(Start(cfg)) && NoLeaks(Start(cfg))
  {
    var w := Start(cfg);
    forall x ensures Total(w.q.heaps, x) == 0 { NoneQueued(w.q.heaps, x); }
    assert forall r :: 0 <= r < cfg.n ==> w.q.heaps[r] == [];
  }

  /** In every world of every run: the queues are heaps with right counters, every request is
      in at most one place, and budgets equal the SLO budget minus the pending prefills. */
  lemma {:induction false} RunCore(cfg: Config, ws: seq<World>, es: seq<(Event, Oracle)>, i: nat)
    requires IsRun(cfg, ws, es) && i < |ws|
    ensures Core(cfg, ws[i])
  {
    hide Core, NotStranded, NoLeaks, Step, Start;
    if i == 0 {
      StartOk(cfg);
    } else {
      RunCore(cfg, ws, es, i - 1);
      StepKeeps(cfg, es[i - 1].1, ws[i - 1], es[i - 1].0);
    }
  }

  /** One of the first i events ends the stream of x, pending on r, without content. */
  ghost predicate Silenced(ws: seq<World>, es: seq<(Event, Oracle)>, i: nat, r: int, x: Request)
    requires i <= |es| < |ws|
  {
    exists k :: 0 <= k < i && es[k].0 == Silent(x) && At(ws[k], x, Pending, r)
  }

  /** A replica's pending list holds its pending tasks and every request whose stream ended
      there without content, for good and nothing else. */
  lemma {:induction false} PendingExactly(cfg: Config, ws: seq<World>, es: seq<(Event, Oracle)>, i: nat, r: int,
      x: Request)
    requires IsRun(cfg, ws, es) && i < |ws| && 0 <= r < cfg.n
    ensures |ws[i].reps| == cfg.n && (Leaked(ws[i], r, x) <==> Silenced(ws, es, i, r, x))
    ensures x in ws[i].reps[r].pending <==> At(ws[i], x, Pending, r) || Silenced(ws, es, i, r, x)
  {
    hide Step, Start, QueuesOk, Balanced, At;
    RunCore(cfg, ws, es, i);
    assert RepOk(cfg, ws[i], r);
    if i == 0 {
      StartOk(cfg);
    } else {
      PendingExactly(cfg, ws, es, i - 1, r, x);
      RunCore(cfg, ws, es, i - 1);
      StepKeeps(cfg, es[i - 1].1, ws[i - 1], es[i - 1].0);
      assert Leaks(ws[i - 1], ws[i], es[i - 1].0);
      if Silenced(ws, es, i, r, x) && !Silenced(ws, es, i - 1, r, x) {
        assert es[i - 1].0 == Silent(x) && At(ws[i - 1], x, Pending, r);
      }
    }
  }

  /** Without silent completions waiting work implies a task in flight whose completion will
      rerun the pass. */
  lemma RunSafe(cfg: Config, ws: seq<World>, es: seq<(Event, Oracle)>, i: nat)
    requires IsRun(cfg, ws, es) && Loud(es) && cfg.slo > 0 && cfg.cap > 0 && i < |ws|
    ensures Core(cfg, ws[i]) && NoLeaks(ws[i]) && NotStranded(ws[i])
  {
    hide Core, NotStranded, Step, Start, Leaked;
    RunCore(cfg, ws, es, i);
    LoudTight(cfg, ws, es, i);
    if i == 0 {
      StartOk(cfg);
    } else {
      RunCore(cfg, ws, es, i - 1);
      LoudTight(cfg, ws, es, i - 1);
      StepKeeps(cfg, es[i - 1].1, ws[i - 1], es[i - 1].0);
    }
  }

  lemma LoudTight(cfg: Config, ws: seq<World>, es: seq<(Event, Oracle)>, i: nat)
    requires IsRun(cfg, ws, es) && Loud(es) && i < |ws|
    ensures NoLeaks(ws[i])
  {
    hide IsRun;
    forall r, x ensures !Leaked(ws[i], r, x) {
      SizedRun(cfg, ws, es, i);
      if 0 <= r < cfg.n {
        PendingExactly(cfg, ws, es, i, r, x);
        assert !Silenced(ws, es, i, r, x);
      }
    }
  }

  lemma SizedRun(cfg: Config, ws: seq<World>, es: seq<(Event, Oracle)>, i: nat)
    requires IsRun(cfg, ws, es) && i < |ws|
    ensures |ws| == |es| + 1 && |ws[i].reps| == cfg.n
  {
    hide Step, Start;
    RunCore(cfg, ws, es, i);
  }

  /** Exactly-once dispatch: a request that has left the queues at some point of a run is in
      no queue at any later point. */
  lemma {:induction false} DispatchedOnce(cfg: Config, ws: seq<World>, es: seq<(Event, Oracle)>, i: nat, j: nat,
      x: Request)
    requires IsRun(cfg, ws, es) && i <= j < |ws|
    requires x in ws[i].tasks || x in ws[i].finished
    ensures (x in ws[j].tasks || x in ws[j].finished) && Total(ws[j].q.heaps, x) == 0
    decreases j
  {
    hide Step, Start, QueuesOk, RepOk, NoLeaks, Leaks;
    if i < j {
      DispatchedOnce(cfg, ws, es, i, j - 1, x);
      RunCore(cfg, ws, es, j - 1);
      StepKeeps(cfg, es[j - 1].1, ws[j - 1], es[j - 1].0);
    }
    RunCore(cfg, ws, es, j);
    assert Places(ws[j], x) <= 1;
  }

  /** Arrivals of x among the first i events. */
  function Arrived(es: seq<(Event, Oracle)>, i: nat, x: Request): nat
    requires i <= |es|
  {
    if i == 0 then 0 else Arrived(es, i - 1, x) + if es[i - 1].0 == Arrive(x) then 1 else 0
  }

  /** Conservation: at every point a request that has arrived is queued, in flight or
      finished, in exactly one of these ways, and one that has not is nowhere. */
  lemma {:induction false} Conserved(cfg: Config, ws: seq<World>, es: seq<(Event, Oracle)>, i: nat, x: Request)
    requires IsRun(cfg, ws, es) && i < |ws|
    ensures Places(ws[i], x) == Arrived(es, i, x) <= 1
  {
    hide Step, QueuesOk, RepOk, NoLeaks, Leaks;
    RunCore(cfg, ws, es, i);
    assert Places(ws[i], x) <= 1;
    if i == 0 {
      NoneQueued(ws[0].q.heaps, x);
    } else {
      Conserved(cfg, ws, es, i - 1, x);
      RunCore(cfg, ws, es, i - 1);
      StepKeeps(cfg, es[i - 1].1, ws[i - 1], es[i - 1].0);
    }
  }
}
