/** One `schedule` call of the DualMap scheduler and the life cycle of requests, on values:
    the steps of the state machine whose runs Runs.dfy reasons about. */
module Dispatch {
  import opened Common
  import opened Requests
  import opened RequestQueue
  import opened Latency
  import opened Rebalance
  import opened Replicas

  /** The coin breaks ties between two replicas. The random generator is seeded anew before
      every tie, so it always falls the same way. */
  datatype Config = Config(n: nat, hash1: int -> int, hash2: int -> int, slo: int, cap: int,
                           threshold: int, firstThreshold: int, latency: int, coin: bool, tpot: real)

  ghost predicate ConfigOk(cfg: Config) {
    && cfg.n > 0 && cfg.tpot > 0.0
    && (forall s :: 0 <= cfg.hash1(s) < cfg.n)
    && (forall s :: 0 <= cfg.hash2(s) < cfg.n)
  }

  /** What a step reads from outside: the clock, the caches' current prefill lengths, whether
      a replica finished a prefill recently, and the running block counts. */
  datatype Oracle = Oracle(now: int, recompute: (int, Request) -> int, recent: int -> bool, blocks: int -> int)

  ghost predicate OracleOk(o: Oracle) { forall r, x :: o.recompute(r, x) >= 0 }

  /** Where a dispatched request is: the HTTP task, and from Pending to Running the lists of
      its replica. Done: the HTTP request has ended and its completion callback is still to run. */
  datatype Phase = Posted | Pending | Running | Done
  datatype Task = Task(phase: Phase, replica: int)

  datatype World = World(q: Queues, primary: map<Request, int>, second: map<Request, int>,
                         reps: seq<Rep>, ledger: Ledger, tasks: map<Request, Task>, finished: set<Request>)

  predicate Sized(cfg: Config, w: World) { cfg.n > 0 && Shape(w.q, cfg.n) && |w.reps| == cfg.n }

  function Loads(cfg: Config, reps: seq<Rep>): (s: seq<int>)
    ensures |s| == |reps|
  {
    seq(|reps|, r requires 0 <= r < |reps| => PendingTokens(cfg.slo, reps[r]))
  }

  function EnvOf(cfg: Config, o: Oracle, reps: seq<Rep>): Env {
    Env(cfg.n, cfg.hash1, cfg.hash2, o.recompute, Loads(cfg, reps), cfg.threshold, cfg.latency, o.now, cfg.tpot)
  }

  // ---------------------------------------------------------------- replica selection

  /** `select_replicas_based_on_metrics` on two replicas: by the metric, then by fewer running
      blocks, then by the coin. */
  function Pick(a: int, b: int, metricA: int, metricB: int, max: bool, blocksA: int, blocksB: int, coin: bool)
      : (int, int) {
    if metricA != metricB then (if (metricA > metricB) == max then (a, b) else (b, a))
    else if blocksA != blocksB then (if blocksA < blocksB then (a, b) else (b, a))
    else if coin then (a, b) else (b, a)
  }

  /** Tokens ahead of a first token on r, the request's own prefill included. */
  function Virtual(env: Env, q: Queues, r: int, req: Request): int
    requires 0 <= r < |q.actual| && r < |env.pend|
  {
    q.actual[r] + env.pend[r] + env.recompute(r, req)
  }

  function CacheHit(env: Env, r: int, req: Request): int {
    if |req.inputIds| - env.recompute(r, req) > 0 then |req.inputIds| - env.recompute(r, req) else 0
  }

  /** (primary, second) for balance type "dualmap": the larger cache hit unless overloaded,
      else the shorter predicted time. */
  function Select(cfg: Config, o: Oracle, env: Env, q: Queues, req: Request): (int, int)
    requires env.n > 0 && 0 <= First(env, req) < |q.actual| && 0 <= Second(env, req) < |q.actual| <= |env.pend|
  {
    var a, b := First(env, req), Second(env, req);
    var blocksA, blocksB := o.blocks(a), o.blocks(b);
    var (high, low) := Pick(a, b, CacheHit(env, a, req), CacheHit(env, b, req), true, blocksA, blocksB, cfg.coin);
    if Virtual(env, q, high, req) > cfg.firstThreshold
    then Pick(a, b, Ticks(env.tpot, Virtual(env, q, a, req)), Ticks(env.tpot, Virtual(env, q, b, req)), false,
              blocksA, blocksB, cfg.coin)
    else (high, low)
  }

  lemma Hashed(cfg: Config, env: Env, req: Request)
    requires ConfigOk(cfg) && env.n == cfg.n && env.hash1 == cfg.hash1 && env.hash2 == cfg.hash2
    ensures 0 <= First(env, req) < cfg.n && 0 <= Second(env, req) < cfg.n
  {
    var s := req.session;
    assert 0 <= cfg.hash1(s) < cfg.n && 0 <= cfg.hash2(s) < cfg.n;
  }

  lemma EnvOkOf(cfg: Config, o: Oracle, reps: seq<Rep>)
    requires ConfigOk(cfg) && |reps| == cfg.n
    ensures EnvOk(EnvOf(cfg, o, reps))
  {
    forall s ensures 0 <= EnvOf(cfg, o, reps).hash1(s) < cfg.n && 0 <= EnvOf(cfg, o, reps).hash2(s) < cfg.n {
      assert 0 <= cfg.hash1(s) < cfg.n && 0 <= cfg.hash2(s) < cfg.n;
    }
  }

  // ---------------------------------------------------------------- arrival

  /** Pending tokens of r once the newcomer waits in `primary`. */
  function Backlog(env: Env, q: Queues, primary: int, r: int, req: Request): int
    requires 0 <= r < |q.actual| && r < |env.pend|
  {
    Virtual(env, q, r, req) - if r == primary then 0 else env.recompute(r, req)
  }

  predicate Hot(env: Env, q: Queues, primary: int, r: int, req: Request)
    requires 0 <= r < |q.actual| && r < |env.pend| && r < |q.heaps|
  {
    Backlog(env, q, primary, r, req) > env.threshold || MaxDelay(q.heaps[r], env.now) >= env.latency
  }

  /** The push and, when both candidates are hot, the two rebalances that follow it. */
  function Placed(cfg: Config, o: Oracle, w: World, req: Request): (st: State)
    requires ConfigOk(cfg) && Sized(cfg, w)
    ensures Shape(st.q, cfg.n)
  {
    var env := EnvOf(cfg, o, w.reps);
    EnvOkOf(cfg, o, w.reps);
    Hashed(cfg, env, req);
    var (p, s) := Select(cfg, o, env, w.q, req);
    var st := State(Push(w.q, p, req, CacheHit(env, p, req)), w.primary, w.second, w.q.actual, 0);
    if Hot(env, w.q, p, p, req) && Hot(env, w.q, p, s, req) then
      var st1 := Rebalanced(env, st, p, Backlog(env, w.q, p, p, req) - cfg.threshold);
      Rebalanced(env, st1, s, Backlog(env, w.q, p, s, req) - cfg.threshold)
    else st
  }

  function PrimaryOf(cfg: Config, o: Oracle, w: World, req: Request): (int, int)
    requires ConfigOk(cfg) && Sized(cfg, w)
  {
    var env := EnvOf(cfg, o, w.reps);
    Hashed(cfg, env, req);
    Select(cfg, o, env, w.q, req)
  }

  /** `add_request_to_best_global_queue`: the stamps are written last, over whatever the
      rebalances wrote. */
  function AddRequest(cfg: Config, o: Oracle, w: World, req: Request): (u: World)
    requires ConfigOk(cfg) && Sized(cfg, w)
    ensures Sized(cfg, u)
  {
    var st := Placed(cfg, o, w, req);
    var (p, s) := PrimaryOf(cfg, o, w, req);
    w.(q := st.q, primary := st.primary[req := p], second := st.second[req := s])
  }

  // ---------------------------------------------------------------- the pass

  /** The rebalances at the start of a pass, from replica r on. */
  function RebalanceFrom(env: Env, st: State, r: nat): (u: State)
    requires EnvOk(env) && Shape(st.q, env.n) && |st.waiting| == env.n && r <= env.n
    ensures Shape(u.q, env.n) && |u.waiting| == env.n
    decreases env.n - r
  {
    if r == env.n then st
    else
      var tokens := st.q.actual[r] + env.pend[r];
      if tokens > env.threshold || MaxDelay(st.q.heaps[r], env.now) >= env.latency
      then RebalanceFrom(env, Rebalanced(env, st, r, tokens - env.threshold), r + 1)
      else RebalanceFrom(env, st, r + 1)
  }

  /** The state from which a pass pops. */
  function Settled(cfg: Config, o: Oracle, w: World): (st: State)
    requires ConfigOk(cfg) && Sized(cfg, w)
    ensures Shape(st.q, cfg.n)
  {
    var env := EnvOf(cfg, o, w.reps);
    EnvOkOf(cfg, o, w.reps);
    RebalanceFrom(env, State(w.q, w.primary, w.second, w.q.actual, 0), 0)
  }

  /** A replica is served when it has requests waiting and budget left, and is idle or has
      finished a prefill recently. */
  predicate Served(cfg: Config, o: Oracle, reps: seq<Rep>, q: Queues, r: nat)
    requires r < |reps| && r < |q.heaps|
  {
    && q.heaps[r] != [] && reps[r].budget > 0
    && (|reps[r].pending| == 0 || (|reps[r].pending| <= cfg.cap && o.recent(r)))
  }

  /** The pops of a pass, from replica r on: the entries in posting order and the queues. */
  function PopFrom(cfg: Config, o: Oracle, reps: seq<Rep>, q: Queues, r: nat): (p: (seq<Item>, Queues))
    requires Shape(q, cfg.n) && |reps| == cfg.n && r <= cfg.n
    ensures Shape(p.1, cfg.n)
    decreases cfg.n - r
  {
    if r == cfg.n then ([], q)
    else if Served(cfg, o, reps, q, r) then
      var (taken, q1) := PopSchedulable(q, r, reps[r].budget, Some(cfg.cap - |reps[r].pending|));
      var (rest, q2) := PopFrom(cfg, o, reps, q1, r + 1);
      (taken + rest, q2)
    else PopFrom(cfg, o, reps, q, r + 1)
  }

  /** `get_schedulable_waiting_req_list` */
  function Pass(cfg: Config, o: Oracle, w: World): (p: (seq<Item>, World))
    requires ConfigOk(cfg) && Sized(cfg, w)
    ensures Sized(cfg, p.1)
  {
    var env := EnvOf(cfg, o, w.reps);
    EnvOkOf(cfg, o, w.reps);
    var st := RebalanceFrom(env, State(w.q, w.primary, w.second, w.q.actual, 0), 0);
    var (taken, q) := PopFrom(cfg, o, w.reps, st.q, 0);
    (taken, w.(q := q, primary := st.primary, second := st.second))
  }

  /** Posting: to the stamped replica, or back to a queue when the stamp is no replica. */
  function PostAll(cfg: Config, o: Oracle, w: World, reqs: seq<Item>): (u: World)
    requires ConfigOk(cfg) && Sized(cfg, w)
    ensures Sized(cfg, u)
    decreases |reqs|
  {
    if reqs == [] then w
    else
      var req := reqs[0].req;
      if req in w.primary && 0 <= w.primary[req] < cfg.n
      then PostAll(cfg, o, w.(tasks := w.tasks[req := Task(Posted, w.primary[req])]), reqs[1..])
      else PostAll(cfg, o, AddRequest(cfg, o, w, req), reqs[1..])
  }

  /** `schedule`, with a new request or as a completion callback. */
  function Schedule(cfg: Config, o: Oracle, w: World, arrival: Option<Request>): (u: World)
    requires ConfigOk(cfg) && Sized(cfg, w)
    ensures Sized(cfg, u)
  {
    var w1 := if arrival.Some? then AddRequest(cfg, o, w, arrival.value) else w;
    var (taken, w2) := Pass(cfg, o, w1);
    PostAll(cfg, o, w2, taken)
  }

  // ---------------------------------------------------------------- the life cycle

  /** The steps of the system. Silent is a stream that ends without any content token. */
  datatype Event =
    | Arrive(req: Request) | Accepted(req: Request) | FirstToken(req: Request) | Finish(req: Request)
    | Fail(req: Request) | Callback(req: Request) | Silent(req: Request)

  predicate In(w: World, req: Request, phase: Phase) {
    req in w.tasks && w.tasks[req].phase == phase && 0 <= w.tasks[req].replica < |w.reps|
  }

  predicate Known(w: World, req: Request) {
    Total(w.q.heaps, req) > 0 || req in w.tasks || req in w.finished
  }

  /** When a step can happen. */
  predicate Enabled(w: World, e: Event) {
    match e
    case Arrive(req) => !Known(w, req)
    case Accepted(req) => In(w, req, Posted)
    case FirstToken(req) => In(w, req, Pending)
    case Finish(req) => In(w, req, Running)
    case Fail(req) => In(w, req, Posted) || In(w, req, Pending) || In(w, req, Running)
    case Callback(req) => In(w, req, Done)
    case Silent(req) => In(w, req, Pending)
  }

  function WithRep(w: World, r: int, rep: Rep, req: Request, phase: Phase): (u: World)
    requires 0 <= r < |w.reps|
    ensures |u.reps| == |w.reps| && u.q == w.q
  {
    w.(reps := w.reps[r := rep], tasks := w.tasks[req := Task(phase, r)])
  }

  function Step(cfg: Config, o: Oracle, w: World, e: Event): (u: World)
    requires ConfigOk(cfg) && Sized(cfg, w) && Enabled(w, e)
    ensures Sized(cfg, u)
  {
    match e
    case Arrive(req) => Schedule(cfg, o, w, Some(req))
    case Accepted(req) =>
      var r := w.tasks[req].replica;
      var (rep, led) := Added(w.reps[r], w.ledger, req, o.recompute(r, req));
      WithRep(w, r, rep, req, Pending).(ledger := led)
    case FirstToken(req) =>
      var r := w.tasks[req].replica;
      WithRep(w, r, Prefilled(w.reps[r], w.ledger, req), req, Running)
    case Finish(req) =>
      var r := w.tasks[req].replica;
      WithRep(w, r, Decoded(w.reps[r], req), req, Done)
    case Fail(req) =>
      var r := w.tasks[req].replica;
      WithRep(w, r, Aborted(w.reps[r], w.ledger, req), req, Done)
    case Callback(req) =>
      Schedule(cfg, o, w.(tasks := w.tasks - {req}, finished := w.finished + {req}), None)
    case Silent(req) =>
      var r := w.tasks[req].replica;
      WithRep(w, r, Decoded(w.reps[r], req), req, Done)
  }
}
