/** Which replica an arrival goes to, and which rebalances it sets off, in terms of what the
    code measures: recompute lengths, waiting and pending tokens, running blocks, arrivals. */
module Selection {
  import opened Requests
  import opened Heapq
  import opened RequestQueue
  import opened Latency
  import opened Rebalance
  import opened Dispatch

  /** x and y are the two replicas the session is hashed to, in some order. */
  predicate Pair(cfg: Config, req: Request, x: int, y: int)
    requires cfg.n > 0
  {
    var f, g := cfg.hash1(req.session), cfg.hash2(req.session);
    var other := if g == f then (f + 1) % cfg.n else g;
    (x == f && y == other) || (x == other && y == f)
  }

  /** Tokens of the prompt that replica r has cached. */
  function HitOn(o: Oracle, r: int, req: Request): int {
    if o.recompute(r, req) < |req.inputIds| then |req.inputIds| - o.recompute(r, req) else 0
  }

  /** Tokens charged to replica r and not computed yet. */
  function PendingOn(cfg: Config, w: World, r: int): int
    requires 0 <= r < |w.reps|
  {
    if w.reps[r].budget < cfg.slo then cfg.slo - w.reps[r].budget else 0
  }

  /** Tokens to compute until the request's first token on replica r. */
  function LoadOn(cfg: Config, o: Oracle, w: World, r: int, req: Request): int
    requires 0 <= r < |w.reps| && r < |w.q.actual|
  {
    w.q.actual[r] + PendingOn(cfg, w, r) + o.recompute(r, req)
  }

  /** x comes before y: by the larger merit, else by fewer running blocks, else as the coin
      falls between the first and the second hash. */
  predicate Beats(cfg: Config, o: Oracle, req: Request, x: int, y: int, meritX: int, meritY: int) {
    || meritX > meritY
    || (meritX == meritY && o.blocks(x) < o.blocks(y))
    || (meritX == meritY && o.blocks(x) == o.blocks(y) && (cfg.coin <==> x == cfg.hash1(req.session)))
  }

  /** Of two different candidates exactly one comes first. */
  lemma OneBeats(cfg: Config, o: Oracle, req: Request, x: int, y: int, meritX: int, meritY: int)
    requires cfg.n > 0 && Pair(cfg, req, x, y) && x != y
    ensures Beats(cfg, o, req, x, y, meritX, meritY) <==> !Beats(cfg, o, req, y, x, meritY, meritX)
  {
  }

  /** The earlier time is the larger merit. */
  function Earliness(cfg: Config, o: Oracle, w: World, r: int, req: Request): int
    requires 0 <= r < |w.reps| && r < |w.q.actual|
  {
    -Ticks(cfg.tpot, LoadOn(cfg, o, w, r, req))
  }

  lemma PairRange(cfg: Config, req: Request, x: int, y: int)
    requires ConfigOk(cfg) && Pair(cfg, req, x, y)
    ensures 0 <= x < cfg.n && 0 <= y < cfg.n && (x == y <==> cfg.n == 1)
  {
    var s := req.session;
    assert 0 <= cfg.hash1(s) < cfg.n && 0 <= cfg.hash2(s) < cfg.n;
    var f := cfg.hash1(s);
    assert (f + 1) % cfg.n == if f + 1 == cfg.n then 0 else f + 1;
  }

  /** The candidate with the larger cache hit is primary unless more than the threshold would
      have to be computed there; then it is the one with the shorter rounded time. */
  lemma PrimaryIs(cfg: Config, o: Oracle, w: World, req: Request, x: int, y: int)
    requires ConfigOk(cfg) && Sized(cfg, w) && Pair(cfg, req, x, y)
    requires cfg.n > 1 ==> Beats(cfg, o, req, x, y, HitOn(o, x, req), HitOn(o, y, req))
    ensures 0 <= x < cfg.n && 0 <= y < cfg.n
    ensures LoadOn(cfg, o, w, x, req) <= cfg.firstThreshold ==> PrimaryOf(cfg, o, w, req) == (x, y)
    ensures var (p, s) := PrimaryOf(cfg, o, w, req);
            && Pair(cfg, req, p, s) && 0 <= p < cfg.n && 0 <= s < cfg.n
            && (cfg.n > 1 && LoadOn(cfg, o, w, x, req) > cfg.firstThreshold ==>
                  Beats(cfg, o, req, p, s, Earliness(cfg, o, w, p, req), Earliness(cfg, o, w, s, req)))
  {
    hide Ticks;
    PairRange(cfg, req, x, y);
    var env := EnvOf(cfg, o, w.reps);
    Hashed(cfg, env, req);
    assert First(env, req) == cfg.hash1(req.session);
    forall r | 0 <= r < cfg.n ensures Virtual(env, w.q, r, req) == LoadOn(cfg, o, w, r, req) {
      assert env.pend[r] == PendingOn(cfg, w, r);
    }
    assert CacheHit(env, x, req) == HitOn(o, x, req) && CacheHit(env, y, req) == HitOn(o, y, req);
  }

  // ---------------------------------------------------------------- what an arrival sets off

  /** Something in the list has waited for the latency limit. */
  ghost predicate Aged(h: Heap, now: int, limit: int) {
    if h == [] then limit <= 0 else exists i :: 0 <= i < |h| && now - h[i].arrived >= limit
  }

  lemma AgedIs(h: Heap, now: int, limit: int)
    ensures Aged(h, now, limit) <==> MaxDelay(h, now) >= limit
  {
    hide MaxDelay;
    DelayIs(h, now);
    if h != [] && MaxDelay(h, now) >= limit {
      var i :| 0 <= i < |h| && now - h[i].arrived == MaxDelay(h, now);
      assert now - h[i].arrived >= limit;
    }
  }

  /** Tokens at r beyond the threshold once the newcomer waits at p. */
  function Excess(cfg: Config, o: Oracle, w: World, p: int, r: int, req: Request): int
    requires 0 <= r < |w.reps| && r < |w.q.actual|
  {
    w.q.actual[r] + PendingOn(cfg, w, r) + (if r == p then o.recompute(r, req) else 0) - cfg.threshold
  }

  ghost predicate Full(cfg: Config, o: Oracle, w: World, p: int, r: int, req: Request)
    requires 0 <= r < |w.reps| && r < |w.q.actual| && r < |w.q.heaps|
  {
    Excess(cfg, o, w, p, r, req) > 0 || Aged(w.q.heaps[r], o.now, cfg.latency)
  }

  /** An arrival joins its primary's queue with the hit it has there. When both candidates are
      full, the primary is rebalanced by its excess and then the other one by its own. The
      newcomer's stamps are written last. */
  lemma ArrivalIs(cfg: Config, o: Oracle, w: World, req: Request)
    requires ConfigOk(cfg) && Sized(cfg, w)
    ensures var (p, s) := PrimaryOf(cfg, o, w, req); 0 <= p < cfg.n && 0 <= s < cfg.n
    ensures EnvOk(EnvOf(cfg, o, w.reps))
    ensures var (p, s) := PrimaryOf(cfg, o, w, req);
            var env, u := EnvOf(cfg, o, w.reps), AddRequest(cfg, o, w, req);
            var st0 := State(Push(w.q, p, req, HitOn(o, p, req)), w.primary, w.second, w.q.actual, 0);
            var goalP, goalS := Excess(cfg, o, w, p, p, req), Excess(cfg, o, w, p, s, req);
            var st := if Full(cfg, o, w, p, p, req) && Full(cfg, o, w, p, s, req)
                      then Rebalanced(env, Rebalanced(env, st0, p, goalP), s, goalS) else st0;
            u == w.(q := st.q, primary := st.primary[req := p], second := st.second[req := s])
  {
    hide Rebalanced, Push, MaxDelay, Aged, Ticks;
    var env := EnvOf(cfg, o, w.reps);
    EnvOkOf(cfg, o, w.reps);
    Hashed(cfg, env, req);
    var (p, s) := PrimaryOf(cfg, o, w, req);
    assert CacheHit(env, p, req) == HitOn(o, p, req);
    forall r | 0 <= r < cfg.n
      ensures Backlog(env, w.q, p, r, req) - cfg.threshold == Excess(cfg, o, w, p, r, req)
      ensures Hot(env, w.q, p, r, req) <==> Full(cfg, o, w, p, r, req)
    {
      assert env.pend[r] == PendingOn(cfg, w, r);
      AgedIs(w.q.heaps[r], o.now, cfg.latency);
    }
  }
}
