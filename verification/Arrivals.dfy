/** An arrival at empty queues: what one schedule call does with it. */
module Arrivals {
  import opened Common
  import opened Requests
  import opened Heapq
  import opened RequestQueue
  import opened Rebalance
  import opened Replicas
  import opened Dispatch
  import opened Runs

  predicate AllEmpty(q: Queues) { forall r :: 0 <= r < |q.heaps| ==> q.heaps[r] == [] }

  /** One entry in all queues, and that at p. */
  predicate Lone(q: Queues, p: nat, it: Item) {
    p < |q.heaps| && q.heaps[p] == [it] && forall r :: 0 <= r < |q.heaps| && r != p ==> q.heaps[r] == []
  }

  /** Queues with one request each are not rebalanced. */
  lemma {:induction false} ShortQueues(env: Env, st: State, r: nat)
    requires EnvOk(env) && Shape(st.q, env.n) && |st.waiting| == env.n && r <= env.n
    requires forall s :: 0 <= s < env.n ==> |st.q.heaps[s]| <= 1
    ensures RebalanceFrom(env, st, r) == st
    decreases env.n - r
  {
    hide MaxDelay;
    if r < env.n { ShortQueues(env, st, r + 1); }
  }

  lemma LonePush(q: Queues, p: nat, req: Request, hit: int)
    requires p < |q.heaps| && Shape(q, |q.heaps|) && AllEmpty(q)
    ensures Lone(Push(q, p, req, hit), p, ItemFor(req, hit))
    ensures Popped(Push(q, p, req, hit), p) == q
  {
    var it, u := ItemFor(req, hit), Push(q, p, req, hit);
    assert HeapPush([], it) == [it];
    assert HeapPop([it]) == [];
    var v := Popped(u, p);
    assert v.heaps == q.heaps && v.actual == q.actual && v.inputs == q.inputs;
  }

  lemma LoneTaken(q: Queues, p: nat, it: Item, budget: int, max: int)
    requires Shape(q, |q.heaps|) && Lone(q, p, it) && max > 0
    ensures PopSchedulable(q, p, budget, Some(max)) == ([it], Popped(q, p))
  {
    assert HeapPop([it]) == [] by { assert |HeapPop([it])| == 0; }
    assert Drain([it]) == [it];
    assert [it][1..] == [];
    assert TakeCount([it], budget, Some(max), 0) == 1;
    assert PoppedMany(q, p, 0) == q;
    assert PoppedMany(q, p, 1) == Popped(q, p);
    assert [it][..1] == [it];
  }

  lemma {:induction false} EmptyPops(cfg: Config, o: Oracle, reps: seq<Rep>, q: Queues, r: nat)
    requires Shape(q, cfg.n) && |reps| == cfg.n && r <= cfg.n && forall s :: r <= s < cfg.n ==> q.heaps[s] == []
    ensures PopFrom(cfg, o, reps, q, r) == ([], q)
    decreases cfg.n - r
  {
    if r < cfg.n { EmptyPops(cfg, o, reps, q, r + 1); }
  }

  predicate Ready(cfg: Config, rep: Rep) { rep.pending == [] && rep.budget > 0 && cfg.cap > 0 }

  predicate Waiting(o: Oracle, rep: Rep, p: nat) { rep.pending != [] && !o.recent(p) }

  lemma {:induction false} LonePops(cfg: Config, o: Oracle, reps: seq<Rep>, q: Queues, r: nat, p: nat, it: Item)
    requires Shape(q, cfg.n) && |reps| == cfg.n && r <= p < cfg.n && Lone(q, p, it)
    ensures Ready(cfg, reps[p]) ==> PopFrom(cfg, o, reps, q, r) == ([it], Popped(q, p))
    ensures Waiting(o, reps[p], p) ==> PopFrom(cfg, o, reps, q, r) == ([], q)
    decreases cfg.n - r
  {
    hide Popped, PopSchedulable;
    if r < p {
      LonePops(cfg, o, reps, q, r + 1, p, it);
    } else if Ready(cfg, reps[p]) {
      LoneTaken(q, p, it, reps[p].budget, cfg.cap);
      LonePopped(q, p, it);
      EmptyPops(cfg, o, reps, Popped(q, p), p + 1);
      assert [it] + [] == [it];
    } else if Waiting(o, reps[p], p) {
      EmptyPops(cfg, o, reps, q, p + 1);
    }
  }

  lemma LonePopped(q: Queues, p: nat, it: Item)
    requires Shape(q, |q.heaps|) && Lone(q, p, it)
    ensures forall r :: 0 <= r < |q.heaps| && r != p ==> Popped(q, p).heaps[r] == []
  {
  }

  lemma LonePass(cfg: Config, o: Oracle, w: World, p: nat, it: Item)
    requires ConfigOk(cfg) && Sized(cfg, w) && p < cfg.n && Lone(w.q, p, it)
    ensures Ready(cfg, w.reps[p]) ==> Pass(cfg, o, w) == ([it], w.(q := Popped(w.q, p)))
    ensures Waiting(o, w.reps[p], p) ==> Pass(cfg, o, w) == ([], w)
  {
    hide RebalanceFrom, PopFrom, Popped, Loads;
    var env := EnvOf(cfg, o, w.reps);
    EnvOkOf(cfg, o, w.reps);
    ShortQueues(env, State(w.q, w.primary, w.second, w.q.actual, 0), 0);
    LonePops(cfg, o, w.reps, w.q, 0, p, it);
  }

  /** The push is not rebalanced away, however hot the candidates. */
  lemma LoneAdd(cfg: Config, o: Oracle, w: World, req: Request)
    requires ConfigOk(cfg) && Sized(cfg, w) && AllEmpty(w.q)
    ensures var (p, s) := PrimaryOf(cfg, o, w, req);
            && 0 <= p < cfg.n
            && AddRequest(cfg, o, w, req) == w.(q := Push(w.q, p, req, CacheHit(EnvOf(cfg, o, w.reps), p, req)),
                                                 primary := w.primary[req := p], second := w.second[req := s])
  {
    hide Push, Select, Hot, Backlog, Loads, CacheHit;
    var env := EnvOf(cfg, o, w.reps);
    EnvOkOf(cfg, o, w.reps);
    Hashed(cfg, env, req);
    var (p, s) := Select(cfg, o, env, w.q, req);
    SelectRange(cfg, o, env, w.q, req);
    LonePush(w.q, p, req, CacheHit(env, p, req));
  }

  /** An arrival at empty queues is posted at once to its primary replica when that is ready,
      and waits there when it has a pending request and no recent prefill. */
  lemma LoneArrival(cfg: Config, o: Oracle, w: World, req: Request)
    requires ConfigOk(cfg) && Sized(cfg, w) && AllEmpty(w.q)
    ensures var (p, s) := PrimaryOf(cfg, o, w, req);
            && 0 <= p < cfg.n
            && var u := w.(primary := w.primary[req := p], second := w.second[req := s]);
            && (Ready(cfg, w.reps[p]) ==>
                Schedule(cfg, o, w, Some(req)) == u.(tasks := w.tasks[req := Task(Posted, p)]))
            && (Waiting(o, w.reps[p], p) ==>
                  Schedule(cfg, o, w, Some(req)) == u.(q := Push(w.q, p, req, CacheHit(EnvOf(cfg, o, w.reps), p, req))))
  {
    hide Push, Popped, Pass, AddRequest, PrimaryOf, CacheHit, Loads;
    LoneAdd(cfg, o, w, req);
    var p := PrimaryOf(cfg, o, w, req).0;
    var hit := CacheHit(EnvOf(cfg, o, w.reps), p, req);
    LonePush(w.q, p, req, hit);
    var v, it := AddRequest(cfg, o, w, req), ItemFor(req, hit);
    LonePass(cfg, o, v, p, it);
    if Ready(cfg, w.reps[p]) {
      PostOne(cfg, o, v.(q := w.q), it);
    } else if Waiting(o, w.reps[p], p) {
      assert PostAll(cfg, o, v, []) == v;
    }
  }

  lemma PostOne(cfg: Config, o: Oracle, w: World, it: Item)
    requires ConfigOk(cfg) && Sized(cfg, w) && it.req in w.primary && 0 <= w.primary[it.req] < cfg.n
    ensures PostAll(cfg, o, w, [it]) == w.(tasks := w.tasks[it.req := Task(Posted, w.primary[it.req])])
  {
    hide AddRequest;
    var v := w.(tasks := w.tasks[it.req := Task(Posted, w.primary[it.req])]);
    assert [it][1..] == [] && PostAll(cfg, o, v, []) == v;
  }
}
