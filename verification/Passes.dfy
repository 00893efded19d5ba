/** What one pass does: which replicas it rebalances and by how much, whom it serves, and how
    much it takes from each. */
module Passes {
  import opened Common
  import opened Requests
  import opened Heapq
  import opened RequestQueue
  import opened Rebalance
  import opened Dispatch
  import opened Selection

  // ---------------------------------------------------------------- the rebalances

  /** Tokens waiting for and pending on r beyond the threshold. */
  function Surplus(cfg: Config, w: World, q: Queues, r: int): int
    requires 0 <= r < |w.reps| && r < |q.actual|
  {
    q.actual[r] + PendingOn(cfg, w, r) - cfg.threshold
  }

  /** Replica r is rebalanced by its surplus if it has one or something waits too long. */
  ghost predicate SettlesOne(cfg: Config, o: Oracle, w: World, r: nat, a: State, b: State) {
    && ConfigOk(cfg) && Sized(cfg, w) && r < cfg.n && EnvOk(EnvOf(cfg, o, w.reps))
    && Shape(a.q, cfg.n) && |a.waiting| == cfg.n
    && b == if Surplus(cfg, w, a.q, r) > 0 || Aged(a.q.heaps[r], o.now, cfg.latency)
            then Rebalanced(EnvOf(cfg, o, w.reps), a, r, Surplus(cfg, w, a.q, r)) else a
  }

  lemma {:induction false} SettlesFrom(cfg: Config, o: Oracle, w: World, st: State, r: nat) returns (sts: seq<State>)
    requires ConfigOk(cfg) && Sized(cfg, w) && EnvOk(EnvOf(cfg, o, w.reps))
    requires Shape(st.q, cfg.n) && |st.waiting| == cfg.n && r <= cfg.n
    ensures |sts| == cfg.n - r + 1 && sts[0] == st && sts[cfg.n - r] == RebalanceFrom(EnvOf(cfg, o, w.reps), st, r)
    ensures forall i :: 0 <= i < cfg.n - r ==> SettlesOne(cfg, o, w, r + i, sts[i], sts[i + 1])
    decreases cfg.n - r
  {
    hide Rebalanced, Aged, MaxDelay, SettlesOne;
    var env := EnvOf(cfg, o, w.reps);
    if r == cfg.n { return [st]; }
    var tokens := st.q.actual[r] + env.pend[r];
    AgedIs(st.q.heaps[r], o.now, cfg.latency);
    var hot := tokens > env.threshold || MaxDelay(st.q.heaps[r], env.now) >= env.latency;
    var u := if hot then Rebalanced(env, st, r, tokens - env.threshold) else st;
    assert env.pend[r] == PendingOn(cfg, w, r);
    assert SettlesOne(cfg, o, w, r, st, u) by { OneSettled(cfg, o, w, r, st, u); }
    var rest := SettlesFrom(cfg, o, w, u, r + 1);
    sts := [st] + rest;
    forall i | 0 <= i < cfg.n - r ensures SettlesOne(cfg, o, w, r + i, sts[i], sts[i + 1]) {
      if i > 0 {
        assert SettlesOne(cfg, o, w, r + 1 + (i - 1), rest[i - 1], rest[i - 1 + 1]);
        assert sts[i] == rest[i - 1] && sts[i + 1] == rest[i] && r + 1 + (i - 1) == r + i;
      }
    }
  }

  lemma OneSettled(cfg: Config, o: Oracle, w: World, r: nat, a: State, b: State)
    requires ConfigOk(cfg) && Sized(cfg, w) && r < cfg.n && EnvOk(EnvOf(cfg, o, w.reps))
    requires Shape(a.q, cfg.n) && |a.waiting| == cfg.n
    requires b == if Surplus(cfg, w, a.q, r) > 0 || Aged(a.q.heaps[r], o.now, cfg.latency)
                  then Rebalanced(EnvOf(cfg, o, w.reps), a, r, Surplus(cfg, w, a.q, r)) else a
    ensures SettlesOne(cfg, o, w, r, a, b)
  {
  }

  /** A pass begins with the rebalances of all replicas in turn. */
  lemma PassSettles(cfg: Config, o: Oracle, w: World) returns (sts: seq<State>)
    requires ConfigOk(cfg) && Sized(cfg, w)
    ensures |sts| == cfg.n + 1 && sts[0] == State(w.q, w.primary, w.second, w.q.actual, 0)
    ensures forall r :: 0 <= r < cfg.n ==> SettlesOne(cfg, o, w, r, sts[r], sts[r + 1])
    ensures var (taken, u) := Pass(cfg, o, w);
            && sts[cfg.n] == Settled(cfg, o, w)
            && u == w.(q := u.q, primary := sts[cfg.n].primary, second := sts[cfg.n].second)
  {
    hide RebalanceFrom, SettlesOne, PopFrom;
    EnvOkOf(cfg, o, w.reps);
    sts := SettlesFrom(cfg, o, w, State(w.q, w.primary, w.second, w.q.actual, 0), 0);
    forall r | 0 <= r < cfg.n ensures SettlesOne(cfg, o, w, r, sts[r], sts[r + 1]) {
      assert SettlesOne(cfg, o, w, 0 + r, sts[r], sts[r + 1]);
    }
  }

  // ---------------------------------------------------------------- the pops

  /** Something waits, budget is left, and the replica is idle or has just finished a prefill. */
  predicate IsServed(cfg: Config, o: Oracle, w: World, q: Queues, r: nat)
    requires r < |w.reps| && r < |q.heaps|
  {
    && |q.heaps[r]| > 0 && w.reps[r].budget > 0
    && (w.reps[r].pending == [] || (|w.reps[r].pending| <= cfg.cap && o.recent(r)))
  }

  /** From a served replica's queue the first k entries in service order are taken, k being the
      one number at which its budget, its free slots or the queue end; from another's none. */
  ghost predicate Takes(cfg: Config, o: Oracle, w: World, q: Queues, u: Queues, r: nat, part: seq<Item>) {
    && r < |w.reps| && r < |q.heaps| && r < |u.heaps|
    && if IsServed(cfg, o, w, q, r)
       then exists k: nat :: && StopsAt(Drain(q.heaps[r]), k, w.reps[r].budget, Some(cfg.cap - |w.reps[r].pending|), 0)
                             && part == Drain(q.heaps[r])[..k] && Drain(u.heaps[r]) == Drain(q.heaps[r])[k..]
       else part == [] && u.heaps[r] == q.heaps[r]
  }

  function Joined(parts: seq<seq<Item>>): seq<Item> {
    if parts == [] then [] else parts[0] + Joined(parts[1..])
  }

  lemma OneTaken(cfg: Config, o: Oracle, w: World, q: Queues, r: nat)
    requires Shape(q, cfg.n) && |w.reps| == cfg.n && r < cfg.n && IsServed(cfg, o, w, q, r)
    ensures var (part, u) := PopSchedulable(q, r, w.reps[r].budget, Some(cfg.cap - |w.reps[r].pending|));
            Takes(cfg, o, w, q, u, r, part) && forall s :: 0 <= s < cfg.n && s != r ==> u.heaps[s] == q.heaps[s]
  {
    hide Drain, TakeCount, GoesOn, StopsAt;
    var budget, max := w.reps[r].budget, Some(cfg.cap - |w.reps[r].pending|);
    var k := TakeCount(Drain(q.heaps[r]), budget, max, 0);
    TakeCountStops(Drain(q.heaps[r]), budget, max, 0);
    PassMeaning(q, r, budget, max, k);
    PoppedManyElsewhere(q, r, k);
  }

  lemma {:induction false} PoppedManyElsewhere(q: Queues, r: nat, k: nat)
    requires r < |q.heaps| && Shape(q, |q.heaps|) && k <= |q.heaps[r]|
    ensures forall s :: 0 <= s < |q.heaps| && s != r ==> PoppedMany(q, r, k).heaps[s] == q.heaps[s]
  {
    hide HeapPop;
    if k > 0 { PoppedManyElsewhere(q, r, k - 1); }
  }

  lemma {:induction false} PopFromTakes(cfg: Config, o: Oracle, w: World, q: Queues, r: nat)
      returns (parts: seq<seq<Item>>)
    requires Shape(q, cfg.n) && |w.reps| == cfg.n && r <= cfg.n
    ensures var (taken, u) := PopFrom(cfg, o, w.reps, q, r);
            && |parts| == cfg.n - r && taken == Joined(parts)
            && (forall i :: 0 <= i < |parts| ==> Takes(cfg, o, w, q, u, r + i, parts[i]))
            && (forall s :: 0 <= s < r ==> u.heaps[s] == q.heaps[s])
    decreases cfg.n - r
  {
    hide PopSchedulable, Takes;
    if r == cfg.n { return []; }
    var (part, q1) := if Served(cfg, o, w.reps, q, r)
                      then PopSchedulable(q, r, w.reps[r].budget, Some(cfg.cap - |w.reps[r].pending|)) else ([], q);
    assert Served(cfg, o, w.reps, q, r) <==> IsServed(cfg, o, w, q, r);
    if Served(cfg, o, w.reps, q, r) { OneTaken(cfg, o, w, q, r); } else { NoneTaken(cfg, o, w, q, r); }
    var rest := PopFromTakes(cfg, o, w, q1, r + 1);
    parts := [part] + rest;
    var u := PopFrom(cfg, o, w.reps, q, r).1;
    forall i | 0 <= i < |parts| ensures Takes(cfg, o, w, q, u, r + i, parts[i]) {
      if i == 0 {
        TakesSame(cfg, o, w, q, q, q1, u, r, part);
      } else {
        assert parts[i] == rest[i - 1] && r + 1 + (i - 1) == r + i;
        assert Takes(cfg, o, w, q1, u, r + 1 + (i - 1), rest[i - 1]);
        TakesSame(cfg, o, w, q1, q, u, u, r + i, parts[i]);
      }
    }
  }

  lemma NoneTaken(cfg: Config, o: Oracle, w: World, q: Queues, r: nat)
    requires Shape(q, cfg.n) && |w.reps| == cfg.n && r < cfg.n && !IsServed(cfg, o, w, q, r)
    ensures Takes(cfg, o, w, q, q, r, [])
  {
  }

  /** What is taken from r is a matter of r's queue alone. */
  lemma TakesSame(cfg: Config, o: Oracle, w: World, q: Queues, q': Queues, u: Queues, u': Queues, r: nat,
      part: seq<Item>)
    requires Takes(cfg, o, w, q, u, r, part)
    requires r < |q'.heaps| && r < |u'.heaps| && q'.heaps[r] == q.heaps[r] && u'.heaps[r] == u.heaps[r]
    ensures Takes(cfg, o, w, q', u', r, part)
  {
    hide StopsAt, Drain;
  }

  /** A pass takes from the replicas in turn, from each what Takes says, after its rebalances. */
  lemma PassTakes(cfg: Config, o: Oracle, w: World) returns (parts: seq<seq<Item>>)
    requires ConfigOk(cfg) && Sized(cfg, w)
    ensures var (taken, u) := Pass(cfg, o, w);
            && |parts| == cfg.n && taken == Joined(parts)
            && forall r :: 0 <= r < cfg.n ==> Takes(cfg, o, w, Settled(cfg, o, w).q, u.q, r, parts[r])
  {
    hide RebalanceFrom, PopFrom, Takes;
    EnvOkOf(cfg, o, w.reps);
    parts := PopFromTakes(cfg, o, w, Settled(cfg, o, w).q, 0);
    var u := Pass(cfg, o, w).1;
    forall r | 0 <= r < cfg.n ensures Takes(cfg, o, w, Settled(cfg, o, w).q, u.q, r, parts[r]) {
      assert Takes(cfg, o, w, Settled(cfg, o, w).q, u.q, 0 + r, parts[r]);
    }
  }

  // ---------------------------------------------------------------- service order

  /** Requests come with the larger hit length first, and with equal ones the earlier first. */
  lemma ServedInOrder(h: Heap, i: nat, j: nat)
    requires IsHeap(h) && i < j < |h|
    ensures var d := Drain(h); d[i].neg < d[j].neg || (d[i].neg == d[j].neg && d[i].arrived <= d[j].arrived)
  {
    DrainSorted(h);
    assert Le(Drain(h)[i], Drain(h)[j]);
  }

  /** A push queues the request with its hit length and adds what is left of it to compute to the
      waiting tokens, and all of it to the waiting prompt tokens. */
  lemma Pushes(q: Queues, r: nat, req: Request, hit: int)
    requires r < |q.heaps| && Shape(q, |q.heaps|)
    ensures var u := Push(q, r, req, hit);
            && multiset(u.heaps[r]) == multiset(q.heaps[r]) + multiset{Item(-hit, req.arrived, req)}
            && u.actual == q.actual[r := q.actual[r] + req.numPrefill - hit]
            && u.inputs == q.inputs[r := q.inputs[r] + |req.inputIds|]
            && forall s :: 0 <= s < |q.heaps| && s != r ==> u.heaps[s] == q.heaps[s]
  {
    hide HeapPush;
    PushSame(q.heaps[r], ItemFor(req, hit));
    assert multiset(q.heaps[r] + [ItemFor(req, hit)]) == multiset(q.heaps[r]) + multiset{ItemFor(req, hit)};
  }
}
