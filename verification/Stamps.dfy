/** Whether a waiting request is stamped with the replica in whose queue it waits. Posting
    goes by the stamp, so a stale one sends the request to another replica. */
module Stamps {
  import opened Common
  import opened Requests
  import opened Heapq
  import opened RequestQueue
  import opened Rebalance
  import opened RebalanceGains
  import opened Dispatch
  import opened Runs

  /** The newcomer's request can join the queues cleanly. */
  ghost predicate Joins(q: Queues, req: Request) {
    && Total(q.heaps, req) == 0 && req.numPrefill == |req.inputIds|
    && forall x :: Total(q.heaps, x) > 0 ==> x.arrived != req.arrived
  }

  lemma {:induction false} SomeQueue(heaps: seq<Heap>, x: Request) returns (r: nat)
    requires Total(heaps, x) > 0
    ensures r < |heaps| && Count(heaps[r], x) > 0
  {
    if Count(heaps[0], x) > 0 {
      r := 0;
    } else {
      var s := SomeQueue(heaps[1..], x);
      r := s + 1;
    }
  }

  lemma PushStamped(q: Queues, primary: map<Request, int>, p: nat, req: Request, hit: int)
    requires p < |q.heaps| && Shape(q, |q.heaps|) && Clean(q) && Stamped(q, primary) && Joins(q, req)
    requires req.numPrefill - hit >= 0
    ensures Clean(Push(q, p, req, hit)) && Stamped(Push(q, p, req, hit), primary[req := p])
  {
    hide HeapPush;
    var u := Push(q, p, req, hit);
    CleanPush(q.heaps[p], ItemFor(req, hit));
    forall x
      ensures Total(u.heaps, x) == Total(q.heaps, x) + if x == req then 1 else 0
    {
      PushCount(q, p, req, hit, x);
    }
    forall r | 0 <= r < |u.heaps| ensures CleanList(u.heaps[r]) { if r != p { assert u.heaps[r] == q.heaps[r]; } }
    forall r, x | 0 <= r < |u.heaps| && Count(u.heaps[r], x) > 0
      ensures x in primary[req := p] && primary[req := p][x] == r
    {
      PushCount(q, p, req, hit, x);
      TotalAtLeast(q.heaps, r, req);
      if x != req { assert Count(q.heaps[r], x) > 0; }
    }
  }

  lemma RebalancePair(env: Env, a: State, b: State, p: int, g1: int, s: int, g2: int, req: Request) returns (st: State)
    requires StateOk(env, a) && Prefills(env) && Clean(a.q) && Stamped(a.q, a.primary) && ButStamp(a, b, req)
    requires 0 <= p < env.n && 0 <= s < env.n
    ensures Clean(st.q) && Stamped(st.q, st.primary) && Total(st.q.heaps, req) == Total(a.q.heaps, req)
    ensures ButStamp(st, Rebalanced(env, Rebalanced(env, b, p, g1), s, g2), req)
  {
    hide Rebalanced, Clean, Stamped, WellFormed, ButStamp;
    assert Shape(a.q, env.n) && b.q == a.q && b.waiting == a.waiting by {
      ButStampMeaning(a, b, req);
      WellFormedShape(a.q, env.n);
    }
    var a1, b1 := Rebalanced(env, a, p, g1), Rebalanced(env, b, p, g1);
    RebalanceSafe(env, a, p, g1);
    RebalanceStamps(env, a, p, g1);
    RebalancedUnstamped(env, a, b, p, g1, req);
    RebalanceSafe(env, a1, s, g2);
    RebalanceStamps(env, a1, s, g2);
    RebalancedUnstamped(env, a1, b1, s, g2, req);
    st := Rebalanced(env, a1, s, g2);
    assert Total(st.q.heaps, req) == Total(a1.q.heaps, req) == Total(a.q.heaps, req);
  }

  lemma ButStampMeaning(a: State, b: State, req: Request)
    requires ButStamp(a, b, req)
    ensures a.q == b.q && a.waiting == b.waiting
  {
  }

  /** The state an arrival leads to when the stamp is written before the rebalances. */
  lemma PlacedStamped(cfg: Config, o: Oracle, w: World, req: Request) returns (st: State)
    requires ConfigOk(cfg) && OracleOk(o) && Sized(cfg, w) && WellFormed(w.q, cfg.n)
    requires Clean(w.q) && Stamped(w.q, w.primary) && Joins(w.q, req)
    ensures Clean(st.q) && Stamped(st.q, st.primary) && ButStamp(st, Placed(cfg, o, w, req), req)
    ensures Total(st.q.heaps, req) == 1
  {
    hide Push, Rebalanced, Select, Hot, Backlog, Loads, Clean, Stamped, WellFormed;
    var env := EnvOf(cfg, o, w.reps);
    EnvOkOf(cfg, o, w.reps);
    Hashed(cfg, env, req);
    var (p, s) := Select(cfg, o, env, w.q, req);
    SelectRange(cfg, o, env, w.q, req);
    var hit := CacheHit(env, p, req);
    PushKeeps(w.q, cfg.n, p, req, hit);
    PushCount(w.q, p, req, hit, req);
    assert req.numPrefill - hit >= 0 by { assert o.recompute(p, req) >= 0; }
    PushStamped(w.q, w.primary, p, req, hit);
    var a := State(Push(w.q, p, req, hit), w.primary[req := p], w.second, w.q.actual, 0);
    var b := a.(primary := w.primary);
    st := a;
    if Hot(env, w.q, p, p, req) && Hot(env, w.q, p, s, req) {
      assert Prefills(env) by {
        forall r, x ensures env.recompute(r, x) >= 0 { assert o.recompute(r, x) >= 0; }
      }
      st := RebalancePair(env, a, b, p, Backlog(env, w.q, p, p, req) - cfg.threshold,
                          s, Backlog(env, w.q, p, s, req) - cfg.threshold, req);
    }
  }

  lemma StampedIff(q: Queues, right: map<Request, int>, now: map<Request, int>, p: int, req: Request)
    requires Clean(q) && Stamped(q, right) && Total(q.heaps, req) == 1 && 0 <= p < |q.heaps|
    requires forall x :: x != req && x in right ==> x in now && now[x] == right[x]
    requires req in now && now[req] == p
    ensures Stamped(q, now) <==> Count(q.heaps[p], req) > 0
  {
    hide Clean, Count, Total;
    var r := SomeQueue(q.heaps, req);
    forall s | 0 <= s < |q.heaps| && s != r ensures Count(q.heaps[s], req) == 0 { NotElsewhere(q, r, s, req); }
    if Stamped(q, now) {
      assert now[req] == r;
    }
    if Count(q.heaps[p], req) > 0 {
      forall s, x | 0 <= s < |q.heaps| && Count(q.heaps[s], x) > 0 ensures x in now && now[x] == s {
        if x != req { assert x in right && right[x] == s; }
      }
    }
  }

  /** The stamps are right exactly when the newcomer still waits at its primary replica. */
  lemma StampedAtHome(cfg: Config, o: Oracle, w: World, req: Request)
    requires ConfigOk(cfg) && OracleOk(o) && Sized(cfg, w) && WellFormed(w.q, cfg.n)
    requires Clean(w.q) && Stamped(w.q, w.primary) && Joins(w.q, req)
    ensures var u, p := AddRequest(cfg, o, w, req), PrimaryOf(cfg, o, w, req).0;
            0 <= p < cfg.n && (Stamped(u.q, u.primary) <==> Count(u.q.heaps[p], req) > 0)
  {
    hide Placed, Select, Clean, Stamped, WellFormed;
    var st := PlacedStamped(cfg, o, w, req);
    var u, p := AddRequest(cfg, o, w, req), PrimaryOf(cfg, o, w, req).0;
    Hashed(cfg, EnvOf(cfg, o, w.reps), req);
    SelectRange(cfg, o, EnvOf(cfg, o, w.reps), w.q, req);
    StampedIff(u.q, st.primary, u.primary, p, req);
  }

  // ---------------------------------------------------------------- when the newcomer moves on

  /** A rebalance does not touch a request that does not wait at its source. */
  lemma {:induction false} LoopOthers(env: Env, st: State, delay: seq<int>, source: int, goal: int, r: nat, x: Request)
    requires EnvOk(env) && Shape(st.q, env.n) && |st.waiting| == |delay| == env.n && 0 <= source < env.n && r < env.n
    requires Count(st.q.heaps[source], x) == 0
    ensures Count(Loop(env, st, delay, source, goal).q.heaps[r], x) == Count(st.q.heaps[r], x)
    decreases |st.q.heaps[source]|
  {
    hide Moved, Candidate;
    var m := Best(env, st, delay, source, |st.q.heaps[source]|);
    if m.Some? && m.value.cost < 0.0 && !(goal > 0 && st.migrated >= goal) {
      var c := m.value;
      var req := st.q.heaps[source][c.index].req;
      CandidateTarget(env, st, delay, source, c);
      MigrateShrinks(env, st, source, c);
      assert Has(st.q.heaps[source], req);
      CountHas(st.q.heaps[source], req);
      MovedCounts(st.q, source, c.target, req, req.numPrefill - c.targetLen, source, x);
      MovedCounts(st.q, source, c.target, req, req.numPrefill - c.targetLen, r, x);
      LoopOthers(env, Migrate(env, st, source, c), delay, source, goal, r, x);
    }
  }

  /** The greedy loop comes to pick req in some round. */
  predicate Leaves(env: Env, st: State, delay: seq<int>, source: int, goal: int, req: Request)
    requires EnvOk(env) && Shape(st.q, env.n) && |st.waiting| == |delay| == env.n && 0 <= source < env.n
    decreases |st.q.heaps[source]|
  {
    match Best(env, st, delay, source, |st.q.heaps[source]|)
    case None => false
    case Some(c) =>
      if c.cost >= 0.0 || (goal > 0 && st.migrated >= goal) then false
      else if st.q.heaps[source][c.index].req == req then true
      else
        TargetFacts(env, st.waiting, delay, source, st.q.heaps[source][c.index].req);
        MigrateShrinks(env, st, source, c);
        Leaves(env, Migrate(env, st, source, c), delay, source, goal, req)
  }

  /** One occurrence of req in all queues, and that at r. */
  ghost predicate Only(q: Queues, r: nat, req: Request)
    requires r < |q.heaps|
  {
    Count(q.heaps[r], req) == 1 && forall s :: 0 <= s < |q.heaps| && s != r ==> Count(q.heaps[s], req) == 0
  }

  /** What one migration does to a request that waits at the source only. */
  lemma MovedOnly(env: Env, st: State, delay: seq<int>, source: int, c: Choice, req: Request)
    requires EnvOk(env) && Shape(st.q, env.n) && |st.waiting| == |delay| == env.n && 0 <= source < env.n
    requires c.index < |st.q.heaps[source]| && Candidate(env, st, delay, source, c.index) == Some(c)
    requires Only(st.q, source, req)
    ensures 0 <= c.target < env.n && c.target != source
    ensures var home := if st.q.heaps[source][c.index].req == req then c.target else source;
            Only(Migrate(env, st, source, c).q, home, req)
  {
    hide Moved, Candidate, Count;
    CandidateTarget(env, st, delay, source, c);
    var x := st.q.heaps[source][c.index].req;
    assert Has(st.q.heaps[source], x);
    forall r | 0 <= r < env.n
      ensures Count(Migrate(env, st, source, c).q.heaps[r], req) == Count(st.q.heaps[r], req) +
                if req == x && r == c.target then 1 else if req == x && r == source then -1 else 0
    {
      MovedCounts(st.q, source, c.target, x, x.numPrefill - c.targetLen, r, req);
    }
  }

  /** The other candidate s was overloaded when the loop began and stays so; the newcomer goes
      nowhere exactly when the loop does not pick it, and never to s. */
  lemma {:induction false} LoopHome(env: Env, st: State, delay: seq<int>, source: int, goal: int, s: int, req: Request)
    requires EnvOk(env) && Prefills(env) && Shape(st.q, env.n) && |st.waiting| == |delay| == env.n
    requires 0 <= source < env.n
    requires Only(st.q, source, req) && 0 <= s < env.n && s != source && Overloaded(env, st.waiting, delay, s, req)
    ensures var u := Loop(env, st, delay, source, goal);
            Count(u.q.heaps[s], req) == 0 &&
                Count(u.q.heaps[source], req) == if Leaves(env, st, delay, source, goal, req) then 0 else 1
    decreases |st.q.heaps[source]|
  {
    hide Moved, Target, Wait, Count;
    var m := Best(env, st, delay, source, |st.q.heaps[source]|);
    if m.Some? && m.value.cost < 0.0 && !(goal > 0 && st.migrated >= goal) {
      var c := m.value;
      MovedOnly(env, st, delay, source, c, req);
      MigrateShrinks(env, st, source, c);
      var v := Migrate(env, st, source, c);
      TargetFacts(env, st.waiting, delay, source, st.q.heaps[source][c.index].req);
      assert c.targetLen == env.recompute(c.target, st.q.heaps[source][c.index].req) >= 0;
      if st.q.heaps[source][c.index].req == req {
        LoopOthers(env, v, delay, source, goal, s, req);
        LoopOthers(env, v, delay, source, goal, source, req);
      } else {
        LoopHome(env, v, delay, source, goal, s, req);
      }
    }
  }

  /** A single replica has nowhere to migrate to. */
  lemma {:induction false} NowhereToGo(env: Env, st: State, delay: seq<int>, source: int, i: nat)
    requires EnvOk(env) && env.n == 1 && Shape(st.q, env.n) && |st.waiting| == |delay| == env.n && 0 <= source < env.n
    requires i <= |st.q.heaps[source]|
    ensures Best(env, st, delay, source, i) == None
  {
    if i > 0 { NowhereToGo(env, st, delay, source, i - 1); }
  }

  /** The loop state in which the rebalance of the primary replica p starts. */
  function AfterPush(env: Env, w: World, p: int, req: Request): (st: State)
    requires Shape(w.q, env.n) && 0 <= p < env.n
    ensures Shape(st.q, env.n) && |st.waiting| == env.n
  {
    var q := Push(w.q, p, req, CacheHit(env, p, req));
    State(q, w.primary, w.second, q.actual, 0)
  }

  /** Both candidates are hot, something waited at the primary before, and the migration loop
      started there picks the newcomer. All of it can be computed before the call. */
  predicate MovesOn(cfg: Config, o: Oracle, w: World, req: Request)
    requires ConfigOk(cfg) && Sized(cfg, w)
  {
    var env := EnvOf(cfg, o, w.reps);
    EnvOkOf(cfg, o, w.reps);
    Hashed(cfg, env, req);
    var (p, s) := Select(cfg, o, env, w.q, req);
    && Hot(env, w.q, p, p, req) && Hot(env, w.q, p, s, req) && w.q.heaps[p] != []
    && var st := AfterPush(env, w, p, req);
       Leaves(env, st, Delays(st.q, env.now), p, Backlog(env, w.q, p, p, req) - cfg.threshold, req)
  }

  lemma PushOnly(env: Env, w: World, p: int, req: Request)
    requires Shape(w.q, env.n) && 0 <= p < env.n && Total(w.q.heaps, req) == 0
    ensures Only(AfterPush(env, w, p, req).q, p, req)
    ensures |AfterPush(env, w, p, req).q.heaps[p]| == |w.q.heaps[p]| + 1
    ensures forall r :: 0 <= r < env.n && r != p ==>
              AfterPush(env, w, p, req).q.heaps[r] == w.q.heaps[r] &&
                  AfterPush(env, w, p, req).q.actual[r] == w.q.actual[r]
  {
    hide HeapPush, Count;
    PushCount(w.q, p, req, CacheHit(env, p, req), req);
    forall r | 0 <= r < env.n ensures Count(w.q.heaps[r], req) == 0 { TotalAtLeast(w.q.heaps, r, req); }
  }

  /** A hot candidate other than the primary is overloaded for the newcomer. */
  lemma HotIsOverloaded(env: Env, w: World, p: int, s: int, req: Request)
    requires EnvOk(env) && Prefills(env) && Shape(w.q, env.n) && 0 <= p < env.n && 0 <= s < env.n && s != p
    requires Total(w.q.heaps, req) == 0 && Hot(env, w.q, p, s, req)
    ensures var st := AfterPush(env, w, p, req); Overloaded(env, st.waiting, Delays(st.q, env.now), s, req)
  {
    hide Push, MaxDelay;
    PushOnly(env, w, p, req);
    assert env.recompute(s, req) >= 0;
  }

  /** The two rebalances of an arrival with hot candidates p and s. */
  lemma RebalancesHome(env: Env, w: World, p: int, s: int, g1: int, g2: int, req: Request)
    requires EnvOk(env) && Prefills(env) && Shape(w.q, env.n) && |w.reps| == env.n && 0 <= p < env.n && 0 <= s < env.n
    requires Total(w.q.heaps, req) == 0 && Hot(env, w.q, p, s, req) && (p == s ==> env.n == 1)
    ensures var st0 := AfterPush(env, w, p, req).(waiting := w.q.actual);
            var st := Rebalanced(env, Rebalanced(env, st0, p, g1), s, g2);
            Count(st.q.heaps[p], req) > 0 <==>
              w.q.heaps[p] == [] ||
              !Leaves(env, AfterPush(env, w, p, req), Delays(AfterPush(env, w, p, req).q, env.now), p, g1, req)
  {
    hide Push, Best, Overloaded, Hot, AfterPush;
    PushOnly(env, w, p, req);
    var st := AfterPush(env, w, p, req);
    assert st.migrated == 0 && st.waiting == st.q.actual by { AfterPushShape(env, w, p, req); }
    var st1 := Rebalanced(env, st.(waiting := w.q.actual), p, g1);
    if p == s {
      SingleStays(env, st.(waiting := w.q.actual), p, g1);
      SingleStays(env, st1, s, g2);
      NowhereToGo(env, st, Delays(st.q, env.now), p, |st.q.heaps[p]|);
    } else {
      HotIsOverloaded(env, w, p, s, req);
      if w.q.heaps[p] != [] {
        LoopHome(env, st, Delays(st.q, env.now), p, g1, s, req);
        assert st1 == Loop(env, st, Delays(st.q, env.now), p, g1);
      }
      assert Count(st1.q.heaps[s], req) == 0;
      OthersStay(env, st1, s, g2, p, req);
    }
  }

  lemma AfterPushShape(env: Env, w: World, p: int, req: Request)
    requires Shape(w.q, env.n) && 0 <= p < env.n
    ensures AfterPush(env, w, p, req).migrated == 0
    ensures AfterPush(env, w, p, req).waiting == AfterPush(env, w, p, req).q.actual
  {
  }

  lemma SingleStays(env: Env, st: State, source: int, goal: int)
    requires EnvOk(env) && env.n == 1 && Shape(st.q, env.n) && |st.waiting| == env.n && 0 <= source < env.n
    ensures Rebalanced(env, st, source, goal).q == st.q
  {
    hide Best;
    var u := st.(waiting := st.q.actual, migrated := 0);
    NowhereToGo(env, u, Delays(st.q, env.now), source, |st.q.heaps[source]|);
  }

  lemma OthersStay(env: Env, st: State, source: int, goal: int, r: nat, x: Request)
    requires EnvOk(env) && Shape(st.q, env.n) && |st.waiting| == env.n && 0 <= source < env.n && r < env.n
    requires Count(st.q.heaps[source], x) == 0
    ensures Count(Rebalanced(env, st, source, goal).q.heaps[r], x) == Count(st.q.heaps[r], x)
  {
    hide Loop;
    if |st.q.heaps[source]| > 1 {
      LoopOthers(env, st.(waiting := st.q.actual, migrated := 0), Delays(st.q, env.now), source, goal, r, x);
    }
  }

  /** The two candidates differ unless there is only one replica. */
  lemma TwoCandidates(cfg: Config, o: Oracle, env: Env, q: Queues, req: Request)
    requires ConfigOk(cfg) && env.n == cfg.n && env.hash1 == cfg.hash1 && env.hash2 == cfg.hash2
    requires |q.actual| == env.n == |env.pend|
    requires 0 <= First(env, req) < env.n && 0 <= Second(env, req) < env.n
    ensures var (p, s) := Select(cfg, o, env, q, req); 0 <= p < env.n && 0 <= s < env.n && (p == s ==> env.n == 1)
  {
    var f := First(env, req);
    assert env.n > 1 ==> (f + 1) % env.n != f;
  }

  /** Exactly when an arrival leaves every waiting request stamped with its queue: unless both
      candidates are hot, the primary had a queue, and the loop there picks the newcomer. */
  lemma StampExact(cfg: Config, o: Oracle, w: World, req: Request)
    requires ConfigOk(cfg) && OracleOk(o) && Sized(cfg, w) && WellFormed(w.q, cfg.n)
    requires Clean(w.q) && Stamped(w.q, w.primary) && Joins(w.q, req)
    ensures var u := AddRequest(cfg, o, w, req); Stamped(u.q, u.primary) <==> !MovesOn(cfg, o, w, req)
  {
    hide Clean, Stamped, WellFormed, Select, Hot, Backlog, Rebalanced, Push, Loads, Leaves, Delays;
    StampedAtHome(cfg, o, w, req);
    var env := EnvOf(cfg, o, w.reps);
    EnvOkOf(cfg, o, w.reps);
    Hashed(cfg, env, req);
    var (p, s) := Select(cfg, o, env, w.q, req);
    TwoCandidates(cfg, o, env, w.q, req);
    assert Prefills(env) by { forall r, x ensures env.recompute(r, x) >= 0 { assert o.recompute(r, x) >= 0; } }
    PushOnly(env, w, p, req);
    if Hot(env, w.q, p, p, req) && Hot(env, w.q, p, s, req) {
      RebalancesHome(env, w, p, s, Backlog(env, w.q, p, p, req) - cfg.threshold,
          Backlog(env, w.q, p, s, req) - cfg.threshold, req);
    }
  }
}
