/** What the rounds of a rebalance do, told without the functions that compute them: where a
    request may go, which one is moved, and when the rounds end. */
module Rounds {
  import opened Common
  import opened Requests
  import opened Heapq
  import opened RequestQueue
  import opened Latency
  import opened Rebalance

  // ---------------------------------------------------------------- where a request may go

  /** p is the other replica the session of the request is hashed to. */
  predicate Partner(env: Env, source: int, req: Request, p: int)
    requires env.n > 0
  {
    var f, g := env.hash1(req.session), env.hash2(req.session);
    || (source != f && p == f)
    || (source == f != g && p == g)
    || (source == f == g && p == (f + 1) % env.n)
  }

  predicate HasRoom(env: Env, waiting: seq<int>, delay: seq<int>, r: int, req: Request)
    requires 0 <= r < |waiting| && r < |delay| && r < |env.pend|
  {
    waiting[r] + env.pend[r] + env.recompute(r, req) <= env.threshold && delay[r] < env.latency
  }

  /** How far r lies after s, counting round from the last replica to the first. */
  function Steps(n: nat, s: int, r: int): int { if r >= s then r - s else r - s + n }

  /** t is the first replica after the source that is neither the source nor p. */
  ghost predicate Neighbour(n: nat, source: int, p: int, t: int) {
    && t != source && t != p
    && forall u :: 0 <= u < n && u != source && u != p ==> Steps(n, source, t) <= Steps(n, source, u)
  }

  lemma NextOf(n: nat, r: int)
    requires 0 <= r < n
    ensures (r + 1) % n == if r + 1 == n then 0 else r + 1
  {
  }

  lemma NeighbourIs(n: nat, source: int, p: int, t: int)
    requires 0 <= source < n && 0 <= p < n && 0 <= t < n && (p == source ==> n == 1)
    ensures var next := (source + 1) % n;
            var tmp := if next == source || next == p then (p + 1) % n else next;
            Neighbour(n, source, p, t) <==> t == tmp && t != source && t != p
  {
    NextOf(n, source);
    NextOf(n, p);
    var next := (source + 1) % n;
    var tmp := if next == source || next == p then (p + 1) % n else next;
    if Neighbour(n, source, p, t) && tmp != source && tmp != p {
      assert Steps(n, source, t) <= Steps(n, source, tmp);
    }
  }

  /** A request goes to its other replica when that has room, else to the first replica after
      the source that is neither of the two, if that has room, and else nowhere. */
  lemma TargetIs(env: Env, waiting: seq<int>, delay: seq<int>, source: int, req: Request, p: int, t: int)
    requires EnvOk(env) && |waiting| == |delay| == env.n && 0 <= source < env.n && Partner(env, source, req, p)
    ensures 0 <= p < env.n
    ensures Target(env, waiting, delay, source, req) == Some(t) <==>
              && 0 <= t < env.n && t != source && HasRoom(env, waiting, delay, t, req)
              && (t == p || (!HasRoom(env, waiting, delay, p, req) && Neighbour(env.n, source, p, t)))
  {
    hide Neighbour;
    var s := req.session;
    assert 0 <= env.hash1(s) < env.n && 0 <= env.hash2(s) < env.n;
    NextOf(env.n, env.hash1(s));
    NextOf(env.n, source);
    NextOf(env.n, p);
    if 0 <= t < env.n { NeighbourIs(env.n, source, p, t); }
  }

  // ---------------------------------------------------------------- which request moves

  /** c is the cheapest candidate of the source's queue, the earliest of several. */
  ghost predicate IsCheapest(env: Env, st: State, delay: seq<int>, source: int, c: Choice)
    requires env.n > 0 && Shape(st.q, env.n) && |st.waiting| == |delay| == |env.pend| == env.n && 0 <= source < env.n
  {
    && c.index < |st.q.heaps[source]| && Candidate(env, st, delay, source, c.index) == Some(c)
    && forall j :: 0 <= j < |st.q.heaps[source]| && Candidate(env, st, delay, source, j).Some? ==>
         var d := Candidate(env, st, delay, source, j).value; c.cost <= d.cost && (j < c.index ==> c.cost < d.cost)
  }

  lemma {:induction false} BestAmong(env: Env, st: State, delay: seq<int>, source: int, i: nat)
    requires env.n > 0 && Shape(st.q, env.n) && |st.waiting| == |delay| == |env.pend| == env.n && 0 <= source < env.n
    requires i <= |st.q.heaps[source]|
    ensures var b := Best(env, st, delay, source, i);
            && (b == None ==> forall j :: 0 <= j < i ==> Candidate(env, st, delay, source, j) == None)
            && (b.Some? ==> forall j :: 0 <= j < i && Candidate(env, st, delay, source, j).Some? ==>
                  var d := Candidate(env, st, delay, source, j).value;
                  b.value.cost <= d.cost && (j < b.value.index ==> b.value.cost < d.cost))
  {
    hide Candidate;
    if i > 0 { BestAmong(env, st, delay, source, i - 1); }
  }

  /** The request chosen is the cheapest one, and none is chosen only when none has a target. */
  lemma BestCheapest(env: Env, st: State, delay: seq<int>, source: int, c: Option<Choice>)
    requires env.n > 0 && Shape(st.q, env.n) && |st.waiting| == |delay| == |env.pend| == env.n && 0 <= source < env.n
    ensures c == Best(env, st, delay, source, |st.q.heaps[source]|) <==>
              if c.Some? then IsCheapest(env, st, delay, source, c.value)
              else forall j :: 0 <= j < |st.q.heaps[source]| ==> Candidate(env, st, delay, source, j) == None
  {
    hide Candidate;
    BestAmong(env, st, delay, source, |st.q.heaps[source]|);
    var b := Best(env, st, delay, source, |st.q.heaps[source]|);
    if c.Some? && IsCheapest(env, st, delay, source, c.value) {
      assert Candidate(env, st, delay, source, c.value.index).Some?;
      assert b.Some? && Candidate(env, st, delay, source, b.value.index).Some?;
    }
    if c == None && b.Some? { assert Candidate(env, st, delay, source, b.value.index) == b; }
  }

  // ---------------------------------------------------------------- one round

  /** b is a after the request of c has moved: its first entry leaves the source, one with the
      target's hit length joins there, both stamps are written, and the loop's counters count
      what the target and the source would compute of it. */
  ghost predicate Moves(env: Env, a: State, source: int, c: Choice, b: State)
    requires 0 <= source < env.n && 0 <= c.target < env.n
    requires Shape(a.q, env.n) && Shape(b.q, env.n) && |a.waiting| == env.n && c.index < |a.q.heaps[source]|
  {
    var req := a.q.heaps[source][c.index].req;
    && b.primary == a.primary[req := c.target] && b.second == a.second[req := source]
    && b.waiting == a.waiting[c.target := a.waiting[c.target] + env.recompute(c.target, req)]
    && b.migrated == a.migrated + env.recompute(source, req)
    && multiset(b.q.heaps[c.target]) ==
         multiset(a.q.heaps[c.target]) + multiset{Item(env.recompute(c.target, req) - req.numPrefill, req.arrived, req)}
    && Leaves(a.q.heaps[source], b.q.heaps[source], req)
    && forall r :: 0 <= r < env.n && r != source && r != c.target ==> b.q.heaps[r] == a.q.heaps[r]
  }

  /** g has the entries of h but for the first one of req. */
  ghost predicate Leaves(h: Heap, g: Heap, req: Request) {
    exists i :: 0 <= i < |h| && h[i].req == req && (forall j :: 0 <= j < i ==> h[j].req != req)
                && multiset(g) == multiset(h) - multiset{h[i]}
  }

  /** What a migration does to the queues. */
  lemma MovesQueues(q: Queues, source: nat, target: nat, req: Request, hit: int)
    requires Shape(q, |q.heaps|) && source < |q.heaps| && target < |q.heaps| && source != target
    requires Has(q.heaps[source], req)
    ensures var u := Moved(q, source, target, req, hit);
            && multiset(u.heaps[target]) == multiset(q.heaps[target]) + multiset{Item(-hit, req.arrived, req)}
            && Leaves(q.heaps[source], u.heaps[source], req)
            && forall r :: 0 <= r < |q.heaps| && r != source && r != target ==> u.heaps[r] == q.heaps[r]
  {
    hide Heapify, HeapPush;
    var h := q.heaps[source];
    var i := Find(h, req);
    DelSums(h, i);
    var it := ItemFor(req, hit);
    PushSame(q.heaps[target], it);
    assert multiset(q.heaps[target] + [it]) == multiset(q.heaps[target]) + multiset{it};
    var u := Moved(q, source, target, req, hit);
    assert u.heaps[source] == Heapify(h[..i] + h[i + 1..]) && u.heaps[target] == HeapPush(q.heaps[target], it);
  }

  lemma MigrateMoves(env: Env, a: State, delay: seq<int>, source: int, c: Choice)
    requires EnvOk(env) && Shape(a.q, env.n) && |a.waiting| == |delay| == env.n && 0 <= source < env.n
    requires c.index < |a.q.heaps[source]| && Candidate(env, a, delay, source, c.index) == Some(c)
    ensures 0 <= c.target < env.n && c.target != source && Moves(env, a, source, c, Migrate(env, a, source, c))
  {
    hide Target, Wait, Cost, Moved, Leaves;
    CandidateTarget(env, a, delay, source, c);
    var req := a.q.heaps[source][c.index].req;
    assert Has(a.q.heaps[source], req);
    MovesQueues(a.q, source, c.target, req, req.numPrefill - c.targetLen);
  }

  /** One round: the cheapest candidate gains by its move, and moves. */
  ghost predicate Round(env: Env, delay: seq<int>, source: int, goal: int, a: State, c: Choice, b: State) {
    && EnvOk(env) && Shape(a.q, env.n) && Shape(b.q, env.n) && |a.waiting| == |delay| == env.n && 0 <= source < env.n
    && IsCheapest(env, a, delay, source, c) && c.cost < 0.0 && (goal > 0 ==> a.migrated < goal)
    && 0 <= c.target < env.n && Moves(env, a, source, c, b)
  }

  /** No candidate would gain by its move, or enough tokens have moved. */
  ghost predicate Ended(env: Env, delay: seq<int>, source: int, goal: int, st: State) {
    && EnvOk(env) && Shape(st.q, env.n) && |st.waiting| == |delay| == env.n && 0 <= source < env.n
    && ((goal > 0 && st.migrated >= goal) ||
        forall j :: 0 <= j < |st.q.heaps[source]| && Candidate(env, st, delay, source, j).Some? ==>
          Candidate(env, st, delay, source, j).value.cost >= 0.0)
  }

  /** The states between the rounds, and the choices made. */
  ghost predicate Rebalancing(env: Env, delay: seq<int>, source: int, goal: int, sts: seq<State>, cs: seq<Choice>) {
    && |sts| == |cs| + 1 && Ended(env, delay, source, goal, sts[|cs|])
    && forall k :: 0 <= k < |cs| ==> Round(env, delay, source, goal, sts[k], cs[k], sts[k + 1])
  }

  /** The loop goes through such rounds, as many as there are. */
  lemma {:induction false} LoopRounds(env: Env, st: State, delay: seq<int>, source: int, goal: int)
    returns (sts: seq<State>, cs: seq<Choice>)
    requires EnvOk(env) && Shape(st.q, env.n) && |st.waiting| == |delay| == env.n && 0 <= source < env.n
    ensures Rebalancing(env, delay, source, goal, sts, cs)
    ensures sts[0] == st && sts[|cs|] == Loop(env, st, delay, source, goal)
    decreases |st.q.heaps[source]|
  {
    hide Migrate, Candidate, Moves, IsCheapest;
    var m := Best(env, st, delay, source, |st.q.heaps[source]|);
    BestCheapest(env, st, delay, source, m);
    if m.Some? && m.value.cost < 0.0 && !(goal > 0 && st.migrated >= goal) {
      var c := m.value;
      MigrateMoves(env, st, delay, source, c);
      MigrateShrinks(env, st, source, c);
      var u := Migrate(env, st, source, c);
      var rest, ds := LoopRounds(env, u, delay, source, goal);
      sts, cs := [st] + rest, [c] + ds;
      assert Round(env, delay, source, goal, st, c, u);
      forall k | 0 <= k < |cs| ensures Round(env, delay, source, goal, sts[k], cs[k], sts[k + 1]) {
        if k > 0 { assert sts[k] == rest[k - 1] && cs[k] == ds[k - 1] && sts[k + 1] == rest[k]; }
      }
    } else {
      sts, cs := [st], [];
      NoneGains(env, st, delay, source, goal);
    }
  }

  lemma NoneGains(env: Env, st: State, delay: seq<int>, source: int, goal: int)
    requires EnvOk(env) && Shape(st.q, env.n) && |st.waiting| == |delay| == env.n && 0 <= source < env.n
    requires var m := Best(env, st, delay, source, |st.q.heaps[source]|);
             !(m.Some? && m.value.cost < 0.0 && !(goal > 0 && st.migrated >= goal))
    ensures Ended(env, delay, source, goal, st)
  {
    hide Candidate;
    BestCheapest(env, st, delay, source, Best(env, st, delay, source, |st.q.heaps[source]|));
  }

  // ---------------------------------------------------------------- a whole rebalance

  /** Every entry of r has waited at most delay[r], and one has, or there is none. */
  ghost predicate AreDelays(q: Queues, now: int, delay: seq<int>) {
    && |delay| == |q.heaps|
    && forall r :: 0 <= r < |q.heaps| ==> IsOldest(q.heaps[r], now, delay[r])
  }

  lemma DelaysAre(q: Queues, now: int)
    ensures AreDelays(q, now, Delays(q, now))
  {
    hide MaxDelay, IsOldest;
    forall r | 0 <= r < |q.heaps| ensures IsOldest(q.heaps[r], now, Delays(q, now)[r]) { DelayIs(q.heaps[r], now); }
  }

  /** A rebalance leaves a queue of at most one alone. Else it starts from a snapshot of the
      waiting tokens and of the delays, and every migration it makes takes the request that is
      cheapest then. */
  lemma RebalancedRounds(env: Env, st: State, source: int, goal: int)
    returns (delay: seq<int>, sts: seq<State>, cs: seq<Choice>)
    requires EnvOk(env) && Shape(st.q, env.n) && |st.waiting| == env.n && 0 <= source < env.n
    ensures |st.q.heaps[source]| <= 1 ==> Rebalanced(env, st, source, goal) == st
    ensures |st.q.heaps[source]| > 1 ==>
              && AreDelays(st.q, env.now, delay) && Rebalancing(env, delay, source, goal, sts, cs)
              && sts[0] == State(st.q, st.primary, st.second, st.q.actual, 0)
              && sts[|cs|] == Rebalanced(env, st, source, goal)
  {
    hide Rebalancing, Loop, AreDelays;
    delay := Delays(st.q, env.now);
    DelaysAre(st.q, env.now);
    sts, cs := LoopRounds(env, st.(waiting := st.q.actual, migrated := 0), delay, source, goal);
  }
}
