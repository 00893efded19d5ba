/** When work is stranded: waiting requests and no task in flight whose completion would rerun
    the pass. Exact for every world a run can reach, silent completions included. */
module Strands {
  import opened Common
  import opened Requests
  import opened RequestQueue
  import opened Rebalance
  import opened Replicas
  import opened Dispatch
  import opened Runs

  /** The pass takes nothing from a queue of replica r, whatever waits there. */
  predicate Clogged(cfg: Config, o: Oracle, rep: Rep, r: nat) {
    rep.budget <= 0 || |rep.pending| >= cfg.cap || (rep.pending != [] && !o.recent(r))
  }

  ghost predicate Waits(q: Queues) { exists r :: 0 <= r < |q.heaps| && q.heaps[r] != [] }

  /** The queues from which a pass pops. */
  function BeforePops(cfg: Config, o: Oracle, w: World): (q: Queues)
    requires ConfigOk(cfg) && Sized(cfg, w)
    ensures Shape(q, cfg.n)
  {
    Settled(cfg, o, w).q
  }

  lemma TakesNone(q: Queues, n: nat, r: nat, budget: int, max: int)
    requires WellFormed(q, n) && r < n && q.heaps[r] != []
    ensures var (taken, u) := PopSchedulable(q, r, budget, Some(max));
            (taken == [] <==> max <= 0) && (max <= 0 ==> u == q)
  {
  }

  /** The pops of a pass, from replica r on, take nothing exactly when every replica with
      waiting requests is clogged. */
  lemma {:induction false} PopsNothing(cfg: Config, o: Oracle, reps: seq<Rep>, q: Queues, r: nat)
    requires WellFormed(q, cfg.n) && |reps| == cfg.n && r <= cfg.n
    ensures PopFrom(cfg, o, reps, q, r).0 == [] <==>
            forall s :: r <= s < cfg.n && q.heaps[s] != [] ==> Clogged(cfg, o, reps[s], s)
    ensures PopFrom(cfg, o, reps, q, r).0 == [] ==> PopFrom(cfg, o, reps, q, r).1 == q
    decreases cfg.n - r
  {
    hide PopSchedulable, WellFormed;
    if r < cfg.n {
      WellFormedShape(q, cfg.n);
      PopsNothing(cfg, o, reps, q, r + 1);
      if Served(cfg, o, reps, q, r) {
        TakesNone(q, cfg.n, r, reps[r].budget, cfg.cap - |reps[r].pending|);
        var (taken, q1) := PopSchedulable(q, r, reps[r].budget, Some(cfg.cap - |reps[r].pending|));
        assert PopFrom(cfg, o, reps, q, r) ==
               (taken + PopFrom(cfg, o, reps, q1, r + 1).0, PopFrom(cfg, o, reps, q1, r + 1).1);
      }
    }
  }

  lemma WaitsTotal(q: Queues)
    ensures Waits(q) <==> exists x :: Total(q.heaps, x) > 0
  {
    if Waits(q) {
      var r :| 0 <= r < |q.heaps| && q.heaps[r] != [];
      var x := q.heaps[r][0].req;
      TotalAtLeast(q.heaps, r, x);
      assert Total(q.heaps, x) > 0;
    }
    if exists x :: Total(q.heaps, x) > 0 {
      var x :| Total(q.heaps, x) > 0;
      if !Waits(q) { NoneQueued(q.heaps, x); }
    }
  }

  /** A pass, before posting. */
  lemma PassStrands(cfg: Config, o: Oracle, w: World)
    requires ConfigOk(cfg) && Sized(cfg, w) && QueuesOk(cfg.n, w.q, w.primary)
    ensures var (taken, u) := Pass(cfg, o, w);
            && (taken == [] <==> forall r :: 0 <= r < cfg.n && BeforePops(cfg, o, w).heaps[r] != [] ==>
                Clogged(cfg, o, w.reps[r], r))
            && (taken == [] ==> u.q == BeforePops(cfg, o, w))
    ensures Waits(BeforePops(cfg, o, w)) <==> Waits(w.q)
  {
    hide RebalanceFrom, PopFrom, WellFormed;
    var env := EnvOf(cfg, o, w.reps);
    EnvOkOf(cfg, o, w.reps);
    var st0 := State(w.q, w.primary, w.second, w.q.actual, 0);
    RebalanceFromOk(env, st0, 0);
    var q := BeforePops(cfg, o, w);
    PopsNothing(cfg, o, w.reps, q, 0);
    SameWaits(q, w.q);
  }

  lemma SameWaits(p: Queues, q: Queues)
    requires SameRequests(p.heaps, q.heaps)
    ensures Waits(p) <==> Waits(q)
  {
    assert SameRequests(q.heaps, p.heaps);
    if Waits(p) { WaitsToo(p, q); }
    if Waits(q) { WaitsToo(q, p); }
  }

  lemma WaitsToo(p: Queues, q: Queues)
    requires SameRequests(p.heaps, q.heaps) && Waits(p)
    ensures Waits(q)
  {
    var r :| 0 <= r < |p.heaps| && p.heaps[r] != [];
    var x := p.heaps[r][0].req;
    TotalAtLeast(p.heaps, r, x);
    assert Total(q.heaps, x) > 0;
    if !Waits(q) { NoneQueued(q.heaps, x); }
  }

  /** The world in which the pass of a schedule call starts. */
  function AtPass(cfg: Config, o: Oracle, w: World, arrival: Option<Request>): (v: World)
    requires ConfigOk(cfg) && Sized(cfg, w)
    ensures Sized(cfg, v)
  {
    if arrival.Some? then AddRequest(cfg, o, w, arrival.value) else w
  }

  /** Exactly when a schedule call with no task in flight leaves work stranded: something waits
      or has just arrived, and every replica with a queue after the rebalances is clogged. */
  lemma ScheduleStrands(cfg: Config, o: Oracle, w: World, arrival: Option<Request>)
    requires ConfigOk(cfg) && Sized(cfg, w) && QueuesOk(cfg.n, w.q, w.primary) && w.tasks == map[]
    ensures var q := BeforePops(cfg, o, AtPass(cfg, o, w, arrival));
            !NotStranded(Schedule(cfg, o, w, arrival)) <==>
              && (arrival.Some? || Waits(w.q))
              && forall r :: 0 <= r < cfg.n && q.heaps[r] != [] ==> Clogged(cfg, o, w.reps[r], r)
  {
    hide AddRequest, Pass, PostAll, BeforePops;
    var v := AtPass(cfg, o, w, arrival);
    if arrival.Some? { AddRequestOk(cfg, o, w, arrival.value); }
    assert Waits(v.q) <==> arrival.Some? || Waits(w.q) by {
      WaitsTotal(v.q);
      WaitsTotal(w.q);
      if arrival.Some? { assert Total(v.q.heaps, arrival.value) > 0; }
    }
    PassOk(cfg, o, v);
    PassStrands(cfg, o, v);
    var (taken, u) := Pass(cfg, o, v);
    forall x | Count(taken, x) > 0 ensures InRange(u.primary, x, cfg.n) {
      assert Total(u.q.heaps, x) + Count(taken, x) == Total(v.q.heaps, x);
    }
    PostOk(cfg, o, u, taken);
    if taken != [] {
      assert Has(taken, taken[0].req);
      CountHas(taken, taken[0].req);
      assert taken[0].req in PostAll(cfg, o, u, taken).tasks;
    } else {
      assert PostAll(cfg, o, u, taken).tasks.Keys == {};
    }
  }

  /** All replicas clogged: whatever waits is stranded. None clogged: nothing is. */
  lemma StrandsByReplicas(cfg: Config, o: Oracle, w: World, arrival: Option<Request>)
    requires ConfigOk(cfg) && Sized(cfg, w) && QueuesOk(cfg.n, w.q, w.primary) && w.tasks == map[]
    ensures (forall r :: 0 <= r < cfg.n ==> Clogged(cfg, o, w.reps[r], r)) ==>
              (!NotStranded(Schedule(cfg, o, w, arrival)) <==> arrival.Some? || Waits(w.q))
    ensures (forall r :: 0 <= r < cfg.n ==> !Clogged(cfg, o, w.reps[r], r)) ==>
            NotStranded(Schedule(cfg, o, w, arrival))
    ensures cfg.n == 1 ==>
              (!NotStranded(Schedule(cfg, o, w, arrival)) <==>
                  (arrival.Some? || Waits(w.q)) && Clogged(cfg, o, w.reps[0], 0))
  {
    hide Schedule, BeforePops, AddRequest, NotStranded, Clogged;
    ScheduleStrands(cfg, o, w, arrival);
    var v := AtPass(cfg, o, w, arrival);
    if arrival.Some? {
      AddRequestOk(cfg, o, w, arrival.value);
      WaitsTotal(v.q);
      assert Total(v.q.heaps, arrival.value) > 0;
    }
    PassStrands(cfg, o, v);
  }

  // ---------------------------------------------------------------- any run

  /** The last callback of a run: exactly when it leaves work stranded. */
  lemma RunStrands(cfg: Config, ws: seq<World>, es: seq<(Event, Oracle)>, i: nat, req: Request)
    requires IsRun(cfg, ws, es) && i < |es| && es[i].0 == Callback(req) && ws[i].tasks.Keys == {req}
    ensures Sized(cfg, ws[i])
    ensures var v := ws[i].(tasks := map[], finished := ws[i].finished + {req});
            && Shape(BeforePops(cfg, es[i].1, v), cfg.n)
            && (!NotStranded(ws[i + 1]) <==>
                  Waits(v.q) && forall r :: 0 <= r < cfg.n && BeforePops(cfg, es[i].1, v).heaps[r] != [] ==>
                      Clogged(cfg, es[i].1, v.reps[r], r))
  {
    hide Schedule, QueuesOk, RepOk, BeforePops, NotStranded, Clogged;
    RunCore(cfg, ws, es, i);
    assert ws[i].tasks - {req} == map[];
    ScheduleStrands(cfg, es[i].1, ws[i].(tasks := map[], finished := ws[i].finished + {req}), None);
  }

  /** No pending slot or no budget, whatever the clock says. */
  predicate Stuck(cfg: Config, rep: Rep) { rep.budget <= 0 || |rep.pending| >= cfg.cap }

  /** With nothing in flight and every replica stuck, the system is dead: only arrivals are
      possible from then on, and not one of them is ever dispatched. */
  lemma {:induction false} DeadForever(cfg: Config, ws: seq<World>, es: seq<(Event, Oracle)>, i: nat, j: nat)
    requires IsRun(cfg, ws, es) && i <= j < |ws| && ws[i].tasks == map[] && Sized(cfg, ws[i])
    requires forall r :: 0 <= r < cfg.n ==> Stuck(cfg, ws[i].reps[r])
    ensures Sized(cfg, ws[j]) && ws[j].tasks == map[] && ws[j].reps == ws[i].reps && ws[j].finished == ws[i].finished
    ensures forall k :: i <= k < j ==> es[k].0.Arrive?
    ensures i < j ==> !NotStranded(ws[j])
    decreases j
  {
    hide Step, Start, QueuesOk, RepOk, NotStranded;
    if i < j {
      DeadForever(cfg, ws, es, i, j - 1);
      RunCore(cfg, ws, es, j - 1);
      DeadStep(cfg, es[j - 1].1, ws[j - 1], es[j - 1].0);
    }
  }

  lemma DeadStep(cfg: Config, o: Oracle, w: World, e: Event)
    requires ConfigOk(cfg) && Sized(cfg, w) && Enabled(w, e) && QueuesOk(cfg.n, w.q, w.primary) && w.tasks == map[]
    requires forall r :: 0 <= r < cfg.n ==> Stuck(cfg, w.reps[r])
    ensures e.Arrive?
    ensures var u := Step(cfg, o, w, e);
            !NotStranded(u) && u.tasks == map[] && u.reps == w.reps && u.finished == w.finished
  {
    hide Schedule, QueuesOk;
    assert e.Arrive?;
    StrandsByReplicas(cfg, o, w, Some(e.req));
    var moved := ScheduleOk(cfg, o, w, Some(e.req));
    var u := Step(cfg, o, w, e);
    assert u.tasks.Keys == {};
    assert u.tasks == map[];
  }
}
