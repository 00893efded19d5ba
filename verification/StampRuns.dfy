/** Stamps over whole runs: as long as no newcomer moves on, every waiting request is stamped
    with the replica in whose queue it waits, and it is posted there. */
module StampRuns {
  import opened Common
  import opened Requests
  import opened Heapq
  import opened RequestQueue
  import opened Rebalance
  import opened RebalanceGains
  import opened Replicas
  import opened Dispatch
  import opened Runs
  import opened Strands
  import opened Stamps
  import opened CleanRuns

  // ---------------------------------------------------------------- the pass

  lemma {:induction false} RebalanceFromStamps(env: Env, st: State, r: nat)
    requires StateOk(env, st) && Prefills(env) && r <= env.n && Clean(st.q) && Stamped(st.q, st.primary)
    ensures var u := RebalanceFrom(env, st, r); Clean(u.q) && Stamped(u.q, u.primary)
    decreases env.n - r
  {
    hide Rebalanced, Clean, Stamped, MaxDelay, WellFormed;
    assert Shape(st.q, env.n) by { WellFormedShape(st.q, env.n); }
    if r < env.n {
      var tokens := st.q.actual[r] + env.pend[r];
      if tokens > env.threshold || MaxDelay(st.q.heaps[r], env.now) >= env.latency {
        var u := Rebalanced(env, st, r, tokens - env.threshold);
        RebalanceSafe(env, st, r, tokens - env.threshold);
        RebalanceStamps(env, st, r, tokens - env.threshold);
        RebalanceFromStamps(env, u, r + 1);
      } else {
        RebalanceFromStamps(env, st, r + 1);
      }
    }
  }

  lemma {:induction false} PoppedManyFewer(q: Queues, r: nat, k: nat, s: nat, x: Request)
    requires r < |q.heaps| && s < |q.heaps| && Shape(q, |q.heaps|) && k <= |q.heaps[r]|
    ensures Count(PoppedMany(q, r, k).heaps[s], x) <= Count(q.heaps[s], x)
  {
    hide HeapPop;
    if k > 0 {
      PoppedManyFewer(q, r, k - 1, s, x);
      PoppedCount(PoppedMany(q, r, k - 1), r, x);
    }
  }

  lemma {:induction false} PopFromFewer(cfg: Config, o: Oracle, reps: seq<Rep>, q: Queues, r: nat, s: nat, x: Request)
    requires Shape(q, cfg.n) && |reps| == cfg.n && r <= cfg.n && s < cfg.n
    ensures Count(PopFrom(cfg, o, reps, q, r).1.heaps[s], x) <= Count(q.heaps[s], x)
    decreases cfg.n - r
  {
    hide Drain, PoppedMany, TakeCount, Count;
    if r < cfg.n {
      if Served(cfg, o, reps, q, r) {
        var max := Some(cfg.cap - |reps[r].pending|);
        PoppedManyFewer(q, r, TakeCount(Drain(q.heaps[r]), reps[r].budget, max, 0), s, x);
        PopFromFewer(cfg, o, reps, PopSchedulable(q, r, reps[r].budget, max).1, r + 1, s, x);
      } else {
        PopFromFewer(cfg, o, reps, q, r + 1, s, x);
      }
    }
  }

  /** x is posted to the replica in whose queue of q it is. */
  ghost predicate PostedHome(q: Queues, u: World, x: Request) {
    exists r :: 0 <= r < |q.heaps| && Count(q.heaps[r], x) > 0 && At(u, x, Posted, r)
  }

  /** A pass from right stamps leaves right stamps, and whatever it dispatches is posted to the
      replica in whose queue it waited. */
  lemma PassStamps(cfg: Config, o: Oracle, w: World)
    requires ConfigOk(cfg) && OracleOk(o) && Sized(cfg, w) && QueuesOk(cfg.n, w.q, w.primary)
    requires Clean(w.q) && Stamped(w.q, w.primary)
    ensures var (taken, v) := Pass(cfg, o, w);
            var u, st := PostAll(cfg, o, v, taken), Settled(cfg, o, w);
            && Stamped(u.q, u.primary) && Stamped(st.q, st.primary)
            && forall x :: x in u.tasks && x !in w.tasks ==> PostedHome(st.q, u, x)
  {
    hide RebalanceFrom, PopFrom, PostAll, WellFormed, Posts, Clean, Count, Total;
    var env := EnvOf(cfg, o, w.reps);
    EnvOkOf(cfg, o, w.reps);
    PrefillsOf(cfg, o, w.reps);
    var st0 := State(w.q, w.primary, w.second, w.q.actual, 0);
    RebalanceFromStamps(env, st0, 0);
    RebalanceFromOk(env, st0, 0);
    var st := Settled(cfg, o, w);
    assert st == RebalanceFrom(env, st0, 0);
    PassOk(cfg, o, w);
    var (taken, v) := Pass(cfg, o, w);
    PopFromOk(cfg, o, w.reps, st.q, 0);
    forall i | 0 <= i < |taken| ensures InRange(v.primary, taken[i].req, cfg.n) {
      assert Has(taken, taken[i].req);
      CountHas(taken, taken[i].req);
      assert Total(v.q.heaps, taken[i].req) + Count(taken, taken[i].req) == Total(w.q.heaps, taken[i].req);
    }
    PostAllOk(cfg, o, v, taken);
    var u := PostAll(cfg, o, v, taken);
    assert u.q == v.q && u.primary == v.primary == st.primary && u.tasks == Posts(v.tasks, v.primary, taken);
    forall r, x | 0 <= r < |u.q.heaps| && Count(u.q.heaps[r], x) > 0 ensures x in u.primary && u.primary[x] == r {
      PopFromFewer(cfg, o, w.reps, st.q, 0, r, x);
    }
    forall x | x in u.tasks && x !in w.tasks ensures PostedHome(st.q, u, x) {
      PostsAt(v.tasks, v.primary, taken, x);
      assert Total(v.q.heaps, x) + Count(taken, x) == Total(w.q.heaps, x) == Total(st.q.heaps, x);
      var r := SomeQueue(st.q.heaps, x);
      assert At(u, x, Posted, r);
    }
  }

  // ---------------------------------------------------------------- a schedule call

  /** Right stamps stay right through a schedule call whose newcomer does not move on, and
      every request it dispatches is posted where it waited. */
  lemma ScheduleStamps(cfg: Config, o: Oracle, w: World, arrival: Option<Request>)
    requires ConfigOk(cfg) && OracleOk(o) && Sized(cfg, w) && QueuesOk(cfg.n, w.q, w.primary)
    requires Clean(w.q) && Stamped(w.q, w.primary)
    requires arrival.Some? ==> Joins(w.q, arrival.value) && !MovesOn(cfg, o, w, arrival.value)
    ensures var u, st := Schedule(cfg, o, w, arrival), Settled(cfg, o, AtPass(cfg, o, w, arrival));
            && Stamped(u.q, u.primary) && Stamped(st.q, st.primary)
            && forall x :: x in u.tasks && x !in w.tasks ==> PostedHome(st.q, u, x)
  {
    hide AddRequest, Pass, PostAll, Settled, WellFormed, Clean, Stamped, Joins, MovesOn;
    var v := AtPass(cfg, o, w, arrival);
    if arrival.Some? {
      StampExact(cfg, o, w, arrival.value);
      AddRequestOk(cfg, o, w, arrival.value);
      AddedClean(cfg, o, w, arrival.value);
    }
    PassStamps(cfg, o, v);
  }

  lemma AddedClean(cfg: Config, o: Oracle, w: World, req: Request)
    requires ConfigOk(cfg) && OracleOk(o) && Sized(cfg, w) && WellFormed(w.q, cfg.n)
    requires Clean(w.q) && Stamped(w.q, w.primary) && Joins(w.q, req)
    ensures Clean(AddRequest(cfg, o, w, req).q)
  {
    hide Placed, Select, Clean, Stamped, WellFormed, Joins;
    var st := PlacedStamped(cfg, o, w, req);
  }

  // ---------------------------------------------------------------- runs

  /** None of the first i events is an arrival that moves on. */
  ghost predicate Settling(cfg: Config, ws: seq<World>, es: seq<(Event, Oracle)>, i: nat)
    requires IsRun(cfg, ws, es) && i <= |es|
  {
    forall k :: 0 <= k < i && es[k].0.Arrive? ==> !MovesOn(cfg, es[k].1, ws[k], es[k].0.req)
  }

  /** In a run in which no arrival moves on, the stamps are right in every world. */
  lemma {:induction false} RunStamped(cfg: Config, ws: seq<World>, es: seq<(Event, Oracle)>, i: nat)
    requires IsRun(cfg, ws, es) && Orderly(es) && i < |ws| && Settling(cfg, ws, es, i)
    ensures Stamped(ws[i].q, ws[i].primary)
  {
    hide Step, Start, Clean, Stamped, RepOk, MovesOn, Joins, Orderly;
    if i == 0 {
      NoneStamped(cfg);
    } else {
      RunStamped(cfg, ws, es, i - 1);
      RunCore(cfg, ws, es, i - 1);
      RunClean(cfg, ws, es, i - 1);
      assert OracleOk(es[i - 1].1) by { OrderlyOracle(es, i - 1); }
      if es[i - 1].0.Arrive? { RunJoins(cfg, ws, es, i - 1); }
      StepStamps(cfg, es[i - 1].1, ws[i - 1], es[i - 1].0);
    }
  }

  /** The world in which the schedule call of a step begins. */
  function Calling(w: World, e: Event): World {
    if e.Callback? then w.(tasks := w.tasks - {e.req}, finished := w.finished + {e.req}) else w
  }

  /** And every request a step dispatches is posted to the replica in whose queue it waited
      when the pass popped it. */
  lemma RunPosted(cfg: Config, ws: seq<World>, es: seq<(Event, Oracle)>, i: nat, x: Request)
    requires IsRun(cfg, ws, es) && Orderly(es) && i < |es| && Settling(cfg, ws, es, i + 1)
    requires x in ws[i + 1].tasks && x !in ws[i].tasks
    ensures Sized(cfg, ws[i])
    ensures PostedHome(Settled(cfg, es[i].1, AtPass(cfg, es[i].1, Calling(ws[i], es[i].0), Newcomer(es[i].0))).q,
            ws[i + 1], x)
  {
    hide Start, Clean, Stamped, RepOk, MovesOn, Joins, Orderly, Schedule, Settled, AtPass, Added, Prefilled, Decoded,
        Aborted, PostedHome;
    RunStamped(cfg, ws, es, i);
    RunCore(cfg, ws, es, i);
    RunClean(cfg, ws, es, i);
    var o, w, e := es[i].1, ws[i], es[i].0;
    assert OracleOk(o) by { OrderlyOracle(es, i); }
    if e.Arrive? { RunJoins(cfg, ws, es, i); }
    assert ws[i + 1] == Step(cfg, o, w, e);
    ScheduleStamps(cfg, o, Calling(w, e), Newcomer(e));
  }

  lemma OrderlyOracle(es: seq<(Event, Oracle)>, i: nat)
    requires Orderly(es) && i < |es|
    ensures OracleOk(es[i].1)
  {
  }

  lemma NoneStamped(cfg: Config)
    ensures Stamped(Start(cfg).q, Start(cfg).primary)
  {
  }

  lemma StepStamps(cfg: Config, o: Oracle, w: World, e: Event)
    requires ConfigOk(cfg) && OracleOk(o) && Sized(cfg, w) && Enabled(w, e) && QueuesOk(cfg.n, w.q, w.primary)
    requires Clean(w.q) && Stamped(w.q, w.primary)
    requires e.Arrive? ==> Joins(w.q, e.req) && !MovesOn(cfg, o, w, e.req)
    ensures var u := Step(cfg, o, w, e); Stamped(u.q, u.primary)
  {
    hide Schedule, Clean, Stamped, WellFormed, Joins, MovesOn, Added, Prefilled, Decoded, Aborted;
    if e.Arrive? {
      ScheduleStamps(cfg, o, w, Some(e.req));
    } else if e.Callback? {
      ScheduleStamps(cfg, o, Calling(w, e), None);
    }
  }
}
