/** What becomes of the requests once arrivals stop. */
module Completion {
  import opened Common
  import opened Requests
  import opened Rebalance
  import opened Replicas
  import opened Dispatch
  import opened Runs
  import opened Strands

  /** How many steps of its life a request has still to take. */
  function Rank(w: World, x: Request): nat {
    if x in w.finished then 0
    else if x !in w.tasks then 5
    else match w.tasks[x].phase
      case Posted => 4
      case Pending => 3
      case Running => 2
      case Done => 1
  }

  /** The same for all requests that arrive among the first k events. */
  function Work(w: World, es: seq<(Event, Oracle)>, k: nat): nat
    requires k <= |es|
  {
    if k == 0 then 0 else Work(w, es, k - 1) + if es[k - 1].0.Arrive? then Rank(w, es[k - 1].0.req) else 0
  }

  /** A step that is no arrival takes its request on and puts none back. */
  lemma RankStep(cfg: Config, o: Oracle, w: World, e: Event)
    requires Core(cfg, w) && Enabled(w, e) && !e.Arrive?
    ensures var u := Step(cfg, o, w, e);
            (forall x :: Rank(u, x) <= Rank(w, x)) && Rank(u, e.req) < Rank(w, e.req)
  {
    hide Schedule, QueuesOk, RepOk, Added, Prefilled, Decoded, Aborted;
    assert Places(w, e.req) <= 1;
    if e.Callback? {
      var v := w.(tasks := w.tasks - {e.req}, finished := w.finished + {e.req});
      var moved := ScheduleOk(cfg, o, v, None);
      var u := Step(cfg, o, w, e);
      forall x ensures Rank(u, x) <= Rank(w, x) {
        assert Places(w, x) <= 1;
        assert Total(u.q.heaps, x) + Count(moved, x) == Total(v.q.heaps, x);
      }
    }
  }

  lemma {:induction false} WorkLess(w: World, u: World, es: seq<(Event, Oracle)>, k: nat)
    requires k <= |es| && forall x :: Rank(u, x) <= Rank(w, x)
    ensures Work(u, es, k) <= Work(w, es, k)
    ensures forall m :: 0 <= m < k && es[m].0.Arrive? && Rank(u, es[m].0.req) < Rank(w, es[m].0.req) ==>
              Work(u, es, k) < Work(w, es, k)
  {
    hide Rank;
    if k > 0 { WorkLess(w, u, es, k - 1); }
  }

  lemma {:induction false} ArrivedAt(es: seq<(Event, Oracle)>, k: nat, x: Request) returns (m: nat)
    requires k <= |es| && Arrived(es, k, x) > 0
    ensures m < k && es[m].0 == Arrive(x)
  {
    if es[k - 1].0 == Arrive(x) { m := k - 1; } else { m := ArrivedAt(es, k - 1, x); }
  }

  ghost predicate NoArrivals(es: seq<(Event, Oracle)>, i: nat, j: nat)
    requires i <= j <= |es|
  {
    forall k :: i <= k < j ==> !es[k].0.Arrive?
  }

  /** Without arrivals every step uses up work: there are never more steps than the work that
      was left. */
  lemma {:induction false} WorkRunsOut(cfg: Config, ws: seq<World>, es: seq<(Event, Oracle)>, i: nat, j: nat)
    requires IsRun(cfg, ws, es) && i <= j < |ws| && NoArrivals(es, i, j)
    ensures Work(ws[j], es, i) + (j - i) <= Work(ws[i], es, i)
    decreases j
  {
    hide Step, Start, Core, Rank, Work, Enabled;
    if i < j {
      WorkRunsOut(cfg, ws, es, i, j - 1);
      RunCore(cfg, ws, es, j - 1);
      var w, e := ws[j - 1], es[j - 1].0;
      RankStep(cfg, es[j - 1].1, w, e);
      var m := InFlight(cfg, ws, es, i, j - 1);
      WorkLess(w, ws[j], es, i);
    }
  }

  /** The request of a step that is no arrival has arrived before. */
  lemma InFlight(cfg: Config, ws: seq<World>, es: seq<(Event, Oracle)>, i: nat, j: nat) returns (m: nat)
    requires IsRun(cfg, ws, es) && i <= j < |es| && NoArrivals(es, i, j + 1)
    ensures m < i && es[m].0 == Arrive(es[j].0.req)
  {
    hide Step, Start;
    var x := es[j].0.req;
    assert Enabled(ws[j], es[j].0) && x in ws[j].tasks;
    Conserved(cfg, ws, es, j, x);
    SameArrived(es, i, j, x);
    m := ArrivedAt(es, i, x);
  }

  lemma {:induction false} SameArrived(es: seq<(Event, Oracle)>, i: nat, j: nat, x: Request)
    requires i <= j <= |es| && NoArrivals(es, i, j)
    ensures Arrived(es, j, x) == Arrived(es, i, x)
    decreases j
  {
    if i < j { SameArrived(es, i, j - 1, x); }
  }

  ghost predicate Quiet(w: World) { forall e :: Enabled(w, e) ==> e.Arrive? }

  /** When nothing but an arrival can happen, nothing is in flight. */
  lemma Quiescent(cfg: Config, ws: seq<World>, es: seq<(Event, Oracle)>, i: nat)
    requires IsRun(cfg, ws, es) && i < |ws| && Quiet(ws[i])
    ensures ws[i].tasks == map[]
  {
    hide Step, Start, IsRun, QueuesOk, RepOk;
    RunCore(cfg, ws, es, i);
    var w := ws[i];
    forall x ensures x !in w.tasks {
      if x in w.tasks {
        assert Sized(cfg, w) && 0 <= w.tasks[x].replica < cfg.n;
        NextStep(w, x);
      }
    }
    assert w.tasks.Keys == {};
  }

  /** A task in flight can always take a step. */
  lemma NextStep(w: World, x: Request)
    requires x in w.tasks && 0 <= w.tasks[x].replica < |w.reps|
    ensures exists e :: Enabled(w, e) && !e.Arrive?
  {
    match w.tasks[x].phase
    case Posted => assert Enabled(w, Accepted(x));
    case Pending => assert Enabled(w, FirstToken(x));
    case Running => assert Enabled(w, Finish(x));
    case Done => assert Enabled(w, Callback(x));
  }

  /** Once arrivals stop, any run comes to an end after at most five steps per request. At the
      end every request that has arrived is finished or waits, and a waiting one is stranded. */
  lemma AllEnd(cfg: Config, ws: seq<World>, es: seq<(Event, Oracle)>, i: nat, x: Request)
    requires IsRun(cfg, ws, es) && i <= |es| && NoArrivals(es, i, |es|)
    ensures |es| - i <= 5 * i
    ensures var w := ws[|es|];
            Quiet(w) && Arrived(es, |es|, x) > 0 ==> x !in w.tasks && (x in w.finished <==> Total(w.q.heaps, x) == 0)
    ensures var w := ws[|es|]; Quiet(w) ==> (NotStranded(w) <==> !Waits(w.q))
  {
    hide Step, Start, Enabled, NotStranded;
    WorkRunsOut(cfg, ws, es, i, |es|);
    WorkBound(ws[i], es, i);
    var w := ws[|es|];
    if Quiet(w) {
      Quiescent(cfg, ws, es, |es|);
      Conserved(cfg, ws, es, |es|, x);
      StrandedIs(w);
    }
  }

  lemma StrandedIs(w: World)
    requires w.tasks == map[]
    ensures NotStranded(w) <==> !Waits(w.q)
  {
  }

  /** Without silent completions they have all finished. */
  lemma AllFinish(cfg: Config, ws: seq<World>, es: seq<(Event, Oracle)>, i: nat, x: Request)
    requires IsRun(cfg, ws, es) && Loud(es) && cfg.slo > 0 && cfg.cap > 0 && i <= |es| && NoArrivals(es, i, |es|)
    ensures |es| - i <= 5 * i
    ensures Quiet(ws[|es|]) && Arrived(es, |es|, x) > 0 ==> x in ws[|es|].finished
  {
    hide Step, Start, Quiet, NotStranded, Core;
    AllEnd(cfg, ws, es, i, x);
    RunSafe(cfg, ws, es, |es|);
    WaitsTotal(ws[|es|].q);
  }

  lemma {:induction false} WorkBound(w: World, es: seq<(Event, Oracle)>, k: nat)
    requires k <= |es|
    ensures Work(w, es, k) <= 5 * k
  {
    if k > 0 { WorkBound(w, es, k - 1); }
  }
}
