/** A run whose last arrival leaves a stale stamp: a request waits at one replica and is stamped
    with another. */
module StaleStamp {
  import opened Common
  import opened Requests
  import opened Heapq
  import opened RequestQueue
  import opened Rebalance
  import opened RebalanceGains
  import opened Replicas
  import opened Dispatch
  import opened Runs
  import opened Arrivals
  import opened Stamps
  import opened StampBounds
  import opened CleanRuns

  /** Three replicas. Session 0 is hashed to replicas 0 and 1, session 1 to 1 and 0, and with
      all else equal the coin picks the first of the two. */
  function Three(): Config {
    Config(3, (s: int) => if s == 1 then 1 else 0, (s: int) => if s == 1 then 0 else 1,
           10, 1, 1, 100, 1000, true, 0.001)
  }

  /** Nothing is cached and no prefill has completed recently. */
  function Calm(now: int): Oracle {
    Oracle(now, (r: int, x: Request) => |x.inputIds|, (r: int) => false, (r: int) => 0)
  }

  function A(): Request { Request(0, [1, 2], 2, 0, 0) }

  function B(): Request { Request(1, [3, 4], 2, 1, 1) }

  function Old(): Request { Request(2, [7], 1, 2, 0) }

  function New(): Request { Request(3, [8], 1, 3, 0) }

  function Entry(x: Request): Item { Item(0, x.arrived, x) }

  function NoneWait(): Queues { Queues([[], [], []], [0, 0, 0], [0, 0, 0]) }

  function OldWaits(): Queues { Queues([[Entry(Old())], [], []], [1, 0, 0], [1, 0, 0]) }

  function BothWait(): Queues { Queues([[Entry(Old()), Entry(New())], [], []], [2, 0, 0], [2, 0, 0]) }

  /** A goes to replica 0 and is accepted, B goes to replica 1 and is accepted, Old waits. */
  function World0(): World {
    World(NoneWait(), map[], map[], [Rep(10, [], []), Rep(10, [], []), Rep(10, [], [])], map[], map[], {})
  }

  function World1(): World {
    World0().(primary := map[A() := 0], second := map[A() := 1], tasks := map[A() := Task(Posted, 0)])
  }

  function World2(): World {
    World1().(reps := [Rep(8, [A()], []), Rep(10, [], []), Rep(10, [], [])], ledger := map[A() := 2],
        tasks := map[A() := Task(Pending, 0)])
  }

  function World3(): World {
    World2().(primary := map[A() := 0, B() := 1], second := map[A() := 1, B() := 0],
              tasks := map[A() := Task(Pending, 0), B() := Task(Posted, 1)])
  }

  function World4(): World {
    World3().(reps := [Rep(8, [A()], []), Rep(8, [B()], []), Rep(10, [], [])], ledger := map[A() := 2, B() := 2],
              tasks := map[A() := Task(Pending, 0), B() := Task(Pending, 1)])
  }

  function World5(): World {
    World4().(q := OldWaits(), primary := map[A() := 0, B() := 1, Old() := 0],
        second := map[A() := 1, B() := 0, Old() := 1])
  }

  lemma ThreeOk()
    ensures ConfigOk(Three()) && Start(Three()) == World0()
  {
    assert Start(Three()).q == NoneWait();
    assert Start(Three()).reps == World0().reps;
  }

  /** Without cache hits and with equal blocks the coin decides. */
  lemma Chosen(now: int, w: World, x: Request)
    requires ConfigOk(Three()) && Sized(Three(), w) && 0 <= x.session <= 1
    requires forall r :: 0 <= r < 3 ==> w.q.actual[r] <= 10 && 0 <= w.reps[r].budget
    requires |x.inputIds| <= 2
    ensures PrimaryOf(Three(), Calm(now), w, x) == (x.session, 1 - x.session)
    ensures CacheHit(EnvOf(Three(), Calm(now), w.reps), 0, x) == 0
    ensures CacheHit(EnvOf(Three(), Calm(now), w.reps), 1, x) == 0
  {
    var env := EnvOf(Three(), Calm(now), w.reps);
    assert First(env, x) == x.session && Second(env, x) == 1 - x.session;
    forall r | 0 <= r < 3 ensures env.pend[r] <= 10 { }
  }

  lemma Step0()
    requires ConfigOk(Three())
    ensures Sized(Three(), World0()) && Enabled(World0(), Arrive(A()))
    ensures Step(Three(), Calm(0), World0(), Arrive(A())) == World1()
  {
    hide Schedule, PrimaryOf;
    var w := World0();
    NoneQueued(w.q.heaps, A());
    Chosen(0, w, A());
    LoneArrival(Three(), Calm(0), w, A());
    assert Ready(Three(), w.reps[0]);
  }

  lemma Step1()
    ensures Enabled(World1(), Accepted(A())) && Sized(Three(), World1())
    ensures ConfigOk(Three()) ==> Step(Three(), Calm(0), World1(), Accepted(A())) == World2()
  {
    var w := World1();
    var (rep, led) := Added(w.reps[0], w.ledger, A(), 2);
    assert rep == Rep(8, [A()], []) && led == map[A() := 2];
    assert w.reps[0 := rep] == World2().reps;
    assert w.tasks[A() := Task(Pending, 0)] == World2().tasks;
  }

  lemma Step2()
    requires ConfigOk(Three())
    ensures Sized(Three(), World2()) && Enabled(World2(), Arrive(B()))
    ensures Step(Three(), Calm(1), World2(), Arrive(B())) == World3()
  {
    hide Schedule, PrimaryOf;
    var w := World2();
    NoneQueued(w.q.heaps, B());
    Chosen(1, w, B());
    LoneArrival(Three(), Calm(1), w, B());
    assert Ready(Three(), w.reps[1]);
    assert w.primary[B() := 1] == World3().primary && w.second[B() := 0] == World3().second;
    assert w.tasks[B() := Task(Posted, 1)] == World3().tasks;
  }

  lemma Step3()
    ensures Enabled(World3(), Accepted(B())) && Sized(Three(), World3())
    ensures ConfigOk(Three()) ==> Step(Three(), Calm(1), World3(), Accepted(B())) == World4()
  {
    var w := World3();
    var (rep, led) := Added(w.reps[1], w.ledger, B(), 2);
    assert rep == Rep(8, [B()], []) && led == map[A() := 2, B() := 2];
    assert w.reps[1 := rep] == World4().reps;
    assert w.tasks[B() := Task(Pending, 1)] == World4().tasks;
  }

  lemma Step4()
    requires ConfigOk(Three())
    ensures Sized(Three(), World4()) && Enabled(World4(), Arrive(Old()))
    ensures Step(Three(), Calm(2), World4(), Arrive(Old())) == World5()
  {
    hide Schedule, PrimaryOf;
    var w := World4();
    NoneQueued(w.q.heaps, Old());
    Chosen(2, w, Old());
    LoneArrival(Three(), Calm(2), w, Old());
    assert Waiting(Calm(2), w.reps[0], 0);
    assert HeapPush([], Entry(Old())) == [Entry(Old())];
    assert Push(w.q, 0, Old(), 0) == OldWaits();
    assert w.primary[Old() := 0] == World5().primary && w.second[Old() := 1] == World5().second;
  }

  lemma CountOne(it: Item, x: Request)
    ensures Count([it], x) == if it.req == x then 1 else 0
  {
    assert [it][1..] == [];
  }

  lemma Step5()
    ensures Sized(Three(), World5()) && Enabled(World5(), Arrive(New()))
    ensures Stamped(World5().q, World5().primary)
  {
    var q := OldWaits();
    forall x ensures Total(q.heaps, x) == Count(q.heaps[0], x) == if x == Old() then 1 else 0 {
      CountOne(Entry(Old()), x);
      NoneQueued(q.heaps[1..], x);
    }
    forall r, x | 0 <= r < 3 && Count(q.heaps[r], x) > 0 ensures r == 0 && x == Old() {}
  }

  function Last(): World
    requires ConfigOk(Three())
  {
    Step5();
    Step(Three(), Calm(3), World5(), Arrive(New()))
  }

  function Worlds(): seq<World>
    requires ConfigOk(Three())
  {
    [World0(), World1(), World2(), World3(), World4(), World5(), Last()]
  }

  function Events(): seq<(Event, Oracle)> {
    [(Arrive(A()), Calm(0)), (Accepted(A()), Calm(0)), (Arrive(B()), Calm(1)),
     (Accepted(B()), Calm(1)), (Arrive(Old()), Calm(2)), (Arrive(New()), Calm(3))]
  }

  lemma EachStep(i: nat)
    requires ConfigOk(Three()) && i < 6
    ensures Sized(Three(), Worlds()[i]) && Enabled(Worlds()[i], Events()[i].0)
    ensures Worlds()[i + 1] == Step(Three(), Events()[i].1, Worlds()[i], Events()[i].0)
  {
    hide Step, World1, World2, World3, World4, World5, Enabled, Calm, A, B, Old, New;
    if i == 0 {
      Step0();
    } else if i == 1 {
      Step1();
    } else if i == 2 {
      Step2();
    } else if i == 3 {
      Step3();
    } else if i == 4 {
      Step4();
    } else {
      Step5();
    }
  }

  lemma EventAt(i: nat)
    requires i < 6
    ensures var (e, o) := Events()[i];
            && OracleOk(o) && o.now == [0, 0, 1, 1, 2, 3][i] && !e.Silent?
            && (e.Arrive? ==> e.req.numPrefill == |e.req.inputIds| && e.req.arrived == o.now)
            && (e.Arrive? <==> i != 1 && i != 3)
  {
  }

  lemma GoodEvents()
    ensures Loud(Events()) && Orderly(Events()) && Clocked(Events())
  {
    hide Events, OracleOk;
    assert |Events()| == 6 by { EventCount(); }
    forall i | 0 <= i < 6
      ensures var (e, o) := Events()[i];
              && OracleOk(o) && o.now == [0, 0, 1, 1, 2, 3][i] && !e.Silent?
              && (e.Arrive? ==> e.req.numPrefill == |e.req.inputIds| && e.req.arrived == o.now)
              && (e.Arrive? <==> i != 1 && i != 3)
    {
      EventAt(i);
    }
  }

  lemma EventCount()
    ensures |Events()| == 6
  {
  }

  lemma TheRun()
    ensures ConfigOk(Three()) && IsRun(Three(), Worlds(), Events())
  {
    ThreeOk();
    hide Step, World1, World2, World3, World4, World5, Enabled, Start, Sized, Last, Calm, A, B, Old, New;
    forall i | 0 <= i < 6
      ensures Sized(Three(), Worlds()[i]) && Enabled(Worlds()[i], Events()[i].0)
      ensures Worlds()[i + 1] == Step(Three(), Events()[i].1, Worlds()[i], Events()[i].0)
    {
      EachStep(i);
    }
  }

  // ---------------------------------------------------------------- the last arrival

  function Env3(): Env { EnvOf(Three(), Calm(3), World5().reps) }

  lemma Waits0()
    ensures Env3().pend == [2, 2, 0]
    ensures Wait(Env3(), BothWait(), 0, Old()) == 3 && Wait(Env3(), BothWait(), 0, New()) == 4
    ensures Wait(Env3(), BothWait(), 2, Old()) == 1 && Wait(Env3(), BothWait(), 2, New()) == 1
  {
    hide Predict;
    var h, a, b := BothWait().heaps[0], Entry(Old()), Entry(New());
    assert Env3().pend == [2, 2, 0];
    assert h == [a, b] && [a, b][1..] == [b] && IsHeap(h);
    assert a in h && b in h;
    PredictedQueued(h, a, 0);
    PredictedQueued(h, b, 0);
    assert TokensBefore([b], a) == 0 && TokensBefore([b], b) == 0;
    assert TokensBefore(h, a) == 0 && TokensBefore(h, b) == 1;
    PredictedIsReal([], Old(), 0);
    PredictedIsReal([], New(), 0);
    assert TokensBefore([], a) == 0 && TokensBefore([], b) == 0;
  }

  lemma Choices()
    requires ConfigOk(Three())
    ensures var st := State(BothWait(), World5().primary, World5().second, [2, 0, 0], 0);
            EnvOk(Env3()) && Best(Env3(), st, Delays(BothWait(), 3), 0, 2) == Some(Choice(1, -0.003, 1, 2, 1))
  {
    hide Wait;
    Waits0();
    EnvOkOf(Three(), Calm(3), World5().reps);
    var env, d := Env3(), Delays(BothWait(), 3);
    var st := State(BothWait(), World5().primary, World5().second, [2, 0, 0], 0);
    assert d[1] == 0 && d[2] == 0;
    assert Second(env, Old()) == 1 && Second(env, New()) == 1;
    assert Target(env, st.waiting, d, 0, Old()) == Some(2);
    assert Target(env, st.waiting, d, 0, New()) == Some(2);
    assert Candidate(env, st, d, 0, 0) == Some(Choice(0, -0.002, 1, 2, 1));
    assert Candidate(env, st, d, 0, 1) == Some(Choice(1, -0.003, 1, 2, 1));
    assert Best(env, st, d, 0, 0) == None;
    assert Best(env, st, d, 0, 1) == Some(Choice(0, -0.002, 1, 2, 1));
  }

  /** Both candidates are loaded beyond the threshold, and the newcomer is the cheapest to move. */
  lemma MovesToTwo()
    requires ConfigOk(Three())
    ensures Sized(Three(), World5())
    ensures Rebalances(Three(), Calm(3), World5(), New()) && FirstChoice(Three(), Calm(3), World5(), New())
  {
    hide Best, Delays, Predict, MaxDelay, Target, Heapify;
    var w, env := World5(), Env3();
    Waits0();
    Chosen(3, w, New());
    Choices();
    var h, it := w.q.heaps[0], Entry(New());
    assert h + [it] == [Entry(Old()), it];
    assert HeapPush(h, it) == h + [it];
    assert Push(w.q, 0, New(), 0) == BothWait();
    assert AfterPush(env, w, 0, New()) == State(BothWait(), w.primary, w.second, [2, 0, 0], 0);
    assert Hot(env, w.q, 0, 0, New()) && Hot(env, w.q, 0, 1, New());
  }

  /** Event i of a run is an arrival that finds all stamps right and leaves one wrong. */
  ghost predicate StaleAt(cfg: Config, ws: seq<World>, es: seq<(Event, Oracle)>, i: nat) {
    && IsRun(cfg, ws, es) && Loud(es) && Orderly(es) && Clocked(es) && i < |es| && es[i].0.Arrive? && Core(cfg, ws[i])
    && Stamped(ws[i].q, ws[i].primary)
    && var u := AddRequest(cfg, es[i].1, ws[i], es[i].0.req); !Stamped(u.q, u.primary)
  }

  /** A stamp can be stale in a run: both candidates of the last newcomer are hot, the rebalance
      of its primary moves it on to the idle third replica, and its stamp is written over with
      the primary afterwards. */
  lemma StampGoesStale()
    ensures exists cfg, ws, es, i :: StaleAt(cfg, ws, es, i)
  {
    hide Stamped, Core, Loud, Orderly, Clocked, AddRequest, World5, New, Calm, Rebalances, FirstChoice, Clean, Joins,
        Last;
    TheRun();
    GoodEvents();
    Step5();
    var cfg, ws, es := Three(), Worlds(), Events();
    LastIsReal(cfg, ws, es);
    MovesToTwo();
    StampLost(cfg, es[5].1, ws[5], es[5].0.req);
    assert StaleAt(cfg, ws, es, 5);
  }

  lemma LastIsReal(cfg: Config, ws: seq<World>, es: seq<(Event, Oracle)>)
    requires IsRun(cfg, ws, es) && Loud(es) && Orderly(es) && cfg.slo > 0 && cfg.cap > 0 && |es| == 6 && es[5].0.Arrive?
    ensures Core(cfg, ws[5]) && WellFormed(ws[5].q, cfg.n) && Clean(ws[5].q) && Joins(ws[5].q, es[5].0.req)
    ensures OracleOk(es[5].1)
  {
    hide Clean, Joins, Step, Start, RepOk, WellFormed;
    RunSafe(cfg, ws, es, 5);
    RunClean(cfg, ws, es, 5);
    RunJoins(cfg, ws, es, 5);
  }
}
