/** Why the no-stranded-work theorem excludes silent completions: a concrete run. */
module Silence {
  import opened Requests
  import opened Heapq
  import opened RequestQueue
  import opened Rebalance
  import opened Replicas
  import opened Dispatch
  import opened Runs
  import opened Arrivals
  import opened Strands

  /** One replica, budget for 10 tokens, one pending request at a time. */
  function Single(): Config { Config(1, (s: int) => 0, (s: int) => 0, 10, 1, 100, 100, 1000, true, 0.001) }

  function Quiet(now: int): Oracle {
    Oracle(now, (r: int, x: Request) => 1, (r: int) => false, (r: int) => 0)
  }

  function A(): Request { Request(0, [7], 1, 0, 0) }

  function B(): Request { Request(1, [7], 1, 1, 0) }

  function EntryOf(x: Request): Item { Item(0, x.arrived, x) }

  /** A world of the single replica with the given queue. */
  function W(h: Heap, primary: map<Request, int>, second: map<Request, int>, rep: Rep, led: Ledger,
             tasks: map<Request, Task>, finished: set<Request>): World {
    World(Queues([h], [|h|], [|h|]), primary, second, [rep], led, tasks, finished)
  }

  lemma OnlyPrimary(now: int, w: World, x: Request)
    requires ConfigOk(Single()) && Sized(Single(), w) && x.session == 0 && |x.inputIds| == 1
    ensures PrimaryOf(Single(), Quiet(now), w, x) == (0, 0) && CacheHit(EnvOf(Single(), Quiet(now), w.reps), 0, x) == 0
  {
    hide Virtual;
    var env := EnvOf(Single(), Quiet(now), w.reps);
    assert First(env, x) == 0 && Second(env, x) == 0;
  }

  function ARep(): Rep { Rep(9, [A()], []) }

  /** The worlds of the run. */
  function World1(): World {
    W([], map[A() := 0], map[A() := 0], Rep(10, [], []), map[], map[A() := Task(Posted, 0)], {})
  }

  function World2(): World {
    W([], map[A() := 0], map[A() := 0], ARep(), map[A() := 1], map[A() := Task(Pending, 0)], {})
  }

  function World3(): World {
    World2().(q := Queues([[EntryOf(B())]], [1], [1]), primary := map[A() := 0, B() := 0],
        second := map[A() := 0, B() := 0])
  }

  function World4(): World { World3().(tasks := map[A() := Task(Done, 0)]) }

  function World5(): World { World3().(tasks := map[], finished := {A()}) }

  lemma Step1()
    requires ConfigOk(Single())
    ensures Enabled(Start(Single()), Arrive(A()))
    ensures Step(Single(), Quiet(0), Start(Single()), Arrive(A())) == World1()
  {
    hide Schedule, PrimaryOf;
    var w := Start(Single());
    assert w.q == Queues([[]], [0], [0]) && w.reps == [Rep(10, [], [])];
    NoneQueued(w.q.heaps, A());
    OnlyPrimary(0, w, A());
    LoneArrival(Single(), Quiet(0), w, A());
    assert Ready(Single(), w.reps[0]);
  }

  lemma Step2()
    requires ConfigOk(Single())
    ensures Enabled(World1(), Accepted(A()))
    ensures Step(Single(), Quiet(0), World1(), Accepted(A())) == World2()
  {
    var w := World1();
    var (rep, led) := Added(w.reps[0], w.ledger, A(), 1);
    assert rep.pending == [A()] && rep.running == [] && rep.budget == 9;
    assert led == map[A() := 1];
    assert World2().tasks == w.tasks[A() := Task(Pending, 0)];
    assert w.reps[0 := ARep()] == [ARep()];
  }

  lemma Step3()
    requires ConfigOk(Single())
    ensures Enabled(World2(), Arrive(B()))
    ensures Step(Single(), Quiet(1), World2(), Arrive(B())) == World3()
  {
    hide Schedule, PrimaryOf;
    var w := World2();
    NoneQueued(w.q.heaps, B());
    OnlyPrimary(1, w, B());
    LoneArrival(Single(), Quiet(1), w, B());
    assert Waiting(Quiet(1), w.reps[0], 0);
    assert HeapPush([], EntryOf(B())) == [EntryOf(B())];
    assert Push(w.q, 0, B(), 0) == World3().q;
    assert w.primary[B() := 0] == World3().primary && w.second[B() := 0] == World3().second;
  }

  lemma Step4()
    requires ConfigOk(Single())
    ensures Enabled(World3(), Silent(A()))
    ensures Step(Single(), Quiet(1), World3(), Silent(A())) == World4()
  {
  }

  lemma Step5()
    requires ConfigOk(Single())
    ensures Enabled(World4(), Callback(A()))
    ensures Step(Single(), Quiet(1), World4(), Callback(A())) == World5()
  {
    hide AddRequest, Pass;
    var w := World4().(tasks := World4().tasks - {A()}, finished := World4().finished + {A()});
    assert w == World5();
    LonePass(Single(), Quiet(1), w, 0, EntryOf(B()));
    assert Waiting(Quiet(1), w.reps[0], 0);
    assert PostAll(Single(), Quiet(1), w, []) == w;
  }

  lemma NothingGoesOn()
    ensures Dead(World5())
  {
    assert World5().q.heaps[0] != [];
  }

  function Worlds(): seq<World> { [Start(Single()), World1(), World2(), World3(), World4(), World5()] }

  function Events(): seq<(Event, Oracle)> {
    [(Arrive(A()), Quiet(0)), (Accepted(A()), Quiet(0)), (Arrive(B()), Quiet(1)), (Silent(A()), Quiet(1)),
        (Callback(A()), Quiet(1))]
  }

  lemma SilentStep(i: nat)
    requires i < 5 && ConfigOk(Single())
    ensures Sized(Single(), Worlds()[i]) && Enabled(Worlds()[i], Events()[i].0)
    ensures Worlds()[i + 1] == Step(Single(), Events()[i].1, Worlds()[i], Events()[i].0)
  {
    hide Step, World1, World2, World3, World4, World5, Start, Enabled, Quiet, A, B;
    SizedAll(i);
    if i == 0 {
      Step1();
    } else if i == 1 {
      Step2();
    } else if i == 2 {
      Step3();
    } else if i == 3 {
      Step4();
    } else {
      Step5();
    }
  }

  lemma SilentRun()
    ensures IsRun(Single(), Worlds(), Events())
  {
    assert ConfigOk(Single());
    hide Step, World1, World2, World3, World4, World5, Start, Enabled, Quiet, A, B, Sized;
    forall i: nat | i < 5
      ensures Sized(Single(), Worlds()[i]) && Enabled(Worlds()[i], Events()[i].0)
      ensures Worlds()[i + 1] == Step(Single(), Events()[i].1, Worlds()[i], Events()[i].0)
    {
      SilentStep(i);
    }
  }

  lemma SizedAll(i: nat)
    requires i < 6
    ensures Sized(Single(), Worlds()[i])
  {
  }

  /** A stream that ends with [DONE] but without any content token leaves its request on the
      pending list for good. Here it takes the only pending slot, so the next request waits
      with nothing in flight: after this run no event but a new arrival is possible, and the
      replica is stuck, so no later arrival is ever dispatched (DeadForever). */
  lemma SilentStrands()
    ensures exists ws, es :: IsRun(Single(), ws, es) && Clocked(es) && |es| == 5 && Dead(ws[5])
  {
    hide IsRun, NotStranded, Enabled;
    SilentRun();
    assert Clocked(Events());
    NothingGoesOn();
    assert Worlds()[5] == World5() && |Events()| == 5;
  }

  ghost predicate Dead(w: World) {
    && !NotStranded(w) && w.tasks == map[] && (forall e :: Enabled(w, e) ==> e.Arrive?)
    && forall r :: 0 <= r < |w.reps| ==> Stuck(Single(), w.reps[r])
  }
}
