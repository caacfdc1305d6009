/** Coalescing at work: any number of requests for a dormant job are served by one wake. */
module WakeService {
  import opened Prelude
  import opened Jobs
  import opened WakeProtocol
  import opened WakeTightness

  function Waiters(reg: JobRegistration, n: nat): seq<Thread> {
    seq(n, _ => Thread(reg, Await(0, 0, None)))
  }

  /** The winner, its task, and n requests that wait with it. */
  function Gathered(reg: JobRegistration, n: nat, task: Pc, cell: Cell, endpoints: map<string, Endpoint>,
                    permits: nat, log: multiset<Event>): World {
    World(map[reg.jobId := 0], [cell], endpoints,
          [Thread(reg, Await(0, 0, Some(1))), Thread(reg, task)] + Waiters(reg, n), permits, log)
  }

  function Called(reg: JobRegistration): multiset<Event> {
    multiset{CasWon(reg.jobId), ScaleUpCalled(reg.jobId)}
  }

  function Waiting(reg: JobRegistration, n: nat, permits: nat): World {
    Gathered(reg, n, Health(0, false), Cell(reg.jobId, Waking, []), map[], permits, Called(reg))
  }

  /** One request alone, on an otherwise empty coordinator. */
  function Single(reg: JobRegistration, pc: Pc, cells: seq<Cell>, permits: nat, log: multiset<Event>): World {
    World(if cells == [] then map[] else map[reg.jobId := 0], cells, map[], [Thread(reg, pc)], permits, log)
  }

  lemma Chain(w: World, a: Action, w1: World, b: Action, w2: World)
    requires Wf(w) && Next(w, a) == w1 && Wf(w1) && Next(w1, b) == w2
    ensures Run(w, [a, b]) == w2
  {
    RunTwo(w, a, b);
  }

  lemma Follow(w: World, a: seq<Action>, w1: World, b: seq<Action>, w2: World)
    requires Wf(w) && Run(w, a) == w1 && Run(w1, b) == w2
    ensures Run(w, a + b) == w2
  {
    RunConcat(w, a, b);
  }

  lemma SingleWf(reg: JobRegistration, pc: Pc, cell: Cell, permits: nat, log: multiset<Event>)
    requires cell.owner == reg.jobId && (CellOf(pc).Some? ==> CellOf(pc).value == 0)
    ensures Wf(Single(reg, pc, [cell], permits, log))
  {
  }

  /** The request takes a step that spawns nothing. */
  lemma SingleStep(reg: JobRegistration, pc: Pc, cells: seq<Cell>, permits: nat, log: multiset<Event>, m: Move)
    requires Wf(Single(reg, pc, cells, permits, log)) && TaskCell(pc).None? && !IsControl(pc)
    requires RequestMove(Single(reg, pc, cells, permits, log), 0, Proceed) == m
    requires m.effect.NoEffect? || m.effect.CreateCell? || m.effect.StoreStatus?
    requires m.effect.CreateCell? ==> cells == []
    ensures var w := Single(reg, pc, cells, permits, log);
            Next(w, Step(0, Proceed)) == Single(reg, m.pc, CellsAfter(cells, reg.jobId, m.effect), permits, LogAfter(log, m.event))
  {
    var w := Single(reg, pc, cells, permits, log);
    RequestStep(w, 0);
    assert [Thread(reg, pc)][0 := Thread(reg, m.pc)] == [Thread(reg, m.pc)];
    assert m.effect.CreateCell? ==> w.jobs[reg.jobId := 0] == map[reg.jobId := 0];
  }

  lemma Begins(permits: nat, reg: JobRegistration) returns (s: seq<Action>)
    ensures Run(Initial(permits), s) == Single(reg, Load(0), [Cell(reg.jobId, Dormant, [])], permits, multiset{})
  {
    var begin, step := Start(reg, EnsureRunning), Step(0, Proceed);
    RunTwo(Initial(permits), begin, step);
    var w1 := Single(reg, FastPath, [], permits, multiset{});
    assert Next(Initial(permits), begin) == w1;
    SingleStep(reg, FastPath, [], permits, multiset{}, Goto(Enter));
    SingleStep(reg, Enter, [], permits, multiset{}, Move(Load(0), CreateCell, None));
    assert CellsAfter([], reg.jobId, CreateCell) == [Cell(reg.jobId, Dormant, [])];
    RunSnoc(Initial(permits), [begin, step], step);
    s := [begin, step] + [step];
  }

  lemma Wins(permits: nat, reg: JobRegistration)
    ensures Run(Single(reg, Load(0), [Cell(reg.jobId, Dormant, [])], permits, multiset{}), [Step(0, Proceed), Step(0, Proceed)])
         == Single(reg, WinnerSubscribe(0), [Cell(reg.jobId, Waking, [])], permits, multiset{CasWon(reg.jobId)})
  {
    var dormant := [Cell(reg.jobId, Dormant, [])];
    SingleStep(reg, Load(0), dormant, permits, multiset{}, Goto(TryCas(0)));
    SingleStep(reg, TryCas(0), dormant, permits, multiset{}, Move(WinnerSubscribe(0), StoreStatus(0, Waking), Some(CasWon(reg.jobId))));
    assert CellsAfter(dormant, reg.jobId, StoreStatus(0, Waking)) == [Cell(reg.jobId, Waking, [])];
    RunTwo(Single(reg, Load(0), dormant, permits, multiset{}), Step(0, Proceed), Step(0, Proceed));
  }

  lemma Subscribes(permits: nat, reg: JobRegistration)
    ensures Run(Single(reg, WinnerSubscribe(0), [Cell(reg.jobId, Waking, [])], permits, multiset{CasWon(reg.jobId)}), [Step(0, Proceed)])
         == Single(reg, Spawn(0, 0), [Cell(reg.jobId, Waking, [])], permits, multiset{CasWon(reg.jobId)})
  {
    var waking, won := [Cell(reg.jobId, Waking, [])], multiset{CasWon(reg.jobId)};
    SingleStep(reg, WinnerSubscribe(0), waking, permits, won, Goto(Spawn(0, 0)));
    RunOne(Single(reg, WinnerSubscribe(0), waking, permits, won), Step(0, Proceed));
  }

  lemma SpawnsTask(permits: nat, reg: JobRegistration)
    ensures var w := Single(reg, Spawn(0, 0), [Cell(reg.jobId, Waking, [])], permits, multiset{CasWon(reg.jobId)});
            Next(w, Step(0, Proceed)) == Gathered(reg, 0, Acquire(0), Cell(reg.jobId, Waking, []), map[], permits, multiset{CasWon(reg.jobId)})
  {
    RequestStep(Single(reg, Spawn(0, 0), [Cell(reg.jobId, Waking, [])], permits, multiset{CasWon(reg.jobId)}), 0);
  }

  /** The task takes a step. */
  lemma TaskMoves(reg: JobRegistration, n: nat, task: Pc, cell: Cell, endpoints: map<string, Endpoint>, permits: nat,
                  log: multiset<Event>, answer: Answer, m: Move)
    requires cell.owner == reg.jobId && TaskCell(task) == Some(0)
    requires Wf(Gathered(reg, n, task, cell, endpoints, permits, log))
    requires TaskMove(Gathered(reg, n, task, cell, endpoints, permits, log), 1, answer) == m
    requires !m.effect.SpawnTask? && !m.effect.CreateCell? && !m.effect.DropKey?
    ensures Next(Gathered(reg, n, task, cell, endpoints, permits, log), Step(1, answer))
         == Gathered(reg, n, m.pc, CellsAfter([cell], reg.jobId, m.effect)[0], EndpointsAfter(endpoints, reg.jobId, m.effect),
                     PermitsAfter(permits, m.effect), LogAfter(log, m.event))
  {
    var w := Gathered(reg, n, task, cell, endpoints, permits, log);
    assert Decide(w, 1, answer) == m;
    assert w.threads[1 := Thread(reg, m.pc)] == [Thread(reg, Await(0, 0, Some(1))), Thread(reg, m.pc)] + Waiters(reg, n);
    assert |CellsAfter([cell], reg.jobId, m.effect)| == 1;
  }

  lemma Acquires(permits: nat, reg: JobRegistration)
    requires permits >= 1
    ensures Next(Gathered(reg, 0, Acquire(0), Cell(reg.jobId, Waking, []), map[], permits, multiset{CasWon(reg.jobId)}), Step(1, Proceed))
         == Gathered(reg, 0, CallScaleUp(0), Cell(reg.jobId, Waking, []), map[], permits - 1, multiset{CasWon(reg.jobId)})
  {
    WaitingWf(reg, 0, Acquire(0), Cell(reg.jobId, Waking, []), map[], permits, multiset{CasWon(reg.jobId)});
    TaskMoves(reg, 0, Acquire(0), Cell(reg.jobId, Waking, []), map[], permits, multiset{CasWon(reg.jobId)}, Proceed,
              Move(CallScaleUp(0), TakePermit, None));
  }

  lemma Calls(permits: nat, reg: JobRegistration)
    ensures Next(Gathered(reg, 0, CallScaleUp(0), Cell(reg.jobId, Waking, []), map[], permits, multiset{CasWon(reg.jobId)}), Step(1, Proceed))
         == Gathered(reg, 0, Scaling(0), Cell(reg.jobId, Waking, []), map[], permits, Called(reg))
  {
    WaitingWf(reg, 0, CallScaleUp(0), Cell(reg.jobId, Waking, []), map[], permits, multiset{CasWon(reg.jobId)});
    TaskMoves(reg, 0, CallScaleUp(0), Cell(reg.jobId, Waking, []), map[], permits, multiset{CasWon(reg.jobId)}, Proceed,
              Move(Scaling(0), NoEffect, Some(ScaleUpCalled(reg.jobId))));
  }

  lemma ScalesUp(permits: nat, reg: JobRegistration)
    ensures Next(Gathered(reg, 0, Scaling(0), Cell(reg.jobId, Waking, []), map[], permits, Called(reg)), Step(1, Proceed))
         == Waiting(reg, 0, permits + 1)
  {
    WaitingWf(reg, 0, Scaling(0), Cell(reg.jobId, Waking, []), map[], permits, Called(reg));
    TaskMoves(reg, 0, Scaling(0), Cell(reg.jobId, Waking, []), map[], permits, Called(reg), Proceed,
              Move(Health(0, false), GivePermit, None));
  }

  lemma SpawnsAndAcquires(permits: nat, reg: JobRegistration) returns (s: seq<Action>)
    requires permits >= 1
    ensures Run(Single(reg, Spawn(0, 0), [Cell(reg.jobId, Waking, [])], permits, multiset{CasWon(reg.jobId)}), s)
         == Gathered(reg, 0, CallScaleUp(0), Cell(reg.jobId, Waking, []), map[], permits - 1, multiset{CasWon(reg.jobId)})
  {
    var waking, won := Cell(reg.jobId, Waking, []), multiset{CasWon(reg.jobId)};
    var w1 := Gathered(reg, 0, Acquire(0), waking, map[], permits, won);
    SpawnsTask(permits, reg);
    Acquires(permits, reg);
    WaitingWf(reg, 0, Acquire(0), waking, map[], permits, won);
    Chain(Single(reg, Spawn(0, 0), [waking], permits, won), Step(0, Proceed), w1, Step(1, Proceed),
          Gathered(reg, 0, CallScaleUp(0), waking, map[], permits - 1, won));
    s := [Step(0, Proceed), Step(1, Proceed)];
  }

  lemma CallsAndScalesUp(permits: nat, reg: JobRegistration) returns (s: seq<Action>)
    ensures Run(Gathered(reg, 0, CallScaleUp(0), Cell(reg.jobId, Waking, []), map[], permits, multiset{CasWon(reg.jobId)}), s)
         == Waiting(reg, 0, permits + 1)
  {
    var waking, won := Cell(reg.jobId, Waking, []), multiset{CasWon(reg.jobId)};
    Calls(permits, reg);
    ScalesUp(permits, reg);
    WaitingWf(reg, 0, CallScaleUp(0), waking, map[], permits, won);
    WaitingWf(reg, 0, Scaling(0), waking, map[], permits, Called(reg));
    Chain(Gathered(reg, 0, CallScaleUp(0), waking, map[], permits, won), Step(1, Proceed),
          Gathered(reg, 0, Scaling(0), waking, map[], permits, Called(reg)), Step(1, Proceed), Waiting(reg, 0, permits + 1));
    s := [Step(1, Proceed), Step(1, Proceed)];
  }

  lemma SecondHalf(permits: nat, reg: JobRegistration) returns (s: seq<Action>)
    requires permits >= 1
    ensures Run(Single(reg, Spawn(0, 0), [Cell(reg.jobId, Waking, [])], permits, multiset{CasWon(reg.jobId)}), s)
         == Waiting(reg, 0, permits)
  {
    var waking, won := Cell(reg.jobId, Waking, []), multiset{CasWon(reg.jobId)};
    var s1 := SpawnsAndAcquires(permits, reg);
    var s2 := CallsAndScalesUp(permits - 1, reg);
    SingleWf(reg, Spawn(0, 0), waking, permits, won);
    Follow(Single(reg, Spawn(0, 0), [waking], permits, won), s1,
           Gathered(reg, 0, CallScaleUp(0), waking, map[], permits - 1, won), s2, Waiting(reg, 0, permits));
    s := s1 + s2;
  }

  lemma JoinSteps(w: World, reg: JobRegistration) returns (s: seq<Action>)
    requires Wf(w) && w.jobs == map[reg.jobId := 0] && w.endpoints == map[] && |w.cells| == 1
    requires w.cells[0] == Cell(reg.jobId, Waking, [])
    ensures Run(w, s) == With(w, Thread(reg, Await(0, 0, None)))
  {
    var begin, step := Start(reg, EnsureRunning), Step(|w.threads|, Proceed);
    assert Next(w, begin) == With(w, Thread(reg, FastPath));
    JoinStep(w, reg, FastPath, Enter);
    JoinStep(w, reg, Enter, Load(0));
    JoinStep(w, reg, Load(0), Subscribe(0));
    JoinStep(w, reg, Subscribe(0), Await(0, 0, None));
    RunTwo(w, begin, step);
    RunSnoc(w, [begin, step], step);
    RunSnoc(w, [begin, step] + [step], step);
    RunSnoc(w, [begin, step] + [step] + [step], step);
    s := [begin, step] + [step] + [step] + [step];
  }

  /** One more request comes in while the job is being woken, and waits with the others. */
  lemma Joins(permits: nat, reg: JobRegistration, n: nat) returns (s: seq<Action>)
    ensures Run(Waiting(reg, n, permits), s) == Waiting(reg, n + 1, permits)
  {
    WaitingWf(reg, n, Health(0, false), Cell(reg.jobId, Waking, []), map[], permits, Called(reg));
    s := JoinSteps(Waiting(reg, n, permits), reg);
    assert Waiters(reg, n + 1) == Waiters(reg, n) + [Thread(reg, Await(0, 0, None))];
  }

  function With(w: World, t: Thread): World {
    w.(threads := w.threads + [t])
  }

  /** The last thread takes a step that changes nothing else. */
  lemma JoinStep(w: World, reg: JobRegistration, pc: Pc, next: Pc)
    requires Wf(w) && w.jobs == map[reg.jobId := 0] && w.endpoints == map[] && |w.cells| == 1
    requires w.cells[0] == Cell(reg.jobId, Waking, [])
    requires (pc, next) in {(FastPath, Enter), (Enter, Load(0)), (Load(0), Subscribe(0)), (Subscribe(0), Await(0, 0, None))}
    ensures Wf(With(w, Thread(reg, pc)))
    ensures Next(With(w, Thread(reg, pc)), Step(|w.threads|, Proceed)) == With(w, Thread(reg, next))
  {
    var w1, i := With(w, Thread(reg, pc)), |w.threads|;
    forall k | 0 <= k < |w1.threads| ensures ThreadWf(w1.cells, w1.threads[k]) {
      assert k < i ==> w1.threads[k] == w.threads[k];
    }
    RequestStep(w1, i);
    assert RequestMove(w1, i, Proceed) == Goto(next);
    assert w1.threads[i := w1.threads[i].(pc := next)] == w.threads + [Thread(reg, next)];
  }

  lemma WaitingWf(reg: JobRegistration, n: nat, task: Pc, cell: Cell, endpoints: map<string, Endpoint>, permits: nat, log: multiset<Event>)
    requires cell.owner == reg.jobId && (CellOf(task).Some? ==> CellOf(task).value == 0)
    ensures Wf(Gathered(reg, n, task, cell, endpoints, permits, log))
  {
  }

  function Reported(reg: JobRegistration, ep: Endpoint): multiset<Event> {
    Called(reg) + multiset{HealthReported(reg.jobId, ep)}
  }

  lemma TurnsHealthy(permits: nat, reg: JobRegistration, n: nat, ep: Endpoint)
    ensures Next(Waiting(reg, n, permits), Step(1, Healthy(ep)))
         == Gathered(reg, n, TaskInsert(0, ep), Cell(reg.jobId, Waking, []), map[], permits, Reported(reg, ep))
  {
    WaitingWf(reg, n, Health(0, false), Cell(reg.jobId, Waking, []), map[], permits, Called(reg));
    TaskMoves(reg, n, Health(0, false), Cell(reg.jobId, Waking, []), map[], permits, Called(reg), Healthy(ep),
              Move(TaskInsert(0, ep), NoEffect, Some(HealthReported(reg.jobId, ep))));
  }

  lemma Inserts(permits: nat, reg: JobRegistration, n: nat, ep: Endpoint)
    ensures Next(Gathered(reg, n, TaskInsert(0, ep), Cell(reg.jobId, Waking, []), map[], permits, Reported(reg, ep)), Step(1, Proceed))
         == Gathered(reg, n, TaskSetReady(0, ep), Cell(reg.jobId, Waking, []), map[reg.jobId := ep], permits, Reported(reg, ep))
  {
    WaitingWf(reg, n, TaskInsert(0, ep), Cell(reg.jobId, Waking, []), map[], permits, Reported(reg, ep));
    TaskMoves(reg, n, TaskInsert(0, ep), Cell(reg.jobId, Waking, []), map[], permits, Reported(reg, ep), Proceed,
              Move(TaskSetReady(0, ep), PutEndpoint(ep), None));
  }

  lemma SetsReady(permits: nat, reg: JobRegistration, n: nat, ep: Endpoint)
    ensures Next(Gathered(reg, n, TaskSetReady(0, ep), Cell(reg.jobId, Waking, []), map[reg.jobId := ep], permits, Reported(reg, ep)), Step(1, Proceed))
         == Gathered(reg, n, TaskSendReady(0, ep), Cell(reg.jobId, Ready, []), map[reg.jobId := ep], permits, Reported(reg, ep))
  {
    WaitingWf(reg, n, TaskSetReady(0, ep), Cell(reg.jobId, Waking, []), map[reg.jobId := ep], permits, Reported(reg, ep));
    TaskMoves(reg, n, TaskSetReady(0, ep), Cell(reg.jobId, Waking, []), map[reg.jobId := ep], permits, Reported(reg, ep), Proceed,
              Move(TaskSendReady(0, ep), StoreStatus(0, Ready), None));
  }

  lemma Sends(permits: nat, reg: JobRegistration, n: nat, ep: Endpoint)
    ensures Next(Gathered(reg, n, TaskSendReady(0, ep), Cell(reg.jobId, Ready, []), map[reg.jobId := ep], permits, Reported(reg, ep)), Step(1, Proceed))
         == Served(reg, n, permits, ep)
  {
    WaitingWf(reg, n, TaskSendReady(0, ep), Cell(reg.jobId, Ready, []), map[reg.jobId := ep], permits, Reported(reg, ep));
    TaskMoves(reg, n, TaskSendReady(0, ep), Cell(reg.jobId, Ready, []), map[reg.jobId := ep], permits, Reported(reg, ep), Proceed,
              Move(TaskDone(0, 0), Broadcast(0, WakeReady(ep)), Some(BroadcastBy(1))));
    assert [] + [WakeReady(ep)] == [WakeReady(ep)];
  }

  function Served(reg: JobRegistration, n: nat, permits: nat, ep: Endpoint): World {
    Gathered(reg, n, TaskDone(0, 0), Cell(reg.jobId, Ready, [WakeReady(ep)]), map[reg.jobId := ep], permits,
             Reported(reg, ep) + multiset{BroadcastBy(1)})
  }

  /** The wake succeeds: the endpoint is cached, the cell ready, and the message sent. */
  lemma Completes(permits: nat, reg: JobRegistration, n: nat, ep: Endpoint) returns (s: seq<Action>)
    ensures Run(Waiting(reg, n, permits), s) == Served(reg, n, permits, ep)
  {
    var waking, ready, cached := Cell(reg.jobId, Waking, []), Cell(reg.jobId, Ready, []), map[reg.jobId := ep];
    var w := Waiting(reg, n, permits);
    var w1 := Gathered(reg, n, TaskInsert(0, ep), waking, map[], permits, Reported(reg, ep));
    var w2 := Gathered(reg, n, TaskSetReady(0, ep), waking, cached, permits, Reported(reg, ep));
    var w3 := Gathered(reg, n, TaskSendReady(0, ep), ready, cached, permits, Reported(reg, ep));
    WaitingWf(reg, n, Health(0, false), waking, map[], permits, Called(reg));
    WaitingWf(reg, n, TaskInsert(0, ep), waking, map[], permits, Reported(reg, ep));
    WaitingWf(reg, n, TaskSetReady(0, ep), waking, cached, permits, Reported(reg, ep));
    WaitingWf(reg, n, TaskSendReady(0, ep), ready, cached, permits, Reported(reg, ep));
    TurnsHealthy(permits, reg, n, ep);
    Inserts(permits, reg, n, ep);
    SetsReady(permits, reg, n, ep);
    Sends(permits, reg, n, ep);
    Chain(w, Step(1, Healthy(ep)), w1, Step(1, Proceed), w2);
    Chain(w2, Step(1, Proceed), w3, Step(1, Proceed), Served(reg, n, permits, ep));
    RunConcat(w, [Step(1, Healthy(ep)), Step(1, Proceed)], [Step(1, Proceed), Step(1, Proceed)]);
    s := [Step(1, Healthy(ep)), Step(1, Proceed)] + [Step(1, Proceed), Step(1, Proceed)];
  }

  /** The requests before `upto` have returned the endpoint; the others can receive it. */
  ghost predicate ServedTo(w: World, reg: JobRegistration, ep: Endpoint, upto: nat) {
    && Wf(w) && |w.cells| == 1 && w.cells[0].sent == [WakeReady(ep)]
    && upto <= |w.threads| && w.log[ScaleUpCalled(reg.jobId)] == 1
    && (forall i :: 0 <= i < upto && i != 1 ==> w.threads[i].pc == Returned(Ok(ep)))
    && (forall i :: upto <= i < |w.threads| && i != 1 ==> w.threads[i].pc.Await? && w.threads[i].pc.cell == 0 && w.threads[i].pc.pos == 0)
  }

  lemma {:induction false} Receive(w: World, reg: JobRegistration, ep: Endpoint, upto: nat) returns (s: seq<Action>)
    requires ServedTo(w, reg, ep, upto)
    ensures ServedTo(Run(w, s), reg, ep, |w.threads|) && |Run(w, s).threads| == |w.threads|
    decreases |w.threads| - upto
  {
    if upto == |w.threads| {
      s := [];
    } else if upto == 1 {
      s := Receive(w, reg, ep, 2);
    } else {
      ReceiveOne(w, reg, ep, upto);
      var step := Step(upto, Proceed);
      var rest := Receive(Next(w, step), reg, ep, upto + 1);
      RunOne(w, step);
      RunConcat(w, [step], rest);
      s := [step] + rest;
    }
  }

  lemma ReceiveOne(w: World, reg: JobRegistration, ep: Endpoint, i: nat)
    requires ServedTo(w, reg, ep, i) && i < |w.threads| && i != 1
    ensures ServedTo(Next(w, Step(i, Proceed)), reg, ep, i + 1) && |Next(w, Step(i, Proceed)).threads| == |w.threads|
  {
    RequestStep(w, i);
    assert RequestMove(w, i, Proceed) == Goto(Returned(Ok(ep)));
  }

  lemma {:induction false} Assembles(permits: nat, reg: JobRegistration, n: nat) returns (s: seq<Action>)
    requires permits >= 1
    ensures Run(Initial(permits), s) == Waiting(reg, n, permits)
  {
    if n == 0 {
      var s1 := Begins(permits, reg);
      var s2, s3 := [Step(0, Proceed), Step(0, Proceed)], [Step(0, Proceed)];
      Wins(permits, reg);
      Subscribes(permits, reg);
      var s4 := SecondHalf(permits, reg);
      RunConcat(Initial(permits), s1, s2);
      RunConcat(Initial(permits), s1 + s2, s3);
      RunConcat(Initial(permits), s1 + s2 + s3, s4);
      s := s1 + s2 + s3 + s4;
    } else {
      var s1 := Assembles(permits, reg, n - 1);
      var s2 := Joins(permits, reg, n - 1);
      RunConcat(Initial(permits), s1, s2);
      s := s1 + s2;
    }
  }

  /**
   One wake serves everybody: for every number of requests beside the first there is a run in which all of them
   return the endpoint that Consul reported, and `scale_up` has been called once.
   */
  lemma AllServedByOneWake(concurrency: nat, reg: JobRegistration, ep: Endpoint, n: nat) returns (s: seq<Action>)
    requires concurrency >= 1
    ensures var w := Run(Initial(concurrency), s);
            && |w.threads| == n + 2 && w.log[ScaleUpCalled(reg.jobId)] == 1
            && (forall i :: 0 <= i < n + 2 && i != 1 ==> w.threads[i].pc == Returned(Ok(ep)))
  {
    var s1 := Assembles(concurrency, reg, n);
    var s2 := Completes(concurrency, reg, n, ep);
    var w := Run(Waiting(reg, n, concurrency), s2);
    WaitingWf(reg, n, TaskDone(0, 0), Cell(reg.jobId, Ready, [WakeReady(ep)]), map[reg.jobId := ep], concurrency, w.log);
    assert w.log[ScaleUpCalled(reg.jobId)] == 1;
    var s3 := Receive(w, reg, ep, 0);
    RunConcat(Initial(concurrency), s1, s2);
    RunConcat(Initial(concurrency), s1 + s2, s3);
    s := s1 + s2 + s3;
  }
}
