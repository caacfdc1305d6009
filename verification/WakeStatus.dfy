/** That no wake leaves its job stuck: who still has to give a WAKING cell its next status, and what a failure leaves. */
module WakeStatus {
  import opened Prelude
  import opened Jobs
  import opened WakeProtocol

  /** The thread has won the cell, or is the task that was spawned for it, and still has to store READY or DORMANT. */
  predicate Owes(pc: Pc, c: nat) {
    && CellOf(pc) == Some(c)
    && (pc.WinnerSubscribe? || pc.Spawn? || pc.Acquire? || pc.CallScaleUp? || pc.Scaling? || pc.Health?
        || pc.TaskInsert? || pc.TaskSetReady? || pc.TaskSetDormant?)
  }

  ghost predicate SomeoneOwes(w: World, c: nat) {
    exists i :: 0 <= i < |w.threads| && Owes(w.threads[i].pc, c)
  }

  ghost predicate WakingIsOwed(w: World) {
    forall c: nat {:trigger SomeoneOwes(w, c)} :: c < |w.cells| && w.cells[c].status == Waking ==> SomeoneOwes(w, c)
  }

  /** A move makes a cell waking only by winning it, and stops owing only by storing or by spawning the task that owes. */
  ghost predicate SettlesMove(pc: Pc, m: Move) {
    && (m.effect.StoreStatus? && m.effect.status == Waking ==> Owes(m.pc, m.effect.cell))
    && (CellOf(pc).Some? && Owes(pc, CellOf(pc).value) ==>
          var c := CellOf(pc).value;
          || Owes(m.pc, c)
          || m.effect == SpawnTask(c)
          || (m.effect.StoreStatus? && m.effect.cell == c && m.effect.status != Waking))
  }

  lemma RequestSettles(w: World, i: nat, answer: Answer)
    requires Wf(w) && i < |w.threads|
    requires TaskCell(w.threads[i].pc).None? && !IsControl(w.threads[i].pc)
    ensures SettlesMove(w.threads[i].pc, RequestMove(w, i, answer))
  {
    var pc := w.threads[i].pc;
    assert ThreadWf(w.cells, w.threads[i]);
    if pc.Await? {
      AwaitMoveSettles(w.cells[pc.cell].sent, pc, answer);
    } else if pc.Fetch? {
      FetchMoveSettles(w.threads[i].reg.jobId, pc, answer);
    }
  }

  lemma AwaitMoveSettles(sent: seq<WakeResult>, pc: Pc, answer: Answer)
    requires pc.Await?
    ensures SettlesMove(pc, AwaitMove(sent, pc, answer))
  {
  }

  lemma FetchMoveSettles(job: string, pc: Pc, answer: Answer)
    requires pc.Fetch?
    ensures SettlesMove(pc, FetchMove(job, answer))
  {
  }

  lemma HealthSettles(w: World, i: nat, answer: Answer)
    requires i < |w.threads| && w.threads[i].pc.Health?
    ensures SettlesMove(w.threads[i].pc, HealthMove(w, i, answer))
  {
  }

  lemma ScalingSettles(pc: Pc, answer: Answer)
    requires pc.Scaling?
    ensures SettlesMove(pc, ScalingMove(pc.cell, answer))
  {
  }

  lemma TaskSettles(w: World, i: nat, answer: Answer)
    requires Wf(w) && i < |w.threads| && TaskCell(w.threads[i].pc).Some?
    ensures SettlesMove(w.threads[i].pc, TaskMove(w, i, answer))
  {
    var pc := w.threads[i].pc;
    assert ThreadWf(w.cells, w.threads[i]);
    if pc.Health? {
      HealthSettles(w, i, answer);
    } else if pc.Scaling? {
      ScalingSettles(pc, answer);
    }
  }

  lemma ControlSettles(w: World, i: nat, answer: Answer)
    requires Wf(w) && i < |w.threads| && IsControl(w.threads[i].pc)
    ensures SettlesMove(w.threads[i].pc, ControlMove(w, i, answer))
  {
  }

  lemma DecideSettles(w: World, i: nat, answer: Answer)
    requires Wf(w) && i < |w.threads|
    ensures SettlesMove(w.threads[i].pc, Decide(w, i, answer))
  {
    if TaskCell(w.threads[i].pc).Some? {
      TaskSettles(w, i, answer);
    } else if IsControl(w.threads[i].pc) {
      ControlSettles(w, i, answer);
    } else {
      RequestSettles(w, i, answer);
    }
  }

  lemma ApplyOwed(w: World, i: nat, m: Move, c: nat)
    requires i < |w.threads| && SettlesMove(w.threads[i].pc, m) && WakingIsOwed(w)
    requires c < |Apply(w, i, m).cells| && Apply(w, i, m).cells[c].status == Waking
    ensures SomeoneOwes(Apply(w, i, m), c)
  {
    var w' := Apply(w, i, m);
    if m.effect.StoreStatus? && m.effect.cell == c {
      assert Owes(w'.threads[i].pc, c);
    } else {
      assert c < |w.cells| && w.cells[c].status == Waking;
      assert SomeoneOwes(w, c);
      var k :| 0 <= k < |w.threads| && Owes(w.threads[k].pc, c);
      if k == i && m.effect == SpawnTask(c) {
        assert Owes(w'.threads[|w.threads|].pc, c);
      } else {
        assert Owes(w'.threads[k].pc, c);
      }
    }
  }

  lemma NextOwed(w: World, a: Action)
    requires Wf(w) && WakingIsOwed(w)
    ensures WakingIsOwed(Next(w, a))
  {
    var w' := Next(w, a);
    forall c: nat | c < |w'.cells| && w'.cells[c].status == Waking ensures SomeoneOwes(w', c) {
      match a
      case Start(_, _) =>
        assert SomeoneOwes(w, c);
        var k :| 0 <= k < |w.threads| && Owes(w.threads[k].pc, c);
        assert Owes(w'.threads[k].pc, c);
      case Step(i, answer) =>
        if i < |w.threads| {
          DecideSettles(w, i, answer);
          ApplyOwed(w, i, Decide(w, i, answer), c);
        }
    }
  }

  /** In every interleaving, a WAKING cell has a thread that won it and still has to store READY or DORMANT. */
  lemma {:induction false} WakingIsOwedRun(concurrency: nat, schedule: seq<Action>)
    ensures WakingIsOwed(Run(Initial(concurrency), schedule))
  {
    if schedule != [] {
      WakingIsOwedRun(concurrency, schedule[..|schedule| - 1]);
      NextOwed(Run(Initial(concurrency), schedule[..|schedule| - 1]), schedule[|schedule| - 1]);
    }
  }

  /**
   No job is left waking: once no wake of a cell is under way its status is READY or DORMANT, so a request that
   looks at it then does not wait for a wake that is over.
   */
  lemma NotLeftWaking(concurrency: nat, schedule: seq<Action>, c: nat, i: nat)
    requires var w := Run(Initial(concurrency), schedule);
             c < |w.cells| && !SomeoneOwes(w, c) && i < |w.threads| && w.threads[i].pc == Load(c)
    ensures var w := Run(Initial(concurrency), schedule);
            && w.cells[c].status != Waking
            && !Next(w, Step(i, Proceed)).threads[i].pc.Subscribe?
  {
    WakingIsOwedRun(concurrency, schedule);
    var w := Run(Initial(concurrency), schedule);
    assert Decide(w, i, Proceed) == RequestMove(w, i, Proceed);
  }

  // ---------------------------------------------------------------------------------------------
  // What a failed wake leaves

  lemma OthersStayPut(w: World, a: Action, k: nat)
    requires Wf(w) && k < |w.threads| && !(a.Step? && a.tid == k)
    ensures k < |Next(w, a).threads| && Next(w, a).threads[k] == w.threads[k]
  {
  }

  predicate Failing(pc: Pc) {
    pc.TaskSetDormant? || pc.TaskSendFailure? || pc.TaskRemove?
  }

  lemma FailingMove(w: World, k: nat, answer: Answer)
    requires Wf(w) && k < |w.threads| && Failing(w.threads[k].pc)
    ensures var w' := Next(w, Step(k, answer)); var job := w.threads[k].reg.jobId;
            && k < |w'.threads| && w'.threads[k].reg == w.threads[k].reg
            && (Failing(w'.threads[k].pc) || w'.threads[k].pc.TaskDone?)
            && (w'.threads[k].pc.TaskDone? ==>
                  job !in w'.jobs && (job in w.jobs ==> w'.log[KeyRemoved(job)] == w.log[KeyRemoved(job)] + 1))
  {
    assert Decide(w, k, answer) == TaskMove(w, k, answer);
  }

  /** The m-th action of the schedule is the removal by task k: the key is gone, and its removal is in the history. */
  ghost predicate RemovedAt(w: World, schedule: seq<Action>, k: nat, job: string, m: nat)
    requires Wf(w) && 0 < m <= |schedule|
  {
    var before, after := Run(w, schedule[..m - 1]), Run(w, schedule[..m]);
    && schedule[m - 1].Step? && schedule[m - 1].tid == k
    && job !in after.jobs
    && (job in before.jobs ==> after.log[KeyRemoved(job)] == before.log[KeyRemoved(job)] + 1)
  }

  ghost predicate FailingOrRemoved(w: World, schedule: seq<Action>, k: nat)
    requires Wf(w) && k < |w.threads|
  {
    var w', job := Run(w, schedule), w.threads[k].reg.jobId;
    && k < |w'.threads| && w'.threads[k].reg == w.threads[k].reg
    && (Failing(w'.threads[k].pc) ||
        (w'.threads[k].pc.TaskDone? && exists m: nat :: 0 < m <= |schedule| && RemovedAt(w, schedule, k, job, m)))
  }

  lemma RemovedStays(w: World, schedule: seq<Action>, k: nat, job: string, m: nat)
    requires Wf(w) && schedule != [] && 0 < m <= |schedule| - 1 && RemovedAt(w, schedule[..|schedule| - 1], k, job, m)
    ensures RemovedAt(w, schedule, k, job, m)
  {
    var before := schedule[..|schedule| - 1];
    assert before[..m] == schedule[..m] && before[..m - 1] == schedule[..m - 1];
  }

  lemma DoneIsDone(w: World, a: Action, k: nat)
    requires Wf(w) && k < |w.threads| && w.threads[k].pc.TaskDone?
    ensures k < |Next(w, a).threads| && Next(w, a).threads[k] == w.threads[k]
  {
    if a.Step? && a.tid == k {
      assert Decide(w, k, a.answer) == TaskMove(w, k, a.answer);
    }
  }

  /**
   A wake that fails, for whatever reason, clears the way for the next: by the time its task has ended it has
   removed the key of its job.
   */
  lemma {:induction false} FailedWakeRemovesKey(w: World, schedule: seq<Action>, k: nat)
    requires Wf(w) && k < |w.threads| && Failing(w.threads[k].pc)
    ensures FailingOrRemoved(w, schedule, k)
  {
    if schedule != [] {
      var s, a, n := schedule[..|schedule| - 1], schedule[|schedule| - 1], |schedule|;
      var before, job := Run(w, s), w.threads[k].reg.jobId;
      FailedWakeRemovesKey(w, s, k);
      if before.threads[k].pc.TaskDone? {
        var m: nat :| 0 < m <= |s| && RemovedAt(w, s, k, job, m);
        RemovedStays(w, schedule, k, job, m);
        DoneIsDone(before, a, k);
      } else if a.Step? && a.tid == k {
        FailingMove(before, k, a.answer);
        assert schedule[..n] == schedule;
        assert Run(w, schedule).threads[k].pc.TaskDone? ==> RemovedAt(w, schedule, k, job, n);
      } else {
        OthersStayPut(before, a, k);
      }
    }
  }

  // ---------------------------------------------------------------------------------------------
  // What a caller is told

  /** The message a task has settled on. */
  function Verdict(pc: Pc): Option<WakeResult> {
    match pc
    case TaskInsert(_, ep) => Some(WakeReady(ep))
    case TaskSetReady(_, ep) => Some(WakeReady(ep))
    case TaskSendReady(_, ep) => Some(WakeReady(ep))
    case TaskSetDormant(_, failure) => Some(failure)
    case TaskSendFailure(_, failure) => Some(failure)
    case _ => None
  }

  /** Messages are only ever appended. */
  ghost predicate OnlyAppended(w: World, w': World) {
    && |w.cells| <= |w'.cells| && |w.threads| <= |w'.threads|
    && (forall c :: 0 <= c < |w.cells| ==> w.cells[c].sent <= w'.cells[c].sent)
  }

  /** Task k has yet to send v on channel c, or has sent it where it says. */
  ghost predicate WillSend(w: World, k: nat, c: nat, v: WakeResult) {
    && k < |w.threads| && TaskCell(w.threads[k].pc) == Some(c)
    && (Verdict(w.threads[k].pc) == Some(v) ||
        (SentAt(w.threads[k].pc).Some? && c < |w.cells| && SentAt(w.threads[k].pc).value < |w.cells[c].sent|
         && w.cells[c].sent[SentAt(w.threads[k].pc).value] == v))
  }

  lemma NextAppended(w: World, a: Action)
    requires Wf(w)
    ensures OnlyAppended(w, Next(w, a))
  {
  }

  /** Before it sends, a task with a verdict keeps it; afterwards it keeps where it has sent. */
  lemma VerdictMove(w: World, k: nat, answer: Answer)
    requires Wf(w) && k < |w.threads| && TaskCell(w.threads[k].pc).Some?
    requires Verdict(w.threads[k].pc).Some? || SentAt(w.threads[k].pc).Some?
    ensures var pc, m := w.threads[k].pc, TaskMove(w, k, answer);
            && TaskCell(m.pc) == TaskCell(pc)
            && (if pc.TaskSendReady? || pc.TaskSendFailure? then
                  pc.cell < |w.cells| && m.effect == Broadcast(pc.cell, Verdict(pc).value) && SentAt(m.pc) == Some(|w.cells[pc.cell].sent|)
                else Verdict(m.pc) == Verdict(pc) && SentAt(m.pc) == SentAt(pc) && !m.effect.Broadcast?)
  {
    assert ThreadWf(w.cells, w.threads[k]);
  }

  lemma OwnWillSend(w: World, answer: Answer, k: nat, c: nat, v: WakeResult)
    requires Wf(w) && WillSend(w, k, c, v)
    ensures WillSend(Next(w, Step(k, answer)), k, c, v)
  {
    VerdictMove(w, k, answer);
    ApplyWillSend(w, k, TaskMove(w, k, answer), c, v);
    assert Decide(w, k, answer) == TaskMove(w, k, answer);
  }

  lemma ApplyWillSend(w: World, k: nat, m: Move, c: nat, v: WakeResult)
    requires WillSend(w, k, c, v) && TaskCell(m.pc) == TaskCell(w.threads[k].pc)
    requires var pc := w.threads[k].pc;
             if pc.TaskSendReady? || pc.TaskSendFailure? then
               c < |w.cells| && m.effect == Broadcast(c, Verdict(pc).value) && SentAt(m.pc) == Some(|w.cells[c].sent|)
             else Verdict(m.pc) == Verdict(pc) && SentAt(m.pc) == SentAt(pc) && !m.effect.Broadcast?
    ensures WillSend(Apply(w, k, m), k, c, v)
  {
  }

  lemma NextWillSend(w: World, a: Action, k: nat, c: nat, v: WakeResult)
    requires Wf(w) && WillSend(w, k, c, v)
    ensures WillSend(Next(w, a), k, c, v)
  {
    if a.Step? && a.tid == k {
      OwnWillSend(w, a.answer, k, c, v);
    } else {
      NextAppended(w, a);
      OthersStayPut(w, a, k);
    }
  }

  lemma {:induction false} RunWillSend(w: World, schedule: seq<Action>, k: nat, c: nat, v: WakeResult)
    requires Wf(w) && WillSend(w, k, c, v)
    ensures WillSend(Run(w, schedule), k, c, v)
  {
    if schedule != [] {
      RunWillSend(w, schedule[..|schedule| - 1], k, c, v);
      NextWillSend(Run(w, schedule[..|schedule| - 1]), schedule[|schedule| - 1], k, c, v);
    }
  }

  /** What a caller makes of a message. */
  predicate Tells(m: WakeResult, res: Result<Endpoint, WakeError>) {
    match m
    case WakeReady(ep) => res == Ok(ep)
    case WakeNotFound(job) => res == Err(NotFound(job))
    case WakeFailed(message) => res == Err(NomadError(message))
    case WakeCancelled => res == Err(Abandoned)
  }

  /**
   A waiter still waits, has been dropped, or has returned: with a timeout if it may have timed out, with the error
   of a channel that is more than 16 messages ahead, or with what the message at its position tells.
   */
  ghost predicate Fate(w: World, i: nat, c: nat, pos: nat, mayTimeOut: bool) {
    && i < |w.threads| && c < |w.cells|
    && (match w.threads[i].pc
        case Await(cell, at, _) => cell == c && at == pos
        case Dropped => true
        case Returned(res) =>
          || (res == Err(TimedOut) && mayTimeOut)
          || (res == Err(ChannelError) && |w.cells[c].sent| > pos + 16)
          || (pos < |w.cells[c].sent| && Tells(w.cells[c].sent[pos], res))
        case _ => false)
  }

  lemma OwnFate(w: World, answer: Answer, i: nat, c: nat, pos: nat, mayTimeOut: bool)
    requires Wf(w) && Fate(w, i, c, pos, mayTimeOut)
    ensures Fate(Next(w, Step(i, answer)), i, c, pos, mayTimeOut || answer == Timeout)
  {
    assert Decide(w, i, answer) == RequestMove(w, i, answer);
  }

  lemma NextFate(w: World, a: Action, i: nat, c: nat, pos: nat, mayTimeOut: bool)
    requires Wf(w) && Fate(w, i, c, pos, mayTimeOut)
    ensures Fate(Next(w, a), i, c, pos, mayTimeOut || a == Step(i, Timeout))
  {
    if a.Step? && a.tid == i {
      OwnFate(w, a.answer, i, c, pos, mayTimeOut);
    } else {
      NextAppended(w, a);
      OthersStayPut(w, a, i);
    }
  }

  /** The timeout of thread i fires in the schedule. */
  predicate Fires(schedule: seq<Action>, i: nat) {
    schedule != [] && (schedule[|schedule| - 1] == Step(i, Timeout) || Fires(schedule[..|schedule| - 1], i))
  }

  lemma {:induction false} RunFate(w: World, schedule: seq<Action>, i: nat, c: nat, pos: nat)
    requires Wf(w) && Fate(w, i, c, pos, false)
    ensures Fate(Run(w, schedule), i, c, pos, Fires(schedule, i))
  {
    if schedule != [] {
      var before, a := schedule[..|schedule| - 1], schedule[|schedule| - 1];
      RunFate(w, before, i, c, pos);
      NextFate(Run(w, before), a, i, c, pos, Fires(before, i));
    }
  }

  ghost predicate LeftBehind(w: World, c: nat, pos: nat) {
    c < |w.cells| && |w.cells[c].sent| > pos + 16
  }

  /** What a caller is to be told of an answer of Nomad or Consul that ends a wake. */
  predicate Reports(answer: Answer, res: Result<Endpoint, WakeError>) {
    match answer
    case JobMissing(job) => res == Err(NotFound(job))
    case Failure(message) => res == Err(NomadError(message))
    case Healthy(ep) => res == Ok(ep)
    case _ => false
  }

  /** Nomad answers `scale_up`, or Consul the wait for health, in a way that ends the wake. */
  predicate Ends(pc: Pc, answer: Answer) {
    (pc.Scaling? && (answer.JobMissing? || answer.Failure?)) ||
    (pc.Health? && (answer.JobMissing? || answer.Failure? || answer.Healthy?))
  }

  lemma AnswerSettled(w: World, k: nat, answer: Answer) returns (v: WakeResult)
    requires Wf(w) && k < |w.threads| && Ends(w.threads[k].pc, answer)
    ensures WillSend(Next(w, Step(k, answer)), k, w.threads[k].pc.cell, v)
    ensures forall res :: Tells(v, res) ==> Reports(answer, res)
  {
    assert Decide(w, k, answer) == TaskMove(w, k, answer);
    v := Verdict(Next(w, Step(k, answer)).threads[k].pc).value;
  }

  /**
   The answer reaches the caller: whoever waits on a channel when Nomad or Consul ends the wake, and returns with
   the message of that wake, returns what was answered: "job missing" as `NotFound` of that job, a failure as the
   failure, an endpoint as the endpoint.  Otherwise its timeout has fired or the channel has left it behind.
   */
  lemma AnswerReachesCaller(w: World, i: nat, k: nat, answer: Answer, later: seq<Action>)
    requires Wf(w) && i < |w.threads| && w.threads[i].pc.Await? && k < |w.threads| && Ends(w.threads[k].pc, answer)
    requires w.threads[k].pc.cell == w.threads[i].pc.cell
    requires var w' := Run(w, [Step(k, answer)] + later);
             && i < |w'.threads| && w'.threads[i].pc.Returned?
             && k < |w'.threads| && SentAt(w'.threads[k].pc) == Some(w.threads[i].pc.pos)
    ensures var w' := Run(w, [Step(k, answer)] + later); var res := w'.threads[i].pc.res;
            || Reports(answer, res)
            || (res == Err(TimedOut) && Fires([Step(k, answer)] + later, i))
            || (res == Err(ChannelError) && LeftBehind(w', w.threads[i].pc.cell, w.threads[i].pc.pos))
  {
    var c, pos := w.threads[i].pc.cell, w.threads[i].pc.pos;
    assert ThreadWf(w.cells, w.threads[i]);
    var v := AnswerSettled(w, k, answer);
    RunFate(w, [Step(k, answer)] + later, i, c, pos);
    RunOne(w, Step(k, answer));
    RunConcat(w, [Step(k, answer)], later);
    RunWillSend(Run(w, [Step(k, answer)]), later, k, c, v);
  }

  /** A request for a job with a cached endpoint is served from the cache at once, and touches nothing. */
  lemma CachedIsServed(w: World, i: nat)
    requires Wf(w) && i < |w.threads| && w.threads[i].pc.FastPath? && w.threads[i].reg.jobId in w.endpoints
    ensures Run(w, [Step(i, Proceed)]) ==
              w.(threads := w.threads[i := w.threads[i].(pc := Returned(Ok(w.endpoints[w.threads[i].reg.jobId])))])
  {
    RunOne(w, Step(i, Proceed));
    assert Decide(w, i, Proceed) == RequestMove(w, i, Proceed);
  }

  /** What a caller is told that had to ask Nomad for the endpoint of a READY job. */
  predicate FetchTells(answer: Answer, res: Result<Endpoint, WakeError>) {
    match answer
    case NoEndpoint => res == Err(NotReady)
    case JobMissing(job) => res == Err(NotFound(job))
    case Failure(message) => res == Err(NomadError(message))
    case _ => false
  }

  /** A READY job without a cached endpoint: Nomad's error goes to the caller, its endpoint to the cache and the caller. */
  lemma FetchReaches(w: World, i: nat, answer: Answer)
    requires Wf(w) && i < |w.threads| && w.threads[i].pc.Fetch?
    ensures answer.NoEndpoint? || answer.JobMissing? || answer.Failure? ==>
              var w' := Run(w, [Step(i, answer)]);
              i < |w'.threads| && w'.threads[i].pc.Returned? && FetchTells(answer, w'.threads[i].pc.res) && w'.endpoints == w.endpoints
    ensures answer.Healthy? ==>
              var w' := Run(w, [Step(i, answer)] + [Step(i, Proceed)]);
              && i < |w'.threads| && w'.threads[i].pc == Returned(Ok(answer.ep))
              && w'.endpoints == w.endpoints[w.threads[i].reg.jobId := answer.ep]
  {
    RunOne(w, Step(i, answer));
    assert Decide(w, i, answer) == RequestMove(w, i, answer) == FetchMove(w.threads[i].reg.jobId, answer);
    if answer.Healthy? {
      var w1 := Run(w, [Step(i, answer)]);
      RunSnoc(w, [Step(i, answer)], Step(i, Proceed));
      assert Decide(w1, i, Proceed) == RequestMove(w1, i, Proceed);
    }
  }

  /**
   What the next receive of a waiter brings: nothing while no message is there for it, the error of a channel that
   keeps 16 messages when it is further behind, and otherwise what the message at its position tells.
   */
  lemma ReceivesExactly(w: World, i: nat)
    requires Wf(w) && i < |w.threads| && w.threads[i].pc.Await?
    ensures var c, pos := w.threads[i].pc.cell, w.threads[i].pc.pos; var w' := Run(w, [Step(i, Proceed)]);
            && c < |w.cells| && i < |w'.threads|
            && (|w.cells[c].sent| <= pos ==> w'.threads[i] == w.threads[i])
            && (|w.cells[c].sent| > pos ==> w'.threads[i].pc.Returned?)
            && (pos < |w.cells[c].sent| <= pos + 16 ==> Tells(w.cells[c].sent[pos], w'.threads[i].pc.res))
            && (|w.cells[c].sent| > pos + 16 ==> w'.threads[i].pc.res == Err(ChannelError))
  {
    assert ThreadWf(w.cells, w.threads[i]);
    RunOne(w, Step(i, Proceed));
    assert Decide(w, i, Proceed) == RequestMove(w, i, Proceed);
  }

  /** A caller whose timeout fires returns with the timeout and touches nothing else. */
  lemma TimeoutReturns(w: World, i: nat)
    requires Wf(w) && i < |w.threads| && w.threads[i].pc.Await?
    ensures Run(w, [Step(i, Timeout)]) == w.(threads := w.threads[i := w.threads[i].(pc := Returned(Err(TimedOut)))])
  {
    RunOne(w, Step(i, Timeout));
    assert Decide(w, i, Timeout) == RequestMove(w, i, Timeout);
  }

  /** A step of a request that only moves on. */
  lemma MovesOn(w: World, i: nat, pc: Pc)
    requires Wf(w) && i < |w.threads| && TaskCell(w.threads[i].pc).None? && !IsControl(w.threads[i].pc)
    requires RequestMove(w, i, Proceed) == Goto(pc)
    ensures Wf(Next(w, Step(i, Proceed)))
    ensures Next(w, Step(i, Proceed)) == w.(threads := w.threads[i := w.threads[i].(pc := pc)])
  {
    NextWf(w, Step(i, Proceed));
    assert Decide(w, i, Proceed) == RequestMove(w, i, Proceed);
  }

  /** One more step of a request that only moves on. */
  lemma OneOn(w: World, s: seq<Action>, w1: World, i: nat, pc: Pc) returns (w2: World)
    requires Wf(w) && Run(w, s) == w1
    requires i < |w1.threads| && TaskCell(w1.threads[i].pc).None? && !IsControl(w1.threads[i].pc)
    requires Wf(w1) && RequestMove(w1, i, Proceed) == Goto(pc)
    ensures w2 == w1.(threads := w1.threads[i := w1.threads[i].(pc := pc)])
    ensures Wf(w2) && Run(w, s + [Step(i, Proceed)]) == w2
  {
    MovesOn(w1, i, pc);
    RunSnoc(w, s, Step(i, Proceed));
    w2 := Next(w1, Step(i, Proceed));
  }

  /** A caller that lost the race for a wake which has ended meanwhile does not wait: four steps on it has what is cached. */
  lemma LateLoserIsServed(w: World, i: nat)
    requires Wf(w) && i < |w.threads| && w.threads[i].pc.TryCas?
    requires var job := w.threads[i].reg.jobId;
             && job in w.endpoints && job in w.jobs && w.cells[w.jobs[job]].status == Ready
             && w.cells[w.threads[i].pc.cell].status == Ready
    ensures var a := Step(i, Proceed);
            Run(w, [] + [a] + [a] + [a] + [a]) ==
              w.(threads := w.threads[i := w.threads[i].(pc := Returned(Ok(w.endpoints[w.threads[i].reg.jobId])))])
  {
    var job, a := w.threads[i].reg.jobId, Step(i, Proceed);
    var w1 := OneOn(w, [], w, i, Enter);
    var w2 := OneOn(w, [] + [a], w1, i, Load(w.jobs[job]));
    var w3 := OneOn(w, [] + [a] + [a], w2, i, ReadyCheck);
    var w4 := OneOn(w, [] + [a] + [a] + [a], w3, i, Returned(Ok(w.endpoints[job])));
  }

  /** The schedule holds no step of thread k. */
  ghost predicate Rests(schedule: seq<Action>, k: nat) {
    forall m :: 0 <= m < |schedule| ==> !(schedule[m].Step? && schedule[m].tid == k)
  }

  lemma {:induction false} RestsRun(w: World, schedule: seq<Action>, k: nat)
    requires Wf(w) && k < |w.threads| && Rests(schedule, k)
    ensures k < |Run(w, schedule).threads| && Run(w, schedule).threads[k] == w.threads[k]
  {
    if schedule != [] {
      var before, a := schedule[..|schedule| - 1], schedule[|schedule| - 1];
      RestsRun(w, before, k);
      OthersStayPut(Run(w, before), a, k);
    }
  }

  lemma LookAtReceiver(w: World, k: nat)
    requires Wf(w) && k < |w.threads| && w.threads[k].pc.Health? && Count(w.threads, IsReceiver(w.threads[k].pc.cell)) > 0
    ensures k < |Next(w, Step(k, Proceed)).threads|
    ensures Next(w, Step(k, Proceed)).threads[k].pc == Health(w.threads[k].pc.cell, false)
  {
    assert Decide(w, k, Proceed) == TaskMove(w, k, Proceed) == HealthMove(w, k, Proceed);
  }

  lemma FreshLookGoesOn(w: World, k: nat)
    requires Wf(w) && k < |w.threads| && w.threads[k].pc.Health? && !w.threads[k].pc.zeroSeen
    ensures k < |Next(w, Step(k, Proceed)).threads| && Next(w, Step(k, Proceed)).threads[k].pc.Health?
  {
    assert Decide(w, k, Proceed) == TaskMove(w, k, Proceed) == HealthMove(w, k, Proceed);
  }

  /** A look that sees a receiver forgets an earlier one that saw none: the next look, whatever happens before it, cancels nothing. */
  lemma EmptyLookForgotten(w: World, k: nat, between: seq<Action>)
    requires Wf(w) && k < |w.threads| && w.threads[k].pc.Health? && Count(w.threads, IsReceiver(w.threads[k].pc.cell)) > 0
    requires Rests(between, k)
    ensures var w' := Run(w, [Step(k, Proceed)] + between + [Step(k, Proceed)]);
            k < |w'.threads| && w'.threads[k].pc.Health?
  {
    LookAtReceiver(w, k);
    NextWf(w, Step(k, Proceed));
    RunOne(w, Step(k, Proceed));
    RunConcat(w, [Step(k, Proceed)], between);
    RestsRun(Next(w, Step(k, Proceed)), between, k);
    RunSnoc(w, [Step(k, Proceed)] + between, Step(k, Proceed));
    FreshLookGoesOn(Run(w, [Step(k, Proceed)] + between), k);
  }

  lemma LookTwice(w: World, k: nat)
    requires Wf(w) && k < |w.threads| && w.threads[k].pc.Health? && !w.threads[k].pc.zeroSeen
    ensures var c := w.threads[k].pc.cell; var w1 := Next(w, Step(k, Proceed));
            && Wf(w1) && k < |w1.threads|
            && w1.threads == w.threads[k := w.threads[k].(pc := Health(c, Count(w.threads, IsReceiver(c)) == 0))]
  {
    NextWf(w, Step(k, Proceed));
    assert Decide(w, k, Proceed) == TaskMove(w, k, Proceed) == HealthMove(w, k, Proceed);
  }

  /** Two looks of the abandonment poller in a row, with nothing in between, cancel the wake exactly if nobody waits for it. */
  lemma TwoLooksCancel(w: World, k: nat)
    requires Wf(w) && k < |w.threads| && w.threads[k].pc.Health? && !w.threads[k].pc.zeroSeen
    ensures var c := w.threads[k].pc.cell; var w' := Run(w, [Step(k, Proceed)] + [Step(k, Proceed)]);
            && k < |w'.threads|
            && (w'.threads[k].pc == TaskSetDormant(c, WakeCancelled) <==> Count(w.threads, IsReceiver(c)) == 0)
  {
    var c := w.threads[k].pc.cell;
    var w1 := Next(w, Step(k, Proceed));
    LookTwice(w, k);
    CountUpdate(w.threads, k, w1.threads[k], IsReceiver(c));
    RunOne(w, Step(k, Proceed));
    RunSnoc(w, [Step(k, Proceed)], Step(k, Proceed));
    assert Decide(w1, k, Proceed) == TaskMove(w1, k, Proceed) == HealthMove(w1, k, Proceed);
  }
}
