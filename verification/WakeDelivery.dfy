/** Every wake task answers its waiters: one broadcast each, and no subscribed waiter misses it. */
module WakeDelivery {
  import opened Prelude
  import opened WakeProtocol

  /** Task k has broadcast as message p of channel c. */
  ghost predicate Sender(w: World, k: nat, c: nat, p: nat) {
    k < |w.threads| && TaskCell(w.threads[k].pc) == Some(c) && SentAt(w.threads[k].pc) == Some(p)
  }

  ghost predicate HasSender(w: World, c: nat, p: nat) {
    exists k :: Sender(w, k, c, p)
  }

  /** Every message of every channel comes from a wake task. */
  ghost predicate Sent(w: World) {
    forall c: nat, p: nat {:trigger HasSender(w, c, p)} ::
      c < |w.cells| && p < |w.cells[c].sent| ==> HasSender(w, c, p)
  }

  ghost predicate PositionsOk(cells: seq<Cell>, t: Thread) {
    && (ReceiverPos(t.pc).Some? ==>
          CellOf(t.pc).value < |cells| && ReceiverPos(t.pc).value <= |cells[CellOf(t.pc).value].sent|)
    && (SentAt(t.pc).Some? ==>
          TaskCell(t.pc).value < |cells| && SentAt(t.pc).value < |cells[TaskCell(t.pc).value].sent|)
  }

  /** A winner waits on the channel of its own task, from a position the task has not gone past. */
  ghost predicate WinnerOk(threads: seq<Thread>, t: Thread) {
    t.pc.Await? && t.pc.task.Some? ==>
      var k := t.pc.task.value;
      && k < |threads| && TaskCell(threads[k].pc) == Some(t.pc.cell)
      && (SentAt(threads[k].pc).Some? ==> t.pc.pos <= SentAt(threads[k].pc).value)
  }

  ghost predicate Delivering(w: World) {
    && (forall i :: 0 <= i < |w.threads| ==> PositionsOk(w.cells, w.threads[i]))
    && (forall i :: 0 <= i < |w.threads| ==> WinnerOk(w.threads, w.threads[i]))
    && Sent(w)
  }

  ghost predicate BroadcastsCounted(w: World) {
    && (forall k :: 0 <= k < |w.threads| ==> w.log[BroadcastBy(k)] == One(SentAt(w.threads[k].pc).Some?))
    && (forall k :: |w.threads| <= k ==> w.log[BroadcastBy(k)] == 0)
  }

  ghost predicate DeliveryMove(w: World, i: nat, m: Move)
    requires i < |w.threads|
  {
    var pc, pc' := w.threads[i].pc, m.pc;
    // receivers subscribe at the end of the channel and stay where they subscribed
    && (ReceiverPos(pc').Some? ==>
          && CellOf(pc') == CellOf(pc)
          && (if ReceiverPos(pc).Some? then ReceiverPos(pc') == ReceiverPos(pc)
              else CellOf(pc).value < |w.cells| && ReceiverPos(pc').value == |w.cells[CellOf(pc).value].sent|))
    && (pc'.Await? && pc'.task.Some? ==>
          pc' == pc || (m.effect == SpawnTask(pc'.cell) && pc'.task.value == |w.threads|))
    // a wake task keeps its channel and broadcasts at its end
    && TaskCell(pc') == TaskCell(pc)
    && (m.effect.Broadcast? ==>
          && TaskCell(pc) == Some(m.effect.cell) && SentAt(pc).None? && m.effect.cell < |w.cells|
          && SentAt(pc') == Some(|w.cells[m.effect.cell].sent|) && m.event == Some(BroadcastBy(i)))
    && (!m.effect.Broadcast? ==>
          SentAt(pc') == SentAt(pc) && !(m.event.Some? && m.event.value.BroadcastBy?))
  }

  /** A move between places that neither wait nor wake. */
  lemma PlainDelivery(w: World, i: nat, m: Move)
    requires i < |w.threads| && !m.effect.Broadcast? && !(m.event.Some? && m.event.value.BroadcastBy?)
    requires ReceiverPos(m.pc).None? && TaskCell(m.pc).None? && TaskCell(w.threads[i].pc).None?
    ensures DeliveryMove(w, i, m)
  {
  }

  lemma AwaitDelivery(w: World, i: nat, sent: seq<WakeResult>, answer: Answer)
    requires i < |w.threads| && w.threads[i].pc.Await?
    ensures DeliveryMove(w, i, AwaitMove(sent, w.threads[i].pc, answer))
  {
  }

  lemma RequestDelivery(w: World, i: nat, answer: Answer)
    requires Wf(w) && i < |w.threads|
    requires TaskCell(w.threads[i].pc).None? && !IsControl(w.threads[i].pc)
    ensures DeliveryMove(w, i, RequestMove(w, i, answer))
  {
    var t := w.threads[i];
    assert ThreadWf(w.cells, t);
    if t.pc.Await? {
      AwaitDelivery(w, i, w.cells[t.pc.cell].sent, answer);
    } else if !(t.pc.Subscribe? || t.pc.WinnerSubscribe? || t.pc.Spawn?) {
      PlainDelivery(w, i, RequestMove(w, i, answer));
    }
  }

  lemma HealthDelivery(w: World, i: nat, answer: Answer)
    requires i < |w.threads| && w.threads[i].pc.Health?
    ensures DeliveryMove(w, i, HealthMove(w, i, answer))
  {
  }

  lemma ScalingDelivery(w: World, i: nat, answer: Answer)
    requires i < |w.threads| && w.threads[i].pc.Scaling?
    ensures DeliveryMove(w, i, ScalingMove(w.threads[i].pc.cell, answer))
  {
  }

  lemma TaskDelivery(w: World, i: nat, answer: Answer)
    requires Wf(w) && i < |w.threads|
    requires TaskCell(w.threads[i].pc).Some?
    ensures DeliveryMove(w, i, TaskMove(w, i, answer))
  {
    assert ThreadWf(w.cells, w.threads[i]);
    if w.threads[i].pc.Health? {
      HealthDelivery(w, i, answer);
    } else if w.threads[i].pc.Scaling? {
      ScalingDelivery(w, i, answer);
    }
  }

  lemma RefreshDelivery(w: World, i: nat, answer: Answer)
    requires i < |w.threads| && w.threads[i].pc.Refresh?
    ensures DeliveryMove(w, i, RefreshMove(w.threads[i].reg.jobId, answer))
  {
  }

  lemma ControlDelivery(w: World, i: nat, answer: Answer)
    requires Wf(w) && i < |w.threads|
    requires IsControl(w.threads[i].pc)
    ensures DeliveryMove(w, i, ControlMove(w, i, answer))
  {
    if w.threads[i].pc.Refresh? {
      RefreshDelivery(w, i, answer);
    } else {
      PlainDelivery(w, i, ControlMove(w, i, answer));
    }
  }

  lemma DecideDelivery(w: World, i: nat, answer: Answer)
    requires Wf(w) && i < |w.threads|
    ensures DeliveryMove(w, i, Decide(w, i, answer))
  {
    if TaskCell(w.threads[i].pc).Some? {
      TaskDelivery(w, i, answer);
    } else if IsControl(w.threads[i].pc) {
      ControlDelivery(w, i, answer);
    } else {
      RequestDelivery(w, i, answer);
    }
  }

  /** Channels only grow, and a broadcast lets its own channel grow by one. */
  lemma ChannelsGrow(cells: seq<Cell>, job: string, e: Effect, c: nat)
    requires c < |cells|
    ensures var cells' := CellsAfter(cells, job, e);
            && c < |cells'|
            && |cells'[c].sent| == |cells[c].sent| + One(e.Broadcast? && e.cell == c)
  {
  }

  lemma ApplyPosition(w: World, i: nat, m: Move, k: nat)
    requires Wf(w) && i < |w.threads| && DeliveryMove(w, i, m) && k < |w.threads|
    requires PositionsOk(w.cells, w.threads[k])
    ensures PositionsOk(Apply(w, i, m).cells, Apply(w, i, m).threads[k])
  {
    if CellOf(w.threads[k].pc).Some? && CellOf(w.threads[k].pc).value < |w.cells| {
      ChannelsGrow(w.cells, w.threads[i].reg.jobId, m.effect, CellOf(w.threads[k].pc).value);
    }
  }

  lemma ApplyPositions(w: World, i: nat, m: Move)
    requires Wf(w) && i < |w.threads| && DeliveryMove(w, i, m) && Delivering(w)
    ensures var w' := Apply(w, i, m); forall k :: 0 <= k < |w'.threads| ==> PositionsOk(w'.cells, w'.threads[k])
  {
    var w' := Apply(w, i, m);
    forall k | 0 <= k < |w'.threads| ensures PositionsOk(w'.cells, w'.threads[k]) {
      if k < |w.threads| {
        ApplyPosition(w, i, m, k);
      }
    }
  }

  lemma ApplyWinners(w: World, i: nat, m: Move)
    requires Wf(w) && i < |w.threads| && DeliveryMove(w, i, m) && Delivering(w)
    ensures var w' := Apply(w, i, m); forall k :: 0 <= k < |w'.threads| ==> WinnerOk(w'.threads, w'.threads[k])
  {
    var w' := Apply(w, i, m);
    forall k | 0 <= k < |w'.threads| ensures WinnerOk(w'.threads, w'.threads[k]) {
      if k < |w.threads| {
        assert WinnerOk(w.threads, w.threads[k]) && PositionsOk(w.cells, w.threads[k]);
      }
    }
  }

  lemma ApplySenders(w: World, i: nat, m: Move)
    requires Wf(w) && i < |w.threads| && DeliveryMove(w, i, m) && Delivering(w)
    ensures Sent(Apply(w, i, m))
  {
    var w' := Apply(w, i, m);
    forall c: nat, p: nat | c < |w'.cells| && p < |w'.cells[c].sent| ensures HasSender(w', c, p) {
      if c < |w.cells| && p < |w.cells[c].sent| {
        assert HasSender(w, c, p);
        var k :| Sender(w, k, c, p);
        assert Sender(w', k, c, p);
      } else {
        assert Sender(w', i, c, p);
      }
    }
  }

  lemma ApplyBroadcasts(w: World, i: nat, m: Move)
    requires i < |w.threads| && DeliveryMove(w, i, m) && BroadcastsCounted(w)
    ensures BroadcastsCounted(Apply(w, i, m))
  {
  }

  lemma NextDelivering(w: World, a: Action)
    requires Wf(w) && Delivering(w) && BroadcastsCounted(w)
    ensures Delivering(Next(w, a)) && BroadcastsCounted(Next(w, a))
  {
    match a
    case Start(reg, op) =>
      var w' := Next(w, a);
      forall c: nat, p: nat | c < |w'.cells| && p < |w'.cells[c].sent| ensures HasSender(w', c, p) {
        assert HasSender(w, c, p);
        var k :| Sender(w, k, c, p);
        assert Sender(w', k, c, p);
      }
    case Step(i, answer) =>
      if i < |w.threads| {
        var m := Decide(w, i, answer);
        DecideDelivery(w, i, answer);
        ApplyPositions(w, i, m);
        ApplyWinners(w, i, m);
        ApplySenders(w, i, m);
        ApplyBroadcasts(w, i, m);
      }
  }

  lemma {:induction false} DeliveringRun(concurrency: nat, schedule: seq<Action>)
    ensures var w := Run(Initial(concurrency), schedule); Delivering(w) && BroadcastsCounted(w)
  {
    if schedule != [] {
      DeliveringRun(concurrency, schedule[..|schedule| - 1]);
      NextDelivering(Run(Initial(concurrency), schedule[..|schedule| - 1]), schedule[|schedule| - 1]);
    }
  }

  /** Every wake task that has terminated has broadcast exactly once; no task ever broadcasts twice. */
  lemma BroadcastsOnce(concurrency: nat, schedule: seq<Action>, k: nat)
    ensures var w := Run(Initial(concurrency), schedule);
            && w.log[BroadcastBy(k)] <= 1
            && (k < |w.threads| && w.threads[k].pc.TaskDone? ==> w.log[BroadcastBy(k)] == 1)
  {
    DeliveringRun(concurrency, schedule);
  }

  /** Thread i waits on a channel and taking its next step ends the wait. */
  ghost predicate CanReceive(w: World, i: nat)
    requires Wf(w) && i < |w.threads| && w.threads[i].pc.Await?
  {
    Next(w, Step(i, Proceed)).threads[i].pc.Returned?
  }

  lemma ReceivesBehindEnd(w: World, i: nat)
    requires Wf(w) && i < |w.threads| && w.threads[i].pc.Await? && w.threads[i].pc.cell < |w.cells|
    ensures CanReceive(w, i) <==> w.threads[i].pc.pos < |w.cells[w.threads[i].pc.cell].sent|
  {
    var pc := w.threads[i].pc;
    assert Decide(w, i, Proceed) == RequestMove(w, i, Proceed) == AwaitMove(w.cells[pc.cell].sent, pc, Proceed);
  }

  /** A waiter can complete exactly when some wake task has broadcast on its channel since it subscribed. */
  lemma ReceivesIffSent(w: World, i: nat)
    requires Wf(w) && Delivering(w) && i < |w.threads| && w.threads[i].pc.Await?
    ensures var pc := w.threads[i].pc;
            CanReceive(w, i) <==> exists k: nat, p: nat :: pc.pos <= p && Sender(w, k, pc.cell, p)
  {
    var pc := w.threads[i].pc;
    assert ThreadWf(w.cells, w.threads[i]);
    ReceivesBehindEnd(w, i);
    if pc.pos < |w.cells[pc.cell].sent| {
      assert HasSender(w, pc.cell, pc.pos);
      var k :| Sender(w, k, pc.cell, pc.pos);
    }
    forall k: nat, p: nat | pc.pos <= p && Sender(w, k, pc.cell, p) ensures pc.pos < |w.cells[pc.cell].sent| {
      assert PositionsOk(w.cells, w.threads[k]);
    }
  }

  /** Thread i waits for the task it has spawned itself; once that task is done it can stop waiting. */
  ghost predicate HearsItsTask(w: World, i: nat)
    requires Wf(w) && i < |w.threads|
  {
    w.threads[i].pc.Await? && w.threads[i].pc.task.Some? ==>
      var k := w.threads[i].pc.task.value;
      k < |w.threads| && (w.threads[k].pc.TaskDone? ==> CanReceive(w, i))
  }

  lemma WinnerReceives(w: World, i: nat)
    requires Wf(w) && Delivering(w) && i < |w.threads|
    ensures HearsItsTask(w, i)
  {
    assert WinnerOk(w.threads, w.threads[i]);
    if w.threads[i].pc.Await? && w.threads[i].pc.task.Some? {
      var k := w.threads[i].pc.task.value;
      if w.threads[k].pc.TaskDone? {
        assert Sender(w, k, w.threads[i].pc.cell, w.threads[k].pc.at);
        ReceivesIffSent(w, i);
      }
    }
  }

  /** The winner subscribes before it spawns, so once its own task has terminated its wait can end. */
  lemma WinnerHearsItsTask(concurrency: nat, schedule: seq<Action>)
    ensures var w := Run(Initial(concurrency), schedule);
            forall i :: 0 <= i < |w.threads| ==> HearsItsTask(w, i)
  {
    var w := Run(Initial(concurrency), schedule);
    DeliveringRun(concurrency, schedule);
    forall i | 0 <= i < |w.threads| ensures HearsItsTask(w, i) {
      WinnerReceives(w, i);
    }
  }

  /** Thread i still waits where it did, or has stopped waiting for good. */
  ghost predicate StillOrOver(w: World, w': World, i: nat)
    requires i < |w.threads|
  {
    && |w.threads| <= |w'.threads| && |w.cells| <= |w'.cells|
    && (forall c :: 0 <= c < |w.cells| ==> |w.cells[c].sent| <= |w'.cells[c].sent|)
    && (w'.threads[i].pc == w.threads[i].pc || w'.threads[i].pc.Returned? || w'.threads[i].pc.Dropped?)
  }

  lemma NextStillOrOver(w: World, a: Action, i: nat)
    requires Wf(w) && i < |w.threads|
    requires w.threads[i].pc.Await? || w.threads[i].pc.Returned? || w.threads[i].pc.Dropped?
    ensures StillOrOver(w, Next(w, a), i)
  {
    if a.Step? && a.tid < |w.threads| {
      forall c: nat | c < |w.cells|
        ensures c < |Next(w, a).cells| && |w.cells[c].sent| <= |Next(w, a).cells[c].sent|
      {
        ChannelsGrow(w.cells, w.threads[a.tid].reg.jobId, Decide(w, a.tid, a.answer).effect, c);
      }
      if a.tid == i {
        assert ThreadWf(w.cells, w.threads[i]);
        assert Decide(w, i, a.answer) == RequestMove(w, i, a.answer);
      }
    }
  }

  lemma {:induction false} RunStillOrOver(w: World, schedule: seq<Action>, i: nat)
    requires Wf(w) && i < |w.threads| && w.threads[i].pc.Await?
    ensures StillOrOver(w, Run(w, schedule), i)
  {
    if schedule != [] {
      RunStillOrOver(w, schedule[..|schedule| - 1], i);
      NextStillOrOver(Run(w, schedule[..|schedule| - 1]), schedule[|schedule| - 1], i);
    }
  }

  /** Thread i has stopped waiting, or waits where it did and can stop. */
  ghost predicate HeardOrOver(w: World, w': World, i: nat)
    requires Wf(w') && i < |w.threads|
  {
    && i < |w'.threads|
    && (w'.threads[i].pc.Await? ==> w'.threads[i].pc == w.threads[i].pc && CanReceive(w', i))
  }

  /** The broadcast of task k reaches every thread that waits on its channel. */
  lemma SendReaches(w: World, i: nat, k: nat)
    requires Wf(w) && Delivering(w)
    requires i < |w.threads| && w.threads[i].pc.Await?
    requires k < |w.threads| && TaskCell(w.threads[k].pc) == Some(w.threads[i].pc.cell)
    requires w.threads[k].pc.TaskSendReady? || w.threads[k].pc.TaskSendFailure?
    ensures var w' := Next(w, Step(k, Proceed)); var c := w.threads[i].pc.cell;
            && i < |w'.threads| && w'.threads[i] == w.threads[i]
            && c < |w'.cells| && w.threads[i].pc.pos < |w'.cells[c].sent|
  {
    assert PositionsOk(w.cells, w.threads[i]) && ThreadWf(w.cells, w.threads[i]) && ThreadWf(w.cells, w.threads[k]);
    assert Decide(w, k, Proceed) == TaskMove(w, k, Proceed);
  }

  /** What was broadcast before a waiter subscribed does not reach it: it needs another broadcast. */
  lemma LateSubscriberWaits(w: World, i: nat)
    requires Wf(w) && i < |w.threads| && w.threads[i].pc.Subscribe?
    ensures var w' := Run(w, [Step(i, Proceed)]);
            && i < |w'.threads| && w'.threads[i].pc.Await? && !CanReceive(w', i)
  {
    assert ThreadWf(w.cells, w.threads[i]);
    assert Decide(w, i, Proceed) == RequestMove(w, i, Proceed);
    RunOne(w, Step(i, Proceed));
    ReceivesBehindEnd(Run(w, [Step(i, Proceed)]), i);
  }

  /**
   No lost wake-up: whoever waits on a channel when a wake task broadcasts there can, at any later moment at
   which it still waits, end its wait.
   */
  lemma NoLostWakeUp(w: World, i: nat, k: nat, later: seq<Action>)
    requires Wf(w) && Delivering(w)
    requires i < |w.threads| && w.threads[i].pc.Await?
    requires k < |w.threads| && TaskCell(w.threads[k].pc) == Some(w.threads[i].pc.cell)
    requires w.threads[k].pc.TaskSendReady? || w.threads[k].pc.TaskSendFailure?
    ensures HeardOrOver(w, Run(w, [Step(k, Proceed)] + later), i)
  {
    var sent := Next(w, Step(k, Proceed));
    SendReaches(w, i, k);
    RunOne(w, Step(k, Proceed));
    RunConcat(w, [Step(k, Proceed)], later);
    RunStillOrOver(sent, later, i);
    var w' := Run(sent, later);
    if w'.threads[i].pc.Await? {
      ReceivesBehindEnd(w', i);
    }
  }

  // ---------------------------------------------------------------------------------------------
  // Abandoned wakes

  /** The task has decided that nobody waits for its wake any more. */
  predicate Cancelling(pc: Pc) {
    (pc.TaskSetDormant? || pc.TaskSendFailure?) && pc.failure.WakeCancelled?
  }

  lemma TaskNotCancelling(w: World, i: nat, k: nat, answer: Answer)
    requires Wf(w) && i < |w.threads| && w.threads[i].pc.Await?
    requires k < |w.threads| && TaskCell(w.threads[k].pc) == Some(w.threads[i].pc.cell) && !Cancelling(w.threads[k].pc)
    ensures !Cancelling(TaskMove(w, k, answer).pc)
  {
    CountPositive(w.threads, i, IsReceiver(w.threads[i].pc.cell));
  }

  lemma NextNotCancelling(w: World, i: nat, k: nat, a: Action)
    requires Wf(w) && i < |w.threads| && w.threads[i].pc.Await?
    requires k < |w.threads| && TaskCell(w.threads[k].pc) == Some(w.threads[i].pc.cell) && !Cancelling(w.threads[k].pc)
    ensures var w' := Next(w, a);
            k < |w'.threads| && TaskCell(w'.threads[k].pc) == TaskCell(w.threads[k].pc) && !Cancelling(w'.threads[k].pc)
  {
    if a.Step? && a.tid == k {
      DecideDelivery(w, k, a.answer);
      TaskNotCancelling(w, i, k, a.answer);
    }
  }

  /** As long as thread i has not stopped waiting, task k has not given up. */
  ghost predicate NotGivenUp(w: World, w': World, i: nat, k: nat)
    requires i < |w.threads| && k < |w.threads|
  {
    && i < |w'.threads| && k < |w'.threads|
    && (w'.threads[i].pc.Await? ==>
          TaskCell(w'.threads[k].pc) == TaskCell(w.threads[k].pc) && !Cancelling(w'.threads[k].pc))
  }

  /** A wake is never abandoned while somebody waits for it, however long it takes. */
  lemma {:induction false} NotAbandonedWhileAwaited(w: World, i: nat, k: nat, schedule: seq<Action>)
    requires Wf(w) && i < |w.threads| && w.threads[i].pc.Await?
    requires k < |w.threads| && TaskCell(w.threads[k].pc) == Some(w.threads[i].pc.cell) && !Cancelling(w.threads[k].pc)
    ensures NotGivenUp(w, Run(w, schedule), i, k)
  {
    if schedule != [] {
      var before, a := Run(w, schedule[..|schedule| - 1]), schedule[|schedule| - 1];
      NotAbandonedWhileAwaited(w, i, k, schedule[..|schedule| - 1]);
      RunStillOrOver(w, schedule[..|schedule| - 1], i);
      NextStillOrOver(before, a, i);
      if before.threads[i].pc.Await? {
        NextNotCancelling(before, i, k, a);
      }
    }
  }
}
