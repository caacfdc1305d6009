/** What the callers of `ensure_running` agree on while nobody resets or refreshes the job. */
module WakeAgreement {
  import opened Prelude
  import opened Jobs
  import opened WakeProtocol
  import opened WakeCoalescing

  /** No step so far has reset job `j` or refreshed its endpoint. */
  predicate Quiet(log: multiset<Event>, j: string) {
    && DormantStored(j) !in log
    && KeyRemoved(j) !in log
    && CacheEvicted(j) !in log
    && EndpointRefreshed(j) !in log
  }

  /** A won wake of the job: from the compare-and-swap on, including the finished task. */
  ghost function IsWake(j: string): Thread -> bool {
    (t: Thread) => t.reg.jobId == j && (t.pc.WinnerSubscribe? || t.pc.Spawn? || TaskCell(t.pc).Some?)
  }

  /** A wake whose task has been given its endpoint. */
  ghost function PastReport(j: string): Thread -> bool {
    (t: Thread) => t.reg.jobId == j &&
      (t.pc.TaskInsert? || t.pc.TaskSetReady? || t.pc.TaskSendReady? || t.pc.TaskDone?)
  }

  ghost predicate ThreadQuiet(w: World, j: string, t: Thread) {
    t.reg.jobId == j ==>
      && !t.pc.Fetch? && !t.pc.FetchInsert? && !t.pc.RefreshStore? && !t.pc.StoreDormant? && !t.pc.RemoveKey?
      && (t.pc.ReadyCheck? || t.pc.TaskSetReady? ==> j in w.endpoints)
      && (t.pc.TaskInsert? || t.pc.TaskSetReady? || t.pc.TaskSendReady? ==> HealthReported(j, t.pc.ep) in w.log)
      && (t.pc.Returned? && t.pc.res.Ok? ==> HealthReported(j, t.pc.res.value) in w.log)
  }

  ghost predicate CellQuiet(w: World, j: string, c: Cell) {
    c.owner == j ==>
      && (c.status == Ready ==> j in w.endpoints)
      && (forall k :: 0 <= k < |c.sent| && c.sent[k].WakeReady? ==> HealthReported(j, c.sent[k].ep) in w.log)
  }

  ghost predicate AllQuiet(w: World, j: string) {
    && (j in w.endpoints ==> HealthReported(j, w.endpoints[j]) in w.log)
    && (forall i :: 0 <= i < |w.threads| ==> ThreadQuiet(w, j, w.threads[i]))
    && (forall c :: 0 <= c < |w.cells| ==> CellQuiet(w, j, w.cells[c]))
  }

  /** The part of `AllQuiet` that the next move of thread i looks at. */
  ghost predicate NearQuiet(w: World, i: nat)
    requires Wf(w) && i < |w.threads|
  {
    var t := w.threads[i];
    var j := t.reg.jobId;
    Quiet(w.log, j) ==>
      && ThreadQuiet(w, j, t)
      && (j in w.endpoints ==> HealthReported(j, w.endpoints[j]) in w.log)
      && (CellOf(t.pc).Some? ==> ThreadWf(w.cells, t) && CellQuiet(w, j, w.cells[CellOf(t.pc).value]))
  }

  /** At most one endpoint has been reported to a wake task, and only to one that is past its report. */
  ghost predicate OneReport(w: World, j: string) {
    && (forall ep :: HealthReported(j, ep) in w.log ==> Count(w.threads, PastReport(j)) >= 1)
    && (forall e1, e2 :: HealthReported(j, e1) in w.log && HealthReported(j, e2) in w.log ==> e1 == e2)
  }

  ghost predicate WakesCounted(w: World, j: string) {
    Count(w.threads, IsWake(j)) == w.log[CasWon(j)]
  }

  /** What a move of a thread of job `j` keeps, as long as the job stays quiet. */
  ghost predicate QuietMove(w: World, i: nat, m: Move)
    requires i < |w.threads|
  {
    var t := w.threads[i];
    var j := t.reg.jobId;
    var t' := t.(pc := m.pc);
    var log' := LogAfter(w.log, m.event);
    Quiet(log', j) ==>
      && ThreadQuiet(w.(log := log', endpoints := EndpointsAfter(w.endpoints, j, m.effect)), j, t')
      && (m.effect.PutEndpoint? ==> HealthReported(j, m.effect.ep) in log')
      && !m.effect.DropEndpoint?
      && (m.effect.StoreStatus? && m.effect.status == Ready ==> j in w.endpoints)
      && (m.effect.Broadcast? && m.effect.message.WakeReady? ==> HealthReported(j, m.effect.message.ep) in log')
  }

  /** Wakes begin with a win, reports are made by wakes, and neither is ever undone. */
  ghost predicate WakeMove(w: World, i: nat, m: Move)
    requires i < |w.threads|
  {
    var t := w.threads[i];
    var j := t.reg.jobId;
    var t' := t.(pc := m.pc);
    && One(IsWake(j)(t')) + One(m.effect.SpawnTask?) == One(IsWake(j)(t)) + One(m.event == Some(CasWon(j)))
    && (m.event.Some? && m.event.value.CasWon? ==> m.event.value.job == j)
    && (PastReport(j)(t) ==> PastReport(j)(t'))
    && (m.event.Some? && m.event.value.HealthReported? ==>
          m.event.value.job == j && t.pc.Health? && PastReport(j)(t'))
  }

  lemma AwaitQuiet(w: World, i: nat, answer: Answer)
    requires Wf(w) && i < |w.threads|
    requires NearQuiet(w, i)
    requires w.threads[i].pc.Await? && w.threads[i].pc.cell < |w.cells|
    ensures QuietMove(w, i, AwaitMove(w.cells[w.threads[i].pc.cell].sent, w.threads[i].pc, answer))
  {
  }

  lemma CachedQuiet(w: World, i: nat, otherwise: Pc)
    requires Wf(w) && i < |w.threads| && NearQuiet(w, i)
    requires otherwise == Enter || w.threads[i].pc.ReadyCheck?
    ensures QuietMove(w, i, CachedOr(w, w.threads[i].reg.jobId, otherwise))
  {
  }

  /** A move that neither makes the job ready nor carries or passes on an endpoint. */
  lemma PlainQuiet(w: World, i: nat, m: Move)
    requires i < |w.threads|
    requires !m.effect.PutEndpoint? && !m.effect.DropEndpoint?
    requires m.effect.StoreStatus? ==> m.effect.status != Ready
    requires m.effect.Broadcast? ==> !m.effect.message.WakeReady?
    requires m.pc.Enter? || m.pc.Dropped? || m.pc.OpDone? || CellOf(m.pc).Some? || (m.pc.Returned? && m.pc.res.Err?)
    requires !m.pc.TaskInsert? && !m.pc.TaskSetReady? && !m.pc.TaskSendReady?
    ensures QuietMove(w, i, m)
  {
  }

  lemma LoadQuiet(w: World, i: nat, c: nat)
    requires Wf(w) && i < |w.threads| && NearQuiet(w, i) && w.threads[i].pc == Load(c) && c < |w.cells|
    ensures QuietMove(w, i, LoadMove(w.cells[c].status, c))
  {
  }

  /** Nobody fetches an endpoint while the job is quiet. */
  lemma FetchQuiet(w: World, i: nat, answer: Answer)
    requires Wf(w) && i < |w.threads| && NearQuiet(w, i)
    requires w.threads[i].pc.Fetch? || w.threads[i].pc.FetchInsert?
    ensures QuietMove(w, i, RequestMove(w, i, answer))
  {
    var t := w.threads[i];
    assert Quiet(w.log, t.reg.jobId) ==> ThreadQuiet(w, t.reg.jobId, t);
  }

  lemma RequestQuiet(w: World, i: nat, answer: Answer)
    requires Wf(w) && i < |w.threads|
    requires NearQuiet(w, i)
    requires TaskCell(w.threads[i].pc).None? && !IsControl(w.threads[i].pc)
    ensures QuietMove(w, i, RequestMove(w, i, answer))
  {
    var t := w.threads[i];
    assert ThreadWf(w.cells, t);
    var m := RequestMove(w, i, answer);
    if t.pc.Await? {
      AwaitQuiet(w, i, answer);
    } else if t.pc.FastPath? {
      CachedQuiet(w, i, Enter);
    } else if t.pc.ReadyCheck? {
      CachedQuiet(w, i, Fetch);
    } else if t.pc.Load? {
      LoadQuiet(w, i, t.pc.cell);
    } else if t.pc.Enter? {
      PlainQuiet(w, i, m);
    } else if t.pc.Subscribe? {
      PlainQuiet(w, i, m);
    } else if t.pc.WinnerSubscribe? {
      PlainQuiet(w, i, m);
    } else if t.pc.Spawn? {
      PlainQuiet(w, i, m);
    } else if t.pc.TryCas? {
      PlainQuiet(w, i, m);
    } else if t.pc.Fetch? {
      FetchQuiet(w, i, answer);
    } else if t.pc.FetchInsert? {
      FetchQuiet(w, i, answer);
    }
  }

  lemma HealthQuiet(w: World, i: nat, answer: Answer)
    requires i < |w.threads| && w.threads[i].pc.Health?
    ensures QuietMove(w, i, HealthMove(w, i, answer))
  {
  }

  lemma TaskQuiet(w: World, i: nat, answer: Answer)
    requires Wf(w) && i < |w.threads|
    requires NearQuiet(w, i)
    requires TaskCell(w.threads[i].pc).Some?
    ensures QuietMove(w, i, TaskMove(w, i, answer))
  {
    assert ThreadWf(w.cells, w.threads[i]);
    var m := TaskMove(w, i, answer);
    if w.threads[i].pc.Acquire? {
      PlainQuiet(w, i, m);
    } else if w.threads[i].pc.CallScaleUp? {
      PlainQuiet(w, i, m);
    } else if w.threads[i].pc.Scaling? {
      PlainQuiet(w, i, m);
    } else if w.threads[i].pc.Health? {
      HealthQuiet(w, i, answer);
    } else if !(w.threads[i].pc.TaskInsert? || w.threads[i].pc.TaskSetReady? || w.threads[i].pc.TaskSendReady?) {
      PlainQuiet(w, i, m);
    }
  }

  lemma ControlQuiet(w: World, i: nat, answer: Answer)
    requires Wf(w) && i < |w.threads|
    requires NearQuiet(w, i)
    requires IsControl(w.threads[i].pc)
    ensures QuietMove(w, i, ControlMove(w, i, answer))
  {
    assert Quiet(w.log, w.threads[i].reg.jobId) ==> ThreadQuiet(w, w.threads[i].reg.jobId, w.threads[i]);
  }

  lemma DecideQuiet(w: World, i: nat, answer: Answer)
    requires Wf(w) && i < |w.threads|
    requires NearQuiet(w, i)
    ensures QuietMove(w, i, Decide(w, i, answer))
  {
    if TaskCell(w.threads[i].pc).Some? {
      TaskQuiet(w, i, answer);
    } else if IsControl(w.threads[i].pc) {
      ControlQuiet(w, i, answer);
    } else {
      RequestQuiet(w, i, answer);
    }
  }

  /** A move between places that are no wakes. */
  lemma PlainWake(w: World, i: nat, m: Move)
    requires i < |w.threads| && !m.effect.SpawnTask?
    requires TaskCell(w.threads[i].pc).None? && TaskCell(m.pc).None?
    requires !w.threads[i].pc.WinnerSubscribe? && !w.threads[i].pc.Spawn? && !m.pc.WinnerSubscribe? && !m.pc.Spawn?
    requires m.event.Some? ==> !m.event.value.CasWon? && !m.event.value.HealthReported?
    ensures WakeMove(w, i, m)
  {
  }

  lemma FetchWake(w: World, i: nat, answer: Answer)
    requires i < |w.threads| && w.threads[i].pc.Fetch?
    ensures WakeMove(w, i, FetchMove(w.threads[i].reg.jobId, answer))
  {
  }

  lemma AwaitWake(w: World, i: nat, sent: seq<WakeResult>, answer: Answer)
    requires i < |w.threads| && w.threads[i].pc.Await?
    ensures WakeMove(w, i, AwaitMove(sent, w.threads[i].pc, answer))
  {
  }

  lemma RequestWake(w: World, i: nat, answer: Answer)
    requires Wf(w) && i < |w.threads|
    requires TaskCell(w.threads[i].pc).None? && !IsControl(w.threads[i].pc)
    ensures WakeMove(w, i, RequestMove(w, i, answer))
  {
    var t := w.threads[i];
    assert ThreadWf(w.cells, t);
    if t.pc.Fetch? {
      FetchWake(w, i, answer);
    } else if t.pc.Await? {
      AwaitWake(w, i, w.cells[t.pc.cell].sent, answer);
    } else if !(t.pc.TryCas? || t.pc.WinnerSubscribe? || t.pc.Spawn?) {
      PlainWake(w, i, RequestMove(w, i, answer));
    }
  }

  lemma HealthWake(w: World, i: nat, answer: Answer)
    requires i < |w.threads| && w.threads[i].pc.Health?
    ensures WakeMove(w, i, HealthMove(w, i, answer))
  {
  }

  lemma ScalingWake(w: World, i: nat, answer: Answer)
    requires i < |w.threads| && w.threads[i].pc.Scaling?
    ensures WakeMove(w, i, ScalingMove(w.threads[i].pc.cell, answer))
  {
  }

  lemma TaskWake(w: World, i: nat, answer: Answer)
    requires Wf(w) && i < |w.threads|
    requires TaskCell(w.threads[i].pc).Some?
    ensures WakeMove(w, i, TaskMove(w, i, answer))
  {
    assert ThreadWf(w.cells, w.threads[i]);
    if w.threads[i].pc.Health? {
      HealthWake(w, i, answer);
    } else if w.threads[i].pc.Scaling? {
      ScalingWake(w, i, answer);
    }
  }

  lemma RefreshWake(w: World, i: nat, answer: Answer)
    requires i < |w.threads| && w.threads[i].pc.Refresh?
    ensures WakeMove(w, i, RefreshMove(w.threads[i].reg.jobId, answer))
  {
  }

  lemma ControlWake(w: World, i: nat, answer: Answer)
    requires Wf(w) && i < |w.threads|
    requires IsControl(w.threads[i].pc)
    ensures WakeMove(w, i, ControlMove(w, i, answer))
  {
    if w.threads[i].pc.Refresh? {
      RefreshWake(w, i, answer);
    } else {
      PlainWake(w, i, ControlMove(w, i, answer));
    }
  }

  lemma DecideWake(w: World, i: nat, answer: Answer)
    requires Wf(w) && i < |w.threads|
    ensures WakeMove(w, i, Decide(w, i, answer))
  {
    if TaskCell(w.threads[i].pc).Some? {
      TaskWake(w, i, answer);
    } else if IsControl(w.threads[i].pc) {
      ControlWake(w, i, answer);
    } else {
      RequestWake(w, i, answer);
    }
  }

  lemma ApplyWakes(w: World, i: nat, m: Move, j: string)
    requires i < |w.threads| && WakeMove(w, i, m) && WakesCounted(w, j)
    ensures WakesCounted(Apply(w, i, m), j)
  {
    var t := w.threads[i];
    var task := Thread(t.reg, Acquire(if m.effect.SpawnTask? then m.effect.cell else 0));
    CountThreadsAfter(w.threads, i, m, IsWake(j));
    assert m.effect.SpawnTask? ==> IsWake(j)(task) == (t.reg.jobId == j);
    assert Apply(w, i, m).log[CasWon(j)] == w.log[CasWon(j)] + One(m.event == Some(CasWon(j)));
  }

  lemma NextWakes(w: World, a: Action, j: string)
    requires Wf(w) && WakesCounted(w, j)
    ensures WakesCounted(Next(w, a), j)
  {
    match a
    case Start(reg, op) => CountPush(w.threads, Thread(reg, FirstPc(op)), IsWake(j));
    case Step(i, answer) =>
      if i < |w.threads| {
        DecideWake(w, i, answer);
        ApplyWakes(w, i, Decide(w, i, answer), j);
      }
  }

  /** A second report would need a second wake task. */
  lemma NoSecondReport(w: World, i: nat, j: string, ep: Endpoint)
    requires WakesCounted(w, j) && w.log[CasWon(j)] <= 1 && OneReport(w, j)
    requires i < |w.threads| && w.threads[i].reg.jobId == j && w.threads[i].pc.Health?
    ensures HealthReported(j, ep) !in w.log
  {
    if HealthReported(j, ep) in w.log {
      var k := CountSome(w.threads, PastReport(j));
      CountUnique(w.threads, i, k, IsWake(j));
    }
  }

  lemma ApplyOneReport(w: World, i: nat, m: Move, j: string)
    requires i < |w.threads| && WakeMove(w, i, m)
    requires WakesCounted(w, j) && w.log[CasWon(j)] <= 1 && OneReport(w, j)
    ensures OneReport(Apply(w, i, m), j)
  {
    var w' := Apply(w, i, m);
    CountThreadsAfter(w.threads, i, m, PastReport(j));
    if m.event.Some? && m.event.value.HealthReported? && m.event.value.job == j {
      CountPositive(w'.threads, i, PastReport(j));
      forall ep ensures HealthReported(j, ep) !in w.log {
        NoSecondReport(w, i, j, ep);
      }
    }
  }

  lemma NextOneReport(w: World, a: Action, j: string)
    requires Wf(w) && WakesCounted(w, j) && OneReport(w, j) && w.log[CasWon(j)] <= 1
    ensures OneReport(Next(w, a), j)
  {
    match a
    case Start(reg, op) => CountPush(w.threads, Thread(reg, FirstPc(op)), PastReport(j));
    case Step(i, answer) =>
      if i < |w.threads| {
        DecideWake(w, i, answer);
        ApplyOneReport(w, i, Decide(w, i, answer), j);
      }
  }

  lemma ApplyThreadQuiet(w: World, i: nat, m: Move, j: string, k: nat)
    requires Wf(w) && i < |w.threads| && AllQuiet(w, j) && Quiet(Apply(w, i, m).log, j)
    requires w.threads[i].reg.jobId == j ==> QuietMove(w, i, m)
    requires k < |Apply(w, i, m).threads|
    ensures ThreadQuiet(Apply(w, i, m), j, Apply(w, i, m).threads[k])
  {
    if k < |w.threads| {
      assert ThreadQuiet(w, j, w.threads[k]);
    }
  }

  lemma ApplyCellQuiet(w: World, i: nat, m: Move, j: string, c: nat)
    requires Wf(w) && i < |w.threads| && AllQuiet(w, j) && Quiet(Apply(w, i, m).log, j)
    requires StaysHome(w, w.threads[i].reg.jobId, m)
    requires w.threads[i].reg.jobId == j ==> QuietMove(w, i, m)
    requires c < |Apply(w, i, m).cells|
    ensures CellQuiet(Apply(w, i, m), j, Apply(w, i, m).cells[c])
  {
    if c < |w.cells| {
      assert CellQuiet(w, j, w.cells[c]);
    }
  }

  lemma ApplyQuiet(w: World, i: nat, m: Move, j: string)
    requires Wf(w) && i < |w.threads| && AllQuiet(w, j) && Quiet(Apply(w, i, m).log, j)
    requires StaysHome(w, w.threads[i].reg.jobId, m)
    requires w.threads[i].reg.jobId == j ==> QuietMove(w, i, m)
    ensures AllQuiet(Apply(w, i, m), j)
  {
    var w' := Apply(w, i, m);
    forall k | 0 <= k < |w'.threads| ensures ThreadQuiet(w', j, w'.threads[k]) {
      ApplyThreadQuiet(w, i, m, j, k);
    }
    forall c | 0 <= c < |w'.cells| ensures CellQuiet(w', j, w'.cells[c]) {
      ApplyCellQuiet(w, i, m, j, c);
    }
  }

  lemma NextQuiet(w: World, a: Action, j: string)
    requires Wf(w) && AllQuiet(w, j) && Quiet(Next(w, a).log, j)
    ensures AllQuiet(Next(w, a), j)
  {
    if a.Step? && a.tid < |w.threads| {
      DecideStaysHome(w, a.tid, a.answer);
      assert ThreadWf(w.cells, w.threads[a.tid]);
      if w.threads[a.tid].reg.jobId == j {
        assert NearQuiet(w, a.tid);
        DecideQuiet(w, a.tid, a.answer);
      }
      ApplyQuiet(w, a.tid, Decide(w, a.tid, a.answer), j);
    }
  }

  /** What every run keeps about the wakes of job j, and about everything else while it is quiet. */
  ghost predicate QuietSoFar(w: World, j: string) {
    WakesCounted(w, j) && (Quiet(w.log, j) ==> AllQuiet(w, j) && OneReport(w, j))
  }

  lemma NextQuietSoFar(w: World, a: Action, j: string)
    requires Wf(w) && QuietSoFar(w, j) && (Quiet(w.log, j) ==> w.log[CasWon(j)] <= 1)
    requires Quiet(Next(w, a).log, j) ==> Quiet(w.log, j)
    ensures QuietSoFar(Next(w, a), j)
  {
    NextWakes(w, a, j);
    if Quiet(Next(w, a).log, j) {
      NextOneReport(w, a, j);
      NextQuiet(w, a, j);
    }
  }

  /** The history only grows. */
  lemma QuietBefore(w: World, a: Action, j: string)
    requires Wf(w)
    ensures Quiet(Next(w, a).log, j) ==> Quiet(w.log, j)
  {
  }

  /** While the job is quiet it has been won at most once. */
  lemma WonOnce(w: World, j: string)
    requires Budget(w, j) && Quiet(w.log, j)
    ensures w.log[CasWon(j)] <= 1
  {
  }

  lemma {:induction false} QuietRun(concurrency: nat, schedule: seq<Action>, j: string)
    ensures QuietSoFar(Run(Initial(concurrency), schedule), j)
  {
    if schedule != [] {
      var before := schedule[..|schedule| - 1];
      QuietRun(concurrency, before, j);
      LedgerOfRun(concurrency, before, j);
      var w, a := Run(Initial(concurrency), before), schedule[|schedule| - 1];
      QuietBefore(w, a, j);
      if Quiet(w.log, j) {
        WonOnce(w, j);
      }
      NextQuietSoFar(w, a, j);
    }
  }

  /**
   Agreement: in a run that neither resets nor refreshes the job, any two callers that get an endpoint get
   the same one, and it is the one `wait_for_healthy` gave the wake task.
   */
  lemma CallersAgree(concurrency: nat, schedule: seq<Action>, i: nat, k: nat)
    requires var w := Run(Initial(concurrency), schedule);
             && i < |w.threads| && k < |w.threads|
             && w.threads[i].pc.Returned? && w.threads[i].pc.res.Ok?
             && w.threads[k].pc.Returned? && w.threads[k].pc.res.Ok?
             && w.threads[i].reg.jobId == w.threads[k].reg.jobId
             && Quiet(w.log, w.threads[i].reg.jobId)
    ensures var w := Run(Initial(concurrency), schedule);
            && w.threads[i].pc.res == w.threads[k].pc.res
            && HealthReported(w.threads[i].reg.jobId, w.threads[i].pc.res.value) in w.log
  {
    var w := Run(Initial(concurrency), schedule);
    QuietRun(concurrency, schedule, w.threads[i].reg.jobId);
    assert ThreadQuiet(w, w.threads[i].reg.jobId, w.threads[i]);
    assert ThreadQuiet(w, w.threads[i].reg.jobId, w.threads[k]);
  }

  /** In such a run READY is never seen without a cached endpoint, so Nomad is never asked for one. */
  lemma ReadyIsCached(concurrency: nat, schedule: seq<Action>, j: string)
    requires Quiet(Run(Initial(concurrency), schedule).log, j)
    ensures var w := Run(Initial(concurrency), schedule);
            && (forall c :: 0 <= c < |w.cells| && w.cells[c].owner == j && w.cells[c].status == Ready ==>
                  j in w.endpoints)
            && (forall i :: 0 <= i < |w.threads| && w.threads[i].reg.jobId == j ==>
                  !w.threads[i].pc.Fetch? && !w.threads[i].pc.FetchInsert?)
  {
    QuietRun(concurrency, schedule, j);
    var w := Run(Initial(concurrency), schedule);
    forall c | 0 <= c < |w.cells| && w.cells[c].owner == j && w.cells[c].status == Ready ensures j in w.endpoints {
      assert CellQuiet(w, j, w.cells[c]);
    }
    forall i | 0 <= i < |w.threads| && w.threads[i].reg.jobId == j
      ensures !w.threads[i].pc.Fetch? && !w.threads[i].pc.FetchInsert?
    {
      assert ThreadQuiet(w, j, w.threads[i]);
    }
  }
}
