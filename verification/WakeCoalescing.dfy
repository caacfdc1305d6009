/**
 How often a job can be scaled up.

 A reset is two separate steps (store DORMANT, then remove the key), and a second request can slip
 between them, so "at most one wake at a time" is false.  What holds is a bound over the whole run:
 every `scale_up` is paid for by the first use of the job, by a store that made a cell dormant, or by
 the removal of a key.
 */
module WakeCoalescing {
  import opened Prelude
  import opened WakeProtocol

  ghost function DormantCell(j: string): Cell -> bool {
    (c: Cell) => c.owner == j && c.status == Dormant
  }

  /** A wake that has been won but has not called `scale_up` yet. */
  predicate InStretch(pc: Pc) {
    pc.WinnerSubscribe? || pc.Spawn? || pc.Acquire? || pc.CallScaleUp?
  }

  ghost function BeforeCall(j: string): Thread -> bool {
    (t: Thread) => t.reg.jobId == j && InStretch(t.pc)
  }

  ghost function HoldsPermit(): Thread -> bool {
    (t: Thread) => t.pc.CallScaleUp? || t.pc.Scaling?
  }

  /** Wins, dormant cells and an absent key are all paid for. */
  ghost predicate Budget(w: World, j: string) {
    w.log[CasWon(j)] + Count(w.cells, DormantCell(j)) + One(j !in w.jobs)
      <= 1 + w.log[DormantStored(j)] + w.log[KeyRemoved(j)]
  }

  ghost predicate WinsAccounted(w: World, j: string) {
    w.log[ScaleUpCalled(j)] + Count(w.threads, BeforeCall(j)) == w.log[CasWon(j)]
  }

  ghost predicate PermitsAccounted(w: World, concurrency: nat) {
    w.permits + Count(w.threads, HoldsPermit()) == concurrency
  }

  lemma CountThreadsAfter(threads: seq<Thread>, i: nat, m: Move, p: Thread -> bool)
    requires i < |threads|
    ensures Count(ThreadsAfter(threads, i, m), p) + One(p(threads[i]))
         == Count(threads, p) + One(p(threads[i].(pc := m.pc)))
          + if m.effect.SpawnTask? then One(p(Thread(threads[i].reg, Acquire(m.effect.cell)))) else 0
  {
    CountUpdate(threads, i, threads[i].(pc := m.pc), p);
    CountPush(threads[i := threads[i].(pc := m.pc)], Thread(threads[i].reg, Acquire(if m.effect.SpawnTask? then m.effect.cell else 0)), p);
  }

  lemma CountCellsAfter(w: World, job: string, e: Effect, j: string)
    requires e.StoreStatus? || e.Broadcast? ==> e.cell < |w.cells| && w.cells[e.cell].owner == job
    ensures var n, n' := Count(w.cells, DormantCell(j)), Count(CellsAfter(w.cells, job, e), DormantCell(j));
            match e
            case CreateCell => n' == n + One(job == j)
            case StoreStatus(c, s) => n' + One(job == j && w.cells[c].status == Dormant) == n + One(job == j && s == Dormant)
            case _ => n' == n
  {
    match e
    case CreateCell => CountPush(w.cells, Cell(job, Dormant, []), DormantCell(j));
    case StoreStatus(c, s) => CountUpdate(w.cells, c, w.cells[c].(status := s), DormantCell(j));
    case Broadcast(c, m) => CountUpdate(w.cells, c, w.cells[c].(sent := w.cells[c].sent + [m]), DormantCell(j));
    case _ =>
  }

  /** What the budget needs to know about a move: who pays for it. */
  ghost predicate Paid(w: World, t: Thread, m: Move) {
    var job := t.reg.jobId;
    && (m.effect.StoreStatus? && m.effect.cell < |w.cells| ==>
          var dormant := w.cells[m.effect.cell].status == Dormant;
          match m.effect.status
          case Dormant => dormant || m.event == Some(DormantStored(job))
          case Waking => dormant
          case Ready => true)
    && (m.event == Some(CasWon(job)) ==> m.effect.StoreStatus? && m.effect.status == Waking)
    && (m.effect.DropKey? && job in w.jobs ==> m.event == Some(KeyRemoved(job)))
    && (m.event.Some? && m.event.value.CasWon? ==> m.event.value.job == job)
  }

  lemma RequestPaid(w: World, i: nat, answer: Answer)
    requires Wf(w) && i < |w.threads|
    requires TaskCell(w.threads[i].pc).None? && !IsControl(w.threads[i].pc)
    ensures Paid(w, w.threads[i], RequestMove(w, i, answer))
  {
    assert ThreadWf(w.cells, w.threads[i]);
  }

  lemma TaskPaid(w: World, i: nat, answer: Answer)
    requires Wf(w) && i < |w.threads|
    requires TaskCell(w.threads[i].pc).Some?
    ensures Paid(w, w.threads[i], TaskMove(w, i, answer))
  {
    assert ThreadWf(w.cells, w.threads[i]);
  }

  lemma ControlPaid(w: World, i: nat, answer: Answer)
    requires Wf(w) && i < |w.threads|
    requires IsControl(w.threads[i].pc)
    ensures Paid(w, w.threads[i], ControlMove(w, i, answer))
  {
  }

  lemma DecidePaid(w: World, i: nat, answer: Answer)
    requires Wf(w) && i < |w.threads|
    ensures Paid(w, w.threads[i], Decide(w, i, answer))
  {
    if TaskCell(w.threads[i].pc).Some? {
      TaskPaid(w, i, answer);
    } else if IsControl(w.threads[i].pc) {
      ControlPaid(w, i, answer);
    } else {
      RequestPaid(w, i, answer);
    }
  }

  lemma ApplyBudget(w: World, i: nat, m: Move, j: string)
    requires Budget(w, j) && i < |w.threads|
    requires StaysHome(w, w.threads[i].reg.jobId, m) && Paid(w, w.threads[i], m)
    ensures Budget(Apply(w, i, m), j)
  {
    CountCellsAfter(w, w.threads[i].reg.jobId, m.effect, j);
  }

  lemma NextBudget(w: World, a: Action, j: string)
    requires Wf(w) && Budget(w, j)
    ensures Budget(Next(w, a), j)
  {
    if a.Step? && a.tid < |w.threads| {
      DecideStaysHome(w, a.tid, a.answer);
      DecidePaid(w, a.tid, a.answer);
      ApplyBudget(w, a.tid, Decide(w, a.tid, a.answer), j);
    }
  }

  /**
   A thread enters the stretch before the call only by winning and leaves it only by calling, and it
   holds a permit exactly from taking it to giving it back.
   */
  ghost predicate Accounted(w: World, t: Thread, m: Move) {
    && One(InStretch(m.pc)) + One(m.effect.SpawnTask?) + One(m.event.Some? && m.event.value.ScaleUpCalled?)
       == One(InStretch(t.pc)) + One(m.event.Some? && m.event.value.CasWon?)
    && (m.event.Some? && (m.event.value.ScaleUpCalled? || m.event.value.CasWon?) ==>
          m.event.value.job == t.reg.jobId)
    && (m.effect.TakePermit? ==> w.permits > 0)
    && One(HoldsPermit()(t.(pc := m.pc))) + One(m.effect.GivePermit?)
       == One(HoldsPermit()(t)) + One(m.effect.TakePermit?)
  }

  lemma FetchAccounted(w: World, t: Thread, answer: Answer)
    requires t.pc.Fetch?
    ensures Accounted(w, t, FetchMove(t.reg.jobId, answer))
  {
  }

  lemma AwaitAccounted(w: World, t: Thread, sent: seq<WakeResult>, answer: Answer)
    requires t.pc.Await?
    ensures Accounted(w, t, AwaitMove(sent, t.pc, answer))
  {
  }

  lemma RequestAccounted(w: World, i: nat, answer: Answer)
    requires Wf(w) && i < |w.threads|
    requires TaskCell(w.threads[i].pc).None? && !IsControl(w.threads[i].pc)
    ensures Accounted(w, w.threads[i], RequestMove(w, i, answer))
  {
    var t := w.threads[i];
    assert ThreadWf(w.cells, t);
    if t.pc.Fetch? {
      FetchAccounted(w, t, answer);
    } else if t.pc.Await? {
      AwaitAccounted(w, t, w.cells[t.pc.cell].sent, answer);
    }
  }

  lemma TaskAccounted(w: World, i: nat, answer: Answer)
    requires Wf(w) && i < |w.threads|
    requires TaskCell(w.threads[i].pc).Some?
    ensures Accounted(w, w.threads[i], TaskMove(w, i, answer))
  {
    assert ThreadWf(w.cells, w.threads[i]);
  }

  lemma ControlAccounted(w: World, i: nat, answer: Answer)
    requires Wf(w) && i < |w.threads|
    requires IsControl(w.threads[i].pc)
    ensures Accounted(w, w.threads[i], ControlMove(w, i, answer))
  {
  }

  lemma DecideAccounted(w: World, i: nat, answer: Answer)
    requires Wf(w) && i < |w.threads|
    ensures Accounted(w, w.threads[i], Decide(w, i, answer))
  {
    if TaskCell(w.threads[i].pc).Some? {
      TaskAccounted(w, i, answer);
    } else if IsControl(w.threads[i].pc) {
      ControlAccounted(w, i, answer);
    } else {
      RequestAccounted(w, i, answer);
    }
  }

  lemma NextWins(w: World, a: Action, j: string)
    requires Wf(w) && WinsAccounted(w, j)
    ensures WinsAccounted(Next(w, a), j)
  {
    match a
    case Start(reg, op) => CountPush(w.threads, Thread(reg, FirstPc(op)), BeforeCall(j));
    case Step(i, answer) =>
      if i < |w.threads| {
        CountThreadsAfter(w.threads, i, Decide(w, i, answer), BeforeCall(j));
        DecideAccounted(w, i, answer);
      }
  }

  lemma NextPermits(w: World, a: Action, concurrency: nat)
    requires Wf(w) && PermitsAccounted(w, concurrency)
    ensures PermitsAccounted(Next(w, a), concurrency)
  {
    match a
    case Start(reg, op) => CountPush(w.threads, Thread(reg, FirstPc(op)), HoldsPermit());
    case Step(i, answer) =>
      if i < |w.threads| {
        CountThreadsAfter(w.threads, i, Decide(w, i, answer), HoldsPermit());
        DecideAccounted(w, i, answer);
      }
  }

  lemma {:induction false} LedgerOfRun(concurrency: nat, schedule: seq<Action>, j: string)
    ensures var w := Run(Initial(concurrency), schedule);
            Budget(w, j) && WinsAccounted(w, j) && PermitsAccounted(w, concurrency)
  {
    if schedule != [] {
      var before := schedule[..|schedule| - 1];
      LedgerOfRun(concurrency, before, j);
      var w, a := Run(Initial(concurrency), before), schedule[|schedule| - 1];
      NextBudget(w, a, j);
      NextWins(w, a, j);
      NextPermits(w, a, concurrency);
    }
  }

  /**
   Amortised coalescing: in every interleaving, a job is scaled up at most once more than its cells were
   made dormant and its key was removed.
   */
  lemma CoalescingBound(concurrency: nat, schedule: seq<Action>, j: string)
    ensures var log := Run(Initial(concurrency), schedule).log;
            log[ScaleUpCalled(j)] <= 1 + log[DormantStored(j)] + log[KeyRemoved(j)]
  {
    LedgerOfRun(concurrency, schedule, j);
  }

  /** However many requests race, a run without a reset of the job scales it up at most once. */
  lemma OneScaleUpWithoutReset(concurrency: nat, schedule: seq<Action>, j: string)
    requires var log := Run(Initial(concurrency), schedule).log;
             DormantStored(j) !in log && KeyRemoved(j) !in log
    ensures Run(Initial(concurrency), schedule).log[ScaleUpCalled(j)] <= 1
  {
    CoalescingBound(concurrency, schedule, j);
  }

  /** Never more `scale_up` calls under way than the semaphore has permits, over all jobs. */
  lemma ConcurrencyBound(concurrency: nat, schedule: seq<Action>)
    ensures Count(Run(Initial(concurrency), schedule).threads, HoldsPermit()) <= concurrency
  {
    LedgerOfRun(concurrency, schedule, "");
  }
}
