/** The coalescing bound is attained: between the two steps of a reset and after it, a job can be woken again. */
module WakeTightness {
  import opened Prelude
  import opened Jobs
  import opened WakeProtocol

  /** A wake of the job can begin: nothing is cached, and its cell is dormant or missing. */
  ghost predicate Wakeable(w: World, job: string) {
    && Wf(w) && w.permits >= 1 && job !in w.endpoints
    && (job in w.jobs ==> w.cells[w.jobs[job]].status == Dormant)
  }

  /** The job is being woken. */
  ghost predicate BeingWoken(w: World, job: string) {
    && Wf(w) && w.permits >= 1 && job !in w.endpoints
    && job in w.jobs && w.cells[w.jobs[job]].status == Waking
  }

  /** Threads other than i are where they were. */
  ghost predicate OthersStay(w: World, w': World, i: nat) {
    |w.threads| <= |w'.threads| && forall k :: 0 <= k < |w.threads| && k != i ==> w'.threads[k] == w.threads[k]
  }

  lemma RequestStep(w: World, i: nat)
    requires Wf(w) && i < |w.threads| && TaskCell(w.threads[i].pc).None? && !IsControl(w.threads[i].pc)
    ensures Wf(Next(w, Step(i, Proceed)))
    ensures Next(w, Step(i, Proceed)) == Apply(w, i, RequestMove(w, i, Proceed))
  {
    NextWf(w, Step(i, Proceed));
  }

  lemma TaskStep(w: World, i: nat)
    requires Wf(w) && i < |w.threads| && TaskCell(w.threads[i].pc).Some?
    ensures Wf(Next(w, Step(i, Proceed)))
    ensures Next(w, Step(i, Proceed)) == Apply(w, i, TaskMove(w, i, Proceed))
  {
    NextWf(w, Step(i, Proceed));
  }

  lemma RunTwo(w: World, a: Action, b: Action)
    requires Wf(w)
    ensures Wf(Next(w, a)) && Run(w, [a, b]) == Next(Next(w, a), b)
  {
    NextWf(w, a);
    RunOne(w, a);
    RunSnoc(w, [a], b);
    assert [a] + [b] == [a, b];
  }

  /** A new request finds nothing in the cache and takes the cell of its job. */
  lemma Enters(w: World, reg: JobRegistration) returns (s: seq<Action>)
    requires Wakeable(w, reg.jobId)
    ensures var w' := Run(w, s);
            && |w'.threads| == |w.threads| + 1
            && reg.jobId in w'.jobs && w'.threads[|w.threads|] == Thread(reg, Load(w'.jobs[reg.jobId]))
            && w'.cells[w'.jobs[reg.jobId]].status == Dormant
            && w'.endpoints == w.endpoints && w'.permits == w.permits && w'.log == w.log
            && OthersStay(w, w', |w.threads|)
  {
    var n := |w.threads|;
    var begin, step := Start(reg, EnsureRunning), Step(n, Proceed);
    RunTwo(w, begin, step);
    var w1 := Next(w, begin);
    RequestStep(w1, n);
    var w2 := Next(w1, step);
    assert w2.threads[n] == Thread(reg, Enter);
    RequestStep(w2, n);
    RunSnoc(w, [begin, step], step);
    s := [begin, step] + [step];
  }

  /** It wins the compare-and-swap. */
  lemma Wins(w: World, n: nat, c: nat) returns (s: seq<Action>)
    requires Wf(w) && n < |w.threads| && w.threads[n].pc == Load(c) && c < |w.cells| && w.cells[c].status == Dormant
    ensures var w' := Run(w, s);
            && w'.threads == w.threads[n := w.threads[n].(pc := WinnerSubscribe(c))]
            && w'.jobs == w.jobs && w'.cells == w.cells[c := w.cells[c].(status := Waking)]
            && w'.endpoints == w.endpoints && w'.permits == w.permits
            && w'.log == w.log + multiset{CasWon(w.threads[n].reg.jobId)}
  {
    var step := Step(n, Proceed);
    RunTwo(w, step, step);
    RequestStep(w, n);
    var w1 := Next(w, step);
    assert w1.threads[n].pc == TryCas(c);
    RequestStep(w1, n);
    s := [step, step];
  }

  /** A step that changes nothing but the places of threads. */
  ghost predicate OnlyThreads(w: World, w': World) {
    w'.jobs == w.jobs && w'.cells == w.cells && w'.endpoints == w.endpoints && w'.permits == w.permits && w'.log == w.log
  }

  lemma SubscribeStep(w: World, n: nat, c: nat)
    requires Wf(w) && n < |w.threads| && w.threads[n].pc == WinnerSubscribe(c) && c < |w.cells|
    ensures var w' := Next(w, Step(n, Proceed));
            Wf(w') && OnlyThreads(w, w') && w'.threads == w.threads[n := w.threads[n].(pc := Spawn(c, |w.cells[c].sent|))]
  {
    RequestStep(w, n);
  }

  lemma SpawnStep(w: World, n: nat, c: nat)
    requires Wf(w) && n < |w.threads| && w.threads[n].pc.Spawn? && w.threads[n].pc.cell == c
    ensures var w' := Next(w, Step(n, Proceed));
            && Wf(w') && OnlyThreads(w, w') && |w'.threads| == |w.threads| + 1
            && w'.threads[|w.threads|] == Thread(w.threads[n].reg, Acquire(c)) && OthersStay(w, w', n)
  {
    RequestStep(w, n);
  }

  /** It subscribes and spawns the wake task. */
  lemma Spawns(w: World, n: nat, c: nat) returns (s: seq<Action>)
    requires Wf(w) && n < |w.threads| && w.threads[n].pc == WinnerSubscribe(c) && c < |w.cells|
    ensures var w' := Run(w, s);
            && OnlyThreads(w, w') && |w'.threads| == |w.threads| + 1
            && w'.threads[|w.threads|] == Thread(w.threads[n].reg, Acquire(c)) && OthersStay(w, w', n)
  {
    var step := Step(n, Proceed);
    RunTwo(w, step, step);
    SubscribeStep(w, n, c);
    SpawnStep(Next(w, step), n, c);
    s := [step, step];
  }

  lemma AcquireStep(w: World, t: nat, c: nat)
    requires Wf(w) && t < |w.threads| && w.threads[t].pc == Acquire(c) && w.permits >= 1
    ensures var w' := Next(w, Step(t, Proceed));
            && Wf(w') && w'.threads == w.threads[t := w.threads[t].(pc := CallScaleUp(c))]
            && OnlyThreads(w, w'.(permits := w.permits)) && w'.permits == w.permits - 1
  {
    TaskStep(w, t);
  }

  lemma CallStep(w: World, t: nat, c: nat)
    requires Wf(w) && t < |w.threads| && w.threads[t].pc == CallScaleUp(c)
    ensures var w' := Next(w, Step(t, Proceed));
            && Wf(w') && w'.threads == w.threads[t := w.threads[t].(pc := Scaling(c))]
            && OnlyThreads(w, w'.(log := w.log)) && w'.log == w.log + multiset{ScaleUpCalled(w.threads[t].reg.jobId)}
  {
    TaskStep(w, t);
  }

  lemma AnswerStep(w: World, t: nat, c: nat)
    requires Wf(w) && t < |w.threads| && w.threads[t].pc == Scaling(c)
    ensures var w' := Next(w, Step(t, Proceed));
            && Wf(w') && OthersStay(w, w', t)
            && OnlyThreads(w, w'.(permits := w.permits)) && w'.permits == w.permits + 1
  {
    TaskStep(w, t);
  }

  /** The task calls `scale_up` and gives its permit back. */
  lemma ScalesUp(w: World, t: nat, c: nat) returns (s: seq<Action>)
    requires Wf(w) && t < |w.threads| && w.threads[t].pc == Acquire(c) && w.permits >= 1
    ensures var w' := Run(w, s);
            && OnlyThreads(w, w'.(log := w.log)) && OthersStay(w, w', t)
            && w'.log == w.log + multiset{ScaleUpCalled(w.threads[t].reg.jobId)}
  {
    var step := Step(t, Proceed);
    RunTwo(w, step, step);
    AcquireStep(w, t, c);
    var w1 := Next(w, step);
    CallStep(w1, t, c);
    AnswerStep(Next(w1, step), t, c);
    RunSnoc(w, [step, step], step);
    s := [step, step] + [step];
  }

  /** A whole wake, up to the call: one more `scale_up`, and no other event but the won swap. */
  lemma WakeOnce(w: World, reg: JobRegistration) returns (s: seq<Action>)
    requires Wakeable(w, reg.jobId)
    ensures BeingWoken(Run(w, s), reg.jobId)
    ensures Run(w, s).log == w.log + multiset{CasWon(reg.jobId)} + multiset{ScaleUpCalled(reg.jobId)}
    ensures OthersStay(w, Run(w, s), |w.threads|)
  {
    var n := |w.threads|;
    var s1 := Enters(w, reg);
    var w1 := Run(w, s1);
    var c := w1.jobs[reg.jobId];
    var s2 := Wins(w1, n, c);
    var w2 := Run(w1, s2);
    var s3 := Spawns(w2, n, c);
    var w3 := Run(w2, s3);
    var s4 := ScalesUp(w3, |w2.threads|, c);
    RunConcat(w, s1, s2);
    RunConcat(w, s1 + s2, s3);
    RunConcat(w, s1 + s2 + s3, s4);
    s := s1 + s2 + s3 + s4;
  }

  lemma ControlStep(w: World, i: nat)
    requires Wf(w) && i < |w.threads| && IsControl(w.threads[i].pc)
    ensures Wf(Next(w, Step(i, Proceed)))
    ensures Next(w, Step(i, Proceed)) == Apply(w, i, ControlMove(w, i, Proceed))
  {
    NextWf(w, Step(i, Proceed));
  }

  lemma EvictsFirst(w: World, n: nat, job: string)
    requires BeingWoken(w, job) && n < |w.threads| && w.threads[n].pc == Evict && w.threads[n].reg.jobId == job
    ensures var w' := Next(w, Step(n, Proceed));
            && BeingWoken(w', job) && w'.threads == w.threads[n := w.threads[n].(pc := StoreDormant)]
            && w'.log == w.log + multiset{CacheEvicted(job)}
  {
    ControlStep(w, n);
  }

  lemma ThenStores(w: World, n: nat, job: string)
    requires BeingWoken(w, job) && n < |w.threads| && w.threads[n].pc == StoreDormant && w.threads[n].reg.jobId == job
    ensures var w' := Next(w, Step(n, Proceed));
            && Wakeable(w', job) && w'.threads == w.threads[n := w.threads[n].(pc := RemoveKey)]
            && w'.log == w.log + multiset{DormantStored(job)}
  {
    ControlStep(w, n);
  }

  /** A reset up to the store: the cell is dormant again, the key still there. */
  lemma StoresDormant(w: World, reg: JobRegistration) returns (s: seq<Action>)
    requires BeingWoken(w, reg.jobId)
    ensures var w' := Run(w, s);
            && Wakeable(w', reg.jobId)
            && |w'.threads| == |w.threads| + 1 && w'.threads[|w.threads|] == Thread(reg, RemoveKey)
            && w'.log == w.log + multiset{CacheEvicted(reg.jobId)} + multiset{DormantStored(reg.jobId)}
  {
    var n := |w.threads|;
    var begin, step := Start(reg, MarkDormant), Step(n, Proceed);
    RunTwo(w, begin, step);
    var w1 := Next(w, begin);
    EvictsFirst(w1, n, reg.jobId);
    var w2 := Next(w1, step);
    ThenStores(w2, n, reg.jobId);
    RunSnoc(w, [begin, step], step);
    s := [begin, step] + [step];
  }

  /** The rest of the reset: the key goes, and with it the wake that began in between. */
  lemma RemovesKey(w: World, n: nat, job: string)
    requires BeingWoken(w, job) && n < |w.threads| && w.threads[n].pc == RemoveKey && w.threads[n].reg.jobId == job
    ensures var w' := Run(w, [Step(n, Proceed)]);
            Wakeable(w', job) && w'.log == w.log + multiset{KeyRemoved(job)}
  {
    RunOne(w, Step(n, Proceed));
    ControlStep(w, n);
  }

  /** What the history says of one job: calls of `scale_up`, dormant stores and key removals. */
  ghost predicate Tally(w: World, job: string, calls: nat, stores: nat, removals: nat) {
    && w.log[ScaleUpCalled(job)] == calls
    && w.log[DormantStored(job)] == stores
    && w.log[KeyRemoved(job)] == removals
  }

  /** One reset, and two wakes: one between its steps and one after it. */
  lemma ResetRound(w: World, reg: JobRegistration, calls: nat, resets: nat) returns (s: seq<Action>)
    requires BeingWoken(w, reg.jobId) && Tally(w, reg.jobId, calls, resets, resets)
    ensures BeingWoken(Run(w, s), reg.jobId)
    ensures Tally(Run(w, s), reg.jobId, calls + 2, resets + 1, resets + 1)
  {
    var n := |w.threads|;
    var s1 := StoresDormant(w, reg);
    var w1 := Run(w, s1);
    var s2 := WakeOnce(w1, reg);
    var w2 := Run(w1, s2);
    RemovesKey(w2, n, reg.jobId);
    var s3 := [Step(n, Proceed)];
    var s4 := WakeOnce(Run(w2, s3), reg);
    RunConcat(w, s1, s2);
    RunConcat(w, s1 + s2, s3);
    RunConcat(w, s1 + s2 + s3, s4);
    s := s1 + s2 + s3 + s4;
  }

  /**
   The bound of `CoalescingBound` is attained for every number of resets: n resets, each of one dormant
   store and one removal, allow 1 + n + n calls of `scale_up`, and some schedule makes them all.
   */
  lemma {:induction false} BoundAttained(concurrency: nat, reg: JobRegistration, n: nat) returns (s: seq<Action>)
    requires concurrency >= 1
    ensures BeingWoken(Run(Initial(concurrency), s), reg.jobId)
    ensures Tally(Run(Initial(concurrency), s), reg.jobId, 1 + n + n, n, n)
  {
    if n == 0 {
      s := WakeOnce(Initial(concurrency), reg);
    } else {
      var before := BoundAttained(concurrency, reg, n - 1);
      var round := ResetRound(Run(Initial(concurrency), before), reg, 1 + (n - 1) + (n - 1), n - 1);
      RunConcat(Initial(concurrency), before, round);
      s := before + round;
    }
  }
}
