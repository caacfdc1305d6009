/** Where endpoints come from, and that jobs do not disturb each other. */
module WakeProvenance {
  import opened Prelude
  import opened Jobs
  import opened WakeProtocol

  /** Nomad or Consul has named `ep` as an endpoint of job `j`. */
  ghost predicate Reported(log: multiset<Event>, j: string, ep: Endpoint) {
    EndpointReported(j, ep) in log || HealthReported(j, ep) in log
  }

  /** The endpoint a thread carries or has returned. */
  function Carried(pc: Pc): Option<Endpoint> {
    match pc
    case FetchInsert(ep) => Some(ep)
    case RefreshInsert(ep) => Some(ep)
    case TaskInsert(_, ep) => Some(ep)
    case TaskSetReady(_, ep) => Some(ep)
    case TaskSendReady(_, ep) => Some(ep)
    case Returned(res) => if res.Ok? then Some(res.value) else None
    case _ => None
  }

  ghost predicate ThreadSourced(log: multiset<Event>, t: Thread) {
    Carried(t.pc).Some? ==> Reported(log, t.reg.jobId, Carried(t.pc).value)
  }

  ghost predicate CellSourced(log: multiset<Event>, c: Cell) {
    forall k :: 0 <= k < |c.sent| && c.sent[k].WakeReady? ==> Reported(log, c.owner, c.sent[k].ep)
  }

  /** Every cached, carried, broadcast or returned endpoint has been reported for its own job. */
  ghost predicate Sourced(w: World) {
    && (forall j :: j in w.endpoints ==> Reported(w.log, j, w.endpoints[j]))
    && (forall i :: 0 <= i < |w.threads| ==> ThreadSourced(w.log, w.threads[i]))
    && (forall c :: 0 <= c < |w.cells| ==> CellSourced(w.log, w.cells[c]))
  }

  /** A move only passes on endpoints that have been reported, counting the report it makes itself. */
  ghost predicate SourcedMove(w: World, i: nat, m: Move)
    requires i < |w.threads|
  {
    var log' := LogAfter(w.log, m.event);
    var t := w.threads[i];
    && ThreadSourced(log', t.(pc := m.pc))
    && (m.effect.PutEndpoint? ==> Reported(log', t.reg.jobId, m.effect.ep))
    && (m.effect.Broadcast? && m.effect.message.WakeReady? ==> Reported(log', t.reg.jobId, m.effect.message.ep))
  }

  lemma AwaitSourced(w: World, i: nat, answer: Answer)
    requires Wf(w) && i < |w.threads| && Sourced(w)
    requires w.threads[i].pc.Await? && w.threads[i].pc.cell < |w.cells|
    ensures SourcedMove(w, i, AwaitMove(w.cells[w.threads[i].pc.cell].sent, w.threads[i].pc, answer))
  {
    assert ThreadWf(w.cells, w.threads[i]) && CellSourced(w.log, w.cells[w.threads[i].pc.cell]);
  }

  lemma CachedSourced(w: World, i: nat, otherwise: Pc)
    requires i < |w.threads| && Sourced(w) && Carried(otherwise).None?
    ensures SourcedMove(w, i, CachedOr(w, w.threads[i].reg.jobId, otherwise))
  {
  }

  lemma FetchSourced(w: World, i: nat, answer: Answer)
    requires i < |w.threads|
    ensures SourcedMove(w, i, FetchMove(w.threads[i].reg.jobId, answer))
  {
  }

  /** A move that neither carries nor passes on an endpoint. */
  lemma PlainSourced(w: World, i: nat, m: Move)
    requires i < |w.threads| && Carried(m.pc).None? && !m.effect.PutEndpoint? && !m.effect.Broadcast?
    ensures SourcedMove(w, i, m)
  {
  }

  lemma RequestSourced(w: World, i: nat, answer: Answer)
    requires Wf(w) && i < |w.threads|
    requires Sourced(w)
    requires TaskCell(w.threads[i].pc).None? && !IsControl(w.threads[i].pc)
    ensures SourcedMove(w, i, RequestMove(w, i, answer))
  {
    var t := w.threads[i];
    assert ThreadWf(w.cells, t) && ThreadSourced(w.log, t);
    var m := RequestMove(w, i, answer);
    if t.pc.Await? {
      AwaitSourced(w, i, answer);
    } else if t.pc.FastPath? {
      CachedSourced(w, i, Enter);
    } else if t.pc.ReadyCheck? {
      CachedSourced(w, i, Fetch);
    } else if t.pc.Fetch? {
      FetchSourced(w, i, answer);
    } else if !(t.pc.FetchInsert? || t.pc.Returned?) {
      PlainSourced(w, i, m);
    }
  }

  lemma HealthSourced(w: World, i: nat, answer: Answer)
    requires i < |w.threads| && w.threads[i].pc.Health?
    ensures SourcedMove(w, i, HealthMove(w, i, answer))
  {
  }

  lemma TaskSourced(w: World, i: nat, answer: Answer)
    requires Wf(w) && i < |w.threads|
    requires Sourced(w)
    requires TaskCell(w.threads[i].pc).Some?
    ensures SourcedMove(w, i, TaskMove(w, i, answer))
  {
    assert ThreadWf(w.cells, w.threads[i]) && ThreadSourced(w.log, w.threads[i]);
    var m := TaskMove(w, i, answer);
    if w.threads[i].pc.Health? {
      HealthSourced(w, i, answer);
    } else if w.threads[i].pc.Scaling? {
      PlainSourced(w, i, ScalingMove(w.threads[i].pc.cell, answer));
    } else if !(w.threads[i].pc.TaskInsert? || w.threads[i].pc.TaskSetReady? || w.threads[i].pc.TaskSendReady? || w.threads[i].pc.TaskSendFailure?) {
      PlainSourced(w, i, m);
    }
  }

  lemma RefreshSourced(w: World, i: nat, answer: Answer)
    requires i < |w.threads|
    ensures SourcedMove(w, i, RefreshMove(w.threads[i].reg.jobId, answer))
  {
  }

  lemma ControlSourced(w: World, i: nat, answer: Answer)
    requires Wf(w) && i < |w.threads|
    requires Sourced(w)
    requires IsControl(w.threads[i].pc)
    ensures SourcedMove(w, i, ControlMove(w, i, answer))
  {
    assert ThreadSourced(w.log, w.threads[i]);
    var m := ControlMove(w, i, answer);
    if w.threads[i].pc.Refresh? {
      RefreshSourced(w, i, answer);
    } else if !w.threads[i].pc.RefreshInsert? {
      PlainSourced(w, i, m);
    }
  }

  lemma DecideSourced(w: World, i: nat, answer: Answer)
    requires Wf(w) && i < |w.threads|
    requires Sourced(w)
    ensures SourcedMove(w, i, Decide(w, i, answer))
  {
    if TaskCell(w.threads[i].pc).Some? {
      TaskSourced(w, i, answer);
    } else if IsControl(w.threads[i].pc) {
      ControlSourced(w, i, answer);
    } else {
      RequestSourced(w, i, answer);
    }
  }

  lemma ReportKept(log: multiset<Event>, event: Option<Event>, j: string, ep: Endpoint)
    requires Reported(log, j, ep)
    ensures Reported(LogAfter(log, event), j, ep)
  {
  }

  lemma ApplyThreadSourced(w: World, i: nat, m: Move, k: nat)
    requires i < |w.threads| && SourcedMove(w, i, m) && Sourced(w) && k < |Apply(w, i, m).threads|
    ensures ThreadSourced(Apply(w, i, m).log, Apply(w, i, m).threads[k])
  {
    if k < |w.threads| && k != i {
      assert ThreadSourced(w.log, w.threads[k]);
    }
  }

  lemma ApplyCellSourced(w: World, i: nat, m: Move, c: nat)
    requires i < |w.threads| && SourcedMove(w, i, m) && Sourced(w) && c < |Apply(w, i, m).cells|
    requires StaysHome(w, w.threads[i].reg.jobId, m)
    ensures CellSourced(Apply(w, i, m).log, Apply(w, i, m).cells[c])
  {
    if c < |w.cells| {
      assert CellSourced(w.log, w.cells[c]);
    }
  }

  lemma ApplyEndpointSourced(w: World, i: nat, m: Move, j: string)
    requires i < |w.threads| && SourcedMove(w, i, m) && Sourced(w) && j in Apply(w, i, m).endpoints
    ensures Reported(Apply(w, i, m).log, j, Apply(w, i, m).endpoints[j])
  {
    if j in w.endpoints {
      ReportKept(w.log, m.event, j, w.endpoints[j]);
    }
  }

  lemma ApplySourced(w: World, i: nat, m: Move)
    requires i < |w.threads| && SourcedMove(w, i, m) && Sourced(w)
    requires StaysHome(w, w.threads[i].reg.jobId, m)
    ensures Sourced(Apply(w, i, m))
  {
    var w' := Apply(w, i, m);
    forall j | j in w'.endpoints ensures Reported(w'.log, j, w'.endpoints[j]) {
      ApplyEndpointSourced(w, i, m, j);
    }
    forall k | 0 <= k < |w'.threads| ensures ThreadSourced(w'.log, w'.threads[k]) {
      ApplyThreadSourced(w, i, m, k);
    }
    forall c | 0 <= c < |w'.cells| ensures CellSourced(w'.log, w'.cells[c]) {
      ApplyCellSourced(w, i, m, c);
    }
  }

  lemma NextSourced(w: World, a: Action)
    requires Wf(w) && Sourced(w)
    ensures Sourced(Next(w, a))
  {
    if a.Step? && a.tid < |w.threads| {
      DecideStaysHome(w, a.tid, a.answer);
      DecideSourced(w, a.tid, a.answer);
      ApplySourced(w, a.tid, Decide(w, a.tid, a.answer));
    }
  }

  lemma {:induction false} SourcedOfRun(concurrency: nat, schedule: seq<Action>)
    ensures Sourced(Run(Initial(concurrency), schedule))
  {
    if schedule != [] {
      var before := schedule[..|schedule| - 1];
      SourcedOfRun(concurrency, before);
      NextSourced(Run(Initial(concurrency), before), schedule[|schedule| - 1]);
    }
  }

  /**
   Provenance: in every interleaving, an endpoint that is cached for a job or returned to a caller of
   `ensure_running` has been reported before, for that very job.
   */
  lemma Provenance(concurrency: nat, schedule: seq<Action>)
    ensures var w := Run(Initial(concurrency), schedule);
            && (forall j :: j in w.endpoints ==> Reported(w.log, j, w.endpoints[j]))
            && (forall i :: 0 <= i < |w.threads| && w.threads[i].pc.Returned? && w.threads[i].pc.res.Ok? ==>
                  Reported(w.log, w.threads[i].reg.jobId, w.threads[i].pc.res.value))
  {
    SourcedOfRun(concurrency, schedule);
    var w := Run(Initial(concurrency), schedule);
    forall i | 0 <= i < |w.threads| && w.threads[i].pc.Returned? && w.threads[i].pc.res.Ok?
      ensures Reported(w.log, w.threads[i].reg.jobId, w.threads[i].pc.res.value)
    {
      assert ThreadSourced(w.log, w.threads[i]);
    }
  }

  /** The wake state and cache entry of job `k` are the same in both worlds. */
  ghost predicate SameFor(w: World, w': World, k: string) {
    && (k in w.jobs <==> k in w'.jobs)
    && (k in w.jobs ==> w'.jobs[k] == w.jobs[k])
    && (k in w.endpoints <==> k in w'.endpoints)
    && (k in w.endpoints ==> w'.endpoints[k] == w.endpoints[k])
    && |w.cells| <= |w'.cells|
    && (forall c :: 0 <= c < |w.cells| && w.cells[c].owner == k ==> w'.cells[c] == w.cells[c])
    && (forall c :: |w.cells| <= c < |w'.cells| ==> w'.cells[c].owner != k)
  }

  /** Isolation: no step of a thread that works for another job touches anything of job `k`. */
  lemma Isolation(w: World, i: nat, answer: Answer, k: string)
    requires Wf(w) && i < |w.threads| && w.threads[i].reg.jobId != k
    ensures SameFor(w, Next(w, Step(i, answer)), k)
  {
    DecideStaysHome(w, i, answer);
  }
}
