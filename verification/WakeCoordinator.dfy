/**
 state.rs and the control operations of coordinator.rs as code that updates objects in place.  Each
 operation here runs without interruption; `ResetUninterrupted` ties that to the step machine.
 */
module WakeObjects {
  import opened Prelude
  import opened Jobs
  import opened WakeProtocol

  class WakeState {
    var status: Status
    var sent: seq<WakeResult>

    constructor ()
      ensures status == Dormant && sent == []
    {
      status, sent := Dormant, [];
    }

    /** Compare-and-swap from DORMANT to WAKING. */
    method TryStartWake() returns (won: bool)
      modifies this`status
      ensures won <==> old(status) == Dormant
      ensures status == if won then Waking else old(status)
    {
      won := status == Dormant;
      if won {
        status := Waking;
      }
    }

    method SetReady()
      modifies this`status
      ensures status == Ready
    {
      status := Ready;
    }

    method SetDormant()
      modifies this`status
      ensures status == Dormant
    {
      status := Dormant;
    }
  }

  datatype EndpointRefresh = Confirmed(ep: Endpoint) | Updated(ep: Endpoint) | Missing

  class WakeCoordinator {
    var jobs: map<string, WakeState>
    var endpoints: map<string, Endpoint>

    constructor ()
      ensures jobs == map[] && endpoints == map[]
    {
      jobs, endpoints := map[], map[];
    }

    /** `entry().or_insert_with()`: no two calls for one key ever see different cells. */
    method GetOrCreate(job: string) returns (state: WakeState)
      modifies this`jobs
      ensures jobs == old(jobs)[job := state]
      ensures job in old(jobs) ==> state == old(jobs)[job]
      ensures job !in old(jobs) ==> fresh(state) && state.status == Dormant && state.sent == []
    {
      if job in jobs {
        state := jobs[job];
      } else {
        state := new WakeState();
        jobs := jobs[job := state];
      }
    }

    /** `mark_dormant` and `invalidate`. */
    method Reset(job: string)
      modifies this, if job in jobs then {jobs[job]} else {}
      ensures endpoints == old(endpoints) - {job}
      ensures jobs == old(jobs) - {job}
      ensures job in old(jobs) ==> old(jobs)[job].status == Dormant && old(jobs)[job].sent == old(jobs[job].sent)
    {
      endpoints := endpoints - {job};
      if job in jobs {
        jobs[job].SetDormant();
      }
      jobs := jobs - {job};
    }

    /** `refresh_endpoint`, given the answer of `get_healthy_endpoint`. */
    method RefreshEndpoint(job: string, current: Endpoint, answer: Result<Option<Endpoint>, WakeError>)
      returns (r: Result<EndpointRefresh, WakeError>)
      modifies this, if job in jobs then {jobs[job]} else {}
      ensures answer.Err? ==> r == Err(answer.error) && endpoints == old(endpoints) && jobs == old(jobs)
      ensures answer.Err? && job in jobs ==> jobs[job].status == old(jobs[job].status)
      ensures answer == Ok(None) ==> r == Ok(Missing) && endpoints == old(endpoints) - {job} && jobs == old(jobs) - {job}
      ensures answer == Ok(None) && job in old(jobs) ==> old(jobs)[job].status == Dormant
      ensures answer.Ok? && answer.value.Some? ==>
                && endpoints == old(endpoints)[job := answer.value.value] && jobs == old(jobs)
                && (job in jobs ==> jobs[job].status == Ready)
                && r.Ok? && !r.value.Missing? && r.value.ep == answer.value.value
                && (r.value.Confirmed? <==> answer.value.value == current)
      ensures job in old(jobs) ==> old(jobs)[job].sent == old(jobs[job].sent)
    {
      match answer
      case Err(e) => r := Err(e);
      case Ok(None) =>
        Reset(job);
        r := Ok(Missing);
      case Ok(Some(ep)) =>
        endpoints := endpoints[job := ep];
        if job in jobs {
          jobs[job].SetReady();
        }
        r := Ok(if ep == current then Confirmed(ep) else Updated(ep));
    }
  }

  lemma RunThree(w: World, a: Action)
    requires Wf(w)
    ensures Wf(Next(w, a)) && Wf(Next(Next(w, a), a))
    ensures Run(w, [a, a, a]) == Next(Next(Next(w, a), a), a)
  {
    NextWf(w, a);
    NextWf(Next(w, a), a);
    RunSnoc(w, [], a);
    RunSnoc(w, [a], a);
    RunSnoc(w, [a, a], a);
    assert [] + [a] == [a] && [a] + [a] == [a, a] && [a, a] + [a] == [a, a, a];
  }

  lemma EvictStep(w: World, i: nat)
    requires Wf(w) && i < |w.threads| && w.threads[i].pc.Evict?
    ensures var job := w.threads[i].reg.jobId; var w' := Next(w, Step(i, Proceed));
            && w'.endpoints == w.endpoints - {job} && w'.jobs == w.jobs && w'.cells == w.cells
            && w'.threads == w.threads[i := w.threads[i].(pc := StoreDormant)] && w'.permits == w.permits
  {
    assert Decide(w, i, Proceed) == ControlMove(w, i, Proceed);
  }

  lemma StoreStep(w: World, i: nat)
    requires Wf(w) && i < |w.threads| && w.threads[i].pc.StoreDormant?
    ensures var job := w.threads[i].reg.jobId; var w' := Next(w, Step(i, Proceed));
            && w'.endpoints == w.endpoints && w'.jobs == w.jobs
            && w'.cells == (if job in w.jobs then w.cells[w.jobs[job] := w.cells[w.jobs[job]].(status := Dormant)] else w.cells)
            && w'.threads == w.threads[i := w.threads[i].(pc := RemoveKey)] && w'.permits == w.permits
  {
    assert Decide(w, i, Proceed) == ControlMove(w, i, Proceed);
  }

  lemma RemoveStep(w: World, i: nat)
    requires Wf(w) && i < |w.threads| && w.threads[i].pc.RemoveKey?
    ensures var job := w.threads[i].reg.jobId; var w' := Next(w, Step(i, Proceed));
            && w'.endpoints == w.endpoints && w'.jobs == w.jobs - {job} && w'.cells == w.cells
            && w'.threads == w.threads[i := w.threads[i].(pc := OpDone)] && w'.permits == w.permits
  {
    assert Decide(w, i, Proceed) == ControlMove(w, i, Proceed);
  }

  /**
   The three steps of a reset, with nothing in between, do what `WakeCoordinator.Reset` does: the job's
   cache entry and key are gone, its cell is dormant, and nothing else has changed.
   */
  lemma ResetUninterrupted(w: World, i: nat)
    requires Wf(w) && i < |w.threads| && w.threads[i].pc.Evict?
    ensures var job := w.threads[i].reg.jobId; var w' := Run(w, [Step(i, Proceed), Step(i, Proceed), Step(i, Proceed)]);
            && w'.endpoints == w.endpoints - {job}
            && w'.jobs == w.jobs - {job}
            && w'.cells == (if job in w.jobs then w.cells[w.jobs[job] := w.cells[w.jobs[job]].(status := Dormant)] else w.cells)
            && w'.threads == w.threads[i := w.threads[i].(pc := OpDone)]
            && w'.permits == w.permits
  {
    RunThree(w, Step(i, Proceed));
    EvictStep(w, i);
    var w1 := Next(w, Step(i, Proceed));
    StoreStep(w1, i);
    RemoveStep(Next(w1, Step(i, Proceed)), i);
  }

  lemma RefreshStep(w: World, i: nat, answer: Answer)
    requires Wf(w) && i < |w.threads| && w.threads[i].pc.Refresh? && answer.Healthy?
    ensures var w' := Next(w, Step(i, answer));
            && w'.endpoints == w.endpoints && w'.jobs == w.jobs && w'.cells == w.cells
            && w'.threads == w.threads[i := w.threads[i].(pc := RefreshInsert(answer.ep))]
  {
    assert Decide(w, i, answer) == ControlMove(w, i, answer);
  }

  lemma InsertStep(w: World, i: nat)
    requires Wf(w) && i < |w.threads| && w.threads[i].pc.RefreshInsert?
    ensures var job := w.threads[i].reg.jobId; var w' := Next(w, Step(i, Proceed));
            && w'.endpoints == w.endpoints[job := w.threads[i].pc.ep] && w'.jobs == w.jobs && w'.cells == w.cells
            && w'.threads == w.threads[i := w.threads[i].(pc := RefreshStore)]
  {
    assert Decide(w, i, Proceed) == ControlMove(w, i, Proceed);
  }

  lemma ReadyStep(w: World, i: nat)
    requires Wf(w) && i < |w.threads| && w.threads[i].pc.RefreshStore?
    ensures var job := w.threads[i].reg.jobId; var w' := Next(w, Step(i, Proceed));
            && w'.endpoints == w.endpoints && w'.jobs == w.jobs
            && w'.cells == (if job in w.jobs then w.cells[w.jobs[job] := w.cells[w.jobs[job]].(status := Ready)] else w.cells)
            && w'.threads == w.threads[i := w.threads[i].(pc := OpDone)]
  {
    assert Decide(w, i, Proceed) == ControlMove(w, i, Proceed);
  }

  /**
   The three steps of a refresh that found an endpoint, with nothing in between, do what
   `WakeCoordinator.RefreshEndpoint` does: the endpoint is cached and the job's cell, if any, ready.
   */
  lemma RefreshUninterrupted(w: World, i: nat, answer: Answer)
    requires Wf(w) && i < |w.threads| && w.threads[i].pc.Refresh? && answer.Healthy?
    ensures var job := w.threads[i].reg.jobId; var w' := Run(w, [Step(i, answer)] + [Step(i, Proceed)] + [Step(i, Proceed)]);
            && w'.endpoints == w.endpoints[job := answer.ep] && w'.jobs == w.jobs
            && w'.cells == (if job in w.jobs then w.cells[w.jobs[job] := w.cells[w.jobs[job]].(status := Ready)] else w.cells)
            && w'.threads == w.threads[i := w.threads[i].(pc := OpDone)]
  {
    NextWf(w, Step(i, answer));
    var w1 := Next(w, Step(i, answer));
    NextWf(w1, Step(i, Proceed));
    RunOne(w, Step(i, answer));
    RunSnoc(w, [Step(i, answer)], Step(i, Proceed));
    RunSnoc(w, [Step(i, answer)] + [Step(i, Proceed)], Step(i, Proceed));
    RefreshStep(w, i, answer);
    InsertStep(w1, i);
    ReadyStep(Next(w1, Step(i, Proceed)), i);
  }

  /** A refresh that fails leaves everything as it was. */
  lemma RefreshFailedKeeps(w: World, i: nat, answer: Answer)
    requires Wf(w) && i < |w.threads| && w.threads[i].pc.Refresh?
    requires answer.JobMissing? || answer.Failure? || answer.HangUp?
    ensures Run(w, [Step(i, answer)]) == w.(threads := w.threads[i := w.threads[i].(pc := OpDone)])
  {
    RunOne(w, Step(i, answer));
    assert Decide(w, i, answer) == ControlMove(w, i, answer);
  }

  /** A refresh that finds no endpoint resets the job. */
  lemma RefreshMissingResets(w: World, i: nat)
    requires Wf(w) && i < |w.threads| && w.threads[i].pc.Refresh?
    ensures var job, reset := w.threads[i].reg.jobId, [Step(i, Proceed), Step(i, Proceed), Step(i, Proceed)];
            var w' := Run(w, [Step(i, NoEndpoint)] + reset);
            && w'.endpoints == w.endpoints - {job} && w'.jobs == w.jobs - {job}
            && w'.cells == (if job in w.jobs then w.cells[w.jobs[job] := w.cells[w.jobs[job]].(status := Dormant)] else w.cells)
  {
    NextWf(w, Step(i, NoEndpoint));
    assert Decide(w, i, NoEndpoint) == ControlMove(w, i, NoEndpoint);
    var w1 := Next(w, Step(i, NoEndpoint));
    assert w1 == w.(threads := w.threads[i := w.threads[i].(pc := Evict)]);
    RunOne(w, Step(i, NoEndpoint));
    RunConcat(w, [Step(i, NoEndpoint)], [Step(i, Proceed), Step(i, Proceed), Step(i, Proceed)]);
    ResetUninterrupted(w1, i);
  }
}
