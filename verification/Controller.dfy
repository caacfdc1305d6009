/**
 The scale-down controller: one replica works through its idle jobs one after the other.

 `ScaleDownJob` is one call of `scale_down_job`, given what its surroundings answer; times are
 milliseconds.  A run is any sequence of calls with a clock that does not go back.
 */
module ControllerSpec {
  import opened Prelude
  import opened Jobs

  /** How long a job is left alone after Nomad reported a deployment in progress. */
  const DEPLOYMENT_BACKOFF: nat := 30_000

  /** One call of `scale_down` on the orchestrator, for the activity key it was made for. */
  datatype Attempt = Attempt(key: string, target: string, started: nat, ended: nat, blocked: bool)

  /**
   `deferred` holds the earliest retry times, `baselines` the last request counters of the traffic probe,
   `activity` the scores in Redis, `dormant` the `mark_dormant` calls, `log` the attempts.
   */
  datatype Controller = Controller(
    deferred: map<string, nat>,
    baselines: map<string, nat>,
    activity: map<string, nat>,
    dormant: seq<string>,
    log: seq<Attempt>)

  datatype Scrape = NoProbe | ScrapeFailed | Scraped(total: nat)

  datatype Lookup = Registered(reg: JobRegistration) | NotRegistered | LookupFailed

  datatype ScaleAnswer = ScaledDown | JobNotFound | DeploymentInProgress | OtherError

  /** `missingCount` is what the shared missing-job counter returns; None if it is off or fails. */
  datatype Env = Env(
    checkAt: nat,
    inFlight: nat,
    scrape: Scrape,
    lookup: Lookup,
    startAt: nat,
    answer: ScaleAnswer,
    endAt: nat,
    doneAt: nat,
    storeOk: bool,
    missingCount: Option<nat>)

  function Record(c: Controller, key: string, at: nat, ok: bool): Controller {
    if ok then c.(activity := c.activity[key := at]) else c
  }

  function Forget(c: Controller, key: string, ok: bool): Controller {
    if ok then c.(activity := c.activity - {key}) else c
  }

  /** `has_active_traffic`: has the counter grown since the last look, or is it positive at the first? */
  predicate ActiveTraffic(baselines: map<string, nat>, key: string, total: nat) {
    total > if key in baselines then baselines[key] else 0
  }

  /** `mark_dormant`, activity removed, baseline and deferral cleared. */
  function Release(c: Controller, key: string, ok: bool): Controller {
    Forget(c, key, ok).(dormant := c.dormant + [key], baselines := c.baselines - {key}, deferred := c.deferred - {key})
  }

  function OnAnswer(c: Controller, key: string, env: Env, threshold: nat): Controller {
    match env.answer
    case ScaledDown => Release(c, key, env.storeOk)
    case JobNotFound =>
      if env.missingCount.Some? && env.missingCount.value >= threshold then Release(c, key, env.storeOk) else c
    case DeploymentInProgress =>
      Record(c.(deferred := c.deferred[key := env.doneAt + DEPLOYMENT_BACKOFF]), key, env.doneAt, env.storeOk)
    case OtherError => c
  }

  function PastTraffic(c: Controller, key: string, env: Env, threshold: nat): Controller {
    match env.lookup
    case NotRegistered => Forget(c, key, env.storeOk)
    case LookupFailed => c
    case Registered(reg) =>
      var attempt := Attempt(key, reg.jobId, env.startAt, env.endAt, env.answer == DeploymentInProgress);
      OnAnswer(c.(log := c.log + [attempt]), key, env, threshold)
  }

  function PastInFlight(c: Controller, key: string, env: Env, threshold: nat): Controller {
    match env.scrape
    case NoProbe => PastTraffic(c, key, env, threshold)
    case ScrapeFailed => c
    case Scraped(total) =>
      var c' := c.(baselines := c.baselines[key := total]);
      if ActiveTraffic(c.baselines, key, total) then Record(c', key, env.checkAt, env.storeOk)
      else PastTraffic(c', key, env, threshold)
  }

  function ScaleDownJob(c: Controller, key: string, env: Env, threshold: nat): Controller {
    if key in c.deferred && env.checkAt < c.deferred[key] then c
    else
      var c' := c.(deferred := c.deferred - {key});
      if env.inFlight > 0 then Record(c', key, env.checkAt, env.storeOk)
      else PastInFlight(c', key, env, threshold)
  }

  datatype Call = Call(key: string, env: Env)

  function RunCalls(c: Controller, calls: seq<Call>, threshold: nat): Controller {
    if calls == [] then c
    else
      var last := calls[|calls| - 1];
      ScaleDownJob(RunCalls(c, calls[..|calls| - 1], threshold), last.key, last.env, threshold)
  }

  // ---------------------------------------------------------------------------------------------

  /** The guards in front of `scale_down`. */
  ghost predicate Clear(c: Controller, key: string, env: Env) {
    && !(key in c.deferred && env.checkAt < c.deferred[key])
    && env.inFlight == 0
    && (match env.scrape
        case NoProbe => true
        case ScrapeFailed => false
        case Scraped(total) => !ActiveTraffic(c.baselines, key, total))
    && env.lookup.Registered?
  }

  /** A job is scaled down exactly when every guard lets it through, once per call, and under its own job id. */
  lemma AttemptIffClear(c: Controller, key: string, env: Env, threshold: nat)
    ensures var log' := ScaleDownJob(c, key, env, threshold).log;
            if Clear(c, key, env) then
              |log'| == |c.log| + 1 && log'[..|c.log|] == c.log && log'[|c.log|].key == key
              && log'[|c.log|].target == env.lookup.reg.jobId && log'[|c.log|].started == env.startAt
            else log' == c.log
  {
  }

  /** Nomad's answer makes the controller give the job up: scaled down, or missing once too often. */
  predicate GivesUp(env: Env, threshold: nat) {
    env.answer == ScaledDown ||
    (env.answer == JobNotFound && env.missingCount.Some? && env.missingCount.value >= threshold)
  }

  /**
   A call marks a job dormant exactly if it attempted a scale-down and gave the job up; the key is then deferred
   no more, has no baseline, and is out of the activity set if Redis answered.
   */
  lemma DormantIffGivenUp(c: Controller, key: string, env: Env, threshold: nat)
    ensures var c' := ScaleDownJob(c, key, env, threshold);
            if Clear(c, key, env) && GivesUp(env, threshold) then
              && c'.dormant == c.dormant + [key] && key !in c'.deferred && key !in c'.baselines
              && (env.storeOk ==> key !in c'.activity)
            else c'.dormant == c.dormant
  {
  }

  predicate SameEntry(m: map<string, nat>, m': map<string, nat>, k: string) {
    (k in m <==> k in m') && (k in m ==> m'[k] == m[k])
  }

  ghost predicate SameFor(c: Controller, c': Controller, other: string) {
    && SameEntry(c.deferred, c'.deferred, other)
    && SameEntry(c.baselines, c'.baselines, other)
    && SameEntry(c.activity, c'.activity, other)
    && (other in c'.dormant <==> other in c.dormant)
  }

  lemma AnswerSameFor(c: Controller, key: string, env: Env, threshold: nat, other: string)
    requires other != key
    ensures SameFor(c, OnAnswer(c, key, env, threshold), other)
  {
  }

  lemma TrafficSameFor(c: Controller, key: string, env: Env, threshold: nat, other: string)
    requires other != key
    ensures SameFor(c, PastTraffic(c, key, env, threshold), other)
  {
    if env.lookup.Registered? {
      var attempt := Attempt(key, env.lookup.reg.jobId, env.startAt, env.endAt, env.answer == DeploymentInProgress);
      AnswerSameFor(c.(log := c.log + [attempt]), key, env, threshold, other);
    }
  }

  lemma RecordSameFor(c: Controller, key: string, at: nat, ok: bool, other: string)
    requires other != key
    ensures SameFor(c, Record(c, key, at, ok), other)
  {
  }

  lemma SameForTwice(c: Controller, c1: Controller, c2: Controller, other: string)
    requires SameFor(c, c1, other) && SameFor(c1, c2, other)
    ensures SameFor(c, c2, other)
  {
  }

  lemma InFlightSameFor(c: Controller, key: string, env: Env, threshold: nat, other: string)
    requires other != key
    ensures SameFor(c, PastInFlight(c, key, env, threshold), other)
  {
    if env.scrape.Scraped? {
      var c' := c.(baselines := c.baselines[key := env.scrape.total]);
      if ActiveTraffic(c.baselines, key, env.scrape.total) {
        RecordSameFor(c', key, env.checkAt, env.storeOk, other);
      } else {
        TrafficSameFor(c', key, env, threshold, other);
      }
      SameForTwice(c, c', PastInFlight(c, key, env, threshold), other);
    } else if env.scrape.NoProbe? {
      TrafficSameFor(c, key, env, threshold, other);
    }
  }

  /** A call touches nothing of any other key. */
  lemma OtherKeysUntouched(c: Controller, key: string, env: Env, threshold: nat, other: string)
    requires other != key
    ensures SameFor(c, ScaleDownJob(c, key, env, threshold), other)
  {
    if !(key in c.deferred && env.checkAt < c.deferred[key]) {
      var c' := c.(deferred := c.deferred - {key});
      if env.inFlight > 0 {
        RecordSameFor(c', key, env.checkAt, env.storeOk, other);
      } else {
        InFlightSameFor(c', key, env, threshold, other);
      }
      SameForTwice(c, c', ScaleDownJob(c, key, env, threshold), other);
    }
  }

  ghost predicate NotAbout(calls: seq<Call>, key: string) {
    forall i :: 0 <= i < |calls| ==> calls[i].key != key
  }

  lemma {:induction false} OthersRun(c: Controller, calls: seq<Call>, threshold: nat, key: string)
    requires NotAbout(calls, key)
    ensures SameFor(c, RunCalls(c, calls, threshold), key)
  {
    if calls != [] {
      var before, last := calls[..|calls| - 1], calls[|calls| - 1];
      OthersRun(c, before, threshold, key);
      OtherKeysUntouched(RunCalls(c, before, threshold), last.key, last.env, threshold, key);
      SameForTwice(c, RunCalls(c, before, threshold), RunCalls(c, calls, threshold), key);
    }
  }

  /**
   After a job has been given up its next call starts afresh, whatever happens to other jobs in between: no old
   deferral and no old request counter can hold it back, so an attempt follows exactly if nothing is in flight,
   the counter read is zero or there is no probe, and the job is registered.
   */
  lemma ReleasedStartsAfresh(c: Controller, key: string, env: Env, between: seq<Call>, later: Env, threshold: nat)
    requires Clear(c, key, env) && GivesUp(env, threshold) && NotAbout(between, key)
    ensures var c' := RunCalls(ScaleDownJob(c, key, env, threshold), between, threshold);
            |ScaleDownJob(c', key, later, threshold).log| > |c'.log| <==>
              && later.inFlight == 0 && later.lookup.Registered?
              && (later.scrape.NoProbe? || (later.scrape.Scraped? && later.scrape.total == 0))
  {
    var c1 := ScaleDownJob(c, key, env, threshold);
    DormantIffGivenUp(c, key, env, threshold);
    OthersRun(c1, between, threshold, key);
    AttemptIffClear(RunCalls(c1, between, threshold), key, later, threshold);
  }

  ghost predicate InOrder(env: Env) {
    env.checkAt <= env.startAt <= env.endAt <= env.doneAt
  }

  /** The clock of a run does not go back. */
  ghost predicate Clocked(calls: seq<Call>) {
    && (forall i :: 0 <= i < |calls| ==> InOrder(calls[i].env))
    && (forall i :: 0 < i < |calls| ==> calls[i - 1].env.doneAt <= calls[i].env.checkAt)
  }

  function Clock(calls: seq<Call>): nat {
    if calls == [] then 0 else calls[|calls| - 1].env.doneAt
  }

  /** Every blocked attempt still defers its key, or its backoff is over. */
  ghost predicate Deferring(c: Controller, now: nat) {
    forall i :: 0 <= i < |c.log| && c.log[i].blocked ==>
      var until := c.log[i].ended + DEPLOYMENT_BACKOFF;
      now >= until || (c.log[i].key in c.deferred && c.deferred[c.log[i].key] >= until)
  }

  ghost predicate BackedOff(log: seq<Attempt>) {
    forall i, k :: 0 <= i < k < |log| && log[i].blocked && log[k].key == log[i].key ==>
      log[k].started >= log[i].ended + DEPLOYMENT_BACKOFF
  }

  lemma CallDefers(c: Controller, key: string, env: Env, threshold: nat, now: nat)
    requires Deferring(c, now) && BackedOff(c.log) && now <= env.checkAt && InOrder(env)
    ensures var c' := ScaleDownJob(c, key, env, threshold); Deferring(c', env.doneAt) && BackedOff(c'.log)
  {
    AttemptIffClear(c, key, env, threshold);
    var c' := ScaleDownJob(c, key, env, threshold);
    forall i | 0 <= i < |c'.log| && c'.log[i].blocked
      ensures var until := c'.log[i].ended + DEPLOYMENT_BACKOFF;
              env.doneAt >= until || (c'.log[i].key in c'.deferred && c'.deferred[c'.log[i].key] >= until)
    {
      if i < |c.log| {
        assert c'.log[i] == c.log[i];
        if c.log[i].key != key {
          OtherKeysUntouched(c, key, env, threshold, c.log[i].key);
        }
      }
    }
    forall i, k | 0 <= i < k < |c'.log| && c'.log[i].blocked && c'.log[k].key == c'.log[i].key
      ensures c'.log[k].started >= c'.log[i].ended + DEPLOYMENT_BACKOFF
    {
      assert c'.log[i] == c.log[i];
      if k < |c.log| {
        assert c'.log[k] == c.log[k];
      }
    }
  }

  lemma {:induction false} DeferringRun(c: Controller, calls: seq<Call>, threshold: nat)
    requires c.log == [] && Clocked(calls)
    ensures var c' := RunCalls(c, calls, threshold); Deferring(c', Clock(calls)) && BackedOff(c'.log)
  {
    if calls != [] {
      var before, last := calls[..|calls| - 1], calls[|calls| - 1];
      DeferringRun(c, before, threshold);
      CallDefers(RunCalls(c, before, threshold), last.key, last.env, threshold, Clock(before));
    }
  }

  /**
   Deployment backoff: whatever happens in between, on that key or on others, the controller does not try a
   job again within thirty seconds of an attempt that a deployment blocked.
   */
  lemma NoRetryWithinBackoff(c: Controller, calls: seq<Call>, threshold: nat, i: nat, k: nat)
    requires c.log == [] && Clocked(calls)
    requires var log := RunCalls(c, calls, threshold).log;
             i < k < |log| && log[i].blocked && log[k].key == log[i].key
    ensures var log := RunCalls(c, calls, threshold).log;
            log[k].started >= log[i].ended + 30_000
  {
    DeferringRun(c, calls, threshold);
  }

  // ---------------------------------------------------------------------------------------------
  // In terms of what a run of calls has seen

  const START: Controller := Controller(map[], map[], map[], [], [])

  /** No deployment that blocked an earlier attempt on the key of call i can still defer it. */
  ghost predicate NotBackingOff(calls: seq<Call>, i: nat)
    requires i < |calls|
  {
    forall m :: 0 <= m < i && calls[m].key == calls[i].key && calls[m].env.answer == DeploymentInProgress ==>
      calls[i].env.checkAt >= calls[m].env.doneAt + 30_000
  }

  /** Call i gets as far as reading the request counter of its key, and reads `total`. */
  ghost predicate Reads(calls: seq<Call>, i: nat, key: string, total: nat) {
    && i < |calls| && calls[i].key == key && NotBackingOff(calls, i)
    && calls[i].env.inFlight == 0 && calls[i].env.scrape == Scraped(total)
  }

  /** The call reads no counter and gives no job up. */
  predicate Silent(env: Env, threshold: nat) {
    env.inFlight > 0 || (!env.scrape.Scraped? && !GivesUp(env, threshold))
  }

  ghost predicate SilentBetween(calls: seq<Call>, i: nat, k: nat, key: string, threshold: nat) {
    forall m :: i < m < k < |calls| && calls[m].key == key ==> Silent(calls[m].env, threshold)
  }

  /** A deferral comes from an attempt that a deployment blocked. */
  ghost predicate DeferredByBlock(calls: seq<Call>, c: Controller) {
    forall key :: key in c.deferred ==>
      exists m :: 0 <= m < |calls| && calls[m].key == key && calls[m].env.answer == DeploymentInProgress &&
                  c.deferred[key] == calls[m].env.doneAt + 30_000
  }

  lemma CallDeferral(c: Controller, key: string, env: Env, threshold: nat)
    ensures var c' := ScaleDownJob(c, key, env, threshold);
            key in c'.deferred ==>
              (key in c.deferred && c'.deferred[key] == c.deferred[key]) ||
              (env.answer == DeploymentInProgress && c'.deferred[key] == env.doneAt + 30_000)
  {
  }

  lemma {:induction false} DeferralsExplained(calls: seq<Call>, threshold: nat)
    ensures DeferredByBlock(calls, RunCalls(START, calls, threshold))
  {
    if calls != [] {
      var before, last := calls[..|calls| - 1], calls[|calls| - 1];
      var c, c' := RunCalls(START, before, threshold), RunCalls(START, calls, threshold);
      DeferralsExplained(before, threshold);
      forall key | key in c'.deferred
        ensures exists m :: 0 <= m < |calls| && calls[m].key == key && calls[m].env.answer == DeploymentInProgress &&
                            c'.deferred[key] == calls[m].env.doneAt + 30_000
      {
        if key == last.key {
          CallDeferral(c, key, last.env, threshold);
        } else {
          OtherKeysUntouched(c, last.key, last.env, threshold, key);
        }
        if key in c.deferred && c'.deferred[key] == c.deferred[key] {
          var m :| 0 <= m < |before| && before[m].key == key && before[m].env.answer == DeploymentInProgress &&
                   c.deferred[key] == before[m].env.doneAt + 30_000;
          assert calls[m] == before[m];
        } else {
          assert calls[|calls| - 1] == last;
        }
      }
    }
  }

  /** The call is not deferred when its turn comes. */
  lemma NotDeferred(calls: seq<Call>, i: nat, threshold: nat)
    requires i < |calls| && NotBackingOff(calls, i)
    ensures var c := RunCalls(START, calls[..i], threshold);
            !(calls[i].key in c.deferred && calls[i].env.checkAt < c.deferred[calls[i].key])
  {
    DeferralsExplained(calls[..i], threshold);
  }

  lemma ReadSetsBaseline(c: Controller, key: string, env: Env, threshold: nat)
    requires !(key in c.deferred && env.checkAt < c.deferred[key]) && env.inFlight == 0 && env.scrape.Scraped?
    requires !GivesUp(env, threshold)
    ensures var c' := ScaleDownJob(c, key, env, threshold); key in c'.baselines && c'.baselines[key] == env.scrape.total
  {
  }

  lemma SilentKeepsBaseline(c: Controller, key: string, env: Env, threshold: nat)
    requires Silent(env, threshold)
    ensures ScaleDownJob(c, key, env, threshold).baselines == c.baselines
  {
  }

  lemma {:induction false} BaselineIsLastRead(calls: seq<Call>, i: nat, k: nat, key: string, total: nat, threshold: nat)
    requires i < k < |calls| && Reads(calls, i, key, total) && !GivesUp(calls[i].env, threshold)
    requires SilentBetween(calls, i, k, key, threshold)
    ensures var c := RunCalls(START, calls[..k], threshold); key in c.baselines && c.baselines[key] == total
  {
    var m := k - 1;
    var c := RunCalls(START, calls[..m], threshold);
    assert calls[..k][..m] == calls[..m];
    if m == i {
      NotDeferred(calls, i, threshold);
      ReadSetsBaseline(c, key, calls[i].env, threshold);
    } else {
      BaselineIsLastRead(calls, i, m, key, total, threshold);
      if calls[m].key == key {
        SilentKeepsBaseline(c, key, calls[m].env, threshold);
      } else {
        OtherKeysUntouched(c, calls[m].key, calls[m].env, threshold, key);
      }
    }
  }

  /** Call k makes an attempt. */
  ghost predicate Attempts(calls: seq<Call>, k: nat, threshold: nat)
    requires k < |calls|
  {
    |RunCalls(START, calls[..k + 1], threshold).log| == |RunCalls(START, calls[..k], threshold).log| + 1
  }

  lemma AttemptsIffClear(calls: seq<Call>, k: nat, threshold: nat)
    requires k < |calls|
    ensures Attempts(calls, k, threshold) <==> Clear(RunCalls(START, calls[..k], threshold), calls[k].key, calls[k].env)
  {
    assert calls[..k + 1][..k] == calls[..k];
    AttemptIffClear(RunCalls(START, calls[..k], threshold), calls[k].key, calls[k].env, threshold);
  }

  /**
   The traffic guard over runs: if the last counter read for a key was p, and the job has not been given up since,
   a call that reads the counter again scales the job down exactly if it has not grown and the job is registered.
   */
  lemma GrownCounterHoldsBack(calls: seq<Call>, i: nat, k: nat, key: string, p: nat, q: nat, threshold: nat)
    requires i < k && Reads(calls, i, key, p) && Reads(calls, k, key, q)
    requires !GivesUp(calls[i].env, threshold) && SilentBetween(calls, i, k, key, threshold)
    ensures Attempts(calls, k, threshold) <==> q <= p && calls[k].env.lookup.Registered?
  {
    BaselineIsLastRead(calls, i, k, key, p, threshold);
    NotDeferred(calls, k, threshold);
    AttemptsIffClear(calls, k, threshold);
  }

  /** The first look at a key: any request at all holds the job back. */
  lemma FirstLookHoldsBack(calls: seq<Call>, k: nat, key: string, q: nat, threshold: nat)
    requires Reads(calls, k, key, q) && NotAbout(calls[..k], key)
    ensures Attempts(calls, k, threshold) <==> q == 0 && calls[k].env.lookup.Registered?
  {
    OthersRun(START, calls[..k], threshold, key);
    NotDeferred(calls, k, threshold);
    AttemptsIffClear(calls, k, threshold);
  }

  /** A job found busy, by a request in flight or by a grown counter, gets its activity set to the time of the check. */
  lemma BusyIsRecorded(calls: seq<Call>, k: nat, threshold: nat)
    requires k < |calls| && NotBackingOff(calls, k) && calls[k].env.storeOk
    requires calls[k].env.inFlight > 0 ||
             exists i: nat, p: nat, q: nat ::
               i < k && Reads(calls, i, calls[k].key, p) && Reads(calls, k, calls[k].key, q) && q > p &&
               !GivesUp(calls[i].env, threshold) && SilentBetween(calls, i, k, calls[k].key, threshold)
    ensures var c := RunCalls(START, calls[..k + 1], threshold);
            calls[k].key in c.activity && c.activity[calls[k].key] == calls[k].env.checkAt
  {
    assert calls[..k + 1][..k] == calls[..k];
    NotDeferred(calls, k, threshold);
    if calls[k].env.inFlight == 0 {
      var i: nat, p: nat, q: nat :|
        i < k && Reads(calls, i, calls[k].key, p) && Reads(calls, k, calls[k].key, q) && q > p &&
        !GivesUp(calls[i].env, threshold) && SilentBetween(calls, i, k, calls[k].key, threshold);
      BaselineIsLastRead(calls, i, k, calls[k].key, p, threshold);
    }
  }

  /** A key without a registration loses its activity entry and is not scaled down. */
  lemma UnregisteredIsForgotten(calls: seq<Call>, k: nat, threshold: nat)
    requires k < |calls| && NotBackingOff(calls, k) && calls[k].env.storeOk
    requires calls[k].env.inFlight == 0 && calls[k].env.lookup.NotRegistered?
    requires calls[k].env.scrape.NoProbe? || Reads(calls, k, calls[k].key, 0)
    ensures var c := RunCalls(START, calls[..k + 1], threshold); calls[k].key !in c.activity && !Attempts(calls, k, threshold)
  {
    assert calls[..k + 1][..k] == calls[..k];
    NotDeferred(calls, k, threshold);
    AttemptsIffClear(calls, k, threshold);
  }

  /**
   What an attempt leaves of the key's activity when Redis answers: the time at which it was found blocked by a
   deployment, nothing if the job was given up, which also makes it dormant, and otherwise what was there.
   */
  lemma AttemptLeaves(calls: seq<Call>, k: nat, threshold: nat)
    requires k < |calls| && Attempts(calls, k, threshold) && calls[k].env.storeOk
    ensures var c, c' := RunCalls(START, calls[..k], threshold), RunCalls(START, calls[..k + 1], threshold);
            var key, env := calls[k].key, calls[k].env;
            && (env.answer == DeploymentInProgress ==> c'.activity == c.activity[key := env.doneAt] && c'.dormant == c.dormant)
            && (GivesUp(env, threshold) ==> c'.activity == c.activity - {key} && c'.dormant == c.dormant + [key])
            && (env.answer != DeploymentInProgress && !GivesUp(env, threshold) ==>
                  c'.activity == c.activity && c'.dormant == c.dormant)
  {
    assert calls[..k + 1][..k] == calls[..k];
    AttemptsIffClear(calls, k, threshold);
  }

  /** A probe or a registry that fails, after nothing was found in flight, leaves the job and its activity alone. */
  lemma FaultLeavesJobAlone(calls: seq<Call>, k: nat, threshold: nat)
    requires k < |calls| && NotBackingOff(calls, k) && calls[k].env.inFlight == 0
    requires calls[k].env.scrape.ScrapeFailed? ||
             (calls[k].env.lookup.LookupFailed? && (calls[k].env.scrape.NoProbe? || Reads(calls, k, calls[k].key, 0)))
    ensures var c, c' := RunCalls(START, calls[..k], threshold), RunCalls(START, calls[..k + 1], threshold);
            c'.activity == c.activity && c'.dormant == c.dormant && !Attempts(calls, k, threshold)
  {
    assert calls[..k + 1][..k] == calls[..k];
    NotDeferred(calls, k, threshold);
    AttemptsIffClear(calls, k, threshold);
  }

  /** The attempt that a call makes if it makes one. */
  function AttemptOf(call: Call): Attempt
    requires call.env.lookup.Registered?
  {
    Attempt(call.key, call.env.lookup.reg.jobId, call.env.startAt, call.env.endAt, call.env.answer == DeploymentInProgress)
  }

  lemma CallExtendsLog(c: Controller, key: string, env: Env, threshold: nat)
    ensures var c' := ScaleDownJob(c, key, env, threshold);
            c'.log == if Clear(c, key, env) then c.log + [AttemptOf(Call(key, env))] else c.log
  {
  }

  /** Every idle job whose turn comes and who is clear then has its attempt in the log. */
  lemma {:induction false} ClearIsAttempted(c: Controller, calls: seq<Call>, k: nat, threshold: nat)
    requires k < |calls| && Clear(RunCalls(c, calls[..k], threshold), calls[k].key, calls[k].env)
    ensures AttemptOf(calls[k]) in RunCalls(c, calls, threshold).log
    ensures c.log <= RunCalls(c, calls, threshold).log
  {
    var before, last := calls[..|calls| - 1], calls[|calls| - 1];
    CallExtendsLog(RunCalls(c, before, threshold), last.key, last.env, threshold);
    if k == |calls| - 1 {
      LogGrows(c, before, threshold);
    } else {
      assert before[..k] == calls[..k] && before[k] == calls[k];
      ClearIsAttempted(c, before, k, threshold);
    }
  }

  lemma {:induction false} LogGrows(c: Controller, calls: seq<Call>, threshold: nat)
    ensures c.log <= RunCalls(c, calls, threshold).log
  {
    if calls != [] {
      var before, last := calls[..|calls| - 1], calls[|calls| - 1];
      LogGrows(c, before, threshold);
      CallExtendsLog(RunCalls(c, before, threshold), last.key, last.env, threshold);
    }
  }
}

/** controller.rs as a class whose fields each call updates in place. */
module ControllerObjects {
  import opened Prelude
  import opened Jobs
  import opened ControllerSpec

  class ScaleDownController {
    const threshold: nat
    var deferred: map<string, nat>
    var baselines: map<string, nat>
    var activity: map<string, nat>
    var dormant: seq<string>
    var log: seq<Attempt>

    constructor (threshold: nat)
      ensures this.threshold == threshold
      ensures State() == Controller(map[], map[], map[], [], [])
    {
      this.threshold := threshold;
      deferred, baselines, activity, dormant, log := map[], map[], map[], [], [];
    }

    ghost function State(): Controller
      reads this
    {
      Controller(deferred, baselines, activity, dormant, log)
    }

    method RecordActivity(key: string, at: nat, ok: bool)
      modifies this`activity
      ensures State() == Record(old(State()), key, at, ok)
    {
      if ok {
        activity := activity[key := at];
      }
    }

    method RemoveActivity(key: string, ok: bool)
      modifies this`activity
      ensures State() == Forget(old(State()), key, ok)
    {
      if ok {
        activity := activity - {key};
      }
    }

    method HasActiveTraffic(key: string, total: nat) returns (active: bool)
      modifies this`baselines
      ensures active <==> ActiveTraffic(old(baselines), key, total)
      ensures baselines == old(baselines)[key := total]
    {
      var previous := if key in baselines then Some(baselines[key]) else None;
      baselines := baselines[key := total];
      match previous
      case None => active := total > 0;
      case Some(p) => active := total > p;
    }

    /** The common end of a successful scale-down and of an auto-deregistration. */
    method ReleaseJob(key: string, ok: bool)
      modifies this
      ensures State() == Release(old(State()), key, ok)
    {
      dormant := dormant + [key];
      RemoveActivity(key, ok);
      baselines := baselines - {key};
      deferred := deferred - {key};
    }

    method HandleAnswer(key: string, env: Env)
      modifies this
      ensures State() == OnAnswer(old(State()), key, env, threshold)
    {
      match env.answer
      case ScaledDown => ReleaseJob(key, env.storeOk);
      case JobNotFound =>
        if env.missingCount.Some? && env.missingCount.value >= threshold {
          ReleaseJob(key, env.storeOk);
        }
      case DeploymentInProgress =>
        deferred := deferred[key := env.doneAt + DEPLOYMENT_BACKOFF];
        RecordActivity(key, env.doneAt, env.storeOk);
      case OtherError =>
    }

    method ScaleDownJob(key: string, env: Env)
      modifies this
      ensures State() == ControllerSpec.ScaleDownJob(old(State()), key, env, threshold)
    {
      if key in deferred {
        if env.checkAt < deferred[key] {
          return;
        }
        deferred := deferred - {key};
      }
      assert deferred == old(deferred) - {key};
      if env.inFlight > 0 {
        RecordActivity(key, env.checkAt, env.storeOk);
        return;
      }
      match env.scrape {
        case NoProbe =>
        case ScrapeFailed => return;
        case Scraped(total) =>
          var active := HasActiveTraffic(key, total);
          if active {
            RecordActivity(key, env.checkAt, env.storeOk);
            return;
          }
      }
      match env.lookup
      case NotRegistered => RemoveActivity(key, env.storeOk);
      case LookupFailed =>
      case Registered(reg) =>
        log := log + [Attempt(key, reg.jobId, env.startAt, env.endAt, env.answer == DeploymentInProgress)];
        HandleAnswer(key, env);
    }

    /** The loop of `tick` over the idle jobs; `cancelled` tells before which job the shutdown is noticed. */
    method Tick(idle: seq<Call>, cancelled: nat)
      modifies this
      ensures State() == RunCalls(old(State()), idle[..if cancelled < |idle| then cancelled else |idle|], threshold)
    {
      var i := 0;
      while i < |idle| && i != cancelled
        invariant i <= |idle| && i <= cancelled
        invariant State() == RunCalls(old(State()), idle[..i], threshold)
      {
        assert idle[..i + 1][..i] == idle[..i];
        ScaleDownJob(idle[i].key, idle[i].env);
        i := i + 1;
      }
      assert idle[..|idle|] == idle;
    }
  }
}
