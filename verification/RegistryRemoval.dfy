/**
 What is left of a job when deregistrations of it interleave, at single Redis and etcd commands, with each other
 and with every other call.
 */
module RegistryRemoval {
  import opened Prelude
  import opened Jobs
  import opened RegistryHistory
  import opened RegistryAgreement
  import opened RegistryRecovery
  import Spec = RegistrySpec

  /** A deregistration, under any key. */
  predicate Removing(p: Proc) {
    match p
    case LookupCache(_, _, deregister) => deregister
    case LookupEtcd(_, _, deregister) => deregister
    case CacheByJob(_, after) => after.DeleteNext?
    case CacheByService(_, after) => after.DeleteNext?
    case FindServiceKeys(_, _) => true
    case DeleteKeys(_, _, _) => true
    case Scan(_, _) => true
    case EvictService(_, _, _) => true
    case EvictJob(_, _) => true
    case RestoreEtcd(_) => true
    case _ => false
  }

  /** A deregistration of the job that has not removed it from etcd yet. */
  predicate BeforeDelete(p: Proc, job: string) {
    match p
    case LookupCache(key, _, deregister) => deregister && key == job
    case LookupEtcd(key, _, deregister) => deregister && key == job
    case CacheByJob(_, after) => after == DeleteNext(job)
    case CacheByService(_, after) => after == DeleteNext(job)
    case FindServiceKeys(key, _) => key == job
    case DeleteKeys(key, _, _) => key == job
    case _ => false
  }

  /** One that has. */
  predicate AfterDelete(p: Proc, job: string) {
    match p
    case Scan(key, _) => key == job
    case EvictService(key, _, _) => key == job
    case EvictJob(key, _) => key == job
    case _ => false
  }

  predicate RemovalOf(p: Proc, job: string) {
    BeforeDelete(p, job) || AfterDelete(p, job)
  }

  /** A scan of the service hash meets every name in it. */
  ghost predicate Scanned(w: World, order: seq<string>) {
    forall k :: k in w.cacheServices ==> k in order
  }

  /** No deregistration meets a fault, and nobody registers the job; other calls may fail and crash. */
  ghost predicate Smooth(w: World, job: string, a: Action) {
    match a
    case Begin(call) => call.Register? ==> call.reg.jobId != job
    case Crash(i) => i < |w.procs| ==> !Removing(w.procs[i])
    case Step(i, delivery, order) => i < |w.procs| && Removing(w.procs[i]) ==> delivery == Delivered && Scanned(w, order)
  }

  ghost predicate AllSmooth(w: World, job: string, schedule: seq<Action>) {
    schedule == [] ||
    (AllSmooth(w, job, schedule[..|schedule| - 1]) && Smooth(Run(w, schedule[..|schedule| - 1]), job, schedule[|schedule| - 1]))
  }

  /** A deregistration of the job has begun. */
  predicate Begun(schedule: seq<Action>, job: string) {
    if schedule == [] then false
    else schedule[|schedule| - 1] == Begin(Deregister(job)) || Begun(schedule[..|schedule| - 1], job)
  }

  // ---------------------------------------------------------------------------------------------
  // etcd

  ghost predicate NoneDurable(d: Spec.Etcd, job: string) {
    NoneOf(d.jobs, job) && NoneOf(d.services, job)
  }

  ghost predicate Keyed(m: Spec.Entries) {
    forall k :: k in m ==> m[k].jobId == k
  }

  /** Nobody stores the job, whoever is about to delete it names all its services, and whoever has left nothing. */
  ghost predicate RemovesFully(d: Spec.Etcd, p: Proc, job: string) {
    match p
    case StoreThenCache(reg) => reg.jobId != job
    case RestoreEtcd(_) => false
    case DeleteKeys(key, _, keys) => key == job ==> forall k :: k in d.services && d.services[k].jobId == job ==> k in keys
    case _ => AfterDelete(p, job) ==> NoneDurable(d, job)
  }

  ghost predicate SomeoneBeforeDelete(w: World, job: string) {
    exists i :: 0 <= i < |w.procs| && BeforeDelete(w.procs[i], job)
  }

  ghost predicate EtcdClearing(w: World, job: string, begun: bool) {
    && Keyed(w.etcd.jobs)
    && (forall i :: 0 <= i < |w.procs| ==> RemovesFully(w.etcd, w.procs[i], job))
    && (begun ==> NoneDurable(w.etcd, job) || SomeoneBeforeDelete(w, job))
  }

  /** etcd has no registration of the job that it did not have before. */
  ghost predicate NoneAdded(d: Spec.Etcd, d': Spec.Etcd, job: string) {
    && (forall k :: k in d'.jobs && d'.jobs[k].jobId == job ==> k in d.jobs && d.jobs[k] == d'.jobs[k])
    && (forall k :: k in d'.services && d'.services[k].jobId == job ==> k in d.services && d.services[k] == d'.services[k])
  }

  lemma IssueAddsNone(w: World, p: Proc, job: string)
    requires Keyed(w.etcd.jobs) && RemovesFully(w.etcd, p, job)
    ensures NoneAdded(w.etcd, Issue(w, p).etcd, job) && Keyed(Issue(w, p).etcd.jobs) && Issue(w, p).procs == w.procs
    ensures p.DeleteKeys? && p.job == job ==> NoneDurable(Issue(w, p).etcd, job)
  {
  }

  lemma OthersRemoveFully(d: Spec.Etcd, d': Spec.Etcd, p: Proc, job: string)
    requires RemovesFully(d, p, job) && NoneAdded(d, d', job)
    ensures RemovesFully(d', p, job)
  {
  }

  /** A call goes on removing fully, whether its command succeeds or, if it is no deregistration, fails. */
  lemma NextRemovesFully(w: World, d': Spec.Etcd, p: Proc, ok: bool, order: seq<string>, job: string)
    requires RemovesFully(w.etcd, p, job) && NoneAdded(w.etcd, d', job) && (Removing(p) ==> ok)
    requires p.DeleteKeys? && p.job == job ==> NoneDurable(d', job)
    ensures RemovesFully(d', NextProc(w, p, ok, order), job)
  {
    if p.CacheByService? && p.after.CacheNext? {
      assert !CacheList(p.after.regs).StoreThenCache?;
    }
  }

  /** Before it deletes, a deregistration goes on towards deleting. */
  lemma StillBeforeDelete(w: World, p: Proc, order: seq<string>, job: string)
    requires BeforeDelete(p, job)
    ensures BeforeDelete(NextProc(w, p, true, order), job) || p.DeleteKeys?
  {
  }

  lemma StepEtcdClearing(w: World, i: nat, delivery: Delivery, order: seq<string>, job: string, begun: bool)
    requires EtcdClearing(w, job, begun) && Smooth(w, job, Step(i, delivery, order)) && i < |w.procs|
    ensures EtcdClearing(Next(w, Step(i, delivery, order)), job, begun)
  {
    var p := w.procs[i];
    var w' := Next(w, Step(i, delivery, order));
    IssueAddsNone(w, p, job);
    forall k | 0 <= k < |w'.procs| ensures RemovesFully(w'.etcd, w'.procs[k], job) {
      if k == i {
        NextRemovesFully(w, w'.etcd, p, delivery == Delivered, order, job);
      } else {
        OthersRemoveFully(w.etcd, w'.etcd, w.procs[k], job);
      }
    }
    if begun && !NoneDurable(w.etcd, job) {
      var k :| 0 <= k < |w.procs| && BeforeDelete(w.procs[k], job);
      if k == i {
        StillBeforeDelete(w, p, order, job);
      }
      assert NoneDurable(w'.etcd, job) || BeforeDelete(w'.procs[k], job);
    }
  }

  lemma NextEtcdClearing(w: World, a: Action, job: string, begun: bool)
    requires EtcdClearing(w, job, begun) && Smooth(w, job, a)
    ensures EtcdClearing(Next(w, a), job, begun || a == Begin(Deregister(job)))
  {
    match a
    case Begin(call) =>
      var w' := Next(w, a);
      assert w'.procs[|w.procs|] == FirstProc(call);
      if begun && !NoneDurable(w.etcd, job) {
        var k :| 0 <= k < |w.procs| && BeforeDelete(w.procs[k], job);
        assert BeforeDelete(w'.procs[k], job);
      }
    case Crash(i) =>
      var w' := Next(w, a);
      if begun && !NoneDurable(w.etcd, job) {
        var k :| 0 <= k < |w.procs| && BeforeDelete(w.procs[k], job);
        assert BeforeDelete(w'.procs[k], job);
      }
    case Step(i, delivery, order) =>
      if i < |w.procs| {
        StepEtcdClearing(w, i, delivery, order, job, begun);
      }
  }

  /** Deregistration i of the job still has to delete, or etcd holds nothing of the job. */
  ghost predicate Tracked(w: World, i: nat, job: string) {
    i < |w.procs| && (BeforeDelete(w.procs[i], job) || NoneDurable(w.etcd, job))
  }

  lemma NoneDurableStays(w: World, a: Action, job: string, begun: bool)
    requires EtcdClearing(w, job, begun) && NoneDurable(w.etcd, job)
    ensures NoneDurable(Next(w, a).etcd, job)
  {
    if a.Step? && a.pid < |w.procs| {
      IssueAddsNone(w, w.procs[a.pid], job);
    }
  }

  /** Once a deregistration has deleted, etcd stays without the job. */
  lemma NextTracked(w: World, a: Action, i: nat, job: string, begun: bool)
    requires EtcdClearing(w, job, begun) && Smooth(w, job, a) && Tracked(w, i, job)
    ensures Tracked(Next(w, a), i, job)
  {
    if NoneDurable(w.etcd, job) {
      NoneDurableStays(w, a, job, begun);
    } else if a.Step? && a.pid == i {
      IssueAddsNone(w, w.procs[i], job);
      StillBeforeDelete(w, w.procs[i], a.order, job);
    }
  }

  lemma {:induction false} EtcdClearingRun(w: World, job: string, schedule: seq<Action>)
    requires AllStopped(w) && Keyed(w.etcd.jobs) && AllSmooth(w, job, schedule)
    ensures EtcdClearing(Run(w, schedule), job, Begun(schedule, job))
  {
    if schedule != [] {
      var before := schedule[..|schedule| - 1];
      EtcdClearingRun(w, job, before);
      NextEtcdClearing(Run(w, before), schedule[|schedule| - 1], job, Begun(before, job));
    }
  }

  /**
   The etcd half: whatever lookups, syncs, listings, registrations of other jobs and deregistrations interleave,
   once a deregistration of the job has begun and none of them still has to delete, etcd holds nothing of the job.
   */
  lemma EtcdIsCleared(w: World, job: string, schedule: seq<Action>)
    requires AllStopped(w) && Keyed(w.etcd.jobs) && AllSmooth(w, job, schedule) && Begun(schedule, job)
    requires !SomeoneBeforeDelete(Run(w, schedule), job)
    ensures NoneDurable(Run(w, schedule).etcd, job)
  {
    EtcdClearingRun(w, job, schedule);
  }

  // ---------------------------------------------------------------------------------------------
  // The cache

  /** Nothing but a registration of another job, or nothing at all. */
  ghost predicate Foreign(p: Proc, job: string) {
    match p
    case StoreThenCache(reg) => reg.jobId != job
    case CacheByJob(reg, after) => reg.jobId != job && after.Return?
    case CacheByService(reg, after) => reg.jobId != job && after.Return?
    case Stopped => true
    case _ => false
  }

  ghost predicate Under(w: World, job: string) {
    exists i :: 0 <= i < |w.procs| && RemovalOf(w.procs[i], job)
  }

  /**
   No lookup, sync, listing or deregistration under another key overlaps with a deregistration of the job; other
   deregistrations of it and registrations of other jobs may.
   */
  ghost predicate Apart(w: World, job: string, a: Action) {
    a.Begin? ==>
      if a.call == Deregister(job) then forall i :: 0 <= i < |w.procs| ==> RemovalOf(w.procs[i], job) || Foreign(w.procs[i], job)
      else a.call.Register? || !Under(w, job)
  }

  ghost predicate AllApart(w: World, job: string, schedule: seq<Action>) {
    schedule == [] ||
    (AllApart(w, job, schedule[..|schedule| - 1]) && Apart(Run(w, schedule[..|schedule| - 1]), job, schedule[|schedule| - 1]))
  }

  /** The deregistration will still drop entry k of the service hash if it is the job's. */
  predicate WillEvict(p: Proc, job: string, k: string) {
    || BeforeDelete(p, job)
    || (p.Scan? && p.job == job)
    || (p.EvictService? && p.job == job && k in p.names)
  }

  ghost predicate SomeoneWillEvict(w: World, job: string, k: string) {
    exists i :: 0 <= i < |w.procs| && WillEvict(w.procs[i], job, k)
  }

  /** Every entry of the job is still going to be dropped. */
  ghost predicate Covered(w: World, job: string) {
    && (forall k :: k in w.cacheServices && w.cacheServices[k].jobId == job ==> SomeoneWillEvict(w, job, k))
    && (job in w.cacheJobs ==> Under(w, job))
  }

  ghost predicate AfterNone(after: After, job: string) {
    after.CacheNext? ==> forall r :: r in after.regs ==> r.jobId != job
  }

  /** The call has no registration of the job to write. */
  ghost predicate CarriesNone(p: Proc, job: string) {
    match p
    case StoreThenCache(reg) => reg.jobId != job
    case CacheByJob(reg, after) => reg.jobId != job && AfterNone(after, job)
    case CacheByService(reg, after) => reg.jobId != job && AfterNone(after, job)
    case RestoreEtcd(_) => false
    case _ => true
  }

  /**
   While the job is being deregistered nobody else handles it and its entries are covered; afterwards nothing of
   it is left and nobody has any of it.
   */
  ghost predicate CacheClearing(w: World, job: string, begun: bool) {
    && Keyed(w.cacheJobs)
    && (Under(w, job) ==> begun && forall i :: 0 <= i < |w.procs| ==> RemovalOf(w.procs[i], job) || Foreign(w.procs[i], job))
    && (begun ==> Covered(w, job))
    && (begun && !Under(w, job) ==> forall i :: 0 <= i < |w.procs| ==> CarriesNone(w.procs[i], job))
  }

  /** A world in which the job has been deregistered: no map holds it, no call carries it. */
  ghost predicate Clean(w: World, job: string) {
    && NoneOf(w.cacheJobs, job) && NoneOf(w.cacheServices, job) && NoneDurable(w.etcd, job)
    && (forall i :: 0 <= i < |w.procs| ==> CarriesNone(w.procs[i], job))
  }

  lemma NoneListed(m: Spec.Entries, order: seq<string>, job: string)
    requires NoneOf(m, job)
    ensures CarriesNone(CacheList(Listing(m, order)), job)
  {
    var regs := Listing(m, order);
    forall r | r in regs ensures r.jobId != job {
      assert r in m.Values;
    }
    CarriesNoneList(regs, job);
  }

  lemma CarriesNoneList(regs: seq<JobRegistration>, job: string)
    requires forall r :: r in regs ==> r.jobId != job
    ensures CarriesNone(CacheList(regs), job)
  {
    if regs != [] {
      assert regs[0] in regs && forall r :: r in regs[1..] ==> r in regs;
    }
  }

  /** In a clean world no call finds the job. */
  lemma NextCarriesNone(w: World, p: Proc, ok: bool, order: seq<string>, job: string)
    requires Clean(w, job) && CarriesNone(p, job) && (Removing(p) ==> ok)
    ensures CarriesNone(NextProc(w, p, ok, order), job)
  {
    if ok && p.ListEtcd? {
      NoneListed(if p.byService then w.etcd.services else w.etcd.jobs, order, job);
    } else if ok && p.CacheByService? && p.after.CacheNext? {
      CarriesNoneList(p.after.regs, job);
    }
  }

  lemma IssueStaysClean(w: World, p: Proc, job: string)
    requires Clean(w, job) && CarriesNone(p, job)
    ensures Clean(Issue(w, p), job) && Issue(w, p).procs == w.procs
  {
  }

  /** No call becomes a deregistration of the job later on. */
  lemma NotRemovalLater(w: World, p: Proc, ok: bool, order: seq<string>, job: string)
    requires !RemovalOf(p, job)
    ensures !RemovalOf(NextProc(w, p, ok, order), job)
  {
    if p.CacheByService? && p.after.CacheNext? {
      assert !RemovalOf(CacheList(p.after.regs), job);
    } else if p.ListEtcd? {
      assert !RemovalOf(CacheList(Listing(if p.byService then w.etcd.services else w.etcd.jobs, order)), job);
    }
  }

  lemma StepStaysClean(w: World, i: nat, delivery: Delivery, order: seq<string>, job: string)
    requires Clean(w, job) && !Under(w, job) && i < |w.procs| && Smooth(w, job, Step(i, delivery, order))
    ensures var w' := Next(w, Step(i, delivery, order)); Clean(w', job) && !Under(w', job)
  {
    var p := w.procs[i];
    var w' := Next(w, Step(i, delivery, order));
    IssueStaysClean(w, p, job);
    NextCarriesNone(w, p, delivery == Delivered, order, job);
    assert !RemovalOf(p, job);
    NotRemovalLater(w, p, delivery == Delivered, order, job);
    forall k | 0 <= k < |w'.procs| ensures CarriesNone(w'.procs[k], job) && !RemovalOf(w'.procs[k], job) {
      assert k != i ==> CarriesNone(w.procs[k], job) && !RemovalOf(w.procs[k], job);
    }
  }

  // Steps while the job is being deregistered

  lemma ForeignIssue(w: World, p: Proc, job: string)
    requires Keyed(w.cacheJobs) && Foreign(p, job)
    ensures var w' := Issue(w, p);
            && Keyed(w'.cacheJobs) && w'.procs == w.procs && (job in w'.cacheJobs ==> job in w.cacheJobs)
            && (forall k :: k in w'.cacheServices && w'.cacheServices[k].jobId == job ==>
                  k in w.cacheServices && w.cacheServices[k].jobId == job)
  {
  }

  lemma ForeignStays(w: World, p: Proc, ok: bool, order: seq<string>, job: string)
    requires Foreign(p, job)
    ensures Foreign(NextProc(w, p, ok, order), job) && !RemovalOf(NextProc(w, p, ok, order), job)
  {
  }

  /** What a deregistration leaves for itself and the others to drop. */
  lemma RemovalIssue(w: World, p: Proc, order: seq<string>, job: string)
    requires Keyed(w.cacheJobs) && RemovalOf(p, job) && Scanned(w, order)
    ensures var w', p' := Issue(w, p), NextProc(w, p, true, order);
            && Keyed(w'.cacheJobs) && w'.procs == w.procs
            && (RemovalOf(p', job) || (p.EvictJob? && p' == Stopped && job !in w'.cacheJobs))
            && (job in w'.cacheJobs ==> RemovalOf(p', job))
  {
  }

  lemma RemovalCovers(w: World, p: Proc, order: seq<string>, job: string, k: string)
    requires RemovalOf(p, job) && Scanned(w, order)
    requires var w' := Issue(w, p); k in w'.cacheServices && w'.cacheServices[k].jobId == job
    ensures WillEvict(NextProc(w, p, true, order), job, k) ||
            (k in w.cacheServices && w.cacheServices[k].jobId == job && !WillEvict(p, job, k))
  {
    if p.Scan? {
      MatchingExactly(w.cacheServices, job, order, k);
    }
  }

  /** The step of a call keeps every entry covered. */
  lemma StepCovered(w: World, i: nat, delivery: Delivery, order: seq<string>, job: string)
    requires Keyed(w.cacheJobs) && i < |w.procs| && Covered(w, job)
    requires RemovalOf(w.procs[i], job) ==> delivery == Delivered && Scanned(w, order)
    requires RemovalOf(w.procs[i], job) || Foreign(w.procs[i], job)
    ensures Keyed(Next(w, Step(i, delivery, order)).cacheJobs) && Covered(Next(w, Step(i, delivery, order)), job)
  {
    var p := w.procs[i];
    var w' := Next(w, Step(i, delivery, order));
    if RemovalOf(p, job) {
      RemovalIssue(w, p, order, job);
    } else {
      ForeignIssue(w, p, job);
    }
    forall k | k in w'.cacheServices && w'.cacheServices[k].jobId == job ensures SomeoneWillEvict(w', job, k) {
      ServiceCovered(w, i, delivery, order, job, k);
    }
    if job in w'.cacheJobs {
      JobCovered(w, i, delivery, order, job);
    }
  }

  lemma ServiceCovered(w: World, i: nat, delivery: Delivery, order: seq<string>, job: string, k: string)
    requires Keyed(w.cacheJobs) && i < |w.procs| && Covered(w, job)
    requires RemovalOf(w.procs[i], job) ==> delivery == Delivered && Scanned(w, order)
    requires RemovalOf(w.procs[i], job) || Foreign(w.procs[i], job)
    requires var w' := Next(w, Step(i, delivery, order)); k in w'.cacheServices && w'.cacheServices[k].jobId == job
    ensures SomeoneWillEvict(Next(w, Step(i, delivery, order)), job, k)
  {
    var p := w.procs[i];
    var w' := Next(w, Step(i, delivery, order));
    if RemovalOf(p, job) {
      RemovalCovers(w, p, order, job, k);
    } else {
      ForeignIssue(w, p, job);
    }
    if RemovalOf(p, job) && WillEvict(w'.procs[i], job, k) {
      assert SomeoneWillEvict(w', job, k);
    } else {
      assert SomeoneWillEvict(w, job, k);
      var m :| 0 <= m < |w.procs| && WillEvict(w.procs[m], job, k);
      assert WillEvict(w'.procs[m], job, k);
    }
  }

  lemma JobCovered(w: World, i: nat, delivery: Delivery, order: seq<string>, job: string)
    requires Keyed(w.cacheJobs) && i < |w.procs| && Covered(w, job)
    requires RemovalOf(w.procs[i], job) ==> delivery == Delivered && Scanned(w, order)
    requires RemovalOf(w.procs[i], job) || Foreign(w.procs[i], job)
    requires job in Next(w, Step(i, delivery, order)).cacheJobs
    ensures Under(Next(w, Step(i, delivery, order)), job)
  {
    var p := w.procs[i];
    var w' := Next(w, Step(i, delivery, order));
    if RemovalOf(p, job) {
      RemovalIssue(w, p, order, job);
      assert RemovalOf(w'.procs[i], job);
    } else {
      ForeignIssue(w, p, job);
      var m :| 0 <= m < |w.procs| && RemovalOf(w.procs[m], job);
      assert RemovalOf(w'.procs[m], job);
    }
  }

  lemma EvictsUnder(w: World, job: string, k: string)
    ensures SomeoneWillEvict(w, job, k) ==> Under(w, job)
  {
    if i :| 0 <= i < |w.procs| && WillEvict(w.procs[i], job, k) {
      assert RemovalOf(w.procs[i], job);
    }
  }

  /** Covered by nobody, an entry is not there. */
  lemma NothingUncovered(w: World, job: string)
    requires Covered(w, job) && !Under(w, job) && Keyed(w.cacheJobs)
    ensures NoneOf(w.cacheJobs, job) && NoneOf(w.cacheServices, job)
  {
    forall k | k in w.cacheServices ensures w.cacheServices[k].jobId != job {
      EvictsUnder(w, job, k);
    }
  }

  lemma StepUnder(w: World, i: nat, delivery: Delivery, order: seq<string>, job: string)
    requires CacheClearing(w, job, true) && Under(w, job) && i < |w.procs| && Smooth(w, job, Step(i, delivery, order))
    ensures CacheClearing(Next(w, Step(i, delivery, order)), job, true)
  {
    var p := w.procs[i];
    var w' := Next(w, Step(i, delivery, order));
    StepCovered(w, i, delivery, order, job);
    if RemovalOf(p, job) {
      RemovalIssue(w, p, order, job);
    } else {
      ForeignStays(w, p, delivery == Delivered, order, job);
    }
    forall k | 0 <= k < |w'.procs| ensures RemovalOf(w'.procs[k], job) || Foreign(w'.procs[k], job) {
      assert k != i ==> RemovalOf(w.procs[k], job) || Foreign(w.procs[k], job);
    }
  }

  lemma BeforeIsUnder(w: World, job: string)
    ensures SomeoneBeforeDelete(w, job) ==> Under(w, job)
  {
    if i :| 0 <= i < |w.procs| && BeforeDelete(w.procs[i], job) {
      assert RemovalOf(w.procs[i], job);
    }
  }

  /** Nobody is in the middle of deregistering, so nobody has left etcd with anything of the job. */
  lemma CleanOutside(w: World, job: string)
    requires CacheClearing(w, job, true) && EtcdClearing(w, job, true) && !Under(w, job)
    ensures Clean(w, job)
  {
    NothingUncovered(w, job);
    BeforeIsUnder(w, job);
  }

  lemma StepBefore(w: World, i: nat, delivery: Delivery, order: seq<string>, job: string)
    requires CacheClearing(w, job, false) && !Under(w, job) && i < |w.procs|
    ensures CacheClearing(Next(w, Step(i, delivery, order)), job, false)
  {
    var p := w.procs[i];
    var w' := Next(w, Step(i, delivery, order));
    assert !RemovalOf(p, job);
    NotRemovalLater(w, p, delivery == Delivered, order, job);
    forall k | 0 <= k < |w'.procs| ensures !RemovalOf(w'.procs[k], job) {
      assert k != i ==> !RemovalOf(w.procs[k], job);
    }
  }

  lemma NextStep(w: World, a: Action, job: string, begun: bool)
    requires CacheClearing(w, job, begun) && EtcdClearing(w, job, begun) && Smooth(w, job, a)
    requires a.Step? && a.pid < |w.procs|
    ensures CacheClearing(Next(w, a), job, begun)
  {
    if Under(w, job) {
      StepUnder(w, a.pid, a.delivery, a.order, job);
    } else if !begun {
      StepBefore(w, a.pid, a.delivery, a.order, job);
    } else {
      CleanOutside(w, job);
      StepStaysClean(w, a.pid, a.delivery, a.order, job);
      KeyedStays(w, a.pid, a.delivery, a.order, job);
    }
  }

  lemma KeyedStays(w: World, i: nat, delivery: Delivery, order: seq<string>, job: string)
    requires Keyed(w.cacheJobs) && i < |w.procs|
    ensures Keyed(Next(w, Step(i, delivery, order)).cacheJobs)
  {
  }

  lemma BeginDeregister(w: World, job: string, begun: bool)
    requires CacheClearing(w, job, begun) && Apart(w, job, Begin(Deregister(job)))
    ensures CacheClearing(Next(w, Begin(Deregister(job))), job, true)
  {
    var w' := Next(w, Begin(Deregister(job)));
    var n := |w.procs|;
    assert w'.procs[n] == LookupCache(job, true, true) && RemovalOf(w'.procs[n], job);
    forall k | k in w'.cacheServices && w'.cacheServices[k].jobId == job ensures SomeoneWillEvict(w', job, k) {
      assert WillEvict(w'.procs[n], job, k);
    }
    forall k | 0 <= k < |w'.procs| ensures RemovalOf(w'.procs[k], job) || Foreign(w'.procs[k], job) {
      assert k < n ==> w'.procs[k] == w.procs[k];
    }
  }

  /** Calls that begin or stop without being deregistrations of the job change nobody else. */
  ghost predicate SameRemovals(w: World, w': World, job: string) {
    && |w.procs| <= |w'.procs|
    && (forall k :: 0 <= k < |w.procs| ==> w'.procs[k] == w.procs[k] || (!RemovalOf(w.procs[k], job) && w'.procs[k] == Stopped))
    && (forall k :: |w.procs| <= k < |w'.procs| ==> !RemovalOf(w'.procs[k], job))
  }

  lemma SameUnder(w: World, w': World, job: string)
    requires SameRemovals(w, w', job)
    ensures Under(w', job) <==> Under(w, job)
  {
    if i :| 0 <= i < |w.procs| && RemovalOf(w.procs[i], job) {
      assert RemovalOf(w'.procs[i], job);
    }
  }

  lemma SameCovered(w: World, w': World, job: string)
    requires SameRemovals(w, w', job) && Covered(w, job)
    requires w'.cacheJobs == w.cacheJobs && w'.cacheServices == w.cacheServices
    ensures Covered(w', job)
  {
    SameUnder(w, w', job);
    forall k | k in w'.cacheServices && w'.cacheServices[k].jobId == job ensures SomeoneWillEvict(w', job, k) {
      assert SomeoneWillEvict(w, job, k);
      var i :| 0 <= i < |w.procs| && WillEvict(w.procs[i], job, k);
      assert WillEvict(w'.procs[i], job, k);
    }
  }

  lemma BeginOther(w: World, call: Call, job: string, begun: bool)
    requires CacheClearing(w, job, begun) && call != Deregister(job)
    requires Apart(w, job, Begin(call)) && Smooth(w, job, Begin(call))
    ensures CacheClearing(Next(w, Begin(call)), job, begun)
  {
    var w' := Next(w, Begin(call));
    var n := |w.procs|;
    assert w'.procs[n] == FirstProc(call) && CarriesNone(FirstProc(call), job) && !RemovalOf(FirstProc(call), job);
    SameUnder(w, w', job);
    if begun {
      SameCovered(w, w', job);
    }
    forall k | 0 <= k < |w'.procs|
      ensures Under(w, job) ==> RemovalOf(w'.procs[k], job) || Foreign(w'.procs[k], job)
      ensures begun && !Under(w, job) ==> CarriesNone(w'.procs[k], job)
    {
      assert k < n ==> w'.procs[k] == w.procs[k];
    }
  }

  lemma CrashOther(w: World, i: nat, job: string, begun: bool)
    requires CacheClearing(w, job, begun) && i < |w.procs| && !RemovalOf(w.procs[i], job)
    ensures CacheClearing(Next(w, Crash(i)), job, begun)
  {
    var w' := Next(w, Crash(i));
    SameUnder(w, w', job);
    if begun {
      SameCovered(w, w', job);
    }
  }

  lemma NextCacheClearing(w: World, a: Action, job: string, begun: bool)
    requires CacheClearing(w, job, begun) && EtcdClearing(w, job, begun)
    requires Smooth(w, job, a) && Apart(w, job, a)
    ensures CacheClearing(Next(w, a), job, begun || a == Begin(Deregister(job)))
  {
    match a
    case Begin(call) =>
      if call == Deregister(job) {
        BeginDeregister(w, job, begun);
      } else {
        BeginOther(w, call, job, begun);
      }
    case Crash(i) =>
      if i < |w.procs| {
        assert !RemovalOf(w.procs[i], job);
        CrashOther(w, i, job, begun);
      }
    case Step(i, _, _) =>
      if i < |w.procs| {
        NextStep(w, a, job, begun);
      }
  }

  lemma {:induction false} CacheClearingRun(w: World, job: string, schedule: seq<Action>)
    requires AllStopped(w) && Keyed(w.etcd.jobs) && Keyed(w.cacheJobs)
    requires AllSmooth(w, job, schedule) && AllApart(w, job, schedule)
    ensures CacheClearing(Run(w, schedule), job, Begun(schedule, job))
  {
    if schedule != [] {
      var before := schedule[..|schedule| - 1];
      CacheClearingRun(w, job, before);
      EtcdClearingRun(w, job, before);
      NextCacheClearing(Run(w, before), schedule[|schedule| - 1], job, Begun(before, job));
    }
  }

  /**
   The whole: when in addition no lookup, sync, listing or deregistration under another key overlaps with a
   deregistration of the job, then once one has begun and all have ended, no map holds the job, and no call under
   way will put it back.  `StaleFill` shows what an overlapping lookup does.
   */
  lemma CleanupLeavesNothing(w: World, job: string, schedule: seq<Action>)
    requires AllStopped(w) && Keyed(w.etcd.jobs) && Keyed(w.cacheJobs)
    requires AllSmooth(w, job, schedule) && AllApart(w, job, schedule) && Begun(schedule, job)
    requires !Under(Run(w, schedule), job)
    ensures Gone(StoresOf(Run(w, schedule)), job) && Clean(Run(w, schedule), job)
  {
    CacheClearingRun(w, job, schedule);
    EtcdClearingRun(w, job, schedule);
    CleanOutside(Run(w, schedule), job);
  }
}
