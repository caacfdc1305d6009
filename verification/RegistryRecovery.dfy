/** Deregistration: what it removes, what it leaves, and what a failed one restores. */
module RegistryRecovery {
  import opened Prelude
  import opened Jobs
  import opened RegistrySpec
  import opened RegistryRefinement

  /** Entries by job id sit under the job id of their registration. */
  ghost predicate WellKeyed(s: Stores) {
    && (forall k :: k in s.cacheJobs ==> s.cacheJobs[k].jobId == k)
    && (s.durable.Some? ==> forall k :: k in s.durable.value.jobs ==> s.durable.value.jobs[k].jobId == k)
  }

  ghost predicate NoneOf(m: Entries, job: string) {
    forall k :: k in m ==> m[k].jobId != job
  }

  /** `m'` is `m` without the registrations of one job. */
  ghost predicate OnlyLost(m: Entries, m': Entries, job: string) {
    && (forall k :: k in m' ==> k in m && m'[k] == m[k])
    && (forall k :: k in m && m[k].jobId != job ==> k in m')
  }

  /**
   A fault-free deregistration leaves no value of the job in any of the four maps, under whatever service
   name, and takes nothing of any other job out of etcd.
   */
  lemma DeregisterComplete(s: Stores, job: string)
    requires WellKeyed(s)
    ensures var s' := Deregister(s, job);
            && NoneOf(s'.cacheJobs, job) && NoneOf(s'.cacheServices, job)
            && (s.durable.Some? <==> s'.durable.Some?)
            && (s.durable.Some? ==>
                  && NoneOf(s'.durable.value.jobs, job) && NoneOf(s'.durable.value.services, job)
                  && OnlyLost(s.durable.value.jobs, s'.durable.value.jobs, job)
                  && OnlyLost(s.durable.value.services, s'.durable.value.services, job))
  {
    var s1 := AfterGet(s, job);
    assert WellKeyed(s1);
  }

  /** No map holds a registration of the job, under whatever key. */
  ghost predicate Gone(s: Stores, job: string) {
    && NoneOf(s.cacheJobs, job) && NoneOf(s.cacheServices, job)
    && (s.durable.Some? ==> NoneOf(s.durable.value.jobs, job) && NoneOf(s.durable.value.services, job))
  }

  /** An operation that does not register the job, and whose listing, if it has one, lists etcd. */
  ghost predicate Unrelated(s: Stores, op: Op, job: string) {
    match op
    case RegisterOp(reg) => reg.jobId != job
    case SyncOp(regs) => s.durable.Some? ==> IsListing(s.durable.value, regs)
    case ListOp(regs) => s.durable.Some? ==> IsListing(s.durable.value, regs)
    case _ => true
  }

  ghost predicate AllUnrelated(s: Stores, ops: seq<Op>, job: string) {
    ops == [] ||
    (AllUnrelated(s, ops[..|ops| - 1], job) && Unrelated(PerformAll(s, ops[..|ops| - 1]), ops[|ops| - 1], job))
  }

  lemma RegisterStaysGone(s: Stores, reg: JobRegistration, job: string)
    requires Gone(s, job) && reg.jobId != job
    ensures Gone(Register(s, reg), job) && (WellKeyed(s) ==> WellKeyed(Register(s, reg)))
  {
  }

  lemma {:induction false} CacheAllStaysGone(s: Stores, regs: seq<JobRegistration>, job: string)
    requires Gone(s, job) && forall r :: r in regs ==> r.jobId != job
    ensures Gone(CacheAll(s, regs), job)
  {
    if regs != [] {
      CacheAllStaysGone(s, regs[..|regs| - 1], job);
    }
  }

  lemma ListingHasNone(d: Etcd, regs: seq<JobRegistration>, job: string)
    requires IsListing(d, regs) && NoneOf(d.jobs, job) && NoneOf(d.services, job)
    ensures forall r :: r in regs ==> r.jobId != job
  {
    var source := Listed(d);
    forall r | r in regs ensures r.jobId != job {
      assert r in source.Values;
    }
  }

  lemma PerformStaysGone(s: Stores, op: Op, job: string)
    requires Gone(s, job) && Unrelated(s, op, job)
    ensures Gone(Perform(s, op), job)
  {
    match op
    case RegisterOp(reg) => RegisterStaysGone(s, reg, job);
    case SyncOp(regs) =>
      if s.durable.Some? {
        ListingHasNone(s.durable.value, regs, job);
        CacheAllStaysGone(s, regs, job);
      }
    case ListOp(regs) =>
      if s.durable.Some? {
        ListingHasNone(s.durable.value, regs, job);
        CacheAllStaysGone(s, regs, job);
      }
    case _ =>
  }

  lemma {:induction false} StaysGone(s: Stores, ops: seq<Op>, job: string)
    requires Gone(s, job) && AllUnrelated(s, ops, job)
    ensures Gone(PerformAll(s, ops), job)
  {
    if ops != [] {
      StaysGone(s, ops[..|ops| - 1], job);
      PerformStaysGone(PerformAll(s, ops[..|ops| - 1]), ops[|ops| - 1], job);
    }
  }

  /**
   After a deregistration no lookup of any key finds a registration of the job, however many lookups, listings,
   syncs, cache losses, deregistrations and registrations of other jobs come before it.
   */
  lemma DeregisteredIsGone(s: Stores, job: string, ops: seq<Op>, k: string)
    requires WellKeyed(s) && AllUnrelated(Deregister(s, job), ops, job)
    ensures var r := Answer(PerformAll(Deregister(s, job), ops), k); r.Some? ==> r.value.jobId != job
  {
    DeregisterComplete(s, job);
    StaysGone(Deregister(s, job), ops, job);
  }

  /** Eviction gave up half-way: some entries of the job are gone from the hashes, nothing else has changed. */
  ghost predicate PartlyEvicted(s: Stores, s': Stores, job: string) {
    && s'.durable == s.durable
    && OnlyLost(s.cacheServices, s'.cacheServices, job)
    && (s'.cacheJobs == s.cacheJobs || s'.cacheJobs == s.cacheJobs - {job})
  }

  /** A deregistration of which eviction failed, before the restore. */
  ghost predicate EvictionFailed(s: Stores, job: string, s': Stores)
    requires s.durable.Some?
  {
    PartlyEvicted(AfterGet(s, job).(durable := Some(RemoveRegistration(s.durable.value, job))), s', job)
  }

  /** The compensating write: the registration found at the start goes back to etcd. */
  function Restore(s: Stores, existing: Option<JobRegistration>): Stores {
    if s.durable.Some? && existing.Some? then s.(durable := Some(StoreRegistration(s.durable.value, existing.value)))
    else s
  }

  /** A deregistration whose eviction failed and whose restore succeeded. */
  ghost predicate Compensated(s: Stores, job: string, s': Stores)
    requires s.durable.Some?
  {
    exists s2 :: EvictionFailed(s, job, s2) && s' == Restore(s2, Answer(s, job))
  }

  /** Removing a job and storing one of its registrations again undoes nothing but the other services. */
  lemma RestoredJob(d: Etcd, job: string, r: JobRegistration)
    requires r.jobId == job && job in d.jobs && d.jobs[job].jobId == job && Current(d, d.jobs[job]) && Current(d, r)
    ensures StoreRegistration(RemoveRegistration(d, job), r) == d <==>
              forall k :: k in d.services && d.services[k].jobId == job ==> k == r.serviceName
  {
    var d' := StoreRegistration(RemoveRegistration(d, job), r);
    if forall k :: k in d.services && d.services[k].jobId == job ==> k == r.serviceName {
      assert d.jobs[job] == r;
      assert d'.jobs == d.jobs && d'.services == d.services;
    } else {
      var k :| k in d.services && d.services[k].jobId == job && k != r.serviceName;
      assert k !in d'.services;
    }
  }

  /**
   When the rollback is exact.  A job id: the job has no service besides the one that is restored.  The name
   of a service: the job entry already is the registration of that service.
   */
  ghost predicate RollbackExact(d: Etcd, job: string, r: JobRegistration) {
    if job in d.jobs then forall k :: k in d.services && d.services[k].jobId == job ==> k == r.serviceName
    else r.jobId in d.jobs && d.jobs[r.jobId] == r
  }

  /** Deregistering under the name of a service removes nothing from etcd; storing what it found may change the job entry. */
  lemma RestoredService(n: Naming, d: Etcd, name: string, r: JobRegistration)
    requires DurableOk(n, d) && name !in d.jobs && Current(d, r)
    ensures StoreRegistration(RemoveRegistration(d, name), r) == d <==> r.jobId in d.jobs && d.jobs[r.jobId] == r
  {
    assert NoneOf(d.services, name);
    assert RemoveRegistration(d, name) == d;
    assert d.services[r.serviceName := r] == d.services;
    assert r.jobId in d.jobs && d.jobs[r.jobId] == r ==> d.jobs[r.jobId := r] == d.jobs;
    assert d.jobs[r.jobId := r] == d.jobs ==> r.jobId in d.jobs && d.jobs[r.jobId] == r;
  }

  /** Removing what a key stands for and storing what was found for it is the identity on etcd exactly then. */
  lemma RestoredEtcd(n: Naming, s: Stores, job: string)
    requires Coherent(n, s) && Answer(s, job).Some?
    ensures var d, r := s.durable.value, Answer(s, job).value;
            StoreRegistration(RemoveRegistration(d, job), r) == d <==> RollbackExact(d, job, r)
  {
    var d, r := s.durable.value, Answer(s, job).value;
    CoherentAnswer(n, s, job);
    if job in d.jobs {
      OwnerFound(n, d, job, r);
      RestoredJob(d, job, r);
    } else {
      RestoredService(n, d, job, r);
    }
  }

  /** A job with one service is always restored. */
  lemma OneServiceIsExact(n: Naming, s: Stores, job: string)
    requires Coherent(n, s) && Answer(s, job).Some? && OneServicePerJob(s.durable.value)
    ensures RollbackExact(s.durable.value, job, Answer(s, job).value)
  {
    var d, r := s.durable.value, Answer(s, job).value;
    CoherentAnswer(n, s, job);
    assert r.jobId in d.jobs && Current(d, d.jobs[r.jobId]);
    if job in d.jobs {
      OwnerFound(n, d, job, r);
    }
  }

  /** What a lookup of a job id finds belongs to the job. */
  lemma OwnerFound(n: Naming, d: Etcd, job: string, r: JobRegistration)
    requires DurableOk(n, d) && job in d.jobs && Current(d, r) && (r.jobId == job || r.serviceName == job)
    ensures r.jobId == job && d.jobs[job].jobId == job && Current(d, d.jobs[job])
  {
    assert Current(d, d.jobs[job]);
  }

  /** What etcd holds after a compensated deregistration. */
  lemma CompensatedDurable(s: Stores, job: string, s': Stores)
    requires s.durable.Some? && Compensated(s, job, s')
    ensures var d, r := RemoveRegistration(s.durable.value, job), Answer(s, job);
            s'.durable == Some(if r.Some? then StoreRegistration(d, r.value) else d)
  {
  }

  /** Restored caches are as trustworthy as before if etcd is as before. */
  lemma CompensatedCoherent(n: Naming, s: Stores, job: string, s': Stores)
    requires Coherent(n, s) && Compensated(s, job, s') && s'.durable == s.durable
    ensures Coherent(n, s') && forall k :: Answer(s', k).Some? <==> Answer(s, k).Some?
  {
    GetKeepsCoherent(n, s, job);
    forall k ensures Answer(s', k).Some? <==> Answer(s, k).Some? {
      CoherentAnswer(n, s, k);
      CoherentAnswer(n, s', k);
    }
  }

  /**
   Compensation: a key that was not found leaves etcd as it is; for any other key, job id or service name,
   etcd is back to what it was exactly if the rollback is exact, which it is for jobs with one service.  Then
   every later lookup still answers as etcd does.
   */
  lemma Compensation(n: Naming, s: Stores, job: string, s': Stores)
    requires Coherent(n, s) && Compensated(s, job, s')
    ensures var d, r := s.durable.value, Answer(s, job);
            && (s'.durable == s.durable <==> (r.Some? ==> RollbackExact(d, job, r.value)))
            && (OneServicePerJob(d) ==> s'.durable == s.durable)
    ensures s'.durable == s.durable ==>
              Coherent(n, s') && forall k :: Answer(s', k).Some? <==> Answer(s, k).Some?
  {
    var d := s.durable.value;
    CoherentAnswer(n, s, job);
    CompensatedDurable(s, job, s');
    if Answer(s, job).Some? {
      RestoredEtcd(n, s, job);
      if OneServicePerJob(d) {
        OneServiceIsExact(n, s, job);
      }
    } else {
      assert NoneOf(d.services, job);
      assert RemoveRegistration(d, job) == d;
    }
    if s'.durable == s.durable {
      CompensatedCoherent(n, s, job, s');
    }
  }

  /** A job with two services loses one of them: the rollback is not exact for it. */
  lemma TwoServiceJobLosesOne()
    ensures var a, b := JobRegistration("j", "a", "g"), JobRegistration("j", "b", "g");
            var d := Etcd(map["j" := b], map["a" := a, "b" := b]);
            var s := Stores(map["j" := b], map["a" := a, "b" := b], Some(d));
            exists s' :: Compensated(s, "j", s') && s'.durable.Some? && "a" !in s'.durable.value.services
                         && Answer(s', "a") == Some(a)
  {
    var a, b := JobRegistration("j", "a", "g"), JobRegistration("j", "b", "g");
    var d := Etcd(map["j" := b], map["a" := a, "b" := b]);
    var s := Stores(map["j" := b], map["a" := a, "b" := b], Some(d));
    var removed := RemoveRegistration(d, "j");
    var s2 := s.(durable := Some(removed));
    assert AfterGet(s, "j") == s && Answer(s, "j") == Some(b);
    assert EvictionFailed(s, "j", s2);
    var s' := Restore(s2, Some(b));
    assert Compensated(s, "j", s');
    assert "a" !in s'.durable.value.services;
  }

  /** A failed deregistration under the name of the other service removes nothing, and overwrites the job entry. */
  lemma ServiceKeyOverwritesJob()
    ensures var a, b := JobRegistration("j", "a", "g"), JobRegistration("j", "b", "g");
            var d := Etcd(map["j" := b], map["a" := a, "b" := b]);
            var s := Stores(map["j" := b], map["a" := a, "b" := b], Some(d));
            && RemoveRegistration(d, "a") == d
            && exists s' :: Compensated(s, "a", s') && s'.durable == Some(Etcd(map["j" := a], d.services))
  {
    var a, b := JobRegistration("j", "a", "g"), JobRegistration("j", "b", "g");
    var d := Etcd(map["j" := b], map["a" := a, "b" := b]);
    var s := Stores(map["j" := b], map["a" := a, "b" := b], Some(d));
    assert RemoveRegistration(d, "a").jobs == d.jobs && RemoveRegistration(d, "a").services == d.services;
    assert AfterGet(s, "a") == s && Answer(s, "a") == Some(a);
    assert EvictionFailed(s, "a", s);
    var s' := Restore(s, Some(a));
    assert Compensated(s, "a", s');
    assert s'.durable.value.jobs == map["j" := a] && s'.durable.value.services == d.services;
  }
}
