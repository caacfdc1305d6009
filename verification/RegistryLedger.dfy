/** What the registry holds and answers in terms of the operations that were made on it, with etcd and without. */
module RegistryLedger {
  import opened Prelude
  import opened Jobs
  import opened RegistrySpec
  import opened RegistryRefinement

  /**
   The last registration under a job id that has neither been deregistered nor, where entries can be lost, lost
   since.
   */
  function LastUnderJob(ops: seq<Op>, j: string, lossy: bool): Option<JobRegistration> {
    if ops == [] then None
    else
      var before := LastUnderJob(ops[..|ops| - 1], j, lossy);
      match ops[|ops| - 1]
      case RegisterOp(reg) => if reg.jobId == j then Some(reg) else before
      case DeregisterOp(job) => if job == j then None else before
      case LoseCache(jobs, _) => if lossy && j in jobs then None else before
      case _ => before
  }

  /** The same under a service name; a deregistration takes it away if it is of the job the name stands for. */
  function LastUnderService(ops: seq<Op>, k: string, lossy: bool): Option<JobRegistration> {
    if ops == [] then None
    else
      var before := LastUnderService(ops[..|ops| - 1], k, lossy);
      match ops[|ops| - 1]
      case RegisterOp(reg) => if reg.serviceName == k then Some(reg) else before
      case DeregisterOp(job) => if before.Some? && before.value.jobId == job then None else before
      case LoseCache(_, services) => if lossy && k in services then None else before
      case _ => before
  }

  predicate Holds(m: Entries, k: string, found: Option<JobRegistration>) {
    (k in m <==> found.Some?) && (k in m ==> m[k] == found.value)
  }

  /** Two maps hold exactly the last registrations. */
  ghost predicate Recorded(jobs: Entries, services: Entries, ops: seq<Op>, lossy: bool) {
    && (forall k :: Holds(jobs, k, LastUnderJob(ops, k, lossy)))
    && (forall k :: Holds(services, k, LastUnderService(ops, k, lossy)))
  }

  const NOTHING: Etcd := Etcd(map[], map[])

  lemma {:induction false} CacheRecords(ops: seq<Op>)
    ensures var s := PerformAll(Stores(map[], map[], None), ops);
            s.durable.None? && Recorded(s.cacheJobs, s.cacheServices, ops, true)
  {
    if ops != [] {
      var before, op := ops[..|ops| - 1], ops[|ops| - 1];
      CacheRecords(before);
      var s := PerformAll(Stores(map[], map[], None), before);
      var s' := Perform(s, op);
      forall k ensures Holds(s'.cacheJobs, k, LastUnderJob(ops, k, true)) {
        assert Holds(s.cacheJobs, k, LastUnderJob(before, k, true));
      }
      forall k ensures Holds(s'.cacheServices, k, LastUnderService(ops, k, true)) {
        assert Holds(s.cacheServices, k, LastUnderService(before, k, true));
      }
    }
  }

  /**
   Without etcd: after any operations, a lookup finds exactly the last registration made under the key as a job
   id that was neither deregistered nor lost since, or else the last one made under it as a service name.
   */
  lemma LookupWithoutEtcd(ops: seq<Op>, k: string)
    ensures Answer(PerformAll(Stores(map[], map[], None), ops), k) ==
              if LastUnderJob(ops, k, true).Some? then LastUnderJob(ops, k, true) else LastUnderService(ops, k, true)
  {
    CacheRecords(ops);
    var s := PerformAll(Stores(map[], map[], None), ops);
    assert Holds(s.cacheJobs, k, LastUnderJob(ops, k, true)) && Holds(s.cacheServices, k, LastUnderService(ops, k, true));
  }

  lemma {:induction false} CachingKeepsEtcd(s: Stores, regs: seq<JobRegistration>)
    ensures CacheAll(s, regs).durable == s.durable
  {
    if regs != [] {
      CachingKeepsEtcd(s, regs[..|regs| - 1]);
    }
  }

  lemma PerformOnEtcd(s: Stores, op: Op)
    requires s.durable.Some?
    ensures var d := s.durable.value;
            Perform(s, op).durable == Some(match op
                                           case RegisterOp(reg) => StoreRegistration(d, reg)
                                           case DeregisterOp(job) => RemoveRegistration(d, job)
                                           case _ => d)
  {
    match op
    case SyncOp(regs) => CachingKeepsEtcd(s, regs);
    case ListOp(regs) => CachingKeepsEtcd(s, regs);
    case _ =>
  }

  /** With etcd: it holds exactly the last registrations, and losing the cache loses nothing. */
  lemma {:induction false} EtcdRecords(ops: seq<Op>)
    ensures var s := PerformAll(Stores(map[], map[], Some(NOTHING)), ops);
            s.durable.Some? && Recorded(s.durable.value.jobs, s.durable.value.services, ops, false)
  {
    if ops != [] {
      var before, op := ops[..|ops| - 1], ops[|ops| - 1];
      EtcdRecords(before);
      var s := PerformAll(Stores(map[], map[], Some(NOTHING)), before);
      PerformOnEtcd(s, op);
      var d, d' := s.durable.value, Perform(s, op).durable.value;
      forall k ensures Holds(d'.jobs, k, LastUnderJob(ops, k, false)) {
        assert Holds(d.jobs, k, LastUnderJob(before, k, false));
      }
      forall k ensures Holds(d'.services, k, LastUnderService(ops, k, false)) {
        assert Holds(d.services, k, LastUnderService(before, k, false));
      }
    }
  }

  /**
   With etcd, under the naming discipline: a lookup finds a key exactly if some registration under it, as job id or
   as service name, stands; and what it finds is a registration that stands.
   */
  lemma LookupWithEtcd(n: Naming, ops: seq<Op>, k: string)
    requires AllAdmissible(n, Stores(map[], map[], Some(NOTHING)), ops)
    ensures var r := Answer(PerformAll(Stores(map[], map[], Some(NOTHING)), ops), k);
            && (r.Some? <==> LastUnderJob(ops, k, false).Some? || LastUnderService(ops, k, false).Some?)
            && (r.Some? ==> LastUnderService(ops, r.value.serviceName, false) == r && (r.value.jobId == k || r.value.serviceName == k))
  {
    var s0 := Stores(map[], map[], Some(NOTHING));
    EtcdRecords(ops);
    ReadThrough(n, s0, ops, k);
    var s := PerformAll(s0, ops);
    var d, r := s.durable.value, Answer(s, k);
    assert Holds(d.jobs, k, LastUnderJob(ops, k, false)) && Holds(d.services, k, LastUnderService(ops, k, false));
    if r.Some? {
      assert Holds(d.services, r.value.serviceName, LastUnderService(ops, r.value.serviceName, false));
    }
  }

  // ---------------------------------------------------------------------------------------------
  // What fills the cache

  /** What a lookup has found it finds again in Redis alone. */
  lemma FoundAgainInCache(n: Naming, s: Stores, k: string)
    requires Coherent(n, s) && Answer(s, k).Some?
    ensures Answer(AfterGet(s, k).(durable := None), k) == Answer(s, k)
  {
    CoherentAnswer(n, s, k);
  }

  lemma {:induction false} ListedIsCached(s: Stores, regs: seq<JobRegistration>, r: JobRegistration)
    requires r in regs
    ensures r.jobId in CacheAll(s, regs).cacheJobs && r.serviceName in CacheAll(s, regs).cacheServices
  {
    var before, last := regs[..|regs| - 1], regs[|regs| - 1];
    assert regs == before + [last];
    if r in before {
      ListedIsCached(s, before, r);
    }
  }

  lemma ServiceFilled(n: Naming, s: Stores, regs: seq<JobRegistration>, k: string)
    requires Coherent(n, s) && IsListing(s.durable.value, regs) && k in s.durable.value.services
    ensures var s' := CacheAll(s, regs); k in s'.cacheServices && s'.cacheServices[k] == s.durable.value.services[k]
  {
    var d, s' := s.durable.value, CacheAll(s, regs);
    ListingCurrent(n, d, regs);
    CacheAllKeepsCoherent(n, s, regs);
    assert k in Listed(d) && Listed(d)[k] in regs;
    ListedIsCached(s, regs, d.services[k]);
    assert Current(d, s'.cacheServices[k]);
  }

  lemma JobFilled(n: Naming, s: Stores, regs: seq<JobRegistration>, k: string)
    requires Coherent(n, s) && IsListing(s.durable.value, regs) && k in s.durable.value.jobs
    ensures var s' := CacheAll(s, regs); k in s'.cacheJobs && s'.cacheJobs[k].jobId == k
  {
    var d := s.durable.value;
    ListingCurrent(n, d, regs);
    CacheAllKeepsCoherent(n, s, regs);
    var r := d.jobs[k];
    assert Current(d, r) && r.serviceName in Listed(d) && Listed(d)[r.serviceName] in regs;
    ListedIsCached(s, regs, r);
  }

  /** After a sync, or a listing of empty hashes, Redis alone answers for everything etcd holds. */
  lemma ListingFillsCache(n: Naming, s: Stores, regs: seq<JobRegistration>, k: string)
    requires Coherent(n, s) && IsListing(s.durable.value, regs)
    ensures var d, s' := s.durable.value, Perform(s, SyncOp(regs));
            && (k in d.services ==> k in s'.cacheServices && s'.cacheServices[k] == d.services[k])
            && (k in d.jobs ==> k in s'.cacheJobs && s'.cacheJobs[k].jobId == k)
    ensures s.cacheJobs == map[] && s.cacheServices == map[] ==> Perform(s, ListOp(regs)) == Perform(s, SyncOp(regs))
  {
    if k in s.durable.value.services {
      ServiceFilled(n, s, regs, k);
    }
    if k in s.durable.value.jobs {
      JobFilled(n, s, regs, k);
    }
  }
}
