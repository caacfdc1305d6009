/** What the cache may be trusted for: it answers as etcd would. */
module RegistryRefinement {
  import opened Prelude
  import opened Jobs
  import opened RegistrySpec

  /**
   How names are handed out: `isJob` tells job ids, `owner` the one job each service name belongs to.
   No job id is the service name of another job.
   */
  datatype Naming = Naming(isJob: string -> bool, owner: string -> string)

  predicate Disciplined(n: Naming, reg: JobRegistration) {
    && n.isJob(reg.jobId)
    && n.owner(reg.serviceName) == reg.jobId
    && (n.isJob(reg.serviceName) ==> reg.serviceName == reg.jobId)
  }

  predicate Current(d: Etcd, reg: JobRegistration) {
    reg.serviceName in d.services && d.services[reg.serviceName] == reg
  }

  ghost predicate DurableOk(n: Naming, d: Etcd) {
    && (forall k :: k in d.services ==>
          d.services[k].serviceName == k && d.services[k].jobId in d.jobs && Disciplined(n, d.services[k]))
    && (forall k :: k in d.jobs ==> d.jobs[k].jobId == k && Current(d, d.jobs[k]))
  }

  /** Both hashes only hold current registrations, under their own names. */
  ghost predicate Coherent(n: Naming, s: Stores) {
    && s.durable.Some? && DurableOk(n, s.durable.value)
    && (forall k :: k in s.cacheJobs ==> s.cacheJobs[k].jobId == k && Current(s.durable.value, s.cacheJobs[k]))
    && (forall k :: k in s.cacheServices ==>
          s.cacheServices[k].serviceName == k && Current(s.durable.value, s.cacheServices[k]))
  }

  ghost predicate OneServicePerJob(d: Etcd) {
    forall k1, k2 :: k1 in d.services && k2 in d.services && d.services[k1].jobId == d.services[k2].jobId ==> k1 == k2
  }

  /** What an operation must respect: the naming, and that a listing lists etcd. */
  ghost predicate Admissible(n: Naming, s: Stores, op: Op) {
    match op
    case RegisterOp(reg) => Disciplined(n, reg)
    case SyncOp(regs) => s.durable.Some? ==> IsListing(s.durable.value, regs)
    case ListOp(regs) => s.durable.Some? ==> IsListing(s.durable.value, regs)
    case _ => true
  }

  ghost predicate AllAdmissible(n: Naming, s: Stores, ops: seq<Op>) {
    ops == [] ||
    (AllAdmissible(n, s, ops[..|ops| - 1]) && Admissible(n, PerformAll(s, ops[..|ops| - 1]), ops[|ops| - 1]))
  }

  lemma CacheCurrent(n: Naming, s: Stores, reg: JobRegistration)
    requires Coherent(n, s) && Current(s.durable.value, reg)
    ensures Coherent(n, CacheRegistration(s, reg))
  {
  }

  lemma AnswerCurrent(n: Naming, s: Stores, k: string)
    requires Coherent(n, s) && Answer(s, k).Some?
    ensures Current(s.durable.value, Answer(s, k).value)
  {
  }

  lemma GetKeepsCoherent(n: Naming, s: Stores, k: string)
    requires Coherent(n, s)
    ensures Coherent(n, AfterGet(s, k)) && AfterGet(s, k).durable == s.durable
  {
    if Answer(s, k).Some? {
      AnswerCurrent(n, s, k);
      CacheCurrent(n, s, Answer(s, k).value);
    }
  }

  lemma {:induction false} CacheAllKeepsCoherent(n: Naming, s: Stores, regs: seq<JobRegistration>)
    requires Coherent(n, s) && forall r :: r in regs ==> Current(s.durable.value, r)
    ensures Coherent(n, CacheAll(s, regs)) && CacheAll(s, regs).durable == s.durable
  {
    if regs != [] {
      CacheAllKeepsCoherent(n, s, regs[..|regs| - 1]);
      CacheCurrent(n, CacheAll(s, regs[..|regs| - 1]), regs[|regs| - 1]);
    }
  }

  lemma ListingCurrent(n: Naming, d: Etcd, regs: seq<JobRegistration>)
    requires DurableOk(n, d) && IsListing(d, regs)
    ensures forall r :: r in regs ==> Current(d, r)
  {
    forall r | r in regs ensures Current(d, r) {
      var source := Listed(d);
      assert r in source.Values;
    }
  }

  lemma DurableStore(n: Naming, d: Etcd, reg: JobRegistration)
    requires DurableOk(n, d) && Disciplined(n, reg)
    ensures DurableOk(n, StoreRegistration(d, reg))
  {
    var d' := StoreRegistration(d, reg);
    forall k | k in d'.jobs ensures d'.jobs[k].jobId == k && Current(d', d'.jobs[k]) {
      assert k != reg.jobId ==> Current(d, d.jobs[k]) && n.owner(d.jobs[k].serviceName) == k;
    }
  }

  lemma RegisterKeepsCoherent(n: Naming, s: Stores, reg: JobRegistration)
    requires Coherent(n, s) && Disciplined(n, reg)
    ensures Coherent(n, Register(s, reg))
  {
    var d, s' := s.durable.value, Register(s, reg);
    DurableStore(n, d, reg);
    forall k | k in s'.cacheJobs ensures s'.cacheJobs[k].jobId == k && Current(s'.durable.value, s'.cacheJobs[k]) {
      assert k != reg.jobId ==> Current(d, s.cacheJobs[k]) && n.owner(s.cacheJobs[k].serviceName) == k;
    }
  }

  lemma RemoveKeepsDurable(n: Naming, d: Etcd, job: string)
    requires DurableOk(n, d)
    ensures DurableOk(n, RemoveRegistration(d, job))
  {
    var d' := RemoveRegistration(d, job);
    forall k | k in d'.jobs ensures d'.jobs[k].jobId == k && Current(d', d'.jobs[k]) {
      assert Current(d, d.jobs[k]);
    }
  }

  lemma DeregisterKeepsCoherent(n: Naming, s: Stores, job: string)
    requires Coherent(n, s)
    ensures Coherent(n, Deregister(s, job))
  {
    GetKeepsCoherent(n, s, job);
    RemoveKeepsDurable(n, s.durable.value, job);
  }

  lemma PerformKeepsCoherent(n: Naming, s: Stores, op: Op)
    requires Coherent(n, s) && Admissible(n, s, op)
    ensures Coherent(n, Perform(s, op))
  {
    match op
    case RegisterOp(reg) => RegisterKeepsCoherent(n, s, reg);
    case DeregisterOp(job) => DeregisterKeepsCoherent(n, s, job);
    case GetOp(key) => GetKeepsCoherent(n, s, key);
    case SyncOp(regs) =>
      ListingCurrent(n, s.durable.value, regs);
      CacheAllKeepsCoherent(n, s, regs);
    case ListOp(regs) =>
      ListingCurrent(n, s.durable.value, regs);
      CacheAllKeepsCoherent(n, s, regs);
    case LoseCache(_, _) =>
  }

  lemma {:induction false} RunKeepsCoherent(n: Naming, s: Stores, ops: seq<Op>)
    requires Coherent(n, s) && AllAdmissible(n, s, ops)
    ensures Coherent(n, PerformAll(s, ops))
  {
    if ops != [] {
      RunKeepsCoherent(n, s, ops[..|ops| - 1]);
      PerformKeepsCoherent(n, PerformAll(s, ops[..|ops| - 1]), ops[|ops| - 1]);
    }
  }

  lemma CoherentAnswer(n: Naming, s: Stores, k: string)
    requires Coherent(n, s)
    ensures var d, r := s.durable.value, Answer(s, k);
            && (r.Some? <==> k in d.jobs || k in d.services)
            && (r.Some? ==> Current(d, r.value) && (r.value.jobId == k || r.value.serviceName == k))
            && (OneServicePerJob(d) ==> r == DirectLookup(d, k))
  {
    var d, r := s.durable.value, Answer(s, k);
    if r.Some? {
      AnswerCurrent(n, s, k);
    }
    if k in d.jobs {
      assert Current(d, d.jobs[k]);
    }
  }

  /**
   Read-through refinement: after any run of registrations, deregistrations, lookups, listings, syncs and
   losses of any part of the cache, `get` finds a key exactly if etcd holds it as a job or as a service;
   what it finds is a current registration for the key, and the one a direct lookup would find when every
   job has one service.
   */
  lemma ReadThrough(n: Naming, s: Stores, ops: seq<Op>, k: string)
    requires Coherent(n, s) && AllAdmissible(n, s, ops)
    ensures var s' := PerformAll(s, ops); var r := Answer(s', k);
            && s'.durable.Some?
            && (r.Some? <==> k in s'.durable.value.jobs || k in s'.durable.value.services)
            && (r.Some? ==> Current(s'.durable.value, r.value) && (r.value.jobId == k || r.value.serviceName == k))
            && (OneServicePerJob(s'.durable.value) ==> r == DirectLookup(s'.durable.value, k))
  {
    RunKeepsCoherent(n, s, ops);
    CoherentAnswer(n, PerformAll(s, ops), k);
  }
}
