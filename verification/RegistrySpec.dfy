/**
 The two-tier registry as values: what each operation does to the two Redis hashes and to etcd when
 nothing fails.  `JobRegistry.dfy` proves the imperative code against these functions.
 */
module RegistrySpec {
  import opened Prelude
  import opened Jobs

  type Entries = map<string, JobRegistration>

  /** The two etcd key families, by job id and by service name. */
  datatype Etcd = Etcd(jobs: Entries, services: Entries)

  /** Everything a registry works on; `durable` is None when no etcd is configured. */
  datatype Stores = Stores(cacheJobs: Entries, cacheServices: Entries, durable: Option<Etcd>)

  // ---------------------------------------------------------------------------------------------
  // etcd keys

  function JobsPrefix(prefix: string): string { prefix + "/jobs/" }

  function ServicesPrefix(prefix: string): string { prefix + "/services/" }

  function JobKey(prefix: string, job: string): string { JobsPrefix(prefix) + job }

  function ServiceKey(prefix: string, service: string): string { ServicesPrefix(prefix) + service }

  /** The two families never mix, so they can be kept as two maps: keys are injective and disjoint, also as prefixes. */
  lemma KeyFamilies(prefix: string, a: string, b: string)
    ensures JobKey(prefix, a) == JobKey(prefix, b) ==> a == b
    ensures ServiceKey(prefix, a) == ServiceKey(prefix, b) ==> a == b
    ensures JobKey(prefix, a) == prefix + "/jobs/" + a && ServiceKey(prefix, b) == prefix + "/services/" + b
    ensures ServicesPrefix(prefix) <= ServiceKey(prefix, b) && !(ServicesPrefix(prefix) <= JobKey(prefix, a))
    ensures JobsPrefix(prefix) <= JobKey(prefix, a) && !(JobsPrefix(prefix) <= ServiceKey(prefix, b))
  {
    assert JobKey(prefix, a)[|JobsPrefix(prefix)|..] == a && JobKey(prefix, b)[|JobsPrefix(prefix)|..] == b;
    assert ServiceKey(prefix, a)[|ServicesPrefix(prefix)|..] == a && ServiceKey(prefix, b)[|ServicesPrefix(prefix)|..] == b;
    var n := |prefix| + 1;
    assert JobKey(prefix, a)[n] == 'j' && ServicesPrefix(prefix)[n] == 's';
    assert ServiceKey(prefix, b)[n] == 's' && JobsPrefix(prefix)[n] == 'j';
  }

  // ---------------------------------------------------------------------------------------------
  // The operations

  /** The entries that are not registrations of `job`, whatever key they are under. */
  function WithoutJob(m: Entries, job: string): Entries {
    map k | k in m && m[k].jobId != job :: m[k]
  }

  function Find(first: Entries, second: Entries, k: string): Option<JobRegistration> {
    if k in first then Some(first[k]) else if k in second then Some(second[k]) else None
  }

  function StoreRegistration(d: Etcd, reg: JobRegistration): Etcd {
    Etcd(d.jobs[reg.jobId := reg], d.services[reg.serviceName := reg])
  }

  function RemoveRegistration(d: Etcd, job: string): Etcd {
    Etcd(d.jobs - {job}, WithoutJob(d.services, job))
  }

  function DirectLookup(d: Etcd, k: string): Option<JobRegistration> {
    Find(d.jobs, d.services, k)
  }

  function CacheRegistration(s: Stores, reg: JobRegistration): Stores {
    s.(cacheJobs := s.cacheJobs[reg.jobId := reg], cacheServices := s.cacheServices[reg.serviceName := reg])
  }

  function EvictCached(s: Stores, job: string): Stores {
    s.(cacheJobs := s.cacheJobs - {job}, cacheServices := WithoutJob(s.cacheServices, job))
  }

  /** The answer of `get`: the cache by job, the cache by service, then etcd in the same order. */
  function Answer(s: Stores, k: string): Option<JobRegistration> {
    var cached := Find(s.cacheJobs, s.cacheServices, k);
    if cached.Some? || s.durable.None? then cached else DirectLookup(s.durable.value, k)
  }

  /** The effect of `get`: an answer from etcd is written back to the cache. */
  function AfterGet(s: Stores, k: string): Stores {
    if Find(s.cacheJobs, s.cacheServices, k).None? && Answer(s, k).Some? then CacheRegistration(s, Answer(s, k).value)
    else s
  }

  function Register(s: Stores, reg: JobRegistration): Stores {
    var s' := if s.durable.Some? then s.(durable := Some(StoreRegistration(s.durable.value, reg))) else s;
    CacheRegistration(s', reg)
  }

  function Deregister(s: Stores, job: string): Stores {
    var s1 := AfterGet(s, job);
    var s2 := if s1.durable.Some? then s1.(durable := Some(RemoveRegistration(s1.durable.value, job))) else s1;
    EvictCached(s2, job)
  }

  function CacheAll(s: Stores, regs: seq<JobRegistration>): Stores {
    if regs == [] then s else CacheRegistration(CacheAll(s, regs[..|regs| - 1]), regs[|regs| - 1])
  }

  /** What etcd lists: the service entries, or the job entries if there are none. */
  function Listed(d: Etcd): Entries {
    if d.services != map[] then d.services else d.jobs
  }

  /** A listing of etcd, in some order. */
  ghost predicate IsListing(d: Etcd, regs: seq<JobRegistration>) {
    var source := Listed(d);
    && (forall r :: r in regs ==> r in source.Values)
    && (forall k :: k in source ==> source[k] in regs)
  }

  // ---------------------------------------------------------------------------------------------
  // Runs

  datatype Op =
    | RegisterOp(reg: JobRegistration)
    | DeregisterOp(job: string)
    | GetOp(key: string)
    | SyncOp(regs: seq<JobRegistration>)
    | ListOp(regs: seq<JobRegistration>)
    | LoseCache(jobs: set<string>, services: set<string>)

  /** `list_all` reads etcd only when both hashes are empty. */
  function AfterList(s: Stores, regs: seq<JobRegistration>): Stores {
    if s.cacheServices == map[] && s.cacheJobs == map[] && s.durable.Some? then CacheAll(s, regs) else s
  }

  function Perform(s: Stores, op: Op): Stores {
    match op
    case RegisterOp(reg) => Register(s, reg)
    case DeregisterOp(job) => Deregister(s, job)
    case GetOp(key) => AfterGet(s, key)
    case SyncOp(regs) => if s.durable.Some? then CacheAll(s, regs) else s
    case ListOp(regs) => AfterList(s, regs)
    case LoseCache(jobs, services) => s.(cacheJobs := s.cacheJobs - jobs, cacheServices := s.cacheServices - services)
  }

  function PerformAll(s: Stores, ops: seq<Op>): Stores {
    if ops == [] then s else Perform(PerformAll(s, ops[..|ops| - 1]), ops[|ops| - 1])
  }
}
