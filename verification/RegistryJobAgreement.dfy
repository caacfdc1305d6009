/**
 Agreement of cache and etcd for one job at a time, in the step machine of `RegistryHistory`.

 Under the naming discipline every key, job id or service name, belongs to one job.  What other jobs' calls do,
 faults and crashes included, never touches the entries of this job; so its entries agree whenever no write of
 the job is under way, as long as its writes overlap with nothing that handles the job.
 */
module RegistryJobAgreement {
  import opened Prelude
  import opened Jobs
  import opened RegistryHistory
  import opened RegistryRefinement
  import opened RegistryAgreement
  import Spec = RegistrySpec

  /** The job a key belongs to. */
  function Owner(n: Naming, k: string): string {
    if n.isJob(k) then k else n.owner(k)
  }

  lemma BothKeysOwned(n: Naming, reg: JobRegistration)
    requires Disciplined(n, reg)
    ensures Owner(n, reg.jobId) == reg.jobId && Owner(n, reg.serviceName) == reg.jobId
  {
  }

  function Own(n: Naming, j: string, m: Spec.Entries): Spec.Entries {
    map k | k in m && Owner(n, k) == j :: m[k]
  }

  /** The entries of one job; the calls are the same. */
  function Part(n: Naming, j: string, w: World): World {
    World(Own(n, j, w.cacheJobs), Own(n, j, w.cacheServices),
          Spec.Etcd(Own(n, j, w.etcd.jobs), Own(n, j, w.etcd.services)), w.accepted, w.procs)
  }

  // ---------------------------------------------------------------------------------------------
  // Names, in every run

  ghost predicate ByJob(n: Naming, m: Spec.Entries) {
    forall k :: k in m ==> Disciplined(n, m[k]) && m[k].jobId == k
  }

  ghost predicate ByService(n: Naming, m: Spec.Entries) {
    forall k :: k in m ==> Disciplined(n, m[k]) && m[k].serviceName == k
  }

  ghost predicate AfterNamed(n: Naming, after: After) {
    after.CacheNext? ==> forall r :: r in after.regs ==> Disciplined(n, r)
  }

  ghost predicate Named(n: Naming, found: Option<JobRegistration>) {
    found.Some? ==> Disciplined(n, found.value)
  }

  ghost predicate ProcNamed(n: Naming, p: Proc) {
    match p
    case StoreThenCache(reg) => Disciplined(n, reg)
    case CacheByJob(reg, after) => Disciplined(n, reg) && AfterNamed(n, after)
    case CacheByService(reg, after) => Disciplined(n, reg) && AfterNamed(n, after)
    case FindServiceKeys(_, existing) => Named(n, existing)
    case DeleteKeys(_, existing, _) => Named(n, existing)
    case Scan(_, existing) => Named(n, existing)
    case EvictService(_, existing, _) => Named(n, existing)
    case EvictJob(_, existing) => Named(n, existing)
    case RestoreEtcd(reg) => Disciplined(n, reg)
    case _ => true
  }

  /** Every registration anywhere respects the naming, and every entry sits under its own name. */
  ghost predicate Placed(n: Naming, w: World) {
    && ByJob(n, w.cacheJobs) && ByService(n, w.cacheServices) && ByJob(n, w.etcd.jobs) && ByService(n, w.etcd.services)
    && (forall i :: 0 <= i < |w.procs| ==> ProcNamed(n, w.procs[i]))
  }

  lemma IssuePlaced(n: Naming, w: World, p: Proc)
    requires Placed(n, w) && ProcNamed(n, p)
    ensures Placed(n, Issue(w, p)) && Issue(w, p).procs == w.procs
  {
  }

  lemma CacheListNamed(n: Naming, regs: seq<JobRegistration>)
    requires forall r :: r in regs ==> Disciplined(n, r)
    ensures ProcNamed(n, CacheList(regs))
  {
    if regs != [] {
      assert regs[0] in regs && forall r :: r in regs[1..] ==> r in regs;
    }
  }

  lemma NextProcNamed(n: Naming, w: World, p: Proc, ok: bool, order: seq<string>)
    requires Placed(n, w) && ProcNamed(n, p)
    ensures ProcNamed(n, NextProc(w, p, ok, order))
  {
    if ok && p.ListEtcd? {
      var m := if p.byService then w.etcd.services else w.etcd.jobs;
      var regs := Listing(m, order);
      forall r | r in regs ensures Disciplined(n, r) {
        assert r in m.Values;
      }
      CacheListNamed(n, regs);
    } else if ok && p.CacheByService? && p.after.CacheNext? {
      CacheListNamed(n, p.after.regs);
    }
  }

  lemma NextPlaced(n: Naming, w: World, a: Action)
    requires Placed(n, w) && (a.Begin? && a.call.Register? ==> Disciplined(n, a.call.reg))
    ensures Placed(n, Next(w, a))
  {
    if a.Step? && a.pid < |w.procs| {
      IssuePlaced(n, w, w.procs[a.pid]);
      NextProcNamed(n, w, w.procs[a.pid], a.delivery == Delivered, a.order);
    }
  }

  /** What a key stands for belongs to the owner of the key. */
  lemma EntryOwned(n: Naming, m: Spec.Entries, k: string)
    requires (ByJob(n, m) || ByService(n, m)) && k in m
    ensures Owner(n, k) == m[k].jobId
  {
    BothKeysOwned(n, m[k]);
  }

  // ---------------------------------------------------------------------------------------------
  // Calls that have nothing to do with the job

  ghost predicate NotOf(j: string, found: Option<JobRegistration>) {
    found.Some? ==> found.value.jobId != j
  }

  ghost predicate AfterForeign(n: Naming, j: string, after: After) {
    match after
    case Return => true
    case DeleteNext(job) => Owner(n, job) != j
    case CacheNext(regs) => forall r :: r in regs ==> r.jobId != j
  }

  /** A removal of some other job's keys. */
  ghost predicate RemovesOthers(n: Naming, j: string, p: Proc) {
    match p
    case FindServiceKeys(job, existing) => Owner(n, job) != j && NotOf(j, existing)
    case DeleteKeys(job, existing, keys) => Owner(n, job) != j && NotOf(j, existing) && forall k :: k in keys ==> Owner(n, k) != j
    case Scan(job, existing) => Owner(n, job) != j && NotOf(j, existing)
    case EvictService(job, existing, names) => Owner(n, job) != j && NotOf(j, existing) && forall k :: k in names ==> Owner(n, k) != j
    case EvictJob(job, existing) => Owner(n, job) != j && NotOf(j, existing)
    case RestoreEtcd(reg) => reg.jobId != j
    case _ => false
  }

  /** The call neither looks at a key of the job, nor lists, nor has any registration of the job. */
  ghost predicate Elsewhere(n: Naming, j: string, p: Proc) {
    match p
    case StoreThenCache(reg) => reg.jobId != j
    case LookupCache(key, _, _) => Owner(n, key) != j
    case LookupEtcd(key, _, _) => Owner(n, key) != j
    case CacheByJob(reg, after) => reg.jobId != j && AfterForeign(n, j, after)
    case CacheByService(reg, after) => reg.jobId != j && AfterForeign(n, j, after)
    case ListCache(_) => false
    case ListEtcd(_) => false
    case Stopped => true
    case _ => RemovesOthers(n, j, p)
  }

  lemma OwnUpdate(n: Naming, j: string, m: Spec.Entries, k: string, r: JobRegistration)
    ensures Own(n, j, m[k := r]) == if Owner(n, k) == j then Own(n, j, m)[k := r] else Own(n, j, m)
  {
  }

  lemma OwnRemove(n: Naming, j: string, m: Spec.Entries, keys: set<string>)
    ensures Own(n, j, m - keys) == Own(n, j, m) - keys
    ensures (forall k :: k in keys ==> Owner(n, k) != j) ==> Own(n, j, m - keys) == Own(n, j, m)
  {
  }

  lemma OtherUpdate(n: Naming, j: string, m: Spec.Entries, m': Spec.Entries, reg: JobRegistration)
    requires Disciplined(n, reg) && reg.jobId != j
    ensures Own(n, j, m[reg.jobId := reg]) == Own(n, j, m) && Own(n, j, m'[reg.serviceName := reg]) == Own(n, j, m')
  {
    BothKeysOwned(n, reg);
    OwnUpdate(n, j, m, reg.jobId, reg);
    OwnUpdate(n, j, m', reg.serviceName, reg);
  }

  /** Such a call leaves the entries of the job alone. */
  lemma ElsewhereIssue(n: Naming, j: string, w: World, p: Proc)
    requires ProcNamed(n, p) && Elsewhere(n, j, p)
    ensures StoresOf(Part(n, j, Issue(w, p))) == StoresOf(Part(n, j, w))
  {
    match p
    case StoreThenCache(reg) => OtherUpdate(n, j, w.etcd.jobs, w.etcd.services, reg);
    case RestoreEtcd(reg) => OtherUpdate(n, j, w.etcd.jobs, w.etcd.services, reg);
    case CacheByJob(reg, _) => OtherUpdate(n, j, w.cacheJobs, w.cacheServices, reg);
    case CacheByService(reg, _) => OtherUpdate(n, j, w.cacheJobs, w.cacheServices, reg);
    case DeleteKeys(job, _, keys) =>
      OwnRemove(n, j, w.etcd.jobs, {job});
      OwnRemove(n, j, w.etcd.services, keys);
    case EvictService(_, _, names) => if names != [] { OwnRemove(n, j, w.cacheServices, {names[0]}); }
    case EvictJob(job, _) => OwnRemove(n, j, w.cacheJobs, {job});
    case _ =>
  }

  lemma MatchingElsewhere(n: Naming, j: string, m: Spec.Entries, job: string, order: seq<string>)
    requires ByService(n, m) && Owner(n, job) != j
    ensures forall k :: k in Matching(m, job, order) ==> Owner(n, k) != j
  {
    forall k | k in Matching(m, job, order) ensures Owner(n, k) != j {
      MatchingExactly(m, job, order, k);
      EntryOwned(n, m, k);
    }
  }

  /** And it goes on having nothing to do with the job, whatever fails. */
  lemma ElsewhereStays(n: Naming, j: string, w: World, p: Proc, ok: bool, order: seq<string>)
    requires Placed(n, w) && ProcNamed(n, p) && Elsewhere(n, j, p)
    ensures Elsewhere(n, j, NextProc(w, p, ok, order))
  {
    if ok && (p.LookupCache? || p.LookupEtcd?) {
      LookupElsewhere(n, j, w, p);
    } else if ok && p.CacheByService? && p.after.CacheNext? {
      CacheListElsewhere(n, j, p.after.regs);
    } else if ok && p.FindServiceKeys? {
      forall k | k in w.etcd.services && w.etcd.services[k].jobId == p.job ensures Owner(n, k) != j {
        EntryOwned(n, w.etcd.services, k);
      }
    } else if ok && p.Scan? {
      MatchingElsewhere(n, j, w.cacheServices, p.job, order);
    }
  }

  lemma LookupElsewhere(n: Naming, j: string, w: World, p: Proc)
    requires Placed(n, w) && (p.LookupCache? || p.LookupEtcd?) && Owner(n, p.key) != j
    ensures Elsewhere(n, j, LookupStep(w, p))
  {
    var m := if p.LookupCache? then (if p.byJob then w.cacheJobs else w.cacheServices)
             else (if p.byJob then w.etcd.jobs else w.etcd.services);
    if p.key in m {
      EntryOwned(n, m, p.key);
    }
  }

  lemma CacheListElsewhere(n: Naming, j: string, regs: seq<JobRegistration>)
    requires forall r :: r in regs ==> r.jobId != j
    ensures Elsewhere(n, j, CacheList(regs))
  {
    if regs != [] {
      assert regs[0] in regs && forall r :: r in regs[1..] ==> r in regs;
    }
  }

  // ---------------------------------------------------------------------------------------------
  // Calls that read the job

  ghost predicate CurrentFor(d: Spec.Etcd, j: string, reg: JobRegistration) {
    reg.jobId == j ==> Current(d, reg)
  }

  ghost predicate AfterReads(n: Naming, d: Spec.Etcd, j: string, reg: JobRegistration, after: After) {
    match after
    case Return => true
    case DeleteNext(job) => Owner(n, job) != j && reg.jobId != j
    case CacheNext(regs) => forall r :: r in regs ==> CurrentFor(d, j, r)
  }

  /** The call does not write the job in etcd, and what it has of the job is current. */
  ghost predicate Handles(n: Naming, d: Spec.Etcd, j: string, p: Proc) {
    match p
    case StoreThenCache(reg) => reg.jobId != j
    case LookupCache(key, _, deregister) => deregister ==> Owner(n, key) != j
    case LookupEtcd(key, _, deregister) => deregister ==> Owner(n, key) != j
    case CacheByJob(reg, after) => CurrentFor(d, j, reg) && AfterReads(n, d, j, reg, after)
    case CacheByService(reg, after) => CurrentFor(d, j, reg) && AfterReads(n, d, j, reg, after)
    case ListCache(_) => true
    case ListEtcd(_) => true
    case Stopped => true
    case _ => RemovesOthers(n, j, p)
  }

  lemma ElsewhereHandles(n: Naming, d: Spec.Etcd, j: string, p: Proc)
    requires Elsewhere(n, j, p)
    ensures Handles(n, d, j, p)
  {
  }

  /** The entries of the job agree, and nobody is about to change that. */
  ghost predicate CalmFor(n: Naming, w: World, j: string) {
    && Placed(n, w) && Coherent(n, StoresOf(Part(n, j, w)))
    && (forall i :: 0 <= i < |w.procs| ==> Handles(n, w.etcd, j, w.procs[i]))
  }

  lemma CurrentInPart(n: Naming, j: string, w: World, reg: JobRegistration)
    requires Disciplined(n, reg) && reg.jobId == j
    ensures Current(w.etcd, reg) <==> Current(Part(n, j, w).etcd, reg)
  {
    BothKeysOwned(n, reg);
  }

  /** An entry of the job in any of the four maps is current. */
  lemma FoundCurrent(n: Naming, j: string, w: World, m: Spec.Entries, k: string)
    requires Placed(n, w) && Coherent(n, StoresOf(Part(n, j, w)))
    requires m in {w.cacheJobs, w.cacheServices, w.etcd.jobs, w.etcd.services} && k in m
    ensures CurrentFor(w.etcd, j, m[k])
  {
    EntryOwned(n, m, k);
    if m[k].jobId == j {
      var part := Part(n, j, w);
      assert k in Own(n, j, m) && Own(n, j, m)[k] == m[k];
      assert Current(part.etcd, m[k]);
      CurrentInPart(n, j, w, m[k]);
    }
  }

  lemma CachePart(n: Naming, j: string, w: World, reg: JobRegistration)
    requires Disciplined(n, reg) && CurrentFor(w.etcd, j, reg) && Coherent(n, StoresOf(Part(n, j, w)))
    ensures Coherent(n, StoresOf(Part(n, j, w.(cacheJobs := w.cacheJobs[reg.jobId := reg]))))
    ensures Coherent(n, StoresOf(Part(n, j, w.(cacheServices := w.cacheServices[reg.serviceName := reg]))))
  {
    BothKeysOwned(n, reg);
    OwnUpdate(n, j, w.cacheJobs, reg.jobId, reg);
    OwnUpdate(n, j, w.cacheServices, reg.serviceName, reg);
    if reg.jobId == j {
      CurrentInPart(n, j, w, reg);
    }
  }

  lemma HandlesIssue(n: Naming, j: string, w: World, p: Proc)
    requires ProcNamed(n, p) && Handles(n, w.etcd, j, p) && Coherent(n, StoresOf(Part(n, j, w)))
    ensures Coherent(n, StoresOf(Part(n, j, Issue(w, p)))) && Part(n, j, Issue(w, p)).etcd == Part(n, j, w).etcd
  {
    if p.CacheByJob? || p.CacheByService? {
      CachePart(n, j, w, p.reg);
    } else if p.StoreThenCache? || RemovesOthers(n, j, p) {
      ElsewhereIssue(n, j, w, p);
    }
  }

  /** What is current of the job stays so while its part of etcd does not change. */
  lemma HandlesStays(n: Naming, j: string, w: World, w': World, p: Proc)
    requires ProcNamed(n, p) && Handles(n, w.etcd, j, p) && Part(n, j, w').etcd == Part(n, j, w).etcd
    ensures Handles(n, w'.etcd, j, p)
  {
    if p.CacheByJob? || p.CacheByService? {
      StaysCurrent(n, j, w, w', p.reg);
      if p.after.CacheNext? {
        forall r | r in p.after.regs ensures CurrentFor(w'.etcd, j, r) {
          StaysCurrent(n, j, w, w', r);
        }
      }
    }
  }

  lemma StaysCurrent(n: Naming, j: string, w: World, w': World, reg: JobRegistration)
    requires Disciplined(n, reg) && CurrentFor(w.etcd, j, reg) && Part(n, j, w').etcd == Part(n, j, w).etcd
    ensures CurrentFor(w'.etcd, j, reg)
  {
    if reg.jobId == j {
      CurrentInPart(n, j, w, reg);
      CurrentInPart(n, j, w', reg);
    }
  }

  lemma CacheListHandles(n: Naming, d: Spec.Etcd, j: string, regs: seq<JobRegistration>)
    requires forall r :: r in regs ==> CurrentFor(d, j, r)
    ensures Handles(n, d, j, CacheList(regs))
  {
    if regs != [] {
      assert regs[0] in regs && forall r :: r in regs[1..] ==> r in regs;
    }
  }

  lemma LookupHandles(n: Naming, j: string, w: World, p: Proc)
    requires Placed(n, w) && Coherent(n, StoresOf(Part(n, j, w)))
    requires (p.LookupCache? || p.LookupEtcd?) && Handles(n, w.etcd, j, p)
    ensures Handles(n, w.etcd, j, LookupStep(w, p))
  {
    if Owner(n, p.key) != j {
      LookupElsewhere(n, j, w, p);
      ElsewhereHandles(n, w.etcd, j, LookupStep(w, p));
    } else {
      var m := if p.LookupCache? then (if p.byJob then w.cacheJobs else w.cacheServices)
               else (if p.byJob then w.etcd.jobs else w.etcd.services);
      if p.key in m {
        FoundCurrent(n, j, w, m, p.key);
      }
    }
  }

  lemma ListHandles(n: Naming, j: string, w: World, m: Spec.Entries, order: seq<string>)
    requires Placed(n, w) && Coherent(n, StoresOf(Part(n, j, w))) && m in {w.etcd.jobs, w.etcd.services}
    ensures Handles(n, w.etcd, j, CacheList(Listing(m, order)))
  {
    var regs := Listing(m, order);
    forall r | r in regs ensures CurrentFor(w.etcd, j, r) {
      assert r in m.Values;
      var k :| k in m && m[k] == r;
      FoundCurrent(n, j, w, m, k);
    }
    CacheListHandles(n, w.etcd, j, regs);
  }

  lemma NextHandles(n: Naming, j: string, w: World, p: Proc, ok: bool, order: seq<string>)
    requires Placed(n, w) && Coherent(n, StoresOf(Part(n, j, w))) && ProcNamed(n, p) && Handles(n, w.etcd, j, p)
    ensures Handles(n, w.etcd, j, NextProc(w, p, ok, order))
  {
    if RemovesOthers(n, j, p) {
      ElsewhereStays(n, j, w, p, ok, order);
      ElsewhereHandles(n, w.etcd, j, NextProc(w, p, ok, order));
    } else if ok && (p.LookupCache? || p.LookupEtcd?) {
      LookupHandles(n, j, w, p);
    } else if ok && p.ListEtcd? {
      ListHandles(n, j, w, if p.byService then w.etcd.services else w.etcd.jobs, order);
    } else if ok && p.CacheByService? && p.after.CacheNext? {
      CacheListHandles(n, w.etcd, j, p.after.regs);
    }
  }

  /** A write of the job: a registration of it, or a deregistration under one of its keys. */
  predicate WritesJob(n: Naming, j: string, call: Call) {
    match call
    case Register(reg) => reg.jobId == j
    case Deregister(key) => Owner(n, key) == j
    case _ => false
  }

  ghost predicate Registers(n: Naming, a: Action) {
    a.Begin? && a.call.Register? ==> Disciplined(n, a.call.reg)
  }

  lemma StepCalmFor(n: Naming, w: World, j: string, i: nat, delivery: Delivery, order: seq<string>)
    requires CalmFor(n, w, j) && i < |w.procs|
    ensures CalmFor(n, Next(w, Step(i, delivery, order)), j)
  {
    var p := w.procs[i];
    var w' := Next(w, Step(i, delivery, order));
    NextPlaced(n, w, Step(i, delivery, order));
    HandlesIssue(n, j, w, p);
    NextHandles(n, j, w, p, delivery == Delivered, order);
    forall k | 0 <= k < |w'.procs| ensures Handles(n, w'.etcd, j, w'.procs[k]) {
      NextProcNamed(n, w, p, delivery == Delivered, order);
      HandlesStays(n, j, w, w', w'.procs[k]);
    }
  }

  /** Everything but a write of the job keeps its entries in agreement, faulty as it may be. */
  lemma NextCalmFor(n: Naming, w: World, j: string, a: Action)
    requires CalmFor(n, w, j) && Registers(n, a) && (a.Begin? ==> !WritesJob(n, j, a.call))
    ensures CalmFor(n, Next(w, a), j)
  {
    NextPlaced(n, w, a);
    if a.Step? && a.pid < |w.procs| {
      StepCalmFor(n, w, j, a.pid, a.delivery, a.order);
    }
  }

  // ---------------------------------------------------------------------------------------------
  // A write of the job

  ghost predicate AfterWrites(n: Naming, j: string, after: After) {
    match after
    case Return => true
    case DeleteNext(job) => Owner(n, job) == j
    case CacheNext(_) => false
  }

  ghost predicate Writes(n: Naming, j: string, p: Proc) {
    match p
    case StoreThenCache(reg) => reg.jobId == j
    case LookupCache(key, _, deregister) => deregister && Owner(n, key) == j
    case LookupEtcd(key, _, deregister) => deregister && Owner(n, key) == j
    case CacheByJob(reg, after) => reg.jobId == j && AfterWrites(n, j, after)
    case CacheByService(reg, after) => reg.jobId == j && AfterWrites(n, j, after)
    case FindServiceKeys(job, _) => Owner(n, job) == j
    case DeleteKeys(job, _, _) => Owner(n, job) == j
    case Scan(job, _) => Owner(n, job) == j
    case EvictService(job, _, _) => Owner(n, job) == j
    case EvictJob(job, _) => Owner(n, job) == j
    case Stopped => true
    case _ => false
  }

  /** All registrations of what a key of the job stands for belong to the job. */
  lemma NamedByOwnKey(n: Naming, j: string, m: Spec.Entries, job: string, k: string)
    requires ByService(n, m) && Owner(n, job) == j && k in m && m[k].jobId == job
    ensures Owner(n, k) == j
  {
    EntryOwned(n, m, k);
    BothKeysOwned(n, m[k]);
  }

  lemma {:induction false} MatchingPart(n: Naming, j: string, m: Spec.Entries, job: string, order: seq<string>)
    requires ByService(n, m) && Owner(n, job) == j
    ensures Matching(Own(n, j, m), job, order) == Matching(m, job, order)
  {
    if order != [] {
      MatchingPart(n, j, m, job, order[1..]);
      if order[0] in m && m[order[0]].jobId == job {
        NamedByOwnKey(n, j, m, job, order[0]);
      }
    }
  }

  lemma ServiceKeysPart(n: Naming, j: string, m: Spec.Entries, job: string)
    requires ByService(n, m) && Owner(n, job) == j
    ensures (set k | k in m && m[k].jobId == job) == (set k | k in Own(n, j, m) && Own(n, j, m)[k].jobId == job)
  {
    forall k | k in m && m[k].jobId == job ensures Owner(n, k) == j {
      NamedByOwnKey(n, j, m, job, k);
    }
  }

  lemma LookupPart(n: Naming, j: string, w: World, p: Proc)
    requires Placed(n, w) && (p.LookupCache? || p.LookupEtcd?) && Writes(n, j, p)
    ensures Writes(n, j, LookupStep(w, p)) && LookupStep(Part(n, j, w), p) == LookupStep(w, p)
  {
    var m := if p.LookupCache? then (if p.byJob then w.cacheJobs else w.cacheServices)
             else (if p.byJob then w.etcd.jobs else w.etcd.services);
    if p.key in m {
      EntryOwned(n, m, p.key);
    }
  }

  /** A write of the job sees and goes on with nothing but the entries of the job. */
  lemma WriterNext(n: Naming, j: string, w: World, p: Proc, order: seq<string>)
    requires Placed(n, w) && ProcNamed(n, p) && Writes(n, j, p)
    ensures Writes(n, j, NextProc(w, p, true, order))
    ensures NextProc(Part(n, j, w), p, true, order) == NextProc(w, p, true, order)
  {
    if p.LookupCache? || p.LookupEtcd? {
      LookupPart(n, j, w, p);
    } else if p.FindServiceKeys? {
      ServiceKeysPart(n, j, w.etcd.services, p.job);
    } else if p.Scan? {
      MatchingPart(n, j, w.cacheServices, p.job, order);
    }
  }

  lemma OwnUpdateBoth(n: Naming, j: string, m: Spec.Entries, m': Spec.Entries, reg: JobRegistration)
    requires Disciplined(n, reg) && reg.jobId == j
    ensures Own(n, j, m[reg.jobId := reg]) == Own(n, j, m)[reg.jobId := reg]
    ensures Own(n, j, m'[reg.serviceName := reg]) == Own(n, j, m')[reg.serviceName := reg]
  {
    BothKeysOwned(n, reg);
    OwnUpdate(n, j, m, reg.jobId, reg);
    OwnUpdate(n, j, m', reg.serviceName, reg);
  }

  lemma WriterIssue(n: Naming, j: string, w: World, p: Proc)
    requires ProcNamed(n, p) && Writes(n, j, p)
    ensures StoresOf(Part(n, j, Issue(w, p))) == StoresOf(Issue(Part(n, j, w), p))
  {
    match p
    case StoreThenCache(reg) => OwnUpdateBoth(n, j, w.etcd.jobs, w.etcd.services, reg);
    case CacheByJob(reg, _) => OwnUpdateBoth(n, j, w.cacheJobs, w.cacheServices, reg);
    case CacheByService(reg, _) => OwnUpdateBoth(n, j, w.cacheJobs, w.cacheServices, reg);
    case DeleteKeys(job, _, keys) =>
      OwnRemove(n, j, w.etcd.jobs, {job});
      OwnRemove(n, j, w.etcd.services, keys);
    case EvictService(_, _, names) => if names != [] { OwnRemove(n, j, w.cacheServices, {names[0]}); }
    case EvictJob(job, _) => OwnRemove(n, j, w.cacheJobs, {job});
    case _ =>
  }

  /** The write under way is the only call that has to do with the job, and leads to agreement. */
  ghost predicate WritingFor(n: Naming, w: World, j: string, i: nat)
    requires i < |w.procs|
  {
    && Placed(n, w) && Writes(n, j, w.procs[i]) && !Lists(w.procs[i])
    && Coherent(n, Outcome(StoresOf(Part(n, j, w)), w.procs[i]))
    && (forall k :: 0 <= k < |w.procs| && k != i ==> Elsewhere(n, j, w.procs[k]))
  }

  ghost predicate AgreeingFor(n: Naming, w: World, j: string, writer: Option<nat>) {
    if AtWork(w, writer) then WritingFor(n, w, j, writer.value) else CalmFor(n, w, j)
  }

  lemma WriterKeepsOutcome(n: Naming, w: World, j: string, p: Proc, order: seq<string>)
    requires Placed(n, w) && ProcNamed(n, p) && Writes(n, j, p) && !Lists(p) && Full(w, order)
    ensures !Lists(NextProc(w, p, true, order))
    ensures Outcome(StoresOf(Part(n, j, Issue(w, p))), NextProc(w, p, true, order)) == Outcome(StoresOf(Part(n, j, w)), p)
  {
    WriterNext(n, j, w, p, order);
    WriterIssue(n, j, w, p);
    StepKeepsOutcome(Part(n, j, w), p, order);
  }

  /** The entries of the job do not depend on what calls are doing. */
  lemma PartOfStores(n: Naming, j: string, w: World, w': World)
    requires StoresOf(w') == StoresOf(w)
    ensures StoresOf(Part(n, j, w')) == StoresOf(Part(n, j, w))
  {
  }

  lemma WriterStepFor(n: Naming, w: World, j: string, i: nat, order: seq<string>)
    requires i < |w.procs| && WritingFor(n, w, j, i) && Full(w, order)
    ensures WritingFor(n, Next(w, Step(i, Delivered, order)), j, i)
  {
    var p := w.procs[i];
    NextPlaced(n, w, Step(i, Delivered, order));
    WriterNext(n, j, w, p, order);
    WriterKeepsOutcome(n, w, j, p, order);
    PartOfStores(n, j, Issue(w, p), Next(w, Step(i, Delivered, order)));
  }

  lemma OtherStepFor(n: Naming, w: World, j: string, i: nat, k: nat, delivery: Delivery, order: seq<string>)
    requires i < |w.procs| && WritingFor(n, w, j, i) && k < |w.procs| && k != i
    ensures WritingFor(n, Next(w, Step(k, delivery, order)), j, i)
  {
    var p := w.procs[k];
    var w' := Next(w, Step(k, delivery, order));
    NextPlaced(n, w, Step(k, delivery, order));
    ElsewhereIssue(n, j, w, p);
    ElsewhereStays(n, j, w, p, delivery == Delivered, order);
    PartOfStores(n, j, if delivery == RequestLost then w else Issue(w, p), w');
  }

  /** The write has ended. */
  lemma WriterEnds(n: Naming, w: World, j: string, i: nat)
    requires i < |w.procs| && WritingFor(n, w, j, i) && w.procs[i] == Stopped
    ensures CalmFor(n, w, j)
  {
    forall k | 0 <= k < |w.procs| ensures Handles(n, w.etcd, j, w.procs[k]) {
      if k != i {
        ElsewhereHandles(n, w.etcd, j, w.procs[k]);
      }
    }
  }

  /** The call looks at a key of the job or lists. */
  predicate ReadsJob(n: Naming, j: string, call: Call) {
    match call
    case Get(key) => Owner(n, key) == j
    case Sync => true
    case ListAll => true
    case _ => false
  }

  /**
   What the next action must respect: a write of the job begins when every other call is elsewhere, no lookup
   under a key of the job, sync, listing or other write of it begins while one is under way, and the write under
   way meets no fault.  Calls of other jobs may do anything.
   */
  ghost predicate OrderlyFor(n: Naming, w: World, j: string, writer: Option<nat>, a: Action) {
    && Registers(n, a)
    && (match a
        case Begin(call) =>
          && (WritesJob(n, j, call) ==> !AtWork(w, writer) && forall i :: 0 <= i < |w.procs| ==> Elsewhere(n, j, w.procs[i]))
          && (ReadsJob(n, j, call) ==> !AtWork(w, writer))
        case Crash(i) => AtWork(w, writer) ==> writer != Some(i)
        case Step(i, delivery, order) => AtWork(w, writer) && writer == Some(i) ==> delivery == Delivered && Full(w, order))
  }

  function WriterFor(n: Naming, j: string, w: World, schedule: seq<Action>): Option<nat> {
    if schedule == [] then None
    else
      var before, a := schedule[..|schedule| - 1], schedule[|schedule| - 1];
      if a.Begin? && WritesJob(n, j, a.call) then Some(|Run(w, before).procs|) else WriterFor(n, j, w, before)
  }

  ghost predicate NoOverlapFor(n: Naming, w: World, j: string, schedule: seq<Action>) {
    schedule == [] ||
    (var before := schedule[..|schedule| - 1];
     NoOverlapFor(n, w, j, before) && OrderlyFor(n, Run(w, before), j, WriterFor(n, j, w, before), schedule[|schedule| - 1]))
  }

  lemma BeginsFor(n: Naming, w: World, j: string, call: Call)
    requires CalmFor(n, w, j) && WritesJob(n, j, call) && Registers(n, Begin(call))
    requires forall i :: 0 <= i < |w.procs| ==> Elsewhere(n, j, w.procs[i])
    ensures WritingFor(n, Next(w, Begin(call)), j, |w.procs|)
  {
    var part := Part(n, j, w);
    var w' := Next(w, Begin(call));
    NextPlaced(n, w, Begin(call));
    CallOutcome(part, call);
    if call.Register? {
      RegisterKeepsCoherent(n, StoresOf(part), call.reg);
    } else {
      DeregisterKeepsCoherent(n, StoresOf(part), call.job);
    }
    assert StoresOf(Part(n, j, w')) == StoresOf(part) && w'.procs[|w.procs|] == FirstProc(call);
  }

  /** Calls of other jobs that begin or crash beside the write. */
  lemma BesideFor(n: Naming, w: World, j: string, i: nat, a: Action)
    requires i < |w.procs| && WritingFor(n, w, j, i) && Registers(n, a)
    requires a.Begin? ==> !WritesJob(n, j, a.call) && !ReadsJob(n, j, a.call)
    requires a.Crash? ==> a.pid != i
    requires !a.Step?
    ensures WritingFor(n, Next(w, a), j, i)
  {
    NextPlaced(n, w, a);
    assert StoresOf(Part(n, j, Next(w, a))) == StoresOf(Part(n, j, w));
  }

  lemma NextWriting(n: Naming, w: World, j: string, i: nat, a: Action)
    requires i < |w.procs| && w.procs[i] != Stopped && WritingFor(n, w, j, i) && OrderlyFor(n, w, j, Some(i), a)
    ensures WritingFor(n, Next(w, a), j, i)
  {
    if a.Step? {
      if a.pid == i {
        WriterStepFor(n, w, j, i, a.order);
      } else if a.pid < |w.procs| {
        OtherStepFor(n, w, j, i, a.pid, a.delivery, a.order);
      }
    } else {
      BesideFor(n, w, j, i, a);
    }
  }

  lemma NextAgreeingFor(n: Naming, w: World, j: string, writer: Option<nat>, a: Action)
    requires AgreeingFor(n, w, j, writer) && OrderlyFor(n, w, j, writer, a)
    requires writer.Some? ==> writer.value < |w.procs|
    ensures AgreeingFor(n, Next(w, a), j, if a.Begin? && WritesJob(n, j, a.call) then Some(|w.procs|) else writer)
  {
    if a.Begin? && WritesJob(n, j, a.call) {
      BeginsFor(n, w, j, a.call);
    } else if AtWork(w, writer) {
      NextWriting(n, w, j, writer.value, a);
      if Next(w, a).procs[writer.value] == Stopped {
        WriterEnds(n, Next(w, a), j, writer.value);
      }
    } else {
      NextCalmFor(n, w, j, a);
      StoppedStays(w, writer, a);
    }
  }

  lemma WriterForStep(n: Naming, j: string, w: World, schedule: seq<Action>, a: Action)
    ensures WriterFor(n, j, w, schedule + [a]) ==
              if a.Begin? && WritesJob(n, j, a.call) then Some(|Run(w, schedule).procs|) else WriterFor(n, j, w, schedule)
    ensures Run(w, schedule + [a]) == Next(Run(w, schedule), a)
  {
    assert (schedule + [a])[..|schedule|] == schedule;
  }

  lemma {:induction false} AgreeingForRun(n: Naming, w: World, j: string, schedule: seq<Action>)
    requires Placed(n, w) && Coherent(n, StoresOf(Part(n, j, w))) && AllStopped(w) && NoOverlapFor(n, w, j, schedule)
    ensures WriterFor(n, j, w, schedule).Some? ==> WriterFor(n, j, w, schedule).value < |Run(w, schedule).procs|
    ensures AgreeingFor(n, Run(w, schedule), j, WriterFor(n, j, w, schedule))
  {
    if schedule != [] {
      var before, a := schedule[..|schedule| - 1], schedule[|schedule| - 1];
      AgreeingForRun(n, w, j, before);
      NextAgreeingFor(n, Run(w, before), j, WriterFor(n, j, w, before), a);
      WriterForStep(n, j, w, before, a);
      assert schedule == before + [a];
      CallsStay(Run(w, before), a);
    }
  }

  /** Where cache and etcd agree and no call is under way, they agree for every job. */
  lemma CoherentStart(n: Naming, w: World, j: string)
    requires Coherent(n, StoresOf(w)) && AllStopped(w)
    ensures Placed(n, w) && Coherent(n, StoresOf(Part(n, j, w)))
  {
    var part := Part(n, j, w);
    assert Placed(n, w);
    forall k | k in part.etcd.services ensures part.etcd.services[k].jobId in part.etcd.jobs {
      BothKeysOwned(n, w.etcd.services[k]);
    }
    forall k | k in part.etcd.jobs ensures Current(part.etcd, part.etcd.jobs[k]) {
      CurrentHere(n, w, j, w.etcd.jobs, k);
    }
    forall k | k in part.cacheJobs ensures Current(part.etcd, part.cacheJobs[k]) {
      CurrentHere(n, w, j, w.cacheJobs, k);
    }
    forall k | k in part.cacheServices ensures Current(part.etcd, part.cacheServices[k]) {
      CurrentHere(n, w, j, w.cacheServices, k);
    }
  }

  lemma CurrentHere(n: Naming, w: World, j: string, m: Spec.Entries, k: string)
    requires (ByJob(n, m) || ByService(n, m)) && k in m && Owner(n, k) == j && Current(w.etcd, m[k])
    ensures Current(Part(n, j, w).etcd, m[k])
  {
    EntryOwned(n, m, k);
    CurrentInPart(n, j, w, m[k]);
  }

  /** A lookup under a key of the job is answered from the entries of the job. */
  lemma AnswerInPart(n: Naming, j: string, w: World, k: string)
    requires Placed(n, w) && Owner(n, k) == j
    ensures Spec.Answer(StoresOf(w), k) == Spec.Answer(StoresOf(Part(n, j, w)), k)
  {
  }

  /**
   Agreement for one job: in every schedule in which no write of the job overlaps with a lookup under one of its
   keys, a sync, a listing or another write of it, and none of its writes meets a fault, whenever none of them is
   under way, a lookup under a key of the job finds it exactly if etcd holds it, and finds a current registration
   of the job.  Whatever the calls of other jobs do, and however they and the readers of this one fail.
   */
  lemma AgreeOnJob(n: Naming, w: World, j: string, schedule: seq<Action>, k: string)
    requires Placed(n, w) && Coherent(n, StoresOf(Part(n, j, w))) && AllStopped(w) && NoOverlapFor(n, w, j, schedule)
    requires !AtWork(Run(w, schedule), WriterFor(n, j, w, schedule)) && Owner(n, k) == j
    ensures var w' := Run(w, schedule); var r := Spec.Answer(StoresOf(w'), k);
            && (r.Some? <==> k in w'.etcd.jobs || k in w'.etcd.services)
            && (r.Some? ==> r.value.jobId == j && Current(w'.etcd, r.value) && (r.value.jobId == k || r.value.serviceName == k))
  {
    var w' := Run(w, schedule);
    AgreeingForRun(n, w, j, schedule);
    AnswerInPart(n, j, w', k);
    CoherentAnswer(n, StoresOf(Part(n, j, w')), k);
    var r := Spec.Answer(StoresOf(w'), k);
    if r.Some? {
      BothKeysOwned(n, r.value);
      CurrentInPart(n, j, w', r.value);
    }
  }
}
