/**
 When cache and etcd agree although calls interleave, in the step machine of `RegistryHistory`.

 Lookups, syncs and listings may overlap as they like, fail and crash.  A registration or deregistration that
 overlaps with no other call and meets no fault does what `RegistrySpec` says.  Together: outside of such
 writes, cache and etcd agree.
 */
module RegistryAgreement {
  import opened Prelude
  import opened Jobs
  import opened RegistryHistory
  import opened RegistryRefinement
  import Spec = RegistrySpec

  function StoresOf(w: World): Spec.Stores {
    Spec.Stores(w.cacheJobs, w.cacheServices, Some(w.etcd))
  }

  // ---------------------------------------------------------------------------------------------
  // One call alone

  /** The names a scan or a listing meets are all there are. */
  ghost predicate Full(w: World, order: seq<string>) {
    && (forall k :: k in w.cacheServices ==> k in order)
    && (forall k :: k in w.etcd.services ==> k in order)
    && (forall k :: k in w.etcd.jobs ==> k in order)
  }

  /** The call is about to list a store, and what it then caches depends on the order it meets. */
  predicate Lists(p: Proc) {
    p.ListCache? || p.ListEtcd?
  }

  function CacheEach(s: Spec.Stores, regs: seq<JobRegistration>): Spec.Stores
    decreases |regs|
  {
    if regs == [] then s else CacheEach(Spec.CacheRegistration(s, regs[0]), regs[1..])
  }

  lemma {:induction false} CacheEachIsAll(s: Spec.Stores, done: seq<JobRegistration>, regs: seq<JobRegistration>)
    ensures CacheEach(Spec.CacheAll(s, done), regs) == Spec.CacheAll(s, done + regs)
    decreases |regs|
  {
    if regs == [] {
      assert done + regs == done;
    } else {
      assert (done + [regs[0]])[..|done|] == done;
      CacheEachIsAll(s, done + [regs[0]], regs[1..]);
      assert done + [regs[0]] + regs[1..] == done + regs;
    }
  }

  function Removed(s: Spec.Stores, job: string): Spec.Stores
    requires s.durable.Some?
  {
    Spec.EvictCached(s.(durable := Some(Spec.RemoveRegistration(s.durable.value, job))), job)
  }

  function Filled(s: Spec.Stores, found: Option<JobRegistration>): Spec.Stores {
    if found.Some? then Spec.CacheRegistration(s, found.value) else s
  }

  /** `get` ends with its answer cached; `deregister` goes on from there. */
  function LookupOutcome(s: Spec.Stores, key: string, deregister: bool): Spec.Stores
    requires s.durable.Some?
  {
    if deregister then Removed(s, key) else s
  }

  function AfterOutcome(s: Spec.Stores, after: After): Spec.Stores
    requires s.durable.Some?
  {
    match after
    case Return => s
    case DeleteNext(job) => Removed(s, job)
    case CacheNext(regs) => CacheEach(s, regs)
  }

  function Names(names: seq<string>): set<string> {
    set k | k in names
  }

  /** What the stores will be if the call goes on without faults and without others. */
  function Outcome(s: Spec.Stores, p: Proc): Spec.Stores
    requires s.durable.Some? && !Lists(p)
  {
    var d := s.durable.value;
    match p
    case StoreThenCache(reg) => Spec.Register(s, reg)
    case LookupCache(key, byJob, deregister) =>
      var found := if byJob then Spec.AfterGet(s, key)
                   else if key in s.cacheServices then s else Filled(s, Spec.DirectLookup(d, key));
      LookupOutcome(found, key, deregister)
    case LookupEtcd(key, byJob, deregister) =>
      var found := if byJob then Spec.DirectLookup(d, key) else Spec.Find(map[], d.services, key);
      LookupOutcome(Filled(s, found), key, deregister)
    case CacheByJob(reg, after) => AfterOutcome(Spec.CacheRegistration(s, reg), after)
    case CacheByService(reg, after) => AfterOutcome(s.(cacheServices := s.cacheServices[reg.serviceName := reg]), after)
    case FindServiceKeys(job, _) => Removed(s, job)
    case DeleteKeys(job, _, keys) => Spec.EvictCached(s.(durable := Some(Spec.Etcd(d.jobs - {job}, d.services - keys))), job)
    case Scan(job, _) => Spec.EvictCached(s, job)
    case EvictService(job, _, names) =>
      s.(cacheJobs := s.cacheJobs - {job}, cacheServices := s.cacheServices - Names(names))
    case EvictJob(job, _) => s.(cacheJobs := s.cacheJobs - {job})
    case RestoreEtcd(reg) => s.(durable := Some(Spec.StoreRegistration(d, reg)))
    case Stopped => s
  }

  lemma {:induction false} MatchingExactly(m: Spec.Entries, job: string, order: seq<string>, k: string)
    ensures k in Matching(m, job, order) <==> k in order && k in m && m[k].jobId == job
  {
    if order != [] {
      MatchingExactly(m, job, order[1..], k);
    }
  }

  lemma ScanOutcome(m: Spec.Entries, job: string, order: seq<string>)
    requires forall k :: k in m ==> k in order
    ensures m - Names(Matching(m, job, order)) == Spec.WithoutJob(m, job)
  {
    forall k ensures k in Matching(m, job, order) <==> k in order && k in m && m[k].jobId == job {
      MatchingExactly(m, job, order, k);
    }
    assert m - Names(Matching(m, job, order)) == Spec.WithoutJob(m, job);
  }

  lemma LookupKeepsOutcome(w: World, p: Proc)
    requires p.LookupCache? || p.LookupEtcd?
    ensures !Lists(LookupStep(w, p))
    ensures Outcome(StoresOf(w), LookupStep(w, p)) == Outcome(StoresOf(w), p)
  {
  }

  lemma CacheListOutcome(s: Spec.Stores, regs: seq<JobRegistration>)
    requires s.durable.Some?
    ensures !Lists(CacheList(regs)) && Outcome(s, CacheList(regs)) == CacheEach(s, regs)
  {
  }

  lemma RemovalKeepsOutcome(w: World, p: Proc, order: seq<string>)
    requires p.FindServiceKeys? || p.DeleteKeys? || p.Scan?
    requires Full(w, order)
    ensures !Lists(NextProc(w, p, true, order))
    ensures Outcome(StoresOf(Issue(w, p)), NextProc(w, p, true, order)) == Outcome(StoresOf(w), p)
  {
    if p.FindServiceKeys? {
      var keys := set k | k in w.etcd.services && w.etcd.services[k].jobId == p.job;
      assert w.etcd.services - keys == Spec.WithoutJob(w.etcd.services, p.job);
    } else if p.Scan? {
      ScanOutcome(w.cacheServices, p.job, order);
    }
  }

  lemma EvictionKeepsOutcome(w: World, p: Proc, order: seq<string>)
    requires p.EvictService? || p.EvictJob?
    ensures !Lists(NextProc(w, p, true, order))
    ensures Outcome(StoresOf(Issue(w, p)), NextProc(w, p, true, order)) == Outcome(StoresOf(w), p)
  {
    if p.EvictService? {
      if p.names == [] {
        assert Names(p.names) == {} && w.cacheServices - {} == w.cacheServices;
      } else {
        assert Names(p.names) == {p.names[0]} + Names(p.names[1..]);
        assert w.cacheServices - {p.names[0]} - Names(p.names[1..]) == w.cacheServices - Names(p.names);
      }
    }
  }

  lemma FillKeepsOutcome(w: World, p: Proc, order: seq<string>)
    requires p.CacheByJob? || p.CacheByService?
    ensures !Lists(NextProc(w, p, true, order))
    ensures Outcome(StoresOf(Issue(w, p)), NextProc(w, p, true, order)) == Outcome(StoresOf(w), p)
  {
    if p.CacheByService? && p.after.CacheNext? {
      CacheListOutcome(StoresOf(Issue(w, p)), p.after.regs);
    }
  }

  /** Every step of an undisturbed call brings it closer to the same outcome. */
  lemma StepKeepsOutcome(w: World, p: Proc, order: seq<string>)
    requires !Lists(p) && Full(w, order)
    ensures !Lists(NextProc(w, p, true, order))
    ensures Outcome(StoresOf(Issue(w, p)), NextProc(w, p, true, order)) == Outcome(StoresOf(w), p)
  {
    if p.LookupCache? || p.LookupEtcd? {
      LookupKeepsOutcome(w, p);
    } else if p.CacheByJob? || p.CacheByService? {
      FillKeepsOutcome(w, p, order);
    } else if p.FindServiceKeys? || p.DeleteKeys? || p.Scan? {
      RemovalKeepsOutcome(w, p, order);
    } else if p.EvictService? || p.EvictJob? {
      EvictionKeepsOutcome(w, p, order);
    }
  }

  /** Only call i takes steps, and every command of it succeeds. */
  ghost predicate Alone(w: World, i: nat, schedule: seq<Action>) {
    schedule == [] ||
    (var before, a := schedule[..|schedule| - 1], schedule[|schedule| - 1];
     Alone(w, i, before) && a.Step? && a.pid == i && a.delivery == Delivered && Full(Run(w, before), a.order))
  }

  lemma {:induction false} AloneKeepsOutcome(w: World, i: nat, schedule: seq<Action>)
    requires i < |w.procs| && !Lists(w.procs[i]) && Alone(w, i, schedule)
    ensures var w' := Run(w, schedule);
            && |w'.procs| == |w.procs| && !Lists(w'.procs[i])
            && (forall k :: 0 <= k < |w.procs| && k != i ==> w'.procs[k] == w.procs[k])
            && Outcome(StoresOf(w'), w'.procs[i]) == Outcome(StoresOf(w), w.procs[i])
  {
    if schedule != [] {
      var before, a := schedule[..|schedule| - 1], schedule[|schedule| - 1];
      AloneKeepsOutcome(w, i, before);
      StepKeepsOutcome(Run(w, before), Run(w, before).procs[i], a.order);
    }
  }

  /** What `RegistrySpec` says a call does. */
  function SpecOf(call: Call, s: Spec.Stores): Spec.Stores
    requires call.Register? || call.Deregister? || call.Get?
  {
    match call
    case Register(reg) => Spec.Register(s, reg)
    case Deregister(job) => Spec.Deregister(s, job)
    case Get(key) => Spec.AfterGet(s, key)
    case _ => s
  }

  lemma CallOutcome(w: World, call: Call)
    requires call.Register? || call.Deregister? || call.Get?
    ensures !Lists(FirstProc(call)) && Outcome(StoresOf(w), FirstProc(call)) == SpecOf(call, StoresOf(w))
  {
  }

  /**
   Refinement: a registration, deregistration or lookup that no other call disturbs and that meets no fault
   leaves the stores as `RegistrySpec` says, and every other call where it was.
   */
  lemma AloneIsSpec(w: World, call: Call, schedule: seq<Action>)
    requires call.Register? || call.Deregister? || call.Get?
    requires Alone(Next(w, Begin(call)), |w.procs|, schedule)
    requires var w' := Run(Next(w, Begin(call)), schedule); |w.procs| < |w'.procs| && w'.procs[|w.procs|] == Stopped
    ensures var w' := Run(Next(w, Begin(call)), schedule);
            StoresOf(w') == SpecOf(call, StoresOf(w)) && w'.procs == w.procs + [Stopped]
  {
    var w1 := Next(w, Begin(call));
    var w' := Run(w1, schedule);
    CallOutcome(w, call);
    AloneKeepsOutcome(w1, |w.procs|, schedule);
  }

  lemma {:induction false} ListingHasAll(m: Spec.Entries, order: seq<string>, k: string)
    requires k in order && k in m
    ensures m[k] in Listing(m, order)
  {
    if order[0] != k {
      ListingHasAll(m, order[1..], k);
    }
  }

  lemma ListingIsListing(d: Spec.Etcd, order: seq<string>)
    requires (forall k :: k in d.services ==> k in order) && (forall k :: k in d.jobs ==> k in order)
    ensures Spec.IsListing(d, Listing(Spec.Listed(d), order))
  {
    var source := Spec.Listed(d);
    forall k | k in source ensures source[k] in Listing(source, order) {
      ListingHasAll(source, order, k);
    }
  }

  /** The stores after a listing of etcd has been cached; `list_all` reads etcd only from an empty cache. */
  function ListedWith(s: Spec.Stores, sync: bool, regs: seq<JobRegistration>): Spec.Stores {
    if sync then Spec.CacheAll(s, regs) else Spec.AfterList(s, regs)
  }

  ghost predicate EndsListed(s: Spec.Stores, sync: bool, w: World, p: Proc)
    requires s.durable.Some?
  {
    !Lists(p) && exists regs :: Spec.IsListing(s.durable.value, regs) && Outcome(StoresOf(w), p) == ListedWith(s, sync, regs)
  }

  /** How far a sync or a listing that began with the stores s has come. */
  ghost predicate ListingSoFar(s: Spec.Stores, sync: bool, w: World, p: Proc)
    requires s.durable.Some?
  {
    match p
    case ListCache(byService) => !sync && StoresOf(w) == s && (byService || s.cacheServices == map[])
    case ListEtcd(byService) =>
      && StoresOf(w) == s && (byService || s.durable.value.services == map[])
      && (sync || (s.cacheServices == map[] && s.cacheJobs == map[]))
    case _ => EndsListed(s, sync, w, p)
  }

  lemma ListCacheStep(s: Spec.Stores, w: World, p: Proc, order: seq<string>)
    requires s.durable.Some? && p.ListCache? && ListingSoFar(s, false, w, p) && Full(w, order)
    ensures ListingSoFar(s, false, Issue(w, p), NextProc(w, p, true, order))
  {
    if NextProc(w, p, true, order) == Stopped {
      var d := s.durable.value;
      var regs := Listing(Spec.Listed(d), order);
      ListingIsListing(d, order);
      assert Outcome(StoresOf(w), Stopped) == ListedWith(s, false, regs);
    }
  }

  lemma ListEtcdStep(s: Spec.Stores, sync: bool, w: World, p: Proc, order: seq<string>)
    requires s.durable.Some? && p.ListEtcd? && ListingSoFar(s, sync, w, p) && Full(w, order)
    ensures ListingSoFar(s, sync, Issue(w, p), NextProc(w, p, true, order))
  {
    var d := s.durable.value;
    if !p.byService || d.services != map[] {
      var regs := Listing(if p.byService then d.services else d.jobs, order);
      ListingIsListing(d, order);
      CacheListOutcome(s, regs);
      CacheEachIsAll(s, [], regs);
      assert [] + regs == regs;
      assert Outcome(s, CacheList(regs)) == ListedWith(s, sync, regs);
    }
  }

  lemma ListingStep(s: Spec.Stores, sync: bool, w: World, p: Proc, order: seq<string>)
    requires s.durable.Some? && ListingSoFar(s, sync, w, p) && Full(w, order)
    ensures ListingSoFar(s, sync, Issue(w, p), NextProc(w, p, true, order))
  {
    if p.ListCache? {
      ListCacheStep(s, w, p, order);
    } else if p.ListEtcd? {
      ListEtcdStep(s, sync, w, p, order);
    } else {
      StepKeepsOutcome(w, p, order);
      assert EndsListed(s, sync, Issue(w, p), NextProc(w, p, true, order));
    }
  }

  lemma ListingOfStores(s: Spec.Stores, sync: bool, w: World, w': World, p: Proc)
    requires s.durable.Some? && ListingSoFar(s, sync, w, p) && StoresOf(w') == StoresOf(w)
    ensures ListingSoFar(s, sync, w', p)
  {
  }

  lemma {:induction false} AloneListing(s: Spec.Stores, sync: bool, w: World, i: nat, schedule: seq<Action>)
    requires s.durable.Some? && i < |w.procs| && Alone(w, i, schedule) && ListingSoFar(s, sync, w, w.procs[i])
    ensures var w' := Run(w, schedule); |w'.procs| == |w.procs| && ListingSoFar(s, sync, w', w'.procs[i])
  {
    if schedule != [] {
      var before, a := schedule[..|schedule| - 1], schedule[|schedule| - 1];
      AloneListing(s, sync, w, i, before);
      var w1 := Run(w, before);
      ListingStep(s, sync, w1, w1.procs[i], a.order);
      ListingOfStores(s, sync, Issue(w1, w1.procs[i]), Next(w1, a), Next(w1, a).procs[i]);
    }
  }

  /** The same for a sync and for a listing: the stores are as after caching some listing of etcd. */
  lemma AloneListingIsSpec(w: World, sync: bool, schedule: seq<Action>)
    requires Alone(Next(w, Begin(if sync then Sync else ListAll)), |w.procs|, schedule)
    requires var w' := Run(Next(w, Begin(if sync then Sync else ListAll)), schedule);
             |w.procs| < |w'.procs| && w'.procs[|w.procs|] == Stopped
    ensures var w' := Run(Next(w, Begin(if sync then Sync else ListAll)), schedule);
            exists regs :: Spec.IsListing(w.etcd, regs) && StoresOf(w') == ListedWith(StoresOf(w), sync, regs)
  {
    var w1 := Next(w, Begin(if sync then Sync else ListAll));
    AloneListing(StoresOf(w), sync, w1, |w.procs|, schedule);
    assert EndsListed(StoresOf(w), sync, Run(w1, schedule), Stopped);
  }

  /** How far a call is from its end. */
  function Stage(p: Proc): nat {
    match p
    case StoreThenCache(_) => 30
    case LookupCache(_, byJob, _) => if byJob then 20 else 19
    case ListCache(byService) => if byService then 20 else 19
    case LookupEtcd(_, byJob, _) => if byJob then 18 else 17
    case ListEtcd(byService) => if byService then 18 else 17
    case CacheByJob(_, after) => if after.DeleteNext? then 12 else 2
    case CacheByService(_, after) => if after.DeleteNext? then 11 else 2
    case FindServiceKeys(_, _) => 10
    case DeleteKeys(_, _, _) => 9
    case Scan(_, _) => 8
    case EvictService(_, _, _) => 7
    case EvictJob(_, _) => 6
    case RestoreEtcd(_) => 1
    case Stopped => 0
  }

  /** What is left of a list. */
  function Left(p: Proc): nat {
    match p
    case EvictService(_, _, names) => |names|
    case CacheByJob(_, after) => if after.CacheNext? then 2 * |after.regs| + 1 else 1
    case CacheByService(_, after) => if after.CacheNext? then 2 * |after.regs| else 0
    case _ => 0
  }

  lemma StepComesCloser(w: World, p: Proc, order: seq<string>)
    requires p != Stopped
    ensures var p' := NextProc(w, p, true, order); Stage(p') < Stage(p) || (Stage(p') == Stage(p) && Left(p') < Left(p))
  {
    if p.CacheByService? && p.after.CacheNext? && p.after.regs != [] {
      assert CacheList(p.after.regs).after.regs == p.after.regs[1..];
    }
  }

  lemma {:induction false} InSomeOrder(keys: set<string>) returns (order: seq<string>)
    ensures forall k :: k in keys ==> k in order
  {
    if keys == {} {
      order := [];
    } else {
      var k :| k in keys;
      var rest := InSomeOrder(keys - {k});
      order := [k] + rest;
    }
  }

  lemma RunHead(w: World, a: Action, schedule: seq<Action>)
    ensures Run(w, [a] + schedule) == Run(Next(w, a), schedule)
  {
    RunConcat(w, [a], schedule);
    RunSnoc(w, [], a);
    assert [] + [a] == [a];
  }

  lemma AloneSnoc(w: World, i: nat, schedule: seq<Action>, a: Action)
    ensures Alone(w, i, schedule + [a]) <==>
              Alone(w, i, schedule) && a.Step? && a.pid == i && a.delivery == Delivered && Full(Run(w, schedule), a.order)
  {
    assert (schedule + [a])[..|schedule|] == schedule;
  }

  lemma {:induction false} AloneHead(w: World, i: nat, a: Action, schedule: seq<Action>)
    requires a.Step? && a.pid == i && a.delivery == Delivered && Full(w, a.order)
    requires Alone(Next(w, a), i, schedule)
    ensures Alone(w, i, [a] + schedule)
    decreases |schedule|
  {
    if schedule == [] {
      AloneSnoc(w, i, [], a);
      assert [a] + schedule == [] + [a];
    } else {
      var before, last := SplitLast([a], schedule);
      AloneSnoc(Next(w, a), i, before, last);
      AloneHead(w, i, a, before);
      RunHead(w, a, before);
      AloneSnoc(w, i, [a] + before, last);
    }
  }

  /** Left alone, every call ends, so `AloneIsSpec` is about every call from every state. */
  lemma {:induction false} AloneEnds(w: World, i: nat) returns (schedule: seq<Action>)
    requires i < |w.procs|
    ensures Alone(w, i, schedule)
    ensures var w' := Run(w, schedule); |w'.procs| == |w.procs| && w'.procs[i] == Stopped
    decreases Stage(w.procs[i]), Left(w.procs[i])
  {
    if w.procs[i] == Stopped {
      schedule := [];
    } else {
      var order := InSomeOrder(w.cacheServices.Keys + w.etcd.services.Keys + w.etcd.jobs.Keys);
      var a := Step(i, Delivered, order);
      StepComesCloser(w, w.procs[i], order);
      var rest := AloneEnds(Next(w, a), i);
      AloneHead(w, i, a, rest);
      RunHead(w, a, rest);
      schedule := [a] + rest;
    }
  }

  // ---------------------------------------------------------------------------------------------
  // Lookups, syncs and listings together

  ghost predicate AfterCurrent(d: Spec.Etcd, after: After) {
    match after
    case Return => true
    case DeleteNext(_) => false
    case CacheNext(regs) => forall r :: r in regs ==> Current(d, r)
  }

  /** A call that only reads etcd, and has only current registrations to cache. */
  ghost predicate Reader(d: Spec.Etcd, p: Proc) {
    match p
    case LookupCache(_, _, deregister) => !deregister
    case LookupEtcd(_, _, deregister) => !deregister
    case CacheByJob(reg, after) => Current(d, reg) && AfterCurrent(d, after)
    case CacheByService(reg, after) => Current(d, reg) && AfterCurrent(d, after)
    case ListCache(_) => true
    case ListEtcd(_) => true
    case Stopped => true
    case _ => false
  }

  /** Cache and etcd agree, and nobody is about to change that. */
  ghost predicate Calm(n: Naming, w: World) {
    && Coherent(n, StoresOf(w))
    && (forall i :: 0 <= i < |w.procs| ==> Reader(w.etcd, w.procs[i]))
  }

  lemma CacheListReader(d: Spec.Etcd, regs: seq<JobRegistration>)
    requires forall r :: r in regs ==> Current(d, r)
    ensures Reader(d, CacheList(regs))
  {
    if regs != [] {
      assert regs[0] in regs && forall r :: r in regs[1..] ==> r in regs;
    }
  }

  lemma FoundIsCurrent(n: Naming, w: World, m: Spec.Entries)
    requires Coherent(n, StoresOf(w)) && (m == w.etcd.jobs || m == w.etcd.services)
    ensures forall k :: k in m ==> Current(w.etcd, m[k])
  {
  }

  lemma ReaderStays(n: Naming, w: World, p: Proc, ok: bool, order: seq<string>)
    requires Coherent(n, StoresOf(w)) && Reader(w.etcd, p)
    ensures Reader(w.etcd, NextProc(w, p, ok, order))
  {
    FoundIsCurrent(n, w, w.etcd.jobs);
    FoundIsCurrent(n, w, w.etcd.services);
    if ok && p.ListEtcd? {
      var m := if p.byService then w.etcd.services else w.etcd.jobs;
      var regs := Listing(m, order);
      forall r | r in regs ensures Current(w.etcd, r) {
        assert r in m.Values;
      }
      CacheListReader(w.etcd, regs);
    } else if ok && p.CacheByService? && p.after.CacheNext? {
      CacheListReader(w.etcd, p.after.regs);
    }
  }

  lemma ReaderKeepsCoherent(n: Naming, w: World, p: Proc)
    requires Coherent(n, StoresOf(w)) && Reader(w.etcd, p)
    ensures Coherent(n, StoresOf(Issue(w, p))) && Issue(w, p).etcd == w.etcd && Issue(w, p).procs == w.procs
  {
  }

  predicate IsWrite(call: Call) {
    call.Register? || call.Deregister?
  }

  /** Lookups, syncs and listings keep cache and etcd in agreement, interleaved and faulty as they may be. */
  lemma NextCalm(n: Naming, w: World, a: Action)
    requires Calm(n, w) && (a.Begin? ==> !IsWrite(a.call))
    ensures Calm(n, Next(w, a))
  {
    if a.Step? && a.pid < |w.procs| {
      ReaderKeepsCoherent(n, w, w.procs[a.pid]);
      ReaderStays(n, w, w.procs[a.pid], a.delivery == Delivered, a.order);
    }
  }

  ghost predicate OnlyReads(schedule: seq<Action>) {
    forall k :: 0 <= k < |schedule| && schedule[k].Begin? ==> !IsWrite(schedule[k].call)
  }

  /**
   Any interleaving of lookups, syncs and listings on any number of replicas, with lost requests, lost replies
   and crashes, keeps cache and etcd in agreement.
   */
  lemma {:induction false} ReadsAgree(n: Naming, w: World, schedule: seq<Action>)
    requires Calm(n, w) && OnlyReads(schedule)
    ensures Calm(n, Run(w, schedule))
  {
    if schedule != [] {
      ReadsAgree(n, w, schedule[..|schedule| - 1]);
      NextCalm(n, Run(w, schedule[..|schedule| - 1]), schedule[|schedule| - 1]);
    }
  }

  // ---------------------------------------------------------------------------------------------
  // Writes that overlap with nothing

  /** The call that began the last write of a schedule. */
  function Writer(w: World, schedule: seq<Action>): Option<nat> {
    if schedule == [] then None
    else
      var before, a := schedule[..|schedule| - 1], schedule[|schedule| - 1];
      if a.Begin? && IsWrite(a.call) then Some(|Run(w, before).procs|) else Writer(w, before)
  }

  predicate AtWork(w: World, i: Option<nat>) {
    i.Some? && i.value < |w.procs| && w.procs[i.value] != Stopped
  }

  /** A write is under way. */
  ghost predicate UnderWay(w: World, schedule: seq<Action>) {
    AtWork(Run(w, schedule), Writer(w, schedule))
  }

  ghost predicate AllStopped(w: World) {
    forall i :: 0 <= i < |w.procs| ==> w.procs[i] == Stopped
  }

  /**
   What the next action must respect: a write begins when no call is under way and respects the naming, no call
   begins while a write is under way, and the write under way meets no fault.
   */
  ghost predicate Orderly(n: Naming, w: World, writer: Option<nat>, a: Action) {
    match a
    case Begin(call) =>
      && !AtWork(w, writer)
      && (IsWrite(call) ==> AllStopped(w))
      && (call.Register? ==> Disciplined(n, call.reg))
    case Crash(i) => AtWork(w, writer) ==> writer != Some(i)
    case Step(i, delivery, order) => AtWork(w, writer) && writer == Some(i) ==> delivery == Delivered && Full(w, order)
  }

  /** No write overlaps with any other call. */
  ghost predicate NoOverlap(n: Naming, w: World, schedule: seq<Action>) {
    schedule == [] ||
    (var before := schedule[..|schedule| - 1];
     NoOverlap(n, w, before) && Orderly(n, Run(w, before), Writer(w, before), schedule[|schedule| - 1]))
  }

  /** The write under way is alone and leads to agreement; without one there is agreement. */
  ghost predicate Agreeing(n: Naming, w: World, writer: Option<nat>) {
    if AtWork(w, writer) then
      && !Lists(w.procs[writer.value])
      && Coherent(n, Outcome(StoresOf(w), w.procs[writer.value]))
      && (forall k :: 0 <= k < |w.procs| && k != writer.value ==> w.procs[k] == Stopped)
    else Calm(n, w)
  }

  lemma BeginsAgreeing(n: Naming, w: World, call: Call)
    requires Calm(n, w) && AllStopped(w) && IsWrite(call) && (call.Register? ==> Disciplined(n, call.reg))
    ensures Agreeing(n, Next(w, Begin(call)), Some(|w.procs|))
  {
    CallOutcome(w, call);
    if call.Register? {
      RegisterKeepsCoherent(n, StoresOf(w), call.reg);
    } else {
      DeregisterKeepsCoherent(n, StoresOf(w), call.job);
    }
  }

  lemma WriterStepAgrees(n: Naming, w: World, i: nat, order: seq<string>)
    requires AtWork(w, Some(i)) && Agreeing(n, w, Some(i)) && Full(w, order)
    ensures Agreeing(n, Next(w, Step(i, Delivered, order)), Some(i))
  {
    StepKeepsOutcome(w, w.procs[i], order);
  }

  lemma NextAgreeing(n: Naming, w: World, writer: Option<nat>, a: Action)
    requires Agreeing(n, w, writer) && Orderly(n, w, writer, a)
    requires writer.Some? ==> writer.value < |w.procs|
    ensures Agreeing(n, Next(w, a), if a.Begin? && IsWrite(a.call) then Some(|w.procs|) else writer)
  {
    if a.Begin? && IsWrite(a.call) {
      BeginsAgreeing(n, w, a.call);
    } else if !AtWork(w, writer) {
      NextCalm(n, w, a);
      StoppedStays(w, writer, a);
    } else if a.Step? && a.pid == writer.value {
      WriterStepAgrees(n, w, a.pid, a.order);
    }
  }

  /** A call that has stopped takes no more steps. */
  lemma StoppedStays(w: World, i: Option<nat>, a: Action)
    requires !AtWork(w, i) && (i.Some? ==> i.value < |w.procs|)
    ensures !AtWork(Next(w, a), i)
  {
  }

  lemma WriterStep(w: World, schedule: seq<Action>, a: Action)
    ensures Writer(w, schedule + [a]) == if a.Begin? && IsWrite(a.call) then Some(|Run(w, schedule).procs|) else Writer(w, schedule)
    ensures Run(w, schedule + [a]) == Next(Run(w, schedule), a)
  {
    assert (schedule + [a])[..|schedule|] == schedule;
  }

  lemma {:induction false} AgreeingRun(n: Naming, w: World, schedule: seq<Action>)
    requires Coherent(n, StoresOf(w)) && AllStopped(w) && NoOverlap(n, w, schedule)
    ensures Writer(w, schedule).Some? ==> Writer(w, schedule).value < |Run(w, schedule).procs|
    ensures Agreeing(n, Run(w, schedule), Writer(w, schedule))
  {
    if schedule != [] {
      var before, a := schedule[..|schedule| - 1], schedule[|schedule| - 1];
      AgreeingRun(n, w, before);
      NextAgreeing(n, Run(w, before), Writer(w, before), a);
      WriterStep(w, before, a);
      assert schedule == before + [a];
      CallsStay(Run(w, before), a);
    }
  }

  lemma CallsStay(w: World, a: Action)
    ensures |Next(w, a).procs| == |w.procs| + One(a.Begin?)
  {
  }

  /**
   Agreement: in every schedule in which no registration or deregistration overlaps with another call or meets
   a fault, whenever no write is under way, cache and etcd agree.  A lookup then finds a key exactly if etcd
   holds it, and finds a current registration.  Lookups, syncs and listings may overlap, fail and crash.
   */
  lemma AgreeBetweenWrites(n: Naming, w: World, schedule: seq<Action>, k: string)
    requires Coherent(n, StoresOf(w)) && AllStopped(w) && NoOverlap(n, w, schedule)
    requires !UnderWay(w, schedule)
    ensures var w' := Run(w, schedule); var r := Spec.Answer(StoresOf(w'), k);
            && Coherent(n, StoresOf(w'))
            && (r.Some? <==> k in w'.etcd.jobs || k in w'.etcd.services)
            && (r.Some? ==> Current(w'.etcd, r.value) && (r.value.jobId == k || r.value.serviceName == k))
  {
    AgreeingRun(n, w, schedule);
    CoherentAnswer(n, StoresOf(Run(w, schedule)), k);
  }
}
