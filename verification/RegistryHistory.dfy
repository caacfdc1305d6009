/**
 Durable-first, under concurrency and faults.

 Any number of registry calls on any number of replicas, interleaved at single Redis commands and etcd
 calls; every write can be lost, or take effect and have its reply lost, every read can fail, and a
 process can stop at any point.
 */
module RegistryHistory {
  import opened Prelude
  import opened Jobs
  import opened RegistrySpec

  /** What a call goes on with after it has cached a registration. */
  datatype After = Return | DeleteNext(job: string) | CacheNext(regs: seq<JobRegistration>)

  datatype Proc =
    | StoreThenCache(reg: JobRegistration)
    | LookupCache(key: string, byJob: bool, deregister: bool)
    | LookupEtcd(key: string, byJob: bool, deregister: bool)
    | CacheByJob(reg: JobRegistration, after: After)
    | CacheByService(reg: JobRegistration, after: After)
    | FindServiceKeys(job: string, existing: Option<JobRegistration>)
    | DeleteKeys(job: string, existing: Option<JobRegistration>, keys: set<string>)
    | Scan(job: string, existing: Option<JobRegistration>)
    | EvictService(job: string, existing: Option<JobRegistration>, names: seq<string>)
    | EvictJob(job: string, existing: Option<JobRegistration>)
    | RestoreEtcd(reg: JobRegistration)
    | ListCache(byService: bool)
    | ListEtcd(byService: bool)
    | Stopped

  /** `accepted` is every registration etcd has ever held. */
  datatype World = World(
    cacheJobs: Entries,
    cacheServices: Entries,
    etcd: Etcd,
    accepted: set<JobRegistration>,
    procs: seq<Proc>)

  datatype Call = Register(reg: JobRegistration) | Deregister(job: string) | Get(key: string) | Sync | ListAll

  /** `order` is the order in which a listing happens to come back. */
  datatype Action = Begin(call: Call) | Crash(pid: nat) | Step(pid: nat, delivery: Delivery, order: seq<string>)

  function FirstProc(call: Call): Proc {
    match call
    case Register(reg) => StoreThenCache(reg)
    case Deregister(job) => LookupCache(job, true, true)
    case Get(key) => LookupCache(key, true, false)
    case Sync => ListEtcd(true)
    case ListAll => ListCache(true)
  }

  function Listing(m: Entries, order: seq<string>): (regs: seq<JobRegistration>)
    ensures forall r :: r in regs ==> r in m.Values
  {
    if order == [] then []
    else if order[0] in m then [m[order[0]]] + Listing(m, order[1..])
    else Listing(m, order[1..])
  }

  function CacheList(regs: seq<JobRegistration>): Proc {
    if regs == [] then Stopped else CacheByJob(regs[0], CacheNext(regs[1..]))
  }

  /** The names of the job's entries, as a scan of the service hash meets them. */
  function Matching(m: Entries, job: string, order: seq<string>): seq<string> {
    if order == [] then []
    else if order[0] in m && m[order[0]].jobId == job then [order[0]] + Matching(m, job, order[1..])
    else Matching(m, job, order[1..])
  }

  function Continue(after: After, reg: JobRegistration): Proc {
    match after
    case Return => Stopped
    case DeleteNext(job) => FindServiceKeys(job, Some(reg))
    case CacheNext(regs) => CacheList(regs)
  }

  /** The caller has its answer from the cache: `get` returns, `deregister` goes on. */
  function Found(reg: JobRegistration, key: string, deregister: bool): Proc {
    if deregister then FindServiceKeys(key, Some(reg)) else Stopped
  }

  function LookupStep(w: World, p: Proc): Proc
    requires p.LookupCache? || p.LookupEtcd?
  {
    var m := if p.LookupCache? then (if p.byJob then w.cacheJobs else w.cacheServices)
             else (if p.byJob then w.etcd.jobs else w.etcd.services);
    if p.key in m then
      if p.LookupCache? then Found(m[p.key], p.key, p.deregister)
      else CacheByJob(m[p.key], if p.deregister then DeleteNext(p.key) else Return)
    else if p.byJob then p.(byJob := false)
    else if p.LookupCache? then LookupEtcd(p.key, true, p.deregister)
    else if p.deregister then FindServiceKeys(p.key, None)
    else Stopped
  }

  /** A cache eviction that fails is answered by restoring etcd. */
  function OnEvictionError(existing: Option<JobRegistration>): Proc {
    if existing.Some? then RestoreEtcd(existing.value) else Stopped
  }

  function NextProc(w: World, p: Proc, ok: bool, order: seq<string>): Proc {
    match p
    case StoreThenCache(reg) => if ok then CacheByJob(reg, Return) else Stopped
    case LookupCache(_, _, _) => if ok then LookupStep(w, p) else Stopped
    case LookupEtcd(_, _, _) => if ok then LookupStep(w, p) else Stopped
    case CacheByJob(reg, after) => if ok then CacheByService(reg, after) else Stopped
    case CacheByService(reg, after) => if ok then Continue(after, reg) else Stopped
    case FindServiceKeys(job, existing) =>
      if ok then DeleteKeys(job, existing, set k | k in w.etcd.services && w.etcd.services[k].jobId == job) else Stopped
    case DeleteKeys(job, existing, _) => if ok then Scan(job, existing) else Stopped
    case Scan(job, existing) =>
      if ok then EvictService(job, existing, Matching(w.cacheServices, job, order)) else OnEvictionError(existing)
    case EvictService(job, existing, names) =>
      if !ok then OnEvictionError(existing)
      else if names == [] then EvictJob(job, existing)
      else EvictService(job, existing, names[1..])
    case EvictJob(job, existing) => if ok then Stopped else OnEvictionError(existing)
    case RestoreEtcd(_) => Stopped
    case ListCache(byService) =>
      if !ok || w.cacheServices != map[] || (!byService && w.cacheJobs != map[]) then Stopped
      else if byService then ListCache(false)
      else ListEtcd(true)
    case ListEtcd(byService) =>
      if !ok then Stopped
      else if byService && w.etcd.services == map[] then ListEtcd(false)
      else CacheList(Listing(if byService then w.etcd.services else w.etcd.jobs, order))
    case Stopped => Stopped
  }

  /** The effect of the command a process issues, if it reaches the server. */
  function Issue(w: World, p: Proc): World {
    match p
    case StoreThenCache(reg) =>
      w.(etcd := StoreRegistration(w.etcd, reg), accepted := w.accepted + {reg})
    case RestoreEtcd(reg) =>
      w.(etcd := StoreRegistration(w.etcd, reg), accepted := w.accepted + {reg})
    case CacheByJob(reg, _) => w.(cacheJobs := w.cacheJobs[reg.jobId := reg])
    case CacheByService(reg, _) => w.(cacheServices := w.cacheServices[reg.serviceName := reg])
    case DeleteKeys(job, _, keys) => w.(etcd := Etcd(w.etcd.jobs - {job}, w.etcd.services - keys))
    case EvictService(_, _, names) => if names == [] then w else w.(cacheServices := w.cacheServices - {names[0]})
    case EvictJob(job, _) => w.(cacheJobs := w.cacheJobs - {job})
    case _ => w
  }

  function Next(w: World, a: Action): World {
    match a
    case Begin(call) => w.(procs := w.procs + [FirstProc(call)])
    case Crash(i) => if i < |w.procs| then w.(procs := w.procs[i := Stopped]) else w
    case Step(i, delivery, order) =>
      if i >= |w.procs| then w
      else
        var p := w.procs[i];
        var w' := if delivery == RequestLost then w else Issue(w, p);
        w'.(procs := w.procs[i := NextProc(w, p, delivery == Delivered, order)])
  }

  function Run(w: World, schedule: seq<Action>): World {
    if schedule == [] then w else Next(Run(w, schedule[..|schedule| - 1]), schedule[|schedule| - 1])
  }

  // ---------------------------------------------------------------------------------------------

  ghost predicate AfterAccepted(after: After, accepted: set<JobRegistration>) {
    after.CacheNext? ==> forall r :: r in after.regs ==> r in accepted
  }

  /** Whatever a process may still write to Redis or back to etcd has been accepted. */
  ghost predicate ProcAccepted(p: Proc, accepted: set<JobRegistration>) {
    match p
    case CacheByJob(reg, after) => reg in accepted && AfterAccepted(after, accepted)
    case CacheByService(reg, after) => reg in accepted && AfterAccepted(after, accepted)
    case FindServiceKeys(_, existing) => existing.Some? ==> existing.value in accepted
    case DeleteKeys(_, existing, _) => existing.Some? ==> existing.value in accepted
    case Scan(_, existing) => existing.Some? ==> existing.value in accepted
    case EvictService(_, existing, _) => existing.Some? ==> existing.value in accepted
    case EvictJob(_, existing) => existing.Some? ==> existing.value in accepted
    case RestoreEtcd(reg) => reg in accepted
    case _ => true
  }

  ghost predicate Holds(m: Entries, accepted: set<JobRegistration>) {
    forall k :: k in m ==> m[k] in accepted
  }

  ghost predicate DurableFirst(w: World) {
    && Holds(w.cacheJobs, w.accepted) && Holds(w.cacheServices, w.accepted)
    && Holds(w.etcd.jobs, w.accepted) && Holds(w.etcd.services, w.accepted)
    && (forall i :: 0 <= i < |w.procs| ==> ProcAccepted(w.procs[i], w.accepted))
  }

  lemma IssueAccepted(w: World, p: Proc)
    requires DurableFirst(w) && ProcAccepted(p, w.accepted)
    ensures DurableFirst(Issue(w, p)) && w.accepted <= Issue(w, p).accepted
  {
    var w' := Issue(w, p);
    forall i | 0 <= i < |w'.procs| ensures ProcAccepted(w'.procs[i], w'.accepted) {
      assert ProcAccepted(w.procs[i], w.accepted);
    }
  }

  lemma CacheListAccepted(regs: seq<JobRegistration>, accepted: set<JobRegistration>)
    requires forall r :: r in regs ==> r in accepted
    ensures ProcAccepted(CacheList(regs), accepted)
  {
    if regs != [] {
      assert regs[0] in regs && forall r :: r in regs[1..] ==> r in regs;
    }
  }

  lemma NextProcAccepted(w: World, p: Proc, ok: bool, order: seq<string>)
    requires DurableFirst(w) && ProcAccepted(p, w.accepted)
    ensures ProcAccepted(NextProc(w, p, ok, order), w.accepted + if p.StoreThenCache? then {p.reg} else {})
  {
    var accepted := w.accepted + if p.StoreThenCache? then {p.reg} else {};
    if p.ListEtcd? && ok {
      var m := if p.byService then w.etcd.services else w.etcd.jobs;
      CacheListAccepted(Listing(m, order), accepted);
    } else if p.CacheByService? && p.after.CacheNext? {
      CacheListAccepted(p.after.regs, accepted);
    }
  }

  lemma NextDurableFirst(w: World, a: Action)
    requires DurableFirst(w)
    ensures DurableFirst(Next(w, a))
  {
    match a
    case Begin(_) =>
    case Crash(_) =>
    case Step(i, delivery, order) =>
      if i < |w.procs| {
        var p := w.procs[i];
        IssueAccepted(w, p);
        NextProcAccepted(w, p, delivery == Delivered, order);
      }
  }

  /** A cold start: nothing cached, and whatever etcd holds it has accepted. */
  ghost predicate ColdStart(w: World) {
    && w.cacheJobs == map[] && w.cacheServices == map[] && w.procs == []
    && Holds(w.etcd.jobs, w.accepted) && Holds(w.etcd.services, w.accepted)
  }

  /**
   Whatever fails and however the replicas interleave, a registration found in a Redis hash was accepted by
   etcd before.
   */
  lemma {:induction false} CachedWasDurable(w: World, schedule: seq<Action>)
    requires ColdStart(w)
    ensures var w' := Run(w, schedule);
            DurableFirst(w') && Holds(w'.cacheJobs, w'.accepted) && Holds(w'.cacheServices, w'.accepted)
  {
    if schedule != [] {
      CachedWasDurable(w, schedule[..|schedule| - 1]);
      NextDurableFirst(Run(w, schedule[..|schedule| - 1]), schedule[|schedule| - 1]);
    }
  }

  // ---------------------------------------------------------------------------------------------
  // What concurrency breaks

  /** One step of process i, with its reply; a scan meets the service name first. */
  function Go(i: nat, r: JobRegistration): Action {
    Step(i, Delivered, [r.serviceName])
  }

  lemma RunSnoc(w: World, schedule: seq<Action>, a: Action)
    ensures Run(w, schedule + [a]) == Next(Run(w, schedule), a)
  {
    assert (schedule + [a])[..|schedule|] == schedule;
  }

  lemma RunTwo(w: World, a: Action, b: Action)
    ensures Run(w, [a, b]) == Next(Next(w, a), b)
  {
    RunSnoc(w, [], a);
    RunSnoc(w, [a], b);
    assert [] + [a] == [a] && [a] + [b] == [a, b];
  }

  lemma RunThree(w: World, a: Action, b: Action, c: Action)
    ensures Run(w, [a, b, c]) == Next(Next(Next(w, a), b), c)
  {
    RunTwo(w, a, b);
    RunSnoc(w, [a, b], c);
    assert [a, b] + [c] == [a, b, c];
  }

  lemma {:induction false} RunConcat(w: World, a: seq<Action>, b: seq<Action>)
    ensures Run(w, a + b) == Run(Run(w, a), b)
    decreases |b|
  {
    if b == [] {
      assert a + b == a;
    } else {
      var before, last := SplitLast(a, b);
      RunConcat(w, a, before);
      RunSnoc(w, a + before, last);
      RunSnoc(Run(w, a), before, last);
    }
  }

  /** One registration, in etcd or gone from it, cached or not, and what the calls are doing. */
  function Holding(r: JobRegistration, cached: bool, durable: bool, procs: seq<Proc>): World {
    var byJob, byService := map[r.jobId := r], map[r.serviceName := r];
    World(if cached then byJob else map[], if cached then byService else map[],
          if durable then Etcd(byJob, byService) else Etcd(map[], map[]), {r}, procs)
  }

  /** A lookup on one replica has its answer from etcd and is about to cache it. */
  lemma ReaderAnswered(r: JobRegistration) returns (s: seq<Action>)
    ensures Run(Holding(r, false, true, []), s) == Holding(r, false, true, [CacheByJob(r, Return)])
  {
    var w, go := Holding(r, false, true, []), Go(0, r);
    RunTwo(w, Begin(Get(r.jobId)), go);
    var w1 := Run(w, [Begin(Get(r.jobId)), go]);
    assert w1 == Holding(r, false, true, [LookupCache(r.jobId, false, false)]);
    RunTwo(w1, go, go);
    RunConcat(w, [Begin(Get(r.jobId)), go], [go, go]);
    s := [Begin(Get(r.jobId)), go] + [go, go];
  }

  /** A deregistration on another replica looks the job up in the cache, then in etcd, and caches it. */
  lemma RemoverLooks(r: JobRegistration) returns (s: seq<Action>)
    ensures Run(Holding(r, false, true, [CacheByJob(r, Return)]), s)
         == Holding(r, true, true, [CacheByJob(r, Return), FindServiceKeys(r.jobId, Some(r))])
  {
    var w, go := Holding(r, false, true, [CacheByJob(r, Return)]), Go(1, r);
    RunThree(w, Begin(Deregister(r.jobId)), go, go);
    var w1 := Run(w, [Begin(Deregister(r.jobId)), go, go]);
    assert w1 == Holding(r, false, true, [CacheByJob(r, Return), LookupEtcd(r.jobId, true, true)]);
    RunThree(w1, go, go, go);
    RunConcat(w, [Begin(Deregister(r.jobId)), go, go], [go, go, go]);
    s := [Begin(Deregister(r.jobId)), go, go] + [go, go, go];
  }

  /** It removes the keys of the job from etcd. */
  lemma RemoverDeletes(r: JobRegistration) returns (s: seq<Action>)
    ensures Run(Holding(r, true, true, [CacheByJob(r, Return), FindServiceKeys(r.jobId, Some(r))]), s)
         == Holding(r, true, false, [CacheByJob(r, Return), Scan(r.jobId, Some(r))])
  {
    var w, go := Holding(r, true, true, [CacheByJob(r, Return), FindServiceKeys(r.jobId, Some(r))]), Go(1, r);
    assert (set k | k in w.etcd.services && w.etcd.services[k].jobId == r.jobId) == {r.serviceName};
    assert Next(w, go).procs[1] == DeleteKeys(r.jobId, Some(r), {r.serviceName});
    RunTwo(w, go, go);
    s := [go, go];
  }

  lemma ScanFinds(r: JobRegistration)
    ensures var w := Holding(r, true, false, [CacheByJob(r, Return), Scan(r.jobId, Some(r))]);
            Next(w, Go(1, r)) == Holding(r, true, false, [CacheByJob(r, Return), EvictService(r.jobId, Some(r), [r.serviceName])])
  {
    var w := Holding(r, true, false, [CacheByJob(r, Return), Scan(r.jobId, Some(r))]);
    assert [r.serviceName][1..] == [];
    assert Matching(w.cacheServices, r.jobId, [r.serviceName]) == [r.serviceName] + Matching(w.cacheServices, r.jobId, []);
    assert Matching(w.cacheServices, r.jobId, [r.serviceName]) == [r.serviceName];
    assert Next(w, Go(1, r)).procs[1] == EvictService(r.jobId, Some(r), [r.serviceName]);
  }

  /** It removes the job from both hashes. */
  lemma RemoverEvicts(r: JobRegistration) returns (s: seq<Action>)
    ensures Run(Holding(r, true, false, [CacheByJob(r, Return), Scan(r.jobId, Some(r))]), s)
         == Holding(r, false, false, [CacheByJob(r, Return), Stopped])
  {
    var w, go := Holding(r, true, false, [CacheByJob(r, Return), Scan(r.jobId, Some(r))]), Go(1, r);
    ScanFinds(r);
    var w1 := Next(w, go);
    assert [r.serviceName][1..] == [];
    var w2 := Next(w1, go);
    assert w2.procs[1] == EvictService(r.jobId, Some(r), []);
    var w3 := Next(w2, go);
    assert w3.procs[1] == EvictJob(r.jobId, Some(r));
    RunThree(w, go, go, go);
    RunSnoc(w, [go, go, go], go);
    s := [go, go, go] + [go];
  }

  /** The reader then fills the cache with what is gone. */
  lemma ReaderFills(r: JobRegistration) returns (s: seq<Action>)
    ensures Run(Holding(r, false, false, [CacheByJob(r, Return), Stopped]), s) == Holding(r, true, false, [Stopped, Stopped])
  {
    RunTwo(Holding(r, false, false, [CacheByJob(r, Return), Stopped]), Go(0, r), Go(0, r));
    s := [Go(0, r), Go(0, r)];
  }

  /**
   Without faults, a lookup that overlaps with a deregistration on another replica can leave the job in the
   cache for good: every registration can end up cached and not in etcd.  So the agreement of cache and etcd
   that holds for one operation after the other does not hold for interleaved ones.
   */
  lemma StaleFill(r: JobRegistration) returns (s: seq<Action>)
    ensures var w := Run(Holding(r, false, true, []), s);
            && w.procs == [Stopped, Stopped]
            && Find(w.cacheJobs, w.cacheServices, r.jobId) == Some(r)
            && DirectLookup(w.etcd, r.jobId) == None && DirectLookup(w.etcd, r.serviceName) == None
  {
    var w := Holding(r, false, true, []);
    var s1 := ReaderAnswered(r);
    var s2 := RemoverLooks(r);
    var s3 := RemoverDeletes(r);
    var s4 := RemoverEvicts(r);
    var s5 := ReaderFills(r);
    RunConcat(w, s1, s2);
    RunConcat(w, s1 + s2, s3);
    RunConcat(w, s1 + s2 + s3, s4);
    RunConcat(w, s1 + s2 + s3 + s4, s5);
    s := s1 + s2 + s3 + s4 + s5;
  }

  /** Two registrations have reached etcd one after the other, and neither the cache. */
  lemma BothStored(w: World, a: JobRegistration, b: JobRegistration) returns (s: seq<Action>)
    requires w.procs == []
    ensures Run(w, s) == w.(etcd := StoreRegistration(StoreRegistration(w.etcd, a), b), accepted := w.accepted + {a} + {b},
                            procs := [CacheByJob(a, Return), CacheByJob(b, Return)])
  {
    RunTwo(w, Begin(Register(a)), Begin(Register(b)));
    var w1 := Run(w, [Begin(Register(a)), Begin(Register(b))]);
    assert w1.procs == [StoreThenCache(a), StoreThenCache(b)];
    RunTwo(w1, Go(0, a), Go(1, b));
    RunConcat(w, [Begin(Register(a)), Begin(Register(b))], [Go(0, a), Go(1, b)]);
    s := [Begin(Register(a)), Begin(Register(b))] + [Go(0, a), Go(1, b)];
  }

  lemma FillsJob(w: World, i: nat, r: JobRegistration)
    requires i < |w.procs| && w.procs[i] == CacheByJob(r, Return)
    ensures Next(w, Go(i, r)) == w.(cacheJobs := w.cacheJobs[r.jobId := r], procs := w.procs[i := CacheByService(r, Return)])
  {
  }

  lemma FillsService(w: World, i: nat, r: JobRegistration)
    requires i < |w.procs| && w.procs[i] == CacheByService(r, Return)
    ensures Next(w, Go(i, r)) == w.(cacheServices := w.cacheServices[r.serviceName := r], procs := w.procs[i := Stopped])
  {
  }

  /** A registration that is about to fill the cache fills it. */
  lemma Fills(w: World, i: nat, r: JobRegistration)
    requires i < |w.procs| && w.procs[i] == CacheByJob(r, Return)
    ensures var w' := Run(w, [Go(i, r), Go(i, r)]);
            && w'.cacheJobs == w.cacheJobs[r.jobId := r] && w'.cacheServices == w.cacheServices[r.serviceName := r]
            && w'.etcd == w.etcd && w'.procs == w.procs[i := Stopped]
  {
    RunTwo(w, Go(i, r), Go(i, r));
    FillsJob(w, i, r);
    FillsService(Next(w, Go(i, r)), i, r);
    UpdateTwice(w.procs, i, CacheByService(r, Return), Stopped);
  }

  lemma UpdateTwice<T>(s: seq<T>, i: nat, x: T, y: T)
    requires i < |s|
    ensures s[i := x][i := y] == s[i := y]
  {
  }

  /**
   Two registrations of one service that cross: the one that reaches etcd last is not the one that reaches the
   cache last, and the cache goes on answering with what etcd no longer holds.
   */
  lemma CrossedWrites(w: World, a: JobRegistration, b: JobRegistration) returns (s: seq<Action>)
    requires w.procs == [] && a.jobId == b.jobId && a.serviceName == b.serviceName && a != b
    ensures var w' := Run(w, s);
            && w'.procs == [Stopped, Stopped]
            && Find(w'.cacheJobs, w'.cacheServices, a.jobId) == Some(a)
            && DirectLookup(w'.etcd, a.jobId) == Some(b)
  {
    var s1 := BothStored(w, a, b);
    var w1 := Run(w, s1);
    var s2, s3 := [Go(1, b), Go(1, b)], [Go(0, a), Go(0, a)];
    Fills(w1, 1, b);
    Fills(Run(w1, s2), 0, a);
    RunConcat(w, s1, s2);
    RunConcat(w, s1 + s2, s3);
    s := s1 + s2 + s3;
  }

  /** So does one registration alone when etcd takes it and its reply is lost: the cache keeps the old one. */
  lemma LostReplyIsStale(a: JobRegistration, b: JobRegistration) returns (s: seq<Action>)
    requires a.jobId == b.jobId && a.serviceName == b.serviceName && a != b
    ensures var w' := Run(Holding(a, true, true, []), s);
            && w'.procs == [Stopped]
            && Find(w'.cacheJobs, w'.cacheServices, a.jobId) == Some(a)
            && DirectLookup(w'.etcd, a.jobId) == Some(b)
  {
    s := [Begin(Register(b)), Step(0, ReplyLost, [])];
    RunTwo(Holding(a, true, true, []), s[0], s[1]);
  }

  predicate Evicting(p: Proc) {
    p.Scan? || p.EvictService? || p.EvictJob?
  }

  lemma EvictionFails(w: World, i: nat, delivery: Delivery, order: seq<string>)
    requires i < |w.procs| && Evicting(w.procs[i]) && delivery != Delivered
    ensures var w1 := Next(w, Step(i, delivery, order)); var existing := w.procs[i].existing;
            && w1.etcd == w.etcd && i < |w1.procs|
            && w1.procs[i] == if existing.Some? then RestoreEtcd(existing.value) else Stopped
  {
  }

  lemma Restores(w: World, i: nat, order: seq<string>)
    requires i < |w.procs| && (w.procs[i].RestoreEtcd? || w.procs[i].Stopped?)
    ensures var w1 := Next(w, Step(i, Delivered, order));
            && i < |w1.procs| && w1.procs[i] == Stopped
            && w1.etcd == if w.procs[i].RestoreEtcd? then StoreRegistration(w.etcd, w.procs[i].reg) else w.etcd
  {
  }

  /** An eviction that fails is answered by storing in etcd what the lookup had found; without that there is nothing to restore. */
  lemma FailedEvictionRestores(w: World, i: nat, delivery: Delivery, order: seq<string>)
    requires i < |w.procs| && Evicting(w.procs[i]) && delivery != Delivered
    ensures var w' := Run(w, [Step(i, delivery, order), Step(i, Delivered, order)]); var existing := w.procs[i].existing;
            && i < |w'.procs| && w'.procs[i] == Stopped
            && w'.etcd == (if existing.Some? then StoreRegistration(w.etcd, existing.value) else w.etcd)
  {
    RunTwo(w, Step(i, delivery, order), Step(i, Delivered, order));
    EvictionFails(w, i, delivery, order);
    Restores(Next(w, Step(i, delivery, order)), i, order);
  }
}
