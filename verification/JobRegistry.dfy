/**
 registry.rs and etcd client.rs as code that updates its stores in place.  Every Redis command and every
 etcd call can fail, and a failed write may or may not have reached the server.  A call that succeeds does
 what `RegistrySpec` says; the contracts also say what a call that fails can have left behind.
 */
module RegistryObjects {
  import opened Prelude
  import opened Jobs
  import opened RegistrySpec
  import opened RegistryRecovery

  datatype StoreError = RedisFailed | EtcdFailed

  type Reply<T> = Result<T, StoreError>

  class RedisHash {
    var entries: Entries

    constructor ()
      ensures entries == map[]
    {
      entries := map[];
    }

    method HSet(field: string, reg: JobRegistration) returns (r: Reply<()>)
      modifies this
      ensures r.Ok? ==> entries == old(entries)[field := reg]
      ensures r.Err? ==> r.error == RedisFailed && (entries == old(entries) || entries == old(entries)[field := reg])
    {
      var delivery: Delivery := *;
      if delivery != RequestLost {
        entries := entries[field := reg];
      }
      r := if delivery == Delivered then Ok(()) else Err(RedisFailed);
    }

    method HDel(field: string) returns (r: Reply<()>)
      modifies this
      ensures r.Ok? ==> entries == old(entries) - {field}
      ensures r.Err? ==> r.error == RedisFailed && (entries == old(entries) || entries == old(entries) - {field})
    {
      var delivery: Delivery := *;
      if delivery != RequestLost {
        entries := entries - {field};
      }
      r := if delivery == Delivered then Ok(()) else Err(RedisFailed);
    }

    method HGet(field: string) returns (r: Reply<Option<JobRegistration>>)
      ensures r.Ok? ==> r.value == if field in entries then Some(entries[field]) else None
      ensures r.Err? ==> r.error == RedisFailed
    {
      var delivery: Delivery := *;
      r := if delivery != Delivered then Err(RedisFailed)
           else if field in entries then Ok(Some(entries[field])) else Ok(None);
    }

    method HGetAll() returns (r: Reply<Entries>)
      ensures r.Ok? ==> r.value == entries
      ensures r.Err? ==> r.error == RedisFailed
    {
      var delivery: Delivery := *;
      r := if delivery != Delivered then Err(RedisFailed) else Ok(entries);
    }
  }

  class EtcdClient {
    var jobs: Entries
    var services: Entries

    constructor ()
      ensures Contents() == Etcd(map[], map[])
    {
      jobs, services := map[], map[];
    }

    function Contents(): Etcd
      reads this
    {
      Etcd(jobs, services)
    }

    /** Both keys in one transaction. */
    method StoreRegistration(reg: JobRegistration) returns (r: Reply<()>)
      modifies this
      ensures r.Ok? ==> Contents() == RegistrySpec.StoreRegistration(old(Contents()), reg)
      ensures r.Err? ==>
                && r.error == EtcdFailed
                && (Contents() == old(Contents()) || Contents() == RegistrySpec.StoreRegistration(old(Contents()), reg))
    {
      var delivery: Delivery := *;
      if delivery != RequestLost {
        jobs, services := jobs[reg.jobId := reg], services[reg.serviceName := reg];
      }
      r := if delivery == Delivered then Ok(()) else Err(EtcdFailed);
    }

    /** The names of all services registered for a job. */
    method ServiceKeysForJob(job: string) returns (r: Reply<set<string>>)
      ensures r.Ok? ==> forall k :: k in r.value <==> k in services && services[k].jobId == job
      ensures r.Err? ==> r.error == EtcdFailed
    {
      var delivery: Delivery := *;
      if delivery != Delivered {
        return Err(EtcdFailed);
      }
      var keys: set<string> := {};
      var rest := services.Keys;
      while rest != {}
        invariant rest <= services.Keys
        invariant forall k :: k in keys <==> k in services && k !in rest && services[k].jobId == job
      {
        var k :| k in rest;
        if services[k].jobId == job {
          keys := keys + {k};
        }
        rest := rest - {k};
      }
      r := Ok(keys);
    }

    /** One transaction deletes the job key and every service key found for the job. */
    method RemoveRegistration(job: string) returns (r: Reply<()>)
      modifies this
      ensures r.Ok? ==> Contents() == RegistrySpec.RemoveRegistration(old(Contents()), job)
      ensures r.Err? ==>
                && r.error == EtcdFailed
                && (Contents() == old(Contents()) || Contents() == RegistrySpec.RemoveRegistration(old(Contents()), job))
    {
      var keys := ServiceKeysForJob(job);
      if keys.Err? {
        return Err(keys.error);
      }
      var delivery: Delivery := *;
      if delivery != RequestLost {
        assert services - keys.value == WithoutJob(services, job);
        jobs, services := jobs - {job}, services - keys.value;
      }
      r := if delivery == Delivered then Ok(()) else Err(EtcdFailed);
    }

    method GetByKey(family: Entries, key: string) returns (r: Reply<Option<JobRegistration>>)
      ensures r.Ok? ==> r.value == if key in family then Some(family[key]) else None
      ensures r.Err? ==> r.error == EtcdFailed
    {
      var delivery: Delivery := *;
      r := if delivery != Delivered then Err(EtcdFailed)
           else if key in family then Ok(Some(family[key])) else Ok(None);
    }

    method ListFamily(family: Entries) returns (r: Reply<seq<JobRegistration>>)
      ensures r.Ok? ==> (forall x :: x in r.value ==> x in family.Values) && (forall k :: k in family ==> family[k] in r.value)
      ensures r.Ok? ==> |r.value| == |family|
      ensures r.Err? ==> r.error == EtcdFailed
    {
      var delivery: Delivery := *;
      if delivery != Delivered {
        return Err(EtcdFailed);
      }
      var regs: seq<JobRegistration> := [];
      var rest := family.Keys;
      while rest != {}
        invariant rest <= family.Keys && |regs| + |rest| == |family|
        invariant forall x :: x in regs ==> x in family.Values
        invariant forall k :: k in family && k !in rest ==> family[k] in regs
      {
        var k :| k in rest;
        regs := regs + [family[k]];
        rest := rest - {k};
      }
      r := Ok(regs);
    }

    method ListAll() returns (r: Reply<seq<JobRegistration>>)
      ensures r.Ok? ==> IsListing(Contents(), r.value) && |r.value| == |Listed(Contents())|
      ensures r.Err? ==> r.error == EtcdFailed
    {
      r := ListFamily(services);
      if r.Ok? && r.value == [] {
        r := ListFamily(jobs);
      }
    }
  }

  /** What is left of `CacheRegistration` when one of its two commands fails. */
  ghost predicate PartlyCached(s: Stores, s': Stores, reg: JobRegistration) {
    && s'.durable == s.durable
    && (s'.cacheJobs == s.cacheJobs || s'.cacheJobs == s.cacheJobs[reg.jobId := reg])
    && (s'.cacheServices == s.cacheServices || s'.cacheServices == s.cacheServices[reg.serviceName := reg])
  }

  /** The lookup phase of an operation: nothing happened, or the answer of etcd was cached wholly or in part. */
  ghost predicate LookedUp(s: Stores, s': Stores, k: string) {
    s' == s || (Answer(s, k).Some? && PartlyCached(s, s', Answer(s, k).value))
  }

  /** Caching a listing stopped at one of its registrations. */
  ghost predicate PartlyListed(s: Stores, s': Stores, regs: seq<JobRegistration>) {
    exists n: nat :: n < |regs| && PartlyCached(CacheAll(s, regs[..n]), s', regs[n])
  }

  /** Reading etcd failed, or caching what it listed did. */
  ghost predicate FillFailed(s: Stores, s': Stores) {
    s' == s || (s.durable.Some? && exists regs :: IsListing(s.durable.value, regs) && PartlyListed(s, s', regs))
  }

  class JobRegistry {
    const byJob: RedisHash
    const byService: RedisHash
    const durable: EtcdClient?

    constructor (durable: EtcdClient?)
      ensures Valid() && fresh(byJob) && fresh(byService) && this.durable == durable
      ensures byJob.entries == map[] && byService.entries == map[]
    {
      byJob := new RedisHash();
      byService := new RedisHash();
      this.durable := durable;
    }

    ghost predicate Valid() {
      byJob != byService
    }

    ghost function Contents(): Stores
      reads byJob, byService, durable
    {
      Stores(byJob.entries, byService.entries, if durable == null then None else Some(durable.Contents()))
    }

    method CacheRegistration(reg: JobRegistration) returns (r: Reply<()>)
      requires Valid()
      modifies byJob, byService
      ensures r.Ok? ==> Contents() == RegistrySpec.CacheRegistration(old(Contents()), reg)
      ensures r.Err? ==> r.error == RedisFailed && PartlyCached(old(Contents()), Contents(), reg)
    {
      r := byJob.HSet(reg.jobId, reg);
      if r.Ok? {
        r := byService.HSet(reg.serviceName, reg);
      }
    }

    /** Scans the service hash for entries of the job, then drops the job entry. */
    method RemoveCachedRegistration(job: string) returns (r: Reply<()>)
      requires Valid()
      modifies byJob, byService
      ensures r.Ok? ==> Contents() == EvictCached(old(Contents()), job)
      ensures r.Err? ==> r.error == RedisFailed && PartlyEvicted(old(Contents()), Contents(), job)
    {
      var all := byService.HGetAll();
      if all.Err? {
        return Err(all.error);
      }
      var rest := all.value.Keys;
      while rest != {}
        invariant rest <= old(byService.entries).Keys
        invariant OnlyLost(old(byService.entries), byService.entries, job)
        invariant forall k :: k in byService.entries && k !in rest ==> byService.entries[k].jobId != job
        invariant forall k :: k in rest ==> k in byService.entries
        invariant byJob.entries == old(byJob.entries)
      {
        var name :| name in rest;
        if all.value[name].jobId == job {
          r := byService.HDel(name);
          if r.Err? {
            return;
          }
        }
        rest := rest - {name};
      }
      assert byService.entries == WithoutJob(old(byService.entries), job);
      r := byJob.HDel(job);
    }

    method Register(reg: JobRegistration) returns (r: Reply<()>)
      requires Valid()
      modifies byJob, byService, durable
      ensures r.Ok? ==> Contents() == RegistrySpec.Register(old(Contents()), reg)
      ensures r.Err? ==>
                var s, s' := old(Contents()), Contents();
                var stored := if s.durable.Some? then s.(durable := Some(StoreRegistration(s.durable.value, reg))) else s;
                if r.error == EtcdFailed then s' == s || s' == stored else PartlyCached(stored, s', reg)
    {
      if durable != null {
        r := durable.StoreRegistration(reg);
        if r.Err? {
          return;
        }
      }
      r := CacheRegistration(reg);
    }

    method Get(key: string) returns (r: Reply<Option<JobRegistration>>)
      requires Valid()
      modifies byJob, byService
      ensures r.Ok? ==> r.value == Answer(old(Contents()), key) && Contents() == AfterGet(old(Contents()), key)
      ensures r.Err? ==> LookedUp(old(Contents()), Contents(), key)
    {
      r := byJob.HGet(key);
      if r.Err? || r.value.Some? {
        return;
      }
      r := byService.HGet(key);
      if r.Err? || r.value.Some? || durable == null {
        return;
      }
      r := durable.GetByKey(durable.jobs, key);
      if r.Ok? && r.value.None? {
        r := durable.GetByKey(durable.services, key);
      }
      if r.Ok? && r.value.Some? {
        var cached := CacheRegistration(r.value.value);
        if cached.Err? {
          r := Err(cached.error);
        }
      }
    }

    /**
     Deregisters a job.  When evicting the cache fails after etcd has let go of the job, the registration
     found before is put back; `restoreFailed` is the error line written when that fails too.
     */
    method Deregister(job: string) returns (r: Reply<()>, restoreFailed: bool)
      requires Valid()
      modifies byJob, byService, durable
      ensures r.Ok? ==> !restoreFailed && Contents() == RegistrySpec.Deregister(old(Contents()), job)
      ensures r.Err? && r.error == EtcdFailed && durable != null ==>
                var s := old(Contents());
                !restoreFailed &&
                (LookedUp(s, Contents(), job) ||
                 Contents() == AfterGet(s, job) ||
                 Contents() == AfterGet(s, job).(durable := Some(RemoveRegistration(s.durable.value, job))))
      ensures r.Err? && r.error == RedisFailed && durable != null && !restoreFailed ==>
                LookedUp(old(Contents()), Contents(), job) || Compensated(old(Contents()), job, Contents())
      ensures restoreFailed ==>
                && r.Err? && durable != null && Answer(old(Contents()), job).Some?
                && exists s2 :: EvictionFailed(old(Contents()), job, s2) &&
                     (Contents() == s2 || Contents() == Restore(s2, Answer(old(Contents()), job)))
      ensures r.Err? && durable == null ==>
                LookedUp(old(Contents()), Contents(), job) || PartlyEvicted(AfterGet(old(Contents()), job), Contents(), job)
    {
      restoreFailed := false;
      var existing := Get(job);
      if existing.Err? {
        return Err(existing.error), false;
      }
      if durable == null {
        r := RemoveCachedRegistration(job);
        return;
      }
      r := durable.RemoveRegistration(job);
      if r.Err? {
        return;
      }
      r := RemoveCachedRegistration(job);
      if r.Err? {
        ghost var evicted := Contents();
        assert EvictionFailed(old(Contents()), job, evicted);
        if existing.value.Some? {
          var restored := durable.StoreRegistration(existing.value.value);
          restoreFailed := restored.Err?;
        }
      }
    }

    method SyncFromDurable() returns (r: Reply<nat>)
      requires Valid()
      modifies byJob, byService
      ensures r.Ok? && durable == null ==> r.value == 0 && Contents() == old(Contents())
      ensures r.Ok? && durable != null ==>
                && r.value == |Listed(durable.Contents())|
                && exists regs :: IsListing(durable.Contents(), regs) && Contents() == CacheAll(old(Contents()), regs)
      ensures r.Err? ==> durable != null && FillFailed(old(Contents()), Contents())
    {
      if durable == null {
        return Ok(0);
      }
      var listed := durable.ListAll();
      if listed.Err? {
        return Err(listed.error);
      }
      var regs := listed.value;
      var done := CacheListed(regs);
      if done.Err? {
        return Err(done.error);
      }
      r := Ok(|regs|);
    }

    method CacheListed(regs: seq<JobRegistration>) returns (r: Reply<()>)
      requires Valid()
      modifies byJob, byService
      ensures r.Ok? ==> Contents() == CacheAll(old(Contents()), regs)
      ensures r.Err? ==> PartlyListed(old(Contents()), Contents(), regs)
    {
      for i := 0 to |regs|
        invariant Contents() == CacheAll(old(Contents()), regs[..i])
      {
        assert regs[..i + 1][..i] == regs[..i];
        r := CacheRegistration(regs[i]);
        if r.Err? {
          return;
        }
      }
      assert regs[..|regs|] == regs;
      r := Ok(());
    }

    /** Lists the service hash, else the job hash, else etcd, which then fills the cache. */
    method ListAll() returns (r: Reply<seq<JobRegistration>>)
      requires Valid()
      modifies byJob, byService
      ensures r.Ok? ==>
                var s := old(Contents());
                if s.cacheServices != map[] || s.cacheJobs != map[] then
                  var source := if s.cacheServices != map[] then s.cacheServices else s.cacheJobs;
                  Contents() == s && (forall x :: x in r.value <==> x in source.Values)
                else if s.durable.None? then Contents() == s && r.value == []
                else IsListing(s.durable.value, r.value) && Contents() == AfterList(s, r.value)
      ensures r.Err? ==> FillFailed(old(Contents()), Contents())
      ensures r.Err? && Contents() != old(Contents()) ==> old(byService.entries) == map[] && old(byJob.entries) == map[]
    {
      var entries := byService.HGetAll();
      if entries.Ok? && entries.value == map[] {
        entries := byJob.HGetAll();
      }
      if entries.Err? {
        return Err(entries.error);
      }
      if entries.value == map[] {
        if durable == null {
          return Ok([]);
        }
        r := durable.ListAll();
        if r.Ok? {
          var done := CacheListed(r.value);
          if done.Err? {
            r := Err(done.error);
          }
        }
        return;
      }
      var regs: seq<JobRegistration> := [];
      var rest := entries.value.Keys;
      while rest != {}
        invariant rest <= entries.value.Keys
        invariant forall x :: x in regs ==> x in entries.value.Values
        invariant forall k :: k in entries.value && k !in rest ==> entries.value[k] in regs
      {
        var k :| k in rest;
        regs := regs + [entries.value[k]];
        rest := rest - {k};
      }
      r := Ok(regs);
    }
  }
}
