/** job_mutator.rs as code: the tag vector and the injection state are updated in place. */
module JobMutatorObjects {
  import opened Prelude
  import opened Jobs
  import opened StringOrder
  import opened RouterTags
  import opened JobTags

  /** No tag of a range has the prefix. */
  ghost predicate NoneHas(tags: seq<Json>, lo: nat, hi: nat, prefix: string) {
    hi <= |tags| && forall k :: lo <= k < hi ==> !Has(prefix, tags[k])
  }

  /** Dropping from a position on keeps the stretch without matches and drops from its end. */
  lemma DroppedFrom(tags: seq<Json>, lo: nat, hi: nat, prefix: string)
    requires lo <= hi && NoneHas(tags, lo, hi, prefix)
    ensures Dropped(tags[lo..], prefix) == tags[lo..hi] + Dropped(tags[hi..], prefix)
  {
    var keep := (t: Json) => !Has(prefix, t);
    FilterSplit(tags[lo..], hi - lo, keep);
    assert tags[lo..][..hi - lo] == tags[lo..hi] && tags[lo..][hi - lo..] == tags[hi..];
    FilterAll(tags[lo..hi], keep);
    FilterSame(tags[lo..], keep, t => !Has(prefix, t));
    FilterSame(tags[hi..], keep, t => !Has(prefix, t));
  }

  lemma {:induction false} SettleAt(tags: seq<Json>, first: nat, prefix: string, desired: Json)
    requires first <= |tags| && NoneHas(tags, 0, first, prefix)
    requires first < |tags| ==> Has(prefix, tags[first])
    ensures Settle(tags, prefix, desired)
         == tags[..first] + ([desired] + if first < |tags| then Dropped(tags[first + 1..], prefix) else [])
  {
    if first == 0 {
      assert tags[..0] == [];
    } else {
      var tail := tags[1..];
      SettleAt(tail, first - 1, prefix, desired);
      assert tags[..first] == [tags[0]] + tail[..first - 1];
      assert first < |tags| ==> tail[first..] == tags[first + 1..];
      Associative([tags[0]], tail[..first - 1], [desired] + if first < |tags| then Dropped(tags[first + 1..], prefix) else []);
    }
  }

  /** Positions k - 1 and k are in order and nothing in between matches. */
  ghost predicate Adjacent(tags: seq<Json>, matching: seq<nat>, k: int, prefix: string)
    requires 0 < k < |matching|
  {
    matching[k - 1] < matching[k] && NoneHas(tags, matching[k - 1] + 1, matching[k], prefix)
  }

  /** The ascending positions below `upto` of all tags with a prefix. */
  ghost predicate PositionsTo(tags: seq<Json>, matching: seq<nat>, upto: nat, prefix: string) {
    && upto <= |tags|
    && (forall k :: 0 <= k < |matching| ==> matching[k] < upto && Has(prefix, tags[matching[k]]))
    && (forall k :: 0 < k < |matching| ==> Adjacent(tags, matching, k, prefix))
    && (if matching == [] then NoneHas(tags, 0, upto, prefix)
        else NoneHas(tags, 0, matching[0], prefix) && NoneHas(tags, matching[|matching| - 1] + 1, upto, prefix))
  }

  ghost predicate Positions(tags: seq<Json>, matching: seq<nat>, prefix: string) {
    PositionsTo(tags, matching, |tags|, prefix)
  }

  lemma NoPosition(tags: seq<Json>, matching: seq<nat>, upto: nat, prefix: string)
    requires upto < |tags| && PositionsTo(tags, matching, upto, prefix) && !Has(prefix, tags[upto])
    ensures PositionsTo(tags, matching, upto + 1, prefix)
  {
  }

  lemma NextPosition(tags: seq<Json>, matching: seq<nat>, upto: nat, prefix: string)
    requires upto < |tags| && PositionsTo(tags, matching, upto, prefix) && Has(prefix, tags[upto])
    ensures PositionsTo(tags, matching + [upto], upto + 1, prefix)
  {
    var matching' := matching + [upto];
    forall k | 0 < k < |matching'| ensures Adjacent(tags, matching', k, prefix) {
      assert k < |matching| ==> Adjacent(tags, matching, k, prefix);
    }
  }

  /** Where the stretch before position k ends: at position k, or at the end. */
  function CutAt(tags: seq<Json>, matching: seq<nat>, k: nat): nat {
    if k < |matching| then matching[k] else |tags|
  }

  lemma GapBehind(tags: seq<Json>, matching: seq<nat>, k: nat, prefix: string)
    requires Positions(tags, matching, prefix) && k < |matching|
    ensures matching[k] < CutAt(tags, matching, k + 1) <= |tags| && Has(prefix, tags[matching[k]])
    ensures NoneHas(tags, matching[k] + 1, CutAt(tags, matching, k + 1), prefix)
  {
    assert k + 1 < |matching| ==> Adjacent(tags, matching, k + 1, prefix);
  }

  lemma PositionsKept(tags: seq<Json>, matching: seq<nat>, prefix: string, desired: Json)
    requires Positions(tags, matching, prefix) && matching != [] && Has(prefix, desired)
    ensures Positions(tags[matching[0] := desired], matching, prefix)
  {
    var tags' := tags[matching[0] := desired];
    forall k | 0 < k < |matching| ensures Adjacent(tags', matching, k, prefix) {
      assert Adjacent(tags, matching, k, prefix);
      Ascending(tags, matching, k - 1, prefix);
    }
    Ascending(tags, matching, |matching| - 1, prefix);
  }

  lemma {:induction false} Ascending(tags: seq<Json>, matching: seq<nat>, k: nat, prefix: string)
    requires k < |matching| && Positions(tags, matching, prefix)
    ensures matching[0] <= matching[k]
  {
    if k > 0 {
      assert Adjacent(tags, matching, k, prefix);
      Ascending(tags, matching, k - 1, prefix);
    }
  }

  /** All matches from a position on have been removed. */
  ghost predicate CleanedFrom(all: seq<Json>, tags: seq<Json>, cut: nat, prefix: string) {
    cut <= |all| && tags == all[..cut] + Dropped(all[cut..], prefix)
  }

  /** Removing one match from a vector that has been cleaned behind the next one. */
  lemma RemoveOne(all: seq<Json>, tags: seq<Json>, index: nat, cut: nat, prefix: string)
    requires index < cut && CleanedFrom(all, tags, cut, prefix)
    requires Has(prefix, all[index]) && NoneHas(all, index + 1, cut, prefix)
    ensures index < |tags| && CleanedFrom(all, tags[..index] + tags[index + 1..], index, prefix)
  {
    DroppedFrom(all, index + 1, cut, prefix);
    assert all[index..][1..] == all[index + 1..];
    assert tags[..index] == all[..index] && tags[index + 1..] == all[index + 1..cut] + Dropped(all[cut..], prefix);
  }

  /** Cleaning from a position on is cleaning from any earlier one without matches in between. */
  lemma CleanedBehind(all: seq<Json>, first: nat, cut: nat, prefix: string)
    requires first <= cut && NoneHas(all, first, cut, prefix)
    ensures all[..cut] + Dropped(all[cut..], prefix) == all[..first] + Dropped(all[first..], prefix)
  {
    DroppedFrom(all, first, cut, prefix);
    assert all[..cut] == all[..first] + all[first..cut];
  }

  /** What is left to do once the first match has been rewritten: the later ones go. */
  lemma SettleFirst(tags: seq<Json>, matching: seq<nat>, prefix: string, desired: Json)
    requires Positions(tags, matching, prefix) && matching != [] && Has(prefix, desired)
    ensures var tags' := tags[matching[0] := desired];
            && Positions(tags', matching, prefix)
            && Settle(tags, prefix, desired) == tags'[..matching[0] + 1] + Dropped(tags'[matching[0] + 1..], prefix)
  {
    var first := matching[0];
    SettleAt(tags, first, prefix, desired);
    PositionsKept(tags, matching, prefix, desired);
    assert tags[first := desired][first + 1..] == tags[first + 1..];
    assert tags[first := desired][..first + 1] == tags[..first] + [desired];
    Associative(tags[..first], [desired], Dropped(tags[first + 1..], prefix));
  }

  class TagVec {
    var tags: seq<Json>

    constructor (tags: seq<Json>)
      ensures this.tags == tags
    {
      this.tags := tags;
    }

    method MatchingIndexes(prefix: string) returns (matching: seq<nat>)
      ensures Positions(tags, matching, prefix)
    {
      matching := [];
      for index := 0 to |tags|
        invariant PositionsTo(tags, matching, index, prefix)
      {
        if Has(prefix, tags[index]) {
          NextPosition(tags, matching, index, prefix);
          matching := matching + [index];
        } else {
          NoPosition(tags, matching, index, prefix);
        }
      }
    }

    /** Removes the matches after the first, from the back. */
    method RemoveLater(matching: seq<nat>, prefix: string)
      requires |matching| >= 1 && Positions(tags, matching, prefix)
      modifies this
      ensures tags == old(tags)[..matching[0] + 1] + Dropped(old(tags)[matching[0] + 1..], prefix)
    {
      var k := |matching|;
      ghost var all := tags;
      assert Dropped(all[|all|..], prefix) == [] && all[..|all|] + [] == all;
      while k > 1
        invariant 1 <= k <= |matching|
        invariant CleanedFrom(all, tags, CutAt(all, matching, k), prefix)
      {
        k := k - 1;
        GapBehind(all, matching, k, prefix);
        RemoveOne(all, tags, matching[k], CutAt(all, matching, k + 1), prefix);
        tags := tags[..matching[k]] + tags[matching[k] + 1..];
      }
      GapBehind(all, matching, 0, prefix);
      CleanedBehind(all, matching[0] + 1, CutAt(all, matching, 1), prefix);
    }

    /** Rewrites the first match in place and removes the others from the back, or appends. */
    method Upsert(router: string, target: string)
      modifies this
      ensures tags == RouterTags.Upsert(old(tags), router, target)
    {
      var prefix, desired := ServicePrefix(router), Desired(router, target);
      var matching := MatchingIndexes(prefix);
      if matching == [] {
        SettleAt(tags, |tags|, prefix, desired);
        tags := tags + [desired];
        return;
      }
      var first := matching[0];
      SettleFirst(tags, matching, prefix, desired);
      if tags[first] != desired {
        tags := tags[first := desired];
      }
      assert tags == old(tags)[first := desired];
      RemoveLater(matching, prefix);
    }
  }

  /** The outcome of a walk that has already dealt with a stretch of items. */
  ghost function Behind(done: seq<Json>, rest: Out<seq<Json>>): Out<seq<Json>> {
    Out(done + rest.value, rest.regs, rest.error)
  }

  /** Items before i have been dealt with; the rest is as it was, and leads to `outcome`. */
  ghost predicate Walking(f: Visitor, items: seq<Json>, items': seq<Json>, i: nat, regs: seq<JobRegistration>, outcome: Out<seq<Json>>) {
    && i <= |items| == |items'| && items'[i..] == items[i..]
    && Behind(items'[..i], Walk(f, items[i..], regs)) == outcome
  }

  lemma WalkStart(f: Visitor, items: seq<Json>, regs: seq<JobRegistration>)
    ensures Walking(f, items, items, 0, regs, Walk(f, items, regs))
  {
    assert items[0..] == items;
    var w := Walk(f, items, regs);
    assert [] + w.value == w.value;
  }

  lemma ReplaceOne(items: seq<Json>, items': seq<Json>, i: nat, item: Json)
    requires i < |items| == |items'| && items'[i..] == items[i..]
    ensures items'[i] == items[i]
    ensures items'[i := item][..i + 1] == items'[..i] + [item] && items'[i := item][i + 1..] == items[i + 1..]
    ensures items'[i := item] == items'[..i] + [item] + items[i + 1..]
  {
    assert items'[i] == items'[i..][0] && items'[i + 1..] == items'[i..][1..] && items[i + 1..] == items[i..][1..];
  }

  lemma WalkNext(f: Visitor, items: seq<Json>, items': seq<Json>, i: nat, regs: seq<JobRegistration>, o: Out<Json>, outcome: Out<seq<Json>>)
    requires Walking(f, items, items', i, regs, outcome) && i < |items| && o == f(items[i], regs)
    ensures if o.error.Some? then Out(items'[i := o.value], o.regs, o.error) == outcome
            else Walking(f, items, items'[i := o.value], i + 1, o.regs, outcome)
  {
    ReplaceOne(items, items', i, o.value);
    assert items[i..][1..] == items[i + 1..];
    var done := items'[..i];
    if o.error.Some? {
      assert done + ([o.value] + items[i + 1..]) == done + [o.value] + items[i + 1..];
    } else {
      var rest := Walk(f, items[i + 1..], o.regs).value;
      assert done + ([o.value] + rest) == done + [o.value] + rest;
    }
  }

  lemma WalkEnd(f: Visitor, items: seq<Json>, items': seq<Json>, regs: seq<JobRegistration>, outcome: Out<seq<Json>>)
    requires Walking(f, items, items', |items|, regs, outcome)
    ensures Out(items', regs, None) == outcome
  {
    assert items'[..|items|] + [] == items';
  }

  /** The routers so far, in sorted order, and the next one. */
  lemma NextName(all: seq<string>, done: seq<string>, names: set<string>, name: string)
    requires Least(name, names) && all == done + Sorted(names)
    ensures all == done + [name] + Sorted(names - {name})
  {
    SortedFirst(names, name);
    assert done + ([name] + Sorted(names - {name})) == done + [name] + Sorted(names - {name});
  }

  lemma UpsertAllSnoc(tags: seq<Json>, done: seq<string>, name: string, target: string)
    ensures UpsertAll(tags, done + [name], target) == RouterTags.Upsert(UpsertAll(tags, done, target), name, target)
  {
    assert (done + [name])[..|done|] == done;
  }

  class JobMutator {
    const target: string
    var seen: set<JobRegistration>
    var registrations: seq<JobRegistration>

    constructor (target: string)
      ensures this.target == target && registrations == [] && Valid()
    {
      this.target := target;
      seen, registrations := {}, [];
    }

    ghost predicate Valid()
      reads this
    {
      forall r :: r in seen <==> r in registrations
    }

    /** One upsert for each router, in the order of a sorted set. */
    method InjectTags(tags: seq<Json>) returns (tags': seq<Json>)
      ensures tags' == JobTags.InjectTags(tags, target)
    {
      var vec := new TagVec(tags);
      var names := RouterNames(tags);
      ghost var done: seq<string> := [];
      while names != {}
        invariant fresh(vec)
        invariant Sorted(RouterNames(tags)) == done + Sorted(names)
        invariant vec.tags == UpsertAll(tags, done, target)
      {
        LeastExists(names);
        var name :| name in names && Least(name, names);
        NextName(Sorted(RouterNames(tags)), done, names, name);
        UpsertAllSnoc(tags, done, name, target);
        vec.Upsert(name, target);
        done := done + [name];
        names := names - {name};
      }
      assert Sorted({}) == [] && done + [] == done;
      tags' := vec.tags;
    }

    method InjectService(job: string, group: string, service: Json) returns (service': Json, error: Option<TagError>)
      requires Valid()
      modifies this
      ensures Valid()
      ensures Out(service', registrations, error) == ServiceOut(job, group, target, service, old(registrations))
    {
      if !service.Object? {
        return service, Some(ServiceNotObject);
      }
      var name := Text(service.fields, "Name");
      if name.None? {
        return service, Some(ServiceMissingName);
      }
      var fields := if "Tags" in service.fields then service.fields else service.fields["Tags" := Array([])];
      if !fields["Tags"].Array? {
        return Object(fields), Some(TagsNotArray);
      }
      var tags := fields["Tags"].items;
      if Str(TRAEFIK_ENABLE_TAG) !in tags {
        return Object(fields), None;
      }
      if RouterNames(tags) == {} {
        return Object(fields), Some(MissingRouters);
      }
      var tags' := InjectTags(tags);
      var reg := JobRegistration(job, name.value, group);
      if reg !in seen {
        seen := seen + {reg};
        registrations := registrations + [reg];
      }
      return Object(fields["Tags" := Array(tags')]), None;
    }

    method InjectServices(job: string, group: string, services: seq<Json>) returns (services': seq<Json>, error: Option<TagError>)
      requires Valid()
      modifies this
      ensures Valid()
      ensures Out(services', registrations, error) == Walk(VisitService(job, group, target), services, old(registrations))
    {
      ghost var f := VisitService(job, group, target);
      ghost var outcome := Walk(f, services, registrations);
      services' := services;
      WalkStart(f, services, registrations);
      for i := 0 to |services|
        invariant Valid() && Walking(f, services, services', i, registrations, outcome)
      {
        ghost var regs := registrations;
        ReplaceOne(services, services', i, services'[i]);
        var service', e := InjectService(job, group, services'[i]);
        WalkNext(f, services, services', i, regs, Out(service', registrations, e), outcome);
        services' := services'[i := service'];
        if e.Some? {
          return services', e;
        }
      }
      error := None;
      WalkEnd(f, services, services', registrations, outcome);
    }

    /** The `Services` of an object, if they are an array. */
    method InjectServicesOf(job: string, group: string, fields: Fields) returns (fields': Fields, error: Option<TagError>)
      requires Valid()
      modifies this
      ensures Valid()
      ensures Out(fields', registrations, error) == OverArray(fields, "Services", VisitService(job, group, target), old(registrations))
    {
      fields', error := fields, None;
      if "Services" in fields && fields["Services"].Array? {
        var items, e := InjectServices(job, group, fields["Services"].items);
        fields', error := fields["Services" := Array(items)], e;
      }
    }

    method InjectTask(job: string, group: string, task: Json) returns (task': Json, error: Option<TagError>)
      requires Valid()
      modifies this
      ensures Valid()
      ensures Out(task', registrations, error) == VisitTask(job, group, target)(task, old(registrations))
    {
      if !task.Object? {
        return task, Some(TaskNotObject);
      }
      var fields, e := InjectServicesOf(job, group, task.fields);
      return Object(fields), e;
    }

    method InjectTasks(job: string, group: string, tasks: seq<Json>) returns (tasks': seq<Json>, error: Option<TagError>)
      requires Valid()
      modifies this
      ensures Valid()
      ensures Out(tasks', registrations, error) == Walk(VisitTask(job, group, target), tasks, old(registrations))
    {
      ghost var f := VisitTask(job, group, target);
      ghost var outcome := Walk(f, tasks, registrations);
      tasks' := tasks;
      WalkStart(f, tasks, registrations);
      for i := 0 to |tasks|
        invariant Valid() && Walking(f, tasks, tasks', i, registrations, outcome)
      {
        ghost var regs := registrations;
        ReplaceOne(tasks, tasks', i, tasks'[i]);
        var task', e := InjectTask(job, group, tasks'[i]);
        WalkNext(f, tasks, tasks', i, regs, Out(task', registrations, e), outcome);
        tasks' := tasks'[i := task'];
        if e.Some? {
          return tasks', e;
        }
      }
      error := None;
      WalkEnd(f, tasks, tasks', registrations, outcome);
    }

    /** The `Tasks` of an object, if they are an array. */
    method InjectTasksOf(job: string, group: string, fields: Fields) returns (fields': Fields, error: Option<TagError>)
      requires Valid()
      modifies this
      ensures Valid()
      ensures Out(fields', registrations, error) == OverArray(fields, "Tasks", VisitTask(job, group, target), old(registrations))
    {
      fields', error := fields, None;
      if "Tasks" in fields && fields["Tasks"].Array? {
        var items, e := InjectTasks(job, group, fields["Tasks"].items);
        fields', error := fields["Tasks" := Array(items)], e;
      }
    }

    method InjectGroup(job: string, taskGroup: Json) returns (taskGroup': Json, error: Option<TagError>)
      requires Valid()
      modifies this
      ensures Valid()
      ensures Out(taskGroup', registrations, error) == GroupOut(job, target, taskGroup, old(registrations))
    {
      if !taskGroup.Object? {
        return taskGroup, Some(GroupNotObject);
      }
      var group := Text(taskGroup.fields, "Name");
      if group.None? {
        return taskGroup, Some(GroupMissingName);
      }
      var fields, e := InjectServicesOf(job, group.value, taskGroup.fields);
      if e.None? {
        fields, e := InjectTasksOf(job, group.value, fields);
      }
      return Object(fields), e;
    }

    method InjectGroups(job: string, groups: seq<Json>) returns (groups': seq<Json>, error: Option<TagError>)
      requires Valid()
      modifies this
      ensures Valid()
      ensures Out(groups', registrations, error) == Walk(VisitGroup(job, target), groups, old(registrations))
    {
      ghost var f := VisitGroup(job, target);
      ghost var outcome := Walk(f, groups, registrations);
      groups' := groups;
      WalkStart(f, groups, registrations);
      for i := 0 to |groups|
        invariant Valid() && Walking(f, groups, groups', i, registrations, outcome)
      {
        ghost var regs := registrations;
        ReplaceOne(groups, groups', i, groups'[i]);
        var taskGroup', e := InjectGroup(job, groups'[i]);
        WalkNext(f, groups, groups', i, regs, Out(taskGroup', registrations, e), outcome);
        groups' := groups'[i := taskGroup'];
        if e.Some? {
          return groups', e;
        }
      }
      error := None;
      WalkEnd(f, groups, groups', registrations, outcome);
    }

    /** `inject_nscale_tags`, on a mutator that has seen nothing yet. */
    method InjectNscaleTags(document: Json) returns (document': Json, r: Result<seq<JobRegistration>, TagError>)
      requires Valid() && registrations == []
      modifies this
      ensures var o := JobOut(document, target);
              document' == o.value && r == if o.error.Some? then Err(o.error.value) else Ok(o.regs)
    {
      if !document.Object? {
        return document, Err(NotAnObject);
      }
      var id := Text(document.fields, "ID");
      if id.None? {
        id := Text(document.fields, "Name");
      }
      if id.None? {
        return document, Err(MissingId);
      }
      if !("TaskGroups" in document.fields && document.fields["TaskGroups"].Array?) {
        return document, Err(MissingTaskGroups);
      }
      var groups, e := InjectGroups(id.value, document.fields["TaskGroups"].items);
      document' := Object(document.fields["TaskGroups" := Array(groups)]);
      r := if e.Some? then Err(e.value) else Ok(registrations);
    }
  }
}
