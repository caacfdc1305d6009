/** The order in which a BTreeSet of strings is iterated. */
module StringOrder {

  predicate Le(a: string, b: string) {
    a == "" || (b != "" && (a[0] < b[0] || (a[0] == b[0] && Le(a[1..], b[1..]))))
  }

  lemma {:induction false} LeTotal(a: string, b: string)
    ensures Le(a, b) || Le(b, a)
    ensures Le(a, b) && Le(b, a) ==> a == b
  {
    if a != "" && b != "" && a[0] == b[0] {
      LeTotal(a[1..], b[1..]);
      assert a == [a[0]] + a[1..] && b == [b[0]] + b[1..];
    }
  }

  lemma {:induction false} LeTransitive(a: string, b: string, c: string)
    requires Le(a, b) && Le(b, c)
    ensures Le(a, c)
  {
    if a != "" && b[0] == a[0] && c[0] == b[0] {
      LeTransitive(a[1..], b[1..], c[1..]);
    }
  }

  predicate Least(x: string, s: set<string>) {
    x in s && forall y :: y in s ==> Le(x, y)
  }

  lemma {:induction false} LeastExists(s: set<string>)
    requires s != {}
    ensures exists x :: Least(x, s)
  {
    var x :| x in s;
    if s == {x} {
      LeTotal(x, x);
      assert Least(x, s);
    } else {
      assert s - {x} != {};
      LeastExists(s - {x});
      var y :| Least(y, s - {x});
      LeTotal(x, y);
      LeTotal(x, x);
      if Le(y, x) {
        assert Least(y, s);
      } else {
        forall z | z in s ensures Le(x, z) {
          if z != x {
            LeTransitive(x, y, z);
          }
        }
        assert Least(x, s);
      }
    }
  }

  /** The elements of a set in ascending order. */
  ghost function Sorted(s: set<string>): (xs: seq<string>)
    ensures forall x :: x in xs <==> x in s
  {
    if s == {} then []
    else
      LeastExists(s);
      var x :| Least(x, s);
      [x] + Sorted(s - {x})
  }

  lemma SortedFirst(s: set<string>, x: string)
    requires Least(x, s)
    ensures Sorted(s) == [x] + Sorted(s - {x})
  {
    var y := Sorted(s)[0];
    LeastUnique(s, x, y);
  }

  lemma LeastUnique(s: set<string>, x: string, y: string)
    requires Least(x, s) && Least(y, s)
    ensures x == y
  {
    LeTotal(x, y);
  }
}

/**
 Rewriting a whole job: which services are visited, in which order, what changes, and which registrations
 come out.  Visiting stops at the first error and leaves what it has rewritten so far.
 */
module JobTags {
  import opened Prelude
  import opened Jobs
  import opened StringOrder
  import opened RouterTags

  datatype TagError =
    | NotAnObject
    | MissingId
    | MissingTaskGroups
    | GroupNotObject
    | GroupMissingName
    | TaskNotObject
    | ServiceNotObject
    | ServiceMissingName
    | TagsNotArray
    | MissingRouters

  datatype Out<T> = Out(value: T, regs: seq<JobRegistration>, error: Option<TagError>)

  type Visitor = (Json, seq<JobRegistration>) -> Out<Json>

  type Fields = map<string, Json>

  /** Visit the items of an array in order, up to the first error. */
  function Walk(f: Visitor, items: seq<Json>, regs: seq<JobRegistration>): Out<seq<Json>> {
    if items == [] then Out([], regs, None)
    else
      var first := f(items[0], regs);
      if first.error.Some? then Out([first.value] + items[1..], first.regs, first.error)
      else
        var rest := Walk(f, items[1..], first.regs);
        Out([first.value] + rest.value, rest.regs, rest.error)
  }

  /** Visit the array under `key`; anything else under it, or nothing, is passed over. */
  function OverArray(fields: Fields, key: string, f: Visitor, regs: seq<JobRegistration>): Out<Fields> {
    if key in fields && fields[key].Array? then
      var w := Walk(f, fields[key].items, regs);
      Out(fields[key := Array(w.value)], w.regs, w.error)
    else Out(fields, regs, None)
  }

  function Text(fields: Fields, key: string): Option<string> {
    if key in fields && fields[key].Str? then Some(fields[key].text) else None
  }

  function AddNew(regs: seq<JobRegistration>, reg: JobRegistration): seq<JobRegistration> {
    if reg in regs then regs else regs + [reg]
  }

  /** The service with the default for a missing `Tags`. */
  function WithTags(fields: Fields): Fields {
    if "Tags" in fields then fields else fields["Tags" := Array([])]
  }

  ghost function InjectTags(tags: seq<Json>, target: string): seq<Json> {
    UpsertAll(tags, Sorted(RouterNames(tags)), target)
  }

  ghost function ServiceOut(job: string, group: string, target: string, v: Json, regs: seq<JobRegistration>): Out<Json> {
    if !v.Object? then Out(v, regs, Some(ServiceNotObject))
    else if Text(v.fields, "Name").None? then Out(v, regs, Some(ServiceMissingName))
    else
      var fields := WithTags(v.fields);
      if !fields["Tags"].Array? then Out(Object(fields), regs, Some(TagsNotArray))
      else
        var tags := fields["Tags"].items;
        if !Enabled(tags) then Out(Object(fields), regs, None)
        else if RouterNames(tags) == {} then Out(Object(fields), regs, Some(MissingRouters))
        else
          Out(Object(fields["Tags" := Array(InjectTags(tags, target))]),
              AddNew(regs, JobRegistration(job, Text(v.fields, "Name").value, group)), None)
  }

  ghost function VisitService(job: string, group: string, target: string): Visitor {
    (v, regs) => ServiceOut(job, group, target, v, regs)
  }

  ghost function TaskOut(job: string, group: string, target: string, v: Json, regs: seq<JobRegistration>): Out<Json> {
    if !v.Object? then Out(v, regs, Some(TaskNotObject))
    else
      var o := OverArray(v.fields, "Services", VisitService(job, group, target), regs);
      Out(Object(o.value), o.regs, o.error)
  }

  ghost function VisitTask(job: string, group: string, target: string): Visitor {
    (v, regs) => TaskOut(job, group, target, v, regs)
  }

  /** Group services first, then the services of its tasks. */
  ghost function GroupOut(job: string, target: string, v: Json, regs: seq<JobRegistration>): Out<Json> {
    if !v.Object? then Out(v, regs, Some(GroupNotObject))
    else if Text(v.fields, "Name").None? then Out(v, regs, Some(GroupMissingName))
    else
      var group := Text(v.fields, "Name").value;
      var services := OverArray(v.fields, "Services", VisitService(job, group, target), regs);
      if services.error.Some? then Out(Object(services.value), services.regs, services.error)
      else
        var tasks := OverArray(services.value, "Tasks", VisitTask(job, group, target), services.regs);
        Out(Object(tasks.value), tasks.regs, tasks.error)
  }

  ghost function VisitGroup(job: string, target: string): Visitor {
    (v, regs) => GroupOut(job, target, v, regs)
  }

  function JobId(fields: Fields): Option<string> {
    if Text(fields, "ID").Some? then Text(fields, "ID") else Text(fields, "Name")
  }

  ghost function JobOut(v: Json, target: string): Out<Json> {
    if !v.Object? then Out(v, [], Some(NotAnObject))
    else if JobId(v.fields).None? then Out(v, [], Some(MissingId))
    else if !("TaskGroups" in v.fields && v.fields["TaskGroups"].Array?) then Out(v, [], Some(MissingTaskGroups))
    else
      var o := OverArray(v.fields, "TaskGroups", VisitGroup(JobId(v.fields).value, target), []);
      Out(Object(o.value), o.regs, o.error)
  }

  // ---------------------------------------------------------------------------------------------
  // What a job says, independently of the rewriting

  function FlatMap<T>(e: Json -> seq<T>, items: seq<Json>): seq<T> {
    if items == [] then [] else e(items[0]) + FlatMap(e, items[1..])
  }

  function Map(e: Json -> Json, items: seq<Json>): seq<Json> {
    if items == [] then [] else [e(items[0])] + Map(e, items[1..])
  }

  function Items(fields: Fields, key: string): seq<Json> {
    if key in fields && fields[key].Array? then fields[key].items else []
  }

  /** The services of a task, a group, a job, in the order of the document. */
  function TaskServices(): Json -> seq<Json> {
    (v: Json) => if v.Object? then Items(v.fields, "Services") else []
  }

  function GroupServices(): Json -> seq<Json> {
    (v: Json) =>
      if v.Object? then Items(v.fields, "Services") + FlatMap(TaskServices(), Items(v.fields, "Tasks")) else []
  }

  function JobServices(v: Json): seq<Json> {
    if v.Object? then FlatMap(GroupServices(), Items(v.fields, "TaskGroups")) else []
  }

  predicate IsEnabled(v: Json) {
    v.Object? && Enabled(Items(v.fields, "Tags"))
  }

  /** The (job, service, group) triples of the enabled services, in the same order. */
  function ServiceTriples(job: string, group: string): Json -> seq<JobRegistration> {
    (v: Json) =>
      if IsEnabled(v) && Text(v.fields, "Name").Some? then [JobRegistration(job, Text(v.fields, "Name").value, group)]
      else []
  }

  function TaskTriples(job: string, group: string): Json -> seq<JobRegistration> {
    (v: Json) => if v.Object? then FlatMap(ServiceTriples(job, group), Items(v.fields, "Services")) else []
  }

  function GroupTriples(job: string): Json -> seq<JobRegistration> {
    (v: Json) =>
      if v.Object? && Text(v.fields, "Name").Some? then
        var group := Text(v.fields, "Name").value;
        FlatMap(ServiceTriples(job, group), Items(v.fields, "Services"))
          + FlatMap(TaskTriples(job, group), Items(v.fields, "Tasks"))
      else []
  }

  function JobTriples(v: Json): seq<JobRegistration> {
    if v.Object? && JobId(v.fields).Some? then
      FlatMap(GroupTriples(JobId(v.fields).value), Items(v.fields, "TaskGroups"))
    else []
  }

  /** The registrations with those that are not among them yet added in order. */
  function AddAll(regs: seq<JobRegistration>, more: seq<JobRegistration>): seq<JobRegistration>
    decreases |more|
  {
    if more == [] then regs else AddAll(AddNew(regs, more[0]), more[1..])
  }

  /** The document without the tags of its services. */
  function StripArray(fields: Fields, key: string, e: Json -> Json): Fields {
    if key in fields && fields[key].Array? then fields[key := Array(Map(e, fields[key].items))] else fields
  }

  function StripService(): Json -> Json {
    (v: Json) => if v.Object? then Object(v.fields - {"Tags"}) else v
  }

  function StripTask(): Json -> Json {
    (v: Json) => if v.Object? then Object(StripArray(v.fields, "Services", StripService())) else v
  }

  function StripGroup(): Json -> Json {
    (v: Json) =>
      if v.Object? then
        Object(StripArray(StripArray(v.fields, "Services", StripService()), "Tasks", StripTask()))
      else v
  }

  function StripJob(v: Json): Json {
    if v.Object? then Object(StripArray(v.fields, "TaskGroups", StripGroup())) else v
  }

  /** What the rewriting makes of one service. */
  ghost predicate Rewritten(s: Json, s': Json, target: string) {
    && s.Object? && s'.Object?
    && (if !("Tags" in s.fields) then s'.fields == s.fields["Tags" := Array([])]
        else
          && s.fields["Tags"].Array?
          && var tags := s.fields["Tags"].items;
             if !Enabled(tags) then s' == s
             else RouterNames(tags) != {} && s'.fields == s.fields["Tags" := Array(InjectTags(tags, target))])
  }

  ghost predicate AllRewritten(ss: seq<Json>, ss': seq<Json>, target: string) {
    |ss'| == |ss| && forall i :: 0 <= i < |ss| ==> Rewritten(ss[i], ss'[i], target)
  }

  // ---------------------------------------------------------------------------------------------
  // Visiting, once and for all levels

  /**
   A visitor that changes nothing but tags and, when it succeeds, adds the triples of what it visited,
   rewrites its services, and would find nothing left to do.
   */
  ghost predicate Sound(f: Visitor, strip: Json -> Json, services: Json -> seq<Json>, triples: Json -> seq<JobRegistration>, target: string) {
    forall v, regs {:trigger f(v, regs)} ::
      var o := f(v, regs);
      && strip(o.value) == strip(v)
      && (o.error.None? ==>
            && o.regs == AddAll(regs, triples(v))
            && AllRewritten(services(v), services(o.value), target)
            && f(o.value, regs) == o)
  }

  lemma {:induction false} AddAllConcat(regs: seq<JobRegistration>, a: seq<JobRegistration>, b: seq<JobRegistration>)
    ensures AddAll(regs, a + b) == AddAll(AddAll(regs, a), b)
    decreases |a|
  {
    if a == [] {
      assert a + b == b;
    } else {
      assert (a + b)[1..] == a[1..] + b;
      AddAllConcat(AddNew(regs, a[0]), a[1..], b);
    }
  }

  lemma AllRewrittenConcat(a: seq<Json>, b: seq<Json>, a': seq<Json>, b': seq<Json>, target: string)
    requires AllRewritten(a, a', target) && AllRewritten(b, b', target)
    ensures AllRewritten(a + b, a' + b', target)
  {
  }

  lemma {:induction false} MapSame(e: Json -> Json, a: seq<Json>, b: seq<Json>)
    requires |a| == |b| && forall i :: 0 <= i < |a| ==> e(a[i]) == e(b[i])
    ensures Map(e, a) == Map(e, b)
  {
    if a != [] {
      MapSame(e, a[1..], b[1..]);
    }
  }

  lemma {:induction false} WalkStrip(f: Visitor, strip: Json -> Json, items: seq<Json>, regs: seq<JobRegistration>)
    requires forall v, r {:trigger f(v, r)} :: strip(f(v, r).value) == strip(v)
    ensures Map(strip, Walk(f, items, regs).value) == Map(strip, items)
  {
    if items != [] {
      var first := f(items[0], regs);
      if first.error.Some? {
        MapSame(strip, [first.value] + items[1..], items);
      } else {
        WalkStrip(f, strip, items[1..], first.regs);
        var o := Walk(f, items, regs);
        assert o.value[1..] == Walk(f, items[1..], first.regs).value;
      }
    }
  }

  lemma {:induction false} WalkSound(
    f: Visitor, strip: Json -> Json, services: Json -> seq<Json>, triples: Json -> seq<JobRegistration>, target: string,
    items: seq<Json>, regs: seq<JobRegistration>)
    requires Sound(f, strip, services, triples, target)
    requires Walk(f, items, regs).error.None?
    ensures var o := Walk(f, items, regs);
            && o.regs == AddAll(regs, FlatMap(triples, items))
            && AllRewritten(FlatMap(services, items), FlatMap(services, o.value), target)
            && Walk(f, o.value, regs) == o
  {
    if items != [] {
      var first := f(items[0], regs);
      var rest := Walk(f, items[1..], first.regs);
      var o := Walk(f, items, regs);
      WalkSound(f, strip, services, triples, target, items[1..], first.regs);
      assert o.value[0] == first.value && o.value[1..] == rest.value;
      AddAllConcat(regs, triples(items[0]), FlatMap(triples, items[1..]));
      AllRewrittenConcat(services(items[0]), FlatMap(services, items[1..]), services(first.value), FlatMap(services, rest.value), target);
    }
  }

  lemma OverArraySound(
    f: Visitor, strip: Json -> Json, services: Json -> seq<Json>, triples: Json -> seq<JobRegistration>, target: string,
    fields: Fields, key: string, regs: seq<JobRegistration>)
    requires Sound(f, strip, services, triples, target)
    ensures var o := OverArray(fields, key, f, regs);
            && o.value - {key} == fields - {key}
            && StripArray(o.value, key, strip) == StripArray(fields, key, strip)
            && (o.error.None? ==>
                  && o.regs == AddAll(regs, FlatMap(triples, Items(fields, key)))
                  && AllRewritten(FlatMap(services, Items(fields, key)), FlatMap(services, Items(o.value, key)), target)
                  && OverArray(o.value, key, f, regs) == o)
  {
    if key in fields && fields[key].Array? {
      WalkStrip(f, strip, fields[key].items, regs);
      if Walk(f, fields[key].items, regs).error.None? {
        WalkSound(f, strip, services, triples, target, fields[key].items, regs);
        var o := OverArray(fields, key, f, regs);
        assert o.value[key := Array(Walk(f, fields[key].items, regs).value)] == o.value;
      }
    }
  }

  function Self(): Json -> seq<Json> {
    (v: Json) => [v]
  }

  lemma {:induction false} FlatMapSelf(items: seq<Json>)
    ensures FlatMap(Self(), items) == items
  {
    if items != [] {
      FlatMapSelf(items[1..]);
    }
  }

  // ---------------------------------------------------------------------------------------------
  // The three levels

  lemma ServiceRewritten(job: string, group: string, target: string, v: Json, regs: seq<JobRegistration>)
    ensures var o := ServiceOut(job, group, target, v, regs);
            && StripService()(o.value) == StripService()(v)
            && (o.error.None? ==> Rewritten(v, o.value, target) && o.regs == AddAll(regs, ServiceTriples(job, group)(v)))
  {
    if v.Object? {
      assert WithTags(v.fields) - {"Tags"} == v.fields - {"Tags"};
    }
  }

  lemma InjectTagsAgain(tags: seq<Json>, target: string)
    ensures var tags' := InjectTags(tags, target);
            && InjectTags(tags', target) == tags' && RouterNames(tags') == RouterNames(tags)
            && (Enabled(tags') <==> Enabled(tags))
  {
    var routers := Sorted(RouterNames(tags));
    Canonical(tags, routers, target);
    Idempotent(tags, routers, Sorted(RouterNames(UpsertAll(tags, routers, target))), target);
  }

  lemma ServiceIdempotent(job: string, group: string, target: string, v: Json, regs: seq<JobRegistration>)
    requires ServiceOut(job, group, target, v, regs).error.None?
    ensures var o := ServiceOut(job, group, target, v, regs); ServiceOut(job, group, target, o.value, regs) == o
  {
    var fields := WithTags(v.fields);
    var tags := fields["Tags"].items;
    var o := ServiceOut(job, group, target, v, regs);
    assert Text(fields, "Name") == Text(v.fields, "Name");
    if Enabled(tags) {
      InjectTagsAgain(tags, target);
      var fields' := fields["Tags" := Array(InjectTags(tags, target))];
      assert o.value == Object(fields');
      assert Text(fields', "Name") == Text(v.fields, "Name") && WithTags(fields') == fields';
      assert fields'["Tags" := Array(InjectTags(tags, target))] == fields';
    }
  }

  lemma ServiceSound(job: string, group: string, target: string)
    ensures Sound(VisitService(job, group, target), StripService(), Self(), ServiceTriples(job, group), target)
  {
    forall v, regs
      ensures var o := VisitService(job, group, target)(v, regs);
              && StripService()(o.value) == StripService()(v)
              && (o.error.None? ==>
                    && o.regs == AddAll(regs, ServiceTriples(job, group)(v))
                    && AllRewritten(Self()(v), Self()(o.value), target)
                    && VisitService(job, group, target)(o.value, regs) == o)
    {
      ServiceRewritten(job, group, target, v, regs);
      if ServiceOut(job, group, target, v, regs).error.None? {
        ServiceIdempotent(job, group, target, v, regs);
      }
    }
  }

  lemma TaskSound(job: string, group: string, target: string)
    ensures Sound(VisitTask(job, group, target), StripTask(), TaskServices(), TaskTriples(job, group), target)
  {
    ServiceSound(job, group, target);
    forall v, regs
      ensures var o := VisitTask(job, group, target)(v, regs);
              && StripTask()(o.value) == StripTask()(v)
              && (o.error.None? ==>
                    && o.regs == AddAll(regs, TaskTriples(job, group)(v))
                    && AllRewritten(TaskServices()(v), TaskServices()(o.value), target)
                    && VisitTask(job, group, target)(o.value, regs) == o)
    {
      if v.Object? {
        OverArraySound(VisitService(job, group, target), StripService(), Self(), ServiceTriples(job, group), target, v.fields, "Services", regs);
        var o := OverArray(v.fields, "Services", VisitService(job, group, target), regs);
        FlatMapSelf(Items(v.fields, "Services"));
        FlatMapSelf(Items(o.value, "Services"));
      }
    }
  }

  /** Rewriting one array of a group leaves every other field of the group alone. */
  lemma OtherField(fields: Fields, fields': Fields, key: string, other: string)
    requires fields' - {key} == fields - {key} && other != key
    ensures other in fields' <==> other in fields
    ensures other in fields ==> fields'[other] == fields[other]
    ensures Text(fields', other) == Text(fields, other) && Items(fields', other) == Items(fields, other)
  {
    assert other in fields <==> other in fields - {key};
    assert other in fields' <==> other in fields' - {key};
    if other in fields {
      assert (fields - {key})[other] == fields[other] && (fields' - {key})[other] == fields'[other];
    }
  }

  lemma GroupParts(job: string, target: string, v: Json, regs: seq<JobRegistration>)
    requires v.Object? && Text(v.fields, "Name").Some?
    ensures var group := Text(v.fields, "Name").value;
            var o1 := OverArray(v.fields, "Services", VisitService(job, group, target), regs);
            var o2 := OverArray(o1.value, "Tasks", VisitTask(job, group, target), o1.regs);
            && o1.value - {"Services"} == v.fields - {"Services"}
            && StripArray(o1.value, "Services", StripService()) == StripArray(v.fields, "Services", StripService())
            && o2.value - {"Tasks"} == o1.value - {"Tasks"}
            && StripArray(o2.value, "Tasks", StripTask()) == StripArray(o1.value, "Tasks", StripTask())
            && (o1.error.None? ==>
                  && o1.regs == AddAll(regs, FlatMap(ServiceTriples(job, group), Items(v.fields, "Services")))
                  && AllRewritten(Items(v.fields, "Services"), Items(o1.value, "Services"), target)
                  && OverArray(o1.value, "Services", VisitService(job, group, target), regs) == o1)
            && (o2.error.None? ==>
                  && o2.regs == AddAll(o1.regs, FlatMap(TaskTriples(job, group), Items(o1.value, "Tasks")))
                  && AllRewritten(FlatMap(TaskServices(), Items(o1.value, "Tasks")), FlatMap(TaskServices(), Items(o2.value, "Tasks")), target)
                  && OverArray(o2.value, "Tasks", VisitTask(job, group, target), o1.regs) == o2)
  {
    var group := Text(v.fields, "Name").value;
    var o1 := OverArray(v.fields, "Services", VisitService(job, group, target), regs);
    ServiceSound(job, group, target);
    OverArraySound(VisitService(job, group, target), StripService(), Self(), ServiceTriples(job, group), target, v.fields, "Services", regs);
    FlatMapSelf(Items(v.fields, "Services"));
    FlatMapSelf(Items(o1.value, "Services"));
    TaskSound(job, group, target);
    OverArraySound(VisitTask(job, group, target), StripTask(), TaskServices(), TaskTriples(job, group), target, o1.value, "Tasks", o1.regs);
  }

  /** Stripping works on each array by itself. */
  lemma StripTwo(fields: Fields, fields': Fields)
    requires StripArray(fields', "Services", StripService()) == StripArray(fields, "Services", StripService())
    ensures StripArray(StripArray(fields', "Services", StripService()), "Tasks", StripTask())
         == StripArray(StripArray(fields, "Services", StripService()), "Tasks", StripTask())
  {
  }

  lemma StripTasksOnly(fields: Fields, fields': Fields)
    requires fields' - {"Tasks"} == fields - {"Tasks"}
    requires StripArray(fields', "Tasks", StripTask()) == StripArray(fields, "Tasks", StripTask())
    ensures StripArray(StripArray(fields', "Services", StripService()), "Tasks", StripTask())
         == StripArray(StripArray(fields, "Services", StripService()), "Tasks", StripTask())
  {
    OtherField(fields, fields', "Tasks", "Services");
    StripCommutes(fields);
    StripCommutes(fields');
  }

  lemma StripCommutes(fields: Fields)
    ensures StripArray(StripArray(fields, "Services", StripService()), "Tasks", StripTask())
         == StripArray(StripArray(fields, "Tasks", StripTask()), "Services", StripService())
  {
  }

  /** Visiting an array again finds it visited, whatever else has changed around it. */
  lemma AgainInside(fields: Fields, fields': Fields, key: string, f: Visitor, regs: seq<JobRegistration>, regs': seq<JobRegistration>)
    requires OverArray(fields, key, f, regs) == Out(fields, regs', None)
    requires (key in fields' <==> key in fields) && (key in fields ==> fields'[key] == fields[key])
    ensures OverArray(fields', key, f, regs) == Out(fields', regs', None)
  {
    if key in fields && fields[key].Array? {
      var w := Walk(f, fields[key].items, regs);
      assert fields[key := Array(w.value)][key] == fields[key];
      assert fields'[key := Array(w.value)] == fields';
    }
  }

  lemma GroupStrip(job: string, target: string, v: Json, regs: seq<JobRegistration>)
    ensures StripGroup()(GroupOut(job, target, v, regs).value) == StripGroup()(v)
  {
    if v.Object? && Text(v.fields, "Name").Some? {
      var group := Text(v.fields, "Name").value;
      GroupParts(job, target, v, regs);
      var o1 := OverArray(v.fields, "Services", VisitService(job, group, target), regs);
      StripTwo(v.fields, o1.value);
      var o2 := OverArray(o1.value, "Tasks", VisitTask(job, group, target), o1.regs);
      StripTasksOnly(o1.value, o2.value);
    }
  }

  lemma GroupResult(job: string, target: string, v: Json, regs: seq<JobRegistration>)
    requires GroupOut(job, target, v, regs).error.None?
    ensures var o := GroupOut(job, target, v, regs);
            && o.regs == AddAll(regs, GroupTriples(job)(v))
            && AllRewritten(GroupServices()(v), GroupServices()(o.value), target)
            && GroupOut(job, target, o.value, regs) == o
  {
    var group := Text(v.fields, "Name").value;
    var visitServices, visitTasks := VisitService(job, group, target), VisitTask(job, group, target);
    var o1 := OverArray(v.fields, "Services", visitServices, regs);
    var o2 := OverArray(o1.value, "Tasks", visitTasks, o1.regs);
    GroupParts(job, target, v, regs);
    OtherField(v.fields, o1.value, "Services", "Name");
    OtherField(v.fields, o1.value, "Services", "Tasks");
    OtherField(o1.value, o2.value, "Tasks", "Name");
    OtherField(o1.value, o2.value, "Tasks", "Services");
    AddAllConcat(regs, FlatMap(ServiceTriples(job, group), Items(v.fields, "Services")), FlatMap(TaskTriples(job, group), Items(v.fields, "Tasks")));
    AllRewrittenConcat(
      Items(v.fields, "Services"), FlatMap(TaskServices(), Items(v.fields, "Tasks")),
      Items(o2.value, "Services"), FlatMap(TaskServices(), Items(o2.value, "Tasks")), target);
    AgainInside(o1.value, o2.value, "Services", visitServices, regs, o1.regs);
  }

  lemma GroupSound(job: string, target: string)
    ensures Sound(VisitGroup(job, target), StripGroup(), GroupServices(), GroupTriples(job), target)
  {
    forall v, regs
      ensures var o := VisitGroup(job, target)(v, regs);
              && StripGroup()(o.value) == StripGroup()(v)
              && (o.error.None? ==>
                    && o.regs == AddAll(regs, GroupTriples(job)(v))
                    && AllRewritten(GroupServices()(v), GroupServices()(o.value), target)
                    && VisitGroup(job, target)(o.value, regs) == o)
    {
      GroupStrip(job, target, v, regs);
      if GroupOut(job, target, v, regs).error.None? {
        GroupResult(job, target, v, regs);
      }
    }
  }

  lemma JobParts(v: Json, target: string)
    requires v.Object? && JobId(v.fields).Some? && "TaskGroups" in v.fields && v.fields["TaskGroups"].Array?
    ensures var o := JobOut(v, target);
            && o.value.Object? && o.value.fields - {"TaskGroups"} == v.fields - {"TaskGroups"}
            && StripJob(o.value) == StripJob(v)
            && (o.error.None? ==>
                  && o.regs == AddAll([], JobTriples(v))
                  && AllRewritten(JobServices(v), JobServices(o.value), target)
                  && OverArray(o.value.fields, "TaskGroups", VisitGroup(JobId(v.fields).value, target), [])
                       == Out(o.value.fields, o.regs, None))
  {
    var job := JobId(v.fields).value;
    GroupSound(job, target);
    OverArraySound(VisitGroup(job, target), StripGroup(), GroupServices(), GroupTriples(job), target, v.fields, "TaskGroups", []);
  }

  /** Injection changes nothing of a document but the tags of its services, even when it stops with an error. */
  lemma OnlyTagsChange(v: Json, target: string)
    ensures StripJob(JobOut(v, target).value) == StripJob(v)
  {
    if v.Object? && JobId(v.fields).Some? && "TaskGroups" in v.fields && v.fields["TaskGroups"].Array? {
      JobParts(v, target);
    }
  }

  /**
   What a successful injection has done: every service of the job, at group and at task level, is rewritten
   as its tags ask for, and the registrations are the (job, service, group) triples of the enabled services,
   each once, in the order of their first occurrence.
   */
  lemma InjectionComplete(v: Json, target: string)
    requires JobOut(v, target).error.None?
    ensures AllRewritten(JobServices(v), JobServices(JobOut(v, target).value), target)
    ensures JobOut(v, target).regs == AddAll([], JobTriples(v))
  {
    JobParts(v, target);
  }

  /** A second injection changes nothing and returns the same registrations. */
  lemma InjectionIdempotent(v: Json, target: string)
    requires JobOut(v, target).error.None?
    ensures JobOut(JobOut(v, target).value, target) == JobOut(v, target)
  {
    JobParts(v, target);
    var o := JobOut(v, target);
    OtherField(v.fields, o.value.fields, "TaskGroups", "ID");
    OtherField(v.fields, o.value.fields, "TaskGroups", "Name");
  }

  /** In a rewritten service that is enabled, each router has exactly one service tag, and it is the target. */
  lemma RewrittenIsCanonical(s: Json, s': Json, target: string)
    requires Rewritten(s, s', target) && IsEnabled(s)
    ensures var tags, tags' := Items(s.fields, "Tags"), Items(s'.fields, "Tags");
            && RouterNames(tags) != {} && RouterNames(tags') == RouterNames(tags)
            && (forall x :: x in RouterNames(tags) ==> Filter(tags', IsServiceTagOf(x)) == [Desired(x, target)])
            && Filter(tags', OtherTag()) == Filter(tags, OtherTag())
  {
    var tags := Items(s.fields, "Tags");
    Canonical(tags, Sorted(RouterNames(tags)), target);
  }

  /** Position i of `xs` is the first occurrence of its element. */
  ghost predicate FirstAt(xs: seq<JobRegistration>, i: nat) {
    i < |xs| && xs[i] !in xs[..i]
  }

  ghost predicate Distinct(xs: seq<JobRegistration>) {
    forall i, k :: 0 <= i < k < |xs| ==> xs[i] != xs[k]
  }

  /** `AddAll` lists every element once. */
  lemma {:induction false} AddAllDistinct(regs: seq<JobRegistration>, more: seq<JobRegistration>)
    requires Distinct(regs)
    ensures Distinct(AddAll(regs, more))
    ensures forall r :: r in AddAll(regs, more) <==> r in regs || r in more
    decreases |more|
  {
    if more != [] {
      assert Distinct(AddNew(regs, more[0]));
      AddAllDistinct(AddNew(regs, more[0]), more[1..]);
      forall r ensures r in AddAll(regs, more) <==> r in regs || r in more {
        assert r in AddNew(regs, more[0]) <==> r in regs || r == more[0];
        assert r in more <==> r == more[0] || r in more[1..];
      }
    }
  }

  /** And keeps them in the order of their first occurrences. */
  lemma {:induction false} AddAllInOrder(more: seq<JobRegistration>)
    ensures AddAll([], more) == if more == [] then [] else
              var before, last := more[..|more| - 1], more[|more| - 1];
              if FirstAt(more, |more| - 1) then AddAll([], before) + [last] else AddAll([], before)
  {
    if more != [] {
      var before, last := more[..|more| - 1], more[|more| - 1];
      assert more == before + [last];
      AddAllConcat([], before, [last]);
      AddAllDistinct([], before);
      assert [last][1..] == [];
    }
  }
}
