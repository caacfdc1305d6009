/** Tag injection in terms of the texts of the document: which tags name routers, which documents are accepted, what is returned. */
module JobText {
  import opened Prelude
  import opened Jobs
  import opened StringOrder
  import opened RouterTags
  import opened JobTags

  /** A tag of router x, of any kind. */
  function RouterTag(x: string, rest: string): Json {
    Str("traefik.http.routers." + x + "." + rest)
  }

  ghost predicate NamesRouter(tags: seq<Json>, x: string) {
    '.' !in x && exists rest :: RouterTag(x, rest) in tags
  }

  lemma {:induction false} FirstDotAfter(x: string, rest: string)
    requires '.' !in x
    ensures FirstDot(x + "." + rest) == |x|
  {
    if x == "" {
      assert (x + "." + rest)[0] == '.';
    } else {
      assert (x + "." + rest)[0] == x[0] && (x + "." + rest)[1..] == x[1..] + "." + rest;
      FirstDotAfter(x[1..], rest);
    }
  }

  lemma RouterOfTag(x: string, rest: string)
    requires '.' !in x
    ensures RouterOf(RouterTag(x, rest)) == Some(x)
  {
    var text := "traefik.http.routers." + x + "." + rest;
    assert text == ROUTER_PREFIX + (x + "." + rest);
    assert text[|ROUTER_PREFIX|..] == x + "." + rest;
    FirstDotAfter(x, rest);
    assert (x + "." + rest)[..|x|] == x;
  }

  lemma TagOfRouter(t: Json) returns (rest: string)
    requires RouterOf(t).Some?
    ensures t == RouterTag(RouterOf(t).value, rest)
  {
    var r := t.text[|ROUTER_PREFIX|..];
    var n := FirstDot(r);
    rest := r[n + 1..];
    assert r == r[..n] + [r[n]] + rest && [r[n]] == ".";
    assert t.text == ROUTER_PREFIX + r;
    assert t.text == "traefik.http.routers." + r[..n] + "." + rest;
  }

  /** The routers of a service are exactly the dot-free names that some tag puts between the prefix and a dot. */
  lemma RouterNamesExactly(tags: seq<Json>, x: string)
    ensures x in RouterNames(tags) <==> NamesRouter(tags, x)
  {
    if x in RouterNames(tags) {
      var t :| t in tags && RouterOf(t).Some? && RouterOf(t).value == x;
      var rest := TagOfRouter(t);
      assert RouterTag(x, rest) in tags;
    }
    if NamesRouter(tags, x) {
      var rest :| RouterTag(x, rest) in tags;
      RouterOfTag(x, rest);
    }
  }

  predicate EnabledText(s: Json) {
    s.Object? && "Tags" in s.fields && s.fields["Tags"].Array? && Str("traefik.enable=true") in s.fields["Tags"].items
  }

  ghost predicate NamesSomeRouter(tags: seq<Json>) {
    exists x :: NamesRouter(tags, x)
  }

  lemma SomeRouter(tags: seq<Json>)
    ensures RouterNames(tags) != {} <==> NamesSomeRouter(tags)
  {
    if RouterNames(tags) != {} {
      var x :| x in RouterNames(tags);
      RouterNamesExactly(tags, x);
      assert NamesRouter(tags, x);
    }
    if NamesSomeRouter(tags) {
      var x :| NamesRouter(tags, x);
      RouterNamesExactly(tags, x);
    }
  }

  // ---------------------------------------------------------------------------------------------
  // What is wrong with a document

  predicate HasText(fields: Fields, key: string) {
    key in fields && fields[key].Str?
  }

  /** A service has a name and, if it has tags, a list of them, which names a router if it enables traefik. */
  ghost function ServiceFaults(): Json -> seq<TagError> {
    (v: Json) =>
      if !v.Object? then [ServiceNotObject]
      else if !HasText(v.fields, "Name") then [ServiceMissingName]
      else if "Tags" in v.fields && !v.fields["Tags"].Array? then [TagsNotArray]
      else if EnabledText(v) && !NamesSomeRouter(v.fields["Tags"].items) then [MissingRouters]
      else []
  }

  ghost function TaskFaults(): Json -> seq<TagError> {
    (v: Json) => if v.Object? then FlatMap(ServiceFaults(), Items(v.fields, "Services")) else [TaskNotObject]
  }

  ghost function GroupFaults(): Json -> seq<TagError> {
    (v: Json) =>
      if !v.Object? then [GroupNotObject]
      else if !HasText(v.fields, "Name") then [GroupMissingName]
      else FlatMap(ServiceFaults(), Items(v.fields, "Services")) + FlatMap(TaskFaults(), Items(v.fields, "Tasks"))
  }

  /** Everything that is wrong with a job, in the order of the document. */
  ghost function JobFaults(v: Json): seq<TagError> {
    if !v.Object? then [NotAnObject]
    else if !HasText(v.fields, "ID") && !HasText(v.fields, "Name") then [MissingId]
    else if !("TaskGroups" in v.fields && v.fields["TaskGroups"].Array?) then [MissingTaskGroups]
    else FlatMap(GroupFaults(), v.fields["TaskGroups"].items)
  }

  ghost function First(faults: seq<TagError>): Option<TagError> {
    if faults == [] then None else Some(faults[0])
  }

  /** A visitor ends with the first fault of what it visits. */
  ghost predicate Finds(f: Visitor, faults: Json -> seq<TagError>) {
    forall v, regs {:trigger f(v, regs)} :: f(v, regs).error == First(faults(v))
  }

  lemma {:induction false} WalkFinds(f: Visitor, faults: Json -> seq<TagError>, items: seq<Json>, regs: seq<JobRegistration>)
    requires Finds(f, faults)
    ensures Walk(f, items, regs).error == First(FlatMap(faults, items))
  {
    if items != [] {
      WalkFinds(f, faults, items[1..], f(items[0], regs).regs);
    }
  }

  lemma OverArrayFinds(f: Visitor, faults: Json -> seq<TagError>, fields: Fields, key: string, regs: seq<JobRegistration>)
    requires Finds(f, faults)
    ensures OverArray(fields, key, f, regs).error == First(FlatMap(faults, Items(fields, key)))
    ensures forall other :: other != key ==> Items(OverArray(fields, key, f, regs).value, other) == Items(fields, other)
  {
    if key in fields && fields[key].Array? {
      WalkFinds(f, faults, fields[key].items, regs);
    }
  }

  lemma ServiceFinds(job: string, group: string, target: string)
    ensures Finds(VisitService(job, group, target), ServiceFaults())
  {
    forall v, regs ensures ServiceOut(job, group, target, v, regs).error == First(ServiceFaults()(v)) {
      if v.Object? && "Tags" in v.fields && v.fields["Tags"].Array? {
        SomeRouter(v.fields["Tags"].items);
      }
    }
  }

  lemma TaskFinds(job: string, group: string, target: string)
    ensures Finds(VisitTask(job, group, target), TaskFaults())
  {
    ServiceFinds(job, group, target);
    forall v, regs ensures TaskOut(job, group, target, v, regs).error == First(TaskFaults()(v)) {
      if v.Object? {
        OverArrayFinds(VisitService(job, group, target), ServiceFaults(), v.fields, "Services", regs);
      }
    }
  }

  lemma GroupFinds(job: string, target: string)
    ensures Finds(VisitGroup(job, target), GroupFaults())
  {
    forall v, regs ensures GroupOut(job, target, v, regs).error == First(GroupFaults()(v)) {
      if v.Object? && Text(v.fields, "Name").Some? {
        var group := Text(v.fields, "Name").value;
        var services := OverArray(v.fields, "Services", VisitService(job, group, target), regs);
        ServiceFinds(job, group, target);
        TaskFinds(job, group, target);
        OverArrayFinds(VisitService(job, group, target), ServiceFaults(), v.fields, "Services", regs);
        OverArrayFinds(VisitTask(job, group, target), TaskFaults(), services.value, "Tasks", services.regs);
      }
    }
  }

  /** A job is rejected for the first thing that is wrong with it, and accepted exactly if nothing is. */
  lemma FirstFaultDecides(v: Json, target: string)
    ensures JobOut(v, target).error == First(JobFaults(v))
  {
    if v.Object? && JobId(v.fields).Some? {
      GroupFinds(JobId(v.fields).value, target);
      OverArrayFinds(VisitGroup(JobId(v.fields).value, target), GroupFaults(), v.fields, "TaskGroups", []);
    }
  }

  // ---------------------------------------------------------------------------------------------
  // Where routers point

  lemma ServiceTagText(x: string, to: string)
    ensures RouterTag(x, "service=" + to) == Str(ServicePrefix(x) + to)
    ensures Has(ServicePrefix(x), Str(ServicePrefix(x) + to)) && (ServicePrefix(x) + to)[|ServicePrefix(x)|..] == to
  {
    assert "traefik.http.routers." + x + "." + ("service=" + to) == "traefik.http.routers." + x + ".service=" + to;
  }

  /** The only place a router is pointed at after the rewrite. */
  ghost predicate OnlyTarget(tags: seq<Json>, x: string, target: string) {
    && RouterTag(x, "service=" + target) in tags
    && forall to :: RouterTag(x, "service=" + to) in tags ==> to == target
  }

  lemma SettledPointsAtTarget(tags: seq<Json>, x: string, target: string)
    requires Filter(tags, IsServiceTagOf(x)) == [Desired(x, target)]
    ensures OnlyTarget(tags, x, target)
  {
    ServiceTagText(x, target);
    FilterMember(tags, IsServiceTagOf(x), Desired(x, target));
    forall to | RouterTag(x, "service=" + to) in tags ensures to == target {
      ServiceTagText(x, to);
      FilterMember(tags, IsServiceTagOf(x), RouterTag(x, "service=" + to));
    }
  }

  /** In an accepted service that is enabled, every router is pointed at the target and nowhere else. */
  lemma RoutersPointAtTarget(job: string, group: string, target: string, v: Json, regs: seq<JobRegistration>, x: string)
    requires ServiceOut(job, group, target, v, regs).error.None? && EnabledText(v) && NamesRouter(v.fields["Tags"].items, x)
    ensures var v' := ServiceOut(job, group, target, v, regs).value;
            v'.Object? && "Tags" in v'.fields && v'.fields["Tags"].Array? && OnlyTarget(v'.fields["Tags"].items, x, target)
  {
    var tags := v.fields["Tags"].items;
    RouterNamesExactly(tags, x);
    Canonical(tags, Sorted(RouterNames(tags)), target);
    SettledPointsAtTarget(InjectTags(tags, target), x, target);
  }

  // ---------------------------------------------------------------------------------------------
  // What is returned

  predicate InList(fields: Fields, key: string, v: Json) {
    key in fields && fields[key].Array? && v in fields[key].items
  }

  /** The service belongs to the group, directly or through one of its tasks. */
  ghost predicate ServiceIn(g: Json, s: Json) {
    g.Object? && (InList(g.fields, "Services", s) || exists t :: InList(g.fields, "Tasks", t) && t.Object? && InList(t.fields, "Services", s))
  }

  /** The id of the job: `ID` if that is a text, else `Name`. */
  predicate NamesJob(v: Json, job: string) {
    v.Object? && (if "ID" in v.fields && v.fields["ID"].Str? then v.fields["ID"].text == job
                  else "Name" in v.fields && v.fields["Name"] == Str(job))
  }

  predicate Named(v: Json, name: string) {
    v.Object? && "Name" in v.fields && v.fields["Name"] == Str(name)
  }

  ghost predicate Describes(v: Json, g: Json, s: Json, r: JobRegistration) {
    && v.Object? && InList(v.fields, "TaskGroups", g) && ServiceIn(g, s) && EnabledText(s)
    && NamesJob(v, r.jobId) && Named(g, r.nomadGroup) && Named(s, r.serviceName)
  }

  lemma {:induction false} FlatMapMember<T>(e: Json -> seq<T>, items: seq<Json>, x: T)
    ensures x in FlatMap(e, items) <==> exists v :: v in items && x in e(v)
  {
    if items != [] {
      FlatMapMember(e, items[1..], x);
      if x in e(items[0]) {
        assert items[0] in items;
      } else if v :| v in items && x in e(v) {
        assert v in items[1..];
      }
      if v :| v in items[1..] && x in e(v) {
        assert v in items;
      }
    }
  }

  lemma ServiceTripleMember(job: string, group: string, services: seq<Json>, r: JobRegistration)
    ensures r in FlatMap(ServiceTriples(job, group), services) <==>
              r.jobId == job && r.nomadGroup == group && exists s :: s in services && EnabledText(s) && Named(s, r.serviceName)
  {
    FlatMapMember(ServiceTriples(job, group), services, r);
    if s :| s in services && r in ServiceTriples(job, group)(s) {
      assert EnabledText(s) && Named(s, r.serviceName);
    }
    if r.jobId == job && r.nomadGroup == group {
      if s :| s in services && EnabledText(s) && Named(s, r.serviceName) {
        assert r in ServiceTriples(job, group)(s);
      }
    }
  }

  lemma TaskTripleMember(job: string, group: string, tasks: seq<Json>, r: JobRegistration)
    ensures r in FlatMap(TaskTriples(job, group), tasks) <==>
              r.jobId == job && r.nomadGroup == group &&
              exists t, s :: t in tasks && t.Object? && InList(t.fields, "Services", s) && EnabledText(s) && Named(s, r.serviceName)
  {
    FlatMapMember(TaskTriples(job, group), tasks, r);
    if t :| t in tasks && r in TaskTriples(job, group)(t) {
      ServiceTripleMember(job, group, Items(t.fields, "Services"), r);
      var s :| s in Items(t.fields, "Services") && EnabledText(s) && Named(s, r.serviceName);
      assert InList(t.fields, "Services", s);
    }
    if r.jobId == job && r.nomadGroup == group {
      if t, s :| t in tasks && t.Object? && InList(t.fields, "Services", s) && EnabledText(s) && Named(s, r.serviceName) {
        ServiceTripleMember(job, group, Items(t.fields, "Services"), r);
        assert r in TaskTriples(job, group)(t);
      }
    }
  }

  lemma GroupTripleMember(job: string, g: Json, r: JobRegistration)
    ensures r in GroupTriples(job)(g) <==>
              r.jobId == job && Named(g, r.nomadGroup) && exists s :: ServiceIn(g, s) && EnabledText(s) && Named(s, r.serviceName)
  {
    if g.Object? && Text(g.fields, "Name").Some? {
      var group := Text(g.fields, "Name").value;
      var services, tasks := Items(g.fields, "Services"), Items(g.fields, "Tasks");
      ServiceTripleMember(job, group, services, r);
      TaskTripleMember(job, group, tasks, r);
      if r.jobId == job && r.nomadGroup == group {
        if s :| s in services && EnabledText(s) && Named(s, r.serviceName) {
          assert ServiceIn(g, s);
        }
        if t, s :| t in tasks && t.Object? && InList(t.fields, "Services", s) && EnabledText(s) && Named(s, r.serviceName) {
          assert InList(g.fields, "Tasks", t) && ServiceIn(g, s);
        }
        if s :| ServiceIn(g, s) && EnabledText(s) && Named(s, r.serviceName) {
          if !InList(g.fields, "Services", s) {
            var t :| InList(g.fields, "Tasks", t) && t.Object? && InList(t.fields, "Services", s);
            assert t in tasks;
          }
        }
      }
    }
  }

  ghost predicate Described(v: Json, r: JobRegistration) {
    exists g, s :: Describes(v, g, s, r)
  }

  lemma DescribedIsTriple(v: Json, r: JobRegistration)
    requires v.Object? && JobId(v.fields).Some?
    ensures Described(v, r) ==> r in JobTriples(v)
  {
    if g, s :| Describes(v, g, s, r) {
      var job, groups := JobId(v.fields).value, Items(v.fields, "TaskGroups");
      FlatMapMember(GroupTriples(job), groups, r);
      GroupTripleMember(job, g, r);
      assert g in groups && r in GroupTriples(job)(g);
    }
  }

  lemma IdNamesJob(v: Json)
    requires v.Object? && JobId(v.fields).Some?
    ensures NamesJob(v, JobId(v.fields).value)
  {
  }

  /** Some group of the document has the triple. */
  lemma GroupOfTriple(v: Json, r: JobRegistration) returns (g: Json)
    requires v.Object? && JobId(v.fields).Some? && r in JobTriples(v)
    ensures InList(v.fields, "TaskGroups", g) && r in GroupTriples(JobId(v.fields).value)(g)
  {
    var job, groups := JobId(v.fields).value, Items(v.fields, "TaskGroups");
    FlatMapMember(GroupTriples(job), groups, r);
    g :| g in groups && r in GroupTriples(job)(g);
  }

  lemma ServiceOfTriple(job: string, g: Json, r: JobRegistration) returns (s: Json)
    requires r in GroupTriples(job)(g)
    ensures r.jobId == job && Named(g, r.nomadGroup) && ServiceIn(g, s) && EnabledText(s) && Named(s, r.serviceName)
  {
    GroupTripleMember(job, g, r);
    s :| ServiceIn(g, s) && EnabledText(s) && Named(s, r.serviceName);
  }

  lemma TripleIsDescribed(v: Json, r: JobRegistration)
    requires v.Object? && JobId(v.fields).Some? && r in JobTriples(v)
    ensures Described(v, r)
  {
    var g := GroupOfTriple(v, r);
    var s := ServiceOfTriple(JobId(v.fields).value, g, r);
    IdNamesJob(v);
    assert Describes(v, g, s, r);
  }

  /**
   The returned registrations are exactly the (job, service, group) triples that the document describes: the job by
   its `ID` or else its `Name`, the group and the service by their `Name`, for the enabled services of the groups
   and of their tasks.
   */
  lemma ReturnsExactlyDescribed(v: Json, target: string, r: JobRegistration)
    requires JobOut(v, target).error.None?
    ensures r in JobOut(v, target).regs <==> Described(v, r)
  {
    InjectionComplete(v, target);
    AddAllDistinct([], JobTriples(v));
    DescribedIsTriple(v, r);
    if r in JobTriples(v) {
      TripleIsDescribed(v, r);
    }
  }
}
