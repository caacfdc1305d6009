/**
 Rewriting the Traefik tags of one service: every router of the service gets exactly one
 `.service=` tag, and it points at nscale.
 */
module RouterTags {
  import opened Prelude

  /** A parsed JSON document. */
  datatype Json =
    | Null
    | Bool(b: bool)
    | Number(n: int)
    | Str(text: string)
    | Array(items: seq<Json>)
    | Object(fields: map<string, Json>)

  const TRAEFIK_ENABLE_TAG := "traefik.enable=true"
  const ROUTER_PREFIX := "traefik.http.routers."

  function ServicePrefix(router: string): string {
    ROUTER_PREFIX + router + ".service="
  }

  function Desired(router: string, target: string): Json {
    Str(ServicePrefix(router) + target)
  }

  /** The position of the first dot, or the length. */
  function FirstDot(s: string): (n: nat)
    ensures n <= |s| && (n < |s| ==> s[n] == '.') && '.' !in s[..n]
  {
    if s == "" || s[0] == '.' then 0
    else
      var n := 1 + FirstDot(s[1..]);
      assert s[..n] == [s[0]] + s[1..][..n - 1];
      n
  }

  /** The router a tag is about: what stands between the prefix and the next dot. */
  function RouterOf(tag: Json): (r: Option<string>)
    ensures r.Some? ==> '.' !in r.value
  {
    if tag.Str? && ROUTER_PREFIX <= tag.text then
      var rest := tag.text[|ROUTER_PREFIX|..];
      if FirstDot(rest) < |rest| then Some(rest[..FirstDot(rest)]) else None
    else None
  }

  function RouterNames(tags: seq<Json>): set<string> {
    set t | t in tags && RouterOf(t).Some? :: RouterOf(t).value
  }

  predicate Has(prefix: string, tag: Json) {
    tag.Str? && prefix <= tag.text
  }

  function Filter<T>(s: seq<T>, p: T -> bool): seq<T> {
    if s == [] then []
    else if p(s[0]) then [s[0]] + Filter(s[1..], p) else Filter(s[1..], p)
  }

  /** The tags without those that start with `prefix`. */
  function Dropped(tags: seq<Json>, prefix: string): seq<Json> {
    Filter(tags, t => !Has(prefix, t))
  }

  /** The first tag with the prefix becomes `desired`, later ones go; without any, `desired` is appended. */
  function Settle(tags: seq<Json>, prefix: string, desired: Json): seq<Json> {
    if tags == [] then [desired]
    else if Has(prefix, tags[0]) then [desired] + Dropped(tags[1..], prefix)
    else [tags[0]] + Settle(tags[1..], prefix, desired)
  }

  function Upsert(tags: seq<Json>, router: string, target: string): seq<Json> {
    Settle(tags, ServicePrefix(router), Desired(router, target))
  }

  function UpsertAll(tags: seq<Json>, routers: seq<string>, target: string): seq<Json> {
    if routers == [] then tags
    else Upsert(UpsertAll(tags, routers[..|routers| - 1], target), routers[|routers| - 1], target)
  }

  predicate Enabled(tags: seq<Json>) {
    Str(TRAEFIK_ENABLE_TAG) in tags
  }

  // ---------------------------------------------------------------------------------------------
  // Which tags belong to which router

  /** A tag that starts with the `.service=` prefix of a router is a tag of that router and of no other. */
  lemma ServiceTagRouter(tag: Json, router: string)
    requires '.' !in router && Has(ServicePrefix(router), tag)
    ensures RouterOf(tag) == Some(router)
  {
    var rest := tag.text[|ROUTER_PREFIX|..];
    assert ServicePrefix(router) == ROUTER_PREFIX + (router + ".service=");
    assert ROUTER_PREFIX <= tag.text;
    forall k | 0 <= k < |router| + 1 ensures rest[k] == (router + ".service=")[k] {
      assert rest[k] == tag.text[|ROUTER_PREFIX| + k] == ServicePrefix(router)[|ROUTER_PREFIX| + k];
    }
    assert rest[|router|] == '.';
    assert rest[..|router|] == router;
  }

  lemma DesiredRouter(router: string, target: string)
    requires '.' !in router
    ensures Has(ServicePrefix(router), Desired(router, target)) && RouterOf(Desired(router, target)) == Some(router)
  {
    ServiceTagRouter(Desired(router, target), router);
  }

  ghost function IsServiceTagOf(router: string): Json -> bool {
    (t: Json) => Has(ServicePrefix(router), t)
  }

  /** A tag of the form `traefik.http.routers.X.service=...`. */
  predicate IsServiceTag(t: Json) {
    RouterOf(t).Some? && Has(ServicePrefix(RouterOf(t).value), t)
  }

  ghost function OtherTag(): Json -> bool {
    (t: Json) => !IsServiceTag(t)
  }

  // ---------------------------------------------------------------------------------------------
  // One upsert

  lemma {:induction false} FilterMember<T>(s: seq<T>, p: T -> bool, x: T)
    ensures x in Filter(s, p) <==> x in s && p(x)
  {
    if s != [] {
      FilterMember(s[1..], p, x);
      assert s == [s[0]] + s[1..];
    }
  }

  lemma {:induction false} FilterFilter<T>(s: seq<T>, p: T -> bool, q: T -> bool)
    requires forall x :: x in s && q(x) ==> p(x)
    ensures Filter(Filter(s, p), q) == Filter(s, q)
  {
    if s != [] {
      FilterFilter(s[1..], p, q);
      if p(s[0]) {
        assert Filter(s, p)[0] == s[0] && Filter(s, p)[1..] == Filter(s[1..], p);
      }
    }
  }

  lemma {:induction false} FilterNone<T>(s: seq<T>, p: T -> bool)
    requires forall x :: x in s ==> !p(x)
    ensures Filter(s, p) == []
  {
    if s != [] {
      FilterNone(s[1..], p);
    }
  }

  lemma {:induction false} FilterAll<T>(s: seq<T>, p: T -> bool)
    requires forall x :: x in s ==> p(x)
    ensures Filter(s, p) == s
  {
    if s != [] {
      FilterAll(s[1..], p);
    }
  }

  lemma {:induction false} FilterSplit<T>(s: seq<T>, n: nat, p: T -> bool)
    requires n <= |s|
    ensures Filter(s, p) == Filter(s[..n], p) + Filter(s[n..], p)
  {
    if n > 0 {
      FilterSplit(s[1..], n - 1, p);
      assert s[..n][1..] == s[1..][..n - 1] && s[n..] == s[1..][n - 1..];
    } else {
      assert s[..0] == [] && s[0..] == s;
    }
  }

  /** Tags that an upsert is not about keep their order and values. */
  lemma {:induction false} SettleKeeps(tags: seq<Json>, prefix: string, desired: Json, q: Json -> bool)
    requires !q(desired) && forall t :: t in tags && Has(prefix, t) ==> !q(t)
    ensures Filter(Settle(tags, prefix, desired), q) == Filter(tags, q)
  {
    if tags != [] {
      var settled := Settle(tags, prefix, desired);
      if Has(prefix, tags[0]) {
        assert settled[1..] == Dropped(tags[1..], prefix);
        FilterFilter(tags[1..], (t: Json) => !Has(prefix, t), q);
      } else {
        assert settled[1..] == Settle(tags[1..], prefix, desired);
        SettleKeeps(tags[1..], prefix, desired, q);
      }
    }
  }

  /** After an upsert exactly one tag has the prefix, and it is the desired one. */
  lemma {:induction false} SettleOne(tags: seq<Json>, prefix: string, desired: Json)
    requires Has(prefix, desired)
    ensures Filter(Settle(tags, prefix, desired), (t: Json) => Has(prefix, t)) == [desired]
  {
    var p := (t: Json) => Has(prefix, t);
    var settled := Settle(tags, prefix, desired);
    if tags == [] || Has(prefix, tags[0]) {
      assert settled[0] == desired;
      var rest := settled[1..];
      forall x | x in rest ensures !p(x) {
        if tags != [] {
          assert rest == Dropped(tags[1..], prefix);
          FilterMember(tags[1..], (t: Json) => !Has(prefix, t), x);
        }
      }
      FilterNone(rest, p);
    } else {
      assert settled[1..] == Settle(tags[1..], prefix, desired);
      SettleOne(tags[1..], prefix, desired);
    }
  }

  lemma {:induction false} SettleMember(tags: seq<Json>, prefix: string, desired: Json, x: Json)
    ensures x in Settle(tags, prefix, desired) <==> x == desired || (x in tags && !Has(prefix, x))
  {
    if tags != [] {
      assert tags == [tags[0]] + tags[1..];
      if Has(prefix, tags[0]) {
        FilterMember(tags[1..], (t: Json) => !Has(prefix, t), x);
      } else {
        SettleMember(tags[1..], prefix, desired, x);
      }
    }
  }

  /** A settled list stays as it is. */
  lemma {:induction false} SettleSettled(tags: seq<Json>, prefix: string, desired: Json)
    requires Filter(tags, (t: Json) => Has(prefix, t)) == [desired]
    ensures Settle(tags, prefix, desired) == tags
  {
    var p := (t: Json) => Has(prefix, t);
    if p(tags[0]) {
      assert Filter(tags, p)[1..] == Filter(tags[1..], p) == [];
      forall x | x in tags[1..] ensures !Has(prefix, x) {
        FilterMember(tags[1..], p, x);
      }
      FilterAll(tags[1..], (t: Json) => !Has(prefix, t));
    } else {
      SettleSettled(tags[1..], prefix, desired);
    }
  }

  // ---------------------------------------------------------------------------------------------
  // All upserts of a service

  /** The names of a service as the code iterates over them: each router once. */
  ghost predicate Lists(routers: seq<string>, tags: seq<Json>) {
    forall x :: x in routers <==> x in RouterNames(tags)
  }

  lemma NamesHaveNoDots(tags: seq<Json>, router: string)
    requires router in RouterNames(tags)
    ensures '.' !in router
  {
  }

  lemma UpsertNames(tags: seq<Json>, router: string, target: string)
    requires router in RouterNames(tags)
    ensures RouterNames(Upsert(tags, router, target)) == RouterNames(tags)
  {
    NamesHaveNoDots(tags, router);
    DesiredRouter(router, target);
    var tags' := Upsert(tags, router, target);
    SettleMember(tags, ServicePrefix(router), Desired(router, target), Desired(router, target));
    forall x | x in RouterNames(tags') ensures x in RouterNames(tags) {
      var t :| t in tags' && RouterOf(t) == Some(x);
      SettleMember(tags, ServicePrefix(router), Desired(router, target), t);
    }
    forall x | x in RouterNames(tags) ensures x in RouterNames(tags') {
      var t :| t in tags && RouterOf(t) == Some(x);
      SettleMember(tags, ServicePrefix(router), Desired(router, target), t);
      if Has(ServicePrefix(router), t) {
        ServiceTagRouter(t, router);
      }
    }
  }

  /** An upsert for one router leaves the `.service=` tags of every other router alone. */
  lemma UpsertOthers(tags: seq<Json>, router: string, target: string, other: string)
    requires '.' !in router && '.' !in other && other != router
    ensures Filter(Upsert(tags, router, target), IsServiceTagOf(other)) == Filter(tags, IsServiceTagOf(other))
  {
    DesiredRouter(router, target);
    forall t | Has(ServicePrefix(router), t) ensures !IsServiceTagOf(other)(t) {
      ServiceTagRouter(t, router);
      if Has(ServicePrefix(other), t) {
        ServiceTagRouter(t, other);
      }
    }
    SettleKeeps(tags, ServicePrefix(router), Desired(router, target), IsServiceTagOf(other));
  }

  lemma UpsertOwn(tags: seq<Json>, router: string, target: string)
    requires '.' !in router
    ensures Filter(Upsert(tags, router, target), IsServiceTagOf(router)) == [Desired(router, target)]
  {
    DesiredRouter(router, target);
    SettleOne(tags, ServicePrefix(router), Desired(router, target));
    FilterSame(Upsert(tags, router, target), IsServiceTagOf(router), (t: Json) => Has(ServicePrefix(router), t));
  }

  lemma {:induction false} FilterSame<T>(s: seq<T>, p: T -> bool, q: T -> bool)
    requires forall x :: x in s ==> p(x) == q(x)
    ensures Filter(s, p) == Filter(s, q)
  {
    if s != [] {
      FilterSame(s[1..], p, q);
    }
  }

  lemma {:induction false} UpsertAllNames(tags: seq<Json>, routers: seq<string>, target: string)
    requires forall x :: x in routers ==> x in RouterNames(tags)
    ensures RouterNames(UpsertAll(tags, routers, target)) == RouterNames(tags)
  {
    if routers != [] {
      UpsertAllNames(tags, routers[..|routers| - 1], target);
      UpsertNames(UpsertAll(tags, routers[..|routers| - 1], target), routers[|routers| - 1], target);
    }
  }

  lemma {:induction false} UpsertAllCanonical(tags: seq<Json>, routers: seq<string>, target: string, x: string)
    requires forall r :: r in routers ==> '.' !in r
    requires x in routers
    ensures Filter(UpsertAll(tags, routers, target), IsServiceTagOf(x)) == [Desired(x, target)]
  {
    var before, last := routers[..|routers| - 1], routers[|routers| - 1];
    assert routers == before + [last];
    if last == x {
      UpsertOwn(UpsertAll(tags, before, target), x, target);
    } else {
      UpsertAllCanonical(tags, before, target, x);
      UpsertOthers(UpsertAll(tags, before, target), last, target, x);
    }
  }

  lemma {:induction false} UpsertAllKeeps(tags: seq<Json>, routers: seq<string>, target: string)
    requires forall r :: r in routers ==> '.' !in r
    ensures Filter(UpsertAll(tags, routers, target), OtherTag()) == Filter(tags, OtherTag())
  {
    if routers != [] {
      var before, last := routers[..|routers| - 1], routers[|routers| - 1];
      UpsertAllKeeps(tags, before, target);
      DesiredRouter(last, target);
      forall t | Has(ServicePrefix(last), t) ensures IsServiceTag(t) {
        ServiceTagRouter(t, last);
      }
      SettleKeeps(UpsertAll(tags, before, target), ServicePrefix(last), Desired(last, target), OtherTag());
    }
  }

  lemma {:induction false} UpsertAllSettled(tags: seq<Json>, routers: seq<string>, target: string)
    requires forall x :: x in routers ==> Filter(tags, IsServiceTagOf(x)) == [Desired(x, target)]
    ensures UpsertAll(tags, routers, target) == tags
  {
    if routers != [] {
      var last := routers[|routers| - 1];
      UpsertAllSettled(tags, routers[..|routers| - 1], target);
      FilterSame(tags, IsServiceTagOf(last), (t: Json) => Has(ServicePrefix(last), t));
      assert last in routers;
      SettleSettled(tags, ServicePrefix(last), Desired(last, target));
    }
  }

  lemma EnabledKept(tags: seq<Json>, tags': seq<Json>)
    requires Filter(tags', OtherTag()) == Filter(tags, OtherTag())
    ensures Enabled(tags') <==> Enabled(tags)
  {
    var enable := Str(TRAEFIK_ENABLE_TAG);
    assert ROUTER_PREFIX[8] == 'h' && TRAEFIK_ENABLE_TAG[8] == 'e';
    assert OtherTag()(enable);
    FilterMember(tags', OtherTag(), enable);
    FilterMember(tags, OtherTag(), enable);
  }

  /**
   Canonical: after the rewrite each router of the service has exactly one `.service=` tag, the target; the
   routers are the same; all other tags keep their order and values.
   */
  lemma Canonical(tags: seq<Json>, routers: seq<string>, target: string)
    requires Lists(routers, tags)
    ensures var tags' := UpsertAll(tags, routers, target);
            && RouterNames(tags') == RouterNames(tags)
            && (forall x :: x in RouterNames(tags) ==> Filter(tags', IsServiceTagOf(x)) == [Desired(x, target)])
            && Filter(tags', OtherTag()) == Filter(tags, OtherTag())
            && (Enabled(tags') <==> Enabled(tags))
  {
    var tags' := UpsertAll(tags, routers, target);
    forall r | r in routers ensures '.' !in r {
      NamesHaveNoDots(tags, r);
    }
    forall x | x in routers ensures Filter(tags', IsServiceTagOf(x)) == [Desired(x, target)] {
      UpsertAllCanonical(tags, routers, target, x);
    }
    UpsertAllNames(tags, routers, target);
    UpsertAllKeeps(tags, routers, target);
    EnabledKept(tags, tags');
  }

  /** Idempotent: rewriting rewritten tags changes nothing, in whatever order the routers come. */
  lemma Idempotent(tags: seq<Json>, routers: seq<string>, routers': seq<string>, target: string)
    requires Lists(routers, tags) && Lists(routers', UpsertAll(tags, routers, target))
    ensures UpsertAll(UpsertAll(tags, routers, target), routers', target) == UpsertAll(tags, routers, target)
  {
    Canonical(tags, routers, target);
    UpsertAllSettled(UpsertAll(tags, routers, target), routers', target);
  }
}
