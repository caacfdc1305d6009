/**
 The scale-down lock over all timed runs of any number of replicas.

 Times are milliseconds on the clock of the Redis server.  A session is one successful acquisition: first
 its tick runs, then the release that the dropped guard spawned is still on its way.  Replicas are told
 apart by their instance ids.
 */
module ScaleDownLock {
  import opened Prelude

  /** The key in Redis: who set it, and when it expires. */
  datatype Lease = Lease(holder: string, expires: nat)

  datatype Session = Session(replica: string, since: nat, inTick: bool)

  datatype World = World(now: nat, lock: Option<Lease>, sessions: seq<Session>)

  datatype Action =
    | Advance(dt: nat)
    | TryAcquire(replica: string, replyLost: bool)
    | FinishTick(session: nat)
    | Release(session: nat, requestLost: bool)
    | CrashReplica(replica: string)

  /** The lock outlives the interval between two ticks by five seconds. */
  function LockTtl(interval: nat): nat {
    interval + 5000
  }

  const INITIAL := World(0, None, [])

  predicate Held(w: World) {
    w.lock.Some? && w.now < w.lock.value.expires
  }

  predicate Ticking(w: World, replica: string) {
    exists k :: 0 <= k < |w.sessions| && w.sessions[k].replica == replica && w.sessions[k].inTick
  }

  /** SET NX PX.  A lost reply leaves the key set, but the replica reports an error and does not tick. */
  function AcquireStep(w: World, ttl: nat, replica: string, replyLost: bool): World {
    if Held(w) || Ticking(w, replica) then w
    else
      var w' := w.(lock := Some(Lease(replica, w.now + ttl)));
      if replyLost then w' else w'.(sessions := w.sessions + [Session(replica, w.now, true)])
  }

  /** Compare-and-delete with the instance id as the token. */
  function Unlock(w: World, replica: string): Option<Lease> {
    if Held(w) && w.lock.value.holder == replica then None else w.lock
  }

  function Without(sessions: seq<Session>, replica: string): seq<Session> {
    if sessions == [] then []
    else if sessions[0].replica == replica then Without(sessions[1..], replica)
    else [sessions[0]] + Without(sessions[1..], replica)
  }

  function Next(w: World, ttl: nat, a: Action): World {
    match a
    case Advance(dt) => w.(now := w.now + dt)
    case TryAcquire(replica, replyLost) => AcquireStep(w, ttl, replica, replyLost)
    case FinishTick(k) =>
      if k < |w.sessions| then w.(sessions := w.sessions[k := w.sessions[k].(inTick := false)]) else w
    case Release(k, requestLost) =>
      if k >= |w.sessions| || w.sessions[k].inTick then w
      else
        World(w.now, if requestLost then w.lock else Unlock(w, w.sessions[k].replica), w.sessions[..k] + w.sessions[k + 1..])
    case CrashReplica(replica) => w.(sessions := Without(w.sessions, replica))
  }

  function Run(w: World, ttl: nat, schedule: seq<Action>): World {
    if schedule == [] then w else Next(Run(w, ttl, schedule[..|schedule| - 1]), ttl, schedule[|schedule| - 1])
  }

  /** `release_lock` takes away no lock but the caller's own. */
  lemma ReleasesOwnLock(w: World, ttl: nat, a: Action)
    requires w.lock.Some? && Next(w, ttl, a).lock == None
    ensures a.Release? && a.session < |w.sessions| && w.sessions[a.session].replica == w.lock.value.holder
  {
  }

  /** Along the schedule the holder of the lock does not release it. */
  ghost predicate NotReleased(w: World, ttl: nat, schedule: seq<Action>, holder: string) {
    schedule == [] ||
    (var before, a := Run(w, ttl, schedule[..|schedule| - 1]), schedule[|schedule| - 1];
     NotReleased(w, ttl, schedule[..|schedule| - 1], holder) &&
     !(a.Release? && a.session < |before.sessions| && before.sessions[a.session].replica == holder))
  }

  lemma NextLease(w: World, ttl: nat, a: Action)
    requires w.lock.Some? && Next(w, ttl, a).now < w.lock.value.expires
    requires !(a.Release? && a.session < |w.sessions| && w.sessions[a.session].replica == w.lock.value.holder)
    ensures Next(w, ttl, a).lock == w.lock && w.now <= Next(w, ttl, a).now
  {
    if Next(w, ttl, a).lock == None {
      ReleasesOwnLock(w, ttl, a);
    }
  }

  lemma {:induction false} TimePasses(w: World, ttl: nat, schedule: seq<Action>)
    ensures w.now <= Run(w, ttl, schedule).now
  {
    if schedule != [] {
      TimePasses(w, ttl, schedule[..|schedule| - 1]);
    }
  }

  /**
   Nobody takes a lease away: through acquisitions, ticks, crashes and releases of any other replicas it stays
   in place until it expires, unless its holder releases it.
   */
  lemma {:induction false} LeaseStays(w: World, ttl: nat, schedule: seq<Action>)
    requires w.lock.Some? && Run(w, ttl, schedule).now < w.lock.value.expires
    requires NotReleased(w, ttl, schedule, w.lock.value.holder)
    ensures Run(w, ttl, schedule).lock == w.lock
  {
    if schedule != [] {
      var before, a := schedule[..|schedule| - 1], schedule[|schedule| - 1];
      TimePasses(Run(w, ttl, before), ttl, [a]);
      assert [a][..0] == [] && Run(Run(w, ttl, before), ttl, []) == Run(w, ttl, before);
      LeaseStays(w, ttl, before);
      NextLease(Run(w, ttl, before), ttl, a);
    }
  }

  /** Can a replica that is not inside a tick get the lock for one right now? */
  ghost predicate CanAcquire(w: World, ttl: nat, replica: string) {
    Next(w, ttl, TryAcquire(replica, false)).sessions == w.sessions + [Session(replica, w.now, true)]
  }

  /**
   An acquisition whose reply was lost gives its replica no tick, and all of them none until exactly the TTL is over.
   */
  lemma LostReplyHoldsUntilTtl(w: World, ttl: nat, a: string, dt: nat, b: string)
    requires CanAcquire(w, ttl, a) && !Ticking(w, b)
    ensures var w1 := Next(w, ttl, TryAcquire(a, true)); var w2 := Next(w1, ttl, Advance(dt));
            && w1.sessions == w.sessions
            && (CanAcquire(w2, ttl, b) <==> dt >= ttl)
  {
    assert |w.sessions + [Session(a, w.now, true)]| == |w.sessions| + 1;
    var w2 := Next(Next(w, ttl, TryAcquire(a, true)), ttl, Advance(dt));
    assert |w2.sessions + [Session(b, w2.now, true)]| == |w2.sessions| + 1;
  }

  /** Every tick and every release on its way is within the TTL of its acquisition. */
  ghost predicate Timely(w: World, ttl: nat) {
    forall k :: 0 <= k < |w.sessions| ==> w.now < w.sessions[k].since + ttl
  }

  ghost predicate AlwaysTimely(w: World, ttl: nat, schedule: seq<Action>) {
    Timely(Run(w, ttl, schedule), ttl) && (schedule == [] || AlwaysTimely(w, ttl, schedule[..|schedule| - 1]))
  }

  /** There is at most one session, and it is the one that holds the lock. */
  ghost predicate Exclusive(w: World, ttl: nat) {
    && |w.sessions| <= 1
    && (|w.sessions| == 1 ==> w.lock == Some(Lease(w.sessions[0].replica, w.sessions[0].since + ttl)))
  }

  lemma NextExclusive(w: World, ttl: nat, a: Action)
    requires Exclusive(w, ttl) && Timely(w, ttl)
    ensures Exclusive(Next(w, ttl, a), ttl)
  {
    if a.CrashReplica? && |w.sessions| == 1 {
      assert Without(w.sessions[1..], a.replica) == [];
    }
  }

  lemma {:induction false} ExclusiveRun(ttl: nat, schedule: seq<Action>)
    requires AlwaysTimely(INITIAL, ttl, schedule)
    ensures Exclusive(Run(INITIAL, ttl, schedule), ttl)
  {
    if schedule != [] {
      var before := schedule[..|schedule| - 1];
      ExclusiveRun(ttl, before);
      assert Timely(Run(INITIAL, ttl, before), ttl);
      NextExclusive(Run(INITIAL, ttl, before), ttl, schedule[|schedule| - 1]);
    }
  }

  ghost function InTick(): Session -> bool {
    (s: Session) => s.inTick
  }

  /**
   If every tick and its detached release finish within the TTL, at most one replica is inside a tick at any
   moment of any run.
   */
  lemma OneTickAtATime(interval: nat, schedule: seq<Action>)
    requires AlwaysTimely(INITIAL, LockTtl(interval), schedule)
    ensures Count(Run(INITIAL, LockTtl(interval), schedule).sessions, InTick()) <= 1
  {
    ExclusiveRun(LockTtl(interval), schedule);
    var sessions := Run(INITIAL, LockTtl(interval), schedule).sessions;
    if |sessions| == 1 {
      assert sessions[..0] == [];
    }
  }

  /** Every tick ends within `tick`, and every release that is on its way arrives within `release`, of its acquisition. */
  ghost predicate Bounded(w: World, tick: nat, release: nat) {
    forall k :: 0 <= k < |w.sessions| ==> w.now < w.sessions[k].since + if w.sessions[k].inTick then tick else release
  }

  ghost predicate AlwaysBounded(interval: nat, tick: nat, release: nat, schedule: seq<Action>) {
    Bounded(Run(INITIAL, LockTtl(interval), schedule), tick, release) &&
    (schedule == [] || AlwaysBounded(interval, tick, release, schedule[..|schedule| - 1]))
  }

  /** At the end of the schedule at most one replica is inside a tick. */
  ghost predicate OneTick(interval: nat, schedule: seq<Action>) {
    Count(Run(INITIAL, LockTtl(interval), schedule).sessions, InTick()) <= 1
  }

  lemma {:induction false} BoundedIsTimely(interval: nat, tick: nat, release: nat, schedule: seq<Action>)
    requires AlwaysBounded(interval, tick, release, schedule) && tick <= LockTtl(interval) && release <= LockTtl(interval)
    ensures AlwaysTimely(INITIAL, LockTtl(interval), schedule)
  {
    if schedule != [] {
      BoundedIsTimely(interval, tick, release, schedule[..|schedule| - 1]);
    }
  }

  /** One more action of a bounded run. */
  lemma Extend(interval: nat, tick: nat, release: nat, schedule: seq<Action>, a: Action, w: World, w': World)
    requires AlwaysBounded(interval, tick, release, schedule) && Run(INITIAL, LockTtl(interval), schedule) == w
    requires Next(w, LockTtl(interval), a) == w' && Bounded(w', tick, release)
    ensures AlwaysBounded(interval, tick, release, schedule + [a]) && Run(INITIAL, LockTtl(interval), schedule + [a]) == w'
  {
    assert (schedule + [a])[..|schedule|] == schedule;
  }

  /** A tick that outlives the TTL lets a second replica in. */
  lemma LongTickOverlaps(interval: nat, tick: nat, release: nat, a: string, b: string) returns (s: seq<Action>)
    requires a != b && tick > LockTtl(interval)
    ensures AlwaysBounded(interval, tick, release, s)
    ensures Run(INITIAL, LockTtl(interval), s).sessions == [Session(a, 0, true), Session(b, LockTtl(interval), true)]
  {
    var ttl := LockTtl(interval);
    var w1 := World(0, Some(Lease(a, ttl)), [Session(a, 0, true)]);
    var w2 := World(ttl, Some(Lease(a, ttl)), [Session(a, 0, true)]);
    var w3 := World(ttl, Some(Lease(b, ttl + ttl)), [Session(a, 0, true), Session(b, ttl, true)]);
    Extend(interval, tick, release, [], TryAcquire(a, false), INITIAL, w1);
    Extend(interval, tick, release, [] + [TryAcquire(a, false)], Advance(ttl), w1, w2);
    Extend(interval, tick, release, [] + [TryAcquire(a, false)] + [Advance(ttl)], TryAcquire(b, false), w2, w3);
    s := [] + [TryAcquire(a, false)] + [Advance(ttl)] + [TryAcquire(b, false)];
  }

  /** A tick has ended at once, and its release is still on its way when the TTL is over. */
  lemma ReleaseOnItsWay(interval: nat, tick: nat, release: nat, a: string) returns (s: seq<Action>)
    requires tick >= 1 && release > LockTtl(interval)
    ensures AlwaysBounded(interval, tick, release, s)
    ensures var ttl := LockTtl(interval); Run(INITIAL, ttl, s) == World(ttl, Some(Lease(a, ttl)), [Session(a, 0, false)])
  {
    var ttl := LockTtl(interval);
    var w1 := World(0, Some(Lease(a, ttl)), [Session(a, 0, true)]);
    var w2 := World(0, Some(Lease(a, ttl)), [Session(a, 0, false)]);
    s := [];
    Extend(interval, tick, release, s, TryAcquire(a, false), INITIAL, w1);
    s := s + [TryAcquire(a, false)];
    Extend(interval, tick, release, s, FinishTick(0), w1, w2);
    s := s + [FinishTick(0)];
    Extend(interval, tick, release, s, Advance(ttl), w2, w2.(now := ttl));
    s := s + [Advance(ttl)];
  }

  /**
   Timely ticks are not enough: the token names the instance, not the acquisition, so a release that arrives
   after the TTL deletes the lock of the same replica's next tick and lets a second replica in beside it.
   */
  lemma LateReleaseOverlaps(interval: nat, tick: nat, release: nat, a: string, b: string) returns (s: seq<Action>)
    requires a != b && tick >= 1 && release > LockTtl(interval)
    ensures AlwaysBounded(interval, tick, release, s)
    ensures Run(INITIAL, LockTtl(interval), s).sessions == [Session(a, LockTtl(interval), true), Session(b, LockTtl(interval), true)]
  {
    var ttl := LockTtl(interval);
    var first, second := Session(a, 0, false), Session(a, ttl, true);
    s := ReleaseOnItsWay(interval, tick, release, a);
    var w1 := World(ttl, Some(Lease(a, ttl + ttl)), [first, second]);
    var w2 := World(ttl, None, [second]);
    var w3 := World(ttl, Some(Lease(b, ttl + ttl)), [second, Session(b, ttl, true)]);
    Extend(interval, tick, release, s, TryAcquire(a, false), Run(INITIAL, ttl, s), w1);
    s := s + [TryAcquire(a, false)];
    Extend(interval, tick, release, s, Release(0, false), w1, w2);
    s := s + [Release(0, false)];
    Extend(interval, tick, release, s, TryAcquire(b, false), w2, w3);
    s := s + [TryAcquire(b, false)];
  }

  lemma TwoInTick(a: Session, b: Session)
    requires a.inTick && b.inTick
    ensures Count([a, b], InTick()) == 2
  {
    CountPush([], a, InTick());
    CountPush([a], b, InTick());
    assert [] + [a] == [a] && [a] + [b] == [a, b];
  }

  /**
   Exactly the TTL: when ticks are bounded by `tick` and releases by `release`, no run of any number of replicas
   ever has two of them inside a tick if and only if neither bound exceeds the TTL.
   */
  lemma ExclusiveIffWithinTtl(interval: nat, tick: nat, release: nat)
    requires tick >= 1
    ensures (forall schedule :: AlwaysBounded(interval, tick, release, schedule) ==> OneTick(interval, schedule))
       <==> tick <= interval + 5000 && release <= interval + 5000
  {
    if tick <= LockTtl(interval) && release <= LockTtl(interval) {
      forall schedule | AlwaysBounded(interval, tick, release, schedule) ensures OneTick(interval, schedule) {
        BoundedIsTimely(interval, tick, release, schedule);
        OneTickAtATime(interval, schedule);
      }
    } else if tick > LockTtl(interval) {
      var s := LongTickOverlaps(interval, tick, release, "a", "b");
      TwoInTick(Session("a", 0, true), Session("b", LockTtl(interval), true));
      assert !OneTick(interval, s);
    } else {
      var s := LateReleaseOverlaps(interval, tick, release, "a", "b");
      TwoInTick(Session("a", LockTtl(interval), true), Session("b", LockTtl(interval), true));
      assert !OneTick(interval, s);
    }
  }
}
