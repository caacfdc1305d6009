/**
 The missing-job counter that all proxies and scalers share, for one job with auto-deregistration on, and the
 registry that the cleanup works on.

 A signal is one answer of Nomad that the job does not exist: it increments the counter in Redis and, if
 the count has reached the threshold, deregisters the job and clears the counter.  A success clears the
 counter.  Signals and successes of all replicas interleave at these steps, and every command can be lost
 or have its reply lost.  A deregistration is a call of `RegistryHistory`, whose commands interleave with
 everything else, in particular with the lookups, syncs, listings, registrations and deregistrations of
 other callers.

 There is one counter: the activity key under which a scaler counts is taken to be the job id of the
 registration under which the proxies count.
 */
module MissingJobs {
  import opened Prelude
  import opened Jobs
  import opened RegistryAgreement
  import opened RegistryRecovery
  import opened RegistryRemoval
  import History = RegistryHistory

  const U32_MAX: nat := 0xFFFF_FFFF

  /** `Deregistering`: waits for a call of the registry to end. */
  datatype Actor =
    | Signalled
    | Counted(count: nat)
    | Cleaning
    | Deregistering(pid: nat)
    | Clearing
    | Finished

  datatype Event = Incremented(actor: nat, count: nat) | Cleared | CleanupStarted(actor: nat, count: nat)

  /** `counter` is the Redis key, 0 when it does not exist; `log` is what has happened to it, oldest first. */
  datatype World = World(job: string, threshold: nat, counter: nat, registry: History.World, actors: seq<Actor>, log: seq<Event>)

  datatype Action = Signal | Succeed | InRegistry(action: History.Action) | Step(actor: nat, delivery: Delivery)

  function Initial(job: string, threshold: nat, registry: History.World): World {
    World(job, threshold, 0, registry, [], [])
  }

  function Goto(w: World, i: nat, a: Actor): World
    requires i < |w.actors|
  {
    w.(actors := w.actors[i := a])
  }

  /** INCR; a count beyond u32 is an error like a lost reply. */
  function IncrementStep(w: World, i: nat, delivery: Delivery): World
    requires i < |w.actors|
  {
    if delivery == RequestLost then Goto(w, i, Finished)
    else
      var count := w.counter + 1;
      var next := if delivery == Delivered && count <= U32_MAX then Counted(count) else Finished;
      Goto(w.(counter := count, log := w.log + [Incremented(i, count)]), i, next)
  }

  function DecideStep(w: World, i: nat, count: nat): World
    requires i < |w.actors|
  {
    if count >= w.threshold then Goto(w.(log := w.log + [CleanupStarted(i, count)]), i, Cleaning)
    else Goto(w, i, Finished)
  }

  /** The deregistration begins. */
  function CleanStep(w: World, i: nat): World
    requires i < |w.actors|
  {
    Goto(w.(registry := History.Next(w.registry, History.Begin(History.Deregister(w.job)))), i, Deregistering(|w.registry.procs|))
  }

  /** It has ended; when it has failed the counter is left alone. */
  function AwaitStep(w: World, i: nat, pid: nat, delivery: Delivery): World
    requires i < |w.actors|
  {
    if pid < |w.registry.procs| && w.registry.procs[pid] != History.Stopped then w
    else Goto(w, i, if delivery == Delivered then Clearing else Finished)
  }

  /** DEL; a failure is only logged. */
  function ClearStep(w: World, i: nat, delivery: Delivery): World
    requires i < |w.actors|
  {
    if delivery == RequestLost then Goto(w, i, Finished)
    else Goto(w.(counter := 0, log := w.log + [Cleared]), i, Finished)
  }

  function Next(w: World, a: Action): World {
    match a
    case Signal => w.(actors := w.actors + [Signalled])
    case Succeed => w.(actors := w.actors + [Clearing])
    case InRegistry(action) => w.(registry := History.Next(w.registry, action))
    case Step(i, delivery) =>
      if i >= |w.actors| then w
      else
        match w.actors[i]
        case Signalled => IncrementStep(w, i, delivery)
        case Counted(count) => DecideStep(w, i, count)
        case Cleaning => CleanStep(w, i)
        case Deregistering(pid) => AwaitStep(w, i, pid, delivery)
        case Clearing => ClearStep(w, i, delivery)
        case Finished => w
  }

  function Run(w: World, schedule: seq<Action>): World {
    if schedule == [] then w else Next(Run(w, schedule[..|schedule| - 1]), schedule[|schedule| - 1])
  }

  /** The increments since the counter was last cleared. */
  function SinceClear(log: seq<Event>): nat {
    if log == [] then 0
    else
      match log[|log| - 1]
      case Cleared => 0
      case Incremented(_, _) => SinceClear(log[..|log| - 1]) + 1
      case CleanupStarted(_, _) => SinceClear(log[..|log| - 1])
  }

  /** Position p of the history is an increment by `actor`, the `count`-th since the last clear before it. */
  ghost predicate Ranked(log: seq<Event>, p: nat, actor: nat, count: nat) {
    p < |log| && log[p] == Incremented(actor, count) && SinceClear(log[..p + 1]) == count
  }

  ghost predicate HasRank(log: seq<Event>, actor: nat, count: nat) {
    exists p :: Ranked(log, p, actor, count)
  }

  /** An increment reports its rank; a cleanup follows an increment that reached the threshold. */
  ghost predicate EntryOk(log: seq<Event>, p: nat, threshold: nat)
    requires p < |log|
  {
    match log[p]
    case Incremented(_, count) => count == SinceClear(log[..p + 1])
    case CleanupStarted(actor, count) => count >= threshold && HasRank(log[..p], actor, count)
    case Cleared => true
  }

  ghost predicate HistoryOk(log: seq<Event>, threshold: nat) {
    forall p: nat :: p < |log| ==> EntryOk(log, p, threshold)
  }

  ghost predicate CountedOk(log: seq<Event>, actors: seq<Actor>) {
    forall i: nat :: i < |actors| && actors[i].Counted? ==> HasRank(log, i, actors[i].count)
  }

  ghost predicate Faithful(w: World) {
    w.counter == SinceClear(w.log) && HistoryOk(w.log, w.threshold) && CountedOk(w.log, w.actors)
  }

  lemma RankKept(log: seq<Event>, e: Event, actor: nat, count: nat)
    requires HasRank(log, actor, count)
    ensures HasRank(log + [e], actor, count)
  {
    var p :| Ranked(log, p, actor, count);
    assert (log + [e])[..p + 1] == log[..p + 1];
    assert Ranked(log + [e], p, actor, count);
  }

  /** Logging an event keeps what holds of the history so far. */
  lemma HistoryKept(log: seq<Event>, e: Event, threshold: nat)
    requires HistoryOk(log, threshold)
    requires e.CleanupStarted? ==> e.count >= threshold && HasRank(log, e.actor, e.count)
    requires e.Incremented? ==> e.count == SinceClear(log) + 1
    ensures HistoryOk(log + [e], threshold)
    ensures SinceClear(log + [e]) == if e.Cleared? then 0 else if e.Incremented? then SinceClear(log) + 1 else SinceClear(log)
    ensures e.Incremented? ==> HasRank(log + [e], e.actor, e.count)
  {
    var log' := log + [e];
    assert log'[..|log|] == log && log'[..|log'|] == log';
    forall p: nat | p < |log'| ensures EntryOk(log', p, threshold) {
      if p < |log| {
        assert EntryOk(log, p, threshold) && log'[..p + 1] == log[..p + 1] && log'[..p] == log[..p];
      }
    }
    if e.Incremented? {
      assert Ranked(log', |log|, e.actor, e.count);
    }
  }

  lemma CountedKept(log: seq<Event>, e: Event, actors: seq<Actor>)
    requires CountedOk(log, actors)
    ensures CountedOk(log + [e], actors)
  {
    forall i: nat | i < |actors| && actors[i].Counted? ensures HasRank(log + [e], i, actors[i].count) {
      RankKept(log, e, i, actors[i].count);
    }
  }

  lemma CountedMoved(log: seq<Event>, actors: seq<Actor>, i: nat, a: Actor)
    requires CountedOk(log, actors) && i < |actors| && (a.Counted? ==> HasRank(log, i, a.count))
    ensures CountedOk(log, actors[i := a])
  {
  }

  /** Logging an event and moving one actor on. */
  lemma LoggedFaithful(w: World, i: nat, e: Event, a: Actor, counter: nat)
    requires Faithful(w) && i < |w.actors|
    requires e.CleanupStarted? ==> e.count >= w.threshold && HasRank(w.log, e.actor, e.count)
    requires e.Incremented? ==> e.count == w.counter + 1
    requires a.Counted? ==> e == Incremented(i, a.count)
    requires counter == if e.Cleared? then 0 else if e.Incremented? then w.counter + 1 else w.counter
    ensures Faithful(w.(counter := counter, log := w.log + [e], actors := w.actors[i := a]))
  {
    HistoryKept(w.log, e, w.threshold);
    CountedKept(w.log, e, w.actors);
    CountedMoved(w.log + [e], w.actors, i, a);
  }

  lemma MovedFaithful(w: World, i: nat, a: Actor)
    requires Faithful(w) && i < |w.actors| && !a.Counted?
    ensures Faithful(Goto(w, i, a))
  {
  }

  lemma IncrementFaithful(w: World, i: nat, delivery: Delivery)
    requires Faithful(w) && i < |w.actors|
    ensures Faithful(IncrementStep(w, i, delivery))
  {
    if delivery == RequestLost {
      MovedFaithful(w, i, Finished);
    } else {
      var count := w.counter + 1;
      var next := if delivery == Delivered && count <= U32_MAX then Counted(count) else Finished;
      LoggedFaithful(w, i, Incremented(i, count), next, count);
    }
  }

  lemma DecideFaithful(w: World, i: nat)
    requires Faithful(w) && i < |w.actors| && w.actors[i].Counted?
    ensures Faithful(DecideStep(w, i, w.actors[i].count))
  {
    var count := w.actors[i].count;
    if count >= w.threshold {
      LoggedFaithful(w, i, CleanupStarted(i, count), Cleaning, w.counter);
    } else {
      MovedFaithful(w, i, Finished);
    }
  }

  lemma ClearFaithful(w: World, i: nat, delivery: Delivery)
    requires Faithful(w) && i < |w.actors|
    ensures Faithful(ClearStep(w, i, delivery))
  {
    if delivery == RequestLost {
      MovedFaithful(w, i, Finished);
    } else {
      LoggedFaithful(w, i, Cleared, Finished, 0);
    }
  }

  lemma NextFaithful(w: World, a: Action)
    requires Faithful(w)
    ensures Faithful(Next(w, a))
  {
    if a.Step? && a.actor < |w.actors| {
      match w.actors[a.actor]
      case Signalled => IncrementFaithful(w, a.actor, a.delivery);
      case Counted(count) => DecideFaithful(w, a.actor);
      case Clearing => ClearFaithful(w, a.actor, a.delivery);
      case _ =>
    }
  }

  lemma {:induction false} FaithfulRun(w: World, schedule: seq<Action>)
    requires Faithful(w)
    ensures Faithful(Run(w, schedule)) && Run(w, schedule).threshold == w.threshold && Run(w, schedule).job == w.job
  {
    if schedule != [] {
      FaithfulRun(w, schedule[..|schedule| - 1]);
      NextFaithful(Run(w, schedule[..|schedule| - 1]), schedule[|schedule| - 1]);
    }
  }

  /**
   No early cleanup: in every interleaving and under every fault, a cleanup that starts belongs to an
   increment that was at least the threshold-th since the last clear.
   */
  lemma NoEarlyCleanup(job: string, threshold: nat, registry: History.World, schedule: seq<Action>, p: nat)
    requires var log := Run(Initial(job, threshold, registry), schedule).log; p < |log| && log[p].CleanupStarted?
    ensures var log := Run(Initial(job, threshold, registry), schedule).log;
            exists q: nat :: q < p && Ranked(log, q, log[p].actor, log[p].count) && SinceClear(log[..q + 1]) >= threshold
  {
    FaithfulRun(Initial(job, threshold, registry), schedule);
    var log := Run(Initial(job, threshold, registry), schedule).log;
    assert EntryOk(log, p, threshold);
    var q :| Ranked(log[..p], q, log[p].actor, log[p].count);
    assert log[..p][..q + 1] == log[..q + 1];
    assert Ranked(log, q, log[p].actor, log[p].count);
  }

  // ---------------------------------------------------------------------------------------------
  // The threshold-th signal

  ghost predicate AllDelivered(schedule: seq<Action>) {
    forall k :: 0 <= k < |schedule| && schedule[k].Step? ==> schedule[k].delivery == Delivered
  }

  ghost predicate Started(log: seq<Event>, actor: nat, count: nat) {
    CleanupStarted(actor, count) in log
  }

  /** Whoever was counted at or above the threshold is about to decide or has started the cleanup. */
  ghost predicate Acted(w: World) {
    forall p :: 0 <= p < |w.log| && w.log[p].Incremented? && w.threshold <= w.log[p].count <= U32_MAX ==>
      var i := w.log[p].actor;
      i < |w.actors| && (w.actors[i] == Counted(w.log[p].count) || Started(w.log, i, w.log[p].count))
  }

  lemma NextActed(w: World, a: Action)
    requires Acted(w)
    requires a.Step? ==> a.delivery == Delivered
    requires forall p :: 0 <= p < |w.log| && w.log[p].Incremented? && w.log[p].actor < |w.actors| ==> w.actors[w.log[p].actor] != Signalled
    ensures Acted(Next(w, a))
  {
    var w' := Next(w, a);
    forall p | 0 <= p < |w'.log| && w'.log[p].Incremented? && w'.threshold <= w'.log[p].count <= U32_MAX
      ensures var i := w'.log[p].actor;
              i < |w'.actors| && (w'.actors[i] == Counted(w'.log[p].count) || Started(w'.log, i, w'.log[p].count))
    {
      if p < |w.log| {
        assert w'.log[p] == w.log[p];
        var i, count := w.log[p].actor, w.log[p].count;
        if Started(w.log, i, count) {
          assert Started(w'.log, i, count);
        } else if a.Step? && a.actor == i {
          assert w'.log[|w.log|] == CleanupStarted(i, count);
        }
      }
    }
  }

  /** An actor is counted once. */
  ghost predicate CountedOnce(w: World) {
    forall p :: 0 <= p < |w.log| && w.log[p].Incremented? ==>
      w.log[p].actor < |w.actors| && w.actors[w.log[p].actor] != Signalled
  }

  lemma NextCountedOnce(w: World, a: Action)
    requires CountedOnce(w)
    ensures CountedOnce(Next(w, a))
  {
    var w' := Next(w, a);
    forall p | 0 <= p < |w'.log| && w'.log[p].Incremented?
      ensures w'.log[p].actor < |w'.actors| && w'.actors[w'.log[p].actor] != Signalled
    {
      if p < |w.log| {
        assert w'.log[p] == w.log[p];
      }
    }
  }

  lemma {:induction false} ActedRun(w: World, schedule: seq<Action>)
    requires w.log == [] && AllDelivered(schedule)
    ensures var w' := Run(w, schedule); Acted(w') && CountedOnce(w') && w'.threshold == w.threshold
  {
    if schedule != [] {
      var before := schedule[..|schedule| - 1];
      ActedRun(w, before);
      NextActed(Run(w, before), schedule[|schedule| - 1]);
      NextCountedOnce(Run(w, before), schedule[|schedule| - 1]);
    }
  }

  /** Since the last clear the counts have gone through every number up to the counter. */
  lemma {:induction false} CountReached(log: seq<Event>, threshold: nat, n: nat) returns (p: nat)
    requires 1 <= n <= SinceClear(log) && HistoryOk(log, threshold)
    ensures p < |log| && log[p].Incremented? && log[p].count == n
    ensures forall k :: p <= k < |log| ==> !log[k].Cleared?
  {
    var last := |log| - 1;
    assert EntryOk(log, last, threshold) && log[..last + 1] == log;
    if log[last].Incremented? && SinceClear(log) == n {
      p := last;
    } else {
      forall k: nat | k < last ensures EntryOk(log[..last], k, threshold) {
        assert EntryOk(log, k, threshold) && log[..last][..k + 1] == log[..k + 1] && log[..last][..k] == log[..k];
      }
      p := CountReached(log[..last], threshold, n);
    }
  }

  /**
   The threshold-th signal: without faults, once the counter has reached the threshold, the signal that was
   counted with exactly the threshold since the last clear is about to start the cleanup or has started it.
   */
  lemma ThresholdStartsCleanup(job: string, threshold: nat, registry: History.World, schedule: seq<Action>)
    requires 1 <= threshold <= U32_MAX && AllDelivered(schedule)
    requires Run(Initial(job, threshold, registry), schedule).counter >= threshold
    ensures var w := Run(Initial(job, threshold, registry), schedule);
            exists p: nat, i: nat ::
              && Ranked(w.log, p, i, threshold)
              && (forall k :: p <= k < |w.log| ==> !w.log[k].Cleared?)
              && i < |w.actors| && (w.actors[i] == Counted(threshold) || Started(w.log, i, threshold))
  {
    var w := Run(Initial(job, threshold, registry), schedule);
    FaithfulRun(Initial(job, threshold, registry), schedule);
    ActedRun(Initial(job, threshold, registry), schedule);
    var p := CountReached(w.log, threshold, threshold);
    var i := w.log[p].actor;
    assert EntryOk(w.log, p, threshold);
    assert Ranked(w.log, p, i, threshold);
  }

  // ---------------------------------------------------------------------------------------------
  // How a cleanup ends, whatever it interleaves with

  /** What an action does in the registry. */
  function CommandOf(w: World, a: Action): seq<History.Action> {
    match a
    case InRegistry(action) => [action]
    case Step(i, _) => if i < |w.actors| && w.actors[i] == Cleaning then [History.Begin(History.Deregister(w.job))] else []
    case _ => []
  }

  /** All calls, commands and crashes of the registry in a schedule, in order. */
  function Commands(w: World, schedule: seq<Action>): seq<History.Action> {
    if schedule == [] then []
    else
      var before := schedule[..|schedule| - 1];
      Commands(w, before) + CommandOf(Run(w, before), schedule[|schedule| - 1])
  }

  lemma NextRegistry(w: World, a: Action)
    ensures Next(w, a).registry == if CommandOf(w, a) == [] then w.registry else History.Next(w.registry, CommandOf(w, a)[0])
    ensures |CommandOf(w, a)| <= 1 && Next(w, a).job == w.job && Next(w, a).threshold == w.threshold
  {
  }

  lemma {:induction false} RegistryRun(w: World, schedule: seq<Action>)
    ensures Run(w, schedule).registry == History.Run(w.registry, Commands(w, schedule))
    ensures Run(w, schedule).job == w.job && Run(w, schedule).threshold == w.threshold
  {
    if schedule != [] {
      var before, a := schedule[..|schedule| - 1], schedule[|schedule| - 1];
      RegistryRun(w, before);
      var w1 := Run(w, before);
      NextRegistry(w1, a);
      if CommandOf(w1, a) == [] {
        assert Commands(w, schedule) == Commands(w, before);
      } else {
        assert CommandOf(w1, a) == [CommandOf(w1, a)[0]];
        History.RunSnoc(w.registry, Commands(w, before), CommandOf(w1, a)[0]);
      }
    }
  }

  /** The increment at p, whose count reached the threshold: how far its cleanup has come. */
  ghost predicate CleanedUpTo(w: World, p: nat)
    requires p < |w.log| && w.log[p].Incremented?
  {
    var i := w.log[p].actor;
    && i < |w.actors|
    && (|| w.actors[i] == Counted(w.log[p].count)
        || w.actors[i] == Cleaning
        || (w.actors[i].Deregistering? && Tracked(w.registry, w.actors[i].pid, w.job))
        || (NoneDurable(w.registry.etcd, w.job) && (w.actors[i] == Clearing || ClearedAfter(w.log, p))))
  }

  ghost predicate ClearedAfter(log: seq<Event>, p: nat) {
    exists q :: p < q < |log| && log[q] == Cleared
  }

  ghost predicate Reached(w: World, p: nat) {
    p < |w.log| && w.log[p].Incremented? && w.threshold <= w.log[p].count <= U32_MAX
  }

  ghost predicate AllCleanedUpTo(w: World) {
    forall p: nat :: Reached(w, p) ==> CleanedUpTo(w, p)
  }

  /** A cleanup that has begun, begun a deregistration. */
  ghost predicate BegunIfReached(w: World, begun: bool) {
    forall p: nat :: Reached(w, p) && w.log[p].actor < |w.actors| ==>
      w.actors[w.log[p].actor] == Counted(w.log[p].count) || w.actors[w.log[p].actor] == Cleaning || begun
  }

  lemma ClearedKept(log: seq<Event>, e: Event, p: nat)
    requires ClearedAfter(log, p)
    ensures ClearedAfter(log + [e], p)
  {
    var q :| p < q < |log| && log[q] == Cleared;
    assert (log + [e])[q] == Cleared;
  }

  /** An action of the registry that is not in the way of the cleanup. */
  ghost predicate SmoothStep(w: World, a: Action) {
    CommandOf(w, a) != [] ==> Smooth(w.registry, w.job, CommandOf(w, a)[0])
  }

  lemma ClearedStays(w: World, a: Action, p: nat)
    requires p < |w.log| && ClearedAfter(w.log, p)
    ensures ClearedAfter(Next(w, a).log, p)
  {
    var w' := Next(w, a);
    if w'.log != w.log {
      ClearedKept(w.log, w'.log[|w.log|], p);
      assert w'.log == w.log + [w'.log[|w.log|]];
    }
  }

  lemma DurableStays(w: World, a: Action, begun: bool)
    requires EtcdClearing(w.registry, w.job, begun) && NoneDurable(w.registry.etcd, w.job)
    ensures NoneDurable(Next(w, a).registry.etcd, w.job)
  {
    NextRegistry(w, a);
    if CommandOf(w, a) != [] {
      NoneDurableStays(w.registry, CommandOf(w, a)[0], w.job, begun);
    }
  }

  lemma TrackedStays(w: World, a: Action, pid: nat, begun: bool)
    requires EtcdClearing(w.registry, w.job, begun) && SmoothStep(w, a) && Tracked(w.registry, pid, w.job)
    ensures Tracked(Next(w, a).registry, pid, w.job)
  {
    NextRegistry(w, a);
    if CommandOf(w, a) != [] {
      NextTracked(w.registry, CommandOf(w, a)[0], pid, w.job, begun);
    }
  }

  /** The step of the actor whose increment it is. */
  lemma OwnStep(w: World, p: nat, begun: bool)
    requires Reached(w, p) && CleanedUpTo(w, p) && EtcdClearing(w.registry, w.job, begun)
    requires SmoothStep(w, Step(w.log[p].actor, Delivered))
    ensures Reached(Next(w, Step(w.log[p].actor, Delivered)), p) && CleanedUpTo(Next(w, Step(w.log[p].actor, Delivered)), p)
  {
    var i := w.log[p].actor;
    var a := Step(i, Delivered);
    var w' := Next(w, a);
    assert w'.log[p] == w.log[p];
    if NoneDurable(w.registry.etcd, w.job) {
      DurableStays(w, a, begun);
      if ClearedAfter(w.log, p) {
        ClearedStays(w, a, p);
      } else if w.actors[i] == Clearing {
        assert w'.log[|w.log|] == Cleared;
      }
    }
  }

  /** Any other action. */
  lemma OtherAction(w: World, a: Action, p: nat, begun: bool)
    requires Reached(w, p) && CleanedUpTo(w, p) && EtcdClearing(w.registry, w.job, begun) && SmoothStep(w, a)
    requires a.Step? ==> a.delivery == Delivered && a.actor != w.log[p].actor
    ensures Reached(Next(w, a), p) && CleanedUpTo(Next(w, a), p)
  {
    var w' := Next(w, a);
    var i := w.log[p].actor;
    assert w'.log[p] == w.log[p] && |w.actors| <= |w'.actors| && w'.actors[i] == w.actors[i];
    if w.actors[i].Deregistering? && Tracked(w.registry, w.actors[i].pid, w.job) {
      TrackedStays(w, a, w.actors[i].pid, begun);
    } else if NoneDurable(w.registry.etcd, w.job) {
      DurableStays(w, a, begun);
      if ClearedAfter(w.log, p) {
        ClearedStays(w, a, p);
      }
    }
  }

  lemma NextCleanedUpTo(w: World, a: Action, begun: bool)
    requires AllCleanedUpTo(w) && EtcdClearing(w.registry, w.job, begun) && SmoothStep(w, a)
    requires a.Step? ==> a.delivery == Delivered
    ensures AllCleanedUpTo(Next(w, a))
  {
    var w' := Next(w, a);
    NextRegistry(w, a);
    forall p: nat | Reached(w', p) ensures CleanedUpTo(w', p) {
      if p < |w.log| {
        assert w'.log[p] == w.log[p];
        assert Reached(w, p);
        if a.Step? && a.actor == w.log[p].actor {
          OwnStep(w, p, begun);
        } else {
          OtherAction(w, a, p, begun);
        }
      }
    }
  }

  lemma NextBegunIfReached(w: World, a: Action, begun: bool)
    requires BegunIfReached(w, begun) && CountedOnce(w)
    requires a.Step? ==> a.delivery == Delivered
    ensures BegunIfReached(Next(w, a), begun || CommandOf(w, a) == [History.Begin(History.Deregister(w.job))])
  {
    var w' := Next(w, a);
    forall p: nat | Reached(w', p) && w'.log[p].actor < |w'.actors|
      ensures w'.actors[w'.log[p].actor] == Counted(w'.log[p].count) || w'.actors[w'.log[p].actor] == Cleaning
              || begun || CommandOf(w, a) == [History.Begin(History.Deregister(w.job))]
    {
      if p < |w.log| {
        assert w'.log[p] == w.log[p];
        assert Reached(w, p);
      }
    }
  }

  lemma BegunStep(cmds: seq<History.Action>, more: seq<History.Action>, job: string)
    requires |more| <= 1
    ensures Begun(cmds + more, job) == (Begun(cmds, job) || more == [History.Begin(History.Deregister(job))])
  {
    if more == [] {
      assert cmds + more == cmds;
    } else {
      assert (cmds + more)[..|cmds|] == cmds && more == [more[0]];
    }
  }

  lemma SmoothLast(registry: History.World, job: string, cmds: seq<History.Action>, more: seq<History.Action>)
    requires |more| <= 1 && AllSmooth(registry, job, cmds + more)
    ensures AllSmooth(registry, job, cmds) && (more != [] ==> Smooth(History.Run(registry, cmds), job, more[0]))
  {
    if more == [] {
      assert cmds + more == cmds;
    } else {
      assert (cmds + more)[..|cmds|] == cmds;
    }
  }

  /** What a run keeps, given the commands it has issued in the registry. */
  ghost predicate CleanedUpSoFar(w: World, cmds: seq<History.Action>) {
    AllCleanedUpTo(w) && BegunIfReached(w, Begun(cmds, w.job)) && CountedOnce(w)
  }

  lemma NextCleanedUpSoFar(w: World, a: Action, registry: History.World, cmds: seq<History.Action>)
    requires CleanedUpSoFar(w, cmds) && EtcdClearing(w.registry, w.job, Begun(cmds, w.job))
    requires a.Step? ==> a.delivery == Delivered
    requires w.registry == History.Run(registry, cmds) && AllSmooth(registry, w.job, cmds + CommandOf(w, a))
    ensures CleanedUpSoFar(Next(w, a), cmds + CommandOf(w, a))
  {
    NextRegistry(w, a);
    SmoothLast(registry, w.job, cmds, CommandOf(w, a));
    NextCleanedUpTo(w, a, Begun(cmds, w.job));
    NextBegunIfReached(w, a, Begun(cmds, w.job));
    BegunStep(cmds, CommandOf(w, a), w.job);
    NextCountedOnce(w, a);
  }

  lemma {:induction false} CleanedUpToRun(job: string, threshold: nat, registry: History.World, schedule: seq<Action>)
    requires AllStopped(registry) && Keyed(registry.etcd.jobs) && AllDelivered(schedule)
    requires AllSmooth(registry, job, Commands(Initial(job, threshold, registry), schedule))
    ensures CleanedUpSoFar(Run(Initial(job, threshold, registry), schedule), Commands(Initial(job, threshold, registry), schedule))
  {
    if schedule != [] {
      var w0 := Initial(job, threshold, registry);
      var before, a := schedule[..|schedule| - 1], schedule[|schedule| - 1];
      var w, cmds := Run(w0, before), Commands(w0, before);
      RegistryRun(w0, before);
      NextRegistry(w, a);
      SmoothLast(registry, job, cmds, CommandOf(w, a));
      CleanedUpToRun(job, threshold, registry, before);
      EtcdClearingRun(registry, job, cmds);
      NextCleanedUpSoFar(w, a, registry, cmds);
    }
  }

  /** While the counter is at the threshold, a cleanup is under way. */
  lemma SomebodyAtWork(w: World) returns (i: nat)
    requires AllCleanedUpTo(w) && Faithful(w) && 1 <= w.threshold <= U32_MAX && w.counter >= w.threshold
    ensures i < |w.actors| && w.actors[i] != Finished
  {
    var p := CountReached(w.log, w.threshold, w.threshold);
    assert Reached(w, p);
    assert CleanedUpTo(w, p);
    i := w.log[p].actor;
  }

  /** Nobody has anything left to do. */
  ghost predicate AllFinished(w: World) {
    forall i :: 0 <= i < |w.actors| ==> w.actors[i] == Finished
  }

  /** Some signal was told a count that reached the threshold. */
  ghost predicate SomeReached(w: World) {
    exists p: nat :: Reached(w, p)
  }

  /**
   How it ends: take any interleaving of signals and successes without faults with calls of the registry, in which
   no deregistration meets a fault and nobody registers the job again.  Once no signal or success has anything
   left to do, the counter is below the threshold; and if any signal was told a count that reached the threshold,
   etcd holds nothing of the job, whatever lookups, syncs and listings do meanwhile.  If none of these, and no
   deregistration under another key, overlaps with a deregistration of the job, then neither does the cache, once
   all deregistrations of the job have ended.
   */
  lemma CleanupCompletes(job: string, threshold: nat, registry: History.World, schedule: seq<Action>)
    requires 1 <= threshold <= U32_MAX && AllStopped(registry) && Keyed(registry.etcd.jobs) && Keyed(registry.cacheJobs)
    requires AllDelivered(schedule) && AllSmooth(registry, job, Commands(Initial(job, threshold, registry), schedule))
    requires AllFinished(Run(Initial(job, threshold, registry), schedule))
    ensures var w := Run(Initial(job, threshold, registry), schedule);
            && w.counter < threshold
            && (SomeReached(w) ==> NoneDurable(w.registry.etcd, job))
            && (SomeReached(w) && AllApart(registry, job, Commands(Initial(job, threshold, registry), schedule)) && !Under(w.registry, job) ==>
                  Gone(StoresOf(w.registry), job))
  {
    var w0 := Initial(job, threshold, registry);
    var w, cmds := Run(w0, schedule), Commands(w0, schedule);
    CleanedUpToRun(job, threshold, registry, schedule);
    FaithfulRun(w0, schedule);
    RegistryRun(w0, schedule);
    if w.counter >= threshold {
      var i := SomebodyAtWork(w);
    }
    if p: nat :| Reached(w, p) {
      assert CleanedUpTo(w, p);
      if AllApart(registry, job, cmds) && !Under(w.registry, job) {
        CleanupLeavesNothing(registry, job, cmds);
      }
    }
  }

  /** A success clears the counter, unless its command is lost. */
  lemma SuccessClears(w: World, delivery: Delivery)
    ensures var w' := Next(Next(w, Succeed), Step(|w.actors|, delivery));
            w'.counter == if delivery == RequestLost then w.counter else 0
  {
  }
}
