/** inflight.rs: the counter per job, as objects updated in place. */
module InFlightObjects {
  class Counter {
    var value: nat

    constructor ()
      ensures value == 0
    {
      value := 0;
    }
  }

  class InFlightTracker {
    var counts: map<string, Counter>

    constructor ()
      ensures Valid() && counts == map[]
    {
      counts := map[];
    }

    /** No two jobs share a counter. */
    ghost predicate Valid()
      reads this
    {
      forall a, b :: a in counts && b in counts && counts[a] == counts[b] ==> a == b
    }

    function CountOf(job: string): nat
      reads this, counts.Values
    {
      if job in counts then counts[job].value else 0
    }

    method HasInFlight(job: string) returns (busy: bool)
      ensures busy <==> CountOf(job) > 0
    {
      busy := job in counts && counts[job].value > 0;
    }

    method Track(job: string) returns (guard: Counter)
      requires Valid()
      modifies this, counts.Values
      ensures Valid()
      ensures job in counts && guard == counts[job] && (job !in old(counts) ==> fresh(guard))
      ensures counts == old(counts)[job := guard]
      ensures CountOf(job) == old(CountOf(job)) + 1
      ensures forall other :: other != job ==> CountOf(other) == old(CountOf(other))
    {
      if job in counts {
        guard := counts[job];
      } else {
        guard := new Counter();
        counts := counts[job := guard];
      }
      guard.value := guard.value + 1;
    }

    /** Dropping a guard of `job`. */
    method Release(job: string, guard: Counter)
      requires Valid() && job in counts && guard == counts[job] && guard.value > 0
      modifies guard
      ensures Valid() && counts == old(counts)
      ensures CountOf(job) + 1 == old(CountOf(job))
      ensures forall other :: other != job ==> CountOf(other) == old(CountOf(other))
    {
      guard.value := guard.value - 1;
    }
  }
}

/**
 The in-flight gate as a step machine: requests look their counter up under the read lock, create it under
 the write lock if it was missing, increment it, and decrement it when the guard drops, while calls of
 `scale_down_job` run beside them.
 */
module InFlightGate {
  import opened Prelude

  /** `usize::MAX` on a 64-bit machine: what an atomic decrement of zero would leave. */
  const USIZE_MAX: nat := 0xFFFF_FFFF_FFFF_FFFF

  datatype Thread =
    // a request for `job`
    | ReadLookup(job: string)
    | WriteInsert(job: string)
    | Increment(job: string, counter: nat)
    | Live(job: string, counter: nat)
    | Finished(job: string)
    // scale_down_job for activity key `key`
    | Begin(key: string)
    | CheckInFlight(key: string)
    | ProbeTraffic(key: string)
    | LookUp(key: string)
    | CallScaleDown(key: string, target: string)
    | Called(key: string, target: string)
    | Blocked(key: string)

  datatype World = World(counts: map<string, nat>, counters: seq<nat>, threads: seq<Thread>)

  /** What the deferral map, the traffic probe and the registry answer. */
  datatype Answer = Pass | Stop | Found(job: string)

  datatype Action = Request(job: string) | ScaleDown(key: string) | Step(tid: nat, answer: Answer)

  const INITIAL := World(map[], [], [])

  function Goto(w: World, i: nat, t: Thread): World
    requires i < |w.threads|
  {
    w.(threads := w.threads[i := t])
  }

  function SetCounter(w: World, c: nat, n: nat): World {
    if c < |w.counters| then w.(counters := w.counters[c := n]) else w
  }

  function Value(w: World, c: nat): nat {
    if c < |w.counters| then w.counters[c] else 0
  }

  /** `fetch_sub`, with the wrap-around of the machine. */
  function Decremented(n: nat): nat {
    if n == 0 then USIZE_MAX else n - 1
  }

  function InFlight(w: World, job: string): nat {
    if job in w.counts then Value(w, w.counts[job]) else 0
  }

  function ThreadStep(w: World, i: nat, answer: Answer): World
    requires i < |w.threads|
  {
    match w.threads[i]
    case ReadLookup(job) =>
      Goto(w, i, if job in w.counts then Increment(job, w.counts[job]) else WriteInsert(job))
    case WriteInsert(job) =>
      if job in w.counts then Goto(w, i, Increment(job, w.counts[job]))
      else Goto(w.(counts := w.counts[job := |w.counters|], counters := w.counters + [0]), i, Increment(job, |w.counters|))
    case Increment(job, c) => Goto(SetCounter(w, c, Value(w, c) + 1), i, Live(job, c))
    case Live(job, c) => Goto(SetCounter(w, c, Decremented(Value(w, c))), i, Finished(job))
    case Finished(_) => w
    case Begin(key) => Goto(w, i, if answer == Stop then Blocked(key) else CheckInFlight(key))
    case CheckInFlight(key) => Goto(w, i, if InFlight(w, key) > 0 then Blocked(key) else ProbeTraffic(key))
    case ProbeTraffic(key) => Goto(w, i, if answer == Stop then Blocked(key) else LookUp(key))
    case LookUp(key) => Goto(w, i, if answer.Found? then CallScaleDown(key, answer.job) else Blocked(key))
    case CallScaleDown(key, target) => Goto(w, i, Called(key, target))
    case Called(_, _) => w
    case Blocked(_) => w
  }

  function Next(w: World, a: Action): World {
    match a
    case Request(job) => w.(threads := w.threads + [ReadLookup(job)])
    case ScaleDown(key) => w.(threads := w.threads + [Begin(key)])
    case Step(i, answer) => if i < |w.threads| then ThreadStep(w, i, answer) else w
  }

  function Run(w: World, schedule: seq<Action>): World {
    if schedule == [] then w else Next(Run(w, schedule[..|schedule| - 1]), schedule[|schedule| - 1])
  }

  ghost function LiveOn(c: nat): Thread -> bool {
    (t: Thread) => t.Live? && t.counter == c
  }

  ghost predicate HoldsOwnCounter(counts: map<string, nat>, t: Thread) {
    t.Increment? || t.Live? ==> t.job in counts && counts[t.job] == t.counter
  }

  /** One counter per job, and each counter is the number of live guards on it. */
  ghost predicate Exact(w: World) {
    && (forall j :: j in w.counts ==> w.counts[j] < |w.counters|)
    && (forall a, b :: a in w.counts && b in w.counts && w.counts[a] == w.counts[b] ==> a == b)
    && (forall i :: 0 <= i < |w.threads| ==> HoldsOwnCounter(w.counts, w.threads[i]))
    && (forall c :: 0 <= c < |w.counters| ==> w.counters[c] == Count(w.threads, LiveOn(c)))
    && (forall c :: |w.counters| <= c ==> Count(w.threads, LiveOn(c)) == 0)
  }

  lemma MoveCounts(threads: seq<Thread>, i: nat, t: Thread)
    requires i < |threads|
    ensures forall c :: Count(threads[i := t], LiveOn(c)) + One(LiveOn(c)(threads[i])) == Count(threads, LiveOn(c)) + One(LiveOn(c)(t))
  {
    forall c ensures Count(threads[i := t], LiveOn(c)) + One(LiveOn(c)(threads[i])) == Count(threads, LiveOn(c)) + One(LiveOn(c)(t)) {
      CountUpdate(threads, i, t, LiveOn(c));
    }
  }

  /** A move that touches neither a counter nor a guard. */
  lemma PlainMove(w: World, i: nat, t: Thread)
    requires Exact(w) && i < |w.threads| && !w.threads[i].Live? && !t.Live? && HoldsOwnCounter(w.counts, t)
    ensures Exact(Goto(w, i, t))
  {
    MoveCounts(w.threads, i, t);
  }

  lemma InsertMove(w: World, i: nat, job: string)
    requires Exact(w) && i < |w.threads| && w.threads[i] == WriteInsert(job) && job !in w.counts
    ensures Exact(ThreadStep(w, i, Pass))
  {
    MoveCounts(w.threads, i, Increment(job, |w.counters|));
  }

  lemma CounterMove(w: World, i: nat)
    requires Exact(w) && i < |w.threads| && (w.threads[i].Increment? || w.threads[i].Live?)
    ensures Exact(ThreadStep(w, i, Pass))
  {
    var t := w.threads[i];
    assert HoldsOwnCounter(w.counts, t);
    if t.Live? {
      NoUnderflow(w, i);
      MoveCounts(w.threads, i, Finished(t.job));
    } else {
      MoveCounts(w.threads, i, Live(t.job, t.counter));
    }
  }

  lemma StepExact(w: World, i: nat, answer: Answer)
    requires Exact(w) && i < |w.threads|
    ensures Exact(ThreadStep(w, i, answer))
  {
    match w.threads[i]
    case Increment(_, _) => CounterMove(w, i);
    case Live(_, _) => CounterMove(w, i);
    case WriteInsert(job) =>
      if job !in w.counts {
        InsertMove(w, i, job);
      } else {
        PlainMove(w, i, Increment(job, w.counts[job]));
      }
    case _ =>
      var w' := ThreadStep(w, i, answer);
      assert w' == Goto(w, i, w'.threads[i]);
      PlainMove(w, i, w'.threads[i]);
  }

  lemma NextExact(w: World, a: Action)
    requires Exact(w)
    ensures Exact(Next(w, a))
  {
    if a.Step? {
      if a.tid < |w.threads| {
        StepExact(w, a.tid, a.answer);
      }
    } else {
      var t := if a.Request? then ReadLookup(a.job) else Begin(a.key);
      forall c ensures Count(w.threads + [t], LiveOn(c)) == Count(w.threads, LiveOn(c)) {
        CountPush(w.threads, t, LiveOn(c));
      }
    }
  }

  /** A guard that drops finds its own share still counted, so the decrement never wraps. */
  lemma NoUnderflow(w: World, i: nat)
    requires Exact(w) && i < |w.threads| && w.threads[i].Live?
    ensures w.threads[i].counter < |w.counters| && w.counters[w.threads[i].counter] >= 1
  {
    assert HoldsOwnCounter(w.counts, w.threads[i]);
    CountPositive(w.threads, i, LiveOn(w.threads[i].counter));
  }

  ghost function LiveGuards(job: string): Thread -> bool {
    (t: Thread) => t.Live? && t.job == job
  }

  lemma {:induction false} CountSame(threads: seq<Thread>, p: Thread -> bool, q: Thread -> bool)
    requires forall t :: t in threads ==> p(t) == q(t)
    ensures Count(threads, p) == Count(threads, q)
  {
    if threads != [] {
      CountSame(threads[..|threads| - 1], p, q);
    }
  }

  lemma {:induction false} ExactRun(schedule: seq<Action>)
    ensures Exact(Run(INITIAL, schedule))
  {
    if schedule != [] {
      ExactRun(schedule[..|schedule| - 1]);
      NextExact(Run(INITIAL, schedule[..|schedule| - 1]), schedule[|schedule| - 1]);
    }
  }

  /** In every interleaving the in-flight count of a job is the number of its live guards. */
  lemma CountIsLiveGuards(schedule: seq<Action>, job: string)
    ensures var w := Run(INITIAL, schedule); InFlight(w, job) == Count(w.threads, LiveGuards(job))
  {
    ExactRun(schedule);
    var w := Run(INITIAL, schedule);
    forall t | t in w.threads ensures LiveGuards(job)(t) == (job in w.counts && LiveOn(w.counts[job])(t)) {
      assert HoldsOwnCounter(w.counts, t);
    }
    if job in w.counts {
      CountSame(w.threads, LiveGuards(job), LiveOn(w.counts[job]));
    } else {
      CountSame(w.threads, LiveGuards(job), t => false);
      CountNone(w.threads);
    }
  }

  lemma {:induction false} CountNone(threads: seq<Thread>)
    ensures Count(threads, (t: Thread) => false) == 0
  {
    if threads != [] {
      CountNone(threads[..|threads| - 1]);
    }
  }

  /** The call has not got past the in-flight check. */
  predicate AtGate(t: Thread, key: string) {
    t == Begin(key) || t == CheckInFlight(key) || t == Blocked(key)
  }

  /** The guard of `key` was taken and, while it lives, the call stays at the gate. */
  ghost predicate Gated(w: World, s: nat, g: nat, guard: Thread, key: string) {
    && s < |w.threads| && g < |w.threads|
    && guard.Live? && guard.job == key
    && (w.threads[g] == guard || w.threads[g] == Finished(key))
    && (w.threads[g] == guard ==> AtGate(w.threads[s], key))
  }

  lemma NextGated(w: World, a: Action, s: nat, g: nat, guard: Thread, key: string)
    requires Exact(w) && Gated(w, s, g, guard, key)
    ensures Gated(Next(w, a), s, g, guard, key)
  {
    if w.threads[g] == guard {
      NoUnderflow(w, g);
      assert HoldsOwnCounter(w.counts, w.threads[g]);
    }
  }

  lemma {:induction false} RunGated(w: World, schedule: seq<Action>, s: nat, g: nat, guard: Thread, key: string)
    requires Exact(w) && Gated(w, s, g, guard, key)
    ensures Exact(Run(w, schedule)) && Gated(Run(w, schedule), s, g, guard, key)
  {
    if schedule != [] {
      RunGated(w, schedule[..|schedule| - 1], s, g, guard, key);
      NextExact(Run(w, schedule[..|schedule| - 1]), schedule[|schedule| - 1]);
      NextGated(Run(w, schedule[..|schedule| - 1]), schedule[|schedule| - 1], s, g, guard, key);
    }
  }

  /**
   The gate: a `scale_down_job` call for a job never reaches `scale_down` if a guard of the job is live when
   the call begins and still live now, in whatever way requests and other calls interleave with it.
   */
  lemma GateHolds(setup: seq<Action>, schedule: seq<Action>, s: nat, g: nat, key: string)
    requires var w := Run(INITIAL, setup);
             && s < |w.threads| && w.threads[s] == Begin(key)
             && g < |w.threads| && w.threads[g].Live? && w.threads[g].job == key
    ensures var w' := Run(Run(INITIAL, setup), schedule);
            && s < |w'.threads| && g < |w'.threads|
            && (w'.threads[g].Live? ==> !w'.threads[s].CallScaleDown? && !w'.threads[s].Called?)
  {
    ExactRun(setup);
    RunGated(Run(INITIAL, setup), schedule, s, g, Run(INITIAL, setup).threads[g], key);
  }

  lemma GuardTaken(key: string, job: string)
    ensures var w := Run(INITIAL, [Request(job), ScaleDown(key), Step(0, Pass), Step(0, Pass), Step(0, Pass)]);
            && w.threads == [Live(job, 0), Begin(key)]
            && w.counts == map[job := 0] && |w.counters| == 1
  {
    RunFive(INITIAL, [Request(job), ScaleDown(key), Step(0, Pass), Step(0, Pass), Step(0, Pass)]);
  }

  /**
   The gate looks at the activity key only.  A key that is not the job id of its registration passes it
   whatever is in flight for that job: for all such names the job is scaled down under a live guard.
   */
  lemma GateMissesOtherKeys(key: string, job: string)
    requires key != job
    ensures var setup := [Request(job), ScaleDown(key), Step(0, Pass), Step(0, Pass), Step(0, Pass)];
            var call := [Step(1, Pass), Step(1, Pass), Step(1, Pass), Step(1, Found(job)), Step(1, Pass)];
            var w := Run(INITIAL, setup);
            && w.threads == [Live(job, 0), Begin(key)]
            && Run(w, call).threads == [Live(job, 0), Called(key, job)]
  {
    GuardTaken(key, job);
    RunFive(Run(INITIAL, [Request(job), ScaleDown(key), Step(0, Pass), Step(0, Pass), Step(0, Pass)]),
            [Step(1, Pass), Step(1, Pass), Step(1, Pass), Step(1, Found(job)), Step(1, Pass)]);
  }

  lemma RunFive(w: World, s: seq<Action>)
    requires |s| == 5
    ensures Run(w, s) == Next(Next(Next(Next(Next(w, s[0]), s[1]), s[2]), s[3]), s[4])
  {
    assert s[..4][..3] == s[..3] && s[..3][..2] == s[..2] && s[..2][..1] == s[..1] && s[..1][..0] == [];
    assert Run(w, []) == w;
    assert Run(w, s[..1]) == Next(w, s[0]);
    assert Run(w, s[..2]) == Next(Run(w, s[..1]), s[1]);
    assert Run(w, s[..3]) == Next(Run(w, s[..2]), s[2]);
    assert Run(w, s[..4]) == Next(Run(w, s[..3]), s[3]);
  }
}
