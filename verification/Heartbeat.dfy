/**
 Why a request in progress keeps its job out of `get_idle_jobs`.

 Time is counted in ticks of any fixed length on one clock.  A request writes a start record, is routed,
 and then refreshes the activity score every third of the idle timeout until it is answered or, unless it
 is a WebSocket, until its cap.  Writes by other requests, and removals, happen at any time.
 */
module Heartbeat {
  import opened Prelude

  /** The heartbeat interval is a third of the idle timeout. */
  function Interval(idle: nat): nat {
    idle / 3
  }

  /** `cap` is None for a WebSocket. */
  datatype Phase =
    | Recorded(since: nat)
    | Beating(due: nat, writing: Option<nat>, cap: Option<nat>)
    | Over

  /** `score` is the job's entry in the activity set. */
  datatype World = World(now: nat, score: Option<nat>, phase: Phase)

  datatype Action =
    | Advance(dt: nat)
    | Route(websocket: bool)
    | Beat
    | Land
    | StopAtCap
    | Respond
    | OtherWrite(at: nat)
    | OtherRemove

  /** `get_idle_jobs`: members whose score is at most now minus the timeout. */
  predicate ReportedIdle(w: World, idle: nat) {
    w.score.Some? && w.score.value + idle <= w.now
  }

  /** How far time may go on: to the routing deadline, to the next beat, to the landing of a write, to the cap. */
  predicate MayAdvance(w: World, h: nat, dt: nat) {
    match w.phase
    case Recorded(since) => w.now + dt <= since + h
    case Beating(due, writing, cap) =>
      && (writing.None? ==> w.now + dt <= due)
      && (writing.Some? ==> w.now + dt < writing.value + h)
      && (cap.Some? ==> w.now + dt <= cap.value)
    case Over => true
  }

  /**
   A write by somebody else lands within an interval of its score, even if it then overwrites a later score;
   only the start record is not overwritten by an earlier one before the request is routed.
   */
  predicate MayWrite(w: World, h: nat, at: nat) {
    at <= w.now < at + h && (w.phase.Recorded? ==> w.phase.since <= at)
  }

  function Next(w: World, idle: nat, capSlack: nat, a: Action): World {
    var h := Interval(idle);
    match a
    case Advance(dt) => if MayAdvance(w, h, dt) then w.(now := w.now + dt) else w
    case Route(websocket) =>
      if w.phase.Recorded? then
        w.(phase := Beating(w.now + h, None, if websocket then None else Some(w.now + 6 * h + capSlack)))
      else w
    case Beat =>
      if w.phase.Beating? && w.phase.writing.None? && w.now == w.phase.due then
        w.(phase := w.phase.(due := w.phase.due + h, writing := Some(w.now)))
      else w
    case Land =>
      if w.phase.Beating? && w.phase.writing.Some? then
        w.(score := Some(w.phase.writing.value), phase := w.phase.(writing := None))
      else w
    case StopAtCap =>
      if w.phase.Beating? && w.phase.cap.Some? && w.now >= w.phase.cap.value then w.(phase := Over) else w
    case Respond => if w.phase.Over? then w else w.(phase := Over)
    case OtherWrite(at) => if MayWrite(w, h, at) then w.(score := Some(at)) else w
    case OtherRemove => w.(score := None)
  }

  function Run(w: World, idle: nat, capSlack: nat, schedule: seq<Action>): World {
    if schedule == [] then w
    else Next(Run(w, idle, capSlack, schedule[..|schedule| - 1]), idle, capSlack, schedule[|schedule| - 1])
  }

  /** The start record has just landed. */
  function Start(now: nat): World {
    World(now, Some(now), Recorded(now))
  }

  /** The score, if present, is at most two intervals behind the next beat, or behind the one being written. */
  ghost predicate Fresh(w: World, h: nat) {
    match w.phase
    case Recorded(since) => since <= w.now <= since + h && (w.score.Some? ==> w.score.value >= since)
    case Beating(due, writing, cap) =>
      && (cap.Some? ==> w.now <= cap.value)
      && (match writing
          case None => due <= w.now + h && w.now <= due && (w.score.Some? ==> w.score.value + 2 * h >= due)
          case Some(at) => due == at + h && at <= w.now < due && (w.score.Some? ==> w.score.value + 2 * h >= at))
    case Over => true
  }

  lemma NextFresh(w: World, idle: nat, capSlack: nat, a: Action)
    requires Interval(idle) > 0 && Fresh(w, Interval(idle))
    ensures Fresh(Next(w, idle, capSlack, a), Interval(idle))
  {
  }

  lemma {:induction false} FreshRun(start: nat, idle: nat, capSlack: nat, schedule: seq<Action>)
    requires Interval(idle) > 0
    ensures Fresh(Run(Start(start), idle, capSlack, schedule), Interval(idle))
  {
    if schedule != [] {
      FreshRun(start, idle, capSlack, schedule[..|schedule| - 1]);
      NextFresh(Run(Start(start), idle, capSlack, schedule[..|schedule| - 1]), idle, capSlack, schedule[|schedule| - 1]);
    }
  }

  /**
   From its start record until it is answered or its cap is reached, a request keeps its job from being
   reported idle, in every timed run; a WebSocket has no cap.
   */
  lemma NeverIdleWhileServed(start: nat, idle: nat, capSlack: nat, schedule: seq<Action>)
    requires Interval(idle) > 0
    ensures var w := Run(Start(start), idle, capSlack, schedule);
            !w.phase.Over? ==> !ReportedIdle(w, idle)
  {
    FreshRun(start, idle, capSlack, schedule);
  }

  /** Nothing in the schedule writes or removes the score. */
  ghost predicate NoWrites(schedule: seq<Action>) {
    forall k :: 0 <= k < |schedule| ==> !schedule[k].Land? && !schedule[k].OtherWrite? && !schedule[k].OtherRemove?
  }

  lemma {:induction false} ScoreStays(w: World, idle: nat, capSlack: nat, schedule: seq<Action>)
    requires NoWrites(schedule)
    ensures Run(w, idle, capSlack, schedule).score == w.score
  {
    if schedule != [] {
      ScoreStays(w, idle, capSlack, schedule[..|schedule| - 1]);
    }
  }

  /** A job is reported idle exactly when its last write, not removed since, is at least the timeout ago. */
  lemma IdleIffOldWrite(w: World, at: nat, idle: nat, capSlack: nat, schedule: seq<Action>)
    requires w.score == Some(at) && NoWrites(schedule)
    ensures var w' := Run(w, idle, capSlack, schedule); ReportedIdle(w', idle) <==> at + idle <= w'.now
  {
    ScoreStays(w, idle, capSlack, schedule);
  }

  /** A request whose score was written at `at` by a beat, the next one due an interval later. */
  function Open(at: nat, idle: nat, cap: Option<nat>): World {
    World(at, Some(at), Beating(at + Interval(idle), None, cap))
  }

  /** An ordinary request is capped at six beats and the slack after it was routed, a WebSocket is not. */
  function CapOf(start: nat, idle: nat, capSlack: nat, websocket: bool): Option<nat> {
    if websocket then None else Some(start + 6 * (idle / 3) + capSlack)
  }

  lemma RunSnoc(w: World, idle: nat, capSlack: nat, schedule: seq<Action>, a: Action)
    ensures Run(w, idle, capSlack, schedule + [a]) == Next(Run(w, idle, capSlack, schedule), idle, capSlack, a)
  {
    assert (schedule + [a])[..|schedule|] == schedule;
  }

  lemma Routed(start: nat, idle: nat, capSlack: nat, websocket: bool) returns (s: seq<Action>)
    ensures Run(Start(start), idle, capSlack, s) == Open(start, idle, CapOf(start, idle, capSlack, websocket))
  {
    s := [] + [Route(websocket)];
    RunSnoc(Start(start), idle, capSlack, [], Route(websocket));
  }

  /** From one beat to the next. */
  lemma BeatOnce(w: World, at: nat, idle: nat, capSlack: nat, cap: Option<nat>, s: seq<Action>) returns (s': seq<Action>)
    requires Interval(idle) > 0 && (cap.Some? ==> at + Interval(idle) <= cap.value)
    requires Run(w, idle, capSlack, s) == Open(at, idle, cap)
    ensures Run(w, idle, capSlack, s') == Open(at + Interval(idle), idle, cap)
  {
    var h := Interval(idle);
    RunSnoc(w, idle, capSlack, s, Advance(h));
    RunSnoc(w, idle, capSlack, s + [Advance(h)], Beat);
    RunSnoc(w, idle, capSlack, s + [Advance(h)] + [Beat], Land);
    s' := s + [Advance(h)] + [Beat] + [Land];
  }

  lemma Passes(w: World, idle: nat, capSlack: nat, dt: nat)
    requires w.phase.Over?
    ensures Next(w, idle, capSlack, Advance(dt)) == w.(now := w.now + dt)
  {
  }

  /**
   The cap lets a job go: from the moment it is reached the request writes no more, so without anybody else's
   writes the job is reported idle exactly once its last score is the timeout old.
   */
  lemma CapLetsGo(w: World, idle: nat, capSlack: nat, dt: nat)
    requires w.phase.Beating? && w.phase.cap == Some(w.now) && w.score.Some?
    ensures var w' := Run(w, idle, capSlack, [] + [StopAtCap] + [Beat] + [Land] + [Advance(dt)]);
            w'.now == w.now + dt && (ReportedIdle(w', idle) <==> w.score.value + idle <= w.now + dt)
  {
    RunSnoc(w, idle, capSlack, [], StopAtCap);
    RunSnoc(w, idle, capSlack, [] + [StopAtCap], Beat);
    RunSnoc(w, idle, capSlack, [] + [StopAtCap] + [Beat], Land);
    RunSnoc(w, idle, capSlack, [] + [StopAtCap] + [Beat] + [Land], Advance(dt));
    Passes(w.(phase := Over), idle, capSlack, dt);
  }

  /** The time of the n-th beat: n thirds of the timeout after the start. */
  function BeatTime(start: nat, idle: nat, n: nat): (t: nat)
    ensures t == start + n * (idle / 3)
  {
    if n == 0 then start else BeatTime(start, idle, n - 1) + idle / 3
  }

  lemma {:induction false} BeatsUpTo(start: nat, idle: nat, capSlack: nat, websocket: bool, n: nat) returns (s: seq<Action>)
    requires idle / 3 > 0 && (!websocket ==> BeatTime(start, idle, n) <= start + 6 * (idle / 3) + capSlack)
    ensures Run(Start(start), idle, capSlack, s) == Open(BeatTime(start, idle, n), idle, CapOf(start, idle, capSlack, websocket))
  {
    if n == 0 {
      s := Routed(start, idle, capSlack, websocket);
    } else {
      s := BeatsUpTo(start, idle, capSlack, websocket, n - 1);
      s := BeatOnce(Start(start), BeatTime(start, idle, n - 1), idle, capSlack, CapOf(start, idle, capSlack, websocket), s);
    }
  }

  /**
   The heartbeat never runs dry: for every n, for a WebSocket, and for every n up to the cap otherwise, there is a
   run in which the n-th beat has been written n thirds of the timeout after the start, and the request goes on.
   */
  lemma KeepsBeating(start: nat, idle: nat, capSlack: nat, websocket: bool, n: nat) returns (s: seq<Action>)
    requires idle / 3 > 0 && (!websocket ==> n * (idle / 3) <= 6 * (idle / 3) + capSlack)
    ensures var w, at := Run(Start(start), idle, capSlack, s), start + n * (idle / 3);
            w.now == at && w.score == Some(at) && w.phase.Beating? && w.phase.due == at + idle / 3
  {
    s := BeatsUpTo(start, idle, capSlack, websocket, n);
  }
}
