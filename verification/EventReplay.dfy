/**
 Resuming the event stream by index: whatever is lost when connections break, replaying from the last index
 makes up for it.
 */
module EventReplay {
  import opened Prelude
  import opened EventFraming

  datatype EventFrame = EventFrame(index: nat, events: seq<Envelope>)

  // ---------------------------------------------------------------------------------------------
  // event_processor.rs

  /** The jobs that have a registration. */
  type Registered = set<string>

  predicate Stopping(a: Allocation) {
    a.clientStatus == "complete" || a.clientStatus == "failed" || a.clientStatus == "lost" || a.desiredStatus == "stop"
  }

  /** The allocation an event is about, if the processor acts on it: true when it runs, false when it has stopped. */
  function Touch(registered: Registered, e: NomadEvent): Option<(string, bool)> {
    if e.envelope.topic != "Allocation" || e.envelope.allocation.None? then None
    else
      var a := e.envelope.allocation.value;
      if a.jobId.None? || a.jobId.value !in registered then None
      else if a.clientStatus == "running" && a.desiredStatus == "run" then Some((a.id, true))
      else if Stopping(a) then Some((a.id, false))
      else None
  }

  /** The event is about an allocation of a registered job. */
  predicate About(registered: Registered, e: NomadEvent, id: string, job: string) {
    && e.envelope.topic == "Allocation" && e.envelope.allocation.Some?
    && e.envelope.allocation.value.id == id && e.envelope.allocation.value.jobId == Some(job) && job in registered
  }

  /** Nomad says that the allocation runs and is meant to run. */
  predicate SaysRunning(a: Allocation) {
    a.clientStatus == "running" && a.desiredStatus == "run"
  }

  /** Nomad says that it has ended, or that it is meant to stop. */
  predicate SaysStopped(a: Allocation) {
    a.clientStatus in {"complete", "failed", "lost"} || a.desiredStatus == "stop"
  }

  /**
   What an event does, in its own terms: an allocation of a registered job is seen as running from "running" with
   "run" on; "complete", "failed" and "lost", whatever is desired, and a desired "stop", whatever the client says,
   end that; no other event changes anything, and no event is about another allocation.
   */
  lemma EventMeaning(registered: Registered, seen: set<string>, e: NomadEvent, id: string, job: string)
    ensures About(registered, e, id, job) && SaysRunning(e.envelope.allocation.value) ==>
              Handle(registered, seen, e) == seen + {id}
    ensures About(registered, e, id, job) && SaysStopped(e.envelope.allocation.value) ==>
              Handle(registered, seen, e) == seen - {id}
    ensures About(registered, e, id, job) && !SaysRunning(e.envelope.allocation.value) && !SaysStopped(e.envelope.allocation.value) ==>
              Handle(registered, seen, e) == seen
    ensures (forall i, j :: !About(registered, e, i, j)) ==> Handle(registered, seen, e) == seen
  {
    if Touch(registered, e).Some? {
      var a := e.envelope.allocation.value;
      assert About(registered, e, a.id, a.jobId.value);
    }
  }

  function Handle(registered: Registered, seen: set<string>, e: NomadEvent): set<string> {
    match Touch(registered, e)
    case None => seen
    case Some((id, running)) => if running then seen + {id} else seen - {id}
  }

  function HandleAll(registered: Registered, seen: set<string>, events: seq<NomadEvent>): set<string> {
    if events == [] then seen
    else Handle(registered, HandleAll(registered, seen, events[..|events| - 1]), events[|events| - 1])
  }

  /** What the last event about an allocation says. */
  function LastTouch(registered: Registered, events: seq<NomadEvent>, id: string): Option<bool> {
    if events == [] then None
    else
      match Touch(registered, events[|events| - 1])
      case Some((x, running)) =>
        if x == id then Some(running) else LastTouch(registered, events[..|events| - 1], id)
      case None => LastTouch(registered, events[..|events| - 1], id)
  }

  /** The last word on each allocation decides whether it is seen as running. */
  lemma {:induction false} LastTouchDecides(registered: Registered, seen: set<string>, events: seq<NomadEvent>, id: string)
    ensures id in HandleAll(registered, seen, events) <==>
              match LastTouch(registered, events, id)
              case Some(running) => running
              case None => id in seen
  {
    if events != [] {
      LastTouchDecides(registered, seen, events[..|events| - 1], id);
    }
  }

  lemma {:induction false} LastTouchConcat(registered: Registered, a: seq<NomadEvent>, b: seq<NomadEvent>, id: string)
    ensures LastTouch(registered, a + b, id)
         == if LastTouch(registered, b, id).Some? then LastTouch(registered, b, id) else LastTouch(registered, a, id)
    decreases |b|
  {
    if b == [] {
      assert a + b == a;
    } else {
      assert (a + b)[..|a + b| - 1] == a + b[..|b| - 1];
      LastTouchConcat(registered, a, b[..|b| - 1], id);
    }
  }

  // ---------------------------------------------------------------------------------------------
  // Frames

  /** The frames the consumer acts on: decodable and not empty. */
  function FramesOf(decode: Decoder, lines: seq<Bytes>): seq<EventFrame> {
    if lines == [] then []
    else
      var before := FramesOf(decode, lines[..|lines| - 1]);
      match decode(lines[|lines| - 1])
      case Frame(index, events) => if events == [] then before else before + [EventFrame(index, events)]
      case _ => before
  }

  function FrameEvents(frames: seq<EventFrame>): seq<NomadEvent> {
    if frames == [] then []
    else
      var last := frames[|frames| - 1];
      FrameEvents(frames[..|frames| - 1]) + Stamp(last.index, last.events)
  }

  lemma {:induction false} FrameEventsConcat(a: seq<EventFrame>, b: seq<EventFrame>)
    ensures FrameEvents(a + b) == FrameEvents(a) + FrameEvents(b)
    decreases |b|
  {
    if b == [] {
      assert a + b == a;
    } else {
      assert (a + b)[..|a + b| - 1] == a + b[..|b| - 1];
      FrameEventsConcat(a, b[..|b| - 1]);
      var last := b[|b| - 1];
      assert FrameEvents(a) + FrameEvents(b[..|b| - 1]) + Stamp(last.index, last.events)
          == FrameEvents(a) + (FrameEvents(b[..|b| - 1]) + Stamp(last.index, last.events));
    }
  }

  lemma {:induction false} FramesOfConcat(decode: Decoder, a: seq<Bytes>, b: seq<Bytes>)
    ensures FramesOf(decode, a + b) == FramesOf(decode, a) + FramesOf(decode, b)
    decreases |b|
  {
    if b == [] {
      assert a + b == a;
    } else {
      assert (a + b)[..|a + b| - 1] == a + b[..|b| - 1];
      FramesOfConcat(decode, a, b[..|b| - 1]);
    }
  }

  function LastIndex(frames: seq<EventFrame>, otherwise: nat): nat {
    if frames == [] then otherwise else frames[|frames| - 1].index
  }

  /** What the consumer of `EventFraming` does with some lines, in terms of frames. */
  lemma {:induction false} ConsumerInFrames(decode: Decoder, limit: nat, p: Progress, lines: seq<Bytes>)
    requires !OnLines(decode, limit, p, lines).stopped
    ensures var p' := OnLines(decode, limit, p, lines);
            && !p.stopped
            && p'.delivered == p.delivered + FrameEvents(FramesOf(decode, lines))
            && p'.lastIndex == LastIndex(FramesOf(decode, lines), p.lastIndex)
  {
    if lines == [] {
      assert p.delivered + [] == p.delivered;
    } else {
      var before, line := lines[..|lines| - 1], lines[|lines| - 1];
      ConsumerInFrames(decode, limit, p, before);
      if decode(line).Frame? && decode(line).events != [] {
        var f := EventFrame(decode(line).index, decode(line).events);
        var frames := FramesOf(decode, before);
        assert (frames + [f])[..|frames|] == frames;
        assert p.delivered + FrameEvents(frames) + Stamp(f.index, f.events) == p.delivered + (FrameEvents(frames) + Stamp(f.index, f.events));
      }
    }
  }

  // ---------------------------------------------------------------------------------------------
  // Reconnecting

  /** Frame indices never go down. */
  ghost predicate Nondecreasing(frames: seq<EventFrame>) {
    forall i, k :: 0 <= i <= k < |frames| ==> frames[i].index <= frames[k].index
  }

  /** The position of the first frame with index at least n. */
  function StartAt(frames: seq<EventFrame>, n: nat): (p: nat)
    ensures p <= |frames|
    ensures forall k :: 0 <= k < p ==> frames[k].index < n
    ensures p < |frames| ==> frames[p].index >= n
  {
    if frames == [] || frames[0].index >= n then 0 else 1 + StartAt(frames[1..], n)
  }

  /** One connection: the whole response of the server, and the part that arrives before it breaks. */
  datatype Connection = Connection(response: Bytes, received: Bytes)

  /** The server answers index n with all frames from n on, with heartbeats and other lines in between. */
  ghost predicate Serves(decode: Decoder, frames: seq<EventFrame>, n: nat, c: Connection) {
    && c.received <= c.response
    && FramesOf(decode, Lines(c.response)) == frames[StartAt(frames, n)..]
  }

  /** What one connection applies. */
  function Applied(decode: Decoder, c: Connection): seq<EventFrame> {
    FramesOf(decode, Lines(c.received))
  }

  /** The index after some connections, and all frames applied on them, in order. */
  function IndexAfter(decode: Decoder, n: nat, cs: seq<Connection>): nat {
    if cs == [] then n else LastIndex(Applied(decode, cs[|cs| - 1]), IndexAfter(decode, n, cs[..|cs| - 1]))
  }

  function AllApplied(decode: Decoder, cs: seq<Connection>): seq<EventFrame> {
    if cs == [] then [] else AllApplied(decode, cs[..|cs| - 1]) + Applied(decode, cs[|cs| - 1])
  }

  /** Every connection asks for the index reached before it. */
  ghost predicate Resumes(decode: Decoder, frames: seq<EventFrame>, cs: seq<Connection>) {
    cs == [] ||
    (Resumes(decode, frames, cs[..|cs| - 1]) &&
     Serves(decode, frames, IndexAfter(decode, 0, cs[..|cs| - 1]), cs[|cs| - 1]))
  }

  /** A broken connection applies a contiguous stretch of the frames, from where it was asked to start. */
  lemma ReceivedIsStretch(decode: Decoder, frames: seq<EventFrame>, n: nat, c: Connection) returns (b: nat)
    requires Serves(decode, frames, n, c)
    ensures StartAt(frames, n) <= b <= |frames|
    ensures Applied(decode, c) == frames[StartAt(frames, n)..b]
  {
    var a := StartAt(frames, n);
    var lost := c.response[|c.received|..];
    assert c.response == c.received + lost;
    LinesConcat(c.received, lost);
    FramesOfConcat(decode, Lines(c.received), Lines(Rest(c.received) + lost));
    b := a + |Applied(decode, c)|;
    assert frames[a..][..|Applied(decode, c)|] == frames[a..b];
  }

  /** The next start lies within what has been applied. */
  lemma NextStart(frames: seq<EventFrame>, n: nat, b: nat)
    requires Nondecreasing(frames) && StartAt(frames, n) <= b <= |frames|
    ensures var n' := LastIndex(frames[StartAt(frames, n)..b], n);
            StartAt(frames, n) <= StartAt(frames, n') <= b
  {
    var a := StartAt(frames, n);
    if a < b {
      assert frames[a..b][b - a - 1] == frames[b - 1];
    }
  }

  /**
   After the frames before `a` have all been applied at least once: an allocation that no later frame is
   about is seen as running exactly if the whole stream says so.
   */
  ghost predicate Settled(registered: Registered, frames: seq<EventFrame>, a: nat, seen: set<string>)
    requires a <= |frames|
  {
    forall id :: LastTouch(registered, FrameEvents(frames[a..]), id).None? ==>
      (id in seen <==> LastTouch(registered, FrameEvents(frames), id) == Some(true))
  }

  lemma SplitTouch(registered: Registered, frames: seq<EventFrame>, a: nat, b: nat, id: string)
    requires a <= b <= |frames|
    ensures LastTouch(registered, FrameEvents(frames[a..]), id)
         == if LastTouch(registered, FrameEvents(frames[b..]), id).Some? then LastTouch(registered, FrameEvents(frames[b..]), id)
            else LastTouch(registered, FrameEvents(frames[a..b]), id)
  {
    assert frames[a..] == frames[a..b] + frames[b..];
    FrameEventsConcat(frames[a..b], frames[b..]);
    LastTouchConcat(registered, FrameEvents(frames[a..b]), FrameEvents(frames[b..]), id);
  }

  lemma StretchTouch(registered: Registered, frames: seq<EventFrame>, a: nat, m: nat, b: nat, id: string)
    requires a <= m <= b <= |frames|
    ensures LastTouch(registered, FrameEvents(frames[a..b]), id)
         == if LastTouch(registered, FrameEvents(frames[m..b]), id).Some? then LastTouch(registered, FrameEvents(frames[m..b]), id)
            else LastTouch(registered, FrameEvents(frames[a..m]), id)
  {
    assert frames[a..b] == frames[a..m] + frames[m..b];
    FrameEventsConcat(frames[a..m], frames[m..b]);
    LastTouchConcat(registered, FrameEvents(frames[a..m]), FrameEvents(frames[m..b]), id);
  }

  /** Applying a stretch from `a` settles everything up to any later start within it. */
  lemma StretchSettles(registered: Registered, frames: seq<EventFrame>, a: nat, m: nat, b: nat, seen: set<string>)
    requires a <= m <= b <= |frames| && Settled(registered, frames, a, seen)
    ensures Settled(registered, frames, m, HandleAll(registered, seen, FrameEvents(frames[a..b])))
  {
    forall id | LastTouch(registered, FrameEvents(frames[m..]), id).None?
      ensures id in HandleAll(registered, seen, FrameEvents(frames[a..b])) <==>
                LastTouch(registered, FrameEvents(frames), id) == Some(true)
    {
      LastTouchDecides(registered, seen, FrameEvents(frames[a..b]), id);
      SplitTouch(registered, frames, a, m, id);
      SplitTouch(registered, frames, m, b, id);
      StretchTouch(registered, frames, a, m, b, id);
      SplitTouch(registered, frames, 0, a, id);
      assert frames[0..] == frames;
    }
  }

  lemma {:induction false} ResumedIsSettled(decode: Decoder, registered: Registered, frames: seq<EventFrame>, cs: seq<Connection>)
    requires Nondecreasing(frames) && Resumes(decode, frames, cs)
    ensures var a := StartAt(frames, IndexAfter(decode, 0, cs));
            && Settled(registered, frames, a, HandleAll(registered, {}, FrameEvents(AllApplied(decode, cs))))
            && (forall k :: 0 <= k < a ==> frames[k] in AllApplied(decode, cs))
  {
    if cs == [] {
      assert frames[0..] == frames;
    } else {
      var before, c := cs[..|cs| - 1], cs[|cs| - 1];
      var n := IndexAfter(decode, 0, before);
      ResumedIsSettled(decode, registered, frames, before);
      var a := StartAt(frames, n);
      var b := ReceivedIsStretch(decode, frames, n, c);
      NextStart(frames, n, b);
      var m := StartAt(frames, IndexAfter(decode, 0, cs));
      StretchSettles(registered, frames, a, m, b, HandleAll(registered, {}, FrameEvents(AllApplied(decode, before))));
      FrameEventsConcat(AllApplied(decode, before), Applied(decode, c));
      HandleAllConcat(registered, {}, FrameEvents(AllApplied(decode, before)), FrameEvents(Applied(decode, c)));
      forall k | 0 <= k < m ensures frames[k] in AllApplied(decode, cs) {
        if k >= a {
          assert frames[k] == frames[a..b][k - a];
        }
      }
    }
  }

  lemma {:induction false} HandleAllConcat(registered: Registered, seen: set<string>, a: seq<NomadEvent>, b: seq<NomadEvent>)
    ensures HandleAll(registered, seen, a + b) == HandleAll(registered, HandleAll(registered, seen, a), b)
    decreases |b|
  {
    if b == [] {
      assert a + b == a;
    } else {
      assert (a + b)[..|a + b| - 1] == a + b[..|b| - 1];
      HandleAllConcat(registered, seen, a, b[..|b| - 1]);
    }
  }

  /** The same of what the processor acts on. */
  lemma EventMeaningOf(registered: Registered, e: NomadEvent)
    ensures Touch(registered, e).Some? ==>
              var a := e.envelope.allocation.value;
              && About(registered, e, a.id, a.jobId.value) && Touch(registered, e).value.0 == a.id
              && (if Touch(registered, e).value.1 then SaysRunning(a) else SaysStopped(a))
    ensures forall id, job :: About(registered, e, id, job) && (SaysRunning(e.envelope.allocation.value) || SaysStopped(e.envelope.allocation.value)) ==>
              Touch(registered, e) == Some((id, SaysRunning(e.envelope.allocation.value)))
  {
  }

  /** When everything is settled, what is seen is what the uninterrupted stream leads to. */
  lemma SettledAtEnd(registered: Registered, frames: seq<EventFrame>, seen: set<string>)
    requires Settled(registered, frames, |frames|, seen)
    ensures seen == HandleAll(registered, {}, FrameEvents(frames))
  {
    assert frames[|frames|..] == [];
    forall id ensures id in seen <==> id in HandleAll(registered, {}, FrameEvents(frames)) {
      assert LastTouch(registered, FrameEvents(frames[|frames|..]), id).None?;
      LastTouchDecides(registered, {}, FrameEvents(frames), id);
    }
  }

  /** A connection that brings all frames from `a` on settles everything and leaves no frame out. */
  lemma LastStretch(registered: Registered, frames: seq<EventFrame>, a: nat, applied: seq<EventFrame>)
    requires a <= |frames|
    requires Settled(registered, frames, a, HandleAll(registered, {}, FrameEvents(applied)))
    requires forall k :: 0 <= k < a ==> frames[k] in applied
    ensures HandleAll(registered, {}, FrameEvents(applied + frames[a..])) == HandleAll(registered, {}, FrameEvents(frames))
    ensures forall f :: f in frames ==> f in applied + frames[a..]
  {
    var seen := HandleAll(registered, {}, FrameEvents(applied));
    assert frames[a..] == frames[a..|frames|];
    StretchSettles(registered, frames, a, |frames|, |frames|, seen);
    SettledAtEnd(registered, frames, HandleAll(registered, seen, FrameEvents(frames[a..])));
    FrameEventsConcat(applied, frames[a..]);
    HandleAllConcat(registered, {}, FrameEvents(applied), FrameEvents(frames[a..]));
    forall f | f in frames ensures f in applied + frames[a..] {
      var k :| 0 <= k < |frames| && frames[k] == f;
      if k >= a {
        assert frames[a..][k - a] == f;
      }
    }
  }

  /**
   Replay: however often and at whatever byte the connection breaks, once a connection has brought the last
   frames, every frame has been applied at least once and the set of running allocations is the one the
   uninterrupted stream leads to.
   */
  lemma ReplayEqualsUninterrupted(decode: Decoder, registered: Registered, frames: seq<EventFrame>, cs: seq<Connection>)
    requires Nondecreasing(frames) && Resumes(decode, frames, cs)
    requires cs != [] && cs[|cs| - 1].received == cs[|cs| - 1].response
    ensures HandleAll(registered, {}, FrameEvents(AllApplied(decode, cs))) == HandleAll(registered, {}, FrameEvents(frames))
    ensures forall f :: f in frames ==> f in AllApplied(decode, cs)
  {
    var before := cs[..|cs| - 1];
    ResumedIsSettled(decode, registered, frames, before);
    LastStretch(registered, frames, StartAt(frames, IndexAfter(decode, 0, before)), AllApplied(decode, before));
  }

  // ---------------------------------------------------------------------------------------------
  // From bytes to the processor

  /** The chunks of each connection are the bytes it received. */
  ghost predicate Chunked(cs: seq<Connection>, connections: seq<seq<Bytes>>) {
    |connections| == |cs| && forall i :: 0 <= i < |cs| ==> Flatten(connections[i]) == cs[i].received
  }

  /** One connection, in frames. */
  lemma ConnectionInFrames(decode: Decoder, limit: nat, p: Progress, chunks: seq<Bytes>, c: Connection)
    requires Flatten(chunks) == c.received && !FeedAll(decode, limit, p, [], chunks).0.stopped
    ensures var p' := FeedAll(decode, limit, p, [], chunks).0;
            && !p.stopped
            && p'.delivered == p.delivered + FrameEvents(Applied(decode, c))
            && p'.lastIndex == LastIndex(Applied(decode, c), p.lastIndex)
  {
    FeedAllIsOnce(decode, limit, p, chunks);
    ConsumerInFrames(decode, limit, p, Lines(c.received));
  }

  /**
   The consumer, fed the bytes of each connection in any chunks, delivers the events of all frames applied and
   reaches the index that the next connection asks for, as long as its receiver stays.
   */
  lemma {:induction false} ConsumerReplays(decode: Decoder, limit: nat, cs: seq<Connection>, connections: seq<seq<Bytes>>)
    requires Chunked(cs, connections)
    requires !FeedConnections(decode, limit, Progress(0, [], false), connections).stopped
    ensures var p := FeedConnections(decode, limit, Progress(0, [], false), connections);
            && p.delivered == FrameEvents(AllApplied(decode, cs))
            && p.lastIndex == IndexAfter(decode, 0, cs)
  {
    if cs != [] {
      var last := |cs| - 1;
      var before := FeedConnections(decode, limit, Progress(0, [], false), connections[..last]);
      ConnectionInFrames(decode, limit, before, connections[last], cs[last]);
      ConsumerReplays(decode, limit, cs[..last], connections[..last]);
      FrameEventsConcat(AllApplied(decode, cs[..last]), Applied(decode, cs[last]));
    }
  }

  /**
   End to end: whatever the chunks and wherever the connections break, the events that reach the processor leave
   it with the running set of the uninterrupted stream.
   */
  lemma DeliveredEqualsUninterrupted(
      decode: Decoder, limit: nat, registered: Registered, frames: seq<EventFrame>, cs: seq<Connection>, connections: seq<seq<Bytes>>)
    requires Nondecreasing(frames) && Resumes(decode, frames, cs) && Chunked(cs, connections)
    requires cs != [] && cs[|cs| - 1].received == cs[|cs| - 1].response
    requires !FeedConnections(decode, limit, Progress(0, [], false), connections).stopped
    ensures HandleAll(registered, {}, FeedConnections(decode, limit, Progress(0, [], false), connections).delivered)
         == HandleAll(registered, {}, FrameEvents(frames))
  {
    ConsumerReplays(decode, limit, cs, connections);
    ReplayEqualsUninterrupted(decode, registered, frames, cs);
  }
}

/** event_processor.rs: the set of running allocations and the calls it makes, updated in place. */
module EventProcessorObjects {
  import opened Prelude
  import opened EventFraming
  import opened EventReplay

  class EventProcessor {
    const registered: Registered
    var seenRunning: set<string>
    var recorded: seq<string>
    var dormant: seq<string>

    constructor (registered: Registered)
      ensures this.registered == registered && seenRunning == {} && recorded == [] && dormant == []
    {
      this.registered := registered;
      seenRunning, recorded, dormant := {}, [], [];
    }

    /** Records activity the first time an allocation is seen running; marks the job dormant when one stops. */
    method HandleEvent(e: NomadEvent)
      modifies this
      ensures seenRunning == Handle(registered, old(seenRunning), e)
      ensures match Touch(registered, e)
              case None => recorded == old(recorded) && dormant == old(dormant)
              case Some((id, running)) =>
                var job := e.envelope.allocation.value.jobId.value;
                && recorded == (if running && id !in old(seenRunning) then old(recorded) + [job] else old(recorded))
                && dormant == (if running then old(dormant) else old(dormant) + [job])
      ensures forall id, job :: About(registered, e, id, job) && SaysRunning(e.envelope.allocation.value) ==>
                && seenRunning == old(seenRunning) + {id} && dormant == old(dormant)
                && recorded == (if id in old(seenRunning) then old(recorded) else old(recorded) + [job])
      ensures forall id, job :: About(registered, e, id, job) && SaysStopped(e.envelope.allocation.value) ==>
                seenRunning == old(seenRunning) - {id} && dormant == old(dormant) + [job] && recorded == old(recorded)
      ensures (forall id, job :: About(registered, e, id, job) ==>
                 !SaysRunning(e.envelope.allocation.value) && !SaysStopped(e.envelope.allocation.value)) ==>
                seenRunning == old(seenRunning) && dormant == old(dormant) && recorded == old(recorded)
    {
      EventMeaningOf(registered, e);
      if e.envelope.topic != "Allocation" || e.envelope.allocation.None? {
        return;
      }
      var alloc := e.envelope.allocation.value;
      if alloc.jobId.None? || alloc.jobId.value !in registered {
        return;
      }
      var job := alloc.jobId.value;
      if alloc.clientStatus == "running" && alloc.desiredStatus == "run" {
        var isNew := alloc.id !in seenRunning;
        seenRunning := seenRunning + {alloc.id};
        if isNew {
          recorded := recorded + [job];
        }
      } else if Stopping(alloc) {
        seenRunning := seenRunning - {alloc.id};
        dormant := dormant + [job];
      }
    }

    method Run(events: seq<NomadEvent>)
      modifies this
      ensures seenRunning == HandleAll(registered, old(seenRunning), events)
    {
      for i := 0 to |events|
        invariant seenRunning == HandleAll(registered, old(seenRunning), events[..i])
      {
        assert events[..i + 1][..i] == events[..i];
        HandleEvent(events[i]);
      }
      assert events[..|events|] == events;
    }
  }
}
