/**
 Newline framing of the Nomad event stream: what the consumer makes of bytes that arrive in arbitrary chunks.
 Decoding one line (UTF-8, trimming, JSON) is a parameter.
 */
module EventFraming {
  import opened Prelude

  newtype byte = b: int | 0 <= b < 256

  type Bytes = seq<byte>

  const NEWLINE: byte := 10

  /** The parts of an allocation payload that the processor looks at. */
  datatype Allocation = Allocation(id: string, jobId: Option<string>, clientStatus: string, desiredStatus: string)

  datatype Envelope = Envelope(topic: string, allocation: Option<Allocation>)

  datatype NomadEvent = NomadEvent(index: nat, envelope: Envelope)

  datatype Line = Blank | Unparsable | Frame(index: nat, events: seq<Envelope>)

  type Decoder = Bytes -> Line

  /** The position of the first newline, or the length. */
  function NewlineAt(s: Bytes): (n: nat)
    ensures n <= |s| && (n < |s| ==> s[n] == NEWLINE) && forall k :: 0 <= k < n ==> s[k] != NEWLINE
  {
    if s == [] || s[0] == NEWLINE then 0 else 1 + NewlineAt(s[1..])
  }

  predicate HasLine(s: Bytes) {
    NewlineAt(s) < |s|
  }

  /** The complete lines of a byte string, each with its newline. */
  function Lines(s: Bytes): seq<Bytes>
    decreases |s|
  {
    var n := NewlineAt(s);
    if n < |s| then [s[..n + 1]] + Lines(s[n + 1..]) else []
  }

  /** What stands after the last newline. */
  function Rest(s: Bytes): Bytes
    decreases |s|
  {
    var n := NewlineAt(s);
    if n < |s| then Rest(s[n + 1..]) else s
  }

  lemma NewlineAtOf(s: Bytes, n: nat)
    requires n < |s| && s[n] == NEWLINE && forall k :: 0 <= k < n ==> s[k] != NEWLINE
    ensures NewlineAt(s) == n
  {
    assert !(NewlineAt(s) < n);
  }

  /** Bytes after the first newline do not change the first line. */
  lemma FirstLineOf(a: Bytes, b: Bytes, n: nat)
    requires n < |a| && n == NewlineAt(a)
    ensures Lines(a + b) == [a[..n + 1]] + Lines(a[n + 1..] + b)
    ensures Rest(a + b) == Rest(a[n + 1..] + b)
  {
    NewlineAtOf(a + b, n);
    DropConcat(a, b, n + 1);
  }

  /** Lines are independent of where the byte string is cut. */
  lemma {:induction false} LinesConcat(a: Bytes, b: Bytes)
    ensures Lines(a + b) == Lines(a) + Lines(Rest(a) + b)
    ensures Rest(a + b) == Rest(Rest(a) + b)
    decreases |a|
  {
    var n := NewlineAt(a);
    if n < |a| {
      FirstLineOf(a, b, n);
      FirstLineOf(a, [], n);
      assert a + [] == a && a[n + 1..] + [] == a[n + 1..];
      LinesConcat(a[n + 1..], b);
      Associative([a[..n + 1]], Lines(a[n + 1..]), Lines(Rest(a[n + 1..]) + b));
    } else {
      assert Lines(a) == [] && Rest(a) == a;
    }
  }

  /** A line ends with the byte 10 and has no other. */
  lemma {:induction false} LineShape(s: Bytes, i: nat)
    requires i < |Lines(s)|
    ensures var l := Lines(s)[i]; l != [] && l[|l| - 1] == 10 && forall k :: 0 <= k < |l| - 1 ==> l[k] != 10
    decreases |s|
  {
    var n := NewlineAt(s);
    assert n < |s|;
    if i > 0 {
      LineShape(s[n + 1..], i - 1);
    }
  }

  lemma {:induction false} RestHasNoNewline(s: Bytes)
    ensures 10 !in Rest(s)
    decreases |s|
  {
    if HasLine(s) {
      RestHasNoNewline(s[NewlineAt(s) + 1..]);
    }
  }

  /** Lines and rest together are all the bytes. */
  lemma {:induction false} LinesAndRest(s: Bytes)
    ensures Flatten(Lines(s)) + Rest(s) == s
    decreases |s|
  {
    var n := NewlineAt(s);
    if n < |s| {
      LinesAndRest(s[n + 1..]);
      LineThenRest(s, n + 1, Lines(s[n + 1..]), Rest(s[n + 1..]));
    } else {
      assert Lines(s) == [] && Rest(s) == s;
      assert Flatten(Lines(s)) + Rest(s) == [] + s == s;
    }
  }

  lemma LineThenRest(s: Bytes, k: nat, lines: seq<Bytes>, rest: Bytes)
    requires k <= |s| && Flatten(lines) + rest == s[k..]
    ensures Flatten([s[..k]] + lines) + rest == s
  {
    FlattenCons(s[..k], lines);
    assert (s[..k] + Flatten(lines)) + rest == s[..k] + (Flatten(lines) + rest) == s[..k] + s[k..] == s;
  }

  lemma FlattenCons(head: Bytes, chunks: seq<Bytes>)
    ensures Flatten([head] + chunks) == head + Flatten(chunks)
  {
    assert ([head] + chunks)[1..] == chunks;
  }

  function Flatten(chunks: seq<Bytes>): Bytes {
    if chunks == [] then [] else chunks[0] + Flatten(chunks[1..])
  }

  // ---------------------------------------------------------------------------------------------
  // The consumer

  /** `stopped`: the receiver has been dropped and the stream has ended. */
  datatype Progress = Progress(lastIndex: nat, delivered: seq<NomadEvent>, stopped: bool)

  function Stamp(index: nat, events: seq<Envelope>): (r: seq<NomadEvent>)
    ensures |r| == |events|
  {
    if events == [] then [] else [NomadEvent(index, events[0])] + Stamp(index, events[1..])
  }

  function Take<T>(s: seq<T>, n: nat): seq<T> {
    if n < |s| then s[..n] else s
  }

  /** One line, when the receiver goes away after it has taken `limit` events. */
  function OnLine(decode: Decoder, limit: nat, p: Progress, line: Bytes): Progress {
    if p.stopped then p
    else
      match decode(line)
      case Blank => p
      case Unparsable => p
      case Frame(index, events) =>
        if events == [] then p
        else
          var all := p.delivered + Stamp(index, events);
          Progress(index, Take(all, limit), |all| > limit)
  }

  function OnLines(decode: Decoder, limit: nat, p: Progress, lines: seq<Bytes>): Progress {
    if lines == [] then p else OnLine(decode, limit, OnLines(decode, limit, p, lines[..|lines| - 1]), lines[|lines| - 1])
  }

  lemma {:induction false} OnLinesConcat(decode: Decoder, limit: nat, p: Progress, a: seq<Bytes>, b: seq<Bytes>)
    ensures OnLines(decode, limit, p, a + b) == OnLines(decode, limit, OnLines(decode, limit, p, a), b)
    decreases |b|
  {
    if b == [] {
      assert a + b == a;
    } else {
      assert (a + b)[..|a + b| - 1] == a + b[..|b| - 1];
      OnLinesConcat(decode, limit, p, a, b[..|b| - 1]);
    }
  }

  /** All events of some lines, in order. */
  function EventsOf(decode: Decoder, lines: seq<Bytes>): seq<NomadEvent> {
    if lines == [] then []
    else
      EventsOf(decode, lines[..|lines| - 1]) +
      match decode(lines[|lines| - 1])
      case Frame(index, events) => Stamp(index, events)
      case _ => []
  }

  /** The receiver gets the events of the lines in order, as far as it takes them. */
  lemma {:induction false} DeliversInOrder(decode: Decoder, limit: nat, start: nat, lines: seq<Bytes>)
    ensures var p := OnLines(decode, limit, Progress(start, [], false), lines);
            && p.delivered == Take(EventsOf(decode, lines), limit)
            && (p.stopped <==> |EventsOf(decode, lines)| > limit)
  {
    if lines != [] {
      DeliversInOrder(decode, limit, start, lines[..|lines| - 1]);
      var before := EventsOf(decode, lines[..|lines| - 1]);
      if decode(lines[|lines| - 1]).Frame? {
        var more := Stamp(decode(lines[|lines| - 1]).index, decode(lines[|lines| - 1]).events);
        assert |before| > limit ==> (before + more)[..limit] == before[..limit];
        assert more == [] ==> before + more == before;
      }
    }
  }

  /** Feeding chunk after chunk: progress and what is left in the buffer. */
  function FeedAll(decode: Decoder, limit: nat, p: Progress, buffer: Bytes, chunks: seq<Bytes>): (Progress, Bytes) {
    if chunks == [] then (p, buffer)
    else
      var before := FeedAll(decode, limit, p, buffer, chunks[..|chunks| - 1]);
      var all := before.1 + chunks[|chunks| - 1];
      (OnLines(decode, limit, before.0, Lines(all)), Rest(all))
  }

  /** Connection after connection, each with an empty buffer and the progress so far. */
  function FeedConnections(decode: Decoder, limit: nat, p: Progress, connections: seq<seq<Bytes>>): Progress {
    if connections == [] then p
    else
      var last := |connections| - 1;
      FeedAll(decode, limit, FeedConnections(decode, limit, p, connections[..last]), [], connections[last]).0
  }

  lemma {:induction false} FeedAllIsOnce(decode: Decoder, limit: nat, p: Progress, chunks: seq<Bytes>)
    ensures FeedAll(decode, limit, p, [], chunks) == (OnLines(decode, limit, p, Lines(Flatten(chunks))), Rest(Flatten(chunks)))
  {
    if chunks != [] {
      var before, last := chunks[..|chunks| - 1], chunks[|chunks| - 1];
      FeedAllIsOnce(decode, limit, p, before);
      FlattenSnoc(before, last);
      assert chunks == before + [last];
      LinesConcat(Flatten(before), last);
      OnLinesConcat(decode, limit, p, Lines(Flatten(before)), Lines(Rest(Flatten(before)) + last));
    }
  }

  lemma {:induction false} FlattenSnoc(chunks: seq<Bytes>, last: Bytes)
    ensures Flatten(chunks + [last]) == Flatten(chunks) + last
  {
    if chunks == [] {
      assert chunks + [last] == [last] && [last][1..] == [];
      assert Flatten([last]) == last + [] == [] + last;
    } else {
      assert (chunks + [last])[0] == chunks[0] && (chunks + [last])[1..] == chunks[1..] + [last];
      FlattenSnoc(chunks[1..], last);
      assert chunks[0] + (Flatten(chunks[1..]) + last) == chunks[0] + Flatten(chunks[1..]) + last;
    }
  }

  /**
   Chunk-independent framing: however the stream is cut into chunks, the events delivered are those of its
   complete lines, in order and as far as the receiver takes them, and the buffer holds exactly the bytes
   after the last newline.
   */
  lemma ChunkIndependent(decode: Decoder, limit: nat, start: nat, chunks: seq<Bytes>)
    ensures var all := Flatten(chunks);
            var (p, buffer) := FeedAll(decode, limit, Progress(start, [], false), [], chunks);
            && p.delivered == Take(EventsOf(decode, Lines(all)), limit)
            && (p.stopped <==> |EventsOf(decode, Lines(all))| > limit)
            && 10 !in buffer && Flatten(Lines(all)) + buffer == all
  {
    FeedAllIsOnce(decode, limit, Progress(start, [], false), chunks);
    DeliversInOrder(decode, limit, start, Lines(Flatten(chunks)));
    LinesAndRest(Flatten(chunks));
    RestHasNoNewline(Flatten(chunks));
  }
}

/** The consumer of events.rs, with its buffer drained in place. */
module EventObjects {
  import opened EventFraming

  class EventConsumer {
    const decode: Decoder
    const limit: nat
    var buffer: Bytes
    var lastIndex: nat
    var delivered: seq<NomadEvent>
    var stopped: bool

    constructor (decode: Decoder, limit: nat, initialIndex: nat)
      ensures this.decode == decode && this.limit == limit
      ensures buffer == [] && View() == Progress(initialIndex, [], false)
    {
      this.decode, this.limit := decode, limit;
      buffer, lastIndex, delivered, stopped := [], initialIndex, [], false;
    }

    ghost function View(): Progress
      reads this
    {
      Progress(lastIndex, delivered, stopped)
    }

    /** A new connection starts with an empty buffer and the index reached so far. */
    method Connect()
      modifies this`buffer
      ensures buffer == []
    {
      buffer := [];
    }

    /** Sends the events of a frame one by one, until the receiver is gone. */
    method SendFrame(index: nat, events: seq<Envelope>)
      requires !stopped && |delivered| <= limit && events != []
      modifies this`lastIndex, this`delivered, this`stopped
      ensures View() == Progress(index, Take(old(delivered) + Stamp(index, events), limit), |old(delivered)| + |events| > limit)
    {
      lastIndex := index;
      var i := 0;
      while i < |events|
        invariant i <= |events| && !stopped && |delivered| == |old(delivered)| + i <= limit && lastIndex == index
        invariant delivered + Stamp(index, events[i..]) == old(delivered) + Stamp(index, events)
      {
        assert events[i..][1..] == events[i + 1..];
        if |delivered| == limit {
          stopped := true;
          assert (old(delivered) + Stamp(index, events))[..limit] == delivered;
          return;
        }
        assert delivered + Stamp(index, events[i..]) == delivered + [NomadEvent(index, events[i])] + Stamp(index, events[i + 1..]);
        delivered := delivered + [NomadEvent(index, events[i])];
        i := i + 1;
      }
      assert delivered + [] == delivered;
    }

    /** One chunk: the buffer is extended, then drained line by line. */
    method OnChunk(bytes: Bytes)
      requires !stopped && |delivered| <= limit
      modifies this
      ensures View() == OnLines(decode, limit, old(View()), Lines(old(buffer) + bytes))
      ensures !stopped ==> buffer == Rest(old(buffer) + bytes) && |delivered| <= limit
    {
      buffer := buffer + bytes;
      ghost var all := buffer;
      ghost var done: seq<Bytes> := [];
      assert done + Lines(buffer) == Lines(all);
      while HasLine(buffer)
        invariant !stopped && |delivered| <= limit
        invariant done + Lines(buffer) == Lines(all) && Rest(buffer) == Rest(all)
        invariant View() == OnLines(decode, limit, old(View()), done)
        decreases |buffer|
      {
        var pos := NewlineAt(buffer);
        var line := buffer[..pos + 1];
        assert done + Lines(buffer) == done + [line] + Lines(buffer[pos + 1..]);
        buffer := buffer[pos + 1..];
        ghost var before := View();
        match decode(line) {
          case Blank =>
          case Unparsable =>
          case Frame(index, events) =>
            if events != [] {
              SendFrame(index, events);
            }
        }
        assert View() == OnLine(decode, limit, before, line);
        assert (done + [line])[..|done|] == done;
        done := done + [line];
        if stopped {
          OnLinesConcat(decode, limit, old(View()), done, Lines(buffer));
          StoppedStays(decode, limit, View(), Lines(buffer));
          return;
        }
      }
      assert done + [] == done;
    }

    /** One connection, up to the point where it breaks or the receiver is gone. */
    method ConnectAndConsume(chunks: seq<Bytes>)
      requires !stopped && |delivered| <= limit
      modifies this
      ensures View() == FeedAll(decode, limit, old(View()), [], chunks).0
      ensures !stopped ==> |delivered| <= limit
    {
      Connect();
      for i := 0 to |chunks|
        invariant !stopped && |delivered| <= limit
        invariant (View(), buffer) == FeedAll(decode, limit, old(View()), [], chunks[..i])
      {
        assert chunks[..i + 1][..i] == chunks[..i];
        OnChunk(chunks[i]);
        if stopped {
          assert View() == FeedAll(decode, limit, old(View()), [], chunks[..i + 1]).0;
          FeedStops(decode, limit, old(View()), chunks, i + 1);
          return;
        }
      }
      assert chunks[..|chunks|] == chunks;
    }

    /** The loop over connections, which ends when the receiver is gone. */
    method EventStreamLoop(connections: seq<seq<Bytes>>)
      requires !stopped && |delivered| <= limit
      modifies this
      ensures View() == FeedConnections(decode, limit, old(View()), connections)
    {
      for i := 0 to |connections|
        invariant !stopped && |delivered| <= limit
        invariant View() == FeedConnections(decode, limit, old(View()), connections[..i])
      {
        assert connections[..i + 1][..i] == connections[..i];
        ConnectAndConsume(connections[i]);
        if stopped {
          ConnectionsStop(decode, limit, old(View()), connections, i + 1);
          return;
        }
      }
      assert connections[..|connections|] == connections;
    }
  }

  lemma {:induction false} StoppedStays(decode: Decoder, limit: nat, p: Progress, lines: seq<Bytes>)
    requires p.stopped
    ensures OnLines(decode, limit, p, lines) == p
  {
    if lines != [] {
      StoppedStays(decode, limit, p, lines[..|lines| - 1]);
    }
  }

  /** Once the receiver is gone nothing more is delivered. */
  lemma {:induction false} FeedStops(decode: Decoder, limit: nat, p: Progress, chunks: seq<Bytes>, n: nat)
    requires n <= |chunks| && FeedAll(decode, limit, p, [], chunks[..n]).0.stopped
    ensures FeedAll(decode, limit, p, [], chunks).0 == FeedAll(decode, limit, p, [], chunks[..n]).0
    decreases |chunks|
  {
    if n == |chunks| {
      assert chunks[..n] == chunks;
    } else {
      var before := chunks[..|chunks| - 1];
      assert before[..n] == chunks[..n];
      FeedStops(decode, limit, p, before, n);
      var fed := FeedAll(decode, limit, p, [], before);
      StoppedStays(decode, limit, fed.0, Lines(fed.1 + chunks[|chunks| - 1]));
    }
  }

  lemma FeedStopped(decode: Decoder, limit: nat, p: Progress, chunks: seq<Bytes>)
    requires p.stopped
    ensures FeedAll(decode, limit, p, [], chunks).0 == p
  {
    assert chunks[..0] == [];
    FeedStops(decode, limit, p, chunks, 0);
  }

  lemma {:induction false} ConnectionsStop(decode: Decoder, limit: nat, p: Progress, connections: seq<seq<Bytes>>, n: nat)
    requires n <= |connections| && FeedConnections(decode, limit, p, connections[..n]).stopped
    ensures FeedConnections(decode, limit, p, connections) == FeedConnections(decode, limit, p, connections[..n])
    decreases |connections|
  {
    if n == |connections| {
      assert connections[..n] == connections;
    } else {
      var before := connections[..|connections| - 1];
      assert before[..n] == connections[..n];
      ConnectionsStop(decode, limit, p, before, n);
      FeedStopped(decode, limit, FeedConnections(decode, limit, p, before), connections[|connections| - 1]);
    }
  }
}
