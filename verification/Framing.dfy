/** Framing refines a pure specification: the lines delivered for a stream are its share of the first
    bytes of the scope, split at CR, LF and CRLF, cut to the line limit, normalized, without blank
    lines, numbered from 1. */
module Framing {
  import opened Model
  import opened Text
  import opened Engine
  import ChunkInvariance
  import opened Lifecycle
  import opened Isolation

  // ---------------------------------------------------------------- the specification

  predicate IsBreak(b: byte) {
    b == CR || b == LF
  }

  function FirstBreak(w: seq<byte>): (k: nat)
    ensures k <= |w| && (forall i | 0 <= i < k :: !IsBreak(w[i])) && (k < |w| ==> IsBreak(w[k]))
  {
    if w == [] || IsBreak(w[0]) then 0 else 1 + FirstBreak(w[1..])
  }

  // What follows the first terminator, where CRLF is one terminator.
  function AfterFirst(w: seq<byte>): (rest: seq<byte>)
    requires FirstBreak(w) < |w|
    ensures |rest| < |w|
  {
    var k := FirstBreak(w);
    if w[k] == CR && k + 1 < |w| && w[k + 1] == LF then w[k + 2..] else w[k + 1..]
  }

  // The segments of an input.
  function SplitLines(w: seq<byte>): seq<seq<byte>> {
    if w == [] then []
    else if FirstBreak(w) == |w| then [w]
    else [w[..FirstBreak(w)]] + SplitLines(AfterFirst(w))
  }

  datatype Delivery = Delivery(text: string, cut: bool)

  // What one raw segment is delivered as: nothing if its retained part normalizes to blank.
  function Deliver(limits: Limits, segment: seq<byte>): seq<Delivery> {
    var text := NormalizeLine(segment[..Min(|segment|, limits.maxLineBytes)]);
    if text == [] then [] else [Delivery(text, |segment| > limits.maxLineBytes)]
  }

  function DeliverAll(limits: Limits, segments: seq<seq<byte>>): seq<Delivery> {
    if segments == [] then [] else Deliver(limits, segments[0]) + DeliverAll(limits, segments[1..])
  }

  function Delivered(limits: Limits, w: seq<byte>): seq<Delivery> {
    DeliverAll(limits, SplitLines(w))
  }

  datatype Numbered = Numbered(number: u64, text: string, cut: bool)

  // Deliveries numbered 1, 2, 3, ... up to the capacity of the counter.
  function Number(deliveries: seq<Delivery>): seq<Numbered> {
    seq(|deliveries|, i requires 0 <= i < |deliveries| =>
      Numbered(Min(i + 1, U64_MAX), deliveries[i].text, deliveries[i].cut))
  }

  type Tagged = (Stream, byte)

  function Tag(stream: Stream, chunk: seq<byte>): seq<Tagged> {
    seq(|chunk|, i requires 0 <= i < |chunk| => (stream, chunk[i]))
  }

  // All bytes pushed to a scope, in order, with the stream each was pushed to.
  function Pushed(ops: seq<Op>, id: string): seq<Tagged> {
    if ops == [] then []
    else
      var before := Pushed(ops[..|ops| - 1], id);
      match ops[|ops| - 1]
      case Push(i, stream, chunk) => if i == id then before + Tag(stream, chunk) else before
      case _ => before
  }

  function BytesOf(tagged: seq<Tagged>, stream: Stream): seq<byte> {
    if tagged == [] then []
    else
      var before := BytesOf(tagged[..|tagged| - 1], stream);
      if tagged[|tagged| - 1].0 == stream then before + [tagged[|tagged| - 1].1] else before
  }

  // What the scope retains: the first bytes pushed to it, whatever their stream.
  function Retained(limits: Limits, pushed: seq<Tagged>): seq<Tagged> {
    pushed[..Min(|pushed|, limits.maxScopeBytes)]
  }

  function Share(limits: Limits, pushed: seq<Tagged>, stream: Stream): seq<byte> {
    BytesOf(Retained(limits, pushed), stream)
  }

  // The lines of one stream among the events of a scope.
  function LinesOf(events: seq<Event>, stream: Stream): seq<Numbered> {
    if events == [] then []
    else
      var before := LinesOf(events[..|events| - 1], stream);
      match events[|events| - 1]
      case Line(line) =>
        if line.stream == stream then before + [Numbered(line.streamLine, line.text, line.truncated)] else before
      case _ => before
  }

  predicate AllLines(events: seq<Event>, scope: Scope) {
    forall i | 0 <= i < |events| :: events[i].Line? && events[i].line.scope == scope
  }

  predicate AnyCut(events: seq<Event>) {
    exists i :: 0 <= i < |events| && events[i].Line? && events[i].line.truncated
  }

  // ---------------------------------------------------------------- byte by byte

  // The terminated segments so far and the open one, every CR and every LF being a terminator.
  function Closed(w: seq<byte>): seq<seq<byte>> {
    if w == [] then []
    else if IsBreak(w[|w| - 1]) then Closed(w[..|w| - 1]) + [Rest(w[..|w| - 1])]
    else Closed(w[..|w| - 1])
  }

  function Rest(w: seq<byte>): seq<byte> {
    if w == [] || IsBreak(w[|w| - 1]) then [] else Rest(w[..|w| - 1]) + [w[|w| - 1]]
  }

  lemma {:induction false} UnbrokenRest(w: seq<byte>)
    requires FirstBreak(w) == |w|
    ensures Closed(w) == [] && Rest(w) == w
  {
    if w != [] {
      UnbrokenRest(w[..|w| - 1]);
    }
  }

  lemma {:induction false} ClosedFirst(segment: seq<byte>, b: byte, tail: seq<byte>)
    requires forall i | 0 <= i < |segment| :: !IsBreak(segment[i])
    requires IsBreak(b)
    ensures Closed(segment + [b] + tail) == [segment] + Closed(tail)
    ensures Rest(segment + [b] + tail) == Rest(tail)
  {
    var w := segment + [b] + tail;
    if tail == [] {
      UnbrokenRest(segment);
      assert w[..|w| - 1] == segment;
    } else {
      assert w[..|w| - 1] == segment + [b] + tail[..|tail| - 1];
      ClosedFirst(segment, b, tail[..|tail| - 1]);
    }
  }

  function NonEmpty(segments: seq<seq<byte>>): seq<seq<byte>> {
    if segments == [] then []
    else if segments[0] == [] then NonEmpty(segments[1..])
    else [segments[0]] + NonEmpty(segments[1..])
  }

  lemma NonEmptyFirst(segment: seq<byte>, rest: seq<seq<byte>>)
    ensures NonEmpty([segment] + rest) == if segment == [] then NonEmpty(rest) else [segment] + NonEmpty(rest)
  {
    assert ([segment] + rest)[1..] == rest;
  }

  // The segments when every CR and every LF is a terminator.
  function SplitEverywhere(w: seq<byte>): seq<seq<byte>> {
    Closed(w) + [Rest(w)]
  }

  lemma EverywhereFirst(segment: seq<byte>, b: byte, tail: seq<byte>)
    requires forall i | 0 <= i < |segment| :: !IsBreak(segment[i])
    requires IsBreak(b)
    ensures SplitEverywhere(segment + [b] + tail) == [segment] + SplitEverywhere(tail)
  {
    ClosedFirst(segment, b, tail);
  }

  lemma CutAt(w: seq<byte>, k: nat)
    requires k < |w|
    ensures w == w[..k] + [w[k]] + w[k + 1..]
  {
  }

  lemma CutHead(w: seq<byte>, k: nat)
    requires k < |w|
    ensures w[k..] == [w[k]] + w[k + 1..]
  {
  }

  // A leading LF only adds an empty segment.
  lemma SkippedLf(rest: seq<byte>)
    ensures NonEmpty(SplitEverywhere([LF] + rest)) == NonEmpty(SplitEverywhere(rest))
  {
    assert [] + [LF] + rest == [LF] + rest;
    EverywhereFirst([], LF, rest);
    NonEmptyFirst([], SplitEverywhere(rest));
  }

  // The LF of a CRLF adds an empty segment only.
  lemma TailWithoutLf(w: seq<byte>)
    requires FirstBreak(w) < |w|
    ensures NonEmpty(SplitEverywhere(w[FirstBreak(w) + 1..])) == NonEmpty(SplitEverywhere(AfterFirst(w)))
  {
    var k := FirstBreak(w);
    if AfterFirst(w) != w[k + 1..] {
      CutHead(w, k + 1);
      SkippedLf(AfterFirst(w));
    }
  }

  lemma EverywhereStep(w: seq<byte>)
    requires FirstBreak(w) < |w|
    ensures NonEmpty(SplitEverywhere(w)) == NonEmpty([w[..FirstBreak(w)]] + SplitEverywhere(AfterFirst(w)))
  {
    var k := FirstBreak(w);
    var first, tail := w[..k], w[k + 1..];
    CutAt(w, k);
    EverywhereFirst(first, w[k], tail);
    TailWithoutLf(w);
    NonEmptyFirst(first, SplitEverywhere(tail));
    NonEmptyFirst(first, SplitEverywhere(AfterFirst(w)));
  }

  /** Tracking CR before LF only avoids empty segments: splitting at every CR and every LF gives the
      same non-empty segments as splitting with CRLF as one terminator. */
  lemma {:induction false} CrTrackingInvisible(w: seq<byte>)
    ensures NonEmpty(SplitLines(w)) == NonEmpty(SplitEverywhere(w))
    decreases |w|
  {
    if FirstBreak(w) == |w| {
      UnbrokenRest(w);
    } else {
      EverywhereStep(w);
      CrTrackingInvisible(AfterFirst(w));
      NonEmptyFirst(w[..FirstBreak(w)], SplitEverywhere(AfterFirst(w)));
      NonEmptyFirst(w[..FirstBreak(w)], SplitLines(AfterFirst(w)));
    }
  }

  lemma {:induction false} DeliverConcat(limits: Limits, x: seq<seq<byte>>, y: seq<seq<byte>>)
    ensures DeliverAll(limits, x + y) == DeliverAll(limits, x) + DeliverAll(limits, y)
  {
    if x == [] {
      assert x + y == y;
    } else {
      assert (x + y)[1..] == x[1..] + y;
      DeliverConcat(limits, x[1..], y);
    }
  }

  lemma DeliverNothing(limits: Limits)
    ensures Deliver(limits, []) == []
  {
    assert IsPlain([]) && Utf8.Ascii([]) == [];
  }

  // Nothing is delivered for an empty segment.
  lemma {:induction false} DeliverNonEmpty(limits: Limits, segments: seq<seq<byte>>)
    ensures DeliverAll(limits, NonEmpty(segments)) == DeliverAll(limits, segments)
  {
    if segments != [] {
      DeliverNonEmpty(limits, segments[1..]);
      DeliverNothing(limits);
    }
  }

  /** The session's byte-wise splitting delivers what the specification delivers. */
  lemma DeliveredByByte(limits: Limits, w: seq<byte>)
    ensures Delivered(limits, w) == DeliverAll(limits, Closed(w)) + Deliver(limits, Rest(w))
  {
    CrTrackingInvisible(w);
    DeliverNonEmpty(limits, SplitLines(w));
    DeliverNonEmpty(limits, SplitEverywhere(w));
    DeliverConcat(limits, Closed(w), [Rest(w)]);
    DeliverConcat(limits, [Rest(w)], []);
  }

  // ---------------------------------------------------------------- one line into the session

  // The deliveries of a stream, as the session has shown and counted them.
  ghost predicate Counted(f: Front, id: string, body: seq<Event>, stream: Stream, deliveries: seq<Delivery>) {
    && id in f.scopes
    && LinesOf(body, stream) == Number(deliveries)
    && LineCount(f.scopes[id].lines, stream) == Min(|deliveries|, U64_MAX)
  }

  // The scope is open; since it began, exactly the lines of the body were shown of it.
  ghost predicate Shown(f: Front, base: seq<Event>, scope: Scope, body: seq<Event>, over: bool) {
    && Named(f)
    && scope.id in f.scopes && f.scopes[scope.id].scope == scope
    && Project(f.trace, scope.id) == base + [Began(scope)] + body
    && AllLines(body, scope)
    && f.scopes[scope.id].truncated == (over || AnyCut(body))
  }

  function DeliverText(text: string, cut: bool): seq<Delivery> {
    if text == [] then [] else [Delivery(text, cut)]
  }

  ghost function NextBody(f: Front, scope: Scope, body: seq<Event>, stream: Stream, text: string, cut: bool): seq<Event>
    requires scope.id in f.scopes
  {
    if text == [] then body
    else body + [Line(LogLine(scope, stream, 0, SatAdd(LineCount(f.scopes[scope.id].lines, stream), 1), text, cut))]
  }

  lemma LinesOfAppend(body: seq<Event>, line: LogLine, stream: Stream)
    ensures LinesOf(body + [Line(line)], stream) ==
      if line.stream == stream then LinesOf(body, stream) + [Numbered(line.streamLine, line.text, line.truncated)]
      else LinesOf(body, stream)
  {
    assert (body + [Line(line)])[..|body|] == body;
  }

  lemma AnyCutAppend(body: seq<Event>, line: LogLine)
    ensures AnyCut(body + [Line(line)]) <==> AnyCut(body) || line.truncated
  {
    var longer := body + [Line(line)];
    assert longer[|body|] == Line(line);
    if AnyCut(body) {
      var i :| 0 <= i < |body| && body[i].Line? && body[i].line.truncated;
      assert longer[i] == body[i];
    }
  }

  lemma NumberAppend(deliveries: seq<Delivery>, delivery: Delivery)
    ensures Number(deliveries + [delivery]) ==
      Number(deliveries) + [Numbered(Min(|deliveries| + 1, U64_MAX), delivery.text, delivery.cut)]
  {
  }

  lemma DispatchShown(f: Front, base: seq<Event>, scope: Scope, body: seq<Event>, over: bool, stream: Stream, bytes: seq<byte>, cut: bool)
    requires Shown(f, base, scope, body, over)
    ensures Shown(Dispatch(f, scope.id, stream, bytes, cut), base, scope,
      NextBody(f, scope, body, stream, NormalizeLine(bytes), cut), over)
  {
    var text := NormalizeLine(bytes);
    if text != [] {
      var g := Dispatch(f, scope.id, stream, bytes, cut);
      var next := NextBody(f, scope, body, stream, text, cut);
      ProjectAppend(f.trace, g.trace[|f.trace|], scope.id);
      AnyCutAppend(body, next[|body|].line);
    }
  }

  // A line more in the body, the deliveries and the counter.
  lemma DeliveredLine(f: Front, scope: Scope, body: seq<Event>, stream: Stream, text: string, cut: bool, deliveries: seq<Delivery>)
    requires Counted(f, scope.id, body, stream, deliveries) && text != []
    ensures LinesOf(NextBody(f, scope, body, stream, text, cut), stream) == Number(deliveries + [Delivery(text, cut)])
  {
    LinesOfAppend(body, NextBody(f, scope, body, stream, text, cut)[|body|].line, stream);
    NumberAppend(deliveries, Delivery(text, cut));
  }

  lemma DispatchCounted(f: Front, scope: Scope, body: seq<Event>, stream: Stream, bytes: seq<byte>, cut: bool, deliveries: seq<Delivery>)
    requires Counted(f, scope.id, body, stream, deliveries)
    ensures Counted(Dispatch(f, scope.id, stream, bytes, cut), scope.id,
      NextBody(f, scope, body, stream, NormalizeLine(bytes), cut), stream, deliveries + DeliverText(NormalizeLine(bytes), cut))
  {
    var text := NormalizeLine(bytes);
    if text != [] {
      DeliveredLine(f, scope, body, stream, text, cut, deliveries);
    }
  }

  lemma DispatchOthers(f: Front, scope: Scope, body: seq<Event>, stream: Stream, bytes: seq<byte>, cut: bool, other: Stream, deliveries: seq<Delivery>)
    requires Counted(f, scope.id, body, other, deliveries) && other != stream
    ensures Counted(Dispatch(f, scope.id, stream, bytes, cut), scope.id,
      NextBody(f, scope, body, stream, NormalizeLine(bytes), cut), other, deliveries)
  {
    var text := NormalizeLine(bytes);
    if text != [] {
      LinesOfAppend(body, NextBody(f, scope, body, stream, text, cut)[|body|].line, other);
    }
  }

  // ---------------------------------------------------------------- one byte into the session

  // The line buffer after the retained bytes of a stream.
  function Held(limits: Limits, w: seq<byte>): LineBuffer {
    LineBuffer(Rest(w)[..Min(|Rest(w)|, limits.maxLineBytes)], |Rest(w)| > limits.maxLineBytes, w != [] && w[|w| - 1] == CR)
  }

  ghost predicate StreamFramed(limits: Limits, f: Front, id: string, body: seq<Event>, stream: Stream, w: seq<byte>) {
    && BufferAt(f, (id, stream)) == Held(limits, w)
    && Counted(f, id, body, stream, DeliverAll(limits, Closed(w)))
  }

  ghost predicate Framed(limits: Limits, f: Front, base: seq<Event>, scope: Scope, kept: seq<Tagged>, body: seq<Event>, over: bool) {
    && Shown(f, base, scope, body, over)
    && (forall stream :: StreamFramed(limits, f, scope.id, body, stream, BytesOf(kept, stream)))
  }

  lemma HeldAfter(limits: Limits, w: seq<byte>, b: byte)
    ensures IsBreak(b) ==> Held(limits, w + [b]) == LineBuffer([], false, b == CR) && Closed(w + [b]) == Closed(w) + [Rest(w)]
    ensures !IsBreak(b) ==> Closed(w + [b]) == Closed(w)
    ensures !IsBreak(b) ==>
      (var held := Held(limits, w);
       Held(limits, w + [b]) ==
         if |held.bytes| < limits.maxLineBytes then LineBuffer(held.bytes + [b], held.truncated, false)
         else LineBuffer(held.bytes, true, false))
  {
    assert (w + [b])[..|w|] == w;
    assert !IsBreak(b) && |Rest(w)| < limits.maxLineBytes ==> Rest(w + [b]) == Rest(w) + [b];
  }

  lemma DeliverRest(limits: Limits, w: seq<byte>)
    ensures var held := Held(limits, w);
      DeliverAll(limits, Closed(w) + [Rest(w)]) ==
        DeliverAll(limits, Closed(w)) + DeliverText(NormalizeLine(held.bytes), held.truncated)
  {
    DeliverConcat(limits, Closed(w), [Rest(w)]);
    DeliverConcat(limits, [Rest(w)], []);
  }

  lemma RestAfterCr(limits: Limits, w: seq<byte>)
    requires w != [] && w[|w| - 1] == CR
    ensures Rest(w) == []
    ensures DeliverAll(limits, Closed(w) + [Rest(w)]) == DeliverAll(limits, Closed(w))
  {
    DeliverConcat(limits, Closed(w), [Rest(w)]);
    DeliverConcat(limits, [Rest(w)], []);
    DeliverNothing(limits);
  }

  // What one byte adds to the events shown.
  ghost function ByteBody(limits: Limits, f: Front, scope: Scope, body: seq<Event>, stream: Stream, b: byte): seq<Event>
    requires scope.id in f.scopes
  {
    var buffer := BufferAt(f, (scope.id, stream));
    if IsBreak(b) && !(b == LF && buffer.previousWasCr)
    then NextBody(f, scope, body, stream, NormalizeLine(buffer.bytes), buffer.truncated)
    else body
  }

  lemma SetShown(f: Front, base: seq<Event>, scope: Scope, body: seq<Event>, over: bool, key: Key, buffer: LineBuffer)
    requires Shown(f, base, scope, body, over)
    ensures Shown(SetBuffer(f, key, buffer), base, scope, body, over)
  {
  }

  lemma ByteShown(limits: Limits, f: Front, base: seq<Event>, scope: Scope, body: seq<Event>, over: bool, stream: Stream, b: byte)
    requires Shown(f, base, scope, body, over)
    ensures Shown(FrameByte(limits, f, scope.id, stream, b), base, scope, ByteBody(limits, f, scope, body, stream, b), over)
  {
    var key := (scope.id, stream);
    var buffer := BufferAt(f, key);
    if IsBreak(b) && !(b == LF && buffer.previousWasCr) {
      DispatchShown(f, base, scope, body, over, stream, buffer.bytes, buffer.truncated);
      SetShown(Dispatch(f, scope.id, stream, buffer.bytes, buffer.truncated), base, scope,
        ByteBody(limits, f, scope, body, stream, b), over, key, LineBuffer([], false, b == CR));
    } else if IsBreak(b) {
      SetShown(f, base, scope, body, over, key, buffer.(previousWasCr := false));
    } else if |buffer.bytes| < limits.maxLineBytes {
      SetShown(f, base, scope, body, over, key, LineBuffer(buffer.bytes + [b], buffer.truncated, false));
    } else {
      SetShown(f, base, scope, body, over, key, LineBuffer(buffer.bytes, true, false));
    }
  }

  lemma OtherBuffer(limits: Limits, f: Front, id: string, stream: Stream, b: byte, other: Stream)
    requires other != stream
    ensures BufferAt(FrameByte(limits, f, id, stream, b), (id, other)) == BufferAt(f, (id, other))
  {
  }

  lemma SetCounted(f: Front, id: string, key: Key, buffer: LineBuffer, body: seq<Event>, other: Stream, deliveries: seq<Delivery>)
    requires Counted(f, id, body, other, deliveries)
    ensures Counted(SetBuffer(f, key, buffer), id, body, other, deliveries)
  {
  }

  lemma CountedOthers(limits: Limits, f: Front, scope: Scope, body: seq<Event>, stream: Stream, b: byte, other: Stream, deliveries: seq<Delivery>)
    requires Counted(f, scope.id, body, other, deliveries) && other != stream
    ensures Counted(FrameByte(limits, f, scope.id, stream, b), scope.id, ByteBody(limits, f, scope, body, stream, b), other, deliveries)
  {
    var key := (scope.id, stream);
    var buffer := BufferAt(f, key);
    if IsBreak(b) && !(b == LF && buffer.previousWasCr) {
      DispatchOthers(f, scope, body, stream, buffer.bytes, buffer.truncated, other, deliveries);
      SetCounted(Dispatch(f, scope.id, stream, buffer.bytes, buffer.truncated), scope.id, key, LineBuffer([], false, b == CR),
        ByteBody(limits, f, scope, body, stream, b), other, deliveries);
    } else if IsBreak(b) {
      SetCounted(f, scope.id, key, buffer.(previousWasCr := false), body, other, deliveries);
    } else if |buffer.bytes| < limits.maxLineBytes {
      SetCounted(f, scope.id, key, LineBuffer(buffer.bytes + [b], buffer.truncated, false), body, other, deliveries);
    } else {
      SetCounted(f, scope.id, key, LineBuffer(buffer.bytes, true, false), body, other, deliveries);
    }
  }

  lemma ByteOthers(limits: Limits, f: Front, scope: Scope, body: seq<Event>, stream: Stream, b: byte, other: Stream, w: seq<byte>)
    requires StreamFramed(limits, f, scope.id, body, other, w) && other != stream
    ensures StreamFramed(limits, FrameByte(limits, f, scope.id, stream, b), scope.id, ByteBody(limits, f, scope, body, stream, b), other, w)
  {
    OtherBuffer(limits, f, scope.id, stream, b, other);
    CountedOthers(limits, f, scope, body, stream, b, other, DeliverAll(limits, Closed(w)));
  }

  lemma ByteFramed(limits: Limits, f: Front, scope: Scope, body: seq<Event>, stream: Stream, b: byte, w: seq<byte>)
    requires StreamFramed(limits, f, scope.id, body, stream, w)
    ensures StreamFramed(limits, FrameByte(limits, f, scope.id, stream, b), scope.id, ByteBody(limits, f, scope, body, stream, b), stream, w + [b])
  {
    var buffer := BufferAt(f, (scope.id, stream));
    var deliveries := DeliverAll(limits, Closed(w));
    HeldAfter(limits, w, b);
    if IsBreak(b) {
      if b == LF && buffer.previousWasCr {
        RestAfterCr(limits, w);
      } else {
        DeliverRest(limits, w);
        DispatchCounted(f, scope, body, stream, buffer.bytes, buffer.truncated, deliveries);
      }
    }
  }

  // ---------------------------------------------------------------- one chunk into the session

  lemma BytesOfAppend(tagged: seq<Tagged>, stream: Stream, b: byte, other: Stream)
    ensures BytesOf(tagged + [(stream, b)], other) ==
      if other == stream then BytesOf(tagged, other) + [b] else BytesOf(tagged, other)
  {
    assert (tagged + [(stream, b)])[..|tagged|] == tagged;
  }

  lemma FrameOne(limits: Limits, f: Front, base: seq<Event>, scope: Scope, kept: seq<Tagged>, body: seq<Event>, over: bool, stream: Stream, b: byte)
    requires Framed(limits, f, base, scope, kept, body, over)
    ensures Framed(limits, FrameByte(limits, f, scope.id, stream, b), base, scope, kept + [(stream, b)],
      ByteBody(limits, f, scope, body, stream, b), over)
  {
    ByteShown(limits, f, base, scope, body, over, stream, b);
    forall other
      ensures StreamFramed(limits, FrameByte(limits, f, scope.id, stream, b), scope.id,
        ByteBody(limits, f, scope, body, stream, b), other, BytesOf(kept + [(stream, b)], other))
    {
      BytesOfAppend(kept, stream, b, other);
      if other == stream {
        ByteFramed(limits, f, scope, body, stream, b, BytesOf(kept, stream));
      } else {
        ByteOthers(limits, f, scope, body, stream, b, other, BytesOf(kept, other));
      }
    }
  }

  lemma TagAppend(kept: seq<Tagged>, stream: Stream, bytes: seq<byte>)
    requires bytes != []
    ensures kept + Tag(stream, bytes) == kept + Tag(stream, bytes[..|bytes| - 1]) + [(stream, bytes[|bytes| - 1])]
  {
  }

  lemma {:induction false} FrameMany(
    limits: Limits, f: Front, base: seq<Event>, scope: Scope, kept: seq<Tagged>, body: seq<Event>, over: bool, stream: Stream, bytes: seq<byte>)
    returns (body': seq<Event>)
    requires Framed(limits, f, base, scope, kept, body, over)
    ensures Framed(limits, FrameBytes(limits, f, scope.id, stream, bytes), base, scope, kept + Tag(stream, bytes), body', over)
  {
    if bytes == [] {
      assert kept + Tag(stream, bytes) == kept;
      body' := body;
    } else {
      var init, b := bytes[..|bytes| - 1], bytes[|bytes| - 1];
      var middle := FrameMany(limits, f, base, scope, kept, body, over, stream, init);
      TagAppend(kept, stream, bytes);
      var g := FrameBytes(limits, f, scope.id, stream, init);
      FrameOne(limits, g, base, scope, kept + Tag(stream, init), middle, over, stream, b);
      body' := ByteBody(limits, g, scope, middle, stream, b);
    }
  }

  // ---------------------------------------------------------------- one operation

  /** While a scope is open: everything pushed to it, what was shown of it, and how much it retains. */
  ghost predicate InScope(limits: Limits, f: Front, base: seq<Event>, scope: Scope, pushed: seq<Tagged>, body: seq<Event>) {
    && Framed(limits, f, base, scope, Retained(limits, pushed), body, |pushed| > limits.maxScopeBytes)
    && f.scopes[scope.id].retained == Min(|pushed|, limits.maxScopeBytes)
  }

  lemma AccountFramed(limits: Limits, f: Front, base: seq<Event>, scope: Scope, kept: seq<Tagged>, body: seq<Event>, over: bool, length: nat, room: nat)
    requires Framed(limits, f, base, scope, kept, body, over) && room <= length
    ensures Framed(limits, Account(f, scope.id, length, room), base, scope, kept, body, over || room < length)
  {
    var g := Account(f, scope.id, length, room);
    assert Shown(g, base, scope, body, over || room < length);
    forall stream ensures StreamFramed(limits, g, scope.id, body, stream, BytesOf(kept, stream)) {
      assert StreamFramed(limits, f, scope.id, body, stream, BytesOf(kept, stream));
    }
  }

  lemma RetainedPush(limits: Limits, pushed: seq<Tagged>, stream: Stream, chunk: seq<byte>)
    ensures var room := Room(limits, Min(|pushed|, limits.maxScopeBytes), |chunk|);
      Retained(limits, pushed + Tag(stream, chunk)) == Retained(limits, pushed) + Tag(stream, chunk[..room]) &&
      Min(|pushed + Tag(stream, chunk)|, limits.maxScopeBytes) == Min(|pushed|, limits.maxScopeBytes) + room &&
      (|pushed + Tag(stream, chunk)| > limits.maxScopeBytes <==> |pushed| > limits.maxScopeBytes || room < |chunk|)
  {
  }

  lemma PushInScope(limits: Limits, f: Front, base: seq<Event>, scope: Scope, pushed: seq<Tagged>, body: seq<Event>, stream: Stream, chunk: seq<byte>)
    returns (body': seq<Event>)
    requires InScope(limits, f, base, scope, pushed, body)
    ensures InScope(limits, PushChunk(limits, f, scope.id, stream, chunk), base, scope, pushed + Tag(stream, chunk), body')
  {
    var over := |pushed| > limits.maxScopeBytes;
    var room := Room(limits, f.scopes[scope.id].retained, |chunk|);
    var g := Account(f, scope.id, |chunk|, room);
    AccountFramed(limits, f, base, scope, Retained(limits, pushed), body, over, |chunk|, room);
    RetainedPush(limits, pushed, stream, chunk);
    body' := FrameMany(limits, g, base, scope, Retained(limits, pushed), body, over || room < |chunk|, stream, chunk[..room]);
    ChunkInvariance.FrameKeepsScopes(limits, g, scope.id, stream, chunk[..room]);
  }

  lemma SameInScope(limits: Limits, f: Front, g: Front, base: seq<Event>, scope: Scope, pushed: seq<Tagged>, body: seq<Event>)
    requires InScope(limits, f, base, scope, pushed, body)
    requires SameScope(f, g, scope.id) && Named(g)
    ensures InScope(limits, g, base, scope, pushed, body)
  {
    assert Shown(g, base, scope, body, |pushed| > limits.maxScopeBytes);
    forall stream ensures StreamFramed(limits, g, scope.id, body, stream, BytesOf(Retained(limits, pushed), stream)) {
      assert StreamFramed(limits, f, scope.id, body, stream, BytesOf(Retained(limits, pushed), stream));
    }
  }

  lemma BeginShown(limits: Limits, f: Front, scope: Scope)
    requires Safe(limits, f) && CanBegin(limits, f, scope)
    ensures Shown(BeginScope(limits, f, scope), Project(f.trace, scope.id), scope, [], false)
  {
    ProjectAppend(f.trace, Began(scope), scope.id);
    var began := Project(f.trace, scope.id) + [Began(scope)];
    assert began + [] == began;
  }

  lemma BeginFramed(limits: Limits, f: Front, scope: Scope, stream: Stream)
    requires Safe(limits, f) && CanBegin(limits, f, scope)
    ensures StreamFramed(limits, BeginScope(limits, f, scope), scope.id, [], stream, [])
  {
    assert Number([]) == [];
  }

  lemma BeginInScope(limits: Limits, f: Front, scope: Scope)
    requires Safe(limits, f) && CanBegin(limits, f, scope)
    ensures InScope(limits, BeginScope(limits, f, scope), Project(f.trace, scope.id), scope, [], [])
  {
    BeginShown(limits, f, scope);
    assert Retained(limits, []) == [];
    forall stream ensures StreamFramed(limits, BeginScope(limits, f, scope), scope.id, [], stream, BytesOf([], stream)) {
      BeginFramed(limits, f, scope, stream);
    }
  }

  // The operations never end the scope.
  predicate StaysOpen(ops: seq<Op>, id: string) {
    forall i | 0 <= i < |ops| :: !(ops[i].End? && ops[i].id == id)
  }

  lemma OpInScope(limits: Limits, f: Front, base: seq<Event>, scope: Scope, pushed: seq<Tagged>, body: seq<Event>, op: Op)
    returns (body': seq<Event>)
    requires InScope(limits, f, base, scope, pushed, body)
    requires !(op.End? && op.id == scope.id)
    ensures InScope(limits, Apply(limits, f, op), base, scope,
      if op.Push? && op.id == scope.id then pushed + Tag(op.stream, op.chunk) else pushed, body')
  {
    body' := body;
    if OpScope(op) != scope.id {
      OtherOp(limits, f, op, scope.id);
      SameInScope(limits, f, Apply(limits, f, op), base, scope, pushed, body);
    } else if op.Push? {
      body' := PushInScope(limits, f, base, scope, pushed, body, op.stream, op.chunk);
    } else {
      // Beginning an open scope again is refused.
      SameInScope(limits, f, Apply(limits, f, op), base, scope, pushed, body);
    }
  }

  lemma {:induction false} RunInScope(limits: Limits, f: Front, scope: Scope, ops: seq<Op>) returns (body: seq<Event>)
    requires Safe(limits, f) && CanBegin(limits, f, scope) && StaysOpen(ops, scope.id)
    ensures InScope(limits, RunFrom(limits, BeginScope(limits, f, scope), ops), Project(f.trace, scope.id), scope,
      Pushed(ops, scope.id), body)
  {
    if ops == [] {
      BeginInScope(limits, f, scope);
      body := [];
    } else {
      var init, op := ops[..|ops| - 1], ops[|ops| - 1];
      body := RunInScope(limits, f, scope, init);
      body := OpInScope(limits, RunFrom(limits, BeginScope(limits, f, scope), init), Project(f.trace, scope.id), scope,
        Pushed(init, scope.id), body, op);
    }
  }

  // ---------------------------------------------------------------- the end of a scope

  ghost function FlushBody(f: Front, scope: Scope, body: seq<Event>, stream: Stream): seq<Event>
    requires scope.id in f.scopes
  {
    var buffer := BufferAt(f, (scope.id, stream));
    if buffer.bytes != [] || buffer.truncated
    then NextBody(f, scope, body, stream, NormalizeLine(buffer.bytes), buffer.truncated)
    else body
  }

  lemma FlushShown(f: Front, base: seq<Event>, scope: Scope, body: seq<Event>, over: bool, stream: Stream)
    requires Shown(f, base, scope, body, over)
    ensures Shown(FlushStream(f, scope.id, stream), base, scope, FlushBody(f, scope, body, stream), over)
  {
    var key := (scope.id, stream);
    if key in f.buffers {
      var g := SetBuffer(f, key, EMPTY_BUFFER);
      SetShown(f, base, scope, body, over, key, EMPTY_BUFFER);
      DispatchShown(g, base, scope, body, over, stream, f.buffers[key].bytes, f.buffers[key].truncated);
    }
  }

  // A stream whose last line has been flushed has delivered what the specification says.
  lemma FlushCounted(limits: Limits, f: Front, scope: Scope, body: seq<Event>, stream: Stream, w: seq<byte>)
    requires StreamFramed(limits, f, scope.id, body, stream, w)
    ensures Counted(FlushStream(f, scope.id, stream), scope.id, FlushBody(f, scope, body, stream), stream, Delivered(limits, w))
  {
    var buffer := BufferAt(f, (scope.id, stream));
    DeliveredByByte(limits, w);
    if buffer.bytes != [] || buffer.truncated {
      var g := f.(buffers := f.buffers - {(scope.id, stream)});
      DispatchCounted(g, scope, body, stream, buffer.bytes, buffer.truncated, DeliverAll(limits, Closed(w)));
    } else {
      assert Rest(w) == [];
      DeliverNothing(limits);
    }
  }

  lemma FlushOthers(f: Front, scope: Scope, body: seq<Event>, stream: Stream, other: Stream, deliveries: seq<Delivery>)
    requires Counted(f, scope.id, body, other, deliveries) && other != stream
    ensures Counted(FlushStream(f, scope.id, stream), scope.id, FlushBody(f, scope, body, stream), other, deliveries)
    ensures BufferAt(FlushStream(f, scope.id, stream), (scope.id, other)) == BufferAt(f, (scope.id, other))
  {
    var buffer := BufferAt(f, (scope.id, stream));
    if buffer.bytes != [] || buffer.truncated {
      var g := f.(buffers := f.buffers - {(scope.id, stream)});
      DispatchOthers(g, scope, body, stream, buffer.bytes, buffer.truncated, other, deliveries);
    }
  }

  // The first n streams are flushed, the others still framed.
  ghost predicate Flushed(limits: Limits, f: Front, base: seq<Event>, scope: Scope, kept: seq<Tagged>, body: seq<Event>, over: bool, n: nat)
    requires n <= |STREAMS|
  {
    && Shown(f, base, scope, body, over)
    && (forall k | 0 <= k < n :: Counted(f, scope.id, body, STREAMS[k], Delivered(limits, BytesOf(kept, STREAMS[k]))))
    && (forall k | n <= k < |STREAMS| :: StreamFramed(limits, f, scope.id, body, STREAMS[k], BytesOf(kept, STREAMS[k])))
  }

  lemma StreamsDistinct(i: nat, j: nat)
    requires i < j < |STREAMS|
    ensures STREAMS[i] != STREAMS[j]
  {
    assert STREAMS == [Stdout, Stderr, Combined, Annotation, StructuredStream];
  }

  lemma FlushOne(limits: Limits, f: Front, base: seq<Event>, scope: Scope, kept: seq<Tagged>, body: seq<Event>, over: bool, n: nat)
    requires n < |STREAMS| && Flushed(limits, f, base, scope, kept, body, over, n)
    ensures Flushed(limits, FlushStream(f, scope.id, STREAMS[n]), base, scope, kept, FlushBody(f, scope, body, STREAMS[n]), over, n + 1)
  {
    var s := STREAMS[n];
    var g, next := FlushStream(f, scope.id, s), FlushBody(f, scope, body, s);
    FlushShown(f, base, scope, body, over, s);
    FlushCounted(limits, f, scope, body, s, BytesOf(kept, s));
    forall k | 0 <= k < n ensures Counted(g, scope.id, next, STREAMS[k], Delivered(limits, BytesOf(kept, STREAMS[k]))) {
      StreamsDistinct(k, n);
      FlushOthers(f, scope, body, s, STREAMS[k], Delivered(limits, BytesOf(kept, STREAMS[k])));
    }
    forall k | n + 1 <= k < |STREAMS| ensures StreamFramed(limits, g, scope.id, next, STREAMS[k], BytesOf(kept, STREAMS[k])) {
      StreamsDistinct(n, k);
      FlushOthers(f, scope, body, s, STREAMS[k], DeliverAll(limits, Closed(BytesOf(kept, STREAMS[k]))));
    }
  }

  lemma FlushNone(limits: Limits, f: Front, base: seq<Event>, scope: Scope, kept: seq<Tagged>, body: seq<Event>, over: bool)
    requires Framed(limits, f, base, scope, kept, body, over)
    ensures Flushed(limits, f, base, scope, kept, body, over, 0)
  {
  }

  lemma {:induction false} FlushMany(limits: Limits, f: Front, base: seq<Event>, scope: Scope, kept: seq<Tagged>, body: seq<Event>, over: bool, n: nat)
    returns (body': seq<Event>)
    requires n <= |STREAMS| && Framed(limits, f, base, scope, kept, body, over)
    ensures Flushed(limits, FlushStreams(f, scope.id, n), base, scope, kept, body', over, n)
  {
    if n == 0 {
      FlushNone(limits, f, base, scope, kept, body, over);
      body' := body;
    } else {
      var before := FlushMany(limits, f, base, scope, kept, body, over, n - 1);
      var g := FlushStreams(f, scope.id, n - 1);
      FlushOne(limits, g, base, scope, kept, before, over, n - 1);
      body' := FlushBody(g, scope, before, STREAMS[n - 1]);
    }
  }

  lemma CloseProjects(f: Front, base: seq<Event>, scope: Scope, body: seq<Event>, over: bool, reason: EndReason)
    requires Shown(f, base, scope, body, over)
    ensures var lost := over || AnyCut(body);
      Project(Close(f, scope.id, reason).trace, scope.id)
        == base + [Began(scope)] + body + [Ended(scope, EffectiveReason(reason, lost), lost)]
  {
    var g := Close(f, scope.id, reason);
    ProjectAppend(f.trace, g.trace[|f.trace|], scope.id);
  }

  // ---------------------------------------------------------------- the theorem

  lemma EndInScope(limits: Limits, f: Front, base: seq<Event>, scope: Scope, pushed: seq<Tagged>, body: seq<Event>, reason: EndReason)
    returns (body': seq<Event>)
    requires InScope(limits, f, base, scope, pushed, body)
    ensures var lost := |pushed| > limits.maxScopeBytes || AnyCut(body');
      Project(EndScope(f, scope.id, reason).trace, scope.id)
        == base + [Began(scope)] + body' + [Ended(scope, EffectiveReason(reason, lost), lost)]
    ensures AllLines(body', scope)
    ensures forall stream :: LinesOf(body', stream) == Number(Delivered(limits, Share(limits, pushed, stream)))
  {
    var over := |pushed| > limits.maxScopeBytes;
    body' := FlushMany(limits, f, base, scope, Retained(limits, pushed), body, over, |STREAMS|);
    FlushKeepsScopes(f, scope.id, |STREAMS|);
    CloseProjects(FlushStreams(f, scope.id, |STREAMS|), base, scope, body', over, reason);
    forall stream ensures LinesOf(body', stream) == Number(Delivered(limits, Share(limits, pushed, stream))) {
      var k := StreamAt(stream);
      assert Counted(FlushStreams(f, scope.id, |STREAMS|), scope.id, body', STREAMS[k],
        Delivered(limits, BytesOf(Retained(limits, pushed), STREAMS[k])));
    }
  }

  /** Framing refines its specification, for every run before, every run during, and whatever other
      scopes do meanwhile. Between the begin of a scope and its end, parsers are shown exactly lines of
      that scope; those of each stream are the specified deliveries of the stream's share of the first
      bytes pushed to the scope, numbered from 1. The end reports lost input exactly when more bytes
      were pushed than the scope retains or some delivered line was cut, and a scope that lost input
      never ends as complete. */
  lemma FramingRefinesSpec(limits: Limits, before: seq<Op>, scope: Scope, during: seq<Op>, reason: EndReason)
    returns (body: seq<Event>)
    requires CanBegin(limits, Run(limits, before), scope)
    requires StaysOpen(during, scope.id)
    ensures var pushed := Pushed(during, scope.id);
      var lost := |pushed| > limits.maxScopeBytes || AnyCut(body);
      && Project(Run(limits, before + [Begin(scope)] + during + [End(scope.id, reason)]).trace, scope.id)
           == Project(Run(limits, before).trace, scope.id) + [Began(scope)] + body
              + [Ended(scope, if lost && reason == Complete then Truncated else reason, lost)]
      && AllLines(body, scope)
      && (forall stream :: LinesOf(body, stream) == Number(Delivered(limits, Share(limits, pushed, stream))))
  {
    var f := Run(limits, before);
    RunSafe(limits, before);
    var g := RunFrom(limits, BeginScope(limits, f, scope), during);
    body := RunInScope(limits, f, scope, during);
    body := EndInScope(limits, g, Project(f.trace, scope.id), scope, Pushed(during, scope.id), body, reason);
    RunSplit(limits, before, scope, during, reason);
  }

  lemma RunSplit(limits: Limits, before: seq<Op>, scope: Scope, during: seq<Op>, reason: EndReason)
    ensures Run(limits, before + [Begin(scope)] + during + [End(scope.id, reason)])
      == EndScope(RunFrom(limits, BeginScope(limits, Run(limits, before), scope), during), scope.id, reason)
  {
    var start := before + [Begin(scope)];
    var most := start + during;
    assert (most + [End(scope.id, reason)])[..|most|] == most;
    assert start[..|before|] == before;
    ChunkInvariance.RunConcat(limits, INITIAL, start, during);
  }

  lemma {:induction false} FlushKeepsScope(f: Front, id: string, n: nat)
    requires n <= |STREAMS| && id in f.scopes
    ensures id in FlushStreams(f, id, n).scopes && FlushStreams(f, id, n).scopes[id].scope == f.scopes[id].scope
  {
    if n > 0 {
      FlushKeepsScope(f, id, n - 1);
    }
  }

  lemma EndAppends(f: Front, id: string, reason: EndReason) returns (init: seq<Event>, last: Event)
    requires id in f.scopes && f.scopes[id].scope.id == id
    ensures EndScope(f, id, reason).trace == init + [last] && last.Ended? && last.scope.id == id
  {
    FlushKeepsScope(f, id, |STREAMS|);
    var g := FlushStreams(f, id, |STREAMS|);
    init, last := g.trace, Close(g, id, reason).trace[|g.trace|];
  }

  // The end of the scope is the last event shown.
  lemma LastEvent(limits: Limits, before: seq<Op>, scope: Scope, during: seq<Op>, reason: EndReason) returns (init: seq<Event>, last: Event)
    requires CanBegin(limits, Run(limits, before), scope) && StaysOpen(during, scope.id)
    ensures Run(limits, before + [Begin(scope)] + during + [End(scope.id, reason)]).trace == init + [last]
    ensures last.Ended? && last.scope.id == scope.id
  {
    var f := Run(limits, before);
    RunSafe(limits, before);
    var body := RunInScope(limits, f, scope, during);
    var g := RunFrom(limits, BeginScope(limits, f, scope), during);
    RunSplit(limits, before, scope, during, reason);
    init, last := EndAppends(g, scope.id, reason);
  }

  lemma SplitLast(x: seq<Event>, a: Event, y: seq<Event>, b: Event)
    requires x + [a] == y + [b]
    ensures x == y && a == b
  {
    assert |x| == |y| && (x + [a])[|x|] == a && (y + [b])[|y|] == b;
    assert (x + [a])[..|x|] == x && (y + [b])[..|y|] == y;
  }

  /** A scope still open when the session finishes is delivered in the same way and ends as interrupted. */
  lemma UnclosedScope(limits: Limits, before: seq<Op>, scope: Scope, during: seq<Op>) returns (body: seq<Event>)
    requires CanBegin(limits, Run(limits, before), scope)
    requires StaysOpen(during, scope.id)
    ensures var pushed := Pushed(during, scope.id);
      && Project(Finish(Run(limits, before + [Begin(scope)] + during)).trace, scope.id)
           == Project(Run(limits, before).trace, scope.id) + [Began(scope)] + body
              + [Ended(scope, Interrupted, |pushed| > limits.maxScopeBytes || AnyCut(body))]
      && AllLines(body, scope)
      && (forall stream :: LinesOf(body, stream) == Number(Delivered(limits, Share(limits, pushed, stream))))
  {
    body := FramingRefinesSpec(limits, before, scope, during, Interrupted);
    var ops := before + [Begin(scope)] + during;
    assert (ops + [End(scope.id, Interrupted)])[..|ops|] == ops;
    SafeIsNamed(limits, ops);
    FinishProjects(Run(limits, ops), scope.id);
  }
}
