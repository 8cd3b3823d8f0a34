/** The parser-independent half of a reduction session as a state machine on values: scopes, line
    buffers, counters, and the trace of everything the parsers are shown. The session class is proved
    against these functions; because no step depends on what parsers do with the trace, every theorem
    about the trace holds for every parser plan. */
module Engine {
  import opened Model
  import opened Text

  datatype Event =
    | Began(scope: Scope)
    | Line(line: LogLine)
    | Ended(scope: Scope, reason: EndReason, inputTruncated: bool)
    | Finished

  datatype ScopeState = ScopeState(scope: Scope, retained: usize, truncated: bool, lines: map<Stream, u64>)

  datatype LineBuffer = LineBuffer(bytes: seq<byte>, truncated: bool, previousWasCr: bool)

  const EMPTY_BUFFER := LineBuffer([], false, false)

  type Key = (string, Stream)

  /** The state between calls. A buffer that holds nothing is represented by its absence. */
  datatype Front = Front(
    scopes: map<string, ScopeState>,
    buffers: map<Key, LineBuffer>,
    stats: Stats,
    nextOrdinal: u64,
    trace: seq<Event>)

  const INITIAL := Front(map[], map[], NO_STATS, 0, [])

  // What a caller can do with an open session.
  datatype Op =
    | Begin(scope: Scope)
    | Push(id: string, stream: Stream, chunk: seq<byte>)
    | End(id: string, reason: EndReason)

  function LineCount(lines: map<Stream, u64>, stream: Stream): u64 {
    if stream in lines then lines[stream] else 0
  }

  function BufferAt(f: Front, key: Key): LineBuffer {
    if key in f.buffers then f.buffers[key] else EMPTY_BUFFER
  }

  function SetBuffer(f: Front, key: Key, buffer: LineBuffer): Front {
    f.(buffers := if buffer == EMPTY_BUFFER then f.buffers - {key} else f.buffers[key := buffer])
  }

  // ---------------------------------------------------------------- opening a scope

  predicate CanBegin(limits: Limits, f: Front, scope: Scope) {
    scope.id !in f.scopes && |f.scopes| < limits.maxScopes
  }

  function BeginScope(limits: Limits, f: Front, scope: Scope): Front {
    if !CanBegin(limits, f, scope) then
      f.(stats := f.stats.(candidatesDropped := SatAdd(f.stats.candidatesDropped, 1)))
    else
      f.(scopes := f.scopes[scope.id := ScopeState(scope, 0, false, map[])],
         stats := f.stats.(scopesStarted := SatAdd(f.stats.scopesStarted, 1)),
         trace := f.trace + [Began(scope)])
  }

  // ---------------------------------------------------------------- delivering a line

  function Dispatch(f: Front, id: string, stream: Stream, bytes: seq<byte>, cut: bool): Front {
    var text := NormalizeLine(bytes);
    if text == [] || id !in f.scopes then f
    else
      var state := f.scopes[id];
      var number := SatAdd(LineCount(state.lines, stream), 1);
      var line := LogLine(state.scope, stream, f.nextOrdinal, number, text, cut);
      f.(scopes := f.scopes[id := state.(lines := state.lines[stream := number], truncated := state.truncated || cut)],
         nextOrdinal := SatAdd(f.nextOrdinal, 1),
         stats := f.stats.(
           linesSeen := SatAdd(f.stats.linesSeen, 1),
           truncatedLines := if cut then SatAdd(f.stats.truncatedLines, 1) else f.stats.truncatedLines),
         trace := f.trace + [Line(line)])
  }

  // ---------------------------------------------------------------- framing bytes

  function FrameByte(limits: Limits, f: Front, id: string, stream: Stream, b: byte): Front {
    var key := (id, stream);
    var buffer := BufferAt(f, key);
    if b == LF || b == CR then
      if b == LF && buffer.previousWasCr then
        SetBuffer(f, key, buffer.(previousWasCr := false))
      else
        SetBuffer(Dispatch(f, id, stream, buffer.bytes, buffer.truncated), key, LineBuffer([], false, b == CR))
    else if |buffer.bytes| < limits.maxLineBytes then
      SetBuffer(f, key, LineBuffer(buffer.bytes + [b], buffer.truncated, false))
    else
      SetBuffer(f, key, LineBuffer(buffer.bytes, true, false))
  }

  function FrameBytes(limits: Limits, f: Front, id: string, stream: Stream, bytes: seq<byte>): Front {
    if bytes == [] then f
    else FrameByte(limits, FrameBytes(limits, f, id, stream, bytes[..|bytes| - 1]), id, stream, bytes[|bytes| - 1])
  }

  // How much of a chunk still fits the scope.
  function Room(limits: Limits, retained: nat, length: nat): (r: nat)
    ensures r <= length
  {
    Min(length, SatSub(limits.maxScopeBytes, retained))
  }

  // Counts a chunk of the given length, of which a part is retained.
  function Account(f: Front, id: string, length: nat, kept: nat): Front
    requires id in f.scopes && kept <= length
  {
    var state := f.scopes[id];
    f.(scopes := f.scopes[id := state.(
         retained := SatAdd(state.retained, kept),
         truncated := state.truncated || kept < length)],
       stats := f.stats.(
         bytesSeen := SatAdd(f.stats.bytesSeen, length),
         bytesRetained := SatAdd(f.stats.bytesRetained, kept)))
  }

  function PushChunk(limits: Limits, f: Front, id: string, stream: Stream, chunk: seq<byte>): Front {
    if id !in f.scopes then f
    else
      var kept := Room(limits, f.scopes[id].retained, |chunk|);
      FrameBytes(limits, Account(f, id, |chunk|, kept), id, stream, chunk[..kept])
  }

  // ---------------------------------------------------------------- closing a scope

  function FlushStream(f: Front, id: string, stream: Stream): Front {
    var key := (id, stream);
    if key !in f.buffers then f
    else
      var buffer := f.buffers[key];
      var g := f.(buffers := f.buffers - {key});
      if buffer.bytes != [] || buffer.truncated then Dispatch(g, id, stream, buffer.bytes, buffer.truncated) else g
  }

  // The first n streams, in map order.
  function FlushStreams(f: Front, id: string, n: nat): Front
    requires n <= |STREAMS|
  {
    if n == 0 then f else FlushStream(FlushStreams(f, id, n - 1), id, STREAMS[n - 1])
  }

  function EffectiveReason(reason: EndReason, truncated: bool): EndReason {
    if truncated && reason == Complete then Truncated else reason
  }

  function Close(f: Front, id: string, reason: EndReason): Front
    requires id in f.scopes
  {
    var state := f.scopes[id];
    f.(scopes := f.scopes - {id},
       stats := f.stats.(scopesCompleted := SatAdd(f.stats.scopesCompleted, 1)),
       trace := f.trace + [Ended(state.scope, EffectiveReason(reason, state.truncated), state.truncated)])
  }

  lemma FlushKeepsScopes(f: Front, id: string, n: nat)
    requires n <= |STREAMS|
    ensures FlushStreams(f, id, n).scopes.Keys == f.scopes.Keys
  {
  }

  function EndScope(f: Front, id: string, reason: EndReason): Front {
    if id !in f.scopes then f
    else
      FlushKeepsScopes(f, id, |STREAMS|);
      Close(FlushStreams(f, id, |STREAMS|), id, reason)
  }

  // ---------------------------------------------------------------- runs

  function Apply(limits: Limits, f: Front, op: Op): Front {
    match op
    case Begin(scope) => BeginScope(limits, f, scope)
    case Push(id, stream, chunk) => PushChunk(limits, f, id, stream, chunk)
    case End(id, reason) => EndScope(f, id, reason)
  }

  function RunFrom(limits: Limits, f: Front, ops: seq<Op>): Front {
    if ops == [] then f
    else Apply(limits, RunFrom(limits, f, ops[..|ops| - 1]), ops[|ops| - 1])
  }

  function Run(limits: Limits, ops: seq<Op>): Front {
    RunFrom(limits, INITIAL, ops)
  }

  // ---------------------------------------------------------------- finishing

  // The order of scope identifiers in an ordered map.
  predicate IdLess(a: string, b: string) {
    b != [] && (a == [] || a[0] < b[0] || (a[0] == b[0] && IdLess(a[1..], b[1..])))
  }

  lemma IdLessTotal(a: string, b: string)
    ensures a != b ==> IdLess(a, b) || IdLess(b, a)
    ensures !(IdLess(a, b) && IdLess(b, a))
    ensures !IdLess(a, a)
  {
    if a != [] && b != [] && a[0] == b[0] {
      IdLessTotal(a[1..], b[1..]);
      assert a == [a[0]] + a[1..] && b == [b[0]] + b[1..];
    }
    if a != [] {
      IdLessTotal(a[1..], a[1..]);
    }
  }

  lemma IdLessTransitive(a: string, b: string, c: string)
    requires IdLess(a, b) && IdLess(b, c)
    ensures IdLess(a, c)
  {
    if a != [] && a[0] == b[0] == c[0] {
      IdLessTransitive(a[1..], b[1..], c[1..]);
    }
  }

  ghost predicate IsLeast(id: string, ids: set<string>) {
    id in ids && forall other | other in ids :: other == id || IdLess(id, other)
  }

  lemma LeastExists(ids: set<string>)
    requires ids != {}
    ensures exists id :: IsLeast(id, ids)
  {
    var x :| x in ids;
    if ids - {x} == {} {
      assert ids == {x};
      assert IsLeast(x, ids);
    } else {
      LeastExists(ids - {x});
      var y :| IsLeast(y, ids - {x});
      IdLessTotal(x, y);
      if IdLess(x, y) {
        forall other | other in ids && other != x && other != y ensures IdLess(x, other) {
          IdLessTransitive(x, y, other);
        }
        assert IsLeast(x, ids);
      } else {
        assert IsLeast(y, ids);
      }
    }
  }

  lemma LeastUnique(a: string, b: string, ids: set<string>)
    requires IsLeast(a, ids) && IsLeast(b, ids)
    ensures a == b
  {
    IdLessTotal(a, b);
  }

  ghost function Least(ids: set<string>): (id: string)
    requires ids != {}
    ensures IsLeast(id, ids)
  {
    LeastExists(ids);
    var id :| IsLeast(id, ids);
    id
  }

  // Identifiers in ascending order.
  ghost function Ascending(ids: set<string>): seq<string> {
    if ids == {} then [] else [Least(ids)] + Ascending(ids - {Least(ids)})
  }

  function EndAll(f: Front, ids: seq<string>): Front {
    if ids == [] then f else EndScope(EndAll(f, ids[..|ids| - 1]), ids[|ids| - 1], Interrupted)
  }

  // Everything that finishing a session does before findings are finalized.
  ghost function Finish(f: Front): Front {
    var g := EndAll(f, Ascending(f.scopes.Keys));
    g.(trace := g.trace + [Finished])
  }
}
