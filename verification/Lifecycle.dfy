/** Safety over all runs: parsers see properly matched scopes with consecutively numbered lines, the
    session stays within its limits, and the counters count what the trace shows. */
module Lifecycle {
  import opened Model
  import opened Text
  import opened Engine

  // ---------------------------------------------------------------- a monitor for traces

  /** What a trace has left open: the scopes begun and not yet ended, nothing any more after the
      final event, or a violation. */
  datatype Life = Open(scopes: map<string, Scope>) | Done | Violated

  // How many lines of a stream were delivered since its scope was last begun.
  function LinesSince(trace: seq<Event>, id: string, stream: Stream): nat {
    if trace == [] then 0
    else
      var before := LinesSince(trace[..|trace| - 1], id, stream);
      match trace[|trace| - 1]
      case Began(scope) => if scope.id == id then 0 else before
      case Line(line) => if line.scope.id == id && line.stream == stream then before + 1 else before
      case _ => before
  }

  function LinesIn(trace: seq<Event>): nat {
    if trace == [] then 0
    else LinesIn(trace[..|trace| - 1]) + if trace[|trace| - 1].Line? then 1 else 0
  }

  function CutLinesIn(trace: seq<Event>): nat {
    if trace == [] then 0
    else
      CutLinesIn(trace[..|trace| - 1]) +
      match trace[|trace| - 1] { case Line(line) => if line.truncated then 1 else 0 case _ => 0 }
  }

  function BeginsIn(trace: seq<Event>): nat {
    if trace == [] then 0
    else BeginsIn(trace[..|trace| - 1]) + if trace[|trace| - 1].Began? then 1 else 0
  }

  function EndsIn(trace: seq<Event>): nat {
    if trace == [] then 0
    else EndsIn(trace[..|trace| - 1]) + if trace[|trace| - 1].Ended? then 1 else 0
  }

  /** A scope begins only when it is not open; lines and the end of a scope carry the very scope that
      was begun; ordinals count all lines and stream lines count the lines of one stream since the
      scope began, both up to the counter's capacity; a scope that lost input does not end as complete;
      the final event comes with every scope ended. */
  function WatchNext(life: Life, before: seq<Event>, event: Event): Life {
    if !life.Open? then Violated
    else
      match event
      case Began(scope) =>
        if scope.id in life.scopes then Violated else Open(life.scopes[scope.id := scope])
      case Line(line) =>
        if line.scope.id in life.scopes && life.scopes[line.scope.id] == line.scope
          && line.ordinal == Min(LinesIn(before), U64_MAX)
          && line.streamLine == Min(LinesSince(before, line.scope.id, line.stream) + 1, U64_MAX)
          && line.text != []
        then life else Violated
      case Ended(scope, reason, cut) =>
        if scope.id in life.scopes && life.scopes[scope.id] == scope && (cut ==> reason != Complete)
        then Open(life.scopes - {scope.id}) else Violated
      case Finished => if life.scopes == map[] then Done else Violated
  }

  function Watch(trace: seq<Event>): Life {
    if trace == [] then Open(map[])
    else WatchNext(Watch(trace[..|trace| - 1]), trace[..|trace| - 1], trace[|trace| - 1])
  }

  lemma Appended(trace: seq<Event>, event: Event)
    ensures Watch(trace + [event]) == WatchNext(Watch(trace), trace, event)
    ensures LinesIn(trace + [event]) == LinesIn(trace) + if event.Line? then 1 else 0
    ensures CutLinesIn(trace + [event]) == CutLinesIn(trace) + if event.Line? && event.line.truncated then 1 else 0
    ensures BeginsIn(trace + [event]) == BeginsIn(trace) + if event.Began? then 1 else 0
    ensures EndsIn(trace + [event]) == EndsIn(trace) + if event.Ended? then 1 else 0
  {
    assert (trace + [event])[..|trace|] == trace;
  }

  lemma AppendedSince(trace: seq<Event>, event: Event, id: string, stream: Stream)
    ensures LinesSince(trace + [event], id, stream) ==
      if event.Began? && event.scope.id == id then 0
      else if event.Line? && event.line.scope.id == id && event.line.stream == stream then LinesSince(trace, id, stream) + 1
      else LinesSince(trace, id, stream)
  {
    assert (trace + [event])[..|trace|] == trace;
  }

  // ---------------------------------------------------------------- the session invariant

  // The scopes that the trace left open are the scopes of the session.
  ghost predicate ScopesMatch(f: Front) {
    && Watch(f.trace).Open?
    && Watch(f.trace).scopes.Keys == f.scopes.Keys
    && (forall id | id in f.scopes :: f.scopes[id].scope == Watch(f.trace).scopes[id] && f.scopes[id].scope.id == id)
  }

  ghost predicate LinesMatch(f: Front) {
    forall id, stream | id in f.scopes ::
      LineCount(f.scopes[id].lines, stream) == Min(LinesSince(f.trace, id, stream), U64_MAX)
  }

  ghost predicate WithinLimits(limits: Limits, f: Front) {
    && |f.scopes| <= limits.maxScopes
    && (forall id | id in f.scopes :: f.scopes[id].retained <= limits.maxScopeBytes)
    && (forall key | key in f.buffers ::
          key.0 in f.scopes && f.buffers[key] != EMPTY_BUFFER && |f.buffers[key].bytes| <= limits.maxLineBytes)
  }

  ghost predicate CountersMatch(f: Front) {
    && f.nextOrdinal == f.stats.linesSeen == Min(LinesIn(f.trace), U64_MAX)
    && f.stats.truncatedLines == Min(CutLinesIn(f.trace), U64_MAX)
    && f.stats.scopesStarted == Min(BeginsIn(f.trace), U64_MAX)
    && f.stats.scopesCompleted == Min(EndsIn(f.trace), U64_MAX)
    && BeginsIn(f.trace) == EndsIn(f.trace) + |f.scopes|
  }

  ghost predicate Safe(limits: Limits, f: Front) {
    ScopesMatch(f) && LinesMatch(f) && WithinLimits(limits, f) && CountersMatch(f)
  }

  lemma DispatchKeys(f: Front, id: string, stream: Stream, bytes: seq<byte>, cut: bool)
    ensures Dispatch(f, id, stream, bytes, cut).scopes.Keys == f.scopes.Keys
    ensures |Dispatch(f, id, stream, bytes, cut).scopes| == |f.scopes|
    ensures Dispatch(f, id, stream, bytes, cut).buffers == f.buffers
  {
    var g := Dispatch(f, id, stream, bytes, cut);
    assert g.scopes.Keys == f.scopes.Keys;
    assert |g.scopes| == |g.scopes.Keys| && |f.scopes| == |f.scopes.Keys|;
  }

  lemma DispatchLines(f: Front, id: string, stream: Stream, bytes: seq<byte>, cut: bool)
    requires ScopesMatch(f) && LinesMatch(f)
    ensures LinesMatch(Dispatch(f, id, stream, bytes, cut))
  {
    if NormalizeLine(bytes) != [] && id in f.scopes {
      var g := Dispatch(f, id, stream, bytes, cut);
      var event := g.trace[|f.trace|];
      forall i, s | i in g.scopes
        ensures LineCount(g.scopes[i].lines, s) == Min(LinesSince(g.trace, i, s), U64_MAX)
      {
        AppendedSince(f.trace, event, i, s);
      }
    }
  }

  lemma DispatchMatches(f: Front, id: string, stream: Stream, bytes: seq<byte>, cut: bool)
    requires ScopesMatch(f) && LinesMatch(f) && CountersMatch(f)
    ensures ScopesMatch(Dispatch(f, id, stream, bytes, cut))
    ensures CountersMatch(Dispatch(f, id, stream, bytes, cut))
  {
    if NormalizeLine(bytes) != [] && id in f.scopes {
      DispatchKeys(f, id, stream, bytes, cut);
      var g := Dispatch(f, id, stream, bytes, cut);
      Appended(f.trace, g.trace[|f.trace|]);
    }
  }

  lemma DispatchSafe(limits: Limits, f: Front, id: string, stream: Stream, bytes: seq<byte>, cut: bool)
    requires Safe(limits, f)
    ensures Safe(limits, Dispatch(f, id, stream, bytes, cut))
  {
    DispatchKeys(f, id, stream, bytes, cut);
    DispatchLines(f, id, stream, bytes, cut);
    DispatchMatches(f, id, stream, bytes, cut);
  }

  lemma SetBufferSafe(limits: Limits, f: Front, key: Key, buffer: LineBuffer)
    requires Safe(limits, f) && key.0 in f.scopes && |buffer.bytes| <= limits.maxLineBytes
    ensures Safe(limits, SetBuffer(f, key, buffer))
    ensures SetBuffer(f, key, buffer).scopes == f.scopes
  {
    var g := SetBuffer(f, key, buffer);
    assert ScopesMatch(g) && LinesMatch(g) && CountersMatch(g);
  }

  lemma FrameByteSafe(limits: Limits, f: Front, id: string, stream: Stream, b: byte)
    requires Safe(limits, f) && id in f.scopes
    ensures Safe(limits, FrameByte(limits, f, id, stream, b))
    ensures FrameByte(limits, f, id, stream, b).scopes.Keys == f.scopes.Keys
  {
    var key := (id, stream);
    var buffer := BufferAt(f, key);
    if b == LF || b == CR {
      if b == LF && buffer.previousWasCr {
        SetBufferSafe(limits, f, key, buffer.(previousWasCr := false));
      } else {
        DispatchSafe(limits, f, id, stream, buffer.bytes, buffer.truncated);
        DispatchKeys(f, id, stream, buffer.bytes, buffer.truncated);
        SetBufferSafe(limits, Dispatch(f, id, stream, buffer.bytes, buffer.truncated), key, LineBuffer([], false, b == CR));
      }
    } else if |buffer.bytes| < limits.maxLineBytes {
      SetBufferSafe(limits, f, key, LineBuffer(buffer.bytes + [b], buffer.truncated, false));
    } else {
      SetBufferSafe(limits, f, key, LineBuffer(buffer.bytes, true, false));
    }
  }

  lemma {:induction false} FrameSafe(limits: Limits, f: Front, id: string, stream: Stream, bytes: seq<byte>)
    requires Safe(limits, f) && id in f.scopes
    ensures Safe(limits, FrameBytes(limits, f, id, stream, bytes))
    ensures FrameBytes(limits, f, id, stream, bytes).scopes.Keys == f.scopes.Keys
  {
    if bytes != [] {
      FrameSafe(limits, f, id, stream, bytes[..|bytes| - 1]);
      FrameByteSafe(limits, FrameBytes(limits, f, id, stream, bytes[..|bytes| - 1]), id, stream, bytes[|bytes| - 1]);
    }
  }

  lemma BeginLines(limits: Limits, f: Front, scope: Scope)
    requires LinesMatch(f) && CanBegin(limits, f, scope)
    ensures LinesMatch(BeginScope(limits, f, scope))
  {
    var g := BeginScope(limits, f, scope);
    forall id, stream | id in g.scopes
      ensures LineCount(g.scopes[id].lines, stream) == Min(LinesSince(g.trace, id, stream), U64_MAX)
    {
      AppendedSince(f.trace, Began(scope), id, stream);
    }
  }

  lemma BeginKeys(limits: Limits, f: Front, scope: Scope)
    requires CanBegin(limits, f, scope)
    ensures BeginScope(limits, f, scope).scopes.Keys == f.scopes.Keys + {scope.id}
    ensures |BeginScope(limits, f, scope).scopes| == |f.scopes| + 1
  {
    var g := BeginScope(limits, f, scope);
    assert g.scopes.Keys == f.scopes.Keys + {scope.id};
    assert |g.scopes| == |g.scopes.Keys| && |f.scopes| == |f.scopes.Keys|;
  }

  lemma BeginMatches(limits: Limits, f: Front, scope: Scope)
    requires ScopesMatch(f) && CountersMatch(f) && CanBegin(limits, f, scope)
    ensures ScopesMatch(BeginScope(limits, f, scope)) && CountersMatch(BeginScope(limits, f, scope))
  {
    BeginKeys(limits, f, scope);
    Appended(f.trace, Began(scope));
  }

  lemma BeginSafe(limits: Limits, f: Front, scope: Scope)
    requires Safe(limits, f)
    ensures Safe(limits, BeginScope(limits, f, scope))
  {
    if CanBegin(limits, f, scope) {
      BeginKeys(limits, f, scope);
      BeginLines(limits, f, scope);
      BeginMatches(limits, f, scope);
    } else {
      var g := BeginScope(limits, f, scope);
      assert ScopesMatch(g) && CountersMatch(g) && WithinLimits(limits, g) && LinesMatch(g);
    }
  }

  lemma AccountSafe(limits: Limits, f: Front, id: string, length: nat)
    requires Safe(limits, f) && id in f.scopes
    ensures Safe(limits, Account(f, id, length, Room(limits, f.scopes[id].retained, length)))
    ensures Account(f, id, length, Room(limits, f.scopes[id].retained, length)).scopes.Keys == f.scopes.Keys
  {
    var g := Account(f, id, length, Room(limits, f.scopes[id].retained, length));
    assert g.scopes.Keys == f.scopes.Keys;
    assert |g.scopes| == |g.scopes.Keys| && |f.scopes| == |f.scopes.Keys|;
    assert ScopesMatch(g) && LinesMatch(g) && CountersMatch(g);
  }

  lemma PushSafe(limits: Limits, f: Front, id: string, stream: Stream, chunk: seq<byte>)
    requires Safe(limits, f)
    ensures Safe(limits, PushChunk(limits, f, id, stream, chunk))
  {
    if id in f.scopes {
      var kept := Room(limits, f.scopes[id].retained, |chunk|);
      AccountSafe(limits, f, id, |chunk|);
      FrameSafe(limits, Account(f, id, |chunk|, kept), id, stream, chunk[..kept]);
    }
  }

  lemma FlushOneSafe(limits: Limits, f: Front, id: string, stream: Stream)
    requires Safe(limits, f)
    ensures Safe(limits, FlushStream(f, id, stream))
    ensures FlushStream(f, id, stream).scopes.Keys == f.scopes.Keys
    ensures FlushStream(f, id, stream).buffers == f.buffers - {(id, stream)}
  {
    var key := (id, stream);
    if key in f.buffers {
      var g := f.(buffers := f.buffers - {key});
      assert ScopesMatch(g) && LinesMatch(g) && CountersMatch(g) && WithinLimits(limits, g);
      DispatchSafe(limits, g, id, stream, f.buffers[key].bytes, f.buffers[key].truncated);
      DispatchKeys(g, id, stream, f.buffers[key].bytes, f.buffers[key].truncated);
    }
  }

  lemma {:induction false} FlushSafe(limits: Limits, f: Front, id: string, n: nat)
    requires Safe(limits, f) && n <= |STREAMS|
    ensures Safe(limits, FlushStreams(f, id, n))
  {
    if n > 0 {
      FlushSafe(limits, f, id, n - 1);
      FlushOneSafe(limits, FlushStreams(f, id, n - 1), id, STREAMS[n - 1]);
    }
  }

  lemma {:induction false} FlushBuffers(f: Front, id: string, n: nat)
    requires n <= |STREAMS|
    ensures FlushStreams(f, id, n).buffers.Keys <= f.buffers.Keys
    ensures forall k | 0 <= k < n :: (id, STREAMS[k]) !in FlushStreams(f, id, n).buffers
  {
    if n > 0 {
      FlushBuffers(f, id, n - 1);
    }
  }

  lemma StreamAt(stream: Stream) returns (k: nat)
    ensures k < |STREAMS| && STREAMS[k] == stream
  {
    k := match stream case Stdout => 0 case Stderr => 1 case Combined => 2 case Annotation => 3 case StructuredStream => 4;
  }

  lemma FlushedAll(f: Front, id: string)
    ensures forall key | key in FlushStreams(f, id, |STREAMS|).buffers :: key.0 != id
  {
    FlushBuffers(f, id, |STREAMS|);
    forall key: Key | key in FlushStreams(f, id, |STREAMS|).buffers ensures key.0 != id {
      var k := StreamAt(key.1);
      assert key == (key.0, STREAMS[k]);
    }
  }

  lemma CloseSafe(limits: Limits, f: Front, id: string, reason: EndReason)
    requires Safe(limits, f) && id in f.scopes
    requires forall key | key in f.buffers :: key.0 != id
    ensures Safe(limits, Close(f, id, reason))
  {
    var g := Close(f, id, reason);
    var event := g.trace[|f.trace|];
    Appended(f.trace, event);
    assert g.scopes.Keys == f.scopes.Keys - {id};
    assert |g.scopes| == |g.scopes.Keys| && |f.scopes| == |f.scopes.Keys|;
    forall i, stream | i in g.scopes
      ensures LineCount(g.scopes[i].lines, stream) == Min(LinesSince(g.trace, i, stream), U64_MAX)
    {
      AppendedSince(f.trace, event, i, stream);
    }
    assert ScopesMatch(g) && CountersMatch(g) && WithinLimits(limits, g);
  }

  lemma EndSafe(limits: Limits, f: Front, id: string, reason: EndReason)
    requires Safe(limits, f)
    ensures Safe(limits, EndScope(f, id, reason))
  {
    if id in f.scopes {
      FlushSafe(limits, f, id, |STREAMS|);
      var g := FlushStreams(f, id, |STREAMS|);
      FlushKeepsScopes(f, id, |STREAMS|);
      FlushedAll(f, id);
      CloseSafe(limits, g, id, reason);
    }
  }

  lemma InitialSafe(limits: Limits)
    ensures Safe(limits, INITIAL)
  {
    assert ScopesMatch(INITIAL) && LinesMatch(INITIAL) && CountersMatch(INITIAL) && WithinLimits(limits, INITIAL);
  }

  /** Every reachable state is safe: begin, line and end events match per scope and are numbered
      consecutively, buffers exist only for open scopes, all limits hold, and the counters equal what
      the trace contains (up to their capacity). */
  lemma {:induction false} RunSafe(limits: Limits, ops: seq<Op>)
    ensures Safe(limits, Run(limits, ops))
  {
    if ops == [] {
      InitialSafe(limits);
    } else {
      var init, op := ops[..|ops| - 1], ops[|ops| - 1];
      RunSafe(limits, init);
      var f := Run(limits, init);
      match op {
        case Begin(scope) => BeginSafe(limits, f, scope);
        case Push(id, stream, chunk) => PushSafe(limits, f, id, stream, chunk);
        case End(id, reason) => EndSafe(limits, f, id, reason);
      }
    }
  }

  // ---------------------------------------------------------------- finishing

  lemma EndRemoves(f: Front, id: string, reason: EndReason)
    ensures EndScope(f, id, reason).scopes.Keys == f.scopes.Keys - {id}
  {
    if id in f.scopes {
      FlushKeepsScopes(f, id, |STREAMS|);
    }
  }

  lemma {:induction false} AscendingIds(ids: set<string>, id: string)
    ensures id in Ascending(ids) <==> id in ids
  {
    if ids != {} {
      AscendingIds(ids - {Least(ids)}, id);
    }
  }

  lemma {:induction false} EndAllRemoves(f: Front, ids: seq<string>)
    ensures forall id :: id in EndAll(f, ids).scopes <==> id in f.scopes && id !in ids
  {
    if ids != [] {
      var init := ids[..|ids| - 1];
      EndAllRemoves(f, init);
      EndRemoves(EndAll(f, init), ids[|ids| - 1], Interrupted);
      assert ids == init + [ids[|ids| - 1]];
    }
  }

  lemma {:induction false} EndAllSafe(limits: Limits, f: Front, ids: seq<string>)
    requires Safe(limits, f)
    ensures Safe(limits, EndAll(f, ids))
  {
    if ids != [] {
      var init := ids[..|ids| - 1];
      EndAllSafe(limits, f, init);
      EndSafe(limits, EndAll(f, init), ids[|ids| - 1], Interrupted);
    }
  }

  /** A finished session has ended every scope it began, shows the parsers exactly one final event after
      all of that, and keeps no scope and no buffered byte. */
  lemma FinishSafe(limits: Limits, ops: seq<Op>)
    ensures var f := Finish(Run(limits, ops));
      Watch(f.trace) == Done && f.scopes == map[] && f.buffers == map[] &&
      f.stats.scopesStarted == f.stats.scopesCompleted
  {
    var f := Run(limits, ops);
    RunSafe(limits, ops);
    var ids := Ascending(f.scopes.Keys);
    EndAllSafe(limits, f, ids);
    EndAllRemoves(f, ids);
    var g := EndAll(f, ids);
    forall id ensures id !in g.scopes {
      AscendingIds(f.scopes.Keys, id);
    }
    assert g.scopes == map[] && g.buffers.Keys == {} && g.buffers == map[];
    Appended(g.trace, Finished);
  }

  /** Whether a begin is accepted, told by what parsers were shown: exactly if the scope is not open and
      fewer scopes than the limit are. A refused one is counted and changes nothing else. */
  lemma BeginExactly(limits: Limits, ops: seq<Op>, scope: Scope)
    ensures var f, g := Run(limits, ops), Run(limits, ops + [Begin(scope)]);
      Watch(f.trace).Open? &&
      var open := Watch(f.trace).scopes;
      if scope.id !in open && |open| < limits.maxScopes then g.trace == f.trace + [Began(scope)]
      else g == f.(stats := f.stats.(candidatesDropped := SatAdd(f.stats.candidatesDropped, 1)))
  {
    RunSafe(limits, ops);
    var f := Run(limits, ops);
    assert (ops + [Begin(scope)])[..|ops|] == ops;
    assert |f.scopes| == |f.scopes.Keys| && |Watch(f.trace).scopes| == |Watch(f.trace).scopes.Keys|;
  }

  /** One identifier comes before another if it is a beginning of it, or smaller where they first differ. */
  lemma {:induction false} IdLessExactly(a: string, b: string)
    ensures IdLess(a, b) <==>
      exists k: nat :: k <= |a| && k < |b| && a[..k] == b[..k] && (k < |a| ==> a[k] < b[k])
  {
    if IdLess(a, b) {
      if a != "" && a[0] == b[0] {
        IdLessExactly(a[1..], b[1..]);
        var k: nat :| k <= |a| - 1 && k < |b| - 1 && a[1..][..k] == b[1..][..k] && (k < |a| - 1 ==> a[1..][k] < b[1..][k]);
        assert a[..k + 1] == [a[0]] + a[1..][..k] && b[..k + 1] == [b[0]] + b[1..][..k];
      } else {
        assert a[..0] == b[..0];
      }
    }
    if k: nat :| k <= |a| && k < |b| && a[..k] == b[..k] && (k < |a| ==> a[k] < b[k]) {
      IdLessAt(a, b, k);
    }
  }

  lemma IdLessAt(a: string, b: string, k: nat)
    requires k <= |a| && k < |b| && a[..k] == b[..k] && (k < |a| ==> a[k] < b[k])
    ensures IdLess(a, b)
  {
    if k > 0 {
      assert a[0] == a[..k][0] == b[..k][0] == b[0];
      assert a[1..][..k - 1] == a[..k][1..] == b[..k][1..] == b[1..][..k - 1];
      IdLessAt(a[1..], b[1..], k - 1);
    }
  }

  lemma {:induction false} AscendingAreSorted(ids: set<string>, i: nat, j: nat)
    requires i < j < |Ascending(ids)|
    ensures IdLess(Ascending(ids)[i], Ascending(ids)[j])
  {
    var least := Least(ids);
    if i > 0 {
      AscendingAreSorted(ids - {least}, i - 1, j - 1);
    } else {
      var other := Ascending(ids - {least})[j - 1];
      AscendingIds(ids - {least}, other);
      assert other in Ascending(ids - {least});
    }
  }

  /** Finishing ends the scopes that are still open, each once and in ascending order of their identifiers. */
  lemma FinishInOrder(limits: Limits, ops: seq<Op>)
    ensures var f := Run(limits, ops);
      var ids := Ascending(f.scopes.Keys);
      && Watch(f.trace).Open? && (forall id :: id in ids <==> id in Watch(f.trace).scopes)
      && (forall i, j | 0 <= i < j < |ids| :: IdLess(ids[i], ids[j]))
      && Finish(f).trace == EndAll(f, ids).trace + [Finished]
  {
    var f := Run(limits, ops);
    RunSafe(limits, ops);
    forall id ensures id in Ascending(f.scopes.Keys) <==> id in Watch(f.trace).scopes {
      AscendingIds(f.scopes.Keys, id);
    }
    forall i, j | 0 <= i < j < |Ascending(f.scopes.Keys)| ensures IdLess(Ascending(f.scopes.Keys)[i], Ascending(f.scopes.Keys)[j]) {
      AscendingAreSorted(f.scopes.Keys, i, j);
    }
  }
}
