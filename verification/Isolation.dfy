/** Scope isolation: what parsers are shown of one scope does not depend on any other scope. */
module Isolation {
  import opened Model
  import opened Text
  import opened Engine
  import opened Lifecycle

  function ScopeOf(event: Event): Option<string> {
    match event
    case Began(scope) => Some(scope.id)
    case Line(line) => Some(line.scope.id)
    case Ended(scope, _, _) => Some(scope.id)
    case Finished => None
  }

  // An event without the session-wide line ordinal.
  function WithoutOrdinal(event: Event): Event {
    if event.Line? then Line(event.line.(ordinal := 0)) else event
  }

  // Everything a trace shows of one scope.
  function Project(trace: seq<Event>, id: string): seq<Event> {
    if trace == [] then []
    else
      var before := Project(trace[..|trace| - 1], id);
      if ScopeOf(trace[|trace| - 1]) == Some(id) then before + [WithoutOrdinal(trace[|trace| - 1])] else before
  }

  lemma ProjectAppend(trace: seq<Event>, event: Event, id: string)
    ensures Project(trace + [event], id) ==
      if ScopeOf(event) == Some(id) then Project(trace, id) + [WithoutOrdinal(event)] else Project(trace, id)
  {
    assert (trace + [event])[..|trace|] == trace;
  }

  // Two states that agree on everything about one scope.
  ghost predicate SameScope(f: Front, g: Front, id: string) {
    && (id in f.scopes <==> id in g.scopes)
    && (id in f.scopes ==> f.scopes[id] == g.scopes[id])
    && (forall stream :: BufferAt(f, (id, stream)) == BufferAt(g, (id, stream)))
    && (forall stream :: (id, stream) in f.buffers <==> (id, stream) in g.buffers)
    && Project(f.trace, id) == Project(g.trace, id)
  }

  // Scopes are stored under their own identifier, and empty buffers are not stored.
  ghost predicate Named(f: Front) {
    (forall id | id in f.scopes :: f.scopes[id].scope.id == id) &&
    (forall key | key in f.buffers :: f.buffers[key] != EMPTY_BUFFER)
  }

  lemma SafeIsNamed(limits: Limits, ops: seq<Op>)
    ensures Named(Run(limits, ops))
  {
    RunSafe(limits, ops);
  }

  // ---------------------------------------------------------------- another scope's operations

  lemma OtherDispatch(f: Front, other: string, stream: Stream, bytes: seq<byte>, cut: bool, id: string)
    requires Named(f) && other != id
    ensures Named(Dispatch(f, other, stream, bytes, cut))
    ensures SameScope(f, Dispatch(f, other, stream, bytes, cut), id)
  {
    var g := Dispatch(f, other, stream, bytes, cut);
    if g != f {
      ProjectAppend(f.trace, g.trace[|f.trace|], id);
    }
  }

  lemma OtherSet(f: Front, key: Key, buffer: LineBuffer, id: string)
    requires Named(f) && key.0 != id
    ensures Named(SetBuffer(f, key, buffer))
    ensures SameScope(f, SetBuffer(f, key, buffer), id)
  {
  }

  lemma OtherByte(limits: Limits, f: Front, other: string, stream: Stream, b: byte, id: string)
    requires Named(f) && other != id
    ensures Named(FrameByte(limits, f, other, stream, b))
    ensures SameScope(f, FrameByte(limits, f, other, stream, b), id)
  {
    var key := (other, stream);
    var buffer := BufferAt(f, key);
    if b == LF || b == CR {
      if b == LF && buffer.previousWasCr {
        OtherSet(f, key, buffer.(previousWasCr := false), id);
      } else {
        OtherDispatch(f, other, stream, buffer.bytes, buffer.truncated, id);
        OtherSet(Dispatch(f, other, stream, buffer.bytes, buffer.truncated), key, LineBuffer([], false, b == CR), id);
      }
    } else if |buffer.bytes| < limits.maxLineBytes {
      OtherSet(f, key, LineBuffer(buffer.bytes + [b], buffer.truncated, false), id);
    } else {
      OtherSet(f, key, LineBuffer(buffer.bytes, true, false), id);
    }
  }

  lemma {:induction false} OtherBytes(limits: Limits, f: Front, other: string, stream: Stream, bytes: seq<byte>, id: string)
    requires Named(f) && other != id
    ensures Named(FrameBytes(limits, f, other, stream, bytes))
    ensures SameScope(f, FrameBytes(limits, f, other, stream, bytes), id)
  {
    if bytes != [] {
      var init := bytes[..|bytes| - 1];
      OtherBytes(limits, f, other, stream, init, id);
      OtherByte(limits, FrameBytes(limits, f, other, stream, init), other, stream, bytes[|bytes| - 1], id);
    }
  }

  lemma OtherFlush(f: Front, other: string, stream: Stream, id: string)
    requires Named(f) && other != id
    ensures Named(FlushStream(f, other, stream))
    ensures SameScope(f, FlushStream(f, other, stream), id)
  {
    var key := (other, stream);
    if key in f.buffers {
      var g := f.(buffers := f.buffers - {key});
      OtherDispatch(g, other, stream, f.buffers[key].bytes, f.buffers[key].truncated, id);
    }
  }

  lemma {:induction false} OtherFlushes(f: Front, other: string, n: nat, id: string)
    requires Named(f) && other != id && n <= |STREAMS|
    ensures Named(FlushStreams(f, other, n))
    ensures SameScope(f, FlushStreams(f, other, n), id)
  {
    if n > 0 {
      OtherFlushes(f, other, n - 1, id);
      OtherFlush(FlushStreams(f, other, n - 1), other, STREAMS[n - 1], id);
    }
  }

  lemma OtherEnd(f: Front, other: string, reason: EndReason, id: string)
    requires Named(f) && other != id
    ensures Named(EndScope(f, other, reason))
    ensures SameScope(f, EndScope(f, other, reason), id)
  {
    if other in f.scopes {
      OtherFlushes(f, other, |STREAMS|, id);
      FlushKeepsScopes(f, other, |STREAMS|);
      var g := FlushStreams(f, other, |STREAMS|);
      var h := EndScope(f, other, reason);
      ProjectAppend(g.trace, h.trace[|g.trace|], id);
    }
  }

  lemma OtherPush(limits: Limits, f: Front, other: string, stream: Stream, chunk: seq<byte>, id: string)
    requires Named(f) && other != id
    ensures Named(PushChunk(limits, f, other, stream, chunk))
    ensures SameScope(f, PushChunk(limits, f, other, stream, chunk), id)
  {
    if other in f.scopes {
      var kept := Room(limits, f.scopes[other].retained, |chunk|);
      OtherBytes(limits, Account(f, other, |chunk|, kept), other, stream, chunk[..kept], id);
    }
  }

  lemma OtherBegin(limits: Limits, f: Front, scope: Scope, id: string)
    requires Named(f) && scope.id != id
    ensures Named(BeginScope(limits, f, scope))
    ensures SameScope(f, BeginScope(limits, f, scope), id)
  {
    ProjectAppend(f.trace, Began(scope), id);
  }

  lemma OtherOp(limits: Limits, f: Front, op: Op, id: string)
    requires Named(f) && OpScope(op) != id
    ensures Named(Apply(limits, f, op))
    ensures SameScope(f, Apply(limits, f, op), id)
  {
    match op {
      case Begin(scope) => OtherBegin(limits, f, scope, id);
      case Push(other, stream, chunk) => OtherPush(limits, f, other, stream, chunk, id);
      case End(other, reason) => OtherEnd(f, other, reason, id);
    }
  }

  // ---------------------------------------------------------------- the scope's own operations

  function OpScope(op: Op): string {
    match op
    case Begin(scope) => scope.id
    case Push(id, _, _) => id
    case End(id, _) => id
  }

  lemma OwnDispatch(f: Front, g: Front, id: string, stream: Stream, bytes: seq<byte>, cut: bool)
    requires SameScope(f, g, id) && Named(f) && Named(g)
    ensures SameScope(Dispatch(f, id, stream, bytes, cut), Dispatch(g, id, stream, bytes, cut), id)
    ensures Named(Dispatch(f, id, stream, bytes, cut)) && Named(Dispatch(g, id, stream, bytes, cut))
  {
    var x, y := Dispatch(f, id, stream, bytes, cut), Dispatch(g, id, stream, bytes, cut);
    if NormalizeLine(bytes) != [] && id in f.scopes {
      ProjectAppend(f.trace, x.trace[|f.trace|], id);
      ProjectAppend(g.trace, y.trace[|g.trace|], id);
    }
  }

  lemma OwnSet(f: Front, g: Front, key: Key, buffer: LineBuffer)
    requires SameScope(f, g, key.0) && Named(f) && Named(g)
    ensures SameScope(SetBuffer(f, key, buffer), SetBuffer(g, key, buffer), key.0)
    ensures Named(SetBuffer(f, key, buffer)) && Named(SetBuffer(g, key, buffer))
  {
  }

  lemma OwnByte(limits: Limits, f: Front, g: Front, id: string, stream: Stream, b: byte)
    requires SameScope(f, g, id) && Named(f) && Named(g)
    ensures SameScope(FrameByte(limits, f, id, stream, b), FrameByte(limits, g, id, stream, b), id)
    ensures Named(FrameByte(limits, f, id, stream, b)) && Named(FrameByte(limits, g, id, stream, b))
  {
    var key := (id, stream);
    var buffer := BufferAt(f, key);
    if b == LF || b == CR {
      if b == LF && buffer.previousWasCr {
        OwnSet(f, g, key, buffer.(previousWasCr := false));
      } else {
        OwnDispatch(f, g, id, stream, buffer.bytes, buffer.truncated);
        OwnSet(Dispatch(f, id, stream, buffer.bytes, buffer.truncated),
               Dispatch(g, id, stream, buffer.bytes, buffer.truncated), key, LineBuffer([], false, b == CR));
      }
    } else if |buffer.bytes| < limits.maxLineBytes {
      OwnSet(f, g, key, LineBuffer(buffer.bytes + [b], buffer.truncated, false));
    } else {
      OwnSet(f, g, key, LineBuffer(buffer.bytes, true, false));
    }
  }

  lemma {:induction false} OwnBytes(limits: Limits, f: Front, g: Front, id: string, stream: Stream, bytes: seq<byte>)
    requires SameScope(f, g, id) && Named(f) && Named(g)
    ensures SameScope(FrameBytes(limits, f, id, stream, bytes), FrameBytes(limits, g, id, stream, bytes), id)
    ensures Named(FrameBytes(limits, f, id, stream, bytes)) && Named(FrameBytes(limits, g, id, stream, bytes))
  {
    if bytes != [] {
      var init := bytes[..|bytes| - 1];
      OwnBytes(limits, f, g, id, stream, init);
      OwnByte(limits, FrameBytes(limits, f, id, stream, init), FrameBytes(limits, g, id, stream, init), id, stream, bytes[|bytes| - 1]);
    }
  }

  lemma OwnFlush(f: Front, g: Front, id: string, stream: Stream)
    requires SameScope(f, g, id) && Named(f) && Named(g)
    ensures SameScope(FlushStream(f, id, stream), FlushStream(g, id, stream), id)
    ensures Named(FlushStream(f, id, stream)) && Named(FlushStream(g, id, stream))
  {
    var key := (id, stream);
    if key in f.buffers {
      assert f.buffers[key] == BufferAt(f, key) == BufferAt(g, key) == g.buffers[key];
      var x, y := SetBuffer(f, key, EMPTY_BUFFER), SetBuffer(g, key, EMPTY_BUFFER);
      OwnSet(f, g, key, EMPTY_BUFFER);
      OwnDispatch(x, y, id, stream, f.buffers[key].bytes, f.buffers[key].truncated);
    }
  }

  lemma {:induction false} OwnFlushes(f: Front, g: Front, id: string, n: nat)
    requires SameScope(f, g, id) && Named(f) && Named(g) && n <= |STREAMS|
    ensures SameScope(FlushStreams(f, id, n), FlushStreams(g, id, n), id)
    ensures Named(FlushStreams(f, id, n)) && Named(FlushStreams(g, id, n))
  {
    if n > 0 {
      OwnFlushes(f, g, id, n - 1);
      OwnFlush(FlushStreams(f, id, n - 1), FlushStreams(g, id, n - 1), id, STREAMS[n - 1]);
    }
  }

  lemma OwnClose(f: Front, g: Front, id: string, reason: EndReason)
    requires SameScope(f, g, id) && Named(f) && Named(g) && id in f.scopes
    ensures SameScope(Close(f, id, reason), Close(g, id, reason), id)
    ensures Named(Close(f, id, reason)) && Named(Close(g, id, reason))
  {
    ProjectAppend(f.trace, Close(f, id, reason).trace[|f.trace|], id);
    ProjectAppend(g.trace, Close(g, id, reason).trace[|g.trace|], id);
  }

  lemma OwnEnd(f: Front, g: Front, id: string, reason: EndReason)
    requires SameScope(f, g, id) && Named(f) && Named(g)
    ensures SameScope(EndScope(f, id, reason), EndScope(g, id, reason), id)
    ensures Named(EndScope(f, id, reason)) && Named(EndScope(g, id, reason))
  {
    if id in f.scopes {
      OwnFlushes(f, g, id, |STREAMS|);
      FlushKeepsScopes(f, id, |STREAMS|);
      FlushKeepsScopes(g, id, |STREAMS|);
      OwnClose(FlushStreams(f, id, |STREAMS|), FlushStreams(g, id, |STREAMS|), id, reason);
    }
  }

  lemma OwnBegin(limits: Limits, f: Front, g: Front, scope: Scope)
    requires SameScope(f, g, scope.id) && Named(f) && Named(g)
    requires CanBegin(limits, f, scope) <==> CanBegin(limits, g, scope)
    ensures SameScope(BeginScope(limits, f, scope), BeginScope(limits, g, scope), scope.id)
    ensures Named(BeginScope(limits, f, scope)) && Named(BeginScope(limits, g, scope))
  {
    ProjectAppend(f.trace, Began(scope), scope.id);
    ProjectAppend(g.trace, Began(scope), scope.id);
  }

  lemma OwnPush(limits: Limits, f: Front, g: Front, id: string, stream: Stream, chunk: seq<byte>)
    requires SameScope(f, g, id) && Named(f) && Named(g)
    ensures SameScope(PushChunk(limits, f, id, stream, chunk), PushChunk(limits, g, id, stream, chunk), id)
    ensures Named(PushChunk(limits, f, id, stream, chunk)) && Named(PushChunk(limits, g, id, stream, chunk))
  {
    if id in f.scopes {
      var kept := Room(limits, f.scopes[id].retained, |chunk|);
      OwnBytes(limits, Account(f, id, |chunk|, kept), Account(g, id, |chunk|, kept), id, stream, chunk[..kept]);
    }
  }

  // ---------------------------------------------------------------- runs

  // The run with every operation on another scope erased.
  function Only(ops: seq<Op>, id: string): seq<Op> {
    if ops == [] then []
    else
      var before := Only(ops[..|ops| - 1], id);
      if OpScope(ops[|ops| - 1]) == id then before + [ops[|ops| - 1]] else before
  }

  // No begin of the scope is refused because too many scopes are open.
  ghost predicate NeverRefused(limits: Limits, ops: seq<Op>, id: string) {
    forall k | 0 <= k < |ops| && ops[k].Begin? && ops[k].scope.id == id ::
      id in Run(limits, ops[..k]).scopes || |Run(limits, ops[..k]).scopes| < limits.maxScopes
  }

  lemma RunOnly(limits: Limits, ops: seq<Op>, id: string)
    requires ops != []
    ensures var init, op := ops[..|ops| - 1], ops[|ops| - 1];
      Run(limits, Only(ops, id)) ==
        if OpScope(op) == id then Apply(limits, Run(limits, Only(init, id)), op) else Run(limits, Only(init, id))
  {
    var init := ops[..|ops| - 1];
    assert OpScope(ops[|ops| - 1]) == id ==> Only(ops, id)[..|Only(ops, id)| - 1] == Only(init, id);
  }

  lemma {:induction false} OnlyScope(limits: Limits, ops: seq<Op>, id: string)
    ensures Run(limits, Only(ops, id)).scopes.Keys <= {id}
  {
    if ops != [] {
      var init, op := ops[..|ops| - 1], ops[|ops| - 1];
      OnlyScope(limits, init, id);
      if OpScope(op) == id {
        RunOnly(limits, ops, id);
        OpKeepsWithin(limits, Run(limits, Only(init, id)), op);
      }
    }
  }

  lemma OpKeepsWithin(limits: Limits, f: Front, op: Op)
    ensures Apply(limits, f, op).scopes.Keys <= f.scopes.Keys + {OpScope(op)}
  {
    match op {
      case Begin(scope) =>
      case Push(id, stream, chunk) =>
        if id in f.scopes {
          var kept := Room(limits, f.scopes[id].retained, |chunk|);
          BytesKeepWithin(limits, Account(f, id, |chunk|, kept), id, stream, chunk[..kept]);
        }
      case End(id, reason) => EndRemoves(f, id, reason);
    }
  }

  lemma {:induction false} BytesKeepWithin(limits: Limits, f: Front, id: string, stream: Stream, bytes: seq<byte>)
    ensures FrameBytes(limits, f, id, stream, bytes).scopes.Keys == f.scopes.Keys
  {
    if bytes != [] {
      BytesKeepWithin(limits, f, id, stream, bytes[..|bytes| - 1]);
    }
  }

  lemma OneScope(f: Front, id: string)
    requires f.scopes.Keys <= {id} && id !in f.scopes
    ensures |f.scopes| == 0
  {
    assert f.scopes.Keys == {};
    assert |f.scopes| == |f.scopes.Keys|;
  }

  lemma OwnOp(limits: Limits, f: Front, g: Front, op: Op)
    requires SameScope(f, g, OpScope(op)) && Named(f) && Named(g)
    requires op.Begin? ==> (CanBegin(limits, f, op.scope) <==> CanBegin(limits, g, op.scope))
    ensures SameScope(Apply(limits, f, op), Apply(limits, g, op), OpScope(op))
  {
    match op {
      case Begin(scope) => OwnBegin(limits, f, g, scope);
      case Push(id, stream, chunk) => OwnPush(limits, f, g, id, stream, chunk);
      case End(id, reason) => OwnEnd(f, g, id, reason);
    }
  }

  lemma NeverRefusedBefore(limits: Limits, ops: seq<Op>, id: string)
    requires NeverRefused(limits, ops, id) && ops != []
    ensures NeverRefused(limits, ops[..|ops| - 1], id)
  {
    var init := ops[..|ops| - 1];
    assert forall k | 0 <= k < |init| :: init[k] == ops[k] && init[..k] == ops[..k];
  }

  lemma SameBegin(limits: Limits, ops: seq<Op>, scope: Scope, g: Front)
    requires NeverRefused(limits, ops, scope.id) && ops != [] && ops[|ops| - 1] == Begin(scope)
    requires g.scopes.Keys <= {scope.id}
    requires scope.id in Run(limits, ops[..|ops| - 1]).scopes <==> scope.id in g.scopes
    ensures CanBegin(limits, Run(limits, ops[..|ops| - 1]), scope) <==> CanBegin(limits, g, scope)
  {
    assert ops[|ops| - 1].Begin?;
    if scope.id !in g.scopes {
      OneScope(g, scope.id);
    }
  }

  lemma {:induction false} RunIsolated(limits: Limits, ops: seq<Op>, id: string)
    requires NeverRefused(limits, ops, id)
    ensures SameScope(Run(limits, ops), Run(limits, Only(ops, id)), id)
  {
    if ops != [] {
      var init, op := ops[..|ops| - 1], ops[|ops| - 1];
      NeverRefusedBefore(limits, ops, id);
      RunIsolated(limits, init, id);
      SafeIsNamed(limits, init);
      SafeIsNamed(limits, Only(init, id));
      RunOnly(limits, ops, id);
      IsolatedStep(limits, ops, id);
    }
  }

  lemma IsolatedStep(limits: Limits, ops: seq<Op>, id: string)
    requires ops != [] && NeverRefused(limits, ops, id)
    requires var f, g := Run(limits, ops[..|ops| - 1]), Run(limits, Only(ops[..|ops| - 1], id));
      SameScope(f, g, id) && Named(f) && Named(g)
    ensures var f, g, op := Run(limits, ops[..|ops| - 1]), Run(limits, Only(ops[..|ops| - 1], id)), ops[|ops| - 1];
      SameScope(Apply(limits, f, op), if OpScope(op) == id then Apply(limits, g, op) else g, id)
  {
    var init, op := ops[..|ops| - 1], ops[|ops| - 1];
    var f, g := Run(limits, init), Run(limits, Only(init, id));
    if OpScope(op) != id {
      OtherOp(limits, f, op, id);
    } else {
      if op.Begin? {
        OnlyScope(limits, init, id);
        SameBegin(limits, ops, op.scope, g);
      }
      OwnOp(limits, f, g, op);
    }
  }

  lemma {:induction false} EndAllIsolated(f: Front, ids: seq<string>, id: string)
    requires Named(f)
    ensures Named(EndAll(f, ids))
    ensures SameScope(if id in ids then EndScope(f, id, Interrupted) else f, EndAll(f, ids), id)
  {
    if ids != [] {
      var init, last := ids[..|ids| - 1], ids[|ids| - 1];
      assert ids == init + [last];
      EndAllIsolated(f, init, id);
      var g := EndAll(f, init);
      if last != id {
        OtherEnd(g, last, Interrupted, id);
      } else {
        OwnEnd(f, f, id, Interrupted);
        EndRemoves(f, id, Interrupted);
        if id !in init {
          OwnEnd(f, g, id, Interrupted);
        }
      }
    }
  }

  lemma FinishProjects(f: Front, id: string)
    requires Named(f)
    ensures Project(Finish(f).trace, id) == Project(EndScope(f, id, Interrupted).trace, id)
  {
    var ids := Ascending(f.scopes.Keys);
    AscendingIds(f.scopes.Keys, id);
    EndAllIsolated(f, ids, id);
    ProjectAppend(EndAll(f, ids).trace, Finished, id);
  }

  /** Scope isolation: unless a begin of the scope is refused because too many scopes are open, the
      parsers see of it exactly what they would see if no other scope existed: the same begin, the same
      lines with the same numbers, texts and truncation marks, the same end with the same reason. */
  lemma ScopeIsolation(limits: Limits, ops: seq<Op>, id: string)
    requires NeverRefused(limits, ops, id)
    ensures Project(Finish(Run(limits, ops)).trace, id) == Project(Finish(Run(limits, Only(ops, id))).trace, id)
  {
    var f, g := Run(limits, ops), Run(limits, Only(ops, id));
    RunIsolated(limits, ops, id);
    SafeIsNamed(limits, ops);
    SafeIsNamed(limits, Only(ops, id));
    FinishProjects(f, id);
    FinishProjects(g, id);
    OwnEnd(f, g, id, Interrupted);
  }
}
