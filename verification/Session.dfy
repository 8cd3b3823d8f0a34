/** The incremental reduction session: the class with its scopes, buffers, counters, parsers and
    candidate store, proved step by step against the engine and the plan, and chunk invariance of the
    reduction it returns. */
module Session {
  import opened Model
  import opened Text
  import opened Engine
  import opened Plan
  import opened Finalize
  import ChunkInvariance

  datatype Options = Options(limits: Limits, budget: Budget)

  // ---------------------------------------------------------------- what a session computes

  function StartState<P>(states: seq<P>): PlanState<P> {
    PlanState(states, Store([], [], 0))
  }

  // The counters with those of the candidate store.
  function WithCandidates(stats: Stats, store: Store): Stats {
    stats.(candidatesEmitted := SatAdd(|store.diagnostics|, |store.testFailures|),
           candidatesDropped := SatAdd(stats.candidatesDropped, store.dropped))
  }

  // The reduction that finishing in the given state returns.
  ghost function Result<P>(plan: seq<Parser<P>>, states: seq<P>, options: Options, policy: Policy, f: Front): Reduction
    requires |plan| == |states|
  {
    var g := Finish(f);
    var store := Replay(plan, StartState(states), g.trace, options.limits.maxCandidates).store;
    Finalized(policy, options.budget, store.diagnostics, store.testFailures, WithCandidates(g.stats, store))
  }

  ghost function Reduce<P>(plan: seq<Parser<P>>, states: seq<P>, options: Options, policy: Policy, ops: seq<Op>): Reduction
    requires |plan| == |states|
  {
    Result(plan, states, options, policy, Run(options.limits, ops))
  }

  /** Chunk invariance: for every parser plan, every policy and all limits, runs that differ only in how
      the bytes of a stream are cut into chunks return equal reductions, counters included. */
  lemma ChunkInvariantReduction<P>(
    plan: seq<Parser<P>>, states: seq<P>, options: Options, policy: Policy, ops1: seq<Op>, ops2: seq<Op>)
    requires |plan| == |states|
    requires ChunkInvariance.Bytewise(ops1) == ChunkInvariance.Bytewise(ops2)
    ensures Reduce(plan, states, options, policy, ops1) == Reduce(plan, states, options, policy, ops2)
  {
    ChunkInvariance.SameTrace(options.limits, ops1, ops2);
  }

  // ---------------------------------------------------------------- the class

  function Canonical(buffers: map<Key, LineBuffer>): map<Key, LineBuffer> {
    map key | key in buffers && buffers[key] != EMPTY_BUFFER :: buffers[key]
  }

  class ReductionSession<P> {
    const plan: seq<Parser<P>>
    const options: Options
    const policy: Policy
    const candidates: CandidateStore
    ghost const initial: seq<P>

    var states: seq<P>
    var scopes: map<string, ScopeState>
    var buffers: map<Key, LineBuffer>
    var stats: Stats
    var nextOrdinal: u64
    ghost var trace: seq<Event>

    // The session's state, with buffers that hold nothing left out.
    ghost function State(): Front
      reads this
    {
      Front(scopes, Canonical(buffers), stats, nextOrdinal, trace)
    }

    // Parsers and candidates are where the plan, replayed on the trace, leaves them.
    ghost predicate Valid()
      reads this, candidates
    {
      && |plan| == |initial|
      && PlanState(states, candidates.Value()) == Replay(plan, StartState(initial), trace, options.limits.maxCandidates)
    }

    constructor (plan: seq<Parser<P>>, states: seq<P>, options: Options, policy: Policy)
      requires |plan| == |states|
      ensures Valid() && State() == INITIAL && fresh(candidates)
      ensures this.plan == plan && this.initial == states && this.options == options && this.policy == policy
    {
      this.plan, this.options, this.policy, this.initial := plan, options, policy, states;
      this.candidates := new CandidateStore();
      this.states, scopes, buffers, stats, nextOrdinal, trace := states, map[], map[], NO_STATS, 0, [];
      new;
      assert Canonical(map[]) == map[];
    }

    // Shows an event to every parser, in plan order.
    method Show(event: Event)
      requires Valid()
      modifies this`states, this`trace, candidates
      ensures Valid()
      ensures trace == old(trace) + [event]
    {
      ghost var before := PlanState(states, candidates.Value());
      var maximum := options.limits.maxCandidates;
      for n := 0 to |plan|
        modifies this`states, candidates
        invariant PlanState(states, candidates.Value()) == ReactUpTo(plan, before, event, maximum, n)
      {
        var (state, emissions) := React(plan[n], states[n], event);
        states := states[n := state];
        candidates.Emit(maximum, ContextOf(event, plan[n].id), emissions);
      }
      trace := trace + [event];
      assert trace[..|trace| - 1] == old(trace);
    }

    method BeginScope(scope: Scope) returns (accepted: bool)
      requires Valid()
      modifies this, candidates
      ensures Valid()
      ensures accepted == CanBegin(options.limits, old(State()), scope)
      ensures State() == Engine.BeginScope(options.limits, old(State()), scope)
    {
      if scope.id in scopes || |scopes| >= options.limits.maxScopes {
        stats := stats.(candidatesDropped := SatAdd(stats.candidatesDropped, 1));
        return false;
      }
      scopes := scopes[scope.id := ScopeState(scope, 0, false, map[])];
      stats := stats.(scopesStarted := SatAdd(stats.scopesStarted, 1));
      Show(Began(scope));
      return true;
    }

    method DispatchBytes(id: string, stream: Stream, bytes: seq<byte>, cut: bool)
      requires Valid()
      modifies this, candidates
      ensures Valid() && buffers == old(buffers)
      ensures State() == Dispatch(old(State()), id, stream, bytes, cut)
    {
      var normalized := NormalizeLine(bytes);
      if normalized == [] || id !in scopes {
        return;
      }
      var state := scopes[id];
      var streamLine := SatAdd(LineCount(state.lines, stream), 1);
      var ordinal := nextOrdinal;
      nextOrdinal := SatAdd(nextOrdinal, 1);
      stats := stats.(linesSeen := SatAdd(stats.linesSeen, 1));
      if cut {
        stats := stats.(truncatedLines := SatAdd(stats.truncatedLines, 1));
      }
      scopes := scopes[id := state.(lines := state.lines[stream := streamLine], truncated := state.truncated || cut)];
      Show(Line(LogLine(state.scope, stream, ordinal, streamLine, normalized, cut)));
    }

    // Frames one byte, the buffer of the stream being held by the caller.
    method FrameOne(id: string, stream: Stream, buffer: LineBuffer, b: byte) returns (next: LineBuffer)
      requires Valid() && (id, stream) !in buffers
      modifies this, candidates
      ensures Valid() && buffers == old(buffers)
      ensures SetBuffer(State(), (id, stream), next)
        == FrameByte(options.limits, SetBuffer(old(State()), (id, stream), buffer), id, stream, b)
    {
      ghost var key, now := (id, stream), State();
      SetBufferTwice(now, key, buffer);
      if b == LF || b == CR {
        if b == LF && buffer.previousWasCr {
          next := buffer.(previousWasCr := false);
        } else {
          DispatchBytes(id, stream, buffer.bytes, buffer.truncated);
          DispatchKeepsBuffer(now, key, buffer, buffer.bytes, buffer.truncated);
          next := LineBuffer([], false, b == CR);
        }
      } else if |buffer.bytes| < options.limits.maxLineBytes {
        next := LineBuffer(buffer.bytes + [b], buffer.truncated, false);
      } else {
        next := LineBuffer(buffer.bytes, true, false);
      }
    }

    // Frames the retained part of a chunk. The buffer of the stream is held locally meanwhile.
    method FrameChunk(id: string, stream: Stream, bytes: seq<byte>)
      requires Valid()
      modifies this, candidates
      ensures Valid()
      ensures State() == FrameBytes(options.limits, old(State()), id, stream, bytes)
    {
      var key := (id, stream);
      var buffer := if key in buffers then buffers[key] else EMPTY_BUFFER;
      ghost var start := State();
      buffers := buffers - {key};
      RemovedBuffer(old(buffers), key);
      TakenBuffer(old(buffers), key);
      for i := 0 to |bytes|
        invariant Valid() && key !in buffers
        invariant SetBuffer(State(), key, buffer) == FrameBytes(options.limits, start, id, stream, bytes[..i])
      {
        assert bytes[..i + 1][..i] == bytes[..i];
        buffer := FrameOne(id, stream, buffer, bytes[i]);
      }
      assert bytes[..|bytes|] == bytes;
      StoredBuffer(buffers, key, buffer);
      buffers := buffers[key := buffer];
    }

    method PushChunk(id: string, stream: Stream, chunk: seq<byte>) returns (accepted: bool)
      requires Valid()
      modifies this, candidates
      ensures Valid()
      ensures accepted == (id in old(scopes))
      ensures State() == Engine.PushChunk(options.limits, old(State()), id, stream, chunk)
    {
      if id !in scopes {
        return false;
      }
      var state := scopes[id];
      stats := stats.(bytesSeen := SatAdd(stats.bytesSeen, |chunk|));
      var available := SatSub(options.limits.maxScopeBytes, state.retained);
      var retained := Min(|chunk|, available);
      stats := stats.(bytesRetained := SatAdd(stats.bytesRetained, retained));
      scopes := scopes[id := state.(retained := SatAdd(state.retained, retained),
                                    truncated := state.truncated || retained < |chunk|)];
      FrameChunk(id, stream, chunk[..retained]);
      return true;
    }

    method FlushBuffer(id: string, stream: Stream)
      requires Valid()
      modifies this, candidates
      ensures Valid()
      ensures State() == FlushStream(old(State()), id, stream)
    {
      var key := (id, stream);
      if key in buffers {
        var buffer := buffers[key];
        RemovedBuffer(buffers, key);
        buffers := buffers - {key};
        if buffer.bytes != [] || buffer.truncated {
          DispatchBytes(id, stream, buffer.bytes, buffer.truncated);
        }
      }
    }

    method EndScope(id: string, reason: EndReason) returns (accepted: bool)
      requires Valid()
      modifies this, candidates
      ensures Valid()
      ensures accepted == (id in old(scopes))
      ensures State() == Engine.EndScope(old(State()), id, reason)
    {
      if id !in scopes {
        return false;
      }
      ghost var start := State();
      for n := 0 to |STREAMS|
        invariant Valid()
        invariant State() == FlushStreams(start, id, n)
      {
        FlushBuffer(id, STREAMS[n]);
      }
      FlushKeepsScopes(start, id, |STREAMS|);
      assert id in State().scopes;
      var state := scopes[id];
      scopes := scopes - {id};
      var effective := if state.truncated && reason == Complete then Truncated else reason;
      Show(Ended(state.scope, effective, state.truncated));
      stats := stats.(scopesCompleted := SatAdd(stats.scopesCompleted, 1));
      return true;
    }

    method Finish() returns (reduction: Reduction)
      requires Valid()
      modifies this, candidates
      ensures reduction == Result(plan, initial, options, policy, old(State()))
    {
      ghost var start := State();
      var ids := AscendingIds(scopes.Keys);
      for i := 0 to |ids|
        invariant Valid()
        invariant State() == EndAll(start, ids[..i])
      {
        assert ids[..i + 1][..i] == ids[..i];
        var _ := EndScope(ids[i], Interrupted);
      }
      assert ids[..|ids|] == ids;
      Show(Finished);
      var emitted := SatAdd(|candidates.diagnostics|, |candidates.testFailures|);
      reduction := FinalizeFindings(policy, options.budget, candidates.diagnostics, candidates.testFailures,
        stats.(candidatesEmitted := emitted, candidatesDropped := SatAdd(stats.candidatesDropped, candidates.dropped)));
    }
  }

  // ---------------------------------------------------------------- buffers held locally

  lemma RemovedBuffer(buffers: map<Key, LineBuffer>, key: Key)
    ensures Canonical(buffers - {key}) == Canonical(buffers) - {key}
  {
  }

  lemma TakenBuffer(buffers: map<Key, LineBuffer>, key: Key)
    ensures var buffer := if key in buffers then buffers[key] else EMPTY_BUFFER;
      Canonical(buffers) ==
        if buffer == EMPTY_BUFFER then Canonical(buffers) - {key} - {key} else (Canonical(buffers) - {key})[key := buffer]
  {
  }

  lemma StoredBuffer(buffers: map<Key, LineBuffer>, key: Key, buffer: LineBuffer)
    requires key !in buffers
    ensures Canonical(buffers[key := buffer]) ==
      if buffer == EMPTY_BUFFER then Canonical(buffers) - {key} else Canonical(buffers)[key := buffer]
  {
  }

  lemma SetBufferTwice(f: Front, key: Key, held: LineBuffer)
    requires key !in f.buffers
    ensures BufferAt(SetBuffer(f, key, held), key) == held
    ensures forall next :: SetBuffer(SetBuffer(f, key, held), key, next) == SetBuffer(f, key, next)
  {
    forall next ensures SetBuffer(SetBuffer(f, key, held), key, next) == SetBuffer(f, key, next) {
      assert SetBuffer(SetBuffer(f, key, held), key, next).buffers == SetBuffer(f, key, next).buffers;
    }
  }

  lemma DispatchKeepsBuffer(f: Front, key: Key, held: LineBuffer, bytes: seq<byte>, cut: bool)
    requires key !in f.buffers
    ensures forall next ::
      SetBuffer(Dispatch(SetBuffer(f, key, held), key.0, key.1, bytes, cut), key, next) ==
      SetBuffer(Dispatch(f, key.0, key.1, bytes, cut), key, next)
  {
    forall next
      ensures SetBuffer(Dispatch(SetBuffer(f, key, held), key.0, key.1, bytes, cut), key, next)
        == SetBuffer(Dispatch(f, key.0, key.1, bytes, cut), key, next)
    {
      SetBufferTwice(f, key, held);
      assert SetBuffer(SetBuffer(f, key, held), key, next).buffers == SetBuffer(f, key, next).buffers;
    }
  }

  // ---------------------------------------------------------------- identifiers in map order

  method LeastId(ids: set<string>) returns (id: string)
    requires ids != {}
    ensures id == Least(ids)
  {
    id :| id in ids;
    var rest := ids - {id};
    while rest != {}
      invariant id in ids && rest <= ids
      invariant forall other | other in ids - rest :: other == id || IdLess(id, other)
      decreases rest
    {
      var next :| next in rest;
      IdLessTotal(id, next);
      if IdLess(next, id) {
        forall other | other in ids - rest && other != id ensures IdLess(next, other) {
          IdLessTransitive(next, id, other);
        }
        id := next;
      }
      rest := rest - {next};
    }
    assert IsLeast(id, ids);
    LeastUnique(id, Least(ids), ids);
  }

  method AscendingIds(ids: set<string>) returns (sorted: seq<string>)
    ensures sorted == Ascending(ids)
  {
    sorted := [];
    var rest := ids;
    while rest != {}
      invariant Ascending(ids) == sorted + Ascending(rest)
      decreases rest
    {
      var id := LeastId(rest);
      sorted := sorted + [id];
      rest := rest - {id};
    }
  }

  // ---------------------------------------------------------------- whole runs

  /** A caller driving a session through any run gets the reduction of that run. */
  method Drive<P>(plan: seq<Parser<P>>, states: seq<P>, options: Options, policy: Policy, ops: seq<Op>)
    returns (reduction: Reduction)
    requires |plan| == |states|
    ensures reduction == Reduce(plan, states, options, policy, ops)
  {
    var session := new ReductionSession<P>(plan, states, options, policy);
    for i := 0 to |ops|
      invariant session.Valid() && fresh(session) && fresh(session.candidates)
      invariant session.plan == plan && session.initial == states && session.options == options && session.policy == policy
      invariant session.State() == Run(options.limits, ops[..i])
    {
      assert ops[..i + 1][..i] == ops[..i];
      match ops[i]
      case Begin(scope) => var _ := session.BeginScope(scope);
      case Push(id, stream, chunk) => var _ := session.PushChunk(id, stream, chunk);
      case End(id, reason) => var _ := session.EndScope(id, reason);
    }
    assert ops[..|ops|] == ops;
    reduction := session.Finish();
  }
}
