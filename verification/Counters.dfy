/** What the counters of a session mean over whole runs, and when a reduction calls itself truncated. */
module Counters {
  import opened Model
  import opened Text
  import opened Engine
  import opened Lifecycle
  import opened Isolation
  import opened Plan
  import opened Finalize
  import opened FinalizeLemmas
  import opened Session
  import opened Candidates
  import ChunkInvariance

  // ---------------------------------------------------------------- bytes and refused begins

  // How many begins were refused.
  function RefusedIn(limits: Limits, ops: seq<Op>): nat {
    if ops == [] then 0
    else
      var init, op := ops[..|ops| - 1], ops[|ops| - 1];
      RefusedIn(limits, init) + if op.Begin? && !CanBegin(limits, Run(limits, init), op.scope) then 1 else 0
  }

  // How many bytes were pushed to a scope since it was begun.
  function PushedSince(limits: Limits, ops: seq<Op>, id: string): nat {
    if ops == [] then 0
    else
      var init, op := ops[..|ops| - 1], ops[|ops| - 1];
      var before := PushedSince(limits, init, id);
      match op
      case Begin(scope) => if scope.id == id && id !in Run(limits, init).scopes then 0 else before
      case Push(i, _, chunk) => if i == id then before + |chunk| else before
      case End(_, _) => before
  }

  // How many bytes were pushed to open scopes, and how many of them were the first of their scope.
  function SeenBytes(limits: Limits, ops: seq<Op>): nat {
    if ops == [] then 0
    else
      var init, op := ops[..|ops| - 1], ops[|ops| - 1];
      SeenBytes(limits, init) + if op.Push? && op.id in Run(limits, init).scopes then |op.chunk| else 0
  }

  function FirstBytes(limits: Limits, n: nat): nat {
    Min(n, limits.maxScopeBytes)
  }

  function KeptBytes(limits: Limits, ops: seq<Op>): nat {
    if ops == [] then 0
    else
      var init, op := ops[..|ops| - 1], ops[|ops| - 1];
      KeptBytes(limits, init) +
      if op.Push? && op.id in Run(limits, init).scopes
      then FirstBytes(limits, PushedSince(limits, ops, op.id)) - FirstBytes(limits, PushedSince(limits, init, op.id))
      else 0
  }

  // A scope retains the first bytes pushed to it.
  lemma {:induction false} RetainedIs(limits: Limits, ops: seq<Op>, id: string)
    requires id in Run(limits, ops).scopes
    ensures Run(limits, ops).scopes[id].retained == FirstBytes(limits, PushedSince(limits, ops, id))
  {
    if ops != [] {
      var init, op := ops[..|ops| - 1], ops[|ops| - 1];
      var f := Run(limits, init);
      SafeIsNamed(limits, init);
      if OpScope(op) != id {
        OtherOp(limits, f, op, id);
        RetainedIs(limits, init, id);
      } else {
        if id in f.scopes {
          RetainedIs(limits, init, id);
        }
        if op.Push? {
          PushRetainsMore(limits, f, id, op.stream, op.chunk);
        } else if op.End? {
          EndRemoves(f, id, op.reason);
        }
      }
    }
  }

  lemma PushRetainsMore(limits: Limits, f: Front, id: string, stream: Stream, chunk: seq<byte>)
    ensures id in PushChunk(limits, f, id, stream, chunk).scopes <==> id in f.scopes
    ensures id in f.scopes && f.scopes[id].retained <= limits.maxScopeBytes ==>
      PushChunk(limits, f, id, stream, chunk).scopes[id].retained == FirstBytes(limits, f.scopes[id].retained + |chunk|)
  {
    if id in f.scopes {
      ChunkInvariance.PushRetains(limits, f, id, stream, chunk);
    }
  }

  // The counters that framing and flushing leave alone.
  predicate SameTotals(f: Front, g: Front) {
    f.stats.bytesSeen == g.stats.bytesSeen && f.stats.bytesRetained == g.stats.bytesRetained &&
    f.stats.candidatesDropped == g.stats.candidatesDropped
  }

  lemma {:induction false} FrameKeepsTotals(limits: Limits, f: Front, id: string, stream: Stream, bytes: seq<byte>)
    ensures SameTotals(f, FrameBytes(limits, f, id, stream, bytes))
  {
    if bytes != [] {
      FrameKeepsTotals(limits, f, id, stream, bytes[..|bytes| - 1]);
    }
  }

  lemma {:induction false} FlushKeepsTotals(f: Front, id: string, n: nat)
    requires n <= |STREAMS|
    ensures SameTotals(f, FlushStreams(f, id, n))
  {
    if n > 0 {
      FlushKeepsTotals(f, id, n - 1);
    }
  }

  lemma EndKeepsTotals(f: Front, id: string, reason: EndReason)
    ensures SameTotals(f, EndScope(f, id, reason))
  {
    if id in f.scopes {
      FlushKeepsTotals(f, id, |STREAMS|);
      FlushKeepsScopes(f, id, |STREAMS|);
    }
  }

  lemma {:induction false} EndAllKeepsTotals(f: Front, ids: seq<string>)
    ensures SameTotals(f, EndAll(f, ids))
  {
    if ids != [] {
      EndAllKeepsTotals(f, ids[..|ids| - 1]);
      EndKeepsTotals(EndAll(f, ids[..|ids| - 1]), ids[|ids| - 1], Interrupted);
    }
  }

  ghost predicate TotalsAre(limits: Limits, f: Front, ops: seq<Op>) {
    && f.stats.bytesSeen == Min(SeenBytes(limits, ops), U64_MAX)
    && f.stats.bytesRetained == Min(KeptBytes(limits, ops), U64_MAX)
    && f.stats.candidatesDropped == Min(RefusedIn(limits, ops), U64_MAX)
  }

  lemma {:induction false} RunTotals(limits: Limits, ops: seq<Op>)
    ensures TotalsAre(limits, Run(limits, ops), ops)
  {
    if ops != [] {
      var init, op := ops[..|ops| - 1], ops[|ops| - 1];
      var f := Run(limits, init);
      RunTotals(limits, init);
      match op {
        case Begin(scope) =>
        case End(id, reason) => EndKeepsTotals(f, id, reason);
        case Push(id, stream, chunk) =>
          if id in f.scopes {
            RetainedIs(limits, init, id);
            var kept := Room(limits, f.scopes[id].retained, |chunk|);
            FrameKeepsTotals(limits, Account(f, id, |chunk|, kept), id, stream, chunk[..kept]);
          }
      }
    }
  }

  /** The counters of a finished session, up to their capacity: bytes seen are those pushed to open scopes,
      bytes retained the first ones of each scope, dropped candidates so far the refused begins, lines and
      cut lines those shown to parsers. */
  lemma CountersAre(limits: Limits, ops: seq<Op>)
    ensures var f := Finish(Run(limits, ops));
      && f.stats.bytesSeen == Min(SeenBytes(limits, ops), U64_MAX)
      && f.stats.bytesRetained == Min(KeptBytes(limits, ops), U64_MAX)
      && f.stats.candidatesDropped == Min(RefusedIn(limits, ops), U64_MAX)
      && f.stats.linesSeen == Min(LinesIn(f.trace), U64_MAX)
      && f.stats.truncatedLines == Min(CutLinesIn(f.trace), U64_MAX)
  {
    var f := Run(limits, ops);
    var ids := Ascending(f.scopes.Keys);
    RunTotals(limits, ops);
    RunSafe(limits, ops);
    EndAllSafe(limits, f, ids);
    EndAllKeepsTotals(f, ids);
    Appended(EndAll(f, ids).trace, Finished);
  }

  // ---------------------------------------------------------------- truncation

  /** A reduction calls itself truncated exactly if not everything that is ranked fits the budget, a
      candidate of a parser could not be stored, a begin was refused, or a delivered line was cut. */
  lemma TruncatedExactly<P>(plan: seq<Parser<P>>, states: seq<P>, options: Options, policy: Policy, ops: seq<Op>)
    requires |plan| == |states|
    ensures var trace := Finish(Run(options.limits, ops)).trace;
      var store := Replay(plan, StartState(states), trace, options.limits.maxCandidates).store;
      Reduce(plan, states, options, policy, ops).truncated <==>
        || !AllFit(policy, options.budget, store.diagnostics, store.testFailures)
        || store.dropped > 0
        || RefusedIn(options.limits, ops) > 0
        || CutLinesIn(trace) > 0
  {
    CountersAre(options.limits, ops);
    var g := Finish(Run(options.limits, ops));
    var store := Replay(plan, StartState(states), g.trace, options.limits.maxCandidates).store;
    TruncatedByStats(policy, options.budget, store.diagnostics, store.testFailures, WithCandidates(g.stats, store));
  }

  /** The counters of a run with so many offered and stored candidates, up to their capacity: bytes and lines as
      above, begun and ended scopes as parsers were shown them, emitted candidates those that were stored,
      dropped ones the refused begins and every emission that was not stored. */
  ghost predicate AreCounters(stats: Stats, limits: Limits, ops: seq<Op>, trace: seq<Event>, offered: nat, stored: nat) {
    && stats.bytesSeen == Min(SeenBytes(limits, ops), U64_MAX)
    && stats.bytesRetained == Min(KeptBytes(limits, ops), U64_MAX)
    && stats.linesSeen == Min(LinesIn(trace), U64_MAX) && stats.truncatedLines == Min(CutLinesIn(trace), U64_MAX)
    && stats.scopesStarted == Min(BeginsIn(trace), U64_MAX) && stats.scopesCompleted == Min(EndsIn(trace), U64_MAX)
    && stored <= offered && stats.candidatesEmitted == Min(stored, U64_MAX)
    && stats.candidatesDropped == Min(RefusedIn(limits, ops) + (offered - stored), U64_MAX)
  }

  /** The counters that a reduction returns. */
  lemma ReturnedCounters<P>(plan: seq<Parser<P>>, states: seq<P>, options: Options, policy: Policy, ops: seq<Op>)
    requires |plan| == |states|
    ensures var trace := Finish(Run(options.limits, ops)).trace;
      var offers := Offers(plan, states, trace);
      AreCounters(Reduce(plan, states, options, policy, ops).stats, options.limits, ops, trace, |offers|,
        |Admitted(offers, options.limits.maxCandidates)|)
  {
    var limits, g := options.limits, Finish(Run(options.limits, ops));
    var store := Replay(plan, StartState(states), g.trace, limits.maxCandidates).store;
    var offers := Offers(plan, states, g.trace);
    StoredExactly(plan, states, g.trace, limits.maxCandidates);
    ReducedStats(plan, states, options, policy, ops);
    CountersOf(Reduce(plan, states, options, policy, ops).stats, limits, ops, store, offers);
  }

  lemma CountersOf(stats: Stats, limits: Limits, ops: seq<Op>, store: Store, offers: seq<Offer>)
    requires Holds(store, offers, limits.maxCandidates)
    requires stats == WithCandidates(Finish(Run(limits, ops)).stats, store).(omittedTestFailures := stats.omittedTestFailures)
    ensures AreCounters(stats, limits, ops, Finish(Run(limits, ops)).trace, |offers|, |Admitted(offers, limits.maxCandidates)|)
  {
    CountersAre(limits, ops);
    ScopeCounters(limits, ops);
    StoreCounters(store, offers, limits.maxCandidates, RefusedIn(limits, ops));
  }

  lemma ReducedStats<P>(plan: seq<Parser<P>>, states: seq<P>, options: Options, policy: Policy, ops: seq<Op>)
    requires |plan| == |states|
    ensures var g, stats := Finish(Run(options.limits, ops)), Reduce(plan, states, options, policy, ops).stats;
      var store := Replay(plan, StartState(states), g.trace, options.limits.maxCandidates).store;
      stats == WithCandidates(g.stats, store).(omittedTestFailures := stats.omittedTestFailures)
  {
    var g := Finish(Run(options.limits, ops));
    var store := Replay(plan, StartState(states), g.trace, options.limits.maxCandidates).store;
    StatsPassedOn(policy, options.budget, store.diagnostics, store.testFailures, WithCandidates(g.stats, store));
  }

  lemma StoreCounters(store: Store, offers: seq<Offer>, maximum: usize, refused: nat)
    requires Holds(store, offers, maximum)
    ensures var stored := |Admitted(offers, maximum)|;
      && stored <= |offers| && SatAdd(|store.diagnostics|, |store.testFailures|) == Min(stored, U64_MAX)
      && SatAdd(Min(refused, U64_MAX), store.dropped) == Min(refused + (|offers| - stored), U64_MAX)
  {
    AdmittedAddUp(offers, maximum);
  }

  lemma StatsPassedOn(policy: Policy, budget: Budget, diagnostics: seq<Diagnostic>, failures: seq<TestFailure>, stats: Stats)
    ensures var r := Finalized(policy, budget, diagnostics, failures, stats);
      r.stats == stats.(omittedTestFailures := r.stats.omittedTestFailures)
  {
    BudgetSpent(policy, budget, diagnostics, failures, stats);
  }

  lemma ScopeCounters(limits: Limits, ops: seq<Op>)
    ensures var f := Finish(Run(limits, ops));
      f.stats.scopesStarted == Min(BeginsIn(f.trace), U64_MAX) && f.stats.scopesCompleted == Min(EndsIn(f.trace), U64_MAX)
  {
    var f := Run(limits, ops);
    RunSafe(limits, ops);
    EndAllSafe(limits, f, Ascending(f.scopes.Keys));
    Appended(EndAll(f, Ascending(f.scopes.Keys)).trace, Finished);
  }

  lemma TruncatedByStats(policy: Policy, budget: Budget, diagnostics: seq<Diagnostic>, failures: seq<TestFailure>, stats: Stats)
    ensures Finalized(policy, budget, diagnostics, failures, stats).truncated <==>
      !AllFit(policy, budget, diagnostics, failures) || stats.candidatesDropped > 0 || stats.truncatedLines > 0
  {
    NothingOmittedExactly(policy, budget, diagnostics, failures, stats);
  }

  lemma {:induction false} FrameUncut(limits: Limits, f: Front, id: string, stream: Stream, bytes: seq<byte>)
    requires BufferAt(f, (id, stream)) == EMPTY_BUFFER && |bytes| <= limits.maxLineBytes
    ensures var g := FrameBytes(limits, f, id, stream, bytes);
      && |BufferAt(g, (id, stream)).bytes| <= |bytes| && !BufferAt(g, (id, stream)).truncated
      && CutLinesIn(g.trace) == CutLinesIn(f.trace)
      && forall key | key in g.buffers :: key in f.buffers || key == (id, stream)
  {
    if bytes != [] {
      var init := bytes[..|bytes| - 1];
      FrameUncut(limits, f, id, stream, init);
      var g := FrameBytes(limits, f, id, stream, init);
      DispatchUncut(g, id, stream, BufferAt(g, (id, stream)).bytes);
    }
  }

  lemma DispatchUncut(f: Front, id: string, stream: Stream, bytes: seq<byte>)
    ensures CutLinesIn(Dispatch(f, id, stream, bytes, false).trace) == CutLinesIn(f.trace)
    ensures Dispatch(f, id, stream, bytes, false).buffers == f.buffers
  {
    if NormalizeLine(bytes) != [] && id in f.scopes {
      Appended(f.trace, Dispatch(f, id, stream, bytes, false).trace[|f.trace|]);
    }
  }

  lemma {:induction false} FlushUncut(f: Front, id: string, n: nat)
    requires n <= |STREAMS| && forall key | key in f.buffers :: !f.buffers[key].truncated
    ensures var g := FlushStreams(f, id, n);
      CutLinesIn(g.trace) == CutLinesIn(f.trace) && forall key | key in g.buffers :: !g.buffers[key].truncated
  {
    if n > 0 {
      FlushUncut(f, id, n - 1);
      var g, stream := FlushStreams(f, id, n - 1), STREAMS[n - 1];
      if (id, stream) in g.buffers {
        DispatchUncut(g.(buffers := g.buffers - {(id, stream)}), id, stream, g.buffers[(id, stream)].bytes);
      }
    }
  }

  // A scope that is begun, pushed to once and ended as complete.
  function OnePush(scope: Scope, stream: Stream, chunk: seq<byte>): seq<Op> {
    [Begin(scope), Push(scope.id, stream, chunk), End(scope.id, Complete)]
  }

  lemma OnePushRuns(limits: Limits, scope: Scope, stream: Stream, chunk: seq<byte>)
    requires limits.maxScopes > 0
    ensures var begun := BeginScope(limits, INITIAL, scope);
      && RunFrom(limits, INITIAL, OnePush(scope, stream, chunk))
           == EndScope(PushChunk(limits, begun, scope.id, stream, chunk), scope.id, Complete)
      && RefusedIn(limits, OnePush(scope, stream, chunk)) == 0
  {
    var ops := OnePush(scope, stream, chunk);
    assert ops[..2] == [Begin(scope), Push(scope.id, stream, chunk)] && ops[..2][..1] == [Begin(scope)];
    assert [Begin(scope)][..0] == [];
    assert Run(limits, []) == INITIAL && CanBegin(limits, INITIAL, scope);
    assert Run(limits, [Begin(scope)]) == BeginScope(limits, INITIAL, scope) && RefusedIn(limits, [Begin(scope)]) == 0;
    assert RefusedIn(limits, ops[..2]) == 0 && ops[..|ops| - 1] == ops[..2];
  }

  // The scope is open and has lost input, and no line and no buffer is cut.
  ghost predicate LostUncut(f: Front, scope: Scope) {
    && f.scopes.Keys == {scope.id} && f.scopes[scope.id].truncated && f.scopes[scope.id].scope == scope
    && CutLinesIn(f.trace) == 0 && forall key | key in f.buffers :: !f.buffers[key].truncated
  }

  lemma CountedIsLost(limits: Limits, scope: Scope, length: nat, kept: nat)
    requires limits.maxScopes > 0 && kept < length
    ensures var begun := BeginScope(limits, INITIAL, scope);
      && scope.id in begun.scopes && begun.scopes[scope.id].retained == 0
      && Account(begun, scope.id, length, kept).buffers == map[] && LostUncut(Account(begun, scope.id, length, kept), scope)
  {
    assert CanBegin(limits, INITIAL, scope);
    Appended([], Began(scope));
    assert [] + [Began(scope)] == BeginScope(limits, INITIAL, scope).trace;
  }

  lemma FramedIsLost(limits: Limits, f: Front, scope: Scope, stream: Stream, bytes: seq<byte>)
    requires LostUncut(f, scope) && f.buffers == map[] && |bytes| <= limits.maxLineBytes
    ensures LostUncut(FrameBytes(limits, f, scope.id, stream, bytes), scope)
  {
    var g := FrameBytes(limits, f, scope.id, stream, bytes);
    FrameUncut(limits, f, scope.id, stream, bytes);
    LostStays(limits, f, scope.id, stream, bytes);
    forall key | key in g.buffers ensures !g.buffers[key].truncated {
      assert key == (scope.id, stream);
    }
  }

  lemma PushedIsLost(limits: Limits, scope: Scope, stream: Stream, chunk: seq<byte>)
    requires limits.maxScopes > 0 && limits.maxScopeBytes <= limits.maxLineBytes && |chunk| > limits.maxScopeBytes
    ensures LostUncut(PushChunk(limits, BeginScope(limits, INITIAL, scope), scope.id, stream, chunk), scope)
  {
    var kept := Room(limits, 0, |chunk|);
    CountedIsLost(limits, scope, |chunk|, kept);
    FramedIsLost(limits, Account(BeginScope(limits, INITIAL, scope), scope.id, |chunk|, kept), scope, stream, chunk[..kept]);
  }

  lemma EndIsUncut(f: Front, scope: Scope)
    requires LostUncut(f, scope)
    ensures var g := EndScope(f, scope.id, Complete);
      && g.scopes == map[] && CutLinesIn(g.trace) == 0
      && g.trace != [] && g.trace[|g.trace| - 1] == Ended(scope, Truncated, true)
  {
    FlushUncut(f, scope.id, |STREAMS|);
    FlushLost(f, scope.id, |STREAMS|);
    var flushed := FlushStreams(f, scope.id, |STREAMS|);
    Appended(flushed.trace, Ended(scope, Truncated, true));
    assert flushed.scopes - {scope.id} == map[];
  }

  lemma OnePushUncut(limits: Limits, scope: Scope, stream: Stream, chunk: seq<byte>)
    requires limits.maxScopes > 0 && limits.maxScopeBytes <= limits.maxLineBytes && |chunk| > limits.maxScopeBytes
    ensures var f := Run(limits, OnePush(scope, stream, chunk));
      && f.scopes == map[] && CutLinesIn(f.trace) == 0
      && f.trace != [] && f.trace[|f.trace| - 1] == Ended(scope, Truncated, true)
  {
    OnePushRuns(limits, scope, stream, chunk);
    PushedIsLost(limits, scope, stream, chunk);
    EndIsUncut(PushChunk(limits, BeginScope(limits, INITIAL, scope), scope.id, stream, chunk), scope);
  }

  // Input once lost stays lost, and the scope its own.
  lemma {:induction false} LostStays(limits: Limits, f: Front, id: string, stream: Stream, bytes: seq<byte>)
    requires id in f.scopes && f.scopes[id].truncated
    ensures var g := FrameBytes(limits, f, id, stream, bytes);
      g.scopes.Keys == f.scopes.Keys && g.scopes[id].truncated && g.scopes[id].scope == f.scopes[id].scope
  {
    if bytes != [] {
      var init := bytes[..|bytes| - 1];
      LostStays(limits, f, id, stream, init);
      var g := FrameBytes(limits, f, id, stream, init);
      DispatchKeys(g, id, stream, BufferAt(g, (id, stream)).bytes, BufferAt(g, (id, stream)).truncated);
    }
  }

  lemma {:induction false} FlushLost(f: Front, id: string, n: nat)
    requires n <= |STREAMS| && id in f.scopes && f.scopes[id].truncated
    ensures var g := FlushStreams(f, id, n);
      g.scopes.Keys == f.scopes.Keys && g.scopes[id].truncated && g.scopes[id].scope == f.scopes[id].scope
  {
    if n > 0 {
      FlushLost(f, id, n - 1);
      var g, stream := FlushStreams(f, id, n - 1), STREAMS[n - 1];
      if (id, stream) in g.buffers {
        DispatchKeys(g.(buffers := g.buffers - {(id, stream)}), id, stream, g.buffers[(id, stream)].bytes,
          g.buffers[(id, stream)].truncated);
      }
    }
  }

  /** A scope cut at its byte limit does not make the reduction truncated: any chunk longer than the limit,
      in lines that are short enough, ends its scope as truncated, and still the reduction without parsers
      does not say so. */
  lemma CutScopeIsNotTruncation<P>(options: Options, policy: Policy, scope: Scope, stream: Stream, chunk: seq<byte>)
    requires options.limits.maxScopes > 0 && options.limits.maxScopeBytes <= options.limits.maxLineBytes
    requires |chunk| > options.limits.maxScopeBytes
    ensures var ops := OnePush(scope, stream, chunk);
      var plan: seq<Parser<P>> := [];
      && Ended(scope, Truncated, true) in Finish(Run(options.limits, ops)).trace
      && !Reduce(plan, [], options, policy, ops).truncated
  {
    var ops := OnePush(scope, stream, chunk);
    var plan: seq<Parser<P>> := [];
    var f := Run(options.limits, ops);
    OnePushUncut(options.limits, scope, stream, chunk);
    OnePushRuns(options.limits, scope, stream, chunk);
    assert Finish(f).trace == f.trace + [Finished];
    assert Finish(f).trace[|f.trace| - 1] == Ended(scope, Truncated, true);
    Appended(f.trace, Finished);
    TruncatedExactly(plan, [], options, policy, ops);
    NoParsersNoCandidates(plan, StartState([]), Finish(f).trace, options.limits.maxCandidates);
  }

  lemma {:induction false} NoParsersNoCandidates<P>(plan: seq<Parser<P>>, ps: PlanState<P>, trace: seq<Event>, maximum: usize)
    requires plan == [] && ps.states == []
    ensures Replay(plan, ps, trace, maximum) == ps
  {
    if trace != [] {
      NoParsersNoCandidates(plan, ps, trace[..|trace| - 1], maximum);
    }
  }
}
