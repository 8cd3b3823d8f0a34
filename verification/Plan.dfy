/** Parser plans and the candidate store. A parser is any deterministic machine: from its state and an
    event it computes its next state and a sequence of emissions. */
module Plan {
  import opened Model
  import opened Engine

  datatype Emission = EmitDiagnostic(diagnostic: Diagnostic) | EmitFailure(failure: TestFailure) | EmitDropped

  datatype Parser<!P> = Parser(
    id: string,
    observe: (P, LogLine) -> (P, seq<Emission>),
    boundary: (P, Event) -> (P, seq<Emission>),
    finish: P -> (P, seq<Emission>))

  function React<P>(parser: Parser<P>, state: P, event: Event): (P, seq<Emission>) {
    match event
    case Line(line) => parser.observe(state, line)
    case Finished => parser.finish(state)
    case _ => parser.boundary(state, event)
  }

  // ---------------------------------------------------------------- the candidate store

  datatype Store = Store(diagnostics: seq<Diagnostic>, testFailures: seq<TestFailure>, dropped: u64)
  {
    function Size(): nat {
      |diagnostics| + |testFailures|
    }
  }

  // The provenance a finding gets when its parser gives none.
  function ContextOf(event: Event, parserId: string): Provenance {
    match event
    case Line(line) =>
      NewProvenance(StreamName(line.stream)).WithParser(parserId).WithScope(line.scope)
        .WithSpan(line.stream, line.streamLine, line.streamLine)
    case Began(scope) => NewProvenance("boundary").WithParser(parserId).WithScope(scope)
    case Ended(scope, _, _) => NewProvenance("boundary").WithParser(parserId).WithScope(scope)
    case Finished => NewProvenance("parser").WithParser(parserId)
  }

  function OrContext(provenance: Option<Provenance>, context: Provenance): Option<Provenance> {
    if provenance.None? then Some(context) else provenance
  }

  function Accept(store: Store, maximum: usize, context: Provenance, emission: Emission): Store {
    match emission
    case EmitDropped => store.(dropped := SatAdd(store.dropped, 1))
    case EmitDiagnostic(d) =>
      if SatAdd(|store.diagnostics|, |store.testFailures|) >= maximum then store.(dropped := SatAdd(store.dropped, 1))
      else store.(diagnostics := store.diagnostics + [d.(provenance := OrContext(d.provenance, context))])
    case EmitFailure(f) =>
      if SatAdd(|store.diagnostics|, |store.testFailures|) >= maximum then store.(dropped := SatAdd(store.dropped, 1))
      else store.(testFailures := store.testFailures + [f.(provenance := OrContext(f.provenance, context))])
  }

  function AcceptAll(store: Store, maximum: usize, context: Provenance, emissions: seq<Emission>): Store {
    if emissions == [] then store
    else Accept(AcceptAll(store, maximum, context, emissions[..|emissions| - 1]), maximum, context, emissions[|emissions| - 1])
  }

  /** The store as the program has it: filled in place, never beyond its maximum. */
  class CandidateStore {
    var diagnostics: seq<Diagnostic>
    var testFailures: seq<TestFailure>
    var dropped: u64

    constructor ()
      ensures Value() == Store([], [], 0)
    {
      diagnostics, testFailures, dropped := [], [], 0;
    }

    function Value(): Store
      reads this
    {
      Store(diagnostics, testFailures, dropped)
    }

    method CandidateDropped()
      modifies this
      ensures Value() == old(Value()).(dropped := SatAdd(old(dropped), 1))
    {
      dropped := SatAdd(dropped, 1);
    }

    method AddDiagnostic(maximum: usize, context: Provenance, d: Diagnostic)
      modifies this
      ensures Value() == Accept(old(Value()), maximum, context, EmitDiagnostic(d))
    {
      if SatAdd(|diagnostics|, |testFailures|) >= maximum {
        CandidateDropped();
        return;
      }
      diagnostics := diagnostics + [d.(provenance := OrContext(d.provenance, context))];
    }

    method AddTestFailure(maximum: usize, context: Provenance, f: TestFailure)
      modifies this
      ensures Value() == Accept(old(Value()), maximum, context, EmitFailure(f))
    {
      if SatAdd(|diagnostics|, |testFailures|) >= maximum {
        CandidateDropped();
        return;
      }
      testFailures := testFailures + [f.(provenance := OrContext(f.provenance, context))];
    }

    method Emit(maximum: usize, context: Provenance, emissions: seq<Emission>)
      modifies this
      ensures Value() == AcceptAll(old(Value()), maximum, context, emissions)
    {
      for i := 0 to |emissions|
        invariant Value() == AcceptAll(old(Value()), maximum, context, emissions[..i])
      {
        assert emissions[..i + 1][..i] == emissions[..i];
        match emissions[i]
        case EmitDropped => CandidateDropped();
        case EmitDiagnostic(d) => AddDiagnostic(maximum, context, d);
        case EmitFailure(f) => AddTestFailure(maximum, context, f);
      }
      assert emissions[..|emissions|] == emissions;
    }
  }

  // ---------------------------------------------------------------- a plan reacting to a trace

  datatype PlanState<P> = PlanState(states: seq<P>, store: Store)

  // The n-th parser reacts.
  function ReactAt<P>(plan: seq<Parser<P>>, ps: PlanState<P>, event: Event, maximum: usize, n: nat): PlanState<P>
    requires n < |plan| == |ps.states|
  {
    var (state, emissions) := React(plan[n], ps.states[n], event);
    PlanState(ps.states[n := state], AcceptAll(ps.store, maximum, ContextOf(event, plan[n].id), emissions))
  }

  // The first n parsers react, in plan order.
  function ReactUpTo<P>(plan: seq<Parser<P>>, ps: PlanState<P>, event: Event, maximum: usize, n: nat): (r: PlanState<P>)
    requires n <= |plan| == |ps.states|
    ensures |r.states| == |plan|
  {
    if n == 0 then ps else ReactAt(plan, ReactUpTo(plan, ps, event, maximum, n - 1), event, maximum, n - 1)
  }

  function Replay<P>(plan: seq<Parser<P>>, ps: PlanState<P>, trace: seq<Event>, maximum: usize): (r: PlanState<P>)
    requires |plan| == |ps.states|
    ensures |r.states| == |plan|
  {
    if trace == [] then ps
    else ReactUpTo(plan, Replay(plan, ps, trace[..|trace| - 1], maximum), trace[|trace| - 1], maximum, |plan|)
  }

  // ---------------------------------------------------------------- one parser of a plan

  // The state of a parser that reacts to a trace by itself.
  function Alone<P>(parser: Parser<P>, state: P, trace: seq<Event>): P {
    if trace == [] then state else React(parser, Alone(parser, state, trace[..|trace| - 1]), trace[|trace| - 1]).0
  }

  // Everything such a parser emits.
  function EmittedBy<P>(parser: Parser<P>, state: P, trace: seq<Event>): seq<Emission> {
    if trace == [] then []
    else
      var init := trace[..|trace| - 1];
      EmittedBy(parser, state, init) + React(parser, Alone(parser, state, init), trace[|trace| - 1]).1
  }

  lemma {:induction false} EventIndependence<P>(plan: seq<Parser<P>>, ps: PlanState<P>, event: Event, maximum: usize, n: nat, k: nat)
    requires n <= |plan| == |ps.states| && k < |plan|
    ensures ReactUpTo(plan, ps, event, maximum, n).states[k] ==
      if k < n then React(plan[k], ps.states[k], event).0 else ps.states[k]
  {
    if n > 0 {
      EventIndependence(plan, ps, event, maximum, n - 1, k);
      EventIndependence(plan, ps, event, maximum, n - 1, n - 1);
    }
  }

  /** In any plan, every parser goes through the states it would go through by itself: neither the other
      parsers nor the limit on stored candidates influence it. */
  lemma {:induction false} ParserIndependence<P>(plan: seq<Parser<P>>, ps: PlanState<P>, trace: seq<Event>, maximum: usize, k: nat)
    requires |plan| == |ps.states| && k < |plan|
    ensures Replay(plan, ps, trace, maximum).states[k] == Alone(plan[k], ps.states[k], trace)
  {
    if trace != [] {
      var init := trace[..|trace| - 1];
      ParserIndependence(plan, ps, init, maximum, k);
      EventIndependence(plan, Replay(plan, ps, init, maximum), trace[|trace| - 1], maximum, |plan|, k);
    }
  }

  // ---------------------------------------------------------------- conservation of candidates

  lemma {:induction false} AcceptAllConserves(store: Store, maximum: usize, context: Provenance, emissions: seq<Emission>, tried: nat)
    requires store.Size() <= maximum && store.Size() <= tried && store.dropped == Min(tried - store.Size(), U64_MAX)
    ensures var after := AcceptAll(store, maximum, context, emissions);
      after.Size() <= maximum && store.Size() <= after.Size() <= tried + |emissions| &&
      after.dropped == Min(tried + |emissions| - after.Size(), U64_MAX)
  {
    if emissions != [] {
      AcceptAllConserves(store, maximum, context, emissions[..|emissions| - 1], tried);
    }
  }

  // How many emissions a plan attempts in one event, and over a whole trace.
  function TriedUpTo<P>(plan: seq<Parser<P>>, ps: PlanState<P>, event: Event, maximum: usize, n: nat): nat
    requires n <= |plan| == |ps.states|
  {
    if n == 0 then 0
    else
      TriedUpTo(plan, ps, event, maximum, n - 1) +
      |React(plan[n - 1], ReactUpTo(plan, ps, event, maximum, n - 1).states[n - 1], event).1|
  }

  function Tried<P>(plan: seq<Parser<P>>, ps: PlanState<P>, trace: seq<Event>, maximum: usize): nat
    requires |plan| == |ps.states|
  {
    if trace == [] then 0
    else
      Tried(plan, ps, trace[..|trace| - 1], maximum) +
      TriedUpTo(plan, Replay(plan, ps, trace[..|trace| - 1], maximum), trace[|trace| - 1], maximum, |plan|)
  }

  // Every attempted emission so far is either stored or counted as dropped.
  predicate Conserved(store: Store, maximum: usize, tried: nat) {
    store.Size() <= maximum && store.Size() <= tried && store.dropped == Min(tried - store.Size(), U64_MAX)
  }

  lemma {:induction false} EventConserves<P>(plan: seq<Parser<P>>, ps: PlanState<P>, event: Event, maximum: usize, n: nat, tried: nat)
    requires n <= |plan| == |ps.states|
    requires Conserved(ps.store, maximum, tried)
    ensures Conserved(ReactUpTo(plan, ps, event, maximum, n).store, maximum, tried + TriedUpTo(plan, ps, event, maximum, n))
  {
    if n > 0 {
      EventConserves(plan, ps, event, maximum, n - 1, tried);
      var before := ReactUpTo(plan, ps, event, maximum, n - 1);
      AcceptAllConserves(before.store, maximum, ContextOf(event, plan[n - 1].id),
        React(plan[n - 1], before.states[n - 1], event).1, tried + TriedUpTo(plan, ps, event, maximum, n - 1));
    }
  }

  /** Over any trace, for any plan: at most the maximum number of candidates is stored, and every
      emission a parser attempted is either stored or counted as dropped (up to the counter's capacity). */
  lemma {:induction false} CandidatesConserved<P>(plan: seq<Parser<P>>, states: seq<P>, trace: seq<Event>, maximum: usize)
    requires |plan| == |states|
    ensures var ps := PlanState(states, Store([], [], 0));
      Conserved(Replay(plan, ps, trace, maximum).store, maximum, Tried(plan, ps, trace, maximum))
  {
    if trace != [] {
      var ps := PlanState(states, Store([], [], 0));
      var init := trace[..|trace| - 1];
      CandidatesConserved(plan, states, init, maximum);
      EventConserves(plan, Replay(plan, ps, init, maximum), trace[|trace| - 1], maximum, |plan|, Tried(plan, ps, init, maximum));
    }
  }
}
