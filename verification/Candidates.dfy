/** What the candidate store holds after a trace: the first emissions of all parsers that the limit admits,
    in order, each as it was emitted except that a missing provenance is completed. */
module Candidates {
  import opened Model
  import opened Sequences
  import opened Engine
  import opened Plan

  // One emission, with the event and the parser it comes from.
  datatype Offer = Offer(event: Event, parser: nat, id: string, emission: Emission)

  function Tagged(event: Event, parser: nat, id: string, emissions: seq<Emission>): seq<Offer> {
    seq(|emissions|, i requires 0 <= i < |emissions| => Offer(event, parser, id, emissions[i]))
  }

  // Where every parser stands by itself.
  function Now<P>(plan: seq<Parser<P>>, states: seq<P>, trace: seq<Event>): seq<P>
    requires |plan| == |states|
  {
    seq(|plan|, k requires 0 <= k < |plan| => Alone(plan[k], states[k], trace))
  }

  // What the first n parsers emit at an event, in plan order.
  function OffersUpTo<P>(plan: seq<Parser<P>>, now: seq<P>, event: Event, n: nat): seq<Offer>
    requires n <= |plan| == |now|
  {
    if n == 0 then []
    else OffersUpTo(plan, now, event, n - 1) + Tagged(event, n - 1, plan[n - 1].id, React(plan[n - 1], now[n - 1], event).1)
  }

  /** Everything the parsers of a plan emit over a trace, event by event and in plan order. */
  function Offers<P>(plan: seq<Parser<P>>, states: seq<P>, trace: seq<Event>): seq<Offer>
    requires |plan| == |states|
  {
    if trace == [] then []
    else
      var init := trace[..|trace| - 1];
      Offers(plan, states, init) + OffersUpTo(plan, Now(plan, states, init), trace[|trace| - 1], |plan|)
  }

  // ---------------------------------------------------------------- offers of one parser

  function EmissionsOf(offers: seq<Offer>, parser: nat): seq<Emission> {
    if offers == [] then []
    else
      var before, last := EmissionsOf(offers[..|offers| - 1], parser), offers[|offers| - 1];
      if last.parser == parser then before + [last.emission] else before
  }

  lemma {:induction false} EmissionsConcat(x: seq<Offer>, y: seq<Offer>, parser: nat)
    ensures EmissionsOf(x + y, parser) == EmissionsOf(x, parser) + EmissionsOf(y, parser)
  {
    if y == [] {
      AppendNothing(x);
      AppendNothing(EmissionsOf(x, parser));
    } else {
      var init, last := y[..|y| - 1], y[|y| - 1];
      EmissionsConcat(x, init, parser);
      AppendAssociates(x, init, [last]);
      assert y == init + [last];
      InitOfAppend(x + init, last);
      AppendAssociates(EmissionsOf(x, parser), EmissionsOf(init, parser), [last.emission]);
    }
  }

  lemma TaggedSnoc(event: Event, k: nat, id: string, emissions: seq<Emission>)
    requires emissions != []
    ensures Tagged(event, k, id, emissions) ==
      Tagged(event, k, id, emissions[..|emissions| - 1]) + [Offer(event, k, id, emissions[|emissions| - 1])]
  {
  }

  lemma {:induction false} EmissionsOfTagged(event: Event, k: nat, id: string, emissions: seq<Emission>, parser: nat)
    ensures EmissionsOf(Tagged(event, k, id, emissions), parser) == if k == parser then emissions else []
  {
    if emissions != [] {
      var init, last := emissions[..|emissions| - 1], emissions[|emissions| - 1];
      EmissionsOfTagged(event, k, id, init, parser);
      TaggedSnoc(event, k, id, emissions);
      InitOfAppend(Tagged(event, k, id, init), Offer(event, k, id, last));
      assert emissions == init + [last];
    }
  }

  lemma NothingBefore<T>(x: seq<T>)
    ensures [] + x == x
  {
  }

  lemma {:induction false} EmissionsUpTo<P>(plan: seq<Parser<P>>, now: seq<P>, event: Event, n: nat, parser: nat)
    requires n <= |plan| == |now| && parser < |plan|
    ensures EmissionsOf(OffersUpTo(plan, now, event, n), parser) ==
      if parser < n then React(plan[parser], now[parser], event).1 else []
  {
    if n > 0 {
      var more := React(plan[n - 1], now[n - 1], event).1;
      var before, tagged := OffersUpTo(plan, now, event, n - 1), Tagged(event, n - 1, plan[n - 1].id, more);
      EmissionsUpTo(plan, now, event, n - 1, parser);
      EmissionsConcat(before, tagged, parser);
      EmissionsOfTagged(event, n - 1, plan[n - 1].id, more, parser);
      AppendNothing(EmissionsOf(before, parser));
      NothingBefore(EmissionsOf(tagged, parser));
    }
  }

  /** What a parser offers in a plan is what it emits by itself. */
  lemma {:induction false} OffersOfParser<P>(plan: seq<Parser<P>>, states: seq<P>, trace: seq<Event>, parser: nat)
    requires |plan| == |states| && parser < |plan|
    ensures EmissionsOf(Offers(plan, states, trace), parser) == EmittedBy(plan[parser], states[parser], trace)
  {
    if trace != [] {
      var init, event := trace[..|trace| - 1], trace[|trace| - 1];
      var now := Now(plan, states, init);
      OffersOfParser(plan, states, init, parser);
      EmissionsConcat(Offers(plan, states, init), OffersUpTo(plan, now, event, |plan|), parser);
      EmissionsUpTo(plan, now, event, |plan|, parser);
    }
  }

  // ---------------------------------------------------------------- what is stored

  // The offers that ask for a place in the store.
  function Asking(offers: seq<Offer>): seq<Offer> {
    if offers == [] then []
    else
      var before, last := Asking(offers[..|offers| - 1]), offers[|offers| - 1];
      if last.emission.EmitDropped? then before else before + [last]
  }

  // The first ones, up to the limit.
  function Admitted(offers: seq<Offer>, maximum: usize): seq<Offer> {
    Asking(offers)[..Min(|Asking(offers)|, maximum)]
  }

  function OfDiagnostics(offers: seq<Offer>): seq<Offer> {
    if offers == [] then []
    else
      var before, last := OfDiagnostics(offers[..|offers| - 1]), offers[|offers| - 1];
      if last.emission.EmitDiagnostic? then before + [last] else before
  }

  function OfFailures(offers: seq<Offer>): seq<Offer> {
    if offers == [] then []
    else
      var before, last := OfFailures(offers[..|offers| - 1]), offers[|offers| - 1];
      if last.emission.EmitFailure? then before + [last] else before
  }

  predicate NamesScope(p: Provenance, scope: Scope) {
    p.scopeId == Some(scope.id) && p.scopeKind == Some(scope.kind) && p.title == scope.scopeLabel
  }

  predicate NoSpan(p: Provenance) {
    p.stream.None? && p.startLine.None? && p.endLine.None?
  }

  // The provenance that says where an event happened and which parser reacted to it.
  predicate SaysWhere(p: Provenance, event: Event, id: string) {
    p.parser == Some(id) &&
    match event
    case Line(line) =>
      && NamesScope(p, line.scope) && p.stream == Some(line.stream)
      && p.startLine == Some(line.streamLine) && p.endLine == Some(line.streamLine)
      && (line.stream == Stdout ==> p.source == "stdout") && (line.stream == Stderr ==> p.source == "stderr")
      && (line.stream == Combined ==> p.source == "combined") && (line.stream == Annotation ==> p.source == "annotation")
      && (line.stream == StructuredStream ==> p.source == "structured")
    case Began(scope) => NamesScope(p, scope) && NoSpan(p) && p.source == "boundary"
    case Ended(scope, _, _) => NamesScope(p, scope) && NoSpan(p) && p.source == "boundary"
    case Finished => p.scopeId.None? && p.scopeKind.None? && p.title.None? && NoSpan(p) && p.source == "parser"
  }

  // A provenance that a parser gives is kept; a missing one says where the finding comes from.
  predicate Sourced(given: Option<Provenance>, stored: Option<Provenance>, offer: Offer) {
    if given.Some? then stored == given else stored.Some? && SaysWhere(stored.value, offer.event, offer.id)
  }

  predicate IsStoredDiagnostic(d: Diagnostic, offer: Offer) {
    offer.emission.EmitDiagnostic? &&
    var given := offer.emission.diagnostic;
    d == given.(provenance := d.provenance) && Sourced(given.provenance, d.provenance, offer)
  }

  predicate IsStoredFailure(f: TestFailure, offer: Offer) {
    offer.emission.EmitFailure? &&
    var given := offer.emission.failure;
    f == given.(provenance := f.provenance) && Sourced(given.provenance, f.provenance, offer)
  }

  predicate AreStoredDiagnostics(ds: seq<Diagnostic>, offers: seq<Offer>) {
    |ds| == |offers| && forall i | 0 <= i < |ds| :: IsStoredDiagnostic(ds[i], offers[i])
  }

  predicate AreStoredFailures(fs: seq<TestFailure>, offers: seq<Offer>) {
    |fs| == |offers| && forall i | 0 <= i < |fs| :: IsStoredFailure(fs[i], offers[i])
  }

  // The store after some offers: those admitted, and a saturating count of the others.
  predicate Holds(store: Store, offers: seq<Offer>, maximum: usize) {
    var admitted := Admitted(offers, maximum);
    && AreStoredDiagnostics(store.diagnostics, OfDiagnostics(admitted))
    && AreStoredFailures(store.testFailures, OfFailures(admitted))
    && |admitted| <= |offers| && store.dropped == Min(|offers| - |admitted|, U64_MAX)
  }

  lemma {:induction false} KindsAddUp(offers: seq<Offer>)
    requires forall i | 0 <= i < |offers| :: !offers[i].emission.EmitDropped?
    ensures |OfDiagnostics(offers)| + |OfFailures(offers)| == |offers|
  {
    if offers != [] {
      KindsAddUp(offers[..|offers| - 1]);
    }
  }

  lemma {:induction false} AskingAre(offers: seq<Offer>)
    ensures |Asking(offers)| <= |offers|
    ensures forall i | 0 <= i < |Asking(offers)| :: !Asking(offers)[i].emission.EmitDropped?
  {
    if offers != [] {
      AskingAre(offers[..|offers| - 1]);
    }
  }

  lemma ContextSaysWhere(event: Event, id: string)
    ensures SaysWhere(ContextOf(event, id), event, id)
  {
  }

  // One more offer asks for a place: there is room, or it is counted.
  lemma AdmittedSnoc(offers: seq<Offer>, offer: Offer, maximum: usize)
    ensures Admitted(offers + [offer], maximum) ==
      if !offer.emission.EmitDropped? && |Admitted(offers, maximum)| < maximum
      then Admitted(offers, maximum) + [offer] else Admitted(offers, maximum)
  {
    InitOfAppend(offers, offer);
  }

  lemma KindsSnoc(offers: seq<Offer>, offer: Offer)
    ensures OfDiagnostics(offers + [offer]) ==
      if offer.emission.EmitDiagnostic? then OfDiagnostics(offers) + [offer] else OfDiagnostics(offers)
    ensures OfFailures(offers + [offer]) == if offer.emission.EmitFailure? then OfFailures(offers) + [offer] else OfFailures(offers)
  {
    InitOfAppend(offers, offer);
  }

  lemma AdmittedAddUp(offers: seq<Offer>, maximum: usize)
    ensures |OfDiagnostics(Admitted(offers, maximum))| + |OfFailures(Admitted(offers, maximum))| == |Admitted(offers, maximum)|
    ensures |Admitted(offers, maximum)| <= maximum && |Admitted(offers, maximum)| <= |offers|
  {
    AskingAre(offers);
    KindsAddUp(Admitted(offers, maximum));
  }

  lemma DiagnosticsSnoc(ds: seq<Diagnostic>, offers: seq<Offer>, d: Diagnostic, offer: Offer)
    requires AreStoredDiagnostics(ds, offers) && IsStoredDiagnostic(d, offer)
    ensures AreStoredDiagnostics(ds + [d], offers + [offer])
  {
  }

  lemma FailuresSnoc(fs: seq<TestFailure>, offers: seq<Offer>, f: TestFailure, offer: Offer)
    requires AreStoredFailures(fs, offers) && IsStoredFailure(f, offer)
    ensures AreStoredFailures(fs + [f], offers + [offer])
  {
  }

  lemma CompletedIsStored(offer: Offer, context: Provenance)
    requires SaysWhere(context, offer.event, offer.id)
    ensures offer.emission.EmitDiagnostic? ==>
      var d := offer.emission.diagnostic; IsStoredDiagnostic(d.(provenance := OrContext(d.provenance, context)), offer)
    ensures offer.emission.EmitFailure? ==>
      var f := offer.emission.failure; IsStoredFailure(f.(provenance := OrContext(f.provenance, context)), offer)
  {
  }

  // An offer that is not admitted is counted.
  lemma Refused(store: Store, offers: seq<Offer>, maximum: usize, offer: Offer)
    requires Holds(store, offers, maximum) && Admitted(offers + [offer], maximum) == Admitted(offers, maximum)
    ensures Holds(store.(dropped := SatAdd(store.dropped, 1)), offers + [offer], maximum)
  {
  }

  lemma AcceptHolds(store: Store, offers: seq<Offer>, maximum: usize, context: Provenance, offer: Offer)
    requires Holds(store, offers, maximum) && SaysWhere(context, offer.event, offer.id)
    ensures Holds(Accept(store, maximum, context, offer.emission), offers + [offer], maximum)
  {
    var admitted := Admitted(offers, maximum);
    CompletedIsStored(offer, context);
    AdmittedAddUp(offers, maximum);
    AdmittedSnoc(offers, offer, maximum);
    KindsSnoc(admitted, offer);
    if offer.emission.EmitDropped? || |admitted| >= maximum {
      Refused(store, offers, maximum, offer);
    } else if offer.emission.EmitDiagnostic? {
      var d := offer.emission.diagnostic;
      DiagnosticsSnoc(store.diagnostics, OfDiagnostics(admitted), d.(provenance := OrContext(d.provenance, context)), offer);
    } else {
      var f := offer.emission.failure;
      FailuresSnoc(store.testFailures, OfFailures(admitted), f.(provenance := OrContext(f.provenance, context)), offer);
    }
  }

  lemma {:induction false} AcceptAllHolds(
    store: Store, offers: seq<Offer>, maximum: usize, event: Event, k: nat, id: string, emissions: seq<Emission>)
    requires Holds(store, offers, maximum)
    ensures Holds(AcceptAll(store, maximum, ContextOf(event, id), emissions), offers + Tagged(event, k, id, emissions), maximum)
  {
    if emissions == [] {
      AppendNothing(offers);
    } else {
      var init, last := emissions[..|emissions| - 1], emissions[|emissions| - 1];
      AcceptAllHolds(store, offers, maximum, event, k, id, init);
      ContextSaysWhere(event, id);
      AcceptHolds(AcceptAll(store, maximum, ContextOf(event, id), init), offers + Tagged(event, k, id, init), maximum,
        ContextOf(event, id), Offer(event, k, id, last));
      TaggedSnoc(event, k, id, emissions);
      AppendAssociates(offers, Tagged(event, k, id, init), [Offer(event, k, id, last)]);
    }
  }

  lemma {:induction false} EventHolds<P>(
    plan: seq<Parser<P>>, ps: PlanState<P>, offers: seq<Offer>, event: Event, maximum: usize, n: nat)
    requires n <= |plan| == |ps.states| && Holds(ps.store, offers, maximum)
    ensures Holds(ReactUpTo(plan, ps, event, maximum, n).store, offers + OffersUpTo(plan, ps.states, event, n), maximum)
  {
    if n == 0 {
      AppendNothing(offers);
    } else {
      EventHolds(plan, ps, offers, event, maximum, n - 1);
      EventIndependence(plan, ps, event, maximum, n - 1, n - 1);
      var before := ReactUpTo(plan, ps, event, maximum, n - 1);
      var emissions := React(plan[n - 1], ps.states[n - 1], event).1;
      AcceptAllHolds(before.store, offers + OffersUpTo(plan, ps.states, event, n - 1), maximum, event, n - 1, plan[n - 1].id, emissions);
      AppendAssociates(offers, OffersUpTo(plan, ps.states, event, n - 1), Tagged(event, n - 1, plan[n - 1].id, emissions));
    }
  }

  lemma NowIs<P>(plan: seq<Parser<P>>, states: seq<P>, store: Store, trace: seq<Event>, maximum: usize)
    requires |plan| == |states|
    ensures Replay(plan, PlanState(states, store), trace, maximum).states == Now(plan, states, trace)
  {
    forall k | 0 <= k < |plan|
      ensures Replay(plan, PlanState(states, store), trace, maximum).states[k] == Now(plan, states, trace)[k]
    {
      ParserIndependence(plan, PlanState(states, store), trace, maximum, k);
    }
  }

  /** The candidate store after any trace, for any plan: the first emissions that ask for a place, up to the
      limit, diagnostics and failures each in order. Every one is stored as emitted, except that a missing
      provenance says where the event happened and which parser reacted; all others are counted. */
  lemma {:induction false} StoredExactly<P>(plan: seq<Parser<P>>, states: seq<P>, trace: seq<Event>, maximum: usize)
    requires |plan| == |states|
    ensures Holds(Replay(plan, PlanState(states, Store([], [], 0)), trace, maximum).store, Offers(plan, states, trace), maximum)
  {
    if trace != [] {
      var init, event := trace[..|trace| - 1], trace[|trace| - 1];
      StoredExactly(plan, states, init, maximum);
      NowIs(plan, states, Store([], [], 0), init, maximum);
      EventHolds(plan, Replay(plan, PlanState(states, Store([], [], 0)), init, maximum), Offers(plan, states, init), event, maximum, |plan|);
    }
  }
}
