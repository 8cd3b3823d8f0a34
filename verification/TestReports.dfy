/** Failed libtest and GoogleTest tests are reported, whatever follows, and with what evidence: where they
    failed, why, and with which details. */
module TestReports {
  import opened Model
  import opened Utf8
  import opened Text
  import opened Strings
  import opened Sequences
  import opened TestFailures
  import opened TestFailureLemmas

  // ---------------------------------------------------------------- which lines a framework is asked about

  // Lines that say that a Go test starts or ends are for Go alone.
  predicate IsGoStatus(acc: Accumulator, line: string) {
    GoRunningName(line).Some? || GoFailedName(line).Some? || (IsGoNonfailure(line) && acc.goRunning.Some?)
  }

  // GoogleTest is asked about what Go does not take.
  predicate ReachesGtest(acc: Accumulator, raw: string) {
    Trim(raw) != "" && !IsGoStatus(acc, Trim(raw)) && !GoLine(acc, Trim(raw)).taken
  }

  // libtest is asked about what neither of them takes.
  predicate ReachesRust(acc: Accumulator, raw: string) {
    ReachesGtest(acc, raw) && !GtestLine(acc, Trim(raw)).taken
  }

  // The lines that get so far, trimmed.
  function GtestLines(acc: Accumulator, lines: seq<string>): seq<string> {
    if lines == [] then []
    else
      var init, raw := lines[..|lines| - 1], lines[|lines| - 1];
      var before := GtestLines(acc, init);
      if ReachesGtest(ObserveMore(acc, init), raw) then before + [Trim(raw)] else before
  }

  function RustLines(acc: Accumulator, lines: seq<string>): seq<string> {
    if lines == [] then []
    else
      var init, raw := lines[..|lines| - 1], lines[|lines| - 1];
      var before := RustLines(acc, init);
      if ReachesRust(ObserveMore(acc, init), raw) then before + [Trim(raw)] else before
  }

  // What Go leaves alone.
  predicate SameOutsideGo(x: Accumulator, y: Accumulator) {
    && x.failedNames == y.failedNames && x.failures == y.failures && x.current == y.current
    && x.gtestRunning == y.gtestRunning && x.gtestCurrent == y.gtestCurrent
  }

  lemma PanickedLeaves(acc: Accumulator, name: string, message: string)
    ensures SameOutsideGo(GoPanicked(acc, name, message), acc)
  {
  }

  lemma LocatedLeaves(acc: Accumulator, name: string, place: GoPlace)
    ensures SameOutsideGo(GoLocated(acc, name, place), acc)
  {
  }

  lemma DetailLeaves(acc: Accumulator, name: string, line: string)
    ensures SameOutsideGo(GoDetail(acc, name, line).acc, acc)
  {
  }

  lemma GoLineLeaves(acc: Accumulator, line: string)
    ensures SameOutsideGo(GoLine(acc, line).acc, acc)
  {
    if GoContext(acc).Some? {
      var name := GoContext(acc).value;
      if GoPanicMessage(line).Some? {
        PanickedLeaves(acc, name, GoPanicMessage(line).value);
      } else if GoTestLocation(line).Some? {
        LocatedLeaves(acc, name, GoTestLocation(line).value);
      } else {
        DetailLeaves(acc, name, line);
      }
    }
  }

  // Without a running or failed Go test and an open GoogleTest failure, other lines reach libtest.
  lemma IdleReachesRust(acc: Accumulator, raw: string)
    requires acc.goRunning.None? && acc.goPanic.None? && acc.gtestCurrent.None?
    requires Trim(raw) != "" && GoRunningName(Trim(raw)).None? && GoFailedName(Trim(raw)).None?
    requires GtestRunningName(Trim(raw)).None? && GtestFailure(Trim(raw)).None? && GtestFailedName(Trim(raw)).None?
    ensures ReachesRust(acc, raw)
  {
  }

  // ---------------------------------------------------------------- failures stay

  predicate Extends(x: seq<Evidence>, y: seq<Evidence>) {
    x <= y
  }

  lemma ClosingExtends(acc: Accumulator)
    ensures Extends(acc.failures, FinishRust(acc).failures) && Extends(acc.failures, FinishGtest(acc).failures)
    ensures FinishRust(acc).gtestCurrent == acc.gtestCurrent && FinishRust(acc).gtestRunning == acc.gtestRunning
    ensures FinishGtest(acc).current == acc.current && FinishGtest(acc).gtestRunning == acc.gtestRunning
  {
  }

  lemma GtestLineExtends(acc: Accumulator, line: string)
    ensures Extends(acc.failures, GtestLine(acc, line).acc.failures) && GtestLine(acc, line).acc.current == acc.current
    ensures !GtestLine(acc, line).taken ==> GtestLine(acc, line).acc == acc
  {
    ClosingExtends(acc);
  }

  // Failures are only added, and GoogleTest is left alone.
  predicate GoesOn(x: Accumulator, y: Accumulator) {
    Extends(x.failures, y.failures) && y.gtestCurrent == x.gtestCurrent && y.gtestRunning == x.gtestRunning
  }

  lemma PanicGoesOn(acc: Accumulator, panic: Panic)
    ensures GoesOn(acc, RustPanicked(acc, panic))
  {
    ClosingExtends(acc);
  }

  lemma NamedGoesOn(acc: Accumulator, line: string)
    ensures RustNamed(acc, line).failures == acc.failures && RustNamed(acc, line).current == acc.current
    ensures RustNamed(acc, line).gtestCurrent == acc.gtestCurrent && RustNamed(acc, line).gtestRunning == acc.gtestRunning
  {
  }

  lemma RustLineExtends(acc: Accumulator, line: string)
    ensures GoesOn(acc, RustLine(acc, line))
  {
    var named := RustNamed(acc, line);
    NamedGoesOn(acc, line);
    ClosingExtends(named);
    if RustPanic(line).Some? {
      PanicGoesOn(named, RustPanic(line).value);
    }
  }

  lemma ObserveIs(acc: Accumulator, raw: string)
    ensures !ReachesGtest(acc, raw) ==> SameOutsideGo(Observe(acc, raw), acc)
    ensures ReachesGtest(acc, raw) ==>
      SameOutsideGo(GoLine(acc, Trim(raw)).acc, acc) &&
      Observe(acc, raw) ==
        var gtest := GtestLine(GoLine(acc, Trim(raw)).acc, Trim(raw));
        if gtest.taken then gtest.acc else RustLine(gtest.acc, Trim(raw))
  {
    GoLineLeaves(acc, Trim(raw));
  }

  // GoogleTest does the same, whatever Go has changed.
  lemma GtestIgnoresGo(x: Accumulator, y: Accumulator, line: string)
    requires SameOutsideGo(x, y)
    ensures SameOutsideGo(GtestLine(x, line).acc, GtestLine(y, line).acc) && GtestLine(x, line).taken == GtestLine(y, line).taken
  {
  }

  lemma ObserveExtends(acc: Accumulator, raw: string)
    ensures Extends(acc.failures, Observe(acc, raw).failures)
  {
    ObserveIs(acc, raw);
    if ReachesGtest(acc, raw) {
      var go := GoLine(acc, Trim(raw)).acc;
      GtestLineExtends(go, Trim(raw));
      RustLineExtends(GtestLine(go, Trim(raw)).acc, Trim(raw));
    }
  }

  lemma {:induction false} GoExtends(blocks: seq<GoBlock>, failures: seq<Evidence>)
    ensures Extends(failures, FinishGo(blocks, failures))
  {
    if blocks != [] {
      GoExtends(blocks[..|blocks| - 1], failures);
    }
  }

  lemma FinishExtends(acc: Accumulator)
    ensures Extends(FinishRust(acc).failures, FinishAll(acc)) && Extends(FinishGtest(FinishRust(acc)).failures, FinishAll(acc))
  {
    var rust := FinishRust(acc);
    ClosingExtends(rust);
    var closed := FinishGtest(rust);
    GoExtends(closed.goBlocks, closed.failures);
    NamesExtend(closed.failedNames, FinishGo(closed.goBlocks, closed.failures));
  }

  lemma Inherited(x: seq<Evidence>, y: seq<Evidence>, e: Evidence)
    requires Extends(x, y)
    ensures e in x ==> e in y
    ensures |x| <= |y|
  {
    if e in x {
      var i :| 0 <= i < |x| && x[i] == e;
      assert y[i] == e;
    }
  }

  // Reported, or there are as many failures as there can be.
  predicate IsThere(e: Evidence, evidence: seq<Evidence>) {
    e in evidence || |evidence| >= MAX_FAILURES
  }

  lemma StaysThere(e: Evidence, x: seq<Evidence>, y: seq<Evidence>)
    requires Extends(x, y) && IsThere(e, x)
    ensures IsThere(e, y)
  {
    Inherited(x, y, e);
  }

  // ---------------------------------------------------------------- libtest: the life of a block

  // A line that ends the block of a test: the block of another one, its panic, or a heading.
  predicate ClosesRust(name: string, line: string) {
    RustBlockName(line).Some? ||
    (if RustPanic(line).Some? then RustPanic(line).value.name != name else IsFailureHeading(line))
  }

  // The lines up to that one.
  function LifeOf(name: string, lines: seq<string>): seq<string> {
    if lines == [] then []
    else
      var init := lines[..|lines| - 1];
      var before := LifeOf(name, init);
      if |before| < |init| || ClosesRust(name, lines[|lines| - 1]) then before else lines
  }

  predicate IsAssertion(line: string) {
    RustPanic(line).None? && Contains(ToLower(line), "assertion") && Contains(ToLower(line), " failed")
  }

  predicate BeginsWith(line: string, word: string) {
    word <= ToLower(line)
  }

  predicate IsDetail(line: string) {
    && RustPanic(line).None? && !IsAssertion(line)
    && (BeginsWith(line, "left:") || BeginsWith(line, "right:") || BeginsWith(line, "expected:") || BeginsWith(line, "actual:"))
  }

  // Any other line, but for three that tell nothing.
  predicate IsReason(line: string) {
    && RustPanic(line).None? && !IsAssertion(line) && !IsDetail(line)
    && !BeginsWith(line, "note:") && !BeginsWith(line, "stack backtrace:") && !BeginsWith(line, "test result:")
  }

  // Where the test panicked last.
  function LastPlace(place: Option<Location>, lines: seq<string>): Option<Location> {
    if lines == [] then place
    else
      match RustPanic(lines[|lines| - 1])
      case Some(panic) => panic.location
      case None => LastPlace(place, lines[..|lines| - 1])
  }

  // The last assertion that failed.
  function LastAssertion(assertion: Option<string>, lines: seq<string>): Option<string> {
    if lines == [] then assertion
    else if IsAssertion(lines[|lines| - 1]) then Some(Bounded(lines[|lines| - 1], 256))
    else LastAssertion(assertion, lines[..|lines| - 1])
  }

  predicate Panicked(panicked: bool, lines: seq<string>) {
    panicked || exists i :: 0 <= i < |lines| && RustPanic(lines[i]).Some?
  }

  // The first reason behind a panic.
  function FirstReason(panicked: bool, reason: Option<string>, lines: seq<string>): Option<string> {
    if lines == [] then reason
    else
      var init, line := lines[..|lines| - 1], lines[|lines| - 1];
      var before := FirstReason(panicked, reason, init);
      if before.None? && IsReason(line) && Panicked(panicked, init) then Some(Bounded(line, 256)) else before
  }

  function Details(lines: seq<string>): seq<string> {
    if lines == [] then []
    else
      var before, line := Details(lines[..|lines| - 1]), lines[|lines| - 1];
      if IsDetail(line) then before + [Bounded(line, 256)] else before
  }

  function AtMost(details: seq<string>, n: nat): seq<string> {
    details[..Min(|details|, n)]
  }

  // A block after more lines of its life, in one piece.
  function Lived(b: RustBlock, lines: seq<string>): RustBlock {
    RustBlock(b.name, LastPlace(b.location, lines), LastAssertion(b.assertion, lines),
      FirstReason(b.sawPanic, b.panicMessage, lines), AtMost(b.details + Details(lines), 4), Panicked(b.sawPanic, lines))
  }

  // One line after the other.
  function Grown(b: RustBlock, line: string): RustBlock {
    match RustPanic(line)
    case Some(panic) => b.(location := panic.location, sawPanic := true)
    case None => RustDetail(b, line)
  }

  lemma SnocParts(lines: seq<string>, line: string)
    ensures (lines + [line])[..|lines + [line]| - 1] == lines && (lines + [line])[|lines + [line]| - 1] == line
  {
  }

  lemma PanickedSnoc(panicked: bool, lines: seq<string>, line: string)
    ensures Panicked(panicked, lines + [line]) <==> Panicked(panicked, lines) || RustPanic(line).Some?
  {
    assert (lines + [line])[|lines|] == line;
    assert forall i | 0 <= i < |lines| :: (lines + [line])[i] == lines[i];
  }

  lemma DetailsSnoc(details: seq<string>, lines: seq<string>, line: string)
    ensures AtMost(details + Details(lines + [line]), 4) ==
      var before := AtMost(details + Details(lines), 4);
      if IsDetail(line) && |before| < 4 then before + [Bounded(line, 256)] else before
  {
    SnocParts(lines, line);
    AppendAssociates(details, Details(lines), [Bounded(line, 256)]);
  }

  lemma DetailIs(b: RustBlock, line: string)
    requires RustPanic(line).None?
    ensures RustDetail(b, line) ==
      if IsAssertion(line) then b.(assertion := Some(Bounded(line, 256)))
      else if IsDetail(line) then (if |b.details| < 4 then b.(details := b.details + [Bounded(line, 256)]) else b)
      else if IsReason(line) && b.sawPanic && b.panicMessage.None? then b.(panicMessage := Some(Bounded(line, 256)))
      else b
  {
    var lower := ToLower(line);
    StartsWithOne(lower, ["left:", "right:", "expected:", "actual:"]);
    StartsWithOne(lower, ["note:", "stack backtrace:", "test result:"]);
  }

  lemma StartsWithOne(s: string, words: seq<string>)
    ensures |words| == 3 ==> (StartsWithAny(s, words) <==> words[0] <= s || words[1] <= s || words[2] <= s)
    ensures |words| == 4 ==> (StartsWithAny(s, words) <==> words[0] <= s || words[1] <= s || words[2] <= s || words[3] <= s)
  {
    if |words| == 3 {
      assert StartsWith(s, words[0]) || StartsWith(s, words[1]) || StartsWith(s, words[2]) ==> StartsWithAny(s, words);
    }
    if |words| == 4 {
      assert StartsWith(s, words[0]) || StartsWith(s, words[1]) || StartsWith(s, words[2]) || StartsWith(s, words[3])
        ==> StartsWithAny(s, words);
    }
  }

  lemma LivedSnoc(b: RustBlock, lines: seq<string>, line: string)
    ensures Lived(b, lines + [line]) == Grown(Lived(b, lines), line)
  {
    SnocParts(lines, line);
    PanickedSnoc(b.sawPanic, lines, line);
    DetailsSnoc(b.details, lines, line);
    if RustPanic(line).None? {
      DetailIs(Lived(b, lines), line);
    }
  }

  lemma LivedNothing(b: RustBlock)
    requires |b.details| <= 4
    ensures Lived(b, []) == b
  {
    AppendNothing(b.details);
  }

  lemma LifeSnoc(name: string, lines: seq<string>, line: string)
    ensures LifeOf(name, lines + [line]) ==
      if |LifeOf(name, lines)| < |lines| || ClosesRust(name, line) then LifeOf(name, lines) else lines + [line]
  {
    SnocParts(lines, line);
  }

  lemma {:induction false} LifeIsPrefix(name: string, lines: seq<string>)
    ensures LifeOf(name, lines) <= lines
  {
    if lines != [] {
      LifeIsPrefix(name, lines[..|lines| - 1]);
    }
  }

  // ---------------------------------------------------------------- libtest: what is reported

  function Concat(parts: seq<string>): string {
    if parts == [] then "" else parts[0] + Concat(parts[1..])
  }

  // The place as it is written behind a test's name.
  function PlaceParts(place: Option<Location>): seq<string> {
    match place
    case None => []
    case Some(l) =>
      [" at ", l.path] + (if l.line.Some? then [":", Show(l.line.value)] else [])
        + (if l.column.Some? then [":", Show(l.column.value)] else [])
  }

  function DetailParts(details: seq<string>): seq<string> {
    if details == [] then [] else ["; ", details[0]] + DetailParts(details[1..])
  }

  // The message of a libtest failure: name, place, reason and details.
  function RustText(b: RustBlock): string {
    var reason := if b.assertion.Some? then b.assertion else b.panicMessage;
    Concat(["Rust test ", b.name, " failed"] + PlaceParts(b.location)
      + (if reason.Some? then [": ", reason.value] else []) + DetailParts(b.details))
  }

  /** The evidence of a libtest block. */
  function RustEvidence(b: RustBlock): Evidence {
    Evidence(b.name, Bounded(RustText(b), 1000), b.location)
  }

  lemma {:induction false} ConcatConcat(x: seq<string>, y: seq<string>)
    ensures Concat(x + y) == Concat(x) + Concat(y)
  {
    if x == [] {
      assert x + y == y;
    } else {
      TailOfAppend(x, y);
      ConcatConcat(x[1..], y);
      AppendAssociates(x[0], Concat(x[1..]), Concat(y));
    }
  }

  lemma ConcatTwo(a: string, b: string)
    ensures Concat([a, b]) == a + b
  {
    var one: seq<string> := [];
    assert Concat(one) == "";
    assert [b][1..] == one && Concat([b]) == b + "";
    assert [a, b][1..] == [b];
    assert b + "" == b;
  }

  lemma {:induction false} DetailsSplit(details: seq<string>, last: string)
    ensures DetailParts(details + [last]) == DetailParts(details) + ["; ", last]
  {
    if details == [] {
      assert [last][1..] == [] && details + [last] == [last];
      assert ["; ", last] + [] == ["; ", last];
    } else {
      TailOfAppend(details, [last]);
      DetailsSplit(details[1..], last);
      AppendAssociates(["; ", details[0]], DetailParts(details[1..]), ["; ", last]);
    }
  }

  lemma {:induction false} DetailPartsAreText(details: seq<string>)
    ensures Concat(DetailParts(details)) == DetailsText(details)
  {
    if details != [] {
      var init, last := details[..|details| - 1], details[|details| - 1];
      DetailPartsAreText(init);
      assert details == init + [last];
      DetailsSplit(init, last);
      ConcatConcat(DetailParts(init), ["; ", last]);
      ConcatTwo("; ", last);
      AppendAssociates(DetailsText(init), "; ", last);
    }
  }

  lemma PlacePartsAreText(place: Option<Location>)
    ensures Concat(PlaceParts(place)) == PlaceText(place)
  {
    if place.Some? {
      var l := place.value;
      var line, column := if l.line.Some? then [":", Show(l.line.value)] else [], if l.column.Some? then [":", Show(l.column.value)] else [];
      ConcatConcat([" at ", l.path] + line, column);
      ConcatConcat([" at ", l.path], line);
      ConcatTwo(" at ", l.path);
      if l.line.Some? {
        ConcatTwo(":", Show(l.line.value));
      }
      if l.column.Some? {
        ConcatTwo(":", Show(l.column.value));
      }
    }
  }

  lemma ConcatThree(a: string, b: string, c: string)
    ensures Concat([a, b, c]) == a + b + c
  {
    assert [a, b, c][1..] == [b, c];
    ConcatTwo(b, c);
    AppendAssociates(a, b, c);
  }

  lemma TextIsMessage(b: RustBlock)
    ensures RustText(b) == RustMessage(b)
  {
    var reason := if b.assertion.Some? then b.assertion else b.panicMessage;
    var name, place, why, details := ["Rust test ", b.name, " failed"], PlaceParts(b.location),
      if reason.Some? then [": ", reason.value] else [], DetailParts(b.details);
    ConcatConcat(name + place + why, details);
    ConcatConcat(name + place, why);
    ConcatConcat(name, place);
    ConcatThree("Rust test ", b.name, " failed");
    PlacePartsAreText(b.location);
    DetailPartsAreText(b.details);
    if reason.Some? {
      ConcatTwo(": ", reason.value);
    }
  }

  lemma ClosedIsThere(acc: Accumulator, b: RustBlock)
    requires acc.current == Some(b) && b.name != ""
    ensures IsThere(RustEvidence(b), FinishRust(acc).failures)
  {
    TextIsMessage(b);
  }

  // The block is open and has grown by its life so far, or what it became is reported.
  predicate TracksRust(acc: Accumulator, b: RustBlock, lines: seq<string>) {
    var life := LifeOf(b.name, lines);
    if life == lines then acc.current == Some(Lived(b, lines)) else IsThere(RustEvidence(Lived(b, life)), acc.failures)
  }

  lemma LineCloses(acc: Accumulator, b: RustBlock, line: string)
    requires acc.current == Some(b) && b.name != "" && ClosesRust(b.name, line)
    ensures IsThere(RustEvidence(b), RustLine(acc, line).failures)
  {
    var named := RustNamed(acc, line);
    NamedGoesOn(acc, line);
    ClosedIsThere(named, b);
  }

  lemma LineGoesOn(acc: Accumulator, b: RustBlock, line: string)
    requires acc.current == Some(b) && b.name != "" && Bounded(b.name, MAX_NAME_BYTES) == b.name && !ClosesRust(b.name, line)
    ensures RustLine(acc, line).current == Some(Grown(b, line))
  {
    NamedGoesOn(acc, line);
  }

  lemma LineTracksRust(acc: Accumulator, b: RustBlock, lines: seq<string>, line: string)
    requires TracksRust(acc, b, lines) && b.name != "" && Bounded(b.name, MAX_NAME_BYTES) == b.name
    ensures TracksRust(RustLine(acc, line), b, lines + [line])
  {
    LifeSnoc(b.name, lines, line);
    LifeIsPrefix(b.name, lines);
    if LifeOf(b.name, lines) != lines {
      assert |LifeOf(b.name, lines)| < |lines|;
      RustLineExtends(acc, line);
      StaysThere(RustEvidence(Lived(b, LifeOf(b.name, lines))), acc.failures, RustLine(acc, line).failures);
    } else if ClosesRust(b.name, line) {
      LineCloses(acc, Lived(b, lines), line);
    } else {
      LineGoesOn(acc, Lived(b, lines), line);
      LivedSnoc(b, lines, line);
    }
  }

  lemma ObserveTracksRust(acc: Accumulator, b: RustBlock, lines: seq<string>, raw: string)
    requires TracksRust(acc, b, lines) && b.name != "" && Bounded(b.name, MAX_NAME_BYTES) == b.name
    ensures TracksRust(Observe(acc, raw), b, if ReachesRust(acc, raw) then lines + [Trim(raw)] else lines)
  {
    ObserveIs(acc, raw);
    ObserveExtends(acc, raw);
    if ReachesGtest(acc, raw) {
      var go := GoLine(acc, Trim(raw)).acc;
      GtestIgnoresGo(go, acc, Trim(raw));
      GtestLineExtends(go, Trim(raw));
      if ReachesRust(acc, raw) {
        LineTracksRust(go, b, lines, Trim(raw));
      }
    }
    if !ReachesRust(acc, raw) && LifeOf(b.name, lines) != lines {
      StaysThere(RustEvidence(Lived(b, LifeOf(b.name, lines))), acc.failures, Observe(acc, raw).failures);
    }
  }

  lemma {:induction false} MoreTracksRust(acc: Accumulator, b: RustBlock, more: seq<string>)
    requires acc.current == Some(b) && b.name != "" && Bounded(b.name, MAX_NAME_BYTES) == b.name && |b.details| <= 4
    ensures TracksRust(ObserveMore(acc, more), b, RustLines(acc, more))
  {
    if more == [] {
      LivedNothing(b);
    } else {
      var init := more[..|more| - 1];
      MoreTracksRust(acc, b, init);
      ObserveTracksRust(ObserveMore(acc, init), b, RustLines(acc, init), more[|more| - 1]);
    }
  }

  /** An open libtest block is reported, whatever follows, unless 20 failures are: with the place of the last
      panic in its life, the last assertion that failed there, or else the first reason behind a panic, and
      the first four details. Its life are the lines that reach libtest, up to the block of another test,
      the panic of another test or a heading. */
  lemma OpenRustBlockIsReported(acc: Accumulator, b: RustBlock, more: seq<string>)
    requires acc.current == Some(b) && b.name != "" && Bounded(b.name, MAX_NAME_BYTES) == b.name && |b.details| <= 4
    ensures IsThere(RustEvidence(Lived(b, LifeOf(b.name, RustLines(acc, more)))), FinishAll(ObserveMore(acc, more)))
  {
    var end, lines := ObserveMore(acc, more), RustLines(acc, more);
    MoreTracksRust(acc, b, more);
    FinishExtends(end);
    var e := RustEvidence(Lived(b, LifeOf(b.name, lines)));
    if LifeOf(b.name, lines) == lines {
      ClosedIsThere(end, Lived(b, lines));
    } else {
      ClosingExtends(end);
      StaysThere(e, end.failures, FinishRust(end).failures);
    }
    StaysThere(e, FinishRust(end).failures, FinishAll(end));
  }

  lemma BoundedTwice(name: string, maximum: nat)
    requires maximum >= 3
    ensures Bounded(Bounded(name, maximum), maximum) == Bounded(name, maximum)
  {
    BoundedIsLongestFit(name, maximum);
    BoundedIsLongestFit(Bounded(name, maximum), maximum);
  }

  lemma BoundedIsThere(name: string, maximum: nat)
    requires maximum >= 3 && name != ""
    ensures Bounded(name, maximum) != ""
  {
    BoundedIsLongestFit(name, maximum);
  }

  // The block that a panic opens, or continues if the open one has no other name.
  function PanicBlock(acc: Accumulator, panic: Panic): RustBlock {
    var name := Bounded(panic.name, 512);
    if acc.current.Some? && (acc.current.value.name == "" || acc.current.value.name == panic.name)
    then acc.current.value.(name := name, location := panic.location, sawPanic := true)
    else RustBlock(name, panic.location, None, None, [], true)
  }

  lemma PanicOpens(acc: Accumulator, before: Accumulator, line: string, panic: Panic)
    requires RustBlockName(line).None? && RustPanic(line) == Some(panic) && acc.current == before.current
    ensures RustLine(acc, line).current == Some(PanicBlock(before, panic))
  {
    NamedGoesOn(acc, line);
  }

  /** A libtest panic is reported, whatever follows it in the log, unless 20 failures are: with the name of the
      test, the place of its last panic, and what is said about it until another test is named. */
  lemma RustPanicIsReported(before: seq<string>, raw: string, more: seq<string>)
    requires ReachesRust(ObserveAll(before), raw)
    requires RustBlockName(Trim(raw)).None? && RustPanic(Trim(raw)).Some?
    ensures var acc := ObserveAll(before);
      var b, lines := PanicBlock(acc, RustPanic(Trim(raw)).value), RustLines(Observe(acc, raw), more);
      IsThere(RustEvidence(Lived(b, LifeOf(b.name, lines))), FinishAll(ObserveMore(Observe(acc, raw), more)))
  {
    var acc, panic := ObserveAll(before), RustPanic(Trim(raw)).value;
    AlwaysWithin(before);
    ObserveIs(acc, raw);
    var go := GoLine(acc, Trim(raw)).acc;
    GtestIgnoresGo(go, acc, Trim(raw));
    GtestLineExtends(go, Trim(raw));
    BoundedTwice(panic.name, 512);
    PanicNames(Trim(raw));
    BoundedIsThere(panic.name, 512);
    PanicOpens(GtestLine(go, Trim(raw)).acc, acc, Trim(raw), panic);
    OpenRustBlockIsReported(Observe(acc, raw), PanicBlock(acc, panic), more);
  }

  lemma PanicNames(line: string)
    ensures RustPanic(line).Some? ==> RustPanic(line).value.name != ""
    ensures RustBlockName(line).Some? ==> RustBlockName(line).value != ""
  {
  }

  /** So is a test whose captured output begins. */
  lemma RustOutputIsReported(before: seq<string>, raw: string, more: seq<string>)
    requires ReachesRust(ObserveAll(before), raw) && RustBlockName(Trim(raw)).Some?
    ensures var acc := ObserveAll(before);
      var b := RustBlock(Bounded(RustBlockName(Trim(raw)).value, 512), None, None, None, [], false);
      var lines := RustLines(Observe(acc, raw), more);
      IsThere(RustEvidence(Lived(b, LifeOf(b.name, lines))), FinishAll(ObserveMore(Observe(acc, raw), more)))
  {
    var acc, name := ObserveAll(before), RustBlockName(Trim(raw)).value;
    var b := RustBlock(Bounded(name, 512), None, None, None, [], false);
    ObserveIs(acc, raw);
    var go := GoLine(acc, Trim(raw)).acc;
    GtestIgnoresGo(go, acc, Trim(raw));
    GtestLineExtends(go, Trim(raw));
    PanicNames(Trim(raw));
    BoundedTwice(name, 512);
    BoundedIsThere(name, 512);
    OpenRustBlockIsReported(Observe(acc, raw), b, more);
  }

  // ---------------------------------------------------------------- GoogleTest

  // A line that ends a failure: another test or failure, or the end of the running test.
  predicate ClosesGtest(running: Option<string>, line: string) {
    GtestRunningName(line).Some? || GtestFailure(line).Some? || (GtestFailedName(line).Some? && GtestFailedName(line) == running)
  }

  function GtestLife(running: Option<string>, lines: seq<string>): seq<string> {
    if lines == [] then []
    else
      var init := lines[..|lines| - 1];
      var before := GtestLife(running, init);
      if |before| < |init| || ClosesGtest(running, lines[|lines| - 1]) then before else lines
  }

  // A line that tells something about the failure.
  predicate IsGtestDetail(line: string) {
    && GtestFailedName(line).None?
    && !("[==========]" <= line) && !("[----------]" <= line) && !("[  PASSED  ]" <= line) && !("[  SKIPPED ]" <= line)
  }

  function GtestDetails(lines: seq<string>): seq<string> {
    if lines == [] then []
    else
      var before, line := GtestDetails(lines[..|lines| - 1]), lines[|lines| - 1];
      if IsGtestDetail(line) then before + [Bounded(line, 256)] else before
  }

  function GtestLived(b: GtestBlock, lines: seq<string>): GtestBlock {
    GtestBlock(b.name, b.location, AtMost(b.details + GtestDetails(lines), 8))
  }

  // More details behind a text: after a colon only a space separates them.
  function WithDetails(text: string, details: seq<string>): string
    decreases |details|
  {
    if details == [] then text
    else WithDetails(text + (if text != "" && text[|text| - 1] == ':' then " " else "; ") + details[0], details[1..])
  }

  // The message of a GoogleTest failure: name and details.
  function GtestText(b: GtestBlock): string {
    var head := "C++ test " + b.name + " failed";
    if b.details == [] then head else WithDetails(head + ": " + b.details[0], b.details[1..])
  }

  /** The evidence of a GoogleTest failure. */
  function GtestEvidence(b: GtestBlock): Evidence {
    Evidence(b.name, Bounded(GtestText(b), 1000), b.location)
  }

  lemma {:induction false} WithDetailsSnoc(text: string, details: seq<string>, last: string)
    ensures var before := WithDetails(text, details);
      WithDetails(text, details + [last]) == before + (if before != "" && before[|before| - 1] == ':' then " " else "; ") + last
    decreases |details|
  {
    if details == [] {
      assert details + [last] == [last] && [last][1..] == [];
    } else {
      var next := text + (if text != "" && text[|text| - 1] == ':' then " " else "; ") + details[0];
      TailOfAppend(details, [last]);
      WithDetailsSnoc(next, details[1..], last);
    }
  }

  lemma {:induction false} GtestTextIs(name: string, details: seq<string>)
    ensures GtestText(GtestBlock(name, None, details)) == GtestMessage(name, details)
  {
    if details != [] {
      var init, last := details[..|details| - 1], details[|details| - 1];
      GtestTextIs(name, init);
      if init != [] {
        var text := "C++ test " + name + " failed" + ": " + details[0];
        assert details[1..] == init[1..] + [last] && details[0] == init[0];
        WithDetailsSnoc(text, init[1..], last);
        EndsInColon(GtestMessage(name, init));
      } else {
        assert details[1..] == [];
      }
    }
  }

  lemma EndsInColon(text: string)
    ensures EndsWith(text, ":") <==> text != "" && text[|text| - 1] == ':'
  {
    if text != "" {
      assert text[|text| - 1..] == [text[|text| - 1]];
    }
  }

  lemma GtestClosedIsThere(acc: Accumulator, b: GtestBlock)
    requires acc.gtestCurrent == Some(b) && b.name != ""
    ensures IsThere(GtestEvidence(b), FinishGtest(acc).failures)
  {
    GtestTextIs(b.name, b.details);
  }

  predicate TracksGtest(acc: Accumulator, running: Option<string>, b: GtestBlock, lines: seq<string>) {
    var life := GtestLife(running, lines);
    if life == lines then acc.gtestCurrent == Some(GtestLived(b, lines)) && acc.gtestRunning == running
    else IsThere(GtestEvidence(GtestLived(b, life)), acc.failures)
  }

  lemma GtestLifeSnoc(running: Option<string>, lines: seq<string>, line: string)
    ensures GtestLife(running, lines + [line]) ==
      if |GtestLife(running, lines)| < |lines| || ClosesGtest(running, line) then GtestLife(running, lines) else lines + [line]
  {
    SnocParts(lines, line);
  }

  lemma {:induction false} GtestLifeIsPrefix(running: Option<string>, lines: seq<string>)
    ensures GtestLife(running, lines) <= lines
  {
    if lines != [] {
      GtestLifeIsPrefix(running, lines[..|lines| - 1]);
    }
  }

  lemma GtestDetailIs(line: string)
    ensures IsGtestDetail(line) <==> GtestFailedName(line).None? && !IsGtestStatus(line)
  {
    StartsWithOne(line, ["[==========]", "[----------]", "[  PASSED  ]", "[  SKIPPED ]"]);
  }

  lemma GtestLivedSnoc(b: GtestBlock, lines: seq<string>, line: string)
    ensures GtestLived(b, lines + [line]) ==
      var before := GtestLived(b, lines);
      if IsGtestDetail(line) && |before.details| < 8 then before.(details := before.details + [Bounded(line, 256)]) else before
  {
    SnocParts(lines, line);
    AppendAssociates(b.details, GtestDetails(lines), [Bounded(line, 256)]);
  }

  lemma GtestLineCloses(acc: Accumulator, b: GtestBlock, line: string)
    requires acc.gtestCurrent == Some(b) && b.name != "" && ClosesGtest(acc.gtestRunning, line)
    ensures IsThere(GtestEvidence(b), GtestLine(acc, line).acc.failures) && GtestLine(acc, line).taken
  {
    GtestClosedIsThere(acc, b);
  }

  lemma GtestLineGoesOn(acc: Accumulator, b: GtestBlock, line: string)
    requires acc.gtestCurrent == Some(b) && !ClosesGtest(acc.gtestRunning, line)
    ensures var next := GtestLine(acc, line);
      && next.taken && next.acc.gtestRunning == acc.gtestRunning
      && next.acc.gtestCurrent ==
           Some(if IsGtestDetail(line) && |b.details| < 8 then b.(details := b.details + [Bounded(line, 256)]) else b)
  {
    GtestDetailIs(line);
  }

  lemma LineTracksGtest(acc: Accumulator, running: Option<string>, b: GtestBlock, lines: seq<string>, line: string)
    requires TracksGtest(acc, running, b, lines) && b.name != ""
    ensures TracksGtest(GtestLine(acc, line).acc, running, b, lines + [line])
    ensures GtestLife(running, lines) == lines ==> GtestLine(acc, line).taken
  {
    GtestLifeSnoc(running, lines, line);
    GtestLifeIsPrefix(running, lines);
    if GtestLife(running, lines) != lines {
      GtestLineExtends(acc, line);
      StaysThere(GtestEvidence(GtestLived(b, GtestLife(running, lines))), acc.failures, GtestLine(acc, line).acc.failures);
    } else if ClosesGtest(running, line) {
      GtestLineCloses(acc, GtestLived(b, lines), line);
    } else {
      GtestLineGoesOn(acc, GtestLived(b, lines), line);
      GtestLivedSnoc(b, lines, line);
    }
  }

  lemma ObserveTracksGtest(acc: Accumulator, running: Option<string>, b: GtestBlock, lines: seq<string>, raw: string)
    requires TracksGtest(acc, running, b, lines) && b.name != ""
    ensures TracksGtest(Observe(acc, raw), running, b, if ReachesGtest(acc, raw) then lines + [Trim(raw)] else lines)
  {
    ObserveIs(acc, raw);
    if ReachesGtest(acc, raw) {
      var go, line := GoLine(acc, Trim(raw)).acc, Trim(raw);
      LineTracksGtest(go, running, b, lines, line);
      var gtest := GtestLine(go, line).acc;
      RustLineExtends(gtest, line);
      GtestLifeSnoc(running, lines, line);
      GtestLifeIsPrefix(running, lines);
      if !GtestLine(go, line).taken {
        StaysThere(GtestEvidence(GtestLived(b, GtestLife(running, lines + [line]))), gtest.failures, RustLine(gtest, line).failures);
      }
    }
  }

  lemma {:induction false} MoreTracksGtest(acc: Accumulator, b: GtestBlock, more: seq<string>)
    requires acc.gtestCurrent == Some(b) && b.name != "" && |b.details| <= 8
    ensures TracksGtest(ObserveMore(acc, more), acc.gtestRunning, b, GtestLines(acc, more))
  {
    if more == [] {
      AppendNothing(b.details);
    } else {
      var init := more[..|more| - 1];
      MoreTracksGtest(acc, b, init);
      ObserveTracksGtest(ObserveMore(acc, init), acc.gtestRunning, b, GtestLines(acc, init), more[|more| - 1]);
    }
  }

  /** A GoogleTest failure is reported, whatever follows it in the log, unless 20 failures are: with the name of
      the running test, its place, and the first eight lines said about it before the next test or failure
      or the end of the test. */
  lemma GtestFailureIsReported(before: seq<string>, raw: string, more: seq<string>)
    requires ReachesGtest(ObserveAll(before), raw)
    requires GtestRunningName(Trim(raw)).None? && GtestFailure(Trim(raw)).Some?
    ensures var acc := ObserveAll(before);
      var running := acc.gtestRunning;
      var b := GtestBlock(if running.Some? then running.value else "<unknown gtest>", GtestFailure(Trim(raw)).value, []);
      var lines := GtestLines(Observe(acc, raw), more);
      IsThere(GtestEvidence(GtestLived(b, GtestLife(running, lines))), FinishAll(ObserveMore(Observe(acc, raw), more)))
  {
    var acc := ObserveAll(before);
    var running := acc.gtestRunning;
    var b := GtestBlock(if running.Some? then running.value else "<unknown gtest>", GtestFailure(Trim(raw)).value, []);
    RunningIsNamed(before);
    ObserveIs(acc, raw);
    var next := Observe(acc, raw);
    assert next.gtestCurrent == Some(b) && next.gtestRunning == running;
    MoreTracksGtest(next, b, more);
    var end, lines := ObserveMore(next, more), GtestLines(next, more);
    var e := GtestEvidence(GtestLived(b, GtestLife(running, lines)));
    FinishExtends(end);
    ClosingExtends(end);
    ClosingExtends(FinishRust(end));
    if GtestLife(running, lines) == lines {
      GtestClosedIsThere(FinishRust(end), GtestLived(b, lines));
    } else {
      StaysThere(e, end.failures, FinishRust(end).failures);
      StaysThere(e, FinishRust(end).failures, FinishGtest(FinishRust(end)).failures);
    }
    StaysThere(e, FinishGtest(FinishRust(end)).failures, FinishAll(end));
  }

  // A running test has a name.
  predicate RunningNamed(acc: Accumulator) {
    acc.gtestRunning.Some? ==> acc.gtestRunning.value != ""
  }

  lemma GtestLineNamed(acc: Accumulator, line: string)
    requires RunningNamed(acc)
    ensures RunningNamed(GtestLine(acc, line).acc)
  {
    ClosingExtends(acc);
    if GtestRunningName(line).Some? {
      BoundedIsThere(GtestRunningName(line).value, MAX_NAME_BYTES);
    }
  }

  lemma RunningStaysNamed(acc: Accumulator, raw: string)
    requires RunningNamed(acc)
    ensures RunningNamed(Observe(acc, raw))
  {
    ObserveIs(acc, raw);
    if ReachesGtest(acc, raw) {
      var go, line := GoLine(acc, Trim(raw)).acc, Trim(raw);
      GtestLineNamed(go, line);
      RustLineExtends(GtestLine(go, line).acc, line);
    }
  }

  lemma {:induction false} RunningIsNamed(lines: seq<string>)
    ensures RunningNamed(ObserveAll(lines))
  {
    if lines != [] {
      RunningIsNamed(lines[..|lines| - 1]);
      RunningStaysNamed(ObserveAll(lines[..|lines| - 1]), lines[|lines| - 1]);
    }
  }

  // The line does not end the running test or start another one.
  predicate KeepsRunning(acc: Accumulator, raw: string, name: string) {
    ReachesGtest(acc, raw) ==> GtestRunningName(Trim(raw)).None? && GtestFailedName(Trim(raw)) != Some(name)
  }

  lemma RunningKept(acc: Accumulator, raw: string, name: string)
    requires acc.gtestRunning == Some(name) && KeepsRunning(acc, raw, name)
    ensures Observe(acc, raw).gtestRunning == Some(name)
  {
    ObserveIs(acc, raw);
    if ReachesGtest(acc, raw) {
      var go, line := GoLine(acc, Trim(raw)).acc, Trim(raw);
      ClosingExtends(go);
      RustLineExtends(GtestLine(go, line).acc, line);
    }
  }

  lemma {:induction false} RunningThrough(acc: Accumulator, between: seq<string>, name: string)
    requires acc.gtestRunning == Some(name)
    requires forall i | 0 <= i < |between| :: KeepsRunning(ObserveMore(acc, between[..i]), between[i], name)
    ensures ObserveMore(acc, between).gtestRunning == Some(name)
  {
    if between != [] {
      var init := between[..|between| - 1];
      forall i | 0 <= i < |init| ensures KeepsRunning(ObserveMore(acc, init[..i]), init[i], name) {
        assert init[..i] == between[..i] && init[i] == between[i];
      }
      RunningThrough(acc, init, name);
      RunningKept(ObserveMore(acc, init), between[|between| - 1], name);
    }
  }

  /** A GoogleTest that a line starts is the running one until a line starts another one or ends it, so that failures
      in between are reported under its name. */
  lemma GtestIsRunning(before: seq<string>, run: string, between: seq<string>)
    requires ReachesGtest(ObserveAll(before), run) && GtestRunningName(Trim(run)).Some?
    requires forall i | 0 <= i < |between| ::
      KeepsRunning(ObserveMore(Observe(ObserveAll(before), run), between[..i]), between[i], Bounded(GtestRunningName(Trim(run)).value, 512))
    ensures ObserveMore(Observe(ObserveAll(before), run), between).gtestRunning == Some(Bounded(GtestRunningName(Trim(run)).value, 512))
  {
    ObserveIs(ObserveAll(before), run);
    RunningThrough(Observe(ObserveAll(before), run), between, Bounded(GtestRunningName(Trim(run)).value, 512));
  }

  /** The line that ends the running test ends it: until another one starts, failures belong to no known test. */
  lemma GtestEnds(before: seq<string>, raw: string, between: seq<string>)
    requires ReachesGtest(ObserveAll(before), raw) && GtestFailedName(Trim(raw)).Some?
    requires GtestFailedName(Trim(raw)) == ObserveAll(before).gtestRunning
    requires GtestRunningName(Trim(raw)).None? && GtestFailure(Trim(raw)).None?
    requires forall i | 0 <= i < |between| :: GtestRunningName(Trim(between[i])).None?
    ensures ObserveMore(Observe(ObserveAll(before), raw), between).gtestRunning == None
  {
    ObserveIs(ObserveAll(before), raw);
    NoneThrough(Observe(ObserveAll(before), raw), between);
  }

  lemma {:induction false} NoneThrough(acc: Accumulator, between: seq<string>)
    requires acc.gtestRunning == None && forall i | 0 <= i < |between| :: GtestRunningName(Trim(between[i])).None?
    ensures ObserveMore(acc, between).gtestRunning == None
  {
    if between != [] {
      var init, raw := between[..|between| - 1], between[|between| - 1];
      NoneThrough(acc, init);
      NoneKept(ObserveMore(acc, init), raw);
    }
  }

  lemma NoneKept(acc: Accumulator, raw: string)
    requires acc.gtestRunning == None && GtestRunningName(Trim(raw)).None?
    ensures Observe(acc, raw).gtestRunning == None
  {
    ObserveIs(acc, raw);
    if ReachesGtest(acc, raw) {
      var go, line := GoLine(acc, Trim(raw)).acc, Trim(raw);
      ClosingExtends(go);
      RustLineExtends(GtestLine(go, line).acc, line);
    }
  }

  // ---------------------------------------------------------------- names of failed libtest tests

  predicate NamesExtendTo(x: seq<string>, y: seq<string>) {
    x <= y
  }

  lemma ClosingKeepsNames(acc: Accumulator)
    ensures FinishRust(acc).failedNames == acc.failedNames && FinishGtest(acc).failedNames == acc.failedNames
  {
  }

  lemma GtestKeepsNames(acc: Accumulator, line: string)
    ensures GtestLine(acc, line).acc.failedNames == acc.failedNames
  {
    ClosingKeepsNames(acc);
  }

  lemma PanicKeepsNames(acc: Accumulator, panic: Panic)
    ensures RustPanicked(acc, panic).failedNames == acc.failedNames
  {
    ClosingKeepsNames(acc);
  }

  lemma RustAddsNames(acc: Accumulator, line: string)
    ensures RustLine(acc, line).failedNames == RustNamed(acc, line).failedNames
    ensures NamesExtendTo(acc.failedNames, RustLine(acc, line).failedNames)
  {
    var named := RustNamed(acc, line);
    ClosingKeepsNames(named);
    if RustPanic(line).Some? {
      PanicKeepsNames(named, RustPanic(line).value);
    }
  }

  lemma ObserveAddsNames(acc: Accumulator, raw: string)
    ensures NamesExtendTo(acc.failedNames, Observe(acc, raw).failedNames)
  {
    ObserveIs(acc, raw);
    if ReachesGtest(acc, raw) {
      var go := GoLine(acc, Trim(raw)).acc;
      GtestKeepsNames(go, Trim(raw));
      RustAddsNames(GtestLine(go, Trim(raw)).acc, Trim(raw));
    }
  }

  lemma {:induction false} MoreAddsNames(acc: Accumulator, more: seq<string>)
    ensures NamesExtendTo(acc.failedNames, ObserveMore(acc, more).failedNames)
  {
    if more != [] {
      MoreAddsNames(acc, more[..|more| - 1]);
      ObserveAddsNames(ObserveMore(acc, more[..|more| - 1]), more[|more| - 1]);
    }
  }

  predicate AreDifferent(names: seq<string>) {
    forall i, j | 0 <= i < j < |names| :: names[i] != names[j]
  }

  lemma ObserveKeepsDifferent(acc: Accumulator, raw: string)
    requires AreDifferent(acc.failedNames)
    ensures AreDifferent(Observe(acc, raw).failedNames)
  {
    ObserveIs(acc, raw);
    if ReachesGtest(acc, raw) {
      var go := GoLine(acc, Trim(raw)).acc;
      GtestKeepsNames(go, Trim(raw));
      RustAddsNames(GtestLine(go, Trim(raw)).acc, Trim(raw));
    }
  }

  lemma {:induction false} AlwaysDifferent(lines: seq<string>)
    ensures AreDifferent(ObserveAll(lines).failedNames)
  {
    if lines != [] {
      AlwaysDifferent(lines[..|lines| - 1]);
      ObserveKeepsDifferent(ObserveAll(lines[..|lines| - 1]), lines[|lines| - 1]);
    }
  }

  function NamesIn(evidence: seq<Evidence>): set<string> {
    if evidence == [] then {} else NamesIn(evidence[..|evidence| - 1]) + {evidence[|evidence| - 1].name}
  }

  lemma {:induction false} NamesInAre(evidence: seq<Evidence>, name: string)
    ensures name in NamesIn(evidence) <==> HasName(evidence, name)
    ensures |NamesIn(evidence)| <= |evidence|
  {
    if evidence != [] {
      var init := evidence[..|evidence| - 1];
      NamesInAre(init, name);
      if HasName(init, name) {
        var i :| 0 <= i < |init| && init[i].name == name;
        assert evidence[i].name == name;
      }
    }
  }

  // As many failures as different names that have one.
  lemma {:induction false} EnoughForNames(names: seq<string>, evidence: seq<Evidence>)
    requires AreDifferent(names) && forall i | 0 <= i < |names| :: HasName(evidence, names[i])
    ensures |names| <= |evidence|
  {
    var all := set i | 0 <= i < |names| :: names[i];
    NamesCount(names);
    forall name | name in all ensures name in NamesIn(evidence) {
      NamesInAre(evidence, name);
    }
    FewerNames(all, NamesIn(evidence));
    NamesInAre(evidence, "");
  }

  lemma FewerNames(x: set<string>, y: set<string>)
    requires x <= y
    ensures |x| <= |y|
  {
    assert y == x + (y - x);
  }

  lemma {:induction false} NamesCount(names: seq<string>)
    requires AreDifferent(names)
    ensures |set i | 0 <= i < |names| :: names[i]| == |names|
  {
    if names != [] {
      var init, last := names[..|names| - 1], names[|names| - 1];
      NamesCount(init);
      var before, all := set i | 0 <= i < |init| :: init[i], set i | 0 <= i < |names| :: names[i];
      assert all == before + {last} && last !in before;
    }
  }

  // Every name has a failure in the end, unless 20 failures are there.
  lemma {:induction false} NamesAreThere(names: seq<string>, failures: seq<Evidence>, i: nat)
    requires i < |names|
    ensures var e := FinishNames(names, failures); |e| >= MAX_FAILURES || HasName(e, names[i])
  {
    var init := names[..|names| - 1];
    var before, after := FinishNames(init, failures), FinishNames(names, failures);
    if i < |init| {
      NamesAreThere(init, failures, i);
      if |before| < MAX_FAILURES && before != after {
        var k :| 0 <= k < |before| && before[k].name == names[i];
        assert after[k].name == names[i];
      }
    } else if before != after {
      assert after[|before|].name == names[i];
    }
  }

  /** A libtest status line that says a test failed is not lost: its name is among the returned failures, whatever
      follows, unless 20 failures are returned. */
  lemma FailedNameIsReported(before: seq<string>, raw: string, more: seq<string>)
    requires ReachesRust(ObserveAll(before), raw) && RustFailedName(Trim(raw)).Some?
    ensures var e := FinishAll(ObserveMore(Observe(ObserveAll(before), raw), more));
      |e| >= MAX_FAILURES || HasName(e, Bounded(RustFailedName(Trim(raw)).value, 512))
  {
    var acc, line := ObserveAll(before), Trim(raw);
    var next, name := Observe(acc, raw), Bounded(RustFailedName(Trim(raw)).value, 512);
    ObserveIs(acc, raw);
    var go := GoLine(acc, line).acc;
    GtestKeepsNames(go, line);
    GtestLineExtends(go, line);
    GtestIgnoresGo(go, acc, line);
    RustAddsNames(GtestLine(go, line).acc, line);
    assert next.failedNames == PushUnique(acc.failedNames, RustFailedName(line).value, 20, 512);
    AlwaysDifferent(before);
    ObserveKeepsDifferent(acc, raw);
    MoreAddsNames(next, more);
    ReportsNames(next.failedNames, ObserveMore(next, more), name);
  }

  lemma ReportsNames(names: seq<string>, end: Accumulator, name: string)
    requires NamesExtendTo(names, end.failedNames) && AreDifferent(names) && (name in names || |names| >= 20)
    ensures |FinishAll(end)| >= MAX_FAILURES || HasName(FinishAll(end), name)
  {
    var closed := FinishGtest(FinishRust(end));
    ClosingKeepsNames(end);
    ClosingKeepsNames(FinishRust(end));
    var failures := FinishGo(closed.goBlocks, closed.failures);
    forall i | 0 <= i < |names| ensures |FinishAll(end)| >= MAX_FAILURES || HasName(FinishAll(end), names[i]) {
      NamesAreThere(closed.failedNames, failures, i);
    }
    if |FinishAll(end)| < MAX_FAILURES && |names| >= 20 {
      EnoughForNames(names, FinishAll(end));
    }
  }

  /** A failure that is there for its name only says so, and there is no other one of the name before it. */
  lemma {:induction false} SummariesAre(names: seq<string>, failures: seq<Evidence>, i: nat)
    requires |failures| <= i < |FinishNames(names, failures)|
    ensures var e := FinishNames(names, failures);
      e[i].name in names && e[i] == Evidence(e[i].name, "Rust test " + e[i].name + " failed", None) && !HasName(e[..i], e[i].name)
  {
    var init := names[..|names| - 1];
    var before, after := FinishNames(init, failures), FinishNames(names, failures);
    assert names == init + [names[|names| - 1]];
    if i < |before| {
      SummariesAre(init, failures, i);
      assert after[..i] == before[..i];
    } else {
      assert after[..i] == before;
    }
  }
}
