/** What a failed Go test is reported with: the first panic, the best place, the first message and the first
    distinct details said about it between its status line and the next one. */
module GoReports {
  import opened Model
  import opened Utf8
  import opened Text
  import opened Strings
  import opened Sequences
  import opened LineCounts
  import opened TestFailures
  import opened TestFailureLemmas
  import opened TestReports

  // ---------------------------------------------------------------- what lines say about a test

  // A place that counts: the runtime's own frames do not.
  function PlaceOf(line: string): Option<GoPlace> {
    if GoPanicMessage(line).Some? || GoTestLocation(line).None? then None
    else
      var place := GoTestLocation(line).value;
      if place.stackFrame && IsGoRuntimePath(place.location.path) then None else Some(place)
  }

  // A frame outside a test file is second best.
  predicate IsBest(place: GoPlace) {
    !place.stackFrame || EndsWith(place.location.path, "_test.go")
  }

  function FirstPlace(lines: seq<string>, best: bool): Option<Location> {
    if lines == [] then None
    else
      var before, place := FirstPlace(lines[..|lines| - 1], best), PlaceOf(lines[|lines| - 1]);
      if before.None? && place.Some? && IsBest(place.value) == best then Some(place.value.location) else before
  }

  // The first of the best places.
  function BestPlace(b: GoBlock, lines: seq<string>): Option<Location> {
    if b.location.Some? && b.rank == 0 then b.location
    else if FirstPlace(lines, true).Some? then FirstPlace(lines, true)
    else if b.location.Some? then b.location
    else FirstPlace(lines, false)
  }

  function FirstPanic(panic: Option<string>, lines: seq<string>): Option<string> {
    if lines == [] then panic
    else
      var before, message := FirstPanic(panic, lines[..|lines| - 1]), GoPanicMessage(lines[|lines| - 1]);
      if before.None? && message.Some? then Some(Bounded(message.value, 256)) else before
  }

  // A line that is neither a panic nor a place nor written by the framework.
  predicate IsText(line: string) {
    GoPanicMessage(line).None? && GoTestLocation(line).None? && !IsGoNoise(line) && !IsGoFrame(line)
  }

  const SAYS: seq<string> := ["got:", "want:", "expected:", "actual:", "error:", "fatal:", "message:", "messages:", "diff:"]

  predicate BeginsWithOne(line: string, words: seq<string>) {
    exists i :: 0 <= i < |words| && words[i] <= line
  }

  /** Which lines say what was got or wanted, and which the framework writes, by the words they begin with. */
  lemma GoWordsExactly(line: string)
    ensures IsGoAssertion(line) <==> BeginsWithOne(ToLower(line), SAYS)
    ensures IsGoNoise(line) <==>
      || BeginsWithOne(line, ["=== ", "--- ", "goroutine ", "created by "])
      || ToLower(line) == "pass" || ToLower(line) == "fail"
      || BeginsWithOne(ToLower(line), ["ok\t", "?\t", "coverage:", "exit status "])
  {
    OneWord(ToLower(line), SAYS);
    OneWord(line, ["=== ", "--- ", "goroutine ", "created by "]);
    OneWord(ToLower(line), ["ok\t", "?\t", "coverage:", "exit status "]);
  }

  lemma OneWord(line: string, words: seq<string>)
    ensures StartsWithAny(line, words) <==> BeginsWithOne(line, words)
  {
    assert forall i | 0 <= i < |words| :: StartsWith(line, words[i]) <==> words[i] <= line;
  }

  // What is said about a test: behind a place, in a line that says what was got or wanted, and in any other
  // line as long as there is a place but nothing has been said.
  function Said(b: GoBlock, lines: seq<string>): seq<string> {
    if lines == [] then []
    else
      var init, line := lines[..|lines| - 1], lines[|lines| - 1];
      var before := Said(b, init);
      var awaited := BestPlace(b, init).Some? && b.assertion.None? && before == [];
      if PlaceOf(line).Some? && PlaceOf(line).value.message.Some? && PlaceOf(line).value.message.value != ""
      then before + [PlaceOf(line).value.message.value]
      else if IsText(line) && (IsGoAssertion(line) || awaited) then before + [line]
      else before
  }

  function Assertion(b: GoBlock, said: seq<string>): Option<string> {
    if b.assertion.Some? || said == [] then b.assertion else Some(Bounded(said[0], 256))
  }

  // What is said after the assertion, where it says what was got or wanted.
  function More(b: GoBlock, said: seq<string>): seq<string> {
    if said == [] then []
    else
      var init, message := said[..|said| - 1], said[|said| - 1];
      if IsGoAssertion(message) && (b.assertion.Some? || init != []) then More(b, init) + [Bounded(message, 256)] else More(b, init)
  }

  // A block after more lines, in one piece.
  function GoLived(b: GoBlock, lines: seq<string>): GoBlock {
    var place, said := BestPlace(b, lines), Said(b, lines);
    GoBlock(b.name, place,
      if b.location.Some? && b.rank == 0 then 0 else if FirstPlace(lines, true).Some? then 0
      else if b.location.Some? || FirstPlace(lines, false).None? then b.rank else 1,
      Assertion(b, said), FirstPanic(b.panicMessage, lines), AtMost(Distinct(b.details + More(b, said)), 6), b.failed)
  }

  // The message of a Go failure.
  function GoText(b: GoBlock): string {
    var reason := if b.panicMessage.Some? then b.panicMessage else b.assertion;
    Concat(["Go test ", b.name, if b.panicMessage.Some? then " panicked" else " failed"] + PlaceParts(b.location)
      + (if reason.Some? then [": ", reason.value] else []) + DetailParts(b.details))
  }

  lemma GoTextIsMessage(b: GoBlock)
    ensures GoText(b) == GoMessage(b)
  {
    var reason := if b.panicMessage.Some? then b.panicMessage else b.assertion;
    var how := if b.panicMessage.Some? then " panicked" else " failed";
    var name, place, why, details := ["Go test ", b.name, how], PlaceParts(b.location),
      if reason.Some? then [": ", reason.value] else [], DetailParts(b.details);
    ConcatConcat(name + place + why, details);
    ConcatConcat(name + place, why);
    ConcatConcat(name, place);
    ConcatThree("Go test ", b.name, how);
    PlacePartsAreText(b.location);
    DetailPartsAreText(b.details);
    if reason.Some? {
      ConcatTwo(": ", reason.value);
    }
  }

  // ---------------------------------------------------------------- one line after the other

  // A line that is no status line, said while the test is the running or failed one.
  function GoGrown(b: GoBlock, line: string): GoBlock {
    if GoPanicMessage(line).Some? then WithPanic(b, GoPanicMessage(line).value)
    else if GoTestLocation(line).Some? then
      match PlaceOf(line) case None => b case Some(place) => WithPlaceAndMessage(b, place)
    else if IsText(line) && (IsGoAssertion(line) || (b.location.Some? && b.assertion.None?)) then WithMessage(b, line)
    else b
  }

  // What a block holds: a rank tells whether its place is one of the best, and details are few and distinct.
  predicate IsGoBlock(b: GoBlock) {
    (b.location.Some? ==> b.rank <= 1) && (b.location.None? ==> b.rank == NO_RANK) && |b.details| <= 6 && Distinct(b.details) == b.details
  }

  lemma DistinctSnoc(values: seq<string>, v: string)
    ensures Distinct(values + [v]) == if v in Distinct(values) then Distinct(values) else Distinct(values) + [v]
  {
    InitOfAppend(values, v);
  }

  lemma PushIsDistinct(values: seq<string>, v: string)
    ensures PushUnique(AtMost(Distinct(values), 6), v, 6, 256) == AtMost(Distinct(values + [Bounded(v, 256)]), 6)
  {
    DistinctSnoc(values, Bounded(v, 256));
    if |Distinct(values)| <= 6 {
      assert AtMost(Distinct(values), 6) == Distinct(values);
    }
  }

  lemma MoreSnoc(b: GoBlock, said: seq<string>, message: string)
    ensures More(b, said + [message]) ==
      if IsGoAssertion(message) && (b.assertion.Some? || said != []) then More(b, said) + [Bounded(message, 256)] else More(b, said)
  {
    InitOfAppend(said, message);
  }

  lemma AssertionSnoc(b: GoBlock, said: seq<string>, message: string)
    ensures Assertion(b, said + [message]) == if Assertion(b, said).Some? then Assertion(b, said) else Some(Bounded(message, 256))
    ensures Assertion(b, said).Some? <==> b.assertion.Some? || said != []
  {
  }

  // A message becomes the assertion or one of the details.
  lemma MessageSaid(b: GoBlock, before: GoBlock, said: seq<string>, message: string)
    requires before.assertion == Assertion(b, said) && before.details == AtMost(Distinct(b.details + More(b, said)), 6)
    ensures WithMessage(before, message) ==
      before.(assertion := Assertion(b, said + [message]), details := AtMost(Distinct(b.details + More(b, said + [message])), 6))
  {
    AssertionSnoc(b, said, message);
    MoreSnoc(b, said, message);
    if before.assertion.Some? && IsGoAssertion(message) {
      PushIsDistinct(b.details + More(b, said), message);
      AppendAssociates(b.details, More(b, said), [Bounded(message, 256)]);
    }
  }

  lemma SaidSnoc(b: GoBlock, lines: seq<string>, line: string)
    ensures var before := Said(b, lines);
      var awaited := BestPlace(b, lines).Some? && b.assertion.None? && before == [];
      Said(b, lines + [line]) ==
        if PlaceOf(line).Some? && PlaceOf(line).value.message.Some? && PlaceOf(line).value.message.value != ""
        then before + [PlaceOf(line).value.message.value]
        else if IsText(line) && (IsGoAssertion(line) || awaited) then before + [line]
        else before
  {
    InitOfAppend(lines, line);
  }

  lemma FirstSnoc(lines: seq<string>, line: string, best: bool)
    ensures FirstPlace(lines + [line], best) ==
      if FirstPlace(lines, best).None? && PlaceOf(line).Some? && IsBest(PlaceOf(line).value) == best
      then Some(PlaceOf(line).value.location) else FirstPlace(lines, best)
  {
    InitOfAppend(lines, line);
  }

  lemma PanicSnoc(panic: Option<string>, lines: seq<string>, line: string)
    ensures FirstPanic(panic, lines + [line]) ==
      if FirstPanic(panic, lines).None? && GoPanicMessage(line).Some? then Some(Bounded(GoPanicMessage(line).value, 256))
      else FirstPanic(panic, lines)
  {
    InitOfAppend(lines, line);
  }

  // One more place.
  lemma PlaceLived(b: GoBlock, lines: seq<string>, line: string, place: GoPlace)
    requires IsGoBlock(b) && PlaceOf(line) == Some(place)
    ensures var before, after := GoLived(b, lines), GoLived(b, lines + [line]);
      WithPlace(before, place) == before.(location := after.location, rank := after.rank)
  {
    FirstSnoc(lines, line, true);
    FirstSnoc(lines, line, false);
  }

  lemma PlaceKept(b: GoBlock, lines: seq<string>, line: string)
    requires PlaceOf(line).None?
    ensures var before, after := GoLived(b, lines), GoLived(b, lines + [line]);
      before.location == after.location && before.rank == after.rank
  {
    FirstSnoc(lines, line, true);
    FirstSnoc(lines, line, false);
  }

  // What a line leaves as it is, by kind of line.
  lemma PanicGrows(b: GoBlock, lines: seq<string>, line: string)
    requires GoPanicMessage(line).Some?
    ensures GoLived(b, lines + [line]) == WithPanic(GoLived(b, lines), GoPanicMessage(line).value)
  {
    SaidSnoc(b, lines, line);
    PanicSnoc(b.panicMessage, lines, line);
    PlaceKept(b, lines, line);
  }

  lemma PlaceGrows(b: GoBlock, lines: seq<string>, line: string, place: GoPlace)
    requires IsGoBlock(b) && PlaceOf(line) == Some(place)
    ensures GoLived(b, lines + [line]) == WithPlaceAndMessage(GoLived(b, lines), place)
  {
    var before, said := GoLived(b, lines), Said(b, lines);
    SaidSnoc(b, lines, line);
    PanicSnoc(b.panicMessage, lines, line);
    PlaceLived(b, lines, line, place);
    if place.message.Some? && place.message.value != "" {
      MessageSaid(b, WithPlace(before, place), said, place.message.value);
    }
  }

  lemma TextGrows(b: GoBlock, lines: seq<string>, line: string)
    requires PlaceOf(line).None? && GoPanicMessage(line).None?
    ensures var before := GoLived(b, lines);
      GoLived(b, lines + [line]) ==
        if IsText(line) && (IsGoAssertion(line) || (before.location.Some? && before.assertion.None?))
        then WithMessage(before, line) else before
  {
    var before, said := GoLived(b, lines), Said(b, lines);
    SaidSnoc(b, lines, line);
    PanicSnoc(b.panicMessage, lines, line);
    PlaceKept(b, lines, line);
    AssertionSnoc(b, said, line);
    if Said(b, lines + [line]) != said {
      MessageSaid(b, before, said, line);
    }
  }

  lemma LivedGrows(b: GoBlock, lines: seq<string>, line: string)
    requires IsGoBlock(b)
    ensures GoLived(b, lines + [line]) == GoGrown(GoLived(b, lines), line)
  {
    if GoPanicMessage(line).Some? {
      PanicGrows(b, lines, line);
    } else if PlaceOf(line).Some? {
      PlaceGrows(b, lines, line, PlaceOf(line).value);
    } else {
      TextGrows(b, lines, line);
    }
  }

  lemma LivedNothingYet(b: GoBlock)
    requires IsGoBlock(b)
    ensures GoLived(b, []) == b
  {
    AppendNothing(b.details);
  }

  // ---------------------------------------------------------------- what blocks keep

  // Names are bounded, and of the blocks of a test only the last one may be open.
  predicate AreGoBlocks(blocks: seq<GoBlock>) {
    (forall i | 0 <= i < |blocks| :: IsGoBlock(blocks[i]) && Bounded(blocks[i].name, 512) == blocks[i].name) &&
    forall i, j | 0 <= i < j < |blocks| && blocks[i].name == blocks[j].name :: blocks[i].failed
  }

  predicate IsBounded(name: Option<string>) {
    name.Some? ==> Bounded(name.value, 512) == name.value
  }

  // What an accumulator keeps about Go tests.
  predicate KeepsGo(acc: Accumulator) {
    AreGoBlocks(acc.goBlocks) && IsBounded(acc.goRunning) && IsBounded(acc.goPanic)
  }

  lemma LastBlockIs(blocks: seq<GoBlock>, name: string, includeFailed: bool)
    ensures match LastBlock(blocks, name, includeFailed)
      case None => forall i | 0 <= i < |blocks| :: blocks[i].name == name ==> !includeFailed && blocks[i].failed
      case Some(k) => blocks[k].name == name && (includeFailed || !blocks[k].failed)
  {
    if blocks != [] && !(blocks[|blocks| - 1].name == name && (includeFailed || !blocks[|blocks| - 1].failed)) {
      var init := blocks[..|blocks| - 1];
      LastBlockIs(init, name, includeFailed);
    }
  }

  lemma SnocKeepsGo(blocks: seq<GoBlock>, last: GoBlock)
    requires AreGoBlocks(blocks) && IsGoBlock(last) && Bounded(last.name, 512) == last.name
    requires forall i | 0 <= i < |blocks| :: blocks[i].name == last.name ==> blocks[i].failed
    ensures AreGoBlocks(blocks + [last])
  {
    var more := blocks + [last];
    forall i, j | 0 <= i < j < |more| && more[i].name == more[j].name ensures more[i].failed {
      assert more[i] == blocks[i];
    }
  }

  lemma InitKeepsGo(blocks: seq<GoBlock>)
    requires AreGoBlocks(blocks) && blocks != []
    ensures var last := blocks[|blocks| - 1];
      && AreGoBlocks(blocks[..|blocks| - 1]) && IsGoBlock(last) && Bounded(last.name, 512) == last.name
      && forall b | b in blocks[..|blocks| - 1] && b.name == last.name :: b.failed
  {
  }

  lemma {:induction false} CompactKeepsGo(blocks: seq<GoBlock>)
    requires AreGoBlocks(blocks)
    ensures AreGoBlocks(Compact(blocks))
  {
    if blocks != [] {
      var init, last := blocks[..|blocks| - 1], blocks[|blocks| - 1];
      InitKeepsGo(blocks);
      CompactKeepsGo(init);
      var before := Compact(init);
      forall i | 0 <= i < |before| && before[i].name == last.name ensures before[i].failed {
        CompactMembers(init, before[i]);
      }
      SnocKeepsGo(before, last);
    }
  }

  lemma PushKeepsGo(blocks: seq<GoBlock>, name: string)
    requires AreGoBlocks(blocks) && Bounded(name, 512) == name
    requires forall i | 0 <= i < |blocks| :: blocks[i].name == name ==> blocks[i].failed
    ensures AreGoBlocks(blocks + [NewGoBlock(name)])
  {
    SnocKeepsGo(blocks, NewGoBlock(name));
  }

  lemma FindKeepsGo(blocks: seq<GoBlock>, name: string, includeFailed: bool)
    requires AreGoBlocks(blocks) && Bounded(name, 512) == name
    ensures var found := FindOrPush(blocks, name, includeFailed);
      && AreGoBlocks(found.blocks)
      && (found.index.Some? ==> found.blocks[found.index.value].name == name)
  {
    LastBlockIs(blocks, name, includeFailed);
    CompactKeepsGo(blocks);
    if LastBlock(blocks, name, includeFailed).None? {
      var room := if |blocks| >= MAX_GO_BLOCKS then Compact(blocks) else blocks;
      forall i | 0 <= i < |room| && room[i].name == name ensures room[i].failed {
        CompactMembers(blocks, room[i]);
        var n :| 0 <= n < |blocks| && blocks[n] == room[i];
      }
      PushKeepsGo(room, name);
    }
  }

  lemma ChangeKeepsGo(blocks: seq<GoBlock>, k: nat, b: GoBlock)
    requires AreGoBlocks(blocks) && k < |blocks| && IsGoBlock(b) && b.name == blocks[k].name && (blocks[k].failed ==> b.failed)
    ensures AreGoBlocks(blocks[k := b])
  {
    var next := blocks[k := b];
    forall i, j | 0 <= i < j < |next| && next[i].name == next[j].name ensures next[i].failed {
      assert blocks[i].name == blocks[j].name;
    }
  }

  lemma PushUniqueKeeps(values: seq<string>, v: string)
    requires |values| <= 6 && Distinct(values) == values
    ensures var after := PushUnique(values, v, 6, 256); |after| <= 6 && Distinct(after) == after
  {
    DistinctSnoc(values, Bounded(v, 256));
  }

  lemma MessageKeepsGo(b: GoBlock, message: string)
    requires IsGoBlock(b)
    ensures IsGoBlock(WithMessage(b, message))
  {
    PushUniqueKeeps(b.details, message);
  }

  lemma PlaceKeepsGo(b: GoBlock, place: GoPlace)
    requires IsGoBlock(b)
    ensures IsGoBlock(WithPlaceAndMessage(b, place))
  {
    if place.message.Some? {
      MessageKeepsGo(WithPlace(b, place), place.message.value);
    }
  }

  lemma GoLineKeepsGo(acc: Accumulator, line: string)
    requires KeepsGo(acc)
    ensures KeepsGo(GoLine(acc, line).acc)
  {
    if GoContext(acc).Some? {
      var name := GoContext(acc).value;
      if GoPanicMessage(line).Some? {
        FindKeepsGo(acc.goBlocks, name, true);
        var found := FindOrPush(acc.goBlocks, name, true);
        if found.index.Some? {
          var k := found.index.value;
          ChangeKeepsGo(found.blocks, k, WithPanic(found.blocks[k], GoPanicMessage(line).value));
        }
      } else {
        FindKeepsGo(acc.goBlocks, name, acc.goPanic.Some?);
        var found := FindOrPush(acc.goBlocks, name, acc.goPanic.Some?);
        if found.index.Some? {
          var k := found.index.value;
          if GoTestLocation(line).Some? {
            PlaceKeepsGo(found.blocks[k], GoTestLocation(line).value);
            ChangeKeepsGo(found.blocks, k, WithPlaceAndMessage(found.blocks[k], GoTestLocation(line).value));
          } else {
            MessageKeepsGo(found.blocks[k], line);
            ChangeKeepsGo(found.blocks, k, WithMessage(found.blocks[k], line));
          }
        }
      }
    }
  }

  // GoogleTest and libtest leave Go alone.
  predicate SameGo(x: Accumulator, y: Accumulator) {
    x.goBlocks == y.goBlocks && x.goRunning == y.goRunning && x.goPanic == y.goPanic
  }

  lemma RustLeavesGo(acc: Accumulator, line: string)
    ensures SameGo(RustLine(acc, line), acc)
  {
    var named := RustNamed(acc, line);
    assert SameGo(named, acc) && SameGo(FinishRust(named), named);
  }

  lemma GtestLeavesGo(acc: Accumulator, line: string)
    ensures SameGo(GtestLine(acc, line).acc, acc)
  {
    assert SameGo(FinishGtest(acc), acc);
  }

  // Every other line is Go's to take.
  lemma QuietLine(acc: Accumulator, raw: string)
    requires Trim(raw) != "" && !IsGoStatus(acc, Trim(raw))
    ensures SameGo(Observe(acc, raw), GoLine(acc, Trim(raw)).acc)
  {
    var go, line := GoLine(acc, Trim(raw)).acc, Trim(raw);
    GtestLeavesGo(go, line);
    RustLeavesGo(GtestLine(go, line).acc, line);
  }

  lemma FailedKeepsGo(acc: Accumulator, rawName: string)
    requires KeepsGo(acc)
    ensures KeepsGo(GoFailed(acc, rawName))
  {
    var name := Bounded(rawName, 512);
    BoundedTwice(rawName, 512);
    FindKeepsGo(acc.goBlocks, name, false);
    var found := FindOrPush(acc.goBlocks, name, false);
    if found.index.Some? {
      var k := found.index.value;
      ChangeKeepsGo(found.blocks, k, found.blocks[k].(failed := true));
    }
  }

  lemma ObserveKeepsGo(acc: Accumulator, raw: string)
    requires KeepsGo(acc)
    ensures KeepsGo(Observe(acc, raw))
  {
    var line := Trim(raw);
    if line != "" {
      if GoRunningName(line).Some? {
        CompactKeepsGo(acc.goBlocks);
        BoundedTwice(GoRunningName(line).value, 512);
      } else if GoFailedName(line).Some? {
        FailedKeepsGo(acc, GoFailedName(line).value);
      } else if !IsGoStatus(acc, line) {
        GoLineKeepsGo(acc, line);
        QuietLine(acc, raw);
      }
    }
  }

  lemma {:induction false} AlwaysKeepsGo(lines: seq<string>)
    ensures KeepsGo(ObserveAll(lines))
  {
    if lines != [] {
      AlwaysKeepsGo(lines[..|lines| - 1]);
      ObserveKeepsGo(ObserveAll(lines[..|lines| - 1]), lines[|lines| - 1]);
    }
  }

  // ---------------------------------------------------------------- a failed test until the next status line

  // No line says that a Go test starts or ends.
  predicate IsQuiet(raw: string) {
    GoRunningName(Trim(raw)).None? && GoFailedName(Trim(raw)).None? && !IsGoNonfailure(Trim(raw))
  }

  function TrimmedLines(lines: seq<string>): seq<string> {
    if lines == [] then []
    else
      var before, line := TrimmedLines(lines[..|lines| - 1]), Trim(lines[|lines| - 1]);
      if line == "" then before else before + [line]
  }

  // The k-th block is that of the failed test, and has grown by what was said since.
  predicate TracksGo(acc: Accumulator, name: string, k: nat, b: GoBlock, lines: seq<string>) {
    && acc.goPanic == Some(name) && acc.goRunning == Some(name) && LastBlock(acc.goBlocks, name, true) == Some(k)
    && k < |acc.goBlocks| && acc.goBlocks[k] == GoLived(b, lines)
  }

  lemma {:induction false} LastKept(blocks: seq<GoBlock>, name: string, k: nat, b: GoBlock)
    requires LastBlock(blocks, name, true) == Some(k) && b.name == name
    ensures LastBlock(blocks[k := b], name, true) == Some(k)
  {
    if k < |blocks| - 1 {
      var init := blocks[..|blocks| - 1];
      LastKept(init, name, k, b);
      assert blocks[k := b][..|blocks| - 1] == init[k := b];
    }
  }

  lemma GrownKeepsName(b: GoBlock, line: string)
    ensures GoGrown(b, line).name == b.name && GoGrown(b, line).failed == b.failed
  {
  }

  lemma GoLineGrows(acc: Accumulator, line: string, name: string, k: nat)
    requires acc.goPanic == Some(name) && LastBlock(acc.goBlocks, name, true) == Some(k)
    ensures GoLine(acc, line).acc == acc.(goBlocks := acc.goBlocks[k := GoGrown(acc.goBlocks[k], line)])
  {
    assert acc.goBlocks[k := acc.goBlocks[k]] == acc.goBlocks;
  }

  lemma QuietTracksGo(acc: Accumulator, name: string, k: nat, b: GoBlock, lines: seq<string>, raw: string)
    requires TracksGo(acc, name, k, b, lines) && IsGoBlock(b) && b.name == name && IsQuiet(raw) && Trim(raw) != ""
    ensures TracksGo(Observe(acc, raw), name, k, b, lines + [Trim(raw)])
  {
    var line := Trim(raw);
    QuietLine(acc, raw);
    GoLineGrows(acc, line, name, k);
    LivedGrows(b, lines, line);
    GrownKeepsName(acc.goBlocks[k], line);
    LastKept(acc.goBlocks, name, k, GoGrown(acc.goBlocks[k], line));
  }

  lemma {:induction false} LifeTracksGo(acc: Accumulator, name: string, k: nat, b: GoBlock, life: seq<string>)
    requires TracksGo(acc, name, k, b, []) && IsGoBlock(b) && b.name == name
    requires forall i | 0 <= i < |life| :: IsQuiet(life[i])
    ensures TracksGo(ObserveMore(acc, life), name, k, b, TrimmedLines(life))
  {
    if life != [] {
      var init, raw := life[..|life| - 1], life[|life| - 1];
      LifeTracksGo(acc, name, k, b, init);
      if Trim(raw) != "" {
        QuietTracksGo(ObserveMore(acc, init), name, k, b, TrimmedLines(init), raw);
      }
    }
  }

  // ---------------------------------------------------------------- from the next status line on

  // The line does not name the test as running or failed.
  predicate NamesOther(raw: string, name: string) {
    var line := Trim(raw);
    && (GoRunningName(line).Some? ==> Bounded(GoRunningName(line).value, 512) != name)
    && (GoFailedName(line).Some? ==> Bounded(GoFailedName(line).value, 512) != name)
  }

  // Another test is running or failed, or none, and the block is there.
  predicate HasBlock(acc: Accumulator, b: GoBlock) {
    acc.goRunning != Some(b.name) && acc.goPanic != Some(b.name) && b in acc.goBlocks && b.failed
  }

  lemma FoundHasBlock(blocks: seq<GoBlock>, name: string, includeFailed: bool, b: GoBlock, next: GoBlock)
    requires b in blocks && AreGoBlocks(blocks) && Bounded(name, 512) == name && b.name != name
    ensures var found := FindOrPush(blocks, name, includeFailed);
      b in found.blocks && (found.index.Some? ==> b in found.blocks[found.index.value := next])
  {
    CompactMembers(blocks, b);
    FindKeepsGo(blocks, name, includeFailed);
    var found := FindOrPush(blocks, name, includeFailed);
    var room := if |blocks| >= MAX_GO_BLOCKS then Compact(blocks) else blocks;
    var n :| 0 <= n < |room| && room[n] == b;
    assert (room + [NewGoBlock(name)])[n] == b;
    var i :| 0 <= i < |found.blocks| && found.blocks[i] == b;
    if found.index.Some? {
      assert found.blocks[found.index.value := next][i] == b;
    }
  }

  lemma GoLineHasBlock(acc: Accumulator, line: string, b: GoBlock)
    requires HasBlock(acc, b) && KeepsGo(acc)
    ensures HasBlock(GoLine(acc, line).acc, b)
  {
    if GoContext(acc).Some? {
      var name := GoContext(acc).value;
      if GoPanicMessage(line).Some? {
        var found := FindOrPush(acc.goBlocks, name, true);
        FoundHasBlock(acc.goBlocks, name, true, b,
          if found.index.Some? then WithPanic(found.blocks[found.index.value], GoPanicMessage(line).value) else b);
      } else {
        var found := FindOrPush(acc.goBlocks, name, acc.goPanic.Some?);
        FoundHasBlock(acc.goBlocks, name, acc.goPanic.Some?, b,
          if found.index.None? then b
          else if GoTestLocation(line).Some? then WithPlaceAndMessage(found.blocks[found.index.value], GoTestLocation(line).value)
          else WithMessage(found.blocks[found.index.value], line));
      }
    }
  }

  lemma StatusHasBlock(acc: Accumulator, raw: string, b: GoBlock)
    requires b in acc.goBlocks && b.failed && KeepsGo(acc) && IsGoStatus(acc, Trim(raw)) && NamesOther(raw, b.name)
    ensures HasBlock(Observe(acc, raw), b)
  {
    var line := Trim(raw);
    if GoRunningName(line).Some? {
      CompactMembers(acc.goBlocks, b);
    } else if GoFailedName(line).Some? {
      var name := Bounded(GoFailedName(line).value, 512);
      BoundedTwice(GoFailedName(line).value, 512);
      var found := FindOrPush(acc.goBlocks, name, false);
      FoundHasBlock(acc.goBlocks, name, false, b,
        if found.index.Some? then found.blocks[found.index.value].(failed := true) else b);
    }
  }

  lemma ObserveHasBlock(acc: Accumulator, raw: string, b: GoBlock)
    requires HasBlock(acc, b) && KeepsGo(acc) && NamesOther(raw, b.name)
    ensures HasBlock(Observe(acc, raw), b)
  {
    if IsGoStatus(acc, Trim(raw)) && Trim(raw) != "" {
      StatusHasBlock(acc, raw, b);
    } else if Trim(raw) != "" {
      GoLineHasBlock(acc, Trim(raw), b);
      QuietLine(acc, raw);
    }
  }

  lemma {:induction false} MoreHasBlock(acc: Accumulator, rest: seq<string>, b: GoBlock)
    requires HasBlock(acc, b) && KeepsGo(acc) && forall i | 0 <= i < |rest| :: NamesOther(rest[i], b.name)
    ensures HasBlock(ObserveMore(acc, rest), b)
  {
    if rest != [] {
      MoreHasBlock(acc, rest[..|rest| - 1], b);
      MoreKeepsGo(acc, rest[..|rest| - 1]);
      ObserveHasBlock(ObserveMore(acc, rest[..|rest| - 1]), rest[|rest| - 1], b);
    }
  }

  lemma {:induction false} MoreKeepsGo(acc: Accumulator, lines: seq<string>)
    requires KeepsGo(acc)
    ensures KeepsGo(ObserveMore(acc, lines))
  {
    if lines != [] {
      MoreKeepsGo(acc, lines[..|lines| - 1]);
      ObserveKeepsGo(ObserveMore(acc, lines[..|lines| - 1]), lines[|lines| - 1]);
    }
  }

  // ---------------------------------------------------------------- the evidence

  // The evidence of a failed Go block.
  function GoEvidenceOf(b: GoBlock): Evidence {
    Evidence(b.name, Bounded(GoText(b), 1000), b.location)
  }

  lemma BlockIsThere(acc: Accumulator, b: GoBlock)
    requires b in acc.goBlocks && b.failed
    ensures IsThere(GoEvidenceOf(b), FinishAll(acc))
  {
    GoTextIsMessage(b);
    var closed := FinishGtest(FinishRust(acc));
    FailedIsReported(closed.goBlocks, closed.failures, b);
    var reported := FinishGo(closed.goBlocks, closed.failures);
    NamesExtend(closed.failedNames, reported);
    StaysThere(GoEvidence(b), reported, FinishAll(acc));
  }

  // The block that a status line marks as failed: the open one of the test, or a new one.
  function FailedBlock(blocks: seq<GoBlock>, name: string): GoBlock {
    match LastBlock(blocks, name, false)
    case Some(k) => blocks[k].(failed := true)
    case None => GoBlock(name, None, 255, None, None, [], true)
  }

  lemma StatusTracksGo(acc: Accumulator, rawName: string) returns (k: nat)
    requires KeepsGo(acc) && HasRoom(acc.goBlocks, Bounded(rawName, 512))
    ensures var name := Bounded(rawName, 512);
      var b := FailedBlock(acc.goBlocks, name);
      TracksGo(GoFailed(acc, rawName), name, k, b, []) && IsGoBlock(b) && b.name == name && b.failed
  {
    var name := Bounded(rawName, 512);
    BoundedTwice(rawName, 512);
    RoomExactly(acc.goBlocks, name);
    FindKeepsGo(acc.goBlocks, name, false);
    LastBlockIs(acc.goBlocks, name, false);
    var found := FindOrPush(acc.goBlocks, name, false);
    k := found.index.value;
    LastOfAll(found.blocks, name, k);
    LastKept(found.blocks, name, k, found.blocks[k].(failed := true));
    LivedNothingYet(FailedBlock(acc.goBlocks, name));
  }

  // An open block is the last one of its test.
  lemma LastOfAll(blocks: seq<GoBlock>, name: string, k: nat)
    requires AreGoBlocks(blocks) && k < |blocks| && blocks[k].name == name && !blocks[k].failed
    ensures LastBlock(blocks, name, true) == Some(k)
  {
    LastBlockLast(blocks, name);
    LastBlockIs(blocks, name, true);
  }

  lemma {:induction false} LastBlockLast(blocks: seq<GoBlock>, name: string)
    ensures match LastBlock(blocks, name, true)
      case None => true
      case Some(k) => forall i | k < i < |blocks| :: blocks[i].name != name
  {
    if blocks != [] && blocks[|blocks| - 1].name != name {
      LastBlockLast(blocks[..|blocks| - 1], name);
    }
  }

  /** A failed Go test is reported with what was said about it, unless 20 failures are: let its status line find
      room for it, let lines follow that say nothing about tests that start or end, and then, if anything,
      the next status line and others that do not name the test again. Among the returned failures there is
      one with its name and the first of the best places, the first panic or else the first thing said, and
      the first six details. */
  lemma GoFailureIsReported(before: seq<string>, status: string, life: seq<string>, rest: seq<string>)
    requires GoRunningName(Trim(status)).None? && GoFailedName(Trim(status)).Some?
    requires HasRoom(ObserveAll(before).goBlocks, Bounded(GoFailedName(Trim(status)).value, 512))
    requires forall i | 0 <= i < |life| :: IsQuiet(life[i])
    requires rest != [] ==> !IsQuiet(rest[0])
    requires forall i | 0 <= i < |rest| :: NamesOther(rest[i], Bounded(GoFailedName(Trim(status)).value, 512))
    ensures var b := FailedBlock(ObserveAll(before).goBlocks, Bounded(GoFailedName(Trim(status)).value, 512));
      IsThere(GoEvidenceOf(GoLived(b, TrimmedLines(life))),
        FinishAll(ObserveMore(ObserveMore(Observe(ObserveAll(before), status), life), rest)))
  {
    var acc, rawName := ObserveAll(before), GoFailedName(Trim(status)).value;
    AlwaysKeepsGo(before);
    ObserveKeepsGo(acc, status);
    var k := StatusTracksGo(acc, rawName);
    StatusIsFailed(acc, status);
    FailureStays(Observe(acc, status), k, FailedBlock(acc.goBlocks, Bounded(rawName, 512)), life, rest);
  }

  lemma StatusIsFailed(acc: Accumulator, status: string)
    requires GoRunningName(Trim(status)).None? && GoFailedName(Trim(status)).Some?
    ensures Observe(acc, status) == GoFailed(acc, GoFailedName(Trim(status)).value)
  {
    assert "--- FAIL:" <= Trim(status);
  }

  lemma FailureStays(failed: Accumulator, k: nat, b: GoBlock, life: seq<string>, rest: seq<string>)
    requires KeepsGo(failed) && TracksGo(failed, b.name, k, b, []) && IsGoBlock(b) && b.failed
    requires forall i | 0 <= i < |life| :: IsQuiet(life[i])
    requires rest != [] ==> !IsQuiet(rest[0])
    requires forall i | 0 <= i < |rest| :: NamesOther(rest[i], b.name)
    ensures IsThere(GoEvidenceOf(GoLived(b, TrimmedLines(life))), FinishAll(ObserveMore(ObserveMore(failed, life), rest)))
  {
    var told, lived := ObserveMore(failed, life), GoLived(b, TrimmedLines(life));
    LifeTracksGo(failed, b.name, k, b, life);
    MoreKeepsGo(failed, life);
    RestHasBlock(told, rest, lived);
    BlockIsThere(ObserveMore(told, rest), lived);
  }

  lemma RestHasBlock(told: Accumulator, rest: seq<string>, lived: GoBlock)
    requires lived in told.goBlocks && lived.failed && KeepsGo(told) && told.goPanic == Some(lived.name) == told.goRunning
    requires rest != [] ==> !IsQuiet(rest[0])
    requires forall i | 0 <= i < |rest| :: NamesOther(rest[i], lived.name)
    ensures lived in ObserveMore(told, rest).goBlocks
  {
    if rest != [] {
      StatusHasBlock(told, rest[0], lived);
      ObserveKeepsGo(told, rest[0]);
      FirstOfMore(told, rest);
      MoreHasBlock(Observe(told, rest[0]), rest[1..], lived);
    }
  }

  lemma {:induction false} FirstOfMore(acc: Accumulator, lines: seq<string>)
    requires lines != []
    ensures ObserveMore(acc, lines) == ObserveMore(Observe(acc, lines[0]), lines[1..])
  {
    if |lines| > 1 {
      FirstOfMore(acc, lines[..|lines| - 1]);
      assert lines[..|lines| - 1][1..] == lines[1..][..|lines| - 2];
      assert lines[1..][|lines| - 2] == lines[|lines| - 1];
    } else {
      assert lines[..0] == [] && lines[1..] == [];
    }
  }

  // ---------------------------------------------------------------- from the start of a test on

  predicate NotNamed(blocks: seq<GoBlock>, name: string) {
    forall i | 0 <= i < |blocks| :: blocks[i].name != name
  }

  function NewBlock(name: string): GoBlock {
    GoBlock(name, None, 255, None, None, [], false)
  }

  // The running test has no block as long as nothing was said about it, and then one block, with all that was said.
  predicate Collects(acc: Accumulator, name: string, lines: seq<string>) {
    && acc.goRunning == Some(name) && (acc.goPanic == None || acc.goPanic == Some(name))
    && if NotNamed(acc.goBlocks, name)
       then acc.goPanic == None && |acc.goBlocks| < MAX_GO_BLOCKS && GoLived(NewBlock(name), lines) == NewBlock(name)
       else HasOnly(acc.goBlocks, name, GoLived(NewBlock(name), lines))
  }

  // Exactly one block has the name.
  predicate HasOnly(blocks: seq<GoBlock>, name: string, b: GoBlock) {
    exists k :: 0 <= k < |blocks| && blocks[k] == b && b.name == name && !b.failed && forall i | 0 <= i < |blocks| && i != k :: blocks[i].name != name
  }

  lemma {:induction false} OnlyIsLast(blocks: seq<GoBlock>, name: string, k: nat, includeFailed: bool)
    requires k < |blocks| && blocks[k].name == name && !blocks[k].failed
    requires forall i | 0 <= i < |blocks| && i != k :: blocks[i].name != name
    ensures LastBlock(blocks, name, includeFailed) == Some(k)
  {
    if k < |blocks| - 1 {
      OnlyIsLast(blocks[..|blocks| - 1], name, k, includeFailed);
    }
  }

  lemma {:induction false} NoneIsLast(blocks: seq<GoBlock>, name: string, includeFailed: bool)
    requires NotNamed(blocks, name)
    ensures LastBlock(blocks, name, includeFailed) == None
  {
    if blocks != [] {
      NoneIsLast(blocks[..|blocks| - 1], name, includeFailed);
    }
  }

  // What a line makes of the one block of the running test.
  lemma LineOnBlock(acc: Accumulator, line: string, name: string, k: nat)
    requires acc.goRunning == Some(name) && (acc.goPanic == None || acc.goPanic == Some(name))
    requires LastBlock(acc.goBlocks, name, true) == Some(k) && LastBlock(acc.goBlocks, name, false) == Some(k)
    ensures var next := GoLine(acc, line).acc;
      && next.goBlocks == acc.goBlocks[k := GoGrown(acc.goBlocks[k], line)]
      && next.goRunning == Some(name) && (next.goPanic == None || next.goPanic == Some(name))
  {
    assert acc.goBlocks[k := acc.goBlocks[k]] == acc.goBlocks;
  }

  lemma PushedWithoutBlock(blocks: seq<GoBlock>, name: string, includeFailed: bool)
    requires |blocks| < MAX_GO_BLOCKS && Bounded(name, 512) == name && LastBlock(blocks, name, includeFailed) == None
    ensures FindOrPush(blocks, name, includeFailed) == Found(blocks + [NewBlock(name)], Some(|blocks|))
  {
  }

  // And where it has none.
  lemma LineWithoutBlock(acc: Accumulator, line: string, name: string)
    requires acc.goRunning == Some(name) && acc.goPanic == None && |acc.goBlocks| < MAX_GO_BLOCKS && Bounded(name, 512) == name
    requires LastBlock(acc.goBlocks, name, true) == None && LastBlock(acc.goBlocks, name, false) == None
    ensures var next := GoLine(acc, line).acc;
      && next.goRunning == Some(name) && (next.goPanic == None || next.goPanic == Some(name))
      && (GoGrown(NewBlock(name), line) == NewBlock(name) ==> next.goBlocks == acc.goBlocks && next.goPanic == None)
      && (GoGrown(NewBlock(name), line) != NewBlock(name) ==> next.goBlocks == acc.goBlocks + [GoGrown(NewBlock(name), line)])
  {
    PushedWithoutBlock(acc.goBlocks, name, true);
    PushedWithoutBlock(acc.goBlocks, name, false);
    UpdateAppended(acc.goBlocks, NewBlock(name), GoGrown(NewBlock(name), line));
  }

  lemma LineCollects(acc: Accumulator, line: string, name: string, lines: seq<string>)
    requires Collects(acc, name, lines) && Bounded(name, 512) == name
    ensures Collects(GoLine(acc, line).acc, name, lines + [line])
  {
    assert Distinct([]) == [];
    LivedGrows(NewBlock(name), lines, line);
    GrownKeepsName(GoLived(NewBlock(name), lines), line);
    if NotNamed(acc.goBlocks, name) {
      NoneIsLast(acc.goBlocks, name, true);
      NoneIsLast(acc.goBlocks, name, false);
      LineWithoutBlock(acc, line, name);
      if GoGrown(NewBlock(name), line) != NewBlock(name) {
        OnlyAppended(acc.goBlocks, name, GoGrown(NewBlock(name), line));
      }
    } else {
      var b := GoLived(NewBlock(name), lines);
      var k :| 0 <= k < |acc.goBlocks| && acc.goBlocks[k] == b && b.name == name && !b.failed
        && forall i | 0 <= i < |acc.goBlocks| && i != k :: acc.goBlocks[i].name != name;
      OnlyIsLast(acc.goBlocks, name, k, true);
      OnlyIsLast(acc.goBlocks, name, k, false);
      LineOnBlock(acc, line, name, k);
      OnlyChanged(acc.goBlocks, name, k, GoGrown(b, line));
    }
  }

  lemma OnlyAppended(blocks: seq<GoBlock>, name: string, b: GoBlock)
    requires NotNamed(blocks, name) && b.name == name && !b.failed
    ensures HasOnly(blocks + [b], name, b) && !NotNamed(blocks + [b], name)
  {
    assert (blocks + [b])[|blocks|] == b;
  }

  lemma OnlyChanged(blocks: seq<GoBlock>, name: string, k: nat, b: GoBlock)
    requires k < |blocks| && b.name == name && !b.failed && forall i | 0 <= i < |blocks| && i != k :: blocks[i].name != name
    ensures HasOnly(blocks[k := b], name, b) && !NotNamed(blocks[k := b], name)
  {
    assert blocks[k := b][k] == b;
  }

  lemma {:induction false} ToldCollects(acc: Accumulator, name: string, told: seq<string>)
    requires Collects(acc, name, []) && Bounded(name, 512) == name
    requires forall i | 0 <= i < |told| :: IsQuiet(told[i])
    ensures Collects(ObserveMore(acc, told), name, TrimmedLines(told))
  {
    if told != [] {
      var init, raw := told[..|told| - 1], told[|told| - 1];
      ToldCollects(acc, name, init);
      var before := ObserveMore(acc, init);
      if Trim(raw) != "" {
        LineCollects(before, Trim(raw), name, TrimmedLines(init));
        QuietLine(before, raw);
      }
    }
  }

  /** What is said about a Go test from its start on is kept until its status line: let a test start that has no block
      yet, while there is room for one, and let lines follow that say nothing about tests that start or end; then
      the block that a failure of the test marks holds all that was said. */
  lemma GoTestCollects(before: seq<string>, run: string, told: seq<string>)
    requires GoRunningName(Trim(run)).Some?
    requires var name := Bounded(GoRunningName(Trim(run)).value, 512);
      NotNamed(ObserveAll(before).goBlocks, name) && |Compact(ObserveAll(before).goBlocks)| < MAX_GO_BLOCKS
    requires forall i | 0 <= i < |told| :: IsQuiet(told[i])
    ensures var name := Bounded(GoRunningName(Trim(run)).value, 512);
      var blocks := ObserveMore(Observe(ObserveAll(before), run), told).goBlocks;
      FailedBlock(blocks, name) == GoLived(NewBlock(name), TrimmedLines(told)).(failed := true) && HasRoom(blocks, name)
  {
    var acc, name := ObserveAll(before), Bounded(GoRunningName(Trim(run)).value, 512);
    BoundedTwice(GoRunningName(Trim(run)).value, 512);
    var started := Observe(acc, run);
    StartCollects(acc, run, name);
    ToldCollects(started, name, told);
    var blocks, b := ObserveMore(started, told).goBlocks, GoLived(NewBlock(name), TrimmedLines(told));
    if NotNamed(blocks, name) {
      NoneIsLast(blocks, name, false);
    } else {
      var k :| 0 <= k < |blocks| && blocks[k] == b && b.name == name && !b.failed
        && forall i | 0 <= i < |blocks| && i != k :: blocks[i].name != name;
      OnlyIsLast(blocks, name, k, false);
    }
  }

  lemma StartCollects(acc: Accumulator, run: string, name: string)
    requires GoRunningName(Trim(run)).Some? && name == Bounded(GoRunningName(Trim(run)).value, 512)
    requires NotNamed(acc.goBlocks, name) && |Compact(acc.goBlocks)| < MAX_GO_BLOCKS
    ensures Collects(Observe(acc, run), name, [])
  {
    assert "=== RUN" <= Trim(run);
    forall i | 0 <= i < |Compact(acc.goBlocks)| ensures Compact(acc.goBlocks)[i].name != name {
      CompactMembers(acc.goBlocks, Compact(acc.goBlocks)[i]);
    }
    assert Distinct([]) == [];
    LivedNothingYet(NewBlock(name));
  }
}
