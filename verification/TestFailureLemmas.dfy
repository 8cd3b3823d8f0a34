/** Test-failure extraction: the cheap pre-filter loses nothing on trimmed lines and exactly when it does
    otherwise, compaction of Go blocks is invisible at the end, and everything stays bounded. */
module TestFailureLemmas {
  import opened Model
  import opened Utf8
  import opened Text
  import opened Strings
  import opened TestFailures

  // ---------------------------------------------------------------- the pre-filter

  // Some recognizer that can open a state machine, or record a name, accepts the line.
  predicate IsRecognized(line: string) {
    GoRunningName(line).Some? || GoFailedName(line).Some? || GtestRunningName(line).Some? || GtestFailure(line).Some? ||
    RustFailedName(line).Some? || RustBlockName(line).Some? || RustPanic(line).Some?
  }

  lemma UnrecognizedChangesNothing(acc: Accumulator, line: string)
    requires !IsActive(acc) && !IsRecognized(Trim(line))
    ensures Observe(acc, line) == acc
  {
  }

  lemma RecognizedChangesSomething(line: string)
    requires IsRecognized(Trim(line))
    ensures Observe(EMPTY, line) != EMPTY
  {
    var t := Trim(line);
    assert !EndsWith("", ": Failure");
    assert t != [];
    if !GoRunningName(t).Some? && !GoFailedName(t).Some? {
      assert GoLine(EMPTY, t) == Taken(EMPTY, false);
      if !GtestRunningName(t).Some? && !GtestFailure(t).Some? {
        assert t[0] == 't' || t[0] == '-';
        assert GtestFailedName(t).None?;
        assert GtestLine(EMPTY, t) == Taken(EMPTY, false);
      }
    }
  }

  lemma RecognizedMayStart(line: string)
    requires IsRecognized(line)
    ensures MayStart(line)
  {
  }

  // What an inactive accumulator is shown of a line.
  function Filtered(acc: Accumulator, line: string): Accumulator {
    if IsActive(acc) || MayStart(line) then Observe(acc, line) else acc
  }

  // No recognizer accepts the trimmed form of a line that the filter turns away.
  predicate FilterKeeps(line: string) {
    MayStart(line) || !IsRecognized(Trim(line))
  }

  /** The pre-filter is lossless on a line, whatever the accumulator holds, exactly when it lets the line
      pass or no recognizer accepts the line's trimmed form. */
  lemma PreFilterExactly(line: string)
    ensures (forall acc :: Filtered(acc, line) == Observe(acc, line)) <==> FilterKeeps(line)
  {
    if FilterKeeps(line) {
      forall acc ensures Filtered(acc, line) == Observe(acc, line) {
        if !IsActive(acc) && !MayStart(line) {
          UnrecognizedChangesNothing(acc, line);
        }
      }
    } else {
      RecognizedChangesSomething(line);
      assert Filtered(EMPTY, line) == EMPTY;
    }
  }

  /** On a line without leading or trailing whitespace the pre-filter is always lossless. */
  lemma TrimmedLinesPass(line: string)
    requires Trim(line) == line
    ensures FilterKeeps(line)
  {
    if IsRecognized(line) {
      RecognizedMayStart(line);
    }
  }

  /** An indented status line, such as Go prints for a subtest, is turned away although the observer
      would start on it. */
  lemma IndentedStatusIsLost()
    ensures var line := " --- FAIL: T";
      !MayStart(line) && Filtered(EMPTY, line) == EMPTY && Observe(EMPTY, line).goBlocks != []
  {
    var line := " --- FAIL: T";
    assert TrimStart(line) == line[1..];
    assert Trim(line) == "--- FAIL: T";
    assert StripPrefix("--- FAIL: T", "--- FAIL:") == Some(" T");
    assert TrimStart(" T") == "T" && Trim(" T") == "T";
    assert LastIndexOf("T", " (") == None;
    assert GoFailedName(Trim(line)) == Some("T");
  }

  function ObserveAll(lines: seq<string>): Accumulator {
    if lines == [] then EMPTY else Observe(ObserveAll(lines[..|lines| - 1]), lines[|lines| - 1])
  }

  function FilteredAll(lines: seq<string>): Accumulator {
    if lines == [] then EMPTY else Filtered(FilteredAll(lines[..|lines| - 1]), lines[|lines| - 1])
  }

  /** Over whole logs, filtering first extracts the same evidence, complete state included. */
  lemma {:induction false} FilteringLosesNothing(lines: seq<string>)
    requires forall i | 0 <= i < |lines| :: FilterKeeps(lines[i])
    ensures FilteredAll(lines) == ObserveAll(lines)
  {
    if lines != [] {
      FilteringLosesNothing(lines[..|lines| - 1]);
      PreFilterExactly(lines[|lines| - 1]);
    }
  }

  // ---------------------------------------------------------------- compaction

  lemma {:induction false} CompactMembers(blocks: seq<GoBlock>, block: GoBlock)
    ensures block in Compact(blocks) <==> block in blocks
  {
    if blocks != [] {
      CompactMembers(blocks[..|blocks| - 1], block);
      assert blocks == blocks[..|blocks| - 1] + [blocks[|blocks| - 1]];
    }
  }

  lemma {:induction false} FailedIsReported(blocks: seq<GoBlock>, failures: seq<Evidence>, block: GoBlock)
    requires block in blocks && block.failed
    ensures var after := FinishGo(blocks, failures); |after| >= MAX_FAILURES || GoEvidence(block) in after
  {
    if block != blocks[|blocks| - 1] {
      FailedIsReported(blocks[..|blocks| - 1], failures, block);
    }
  }

  lemma {:induction false} CompactedReportsTheSame(blocks: seq<GoBlock>, failures: seq<Evidence>)
    ensures FinishGo(Compact(blocks), failures) == FinishGo(blocks, failures)
  {
    if blocks != [] {
      var init, last := blocks[..|blocks| - 1], blocks[|blocks| - 1];
      CompactedReportsTheSame(init, failures);
      if last.failed && last in Compact(init) {
        CompactMembers(init, last);
        FailedIsReported(init, failures, last);
      } else {
        assert Compact(blocks)[..|Compact(init)|] == Compact(init);
      }
    }
  }

  lemma ClosingIgnoresGo(acc: Accumulator, blocks: seq<GoBlock>)
    ensures FinishRust(acc.(goBlocks := blocks)) == FinishRust(acc).(goBlocks := blocks)
    ensures FinishGtest(acc.(goBlocks := blocks)) == FinishGtest(acc).(goBlocks := blocks)
  {
  }

  /** Compaction is invisible at the end: finishing right after it returns the same evidence. */
  lemma CompactionTransparent(acc: Accumulator)
    ensures FinishAll(acc.(goBlocks := Compact(acc.goBlocks))) == FinishAll(acc)
  {
    var blocks := Compact(acc.goBlocks);
    ClosingIgnoresGo(acc, blocks);
    ClosingIgnoresGo(FinishRust(acc), blocks);
    CompactedReportsTheSame(acc.goBlocks, FinishGtest(FinishRust(acc)).failures);
  }

  function BlockOf(blocks: seq<GoBlock>, name: string, includeFailed: bool): Option<GoBlock> {
    var index := LastBlock(blocks, name, includeFailed);
    if index.Some? then Some(blocks[index.value]) else None
  }

  lemma BlockAppend(blocks: seq<GoBlock>, block: GoBlock, name: string, includeFailed: bool)
    ensures BlockOf(blocks + [block], name, includeFailed) ==
      if block.name == name && (includeFailed || !block.failed) then Some(block) else BlockOf(blocks, name, includeFailed)
  {
    assert (blocks + [block])[..|blocks|] == blocks;
  }

  /** The block of a test that has not failed is found after compaction as before it. */
  lemma {:induction false} CompactionKeepsOpenBlocks(blocks: seq<GoBlock>, name: string)
    ensures BlockOf(Compact(blocks), name, false) == BlockOf(blocks, name, false)
  {
    if blocks != [] {
      var init, last := blocks[..|blocks| - 1], blocks[|blocks| - 1];
      CompactionKeepsOpenBlocks(init, name);
      BlockAppend(init, last, name, false);
      BlockAppend(Compact(init), last, name, false);
      assert init + [last] == blocks;
    }
  }

  lemma {:induction false} AsciiByteLen(s: string)
    requires forall i | 0 <= i < |s| :: s[i] as int < 0x80
    ensures ByteLen(s) == |s|
  {
    if s != [] {
      AsciiByteLen(s[1..]);
    }
  }

  // ---------------------------------------------------------------- no failed Go test is lost

  predicate HasFailed(blocks: seq<GoBlock>, name: string) {
    exists i :: 0 <= i < |blocks| && blocks[i].failed && blocks[i].name == name
  }

  lemma CompactKeepsFailed(blocks: seq<GoBlock>, name: string)
    requires HasFailed(blocks, name)
    ensures HasFailed(Compact(blocks), name)
  {
    var i :| 0 <= i < |blocks| && blocks[i].failed && blocks[i].name == name;
    CompactMembers(blocks, blocks[i]);
  }

  lemma FoundKeepsFailed(blocks: seq<GoBlock>, name: string, other: string, includeFailed: bool)
    requires HasFailed(blocks, name)
    ensures HasFailed(FindOrPush(blocks, other, includeFailed).blocks, name)
  {
    CompactKeepsFailed(blocks, name);
    var room := if |blocks| >= MAX_GO_BLOCKS then Compact(blocks) else blocks;
    var i :| 0 <= i < |room| && room[i].failed && room[i].name == name;
    assert (room + [NewGoBlock(other)])[i] == room[i];
  }

  lemma UpdateKeepsFailed(blocks: seq<GoBlock>, k: nat, block: GoBlock, name: string)
    requires HasFailed(blocks, name) && k < |blocks|
    requires block.name == blocks[k].name && (blocks[k].failed ==> block.failed)
    ensures HasFailed(blocks[k := block], name)
  {
    var i :| 0 <= i < |blocks| && blocks[i].failed && blocks[i].name == name;
    assert blocks[k := block][i].failed && blocks[k := block][i].name == name;
  }

  lemma GoFailedKeepsFailed(acc: Accumulator, rawName: string, name: string)
    requires HasFailed(acc.goBlocks, name)
    ensures HasFailed(GoFailed(acc, rawName).goBlocks, name)
  {
    var found := FindOrPush(acc.goBlocks, Bounded(rawName, MAX_NAME_BYTES), false);
    FoundKeepsFailed(acc.goBlocks, name, Bounded(rawName, MAX_NAME_BYTES), false);
    if found.index.Some? {
      UpdateKeepsFailed(found.blocks, found.index.value, found.blocks[found.index.value].(failed := true), name);
    }
  }

  lemma PanickedKeepsFailed(acc: Accumulator, context: string, message: string, name: string)
    requires HasFailed(acc.goBlocks, name)
    ensures HasFailed(GoPanicked(acc, context, message).goBlocks, name)
  {
    FoundKeepsFailed(acc.goBlocks, name, context, true);
    var found := FindOrPush(acc.goBlocks, context, true);
    if found.index.Some? {
      var k := found.index.value;
      UpdateKeepsFailed(found.blocks, k, GoPanicked(acc, context, message).goBlocks[k], name);
    }
  }

  lemma LocatedKeepsFailed(acc: Accumulator, context: string, place: GoPlace, name: string)
    requires HasFailed(acc.goBlocks, name)
    ensures HasFailed(GoLocated(acc, context, place).goBlocks, name)
  {
    FoundKeepsFailed(acc.goBlocks, name, context, acc.goPanic.Some?);
    var found := FindOrPush(acc.goBlocks, context, acc.goPanic.Some?);
    if found.index.Some? && !(place.stackFrame && IsGoRuntimePath(place.location.path)) {
      var k := found.index.value;
      UpdateKeepsFailed(found.blocks, k, GoLocated(acc, context, place).goBlocks[k], name);
    }
  }

  lemma DetailKeepsFailed(acc: Accumulator, context: string, line: string, name: string)
    requires HasFailed(acc.goBlocks, name)
    ensures HasFailed(GoDetail(acc, context, line).acc.goBlocks, name)
  {
    FoundKeepsFailed(acc.goBlocks, name, context, acc.goPanic.Some?);
    var found := FindOrPush(acc.goBlocks, context, acc.goPanic.Some?);
    if found.index.Some? {
      var k := found.index.value;
      UpdateKeepsFailed(found.blocks, k, WithMessage(found.blocks[k], line), name);
    }
  }

  lemma GoLineKeepsFailed(acc: Accumulator, line: string, name: string)
    requires HasFailed(acc.goBlocks, name)
    ensures HasFailed(GoLine(acc, line).acc.goBlocks, name)
  {
    if GoContext(acc).Some? {
      var context := GoContext(acc).value;
      if GoPanicMessage(line).Some? {
        PanickedKeepsFailed(acc, context, GoPanicMessage(line).value, name);
      } else if GoTestLocation(line).Some? {
        LocatedKeepsFailed(acc, context, GoTestLocation(line).value, name);
      } else {
        DetailKeepsFailed(acc, context, line, name);
      }
    }
  }

  lemma GtestKeepsBlocks(acc: Accumulator, line: string)
    ensures GtestLine(acc, line).acc.goBlocks == acc.goBlocks
  {
  }

  lemma PanicKeepsBlocks(acc: Accumulator, panic: Panic)
    ensures RustPanicked(acc, panic).goBlocks == acc.goBlocks
  {
  }

  lemma RustKeepsBlocks(acc: Accumulator, line: string)
    ensures RustLine(acc, line).goBlocks == acc.goBlocks
  {
    if RustPanic(line).Some? {
      var named := RustNamed(acc, line);
      PanicKeepsBlocks(named, RustPanic(line).value);
    }
  }

  lemma ObserveKeepsFailed(acc: Accumulator, raw: string, name: string)
    requires HasFailed(acc.goBlocks, name)
    ensures HasFailed(Observe(acc, raw).goBlocks, name)
  {
    var line := Trim(raw);
    if GoRunningName(line).Some? {
      CompactKeepsFailed(acc.goBlocks, name);
    } else if GoFailedName(line).Some? {
      GoFailedKeepsFailed(acc, GoFailedName(line).value, name);
    } else {
      GoLineKeepsFailed(acc, line, name);
      GtestKeepsBlocks(GoLine(acc, line).acc, line);
      RustKeepsBlocks(GtestLine(GoLine(acc, line).acc, line).acc, line);
    }
  }

  // A test that fails gets a block: it has one that has not failed, or there is room for one, if need be
  // after compaction.
  predicate HasRoom(blocks: seq<GoBlock>, name: string) {
    LastBlock(blocks, name, false).Some? || |blocks| < MAX_GO_BLOCKS || |Compact(blocks)| < MAX_GO_BLOCKS
  }

  lemma RoomExactly(blocks: seq<GoBlock>, name: string)
    ensures HasRoom(blocks, name) <==> FindOrPush(blocks, name, false).index.Some?
  {
    CompactWithin(blocks);
  }

  lemma GoFailedIsRecorded(acc: Accumulator, rawName: string)
    requires HasRoom(acc.goBlocks, Bounded(rawName, MAX_NAME_BYTES))
    ensures HasFailed(GoFailed(acc, rawName).goBlocks, Bounded(rawName, MAX_NAME_BYTES))
  {
    var name := Bounded(rawName, MAX_NAME_BYTES);
    RoomExactly(acc.goBlocks, name);
    LastBlockNamed(acc.goBlocks, name, false);
    BoundedIsLongestFit(rawName, MAX_NAME_BYTES);
    BoundedIsLongestFit(name, MAX_NAME_BYTES);
    var found := FindOrPush(acc.goBlocks, name, false);
    var k := found.index.value;
    assert found.blocks[k].name == name;
    assert GoFailed(acc, rawName).goBlocks[k].failed;
  }

  lemma {:induction false} LastBlockNamed(blocks: seq<GoBlock>, name: string, includeFailed: bool)
    ensures var k := LastBlock(blocks, name, includeFailed); k.Some? ==> blocks[k.value].name == name
  {
    if blocks != [] {
      LastBlockNamed(blocks[..|blocks| - 1], name, includeFailed);
    }
  }

  lemma {:induction false} NamesExtend(names: seq<string>, failures: seq<Evidence>)
    ensures failures <= FinishNames(names, failures)
  {
    if names != [] {
      NamesExtend(names[..|names| - 1], failures);
    }
  }

  lemma FailedIsInTheEnd(acc: Accumulator, name: string)
    requires HasFailed(acc.goBlocks, name)
    ensures |FinishAll(acc)| >= MAX_FAILURES || HasName(FinishAll(acc), name)
  {
    var closed := FinishGtest(FinishRust(acc));
    var i :| 0 <= i < |acc.goBlocks| && acc.goBlocks[i].failed && acc.goBlocks[i].name == name;
    var block := acc.goBlocks[i];
    FailedIsReported(closed.goBlocks, closed.failures, block);
    var reported := FinishGo(closed.goBlocks, closed.failures);
    NamesExtend(closed.failedNames, reported);
    if |reported| < MAX_FAILURES {
      var k :| 0 <= k < |reported| && reported[k] == GoEvidence(block);
      assert FinishAll(acc)[k].name == name;
    }
  }

  // The accumulator after more lines.
  function ObserveMore(acc: Accumulator, lines: seq<string>): Accumulator {
    if lines == [] then acc else Observe(ObserveMore(acc, lines[..|lines| - 1]), lines[|lines| - 1])
  }

  lemma {:induction false} MoreKeepsFailed(acc: Accumulator, lines: seq<string>, name: string)
    requires HasFailed(acc.goBlocks, name)
    ensures HasFailed(ObserveMore(acc, lines).goBlocks, name)
  {
    if lines != [] {
      MoreKeepsFailed(acc, lines[..|lines| - 1], name);
      ObserveKeepsFailed(ObserveMore(acc, lines[..|lines| - 1]), lines[|lines| - 1], name);
    }
  }

  /** No failed Go test is lost: once its status line has been seen while the test had an open block or
      there was room for one, the test is among the returned failures whatever lines follow, unless 20 failures are returned. */
  lemma FailedGoTestIsReported(acc: Accumulator, status: string, more: seq<string>)
    requires GoFailedName(Trim(status)).Some?
    requires HasRoom(acc.goBlocks, Bounded(GoFailedName(Trim(status)).value, MAX_NAME_BYTES))
    ensures var evidence := FinishAll(ObserveMore(Observe(acc, status), more));
      |evidence| >= MAX_FAILURES || HasName(evidence, Bounded(GoFailedName(Trim(status)).value, MAX_NAME_BYTES))
  {
    var rawName := GoFailedName(Trim(status)).value;
    assert Trim(status)[0] == '-' && GoRunningName(Trim(status)).None?;
    GoFailedIsRecorded(acc, rawName);
    MoreKeepsFailed(Observe(acc, status), more, Bounded(rawName, MAX_NAME_BYTES));
    FailedIsInTheEnd(ObserveMore(Observe(acc, status), more), Bounded(rawName, MAX_NAME_BYTES));
  }

  // ---------------------------------------------------------------- bounds

  predicate AllWithin(texts: seq<string>, maximum: nat) {
    forall i | 0 <= i < |texts| :: ByteLen(texts[i]) <= maximum
  }

  predicate OptionWithin(text: Option<string>, maximum: nat) {
    text.Some? ==> ByteLen(text.value) <= maximum
  }

  predicate RustWithin(b: RustBlock) {
    ByteLen(b.name) <= MAX_NAME_BYTES && OptionWithin(b.assertion, MAX_DETAIL_BYTES) &&
    OptionWithin(b.panicMessage, MAX_DETAIL_BYTES) && |b.details| <= MAX_RUST_DETAILS && AllWithin(b.details, MAX_DETAIL_BYTES)
  }

  predicate GtestWithin(b: GtestBlock) {
    ByteLen(b.name) <= MAX_NAME_BYTES && |b.details| <= MAX_GTEST_DETAILS && AllWithin(b.details, MAX_DETAIL_BYTES)
  }

  predicate GoWithin(b: GoBlock) {
    ByteLen(b.name) <= MAX_NAME_BYTES && OptionWithin(b.assertion, MAX_DETAIL_BYTES) &&
    OptionWithin(b.panicMessage, MAX_DETAIL_BYTES) && |b.details| <= MAX_GO_DETAILS && AllWithin(b.details, MAX_DETAIL_BYTES)
  }

  predicate BlocksWithin(blocks: seq<GoBlock>) {
    |blocks| <= MAX_GO_BLOCKS && forall i | 0 <= i < |blocks| :: GoWithin(blocks[i])
  }

  predicate EvidenceWithin(evidence: seq<Evidence>) {
    |evidence| <= MAX_FAILURES &&
    forall i | 0 <= i < |evidence| :: ByteLen(evidence[i].name) <= MAX_NAME_BYTES && ByteLen(evidence[i].message) <= MAX_MESSAGE_BYTES
  }

  predicate Within(acc: Accumulator) {
    && |acc.failedNames| <= MAX_FAILURES && AllWithin(acc.failedNames, MAX_NAME_BYTES)
    && EvidenceWithin(acc.failures)
    && (acc.current.Some? ==> RustWithin(acc.current.value))
    && OptionWithin(acc.gtestRunning, MAX_NAME_BYTES)
    && (acc.gtestCurrent.Some? ==> GtestWithin(acc.gtestCurrent.value))
    && BlocksWithin(acc.goBlocks)
  }

  /** Cutting text: it fits the limit, and it is either the whole text or the longest prefix of whole
      characters that fits beside the ellipsis. */
  lemma BoundedIsLongestFit(text: string, maximum: nat)
    ensures ByteLen(Bounded(text, maximum)) <= maximum
    ensures ByteLen(text) <= maximum ==> Bounded(text, maximum) == text
    ensures ByteLen(text) > maximum >= 3 ==>
              exists k: nat :: k < |text| && Bounded(text, maximum) == text[..k] + [ELLIPSIS]
                && ByteLen(text[..k]) + |EncodeChar(text[k])| > maximum - 3
  {
    assert ByteLen([ELLIPSIS]) == 3;
    if ByteLen(text) > maximum >= 3 {
      var prefix := Fit(text, maximum - 3);
      ByteLenConcat(prefix, [ELLIPSIS]);
      var k := |prefix|;
      assert k == |text| ==> prefix == text;
      assert text[..k] == prefix;
    }
  }

  lemma PushUniqueWithin(values: seq<string>, value: string, items: nat, bytes: nat)
    requires |values| <= items && AllWithin(values, bytes)
    ensures var after := PushUnique(values, value, items, bytes); |after| <= items && AllWithin(after, bytes)
  {
    BoundedIsLongestFit(value, bytes);
  }

  lemma {:induction false} CompactWithin(blocks: seq<GoBlock>)
    ensures |Compact(blocks)| <= |blocks|
    ensures (forall i | 0 <= i < |blocks| :: GoWithin(blocks[i])) ==>
              forall i | 0 <= i < |Compact(blocks)| :: GoWithin(Compact(blocks)[i])
  {
    if blocks != [] {
      CompactWithin(blocks[..|blocks| - 1]);
    }
  }

  lemma FoundWithin(blocks: seq<GoBlock>, name: string, includeFailed: bool)
    requires BlocksWithin(blocks)
    ensures BlocksWithin(FindOrPush(blocks, name, includeFailed).blocks)
  {
    CompactWithin(blocks);
    BoundedIsLongestFit(name, MAX_NAME_BYTES);
  }

  lemma WithMessageWithin(block: GoBlock, message: string)
    requires GoWithin(block)
    ensures GoWithin(WithMessage(block, message))
  {
    BoundedIsLongestFit(message, MAX_DETAIL_BYTES);
    PushUniqueWithin(block.details, message, MAX_GO_DETAILS, MAX_DETAIL_BYTES);
  }

  lemma GoFailedWithin(acc: Accumulator, rawName: string)
    requires Within(acc)
    ensures Within(GoFailed(acc, rawName))
  {
    FoundWithin(acc.goBlocks, Bounded(rawName, MAX_NAME_BYTES), false);
  }

  lemma WithPanicWithin(block: GoBlock, message: string)
    requires GoWithin(block)
    ensures GoWithin(WithPanic(block, message))
  {
    BoundedIsLongestFit(message, MAX_DETAIL_BYTES);
  }

  lemma GoPanickedWithin(acc: Accumulator, name: string, message: string)
    requires Within(acc)
    ensures Within(GoPanicked(acc, name, message))
  {
    FoundWithin(acc.goBlocks, name, true);
    var found := FindOrPush(acc.goBlocks, name, true);
    if found.index.Some? {
      WithPanicWithin(found.blocks[found.index.value], message);
    }
  }

  lemma GoLocatedWithin(acc: Accumulator, name: string, place: GoPlace)
    requires Within(acc)
    ensures Within(GoLocated(acc, name, place))
  {
    FoundWithin(acc.goBlocks, name, acc.goPanic.Some?);
    var found := FindOrPush(acc.goBlocks, name, acc.goPanic.Some?);
    if found.index.Some? {
      var block := WithPlace(found.blocks[found.index.value], place);
      assert GoWithin(block);
      if place.message.Some? {
        WithMessageWithin(block, place.message.value);
      }
    }
  }

  lemma GoDetailWithin(acc: Accumulator, name: string, line: string)
    requires Within(acc)
    ensures Within(GoDetail(acc, name, line).acc)
  {
    FoundWithin(acc.goBlocks, name, acc.goPanic.Some?);
    var found := FindOrPush(acc.goBlocks, name, acc.goPanic.Some?);
    if found.index.Some? {
      WithMessageWithin(found.blocks[found.index.value], line);
    }
  }

  lemma FinishRustWithin(acc: Accumulator)
    requires Within(acc)
    ensures Within(FinishRust(acc)) && FinishRust(acc).current == None
  {
    if acc.current.Some? {
      BoundedIsLongestFit(RustMessage(acc.current.value), MAX_MESSAGE_BYTES);
    }
  }

  lemma FinishGtestWithin(acc: Accumulator)
    requires Within(acc)
    ensures Within(FinishGtest(acc)) && FinishGtest(acc).gtestCurrent == None
  {
    if acc.gtestCurrent.Some? {
      BoundedIsLongestFit(GtestMessage(acc.gtestCurrent.value.name, acc.gtestCurrent.value.details), MAX_MESSAGE_BYTES);
    }
  }

  lemma ShortText(text: string, maximum: nat)
    requires |text| <= maximum && forall i | 0 <= i < |text| :: text[i] as int < 0x80
    ensures ByteLen(text) <= maximum
  {
    AsciiByteLen(text);
  }

  lemma UnknownGtestWithin()
    ensures ByteLen(UNKNOWN_GTEST) <= MAX_NAME_BYTES
  {
    ShortText(UNKNOWN_GTEST, MAX_NAME_BYTES);
  }

  lemma GtestNamedWithin(acc: Accumulator, name: string, location: Option<Location>)
    requires Within(acc) && ByteLen(name) <= MAX_NAME_BYTES
    ensures Within(acc.(gtestCurrent := Some(GtestBlock(name, location, []))))
  {
  }

  lemma GtestOpenedWithin(acc: Accumulator, location: Option<Location>)
    requires Within(acc)
    ensures Within(GtestOpened(acc, location))
  {
    FinishGtestWithin(acc);
    UnknownGtestWithin();
    GtestNamedWithin(FinishGtest(acc), if acc.gtestRunning.Some? then acc.gtestRunning.value else UNKNOWN_GTEST, location);
  }

  lemma GtestLineWithin(acc: Accumulator, line: string)
    requires Within(acc)
    ensures Within(GtestLine(acc, line).acc)
  {
    if GtestRunningName(line).Some? {
      FinishGtestWithin(acc);
      BoundedIsLongestFit(GtestRunningName(line).value, MAX_NAME_BYTES);
    } else if GtestFailure(line).Some? {
      GtestOpenedWithin(acc, GtestFailure(line).value);
    } else if GtestFailedName(line).Some? {
      FinishGtestWithin(acc);
    } else {
      BoundedIsLongestFit(line, MAX_DETAIL_BYTES);
    }
  }

  lemma RustPanickedWithin(acc: Accumulator, panic: Panic)
    requires Within(acc)
    ensures Within(RustPanicked(acc, panic))
  {
    FinishRustWithin(acc);
    BoundedIsLongestFit(panic.name, MAX_NAME_BYTES);
  }

  lemma OneMoreWithin(texts: seq<string>, text: string, maximum: nat)
    requires AllWithin(texts, maximum) && ByteLen(text) <= maximum
    ensures AllWithin(texts + [text], maximum)
  {
  }

  lemma RustTextsWithin(block: RustBlock, text: string)
    requires RustWithin(block) && ByteLen(text) <= MAX_DETAIL_BYTES
    ensures RustWithin(block.(assertion := Some(text))) && RustWithin(block.(panicMessage := Some(text)))
    ensures |block.details| < MAX_RUST_DETAILS ==> RustWithin(block.(details := block.details + [text]))
  {
    OneMoreWithin(block.details, text, MAX_DETAIL_BYTES);
  }

  lemma RustDetailWithin(block: RustBlock, line: string)
    requires RustWithin(block)
    ensures RustWithin(RustDetail(block, line))
  {
    BoundedIsLongestFit(line, MAX_DETAIL_BYTES);
    RustTextsWithin(block, Bounded(line, MAX_DETAIL_BYTES));
  }

  lemma RustLineWithin(acc: Accumulator, line: string)
    requires Within(acc)
    ensures Within(RustLine(acc, line))
  {
    var named := RustNamed(acc, line);
    if RustFailedName(line).Some? {
      PushUniqueWithin(acc.failedNames, RustFailedName(line).value, MAX_FAILURES, MAX_NAME_BYTES);
    }
    FinishRustWithin(named);
    if RustBlockName(line).Some? {
      BoundedIsLongestFit(RustBlockName(line).value, MAX_NAME_BYTES);
    } else if RustPanic(line).Some? {
      RustPanickedWithin(named, RustPanic(line).value);
    } else if named.current.Some? {
      RustDetailWithin(named.current.value, line);
    }
  }

  lemma GoLineWithin(acc: Accumulator, line: string)
    requires Within(acc)
    ensures Within(GoLine(acc, line).acc)
  {
    if GoContext(acc).Some? {
      var name := GoContext(acc).value;
      if GoPanicMessage(line).Some? {
        GoPanickedWithin(acc, name, GoPanicMessage(line).value);
      } else if GoTestLocation(line).Some? {
        GoLocatedWithin(acc, name, GoTestLocation(line).value);
      } else {
        GoDetailWithin(acc, name, line);
      }
    }
  }

  lemma RunningWithin(acc: Accumulator, name: string)
    requires Within(acc)
    ensures Within(acc.(goBlocks := Compact(acc.goBlocks), goRunning := Some(name), goPanic := None))
  {
    CompactWithin(acc.goBlocks);
  }

  lemma ObserveWithin(acc: Accumulator, raw: string)
    requires Within(acc)
    ensures Within(Observe(acc, raw))
  {
    var line := Trim(raw);
    if GoRunningName(line).Some? {
      RunningWithin(acc, Bounded(GoRunningName(line).value, MAX_NAME_BYTES));
    } else if GoFailedName(line).Some? {
      GoFailedWithin(acc, GoFailedName(line).value);
    } else {
      GoLineWithin(acc, line);
      var go := GoLine(acc, line).acc;
      GtestLineWithin(go, line);
      RustLineWithin(GtestLine(go, line).acc, line);
    }
  }

  lemma {:induction false} FinishGoWithin(blocks: seq<GoBlock>, failures: seq<Evidence>)
    requires EvidenceWithin(failures) && forall i | 0 <= i < |blocks| :: GoWithin(blocks[i])
    ensures EvidenceWithin(FinishGo(blocks, failures))
  {
    if blocks != [] {
      FinishGoWithin(blocks[..|blocks| - 1], failures);
      BoundedIsLongestFit(GoMessage(blocks[|blocks| - 1]), MAX_MESSAGE_BYTES);
    }
  }

  lemma {:induction false} FinishNamesWithin(names: seq<string>, failures: seq<Evidence>)
    requires EvidenceWithin(failures) && AllWithin(names, MAX_NAME_BYTES)
    ensures EvidenceWithin(FinishNames(names, failures))
  {
    if names != [] {
      FinishNamesWithin(names[..|names| - 1], failures);
      SummaryWithin(names[|names| - 1]);
    }
  }

  lemma SurroundedBytes(before: string, name: string, after: string)
    requires forall i | 0 <= i < |before| :: before[i] as int < 0x80
    requires forall i | 0 <= i < |after| :: after[i] as int < 0x80
    ensures ByteLen(before + name + after) == |before| + ByteLen(name) + |after|
  {
    ByteLenConcat(before, name);
    ByteLenConcat(before + name, after);
    AsciiByteLen(before);
    AsciiByteLen(after);
  }

  lemma SummaryWithin(name: string)
    ensures ByteLen(RustSummary(name).message) == 17 + ByteLen(name)
  {
    SurroundedBytes("Rust test ", name, " failed");
  }

  /** After any sequence of lines the accumulator is within its bounds: at most 80 Go blocks, 20 failures
      and 20 names, bounded texts; and whatever finishing returns is at most 20 failures with names of at
      most 512 bytes and messages of at most 1000 bytes. */
  lemma {:induction false} AlwaysWithin(lines: seq<string>)
    ensures Within(ObserveAll(lines))
    ensures EvidenceWithin(FinishAll(ObserveAll(lines)))
  {
    if lines != [] {
      AlwaysWithin(lines[..|lines| - 1]);
      ObserveWithin(ObserveAll(lines[..|lines| - 1]), lines[|lines| - 1]);
    }
    FinishWithin(ObserveAll(lines));
  }

  lemma FinishWithin(acc: Accumulator)
    requires Within(acc)
    ensures EvidenceWithin(FinishAll(acc))
  {
    FinishRustWithin(acc);
    FinishGtestWithin(FinishRust(acc));
    var closed := FinishGtest(FinishRust(acc));
    FinishGoWithin(closed.goBlocks, closed.failures);
    FinishNamesWithin(closed.failedNames, FinishGo(closed.goBlocks, closed.failures));
  }
}
