/** The test-failure accumulator as the object that is updated line by line, proved against the
    accumulator on values. */
module TestAccumulator {
  import opened Model
  import opened Text
  import opened Strings
  import opened TestFailures
  import opened TestFailureLemmas

  // Once the limit is reached, further blocks add nothing.
  lemma {:induction false} FullGo(blocks: seq<GoBlock>, failures: seq<Evidence>, k: nat)
    requires k <= |blocks| && |FinishGo(blocks[..k], failures)| >= MAX_FAILURES
    ensures FinishGo(blocks, failures) == FinishGo(blocks[..k], failures)
  {
    if k == |blocks| {
      assert blocks[..k] == blocks;
    } else {
      assert blocks[..|blocks| - 1][..k] == blocks[..k];
      FullGo(blocks[..|blocks| - 1], failures, k);
    }
  }

  lemma {:induction false} FullNames(names: seq<string>, failures: seq<Evidence>, k: nat)
    requires k <= |names| && |FinishNames(names[..k], failures)| >= MAX_FAILURES
    ensures FinishNames(names, failures) == FinishNames(names[..k], failures)
  {
    if k == |names| {
      assert names[..k] == names;
    } else {
      assert names[..|names| - 1][..k] == names[..k];
      FullNames(names[..|names| - 1], failures, k);
    }
  }

  lemma LastBlockPrefix(blocks: seq<GoBlock>, name: string, includeFailed: bool, k: nat)
    requires k < |blocks|
    ensures LastBlock(blocks[..k + 1], name, includeFailed) ==
      if blocks[k].name == name && (includeFailed || !blocks[k].failed) then Some(k) else LastBlock(blocks[..k], name, includeFailed)
  {
    assert blocks[..k + 1][..k] == blocks[..k];
  }

  method FindLast(blocks: seq<GoBlock>, name: string, includeFailed: bool) returns (index: Option<nat>)
    ensures index == LastBlock(blocks, name, includeFailed)
  {
    var k := |blocks|;
    assert blocks[..k] == blocks;
    while k > 0
      invariant 0 <= k <= |blocks|
      invariant LastBlock(blocks, name, includeFailed) == LastBlock(blocks[..k], name, includeFailed)
    {
      k := k - 1;
      LastBlockPrefix(blocks, name, includeFailed, k);
      if blocks[k].name == name && (includeFailed || !blocks[k].failed) {
        return Some(k);
      }
    }
    index := None;
  }

  method AppendDetails(message: string, details: seq<string>) returns (r: string)
    ensures r == message + DetailsText(details)
  {
    r := message;
    for i := 0 to |details|
      invariant r == message + DetailsText(details[..i])
    {
      assert details[..i + 1][..i] == details[..i];
      r := r + "; " + details[i];
    }
    assert details[..|details|] == details;
  }

  class TestFailureAccumulator {
    var failedNames: seq<string>
    var failures: seq<Evidence>
    var current: Option<RustBlock>
    var gtestRunning: Option<string>
    var gtestCurrent: Option<GtestBlock>
    var goRunning: Option<string>
    var goPanic: Option<string>
    var goBlocks: seq<GoBlock>

    constructor ()
      ensures Value() == EMPTY
    {
      failedNames, failures, current, gtestRunning, gtestCurrent := [], [], None, None, None;
      goRunning, goPanic, goBlocks := None, None, [];
    }

    function Value(): Accumulator
      reads this
    {
      Accumulator(failedNames, failures, current, gtestRunning, gtestCurrent, goRunning, goPanic, goBlocks)
    }

    // ---------------------------------------------------------------- closing blocks

    method FinishCurrent()
      modifies this
      ensures Value() == FinishRust(old(Value()))
    {
      if current.None? {
        return;
      }
      var block := current.value;
      current := None;
      if block.name == [] || |failures| >= MAX_FAILURES {
        return;
      }
      var message := "Rust test " + block.name + " failed";
      if block.location.Some? {
        message := message + PlaceText(block.location);
      }
      if block.assertion.Some? {
        message := message + ": " + block.assertion.value;
      } else if block.panicMessage.Some? {
        message := message + ": " + block.panicMessage.value;
      }
      message := AppendDetails(message, block.details);
      assert message == RustMessage(block);
      var text := BoundedText(message, MAX_MESSAGE_BYTES);
      failures := failures + [Evidence(block.name, text, block.location)];
    }

    method FinishGtestCurrent()
      modifies this
      ensures Value() == FinishGtest(old(Value()))
    {
      if gtestCurrent.None? {
        return;
      }
      var block := gtestCurrent.value;
      gtestCurrent := None;
      if block.name == [] || |failures| >= MAX_FAILURES {
        return;
      }
      var message := "C++ test " + block.name + " failed";
      for i := 0 to |block.details|
        invariant message == GtestMessage(block.name, block.details[..i])
      {
        assert block.details[..i + 1][..i] == block.details[..i];
        var separator := if i == 0 then ": " else if EndsWith(message, ":") then " " else "; ";
        message := message + separator + block.details[i];
      }
      assert block.details[..|block.details|] == block.details;
      var text := BoundedText(message, MAX_MESSAGE_BYTES);
      failures := failures + [Evidence(block.name, text, block.location)];
    }

    method GoEvidenceOf(block: GoBlock) returns (evidence: Evidence)
      ensures evidence == GoEvidence(block)
    {
      var message := "Go test " + block.name + (if block.panicMessage.Some? then " panicked" else " failed");
      if block.location.Some? {
        message := message + PlaceText(block.location);
      }
      if block.panicMessage.Some? {
        message := message + ": " + block.panicMessage.value;
      } else if block.assertion.Some? {
        message := message + ": " + block.assertion.value;
      }
      message := AppendDetails(message, block.details);
      assert message == GoMessage(block);
      var text := BoundedText(message, MAX_MESSAGE_BYTES);
      evidence := Evidence(block.name, text, block.location);
    }

    method FinishGoFailures()
      modifies this
      ensures Value() == old(Value()).(goBlocks := [], failures := FinishGo(old(goBlocks), old(failures)))
    {
      var blocks, start := goBlocks, failures;
      goBlocks := [];
      for i := 0 to |blocks|
        invariant Value() == old(Value()).(goBlocks := [], failures := FinishGo(blocks[..i], start))
      {
        assert blocks[..i + 1][..i] == blocks[..i];
        if !blocks[i].failed {
          continue;
        }
        if |failures| >= MAX_FAILURES {
          FullGo(blocks, start, i);
          return;
        }
        var evidence := GoEvidenceOf(blocks[i]);
        if evidence !in failures {
          failures := failures + [evidence];
        }
      }
      assert blocks[..|blocks|] == blocks;
    }

    // Closes everything that is open and returns the evidence.
    method Finish() returns (evidence: seq<Evidence>)
      modifies this
      ensures evidence == FinishAll(old(Value()))
    {
      FinishCurrent();
      FinishGtestCurrent();
      FinishGoFailures();
      var start := failures;
      for i := 0 to |failedNames|
        invariant failedNames == old(failedNames)
        invariant failures == FinishNames(failedNames[..i], start)
      {
        assert failedNames[..i + 1][..i] == failedNames[..i];
        if |failures| >= MAX_FAILURES {
          FullNames(failedNames, start, i);
          return failures;
        }
        if HasName(failures, failedNames[i]) {
          continue;
        }
        failures := failures + [RustSummary(failedNames[i])];
      }
      assert failedNames[..|failedNames|] == failedNames;
      evidence := failures;
    }

    // ---------------------------------------------------------------- Go blocks

    method CompactGoBlocks()
      modifies this
      ensures Value() == old(Value()).(goBlocks := Compact(old(goBlocks)))
    {
      var blocks := goBlocks;
      goBlocks := [];
      for i := 0 to |blocks|
        invariant Value() == old(Value()).(goBlocks := Compact(blocks[..i]))
      {
        assert blocks[..i + 1][..i] == blocks[..i];
        if blocks[i].failed && blocks[i] in goBlocks {
          continue;
        }
        goBlocks := goBlocks + [blocks[i]];
      }
      assert blocks[..|blocks|] == blocks;
    }

    method PushGoBlock(name: string) returns (index: Option<nat>)
      modifies this
      ensures Found(goBlocks, index) == PushBlock(old(goBlocks), name)
      ensures Value() == old(Value()).(goBlocks := goBlocks)
    {
      if |goBlocks| >= MAX_GO_BLOCKS {
        CompactGoBlocks();
        if |goBlocks| >= MAX_GO_BLOCKS {
          return None;
        }
      }
      var bounded := BoundedText(name, MAX_NAME_BYTES);
      goBlocks := goBlocks + [GoBlock(bounded, None, NO_RANK, None, None, [], false)];
      index := Some(|goBlocks| - 1);
    }

    method GoBlockIndex(name: string, includeFailed: bool) returns (index: Option<nat>)
      modifies this
      ensures Found(goBlocks, index) == FindOrPush(old(goBlocks), name, includeFailed)
      ensures Value() == old(Value()).(goBlocks := goBlocks)
    {
      index := FindLast(goBlocks, name, includeFailed);
      if index.None? {
        index := PushGoBlock(name);
      }
    }

    method ObserveGoFailureStatus(rawName: string)
      modifies this
      ensures Value() == GoFailed(old(Value()), rawName)
    {
      var name := BoundedText(rawName, MAX_NAME_BYTES);
      var index := GoBlockIndex(name, false);
      if index.Some? {
        goBlocks := goBlocks[index.value := goBlocks[index.value].(failed := true)];
      }
      goRunning := Some(name);
      goPanic := Some(name);
    }

    method ObserveGoPanic(message: string) returns (taken: bool)
      modifies this
      ensures taken == GoContext(old(Value())).Some?
      ensures Value() == if taken then GoPanicked(old(Value()), GoContext(old(Value())).value, message) else old(Value())
    {
      if goPanic.None? && goRunning.None? {
        return false;
      }
      var name := if goPanic.Some? then goPanic.value else goRunning.value;
      taken := true;
      var index := GoBlockIndex(name, true);
      if index.None? {
        return;
      }
      if goBlocks[index.value].panicMessage.None? {
        var text := BoundedText(message, MAX_DETAIL_BYTES);
        goBlocks := goBlocks[index.value := goBlocks[index.value].(panicMessage := Some(text))];
      }
      goPanic := Some(name);
    }

    method ObserveGoLocation(place: GoPlace) returns (taken: bool)
      modifies this
      ensures taken == GoContext(old(Value())).Some?
      ensures Value() == if taken then GoLocated(old(Value()), GoContext(old(Value())).value, place) else old(Value())
    {
      var panicContext := goPanic.Some?;
      if goPanic.None? && goRunning.None? {
        return false;
      }
      var name := if goPanic.Some? then goPanic.value else goRunning.value;
      taken := true;
      if place.stackFrame && IsGoRuntimePath(place.location.path) {
        return;
      }
      var index := GoBlockIndex(name, panicContext);
      if index.None? {
        return;
      }
      var block := goBlocks[index.value];
      var rank := if place.stackFrame && !EndsWith(place.location.path, "_test.go") then 1 else 0;
      if block.location.None? || rank < block.rank {
        block := block.(location := Some(place.location), rank := rank);
      }
      if place.message.Some? && place.message.value != [] {
        var message := place.message.value;
        if block.assertion.None? {
          var text := BoundedText(message, MAX_DETAIL_BYTES);
          block := block.(assertion := Some(text));
        } else if IsGoAssertion(message) {
          block := block.(details := PushUnique(block.details, message, MAX_GO_DETAILS, MAX_DETAIL_BYTES));
        }
      }
      goBlocks := goBlocks[index.value := block];
    }

    method ObserveGoDetail(line: string) returns (taken: bool)
      modifies this
      ensures Taken(Value(), taken) ==
        match GoContext(old(Value())) case None => Taken(old(Value()), false) case Some(name) => GoDetail(old(Value()), name, line)
    {
      var panicContext := goPanic.Some?;
      if goPanic.None? && goRunning.None? {
        return false;
      }
      var name := if goPanic.Some? then goPanic.value else goRunning.value;
      if IsGoNoise(line) || IsGoFrame(line) {
        return false;
      }
      var index := FindLast(goBlocks, name, panicContext);
      if !IsGoAssertion(line) && !AwaitsAssertion(goBlocks, index) {
        return false;
      }
      if index.None? {
        index := PushGoBlock(name);
      }
      if index.None? {
        return false;
      }
      var block := goBlocks[index.value];
      if block.assertion.None? {
        var text := BoundedText(line, MAX_DETAIL_BYTES);
        block := block.(assertion := Some(text));
      } else if IsGoAssertion(line) {
        block := block.(details := PushUnique(block.details, line, MAX_GO_DETAILS, MAX_DETAIL_BYTES));
      }
      goBlocks := goBlocks[index.value := block];
      taken := true;
    }

    // ---------------------------------------------------------------- lines

    method ObserveGoLine(line: string) returns (taken: bool)
      modifies this
      ensures Taken(Value(), taken) == GoLine(old(Value()), line)
    {
      if GoPanicMessage(line).Some? {
        taken := ObserveGoPanic(GoPanicMessage(line).value);
        if taken { return; }
      }
      if GoTestLocation(line).Some? {
        taken := ObserveGoLocation(GoTestLocation(line).value);
        if taken { return; }
      }
      taken := ObserveGoDetail(line);
    }

    method ObserveGtestLine(line: string) returns (taken: bool)
      modifies this
      ensures Taken(Value(), taken) == GtestLine(old(Value()), line)
    {
      taken := true;
      if GtestRunningName(line).Some? {
        FinishGtestCurrent();
        var name := BoundedText(GtestRunningName(line).value, MAX_NAME_BYTES);
        gtestRunning := Some(name);
      } else if GtestFailure(line).Some? {
        FinishGtestCurrent();
        var name := if gtestRunning.Some? then gtestRunning.value else UNKNOWN_GTEST;
        gtestCurrent := Some(GtestBlock(name, GtestFailure(line).value, []));
      } else if GtestFailedName(line).Some? {
        if gtestRunning == GtestFailedName(line) {
          FinishGtestCurrent();
          gtestRunning := None;
        }
      } else if gtestCurrent.Some? {
        var block := gtestCurrent.value;
        if |block.details| < MAX_GTEST_DETAILS && !IsGtestStatus(line) {
          var detail := BoundedText(line, MAX_DETAIL_BYTES);
          gtestCurrent := Some(block.(details := block.details + [detail]));
        }
      } else {
        taken := false;
      }
    }

    method ObserveRustLine(line: string)
      modifies this
      ensures Value() == RustLine(old(Value()), line)
    {
      if RustFailedName(line).Some? {
        failedNames := PushUnique(failedNames, RustFailedName(line).value, MAX_FAILURES, MAX_NAME_BYTES);
      }
      if RustBlockName(line).Some? {
        FinishCurrent();
        var name := BoundedText(RustBlockName(line).value, MAX_NAME_BYTES);
        current := Some(NO_RUST_BLOCK.(name := name));
        return;
      }
      if RustPanic(line).Some? {
        var panic := RustPanic(line).value;
        if current.Some? && current.value.name != [] && current.value.name != panic.name {
          FinishCurrent();
        }
        if current.None? {
          current := Some(NO_RUST_BLOCK);
        }
        var name := BoundedText(panic.name, MAX_NAME_BYTES);
        current := Some(current.value.(name := name, location := panic.location, sawPanic := true));
        return;
      }
      if IsFailureHeading(line) {
        FinishCurrent();
        return;
      }
      if current.Some? {
        current := Some(RustDetail(current.value, line));
      }
    }

    method ObserveLine(raw: string)
      modifies this
      ensures Value() == Observe(old(Value()), raw)
    {
      var line := Trim(raw);
      if line == [] {
        return;
      }
      if GoRunningName(line).Some? {
        CompactGoBlocks();
        var name := BoundedText(GoRunningName(line).value, MAX_NAME_BYTES);
        goRunning := Some(name);
        goPanic := None;
        return;
      }
      if GoFailedName(line).Some? {
        ObserveGoFailureStatus(GoFailedName(line).value);
        return;
      }
      if IsGoNonfailure(line) && goRunning.Some? {
        goPanic := None;
        goRunning := None;
        return;
      }
      var taken := ObserveGoLine(line);
      if taken { return; }
      taken := ObserveGtestLine(line);
      if taken { return; }
      ObserveRustLine(line);
    }
  }

  /** Extracts the failures of a whole log with one accumulator: the evidence of all its lines, within the
      limits on their number and their texts. */
  method ExtractFailures(lines: seq<string>) returns (evidence: seq<Evidence>)
    ensures evidence == FinishAll(ObserveAll(lines))
    ensures EvidenceWithin(evidence)
  {
    var accumulator := new TestFailureAccumulator();
    for i := 0 to |lines|
      invariant accumulator.Value() == ObserveAll(lines[..i])
    {
      assert lines[..i + 1][..i] == lines[..i];
      accumulator.ObserveLine(lines[i]);
    }
    assert lines[..|lines|] == lines;
    AlwaysWithin(lines);
    evidence := accumulator.Finish();
  }
}
