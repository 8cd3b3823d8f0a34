/** No failure is made up: every returned one names a test that some line of the log says has failed. */
module TestNames {
  import opened Model
  import opened Text
  import opened Strings
  import opened Sequences
  import opened TestFailures
  import opened TestFailureLemmas
  import opened TestReports

  function NameIn(name: Option<string>): set<string> {
    match name case None => {} case Some(n) => {Bounded(n, 512)}
  }

  // The tests that a line says have failed: a failed Go or libtest status, a libtest panic, or the captured output
  // of a failed libtest test.
  function FailingIn(line: string): set<string> {
    NameIn(GoFailedName(line)) + NameIn(RustFailedName(line)) + NameIn(RustBlockName(line))
      + NameIn(match RustPanic(line) case None => None case Some(panic) => Some(panic.name))
  }

  function Failing(lines: seq<string>): set<string> {
    if lines == [] then {} else Failing(lines[..|lines| - 1]) + FailingIn(Trim(lines[|lines| - 1]))
  }

  // The GoogleTest tests that were started, and the name for one that was not.
  function Started(lines: seq<string>): set<string> {
    if lines == [] then {"<unknown gtest>"}
    else Started(lines[..|lines| - 1]) + NameIn(GtestRunningName(Trim(lines[|lines| - 1])))
  }

  // Some line names the place of a GoogleTest failure.
  predicate HasGtestFailure(lines: seq<string>) {
    exists i :: 0 <= i < |lines| && GtestFailure(Trim(lines[i])).Some?
  }

  // The tests that may be reported of a log.
  function Reportable(lines: seq<string>): set<string> {
    Failing(lines) + if HasGtestFailure(lines) then Started(lines) else {}
  }

  predicate NamesAmong(evidence: seq<Evidence>, names: set<string>) {
    forall i | 0 <= i < |evidence| :: evidence[i].name in names
  }

  // What an accumulator holds is about tests that the log says have failed.
  predicate IsFounded(acc: Accumulator, failing: set<string>, started: set<string>, reportable: set<string>) {
    && (forall i | 0 <= i < |acc.failedNames| :: acc.failedNames[i] in failing)
    && NamesAmong(acc.failures, reportable)
    && (acc.current.Some? ==> acc.current.value.name == "" || acc.current.value.name in failing)
    && (acc.gtestRunning.Some? ==> acc.gtestRunning.value in started)
    && (acc.gtestCurrent.Some? ==> acc.gtestCurrent.value.name in reportable)
    && (forall i | 0 <= i < |acc.goBlocks| && acc.goBlocks[i].failed :: acc.goBlocks[i].name in failing)
  }

  // All three sets grow with the log.
  lemma MoreNames(acc: Accumulator, f: set<string>, s: set<string>, r: set<string>, f': set<string>, s': set<string>, r': set<string>)
    requires IsFounded(acc, f, s, r) && f <= f' && s <= s' && r <= r'
    ensures IsFounded(acc, f', s', r')
  {
  }

  lemma ClosedIsFounded(acc: Accumulator, f: set<string>, s: set<string>, r: set<string>)
    requires IsFounded(acc, f, s, r) && f <= r
    ensures IsFounded(FinishRust(acc), f, s, r) && IsFounded(FinishGtest(acc), f, s, r)
  {
  }

  // ---------------------------------------------------------------- Go

  predicate BlocksFounded(blocks: seq<GoBlock>, f: set<string>) {
    forall i | 0 <= i < |blocks| && blocks[i].failed :: blocks[i].name in f
  }

  lemma CompactFounded(blocks: seq<GoBlock>, f: set<string>)
    requires BlocksFounded(blocks, f)
    ensures BlocksFounded(Compact(blocks), f)
  {
    forall i | 0 <= i < |Compact(blocks)| && Compact(blocks)[i].failed ensures Compact(blocks)[i].name in f {
      CompactMembers(blocks, Compact(blocks)[i]);
    }
  }

  lemma FoundFounded(blocks: seq<GoBlock>, name: string, includeFailed: bool, f: set<string>)
    requires BlocksFounded(blocks, f)
    ensures BlocksFounded(FindOrPush(blocks, name, includeFailed).blocks, f)
  {
    CompactFounded(blocks, f);
  }

  lemma ChangedFounded(blocks: seq<GoBlock>, k: nat, b: GoBlock, f: set<string>)
    requires BlocksFounded(blocks, f) && k < |blocks| && (b.failed ==> b.name in f || (blocks[k].failed && b.name == blocks[k].name))
    ensures BlocksFounded(blocks[k := b], f)
  {
  }

  lemma GoLineFounded(acc: Accumulator, line: string, f: set<string>)
    requires BlocksFounded(acc.goBlocks, f)
    ensures BlocksFounded(GoLine(acc, line).acc.goBlocks, f)
  {
    if GoContext(acc).Some? {
      var name := GoContext(acc).value;
      FoundFounded(acc.goBlocks, name, true, f);
      FoundFounded(acc.goBlocks, name, acc.goPanic.Some?, f);
      if GoPanicMessage(line).Some? {
        var found := FindOrPush(acc.goBlocks, name, true);
        if found.index.Some? {
          var k := found.index.value;
          ChangedFounded(found.blocks, k, WithPanic(found.blocks[k], GoPanicMessage(line).value), f);
        }
      } else {
        var found := FindOrPush(acc.goBlocks, name, acc.goPanic.Some?);
        if found.index.Some? {
          var k := found.index.value;
          if GoTestLocation(line).Some? {
            ChangedFounded(found.blocks, k, WithPlaceAndMessage(found.blocks[k], GoTestLocation(line).value), f);
          } else {
            ChangedFounded(found.blocks, k, WithMessage(found.blocks[k], line), f);
          }
        }
      }
    }
  }

  lemma FailedFounded(acc: Accumulator, rawName: string, f: set<string>)
    requires BlocksFounded(acc.goBlocks, f) && Bounded(rawName, 512) in f
    ensures BlocksFounded(GoFailed(acc, rawName).goBlocks, f)
  {
    var name := Bounded(rawName, 512);
    FoundFounded(acc.goBlocks, name, false, f);
    var found := FindOrPush(acc.goBlocks, name, false);
    if found.index.Some? {
      var k := found.index.value;
      LastBlockNamed(acc.goBlocks, name, false);
      BoundedTwice(rawName, 512);
      ChangedFounded(found.blocks, k, found.blocks[k].(failed := true), f);
    }
  }

  // ---------------------------------------------------------------- GoogleTest and libtest

  lemma GtestLineFounded(acc: Accumulator, line: string, f: set<string>, s: set<string>, r: set<string>)
    requires IsFounded(acc, f, s, r) && f <= r && "<unknown gtest>" in s
    requires NameIn(GtestRunningName(line)) <= s && (GtestFailure(line).Some? ==> s <= r)
    ensures IsFounded(GtestLine(acc, line).acc, f, s, r)
  {
    ClosedIsFounded(acc, f, s, r);
    if GtestRunningName(line).Some? {
      assert Bounded(GtestRunningName(line).value, 512) in NameIn(GtestRunningName(line));
    }
  }

  lemma NamedFounded(acc: Accumulator, line: string, f: set<string>, s: set<string>, r: set<string>)
    requires IsFounded(acc, f, s, r) && NameIn(RustFailedName(line)) <= f
    ensures IsFounded(RustNamed(acc, line), f, s, r)
  {
    if RustFailedName(line).Some? {
      assert Bounded(RustFailedName(line).value, 512) in NameIn(RustFailedName(line));
    }
  }

  lemma PanickedFounded(acc: Accumulator, panic: Panic, f: set<string>, s: set<string>, r: set<string>)
    requires IsFounded(acc, f, s, r) && f <= r && Bounded(panic.name, 512) in f
    ensures IsFounded(RustPanicked(acc, panic), f, s, r)
  {
    ClosedIsFounded(acc, f, s, r);
  }

  lemma DetailKeepsName(block: RustBlock, line: string)
    ensures RustDetail(block, line).name == block.name
  {
  }

  lemma RustLineFounded(acc: Accumulator, line: string, f: set<string>, s: set<string>, r: set<string>)
    requires IsFounded(acc, f, s, r) && f <= r && FailingIn(line) <= f
    ensures IsFounded(RustLine(acc, line), f, s, r)
  {
    var named := RustNamed(acc, line);
    FailingHas(line);
    NamedFounded(acc, line, f, s, r);
    ClosedIsFounded(named, f, s, r);
    if RustBlockName(line).None? && RustPanic(line).Some? {
      PanickedFounded(named, RustPanic(line).value, f, s, r);
    } else if named.current.Some? {
      DetailKeepsName(named.current.value, line);
    }
  }

  lemma FailingHas(line: string)
    ensures GoFailedName(line).Some? ==> Bounded(GoFailedName(line).value, 512) in FailingIn(line)
    ensures RustBlockName(line).Some? ==> Bounded(RustBlockName(line).value, 512) in FailingIn(line)
    ensures RustPanic(line).Some? ==> Bounded(RustPanic(line).value.name, 512) in FailingIn(line)
    ensures NameIn(RustFailedName(line)) <= FailingIn(line)
  {
  }

  lemma ObserveFounded(acc: Accumulator, raw: string, f: set<string>, s: set<string>, r: set<string>)
    requires IsFounded(acc, f, s, r) && f <= r && "<unknown gtest>" in s && FailingIn(Trim(raw)) <= f
    requires NameIn(GtestRunningName(Trim(raw))) <= s && (GtestFailure(Trim(raw)).Some? ==> s <= r)
    ensures IsFounded(Observe(acc, raw), f, s, r)
  {
    var line := Trim(raw);
    FailingHas(line);
    if line == "" {
    } else if GoRunningName(line).Some? {
      CompactFounded(acc.goBlocks, f);
    } else if GoFailedName(line).Some? {
      FailedFounded(acc, GoFailedName(line).value, f);
    } else if !IsGoStatus(acc, line) {
      var go := GoLine(acc, line).acc;
      GoLineFounded(acc, line, f);
      GoLineLeaves(acc, line);
      assert IsFounded(go, f, s, r);
      GtestLineFounded(go, line, f, s, r);
      RustLineFounded(GtestLine(go, line).acc, line, f, s, r);
    }
  }

  // ---------------------------------------------------------------- whole logs

  lemma FailureAmong(lines: seq<string>, raw: string)
    ensures HasGtestFailure(lines + [raw]) <==> HasGtestFailure(lines) || GtestFailure(Trim(raw)).Some?
  {
    var more := lines + [raw];
    assert more[|lines|] == raw;
    if HasGtestFailure(lines) {
      var i :| 0 <= i < |lines| && GtestFailure(Trim(lines[i])).Some?;
      assert more[i] == lines[i];
    }
    if HasGtestFailure(more) && GtestFailure(Trim(raw)).None? {
      var i :| 0 <= i < |more| && GtestFailure(Trim(more[i])).Some?;
      assert more[i] == lines[i];
    }
  }

  lemma SetsGrow(lines: seq<string>, raw: string)
    ensures Failing(lines + [raw]) == Failing(lines) + FailingIn(Trim(raw))
    ensures Started(lines + [raw]) == Started(lines) + NameIn(GtestRunningName(Trim(raw)))
  {
    InitOfAppend(lines, raw);
  }

  lemma Grows(lines: seq<string>, raw: string)
    ensures var more := lines + [raw];
      && Failing(lines) <= Failing(more) && FailingIn(Trim(raw)) <= Failing(more) && Started(lines) <= Started(more)
      && NameIn(GtestRunningName(Trim(raw))) <= Started(more)
      && Reportable(lines) <= Reportable(more) && Failing(more) <= Reportable(more)
      && (GtestFailure(Trim(raw)).Some? ==> Started(more) <= Reportable(more))
  {
    SetsGrow(lines, raw);
    FailureAmong(lines, raw);
  }

  lemma {:induction false} UnknownIsStarted(lines: seq<string>)
    ensures "<unknown gtest>" in Started(lines)
  {
    if lines != [] {
      UnknownIsStarted(lines[..|lines| - 1]);
    }
  }

  lemma {:induction false} AlwaysFounded(lines: seq<string>)
    ensures IsFounded(ObserveAll(lines), Failing(lines), Started(lines), Reportable(lines))
  {
    if lines != [] {
      var init, raw := lines[..|lines| - 1], lines[|lines| - 1];
      AlwaysFounded(init);
      assert lines == init + [raw];
      FoundedOneMore(ObserveAll(init), init, raw);
    }
  }

  lemma FoundedOneMore(acc: Accumulator, init: seq<string>, raw: string)
    requires IsFounded(acc, Failing(init), Started(init), Reportable(init))
    ensures var lines := init + [raw]; IsFounded(Observe(acc, raw), Failing(lines), Started(lines), Reportable(lines))
  {
    var lines := init + [raw];
    Grows(init, raw);
    MoreNames(acc, Failing(init), Started(init), Reportable(init), Failing(lines), Started(lines), Reportable(lines));
    UnknownIsStarted(lines);
    ObserveFounded(acc, raw, Failing(lines), Started(lines), Reportable(lines));
  }

  lemma {:induction false} GoFounded(blocks: seq<GoBlock>, failures: seq<Evidence>, f: set<string>, r: set<string>)
    requires BlocksFounded(blocks, f) && NamesAmong(failures, r) && f <= r
    ensures NamesAmong(FinishGo(blocks, failures), r)
  {
    if blocks != [] {
      GoFounded(blocks[..|blocks| - 1], failures, f, r);
    }
  }

  lemma {:induction false} NamesFounded(names: seq<string>, failures: seq<Evidence>, f: set<string>, r: set<string>)
    requires (forall i | 0 <= i < |names| :: names[i] in f) && NamesAmong(failures, r) && f <= r
    ensures NamesAmong(FinishNames(names, failures), r)
  {
    if names != [] {
      NamesFounded(names[..|names| - 1], failures, f, r);
    }
  }

  /** Every failure that is returned of a log names a test that a line of it says has failed, or, if some line names
      the place of a GoogleTest failure, a GoogleTest test that was started, or none. */
  lemma NothingIsMadeUp(lines: seq<string>)
    ensures NamesAmong(FinishAll(ObserveAll(lines)), Reportable(lines))
  {
    var acc, f, s, r := ObserveAll(lines), Failing(lines), Started(lines), Reportable(lines);
    AlwaysFounded(lines);
    ClosedIsFounded(acc, f, s, r);
    ClosedIsFounded(FinishRust(acc), f, s, r);
    var closed := FinishGtest(FinishRust(acc));
    GoFounded(closed.goBlocks, closed.failures, f, r);
    NamesFounded(closed.failedNames, FinishGo(closed.goBlocks, closed.failures), f, r);
  }
}
