/** What the compaction of Go blocks leaves visible to the lines that follow: nothing unless a line may
    change a failed block that repeats an earlier one, and then exactly when is decided by the evidence
    already reported. */
module GoCompaction {
  import opened Model
  import opened Utf8
  import opened Text
  import opened Strings
  import opened Sequences
  import opened TestFailures
  import opened TestFailureLemmas

  function Compacted(acc: Accumulator): Accumulator {
    acc.(goBlocks := Compact(acc.goBlocks))
  }

  // ---------------------------------------------------------------- compaction of concatenations

  // What compaction keeps of blocks that follow others.
  function Added(seen: seq<GoBlock>, more: seq<GoBlock>): seq<GoBlock> {
    if more == [] then []
    else
      var init, last := more[..|more| - 1], more[|more| - 1];
      if last.failed && (last in seen || last in init) then Added(seen, init) else Added(seen, init) + [last]
  }

  lemma CompactSnoc(blocks: seq<GoBlock>, last: GoBlock)
    ensures Compact(blocks + [last]) == if last.failed && last in blocks then Compact(blocks) else Compact(blocks) + [last]
  {
    InitOfAppend(blocks, last);
    CompactMembers(blocks, last);
  }

  lemma AddedSnoc(seen: seq<GoBlock>, more: seq<GoBlock>, last: GoBlock)
    ensures Added(seen, more + [last]) ==
      if last.failed && (last in seen || last in more) then Added(seen, more) else Added(seen, more) + [last]
  {
    InitOfAppend(more, last);
  }

  lemma {:induction false} CompactConcat(p: seq<GoBlock>, q: seq<GoBlock>)
    ensures Compact(p + q) == Compact(p) + Added(p, q)
  {
    if q == [] {
      assert p + q == p;
    } else {
      var init, last := q[..|q| - 1], q[|q| - 1];
      CompactConcat(p, init);
      assert p + q == (p + init) + [last];
      CompactSnoc(p + init, last);
      AppendAssociates(Compact(p), Added(p, init), [last]);
    }
  }

  lemma {:induction false} AddedMembers(seen: seq<GoBlock>, more: seq<GoBlock>, block: GoBlock)
    requires block in Added(seen, more)
    ensures block in more
  {
    var init, last := more[..|more| - 1], more[|more| - 1];
    if block in Added(seen, init) {
      AddedMembers(seen, init, block);
    } else {
      assert block == last;
    }
  }

  /** Compaction is idempotent. */
  lemma {:induction false} CompactIdempotent(blocks: seq<GoBlock>)
    ensures Compact(Compact(blocks)) == Compact(blocks)
  {
    if blocks != [] {
      var init, last := blocks[..|blocks| - 1], blocks[|blocks| - 1];
      CompactIdempotent(init);
      assert blocks == init + [last];
      CompactSnoc(init, last);
      CompactSnoc(Compact(init), last);
      CompactMembers(init, last);
    }
  }

  // Compacting the first part first changes nothing.
  lemma CompactedSnoc(p: seq<GoBlock>, s: GoBlock)
    ensures Compact(Compact(p) + [s]) == Compact(p + [s])
  {
    CompactSnoc(Compact(p), s);
    CompactSnoc(p, s);
    CompactIdempotent(p);
    CompactMembers(p, s);
  }

  // A block b between p and q that occurs in neither: what follows it may be compacted first as well,
  // even when b is replaced.
  lemma {:induction false} AddedTwice(p: seq<GoBlock>, b: GoBlock, s: GoBlock, q: seq<GoBlock>)
    requires b !in q
    ensures Added(Compact(p) + [s], Added(p + [b], q)) == Added(p + [s], q)
  {
    if q != [] {
      var init, x := q[..|q| - 1], q[|q| - 1];
      assert q == init + [x] && x in q;
      AddedTwice(p, b, s, init);
      var inner := Added(p + [b], init);
      CompactMembers(p, x);
      if x.failed && (x in p || x in init) {
        assert x in p + [b] || x in init;
      } else {
        assert x !in p + [b] || !x.failed;
        AddedSnoc(Compact(p) + [s], inner, x);
        if x in inner {
          AddedMembers(p + [b], init, x);
        }
      }
    }
  }

  lemma ReplacedBetween(p: seq<GoBlock>, b: GoBlock, s: GoBlock, q: seq<GoBlock>)
    requires !(b.failed && b in p) && b !in q
    ensures Compact(p + [b] + q) == Compact(p) + [b] + Added(p + [b], q)
    ensures Compact(Compact(p) + [s] + Added(p + [b], q)) == Compact(p + [s] + q)
  {
    CompactConcat(p + [b], q);
    CompactSnoc(p, b);
    CompactConcat(p + [s], q);
    CompactConcat(Compact(p) + [s], Added(p + [b], q));
    CompactedSnoc(p, s);
    AddedTwice(p, b, s, q);
  }

  // ---------------------------------------------------------------- the block a line changes

  // A failed block that repeats an earlier one, which compaction drops.
  predicate Repeats(blocks: seq<GoBlock>, k: nat)
    requires k < |blocks|
  {
    blocks[k].failed && blocks[k] in blocks[..k]
  }

  predicate Matches(block: GoBlock, name: string, includeFailed: bool) {
    block.name == name && (includeFailed || !block.failed)
  }

  predicate NoneMatch(blocks: seq<GoBlock>, name: string, includeFailed: bool) {
    forall i | 0 <= i < |blocks| :: !Matches(blocks[i], name, includeFailed)
  }

  lemma NoneMatchBehind(blocks: seq<GoBlock>, k: nat, name: string, includeFailed: bool)
    requires k < |blocks| && !Matches(blocks[|blocks| - 1], name, includeFailed)
    requires NoneMatch(blocks[..|blocks| - 1][k..], name, includeFailed)
    ensures NoneMatch(blocks[k..], name, includeFailed)
  {
    var before := blocks[..|blocks| - 1][k..];
    forall i | 0 <= i < |blocks| - k ensures !Matches(blocks[k..][i], name, includeFailed) {
      if i < |before| {
        assert blocks[k..][i] == before[i];
      }
    }
  }

  lemma {:induction false} LastBlockIsLast(blocks: seq<GoBlock>, name: string, includeFailed: bool)
    ensures match LastBlock(blocks, name, includeFailed)
      case None => NoneMatch(blocks, name, includeFailed)
      case Some(k) => Matches(blocks[k], name, includeFailed) && NoneMatch(blocks[k + 1..], name, includeFailed)
  {
    if blocks != [] && !Matches(blocks[|blocks| - 1], name, includeFailed) {
      var init := blocks[..|blocks| - 1];
      LastBlockIsLast(init, name, includeFailed);
      match LastBlock(init, name, includeFailed) {
        case None =>
        case Some(k) => NoneMatchBehind(blocks, k + 1, name, includeFailed);
      }
    }
  }

  lemma {:induction false} LastBlockBetween(p: seq<GoBlock>, b: GoBlock, q: seq<GoBlock>, name: string, includeFailed: bool)
    requires Matches(b, name, includeFailed) && NoneMatch(q, name, includeFailed)
    ensures LastBlock(p + [b] + q, name, includeFailed) == Some(|p|)
  {
    var all := p + [b] + q;
    if q == [] {
      assert all == p + [b];
    } else {
      var init, last := q[..|q| - 1], q[|q| - 1];
      LastBlockBetween(p, b, init, name, includeFailed);
      assert all == (p + [b] + init) + [last];
      InitOfAppend(p + [b] + init, last);
    }
  }

  lemma {:induction false} NoneMatchNone(blocks: seq<GoBlock>, name: string, includeFailed: bool)
    requires NoneMatch(blocks, name, includeFailed)
    ensures LastBlock(blocks, name, includeFailed) == None
  {
    if blocks != [] {
      NoneMatchNone(blocks[..|blocks| - 1], name, includeFailed);
    }
  }

  // Two ways to hold a block such that any change of it gives the same blocks up to compaction.
  ghost predicate Twins(x: Found, y: Found) {
    && x.IsValid() && y.IsValid()
    && (x.index.Some? <==> y.index.Some?)
    && (x.index.None? ==> Compact(x.blocks) == Compact(y.blocks))
    && (x.index.Some? ==>
          && x.blocks[x.index.value] == y.blocks[y.index.value]
          && forall s :: SameWith(x, y, s))
  }

  predicate SameWith(x: Found, y: Found, s: GoBlock)
    requires x.index.Some? && y.index.Some? && x.IsValid() && y.IsValid()
  {
    Compact(x.blocks[x.index.value := s]) == Compact(y.blocks[y.index.value := s])
  }

  lemma SplitAt(blocks: seq<GoBlock>, k: nat)
    requires k < |blocks|
    ensures blocks == blocks[..k] + [blocks[k]] + blocks[k + 1..]
  {
  }

  lemma ChangedAt(p: seq<GoBlock>, b: GoBlock, q: seq<GoBlock>, s: GoBlock)
    ensures (p + [b] + q)[|p| := s] == p + [s] + q
  {
  }

  // A block that does not repeat an earlier one is found after compaction, and changing it is the same.
  lemma FoundTwins(blocks: seq<GoBlock>, name: string, includeFailed: bool, k: nat)
    requires LastBlock(blocks, name, includeFailed) == Some(k) && !Repeats(blocks, k)
    ensures LastBlock(Compact(blocks), name, includeFailed).Some?
    ensures Twins(Found(blocks, Some(k)), Found(Compact(blocks), LastBlock(Compact(blocks), name, includeFailed)))
  {
    var p, b, q := blocks[..k], blocks[k], blocks[k + 1..];
    SplitAt(blocks, k);
    LastBlockIsLast(blocks, name, includeFailed);
    assert b !in q;
    var rest := Added(p + [b], q);
    ReplacedBetween(p, b, b, q);
    forall i | 0 <= i < |rest| ensures !Matches(rest[i], name, includeFailed) {
      AddedMembers(p + [b], q, rest[i]);
    }
    LastBlockBetween(Compact(p), b, rest, name, includeFailed);
    var x, y := Found(blocks, Some(k)), Found(Compact(blocks), Some(|Compact(p)|));
    forall s ensures SameWith(x, y, s) {
      ReplacedBetween(p, b, s, q);
      ChangedAt(p, b, q, s);
      ChangedAt(Compact(p), b, rest, s);
    }
  }

  lemma LastChanged(blocks: seq<GoBlock>, b: GoBlock, s: GoBlock)
    ensures (blocks + [b])[|blocks| := s] == blocks + [s]
  {
  }

  lemma PushTwins(blocks: seq<GoBlock>, name: string)
    ensures Twins(PushBlock(blocks, name), PushBlock(Compact(blocks), name))
  {
    CompactWithin(blocks);
    CompactIdempotent(blocks);
    var x, y := PushBlock(blocks, name), PushBlock(Compact(blocks), name);
    if |blocks| < MAX_GO_BLOCKS {
      forall s ensures SameWith(x, y, s) {
        LastChanged(blocks, x.blocks[|blocks|], s);
        LastChanged(Compact(blocks), y.blocks[|Compact(blocks)|], s);
        CompactedSnoc(blocks, s);
      }
    } else {
      assert x == y;
    }
  }

  lemma FindTwins(blocks: seq<GoBlock>, name: string, includeFailed: bool)
    requires var k := LastBlock(blocks, name, includeFailed); k.Some? ==> !Repeats(blocks, k.value)
    ensures Twins(FindOrPush(blocks, name, includeFailed), FindOrPush(Compact(blocks), name, includeFailed))
    ensures LastBlock(blocks, name, includeFailed).Some? <==> LastBlock(Compact(blocks), name, includeFailed).Some?
  {
    match LastBlock(blocks, name, includeFailed) {
      case Some(k) => FoundTwins(blocks, name, includeFailed, k);
      case None =>
        LastBlockIsLast(blocks, name, includeFailed);
        forall i | 0 <= i < |Compact(blocks)| ensures !Matches(Compact(blocks)[i], name, includeFailed) {
          CompactMembers(blocks, Compact(blocks)[i]);
        }
        NoneMatchNone(Compact(blocks), name, includeFailed);
        PushTwins(blocks, name);
    }
  }

  // ---------------------------------------------------------------- one line after compaction

  // The same accumulator up to compaction.
  predicate Similar(x: Accumulator, y: Accumulator) {
    Compacted(x) == Compacted(y)
  }

  lemma SimilarFinish(x: Accumulator, y: Accumulator)
    requires Similar(x, y)
    ensures FinishAll(x) == FinishAll(y)
  {
    CompactionTransparent(x);
    CompactionTransparent(y);
  }

  // The last block of the running or failed test is not a failed block that repeats an earlier one.
  predicate KeepsContext(acc: Accumulator) {
    match GoContext(acc)
    case None => true
    case Some(name) =>
      match LastBlock(acc.goBlocks, name, true)
      case None => true
      case Some(k) => !Repeats(acc.goBlocks, k)
  }

  // The same of the last block that matches, where failed blocks may not.
  predicate Unrepeated(blocks: seq<GoBlock>, name: string, includeFailed: bool) {
    match LastBlock(blocks, name, includeFailed) case None => true case Some(k) => !Repeats(blocks, k)
  }

  lemma ContextUnrepeated(acc: Accumulator, name: string, includeFailed: bool)
    requires KeepsContext(acc) && GoContext(acc) == Some(name)
    ensures Unrepeated(acc.goBlocks, name, includeFailed)
  {
    LastBlockIsLast(acc.goBlocks, name, includeFailed);
  }

  lemma GoFailedSimilar(acc: Accumulator, rawName: string)
    ensures Similar(GoFailed(Compacted(acc), rawName), GoFailed(acc, rawName))
  {
    var name := Bounded(rawName, MAX_NAME_BYTES);
    LastBlockIsLast(acc.goBlocks, name, false);
    FindTwins(acc.goBlocks, name, false);
    var x := FindOrPush(acc.goBlocks, name, false);
    if x.index.Some? {
      assert SameWith(x, FindOrPush(Compact(acc.goBlocks), name, false), x.blocks[x.index.value].(failed := true));
    }
  }

  lemma GoPanickedSimilar(acc: Accumulator, name: string, message: string)
    requires Unrepeated(acc.goBlocks, name, true)
    ensures Similar(GoPanicked(Compacted(acc), name, message), GoPanicked(acc, name, message))
  {
    FindTwins(acc.goBlocks, name, true);
    var x := FindOrPush(acc.goBlocks, name, true);
    if x.index.Some? {
      assert SameWith(x, FindOrPush(Compact(acc.goBlocks), name, true), WithPanic(x.blocks[x.index.value], message));
    }
  }

  lemma GoLocatedSimilar(acc: Accumulator, name: string, place: GoPlace)
    requires Unrepeated(acc.goBlocks, name, acc.goPanic.Some?)
    ensures Similar(GoLocated(Compacted(acc), name, place), GoLocated(acc, name, place))
  {
    CompactIdempotent(acc.goBlocks);
    var inc := acc.goPanic.Some?;
    FindTwins(acc.goBlocks, name, inc);
    var x := FindOrPush(acc.goBlocks, name, inc);
    if x.index.Some? {
      assert SameWith(x, FindOrPush(Compact(acc.goBlocks), name, inc), WithPlaceAndMessage(x.blocks[x.index.value], place));
    }
  }

  lemma FoundSimilar(acc: Accumulator, name: string, includeFailed: bool, s: GoBlock)
    requires Unrepeated(acc.goBlocks, name, includeFailed)
    ensures var x, y := FindOrPush(acc.goBlocks, name, includeFailed), FindOrPush(Compact(acc.goBlocks), name, includeFailed);
      if x.index.None? then y.index.None? && Similar(acc.(goBlocks := y.blocks), acc.(goBlocks := x.blocks))
      else && y.index.Some? && x.blocks[x.index.value] == y.blocks[y.index.value]
           && Similar(acc.(goBlocks := y.blocks[y.index.value := s]), acc.(goBlocks := x.blocks[x.index.value := s]))
  {
    FindTwins(acc.goBlocks, name, includeFailed);
    var x, y := FindOrPush(acc.goBlocks, name, includeFailed), FindOrPush(Compact(acc.goBlocks), name, includeFailed);
    if x.index.Some? {
      assert SameWith(x, y, s);
    }
  }

  lemma AwaitsAlike(acc: Accumulator, name: string, includeFailed: bool)
    requires Unrepeated(acc.goBlocks, name, includeFailed)
    ensures AwaitsAssertion(acc.goBlocks, LastBlock(acc.goBlocks, name, includeFailed))
      <==> AwaitsAssertion(Compact(acc.goBlocks), LastBlock(Compact(acc.goBlocks), name, includeFailed))
  {
    FindTwins(acc.goBlocks, name, includeFailed);
  }

  lemma GoDetailSimilar(acc: Accumulator, name: string, line: string)
    requires Unrepeated(acc.goBlocks, name, acc.goPanic.Some?)
    ensures Similar(GoDetail(Compacted(acc), name, line).acc, GoDetail(acc, name, line).acc)
    ensures GoDetail(Compacted(acc), name, line).taken == GoDetail(acc, name, line).taken
  {
    var inc := acc.goPanic.Some?;
    CompactIdempotent(acc.goBlocks);
    AwaitsAlike(acc, name, inc);
    var x := FindOrPush(acc.goBlocks, name, inc);
    FoundSimilar(acc, name, inc,
      if x.index.Some? then WithMessage(x.blocks[x.index.value], line) else NewGoBlock(name));
  }

  // A line that ends or starts a test, or is blank: no block of the context is asked.
  predicate IsStatus(acc: Accumulator, line: string) {
    line == [] || GoRunningName(line).Some? || GoFailedName(line).Some? || (IsGoNonfailure(line) && acc.goRunning.Some?)
  }

  // Whether a line may change a failed block.
  predicate ReachesFailed(acc: Accumulator, line: string) {
    GoPanicMessage(line).Some? || acc.goPanic.Some?
  }

  // The last block that the line can change is not a failed block that repeats an earlier one.
  predicate Guarded(acc: Accumulator, line: string) {
    match GoContext(acc) case None => true case Some(name) => Unrepeated(acc.goBlocks, name, ReachesFailed(acc, line))
  }

  lemma GoLineSimilar(acc: Accumulator, line: string)
    requires Guarded(acc, line)
    ensures Similar(GoLine(Compacted(acc), line).acc, GoLine(acc, line).acc)
    ensures GoLine(Compacted(acc), line).taken == GoLine(acc, line).taken
  {
    match GoContext(acc) {
      case None => CompactIdempotent(acc.goBlocks);
      case Some(name) =>
        if GoPanicMessage(line).Some? {
          GoPanickedSimilar(acc, name, GoPanicMessage(line).value);
        } else if GoTestLocation(line).Some? {
          GoLocatedSimilar(acc, name, GoTestLocation(line).value);
        } else {
          GoDetailSimilar(acc, name, line);
        }
    }
  }

  // The other frameworks neither read nor change Go blocks.
  lemma GtestIgnoresGo(acc: Accumulator, line: string, blocks: seq<GoBlock>)
    ensures GtestLine(acc.(goBlocks := blocks), line) ==
      Taken(GtestLine(acc, line).acc.(goBlocks := blocks), GtestLine(acc, line).taken)
  {
  }

  lemma PanicIgnoresGo(acc: Accumulator, panic: Panic, blocks: seq<GoBlock>)
    ensures RustPanicked(acc.(goBlocks := blocks), panic) == RustPanicked(acc, panic).(goBlocks := blocks)
  {
  }

  lemma RustIgnoresGo(acc: Accumulator, line: string, blocks: seq<GoBlock>)
    ensures RustLine(acc.(goBlocks := blocks), line) == RustLine(acc, line).(goBlocks := blocks)
  {
    var named := RustNamed(acc, line);
    ClosingIgnoresGo(named, blocks);
    if RustPanic(line).Some? {
      PanicIgnoresGo(named, RustPanic(line).value, blocks);
    }
  }

  lemma SimilarFields(x: Accumulator, y: Accumulator)
    requires Similar(x, y)
    ensures y == x.(goBlocks := y.goBlocks) && Compact(x.goBlocks) == Compact(y.goBlocks)
  {
  }

  lemma OthersSimilar(x: Accumulator, y: Accumulator, line: string)
    requires Similar(x, y)
    ensures Similar(GtestLine(x, line).acc, GtestLine(y, line).acc) && GtestLine(x, line).taken == GtestLine(y, line).taken
    ensures Similar(RustLine(x, line), RustLine(y, line))
  {
    SimilarFields(x, y);
    GtestIgnoresGo(x, line, y.goBlocks);
    RustIgnoresGo(x, line, y.goBlocks);
    GtestKeepsBlocks(x, line);
    RustKeepsBlocks(x, line);
  }

  // What the other frameworks make of a line that Go does not take.
  function Others(acc: Accumulator, line: string): Accumulator {
    var gtest := GtestLine(acc, line);
    if gtest.taken then gtest.acc else RustLine(gtest.acc, line)
  }

  lemma OthersOfSimilar(x: Accumulator, y: Accumulator, line: string)
    requires Similar(x, y)
    ensures Similar(Others(x, line), Others(y, line))
  {
    OthersSimilar(x, y, line);
    OthersSimilar(GtestLine(x, line).acc, GtestLine(y, line).acc, line);
  }

  lemma StatusSimilar(acc: Accumulator, raw: string)
    requires IsStatus(acc, Trim(raw))
    ensures Similar(Observe(Compacted(acc), raw), Observe(acc, raw))
  {
    var line := Trim(raw);
    CompactIdempotent(acc.goBlocks);
    if GoFailedName(line).Some? {
      GoFailedSimilar(acc, GoFailedName(line).value);
    }
  }

  lemma LineSimilar(acc: Accumulator, raw: string)
    requires IsStatus(acc, Trim(raw)) || Guarded(acc, Trim(raw))
    ensures Similar(Observe(Compacted(acc), raw), Observe(acc, raw))
  {
    var line := Trim(raw);
    if IsStatus(acc, line) {
      StatusSimilar(acc, raw);
    } else {
      GoLineSimilar(acc, line);
      OthersOfSimilar(GoLine(Compacted(acc), line).acc, GoLine(acc, line).acc, line);
    }
  }

  /** Whatever line follows, compaction before it is invisible at the end, unless the last block of the
      running or failed test is a failed block that repeats an earlier one. */
  lemma CompactionInvisibleToLine(acc: Accumulator, raw: string)
    requires KeepsContext(acc)
    ensures FinishAll(Observe(Compacted(acc), raw)) == FinishAll(Observe(acc, raw))
  {
    if GoContext(acc).Some? {
      ContextUnrepeated(acc, GoContext(acc).value, ReachesFailed(acc, Trim(raw)));
    }
    LineSimilar(acc, raw);
    SimilarFinish(Observe(Compacted(acc), raw), Observe(acc, raw));
  }

  /** When the next test starts, which is where the program compacts, compaction before it leaves nothing
      at all to see: the two accumulators are equal from then on. */
  lemma NextTestForgetsCompaction(acc: Accumulator, raw: string)
    requires GoRunningName(Trim(raw)).Some?
    ensures Observe(Compacted(acc), raw) == Observe(acc, raw)
  {
    CompactIdempotent(acc.goBlocks);
  }

  // ---------------------------------------------------------------- a repeated block that a line changes

  // Evidence of one more block, without the limit.
  function Report(evidence: seq<Evidence>, block: GoBlock): seq<Evidence> {
    if !block.failed || GoEvidence(block) in evidence then evidence else evidence + [GoEvidence(block)]
  }

  function Reports(blocks: seq<GoBlock>, evidence: seq<Evidence>): seq<Evidence> {
    if blocks == [] then evidence else Report(Reports(blocks[..|blocks| - 1], evidence), blocks[|blocks| - 1])
  }

  // What is within the limit.
  function Limited(evidence: seq<Evidence>): seq<Evidence> {
    evidence[..Min(|evidence|, MAX_FAILURES)]
  }

  // The limit cuts off what is reported last.
  lemma {:induction false} FinishIsLimited(blocks: seq<GoBlock>, evidence: seq<Evidence>)
    requires |evidence| <= MAX_FAILURES
    ensures FinishGo(blocks, evidence) == Limited(Reports(blocks, evidence))
  {
    if blocks != [] {
      FinishIsLimited(blocks[..|blocks| - 1], evidence);
      LimitedReport(Reports(blocks[..|blocks| - 1], evidence), blocks[|blocks| - 1]);
    }
  }

  lemma LimitedReport(reports: seq<Evidence>, block: GoBlock)
    ensures Limited(Report(reports, block)) ==
      if |reports| >= MAX_FAILURES then Limited(reports) else Report(reports, block)
  {
  }

  lemma {:induction false} FinishAtLimit(blocks: seq<GoBlock>, evidence: seq<Evidence>)
    requires |evidence| >= MAX_FAILURES
    ensures FinishGo(blocks, evidence) == evidence
  {
    if blocks != [] {
      FinishAtLimit(blocks[..|blocks| - 1], evidence);
    }
  }

  lemma ReportsSnoc(blocks: seq<GoBlock>, last: GoBlock, evidence: seq<Evidence>)
    ensures Reports(blocks + [last], evidence) == Report(Reports(blocks, evidence), last)
  {
    InitOfAppend(blocks, last);
  }

  lemma {:induction false} ReportsConcat(p: seq<GoBlock>, q: seq<GoBlock>, evidence: seq<Evidence>)
    ensures Reports(p + q, evidence) == Reports(q, Reports(p, evidence))
  {
    if q == [] {
      AppendNothing(p);
    } else {
      var init, last := q[..|q| - 1], q[|q| - 1];
      ReportsConcat(p, init, evidence);
      AppendAssociates(p, init, [last]);
      assert q == init + [last];
      ReportsSnoc(p + init, last, evidence);
      ReportsSnoc(init, last, Reports(p, evidence));
    }
  }

  lemma ReportsBetween(p: seq<GoBlock>, b: GoBlock, q: seq<GoBlock>, evidence: seq<Evidence>)
    ensures Reports(p + [b] + q, evidence) == Reports(q, Report(Reports(p, evidence), b))
  {
    ReportsConcat(p + [b], q, evidence);
    ReportsConcat(p, [b], evidence);
    assert [b][..0] == [];
  }

  // What blocks add to evidence already there.
  function Fresh(blocks: seq<GoBlock>, evidence: seq<Evidence>): seq<Evidence> {
    if blocks == [] then []
    else
      var init, last := blocks[..|blocks| - 1], blocks[|blocks| - 1];
      if !last.failed || GoEvidence(last) in evidence || GoEvidence(last) in Fresh(init, evidence) then Fresh(init, evidence)
      else Fresh(init, evidence) + [GoEvidence(last)]
  }

  lemma {:induction false} ReportsFresh(blocks: seq<GoBlock>, evidence: seq<Evidence>)
    ensures Reports(blocks, evidence) == evidence + Fresh(blocks, evidence)
  {
    if blocks != [] {
      ReportsFresh(blocks[..|blocks| - 1], evidence);
    } else {
      assert evidence + [] == evidence;
    }
  }

  predicate Unnamed(blocks: seq<GoBlock>, name: string) {
    forall i | 0 <= i < |blocks| :: blocks[i].name != name
  }

  lemma {:induction false} FreshUnnamed(blocks: seq<GoBlock>, evidence: seq<Evidence>, name: string)
    requires Unnamed(blocks, name)
    ensures forall i | 0 <= i < |Fresh(blocks, evidence)| :: Fresh(blocks, evidence)[i].name != name
  {
    if blocks != [] {
      FreshUnnamed(blocks[..|blocks| - 1], evidence, name);
    }
  }

  // Evidence of another name in front makes no difference to what blocks add.
  lemma {:induction false} FreshBeside(blocks: seq<GoBlock>, evidence: seq<Evidence>, x: Evidence)
    requires Unnamed(blocks, x.name)
    ensures Fresh(blocks, evidence + [x]) == Fresh(blocks, evidence)
  {
    if blocks != [] {
      FreshBeside(blocks[..|blocks| - 1], evidence, x);
      assert GoEvidence(blocks[|blocks| - 1]).name != x.name;
    }
  }

  // What unnamed blocks add behind a reported block of the name.
  lemma FreshBehind(blocks: seq<GoBlock>, evidence: seq<Evidence>, block: GoBlock)
    requires Unnamed(blocks, block.name)
    ensures Reports(blocks, Report(evidence, block)) == Report(evidence, block) + Fresh(blocks, evidence)
  {
    ReportsFresh(blocks, Report(evidence, block));
    FreshBeside(blocks, evidence, GoEvidence(block));
  }

  /** Two failed blocks of one name, the last without and the last with compaction, are changed to s and
      t. before is what is reported before the first, a what is reported before the second. */
  predicate SeesTheSame(a: seq<Evidence>, before: seq<Evidence>, s: GoBlock, kept: GoBlock, t: GoBlock) {
    if |before| >= MAX_FAILURES || GoEvidence(s) in before
    then |a| >= MAX_FAILURES || Report(a, kept) == Report(a, t)
    else kept.failed && GoEvidence(kept) in a && GoEvidence(t) == GoEvidence(s) && before == a
  }

  // Whatever follows a full report is cut off.
  lemma LimitHides(full: seq<Evidence>, x: seq<Evidence>)
    requires |full| >= MAX_FAILURES
    ensures Limited(full + x) == Limited(full)
  {
  }

  lemma DifferAt(x: seq<Evidence>, y: seq<Evidence>, i: nat)
    requires i < MAX_FAILURES && i < |x| && (i < |y| ==> x[i] != y[i])
    ensures Limited(x) != Limited(y)
  {
    if i < |y| {
      assert Limited(x)[i] == x[i] && Limited(y)[i] == y[i];
    }
  }

  // None of the evidence has the name.
  predicate NoneNamed(evidence: seq<Evidence>, name: string) {
    forall i | 0 <= i < |evidence| :: evidence[i].name != name
  }

  // Evidence of a name is exchanged for other evidence of it, or inserted or taken away.
  lemma ExchangedAt(a: seq<Evidence>, kept: GoBlock, t: GoBlock, tail: seq<Evidence>)
    requires kept.name == t.name && kept.failed == t.failed && NoneNamed(tail, kept.name)
    ensures Limited(Report(a, kept) + tail) == Limited(Report(a, t) + tail)
      <==> |a| >= MAX_FAILURES || Report(a, kept) == Report(a, t)
  {
    var x, y := Report(a, kept), Report(a, t);
    if |a| >= MAX_FAILURES {
      LimitHides(a, x[|a|..] + tail);
      LimitHides(a, y[|a|..] + tail);
      AppendAssociates(a, x[|a|..], tail);
      AppendAssociates(a, y[|a|..], tail);
      assert x == a + x[|a|..] && y == a + y[|a|..];
    } else if x != y {
      if |x| > |a| {
        DifferAt(x + tail, y + tail, |a|);
      } else {
        DifferAt(y + tail, x + tail, |a|);
      }
    }
  }

  // Evidence of a name is inserted among what is reported, in the one place and by the other change.
  lemma InsertedAt(
    before: seq<Evidence>, tailQ: seq<Evidence>, a: seq<Evidence>, tail: seq<Evidence>, s: GoBlock, kept: GoBlock, t: GoBlock)
    requires |before| < MAX_FAILURES && GoEvidence(s) !in before && s.failed
    requires kept.name == s.name && t.name == s.name && kept.failed == t.failed
    requires before + tailQ == Report(a, kept) + tail && NoneNamed(tailQ, s.name) && NoneNamed(tail, s.name)
    ensures Limited(before + [GoEvidence(s)] + tailQ) == Limited(Report(a, t) + tail) <==>
      kept.failed && GoEvidence(kept) in a && GoEvidence(t) == GoEvidence(s) && before == a
  {
    var left, right, i := before + [GoEvidence(s)] + tailQ, Report(a, t) + tail, |before|;
    assert left[i] == GoEvidence(s);
    SameInsertion(before, tailQ, a, tail, s, kept, t);
    if i < |right| && right[i] == GoEvidence(s) {
      InsertedHere(before, tailQ, a, tail, s, kept, t);
    } else {
      DifferAt(left, right, i);
    }
  }

  // Only the other change can have put it there, and in the same place.
  lemma InsertedHere(
    before: seq<Evidence>, tailQ: seq<Evidence>, a: seq<Evidence>, tail: seq<Evidence>, s: GoBlock, kept: GoBlock, t: GoBlock)
    requires GoEvidence(s) !in before && kept.name == s.name && t.name == s.name && kept.failed == t.failed
    requires before + tailQ == Report(a, kept) + tail && NoneNamed(tailQ, s.name) && NoneNamed(tail, s.name)
    requires |before| < |Report(a, t) + tail| && (Report(a, t) + tail)[|before|] == GoEvidence(s)
    ensures kept.failed && GoEvidence(kept) in a && GoEvidence(t) == GoEvidence(s) && before == a
  {
    NotAmong(before, tailQ, Report(a, kept), tail, GoEvidence(s));
    InsertedBehind(a, t, tail, |before|, GoEvidence(s));
    KeptBefore(before, tailQ, a, kept, tail);
  }

  lemma NotAmong(before: seq<Evidence>, tailQ: seq<Evidence>, x: seq<Evidence>, tail: seq<Evidence>, e: Evidence)
    requires e !in before && NoneNamed(tailQ, e.name) && before + tailQ == x + tail
    ensures e !in x
  {
    forall i | 0 <= i < |x| ensures x[i] != e {
      assert x[i] == (before + tailQ)[i];
    }
  }

  lemma InsertedBehind(a: seq<Evidence>, t: GoBlock, tail: seq<Evidence>, i: nat, e: Evidence)
    requires e !in a && NoneNamed(tail, e.name) && i < |Report(a, t) + tail| && (Report(a, t) + tail)[i] == e
    ensures i == |a| && Report(a, t) == a + [e]
  {
  }

  lemma KeptBefore(before: seq<Evidence>, tailQ: seq<Evidence>, a: seq<Evidence>, kept: GoBlock, tail: seq<Evidence>)
    requires |before| == |a| && before + tailQ == Report(a, kept) + tail && NoneNamed(tailQ, kept.name)
    ensures before == a && Report(a, kept) == a
  {
    var x := Report(a, kept);
    assert before == (before + tailQ)[..|a|] == a;
    assert tailQ == (before + tailQ)[|a|..] == x[|a|..] + tail;
    NoneNamedFirst(x[|a|..], tail, kept.name);
    AddedIsNamed(a, kept);
  }

  lemma AddedIsNamed(a: seq<Evidence>, kept: GoBlock)
    ensures Report(a, kept) != a ==> !NoneNamed(Report(a, kept)[|a|..], kept.name)
  {
    if Report(a, kept) != a {
      assert Report(a, kept)[|a|..][0] == GoEvidence(kept);
    }
  }

  lemma NoneNamedFirst(x: seq<Evidence>, tail: seq<Evidence>, name: string)
    requires NoneNamed(x + tail, name)
    ensures NoneNamed(x, name)
  {
    forall i | 0 <= i < |x| ensures x[i].name != name {
      assert (x + tail)[i] == x[i];
    }
  }

  lemma SameInsertion(
    before: seq<Evidence>, tailQ: seq<Evidence>, a: seq<Evidence>, tail: seq<Evidence>, s: GoBlock, kept: GoBlock, t: GoBlock)
    requires GoEvidence(s) !in before && kept.failed == t.failed
    requires before + tailQ == Report(a, kept) + tail
    ensures kept.failed && GoEvidence(kept) in a && GoEvidence(t) == GoEvidence(s) && before == a ==>
      Report(a, t) + tail == before + [GoEvidence(s)] + tailQ
  {
    if kept.failed && GoEvidence(kept) in a && GoEvidence(t) == GoEvidence(s) && before == a {
      assert tailQ == (before + tailQ)[|a|..] == tail;
    }
  }

  lemma ReportedMember(blocks: seq<GoBlock>, evidence: seq<Evidence>, block: GoBlock)
    requires block in blocks && block.failed
    ensures GoEvidence(block) in Reports(blocks, evidence)
    decreases |blocks|
  {
    if block != blocks[|blocks| - 1] {
      ReportedMember(blocks[..|blocks| - 1], evidence, block);
    }
  }

  lemma {:induction false} ReportsOfCompacted(blocks: seq<GoBlock>, evidence: seq<Evidence>)
    ensures Reports(Compact(blocks), evidence) == Reports(blocks, evidence)
  {
    if blocks != [] {
      var init, last := blocks[..|blocks| - 1], blocks[|blocks| - 1];
      ReportsOfCompacted(init, evidence);
      ReportsSnoc(Compact(init), last, evidence);
      CompactMembers(init, last);
      if last.failed && last in init {
        ReportedMember(init, evidence, last);
      }
    }
  }

  lemma ChangedReports(p: seq<GoBlock>, b: GoBlock, q: seq<GoBlock>, evidence: seq<Evidence>, s: GoBlock)
    requires b.failed && b in p && Unnamed(q, b.name) && s.name == b.name && s.failed
    ensures var before, r := Reports(p, evidence), Reports(p + [b] + q, evidence);
      && r == before + Fresh(q, before)
      && (GoEvidence(s) in r <==> GoEvidence(s) in before)
      && Reports(p + [s] + q, evidence) == Report(before, s) + Fresh(q, before)
  {
    var before := Reports(p, evidence);
    ReportedMember(p, evidence, b);
    ReportsBetween(p, b, q, evidence);
    ReportsBetween(p, s, q, evidence);
    ReportsFresh(q, before);
    FreshBehind(q, before, s);
    FreshUnnamed(q, before, s.name);
  }

  // The changed block is reported as before, or cut off.
  lemma UnchangedReport(before: seq<Evidence>, s: GoBlock, tailQ: seq<Evidence>)
    requires s.failed && (|before| >= MAX_FAILURES || GoEvidence(s) in before)
    ensures Limited(Report(before, s) + tailQ) == Limited(before + tailQ)
  {
    if GoEvidence(s) !in before {
      AppendAssociates(before, [GoEvidence(s)], tailQ);
      LimitHides(before, [GoEvidence(s)] + tailQ);
      LimitHides(before, tailQ);
    }
  }

  /** The exact condition: two changes of blocks of one name lead to the same report within the limit. */
  lemma SameReportExactly(p: seq<GoBlock>, b: GoBlock, q: seq<GoBlock>, c: seq<GoBlock>, kept: GoBlock, d: seq<GoBlock>,
                          evidence: seq<Evidence>, s: GoBlock, t: GoBlock)
    requires b.failed && b in p && kept.name == b.name && Unnamed(q, b.name) && Unnamed(d, b.name)
    requires s.name == b.name && s.failed && t.name == kept.name && t.failed == kept.failed
    requires Reports(p + [b] + q, evidence) == Reports(c + [kept] + d, evidence)
    ensures Limited(Reports(p + [s] + q, evidence)) == Limited(Reports(c + [t] + d, evidence)) <==>
              SeesTheSame(Reports(c, evidence), Reports(p, evidence), s, kept, t)
  {
    var a, before := Reports(c, evidence), Reports(p, evidence);
    var tail, tailQ := Fresh(d, a), Fresh(q, before);
    ChangedReports(p, b, q, evidence, s);
    ReportsBetween(c, kept, d, evidence);
    ReportsBetween(c, t, d, evidence);
    FreshBehind(d, a, kept);
    FreshBehind(d, a, t);
    FreshUnnamed(d, a, b.name);
    FreshUnnamed(q, before, b.name);
    if |before| >= MAX_FAILURES || GoEvidence(s) in before {
      UnchangedReport(before, s, tailQ);
      ExchangedAt(a, kept, t, tail);
    } else {
      InsertedAt(before, tailQ, a, tail, s, kept, t);
    }
  }

  // Where both reports are cut at the limit the condition reads the same.
  lemma SeesLimited(a: seq<Evidence>, before: seq<Evidence>, s: GoBlock, kept: GoBlock, t: GoBlock)
    ensures SeesTheSame(Limited(a), Limited(before), s, kept, t) <==> SeesTheSame(a, before, s, kept, t)
  {
    assert |a| < MAX_FAILURES ==> Limited(a) == a;
    assert |before| < MAX_FAILURES ==> Limited(before) == before;
  }

  // ---------------------------------------------------------------- what a line changes

  // The evidence of the frameworks that are closed before Go.
  function EarlierEvidence(acc: Accumulator): seq<Evidence> {
    FinishGtest(FinishRust(acc)).failures
  }

  // Whether a line that is no status line is taken for a block of its test: a panic, a location, an
  // assertion, or anything else where the block awaits its assertion.
  predicate TakesLine(line: string, block: GoBlock) {
    GoPanicMessage(line).Some? || GoTestLocation(line).Some? ||
    (!IsGoNoise(line) && !IsGoFrame(line) && (IsGoAssertion(line) || (block.location.Some? && block.assertion.None?)))
  }

  // What such a line makes of a block.
  function ChangedBy(line: string, block: GoBlock): (changed: GoBlock)
    ensures changed.name == block.name && changed.failed == block.failed
  {
    if GoPanicMessage(line).Some? then WithPanic(block, GoPanicMessage(line).value)
    else
      match GoTestLocation(line)
      case None => if TakesLine(line, block) then WithMessage(block, line) else block
      case Some(place) =>
        if place.stackFrame && IsGoRuntimePath(place.location.path) then block else WithPlaceAndMessage(block, place)
  }

  // The last block of the test without compaction and with it, if these are different things.
  datatype Pair = Pair(k: nat, j: nat)

  function RepeatedPair(acc: Accumulator, line: string): (pair: Option<Pair>)
    ensures pair.Some? ==> pair.value.k < |acc.goBlocks| && pair.value.j < |Compact(acc.goBlocks)|
  {
    if IsStatus(acc, line) then None
    else
      match GoContext(acc)
      case None => None
      case Some(name) =>
        match LastBlock(acc.goBlocks, name, ReachesFailed(acc, line))
        case None => None
        case Some(k) =>
          if !Repeats(acc.goBlocks, k) then None
          else match LastBlock(Compact(acc.goBlocks), name, true) case None => None case Some(j) => Some(Pair(k, j))
  }

  // A new last name gives no summary: it has a failure, or there is no room.
  predicate NamesUnseen(before: seq<string>, after: seq<string>, evidence: seq<Evidence>) {
    after == before ||
    (after != [] &&
     var reported := FinishNames(before, evidence);
     |reported| >= MAX_FAILURES || HasName(reported, after[|after| - 1]))
  }

  // What the other frameworks make of the line does not change what is reported of them.
  predicate OthersUnseen(acc: Accumulator, line: string) {
    var others, evidence := Others(acc, line), EarlierEvidence(acc);
    EarlierEvidence(others) == evidence && NamesUnseen(acc.failedNames, others.failedNames, FinishGo(acc.goBlocks, evidence))
  }

  // What the line makes of the two blocks reads the same in the report.
  predicate PairUnseen(acc: Accumulator, line: string, pair: Pair)
    requires pair.k < |acc.goBlocks| && pair.j < |Compact(acc.goBlocks)|
  {
    var blocks, shorter, evidence := acc.goBlocks, Compact(acc.goBlocks), EarlierEvidence(acc);
    SeesTheSame(FinishGo(shorter[..pair.j], evidence), FinishGo(blocks[..pair.k], evidence),
      ChangedBy(line, blocks[pair.k]), shorter[pair.j], ChangedBy(line, shorter[pair.j]))
  }

  /** The line can change no repeated block; or what it changes reads the same in the report, and either
      both blocks take the line, or neither does, or the other frameworks report the same with it. */
  predicate CannotSee(acc: Accumulator, line: string) {
    match RepeatedPair(acc, line)
    case None => true
    case Some(pair) =>
      && PairUnseen(acc, line, pair)
      && ((TakesLine(line, acc.goBlocks[pair.k]) <==> TakesLine(line, Compact(acc.goBlocks)[pair.j])) || OthersUnseen(acc, line))
  }

  lemma TakenByBlock(acc: Accumulator, line: string, name: string, k: nat)
    requires !IsStatus(acc, line) && GoContext(acc) == Some(name)
    requires LastBlock(acc.goBlocks, name, ReachesFailed(acc, line)) == Some(k)
    ensures var b := acc.goBlocks[k];
      GoLine(acc, line) ==
        Taken(acc.(goBlocks := acc.goBlocks[k := ChangedBy(line, b)], goPanic := GoLine(acc, line).acc.goPanic), TakesLine(line, b))
    ensures !TakesLine(line, acc.goBlocks[k]) ==> GoLine(acc, line).acc == acc
  {
    assert acc.goBlocks[k := acc.goBlocks[k]] == acc.goBlocks;
  }

  // What the other frameworks make of a line that a block may take.
  function Beside(acc: Accumulator, line: string, block: GoBlock): Accumulator {
    if TakesLine(line, block) then acc else Others(acc, line)
  }

  lemma LineChanges(acc: Accumulator, raw: string, name: string, k: nat)
    requires !IsStatus(acc, Trim(raw)) && GoContext(acc) == Some(name)
    requires LastBlock(acc.goBlocks, name, ReachesFailed(acc, Trim(raw))) == Some(k)
    ensures Observe(acc, raw) ==
      Beside(acc, Trim(raw), acc.goBlocks[k]).(
        goBlocks := acc.goBlocks[k := ChangedBy(Trim(raw), acc.goBlocks[k])], goPanic := Observe(acc, raw).goPanic)
  {
    var line := Trim(raw);
    TakenByBlock(acc, line, name, k);
    OthersKeepBlocks(acc, line);
    assert acc.goBlocks[k := acc.goBlocks[k]] == acc.goBlocks;
  }

  lemma OthersIgnoreGo(acc: Accumulator, line: string, blocks: seq<GoBlock>)
    ensures Others(acc.(goBlocks := blocks), line) == Others(acc, line).(goBlocks := blocks)
  {
    GtestIgnoresGo(acc, line, blocks);
    RustIgnoresGo(GtestLine(acc, line).acc, line, blocks);
  }

  lemma OthersKeepBlocks(acc: Accumulator, line: string)
    ensures Others(acc, line).goBlocks == acc.goBlocks
  {
    OthersIgnoreGo(acc, line, acc.goBlocks);
  }

  lemma FinishAllIs(acc: Accumulator)
    ensures FinishAll(acc) == FinishNames(acc.failedNames, FinishGo(acc.goBlocks, EarlierEvidence(acc)))
  {
  }

  lemma ChangedEvidence(acc: Accumulator, blocks: seq<GoBlock>, goPanic: Option<string>)
    ensures FinishAll(acc.(goBlocks := blocks, goPanic := goPanic)) == FinishNames(acc.failedNames, FinishGo(blocks, EarlierEvidence(acc)))
  {
    var changed := acc.(goBlocks := blocks, goPanic := goPanic);
    FinishAllIs(changed);
    EarlierAlike(acc, changed);
  }

  lemma EarlierAlike(x: Accumulator, y: Accumulator)
    requires x.failures == y.failures && x.current == y.current && x.gtestCurrent == y.gtestCurrent
    ensures EarlierEvidence(x) == EarlierEvidence(y)
  {
  }

  // ---------------------------------------------------------------- evidence of two kinds

  predicate IsGo(evidence: Evidence) {
    evidence.message != [] && evidence.message[0] == 'G'
  }

  predicate AllGo(evidence: seq<Evidence>) {
    forall i | 0 <= i < |evidence| :: IsGo(evidence[i])
  }

  // Evidence of other frameworks does not read like evidence of Go.
  predicate NoGo(evidence: seq<Evidence>) {
    forall i | 0 <= i < |evidence| :: !IsGo(evidence[i])
  }

  lemma BoundedStarts(text: string)
    requires text != [] && text[0] as int < 0x80
    ensures var bounded := Bounded(text, MAX_MESSAGE_BYTES); bounded != [] && bounded[0] == text[0]
  {
    assert ByteLen([ELLIPSIS]) == 3;
    assert |EncodeChar(text[0])| == 1;
  }

  lemma GoEvidenceStarts(block: GoBlock)
    ensures IsGo(GoEvidence(block))
  {
    var message := GoMessage(block);
    assert message[0] == 'G';
    BoundedStarts(message);
  }

  // What finishing adds for blocks, within the limit.
  function GoPart(blocks: seq<GoBlock>, evidence: seq<Evidence>): seq<Evidence> {
    if blocks == [] then []
    else
      var init, last := blocks[..|blocks| - 1], blocks[|blocks| - 1];
      var before := GoPart(init, evidence);
      if !last.failed || |evidence + before| >= MAX_FAILURES || GoEvidence(last) in evidence + before then before
      else before + [GoEvidence(last)]
  }

  lemma {:induction false} FinishAddsGo(blocks: seq<GoBlock>, evidence: seq<Evidence>)
    ensures FinishGo(blocks, evidence) == evidence + GoPart(blocks, evidence)
    ensures AllGo(GoPart(blocks, evidence))
    ensures |evidence| >= MAX_FAILURES ==> GoPart(blocks, evidence) == []
  {
    if blocks == [] {
      AppendNothing(evidence);
    } else {
      var init, last := blocks[..|blocks| - 1], blocks[|blocks| - 1];
      FinishAddsGo(init, evidence);
      GoEvidenceStarts(last);
      AppendAssociates(evidence, GoPart(init, evidence), [GoEvidence(last)]);
    }
  }

  lemma NoGoHere(evidence: seq<Evidence>, block: GoBlock)
    requires NoGo(evidence)
    ensures GoEvidence(block) !in evidence
  {
    GoEvidenceStarts(block);
  }

  // As long as there is room some failed block is reported.
  lemma {:induction false} SomeGo(blocks: seq<GoBlock>, evidence: seq<Evidence>, i: nat)
    requires i < |blocks| && blocks[i].failed && NoGo(evidence) && |evidence| < MAX_FAILURES
    ensures GoPart(blocks, evidence) != []
  {
    var init, last := blocks[..|blocks| - 1], blocks[|blocks| - 1];
    if i < |init| {
      SomeGo(init, evidence, i);
    } else if GoPart(init, evidence) == [] {
      AppendNothing(evidence);
      NoGoHere(evidence, last);
    }
  }

  function Summaries(names: seq<string>, evidence: seq<Evidence>): seq<Evidence> {
    if names == [] then []
    else
      var init, name := names[..|names| - 1], names[|names| - 1];
      var before := Summaries(init, evidence);
      if |evidence + before| >= MAX_FAILURES || HasName(evidence + before, name) then before else before + [RustSummary(name)]
  }

  lemma {:induction false} NamesAddSummaries(names: seq<string>, evidence: seq<Evidence>)
    ensures FinishNames(names, evidence) == evidence + Summaries(names, evidence)
    ensures NoGo(Summaries(names, evidence))
    ensures |evidence| >= MAX_FAILURES ==> Summaries(names, evidence) == []
  {
    if names == [] {
      AppendNothing(evidence);
    } else {
      var init, name := names[..|names| - 1], names[|names| - 1];
      NamesAddSummaries(init, evidence);
      AppendAssociates(evidence, Summaries(init, evidence), [RustSummary(name)]);
      assert RustSummary(name).message[0] == 'R';
    }
  }

  // The evidence of Go is what lies between two places.
  predicate GoAt(evidence: seq<Evidence>, first: nat, end: nat) {
    first < end <= |evidence| && forall i | 0 <= i < |evidence| :: IsGo(evidence[i]) <==> first <= i < end
  }

  lemma GoBetween(e: seq<Evidence>, x: seq<Evidence>, r: seq<Evidence>)
    requires NoGo(e) && NoGo(r) && AllGo(x) && x != []
    ensures GoAt(e + x + r, |e|, |e| + |x|)
  {
  }

  lemma SamePlaces(evidence: seq<Evidence>, i: nat, j: nat, k: nat, l: nat)
    requires GoAt(evidence, i, j) && GoAt(evidence, k, l)
    ensures i == k && j == l
  {
    assert IsGo(evidence[i]) && IsGo(evidence[k]) && IsGo(evidence[j - 1]) && IsGo(evidence[l - 1]);
  }

  // Evidence of Go in the middle tells three parts apart.
  lemma KindsApart(e: seq<Evidence>, x: seq<Evidence>, r: seq<Evidence>, f: seq<Evidence>, y: seq<Evidence>, t: seq<Evidence>)
    requires NoGo(e) && NoGo(f) && NoGo(r) && NoGo(t) && AllGo(x) && AllGo(y)
    requires x != [] && y != [] && e + x + r == f + y + t
    ensures e == f && x == y
  {
    var z := e + x + r;
    GoBetween(e, x, r);
    GoBetween(f, y, t);
    SamePlaces(z, |e|, |e| + |x|, |f|, |f| + |y|);
    assert e == z[..|e|] == f;
    assert x == z[|e|..|e| + |x|] == y;
  }

  predicate SomeFailed(blocks: seq<GoBlock>) {
    exists i :: 0 <= i < |blocks| && blocks[i].failed
  }

  // What is finally returned in its three parts.
  lemma ThreeParts(names: seq<string>, blocks: seq<GoBlock>, evidence: seq<Evidence>)
    requires NoGo(evidence) && SomeFailed(blocks)
    ensures var x := GoPart(blocks, evidence);
      && FinishNames(names, FinishGo(blocks, evidence)) == evidence + x + Summaries(names, evidence + x)
      && FinishGo(blocks, evidence) == evidence + x && AllGo(x) && NoGo(Summaries(names, evidence + x))
      && (x == [] <==> |evidence| >= MAX_FAILURES) && (x == [] ==> Summaries(names, evidence + x) == [])
  {
    var i :| 0 <= i < |blocks| && blocks[i].failed;
    FinishAddsGo(blocks, evidence);
    NamesAddSummaries(names, FinishGo(blocks, evidence));
    if |evidence| < MAX_FAILURES {
      SomeGo(blocks, evidence, i);
    }
  }

  lemma OnlyOneHasGo(e: seq<Evidence>, f: seq<Evidence>, y: seq<Evidence>, t: seq<Evidence>)
    requires NoGo(e) && AllGo(y) && y != []
    ensures e != f + y + t
  {
    assert (f + y + t)[|f|] == y[0];
  }

  // Equal results have equal parts.
  lemma PartsApart(names: seq<string>, p: seq<GoBlock>, e: seq<Evidence>, others: seq<string>, q: seq<GoBlock>, f: seq<Evidence>)
    requires NoGo(e) && NoGo(f) && SomeFailed(p) && SomeFailed(q)
    requires FinishNames(names, FinishGo(p, e)) == FinishNames(others, FinishGo(q, f))
    ensures e == f && FinishGo(p, e) == FinishGo(q, f)
  {
    var x, y := GoPart(p, e), GoPart(q, f);
    var r, t := Summaries(names, e + x), Summaries(others, f + y);
    ThreeParts(names, p, e);
    ThreeParts(others, q, f);
    AppendNothing(e);
    AppendNothing(f);
    if x != [] && y != [] {
      KindsApart(e, x, r, f, y, t);
    } else if x != [] {
      OnlyOneHasGo(f, e, x, r);
    } else if y != [] {
      OnlyOneHasGo(e, f, y, t);
    }
  }

  // ---------------------------------------------------------------- evidence of other frameworks

  lemma FinishRustNoGo(acc: Accumulator)
    requires NoGo(acc.failures)
    ensures NoGo(FinishRust(acc).failures)
  {
    if acc.current.Some? {
      assert RustMessage(acc.current.value)[0] == 'R';
      BoundedStarts(RustMessage(acc.current.value));
    }
  }

  lemma {:induction false} GtestStarts(name: string, details: seq<string>)
    ensures GtestMessage(name, details) != [] && GtestMessage(name, details)[0] == 'C'
  {
    if details != [] {
      GtestStarts(name, details[..|details| - 1]);
    }
  }

  lemma FinishGtestNoGo(acc: Accumulator)
    requires NoGo(acc.failures)
    ensures NoGo(FinishGtest(acc).failures)
  {
    if acc.gtestCurrent.Some? {
      var block := acc.gtestCurrent.value;
      GtestStarts(block.name, block.details);
      BoundedStarts(GtestMessage(block.name, block.details));
    }
  }

  lemma EarlierNoGo(acc: Accumulator)
    requires NoGo(acc.failures)
    ensures NoGo(EarlierEvidence(acc))
  {
    FinishRustNoGo(acc);
    FinishGtestNoGo(FinishRust(acc));
  }

  lemma RustLineNoGo(acc: Accumulator, line: string)
    requires NoGo(acc.failures)
    ensures NoGo(RustLine(acc, line).failures)
  {
    FinishRustNoGo(RustNamed(acc, line));
  }

  lemma OthersNoGo(acc: Accumulator, line: string)
    requires NoGo(acc.failures)
    ensures NoGo(Others(acc, line).failures)
  {
    FinishGtestNoGo(acc);
    RustLineNoGo(GtestLine(acc, line).acc, line);
  }

  lemma GoKeepsFailures(acc: Accumulator, line: string)
    ensures GoLine(acc, line).acc.failures == acc.failures
  {
  }

  lemma StatusKeepsFailures(acc: Accumulator, raw: string)
    requires IsStatus(acc, Trim(raw))
    ensures Observe(acc, raw).failures == acc.failures
  {
  }

  lemma ObserveNoGo(acc: Accumulator, raw: string)
    requires NoGo(acc.failures)
    ensures NoGo(Observe(acc, raw).failures)
  {
    if IsStatus(acc, Trim(raw)) {
      StatusKeepsFailures(acc, raw);
    } else {
      var go := GoLine(acc, Trim(raw)).acc;
      GoKeepsFailures(acc, Trim(raw));
      OthersNoGo(go, Trim(raw));
    }
  }

  /** While lines are shown, no Go test is reported yet. */
  lemma {:induction false} NoGoYet(lines: seq<string>)
    ensures NoGo(ObserveAll(lines).failures)
  {
    if lines != [] {
      NoGoYet(lines[..|lines| - 1]);
      ObserveNoGo(ObserveAll(lines[..|lines| - 1]), lines[|lines| - 1]);
    }
  }

  // At most one name comes behind the others.
  predicate OneMoreName(before: seq<string>, after: seq<string>) {
    after == before || (after != [] && after[..|after| - 1] == before)
  }

  lemma OthersNames(acc: Accumulator, line: string)
    ensures OneMoreName(acc.failedNames, Others(acc, line).failedNames)
  {
    GtestNames(acc, line);
    RustNames(GtestLine(acc, line).acc, line);
  }

  lemma GtestNames(acc: Accumulator, line: string)
    ensures GtestLine(acc, line).acc.failedNames == acc.failedNames
  {
  }

  lemma RustNames(acc: Accumulator, line: string)
    ensures OneMoreName(acc.failedNames, RustLine(acc, line).failedNames)
  {
    NamedNames(acc, line);
    LineNames(RustNamed(acc, line));
  }

  lemma NamedNames(acc: Accumulator, line: string)
    ensures OneMoreName(acc.failedNames, RustNamed(acc, line).failedNames)
  {
    if RustFailedName(line).Some? {
      InitOfAppend(acc.failedNames, Bounded(RustFailedName(line).value, MAX_NAME_BYTES));
    }
  }

  lemma LineNames(named: Accumulator)
    ensures FinishRust(named).failedNames == named.failedNames
    ensures forall panic :: RustPanicked(named, panic).failedNames == named.failedNames
  {
  }

  lemma NamesUnseenExactly(before: seq<string>, after: seq<string>, evidence: seq<Evidence>)
    requires OneMoreName(before, after)
    ensures FinishNames(before, evidence) == FinishNames(after, evidence) <==> NamesUnseen(before, after, evidence)
  {
  }

  // ---------------------------------------------------------------- the exact condition

  lemma NotNamed(blocks: seq<GoBlock>, name: string)
    requires NoneMatch(blocks, name, true)
    ensures Unnamed(blocks, name)
  {
    forall i | 0 <= i < |blocks| ensures blocks[i].name != name {
      assert !Matches(blocks[i], name, true);
    }
  }

  lemma RepeatedReports(blocks: seq<GoBlock>, evidence: seq<Evidence>, name: string, k: nat, j: nat, s: GoBlock, t: GoBlock)
    requires LastBlock(blocks, name, true) == Some(k) && Repeats(blocks, k) && LastBlock(Compact(blocks), name, true) == Some(j)
    requires s.name == blocks[k].name && s.failed && t.name == Compact(blocks)[j].name && t.failed == Compact(blocks)[j].failed
    requires |evidence| < MAX_FAILURES
    ensures var c := Compact(blocks);
      FinishGo(blocks[k := s], evidence) == FinishGo(c[j := t], evidence) <==>
        SeesTheSame(FinishGo(c[..j], evidence), FinishGo(blocks[..k], evidence), s, c[j], t)
  {
    var c := Compact(blocks);
    var p, b, q := blocks[..k], blocks[k], blocks[k + 1..];
    var c1, kept, d := c[..j], c[j], c[j + 1..];
    SplitAt(blocks, k);
    SplitAt(c, j);
    ChangedAt(p, b, q, s);
    ChangedAt(c1, kept, d, t);
    LastBlockIsLast(blocks, name, true);
    LastBlockIsLast(c, name, true);
    NotNamed(q, name);
    NotNamed(d, name);
    ReportsOfCompacted(blocks, evidence);
    FinishIsLimited(p, evidence);
    FinishIsLimited(c1, evidence);
    FinishIsLimited(p + [s] + q, evidence);
    FinishIsLimited(c1 + [t] + d, evidence);
    SeesLimited(Reports(c1, evidence), Reports(p, evidence), s, kept, t);
    SameReportExactly(p, b, q, c1, kept, d, evidence, s, t);
  }

  // At the limit nothing is seen.
  lemma AllReports(blocks: seq<GoBlock>, evidence: seq<Evidence>, name: string, k: nat, j: nat, s: GoBlock, t: GoBlock)
    requires LastBlock(blocks, name, true) == Some(k) && Repeats(blocks, k) && LastBlock(Compact(blocks), name, true) == Some(j)
    requires s.name == blocks[k].name && s.failed && t.name == Compact(blocks)[j].name && t.failed == Compact(blocks)[j].failed
    ensures var c := Compact(blocks);
      FinishGo(blocks[k := s], evidence) == FinishGo(c[j := t], evidence) <==>
        SeesTheSame(FinishGo(c[..j], evidence), FinishGo(blocks[..k], evidence), s, c[j], t)
  {
    if |evidence| < MAX_FAILURES {
      RepeatedReports(blocks, evidence, name, k, j, s, t);
    } else {
      var c := Compact(blocks);
      FinishAtLimit(blocks[k := s], evidence);
      FinishAtLimit(c[j := t], evidence);
      FinishAtLimit(c[..j], evidence);
      FinishAtLimit(blocks[..k], evidence);
    }
  }

  lemma StillFound(blocks: seq<GoBlock>, name: string)
    requires LastBlock(blocks, name, true).Some?
    ensures LastBlock(Compact(blocks), name, true).Some?
  {
    LastBlockIsLast(blocks, name, true);
    var k := LastBlock(blocks, name, true).value;
    CompactMembers(blocks, blocks[k]);
    LastBlockIsLast(Compact(blocks), name, true);
    var i :| 0 <= i < |Compact(blocks)| && Compact(blocks)[i] == blocks[k];
    assert Matches(Compact(blocks)[i], name, true);
  }

  // The two blocks of a repeated pair are the last ones found.
  lemma PairFound(acc: Accumulator, line: string, pair: Pair)
    requires RepeatedPair(acc, line) == Some(pair)
    ensures ReachesFailed(acc, line) && Repeats(acc.goBlocks, pair.k) && GoContext(acc).Some?
    ensures var name := GoContext(acc).value;
      LastBlock(acc.goBlocks, name, true) == Some(pair.k) && LastBlock(Compact(acc.goBlocks), name, true) == Some(pair.j)
  {
    LastBlockIsLast(acc.goBlocks, GoContext(acc).value, ReachesFailed(acc, line));
  }

  // Without such a pair the line is a status line, or the guard holds.
  lemma NoPair(acc: Accumulator, line: string)
    requires RepeatedPair(acc, line).None?
    ensures IsStatus(acc, line) || Guarded(acc, line)
  {
    if GoContext(acc).Some? {
      var name, blocks := GoContext(acc).value, acc.goBlocks;
      var k := LastBlock(blocks, name, ReachesFailed(acc, line));
      if k.Some? && Repeats(blocks, k.value) {
        LastBlockIsLast(blocks, name, ReachesFailed(acc, line));
        StillFound(blocks, name);
      }
    }
  }

  // Both sequences still hold a failed block.
  lemma StillFailed(blocks: seq<GoBlock>, k: nat, j: nat, s: GoBlock, t: GoBlock)
    requires k < |blocks| && Repeats(blocks, k) && j < |Compact(blocks)| && t.failed == Compact(blocks)[j].failed
    ensures SomeFailed(blocks[k := s]) && SomeFailed(Compact(blocks)[j := t])
  {
    var c: seq<GoBlock> := Compact(blocks);
    var i :| 0 <= i < k && blocks[i] == blocks[k];
    assert blocks[k := s][i].failed;
    CompactMembers(blocks, blocks[k]);
    var n :| 0 <= n < |c| && c[n] == blocks[k];
    assert c[j := t][n].failed;
  }

  // What is finally returned with and without compaction, in terms of the two changed blocks.
  lemma Outcomes(acc: Accumulator, raw: string, pair: Pair)
    requires RepeatedPair(acc, Trim(raw)) == Some(pair)
    ensures var line, blocks, shorter := Trim(raw), acc.goBlocks, Compact(acc.goBlocks);
      var x, y := Beside(acc, line, blocks[pair.k]), Beside(acc, line, shorter[pair.j]);
      && FinishAll(Observe(acc, raw))
           == FinishNames(x.failedNames, FinishGo(blocks[pair.k := ChangedBy(line, blocks[pair.k])], EarlierEvidence(x)))
      && FinishAll(Observe(Compacted(acc), raw))
           == FinishNames(y.failedNames, FinishGo(shorter[pair.j := ChangedBy(line, shorter[pair.j])], EarlierEvidence(y)))
  {
    var line, blocks, shorter := Trim(raw), acc.goBlocks, Compact(acc.goBlocks);
    var name, k, j := GoContext(acc).value, pair.k, pair.j;
    PairFound(acc, line, pair);
    var x, y := Beside(acc, line, blocks[k]), Beside(acc, line, shorter[j]);
    LineChanges(acc, raw, name, k);
    ChangedEvidence(x, blocks[k := ChangedBy(line, blocks[k])], Observe(acc, raw).goPanic);
    LineChanges(Compacted(acc), raw, name, j);
    OthersIgnoreGo(acc, line, shorter);
    ChangedEvidence(y, shorter[j := ChangedBy(line, shorter[j])], Observe(Compacted(acc), raw).goPanic);
  }

  // A repeated block that is left as it is, is reported before.
  lemma UntouchedIsSame(blocks: seq<GoBlock>, evidence: seq<Evidence>, k: nat, kept: GoBlock, a: seq<Evidence>)
    requires k < |blocks| && Repeats(blocks, k)
    ensures SeesTheSame(a, FinishGo(blocks[..k], evidence), blocks[k], kept, kept)
  {
    if |evidence| < MAX_FAILURES {
      FinishIsLimited(blocks[..k], evidence);
      ReportedMember(blocks[..k], evidence, blocks[k]);
    } else {
      FinishAtLimit(blocks[..k], evidence);
    }
  }

  // The changed blocks, without what the other frameworks make of the line.
  lemma PairSeen(acc: Accumulator, line: string, pair: Pair)
    requires RepeatedPair(acc, line) == Some(pair)
    ensures var blocks, c := acc.goBlocks, Compact(acc.goBlocks);
      var p, q := blocks[pair.k := ChangedBy(line, blocks[pair.k])], c[pair.j := ChangedBy(line, c[pair.j])];
      && SomeFailed(p) && SomeFailed(q)
      && (FinishGo(p, EarlierEvidence(acc)) == FinishGo(q, EarlierEvidence(acc)) <==> PairUnseen(acc, line, pair))
  {
    var blocks, c, k, j, name := acc.goBlocks, Compact(acc.goBlocks), pair.k, pair.j, GoContext(acc).value;
    var s, t := ChangedBy(line, blocks[k]), ChangedBy(line, c[j]);
    PairFound(acc, line, pair);
    LastBlockIsLast(blocks, name, true);
    AllReports(blocks, EarlierEvidence(acc), name, k, j, s, t);
    StillFailed(blocks, k, j, s, t);
  }

  // Both blocks take the line.
  lemma BothTake(acc: Accumulator, raw: string, pair: Pair)
    requires RepeatedPair(acc, Trim(raw)) == Some(pair) && NoGo(acc.failures)
    requires TakesLine(Trim(raw), acc.goBlocks[pair.k]) && TakesLine(Trim(raw), Compact(acc.goBlocks)[pair.j])
    ensures FinishAll(Observe(Compacted(acc), raw)) == FinishAll(Observe(acc, raw)) <==> CannotSee(acc, Trim(raw))
  {
    var line, blocks, c, e := Trim(raw), acc.goBlocks, Compact(acc.goBlocks), EarlierEvidence(acc);
    var p, q := blocks[pair.k := ChangedBy(line, blocks[pair.k])], c[pair.j := ChangedBy(line, c[pair.j])];
    Outcomes(acc, raw, pair);
    PairSeen(acc, line, pair);
    EarlierNoGo(acc);
    DifferentNames(acc.failedNames, p, e, acc.failedNames, q, e);
  }

  // Neither block takes the line.
  lemma NeitherTakes(acc: Accumulator, raw: string, pair: Pair)
    requires RepeatedPair(acc, Trim(raw)) == Some(pair)
    requires !TakesLine(Trim(raw), acc.goBlocks[pair.k]) && !TakesLine(Trim(raw), Compact(acc.goBlocks)[pair.j])
    ensures FinishAll(Observe(Compacted(acc), raw)) == FinishAll(Observe(acc, raw)) && CannotSee(acc, Trim(raw))
  {
    var line, blocks, c, e := Trim(raw), acc.goBlocks, Compact(acc.goBlocks), EarlierEvidence(acc);
    Outcomes(acc, raw, pair);
    PairFound(acc, line, pair);
    UntakenStays(line, blocks, pair.k);
    UntakenStays(line, c, pair.j);
    CompactedReportsTheSame(blocks, EarlierEvidence(Others(acc, line)));
    UntouchedIsSame(blocks, e, pair.k, c[pair.j], FinishGo(c[..pair.j], e));
  }

  // One of two reports is built with the others' view of the line, the other one without it.
  lemma DifferentNames(names: seq<string>, p: seq<GoBlock>, e: seq<Evidence>, others: seq<string>, q: seq<GoBlock>, f: seq<Evidence>)
    requires NoGo(e) && NoGo(f) && SomeFailed(p) && SomeFailed(q)
    requires OneMoreName(names, others)
    ensures FinishNames(names, FinishGo(p, e)) == FinishNames(others, FinishGo(q, f)) <==>
      e == f && FinishGo(p, e) == FinishGo(q, e) && NamesUnseen(names, others, FinishGo(p, e))
  {
    NamesUnseenExactly(names, others, FinishGo(p, e));
    if FinishNames(names, FinishGo(p, e)) == FinishNames(others, FinishGo(q, f)) {
      PartsApart(names, p, e, others, q, f);
    }
  }

  lemma UntakenStays(line: string, blocks: seq<GoBlock>, k: nat)
    requires k < |blocks| && !TakesLine(line, blocks[k])
    ensures blocks[k := ChangedBy(line, blocks[k])] == blocks
  {
  }

  // Only the block found without compaction takes the line.
  lemma FirstTakes(acc: Accumulator, raw: string, pair: Pair)
    requires RepeatedPair(acc, Trim(raw)) == Some(pair) && NoGo(acc.failures)
    requires TakesLine(Trim(raw), acc.goBlocks[pair.k]) && !TakesLine(Trim(raw), Compact(acc.goBlocks)[pair.j])
    ensures FinishAll(Observe(Compacted(acc), raw)) == FinishAll(Observe(acc, raw)) <==> CannotSee(acc, Trim(raw))
  {
    var line, blocks, c := Trim(raw), acc.goBlocks, Compact(acc.goBlocks);
    var p := blocks[pair.k := ChangedBy(line, blocks[pair.k])];
    UntakenStays(line, c, pair.j);
    Outcomes(acc, raw, pair);
    PairSeen(acc, line, pair);
    CompactedReportsTheSame(blocks, EarlierEvidence(acc));
    OthersReport(acc, line, p, c);
  }

  // Only the block found with compaction takes the line.
  lemma SecondTakes(acc: Accumulator, raw: string, pair: Pair)
    requires RepeatedPair(acc, Trim(raw)) == Some(pair) && NoGo(acc.failures)
    requires !TakesLine(Trim(raw), acc.goBlocks[pair.k]) && TakesLine(Trim(raw), Compact(acc.goBlocks)[pair.j])
    ensures FinishAll(Observe(Compacted(acc), raw)) == FinishAll(Observe(acc, raw)) <==> CannotSee(acc, Trim(raw))
  {
    var line, blocks, c := Trim(raw), acc.goBlocks, Compact(acc.goBlocks);
    var q := c[pair.j := ChangedBy(line, c[pair.j])];
    UntakenStays(line, blocks, pair.k);
    Outcomes(acc, raw, pair);
    PairSeen(acc, line, pair);
    OthersReport(acc, line, q, blocks);
  }

  lemma OthersReport(acc: Accumulator, line: string, p: seq<GoBlock>, q: seq<GoBlock>)
    requires NoGo(acc.failures) && SomeFailed(p) && SomeFailed(q)
    requires FinishGo(q, EarlierEvidence(acc)) == FinishGo(acc.goBlocks, EarlierEvidence(acc))
    ensures var o, e := Others(acc, line), EarlierEvidence(acc);
      FinishNames(acc.failedNames, FinishGo(p, e)) == FinishNames(o.failedNames, FinishGo(q, EarlierEvidence(o))) <==>
        FinishGo(p, e) == FinishGo(q, e) && OthersUnseen(acc, line)
  {
    var o := Others(acc, line);
    EarlierNoGo(acc);
    OthersNoGo(acc, line);
    EarlierNoGo(o);
    OthersNames(acc, line);
    DifferentNames(acc.failedNames, p, EarlierEvidence(acc), o.failedNames, q, EarlierEvidence(o));
  }

  /** Exactly when compaction before a line cannot be seen in what is finally returned, for every line and
      every accumulator to which lines are shown, at the limit on failures or below: the last block
      that the line can change does not repeat an earlier failed block; or what the line changes reads the
      same in the report, and where only one of the two blocks awaits it as its assertion, the other
      frameworks report the same with it as without it. */
  lemma CompactionSeenExactly(acc: Accumulator, raw: string)
    requires NoGo(acc.failures)
    ensures FinishAll(Observe(Compacted(acc), raw)) == FinishAll(Observe(acc, raw)) <==> CannotSee(acc, Trim(raw))
  {
    var line := Trim(raw);
    match RepeatedPair(acc, line) {
      case None =>
        NoPair(acc, line);
        LineSimilar(acc, raw);
        SimilarFinish(Observe(Compacted(acc), raw), Observe(acc, raw));
      case Some(pair) =>
        if TakesLine(line, acc.goBlocks[pair.k]) && TakesLine(line, Compact(acc.goBlocks)[pair.j]) {
          BothTake(acc, raw, pair);
        } else if TakesLine(line, acc.goBlocks[pair.k]) {
          FirstTakes(acc, raw, pair);
        } else if TakesLine(line, Compact(acc.goBlocks)[pair.j]) {
          SecondTakes(acc, raw, pair);
        } else {
          NeitherTakes(acc, raw, pair);
        }
    }
  }

  // ---------------------------------------------------------------- a log on which it is seen

  lemma CompactTwo(block: GoBlock)
    requires block.failed
    ensures Compact([block, block]) == [block]
  {
    assert [block][..0] == [] && Compact([block]) == [block];
    assert [block, block][..1] == [block];
  }

  lemma FinishTwo(first: GoBlock, second: GoBlock)
    requires first.failed && second.failed && GoEvidence(first) != GoEvidence(second)
    ensures FinishGo([first, second], []) == [GoEvidence(first), GoEvidence(second)]
    ensures FinishGo([second], []) == [GoEvidence(second)]
  {
    assert [first][..0] == [] && FinishGo([first], []) == [GoEvidence(first)];
    assert [second][..0] == [];
    assert [first, second][..1] == [first];
  }

  lemma MessagesDiffer(block: GoBlock, struck: GoBlock)
    requires block == GoBlock("T", None, NO_RANK, None, None, [], true)
    requires struck == block.(panicMessage := Some(Bounded("boom", MAX_DETAIL_BYTES)))
    ensures GoEvidence(block) != GoEvidence(struck)
  {
    AsciiByteLen("boom");
    ShortMessage(block, []);
    ShortMessage(struck, "boom");
    assert |GoMessage(block)| != |GoMessage(struck)|;
  }

  // The message of a block without location and details is not cut if its parts are short.
  lemma ShortMessage(block: GoBlock, reason: string)
    requires block.name == "T" && block.location == None && block.assertion == None && block.details == []
    requires block.panicMessage == if reason == [] then None else Some(reason)
    requires |reason| <= 10 && forall i | 0 <= i < |reason| :: reason[i] as int < 0x80
    ensures |GoMessage(block)| == if reason == [] then 16 else 20 + |reason|
    ensures GoEvidence(block).message == GoMessage(block)
  {
    var verb := if reason == [] then " failed" else " panicked";
    var tail := if reason == [] then "" else ": " + reason;
    var start := "Go test " + block.name;
    assert GoMessage(block) == start + verb + tail;
    AsciiByteLen(start + verb + tail);
  }

  // The status line of a failed test T, the start of T and a panic, as the recognizers see them.
  lemma StatusLine(line: string)
    requires line == "--- FAIL: T"
    ensures Trim(line) == line && GoRunningName(line).None? && GoFailedName(line) == Some("T")
  {
    TrimmedAlready(line);
    var rest := line[|"--- FAIL:"|..];
    assert StripPrefix(line, "--- FAIL:") == Some(rest) && rest[1..] == "T";
    TrimmedAlready(rest[1..]);
    assert TrimStart(rest) == TrimStart(rest[1..]);
    assert LastIndexOf("T", " (") == None;
  }

  lemma PanicLine(line: string)
    requires line == "panic: boom"
    ensures Trim(line) == line && GoRunningName(line).None? && GoFailedName(line).None? && !IsGoNonfailure(line)
    ensures GoPanicMessage(line) == Some("boom")
  {
    TrimmedAlready(line);
    var rest, message := line[|"panic:"|..], line[7..];
    assert StripPrefix(line, "panic:") == Some(rest) && rest[1..] == message == "boom";
    TrimmedAlready(message);
    assert TrimStart(rest) == TrimStart(message);
  }

  lemma StartLine(line: string)
    requires line == "=== RUN T"
    ensures Trim(line) == line && GoRunningName(line) == Some("T")
  {
    TrimmedAlready(line);
    var rest := line[|"=== RUN"|..];
    assert StripPrefix(line, "=== RUN") == Some(rest) && rest[1..] == "T";
    TrimmedAlready(rest[1..]);
    assert TrimStart(rest) == TrimStart(rest[1..]);
  }

  const FAILED_T := GoBlock("T", None, NO_RANK, None, None, [], true)

  lemma OneFailure(acc: Accumulator, status: string)
    requires status == "--- FAIL: T" && (acc.goBlocks == [] || acc.goBlocks == [FAILED_T])
    ensures Observe(acc, status) == acc.(goRunning := Some("T"), goPanic := Some("T"), goBlocks := acc.goBlocks + [FAILED_T])
  {
    StatusLine(status);
    AsciiByteLen("T");
    LastBlockIsLast(acc.goBlocks, "T", false);
    var pushed := acc.goBlocks + [NewGoBlock("T")];
    assert pushed[|acc.goBlocks| := FAILED_T] == acc.goBlocks + [FAILED_T];
  }

  // A log in which the same test fails twice in the same way.
  lemma FailedTwice(status: string)
    requires status == "--- FAIL: T"
    ensures ObserveAll([status, status]) == EMPTY.(goRunning := Some("T"), goPanic := Some("T"), goBlocks := [FAILED_T, FAILED_T])
  {
    InitOfAppend([], status);
    InitOfAppend([status], status);
    assert [] + [status] == [status] && [status] + [status] == [status, status];
    assert ObserveAll([status]) == Observe(EMPTY, status);
    assert ObserveAll([status, status]) == Observe(ObserveAll([status]), status);
    OneFailure(EMPTY, status);
    OneFailure(Observe(EMPTY, status), status);
  }

  // A panic changes the last of two such blocks, or the only one.
  lemma PanicOnLast(acc: Accumulator, panic: string, n: nat)
    requires panic == "panic: boom" && GoContext(acc) == Some("T")
    requires acc.goBlocks == if n == 2 then [FAILED_T, FAILED_T] else [FAILED_T]
    ensures var struck := FAILED_T.(panicMessage := Some(Bounded("boom", MAX_DETAIL_BYTES)));
      Observe(acc, panic) == acc.(goPanic := Some("T"), goBlocks := if n == 2 then [FAILED_T, struck] else [struck])
  {
    PanicLine(panic);
  }

  lemma NothingElse(acc: Accumulator)
    requires acc == EMPTY.(goRunning := acc.goRunning, goPanic := acc.goPanic, goBlocks := acc.goBlocks)
    ensures FinishAll(acc) == FinishGo(acc.goBlocks, [])
  {
  }

  /** A log on which compaction is seen: a test fails twice in the same way, and a panic follows. Of the
      two failures and the panic two findings are returned, with compaction in between only one. The same
      when the test starts once more before the panic: the start compacts, and without that two findings
      would be returned. */
  lemma CompactionVisibleToPanic(status: string, start: string, panic: string)
    requires status == "--- FAIL: T" && start == "=== RUN T" && panic == "panic: boom"
    ensures var acc := ObserveAll([status, status]);
      && |FinishAll(Observe(acc, panic))| == 2
      && |FinishAll(Observe(Compacted(acc), panic))| == 1
      && |FinishAll(Observe(Observe(acc, start), panic))| == 1
      && |FinishAll(Observe(Observe(acc, start).(goBlocks := acc.goBlocks), panic))| == 2
  {
    var acc := ObserveAll([status, status]);
    var struck := FAILED_T.(panicMessage := Some(Bounded("boom", MAX_DETAIL_BYTES)));
    FailedTwice(status);
    CompactTwo(FAILED_T);
    StartLine(start);
    AsciiByteLen("T");
    PanicOnLast(acc, panic, 2);
    PanicOnLast(Compacted(acc), panic, 1);
    PanicOnLast(Observe(acc, start), panic, 1);
    PanicOnLast(Observe(acc, start).(goBlocks := acc.goBlocks), panic, 2);
    NothingElse(Observe(acc, panic));
    NothingElse(Observe(Compacted(acc), panic));
    NothingElse(Observe(Observe(acc, start), panic));
    NothingElse(Observe(Observe(acc, start).(goBlocks := acc.goBlocks), panic));
    MessagesDiffer(FAILED_T, struck);
    FinishTwo(FAILED_T, struck);
  }
}
