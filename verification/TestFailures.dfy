/** Extraction of failed tests from test logs: the line recognizers of three test frameworks, the
    accumulator as a machine on values, and the class that updates it in place. */
module TestFailures {
  import opened Model
  import opened Utf8
  import opened Text
  import opened Strings

  const MAX_FAILURES := 20
  const MAX_NAME_BYTES := 512
  const MAX_MESSAGE_BYTES := 1000
  const MAX_DETAIL_BYTES := 256
  const MAX_GTEST_DETAILS := 8
  const MAX_RUST_DETAILS := 4
  const MAX_GO_DETAILS := 6
  const MAX_GO_BLOCKS := 80
  const NO_RANK := 255
  const UNKNOWN_GTEST := "<unknown gtest>"

  const ELLIPSIS: char := '\U{2026}'

  /** Text cut to a number of bytes: unchanged if it fits, otherwise the longest prefix of whole
      characters that leaves room for an ellipsis, and the ellipsis. */
  function Bounded(text: string, maximum: nat): string {
    if ByteLen(text) <= maximum then text
    else if maximum < ByteLen([ELLIPSIS]) then Fit(text, maximum)
    else Fit(text, maximum - ByteLen([ELLIPSIS])) + [ELLIPSIS]
  }

  method BoundedText(text: string, maximum: nat) returns (r: string)
    ensures r == Bounded(text, maximum)
  {
    if ByteLen(text) <= maximum {
      return text;
    }
    if maximum < ByteLen([ELLIPSIS]) {
      var boundary := FloorBoundary(text, maximum);
      return SliceTo(text, boundary);
    }
    var boundary := FloorBoundary(text, maximum - ByteLen([ELLIPSIS]));
    r := SliceTo(text, boundary) + [ELLIPSIS];
  }

  function PushUnique(values: seq<string>, value: string, maximumItems: nat, maximumBytes: nat): seq<string> {
    if |values| >= maximumItems || Bounded(value, maximumBytes) in values then values
    else values + [Bounded(value, maximumBytes)]
  }

  // ---------------------------------------------------------------- recognizers

  function NonEmpty(text: string): Option<string> {
    if text == [] then None else Some(text)
  }

  // What precedes the last " (", which starts a duration.
  function WithoutDuration(name: string): string {
    match RSplitOnce(name, " (") case None => name case Some(parts) => parts.0
  }

  function GoRunningName(line: string): Option<string> {
    match StripPrefix(line, "=== RUN") case None => None case Some(rest) => NonEmpty(Trim(rest))
  }

  function GoFailedName(line: string): Option<string> {
    match StripPrefix(line, "--- FAIL:") case None => None case Some(rest) => NonEmpty(WithoutDuration(Trim(rest)))
  }

  predicate IsGoNonfailure(line: string) {
    StartsWith(line, "--- PASS:") || StartsWith(line, "--- SKIP:")
  }

  function GoPanicMessage(line: string): Option<string> {
    match StripPrefix(line, "panic:")
    case None => None
    case Some(rest) =>
      var message := Trim(rest);
      var bare :=
        if EndsWith(message, " [recovered, repanicked]") then message[..|message| - |" [recovered, repanicked]"|]
        else if EndsWith(message, " [recovered]") then message[..|message| - |" [recovered]"|]
        else message;
      NonEmpty(Trim(bare))
  }

  datatype GoPlace = GoPlace(location: Location, message: Option<string>, stackFrame: bool)

  // What follows the line number of a Go location: a column, a message, or the offset of a stack frame.
  datatype GoTail = GoTail(column: Option<u32>, message: Option<string>, stackFrame: bool)

  function GoRemainder(remainder: string, traced: bool): GoTail {
    if !StartsWith(remainder, ":") then GoTail(None, None, !traced)
    else
      var after := remainder[1..];
      var digits := DigitCount(after);
      var hasColumn := digits > 0 && digits < |after| && after[digits] == ':';
      var text := Trim(if hasColumn then after[digits + 1..] else after);
      var column := if hasColumn then ParseU32(after[..digits]) else None;
      if text == [] then GoTail(column, None, false)
      else if StartsWith(text, "+0x") then GoTail(column, None, true)
      else GoTail(column, Some(text), false)
  }

  function GoTestLocation(line: string): Option<GoPlace> {
    match LastIndexOf(line, ".go:")
    case None => None
    case Some(marker) =>
      var rawPath := Trim(line[..marker + 3]);
      var trace := StripPrefix(rawPath, "Error Trace:");
      var path := match trace case None => rawPath case Some(rest) => Trim(rest);
      var after := line[marker + 4..];
      var number := ParseU32(after[..DigitCount(after)]);
      if path == [] || number.None? then None
      else
        var tail := GoRemainder(after[DigitCount(after)..], trace.Some?);
        Some(GoPlace(
          Location(Bounded(NormalizePath(path), MAX_DETAIL_BYTES), number, tail.column, None, None),
          tail.message, tail.stackFrame))
  }

  predicate IsGoRuntimePath(path: string) {
    (StartsWith(path, "/") || At(Encode(path), 1) == 0x3A) &&
    (Contains(path, "/src/runtime/") || Contains(path, "/src/testing/"))
  }

  predicate IsGoAssertion(line: string) {
    StartsWithAny(ToLower(line),
      ["got:", "want:", "expected:", "actual:", "error:", "fatal:", "message:", "messages:", "diff:"])
  }

  predicate IsGoNoise(line: string) {
    var lower := ToLower(line);
    StartsWithAny(line, ["=== ", "--- ", "goroutine ", "created by "]) ||
    lower == "pass" || lower == "fail" ||
    StartsWithAny(lower, ["ok\t", "?\t", "coverage:", "exit status "])
  }

  predicate IsOneWord(line: string) {
    Trim(line) != [] && forall i | 0 <= i < |Trim(line)| :: !IsWhitespace(Trim(line)[i])
  }

  predicate IsGoFrame(line: string) {
    (Contains(line, "(") && IsOneWord(line)) || StartsWith(line, "testing.") || StartsWith(line, "runtime.")
  }

  function GtestRunningName(line: string): Option<string> {
    match StripPrefix(line, "[ RUN      ] ") case None => None case Some(rest) => NonEmpty(rest)
  }

  // Some(None) for a failure in an unknown file.
  function GtestFailure(line: string): Option<Option<Location>> {
    match StripSuffix(line, ": Failure")
    case None => None
    case Some(place) =>
      if place == "unknown file" then Some(None)
      else
        match RSplitOnce(place, ":")
        case None => None
        case Some(parts) =>
          if ParseU32(parts.1).None? || parts.0 == [] then None
          else Some(Some(Location(NormalizePath(parts.0), ParseU32(parts.1), None, None, None)))
  }

  function GtestFailedName(line: string): Option<string> {
    match StripPrefix(line, "[  FAILED  ] ") case None => None case Some(rest) => NonEmpty(WithoutDuration(rest))
  }

  predicate IsGtestStatus(line: string) {
    StartsWithAny(line, ["[==========]", "[----------]", "[  PASSED  ]", "[  SKIPPED ]"])
  }

  function RustFailedName(line: string): Option<string> {
    match StripPrefix(line, "test ")
    case None => None
    case Some(rest) => match StripSuffix(rest, " ... FAILED") case None => None case Some(name) => NonEmpty(name)
  }

  function RustBlockName(line: string): Option<string> {
    match StripPrefix(line, "---- ")
    case None => None
    case Some(rest) =>
      match StripSuffix(rest, " ----")
      case None => None
      case Some(body) =>
        var name := match StripSuffix(body, " stdout") case None => StripSuffix(body, " stderr") case Some(n) => Some(n);
        match name case None => None case Some(n) => NonEmpty(n)
  }

  // path:line:column with trailing colons.
  function RustLocation(text: string): Option<Location> {
    match RSplitOnce(TrimEndOf(Trim(text), ':'), ":")
    case None => None
    case Some(columnParts) =>
      match RSplitOnce(columnParts.0, ":")
      case None => None
      case Some(lineParts) =>
        var path := Trim(lineParts.0);
        if ParseU32(columnParts.1).None? || ParseU32(lineParts.1).None? || path == [] then None
        else Some(Location(Bounded(path, MAX_DETAIL_BYTES), ParseU32(lineParts.1), ParseU32(columnParts.1), None, None))
  }

  datatype Panic = Panic(name: string, location: Option<Location>)

  function RustPanic(line: string): Option<Panic> {
    match StripPrefix(line, "thread '")
    case None => None
    case Some(rest) =>
      match SplitOnce(rest, " panicked at ")
      case None => None
      case Some(parts) =>
        match RSplitOnce(parts.0, "'")
        case None => None
        case Some(name) => if name.0 == [] then None else Some(Panic(name.0, RustLocation(parts.1)))
  }

  predicate IsFailureHeading(line: string) {
    ToLower(Trim(line)) == "failure:" || ToLower(Trim(line)) == "failures:"
  }

  // ---------------------------------------------------------------- the accumulator

  datatype RustBlock = RustBlock(
    name: string,
    location: Option<Location>,
    assertion: Option<string>,
    panicMessage: Option<string>,
    details: seq<string>,
    sawPanic: bool)

  const NO_RUST_BLOCK := RustBlock("", None, None, None, [], false)

  datatype GtestBlock = GtestBlock(name: string, location: Option<Location>, details: seq<string>)

  datatype GoBlock = GoBlock(
    name: string,
    location: Option<Location>,
    rank: nat,
    assertion: Option<string>,
    panicMessage: Option<string>,
    details: seq<string>,
    failed: bool)

  datatype Evidence = Evidence(name: string, message: string, location: Option<Location>)

  datatype Accumulator = Accumulator(
    failedNames: seq<string>,
    failures: seq<Evidence>,
    current: Option<RustBlock>,
    gtestRunning: Option<string>,
    gtestCurrent: Option<GtestBlock>,
    goRunning: Option<string>,
    goPanic: Option<string>,
    goBlocks: seq<GoBlock>)

  const EMPTY := Accumulator([], [], None, None, None, None, None, [])

  // Whether any state machine is in the middle of something.
  predicate IsActive(acc: Accumulator) {
    acc.current.Some? || acc.gtestRunning.Some? || acc.gtestCurrent.Some? || acc.goRunning.Some? ||
    acc.goPanic.Some? || acc.goBlocks != []
  }

  // The cheap test on a raw line that decides whether an inactive accumulator is shown it.
  predicate MayStart(line: string) {
    EndsWith(line, ": Failure") ||
    (line != [] &&
     match line[0]
     case '=' => StartsWith(line, "=== RUN")
     case '-' => StartsWith(line, "--- FAIL:") || StartsWith(line, "---- ")
     case '[' => StartsWith(line, "[ RUN      ] ")
     case 't' => StartsWith(line, "thread '") || (StartsWith(line, "test ") && EndsWith(line, " ... FAILED"))
     case _ => false)
  }

  // ---------------------------------------------------------------- messages

  function PlaceText(location: Option<Location>): string {
    match location
    case None => ""
    case Some(l) =>
      " at " + l.path + (if l.line.Some? then ":" + Show(l.line.value) else "")
        + (if l.column.Some? then ":" + Show(l.column.value) else "")
  }

  function ReasonText(first: Option<string>, second: Option<string>): string {
    if first.Some? then ": " + first.value else if second.Some? then ": " + second.value else ""
  }

  function DetailsText(details: seq<string>): string {
    if details == [] then "" else DetailsText(details[..|details| - 1]) + "; " + details[|details| - 1]
  }

  function RustMessage(block: RustBlock): string {
    "Rust test " + block.name + " failed" + PlaceText(block.location)
      + ReasonText(block.assertion, block.panicMessage) + DetailsText(block.details)
  }

  // A detail follows a semicolon, or only a space if what precedes ends in a colon.
  function GtestMessage(name: string, details: seq<string>): string {
    if details == [] then "C++ test " + name + " failed"
    else
      var before := GtestMessage(name, details[..|details| - 1]);
      var separator := if |details| == 1 then ": " else if EndsWith(before, ":") then " " else "; ";
      before + separator + details[|details| - 1]
  }

  function GoMessage(block: GoBlock): string {
    "Go test " + block.name + (if block.panicMessage.Some? then " panicked" else " failed") + PlaceText(block.location)
      + ReasonText(block.panicMessage, block.assertion) + DetailsText(block.details)
  }

  function GoEvidence(block: GoBlock): Evidence {
    Evidence(block.name, Bounded(GoMessage(block), MAX_MESSAGE_BYTES), block.location)
  }

  // ---------------------------------------------------------------- closing blocks

  function FinishRust(acc: Accumulator): Accumulator {
    match acc.current
    case None => acc
    case Some(block) =>
      if block.name == [] || |acc.failures| >= MAX_FAILURES then acc.(current := None)
      else acc.(current := None,
                failures := acc.failures + [Evidence(block.name, Bounded(RustMessage(block), MAX_MESSAGE_BYTES), block.location)])
  }

  function FinishGtest(acc: Accumulator): Accumulator {
    match acc.gtestCurrent
    case None => acc
    case Some(block) =>
      if block.name == [] || |acc.failures| >= MAX_FAILURES then acc.(gtestCurrent := None)
      else acc.(gtestCurrent := None,
                failures := acc.failures + [Evidence(block.name,
                  Bounded(GtestMessage(block.name, block.details), MAX_MESSAGE_BYTES), block.location)])
  }

  // Failed blocks become failures, each evidence once, up to the limit.
  function FinishGo(blocks: seq<GoBlock>, failures: seq<Evidence>): seq<Evidence> {
    if blocks == [] then failures
    else
      var before, last := FinishGo(blocks[..|blocks| - 1], failures), blocks[|blocks| - 1];
      if !last.failed || |before| >= MAX_FAILURES || GoEvidence(last) in before then before
      else before + [GoEvidence(last)]
  }

  function RustSummary(name: string): Evidence {
    Evidence(name, "Rust test " + name + " failed", None)
  }

  predicate HasName(failures: seq<Evidence>, name: string) {
    exists i :: 0 <= i < |failures| && failures[i].name == name
  }

  // Names without a failure of their own, up to the limit.
  function FinishNames(names: seq<string>, failures: seq<Evidence>): seq<Evidence> {
    if names == [] then failures
    else
      var before, name := FinishNames(names[..|names| - 1], failures), names[|names| - 1];
      if |before| >= MAX_FAILURES || HasName(before, name) then before else before + [RustSummary(name)]
  }

  function FinishAll(acc: Accumulator): seq<Evidence> {
    var closed := FinishGtest(FinishRust(acc));
    FinishNames(closed.failedNames, FinishGo(closed.goBlocks, closed.failures))
  }

  // ---------------------------------------------------------------- Go blocks

  // Without failed blocks that repeat an earlier one.
  function Compact(blocks: seq<GoBlock>): seq<GoBlock> {
    if blocks == [] then []
    else
      var before, last := Compact(blocks[..|blocks| - 1]), blocks[|blocks| - 1];
      if last.failed && last in before then before else before + [last]
  }

  // The last block of a name, of the failed ones only if asked for.
  function LastBlock(blocks: seq<GoBlock>, name: string, includeFailed: bool): (index: Option<nat>)
    ensures index.Some? ==> index.value < |blocks|
  {
    if blocks == [] then None
    else if blocks[|blocks| - 1].name == name && (includeFailed || !blocks[|blocks| - 1].failed) then Some(|blocks| - 1)
    else LastBlock(blocks[..|blocks| - 1], name, includeFailed)
  }

  datatype Found = Found(blocks: seq<GoBlock>, index: Option<nat>)
  {
    predicate IsValid() {
      index.Some? ==> index.value < |blocks|
    }
  }

  function NewGoBlock(name: string): GoBlock {
    GoBlock(Bounded(name, MAX_NAME_BYTES), None, NO_RANK, None, None, [], false)
  }

  // A new block, for which compaction may have to make room.
  function PushBlock(blocks: seq<GoBlock>, name: string): (found: Found)
    ensures found.IsValid()
  {
    var room := if |blocks| >= MAX_GO_BLOCKS then Compact(blocks) else blocks;
    if |room| >= MAX_GO_BLOCKS then Found(room, None) else Found(room + [NewGoBlock(name)], Some(|room|))
  }

  function FindOrPush(blocks: seq<GoBlock>, name: string, includeFailed: bool): (found: Found)
    ensures found.IsValid()
  {
    var existing := LastBlock(blocks, name, includeFailed);
    if existing.Some? then Found(blocks, existing) else PushBlock(blocks, name)
  }

  function GoContext(acc: Accumulator): Option<string> {
    if acc.goPanic.Some? then acc.goPanic else acc.goRunning
  }

  function GoFailed(acc: Accumulator, rawName: string): Accumulator {
    var name := Bounded(rawName, MAX_NAME_BYTES);
    var found := FindOrPush(acc.goBlocks, name, false);
    acc.(goRunning := Some(name), goPanic := Some(name),
         goBlocks := match found.index
           case None => found.blocks
           case Some(k) => found.blocks[k := found.blocks[k].(failed := true)])
  }

  // The first panic of a block is kept.
  function WithPanic(block: GoBlock, message: string): (next: GoBlock)
    ensures next.name == block.name && next.failed == block.failed
  {
    if block.panicMessage.Some? then block else block.(panicMessage := Some(Bounded(message, MAX_DETAIL_BYTES)))
  }

  function GoPanicked(acc: Accumulator, name: string, message: string): Accumulator {
    var found := FindOrPush(acc.goBlocks, name, true);
    match found.index
    case None => acc.(goBlocks := found.blocks)
    case Some(k) => acc.(goBlocks := found.blocks[k := WithPanic(found.blocks[k], message)], goPanic := Some(name))
  }

  function WithPlace(block: GoBlock, place: GoPlace): GoBlock {
    var rank := if place.stackFrame && !EndsWith(place.location.path, "_test.go") then 1 else 0;
    if block.location.None? || rank < block.rank then block.(location := Some(place.location), rank := rank) else block
  }

  // The first message is the assertion; later ones of the right form are details.
  function WithMessage(block: GoBlock, message: string): (next: GoBlock)
    ensures next.name == block.name && next.failed == block.failed
  {
    if block.assertion.None? then block.(assertion := Some(Bounded(message, MAX_DETAIL_BYTES)))
    else if IsGoAssertion(message) then
      block.(details := PushUnique(block.details, message, MAX_GO_DETAILS, MAX_DETAIL_BYTES))
    else block
  }

  function WithPlaceAndMessage(block: GoBlock, place: GoPlace): (next: GoBlock)
    ensures next.name == block.name && next.failed == block.failed
  {
    var located := WithPlace(block, place);
    if place.message.Some? && place.message.value != [] then WithMessage(located, place.message.value) else located
  }

  function GoLocated(acc: Accumulator, name: string, place: GoPlace): Accumulator {
    if place.stackFrame && IsGoRuntimePath(place.location.path) then acc
    else
      var found := FindOrPush(acc.goBlocks, name, acc.goPanic.Some?);
      match found.index
      case None => acc.(goBlocks := found.blocks)
      case Some(k) => acc.(goBlocks := found.blocks[k := WithPlaceAndMessage(found.blocks[k], place)])
  }

  // Outcome of a stage: whether it took the line.
  datatype Taken = Taken(acc: Accumulator, taken: bool)

  predicate AwaitsAssertion(blocks: seq<GoBlock>, index: Option<nat>) {
    index.Some? && index.value < |blocks| && blocks[index.value].location.Some? && blocks[index.value].assertion.None?
  }

  function GoDetail(acc: Accumulator, name: string, line: string): Taken {
    if IsGoNoise(line) || IsGoFrame(line) then Taken(acc, false)
    else
      var existing := LastBlock(acc.goBlocks, name, acc.goPanic.Some?);
      if !IsGoAssertion(line) && !AwaitsAssertion(acc.goBlocks, existing) then Taken(acc, false)
      else
        var found := FindOrPush(acc.goBlocks, name, acc.goPanic.Some?);
        match found.index
        case None => Taken(acc.(goBlocks := found.blocks), false)
        case Some(k) => Taken(acc.(goBlocks := found.blocks[k := WithMessage(found.blocks[k], line)]), true)
  }

  // Lines that belong to the Go test that is running or has just failed.
  function GoLine(acc: Accumulator, line: string): Taken {
    match GoContext(acc)
    case None => Taken(acc, false)
    case Some(name) =>
      if GoPanicMessage(line).Some? then Taken(GoPanicked(acc, name, GoPanicMessage(line).value), true)
      else if GoTestLocation(line).Some? then Taken(GoLocated(acc, name, GoTestLocation(line).value), true)
      else GoDetail(acc, name, line)
  }

  // ---------------------------------------------------------------- GoogleTest and libtest

  function GtestOpened(acc: Accumulator, location: Option<Location>): Accumulator {
    var name := if acc.gtestRunning.Some? then acc.gtestRunning.value else UNKNOWN_GTEST;
    FinishGtest(acc).(gtestCurrent := Some(GtestBlock(name, location, [])))
  }

  function GtestLine(acc: Accumulator, line: string): Taken {
    if GtestRunningName(line).Some? then
      Taken(FinishGtest(acc).(gtestRunning := Some(Bounded(GtestRunningName(line).value, MAX_NAME_BYTES))), true)
    else if GtestFailure(line).Some? then
      Taken(GtestOpened(acc, GtestFailure(line).value), true)
    else if GtestFailedName(line).Some? then
      Taken(if acc.gtestRunning == GtestFailedName(line) then FinishGtest(acc).(gtestRunning := None) else acc, true)
    else
      match acc.gtestCurrent
      case None => Taken(acc, false)
      case Some(block) =>
        if |block.details| < MAX_GTEST_DETAILS && !IsGtestStatus(line)
        then Taken(acc.(gtestCurrent := Some(block.(details := block.details + [Bounded(line, MAX_DETAIL_BYTES)]))), true)
        else Taken(acc, true)
  }

  function RustPanicked(acc: Accumulator, panic: Panic): Accumulator {
    var superseded := acc.current.Some? && acc.current.value.name != [] && acc.current.value.name != panic.name;
    var before := if superseded then FinishRust(acc) else acc;
    var block := if before.current.Some? then before.current.value else NO_RUST_BLOCK;
    before.(current := Some(block.(name := Bounded(panic.name, MAX_NAME_BYTES), location := panic.location, sawPanic := true)))
  }

  function RustDetail(block: RustBlock, line: string): RustBlock {
    var lower := ToLower(line);
    if Contains(lower, "assertion") && Contains(lower, " failed") then
      block.(assertion := Some(Bounded(line, MAX_DETAIL_BYTES)))
    else if StartsWithAny(lower, ["left:", "right:", "expected:", "actual:"]) then
      if |block.details| < MAX_RUST_DETAILS then block.(details := block.details + [Bounded(line, MAX_DETAIL_BYTES)]) else block
    else if block.sawPanic && block.panicMessage.None?
      && !StartsWithAny(lower, ["note:", "stack backtrace:", "test result:"]) then
      block.(panicMessage := Some(Bounded(line, MAX_DETAIL_BYTES)))
    else block
  }

  function RustNamed(acc: Accumulator, line: string): Accumulator {
    match RustFailedName(line)
    case None => acc
    case Some(name) => acc.(failedNames := PushUnique(acc.failedNames, name, MAX_FAILURES, MAX_NAME_BYTES))
  }

  function RustLine(acc: Accumulator, line: string): Accumulator {
    var named := RustNamed(acc, line);
    if RustBlockName(line).Some? then
      FinishRust(named).(current := Some(NO_RUST_BLOCK.(name := Bounded(RustBlockName(line).value, MAX_NAME_BYTES))))
    else if RustPanic(line).Some? then RustPanicked(named, RustPanic(line).value)
    else if IsFailureHeading(line) then FinishRust(named)
    else
      match named.current
      case None => named
      case Some(block) => named.(current := Some(RustDetail(block, line)))
  }

  // One raw line: the frameworks are asked in a fixed order.
  function Observe(acc: Accumulator, raw: string): Accumulator {
    var line := Trim(raw);
    if line == [] then acc
    else if GoRunningName(line).Some? then
      acc.(goBlocks := Compact(acc.goBlocks), goRunning := Some(Bounded(GoRunningName(line).value, MAX_NAME_BYTES)), goPanic := None)
    else if GoFailedName(line).Some? then GoFailed(acc, GoFailedName(line).value)
    else if IsGoNonfailure(line) && acc.goRunning.Some? then acc.(goPanic := None, goRunning := None)
    else
      var go := GoLine(acc, line);
      if go.taken then go.acc
      else
        var gtest := GtestLine(go.acc, line);
        if gtest.taken then gtest.acc else RustLine(gtest.acc, line)
  }
}
