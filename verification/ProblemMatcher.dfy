/** The problem-matcher parser: how patterns capture fields, how a complete match becomes a diagnostic,
    and the class that runs all matchers, proved against the matching machine. Regular expressions are
    functions from a line to optional captures. */
module ProblemMatcher {
  import opened Model
  import opened Utf8
  import opened Text
  import opened Strings
  import opened Plan
  import opened MatchMachine

  // Captured groups of one match; group 0 is the whole match.
  type Captures = seq<Option<string>>

  datatype Kind = FileKind | LocationKind

  datatype Pattern = Pattern(
    captures: string -> Option<Captures>,
    kind: Option<Kind>,
    file: Option<nat>,
    fromPath: Option<nat>,
    location: Option<nat>,
    line: Option<nat>,
    column: Option<nat>,
    endLine: Option<nat>,
    endColumn: Option<nat>,
    severity: Option<nat>,
    code: Option<nat>,
    message: Option<nat>,
    loops: bool)

  datatype FileLocation = Captured | Relative(prefix: string)

  datatype Matcher = Matcher(
    owner: string,
    source: Option<string>,
    severity: Severity,
    fileLocation: FileLocation,
    patterns: seq<Pattern>)

  /** What compiling a definition guarantees: at least one pattern, and a loop only on the last pattern
      of a matcher with several. */
  predicate IsCompiledMatcher(m: Matcher) {
    m.patterns != [] &&
    forall i | 0 <= i < |m.patterns| && m.patterns[i].loops :: i == |m.patterns| - 1 && |m.patterns| > 1
  }

  // ---------------------------------------------------------------- captures

  datatype Problem = Problem(
    file: Option<string>,
    fromPath: Option<string>,
    location: Option<string>,
    line: Option<string>,
    column: Option<string>,
    endLine: Option<string>,
    endColumn: Option<string>,
    severity: Option<string>,
    code: Option<string>,
    message: Option<string>)

  const NO_PROBLEM := Problem(None, None, None, None, None, None, None, None, None, None)

  function OptionBytes(value: Option<string>): nat {
    match value case None => 0 case Some(s) => ByteLen(s)
  }

  function Bytes(p: Problem): usize {
    Min(OptionBytes(p.file) + OptionBytes(p.fromPath) + OptionBytes(p.location) + OptionBytes(p.line)
        + OptionBytes(p.column) + OptionBytes(p.endLine) + OptionBytes(p.endColumn) + OptionBytes(p.severity)
        + OptionBytes(p.code) + OptionBytes(p.message), U64_MAX)
  }

  function Group(group: Option<nat>, captures: Captures): Option<string> {
    if group.Some? && group.value < |captures| then captures[group.value] else None
  }

  // The first capture of a field wins.
  function Fill(target: Option<string>, group: Option<nat>, captures: Captures): Option<string> {
    if target.Some? then target
    else match Group(group, captures) case None => None case Some(value) => Some(Trim(value))
  }

  // Messages accumulate, one line per capture.
  function AppendMessage(target: Option<string>, group: Option<nat>, captures: Captures): Option<string> {
    match Group(group, captures)
    case None => target
    case Some(value) =>
      match target
      case None => Some(Trim(value))
      case Some(existing) => Some(existing + "\n" + Trim(value))
  }

  function ApplyCaptures(p: Problem, pattern: Pattern, captures: Captures): Problem {
    Problem(
      Fill(p.file, pattern.file, captures),
      Fill(p.fromPath, pattern.fromPath, captures),
      Fill(p.location, pattern.location, captures),
      Fill(p.line, pattern.line, captures),
      Fill(p.column, pattern.column, captures),
      Fill(p.endLine, pattern.endLine, captures),
      Fill(p.endColumn, pattern.endColumn, captures),
      Fill(p.severity, pattern.severity, captures),
      Fill(p.code, pattern.code, captures),
      AppendMessage(p.message, pattern.message, captures))
  }

  // ---------------------------------------------------------------- emitting

  function ParseCoordinate(s: string): Option<u32> {
    match ParseU32(s)
    case None => None
    case Some(n) => if n > 0 then Some(n) else None
  }

  datatype Coordinates = Coordinates(line: u32, column: Option<u32>, endLine: Option<u32>, endColumn: Option<u32>)

  // One, two or four coordinates separated by commas.
  function ParseLocation(value: string): Option<Coordinates> {
    var parts := SplitOn(value, ',');
    var numbers := seq(|parts|, i requires 0 <= i < |parts| => ParseCoordinate(Trim(parts[i])));
    if exists i :: 0 <= i < |numbers| && numbers[i].None? then None
    else if |numbers| == 1 then Some(Coordinates(numbers[0].value, None, None, None))
    else if |numbers| == 2 then Some(Coordinates(numbers[0].value, numbers[1], None, None))
    else if |numbers| == 4 then Some(Coordinates(numbers[0].value, numbers[1], numbers[2], numbers[3]))
    else None
  }

  function OptionCoordinate(value: Option<string>): Option<u32> {
    match value case None => None case Some(s) => ParseCoordinate(s)
  }

  function CoordinatesOf(p: Problem): Option<Coordinates> {
    if p.location.Some? then ParseLocation(p.location.value)
    else
      match OptionCoordinate(p.line)
      case None => None
      case Some(line) =>
        Some(Coordinates(line, OptionCoordinate(p.column), OptionCoordinate(p.endLine), OptionCoordinate(p.endColumn)))
  }

  function LocationOf(p: Problem, path: string, kind: Kind): Option<Location> {
    if kind == FileKind then Some(Location(path, None, None, None, None))
    else
      match CoordinatesOf(p)
      case None => None
      case Some(c) =>
        var endLine := if c.endLine.None? && c.endColumn.Some? then Some(c.line) else c.endLine;
        Some(Location(path, Some(c.line), c.column,
          (match endLine case None => None case Some(n) => Some(if n < c.line then c.line else n)),
          c.endColumn))
  }

  predicate IsSlash(c: char) {
    c == '/' || c == '\\'
  }

  function TrimSlashEnd(s: string): string {
    if s != [] && IsSlash(s[|s| - 1]) then TrimSlashEnd(s[..|s| - 1]) else s
  }

  function TrimSlashStart(s: string): string {
    if s != [] && IsSlash(s[0]) then TrimSlashStart(s[1..]) else s
  }

  // A leading slash, or a drive letter's colon as the second byte.
  predicate IsAbsolute(path: string) {
    path != [] && (IsSlash(path[0]) || At(Encode(path), 1) == 0x3A)
  }

  function JoinPath(prefix: string, path: string): string {
    if prefix == [] || IsAbsolute(path) then path
    else
      var left, right := TrimSlashEnd(prefix), TrimSlashStart(path);
      if left == [] then right else if right == [] then left else left + "/" + right
  }

  function Resolve(location: FileLocation, fromPath: Option<string>, file: string): string {
    var path := match fromPath case None => file case Some(root) => JoinPath(root, file);
    match location case Captured => path case Relative(prefix) => JoinPath(prefix, path)
  }

  function ParseSeverity(value: string): Option<Severity> {
    var name := ToLower(Trim(value));
    if name in ["error", "err", "e"] then Some(Error)
    else if name in ["warning", "warn", "w"] then Some(Warning)
    else if name in ["info", "information", "note", "notice", "hint", "i"] then Some(Note)
    else None
  }

  function NonEmptyText(value: Option<string>): Option<string> {
    if value == Some("") then None else value
  }

  const PARSER_ID := "problem-matcher.v1"

  function SeverityOf(m: Matcher, p: Problem): Severity {
    if p.severity.Some? && ParseSeverity(p.severity.value).Some? then ParseSeverity(p.severity.value).value else m.severity
  }

  function ProvenanceOf(m: Matcher, line: LogLine, start: u64): Provenance {
    NewProvenance(StreamName(line.stream)).WithLabel(if m.source.Some? then m.source.value else m.owner)
      .WithScope(line.scope).WithSpan(line.stream, start, line.streamLine).WithParser(PARSER_ID)
  }

  function EmitProblem(m: Matcher, p: Problem, line: LogLine, start: u64, bounds: Bounds): seq<Emission>
    requires m.patterns != []
  {
    if Bytes(p) > bounds.maxStateBytes then [EmitDropped]
    else if NonEmptyText(p.file).None? then []
    else
      var kind := if m.patterns[0].kind.Some? then m.patterns[0].kind.value else LocationKind;
      var location := LocationOf(p, Resolve(m.fileLocation, p.fromPath, p.file.value), kind);
      if location.None? || NonEmptyText(p.message).None? then []
      else
        [EmitDiagnostic(Diagnostic(SeverityOf(m, p), Tool, NonEmptyText(p.code), p.message.value, location,
          Some(ProvenanceOf(m, line, start)), Located, 1))]
  }

  // ---------------------------------------------------------------- matchers as automata

  // What a pattern makes of the data captured so far.
  function Advance(m: Matcher, data: Problem, i: nat, text: string): Option<Problem> {
    if i >= |m.patterns| then None
    else
      match m.patterns[i].captures(text)
      case None => None
      case Some(captures) => Some(ApplyCaptures(data, m.patterns[i], captures))
  }

  const SIZE: Problem -> usize := p => Bytes(p)

  function AutomatonOf(m: Matcher): Automaton<Problem> {
    Automaton(|m.patterns|, m.patterns != [] && m.patterns[|m.patterns| - 1].loops, NO_PROBLEM,
      (data, i, text) => Advance(m, data, i, text), SIZE)
  }

  function Automata(matchers: seq<Matcher>): seq<Automaton<Problem>> {
    seq(|matchers|, i requires 0 <= i < |matchers| => AutomatonOf(matchers[i]))
  }

  predicate AllCompiledMatchers(matchers: seq<Matcher>) {
    forall i | 0 <= i < |matchers| :: IsCompiledMatcher(matchers[i])
  }

  lemma CompiledAutomata(matchers: seq<Matcher>)
    requires AllCompiledMatchers(matchers)
    ensures AllCompiled(Automata(matchers)) && SameSize(Automata(matchers), SIZE)
  {
    forall i | 0 <= i < |matchers| ensures IsCompiled(AutomatonOf(matchers[i])) {
      assert IsCompiledMatcher(matchers[i]);
    }
  }

  // A partial match taken out of the states, continued by the captures of a line.
  ghost function Continued(m: Matcher, index: nat, line: LogLine, state: MatchState<Problem>, data: Problem, others: States<Problem>,
                           bounds: Bounds): Outcome<Problem>
    requires state.nextPattern < |m.patterns|
  {
    var key, last := KeyOf(line, index), |m.patterns| - 1;
    if state.nextPattern == last then
      Outcome(if m.patterns[last].loops then others[key := state] else others, [Report(index, data, line, state.startLine)])
    else if SatAdd(RetainedBytes(SIZE, others), Bytes(data)) <= bounds.maxStateBytes then
      Outcome(others[key := MatchState(state.nextPattern + 1, data, state.startLine)], [])
    else Outcome(others, [GiveUp])
  }

  // The partial match of a matcher, taken out, is continued or given up for a fresh start.
  lemma ObserveByCases(m: Matcher, index: nat, line: LogLine, states: States<Problem>, bounds: Bounds)
    requires IsWaiting(|m.patterns|, Slot(states, KeyOf(line, index)))
    ensures var slot, others := Slot(states, KeyOf(line, index)), states - {KeyOf(line, index)};
      var advanced := if slot.Some? then Advance(m, slot.value.data, slot.value.nextPattern, line.text) else None;
      ObserveMatcher(AutomatonOf(m), index, line, states, bounds) ==
        if advanced.Some? then Continued(m, index, line, slot.value, advanced.value, others, bounds)
        else StartMatch(AutomatonOf(m), index, line, others, bounds)
  {
    var key := KeyOf(line, index);
    if key in states {
      assert (states - {key})[key := states[key]] == states;
    } else {
      assert states - {key} == states;
    }
  }

  lemma OneMoreMatcher(automata: seq<Automaton<Problem>>, line: LogLine, states: States<Problem>, bounds: Bounds, n: nat,
                       before: Outcome<Problem>, after: Outcome<Problem>)
    requires n < |automata| && before == ObserveUpTo(automata, line, states, bounds, n)
    requires after == ObserveMatcher(automata[n], n, line, before.states, bounds)
    ensures ObserveUpTo(automata, line, states, bounds, n + 1) == Outcome(after.states, before.attempts + after.attempts)
  {
  }

  // The emissions of a sequence of attempts: giving up is counted as a dropped candidate.
  function Emissions(matchers: seq<Matcher>, attempts: seq<Attempt<Problem>>, bounds: Bounds): seq<Emission>
    requires AllCompiledMatchers(matchers)
  {
    if attempts == [] then []
    else
      (match attempts[0]
       case GiveUp => [EmitDropped]
       case Report(index, data, line, start) =>
         if index < |matchers| then EmitProblem(matchers[index], data, line, start, bounds) else [])
      + Emissions(matchers, attempts[1..], bounds)
  }

  // ---------------------------------------------------------------- the parser

  class ProblemMatcherParser {
    const matchers: seq<Matcher>
    const bounds: Bounds
    var states: States<Problem>

    ghost predicate Valid()
      reads this
    {
      AllCompiledMatchers(matchers) && WellFormed(Automata(matchers), states)
    }

    constructor (matchers: seq<Matcher>, bounds: Bounds)
      requires AllCompiledMatchers(matchers)
      ensures Valid() && states == map[] && this.matchers == matchers && this.bounds == bounds
    {
      this.matchers, this.bounds, states := matchers, bounds, map[];
    }

    method RetainedStateBytes() returns (bytes: usize)
      ensures bytes == RetainedBytes(SIZE, states)
    {
      bytes := 0;
      var rest := states;
      while rest != map[]
        invariant SatAdd(bytes, SumBytes(SIZE, rest)) == RetainedBytes(SIZE, states)
        decreases |rest|
      {
        var key :| key in rest;
        SumRemove(SIZE, rest, key);
        bytes := SatAdd(bytes, Bytes(rest[key].data));
        rest := rest - {key};
      }
    }

    method Start(index: nat, line: LogLine) returns (attempts: seq<Attempt<Problem>>)
      requires index < |matchers|
      modifies this
      ensures Outcome(states, attempts) == StartMatch(AutomatonOf(matchers[index]), index, line, old(states), bounds)
    {
      attempts := [];
      var m := matchers[index];
      var started := Advance(m, NO_PROBLEM, 0, line.text);
      if started.None? {
        return;
      }
      var data := started.value;
      if |m.patterns| == 1 {
        attempts := [Report(index, data, line, line.streamLine)];
        return;
      }
      var retained := RetainedStateBytes();
      if SatAdd(retained, Bytes(data)) > bounds.maxStateBytes || |states| >= bounds.maxActiveStates {
        attempts := [GiveUp];
      } else {
        states := states[KeyOf(line, index) := MatchState(1, data, line.streamLine)];
      }
    }

    // The line continues a partial match, which has been taken out of the map.
    method Continue(index: nat, line: LogLine, state: MatchState<Problem>, data: Problem) returns (attempts: seq<Attempt<Problem>>)
      requires index < |matchers| && state.nextPattern < |matchers[index].patterns|
      modifies this
      ensures Outcome(states, attempts) == Continued(matchers[index], index, line, state, data, old(states), bounds)
    {
      attempts := [];
      var m, key := matchers[index], KeyOf(line, index);
      if state.nextPattern == |m.patterns| - 1 {
        attempts := [Report(index, data, line, state.startLine)];
        if m.patterns[state.nextPattern].loops {
          states := states[key := state];
        }
      } else {
        var retained := RetainedStateBytes();
        if SatAdd(retained, Bytes(data)) <= bounds.maxStateBytes {
          states := states[key := MatchState(state.nextPattern + 1, data, state.startLine)];
        } else {
          attempts := [GiveUp];
        }
      }
    }

    // The state waiting for a matcher, taken out.
    method Take(index: nat, line: LogLine) returns (state: Option<MatchState<Problem>>)
      requires Valid() && index < |matchers|
      modifies this
      ensures state == Slot(old(states), KeyOf(line, index))
      ensures states == old(states) - {KeyOf(line, index)}
      ensures IsWaiting(|matchers[index].patterns|, state)
    {
      var key := KeyOf(line, index);
      state := Slot(states, key);
      assert IsWaiting(Automata(matchers)[index].count, Slot(states, key));
      states := states - {key};
    }

    method ObserveOne(index: nat, line: LogLine) returns (attempts: seq<Attempt<Problem>>)
      requires Valid() && index < |matchers|
      modifies this
      ensures Outcome(states, attempts) == ObserveMatcher(AutomatonOf(matchers[index]), index, line, old(states), bounds)
    {
      assert IsWaiting(Automata(matchers)[index].count, Slot(states, KeyOf(line, index)));
      ObserveByCases(matchers[index], index, line, states, bounds);
      var taken := Take(index, line);
      if taken.Some? {
        var advanced := Advance(matchers[index], taken.value.data, taken.value.nextPattern, line.text);
        if advanced.Some? {
          attempts := Continue(index, line, taken.value, advanced.value);
          return;
        }
      }
      attempts := Start(index, line);
    }

    // The first n matchers have observed a line.
    ghost predicate HasObserved(n: nat, line: LogLine, attempts: seq<Attempt<Problem>>, start: States<Problem>)
      reads this
    {
      n <= |matchers| && Valid() && Outcome(states, attempts) == ObserveUpTo(Automata(matchers), line, start, bounds, n)
    }

    method ObserveNext(index: nat, line: LogLine, before: seq<Attempt<Problem>>, ghost start: States<Problem>)
      returns (attempts: seq<Attempt<Problem>>)
      requires index < |matchers| && HasObserved(index, line, before, start)
      modifies this
      ensures HasObserved(index + 1, line, attempts, start)
    {
      ghost var automata, was := Automata(matchers), states;
      CompiledAutomata(matchers);
      MatcherWellFormed(automata, index, line, states, bounds);
      var more := ObserveOne(index, line);
      OneMoreMatcher(automata, line, start, bounds, index, Outcome(was, before), Outcome(states, more));
      attempts := before + more;
    }

    // Shows a delivered line to every matcher.
    method ObserveAll(line: LogLine) returns (attempts: seq<Attempt<Problem>>)
      requires Valid()
      modifies this
      ensures Valid()
      ensures Outcome(states, attempts) == ObserveUpTo(Automata(matchers), line, old(states), bounds, |matchers|)
    {
      attempts := [];
      ghost var start := states;
      for n := 0 to |matchers|
        invariant HasObserved(n, line, attempts, start)
      {
        attempts := ObserveNext(n, line, attempts, start);
      }
    }

    method ObserveDelivered(line: LogLine) returns (emissions: seq<Emission>)
      requires Valid()
      modifies this
      ensures Valid()
      ensures var after := ObserveUpTo(Automata(matchers), line, old(states), bounds, |matchers|);
        states == after.states && emissions == Emissions(matchers, after.attempts, bounds)
    {
      var attempts := ObserveAll(line);
      emissions := Emissions(matchers, attempts, bounds);
    }

    method EndScope(scope: Scope)
      modifies this
      ensures states == WithoutScope(old(states), scope.id)
    {
      states := map key | key in states && key.0 != scope.id :: states[key];
    }

    method Finish()
      modifies this
      ensures states == map[]
    {
      states := map[];
    }
  }
}
