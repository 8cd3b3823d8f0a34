/** What a complete match is reported as, field by field from what it captured: coordinates, path, severity,
    code, message and where the match stands in the log. */
module MatchEmissions {
  import opened Model
  import opened Utf8
  import opened Text
  import opened Strings
  import opened Sequences
  import opened Engine
  import opened Plan
  import opened MatchMachine
  import opened MatchSpec
  import opened ProblemMatcher
  import opened MatchCaptures

  // ---------------------------------------------------------------- coordinates

  // A positive decimal number of at most 32 bits.
  ghost predicate IsCoordinate(text: string, n: u32) {
    n > 0 && IsWritten(text, n)
  }

  // What is read of a capture: its coordinate, or nothing if there is none.
  ghost predicate IsRead(capture: Option<string>, n: Option<u32>) {
    match n
    case Some(value) => capture.Some? && IsCoordinate(capture.value, value)
    case None => capture.Some? ==> forall value: u32 :: !IsCoordinate(capture.value, value)
  }

  // A location capture has one, two or four parts between commas, all of them coordinates.
  ghost predicate AreParts(parts: seq<string>, text: string, line: u32, column: Option<u32>, endLine: Option<u32>, endColumn: Option<u32>) {
    && Join(parts, ',') == text && (forall i | 0 <= i < |parts| :: ',' !in parts[i])
    && |parts| in {1, 2, 4} && IsCoordinate(Trim(parts[0]), line)
    && (column.Some? <==> |parts| >= 2) && (|parts| >= 2 ==> IsCoordinate(Trim(parts[1]), column.value))
    && (endLine.Some? <==> |parts| == 4) && (endColumn.Some? <==> |parts| == 4)
    && (|parts| == 4 ==> IsCoordinate(Trim(parts[2]), endLine.value) && IsCoordinate(Trim(parts[3]), endColumn.value))
  }

  // The coordinates that a match captured: the parts of its location capture if it has one, else each from
  // its own capture, where only the line is needed.
  ghost predicate Places(p: Problem, line: u32, column: Option<u32>, endLine: Option<u32>, endColumn: Option<u32>) {
    if p.location.Some? then exists parts :: AreParts(parts, p.location.value, line, column, endLine, endColumn)
    else p.line.Some? && IsCoordinate(p.line.value, line) && IsRead(p.column, column) && IsRead(p.endLine, endLine)
         && IsRead(p.endColumn, endColumn)
  }

  lemma CoordinateIsParsed(text: string, n: u32)
    ensures IsCoordinate(text, n) <==> ParseCoordinate(text) == Some(n)
  {
    ParseExactly(text, n);
  }

  lemma ReadIsParsed(capture: Option<string>, n: Option<u32>)
    ensures IsRead(capture, n) <==> OptionCoordinate(capture) == n
  {
    if capture.Some? {
      forall value: u32 ensures IsCoordinate(capture.value, value) <==> ParseCoordinate(capture.value) == Some(value) {
        CoordinateIsParsed(capture.value, value);
      }
    }
  }

  // The parts of a location are determined by it.
  lemma PartsAre(parts: seq<string>, text: string)
    requires parts != [] && Join(parts, ',') == text && forall i | 0 <= i < |parts| :: ',' !in parts[i]
    ensures parts == SplitOn(text, ',')
  {
    SplitJoined(parts, ',');
  }

  function NumbersOf(parts: seq<string>): seq<Option<u32>> {
    seq(|parts|, i requires 0 <= i < |parts| => ParseCoordinate(Trim(parts[i])))
  }

  lemma NumberOf(parts: seq<string>, i: nat, n: u32)
    requires i < |parts|
    ensures IsCoordinate(Trim(parts[i]), n) <==> NumbersOf(parts)[i] == Some(n)
  {
    CoordinateIsParsed(Trim(parts[i]), n);
  }

  predicate AllSome(numbers: seq<Option<u32>>) {
    forall i | 0 <= i < |numbers| :: numbers[i].Some?
  }

  lemma ParseIs(text: string, parts: seq<string>, numbers: seq<Option<u32>>)
    requires parts == SplitOn(text, ',') && numbers == NumbersOf(parts)
    ensures ParseLocation(text) ==
      if !AllSome(numbers) then None
      else if |numbers| == 1 then Some(Coordinates(numbers[0].value, None, None, None))
      else if |numbers| == 2 then Some(Coordinates(numbers[0].value, numbers[1], None, None))
      else if |numbers| == 4 then Some(Coordinates(numbers[0].value, numbers[1], numbers[2], numbers[3]))
      else None
  {
  }

  predicate AreNumbers(numbers: seq<Option<u32>>, c: Coordinates) {
    && |numbers| in {1, 2, 4} && numbers[0] == Some(c.line)
    && (if |numbers| >= 2 then c.column.Some? && numbers[1] == c.column else c.column.None?)
    && (if |numbers| == 4 then c.endLine.Some? && c.endColumn.Some? && numbers[2] == c.endLine && numbers[3] == c.endColumn
        else c.endLine.None? && c.endColumn.None?)
  }

  lemma SomeByPlace(numbers: seq<Option<u32>>)
    ensures |numbers| == 1 ==> (AllSome(numbers) <==> numbers[0].Some?)
    ensures |numbers| == 2 ==> (AllSome(numbers) <==> numbers[0].Some? && numbers[1].Some?)
    ensures |numbers| == 4 ==> (AllSome(numbers) <==> numbers[0].Some? && numbers[1].Some? && numbers[2].Some? && numbers[3].Some?)
  {
  }

  lemma NumbersParsed(text: string, parts: seq<string>, numbers: seq<Option<u32>>, c: Coordinates)
    requires parts == SplitOn(text, ',') && numbers == NumbersOf(parts)
    ensures AreNumbers(numbers, c) <==> ParseLocation(text) == Some(c)
  {
    ParseIs(text, parts, numbers);
    SomeByPlace(numbers);
  }

  lemma PartsAreNumbers(parts: seq<string>, text: string, c: Coordinates)
    requires Join(parts, ',') == text && forall i | 0 <= i < |parts| :: ',' !in parts[i]
    ensures AreParts(parts, text, c.line, c.column, c.endLine, c.endColumn) <==> AreNumbers(NumbersOf(parts), c)
  {
    if |parts| >= 1 {
      NumberOf(parts, 0, c.line);
    }
    if |parts| >= 2 && c.column.Some? {
      NumberOf(parts, 1, c.column.value);
    }
    if |parts| == 4 && c.endLine.Some? && c.endColumn.Some? {
      NumberOf(parts, 2, c.endLine.value);
      NumberOf(parts, 3, c.endColumn.value);
    }
  }

  lemma PartsParsed(text: string, parts: seq<string>, c: Coordinates)
    requires parts == SplitOn(text, ',')
    ensures AreParts(parts, text, c.line, c.column, c.endLine, c.endColumn) <==> ParseLocation(text) == Some(c)
  {
    JoinSplit(text, ',');
    PartsAreNumbers(parts, text, c);
    NumbersParsed(text, parts, NumbersOf(parts), c);
  }

  lemma PlacesAreCoordinates(p: Problem, c: Coordinates)
    ensures Places(p, c.line, c.column, c.endLine, c.endColumn) <==> CoordinatesOf(p) == Some(c)
  {
    if p.location.Some? {
      var text := p.location.value;
      PartsParsed(text, SplitOn(text, ','), c);
      if Places(p, c.line, c.column, c.endLine, c.endColumn) {
        var parts :| AreParts(parts, text, c.line, c.column, c.endLine, c.endColumn);
        PartsAre(parts, text);
      }
    } else {
      ReadIsParsed(p.line, Some(c.line));
      ReadIsParsed(p.column, c.column);
      ReadIsParsed(p.endLine, c.endLine);
      ReadIsParsed(p.endColumn, c.endColumn);
    }
  }

  // The end line that is reported: never before the line, and the line itself if only an end column is known.
  function ReportedEnd(line: u32, endLine: Option<u32>, endColumn: Option<u32>): Option<u32> {
    match endLine
    case Some(n) => if line <= n then Some(n) else Some(line)
    case None => if endColumn.Some? then Some(line) else None
  }

  // ---------------------------------------------------------------- paths

  predicate AllSlashes(s: string) {
    forall i | 0 <= i < |s| :: s[i] == '/' || s[i] == '\\'
  }

  // A leading slash or backslash, or a drive letter.
  predicate IsRooted(path: string) {
    path != "" && (path[0] == '/' || path[0] == '\\' || (path[0] as int < 0x80 && |path| > 1 && path[1] == ':'))
  }

  // One slash between a prefix and a path, whatever slashes they have there.
  ghost predicate JoinsTo(prefix: string, path: string, joined: string) {
    if prefix == "" || IsRooted(path) then joined == path
    else
      exists left, right, x, y :: IsCut(prefix, path, left, x, y, right)
        && joined == if left == "" then right else if right == "" then left else left + "/" + right
  }

  ghost predicate IsCut(prefix: string, path: string, left: string, x: string, y: string, right: string) {
    && prefix == left + x && path == y + right && AllSlashes(x) && AllSlashes(y)
    && (left == "" || !AllSlashes([left[|left| - 1]])) && (right == "" || !AllSlashes([right[0]]))
  }

  // The file below the captured root, if any, and that below the matcher's prefix, if any.
  ghost predicate ResolvesTo(m: Matcher, p: Problem, path: string) {
    p.file.Some? && exists file :: ResolvesBy(m, p, file, path)
  }

  ghost predicate ResolvesBy(m: Matcher, p: Problem, file: string, path: string)
    requires p.file.Some?
  {
    && (if p.fromPath.Some? then JoinsTo(p.fromPath.value, p.file.value, file) else file == p.file.value)
    && (if m.fileLocation.Relative? then JoinsTo(m.fileLocation.prefix, file, path) else path == file)
  }

  lemma {:induction false} SlashEnd(s: string) returns (x: string)
    ensures s == TrimSlashEnd(s) + x && AllSlashes(x)
    ensures TrimSlashEnd(s) == "" || !AllSlashes([TrimSlashEnd(s)[|TrimSlashEnd(s)| - 1]])
  {
    x := "";
    if s != [] && IsSlash(s[|s| - 1]) {
      var init := s[..|s| - 1];
      x := SlashEnd(init);
      x := x + [s[|s| - 1]];
      assert s == init + [s[|s| - 1]];
    } else if s != [] {
      assert !AllSlashes([s[|s| - 1]]) by {
        assert [s[|s| - 1]][0] == s[|s| - 1];
      }
    }
  }

  lemma {:induction false} SlashStart(s: string) returns (y: string)
    ensures s == y + TrimSlashStart(s) && AllSlashes(y)
    ensures TrimSlashStart(s) == "" || !AllSlashes([TrimSlashStart(s)[0]])
  {
    y := "";
    if s != [] && IsSlash(s[0]) {
      y := SlashStart(s[1..]);
      y := [s[0]] + y;
    } else if s != [] {
      assert !AllSlashes([s[0]]) by {
        assert [s[0]][0] == s[0];
      }
    }
  }

  lemma RootedIsAbsolute(path: string)
    ensures IsRooted(path) <==> IsAbsolute(path)
  {
    if path != [] {
      var first, rest := EncodeChar(path[0]), Encode(path[1..]);
      var bytes := first + rest;
      assert Encode(path) == bytes;
      if path[0] as int >= 0x80 {
        LeadBytes(path[0]);
        assert At(bytes, 1) == first[1];
      } else if |path| > 1 {
        SecondByte(path[0], path[1], path[2..]);
        assert path == [path[0], path[1]] + path[2..];
      }
    }
  }

  lemma LeadBytes(c: char)
    requires c as int >= 0x80
    ensures |EncodeChar(c)| > 1 && EncodeChar(c)[1] >= 0x80
  {
  }

  // The byte behind a one-byte character is a colon exactly if the next character is one.
  lemma SecondByte(a: char, b: char, rest: string)
    requires a as int < 0x80
    ensures At(Encode([a, b] + rest), 1) == 0x3A <==> b == ':'
  {
    var s := [a, b] + rest;
    assert s[1..] == [b] + rest && ([b] + rest)[1..] == rest;
    assert Encode(s) == EncodeChar(a) + (EncodeChar(b) + Encode(rest));
    assert Encode(s)[1] == EncodeChar(b)[0];
  }

  lemma JoinPathJoins(prefix: string, path: string)
    ensures JoinsTo(prefix, path, JoinPath(prefix, path))
  {
    RootedIsAbsolute(path);
    if prefix != "" && !IsRooted(path) {
      var x := SlashEnd(prefix);
      var y := SlashStart(path);
      assert IsCut(prefix, path, TrimSlashEnd(prefix), x, y, TrimSlashStart(path));
    }
  }

  lemma ResolveResolves(m: Matcher, p: Problem)
    requires p.file.Some?
    ensures ResolvesTo(m, p, Resolve(m.fileLocation, p.fromPath, p.file.value))
  {
    var file := if p.fromPath.Some? then JoinPath(p.fromPath.value, p.file.value) else p.file.value;
    if p.fromPath.Some? {
      JoinPathJoins(p.fromPath.value, p.file.value);
    }
    if m.fileLocation.Relative? {
      JoinPathJoins(m.fileLocation.prefix, file);
    }
    assert ResolvesBy(m, p, file, Resolve(m.fileLocation, p.fromPath, p.file.value));
  }

  // ---------------------------------------------------------------- severity

  // The words for a severity, in any case and with any whitespace around them.
  predicate IsWordFor(text: string, severity: Severity) {
    var word := ToLower(Trim(text));
    match severity
    case Error => word == "error" || word == "err" || word == "e"
    case Warning => word == "warning" || word == "warn" || word == "w"
    case Note => word == "info" || word == "information" || word == "note" || word == "notice" || word == "hint" || word == "i"
  }

  // The captured severity if it is a known word, else that of the matcher.
  predicate IsSeverityOf(m: Matcher, p: Problem, severity: Severity) {
    if p.severity.Some? && (IsWordFor(p.severity.value, Error) || IsWordFor(p.severity.value, Warning) || IsWordFor(p.severity.value, Note))
    then IsWordFor(p.severity.value, severity)
    else severity == m.severity
  }

  lemma SeverityIs(m: Matcher, p: Problem)
    ensures IsSeverityOf(m, p, SeverityOf(m, p))
  {
    if p.severity.Some? {
      WordIsParsed(ToLower(Trim(p.severity.value)), p.severity.value);
    }
  }

  lemma WordIsParsed(word: string, text: string)
    requires word == ToLower(Trim(text))
    ensures match ParseSeverity(text)
      case Some(severity) => IsWordFor(text, severity)
      case None => !IsWordFor(text, Error) && !IsWordFor(text, Warning) && !IsWordFor(text, Note)
  {
  }

  // ---------------------------------------------------------------- the diagnostic

  // Whether the first pattern asks for a file only.
  predicate FileOnly(m: Matcher)
    requires m.patterns != []
  {
    m.patterns[0].kind == Some(FileKind)
  }

  /** A complete match that can be reported: within the byte bound it names a file, a message and, unless only
      a file is asked for, usable coordinates. */
  ghost predicate IsReportable(m: Matcher, p: Problem, bounds: Bounds)
    requires m.patterns != []
  {
    && Bytes(p) <= bounds.maxStateBytes
    && p.file.Some? && p.file.value != "" && p.message.Some? && p.message.value != ""
    && (FileOnly(m) || exists line, column, endLine, endColumn :: Places(p, line, column, endLine, endColumn))
  }

  // The reported coordinates are those that the match captured.
  ghost predicate IsLocationOf(m: Matcher, p: Problem, l: Location)
    requires m.patterns != []
  {
    ResolvesTo(m, p, l.path) &&
    if FileOnly(m) then l == Location(l.path, None, None, None, None)
    else
      l.line.Some? &&
      exists endLine :: Places(p, l.line.value, l.column, endLine, l.endColumn) && l.endLine == ReportedEnd(l.line.value, endLine, l.endColumn)
  }

  // Where the match stands: its scope and stream, its first and its last line.
  predicate IsPlaceOf(m: Matcher, line: LogLine, start: u64, p: Provenance) {
    && p.source == StreamName(line.stream) && p.stream == Some(line.stream)
    && p.startLine == Some(start) && p.endLine == Some(if line.streamLine < start then start else line.streamLine)
    && p.scopeId == Some(line.scope.id) && p.scopeKind == Some(line.scope.kind)
    && p.title == Some(if m.source.Some? then m.source.value else m.owner)
    && p.parser == Some("problem-matcher.v1")
  }

  /** The diagnostic of a match, from its captures. */
  ghost predicate IsDiagnosticOf(m: Matcher, p: Problem, line: LogLine, start: u64, d: Diagnostic)
    requires m.patterns != []
  {
    && p.message == Some(d.message) && d.class_ == Tool && d.quality == Located && d.count == 1
    && d.code == (if p.code == Some("") then None else p.code)
    && IsSeverityOf(m, p, d.severity)
    && d.location.Some? && IsLocationOf(m, p, d.location.value)
    && d.provenance.Some? && IsPlaceOf(m, line, start, d.provenance.value)
  }

  lemma LocationIs(m: Matcher, p: Problem)
    requires m.patterns != [] && p.file.Some?
    ensures var path := Resolve(m.fileLocation, p.fromPath, p.file.value);
      var l := LocationOf(p, path, if m.patterns[0].kind.Some? then m.patterns[0].kind.value else LocationKind);
      match l
      case Some(location) => IsLocationOf(m, p, location)
      case None => !FileOnly(m) && forall line, column, endLine, endColumn :: !Places(p, line, column, endLine, endColumn)
  {
    ResolveResolves(m, p);
    var c := CoordinatesOf(p);
    if c.Some? {
      PlacesAreCoordinates(p, c.value);
      assert Places(p, c.value.line, c.value.column, c.value.endLine, c.value.endColumn);
    }
    forall line, column, endLine, endColumn | Places(p, line, column, endLine, endColumn) ensures c.Some? {
      PlacesAreCoordinates(p, Coordinates(line, column, endLine, endColumn));
    }
  }

  lemma PlacedSome(p: Problem)
    ensures CoordinatesOf(p).Some? ==> exists line, column, endLine, endColumn :: Places(p, line, column, endLine, endColumn)
  {
    if CoordinatesOf(p).Some? {
      var c := CoordinatesOf(p).value;
      PlacesAreCoordinates(p, c);
      assert Places(p, c.line, c.column, c.endLine, c.endColumn);
    }
  }

  /** What is emitted of a complete match: exactly one diagnostic, field by field from what was captured, if
      the match can be reported; one dropped candidate if it is too large; nothing otherwise. */
  lemma EmissionExact(m: Matcher, p: Problem, line: LogLine, start: u64, bounds: Bounds)
    requires m.patterns != []
    ensures var e := EmitProblem(m, p, line, start, bounds);
      && (Bytes(p) > bounds.maxStateBytes ==> e == [EmitDropped])
      && (IsReportable(m, p, bounds) ==> |e| == 1 && e[0].EmitDiagnostic? && IsDiagnosticOf(m, p, line, start, e[0].diagnostic))
      && (Bytes(p) <= bounds.maxStateBytes && !IsReportable(m, p, bounds) ==> e == [])
  {
    SeverityIs(m, p);
    if p.file.Some? {
      LocationIs(m, p);
      PlacedSome(p);
    }
  }

  /** What is counted of a match: the length of all its captures together, encoded. */
  lemma BytesAreCaptures(p: Problem)
    ensures var all := OrEmpty(p.file) + OrEmpty(p.fromPath) + OrEmpty(p.location) + OrEmpty(p.line) + OrEmpty(p.column)
        + OrEmpty(p.endLine) + OrEmpty(p.endColumn) + OrEmpty(p.severity) + OrEmpty(p.code) + OrEmpty(p.message);
      Bytes(p) == Min(|Encode(all)|, U64_MAX)
  {
    var a := OrEmpty(p.file) + OrEmpty(p.fromPath) + OrEmpty(p.location) + OrEmpty(p.line) + OrEmpty(p.column);
    FiveMore("", OrEmpty(p.file), OrEmpty(p.fromPath), OrEmpty(p.location), OrEmpty(p.line), OrEmpty(p.column));
    NothingInFront(OrEmpty(p.file));
    FiveMore(a, OrEmpty(p.endLine), OrEmpty(p.endColumn), OrEmpty(p.severity), OrEmpty(p.code), OrEmpty(p.message));
    EncodeLength(a + OrEmpty(p.endLine) + OrEmpty(p.endColumn) + OrEmpty(p.severity) + OrEmpty(p.code) + OrEmpty(p.message));
  }

  function OrEmpty(capture: Option<string>): string {
    match capture case Some(text) => text case None => ""
  }

  lemma FiveMore(s: string, a: string, b: string, c: string, d: string, e: string)
    ensures ByteLen(s + a + b + c + d + e) == ByteLen(s) + ByteLen(a) + ByteLen(b) + ByteLen(c) + ByteLen(d) + ByteLen(e)
  {
    OneMore(s, a);
    OneMore(s + a, b);
    OneMore(s + a + b, c);
    OneMore(s + a + b + c, d);
    OneMore(s + a + b + c + d, e);
  }

  lemma OneMore(a: string, b: string)
    ensures ByteLen(a + b) == ByteLen(a) + ByteLen(b)
  {
    ByteLenConcat(a, b);
  }

  // What one attempt is emitted as.
  function EmissionOf(matchers: seq<Matcher>, attempt: Attempt<Problem>, bounds: Bounds): seq<Emission>
    requires AllCompiledMatchers(matchers) && (attempt.Report? ==> attempt.index < |matchers|)
  {
    if attempt.GiveUp? then [EmitDropped]
    else EmitProblem(matchers[attempt.index], attempt.data, attempt.line, attempt.startLine, bounds)
  }

  lemma FirstEmission(matchers: seq<Matcher>, attempts: seq<Attempt<Problem>>, bounds: Bounds)
    requires AllCompiledMatchers(matchers) && attempts != [] && (attempts[0].Report? ==> attempts[0].index < |matchers|)
    ensures Emissions(matchers, attempts, bounds) == EmissionOf(matchers, attempts[0], bounds) + Emissions(matchers, attempts[1..], bounds)
  {
  }

  /** The attempts of a line are emitted in turn: a report as its match is, a partial match given up as one dropped
      candidate. */
  lemma {:induction false} EmissionsInTurn(matchers: seq<Matcher>, attempts: seq<Attempt<Problem>>, bounds: Bounds, last: Attempt<Problem>)
    requires AllCompiledMatchers(matchers)
    requires forall i | 0 <= i < |attempts| && attempts[i].Report? :: attempts[i].index < |matchers|
    requires last.Report? ==> last.index < |matchers|
    ensures Emissions(matchers, attempts + [last], bounds) == Emissions(matchers, attempts, bounds) + EmissionOf(matchers, last, bounds)
  {
    var more := attempts + [last];
    FirstEmission(matchers, more, bounds);
    if attempts == [] {
      assert more == [last] && [last][1..] == [];
      AppendNothing(EmissionOf(matchers, last, bounds));
      NothingInFront(EmissionOf(matchers, last, bounds));
    } else {
      var rest := attempts[1..];
      TailOfAppend(attempts, [last]);
      FirstEmission(matchers, attempts, bounds);
      EmissionsInTurn(matchers, rest, bounds, last);
      AppendAssociates(EmissionOf(matchers, attempts[0], bounds), Emissions(matchers, rest, bounds), EmissionOf(matchers, last, bounds));
    }
  }

  // ---------------------------------------------------------------- whole streams

  ghost predicate EmitsItsCaptures(m: Matcher, x: Attempt<Problem>, bounds: Bounds)
    requires m.patterns != []
  {
    x.Report? &&
    var e := EmitProblem(m, x.data, x.line, x.startLine, bounds);
    (IsReportable(m, x.data, bounds) ==> |e| == 1 && e[0].EmitDiagnostic? && IsDiagnosticOf(m, x.data, x.line, x.startLine, e[0].diagnostic))
  }

  /** Every report on consecutive lines of a stream is emitted as the diagnostic of the first captures along
      its lines, loop hits included. */
  lemma ReportsEmitCaptures(m: Matcher, index: nat, lines: seq<LogLine>, bounds: Bounds, n: nat)
    requires IsCompiledMatcher(m) && n < |Blocks(AutomatonOf(m), index, lines)|
    ensures var x := Blocks(AutomatonOf(m), index, lines)[n];
      IsCaptured(m, lines, x) && EmitsItsCaptures(m, x, bounds)
  {
    ReportsAreFirstCaptures(m, index, lines);
    var x := Blocks(AutomatonOf(m), index, lines)[n];
    assert IsCaptured(m, lines, x);
    EmissionExact(m, x.data, x.line, x.startLine, bounds);
  }
}
