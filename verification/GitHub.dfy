/** The printer for GitHub workflow commands: its escaping is a single-pass map, and a decoder recovers
    everything that was printed. */
module GitHub {
  import opened Model
  import opened Text
  import opened Strings

  // ---------------------------------------------------------------- escaping

  function EscapeMessage(value: string): string {
    Replace(Replace(Replace(value, '%', "%25"), '\r', "%0D"), '\n', "%0A")
  }

  function EscapeProperty(value: string): string {
    Replace(Replace(EscapeMessage(value), ':', "%3A"), ',', "%2C")
  }

  // How one character is escaped in a message, or in a property.
  function CodeOf(c: char, property: bool): string {
    if c == '%' then "%25"
    else if c == '\r' then "%0D"
    else if c == '\n' then "%0A"
    else if property && c == ':' then "%3A"
    else if property && c == ',' then "%2C"
    else [c]
  }

  function Coded(value: string, property: bool): string {
    if value == [] then [] else CodeOf(value[0], property) + Coded(value[1..], property)
  }

  lemma {:induction false} ReplaceConcat(a: string, b: string, c: char, text: string)
    ensures Replace(a + b, c, text) == Replace(a, c, text) + Replace(b, c, text)
  {
    if a == [] {
      assert a + b == b;
    } else {
      assert (a + b)[1..] == a[1..] + b;
      ReplaceConcat(a[1..], b, c, text);
    }
  }

  lemma {:induction false} ReplaceAbsent(s: string, c: char, text: string)
    requires c !in s
    ensures Replace(s, c, text) == s
  {
    if s != [] {
      ReplaceAbsent(s[1..], c, text);
    }
  }

  lemma ReplaceOne(x: char, c: char, text: string)
    ensures Replace([x], c, text) == if x == c then text else [x]
  {
    assert [x][1..] == [];
  }

  lemma MessageConcat(a: string, b: string)
    ensures EscapeMessage(a + b) == EscapeMessage(a) + EscapeMessage(b)
  {
    ReplaceConcat(a, b, '%', "%25");
    var a1, b1 := Replace(a, '%', "%25"), Replace(b, '%', "%25");
    ReplaceConcat(a1, b1, '\r', "%0D");
    ReplaceConcat(Replace(a1, '\r', "%0D"), Replace(b1, '\r', "%0D"), '\n', "%0A");
  }

  lemma MessageOne(c: char)
    ensures EscapeMessage([c]) == CodeOf(c, false)
  {
    ReplaceOne(c, '%', "%25");
    if c == '%' {
      ReplaceAbsent("%25", '\r', "%0D");
      ReplaceAbsent("%25", '\n', "%0A");
    } else {
      ReplaceOne(c, '\r', "%0D");
      ReplaceAbsent("%0D", '\n', "%0A");
      ReplaceOne(c, '\n', "%0A");
    }
  }

  lemma PropertyConcat(a: string, b: string)
    ensures EscapeProperty(a + b) == EscapeProperty(a) + EscapeProperty(b)
  {
    MessageConcat(a, b);
    var a1, b1 := EscapeMessage(a), EscapeMessage(b);
    ReplaceConcat(a1, b1, ':', "%3A");
    ReplaceConcat(Replace(a1, ':', "%3A"), Replace(b1, ':', "%3A"), ',', "%2C");
  }

  lemma PropertyOne(c: char)
    ensures EscapeProperty([c]) == CodeOf(c, true)
  {
    MessageOne(c);
    var code := CodeOf(c, false);
    if code == [c] {
      ReplaceOne(c, ':', "%3A");
      ReplaceAbsent("%3A", ',', "%2C");
      ReplaceOne(c, ',', "%2C");
    } else {
      ReplaceAbsent(code, ':', "%3A");
      ReplaceAbsent(code, ',', "%2C");
    }
  }

  /** The chained replacements of messages and of properties each equal one pass over the characters. */
  lemma {:induction false} EscapingIsOnePass(value: string)
    ensures EscapeMessage(value) == Coded(value, false)
    ensures EscapeProperty(value) == Coded(value, true)
  {
    if value != [] {
      EscapingIsOnePass(value[1..]);
      assert value == [value[0]] + value[1..];
      MessageConcat([value[0]], value[1..]);
      PropertyConcat([value[0]], value[1..]);
      MessageOne(value[0]);
      PropertyOne(value[0]);
    }
  }

  predicate IsSafe(s: string, property: bool) {
    '\r' !in s && '\n' !in s && (property ==> ':' !in s && ',' !in s)
  }

  lemma {:induction false} CodedIsSafe(value: string, property: bool)
    ensures IsSafe(Coded(value, property), property)
  {
    if value != [] {
      CodedIsSafe(value[1..], property);
    }
  }

  /** Escaped messages contain no line break; escaped properties contain neither colon nor comma either. */
  lemma EscapedIsSafe(value: string)
    ensures IsSafe(EscapeMessage(value), false) && IsSafe(EscapeProperty(value), true)
  {
    EscapingIsOnePass(value);
    CodedIsSafe(value, false);
    CodedIsSafe(value, true);
  }

  // Which character a code of three characters stands for.
  function Uncode(code: string): Option<char> {
    if code == "%25" then Some('%')
    else if code == "%0D" then Some('\r')
    else if code == "%0A" then Some('\n')
    else if code == "%3A" then Some(':')
    else if code == "%2C" then Some(',')
    else None
  }

  function Unescape(s: string): string {
    if s == [] then []
    else if |s| >= 3 && Uncode(s[..3]).Some? then [Uncode(s[..3]).value] + Unescape(s[3..])
    else [s[0]] + Unescape(s[1..])
  }

  lemma UnescapePlain(c: char, rest: string)
    requires c != '%'
    ensures Unescape([c] + rest) == [c] + Unescape(rest)
  {
    var s := [c] + rest;
    assert s[1..] == rest && (|s| >= 3 ==> s[..3][0] == c);
  }

  lemma UnescapeTriple(code: string, rest: string)
    requires |code| == 3 && Uncode(code).Some?
    ensures Unescape(code + rest) == [Uncode(code).value] + Unescape(rest)
  {
    var s := code + rest;
    assert s[..3] == code && s[3..] == rest;
  }

  lemma UnescapeCode(c: char, property: bool, rest: string)
    ensures Unescape(CodeOf(c, property) + rest) == [c] + Unescape(rest)
  {
    var code := CodeOf(c, property);
    if code == [c] {
      UnescapePlain(c, rest);
    } else {
      UnescapeTriple(code, rest);
    }
  }

  lemma {:induction false} UnescapeCoded(value: string, property: bool)
    ensures Unescape(Coded(value, property)) == value
  {
    if value != [] {
      UnescapeCode(value[0], property, Coded(value[1..], property));
      UnescapeCoded(value[1..], property);
    }
  }

  /** Both escapings can be undone, for every string. */
  lemma EscapingIsDecodable(value: string)
    ensures Unescape(EscapeMessage(value)) == value
    ensures Unescape(EscapeProperty(value)) == value
  {
    EscapingIsOnePass(value);
    UnescapeCoded(value, false);
    UnescapeCoded(value, true);
  }

  // ---------------------------------------------------------------- printing

  function CommandOf(severity: Severity): string {
    match severity case Error => "error" case Warning => "warning" case Note => "notice"
  }

  function NumberPart(key: string, value: Option<u32>): seq<string> {
    match value case None => [] case Some(n) => [key + Show(n)]
  }

  // The properties of a location, in the order in which they are printed.
  function Properties(l: Location): seq<string> {
    ["file=" + EscapeProperty(l.path)] + NumberPart("line=", l.line) + NumberPart("col=", l.column)
      + NumberPart("endLine=", l.endLine) + NumberPart("endColumn=", l.endColumn)
  }

  function HeadOf(d: Diagnostic): string {
    match d.location
    case None => CommandOf(d.severity)
    case Some(l) => CommandOf(d.severity) + " " + Join(Properties(l), ',')
  }

  function LineOf(head: string, message: string): string {
    "::" + head + "::" + EscapeMessage(message)
  }

  function DiagnosticLine(d: Diagnostic): string {
    LineOf(HeadOf(d), d.message)
  }

  function FailureLine(f: TestFailure): string {
    LineOf("error title=" + EscapeProperty(f.name), f.message)
  }

  function PrintLines(lines: seq<string>): string {
    if lines == [] then [] else lines[0] + "\n" + PrintLines(lines[1..])
  }

  function DiagnosticLines(ds: seq<Diagnostic>): seq<string> {
    seq(|ds|, i requires 0 <= i < |ds| => DiagnosticLine(ds[i]))
  }

  function FailureLines(fs: seq<TestFailure>): seq<string> {
    seq(|fs|, i requires 0 <= i < |fs| => FailureLine(fs[i]))
  }

  function OutputLines(r: Reduction): seq<string> {
    DiagnosticLines(r.diagnostics) + FailureLines(r.testFailures)
  }

  lemma {:induction false} JoinMore(parts: seq<string>, last: string)
    requires parts != []
    ensures Join(parts + [last], ',') == Join(parts, ',') + "," + last
  {
    assert (parts + [last])[1..] == parts[1..] + [last];
    if |parts| > 1 {
      JoinMore(parts[1..], last);
    }
  }

  method PushNumber(output: string, ghost before: string, ghost parts: seq<string>, key: string, value: Option<u32>)
    returns (next: string)
    requires parts != [] && output == before + Join(parts, ',')
    ensures next == before + Join(parts + NumberPart(key, value), ',')
  {
    next := output;
    if value.Some? {
      next := next + "," + key + Show(value.value);
      JoinMore(parts, key + Show(value.value));
    } else {
      assert parts + [] == parts;
    }
  }

  method PushLocation(output: string, l: Location) returns (next: string)
    ensures next == output + " " + Join(Properties(l), ',')
  {
    ghost var before := output + " ";
    ghost var parts := ["file=" + EscapeProperty(l.path)];
    next := output + " file=" + EscapeProperty(l.path);
    assert next == before + Join(parts, ',');
    next := PushNumber(next, before, parts, "line=", l.line);
    parts := parts + NumberPart("line=", l.line);
    next := PushNumber(next, before, parts, "col=", l.column);
    parts := parts + NumberPart("col=", l.column);
    next := PushNumber(next, before, parts, "endLine=", l.endLine);
    parts := parts + NumberPart("endLine=", l.endLine);
    next := PushNumber(next, before, parts, "endColumn=", l.endColumn);
  }

  method PushHead(output: string, d: Diagnostic) returns (next: string)
    ensures next == output + HeadOf(d)
  {
    next := output + CommandOf(d.severity);
    if d.location.Some? {
      next := PushLocation(next, d.location.value);
    }
  }

  method PushDiagnostic(output: string, d: Diagnostic) returns (next: string)
    ensures next == output + DiagnosticLine(d) + "\n"
  {
    next := PushHead(output + "::", d);
    next := next + "::" + EscapeMessage(d.message) + "\n";
  }

  method PushFailure(output: string, f: TestFailure) returns (next: string)
    ensures next == output + FailureLine(f) + "\n"
  {
    next := output + "::error title=" + EscapeProperty(f.name);
    assert next == output + ("::" + ("error title=" + EscapeProperty(f.name)));
    next := next + "::" + EscapeMessage(f.message) + "\n";
  }

  lemma {:induction false} PrintMore(lines: seq<string>, last: string)
    ensures PrintLines(lines + [last]) == PrintLines(lines) + last + "\n"
  {
    if lines != [] {
      assert (lines + [last])[1..] == lines[1..] + [last];
      PrintMore(lines[1..], last);
    }
  }

  // The first i lines have been printed.
  ghost predicate Printed(output: string, lines: seq<string>, i: nat) {
    i <= |lines| && output == PrintLines(lines[..i])
  }

  lemma PrintStep(output: string, lines: seq<string>, i: nat, line: string)
    requires i < |lines| && line == lines[i] && Printed(output, lines, i)
    ensures Printed(output + line + "\n", lines, i + 1)
  {
    assert lines[..i + 1] == lines[..i] + [lines[i]];
    PrintMore(lines[..i], lines[i]);
  }

  lemma PrintEnd(output: string, lines: seq<string>)
    requires Printed(output, lines, |lines|)
    ensures output == PrintLines(lines)
  {
    assert lines[..|lines|] == lines;
  }

  lemma DiagnosticAt(r: Reduction, i: nat)
    requires i < |r.diagnostics|
    ensures |OutputLines(r)| == |r.diagnostics| + |r.testFailures| && OutputLines(r)[i] == DiagnosticLine(r.diagnostics[i])
  {
  }

  lemma FailureAt(r: Reduction, i: nat)
    requires i < |r.testFailures|
    ensures |OutputLines(r)| == |r.diagnostics| + |r.testFailures|
    ensures OutputLines(r)[|r.diagnostics| + i] == FailureLine(r.testFailures[i])
  {
  }

  lemma PrintStart(lines: seq<string>)
    ensures Printed("", lines, 0)
  {
  }

  // Line by line what is to be printed.
  predicate AreLinesOf(lines: seq<string>, r: Reduction) {
    && |lines| == |r.diagnostics| + |r.testFailures|
    && (forall i | 0 <= i < |r.diagnostics| :: lines[i] == DiagnosticLine(r.diagnostics[i]))
    && (forall i | 0 <= i < |r.testFailures| :: lines[|r.diagnostics| + i] == FailureLine(r.testFailures[i]))
  }

  lemma OutputLinesAre(r: Reduction)
    ensures AreLinesOf(OutputLines(r), r)
  {
    forall i | 0 <= i < |r.diagnostics| ensures OutputLines(r)[i] == DiagnosticLine(r.diagnostics[i]) {
      DiagnosticAt(r, i);
    }
    forall i | 0 <= i < |r.testFailures| ensures OutputLines(r)[|r.diagnostics| + i] == FailureLine(r.testFailures[i]) {
      FailureAt(r, i);
    }
  }

  method RenderDiagnostics(r: Reduction, ghost lines: seq<string>) returns (output: string)
    requires AreLinesOf(lines, r)
    ensures Printed(output, lines, |r.diagnostics|)
  {
    output := "";
    PrintStart(lines);
    for i := 0 to |r.diagnostics|
      invariant Printed(output, lines, i)
    {
      PrintStep(output, lines, i, DiagnosticLine(r.diagnostics[i]));
      output := PushDiagnostic(output, r.diagnostics[i]);
    }
  }

  // The lines of all diagnostics and of so many failures are printed.
  ghost predicate PrintedFailures(output: string, lines: seq<string>, r: Reduction, i: nat) {
    Printed(output, lines, |r.diagnostics| + i)
  }

  lemma PrintFailure(output: string, lines: seq<string>, r: Reduction, i: nat, line: string)
    requires AreLinesOf(lines, r) && i < |r.testFailures| && line == FailureLine(r.testFailures[i])
    requires PrintedFailures(output, lines, r, i)
    ensures PrintedFailures(output + line + "\n", lines, r, i + 1)
  {
    PrintStep(output, lines, |r.diagnostics| + i, line);
  }

  method RenderFailures(r: Reduction, before: string, ghost lines: seq<string>) returns (output: string)
    requires AreLinesOf(lines, r) && PrintedFailures(before, lines, r, 0)
    ensures PrintedFailures(output, lines, r, |r.testFailures|)
  {
    output := before;
    for i := 0 to |r.testFailures|
      invariant PrintedFailures(output, lines, r, i)
    {
      var failure := r.testFailures[i];
      PrintFailure(output, lines, r, i, FailureLine(failure));
      output := PushFailure(output, failure);
    }
  }

  method RenderGithub(r: Reduction) returns (output: string)
    ensures output == PrintLines(OutputLines(r))
  {
    OutputLinesAre(r);
    output := RenderDiagnostics(r, OutputLines(r));
    output := RenderFailures(r, output, OutputLines(r));
    PrintEnd(output, OutputLines(r));
  }

  // ---------------------------------------------------------------- decoding

  datatype Annotation =
    | Finding(severity: Severity, location: Option<Location>, message: string)
    | FailedTest(name: string, message: string)

  // The value of the first property with a key.
  function Lookup(parts: seq<string>, key: string): Option<string> {
    if parts == [] then None
    else if StartsWith(parts[0], key) then Some(parts[0][|key|..])
    else Lookup(parts[1..], key)
  }

  function NumberOf(parts: seq<string>, key: string): Option<u32> {
    match Lookup(parts, key) case None => None case Some(value) => ParseU32(value)
  }

  function SeverityOf(command: string): Option<Severity> {
    if command == "error" then Some(Error)
    else if command == "warning" then Some(Warning)
    else if command == "notice" then Some(Note)
    else None
  }

  function DecodeHead(head: string, message: string): Option<Annotation> {
    var k := Find(head, ' ');
    match SeverityOf(head[..k])
    case None => None
    case Some(severity) =>
      if k == |head| then Some(Finding(severity, None, message))
      else
        var parts := SplitOn(head[k + 1..], ',');
        if StartsWith(parts[0], "title=") then
          if severity == Error then Some(FailedTest(Unescape(parts[0][6..]), message)) else None
        else
          match Lookup(parts, "file=")
          case None => None
          case Some(path) =>
            Some(Finding(severity,
              Some(Location(Unescape(path), NumberOf(parts, "line="), NumberOf(parts, "col="), NumberOf(parts, "endLine="),
                            NumberOf(parts, "endColumn="))),
              message))
  }

  function DecodeLine(line: string): Option<Annotation> {
    if !StartsWith(line, "::") then None
    else
      var body := line[2..];
      var k := Find(body, ':');
      if !StartsWith(body[k..], "::") then None else DecodeHead(body[..k], Unescape(body[k + 2..]))
  }

  // The annotations of an output, line by line.
  function DecodeAll(output: string): seq<Option<Annotation>> {
    if output == [] then []
    else
      var k := Find(output, '\n');
      [DecodeLine(output[..k])] + if k == |output| then [] else DecodeAll(output[k + 1..])
  }

  function FindingOf(d: Diagnostic): Option<Annotation> {
    Some(Finding(d.severity, d.location, d.message))
  }

  function FailedTestOf(f: TestFailure): Option<Annotation> {
    Some(FailedTest(f.name, f.message))
  }

  function Findings(ds: seq<Diagnostic>): seq<Option<Annotation>> {
    seq(|ds|, i requires 0 <= i < |ds| => FindingOf(ds[i]))
  }

  function FailedTests(fs: seq<TestFailure>): seq<Option<Annotation>> {
    seq(|fs|, i requires 0 <= i < |fs| => FailedTestOf(fs[i]))
  }

  // What the printer was given.
  function Annotations(r: Reduction): seq<Option<Annotation>> {
    Findings(r.diagnostics) + FailedTests(r.testFailures)
  }

  // ---------------------------------------------------------------- the round trip

  lemma {:induction false} JoinedHas(parts: seq<string>, c: char)
    requires c != ',' && forall i | 0 <= i < |parts| :: c !in parts[i]
    ensures c !in Join(parts, ',')
  {
    if |parts| > 1 {
      JoinedHas(parts[1..], c);
    }
  }

  // No character that separates anything.
  predicate IsPlainPart(s: string) {
    '\n' !in s && ':' !in s && ',' !in s
  }

  lemma ShowIsPlain(n: nat)
    ensures IsPlainPart(Show(n))
  {
    ShowIsDecimal(n);
    assert forall i | 0 <= i < |Show(n)| :: IsDigit(Show(n)[i]);
  }

  lemma NumberIsPlain(key: string, value: Option<u32>)
    requires IsPlainPart(key)
    ensures forall i | 0 <= i < |NumberPart(key, value)| :: IsPlainPart(NumberPart(key, value)[i])
  {
    if value.Some? {
      ShowIsPlain(value.value);
    }
  }

  lemma PropertiesArePlain(l: Location)
    ensures forall i | 0 <= i < |Properties(l)| :: IsPlainPart(Properties(l)[i])
  {
    EscapedIsSafe(l.path);
    NumberIsPlain("line=", l.line);
    NumberIsPlain("col=", l.column);
    NumberIsPlain("endLine=", l.endLine);
    NumberIsPlain("endColumn=", l.endColumn);
  }

  lemma {:induction false} LookupConcat(a: seq<string>, b: seq<string>, key: string)
    ensures Lookup(a + b, key) == if Lookup(a, key).Some? then Lookup(a, key) else Lookup(b, key)
  {
    if a == [] {
      assert a + b == b;
    } else {
      assert (a + b)[1..] == a[1..] + b;
      LookupConcat(a[1..], b, key);
    }
  }

  // Two different keys are never prefixes of one part.
  predicate Apart(key: string, other: string) {
    exists i :: 0 <= i < |key| && i < |other| && key[i] != other[i]
  }

  lemma LookupNumber(key: string, value: Option<u32>, other: string)
    ensures key == other && value.Some? ==> Lookup(NumberPart(key, value), other) == Some(Show(value.value))
    ensures value.None? || Apart(key, other) ==> Lookup(NumberPart(key, value), other) == None
  {
    if value.Some? {
      var part := key + Show(value.value);
      assert [part][0] == part && |[part]| == 1;
      if key == other {
        assert part[|key|..] == Show(value.value);
      } else if Apart(key, other) {
        var i :| 0 <= i < |key| && i < |other| && key[i] != other[i];
        assert part[i] != other[i];
      }
    }
  }

  // Looking a key up among four groups of numbers behind the path.
  lemma LookupFive(first: string, a: seq<string>, b: seq<string>, c: seq<string>, d: seq<string>, key: string)
    requires !StartsWith(first, key)
    ensures Lookup([first] + a + b + c + d, key) ==
      if Lookup(a, key).Some? then Lookup(a, key)
      else if Lookup(b, key).Some? then Lookup(b, key)
      else if Lookup(c, key).Some? then Lookup(c, key)
      else Lookup(d, key)
  {
    LookupConcat([first] + a + b + c, d, key);
    LookupConcat([first] + a + b, c, key);
    LookupConcat([first] + a, b, key);
    LookupConcat([first], a, key);
    assert [first][1..] == [];
  }

  lemma KeysApart()
    ensures Apart("line=", "col=") && Apart("line=", "endLine=") && Apart("line=", "endColumn=")
    ensures Apart("col=", "line=") && Apart("col=", "endLine=") && Apart("col=", "endColumn=")
    ensures Apart("endLine=", "line=") && Apart("endLine=", "col=") && Apart("endLine=", "endColumn=")
    ensures Apart("endColumn=", "line=") && Apart("endColumn=", "col=") && Apart("endColumn=", "endLine=")
  {
    assert "line="[0] == 'l' && "col="[0] == 'c' && "endLine="[0] == 'e' && "endColumn="[0] == 'e';
    assert "endLine="[3] == 'L' && "endColumn="[3] == 'C';
  }

  lemma NumberRoundTrip(l: Location, key: string, value: Option<u32>)
    requires (key == "line=" && value == l.line) || (key == "col=" && value == l.column) ||
             (key == "endLine=" && value == l.endLine) || (key == "endColumn=" && value == l.endColumn)
    ensures NumberOf(Properties(l), key) == value
  {
    var first := "file=" + EscapeProperty(l.path);
    assert first[0] == 'f' && key[0] != 'f';
    KeysApart();
    LookupFive(first, NumberPart("line=", l.line), NumberPart("col=", l.column), NumberPart("endLine=", l.endLine),
      NumberPart("endColumn=", l.endColumn), key);
    LookupNumber("line=", l.line, key);
    LookupNumber("col=", l.column, key);
    LookupNumber("endLine=", l.endLine, key);
    LookupNumber("endColumn=", l.endColumn, key);
    if value.Some? {
      ParseShow(value.value);
    }
  }

  lemma PathRoundTrip(l: Location)
    ensures Lookup(Properties(l), "file=") == Some(EscapeProperty(l.path))
    ensures !StartsWith(Properties(l)[0], "title=")
  {
    var first := "file=" + EscapeProperty(l.path);
    assert Properties(l)[0] == first && first[5..] == EscapeProperty(l.path);
    assert first[0] == 'f';
  }

  lemma CommandIsPlain(severity: Severity)
    ensures IsPlainPart(CommandOf(severity)) && ' ' !in CommandOf(severity) && SeverityOf(CommandOf(severity)) == Some(severity)
  {
  }

  lemma HeadRoundTrip(d: Diagnostic, message: string)
    ensures DecodeHead(HeadOf(d), message) == Some(Finding(d.severity, d.location, message))
  {
    var command := CommandOf(d.severity);
    CommandIsPlain(d.severity);
    match d.location {
      case None => FindAbsent(command, ' ');
      case Some(l) =>
        var tail := Join(Properties(l), ',');
        FindBehind(command, ' ', tail);
        var head := command + [' '] + tail;
        assert head[..|command|] == command && head[|command| + 1..] == tail;
        PropertiesArePlain(l);
        SplitJoined(Properties(l), ',');
        LocationRoundTrip(l);
        PathRoundTrip(l);
    }
  }

  lemma LocationRoundTrip(l: Location)
    ensures var parts := Properties(l);
      Location(Unescape(EscapeProperty(l.path)), NumberOf(parts, "line="), NumberOf(parts, "col="), NumberOf(parts, "endLine="),
               NumberOf(parts, "endColumn=")) == l
  {
    EscapingIsDecodable(l.path);
    NumberRoundTrip(l, "line=", l.line);
    NumberRoundTrip(l, "col=", l.column);
    NumberRoundTrip(l, "endLine=", l.endLine);
    NumberRoundTrip(l, "endColumn=", l.endColumn);
  }

  lemma HeadIsPlain(d: Diagnostic)
    ensures '\n' !in HeadOf(d) && ':' !in HeadOf(d)
  {
    CommandIsPlain(d.severity);
    if d.location.Some? {
      PropertiesArePlain(d.location.value);
      JoinedHas(Properties(d.location.value), ':');
      JoinedHas(Properties(d.location.value), '\n');
    }
  }

  lemma LineRoundTrip(head: string, message: string)
    requires ':' !in head
    ensures DecodeLine(LineOf(head, message)) == DecodeHead(head, message)
  {
    var escaped := EscapeMessage(message);
    var body := head + [':'] + (":" + escaped);
    assert LineOf(head, message)[2..] == body;
    FindBehind(head, ':', ":" + escaped);
    assert body[..|head|] == head && body[|head| + 2..] == escaped && body[|head|..][..2] == "::";
    EscapingIsDecodable(message);
  }

  lemma LineIsOneLine(head: string, message: string)
    requires '\n' !in head
    ensures '\n' !in LineOf(head, message)
  {
    EscapedIsSafe(message);
  }

  lemma DiagnosticRoundTrip(d: Diagnostic)
    ensures DecodeLine(DiagnosticLine(d)) == Some(Finding(d.severity, d.location, d.message))
    ensures '\n' !in DiagnosticLine(d)
  {
    HeadIsPlain(d);
    LineRoundTrip(HeadOf(d), d.message);
    HeadRoundTrip(d, d.message);
    LineIsOneLine(HeadOf(d), d.message);
  }

  lemma TitleRoundTrip(name: string, message: string)
    ensures DecodeHead("error title=" + EscapeProperty(name), message) == Some(FailedTest(name, message))
  {
    var command, tail := "error", "title=" + EscapeProperty(name);
    EscapedIsSafe(name);
    EscapingIsDecodable(name);
    FindBehind(command, ' ', tail);
    var head := command + [' '] + tail;
    assert head == "error title=" + EscapeProperty(name);
    assert head[|command| + 1..] == tail;
    SplitJoined([tail], ',');
    assert Join([tail], ',') == tail && tail[6..] == EscapeProperty(name);
  }

  lemma TitleIsPlain(name: string)
    ensures var head := "error title=" + EscapeProperty(name); ':' !in head && '\n' !in head
  {
    EscapedIsSafe(name);
    assert IsPlainPart("error title=");
  }

  lemma FailureRoundTrip(f: TestFailure)
    ensures DecodeLine(FailureLine(f)) == Some(FailedTest(f.name, f.message))
    ensures '\n' !in FailureLine(f)
  {
    var head := "error title=" + EscapeProperty(f.name);
    TitleIsPlain(f.name);
    LineRoundTrip(head, f.message);
    TitleRoundTrip(f.name, f.message);
    LineIsOneLine(head, f.message);
  }

  lemma DecodeFirst(first: string, rest: string)
    requires '\n' !in first
    ensures DecodeAll(first + "\n" + rest) == [DecodeLine(first)] + DecodeAll(rest)
  {
    FindBehind(first, '\n', rest);
    var s := first + ['\n'] + rest;
    assert s[..|first|] == first && s[|first| + 1..] == rest;
  }

  // Printed lines are decoded one by one.
  lemma {:induction false} DecodeLines(lines: seq<string>, decoded: seq<Option<Annotation>>)
    requires DecodeTo(lines, decoded)
    ensures DecodeAll(PrintLines(lines)) == decoded
  {
    if lines != [] {
      DecodeFirst(lines[0], PrintLines(lines[1..]));
      DecodeLines(lines[1..], decoded[1..]);
      assert decoded == [decoded[0]] + decoded[1..];
    }
  }

  // Every line is one line and decodes to the annotation at its place.
  predicate DecodeTo(lines: seq<string>, decoded: seq<Option<Annotation>>) {
    |lines| == |decoded| && forall i | 0 <= i < |lines| :: '\n' !in lines[i] && DecodeLine(lines[i]) == decoded[i]
  }

  lemma DiagnosticsDecode(ds: seq<Diagnostic>)
    ensures DecodeTo(DiagnosticLines(ds), Findings(ds))
  {
    forall i | 0 <= i < |ds| ensures '\n' !in DiagnosticLine(ds[i]) && DecodeLine(DiagnosticLine(ds[i])) == FindingOf(ds[i]) {
      DiagnosticRoundTrip(ds[i]);
    }
  }

  lemma FailuresDecode(fs: seq<TestFailure>)
    ensures DecodeTo(FailureLines(fs), FailedTests(fs))
  {
    forall i | 0 <= i < |fs| ensures '\n' !in FailureLine(fs[i]) && DecodeLine(FailureLine(fs[i])) == FailedTestOf(fs[i]) {
      FailureRoundTrip(fs[i]);
    }
  }

  lemma DecodeBoth(a: seq<string>, x: seq<Option<Annotation>>, b: seq<string>, y: seq<Option<Annotation>>)
    requires DecodeTo(a, x) && DecodeTo(b, y)
    ensures DecodeTo(a + b, x + y)
  {
  }

  /** For every reduction, decoding what was printed recovers, one line per finding and in order, the
      severity, location and message of every diagnostic, then the name and message of every failure. */
  lemma OutputIsDecodable(r: Reduction)
    ensures DecodeAll(PrintLines(OutputLines(r))) == Annotations(r)
  {
    DiagnosticsDecode(r.diagnostics);
    FailuresDecode(r.testFailures);
    DecodeBoth(DiagnosticLines(r.diagnostics), Findings(r.diagnostics), FailureLines(r.testFailures), FailedTests(r.testFailures));
    DecodeLines(OutputLines(r), Annotations(r));
  }
}
