/** The scan over a text that decides which whole-text reducers run, and what its gates lose: nothing for
    rustc, javac and Java test logs, and exactly the exceptions with runtime frames only for Node. */
module Gates {
  import opened Model
  import opened Text
  import opened Strings
  import opened LineCounts
  import StackTraces
  import JavaTraces
  import NodeTraces
  import JavaCompiler
  import RustCompiler

  // ---------------------------------------------------------------- classifying a line

  predicate IsUpper(c: char) {
    'A' <= c <= 'Z'
  }

  predicate IsMark(c: char) {
    c == ':' || c == '('
  }

  predicate IsNotable(c: char) {
    IsMark(c) || IsUpper(c) || c as int >= 0x80
  }

  // A mark, an upper-case letter or a character outside ASCII.
  predicate IsInteresting(line: string) {
    exists i :: 0 <= i < |TrimStart(line)| && IsNotable(TrimStart(line)[i])
  }

  predicate HasMark(line: string) {
    exists i :: 0 <= i < |line| && IsMark(line[i])
  }

  const STARTS := ["error ", "failed", "fatal ", "test "]

  predicate KeywordAt(rest: string) {
    rest != [] &&
    match rest[0]
    case 'u' => StartsWith(rest, "undefined reference") || StartsWith(rest, "unresolved external symbol")
    case 'p' => StartsWith(rest, "panicked at")
    case 'a' => StartsWith(rest, "assertion")
    case 'F' => StartsWith(rest, "FAILED") || StartsWith(rest, "Failure")
    case 'E' => StartsWith(rest, "Exception") || StartsWith(rest, "Error")
    case _ => false
  }

  predicate HasKeyword(line: string) {
    exists i :: 0 <= i < |line| && KeywordAt(line[i..])
  }

  // A line that single-line parsers and fallbacks look at.
  predicate IsCandidate(line: string) {
    HasMark(TrimStart(line)) || StartsWithAny(TrimStart(line), STARTS) || HasKeyword(TrimStart(line))
  }

  datatype Classification = Classification(interesting: bool, candidate: bool)

  // The same questions about the first n characters.
  predicate NotableBefore(line: string, n: nat)
    requires n <= |line|
  {
    exists k :: 0 <= k < n && IsNotable(line[k])
  }

  predicate KeywordBefore(line: string, n: nat)
    requires n <= |line|
  {
    exists k :: 0 <= k < n && KeywordAt(line[k..])
  }

  lemma OneMore(line: string, n: nat)
    requires n < |line|
    ensures NotableBefore(line, n + 1) <==> NotableBefore(line, n) || IsNotable(line[n])
    ensures KeywordBefore(line, n + 1) <==> KeywordBefore(line, n) || KeywordAt(line[n..])
  {
  }

  /** One pass over a line decides both questions, with an early exit at the first mark. */
  method ClassifyLine(raw: string) returns (c: Classification)
    ensures c == Classification(IsInteresting(raw), IsCandidate(raw))
  {
    var line := TrimStart(raw);
    var interesting := false;
    var candidate := StartsWithAny(line, STARTS);
    for i := 0 to |line|
      invariant forall k | 0 <= k < i :: !IsMark(line[k])
      invariant interesting <==> NotableBefore(line, i)
      invariant candidate <==> StartsWithAny(line, STARTS) || KeywordBefore(line, i)
    {
      OneMore(line, i);
      if IsMark(line[i]) {
        return Classification(true, true);
      }
      interesting := interesting || IsUpper(line[i]) || line[i] as int >= 0x80;
      if !candidate {
        candidate := KeywordAt(line[i..]);
      }
    }
    c := Classification(interesting, candidate);
  }

  // ---------------------------------------------------------------- hints

  datatype Hints = Hints(
    javaCompiler: bool,
    rustHeader: bool,
    rustLocation: bool,
    javascriptException: bool,
    javascriptLocation: bool,
    javaTest: bool)

  const NO_HINTS := Hints(false, false, false, false, false, false)

  const SCRIPT_MARKERS := [".js:", ".jsx:", ".mjs:", ".cjs:", ".ts:", ".tsx:", ".mts:", ".cts:"]

  predicate NamesException(line: string) {
    Contains(line, "Error") || Contains(line, "Exception")
  }

  function HintsOf(line: string): Hints {
    if !IsInteresting(line) then NO_HINTS
    else
      Hints(
        Contains(line, ".java:"),
        Contains(line, "error[E"),
        Contains(line, "--> "),
        NamesException(line),
        ContainsAny(line, SCRIPT_MARKERS),
        NamesException(line) || Contains(line, "Failure") || Contains(line, "Caused by: "))
  }

  function Either(a: Hints, b: Hints): Hints {
    Hints(a.javaCompiler || b.javaCompiler, a.rustHeader || b.rustHeader, a.rustLocation || b.rustLocation,
      a.javascriptException || b.javascriptException, a.javascriptLocation || b.javascriptLocation, a.javaTest || b.javaTest)
  }

  // The hints of all nonblank lines together.
  function AllHints(lines: seq<string>): Hints {
    if lines == [] then NO_HINTS else Either(AllHints(lines[..|lines| - 1]), HintsOf(lines[|lines| - 1]))
  }

  function Candidates(lines: seq<string>): seq<string> {
    if lines == [] then []
    else
      var before := Candidates(lines[..|lines| - 1]);
      if IsCandidate(lines[|lines| - 1]) then before + [lines[|lines| - 1]] else before
  }

  // The hints and the counted candidates of the lines read so far.
  ghost predicate ScannedLines(hints: Hints, tally: Tally, lines: seq<string>) {
    hints == AllHints(lines) && Tallies(tally, Candidates(lines))
  }

  // Takes in the next raw line unless it is blank.
  method ScanLine(hints: Hints, tally: Tally, lines: seq<string>, i: nat) returns (hints': Hints, tally': Tally)
    requires i < |lines| && ScannedLines(hints, tally, Trimmed(lines[..i]))
    ensures ScannedLines(hints', tally', Trimmed(lines[..i + 1]))
  {
    TrimmedNext(lines, i);
    hints', tally' := hints, tally;
    var line := Trim(lines[i]);
    if line != [] {
      ghost var before := Trimmed(lines[..i]);
      assert (before + [line])[..|before|] == before;
      var c := ClassifyLine(line);
      if c.interesting {
        hints' := Either(hints, HintsOf(line));
      }
      if c.candidate {
        TallyNext(tally, Candidates(before), line);
        tally' := AddLine(tally, line);
      }
    }
  }

  /** One pass over a text: the hints of its lines, and its candidate lines deduplicated with counts. */
  method Scan(input: string) returns (hints: Hints, candidates: seq<(string, u32)>)
    ensures hints == AllHints(Trimmed(Lines(input)))
    ensures candidates == Counted(Candidates(Trimmed(Lines(input))))
  {
    hints := NO_HINTS;
    var lines := Lines(input);
    var tally := Tally([], map[]);
    for i := 0 to |lines|
      invariant ScannedLines(hints, tally, Trimmed(lines[..i]))
    {
      hints, tally := ScanLine(hints, tally, lines, i);
    }
    assert lines[..|lines|] == lines;
    candidates := Collect(tally, Candidates(Trimmed(lines)));
  }

  // ---------------------------------------------------------------- what a hint says

  predicate Within(a: Hints, b: Hints) {
    Either(a, b) == b
  }

  lemma {:induction false} LineGivesHints(lines: seq<string>, i: nat)
    requires i < |lines| && Trim(lines[i]) != []
    ensures Within(HintsOf(Trim(lines[i])), AllHints(Trimmed(lines)))
  {
    var init := lines[..|lines| - 1];
    var before := Trimmed(init);
    if i < |init| {
      LineGivesHints(init, i);
      if Trim(lines[|lines| - 1]) != [] {
        assert Trimmed(lines)[..|before|] == before;
      }
    } else {
      assert Trimmed(lines)[..|before|] == before;
    }
  }

  // A notable character that is not whitespace makes the line interesting.
  lemma {:induction false} NotableKept(line: string, c: char)
    requires c in line && IsNotable(c) && !IsWhitespace(c)
    ensures IsInteresting(line)
  {
    if IsWhitespace(line[0]) {
      assert c in line[1..] by {
        var i :| 0 <= i < |line| && line[i] == c;
        assert line[1..][i - 1] == c;
      }
      NotableKept(line[1..], c);
      assert TrimStart(line) == TrimStart(line[1..]);
    } else {
      var i :| 0 <= i < |line| && line[i] == c;
      assert TrimStart(line) == line;
      assert IsNotable(TrimStart(line)[i]);
    }
  }

  lemma PartIsInteresting(part: string, line: string, c: char)
    requires IsPart(part, line) && c in part && IsNotable(c) && !IsWhitespace(c)
    ensures IsInteresting(line) && Contains(line, part)
  {
    PartHas(part, line, c);
    NotableKept(line, c);
    ContainsIsPart(line, part);
  }

  // ---------------------------------------------------------------- Java test logs

  lemma ExceptionNamed(raw: string)
    requires JavaTraces.ParseException(raw).Some?
    ensures IsPart("Error", Trim(raw)) || IsPart("Exception", Trim(raw)) || IsPart("Failure", Trim(raw))
  {
    var t := Trim(raw);
    var line := JavaTraces.WithoutMarker(t).value;
    MarkerIsPart(t);
    var type_ := Before(line.message, ":");
    var class_ := AfterLast(type_, ".");
    BeforeIsPart(line.message, ":");
    AfterLastIsPart(type_, ".");
    PartOfPart(type_, line.message, t);
    PartOfPart(class_, type_, t);
    assert EndsWith(class_, "Error") || EndsWith(class_, "Exception") || EndsWith(class_, "Failure");
    EndingIsPart(class_, t, "Error");
    EndingIsPart(class_, t, "Exception");
    EndingIsPart(class_, t, "Failure");
  }

  lemma EndingIsPart(class_: string, t: string, suffix: string)
    requires IsPart(class_, t)
    ensures EndsWith(class_, suffix) ==> IsPart(suffix, t)
  {
    if EndsWith(class_, suffix) {
      EndIsPart(class_, suffix);
      PartOfPart(suffix, class_, t);
    }
  }

  lemma MarkerIsPart(t: string)
    requires JavaTraces.WithoutMarker(t).Some?
    ensures IsPart(JavaTraces.WithoutMarker(t).value.message, t)
  {
    var thread, cause := "Exception in thread \"", "Caused by: ";
    if StartsWith(t, thread) {
      var rest := t[|thread|..];
      SuffixIsPart(t, |thread|);
      var k := IndexOf(rest, "\" ").value;
      SuffixIsPart(rest, k + 2);
      PartOfPart(rest[k + 2..], rest, t);
    } else if StartsWith(t, cause) {
      SuffixIsPart(t, |cause|);
    } else {
      PrefixIsPart(t, t);
    }
  }

  lemma NamedIsHinted(t: string)
    requires IsPart("Error", t) || IsPart("Exception", t) || IsPart("Failure", t)
    ensures HintsOf(t).javaTest
  {
    if IsPart("Error", t) {
      PartIsInteresting("Error", t, "Error"[0]);
    } else if IsPart("Exception", t) {
      PartIsInteresting("Exception", t, "Exception"[0]);
    } else {
      PartIsInteresting("Failure", t, "Failure"[0]);
    }
  }

  lemma ExceptionHinted(lines: seq<string>, i: nat)
    requires i < |lines| && JavaTraces.ParseException(lines[i]).Some?
    ensures AllHints(Trimmed(lines)).javaTest
  {
    var raw := lines[i];
    ExceptionNamed(raw);
    NamedIsHinted(Trim(raw));
    LineGivesHints(lines, i);
  }

  lemma {:induction false} NoExceptions(kinds: seq<StackTraces.Kind>)
    requires forall i | 0 <= i < |kinds| :: !kinds[i].Exception?
    ensures StackTraces.ExceptionsIn(kinds) == 0
  {
    if kinds != [] {
      NoExceptions(kinds[1..]);
    }
  }

  /** The gate of the Java test reducer loses nothing: where it is closed, the reducer finds nothing. */
  lemma JavaTestGateLosesNothing(input: string)
    requires !AllHints(Trimmed(Lines(input))).javaTest
    ensures StackTraces.Blocks(None, JavaTraces.KindsOf(Lines(input))) == []
  {
    var lines := Lines(input);
    var kinds := JavaTraces.KindsOf(lines);
    forall i | 0 <= i < |kinds| ensures !kinds[i].Exception? {
      if JavaTraces.ParseException(lines[i]).Some? {
        ExceptionHinted(lines, i);
      }
    }
    NoExceptions(kinds);
    StackTraces.AtMostOneEach(None, kinds);
  }

  // ---------------------------------------------------------------- javac

  lemma MarkerFound(line: string)
    requires JavaCompiler.ParseDiagnostic(line).Some?
    ensures IsPart(".java:", line)
  {
    assert PartAt(line, ".java:", LastIndexOf(line, ".java:").value);
  }

  // A part without whitespace that ends in a colon is found in the trimmed line, and makes it interesting.
  lemma MarkerHinted(line: string, part: string)
    requires part != [] && NoWhitespace(part) && part[|part| - 1] == ':' && IsPart(part, line)
    ensures Trim(line) != [] && IsInteresting(Trim(line)) && Contains(Trim(line), part)
  {
    TrimKeepsPart(line, part);
    PartIsInteresting(part, Trim(line), ':');
  }

  lemma DiagnosticHinted(lines: seq<string>, i: nat, part: string)
    requires part == ".java:" && i < |lines| && IsPart(part, lines[i])
    ensures AllHints(Trimmed(lines)).javaCompiler
  {
    MarkerHinted(lines[i], part);
    LineGivesHints(lines, i);
  }

  lemma {:induction false} NoneParsed(lines: seq<string>)
    requires forall i | 0 <= i < |lines| :: JavaCompiler.ParseDiagnostic(lines[i]).None?
    ensures JavaCompiler.Diagnostics(lines) == []
  {
    if lines != [] {
      NoneParsed(lines[1..]);
    }
  }

  /** The gate of the javac reducer loses nothing. */
  lemma JavaCompilerGateLosesNothing(input: string)
    requires !AllHints(Trimmed(Lines(input))).javaCompiler
    ensures JavaCompiler.Diagnostics(Lines(input)) == []
  {
    var lines := Lines(input);
    forall i | 0 <= i < |lines| ensures JavaCompiler.ParseDiagnostic(lines[i]).None? {
      if JavaCompiler.ParseDiagnostic(lines[i]).Some? {
        MarkerFound(lines[i]);
        DiagnosticHinted(lines, i, ".java:");
      }
    }
    NoneParsed(lines);
  }

  // ---------------------------------------------------------------- rustc

  lemma HeaderStarts(raw: string)
    requires RustCompiler.IsHeader(raw)
    ensures IsPart("error[E", Trim(raw))
  {
    var t := Trim(raw);
    var line := match StripPrefix(t, "ERROR: ") case None => t case Some(rest) => rest;
    if StripPrefix(t, "ERROR: ").Some? {
      SuffixIsPart(t, |"ERROR: "|);
    } else {
      PrefixIsPart(t, t);
    }
    var rest := line[|"error["|..];
    var code := SplitOnce(rest, "]: ").value.0;
    assert code[0] == 'E' && rest[0] == code[0];
    assert line[..7] == "error[" + [rest[0]];
    PrefixIsPart("error[E", line);
    PartOfPart("error[E", line, t);
  }

  lemma HeaderHinted(lines: seq<string>, i: nat)
    requires i < |lines| && RustCompiler.IsHeader(lines[i])
    ensures AllHints(Trimmed(lines)).rustHeader
  {
    HeaderStarts(lines[i]);
    PartIsInteresting("error[E", Trim(lines[i]), "error[E"[6]);
    LineGivesHints(lines, i);
  }

  lemma ArrowHinted(lines: seq<string>, i: nat)
    requires i < |lines| && RustCompiler.ParseLocation(lines[i]).Some?
    ensures AllHints(Trimmed(lines)).rustLocation
  {
    var t, arrow := Trim(lines[i]), "--> ";
    var rest := StripPrefix(t, arrow).value;
    var k := LastIndexOf(rest, ":").value;
    assert rest[k..k + 1] == ":" && rest[k] == t[|arrow| + k];
    assert ':' in t;
    NotableKept(t, ':');
    PrefixIsPart(arrow, t);
    ContainsIsPart(t, arrow);
    LineGivesHints(lines, i);
  }

  lemma {:induction false} NoHeaders(lines: seq<string>)
    requires forall i | 0 <= i < |lines| :: !RustCompiler.IsHeader(lines[i])
    ensures RustCompiler.Segments(lines) == []
  {
    if lines != [] {
      NoHeaders(lines[1..]);
    }
  }

  predicate NoLocations(lines: seq<string>) {
    forall i | 0 <= i < |lines| :: RustCompiler.ParseLocation(lines[i]).None?
  }

  lemma {:induction false} SegmentHasNone(lines: seq<string>)
    requires NoLocations(lines)
    ensures RustCompiler.FirstLocation(RustCompiler.SegmentOf(lines)).None?
  {
    if lines != [] && !RustCompiler.IsHeader(lines[0]) {
      SegmentHasNone(lines[1..]);
      var rest := RustCompiler.SegmentOf(lines[1..]);
      assert ([lines[0]] + rest)[1..] == rest;
    }
  }

  lemma {:induction false} NothingLocated(lines: seq<string>)
    requires NoLocations(lines)
    ensures RustCompiler.Segments(lines) == []
  {
    if lines != [] {
      NothingLocated(lines[1..]);
      SegmentHasNone(lines[1..]);
    }
  }

  /** The gate of the rustc reducer, which needs both a header and a location, loses nothing. */
  lemma RustGateLosesNothing(input: string)
    requires var hints := AllHints(Trimmed(Lines(input))); !(hints.rustHeader && hints.rustLocation)
    ensures RustCompiler.Segments(Lines(input)) == []
  {
    var lines := Lines(input);
    if !AllHints(Trimmed(lines)).rustHeader {
      forall i | 0 <= i < |lines| ensures !RustCompiler.IsHeader(lines[i]) {
        if RustCompiler.IsHeader(lines[i]) {
          HeaderHinted(lines, i);
        }
      }
      NoHeaders(lines);
    } else {
      forall i | 0 <= i < |lines| ensures RustCompiler.ParseLocation(lines[i]).None? {
        if RustCompiler.ParseLocation(lines[i]).Some? {
          ArrowHinted(lines, i);
        }
      }
      NothingLocated(lines);
    }
  }

  // ---------------------------------------------------------------- Node

  lemma NodeExceptionHinted(raw: string)
    requires NodeTraces.ExceptionMessage(raw).Some?
    ensures Trim(raw) != [] && HintsOf(Trim(raw)).javascriptException
  {
    var t := Trim(raw);
    var type_ := Before(t, ":");
    var class_ := Word(TrimStart(type_));
    BeforeIsPart(t, ":");
    TrimIsPart(type_);
    WordIsPart(TrimStart(type_));
    PartOfPart(TrimStart(type_), type_, t);
    PartOfPart(class_, TrimStart(type_), t);
    assert EndsWith(class_, "Error") || EndsWith(class_, "Exception");
    EndingIsPart(class_, t, "Error");
    EndingIsPart(class_, t, "Exception");
    if IsPart("Error", t) {
      PartIsInteresting("Error", t, "Error"[0]);
    } else {
      PartIsInteresting("Exception", t, "Exception"[0]);
    }
  }

  // Some marker occurs in the text.
  ghost predicate HasMarker(s: string) {
    exists k :: 0 <= k < |SCRIPT_MARKERS| && IsPart(SCRIPT_MARKERS[k], s)
  }

  lemma MarkerOfPart(a: string, b: string)
    requires HasMarker(a) && IsPart(a, b)
    ensures HasMarker(b)
  {
    var k :| 0 <= k < |SCRIPT_MARKERS| && IsPart(SCRIPT_MARKERS[k], a);
    PartOfPart(SCRIPT_MARKERS[k], a, b);
  }

  lemma MarkersEndInColon(k: nat)
    requires k < |SCRIPT_MARKERS|
    ensures SCRIPT_MARKERS[k] != [] && SCRIPT_MARKERS[k][|SCRIPT_MARKERS[k]| - 1] == ':'
  {
  }

  lemma MarkedIsHinted(t: string)
    requires HasMarker(t)
    ensures t != [] && IsInteresting(t) && ContainsAny(t, SCRIPT_MARKERS) && ':' in t
  {
    var k :| 0 <= k < |SCRIPT_MARKERS| && IsPart(SCRIPT_MARKERS[k], t);
    MarkersEndInColon(k);
    PartHas(SCRIPT_MARKERS[k], t, ':');
    PartIsInteresting(SCRIPT_MARKERS[k], t, ':');
  }

  lemma ExtensionIsMarker(k: nat)
    requires k < |NodeTraces.EXTENSIONS|
    ensures NodeTraces.EXTENSIONS[k] + ":" in SCRIPT_MARKERS
  {
    assert NodeTraces.EXTENSIONS[k] + ":" ==
      SCRIPT_MARKERS[if k == 0 then 5 else if k == 1 then 6 else if k == 2 then 7 else if k == 3 then 4
                     else if k == 4 then 1 else if k == 5 then 2 else if k == 6 then 3 else 0];
  }

  lemma {:induction false} PathEndIsMarked(value: string, n: nat)
    requires n <= |NodeTraces.EXTENSIONS| && NodeTraces.PathEnd(value, n) > 0
    ensures HasMarker(value)
  {
    var marker := NodeTraces.EXTENSIONS[n - 1] + ":";
    match LastIndexOf(value, marker) {
      case None => PathEndIsMarked(value, n - 1);
      case Some(k) =>
        assert PartAt(value, marker, k);
        ExtensionIsMarker(n - 1);
    }
  }

  lemma LocationIsMarked(raw: string)
    requires NodeTraces.ParseLocation(raw).Some?
    ensures HasMarker(raw)
  {
    var t := Trim(raw);
    var open := TrimStartOf(t, '"');
    var value := TrimEndOf(open, '"');
    PathEndIsMarked(value, |NodeTraces.EXTENSIONS|);
    TrimOfIsPart(t, '"');
    TrimOfIsPart(open, '"');
    TrimIsPart(raw);
    TrimIsPart(TrimStart(raw));
    MarkerOfPart(value, open);
    MarkerOfPart(open, t);
    MarkerOfPart(t, TrimStart(raw));
    MarkerOfPart(TrimStart(raw), raw);
  }

  lemma FrameSourceIsPart(frame: string)
    requires NodeTraces.FrameSource(frame).Some?
    ensures IsPart(NodeTraces.FrameSource(frame).value, frame)
  {
    var source := NodeTraces.FrameSource(frame).value;
    match LastIndexOf(frame, "(") {
      case None =>
        TrimIsPart(frame);
        WordAtEndIsPart(TrimEnd(frame));
        PartOfPart(source, TrimEnd(frame), frame);
      case Some(k) =>
        var rest := frame[k + 1..];
        SuffixIsPart(frame, k + 1);
        SliceIsPart(rest, 0, |rest| - 1);
        assert source == rest[0..|rest| - 1];
        PartOfPart(source, rest, frame);
    }
  }

  lemma FrameIsMarked(raw: string)
    requires NodeTraces.ParseFrame(raw).Some? && NodeTraces.ParseFrame(raw).value.Some?
    ensures HasMarker(Trim(raw))
  {
    var t := Trim(raw);
    var frame := StripPrefix(t, "at ").value;
    var source := NodeTraces.FrameSource(frame).value;
    LocationIsMarked(source);
    FrameSourceIsPart(frame);
    SuffixIsPart(t, 3);
    MarkerOfPart(source, frame);
    MarkerOfPart(frame, t);
  }

  // A line with a source header or an application frame has a marker.
  lemma PlaceIsMarked(raw: string)
    requires var kind := NodeTraces.KindOf(raw); kind.Header? || (kind.Frame? && kind.application.Some?)
    ensures HasMarker(Trim(raw))
  {
    if NodeTraces.HeaderOf(raw).Some? {
      LocationIsMarked(Trim(raw));
    } else {
      FrameIsMarked(raw);
    }
  }

  // An exception that some frame confirms.
  predicate HasConfirmed(kinds: seq<StackTraces.Kind>) {
    exists i :: 0 <= i < |kinds| && kinds[i].Exception? && StackTraces.FramesOf(kinds[i + 1..]) != []
  }

  predicate NoPlaces(kinds: seq<StackTraces.Kind>) {
    forall i | 0 <= i < |kinds| ::
      !kinds[i].Header? && (kinds[i].Frame? ==> kinds[i].application.None?) && (kinds[i].Exception? ==> !kinds[i].explicit)
  }

  lemma {:induction false} NoApplicationFrames(kinds: seq<StackTraces.Kind>)
    requires NoPlaces(kinds)
    ensures forall i | 0 <= i < |StackTraces.FramesOf(kinds)| :: StackTraces.FramesOf(kinds)[i].None?
  {
    if kinds != [] {
      NoApplicationFrames(kinds[1..]);
    }
  }

  predicate NoneLocated(diagnostics: seq<Diagnostic>) {
    forall i | 0 <= i < |diagnostics| :: diagnostics[i].location.None?
  }

  lemma ConfirmedStep(kinds: seq<StackTraces.Kind>)
    requires kinds != []
    ensures HasConfirmed(kinds) <==> (kinds[0].Exception? && StackTraces.FramesOf(kinds[1..]) != []) || HasConfirmed(kinds[1..])
  {
    var rest := kinds[1..];
    if HasConfirmed(rest) {
      var i :| 0 <= i < |rest| && rest[i].Exception? && StackTraces.FramesOf(rest[i + 1..]) != [];
      assert kinds[i + 1] == rest[i] && kinds[i + 2..] == rest[i + 1..];
    }
    if HasConfirmed(kinds) {
      var i :| 0 <= i < |kinds| && kinds[i].Exception? && StackTraces.FramesOf(kinds[i + 1..]) != [];
      if i > 0 {
        assert rest[i - 1] == kinds[i] && rest[i..] == kinds[i + 1..];
      }
    }
  }

  lemma {:induction false} BlocksWithoutPlaces(kinds: seq<StackTraces.Kind>)
    requires NoPlaces(kinds)
    ensures NoneLocated(StackTraces.Blocks(None, kinds))
    ensures StackTraces.Blocks(None, kinds) == [] <==> !HasConfirmed(kinds)
  {
    if kinds != [] {
      BlocksWithoutPlaces(kinds[1..]);
      ConfirmedStep(kinds);
      match kinds[0] {
        case Exception(message, explicit) =>
          NoApplicationFrames(kinds[1..]);
          StackTraces.VerdictLocation(message, explicit, None, StackTraces.FramesOf(kinds[1..]));
        case _ =>
      }
    }
  }

  /** The gate of the Node reducer loses something: where it is closed, the reducer by itself reports
      nothing exactly if no exception is directly followed by a frame, and what it reports otherwise has
      no location. */
  lemma NodeGateExactly(lines: seq<string>)
    requires var hints := AllHints(Trimmed(lines)); !(hints.javascriptException && hints.javascriptLocation)
    ensures var kinds := NodeTraces.KindsOf(lines);
      && (StackTraces.Blocks(None, kinds) == [] <==> !HasConfirmed(kinds))
      && NoneLocated(StackTraces.Blocks(None, kinds))
  {
    var kinds := NodeTraces.KindsOf(lines);
    if !AllHints(Trimmed(lines)).javascriptException {
      forall i | 0 <= i < |kinds| ensures !kinds[i].Exception? {
        if kinds[i].Exception? {
          NodeExceptionHinted(lines[i]);
          LineGivesHints(lines, i);
        }
      }
      NoExceptions(kinds);
      StackTraces.AtMostOneEach(None, kinds);
    } else {
      forall i | 0 <= i < |kinds| ensures !kinds[i].Header? && (kinds[i].Frame? ==> kinds[i].application.None?) {
        if kinds[i].Header? || (kinds[i].Frame? && kinds[i].application.Some?) {
          PlaceIsMarked(lines[i]);
          MarkedIsHinted(Trim(lines[i]));
          LineGivesHints(lines, i);
        }
      }
      BlocksWithoutPlaces(kinds);
    }
  }

  lemma NoColonNoPlace(s: string)
    requires ':' !in s
    ensures NodeTraces.ParseLocation(s).None? && !HintsOf(s).javascriptLocation
  {
    if NodeTraces.ParseLocation(s).Some? {
      LocationIsMarked(s);
      MarkedIsHinted(s);
    }
    if ContainsAny(s, SCRIPT_MARKERS) {
      var k :| 0 <= k < |SCRIPT_MARKERS| && Contains(s, SCRIPT_MARKERS[k]);
      ContainsIsPart(s, SCRIPT_MARKERS[k]);
      MarkedIsHinted(s);
    }
  }

  lemma {:induction false} WordOfWord(s: string)
    requires NoWhitespace(s)
    ensures Word(s) == s && WordAtEnd(s) == s && TrimStart(s) == s && TrimEnd(s) == s
  {
    if s != [] {
      WordOfWord(s[1..]);
      WordOfWord(s[..|s| - 1]);
    }
  }

  lemma FoundThere(s: string, separator: string)
    requires |separator| == 1 && separator[0] !in s
    ensures SplitOnce(s, separator).None? && RSplitOnce(s, separator).None?
  {
    assert forall k: nat :: !PartAt(s, separator, k) by {
      forall k: nat ensures !PartAt(s, separator, k) {
        if k + 1 <= |s| {
          assert s[k..k + 1][0] == s[k];
        }
      }
    }
  }

  lemma {:induction false} FirstWord(word: string, rest: string)
    requires NoWhitespace(word) && rest != [] && IsWhitespace(rest[0])
    ensures Word(word + rest) == word
  {
    if word == [] {
      assert word + rest == rest;
    } else {
      FirstWord(word[1..], rest);
      assert (word + rest)[1..] == word[1..] + rest;
    }
  }

  // A class name that ends in Error, by itself.
  lemma BareErrorIsException(s: string)
    requires s != [] && IsIdentifier(s) && NoWhitespace(s) && ':' !in s && EndsWith(s, "Error")
    ensures NodeTraces.KindOf(s) == StackTraces.Exception(s, false)
  {
    WordOfWord(s);
    FoundThere(s, ":");
    NoColonNoPlace(s);
    assert Before(s, ":") == s;
  }

  lemma NativeSource(frame: string)
    requires frame == "native"
    ensures NodeTraces.FrameSource(frame) == Some(frame)
  {
    WordOfWord(frame);
    FoundThere(frame, "(");
  }

  // A native stack frame.
  lemma NativeFrameIsFrame(s: string)
    requires s == "at native"
    ensures NodeTraces.KindOf(s) == StackTraces.Frame(None) && Trim(s) == s && ':' !in s
  {
    TrimmedAlready(s);
    FoundThere(s, ":");
    var word, rest := s[..2], s[2..];
    assert word + rest == s;
    FirstWord(word, rest);
    NoException(s, word);
    assert StripPrefix(s, "at ") == Some(s[3..]);
    NativeSource(s[3..]);
    assert NodeTraces.HeaderOf(s).None? && NodeTraces.ParseFrame(s) == Some(None);
  }

  lemma NoException(s: string, word: string)
    requires Trim(s) == s && TrimStart(s) == s && SplitOnce(s, ":").None? && Word(s) == word && |word| < 5
    ensures NodeTraces.ExceptionMessage(s).None?
  {
    assert Before(s, ":") == s;
  }

  lemma TwoLinesLost(first: string, second: string)
    requires NodeTraces.KindOf(first) == StackTraces.Exception(first, false) && Trim(first) == first != []
    requires NodeTraces.KindOf(second) == StackTraces.Frame(None) && Trim(second) == second != []
    requires ':' !in first && ':' !in second
    ensures var lines := [first, second];
      !AllHints(Trimmed(lines)).javascriptLocation && StackTraces.Blocks(None, NodeTraces.KindsOf(lines)) != []
  {
    var lines := [first, second];
    NoColonNoPlace(first);
    NoColonNoPlace(second);
    assert lines[..1] == [first] && [first][..0] == [];
    assert Trimmed([first]) == [first];
    assert Trimmed(lines) == lines;
    assert AllHints([first]) == Either(NO_HINTS, HintsOf(first));
    var kinds := NodeTraces.KindsOf(lines);
    assert kinds[0].Exception? && kinds[1..][0] == kinds[1];
    assert StackTraces.FramesOf(kinds[0 + 1..]) != [];
    NodeGateExactly(lines);
  }

  /** A bare error above a native frame: the gate is closed, and the reducer would have reported it. */
  lemma NativeOnlyErrorIsLost(first: string, second: string)
    requires first == "Error" && second == "at native"
    ensures var lines := [first, second];
      !AllHints(Trimmed(lines)).javascriptLocation && StackTraces.Blocks(None, NodeTraces.KindsOf(lines)) != []
  {
    TrimmedAlready(first);
    BareErrorIsException(first);
    NativeFrameIsFrame(second);
    TwoLinesLost(first, second);
  }
}
