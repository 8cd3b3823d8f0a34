/** The rustc reducer: error headers with the first location and the first detail that follow each. */
module RustCompiler {
  import opened Model
  import opened Utf8
  import opened Text
  import opened Strings
  import opened Sequences

  const MAX_MESSAGE_BYTES := 1024

  // E followed by digits.
  predicate IsErrorCode(code: string) {
    |code| >= 2 && code[0] == 'E' && IsDigits(code[1..])
  }

  function ParseHeader(raw: string): Option<string> {
    var trimmed := Trim(raw);
    var line := match StripPrefix(trimmed, "ERROR: ") case None => trimmed case Some(rest) => rest;
    match StripPrefix(line, "error[")
    case None => None
    case Some(remainder) =>
      match SplitOnce(remainder, "]: ")
      case None => None
      case Some(parts) =>
        if !IsErrorCode(parts.0) || Trim(parts.1) == [] then None else Some(parts.0 + ": " + Trim(parts.1))
  }

  function ParseLocation(raw: string): Option<Location> {
    match StripPrefix(Trim(raw), "--> ")
    case None => None
    case Some(coordinates) =>
      match RSplitOnce(coordinates, ":")
      case None => None
      case Some(columnParts) =>
        match RSplitOnce(columnParts.0, ":")
        case None => None
        case Some(lineParts) =>
          if ParseU32(lineParts.1).None? || ParseU32(columnParts.1).None? || lineParts.0 == [] then None
          else Some(Location(NormalizePath(lineParts.0), ParseU32(lineParts.1), ParseU32(columnParts.1), None, None))
  }

  function ParseDetail(raw: string): Option<string> {
    var trimmed := Trim(raw);
    var line := Trim(match StripPrefix(trimmed, "|") case None => trimmed case Some(rest) => rest);
    match IndexOf(line, "expected `")
    case None => None
    case Some(k) => if Contains(line[k..], "found `") then Some(line[k..]) else None
  }

  // Unlike test-failure texts, the ellipsis comes on top of the limit.
  function BoundedMessage(text: string): string {
    if ByteLen(text) <= MAX_MESSAGE_BYTES then text else Fit(text, MAX_MESSAGE_BYTES) + "\U{2026}"
  }

  method BoundedText(text: string) returns (r: string)
    ensures r == BoundedMessage(text)
  {
    if ByteLen(text) <= MAX_MESSAGE_BYTES {
      return text;
    }
    var boundary := FloorBoundary(text, MAX_MESSAGE_BYTES);
    r := SliceTo(text, boundary) + "\U{2026}";
  }

  datatype Pending = Pending(message: string, detail: Option<string>, location: Option<Location>)

  function DiagnosticOf(p: Pending): seq<Diagnostic> {
    match p.location
    case None => []
    case Some(_) =>
      var message := match p.detail case None => p.message case Some(detail) => p.message + "; " + detail;
      [Diagnostic(Error, Compiler, None, BoundedMessage(message), p.location, None, Located, 1)]
  }

  // ---------------------------------------------------------------- segments

  predicate IsHeader(line: string) {
    ParseHeader(line).Some?
  }

  // The lines up to the next header.
  function SegmentOf(lines: seq<string>): seq<string> {
    if lines == [] || IsHeader(lines[0]) then [] else [lines[0]] + SegmentOf(lines[1..])
  }

  function FirstLocation(lines: seq<string>): Option<Location> {
    if lines == [] then None
    else if ParseLocation(lines[0]).Some? then ParseLocation(lines[0])
    else FirstLocation(lines[1..])
  }

  function FirstDetail(lines: seq<string>): Option<string> {
    if lines == [] then None
    else if ParseDetail(lines[0]).Some? then ParseDetail(lines[0])
    else FirstDetail(lines[1..])
  }

  /** One diagnostic for each header whose segment names a location, with the first location and the first
      detail of the segment. */
  function Segments(lines: seq<string>): seq<Diagnostic> {
    if lines == [] then []
    else if IsHeader(lines[0]) then
      var segment := SegmentOf(lines[1..]);
      DiagnosticOf(Pending(ParseHeader(lines[0]).value, FirstDetail(segment), FirstLocation(segment))) + Segments(lines[1..])
    else Segments(lines[1..])
  }

  // A pending diagnostic with what its segment still adds.
  function Completed(p: Pending, segment: seq<string>): Pending {
    p.(location := if p.location.Some? then p.location else FirstLocation(segment),
       detail := if p.detail.Some? then p.detail else FirstDetail(segment))
  }

  function StillToCome(pending: Option<Pending>, lines: seq<string>): seq<Diagnostic> {
    (if pending.Some? then DiagnosticOf(Completed(pending.value, SegmentOf(lines))) else []) + Segments(lines)
  }

  function Taken(p: Pending, line: string): Pending {
    p.(location := if p.location.Some? then p.location else ParseLocation(line),
       detail := if p.detail.Some? then p.detail else ParseDetail(line))
  }

  // One line of the loop: the next pending diagnostic, and what a new header finishes.
  function Observed(pending: Option<Pending>, line: string): (Option<Pending>, seq<Diagnostic>) {
    if IsHeader(line) then
      (Some(Pending(ParseHeader(line).value, None, None)), if pending.Some? then DiagnosticOf(pending.value) else [])
    else if pending.None? then (None, [])
    else (Some(Taken(pending.value, line)), [])
  }

  lemma NextLine(pending: Option<Pending>, line: string, rest: seq<string>)
    ensures StillToCome(pending, [line] + rest) == Observed(pending, line).1 + StillToCome(Observed(pending, line).0, rest)
  {
    assert ([line] + rest)[1..] == rest;
    if pending.Some? && !IsHeader(line) {
      assert ([line] + SegmentOf(rest))[1..] == SegmentOf(rest);
    }
  }

  // What was emitted over the first i lines, and what is still to come.
  ghost predicate Progress(diagnostics: seq<Diagnostic>, pending: Option<Pending>, lines: seq<string>, i: nat) {
    i <= |lines| && diagnostics + StillToCome(pending, lines[i..]) == Segments(lines)
  }

  lemma ProgressStart(lines: seq<string>)
    ensures Progress([], None, lines, 0)
  {
    assert lines[0..] == lines;
  }

  lemma ProgressStep(diagnostics: seq<Diagnostic>, pending: Option<Pending>, lines: seq<string>, i: nat)
    requires i < |lines| && Progress(diagnostics, pending, lines, i)
    ensures var (next, finished) := Observed(pending, lines[i]); Progress(diagnostics + finished, next, lines, i + 1)
  {
    assert lines[i..] == [lines[i]] + lines[i + 1..];
    NextLine(pending, lines[i], lines[i + 1..]);
    var (next, finished) := Observed(pending, lines[i]);
    AppendAssociates(diagnostics, finished, StillToCome(next, lines[i + 1..]));
  }

  lemma ProgressEnd(diagnostics: seq<Diagnostic>, pending: Option<Pending>, lines: seq<string>)
    requires Progress(diagnostics, pending, lines, |lines|)
    ensures diagnostics + (if pending.Some? then DiagnosticOf(pending.value) else []) == Segments(lines)
  {
  }

  method ObserveLine(pending: Option<Pending>, line: string) returns (next: Option<Pending>, finished: seq<Diagnostic>)
    ensures (next, finished) == Observed(pending, line)
  {
    next, finished := pending, [];
    var header := ParseHeader(line);
    if header.Some? {
      if pending.Some? {
        finished := Finish(pending.value);
      }
      next := Some(Pending(header.value, None, None));
    } else if pending.Some? {
      var current := pending.value;
      if current.location.None? {
        current := current.(location := ParseLocation(line));
      }
      if current.detail.None? {
        current := current.(detail := ParseDetail(line));
      }
      next := Some(current);
    }
  }

  /** The line loop implements the segments. */
  method Reduce(input: string) returns (diagnostics: seq<Diagnostic>)
    ensures diagnostics == Segments(Lines(input))
  {
    diagnostics := [];
    var pending: Option<Pending> := None;
    var lines := Lines(input);
    ProgressStart(lines);
    for i := 0 to |lines|
      invariant Progress(diagnostics, pending, lines, i)
    {
      ProgressStep(diagnostics, pending, lines, i);
      var finished: seq<Diagnostic>;
      pending, finished := ObserveLine(pending, lines[i]);
      diagnostics := diagnostics + finished;
    }
    ProgressEnd(diagnostics, pending, lines);
    if pending.Some? {
      var finished := Finish(pending.value);
      diagnostics := diagnostics + finished;
    }
  }

  method Finish(p: Pending) returns (diagnostics: seq<Diagnostic>)
    ensures diagnostics == DiagnosticOf(p)
  {
    if p.location.None? {
      return [];
    }
    var text := p.message;
    if p.detail.Some? {
      text := text + "; " + p.detail.value;
    }
    var message := BoundedText(text);
    diagnostics := [Diagnostic(Error, Compiler, None, message, p.location, None, Located, 1)];
  }

  // ---------------------------------------------------------------- what a diagnostic says

  // A text of at most 1024 bytes, or the longest beginning of whole characters of so many, with an ellipsis.
  ghost predicate IsShortened(text: string, shown: string) {
    if ByteLen(text) <= 1024 then shown == text
    else exists k: nat :: k < |text| && shown == text[..k] + "\U{2026}" && ByteLen(text[..k]) <= 1024 < ByteLen(text[..k + 1])
  }

  lemma ShortenedIs(text: string)
    ensures IsShortened(text, BoundedMessage(text))
  {
    if ByteLen(text) > 1024 {
      var fit := Fit(text, 1024);
      var k := |fit|;
      assert k == |text| ==> fit == text;
      assert text[..k] == fit && text[..k + 1] == fit + [text[k]];
      ByteLenConcat(fit, [text[k]]);
      assert ByteLen([text[k]]) == |EncodeChar(text[k])|;
    }
  }

  /** What a header and the lines up to the next one are reported as: nothing without a location; else an error
      of a compiler at the first location, whose message is the header's, with the first detail behind it. */
  lemma SegmentDiagnostic(header: string, segment: seq<string>)
    ensures var ds := DiagnosticOf(Pending(header, FirstDetail(segment), FirstLocation(segment)));
      if NoLocation(segment) then ds == []
      else
        && |ds| == 1 && ds[0] == Diagnostic(Error, Compiler, None, ds[0].message, ds[0].location, None, Located, 1)
        && (exists i :: IsFirstLocation(segment, i) && ds[0].location == ParseLocation(segment[i]))
        && SaysDetail(header, segment, ds[0].message)
  {
    FirstLocationIs(segment);
    FirstDetailIs(segment);
    var detail := FirstDetail(segment);
    var text := match detail case None => header case Some(d) => header + "; " + d;
    ShortenedIs(text);
    if detail.Some? {
      var i :| IsFirstDetail(segment, i) && detail == ParseDetail(segment[i]);
      assert IsShortened(header + "; " + ParseDetail(segment[i]).value, BoundedMessage(text));
    }
  }

  // The header's message, with the first detail behind it if there is one.
  ghost predicate SaysDetail(header: string, segment: seq<string>, message: string) {
    if NoDetail(segment) then IsShortened(header, message)
    else exists i :: IsFirstDetail(segment, i) && IsShortened(header + "; " + ParseDetail(segment[i]).value, message)
  }

  predicate IsFirstLocation(lines: seq<string>, i: int) {
    0 <= i < |lines| && ParseLocation(lines[i]).Some? && forall k | 0 <= k < i :: ParseLocation(lines[k]).None?
  }

  predicate IsFirstDetail(lines: seq<string>, i: int) {
    0 <= i < |lines| && ParseDetail(lines[i]).Some? && forall k | 0 <= k < i :: ParseDetail(lines[k]).None?
  }

  lemma LocationBehind(lines: seq<string>, i: int)
    requires lines != [] && ParseLocation(lines[0]).None? && IsFirstLocation(lines[1..], i)
    ensures IsFirstLocation(lines, i + 1) && lines[1..][i] == lines[i + 1]
  {
    var rest := lines[1..];
    forall k | 0 <= k < i + 1 ensures ParseLocation(lines[k]).None? {
      if k > 0 {
        assert lines[k] == rest[k - 1];
      }
    }
  }

  predicate NoLocation(lines: seq<string>) {
    forall i | 0 <= i < |lines| :: ParseLocation(lines[i]).None?
  }

  predicate NoDetail(lines: seq<string>) {
    forall i | 0 <= i < |lines| :: ParseDetail(lines[i]).None?
  }

  lemma NoLocationAt(lines: seq<string>)
    requires lines != []
    ensures NoLocation(lines) <==> ParseLocation(lines[0]).None? && NoLocation(lines[1..])
  {
    var rest := lines[1..];
    if ParseLocation(lines[0]).None? && NoLocation(rest) {
      forall i | 0 <= i < |lines| ensures ParseLocation(lines[i]).None? {
        if i > 0 {
          assert lines[i] == rest[i - 1];
        }
      }
    }
  }

  lemma NoDetailAt(lines: seq<string>)
    requires lines != []
    ensures NoDetail(lines) <==> ParseDetail(lines[0]).None? && NoDetail(lines[1..])
  {
    var rest := lines[1..];
    if ParseDetail(lines[0]).None? && NoDetail(rest) {
      forall i | 0 <= i < |lines| ensures ParseDetail(lines[i]).None? {
        if i > 0 {
          assert lines[i] == rest[i - 1];
        }
      }
    }
  }

  lemma {:induction false} FirstLocationIs(lines: seq<string>)
    ensures FirstLocation(lines).None? <==> NoLocation(lines)
    ensures FirstLocation(lines).Some? ==> exists i :: IsFirstLocation(lines, i) && FirstLocation(lines) == ParseLocation(lines[i])
  {
    if lines != [] {
      var rest := lines[1..];
      NoLocationAt(lines);
      if ParseLocation(lines[0]).Some? {
        assert IsFirstLocation(lines, 0);
      } else {
        FirstLocationIs(rest);
        if FirstLocation(rest).Some? {
          var i :| IsFirstLocation(rest, i) && FirstLocation(rest) == ParseLocation(rest[i]);
          LocationBehind(lines, i);
        }
      }
    }
  }

  lemma DetailBehind(lines: seq<string>, i: int)
    requires lines != [] && ParseDetail(lines[0]).None? && IsFirstDetail(lines[1..], i)
    ensures IsFirstDetail(lines, i + 1) && lines[1..][i] == lines[i + 1]
  {
    var rest := lines[1..];
    forall k | 0 <= k < i + 1 ensures ParseDetail(lines[k]).None? {
      if k > 0 {
        assert lines[k] == rest[k - 1];
      }
    }
  }

  lemma {:induction false} FirstDetailIs(lines: seq<string>)
    ensures FirstDetail(lines).None? <==> NoDetail(lines)
    ensures FirstDetail(lines).Some? ==> exists i :: IsFirstDetail(lines, i) && FirstDetail(lines) == ParseDetail(lines[i])
  {
    if lines != [] {
      var rest := lines[1..];
      NoDetailAt(lines);
      if ParseDetail(lines[0]).Some? {
        assert IsFirstDetail(lines, 0);
      } else {
        FirstDetailIs(rest);
        if FirstDetail(rest).Some? {
          var i :| IsFirstDetail(rest, i) && FirstDetail(rest) == ParseDetail(rest[i]);
          DetailBehind(lines, i);
        }
      }
    }
  }
}
