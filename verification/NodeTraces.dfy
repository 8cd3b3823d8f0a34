/** JavaScript exceptions in test logs: source headers, exception lines and stack frames, and the
    parser. */
module NodeTraces {
  import opened Model
  import opened Text
  import opened Strings
  import opened StackTraces

  const EXTENSIONS := [".tsx", ".mts", ".cts", ".ts", ".jsx", ".mjs", ".cjs", ".js"]

  // The end of the last path among the first n extensions that a colon follows; 0 if there is none.
  function PathEnd(value: string, n: nat): (end: nat)
    requires n <= |EXTENSIONS|
    ensures end <= |value|
  {
    if n == 0 then 0
    else
      var before := PathEnd(value, n - 1);
      match LastIndexOf(value, EXTENSIONS[n - 1] + ":")
      case None => before
      case Some(k) => var end := k + |EXTENSIONS[n - 1]|; if end > before then end else before
  }

  function CompactPath(path: string): string {
    var trimmed := TrimEndOf(TrimStartOf(path, '"'), '"');
    NormalizePath(match StripPrefix(trimmed, "file://") case None => path case Some(rest) => rest)
  }

  // path:line or path:line:column, where the path ends in a JavaScript or TypeScript extension.
  function ParseLocation(raw: string): Option<Location> {
    var value := TrimEndOf(TrimStartOf(Trim(raw), '"'), '"');
    var end := PathEnd(value, |EXTENSIONS|);
    if end == 0 then None
    else
      match StripPrefix(value[end..], ":")
      case None => None
      case Some(coordinates) =>
        match SplitOnce(coordinates, ":")
        case None =>
          if ParseU32(coordinates).None? then None
          else Some(Location(CompactPath(value[..end]), ParseU32(coordinates), None, None, None))
        case Some(parts) =>
          if ParseU32(parts.0).None? || ParseU32(parts.1).None? then None
          else Some(Location(CompactPath(value[..end]), ParseU32(parts.0), ParseU32(parts.1), None, None))
  }

  function ExceptionMessage(raw: string): Option<string> {
    var line := Trim(raw);
    var class_ := Word(TrimStart(Before(line, ":")));
    if class_ != [] && IsIdentifier(class_) && (EndsWith(class_, "Error") || EndsWith(class_, "Exception"))
    then Some(line) else None
  }

  // The source of a frame: in parentheses at the end, or the last word.
  function FrameSource(frame: string): Option<string> {
    match RSplitOnce(frame, "(")
    case None => var word := WordAtEnd(TrimEnd(frame)); if word == [] then None else Some(word)
    case Some(parts) => StripSuffix(parts.1, ")")
  }

  // Some(None) for a frame of the runtime or of a dependency.
  function ParseFrame(raw: string): Option<Option<Location>> {
    match StripPrefix(Trim(raw), "at ")
    case None => None
    case Some(frame) =>
      match FrameSource(frame)
      case None => None
      case Some(source) =>
        if StartsWith(source, "node:") || source == "native" || source == "<anonymous>" then Some(None)
        else
          match ParseLocation(source)
          case None => None
          case Some(l) =>
            var framework := Contains(l.path, "/node_modules/") || StartsWith(l.path, "node_modules/") || Contains(l.path, "/external/");
            Some(if framework then None else Some(l))
  }

  function HeaderOf(line: string): Option<Location> {
    if StartsWith(TrimStart(line), "at ") then None else ParseLocation(Trim(line))
  }

  function KindOf(line: string): Kind {
    if HeaderOf(line).Some? then Header(HeaderOf(line).value)
    else if ExceptionMessage(line).Some? then Exception(ExceptionMessage(line).value, false)
    else if ParseFrame(line).Some? then Frame(ParseFrame(line).value)
    else if Trim(line) == [] then Blank
    else Unrelated
  }

  function KindsOf(lines: seq<string>): (kinds: seq<Kind>)
    ensures |kinds| == |lines|
  {
    seq(|lines|, i requires 0 <= i < |lines| => KindOf(lines[i]))
  }

  // ---------------------------------------------------------------- the parser

  class JavaScriptTestDiagnosticParser {
    var leadingLocation: Option<Location>
    var pending: Option<Diagnostic>
    var framesSeen: nat

    constructor ()
      ensures Valid() && Value() == IDLE
    {
      leadingLocation, pending, framesSeen := None, None, 0;
    }

    function Value(): State
      reads this
    {
      State(leadingLocation, pending, false, framesSeen)
    }

    // A pending exception and a leading location are never both set.
    ghost predicate Valid()
      reads this
    {
      IsReachable(Value())
    }

    method TakeConfirmed() returns (confirmed: Option<Diagnostic>)
      modifies this
      ensures confirmed == Confirmed(old(Value())) && Value() == IDLE
    {
      var isConfirmed := (pending.Some? && pending.value.location.Some?) || framesSeen > 0;
      confirmed := if isConfirmed then pending else None;
      framesSeen, leadingLocation, pending := 0, None, None;
    }

    /** One line is one step of the machine. */
    method ObserveLine(line: string) returns (emitted: Option<Diagnostic>)
      requires Valid()
      modifies this
      ensures Valid()
      ensures Stepped(Value(), emitted) == StepTrace(old(Value()), KindOf(line))
    {
      var header := HeaderOf(line);
      if header.Some? {
        emitted := TakeConfirmed();
        leadingLocation := header;
        return;
      }
      var message := ExceptionMessage(line);
      if message.Some? {
        var location := leadingLocation;
        leadingLocation := None;
        emitted := TakeConfirmed();
        pending := Some(NewException(message.value, location));
        framesSeen := 0;
        return;
      }
      if pending.None? {
        return None;
      }
      var frame := ParseFrame(line);
      if frame.Some? {
        framesSeen := framesSeen + 1;
        if frame.value.Some? {
          emitted := Some(pending.value.(location := frame.value));
          pending, framesSeen := None, 0;
          return;
        }
        if framesSeen >= MAX_STACK_FRAMES {
          emitted := TakeConfirmed();
          return;
        }
        return None;
      }
      if Trim(line) == [] {
        return None;
      }
      emitted := TakeConfirmed();
    }
  }

  /** Reducing a text yields one verdict for each exception line, in order, and records their messages. */
  method Reduce(input: string) returns (diagnostics: seq<Diagnostic>, messages: set<string>)
    ensures diagnostics == Blocks(None, KindsOf(Lines(input)))
    ensures messages == MessagesOf(diagnostics)
  {
    diagnostics, messages := [], {};
    var parser := new JavaScriptTestDiagnosticParser();
    var lines := Lines(input);
    ghost var kinds := KindsOf(lines);
    ProgressStart(kinds);
    for i := 0 to |lines|
      invariant parser.Valid()
      invariant Progress(diagnostics, parser.Value(), kinds, i)
      invariant messages == MessagesOf(diagnostics)
    {
      ProgressStep(diagnostics, parser.Value(), kinds, i);
      var found := parser.ObserveLine(lines[i]);
      diagnostics, messages := Record(found, diagnostics, messages);
    }
    ProgressEnd(diagnostics, parser.Value(), kinds);
    EveryExceptionOnce(kinds);
    var found := parser.TakeConfirmed();
    diagnostics, messages := Record(found, diagnostics, messages);
  }
}
