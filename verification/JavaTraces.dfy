/** Java exceptions in test logs: recognizing exception lines and JVM stack frames, and the parser. */
module JavaTraces {
  import opened Model
  import opened Text
  import opened Strings
  import opened StackTraces

  datatype ExceptionLine = ExceptionLine(message: string, explicit: bool)

  // The line without a prefix that marks it as a Java exception; None if the prefix is malformed.
  function WithoutMarker(line: string): Option<ExceptionLine> {
    var thread := "Exception in thread \"";
    if StartsWith(line, thread) then
      match SplitOnce(line[|thread|..], "\" ")
      case None => None
      case Some(parts) => Some(ExceptionLine(parts.1, true))
    else if StartsWith(line, "Caused by: ") then Some(ExceptionLine(line[|"Caused by: "|..], true))
    else Some(ExceptionLine(line, false))
  }

  function ParseException(raw: string): Option<ExceptionLine> {
    match WithoutMarker(Trim(raw))
    case None => None
    case Some(line) =>
      var type_ := Before(line.message, ":");
      var class_ := AfterLast(type_, ".");
      var recognized := EndsWith(class_, "Error") || EndsWith(class_, "Exception") || EndsWith(class_, "Failure");
      if type_ != [] && IsIdentifier(type_) && recognized && (line.explicit || Contains(type_, ".")) then Some(line) else None
  }

  datatype StackFrame = StackFrame(location: Location, framework: bool)

  const FRAMEWORKS := ["java.", "javax.", "jdk.", "sun.", "junit.", "org.junit.", "org.hamcrest.", "org.opentest4j.",
                       "com.google.testing.junit."]

  // callable(File.java:line) after "at ".
  function ParseFrame(raw: string): Option<StackFrame> {
    match StripPrefix(Trim(raw), "at ")
    case None => None
    case Some(frame) =>
      match SplitOnce(frame, "(")
      case None => None
      case Some(parts) =>
        match StripSuffix(parts.1, ")")
        case None => None
        case Some(source) =>
          match RSplitOnce(source, ":")
          case None => None
          case Some(place) =>
            var callable := AfterLast(parts.0, "/");
            if !EndsWith(place.0, ".java") || ParseU32(place.1).None? || RSplitOnce(callable, ".").None? then None
            else
              var className := RSplitOnce(callable, ".").value.0;
              var path :=
                match RSplitOnce(className, ".")
                case None => place.0
                case Some(package) => Replace(package.0, '.', "/") + "/" + place.0;
              Some(StackFrame(Location(path, ParseU32(place.1), None, None, None), StartsWithAny(callable, FRAMEWORKS)))
  }

  // A line that starts no exception: a frame, a blank line or anything else.
  function FollowingKind(frame: Option<StackFrame>, blank: bool): Kind {
    if frame.Some? then Frame(if frame.value.framework then None else Some(frame.value.location))
    else if blank then Blank
    else Unrelated
  }

  function KindOf(line: string): Kind {
    if ParseException(line).Some? then Exception(ParseException(line).value.message, ParseException(line).value.explicit)
    else FollowingKind(ParseFrame(line), Trim(line) == [])
  }

  function KindsOf(lines: seq<string>): (kinds: seq<Kind>)
    ensures |kinds| == |lines|
  {
    seq(|lines|, i requires 0 <= i < |lines| => KindOf(lines[i]))
  }

  // ---------------------------------------------------------------- the parser

  class JavaTestDiagnosticParser {
    var pending: Option<Diagnostic>
    var pendingIsExplicit: bool
    var framesSeen: nat

    constructor ()
      ensures Valid() && Value() == IDLE
    {
      pending, pendingIsExplicit, framesSeen := None, false, 0;
    }

    function Value(): State
      reads this
    {
      State(None, pending, pendingIsExplicit, framesSeen)
    }

    ghost predicate Valid()
      reads this
    {
      IsReachable(Value()) && (pending.Some? ==> pending.value.location.None?)
    }

    method TakeConfirmed() returns (confirmed: Option<Diagnostic>)
      requires pending.Some? ==> pending.value.location.None?
      modifies this
      ensures confirmed == Confirmed(old(Value())) && Value() == IDLE
    {
      var isConfirmed := pendingIsExplicit || framesSeen > 0;
      confirmed := if isConfirmed then pending else None;
      pendingIsExplicit, framesSeen, pending := false, 0, None;
    }

    // A line after a pending exception that starts no other one.
    method ObserveFollowing(frame: Option<StackFrame>, blank: bool) returns (emitted: Option<Diagnostic>)
      requires Valid() && pending.Some?
      modifies this
      ensures Valid()
      ensures Stepped(Value(), emitted) == StepTrace(old(Value()), FollowingKind(frame, blank))
    {
      if frame.Some? {
        framesSeen := framesSeen + 1;
        if !frame.value.framework {
          emitted := Some(pending.value.(location := Some(frame.value.location)));
          pending, pendingIsExplicit, framesSeen := None, false, 0;
          return;
        }
        if framesSeen >= MAX_STACK_FRAMES {
          emitted := TakeConfirmed();
          return;
        }
        return None;
      }
      if blank {
        return None;
      }
      emitted := TakeConfirmed();
    }

    /** One line is one step of the machine. */
    method ObserveLine(line: string) returns (emitted: Option<Diagnostic>)
      requires Valid()
      modifies this
      ensures Valid()
      ensures Stepped(Value(), emitted) == StepTrace(old(Value()), KindOf(line))
    {
      var exception := ParseException(line);
      if exception.Some? {
        emitted := TakeConfirmed();
        pending := Some(NewException(exception.value.message, None));
        pendingIsExplicit := exception.value.explicit;
        framesSeen := 0;
        return;
      }
      if pending.None? {
        return None;
      }
      emitted := ObserveFollowing(ParseFrame(line), Trim(line) == []);
    }
  }

  /** Reducing a text yields one verdict for each exception line, in order, and records their messages. */
  method Reduce(input: string) returns (diagnostics: seq<Diagnostic>, messages: set<string>)
    ensures diagnostics == Blocks(None, KindsOf(Lines(input)))
    ensures messages == MessagesOf(diagnostics)
  {
    diagnostics, messages := [], {};
    var parser := new JavaTestDiagnosticParser();
    var lines := Lines(input);
    ghost var kinds := KindsOf(lines);
    ProgressStart(kinds);
    for i := 0 to |lines|
      invariant parser.Valid()
      invariant Progress(diagnostics, parser.Value(), kinds, i)
      invariant messages == MessagesOf(diagnostics)
    {
      ProgressStep(diagnostics, parser.Value(), kinds, i);
      var found := parser.ObserveLine(lines[i]);
      diagnostics, messages := Record(found, diagnostics, messages);
    }
    ProgressEnd(diagnostics, parser.Value(), kinds);
    EveryExceptionOnce(kinds);
    var found := parser.TakeConfirmed();
    diagnostics, messages := Record(found, diagnostics, messages);
  }
}
