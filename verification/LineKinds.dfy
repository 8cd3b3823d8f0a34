/** What a line is to the stack traces: an exception, a frame, a place in front of an exception, blank or none of
    them, for the lines that Java and Node write. */
module LineKinds {
  import opened Model
  import opened Text
  import opened Strings
  import opened Recognizers
  import JavaTraces
  import NodeTraces
  import StackTraces

  const JAVA_FRAMEWORKS: seq<string> := [
    "java.", "javax.", "jdk.", "sun.", "junit.", "org.junit.", "org.hamcrest.", "org.opentest4j.", "com.google.testing.junit."]

  // A text behind "at " is no exception: there is a space in what would be its type.
  lemma FrameIsNoException(frame: string)
    requires frame != "" && !IsWhitespace(frame[|frame| - 1])
    ensures JavaTraces.ParseException("at " + frame).None?
  {
    var line := "at " + frame;
    LastOf("at ", frame);
    TrimNothing(line);
    PrefixDiffers(line, "Exception in thread \"", 0);
    PrefixDiffers(line, "Caused by: ", 0);
    SpaceBeforeColon(line);
    NoExceptionBy(line, JavaTraces.ExceptionLine(line, false));
  }

  lemma NoExceptionBy(raw: string, line: JavaTraces.ExceptionLine)
    requires JavaTraces.WithoutMarker(Trim(raw)) == Some(line) && !IsIdentifier(Before(line.message, ":"))
    ensures JavaTraces.ParseException(raw).None?
  {
  }

  lemma SpaceBeforeColon(line: string)
    requires "at " <= line
    ensures var before := Before(line, ":"); "at " <= before && !IsIdentifier(before)
  {
    IndexOfExactly(line, ":");
    if IndexOf(line, ":").Some? {
      ColonNotEarly(line, IndexOf(line, ":").value);
    }
    var before := Before(line, ":");
    assert before == line || before == line[..|before|];
    assert before[2] == ' ';
  }

  lemma ColonNotEarly(line: string, k: nat)
    requires "at " <= line && PartAt(line, ":", k)
    ensures k >= 3
  {
    assert line[k..k + 1][0] == line[k] == ':';
  }

  /** A Java frame is an application frame with its place unless it is one of a framework, and a throwable an
      exception with its message. */
  lemma JavaKindsAre(package: string, class_: string, method_: string, file: string, n: u32)
    requires IsIdentifier(package) && IsIdentifier(class_) && IsIdentifier(method_) && package != ""
    requires '.' !in class_ && '.' !in method_ && ')' !in file && file != "" && ':' !in file
    ensures var callable := package + "." + class_ + "." + method_;
      JavaTraces.KindOf("at " + callable + "(" + file + ".java:" + Show(n) + ")") ==
        StackTraces.Frame(
          if StartsWithAny(callable, JAVA_FRAMEWORKS) then None
          else Some(Location(Replace(package, '.', "/") + "/" + (file + ".java"), Some(n), None, None, None)))
  {
    var callable := package + "." + class_ + "." + method_;
    JavaFrameIsRead(package, class_, method_, file, n);
    FrameParts(callable, file, Show(n));
    var frame := callable + "(" + (file + ".java" + ":" + Show(n) + ")");
    LastOf(callable + "(" + (file + ".java" + ":" + Show(n)), ")");
    FrameShape(callable, file + ".java" + ":" + Show(n));
    assert package[0] in package;
    IdentifierHas(package, package[0]);
    FrameIsNoException(frame);
    JavaKindBy("at " + frame);
  }

  lemma FrameShape(callable: string, source: string)
    requires callable != ""
    ensures var frame := callable + "(" + (source + ")"); frame[0] == callable[0] && frame[|frame| - 1] == ')'
  {
  }

  lemma JavaKindBy(line: string)
    requires JavaTraces.ParseException(line).None? && JavaTraces.ParseFrame(line).Some?
    ensures JavaTraces.KindOf(line) ==
      StackTraces.Frame(
        if JavaTraces.ParseFrame(line).value.framework then None else Some(JavaTraces.ParseFrame(line).value.location))
  {
  }

  lemma JavaExceptionKind(package: string, class_: string, said: string, caused: bool)
    requires package != "" && IsThrowable(package, class_) && (said == "" || IsTrimmed(said))
    ensures var message := package + "." + class_ + (if said == "" then "" else ": " + said);
      JavaTraces.KindOf((if caused then "Caused by: " else "") + message) == StackTraces.Exception(message, caused)
  {
    JavaExceptionIsRead(package, class_, said, caused);
  }

  /** A script's frame, its place or an error at the start of a line are a frame, a header and an exception. */
  lemma NodeFrameKind(callable: string, path: string, e: nat, line: u32, column: Option<u32>)
    requires IsTrimmed(path) && ':' !in path && path[0] != '"' && '(' !in path && e < |NodeTraces.EXTENSIONS|
    ensures var file := path + NodeTraces.EXTENSIONS[e];
      var normal := NormalizePath(file);
      NodeTraces.KindOf("at " + (callable + "(" + (file + ":" + Coordinates(line, column) + ")"))) ==
        StackTraces.Frame(if IsDependency(normal) then None else Some(Location(normal, Some(line), column, None, None)))
  {
    var source := path + NodeTraces.EXTENSIONS[e] + ":" + Coordinates(line, column);
    var text := "at " + (callable + "(" + (source + ")"));
    NodeFrameIsRead(callable, path, e, line, column);
    assert TrimStart(text) == text;
    AtIsNoError(callable + "(" + (source + ")"));
    FrameEnds(callable, source);
    TrimNothing(text);
    NodeFrameKindBy(text);
  }

  lemma AtIsNoError(frame: string)
    requires frame != "" && !IsWhitespace(frame[|frame| - 1])
    ensures NodeTraces.ExceptionMessage("at " + frame).None?
  {
    var line := "at " + frame;
    LastOf("at ", frame);
    TrimNothing(line);
    SpaceBeforeColon(line);
    var before := Before(line, ":");
    assert TrimStart(before) == before;
    WordOfAt(before);
  }

  lemma WordOfAt(s: string)
    requires |s| >= 3 && s[0] == 'a' && s[1] == 't' && s[2] == ' '
    ensures Word(s) == "at"
  {
    assert s[1..][0] == 't' && s[1..][1..] == s[2..] && s[2..][0] == ' ';
    assert Word(s[2..]) == "";
    assert Word(s[1..]) == "t" + "";
  }

  lemma NodeFrameKindBy(line: string)
    requires "at " <= TrimStart(line) && NodeTraces.ExceptionMessage(line).None? && NodeTraces.ParseFrame(line).Some?
    ensures NodeTraces.KindOf(line) == StackTraces.Frame(NodeTraces.ParseFrame(line).value)
  {
  }

  lemma NodePlaceKind(path: string, e: nat, line: u32, column: Option<u32>)
    requires IsTrimmed(path) && ':' !in path && path[0] != '"' && e < |NodeTraces.EXTENSIONS| && !("at " <= path)
    ensures var file := path + NodeTraces.EXTENSIONS[e];
      NodeTraces.KindOf(file + ":" + Coordinates(line, column)) ==
        StackTraces.Header(Location(NormalizePath(file), Some(line), column, None, None))
  {
    var ext, c := NodeTraces.EXTENSIONS[e], Coordinates(line, column);
    var value := path + ext + ":" + c;
    ExtensionsAreWords(e);
    CoordinatesAre(line, column);
    ValueEnds(path, ext, c);
    TrimNothing(value);
    NodePlaceIsRead(path, e, line, column);
    assert TrimStart(value) == value;
    NotAt(path, ext, c);
    NodePlaceKindBy(value);
  }

  // The file begins with "at " only if the path does.
  lemma NotAt(path: string, ext: string, c: string)
    requires !("at " <= path) && path != "" && ext != "" && ext[0] == '.'
    ensures !("at " <= path + ext + ":" + c)
  {
    var value := path + ext + ":" + c;
    assert path <= value && value[|path|] == '.';
    if |path| < 3 {
      PrefixDiffers(value, "at ", |path|);
    } else {
      assert value[..3] == path[..3];
    }
  }

  lemma NodePlaceKindBy(value: string)
    requires Trim(value) == value && !("at " <= TrimStart(value)) && NodeTraces.ParseLocation(value).Some?
    ensures NodeTraces.KindOf(value) == StackTraces.Header(NodeTraces.ParseLocation(value).value)
  {
  }

  lemma NodeExceptionKind(class_: string, said: string)
    requires IsIdentifier(class_) && (EndsWith(class_, "Error") || EndsWith(class_, "Exception")) && IsTrimmed(said)
    requires '.' !in class_ && '.' !in said
    ensures NodeTraces.KindOf(class_ + ": " + said) == StackTraces.Exception(class_ + ": " + said, false)
  {
    var line := class_ + ": " + said;
    NodeExceptionIsRead(class_, said);
    Absent('.', class_ + ": ", said);
    NoPlace(Trim(line));
  }

  lemma {:induction false} NoPathEnd(value: string, n: nat)
    requires n <= |NodeTraces.EXTENSIONS| && '.' !in value
    ensures NodeTraces.PathEnd(value, n) == 0
  {
    if n > 0 {
      NoPathEnd(value, n - 1);
      ExtensionsAreWords(n - 1);
      FirstOf(NodeTraces.EXTENSIONS[n - 1], ":");
      PartNeeds(value, NodeTraces.EXTENSIONS[n - 1] + ":");
    }
  }

  lemma NoPlace(value: string)
    requires '.' !in value
    ensures NodeTraces.ParseLocation(value).None?
  {
    var bare := TrimEndOf(TrimStartOf(Trim(value), '"'), '"');
    var before, after := TrimExactly(value);
    TrimOfKeepsOut(Trim(value), '"', '.');
    NoPathEnd(bare, |NodeTraces.EXTENSIONS|);
  }

  lemma {:induction false} TrimStartKeepsOut(s: string, c: char, d: char)
    requires d !in s
    ensures d !in TrimStartOf(s, c)
  {
    if s != "" && s[0] == c {
      TrimStartKeepsOut(s[1..], c, d);
    }
  }

  lemma {:induction false} TrimEndKeepsOut(s: string, c: char, d: char)
    requires d !in s
    ensures d !in TrimEndOf(s, c)
  {
    if s != "" && s[|s| - 1] == c {
      TrimEndKeepsOut(s[..|s| - 1], c, d);
    }
  }

  lemma TrimOfKeepsOut(s: string, c: char, d: char)
    requires d !in s
    ensures d !in TrimEndOf(TrimStartOf(s, c), c)
  {
    TrimStartKeepsOut(s, c, d);
    TrimEndKeepsOut(TrimStartOf(s, c), c, d);
  }

  /** A blank line is blank to both, and is neither exception nor frame. */
  lemma BlankKinds(line: string)
    requires Trim(line) == ""
    ensures JavaTraces.KindOf(line) == StackTraces.Blank && NodeTraces.KindOf(line) == StackTraces.Blank
  {
    PartNeeds("", ":");
    NoPlace("");
    BlankIsNothing(line);
  }

  lemma BlankIsNothing(line: string)
    requires Trim(line) == ""
    ensures JavaTraces.ParseException(line).None? && JavaTraces.ParseFrame(line).None?
    ensures NodeTraces.HeaderOf(line).None? && NodeTraces.ExceptionMessage(line).None? && NodeTraces.ParseFrame(line).None?
  {
    PartNeeds("", ":");
    NoPlace("");
    assert Before("", ":") == "";
  }
}
