/** The lines that test frameworks, compilers and runtimes write are read back: for every name, place and text,
    the written line is recognized with just that name, place and text. */
module Recognizers {
  import opened Model
  import opened Utf8
  import opened Text
  import opened Strings
  import opened Sequences
  import opened TestFailures
  import JavaTraces
  import NodeTraces
  import RustCompiler
  import JavaCompiler

  // ---------------------------------------------------------------- finding the separators of a written line

  // A text of which trimming takes nothing away.
  predicate IsTrimmed(s: string) {
    s != "" && !IsWhitespace(s[0]) && !IsWhitespace(s[|s| - 1])
  }

  lemma TrimStartPadded(before: string, s: string)
    requires IsBlank(before) && s != "" && !IsWhitespace(s[0])
    ensures TrimStart(before + s) == s
  {
    if before == "" {
      assert before + s == s;
    } else {
      TailOfAppend(before, s);
      TrimStartPadded(before[1..], s);
    }
  }

  lemma TrimEndPadded(s: string, after: string)
    requires IsBlank(after) && s != "" && !IsWhitespace(s[|s| - 1])
    ensures TrimEnd(s + after) == s
  {
    if after == "" {
      assert s + after == s;
    } else {
      var init, last := after[..|after| - 1], after[|after| - 1];
      assert s + after == s + init + [last];
      InitOfAppend(s + init, last);
      TrimEndPadded(s, init);
    }
  }

  lemma TrimPadded(before: string, s: string, after: string)
    requires IsBlank(before) && IsBlank(after) && IsTrimmed(s)
    ensures Trim(before + s + after) == s
  {
    AppendAssociates(before, s, after);
    assert (s + after)[0] == s[0];
    TrimStartPadded(before, s + after);
    TrimEndPadded(s, after);
  }

  lemma TrimNothing(s: string)
    requires IsTrimmed(s)
    ensures Trim(s) == s
  {
    TrimPadded("", s, "");
    assert "" + s + "" == s;
  }

  lemma TrimAfter(s: string)
    requires IsTrimmed(s)
    ensures Trim(" " + s) == s
  {
    TrimPadded(" ", s, "");
    assert " " + s + "" == " " + s;
  }

  lemma PrefixGone(prefix: string, rest: string)
    ensures StripPrefix(prefix + rest, prefix) == Some(rest)
  {
    assert (prefix + rest)[|prefix|..] == rest;
  }

  lemma SuffixGone(rest: string, suffix: string)
    ensures StripSuffix(rest + suffix, suffix) == Some(rest)
  {
    assert (rest + suffix)[|rest|..] == suffix && (rest + suffix)[..|rest|] == rest;
  }

  lemma LastOf(a: string, b: string)
    requires b != ""
    ensures (a + b)[|a + b| - 1] == b[|b| - 1]
  {
  }

  lemma FirstOf(a: string, b: string)
    requires a != ""
    ensures (a + b)[0] == a[0]
  {
  }

  lemma Absent(c: char, a: string, b: string)
    requires c !in a && c !in b
    ensures c !in a + b
  {
  }

  lemma HereIsPart(a: string, part: string, b: string)
    ensures PartAt(a + part + b, part, |a|)
    ensures (a + part + b)[..|a|] == a && (a + part + b)[|a| + |part|..] == b
  {
    var s := a + part + b;
    assert s[|a|..|a| + |part|] == part;
  }

  lemma NotHere(s: string, part: string, i: nat)
    requires part != "" && (i >= |s| || s[i] != part[0])
    ensures !PartAt(s, part, i)
  {
    if i + |part| <= |s| {
      assert s[i..i + |part|][0] == s[i];
    }
  }

  lemma PrefixDiffers(s: string, prefix: string, k: nat)
    requires k < |prefix| && (k >= |s| || s[k] != prefix[k])
    ensures !(prefix <= s)
  {
  }

  lemma SuffixDiffers(s: string, suffix: string, k: nat)
    requires k < |suffix| <= |s| && s[|s| - 1 - k] != suffix[|suffix| - 1 - k]
    ensures !EndsWith(s, suffix)
  {
    assert s[|s| - |suffix|..][|suffix| - 1 - k] == s[|s| - 1 - k];
  }

  lemma Nowhere(s: string, part: string)
    requires part != "" && part[0] !in s
    ensures forall i: nat :: !PartAt(s, part, i)
  {
    forall i: nat ensures !PartAt(s, part, i) {
      NotHere(s, part, i);
    }
  }

  lemma PartNeeds(s: string, part: string)
    requires part != "" && part[0] !in s
    ensures IndexOf(s, part).None? && LastIndexOf(s, part).None?
  {
    Nowhere(s, part);
    IndexOfExactly(s, part);
    LastIndexOfExactly(s, part);
  }

  lemma NotBefore(a: string, part: string, b: string)
    requires part != "" && part[0] !in a
    ensures forall i: nat | i < |a| :: !PartAt(a + part + b, part, i)
  {
    forall i: nat | i < |a| ensures !PartAt(a + part + b, part, i) {
      assert (a + part + b)[i] == a[i];
      NotHere(a + part + b, part, i);
    }
  }

  lemma NotBehind(a: string, part: string, b: string)
    requires part != "" && part[0] !in part[1..] && part[0] !in b
    ensures forall i: nat | i > |a| :: !PartAt(a + part + b, part, i)
  {
    var s := a + part + b;
    forall i: nat | i > |a| ensures !PartAt(s, part, i) {
      var n := i - |a|;
      if n < |part| {
        assert s[i] == part[1..][n - 1];
      } else if i < |s| {
        assert s[i] == b[n - |part|];
      }
      NotHere(s, part, i);
    }
  }

  lemma SplitAtFirst(a: string, part: string, b: string)
    requires part != "" && part[0] !in a
    ensures IndexOf(a + part + b, part) == Some(|a|) && SplitOnce(a + part + b, part) == Some((a, b))
  {
    HereIsPart(a, part, b);
    NotBefore(a, part, b);
    IndexOfExactly(a + part + b, part);
  }

  // A separator whose first character does not come again.
  lemma SplitAtLast(a: string, part: string, b: string)
    requires part != "" && part[0] !in part[1..] && part[0] !in b
    ensures LastIndexOf(a + part + b, part) == Some(|a|) && RSplitOnce(a + part + b, part) == Some((a, b))
  {
    HereIsPart(a, part, b);
    NotBehind(a, part, b);
    LastIndexOfExactly(a + part + b, part);
  }

  lemma NumberIsRead(n: u32)
    ensures Show(n) != "" && IsDigits(Show(n)) && ParseU32(Show(n)) == Some(n)
    ensures forall i | 0 <= i < |Show(n)| :: Show(n)[i] != ':' && Show(n)[i] != '(' && Show(n)[i] != ')' && !IsWhitespace(Show(n)[i])
    ensures IsTrimmed(Show(n))
  {
    ShowIsDecimal(n);
    ParseShow(n);
    forall i | 0 <= i < |Show(n)| ensures IsDigit(Show(n)[i]) {
    }
  }

  lemma {:induction false} DigitsEnd(digits: string, rest: string)
    requires IsDigits(digits) && (rest == "" || !IsDigit(rest[0]))
    ensures DigitCount(digits + rest) == |digits|
  {
    if digits == "" {
      assert digits + rest == rest;
    } else {
      assert (digits + rest)[1..] == digits[1..] + rest && IsDigit(digits[0]);
      DigitsEnd(digits[1..], rest);
    }
  }

  // ---------------------------------------------------------------- paths

  function Quotes(n: nat): string {
    seq(n, _ => '"')
  }

  lemma TrimStartQuotes(n: nat, s: string)
    requires s == "" || s[0] != '"'
    ensures TrimStartOf(Quotes(n) + s, '"') == s
  {
    if n == 0 {
      assert Quotes(n) + s == s;
    } else {
      assert (Quotes(n) + s)[1..] == Quotes(n - 1) + s;
      TrimStartQuotes(n - 1, s);
    }
  }

  lemma TrimEndQuotes(s: string, n: nat)
    requires s == "" || s[|s| - 1] != '"'
    ensures TrimEndOf(s + Quotes(n), '"') == s
  {
    if n == 0 {
      assert s + Quotes(n) == s;
    } else {
      var whole := s + Quotes(n);
      assert whole[..|whole| - 1] == s + Quotes(n - 1) && whole[|whole| - 1] == '"';
      TrimEndQuotes(s, n - 1);
    }
  }

  lemma {:induction false} SlashesReplaced(s: string)
    ensures |Replace(s, '\\', "/")| == |s|
    ensures forall i | 0 <= i < |s| :: Replace(s, '\\', "/")[i] == if s[i] == '\\' then '/' else s[i]
  {
    if s != "" {
      SlashesReplaced(s[1..]);
    }
  }

  // The same path with slashes only, without a leading "./".
  predicate IsNormalized(path: string, normal: string) {
    var k := if |path| >= 2 && path[0] == '.' && (path[1] == '/' || path[1] == '\\') then 2 else 0;
    |normal| == |path| - k && forall i | 0 <= i < |normal| :: normal[i] == if path[i + k] == '\\' then '/' else path[i + k]
  }

  /** A path loses the quotes around it and a leading "./", and its backslashes become slashes. */
  lemma NormalizePathExactly(m: nat, path: string, n: nat)
    requires path != "" && path[0] != '"' && path[|path| - 1] != '"'
    ensures IsNormalized(path, NormalizePath(Quotes(m) + path + Quotes(n)))
  {
    AppendAssociates(Quotes(m), path, Quotes(n));
    assert (path + Quotes(n))[0] == path[0];
    TrimStartQuotes(m, path + Quotes(n));
    TrimEndQuotes(path, n);
    SlashesReplaced(path);
    var slashed := Replace(path, '\\', "/");
    assert "./" <= slashed <==> |slashed| >= 2 && slashed[0] == '.' && slashed[1] == '/';
  }

  // ---------------------------------------------------------------- Go

  /** "=== RUN" and a name. */
  lemma GoRunIsRead(name: string)
    requires IsTrimmed(name)
    ensures GoRunningName("=== RUN   " + name) == Some(name)
  {
    assert "=== RUN   " + name == "=== RUN" + ("   " + name);
    PrefixGone("=== RUN", "   " + name);
    TrimPadded("   ", name, "");
    assert "   " + name + "" == "   " + name;
  }

  /** "--- FAIL:", a name and a duration in parentheses. */
  lemma GoFailIsRead(name: string, duration: string)
    requires IsTrimmed(name) && ' ' !in duration && '(' !in duration
    ensures GoFailedName("--- FAIL: " + name + " (" + duration + ")") == Some(name)
  {
    var rest := name + " (" + duration + ")";
    assert "--- FAIL: " + name + " (" + duration + ")" == "--- FAIL:" + (" " + rest);
    PrefixGone("--- FAIL:", " " + rest);
    TrimAfter(rest);
    assert rest == name + " (" + (duration + ")");
    SplitAtLast(name, " (", duration + ")");
  }

  /** "panic:" and a message, whatever the runtime says about recovering behind it. */
  lemma GoPanicIsRead(message: string, recovered: string)
    requires IsTrimmed(message) && !EndsWith(message, " [recovered]") && !EndsWith(message, " [recovered, repanicked]")
    requires recovered == "" || recovered == " [recovered]" || recovered == " [recovered, repanicked]"
    ensures GoPanicMessage("panic: " + message + recovered) == Some(message)
  {
    var rest := message + recovered;
    assert "panic: " + message + recovered == "panic:" + (" " + rest);
    PrefixGone("panic:", " " + rest);
    TrimAfter(rest);
    SuffixGone(message, recovered);
    TrimNothing(message);
    if recovered == " [recovered]" {
      NotRepanicked(message);
    } else if recovered == "" {
      assert rest == message;
    }
  }

  lemma NotRepanicked(message: string)
    ensures !EndsWith(message + " [recovered]", " [recovered, repanicked]")
  {
    var s := message + " [recovered]";
    if |" [recovered, repanicked]"| <= |s| {
      SuffixDiffers(s, " [recovered, repanicked]", 3);
    }
  }

  // What follows the line number of a Go place: nothing, a message, or the offset of a frame.
  datatype GoEnd = Bare | Message(text: string) | Offset(hex: string)

  function GoEndText(end: GoEnd): string {
    match end case Bare => "" case Message(text) => ": " + text case Offset(hex) => " +0x" + hex
  }

  /** A path that ends in .go, a line number, and a message or the offset of a stack frame. */
  lemma GoPlaceIsRead(path: string, n: u32, end: GoEnd)
    requires IsTrimmed(path) && !("Error Trace:" <= path + ".go")
    requires match end
      case Bare => true
      case Message(text) => IsTrimmed(text) && '.' !in text && !("+0x" <= text) && ':' !in text
      case Offset(hex) => '.' !in hex && ':' !in hex
    ensures GoTestLocation(path + ".go:" + Show(n) + GoEndText(end)) ==
      Some(GoPlace(Location(Bounded(NormalizePath(path + ".go"), 256), Some(n), None, None, None),
        if end.Message? then Some(end.text) else None, !end.Message?))
  {
    var number, rest := Show(n), GoEndText(end);
    NumberIsRead(n);
    NoDot(n);
    EndHasNoDot(end);
    GoEndIsRead(end);
    GoPlaceOn(path, number, rest, n);
    GoParts(path, number, rest);
  }

  // The same for any text in the places of number and end.
  lemma GoPlaceOn(path: string, number: string, end: string, n: u32)
    requires IsTrimmed(path) && !("Error Trace:" <= path + ".go")
    requires IsDigits(number) && ParseU32(number) == Some(n) && '.' !in number
    requires '.' !in end && (end == "" || !IsDigit(end[0]))
    ensures var tail := GoRemainder(end, false);
      GoTestLocation(path + ".go:" + (number + end)) ==
        Some(GoPlace(Location(Bounded(NormalizePath(path + ".go"), 256), Some(n), tail.column, None, None), tail.message, tail.stackFrame))
  {
    var after := number + end;
    Absent('.', number, end);
    GoSplit(path, after);
    DigitsEnd(number, end);
    Halves(number, end);
    GoPlaceBy(path + ".go:" + after, |path|, path + ".go", after, number, end, n);
  }

  lemma GoParts(path: string, number: string, end: string)
    ensures path + ".go:" + number + end == path + ".go:" + (number + end)
  {
  }

  // The file that a line names, and what follows its colon.
  predicate IsGoCut(line: string, marker: nat, file: string, after: string) {
    && marker + 4 <= |line| && LastIndexOf(line, ".go:") == Some(marker)
    && Trim(line[..marker + 3]) == file && line[marker + 4..] == after
  }

  lemma GoSplit(path: string, after: string)
    requires IsTrimmed(path) && '.' !in after
    ensures IsGoCut(path + ".go:" + after, |path|, path + ".go", after)
  {
    SplitAtLast(path, ".go:", after);
    CutBehindGo(path, after);
    FirstOf(path, ".go");
    TrimNothing(path + ".go");
  }

  lemma EndHasNoDot(end: GoEnd)
    requires match end case Bare => true case Message(text) => '.' !in text case Offset(hex) => '.' !in hex
    ensures '.' !in GoEndText(end) && (GoEndText(end) == "" || !IsDigit(GoEndText(end)[0]))
  {
  }

  lemma CutBehindGo(path: string, after: string)
    ensures var line := path + ".go:" + after;
      |path| + 4 <= |line| && line[..|path| + 3] == path + ".go" && line[|path| + 4..] == after
  {
  }

  lemma Halves(a: string, b: string)
    ensures (a + b)[..|a|] == a && (a + b)[|a|..] == b
  {
  }

  // The recognizer on the parts of a line.
  lemma GoPlaceBy(line: string, marker: nat, file: string, after: string, digits: string, end: string, n: u32)
    requires IsGoCut(line, marker, file, after) && file != "" && !("Error Trace:" <= file)
    requires |digits| <= |after| && DigitCount(after) == |digits|
    requires after[..|digits|] == digits && after[|digits|..] == end && ParseU32(digits) == Some(n)
    ensures var tail := GoRemainder(end, false);
      GoTestLocation(line) ==
        Some(GoPlace(Location(Bounded(NormalizePath(file), 256), Some(n), tail.column, None, None), tail.message, tail.stackFrame))
  {
  }

  lemma NoDot(n: u32)
    ensures '.' !in Show(n)
  {
    ShowIsDecimal(n);
    forall i | 0 <= i < |Show(n)| ensures IsDigit(Show(n)[i]) {
    }
  }

  lemma GoEndIsRead(end: GoEnd)
    requires end.Message? ==> IsTrimmed(end.text) && !("+0x" <= end.text) && ':' !in end.text
    ensures GoRemainder(GoEndText(end), false) == GoTail(None, if end.Message? then Some(end.text) else None, !end.Message?)
  {
    if !end.Message? {
      PrefixDiffers(GoEndText(end), ":", 0);
    } else {
      var after := " " + end.text;
      assert GoEndText(end)[1..] == after && DigitCount(after) == 0;
      TrimAfter(end.text);
    }
  }

  // ---------------------------------------------------------------- GoogleTest

  lemma GtestRunIsRead(name: string)
    requires name != ""
    ensures GtestRunningName("[ RUN      ] " + name) == Some(name)
  {
    PrefixGone("[ RUN      ] ", name);
  }

  /** A place before ": Failure". */
  lemma GtestFailureIsRead(path: string, n: u32)
    requires path != ""
    ensures GtestFailure(path + ":" + Show(n) + ": Failure") == Some(Some(Location(NormalizePath(path), Some(n), None, None, None)))
  {
    var place := path + ":" + Show(n);
    SuffixGone(place, ": Failure");
    NumberIsRead(n);
    SplitAtLast(path, ":", Show(n));
    ColonUnknown(path, Show(n));
    GtestFailureBy(place + ": Failure", place, path, Show(n));
  }

  lemma ColonUnknown(path: string, number: string)
    ensures path + ":" + number != "unknown file"
  {
    assert (path + ":" + number)[|path|] == ':';
    assert ':' !in "unknown file";
  }

  lemma GtestFailureBy(line: string, place: string, path: string, number: string)
    requires StripSuffix(line, ": Failure") == Some(place) && place != "unknown file"
    requires RSplitOnce(place, ":") == Some((path, number)) && path != "" && ParseU32(number).Some?
    ensures GtestFailure(line) == Some(Some(Location(NormalizePath(path), ParseU32(number), None, None, None)))
  {
  }

  lemma GtestFailedIsRead(name: string, duration: string)
    requires name != "" && ' ' !in duration && '(' !in duration
    ensures GtestFailedName("[  FAILED  ] " + name + " (" + duration + " ms)") == Some(name)
  {
    var rest := name + " (" + (duration + " ms)");
    GtestFailedParts(name, duration);
    PrefixGone("[  FAILED  ] ", rest);
    LastDuration(name, duration);
    GtestFailedBy("[  FAILED  ] " + rest, rest, name, duration + " ms)");
  }

  lemma GtestFailedParts(name: string, duration: string)
    ensures "[  FAILED  ] " + name + " (" + duration + " ms)" == "[  FAILED  ] " + (name + " (" + (duration + " ms)"))
  {
  }

  lemma GtestFailedBy(line: string, rest: string, name: string, duration: string)
    requires StripPrefix(line, "[  FAILED  ] ") == Some(rest) && RSplitOnce(rest, " (") == Some((name, duration)) && name != ""
    ensures GtestFailedName(line) == Some(name)
  {
  }

  // The last " (" is the one before the duration.
  lemma LastDuration(name: string, duration: string)
    requires ' ' !in duration && '(' !in duration
    ensures RSplitOnce(name + " (" + (duration + " ms)"), " (") == Some((name, duration + " ms)"))
  {
    var b := duration + " ms)";
    var s := name + " (" + b;
    HereIsPart(name, " (", b);
    LastIndexOfExactly(s, " (");
    assert '(' !in b;
    forall i: nat | i > |name| ensures !PartAt(s, " (", i) {
      if i + 2 <= |s| {
        assert s[i + 1] == b[i - 1 - |name|];
        assert s[i..i + 2][1] == s[i + 1];
      }
    }
  }

  // ---------------------------------------------------------------- libtest

  lemma RustFailedIsRead(name: string)
    requires name != ""
    ensures RustFailedName("test " + name + " ... FAILED") == Some(name)
  {
    assert "test " + name + " ... FAILED" == "test " + (name + " ... FAILED");
    PrefixGone("test ", name + " ... FAILED");
    SuffixGone(name, " ... FAILED");
  }

  lemma RustBlockIsRead(name: string, stderr: bool)
    requires name != ""
    ensures RustBlockName("---- " + name + (if stderr then " stderr" else " stdout") + " ----") == Some(name)
  {
    var body := name + if stderr then " stderr" else " stdout";
    assert "---- " + name + (if stderr then " stderr" else " stdout") + " ----" == "---- " + (body + " ----");
    PrefixGone("---- ", body + " ----");
    SuffixGone(body, " ----");
    SuffixGone(name, if stderr then " stderr" else " stdout");
    if stderr {
      SuffixDiffers(body, " stdout", 1);
    }
  }

  /** The thread of a test, where it panicked, and a trailing colon. */
  lemma RustPanicIsRead(name: string, path: string, line: u32, column: u32)
    requires name != "" && ' ' !in name && IsTrimmed(path)
    ensures RustPanic("thread '" + name + "' panicked at " + path + ":" + Show(line) + ":" + Show(column) + ":") ==
      Some(Panic(name, Some(Location(Bounded(path, 256), Some(line), Some(column), None, None))))
  {
    var place := path + ":" + Show(line) + ":" + Show(column);
    var thread, behind := name + "'", place + ":";
    var rest := thread + " panicked at " + behind;
    PanicParts(name, place);
    PanicEnds(name, path, Show(line), Show(column));
    PrefixGone("thread '", rest);
    Absent(' ', name, "'");
    SplitAtFirst(thread, " panicked at ", behind);
    SplitAtLast(name, "'", "");
    AppendNothing(thread);
    RustPlaceIsRead(path, line, column);
    RustPanicBy("thread '" + rest, rest, thread, behind, name);
  }

  lemma PanicParts(name: string, place: string)
    ensures "thread '" + name + "' panicked at " + (place + ":") == "thread '" + (name + "'" + " panicked at " + (place + ":"))
  {
  }

  lemma PanicEnds(name: string, path: string, line: string, column: string)
    ensures "thread '" + name + "' panicked at " + path + ":" + line + ":" + column + ":" ==
      "thread '" + name + "' panicked at " + (path + ":" + line + ":" + column + ":")
  {
  }

  lemma RustPanicBy(text: string, rest: string, thread: string, behind: string, name: string)
    requires StripPrefix(text, "thread '") == Some(rest) && SplitOnce(rest, " panicked at ") == Some((thread, behind))
    requires RSplitOnce(thread, "'") == Some((name, "")) && name != ""
    ensures RustPanic(text) == Some(Panic(name, RustLocation(behind)))
  {
  }

  lemma RustPlaceIsRead(path: string, line: u32, column: u32)
    requires IsTrimmed(path)
    ensures RustLocation(path + ":" + Show(line) + ":" + Show(column) + ":") ==
      Some(Location(Bounded(path, 256), Some(line), Some(column), None, None))
  {
    var before := path + ":" + Show(line);
    var place := before + ":" + Show(column);
    NumberIsRead(line);
    NumberIsRead(column);
    assert place[0] == path[0] && place[|place| - 1] == Show(column)[|Show(column)| - 1];
    TrimNothing(place + ":");
    ColonGone(place);
    SplitAtLast(before, ":", Show(column));
    SplitAtLast(path, ":", Show(line));
    TrimNothing(path);
    RustPlaceBy(place + ":", place, before, path, Show(line), Show(column));
  }

  lemma RustPlaceBy(text: string, place: string, before: string, path: string, line: string, column: string)
    requires TrimEndOf(Trim(text), ':') == place && RSplitOnce(place, ":") == Some((before, column))
    requires RSplitOnce(before, ":") == Some((path, line)) && Trim(path) == path && path != ""
    requires ParseU32(line).Some? && ParseU32(column).Some?
    ensures RustLocation(text) == Some(Location(Bounded(path, 256), ParseU32(line), ParseU32(column), None, None))
  {
  }

  lemma ColonGone(s: string)
    requires s != "" && s[|s| - 1] != ':'
    ensures TrimEndOf(s + ":", ':') == s
  {
    InitOfAppend(s, ':');
  }

  // ---------------------------------------------------------------- rustc

  /** The header of an error with its code. */
  lemma RustcHeaderIsRead(digits: string, message: string)
    requires digits != "" && IsDigits(digits) && IsTrimmed(message)
    ensures RustCompiler.ParseHeader("error[E" + digits + "]: " + message) == Some("E" + digits + ": " + message)
  {
    var code := "E" + digits;
    var rest := code + "]: " + message;
    var line := "error[" + rest;
    assert "error[E" + digits + "]: " + message == line;
    assert line[0] == 'e' && line[|line| - 1] == message[|message| - 1];
    TrimNothing(line);
    assert !("ERROR: " <= line);
    PrefixGone("error[", rest);
    assert ']' !in code;
    SplitAtFirst(code, "]: ", message);
    TrimNothing(message);
    assert code[1..] == digits;
  }

  /** An arrow and a place. */
  lemma RustcPlaceIsRead(indent: string, path: string, line: u32, column: u32)
    requires IsBlank(indent) && path != ""
    ensures RustCompiler.ParseLocation(indent + "--> " + path + ":" + Show(line) + ":" + Show(column)) ==
      Some(Location(NormalizePath(path), Some(line), Some(column), None, None))
  {
    var before := path + ":" + Show(line);
    var place := before + ":" + Show(column);
    var arrow := "--> " + place;
    NumberIsRead(line);
    NumberIsRead(column);
    ArrowParts(indent, path, Show(line), Show(column));
    LastOf("--> " + before + ":", Show(column));
    ArrowEnds(before, Show(column));
    TrimPadded(indent, arrow, "");
    AppendNothing(indent + arrow);
    PrefixGone("--> ", place);
    SplitAtLast(before, ":", Show(column));
    SplitAtLast(path, ":", Show(line));
    RustcPlaceBy(indent + arrow, place, before, path, Show(line), Show(column));
  }

  lemma ArrowParts(indent: string, path: string, line: string, column: string)
    ensures indent + "--> " + path + ":" + line + ":" + column == indent + ("--> " + (path + ":" + line + ":" + column))
  {
  }

  lemma ArrowEnds(before: string, column: string)
    ensures "--> " + before + ":" + column == "--> " + (before + ":" + column)
  {
  }

  lemma RustcPlaceBy(text: string, place: string, before: string, path: string, line: string, column: string)
    requires StripPrefix(Trim(text), "--> ") == Some(place) && RSplitOnce(place, ":") == Some((before, column))
    requires RSplitOnce(before, ":") == Some((path, line)) && path != "" && ParseU32(line).Some? && ParseU32(column).Some?
    ensures RustCompiler.ParseLocation(text) == Some(Location(NormalizePath(path), ParseU32(line), ParseU32(column), None, None))
  {
  }

  /** What was expected and what was found, behind whatever margin. */
  lemma RustcDetailIsRead(margin: string, before: string, expected: string, found: string)
    requires IsBlank(margin) && IsTrimmed(before) && 'e' !in before
    ensures var said := "expected `" + expected + "`, found `" + found + "`";
      RustCompiler.ParseDetail(margin + ("| " + (before + said))) == Some(said)
  {
    var said := "expected `" + expected + "`, found `" + found + "`";
    SaidEnds(expected, found);
    ExpectedIsFirst(before, expected, found);
    FoundBehind(expected, found);
    BehindBar(margin, before, said);
    DetailBy(margin + ("| " + (before + said)), before + said, |before|, said);
  }

  lemma BehindBar(margin: string, before: string, said: string)
    requires IsBlank(margin) && IsTrimmed(before) && said != "" && !IsWhitespace(said[|said| - 1])
    ensures StripPrefix(Trim(margin + ("| " + (before + said))), "|") == Some(" " + (before + said))
    ensures Trim(" " + (before + said)) == before + said
  {
    var text := before + said;
    var line := "| " + text;
    FirstOf(before, said);
    LastOf(before, said);
    LastOf("| ", text);
    FirstOf("| ", text);
    TrimPadded(margin, line, "");
    AppendNothing(margin + line);
    BarParts(text);
    PrefixGone("|", " " + text);
    TrimAfter(text);
  }

  lemma BarParts(text: string)
    ensures "| " + text == "|" + (" " + text)
  {
  }

  lemma SaidEnds(expected: string, found: string)
    ensures var said := "expected `" + expected + "`, found `" + found + "`"; said != "" && said[|said| - 1] == '`'
  {
  }

  lemma ExpectedIsFirst(before: string, expected: string, found: string)
    requires 'e' !in before
    ensures var said := "expected `" + expected + "`, found `" + found + "`";
      IndexOf(before + said, "expected `") == Some(|before|) && (before + said)[|before|..] == said
  {
    var behind := expected + "`, found `" + found + "`";
    SaidParts(expected, found);
    SplitAtFirst(before, "expected `", behind);
    AppendAssociates(before, "expected `", behind);
    Halves(before, "expected `" + behind);
  }

  lemma SaidParts(expected: string, found: string)
    ensures "expected `" + expected + "`, found `" + found + "`" == "expected `" + (expected + "`, found `" + found + "`")
  {
  }

  lemma FoundBehind(expected: string, found: string)
    ensures Contains("expected `" + expected + "`, found `" + found + "`", "found `")
  {
    var a, b := "expected `" + expected + "`, ", found + "`";
    FoundParts(expected, found);
    HereIsPart(a, "found `", b);
    ContainsIsPart(a + "found `" + b, "found `");
  }

  lemma FoundParts(expected: string, found: string)
    ensures "expected `" + expected + "`, found `" + found + "`" == "expected `" + expected + "`, " + "found `" + (found + "`")
  {
  }

  lemma DetailBy(raw: string, text: string, k: nat, said: string)
    requires StripPrefix(Trim(raw), "|") == Some(" " + text) && Trim(" " + text) == text
    requires IndexOf(text, "expected `") == Some(k) && text[k..] == said && Contains(said, "found `")
    ensures RustCompiler.ParseDetail(raw) == Some(said)
  {
  }

  // ---------------------------------------------------------------- javac

  /** A Java file, a line, a severity and a message; with a column between them as well. */
  lemma JavacLineIsRead(path: string, line: u32, column: Option<u32>, severity: Severity, message: string)
    requires IsTrimmed(path) && !("ERROR: " <= path + ".java") && IsTrimmed(message) && '.' !in message
    requires severity == Error || severity == Warning
    ensures JavaCompiler.ParseDiagnostic(JavacLine(path, line, column, severity, message)) ==
      Some(Diagnostic(severity, Compiler, None, message,
        Some(Location(NormalizePath(path + ".java"), Some(line), column, None, None)), None, Located, 1))
  {
    var word := if severity == Error then "error:" else "warning:";
    var said := word + " " + message;
    var behind := Columned(column) + " " + said;
    BehindHasNoDot(column, word, message);
    NoDot(line);
    NumberSplit(line, behind);
    JavacBehind(column, word, message);
    JavacMessageIsRead(severity, message, said);
    BehindBy(path + ".java", Show(line) + ":" + behind, line, behind, column, said, severity, message);
    JavacOn(path, Show(line) + ":", behind);
    JavacLineParts(path, Show(line), Columned(column), word, message);
    NumberParts(Show(line), behind);
  }

  lemma NumberParts(number: string, behind: string)
    ensures number + ":" + behind == number + (":" + behind)
    ensures '.' !in number ==> '.' !in number + ":"
  {
  }

  // The same for any text behind the file.
  lemma JavacOn(path: string, number: string, behind: string)
    requires IsTrimmed(path) && !("ERROR: " <= path + ".java") && '.' !in number && '.' !in behind
    ensures JavaCompiler.ParseDiagnostic(path + ".java:" + (number + behind)) == JavaCompiler.ParseBehind(path + ".java", number + behind)
  {
    JavacSplit(path, number, behind);
    JavacFileIs(path, number + behind);
    JavacAt(path + ".java:" + (number + behind), |path|);
  }

  lemma JavacAt(line: string, marker: nat)
    requires marker + |".java"| < |line| && LastIndexOf(line, ".java:") == Some(marker)
    ensures JavaCompiler.FileEnd(line) == marker + |".java"|
  {
  }

  lemma JavacSplit(path: string, number: string, behind: string)
    requires '.' !in number && '.' !in behind
    ensures LastIndexOf(path + ".java:" + (number + behind), ".java:") == Some(|path|)
  {
    Absent('.', number, behind);
    SplitAtLast(path, ".java:", number + behind);
  }

  lemma JavacFileIs(path: string, rest: string)
    requires IsTrimmed(path) && !("ERROR: " <= path + ".java")
    ensures var line := path + ".java:" + rest;
      |path| + |".java"| < |line| && JavaCompiler.ParseDiagnosticAt(line, |path| + |".java"|) == JavaCompiler.ParseBehind(path + ".java", rest)
  {
    CutBehindJava(path, rest);
    FirstOf(path, ".java");
    TrimNothing(path + ".java");
  }

  // A column and its colon, if any.
  function Columned(column: Option<u32>): string {
    if column.Some? then Show(column.value) + ":" else ""
  }

  lemma BehindHasNoDot(column: Option<u32>, word: string, message: string)
    requires '.' !in message && '.' !in word
    ensures '.' !in Columned(column) + " " + (word + " " + message)
  {
    if column.Some? {
      NoDot(column.value);
    }
    Absent('.', word + " ", message);
    Absent('.', Columned(column) + " ", word + " " + message);
  }

  lemma CutBehindJava(path: string, rest: string)
    ensures var line := path + ".java:" + rest;
      |path| + 6 <= |line| && line[..|path| + 5] == path + ".java" && line[|path| + 6..] == rest
  {
  }

  // path.java:line: error: message, or path.java:line:column: error: message.
  function JavacLine(path: string, line: u32, column: Option<u32>, severity: Severity, message: string): string {
    path + ".java:" + Show(line) + ":" + Columned(column) + " " + (if severity == Error then "error:" else "warning:") + " " + message
  }

  lemma JavacLineParts(path: string, line: string, column: string, word: string, message: string)
    ensures path + ".java:" + line + ":" + column + " " + word + " " + message ==
      path + ".java:" + (line + ":" + (column + " " + (word + " " + message)))
  {
    AppendAssociates(word, " ", message);
    var said := word + " " + message;
    assert path + ".java:" + line + ":" + column + " " + word + " " + message == path + ".java:" + line + ":" + column + " " + said;
    AppendAssociates(column, " ", said);
    var behind := column + " " + said;
    assert path + ".java:" + line + ":" + column + " " + said == path + ".java:" + line + ":" + behind;
  }

  lemma JavacMessageIsRead(severity: Severity, message: string, said: string)
    requires IsTrimmed(message) && (severity == Error || severity == Warning)
    requires said == (if severity == Error then "error:" else "warning:") + " " + message
    ensures JavaCompiler.ParseMessage(said) == Some(JavaCompiler.Message(severity, message))
  {
    var word := if severity == Error then "error:" else "warning:";
    assert said == word + (" " + message);
    PrefixGone(word, " " + message);
    TrimAfter(message);
    if severity == Warning {
      PrefixDiffers(said, "error:", 0);
    }
  }

  lemma BehindBy(file: string, rest: string, line: u32, behind: string, column: Option<u32>, said: string,
                 severity: Severity, message: string)
    requires JavaCompiler.SplitNumber(rest) == Some((line, behind))
    requires JavaCompiler.SplitNumber(behind).None? ==> column == None && Trim(behind) == said
    requires JavaCompiler.SplitNumber(behind).Some? ==>
      column == Some(JavaCompiler.SplitNumber(behind).value.0) && Trim(JavaCompiler.SplitNumber(behind).value.1) == said
    requires JavaCompiler.ParseMessage(said) == Some(JavaCompiler.Message(severity, message)) && message != ""
    ensures JavaCompiler.ParseBehind(file, rest) ==
      Some(Diagnostic(severity, Compiler, None, message, Some(Location(NormalizePath(file), Some(line), column, None, None)), None, Located, 1))
  {
  }

  lemma NumberSplit(n: u32, rest: string)
    ensures JavaCompiler.SplitNumber(Show(n) + ":" + rest) == Some((n, rest))
  {
    NumberIsRead(n);
    SplitAtFirst(Show(n), ":", rest);
    TrimNothing(Show(n));
  }

  lemma NoNumber(word: string, rest: string)
    requires word == "error" || word == "warning"
    ensures JavaCompiler.SplitNumber(" " + word + ":" + rest).None?
  {
    SplitAtFirst(" " + word, ":", rest);
    TrimAfter(word);
    assert !IsDigit(word[0]);
  }

  lemma JavacBehind(column: Option<u32>, word: string, message: string)
    requires word == "error:" || word == "warning:"
    requires IsTrimmed(message)
    ensures var said := word + " " + message;
      var behind := Columned(column) + " " + said;
      var columned := JavaCompiler.SplitNumber(behind);
      && (columned.None? ==> column == None && Trim(behind) == said)
      && (columned.Some? ==> column == Some(columned.value.0) && Trim(columned.value.1) == said)
  {
    var said := word + " " + message;
    assert said[|said| - 1] == message[|message| - 1] && said[0] == word[0];
    TrimAfter(said);
    if column.Some? {
      assert Show(column.value) + ":" + " " + said == Show(column.value) + ":" + (" " + said);
      NumberSplit(column.value, " " + said);
    } else {
      var bare := word[..|word| - 1];
      assert "" + " " + said == " " + bare + ":" + (" " + message);
      NoNumber(bare, " " + message);
    }
  }

  // ---------------------------------------------------------------- Java traces

  // A qualified class name: a package and a class of the right kind.
  predicate IsThrowable(package: string, class_: string) {
    && IsIdentifier(package) && IsIdentifier(class_) && '.' !in class_
    && (EndsWith(class_, "Error") || EndsWith(class_, "Exception") || EndsWith(class_, "Failure"))
  }

  lemma IdentifierHas(s: string, c: char)
    requires IsIdentifier(s) && c in s
    ensures c != ':' && c != ' ' && c != '"' && c != '(' && c != '/' && !IsWhitespace(c)
  {
  }

  lemma IdentifierConcat(a: string, b: string)
    requires IsIdentifier(a) && IsIdentifier(b)
    ensures IsIdentifier(a + "." + b)
  {
  }

  /** A throwable of a package, with what is said behind a colon, if anything; explicit behind "Caused by: ". */
  lemma JavaExceptionIsRead(package: string, class_: string, said: string, caused: bool)
    requires package != "" && IsThrowable(package, class_) && (said == "" || IsTrimmed(said))
    ensures var message := package + "." + class_ + (if said == "" then "" else ": " + said);
      JavaTraces.ParseException((if caused then "Caused by: " else "") + message) == Some(JavaTraces.ExceptionLine(message, caused))
  {
    var type_ := package + "." + class_;
    var message := type_ + if said == "" then "" else ": " + said;
    var line := (if caused then "Caused by: " else "") + message;
    IdentifierConcat(package, class_);
    TypeBefore(type_, said);
    SplitAtLast(package, ".", class_);
    ContainsIsPart(type_, ".");
    HereIsPart(package, ".", class_);
    MessageIsTrimmed(type_, said, message);
    UnmarkedMessage(type_, message);
    MarkedLine(line, message, caused);
    JavaExceptionBy(line, message, caused, type_, class_);
  }

  lemma MessageIsTrimmed(type_: string, said: string, message: string)
    requires IsIdentifier(type_) && type_ != "" && (said == "" || IsTrimmed(said))
    requires message == type_ + if said == "" then "" else ": " + said
    ensures IsTrimmed(message)
  {
    assert type_[0] in type_ && type_[|type_| - 1] in type_;
    IdentifierHas(type_, type_[0]);
    IdentifierHas(type_, type_[|type_| - 1]);
  }

  lemma MarkedLine(line: string, message: string, caused: bool)
    requires IsTrimmed(message) && line == (if caused then "Caused by: " else "") + message
    requires !("Exception in thread \"" <= message) && !("Caused by: " <= message)
    ensures JavaTraces.WithoutMarker(Trim(line)) == Some(JavaTraces.ExceptionLine(message, caused))
  {
    TrimNothing(line);
    if caused {
      PrefixGone("Caused by: ", message);
      PrefixDiffers(line, "Exception in thread \"", 0);
    } else {
      assert line == message;
    }
  }

  lemma JavaExceptionBy(raw: string, message: string, explicit: bool, type_: string, class_: string)
    requires JavaTraces.WithoutMarker(Trim(raw)) == Some(JavaTraces.ExceptionLine(message, explicit))
    requires Before(message, ":") == type_ && AfterLast(type_, ".") == class_ && type_ != "" && IsIdentifier(type_)
    requires EndsWith(class_, "Error") || EndsWith(class_, "Exception") || EndsWith(class_, "Failure")
    requires Contains(type_, ".")
    ensures JavaTraces.ParseException(raw) == Some(JavaTraces.ExceptionLine(message, explicit))
  {
  }

  lemma TypeBefore(type_: string, said: string)
    requires IsIdentifier(type_)
    ensures Before(type_ + (if said == "" then "" else ": " + said), ":") == type_
  {
    forall c | c in type_ ensures c != ':' {
      IdentifierHas(type_, c);
    }
    if said == "" {
      assert type_ + "" == type_;
      PartNeeds(type_, ":");
    } else {
      var behind := " " + said;
      assert type_ + (": " + said) == type_ + ":" + behind;
      SplitAtFirst(type_, ":", behind);
    }
  }

  // A message that starts with a class name has no marker: markers have a space in them.
  lemma UnmarkedMessage(type_: string, message: string)
    requires IsIdentifier(type_) && type_ != "" && type_ <= message && (|message| == |type_| || message[|type_|] == ':')
    ensures !("Exception in thread \"" <= message) && !("Caused by: " <= message)
  {
    MarkerDiffers(type_, message, "Exception in thread \"", 9);
    MarkerDiffers(type_, message, "Caused by: ", 6);
  }

  lemma MarkerDiffers(type_: string, message: string, marker: string, k: nat)
    requires IsIdentifier(type_) && type_ <= message && (|message| == |type_| || message[|type_|] == ':')
    requires k < |marker| && marker[k] == ' ' && forall i | 0 <= i < k :: marker[i] != ':'
    ensures !(marker <= message)
  {
    if k < |type_| {
      assert message[k] == type_[k] && type_[k] in type_;
      IdentifierHas(type_, type_[k]);
      PrefixDiffers(message, marker, k);
    } else {
      PrefixDiffers(message, marker, |type_|);
    }
  }

  /** A frame of a method of a class in a package: its place is the file below the package's directories. */
  lemma JavaFrameIsRead(package: string, class_: string, method_: string, file: string, n: u32)
    requires IsIdentifier(package) && IsIdentifier(class_) && IsIdentifier(method_) && package != ""
    requires '.' !in class_ && '.' !in method_ && ')' !in file && file != "" && ':' !in file
    ensures var callable := package + "." + class_ + "." + method_;
      JavaTraces.ParseFrame("at " + callable + "(" + file + ".java:" + Show(n) + ")") ==
        Some(JavaTraces.StackFrame(
          Location(Replace(package, '.', "/") + "/" + (file + ".java"), Some(n), None, None, None),
          StartsWithAny(callable, ["java.", "javax.", "jdk.", "sun.", "junit.", "org.junit.", "org.hamcrest.", "org.opentest4j.",
                                   "com.google.testing.junit."])))
  {
    var className := package + "." + class_;
    var callable, place, number := className + "." + method_, file + ".java", Show(n);
    NumberIsRead(n);
    CallableIs(package, class_, method_);
    SuffixGone(file, ".java");
    JavaFrameOn(callable, place, number);
    FrameParts(callable, file, number);
    JavaFrameBy("at " + (callable + "(" + (place + ":" + number + ")")), callable + "(" + (place + ":" + number + ")"), callable,
      place + ":" + number + ")", place + ":" + number, place, number, className, method_, package, class_);
  }

  lemma FrameParts(callable: string, file: string, number: string)
    ensures "at " + callable + "(" + file + ".java:" + number + ")" == "at " + (callable + "(" + (file + ".java" + ":" + number + ")"))
  {
  }

  // A qualified method has neither parentheses nor slashes, and its last two dots part it.
  lemma CallableIs(package: string, class_: string, method_: string)
    requires IsIdentifier(package) && IsIdentifier(class_) && IsIdentifier(method_) && '.' !in class_ && '.' !in method_
    ensures var className := package + "." + class_;
      var callable := className + "." + method_;
      && '(' !in callable && '/' !in callable
      && RSplitOnce(callable, ".") == Some((className, method_)) && RSplitOnce(className, ".") == Some((package, class_))
  {
    var className := package + "." + class_;
    var callable := className + "." + method_;
    IdentifierConcat(package, class_);
    IdentifierConcat(className, method_);
    forall c | c in callable ensures c != '(' && c != '/' {
      IdentifierHas(callable, c);
    }
    SplitAtLast(className, ".", method_);
    SplitAtLast(package, ".", class_);
  }

  lemma JavaFrameOn(callable: string, place: string, number: string)
    requires '(' !in callable && '/' !in callable && ':' !in number
    ensures var source := place + ":" + number;
      var frame := callable + "(" + (source + ")");
      && StripPrefix(Trim("at " + frame), "at ") == Some(frame) && SplitOnce(frame, "(") == Some((callable, source + ")"))
      && StripSuffix(source + ")", ")") == Some(source) && RSplitOnce(source, ":") == Some((place, number))
      && RSplitOnce(callable, "/").None?
  {
    var source := place + ":" + number;
    var frame := callable + "(" + (source + ")");
    LastOf("at " + callable + "(" + source, ")");
    FrameEnds(callable, source);
    TrimNothing("at " + frame);
    PrefixGone("at ", frame);
    SplitAtFirst(callable, "(", source + ")");
    SuffixGone(source, ")");
    ColonIsLast(place, number);
    PartNeeds(callable, "/");
  }

  lemma ColonIsLast(place: string, number: string)
    requires ':' !in number
    ensures RSplitOnce(place + ":" + number, ":") == Some((place, number))
  {
    SplitAtLast(place, ":", number);
  }

  lemma FrameEnds(callable: string, source: string)
    ensures var line := "at " + (callable + "(" + (source + ")")); line[0] == 'a' && line[|line| - 1] == ')'
  {
  }

  lemma JavaFrameBy(line: string, frame: string, callable: string, behind: string, source: string, place: string, number: string,
                    className: string, method_: string, package: string, class_: string)
    requires StripPrefix(Trim(line), "at ") == Some(frame) && SplitOnce(frame, "(") == Some((callable, behind))
    requires StripSuffix(behind, ")") == Some(source) && RSplitOnce(source, ":") == Some((place, number))
    requires RSplitOnce(callable, "/").None? && EndsWith(place, ".java") && ParseU32(number).Some?
    requires RSplitOnce(callable, ".") == Some((className, method_)) && RSplitOnce(className, ".") == Some((package, class_))
    ensures JavaTraces.ParseFrame(line) ==
      Some(JavaTraces.StackFrame(Location(Replace(package, '.', "/") + "/" + place, ParseU32(number), None, None, None),
        StartsWithAny(callable, ["java.", "javax.", "jdk.", "sun.", "junit.", "org.junit.", "org.hamcrest.", "org.opentest4j.",
                                 "com.google.testing.junit."])))
  {
  }

  // ---------------------------------------------------------------- Node traces

  /** An error class and what is said about it. */
  lemma NodeExceptionIsRead(class_: string, said: string)
    requires IsIdentifier(class_) && (EndsWith(class_, "Error") || EndsWith(class_, "Exception")) && IsTrimmed(said)
    ensures NodeTraces.ExceptionMessage(class_ + ": " + said) == Some(class_ + ": " + said)
  {
    var line := class_ + ": " + said;
    assert class_ != "";
    assert class_[0] in class_;
    forall c | c in class_ ensures c != ':' && !IsWhitespace(c) {
      IdentifierHas(class_, c);
    }
    assert line[0] == class_[0] && line[|line| - 1] == said[|said| - 1];
    TrimNothing(line);
    assert line == class_ + ":" + (" " + said);
    SplitAtFirst(class_, ":", " " + said);
    assert TrimStart(class_) == class_;
    WordIsAll(class_);
  }

  lemma {:induction false} WordIsAll(s: string)
    requires forall c | c in s :: !IsWhitespace(c)
    ensures Word(s) == s
  {
    if s != "" {
      assert s[0] in s;
      forall c | c in s[1..] ensures c in s {
      }
      WordIsAll(s[1..]);
      assert s == [s[0]] + s[1..];
    }
  }

  // The places in a text where a path with one of the extensions can end.
  ghost predicate OnlyEndsAt(value: string, end: nat) {
    forall e, k: nat | 0 <= e < |NodeTraces.EXTENSIONS| && PartAt(value, NodeTraces.EXTENSIONS[e] + ":", k) ::
      k + |NodeTraces.EXTENSIONS[e]| == end
  }

  lemma {:induction false} PathEndIs(value: string, n: nat, end: nat, e: nat)
    requires n <= |NodeTraces.EXTENSIONS| && OnlyEndsAt(value, end) && e < |NodeTraces.EXTENSIONS|
    requires |NodeTraces.EXTENSIONS[e]| <= end && PartAt(value, NodeTraces.EXTENSIONS[e] + ":", end - |NodeTraces.EXTENSIONS[e]|)
    ensures NodeTraces.PathEnd(value, n) == end || (n <= e && NodeTraces.PathEnd(value, n) == 0)
  {
    if n > 0 {
      PathEndIs(value, n - 1, end, e);
      LastIndexOfExactly(value, NodeTraces.EXTENSIONS[n - 1] + ":");
    }
  }

  predicate IsLetterAtEnd(ext: string) {
    ext != "" && ':' !in ext && !IsDigit(ext[|ext| - 1])
  }

  lemma ExtensionsAreWords(e: nat)
    requires e < |NodeTraces.EXTENSIONS|
    ensures IsLetterAtEnd(NodeTraces.EXTENSIONS[e]) && NodeTraces.EXTENSIONS[e][0] == '.'
    ensures '"' !in NodeTraces.EXTENSIONS[e] && '(' !in NodeTraces.EXTENSIONS[e]
  {
  }

  // The only colon behind something other than a digit is the one behind the path.
  lemma ColonsBehindDigits(file: string, line: string, rest: string)
    requires ':' !in file && line != "" && IsDigits(line) && (rest == "" || (rest[0] == ':' && ':' !in rest[1..]))
    ensures var value := file + ":" + line + rest;
      forall i | 0 < i < |value| :: value[i] == ':' ==> i == |file| || IsDigit(value[i - 1])
  {
    var value := file + ":" + line + rest;
    forall i | 0 < i < |value| ensures value[i] == ':' ==> i == |file| || IsDigit(value[i - 1]) {
      var n := i - |file| - 1;
      if n < -1 {
        assert value[i] == file[i];
      } else if 0 <= n < |line| {
        assert value[i] == line[n] && IsDigit(line[n]);
      } else if n == |line| {
        assert value[i - 1] == line[n - 1] && IsDigit(line[n - 1]);
      } else if n > |line| {
        assert value[i] == rest[1..][n - |line| - 1];
      }
    }
  }

  lemma ColonBehind(file: string, line: string, rest: string, ext: string, k: nat)
    requires ':' !in file && line != "" && IsDigits(line) && (rest == "" || (rest[0] == ':' && ':' !in rest[1..]))
    requires IsLetterAtEnd(ext) && PartAt(file + ":" + line + rest, ext + ":", k)
    ensures k + |ext| == |file|
  {
    var value, at := file + ":" + line + rest, k + |ext|;
    ColonsBehindDigits(file, line, rest);
    assert value[k..k + |ext| + 1][|ext|] == value[at] && value[k..k + |ext| + 1][|ext| - 1] == value[at - 1];
  }

  lemma EndsAtFile(file: string, line: string, rest: string)
    requires ':' !in file && line != "" && IsDigits(line) && (rest == "" || (rest[0] == ':' && ':' !in rest[1..]))
    ensures OnlyEndsAt(file + ":" + line + rest, |file|)
  {
    var value := file + ":" + line + rest;
    forall e, k: nat | 0 <= e < |NodeTraces.EXTENSIONS| && PartAt(value, NodeTraces.EXTENSIONS[e] + ":", k)
      ensures k + |NodeTraces.EXTENSIONS[e]| == |file|
    {
      ExtensionsAreWords(e);
      ColonBehind(file, line, rest, NodeTraces.EXTENSIONS[e], k);
    }
  }

  lemma FileEndsIn(path: string, ext: string, behind: string)
    ensures PartAt(path + ext + ":" + behind, ext + ":", |path|)
  {
    assert path + ext + ":" + behind == path + (ext + ":") + behind;
    HereIsPart(path, ext + ":", behind);
  }

  // A line number, and a column behind another colon, if any.
  function Coordinates(line: u32, column: Option<u32>): string {
    Show(line) + if column.Some? then ":" + Show(column.value) else ""
  }

  lemma NoQuotes(s: string)
    requires s != "" && s[0] != '"' && s[|s| - 1] != '"'
    ensures TrimEndOf(TrimStartOf(s, '"'), '"') == s
  {
  }

  lemma CoordinatesAre(line: u32, column: Option<u32>)
    ensures var c := Coordinates(line, column);
      && IsTrimmed(c) && c[|c| - 1] != '"'
      && match column
         case None => SplitOnce(c, ":").None? && ParseU32(c) == Some(line)
         case Some(n) => SplitOnce(c, ":") == Some((Show(line), Show(n))) && ParseU32(Show(line)) == Some(line) && ParseU32(Show(n)) == Some(n)
  {
    NumberIsRead(line);
    ShowIsDecimal(line);
    match column
    case None =>
      AppendNothing(Show(line));
      PartNeeds(Show(line), ":");
      assert IsDigit(Show(line)[|Show(line)| - 1]);
    case Some(n) =>
      NumberIsRead(n);
      ShowIsDecimal(n);
      assert IsDigit(Show(n)[|Show(n)| - 1]);
      AppendAssociates(Show(line), ":", Show(n));
      SplitAtFirst(Show(line), ":", Show(n));
  }

  /** A JavaScript or TypeScript file, a line, and perhaps a column. */
  lemma NodePlaceIsRead(path: string, e: nat, line: u32, column: Option<u32>)
    requires IsTrimmed(path) && ':' !in path && path[0] != '"' && e < |NodeTraces.EXTENSIONS|
    ensures var file := path + NodeTraces.EXTENSIONS[e];
      NodeTraces.ParseLocation(file + ":" + Coordinates(line, column)) == Some(Location(NormalizePath(file), Some(line), column, None, None))
  {
    var ext, c := NodeTraces.EXTENSIONS[e], Coordinates(line, column);
    var file := path + ext;
    var value := file + ":" + c;
    ExtensionsAreWords(e);
    CoordinatesAre(line, column);
    ValueEnds(path, ext, c);
    TrimNothing(value);
    NoQuotes(value);
    NodeEndIs(path, e, line, column);
    Halves(file, ":" + c);
    AppendAssociates(file, ":", c);
    PrefixGone(":", c);
    FileIsCompact(path, ext);
    NodePlaceBy(value, file, c, line, column);
  }

  lemma ValueEnds(path: string, ext: string, c: string)
    requires path != "" && c != ""
    ensures var value := path + ext + ":" + c; value[0] == path[0] && value[|value| - 1] == c[|c| - 1]
  {
  }

  lemma NodeEndIs(path: string, e: nat, line: u32, column: Option<u32>)
    requires ':' !in path && e < |NodeTraces.EXTENSIONS|
    ensures var file := path + NodeTraces.EXTENSIONS[e];
      NodeTraces.PathEnd(file + ":" + Coordinates(line, column), |NodeTraces.EXTENSIONS|) == |file|
  {
    var ext, rest := NodeTraces.EXTENSIONS[e], if column.Some? then ":" + Show(column.value) else "";
    var file := path + ext;
    ExtensionsAreWords(e);
    NumberIsRead(line);
    if column.Some? {
      NumberIsRead(column.value);
    }
    Absent(':', path, ext);
    EndsAtFile(file, Show(line), rest);
    AppendAssociates(file + ":", Show(line), rest);
    FileEndsIn(path, ext, Coordinates(line, column));
    PathEndIs(file + ":" + Coordinates(line, column), |NodeTraces.EXTENSIONS|, |file|, e);
  }

  lemma FileIsCompact(path: string, ext: string)
    requires path != "" && path[0] != '"' && ext != "" && '"' !in ext && ':' !in path && ':' !in ext
    ensures NodeTraces.CompactPath(path + ext) == NormalizePath(path + ext)
  {
    var file := path + ext;
    LastOf(path, ext);
    assert ext[|ext| - 1] in ext;
    NoQuotes(file);
    Absent(':', path, ext);
    NoScheme(file);
  }

  lemma NoScheme(file: string)
    requires ':' !in file
    ensures StripPrefix(file, "file://").None?
  {
    PrefixDiffers(file, "file://", 4);
  }

  lemma NodePlaceBy(value: string, file: string, c: string, line: u32, column: Option<u32>)
    requires TrimEndOf(TrimStartOf(Trim(value), '"'), '"') == value
    requires NodeTraces.PathEnd(value, |NodeTraces.EXTENSIONS|) == |file| > 0 && |file| <= |value| && value[..|file|] == file
    requires StripPrefix(value[|file|..], ":") == Some(c) && NodeTraces.CompactPath(file) == NormalizePath(file)
    requires match column
      case None => SplitOnce(c, ":").None? && ParseU32(c) == Some(line)
      case Some(n) => SplitOnce(c, ":") == Some((Show(line), Show(n))) && ParseU32(Show(line)) == Some(line) && ParseU32(Show(n)) == Some(n)
    ensures NodeTraces.ParseLocation(value) == Some(Location(NormalizePath(file), Some(line), column, None, None))
  {
  }

  // The frames of the runtime and of dependencies have no place of their own.
  predicate IsDependency(path: string) {
    Contains(path, "/node_modules/") || "node_modules/" <= path || Contains(path, "/external/")
  }

  /** A stack frame in parentheses: the place of an application frame, none for one of a dependency. */
  lemma NodeFrameIsRead(callable: string, path: string, e: nat, line: u32, column: Option<u32>)
    requires IsTrimmed(path) && ':' !in path && path[0] != '"' && '(' !in path && e < |NodeTraces.EXTENSIONS|
    ensures var file := path + NodeTraces.EXTENSIONS[e];
      var normal := NormalizePath(file);
      NodeTraces.ParseFrame("at " + (callable + "(" + (file + ":" + Coordinates(line, column) + ")"))) ==
        Some(if IsDependency(normal) then None else Some(Location(normal, Some(line), column, None, None)))
  {
    var file, c := path + NodeTraces.EXTENSIONS[e], Coordinates(line, column);
    var source := file + ":" + c;
    ExtensionsAreWords(e);
    FrameEnds(callable, source);
    TrimNothing("at " + (callable + "(" + (source + ")")));
    PrefixGone("at ", callable + "(" + (source + ")"));
    NoParenthesis(path, e, line, column);
    SplitAtLast(callable, "(", source + ")");
    SuffixGone(source, ")");
    NodePlaceIsRead(path, e, line, column);
    NotRuntime(path, NodeTraces.EXTENSIONS[e], c);
    NodeFrameBy("at " + (callable + "(" + (source + ")")), callable + "(" + (source + ")"), source,
      Location(NormalizePath(file), Some(line), column, None, None));
  }

  lemma NoParenthesis(path: string, e: nat, line: u32, column: Option<u32>)
    requires '(' !in path && e < |NodeTraces.EXTENSIONS|
    ensures '(' !in path + NodeTraces.EXTENSIONS[e] + ":" + Coordinates(line, column) + ")"
  {
    NumberIsRead(line);
    if column.Some? {
      NumberIsRead(column.value);
    }
    var ext, c := NodeTraces.EXTENSIONS[e], Coordinates(line, column);
    ExtensionsAreWords(e);
    Absent('(', Show(line), if column.Some? then ":" + Show(column.value) else "");
    Absent('(', path, ext);
    Absent('(', path + ext, ":");
    Absent('(', path + ext + ":", c);
    Absent('(', path + ext + ":" + c, ")");
  }

  lemma NotRuntime(path: string, ext: string, c: string)
    requires ':' !in path && path != "" && ext != "" && ext[0] == '.'
    ensures var source := path + ext + ":" + c;
      !("node:" <= source) && source != "native" && source != "<anonymous>"
  {
    var source := path + ext + ":" + c;
    assert source[|path|] == '.';
    assert forall i | 0 <= i < |path| :: source[i] == path[i];
    if |path| > 4 {
      PrefixDiffers(source, "node:", 4);
    } else {
      PrefixDiffers(source, "node:", |path|);
    }
    assert '.' !in "native" && '.' !in "<anonymous>";
  }

  lemma NodeFrameBy(text: string, frame: string, source: string, l: Location)
    requires StripPrefix(Trim(text), "at ") == Some(frame) && NodeTraces.FrameSource(frame) == Some(source)
    requires NodeTraces.ParseLocation(source) == Some(l)
    requires !("node:" <= source) && source != "native" && source != "<anonymous>"
    ensures NodeTraces.ParseFrame(text) == Some(if IsDependency(l.path) then None else Some(l))
  {
  }
}
