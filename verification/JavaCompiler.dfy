/** The javac reducer: one diagnostic for each line that names a Java source position, completed by the
    missing symbol that may follow it. */
module JavaCompiler {
  import opened Model
  import opened Text
  import opened Strings

  const MAX_CONTEXT_LINES := 8

  // A number before a colon, and what follows it.
  function SplitNumber(value: string): Option<(u32, string)> {
    match SplitOnce(value, ":")
    case None => None
    case Some(parts) =>
      var number := Trim(parts.0);
      if number == [] || !IsDigits(number) || ParseU32(number).None? then None
      else Some((ParseU32(number).value, parts.1))
  }

  datatype Message = Message(severity: Severity, text: string)

  function ParseMessage(text: string): Option<Message> {
    match StripPrefix(text, "error:")
    case Some(rest) => Some(Message(Error, Trim(rest)))
    case None => match StripPrefix(text, "warning:") case Some(rest) => Some(Message(Warning, Trim(rest))) case None => None
  }

  // What follows a file and its colon: a line, perhaps a column, and a message.
  function ParseBehind(path: string, rest: string): Option<Diagnostic> {
    match SplitNumber(rest)
    case None => None
    case Some(place) =>
      var columned := SplitNumber(place.1);
      var column := match columned case None => None case Some(parts) => Some(parts.0);
      match ParseMessage(Trim(match columned case None => place.1 case Some(parts) => parts.1))
      case None => None
      case Some(message) =>
        if message.text == [] then None
        else Some(Diagnostic(message.severity, Compiler, None, message.text,
                             Some(Location(NormalizePath(path), Some(place.0), column, None, None)), None, Located, 1))
  }

  // A path without the mark of a build tool.
  function Unmarked(path: string): string {
    match StripPrefix(path, "ERROR: ") case None => path case Some(rest) => rest
  }

  function ParseDiagnosticAt(line: string, end: nat): Option<Diagnostic>
    requires end < |line|
  {
    ParseBehind(Unmarked(Trim(line[..end])), line[end + 1..])
  }

  // Where the last Java file that a line names ends, or the end of the line.
  function FileEnd(line: string): (end: nat)
    ensures end <= |line|
  {
    match LastIndexOf(line, ".java:") case None => |line| case Some(marker) => marker + |".java"|
  }

  function ParseDiagnostic(line: string): Option<Diagnostic> {
    if FileEnd(line) == |line| then None else ParseDiagnosticAt(line, FileEnd(line))
  }

  function Words(s: string): seq<string>
    decreases |s|
  {
    TrimStartShorter(s);
    var t := TrimStart(s);
    if t == [] then [] else WordIsPart(t); [Word(t)] + Words(t[|Word(t)|..])
  }

  lemma {:induction false} TrimStartShorter(s: string)
    ensures |TrimStart(s)| <= |s|
    ensures TrimStart(s) != [] ==> Word(TrimStart(s)) != []
  {
    if s != [] {
      TrimStartShorter(s[1..]);
    }
  }

  // The symbol named in the context of a diagnostic, before the next diagnostic.
  function SymbolOf(context: seq<string>, n: nat): Option<string> {
    if context == [] || n == 0 || ParseDiagnostic(context[0]).Some? || StartsWith(TrimStart(context[0]), "ERROR:") then None
    else
      match StripPrefix(Trim(context[0]), "symbol:")
      case Some(symbol) => Some(Join(Words(symbol), ' '))
      case None => SymbolOf(context[1..], n - 1)
  }

  function Completed(d: Diagnostic, context: seq<string>): Diagnostic {
    if ToLower(d.message) != "cannot find symbol" then d
    else
      match SymbolOf(context, MAX_CONTEXT_LINES)
      case None => d
      case Some(symbol) => d.(message := "cannot find symbol: " + symbol)
  }

  function Diagnostics(lines: seq<string>): seq<Diagnostic> {
    if lines == [] then []
    else
      (match ParseDiagnostic(lines[0]) case None => [] case Some(d) => [Completed(d, lines[1..])]) + Diagnostics(lines[1..])
  }

  method FindSymbol(lines: seq<string>, start: nat) returns (symbol: Option<string>)
    requires start <= |lines|
    ensures symbol == SymbolOf(lines[start..], MAX_CONTEXT_LINES)
  {
    var i := start;
    while i < |lines| && i < start + MAX_CONTEXT_LINES
      invariant start <= i <= |lines| && i <= start + MAX_CONTEXT_LINES
      invariant SymbolOf(lines[start..], MAX_CONTEXT_LINES) == SymbolOf(lines[i..], start + MAX_CONTEXT_LINES - i)
    {
      assert lines[i..][1..] == lines[i + 1..];
      if ParseDiagnostic(lines[i]).Some? || StartsWith(TrimStart(lines[i]), "ERROR:") {
        return None;
      }
      var named := StripPrefix(Trim(lines[i]), "symbol:");
      if named.Some? {
        return Some(Join(Words(named.value), ' '));
      }
      i := i + 1;
    }
    symbol := None;
  }

  method ParseDiagnostics(input: string) returns (diagnostics: seq<Diagnostic>)
    ensures diagnostics == Diagnostics(Lines(input))
  {
    diagnostics := [];
    var lines := Lines(input);
    assert lines[0..] == lines;
    for i := 0 to |lines|
      invariant diagnostics + Diagnostics(lines[i..]) == Diagnostics(lines)
    {
      var found := FindCompleted(lines, i);
      NextDiagnostic(lines, i, found);
      ghost var rest := Diagnostics(lines[i + 1..]);
      assert diagnostics + (found + rest) == (diagnostics + found) + rest;
      diagnostics := diagnostics + found;
    }
  }

  method FindCompleted(lines: seq<string>, i: nat) returns (found: seq<Diagnostic>)
    requires i < |lines|
    ensures found == match ParseDiagnostic(lines[i]) case None => [] case Some(d) => [Completed(d, lines[i + 1..])]
  {
    var parsed := ParseDiagnostic(lines[i]);
    if parsed.None? {
      return [];
    }
    var diagnostic := parsed.value;
    if ToLower(diagnostic.message) == "cannot find symbol" {
      var symbol := FindSymbol(lines, i + 1);
      if symbol.Some? {
        diagnostic := diagnostic.(message := "cannot find symbol: " + symbol.value);
      }
    }
    found := [diagnostic];
  }

  lemma NextDiagnostic(lines: seq<string>, i: nat, found: seq<Diagnostic>)
    requires i < |lines|
    requires found == match ParseDiagnostic(lines[i]) case None => [] case Some(d) => [Completed(d, lines[i + 1..])]
    ensures Diagnostics(lines[i..]) == found + Diagnostics(lines[i + 1..])
  {
    assert lines[i..][0] == lines[i] && lines[i..][1..] == lines[i + 1..];
  }

  // ---------------------------------------------------------------- what a diagnostic says in the end

  // Gaps and words in turn.
  function Interleaved(gaps: seq<string>, words: seq<string>): string
    requires |gaps| == |words| + 1
  {
    if words == [] then gaps[0] else gaps[0] + words[0] + Interleaved(gaps[1..], words[1..])
  }

  predicate AreGaps(gaps: seq<string>) {
    (forall i | 0 <= i < |gaps| :: IsBlank(gaps[i])) && forall i | 0 < i < |gaps| - 1 :: gaps[i] != ""
  }

  predicate AreWords(words: seq<string>) {
    forall i | 0 <= i < |words| :: words[i] != "" && forall k | 0 <= k < |words[i]| :: !IsWhitespace(words[i][k])
  }

  lemma {:induction false} WordIsWord(s: string)
    ensures forall k | 0 <= k < |Word(s)| :: !IsWhitespace(Word(s)[k])
    ensures Word(s) <= s && (|Word(s)| < |s| ==> IsWhitespace(s[|Word(s)|]))
  {
    if s != "" && !IsWhitespace(s[0]) {
      WordIsWord(s[1..]);
    }
  }

  lemma BlankStart(s: string)
    requires s != "" && IsWhitespace(s[0])
    ensures |TrimStart(s)| < |s|
  {
    TrimStartExactly(s[1..]);
  }

  // One more word in front.
  lemma InFront(gap: string, word: string, more: seq<string>, words: seq<string>)
    requires |more| == |words| + 1 && AreGaps(more) && AreWords(words) && IsBlank(gap)
    requires word != "" && (forall k | 0 <= k < |word| :: !IsWhitespace(word[k])) && (words != [] ==> more[0] != "")
    ensures AreGaps([gap] + more) && AreWords([word] + words)
    ensures Interleaved([gap] + more, [word] + words) == gap + word + Interleaved(more, words)
  {
    assert ([gap] + more)[1..] == more && ([word] + words)[1..] == words;
  }

  lemma CutWord(s: string, t: string, word: string)
    requires |t| <= |s| && t == s[|s| - |t|..] && word <= t
    ensures s == s[..|s| - |t|] + word + t[|word|..]
  {
  }

  /** The words of a text are what stands between its whitespace. */
  lemma {:induction false} WordsExactly(s: string) returns (gaps: seq<string>)
    ensures |gaps| == |Words(s)| + 1 && AreGaps(gaps) && AreWords(Words(s)) && s == Interleaved(gaps, Words(s))
    ensures s != "" && IsWhitespace(s[0]) ==> gaps[0] != ""
    decreases |s|
  {
    var t := TrimStart(s);
    TrimStartExactly(s);
    TrimStartShorter(s);
    if t == "" {
      gaps := [s];
      assert s[..|s|] == s;
    } else {
      var word := Word(t);
      WordIsWord(t);
      var rest := t[|word|..];
      var more := WordsExactly(rest);
      WordsBehind(rest, more);
      gaps := [s[..|s| - |t|]] + more;
      InFront(s[..|s| - |t|], word, more, Words(rest));
      CutWord(s, t, word);
      if IsWhitespace(s[0]) {
        BlankStart(s);
      }
    }
  }

  // Behind a word there is a gap before the next one.
  lemma WordsBehind(rest: string, more: seq<string>)
    requires |more| == |Words(rest)| + 1 && (rest != "" && IsWhitespace(rest[0]) ==> more[0] != "")
    requires rest == "" || IsWhitespace(rest[0])
    ensures Words(rest) != [] ==> more[0] != ""
  {
  }

  // The line names another diagnostic.
  predicate IsAnother(line: string) {
    ParseDiagnostic(line).Some? || "ERROR:" <= TrimStart(line)
  }

  predicate NamesSymbol(line: string) {
    "symbol:" <= Trim(line)
  }

  // The first line that names a symbol, before another diagnostic.
  predicate IsSymbolLine(context: seq<string>, i: nat) {
    && i < |context| && NamesSymbol(context[i])
    && (forall k | 0 <= k <= i :: !IsAnother(context[k])) && forall k | 0 <= k < i :: !NamesSymbol(context[k])
  }

  lemma SymbolLineBehind(context: seq<string>, i: nat)
    requires context != [] && !IsAnother(context[0]) && !NamesSymbol(context[0])
    ensures IsSymbolLine(context, i + 1) <==> IsSymbolLine(context[1..], i)
  {
    var rest := context[1..];
    assert forall k | 0 <= k < |rest| :: rest[k] == context[k + 1];
    if IsSymbolLine(rest, i) {
      forall k | 0 <= k <= i + 1 ensures !IsAnother(context[k]) && (k < i + 1 ==> !NamesSymbol(context[k])) {
        if k > 0 {
          assert rest[k - 1] == context[k];
        }
      }
    }
    if IsSymbolLine(context, i + 1) {
      forall k | 0 <= k <= i ensures !IsAnother(rest[k]) && (k < i ==> !NamesSymbol(rest[k])) {
        assert rest[k] == context[k + 1];
      }
    }
  }

  lemma {:induction false} SymbolFound(context: seq<string>, i: nat, n: nat)
    requires i < n && IsSymbolLine(context, i)
    ensures SymbolOf(context, n) == Some(Join(Words(Trim(context[i])[7..]), ' '))
  {
    assert |"symbol:"| == 7;
    assert !IsAnother(context[0]);
    if i > 0 {
      assert !NamesSymbol(context[0]);
      SymbolLineBehind(context, i - 1);
      SymbolFound(context[1..], i - 1, n - 1);
    }
  }

  lemma {:induction false} SymbolMissing(context: seq<string>, n: nat)
    requires forall i: nat | i < n :: !IsSymbolLine(context, i)
    ensures SymbolOf(context, n) == None
  {
    if context != [] && n > 0 && !IsAnother(context[0]) {
      assert !IsSymbolLine(context, 0);
      forall i: nat | i < n - 1 ensures !IsSymbolLine(context[1..], i) {
        SymbolLineBehind(context, i);
      }
      SymbolMissing(context[1..], n - 1);
    }
  }

  /** A diagnostic that cannot find a symbol, in any case of letters, is completed by the first symbol named in
      the eight lines behind it and before another diagnostic; all others are left alone. */
  lemma CompletedExactly(d: Diagnostic, context: seq<string>)
    ensures ToLower(d.message) != "cannot find symbol" ==> Completed(d, context) == d
    ensures (forall i: nat | i < 8 :: !IsSymbolLine(context, i)) ==> Completed(d, context) == d
    ensures forall i: nat | i < 8 && IsSymbolLine(context, i) && ToLower(d.message) == "cannot find symbol" ::
      Completed(d, context) == d.(message := "cannot find symbol: " + Join(Words(Trim(context[i])[7..]), ' '))
  {
    if forall i: nat | i < 8 :: !IsSymbolLine(context, i) {
      SymbolMissing(context, 8);
    }
    forall i: nat | i < 8 && IsSymbolLine(context, i) && ToLower(d.message) == "cannot find symbol"
      ensures Completed(d, context) == d.(message := "cannot find symbol: " + Join(Words(Trim(context[i])[7..]), ' '))
    {
      SymbolFound(context, i, 8);
    }
  }
}
