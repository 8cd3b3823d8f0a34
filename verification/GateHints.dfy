/** What the scan over a text asks of its lines, told by the words they hold. */
module GateHints {
  import opened Model
  import opened Text
  import opened Strings
  import opened LineCounts
  import opened Gates

  // ---------------------------------------------------------------- candidates

  const KEYWORDS: seq<string> := [
    "undefined reference", "unresolved external symbol", "panicked at", "assertion", "FAILED", "Failure", "Exception", "Error"]

  ghost predicate HoldsOne(line: string, words: seq<string>) {
    exists i :: 0 <= i < |words| && IsPart(words[i], line)
  }

  lemma KeywordsAt(rest: string)
    ensures KeywordAt(rest) <==>
      "undefined reference" <= rest || "unresolved external symbol" <= rest || "panicked at" <= rest || "assertion" <= rest ||
      "FAILED" <= rest || "Failure" <= rest || "Exception" <= rest || "Error" <= rest
  {
  }

  lemma BeginsAt(line: string, word: string, i: nat)
    requires i <= |line|
    ensures word <= line[i..] <==> PartAt(line, word, i)
  {
    if PartAt(line, word, i) {
      assert line[i..][..|word|] == line[i..i + |word|];
    }
    if word <= line[i..] {
      assert line[i..i + |word|] == line[i..][..|word|];
    }
  }

  // Some keyword stands at a place exactly if the rest begins with it.
  lemma KeywordPlace(line: string, i: nat)
    requires i <= |line|
    ensures KeywordAt(line[i..]) <==> exists k :: 0 <= k < |KEYWORDS| && PartAt(line, KEYWORDS[k], i)
  {
    KeywordsAt(line[i..]);
    forall k | 0 <= k < |KEYWORDS| ensures KEYWORDS[k] <= line[i..] <==> PartAt(line, KEYWORDS[k], i) {
      BeginsAt(line, KEYWORDS[k], i);
    }
    assert KEYWORDS[0] == "undefined reference" && KEYWORDS[1] == "unresolved external symbol" && KEYWORDS[2] == "panicked at";
    assert KEYWORDS[3] == "assertion" && KEYWORDS[4] == "FAILED" && KEYWORDS[5] == "Failure";
    assert KEYWORDS[6] == "Exception" && KEYWORDS[7] == "Error" && |KEYWORDS| == 8;
  }

  /** A line holds a keyword exactly if one of the eight words occurs in it. */
  lemma KeywordExactly(line: string)
    ensures HasKeyword(line) <==> HoldsOne(line, KEYWORDS)
  {
    if HasKeyword(line) {
      var i :| 0 <= i < |line| && KeywordAt(line[i..]);
      KeywordPlace(line, i);
      var k :| 0 <= k < |KEYWORDS| && PartAt(line, KEYWORDS[k], i);
    }
    if HoldsOne(line, KEYWORDS) {
      var k :| 0 <= k < |KEYWORDS| && IsPart(KEYWORDS[k], line);
      var i: nat :| PartAt(line, KEYWORDS[k], i);
      KeywordPlace(line, i);
      KeywordsAreText(k);
    }
  }

  lemma KeywordsAreText(k: nat)
    requires k < |KEYWORDS|
    ensures KEYWORDS[k] != ""
  {
  }

  /** A line is a candidate exactly if, whitespace at its start aside, it holds a colon or a parenthesis, begins
      with one of four words or holds a keyword. */
  lemma CandidateExactly(raw: string)
    ensures var line := TrimStart(raw);
      IsCandidate(raw) <==>
        || (exists i :: 0 <= i < |line| && (line[i] == ':' || line[i] == '('))
        || "error " <= line || "failed" <= line || "fatal " <= line || "test " <= line
        || HoldsOne(line, KEYWORDS)
  {
    var line := TrimStart(raw);
    KeywordExactly(line);
    assert STARTS[0] == "error " && STARTS[1] == "failed" && STARTS[2] == "fatal " && STARTS[3] == "test ";
    assert StartsWith(line, STARTS[0]) || StartsWith(line, STARTS[1]) || StartsWith(line, STARTS[2]) || StartsWith(line, STARTS[3])
      ==> StartsWithAny(line, STARTS);
    assert (exists i :: 0 <= i < |line| && (line[i] == ':' || line[i] == '(')) ==> HasMark(line);
  }

  // ---------------------------------------------------------------- hints

  // Something other than lower-case words: a mark, an upper-case letter or a character outside ASCII.
  predicate IsTelling(raw: string) {
    exists i :: 0 <= i < |TrimStart(raw)| &&
      var c := TrimStart(raw)[i];
      c == ':' || c == '(' || 'A' <= c <= 'Z' || c as int >= 128
  }

  lemma TellingIs(raw: string)
    ensures IsTelling(raw) <==> IsInteresting(raw)
  {
    var line := TrimStart(raw);
    if IsTelling(raw) {
      var i :| 0 <= i < |line| && (line[i] == ':' || line[i] == '(' || 'A' <= line[i] <= 'Z' || line[i] as int >= 128);
      assert IsNotable(line[i]);
    }
    if IsInteresting(raw) {
      var i :| 0 <= i < |line| && IsNotable(line[i]);
      assert line[i] == ':' || line[i] == '(' || 'A' <= line[i] <= 'Z' || line[i] as int >= 128;
    }
  }

  // Some telling line holds one of the words.
  ghost predicate SomeLineHolds(lines: seq<string>, words: seq<string>) {
    exists n :: 0 <= n < |lines| && IsTelling(lines[n]) && HoldsOne(lines[n], words)
  }

  const SCRIPTS: seq<string> := [".js:", ".jsx:", ".mjs:", ".cjs:", ".ts:", ".tsx:", ".mts:", ".cts:"]

  lemma HoldsWord(line: string, word: string)
    ensures Contains(line, word) <==> HoldsOne(line, [word])
  {
    ContainsIsPart(line, word);
    assert [word][0] == word;
  }

  lemma HoldsOneMore(line: string, words: seq<string>, word: string)
    ensures HoldsOne(line, words + [word]) <==> HoldsOne(line, words) || Contains(line, word)
  {
    ContainsIsPart(line, word);
    var more := words + [word];
    if HoldsOne(line, words) {
      var i :| 0 <= i < |words| && IsPart(words[i], line);
      assert more[i] == words[i];
    }
    assert more[|words|] == word;
  }

  lemma HoldsScript(line: string)
    ensures ContainsAny(line, SCRIPT_MARKERS) <==> HoldsOne(line, SCRIPTS)
  {
    assert SCRIPT_MARKERS == SCRIPTS;
    forall i | 0 <= i < |SCRIPTS| ensures Contains(line, SCRIPTS[i]) <==> IsPart(SCRIPTS[i], line) {
      ContainsIsPart(line, SCRIPTS[i]);
    }
  }

  // What one line hints at.
  ghost predicate HintsAtLine(hints: Hints, line: string) {
    && (hints.javaCompiler <==> IsTelling(line) && HoldsOne(line, [".java:"]))
    && (hints.rustHeader <==> IsTelling(line) && HoldsOne(line, ["error[E"]))
    && (hints.rustLocation <==> IsTelling(line) && HoldsOne(line, ["--> "]))
    && (hints.javascriptException <==> IsTelling(line) && HoldsOne(line, ["Error", "Exception"]))
    && (hints.javascriptLocation <==> IsTelling(line) && HoldsOne(line, SCRIPTS))
    && (hints.javaTest <==> IsTelling(line) && HoldsOne(line, ["Error", "Exception", "Failure", "Caused by: "]))
  }

  lemma LineHints(line: string)
    ensures HintsAtLine(HintsOf(line), line)
  {
    TellingIs(line);
    HoldsWord(line, ".java:");
    HoldsWord(line, "error[E");
    HoldsWord(line, "--> ");
    HoldsWord(line, "Error");
    HoldsScript(line);
    HoldsOneMore(line, ["Error"], "Exception");
    HoldsOneMore(line, ["Error", "Exception"], "Failure");
    HoldsOneMore(line, ["Error", "Exception", "Failure"], "Caused by: ");
    assert ["Error"] + ["Exception"] == ["Error", "Exception"];
    assert ["Error", "Exception"] + ["Failure"] == ["Error", "Exception", "Failure"];
    assert ["Error", "Exception", "Failure"] + ["Caused by: "] == ["Error", "Exception", "Failure", "Caused by: "];
  }

  // One more line, or another one before.
  lemma SomeLineSnoc(lines: seq<string>, line: string, words: seq<string>)
    ensures SomeLineHolds(lines + [line], words) <==> SomeLineHolds(lines, words) || (IsTelling(line) && HoldsOne(line, words))
  {
    var more := lines + [line];
    if SomeLineHolds(lines, words) {
      var n :| 0 <= n < |lines| && IsTelling(lines[n]) && HoldsOne(lines[n], words);
      assert more[n] == lines[n];
    }
    assert more[|lines|] == line;
  }

  /** The hints of a text are exactly the words that some telling line of it holds. */
  lemma {:induction false} HintsExactly(lines: seq<string>)
    ensures var hints := AllHints(lines);
      && (hints.javaCompiler <==> SomeLineHolds(lines, [".java:"]))
      && (hints.rustHeader <==> SomeLineHolds(lines, ["error[E"]))
      && (hints.rustLocation <==> SomeLineHolds(lines, ["--> "]))
      && (hints.javascriptException <==> SomeLineHolds(lines, ["Error", "Exception"]))
      && (hints.javascriptLocation <==> SomeLineHolds(lines, SCRIPTS))
      && (hints.javaTest <==> SomeLineHolds(lines, ["Error", "Exception", "Failure", "Caused by: "]))
  {
    if lines != [] {
      var init, line := lines[..|lines| - 1], lines[|lines| - 1];
      HintsExactly(init);
      LineHints(line);
      assert lines == init + [line];
      SomeLineSnoc(init, line, [".java:"]);
      SomeLineSnoc(init, line, ["error[E"]);
      SomeLineSnoc(init, line, ["--> "]);
      SomeLineSnoc(init, line, ["Error", "Exception"]);
      SomeLineSnoc(init, line, SCRIPTS);
      SomeLineSnoc(init, line, ["Error", "Exception", "Failure", "Caused by: "]);
    }
  }
}
