/** What normalization guarantees: it is idempotent with exactly the clean texts as fixed points, it
    works line by line exactly when a line leaves the scanner outside every escape sequence, and the
    ASCII fast path is the general path. */
module TextLemmas {
  import opened Model
  import opened Utf8
  import opened Text
  import opened Sequences

  // ---------------------------------------------------------------- automaton and lines

  lemma {:induction false} StripConcat(mode: Mode, a: string, b: string)
    ensures Strip(mode, a + b) == Strip(mode, a) + Strip(EndMode(mode, a), b)
    ensures EndMode(mode, a + b) == EndMode(EndMode(mode, a), b)
    decreases |a|
  {
    if a == [] {
      assert a + b == b;
    } else {
      var tail, next := a[1..], StepMode(mode, a[0]);
      TailOfAppend(a, b);
      StripConcat(next, tail, b);
      AppendAssociates(Visible(mode, a[0]), Strip(next, tail), Strip(EndMode(next, tail), b));
    }
  }

  lemma {:induction false} TrimEndShape(s: string)
    ensures TrimEnd(s) <= s
    ensures TrimEnd(s) != [] ==> !IsWhitespace(TrimEnd(s)[|TrimEnd(s)| - 1])
    ensures TrimEnd(TrimEnd(s)) == TrimEnd(s)
    ensures TrimEnd(DropCr(s)) == TrimEnd(s)
  {
    if s != [] && IsWhitespace(s[|s| - 1]) {
      TrimEndShape(s[..|s| - 1]);
    }
  }

  lemma {:induction false} FindTerminator(a: string, b: string)
    requires '\n' !in a
    ensures Find(a + "\n" + b, '\n') == |a|
  {
    if a != [] {
      assert (a + "\n" + b)[1..] == a[1..] + "\n" + b;
      FindTerminator(a[1..], b);
    }
  }

  lemma {:induction false} FindNone(a: string)
    requires '\n' !in a
    ensures Find(a, '\n') == |a|
    ensures Lines(a) == if a == [] then [] else [a]
  {
    assert a[..Find(a, '\n')] <= a;
  }

  lemma FirstLine(a: string, b: string)
    requires '\n' !in a
    ensures Lines(a + "\n" + b) == [DropCr(a)] + Lines(b)
  {
    FindTerminator(a, b);
    assert (a + "\n" + b)[..|a|] == a;
    assert (a + "\n" + b)[|a| + 1..] == b;
  }

  lemma {:induction false} NonBlankConcat(x: seq<string>, y: seq<string>)
    ensures NonBlank(x + y) == NonBlank(x) + NonBlank(y)
  {
    if x == [] {
      assert x + y == y;
    } else {
      NonBlankConcat(x[1..], y);
      TailOfAppend(x, y);
      AppendAssociates(NonBlank([x[0]]), NonBlank(x[1..]), NonBlank(y));
    }
  }

  // A text without a line feed is one line.
  lemma OneLine(a: string)
    requires '\n' !in a
    ensures NonBlank(Lines(a)) == NonBlank([a])
    ensures NonBlank([a]) == if TrimEnd(a) == [] then [] else [TrimEnd(a)]
    ensures Join(NonBlank([a]), '\n') == TrimEnd(a)
  {
    FindNone(a);
  }

  lemma PeelLine(first: string, rest: string)
    requires '\n' !in first
    ensures NonBlank(Lines(first + "\n" + rest)) == NonBlank([first]) + NonBlank(Lines(rest))
  {
    FirstLine(first, rest);
    NonBlankConcat([DropCr(first)], Lines(rest));
    TrimEndShape(first);
  }

  lemma FirstThenRest(a: string) returns (first: string, rest: string)
    requires '\n' in a
    ensures '\n' !in first && a == first + "\n" + rest && |rest| < |a|
  {
    var k := Find(a, '\n');
    first, rest := a[..k], a[k + 1..];
  }

  lemma TwoTerminators(first: string, rest: string, b: string, terminator: string)
    ensures first + terminator + rest + terminator + b == first + terminator + (rest + terminator + b)
  {
    AppendAssociates(first + terminator, rest, terminator);
    AppendAssociates(first + terminator, rest + terminator, b);
  }

  lemma PeelBoth(first: string, rest: string, b: string)
    requires '\n' !in first
    requires NonBlank(Lines(rest + "\n" + b)) == NonBlank(Lines(rest)) + NonBlank(Lines(b))
    ensures NonBlank(Lines(first + "\n" + rest + "\n" + b)) == NonBlank(Lines(first + "\n" + rest)) + NonBlank(Lines(b))
  {
    TwoTerminators(first, rest, b, "\n");
    PeelLine(first, rest);
    PeelLine(first, rest + "\n" + b);
    AppendAssociates(NonBlank([first]), NonBlank(Lines(rest)), NonBlank(Lines(b)));
  }

  // Cutting a text at a line feed cuts its clean lines.
  lemma {:induction false} LinesConcat(a: string, b: string)
    ensures NonBlank(Lines(a + "\n" + b)) == NonBlank(Lines(a)) + NonBlank(Lines(b))
    decreases |a|
  {
    if '\n' in a {
      var first, rest := FirstThenRest(a);
      LinesConcat(rest, b);
      PeelBoth(first, rest, b);
    } else {
      OneLine(a);
      PeelLine(a, b);
    }
  }

  // ---------------------------------------------------------------- normal lines

  // The characters that normalization keeps, with the line feed as only separator.
  predicate IsKept(c: char) {
    c == '\n' || c == '\t' || !IsControl(c)
  }

  ghost predicate AllKept(s: string) {
    forall c | c in s :: IsKept(c)
  }

  // A line that normalization can output: visible, right-trimmed, without control characters.
  ghost predicate IsNormalLine(line: string) {
    line != [] && AllKept(line) && '\n' !in line && !IsWhitespace(line[|line| - 1])
  }

  ghost predicate AreNormalLines(lines: seq<string>) {
    forall line | line in lines :: IsNormalLine(line)
  }

  lemma {:induction false} StripKeeps(mode: Mode, s: string)
    ensures AllKept(Strip(mode, s))
    decreases |s|
  {
    if s != [] {
      StripKeeps(StepMode(mode, s[0]), s[1..]);
    }
  }

  lemma {:induction false} StripFixed(s: string)
    requires AllKept(s)
    ensures Strip(Ground, s) == s
  {
    if s != [] {
      assert s[0] in s && IsKept(s[0]);
      StripFixed(s[1..]);
    }
  }

  lemma CleanLine(line: string)
    requires AllKept(line) && '\n' !in line
    ensures TrimEnd(line) != [] ==> IsNormalLine(TrimEnd(line))
  {
    TrimEndShape(line);
    assert forall c | c in TrimEnd(line) :: c in line;
  }

  lemma {:induction false} CleanLines(s: string)
    requires AllKept(s)
    ensures AreNormalLines(NonBlank(Lines(s)))
    decreases |s|
  {
    if s != [] {
      var k := Find(s, '\n');
      if k == |s| {
        assert s[..k] == s;
        CleanLine(s);
      } else {
        var first := s[..k];
        assert forall c | c in first :: c in s;
        assert forall c | c in s[k + 1..] :: c in s;
        CleanLine(first);
        TrimEndShape(first);
        CleanLines(s[k + 1..]);
        assert Lines(s) == [DropCr(first)] + Lines(s[k + 1..]);
        NonBlankConcat([DropCr(first)], Lines(s[k + 1..]));
      }
    }
  }

  /** Every line of a normalized text is visible, right-trimmed and free of control characters. */
  lemma NormalLinesAreNormal(s: string)
    ensures AreNormalLines(NormalLines(s))
  {
    StripKeeps(Ground, s);
    CleanLines(Strip(Ground, s));
  }

  lemma {:induction false} JoinKept(lines: seq<string>, separator: char)
    requires AreNormalLines(lines) && IsKept(separator)
    ensures AllKept(Join(lines, separator))
    ensures separator != '\n' ==> '\n' !in Join(lines, separator)
    ensures lines != [] ==> Join(lines, separator) != []
    ensures lines != [] ==> !IsWhitespace(Join(lines, separator)[|Join(lines, separator)| - 1])
  {
    if lines != [] {
      assert lines[0] in lines && IsNormalLine(lines[0]);
      if |lines| > 1 {
        JoinKept(lines[1..], separator);
      }
    }
  }

  lemma NormalLineIsTrimmed(line: string)
    requires IsNormalLine(line)
    ensures DropCr(line) == line && TrimEnd(line) == line && NonBlank([line]) == [line]
  {
    assert [line][1..] == [];
  }

  lemma JoinFirst(first: string, rest: seq<string>)
    requires IsNormalLine(first) && Lines(Join(rest, '\n')) == rest
    ensures Lines(Join([first] + rest, '\n')) == [first] + rest
  {
    NormalLineIsTrimmed(first);
    if rest == [] {
      FindNone(first);
      assert [first] + rest == [first];
    } else {
      assert ([first] + rest)[1..] == rest;
      FirstLine(first, Join(rest, '\n'));
    }
  }

  lemma {:induction false} LinesOfJoin(lines: seq<string>)
    requires AreNormalLines(lines)
    ensures Lines(Join(lines, '\n')) == lines
    ensures NonBlank(lines) == lines
  {
    if lines != [] {
      var first, rest := lines[0], lines[1..];
      assert first in lines && IsNormalLine(first);
      LinesOfJoin(rest);
      NormalLineIsTrimmed(first);
      JoinFirst(first, rest);
      assert lines == [first] + rest;
    }
  }

  lemma LinesOfNormalized(s: string)
    ensures Lines(Normalize(s)) == NormalLines(s)
  {
    NormalLinesAreNormal(s);
    LinesOfJoin(NormalLines(s));
  }

  lemma JoinIsFixed(lines: seq<string>)
    requires AreNormalLines(lines)
    ensures NormalLines(Join(lines, '\n')) == lines
    ensures Normalize(Join(lines, '\n')) == Join(lines, '\n')
  {
    JoinKept(lines, '\n');
    StripFixed(Join(lines, '\n'));
    LinesOfJoin(lines);
  }

  /** Normalizing twice changes nothing more. */
  lemma NormalizeIdempotent(s: string)
    ensures Normalize(Normalize(s)) == Normalize(s)
  {
    NormalLinesAreNormal(s);
    JoinIsFixed(NormalLines(s));
  }

  /** The fixed points are exactly the joins of normal lines. */
  lemma NormalizeFixedPoints(s: string)
    ensures Normalize(s) == s <==> exists lines :: AreNormalLines(lines) && s == Join(lines, '\n')
  {
    if Normalize(s) == s {
      NormalLinesAreNormal(s);
      assert AreNormalLines(NormalLines(s)) && s == Join(NormalLines(s), '\n');
    }
    if exists lines :: AreNormalLines(lines) && s == Join(lines, '\n') {
      var lines :| AreNormalLines(lines) && s == Join(lines, '\n');
      JoinIsFixed(lines);
    }
  }

  // ---------------------------------------------------------------- line by line

  /** The condition under which a raw line may be normalized on its own: the scanner is back outside
      every escape sequence, or is about to swallow one character after an ESC and the visible text
      so far ends with a complete line. */
  predicate EndsClean(a: string) {
    EndMode(Ground, a) == Ground ||
    (EndMode(Ground, a) == Escape && (Strip(Ground, a) == [] || Strip(Ground, a)[|Strip(Ground, a)| - 1] == '\n'))
  }

  lemma TerminatedLines(a: string)
    ensures NonBlank(Lines(a + "\n")) == NonBlank(Lines(a))
  {
    LinesConcat(a, "");
    assert a + "\n" + "" == a + "\n";
  }

  lemma EndsAtLine(s: string, b: string)
    requires s == [] || s[|s| - 1] == '\n'
    ensures NonBlank(Lines(s + b)) == NonBlank(Lines(s)) + NonBlank(Lines(b))
  {
    if s == [] {
      assert s + b == b;
    } else {
      var a := s[..|s| - 1];
      assert s == a + "\n";
      LinesConcat(a, b);
      TerminatedLines(a);
    }
  }

  // The scanner's view of one terminator in each mode.
  lemma TerminatorStep(mode: Mode, d: char)
    requires d == '\n' || d == '\r'
    ensures Strip(mode, [d]) == if mode == Ground then "\n" else ""
    ensures EndMode(mode, [d]) == if mode == Csi then Csi else if mode in {Osc, OscEscape} then Osc else Ground
  {
    assert [d][1..] == [];
  }

  lemma VisibleSplit(a: string, d: char, b: string)
    requires d == '\n' || d == '\r'
    ensures var m := EndMode(Ground, a);
      Strip(Ground, a + [d] + b) == Strip(Ground, a) + Strip(m, [d]) + Strip(EndMode(m, [d]), b)
  {
    StripConcat(Ground, a + [d], b);
    StripConcat(Ground, a, [d]);
  }

  lemma VisibleBreak(a: string, d: char, b: string)
    requires d == '\n' || d == '\r'
    requires EndMode(Ground, a) == Ground
    ensures Strip(Ground, a + [d] + b) == Strip(Ground, a) + "\n" + Strip(Ground, b)
  {
    VisibleSplit(a, d, b);
    TerminatorStep(Ground, d);
  }

  lemma SwallowedBreak(a: string, d: char, b: string)
    requires d == '\n' || d == '\r'
    requires EndMode(Ground, a) != Ground
    ensures Strip(Ground, a + [d] + b) == Strip(Ground, a) + Strip(EndMode(EndMode(Ground, a), [d]), b)
  {
    var m := EndMode(Ground, a);
    VisibleSplit(a, d, b);
    TerminatorStep(m, d);
    assert Strip(Ground, a) + "" == Strip(Ground, a);
  }

  /** The line-wise homomorphism: a line that ends clean contributes the same clean lines whether it
      is normalized alone or as part of the whole text. */
  lemma Linewise(a: string, d: char, b: string)
    requires d == '\n' || d == '\r'
    requires EndsClean(a)
    ensures NormalLines(a + [d] + b) == NormalLines(a) + NormalLines(b)
  {
    var x, y := Strip(Ground, a), Strip(Ground, b);
    if EndMode(Ground, a) == Ground {
      VisibleBreak(a, d, b);
      LinesConcat(x, y);
    } else {
      TerminatorStep(Escape, d);
      SwallowedBreak(a, d, b);
      EndsAtLine(x, y);
    }
  }

  lemma CancelPrefix(head: seq<string>, x: seq<string>, y: seq<string>)
    requires x != y
    ensures head + x != head + y
  {
    assert x == (head + x)[|head|..] && y == (head + y)[|head|..];
  }

  lemma OpenOneLine(s: string)
    requires s != [] && '\n' !in s
    ensures NonBlank(Lines(s + "y")) != NonBlank(Lines(s)) + ["y"]
  {
    OneLine(s);
    OneLine(s + "y");
    assert TrimEnd(s + "y") == s + "y";
    assert |s + "y"| > |"y"|;
  }

  lemma OpenLaterLine(first: string, rest: string)
    requires '\n' !in first
    requires NonBlank(Lines(rest + "y")) != NonBlank(Lines(rest)) + ["y"]
    ensures NonBlank(Lines(first + "\n" + (rest + "y"))) != NonBlank(Lines(first + "\n" + rest)) + ["y"]
  {
    PeelLine(first, rest);
    PeelLine(first, rest + "y");
    var head, x, y := NonBlank([first]), NonBlank(Lines(rest + "y")), NonBlank(Lines(rest));
    CancelPrefix(head, x, y + ["y"]);
    assert head + (y + ["y"]) == (head + y) + ["y"];
  }

  lemma {:induction false} OpenLine(s: string)
    requires s != [] && s[|s| - 1] != '\n'
    ensures NonBlank(Lines(s + "y")) != NonBlank(Lines(s)) + ["y"]
    decreases |s|
  {
    var k := Find(s, '\n');
    if k == |s| {
      assert s[..k] == s;
      OpenOneLine(s);
    } else {
      var first, rest := s[..k], s[k + 1..];
      assert s == first + "\n" + rest && s + "y" == first + "\n" + (rest + "y");
      OpenLine(rest);
      OpenLaterLine(first, rest);
    }
  }

  lemma PlainY()
    ensures Strip(Ground, "y") == "y" && Strip(Csi, "y") == "" && Strip(Osc, "y") == ""
    ensures NormalLines("y") == ["y"]
  {
    assert Lines("y") == ["y"];
  }

  // A continuation that tells the two apart.
  lemma UncleanDiffers(a: string, d: char)
    requires d == '\n' || d == '\r'
    requires !EndsClean(a)
    ensures NormalLines(a + [d] + "y") != NormalLines(a) + NormalLines("y")
  {
    var m, x := EndMode(Ground, a), Strip(Ground, a);
    SwallowedBreak(a, d, "y");
    TerminatorStep(m, d);
    PlainY();
    if m == Escape {
      OpenLine(x);
    } else {
      assert x + "" == x;
      assert |NormalLines(a) + ["y"]| == |NormalLines(a)| + 1;
    }
  }

  /** Ending clean is the exact condition: for any other line some continuation exists for which
      normalizing line by line and normalizing the whole text differ. */
  lemma LinewiseExactly(a: string, d: char)
    requires d == '\n' || d == '\r'
    ensures EndsClean(a) <==> forall b :: NormalLines(a + [d] + b) == NormalLines(a) + NormalLines(b)
  {
    if EndsClean(a) {
      forall b ensures NormalLines(a + [d] + b) == NormalLines(a) + NormalLines(b) {
        Linewise(a, d, b);
      }
    } else {
      UncleanDiffers(a, d);
    }
  }

  // ---------------------------------------------------------------- single framed lines

  lemma {:induction false} StripOneLine(mode: Mode, s: string)
    requires '\n' !in s && '\r' !in s
    ensures '\n' !in Strip(mode, s)
    decreases |s|
  {
    if s != [] {
      assert s[0] in s;
      StripOneLine(StepMode(mode, s[0]), s[1..]);
    }
  }

  lemma PlainIsAscii(bytes: seq<byte>)
    requires IsPlain(bytes)
    ensures IsAscii(bytes) && AllKept(Ascii(bytes)) && '\n' !in Ascii(bytes)
  {
    forall c | c in Ascii(bytes) ensures IsKept(c) && c != '\n' {
      var i :| 0 <= i < |bytes| && c == Ascii(bytes)[i];
    }
  }

  /** The ASCII fast path computes what the general path computes. */
  lemma FastPath(bytes: seq<byte>)
    ensures NormalizeLine(bytes) == Normalize(Decode(bytes))
  {
    if IsPlain(bytes) {
      PlainIsAscii(bytes);
      var s := Ascii(bytes);
      DecodeAscii(bytes);
      StripFixed(s);
      OneLine(s);
      assert NormalLines(Decode(bytes)) == NonBlank([s]);
    }
  }

  lemma DecodedOneLine(bytes: seq<byte>)
    requires CR !in bytes && LF !in bytes
    ensures '\n' !in Decode(bytes) && '\r' !in Decode(bytes)
  {
    if '\n' in Decode(bytes) {
      DecodedAsciiWasByte(bytes, LF);
    }
    if '\r' in Decode(bytes) {
      DecodedAsciiWasByte(bytes, CR);
    }
  }

  /** A framed line holds no CR or LF, so it normalizes to at most one clean line. */
  lemma FramedLineIsSingle(bytes: seq<byte>)
    requires CR !in bytes && LF !in bytes
    ensures NormalLines(Decode(bytes)) == if NormalizeLine(bytes) == [] then [] else [NormalizeLine(bytes)]
    ensures NormalizeLine(bytes) != [] ==> IsNormalLine(NormalizeLine(bytes))
  {
    var s := Decode(bytes);
    DecodedOneLine(bytes);
    StripOneLine(Ground, s);
    OneLine(Strip(Ground, s));
    FastPath(bytes);
    NormalLinesAreNormal(s);
    assert NormalLines(s) == NonBlank([Strip(Ground, s)]);
    assert NormalLines(s) != [] ==> NormalLines(s)[0] in NormalLines(s);
  }
}
