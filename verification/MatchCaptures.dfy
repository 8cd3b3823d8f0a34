/** What a reported match has captured: every field is the first capture of that field along the reported
    lines, and the message is all captured messages, one per line. */
module MatchCaptures {
  import opened Model
  import opened Sequences
  import opened Text
  import opened Engine
  import opened MatchMachine
  import opened MatchSpec
  import opened ProblemMatcher

  datatype Field =
    | FileField | FromPathField | LocationField | LineField | ColumnField | EndLineField | EndColumnField | SeverityField
    | CodeField

  // The group in which a pattern captures a field.
  function GroupOf(pattern: Pattern, field: Field): Option<nat> {
    match field
    case FileField => pattern.file
    case FromPathField => pattern.fromPath
    case LocationField => pattern.location
    case LineField => pattern.line
    case ColumnField => pattern.column
    case EndLineField => pattern.endLine
    case EndColumnField => pattern.endColumn
    case SeverityField => pattern.severity
    case CodeField => pattern.code
  }

  // A pattern applied to a line.
  datatype Use = Use(pattern: Pattern, text: string)

  function CapturedBy(use: Use, group: Option<nat>): Option<string> {
    match use.pattern.captures(use.text)
    case None => None
    case Some(captures) => match Group(group, captures) case None => None case Some(value) => Some(Trim(value))
  }

  // The first capture of a field.
  function FirstCapture(uses: seq<Use>, field: Field): Option<string> {
    if uses == [] then None
    else
      var here := CapturedBy(uses[0], GroupOf(uses[0].pattern, field));
      if here.Some? then here else FirstCapture(uses[1..], field)
  }

  // All captured messages.
  function Messages(uses: seq<Use>): seq<string> {
    if uses == [] then []
    else
      var here := CapturedBy(uses[0], uses[0].pattern.message);
      (if here.Some? then [here.value] else []) + Messages(uses[1..])
  }

  function FirstCaptures(uses: seq<Use>): Problem {
    Problem(
      FirstCapture(uses, FileField), FirstCapture(uses, FromPathField), FirstCapture(uses, LocationField),
      FirstCapture(uses, LineField), FirstCapture(uses, ColumnField), FirstCapture(uses, EndLineField),
      FirstCapture(uses, EndColumnField), FirstCapture(uses, SeverityField), FirstCapture(uses, CodeField),
      if Messages(uses) == [] then None else Some(Join(Messages(uses), '\n')))
  }

  lemma {:induction false} FirstCaptureSnoc(uses: seq<Use>, last: Use, field: Field)
    ensures FirstCapture(uses + [last], field) ==
      if FirstCapture(uses, field).Some? then FirstCapture(uses, field) else CapturedBy(last, GroupOf(last.pattern, field))
  {
    if uses == [] {
      assert uses + [last] == [last] && [last][1..] == [];
    } else {
      TailOfAppend(uses, [last]);
      FirstCaptureSnoc(uses[1..], last, field);
    }
  }

  lemma {:induction false} MessagesSnoc(uses: seq<Use>, last: Use)
    ensures var here := CapturedBy(last, last.pattern.message);
      Messages(uses + [last]) == Messages(uses) + if here.Some? then [here.value] else []
  {
    if uses == [] {
      assert uses + [last] == [last] && [last][1..] == [];
    } else {
      TailOfAppend(uses, [last]);
      MessagesSnoc(uses[1..], last);
      var first, here := CapturedBy(uses[0], uses[0].pattern.message), CapturedBy(last, last.pattern.message);
      AppendAssociates(if first.Some? then [first.value] else [], Messages(uses[1..]), if here.Some? then [here.value] else []);
    }
  }

  lemma {:induction false} JoinSnoc(parts: seq<string>, last: string)
    requires parts != []
    ensures Join(parts + [last], '\n') == Join(parts, '\n') + "\n" + last
  {
    TailOfAppend(parts, [last]);
    if |parts| > 1 {
      JoinSnoc(parts[1..], last);
    }
  }

  lemma FillIsCapture(uses: seq<Use>, last: Use, field: Field, captures: Captures)
    requires last.pattern.captures(last.text) == Some(captures)
    ensures Fill(FirstCapture(uses, field), GroupOf(last.pattern, field), captures) == FirstCapture(uses + [last], field)
  {
    FirstCaptureSnoc(uses, last, field);
  }

  lemma AppendIsMessages(uses: seq<Use>, last: Use, captures: Captures)
    requires last.pattern.captures(last.text) == Some(captures)
    ensures AppendMessage(FirstCaptures(uses).message, last.pattern.message, captures) == FirstCaptures(uses + [last]).message
  {
    MessagesSnoc(uses, last);
    var here := CapturedBy(last, last.pattern.message);
    AppendNothing(Messages(uses));
    if here.Some? {
      assert [] + [here.value] == [here.value];
      if Messages(uses) != [] {
        JoinSnoc(Messages(uses), here.value);
      }
    }
  }

  // One more pattern keeps the first captures first.
  lemma ApplyIsFirst(uses: seq<Use>, last: Use, captures: Captures)
    requires last.pattern.captures(last.text) == Some(captures)
    ensures ApplyCaptures(FirstCaptures(uses), last.pattern, captures) == FirstCaptures(uses + [last])
  {
    FillIsCapture(uses, last, FileField, captures);
    FillIsCapture(uses, last, FromPathField, captures);
    FillIsCapture(uses, last, LocationField, captures);
    FillIsCapture(uses, last, LineField, captures);
    FillIsCapture(uses, last, ColumnField, captures);
    FillIsCapture(uses, last, EndLineField, captures);
    FillIsCapture(uses, last, EndColumnField, captures);
    FillIsCapture(uses, last, SeverityField, captures);
    FillIsCapture(uses, last, CodeField, captures);
    AppendIsMessages(uses, last, captures);
  }

  lemma AdvanceIsFirst(m: Matcher, uses: seq<Use>, i: nat, text: string)
    requires i < |m.patterns|
    ensures var advanced := Advance(m, FirstCaptures(uses), i, text);
      && (advanced.Some? <==> m.patterns[i].captures(text).Some?)
      && (advanced.Some? ==> advanced.value == FirstCaptures(uses + [Use(m.patterns[i], text)]))
  {
    var captures := m.patterns[i].captures(text);
    if captures.Some? {
      ApplyIsFirst(uses, Use(m.patterns[i], text), captures.value);
    }
  }

  // ---------------------------------------------------------------- along a header

  // The patterns from the i-th on, each applied to one line.
  function UsesOf(m: Matcher, i: nat, lines: seq<LogLine>): seq<Use>
    requires i + |lines| <= |m.patterns|
  {
    seq(|lines|, n requires 0 <= n < |lines| => Use(m.patterns[i + n], lines[n].text))
  }

  // Every line matches its pattern.
  predicate Matching(m: Matcher, i: nat, lines: seq<LogLine>) {
    i + |lines| <= |m.patterns| && forall n | 0 <= n < |lines| :: m.patterns[i + n].captures(lines[n].text).Some?
  }

  lemma MatchingFirst(m: Matcher, i: nat, first: LogLine, rest: seq<LogLine>)
    requires i < |m.patterns| && m.patterns[i].captures(first.text).Some? && Matching(m, i + 1, rest)
    ensures Matching(m, i, [first] + rest)
    ensures UsesOf(m, i, [first] + rest) == [Use(m.patterns[i], first.text)] + UsesOf(m, i + 1, rest)
  {
  }

  lemma MatchingMore(m: Matcher, i: nat, uses: seq<Use>, first: LogLine, rest: seq<LogLine>)
    requires i < |m.patterns| && m.patterns[i].captures(first.text).Some? && Matching(m, i + 1, rest)
    ensures Matching(m, i, [first] + rest)
    ensures uses + UsesOf(m, i, [first] + rest) == uses + [Use(m.patterns[i], first.text)] + UsesOf(m, i + 1, rest)
  {
    MatchingFirst(m, i, first, rest);
    AppendAssociates(uses, [Use(m.patterns[i], first.text)], UsesOf(m, i + 1, rest));
  }

  lemma PrefixOf(lines: seq<LogLine>, n: nat)
    requires n < |lines|
    ensures lines[..n + 1] == [lines[0]] + lines[1..][..n]
  {
  }

  lemma {:induction false} ReachCaptures(m: Matcher, i: nat, uses: seq<Use>, lines: seq<LogLine>)
    requires i <= HeaderLength(AutomatonOf(m))
    ensures var r := Reach(AutomatonOf(m), i, FirstCaptures(uses), lines);
      && Matching(m, i, lines[..r.lines])
      && r.data == FirstCaptures(uses + UsesOf(m, i, lines[..r.lines]))
    decreases |lines|
  {
    var a := AutomatonOf(m);
    if i == HeaderLength(a) || lines == [] || Advance(m, FirstCaptures(uses), i, lines[0].text).None? {
      ReachNothing(m, i, uses);
      assert lines[..0] == [];
    } else {
      var first, tail, more := lines[0], lines[1..], uses + [Use(m.patterns[i], lines[0].text)];
      AdvanceIsFirst(m, uses, i, first.text);
      ReachCaptures(m, i + 1, more, tail);
      var n := Reach(a, i + 1, FirstCaptures(more), tail).lines;
      PrefixOf(lines, n);
      MatchingMore(m, i, uses, first, tail[..n]);
    }
  }

  lemma ReachNothing(m: Matcher, i: nat, uses: seq<Use>)
    requires i <= |m.patterns|
    ensures Matching(m, i, []) && uses + UsesOf(m, i, []) == uses
  {
  }

  // ---------------------------------------------------------------- reported matches

  // The header of a match starts at the i-th line: one line per pattern before any looping.
  predicate HeaderAt(m: Matcher, lines: seq<LogLine>, i: nat) {
    var h := HeaderLength(AutomatonOf(m));
    i + h <= |lines| && Matching(m, 0, lines[i..i + h])
  }

  function HeaderUses(m: Matcher, lines: seq<LogLine>, i: nat): seq<Use>
    requires HeaderAt(m, lines, i)
  {
    UsesOf(m, 0, lines[i..i + HeaderLength(AutomatonOf(m))])
  }

  // The last pattern matches every line after the header up to the k-th.
  predicate LoopsTo(m: Matcher, lines: seq<LogLine>, i: nat, k: nat) {
    && m.patterns != [] && i + HeaderLength(AutomatonOf(m)) <= k <= |lines|
    && forall n | i + HeaderLength(AutomatonOf(m)) <= n < k :: m.patterns[|m.patterns| - 1].captures(lines[n].text).Some?
  }

  // The report covers the lines from the i-th to the j-th: a header, and for a looping matcher lines that the
  // last pattern matches, of which the last is reported.
  predicate CapturedAt(m: Matcher, lines: seq<LogLine>, x: Attempt<Problem>, i: nat, j: nat) {
    && x.Report? && i <= j < |lines| && x.startLine == lines[i].streamLine && x.line == lines[j] && HeaderAt(m, lines, i)
    && if !AutomatonOf(m).loops
       then i + HeaderLength(AutomatonOf(m)) == j + 1 && x.data == FirstCaptures(HeaderUses(m, lines, i))
       else LoopsTo(m, lines, i, j + 1) && i + HeaderLength(AutomatonOf(m)) <= j
            && x.data == FirstCaptures(HeaderUses(m, lines, i) + [Use(m.patterns[|m.patterns| - 1], lines[j].text)])
  }

  ghost predicate IsCaptured(m: Matcher, lines: seq<LogLine>, x: Attempt<Problem>) {
    exists i, j :: CapturedAt(m, lines, x, i, j)
  }

  ghost predicate AllCaptured(m: Matcher, lines: seq<LogLine>, attempts: seq<Attempt<Problem>>) {
    forall n | 0 <= n < |attempts| :: IsCaptured(m, lines, attempts[n])
  }

  lemma CapturedConcat(m: Matcher, lines: seq<LogLine>, x: Attempt<Problem>, rest: seq<Attempt<Problem>>)
    requires IsCaptured(m, lines, x) && AllCaptured(m, lines, rest)
    ensures AllCaptured(m, lines, [x] + rest)
  {
  }

  lemma Suffix(lines: seq<LogLine>, k: nat, n: nat)
    requires k + n <= |lines|
    ensures lines[k..][n..] == lines[k + n..] && lines[k..][..n] == lines[k..k + n]
  {
  }

  // How far the header of a match reaches from the k-th line on.
  function ReachFrom(a: Automaton<Problem>, lines: seq<LogLine>, k: nat): Reached<Problem>
    requires k <= |lines|
  {
    Reach(a, 0, a.empty, lines[k..])
  }

  lemma HeaderCaptured(m: Matcher, tail: seq<LogLine>, r: Reached<Problem>)
    requires r == Reach(AutomatonOf(m), 0, AutomatonOf(m).empty, tail)
    ensures Matching(m, 0, tail[..r.lines]) && r.data == FirstCaptures(UsesOf(m, 0, tail[..r.lines]))
  {
    assert AutomatonOf(m).empty == FirstCaptures([]);
    ReachCaptures(m, 0, [], tail);
    assert [] + UsesOf(m, 0, tail[..r.lines]) == UsesOf(m, 0, tail[..r.lines]);
  }

  lemma HeaderIs(m: Matcher, lines: seq<LogLine>, k: nat, header: seq<LogLine>)
    requires k + HeaderLength(AutomatonOf(m)) <= |lines| && header == lines[k..k + HeaderLength(AutomatonOf(m))]
    requires Matching(m, 0, header)
    ensures HeaderAt(m, lines, k) && HeaderUses(m, lines, k) == UsesOf(m, 0, header)
  {
  }

  lemma CompleteHeader(m: Matcher, lines: seq<LogLine>, k: nat)
    requires k <= |lines| && ReachFrom(AutomatonOf(m), lines, k).lines == HeaderLength(AutomatonOf(m))
    ensures HeaderAt(m, lines, k) && ReachFrom(AutomatonOf(m), lines, k).data == FirstCaptures(HeaderUses(m, lines, k))
  {
    var tail, r := lines[k..], ReachFrom(AutomatonOf(m), lines, k);
    HeaderCaptured(m, tail, r);
    Suffix(lines, k, r.lines);
    HeaderIs(m, lines, k, tail[..r.lines]);
  }

  // ---------------------------------------------------------------- the blocks of what is left

  // No complete header: one line, or the lines that were reached, are passed over.
  lemma BlocksPass(a: Automaton<Problem>, index: nat, tail: seq<LogLine>, r: Reached<Problem>)
    requires tail != [] && r == Reach(a, 0, a.empty, tail) && r.lines < HeaderLength(a)
    ensures r.lines <= |tail|
    ensures Blocks(a, index, tail) == Blocks(a, index, tail[if r.lines == 0 then 1 else r.lines..])
  {
  }

  lemma BlocksSkip(a: Automaton<Problem>, index: nat, lines: seq<LogLine>, k: nat) returns (next: nat)
    requires k < |lines| && ReachFrom(a, lines, k).lines < HeaderLength(a)
    ensures k < next <= |lines| && Blocks(a, index, lines[k..]) == Blocks(a, index, lines[next..])
  {
    var tail, r := lines[k..], ReachFrom(a, lines, k);
    var n := if r.lines == 0 then 1 else r.lines;
    BlocksPass(a, index, tail, r);
    Suffix(lines, k, n);
    next := k + n;
  }

  // A complete header of a matcher that does not loop is reported.
  lemma BlocksHeader(a: Automaton<Problem>, index: nat, tail: seq<LogLine>, r: Reached<Problem>)
    requires r == Reach(a, 0, a.empty, tail) && 0 < r.lines == HeaderLength(a) && !a.loops
    ensures r.lines <= |tail|
    ensures Blocks(a, index, tail)
      == [Report(index, r.data, tail[r.lines - 1], tail[0].streamLine)] + Blocks(a, index, tail[r.lines..])
  {
  }

  lemma HeaderReported(m: Matcher, index: nat, lines: seq<LogLine>, k: nat, data: Problem, last: LogLine)
    requires m.patterns != [] && !AutomatonOf(m).loops && HeaderAt(m, lines, k)
    requires data == FirstCaptures(HeaderUses(m, lines, k)) && last == lines[k + |m.patterns| - 1]
    ensures IsCaptured(m, lines, Report(index, data, last, lines[k].streamLine))
  {
    assert CapturedAt(m, lines, Report(index, data, last, lines[k].streamLine), k, k + |m.patterns| - 1);
  }

  lemma BlocksReport(m: Matcher, index: nat, lines: seq<LogLine>, k: nat)
    returns (next: nat, report: Attempt<Problem>)
    requires m.patterns != [] && !AutomatonOf(m).loops && k < |lines|
    requires ReachFrom(AutomatonOf(m), lines, k).lines == HeaderLength(AutomatonOf(m))
    ensures k < next <= |lines| && IsCaptured(m, lines, report)
    ensures Blocks(AutomatonOf(m), index, lines[k..]) == [report] + Blocks(AutomatonOf(m), index, lines[next..])
  {
    var tail, r := lines[k..], ReachFrom(AutomatonOf(m), lines, k);
    BlocksHeader(AutomatonOf(m), index, tail, r);
    Suffix(lines, k, r.lines);
    var last := tail[r.lines - 1];
    next, report := k + r.lines, Report(index, r.data, last, lines[k].streamLine);
    CompleteHeader(m, lines, k);
    HeaderReported(m, index, lines, k, r.data, last);
  }

  // A complete header of a looping matcher is followed by its hits.
  lemma BlocksHits(a: Automaton<Problem>, index: nat, tail: seq<LogLine>, r: Reached<Problem>)
    requires r == Reach(a, 0, a.empty, tail) && 0 < r.lines == HeaderLength(a) && a.loops
    ensures r.lines <= |tail|
    ensures Blocks(a, index, tail) == Hits(a, index, r.data, tail[0].streamLine, tail[r.lines..])
  {
  }

  lemma BlocksLoop(a: Automaton<Problem>, index: nat, lines: seq<LogLine>, k: nat, r: Reached<Problem>)
    requires k < |lines| && r == ReachFrom(a, lines, k) && 0 < r.lines == HeaderLength(a) && a.loops
    ensures k + r.lines <= |lines|
    ensures Blocks(a, index, lines[k..]) == Hits(a, index, r.data, lines[k].streamLine, lines[k + r.lines..])
  {
    var tail := lines[k..];
    BlocksHits(a, index, tail, r);
    Suffix(lines, k, r.lines);
  }

  lemma BlocksCaptured(m: Matcher, index: nat, lines: seq<LogLine>, k: nat)
    requires IsCompiledMatcher(m) && k <= |lines|
    ensures AllCaptured(m, lines, Blocks(AutomatonOf(m), index, lines[k..]))
    decreases |lines| - k, 0
  {
    if k == |lines| {
      NothingCaptured(m, index, lines);
    } else if ReachFrom(AutomatonOf(m), lines, k).lines < HeaderLength(AutomatonOf(m)) {
      var next := BlocksSkip(AutomatonOf(m), index, lines, k);
      BlocksCaptured(m, index, lines, next);
    } else if AutomatonOf(m).loops {
      var r := ReachFrom(AutomatonOf(m), lines, k);
      BlocksLoop(AutomatonOf(m), index, lines, k, r);
      CompleteHeader(m, lines, k);
      HitsCaptured(m, index, lines, k, k + r.lines, r.data);
    } else {
      var next, report := BlocksReport(m, index, lines, k);
      BlocksCaptured(m, index, lines, next);
      CapturedConcat(m, lines, report, Blocks(AutomatonOf(m), index, lines[next..]));
    }
  }

  lemma NothingCaptured(m: Matcher, index: nat, lines: seq<LogLine>)
    ensures Blocks(AutomatonOf(m), index, lines[|lines|..]) == [] && AllCaptured(m, lines, [])
    ensures forall header, start :: Hits(AutomatonOf(m), index, header, start, lines[|lines|..]) == []
  {
  }

  // A report of a looping matcher.
  lemma HitReported(m: Matcher, index: nat, lines: seq<LogLine>, i: nat, k: nat)
    requires AutomatonOf(m).loops && HeaderAt(m, lines, i) && LoopsTo(m, lines, i, k) && k < |lines|
    requires m.patterns[|m.patterns| - 1].captures(lines[k].text).Some?
    ensures var data := FirstCaptures(HeaderUses(m, lines, i) + [Use(m.patterns[|m.patterns| - 1], lines[k].text)]);
      LoopsTo(m, lines, i, k + 1) && IsCaptured(m, lines, Report(index, data, lines[k], lines[i].streamLine))
  {
    var data := FirstCaptures(HeaderUses(m, lines, i) + [Use(m.patterns[|m.patterns| - 1], lines[k].text)]);
    assert CapturedAt(m, lines, Report(index, data, lines[k], lines[i].streamLine), i, k);
  }

  // The loop stops at a line that its pattern does not match.
  lemma HitsStop(m: Matcher, index: nat, header: Problem, start: u64, lines: seq<LogLine>, k: nat)
    requires m.patterns != [] && k < |lines| && m.patterns[|m.patterns| - 1].captures(lines[k].text).None?
    ensures Hits(AutomatonOf(m), index, header, start, lines[k..]) == Blocks(AutomatonOf(m), index, lines[k..])
  {
  }

  // The loop goes on, with a report built from the header's captures and those of its line.
  lemma HitsGoOn(m: Matcher, index: nat, uses: seq<Use>, start: u64, lines: seq<LogLine>, k: nat)
    requires m.patterns != [] && k < |lines| && m.patterns[|m.patterns| - 1].captures(lines[k].text).Some?
    ensures var data := FirstCaptures(uses + [Use(m.patterns[|m.patterns| - 1], lines[k].text)]);
      Hits(AutomatonOf(m), index, FirstCaptures(uses), start, lines[k..])
        == [Report(index, data, lines[k], start)] + Hits(AutomatonOf(m), index, FirstCaptures(uses), start, lines[k + 1..])
  {
    Suffix(lines, k, 1);
    AdvanceIsFirst(m, uses, |m.patterns| - 1, lines[k].text);
  }

  lemma HitCaptured(m: Matcher, index: nat, lines: seq<LogLine>, i: nat, k: nat)
    requires AutomatonOf(m).loops && HeaderAt(m, lines, i) && LoopsTo(m, lines, i, k) && k < |lines|
    requires m.patterns[|m.patterns| - 1].captures(lines[k].text).Some?
    requires AllCaptured(m, lines,
      Hits(AutomatonOf(m), index, FirstCaptures(HeaderUses(m, lines, i)), lines[i].streamLine, lines[k + 1..]))
    ensures AllCaptured(m, lines,
      Hits(AutomatonOf(m), index, FirstCaptures(HeaderUses(m, lines, i)), lines[i].streamLine, lines[k..]))
  {
    var uses, start := HeaderUses(m, lines, i), lines[i].streamLine;
    HitReported(m, index, lines, i, k);
    HitsGoOn(m, index, uses, start, lines, k);
    CapturedConcat(m, lines,
      Report(index, FirstCaptures(uses + [Use(m.patterns[|m.patterns| - 1], lines[k].text)]), lines[k], start),
      Hits(AutomatonOf(m), index, FirstCaptures(uses), start, lines[k + 1..]));
  }

  // The loop of a match whose header starts at the i-th line.
  lemma HitsCaptured(m: Matcher, index: nat, lines: seq<LogLine>, i: nat, k: nat, header: Problem)
    requires IsCompiledMatcher(m) && AutomatonOf(m).loops && HeaderAt(m, lines, i) && LoopsTo(m, lines, i, k) && i < k
    requires header == FirstCaptures(HeaderUses(m, lines, i))
    ensures AllCaptured(m, lines, Hits(AutomatonOf(m), index, header, lines[i].streamLine, lines[k..]))
    decreases |lines| - k, 1
  {
    if k == |lines| {
      NothingCaptured(m, index, lines);
    } else if m.patterns[|m.patterns| - 1].captures(lines[k].text).None? {
      HitsStop(m, index, header, lines[i].streamLine, lines, k);
      BlocksCaptured(m, index, lines, k);
    } else {
      HitsCaptured(m, index, lines, i, k + 1, header);
      HitCaptured(m, index, lines, i, k);
    }
  }

  /** The first capture wins, in every reported match: the report covers consecutive lines that match its
      patterns one by one, each field is the first capture of that field along them, and the message is
      all captured messages. A report of a looping matcher takes the header's lines and its own last line
      only, whatever was matched in between. */
  lemma ReportsAreFirstCaptures(m: Matcher, index: nat, lines: seq<LogLine>)
    requires IsCompiledMatcher(m)
    ensures AllCaptured(m, lines, Blocks(AutomatonOf(m), index, lines))
  {
    assert lines[0..] == lines;
    BlocksCaptured(m, index, lines, 0);
  }
}
