/** Exact line deduplication: the distinct lines in first-seen order, each with how often it occurs. */
module LineCounts {
  import opened Model
  import opened Text

  // The distinct elements in the order in which they first occur.
  function Distinct(lines: seq<string>): seq<string> {
    if lines == [] then []
    else
      var before, last := Distinct(lines[..|lines| - 1]), lines[|lines| - 1];
      if last in before then before else before + [last]
  }

  function Occurrences(lines: seq<string>, line: string): nat {
    if lines == [] then 0
    else Occurrences(lines[..|lines| - 1], line) + if lines[|lines| - 1] == line then 1 else 0
  }

  function Count(lines: seq<string>, line: string): u32 {
    Min(Occurrences(lines, line), U32_MAX)
  }

  function Counted(lines: seq<string>): seq<(string, u32)> {
    seq(|Distinct(lines)|, i requires 0 <= i < |Distinct(lines)| => (Distinct(lines)[i], Count(lines, Distinct(lines)[i])))
  }

  // The trimmed lines that are not blank.
  function Trimmed(lines: seq<string>): seq<string> {
    if lines == [] then []
    else
      var before, last := Trimmed(lines[..|lines| - 1]), Trim(lines[|lines| - 1]);
      if last == [] then before else before + [last]
  }

  /** The counters kept while lines are read: the order of first occurrences, and a saturating count for
      each line seen. */
  datatype Tally = Tally(order: seq<string>, counts: map<string, u32>)

  ghost predicate Tallies(tally: Tally, lines: seq<string>) {
    && tally.order == Distinct(lines)
    && (forall line :: line in tally.counts <==> line in tally.order)
    && (forall line | line in tally.counts :: tally.counts[line] == Count(lines, line))
  }

  lemma {:induction false} DistinctMembers(lines: seq<string>, line: string)
    ensures line in Distinct(lines) <==> line in lines
    ensures line in lines <==> Occurrences(lines, line) > 0
  {
    if lines != [] {
      DistinctMembers(lines[..|lines| - 1], line);
      assert lines == lines[..|lines| - 1] + [lines[|lines| - 1]];
    }
  }

  lemma TallyNext(tally: Tally, lines: seq<string>, line: string)
    requires Tallies(tally, lines)
    ensures Tallies(Add(tally, line), lines + [line])
  {
    var more := lines + [line];
    assert more[..|lines|] == lines;
    DistinctMembers(lines, line);
    forall other ensures Occurrences(more, other) == Occurrences(lines, other) + if line == other then 1 else 0 {
    }
  }

  function Add(tally: Tally, line: string): Tally {
    if line in tally.counts then
      var seen: nat := tally.counts[line];
      var count: u32 := Min(seen + 1, U32_MAX);
      tally.(counts := tally.counts[line := count])
    else Tally(tally.order + [line], tally.counts[line := 1])
  }

  // One more line in the counters.
  method AddLine(tally: Tally, line: string) returns (next: Tally)
    ensures next == Add(tally, line)
  {
    if line in tally.counts {
      var count := tally.counts[line];
      next := tally.(counts := tally.counts[line := if count == U32_MAX then count else count + 1]);
    } else {
      next := Tally(tally.order + [line], tally.counts[line := 1]);
    }
  }

  method Collect(tally: Tally, ghost lines: seq<string>) returns (counted: seq<(string, u32)>)
    requires Tallies(tally, lines)
    ensures counted == Counted(lines)
  {
    counted := seq(|tally.order|, i requires 0 <= i < |tally.order| =>
      (tally.order[i], if tally.order[i] in tally.counts then tally.counts[tally.order[i]] else 1));
  }

  lemma TrimmedNext(lines: seq<string>, i: nat)
    requires i < |lines|
    ensures Trimmed(lines[..i + 1]) == if Trim(lines[i]) == [] then Trimmed(lines[..i]) else Trimmed(lines[..i]) + [Trim(lines[i])]
  {
    assert lines[..i + 1][..i] == lines[..i];
  }

  // Counts the next raw line unless it is blank.
  method AddRaw(tally: Tally, lines: seq<string>, i: nat) returns (next: Tally)
    requires i < |lines| && Tallies(tally, Trimmed(lines[..i]))
    ensures Tallies(next, Trimmed(lines[..i + 1]))
  {
    TrimmedNext(lines, i);
    next := tally;
    var line := Trim(lines[i]);
    if line != [] {
      TallyNext(tally, Trimmed(lines[..i]), line);
      next := AddLine(tally, line);
    }
  }

  /** Deduplicates the nonblank trimmed lines of a text. */
  method DeduplicateLines(input: string) returns (counted: seq<(string, u32)>)
    ensures counted == Counted(Trimmed(Lines(input)))
  {
    var lines := Lines(input);
    var tally := Tally([], map[]);
    for i := 0 to |lines|
      invariant Tallies(tally, Trimmed(lines[..i]))
    {
      tally := AddRaw(tally, lines, i);
    }
    assert lines[..|lines|] == lines;
    counted := Collect(tally, Trimmed(lines));
  }

  // ---------------------------------------------------------------- what deduplication keeps

  /** No line is listed twice. */
  lemma {:induction false} DistinctIsDistinct(lines: seq<string>)
    ensures forall i, j | 0 <= i < j < |Distinct(lines)| :: Distinct(lines)[i] != Distinct(lines)[j]
  {
    if lines != [] {
      DistinctIsDistinct(lines[..|lines| - 1]);
    }
  }

  // The position of the first occurrence.
  function First(lines: seq<string>, line: string): (k: nat)
    requires line in lines
    ensures k < |lines| && lines[k] == line && forall i | 0 <= i < k :: lines[i] != line
  {
    if lines[0] == line then 0 else 1 + First(lines[1..], line)
  }

  lemma FirstOfLonger(lines: seq<string>, last: string, line: string)
    requires line in lines
    ensures First(lines + [last], line) == First(lines, line)
  {
    assert (lines + [last])[First(lines, line)] == line;
  }

  lemma FirstOfNew(lines: seq<string>, last: string)
    requires last !in lines
    ensures First(lines + [last], last) == |lines|
  {
    assert (lines + [last])[|lines|] == last;
  }

  /** Lines are listed in the order of their first occurrence. */
  lemma {:induction false} FirstSeenOrder(lines: seq<string>, i: nat, j: nat)
    requires i < j < |Distinct(lines)|
    ensures Distinct(lines)[i] in lines && Distinct(lines)[j] in lines
    ensures First(lines, Distinct(lines)[i]) < First(lines, Distinct(lines)[j])
  {
    var init, last := lines[..|lines| - 1], lines[|lines| - 1];
    assert lines == init + [last];
    var x, y := Distinct(lines)[i], Distinct(lines)[j];
    DistinctMembers(lines, x);
    DistinctMembers(lines, y);
    DistinctMembers(init, x);
    DistinctMembers(init, y);
    FirstOfLonger(init, last, x);
    if j < |Distinct(init)| {
      FirstSeenOrder(init, i, j);
      FirstOfLonger(init, last, y);
    } else {
      FirstOfNew(init, last);
    }
  }

  function Total(lines: seq<string>, distinct: seq<string>): nat {
    if distinct == [] then 0 else Total(lines, distinct[..|distinct| - 1]) + Occurrences(lines, distinct[|distinct| - 1])
  }

  lemma {:induction false} TotalOfLonger(lines: seq<string>, last: string, distinct: seq<string>)
    requires forall i, j | 0 <= i < j < |distinct| :: distinct[i] != distinct[j]
    ensures Total(lines + [last], distinct) == Total(lines, distinct) + if last in distinct then 1 else 0
  {
    if distinct != [] {
      var init := distinct[..|distinct| - 1];
      TotalOfLonger(lines, last, init);
      assert (lines + [last])[..|lines|] == lines;
      assert distinct == init + [distinct[|distinct| - 1]];
    }
  }

  /** No line is lost: the occurrences of the listed lines add up to all lines. */
  lemma {:induction false} CountsAddUp(lines: seq<string>)
    ensures Total(lines, Distinct(lines)) == |lines|
  {
    if lines != [] {
      var init, last := lines[..|lines| - 1], lines[|lines| - 1];
      assert lines == init + [last];
      CountsAddUp(init);
      DistinctIsDistinct(init);
      TotalOfLonger(init, last, Distinct(init));
      DistinctMembers(init, last);
      if last !in Distinct(init) {
        assert Distinct(lines)[..|Distinct(init)|] == Distinct(init);
        assert Occurrences(lines, last) == Occurrences(init, last) + 1;
      }
    }
  }
}
