/** Streaming equals batch: the text that the diagnostic parser hands over when a scope ends is the
    normalization of all bytes pushed to the stream, and in every run it stays within its bound. */
module StreamingLemmas {
  import opened Model
  import opened Sequences
  import opened Utf8
  import opened Text
  import opened TextLemmas
  import opened Engine
  import opened Lifecycle
  import opened Isolation
  import opened Framing
  import opened Plan
  import opened Streaming

  // ---------------------------------------------------------------- the bound

  lemma SeparatedLength(text: string, more: string)
    ensures ByteLen(Separated(text, more)) <= ByteLen(text) + 1 + ByteLen(more)
  {
    if text != [] {
      ByteLenConcat(text, "\n");
      ByteLenConcat(text + "\n", more);
    }
  }

  lemma EmptyLength(s: string)
    ensures ByteLen(s) == 0 <==> s == []
  {
    ByteLenAtLeast(s);
  }

  ghost predicate Bounded(buffers: Buffers, maximum: usize) {
    forall stream | stream in buffers :: ByteLen(buffers[stream].text) <= maximum + 1
  }

  lemma AppendBounded(buffer: BufferedStream, line: LogLine, maximum: usize)
    requires ByteLen(buffer.text) <= maximum + 1 && ByteLen(line.text) <= U64_MAX
    ensures ByteLen(Append(buffer, line, maximum).text) <= maximum + 1
  {
    var available := SatSub(maximum, ByteLen(buffer.text));
    var part := Fit(line.text, Min(available, ByteLen(line.text)));
    SeparatedLength(buffer.text, line.text);
    SeparatedLength(buffer.text, part);
    EmptyLength(part);
  }

  // The parser's state after one more event, and after a trace.
  function NextState(before: ScopeBuffers, event: Event, maximum: usize): ScopeBuffers {
    match event
    case Line(line) => Observe(before, line, maximum)
    case Ended(scope, _, _) => before - {scope.id}
    case _ => before
  }

  function StateAfter(trace: seq<Event>, maximum: usize): ScopeBuffers {
    if trace == [] then map[]
    else NextState(StateAfter(trace[..|trace| - 1], maximum), trace[|trace| - 1], maximum)
  }

  // This is the state of the parser in any plan.
  lemma {:induction false} StateIsParserState(parse: string -> seq<Diagnostic>, maximum: usize, trace: seq<Event>)
    ensures Alone(DiagnosticParser(parse, maximum), map[], trace) == StateAfter(trace, maximum)
  {
    if trace != [] {
      StateIsParserState(parse, maximum, trace[..|trace| - 1]);
    }
  }

  // The length of every line is representable, as it is for any string in memory.
  predicate Representable(trace: seq<Event>) {
    forall i | 0 <= i < |trace| && trace[i].Line? :: ByteLen(trace[i].line.text) <= U64_MAX
  }

  /** After any trace at all, every buffered text is at most one byte longer than its limit: the
      separator before a cut line is not counted against it. */
  lemma {:induction false} BufferBound(trace: seq<Event>, maximum: usize)
    requires Representable(trace)
    ensures forall id | id in StateAfter(trace, maximum) :: Bounded(StateAfter(trace, maximum)[id], maximum)
  {
    if trace != [] {
      var before := StateAfter(trace[..|trace| - 1], maximum);
      BufferBound(trace[..|trace| - 1], maximum);
      if trace[|trace| - 1].Line? {
        var line := trace[|trace| - 1].line;
        var buffers := BuffersOf(before, line.scope.id);
        assert Bounded(buffers, maximum);
        var buffer := if line.stream in buffers then buffers[line.stream] else NewBuffer(line);
        AppendBounded(buffer, line, maximum);
      }
    }
  }

  lemma {:induction false} FullFit(s: string, maximum: nat)
    ensures ByteLen(Fit(s, maximum)) == maximum <==> IsCharBoundary(s, maximum)
  {
    if s != [] && maximum > 0 && |EncodeChar(s[0])| <= maximum {
      FullFit(s[1..], maximum - |EncodeChar(s[0])|);
      var rest := Fit(s[1..], maximum - |EncodeChar(s[0])|);
      assert ([s[0]] + rest)[1..] == rest;
    }
  }

  // The line does not fit, but fills exactly what is left beside a text.
  predicate FillsUp(buffer: BufferedStream, line: LogLine, maximum: usize) {
    var available := SatSub(maximum, ByteLen(buffer.text));
    buffer.text != [] && 0 < available <= ByteLen(line.text) && IsCharBoundary(line.text, available)
  }

  lemma SeparatedBytes(text: string, more: string)
    requires text != []
    ensures ByteLen(Separated(text, more)) == ByteLen(text) + 1 + ByteLen(more)
  {
    ByteLenConcat(text, "\n");
    ByteLenConcat(text + "\n", more);
    assert ByteLen("\n") == 1;
  }

  /** One line takes a buffer over its limit exactly if it is cut to precisely what is left beside an
      earlier text. */
  lemma AppendExceedsExactly(buffer: BufferedStream, line: LogLine, maximum: usize)
    requires ByteLen(line.text) <= U64_MAX
    ensures ByteLen(Append(buffer, line, maximum).text) > maximum <==>
              ByteLen(buffer.text) > maximum || FillsUp(buffer, line, maximum)
  {
    var available := SatSub(maximum, ByteLen(buffer.text));
    var part := Fit(line.text, Min(available, ByteLen(line.text)));
    EmptyLength(part);
    FullFit(line.text, available);
    if buffer.text != [] {
      SeparatedBytes(buffer.text, line.text);
      SeparatedBytes(buffer.text, part);
    }
  }

  // Since the scope last ended, some line has filled up the buffer of a stream.
  predicate WasFilled(trace: seq<Event>, id: string, stream: Stream, maximum: usize) {
    trace != [] &&
    var init, event := trace[..|trace| - 1], trace[|trace| - 1];
    match event
    case Ended(scope, _, _) => scope.id != id && WasFilled(init, id, stream, maximum)
    case Line(line) =>
      WasFilled(init, id, stream, maximum) ||
      (var buffers := BuffersOf(StateAfter(init, maximum), id);
       line.scope.id == id && line.stream == stream && stream in buffers && FillsUp(buffers[stream], line, maximum))
    case _ => WasFilled(init, id, stream, maximum)
  }

  predicate Exceeds(buffers: Buffers, stream: Stream, maximum: usize) {
    stream in buffers && ByteLen(buffers[stream].text) > maximum
  }

  /** After any trace, a buffered text is over its limit exactly if some line since the scope last ended
      was cut to precisely what was left. */
  lemma {:induction false} BufferExceedsExactly(trace: seq<Event>, id: string, stream: Stream, maximum: usize)
    requires Representable(trace)
    ensures Exceeds(BuffersOf(StateAfter(trace, maximum), id), stream, maximum) <==> WasFilled(trace, id, stream, maximum)
  {
    if trace != [] {
      var init, event := trace[..|trace| - 1], trace[|trace| - 1];
      BufferExceedsExactly(init, id, stream, maximum);
      if event.Line? && event.line.scope.id == id {
        LineExceedsExactly(BuffersOf(StateAfter(init, maximum), id), event.line, stream, maximum);
      }
    }
  }

  lemma LineExceedsExactly(buffers: Buffers, line: LogLine, stream: Stream, maximum: usize)
    requires ByteLen(line.text) <= U64_MAX
    ensures Exceeds(ObserveLine(buffers, line, maximum), stream, maximum) <==>
      Exceeds(buffers, stream, maximum) || (line.stream == stream && stream in buffers && FillsUp(buffers[stream], line, maximum))
  {
    if line.stream == stream {
      AppendExceedsExactly(if stream in buffers then buffers[stream] else NewBuffer(line), line, maximum);
    }
  }

  lemma TwoLines(first: LogLine, second: LogLine)
    requires first.scope.id == second.scope.id && first.stream == second.stream
    ensures var buffers := BuffersOf(StateAfter([Line(first), Line(second)], 2), first.scope.id);
      first.stream in buffers && buffers[first.stream] == Append(Append(NewBuffer(first), first, 2), second, 2)
  {
    var one, two := [Line(first)], [Line(first), Line(second)];
    assert one[..0] == [] && two[..1] == one;
    assert StateAfter(one, 2) == Observe(map[], first, 2);
  }

  /** It happens: two lines of one byte each take a buffer of two bytes over its limit. */
  lemma BufferBoundReached(first: LogLine, second: LogLine)
    requires first.scope.id == second.scope.id && first.stream == second.stream
    requires first.text == "a" && second.text == "b"
    ensures Exceeds(BuffersOf(StateAfter([Line(first), Line(second)], 2), first.scope.id), first.stream, 2)
  {
    TwoLines(first, second);
    assert ByteLen(first.text) == 1 && ByteLen(second.text) == 1;
    AppendExceedsExactly(Append(NewBuffer(first), first, 2), second, 2);
  }

  // ---------------------------------------------------------------- one scope

  // The buffers of one scope, from the events of that scope alone.
  function NextBuffers(before: Buffers, event: Event, maximum: usize): Buffers {
    match event
    case Line(line) => ObserveLine(before, line, maximum)
    case Ended(_, _, _) => map[]
    case _ => before
  }

  function BuffersAfter(events: seq<Event>, maximum: usize): Buffers {
    if events == [] then map[]
    else NextBuffers(BuffersAfter(events[..|events| - 1], maximum), events[|events| - 1], maximum)
  }

  lemma NextOfScope(before: ScopeBuffers, event: Event, id: string, maximum: usize)
    ensures BuffersOf(NextState(before, event, maximum), id) ==
      if ScopeOf(event) == Some(id) then NextBuffers(BuffersOf(before, id), WithoutOrdinal(event), maximum)
      else BuffersOf(before, id)
  {
  }

  lemma BuffersAppend(events: seq<Event>, event: Event, maximum: usize)
    ensures BuffersAfter(events + [event], maximum) == NextBuffers(BuffersAfter(events, maximum), event, maximum)
  {
    assert (events + [event])[..|events|] == events;
  }

  lemma {:induction false} BuffersOfScope(trace: seq<Event>, id: string, maximum: usize)
    ensures BuffersOf(StateAfter(trace, maximum), id) == BuffersAfter(Project(trace, id), maximum)
  {
    if trace != [] {
      var init, event := trace[..|trace| - 1], trace[|trace| - 1];
      BuffersOfScope(init, id, maximum);
      NextOfScope(StateAfter(init, maximum), event, id, maximum);
      BuffersAppend(Project(init, id), WithoutOrdinal(event), maximum);
    }
  }

  // A scope that is not open has nothing buffered.
  lemma {:induction false} ClosedScopeEmpty(trace: seq<Event>, id: string, maximum: usize)
    requires Watch(trace).Open? && id !in Watch(trace).scopes
    ensures BuffersAfter(Project(trace, id), maximum) == map[]
  {
    if trace != [] {
      var init, event := trace[..|trace| - 1], trace[|trace| - 1];
      var p := Project(init, id);
      if ScopeOf(event) == Some(id) {
        assert event.Ended?;
        assert Project(trace, id)[..|Project(trace, id)| - 1] == p;
      } else {
        ClosedScopeEmpty(init, id, maximum);
      }
    }
  }

  // ---------------------------------------------------------------- one stream

  // The texts of the lines of one stream.
  function Texts(events: seq<Event>, stream: Stream): seq<string> {
    if events == [] then []
    else
      var before := Texts(events[..|events| - 1], stream);
      match events[|events| - 1]
      case Line(line) => if line.stream == stream then before + [line.text] else before
      case _ => before
  }

  lemma {:induction false} JoinAppend(lines: seq<string>, last: string)
    requires forall i | 0 <= i < |lines| :: lines[i] != []
    ensures Join(lines + [last], '\n') == if lines == [] then last else Join(lines, '\n') + "\n" + last
    ensures lines != [] ==> Join(lines, '\n') != []
  {
    if lines != [] {
      assert (lines + [last])[1..] == lines[1..] + [last];
      JoinAppend(lines[1..], last);
      if |lines| == 1 {
        assert lines[1..] + [last] == [last];
      }
    }
  }

  // Every event is a line with some text.
  predicate OnlyLines(events: seq<Event>) {
    forall i | 0 <= i < |events| :: events[i].Line? && events[i].line.text != []
  }

  lemma {:induction false} TextsNonEmpty(events: seq<Event>, stream: Stream)
    requires OnlyLines(events)
    ensures forall i | 0 <= i < |Texts(events, stream)| :: Texts(events, stream)[i] != []
  {
    if events != [] {
      TextsNonEmpty(events[..|events| - 1], stream);
    }
  }

  // No line of the stream was cut.
  predicate NoneCut(events: seq<Event>, stream: Stream) {
    forall i | 0 <= i < |events| && events[i].Line? && events[i].line.stream == stream :: !events[i].line.truncated
  }

  // The joined lines stay within a limit, a single line even below it.
  predicate FitsBuffer(lines: seq<string>, maximum: usize) {
    lines == [] || (ByteLen(Join(lines, '\n')) <= maximum && (|lines| == 1 ==> ByteLen(Join(lines, '\n')) < maximum))
  }

  lemma FitsOneMore(lines: seq<string>, last: string, maximum: usize)
    requires forall i | 0 <= i < |lines| :: lines[i] != []
    ensures FitsBuffer(lines + [last], maximum) <==>
              FitsBuffer(lines, maximum) && ByteLen(Join(lines, '\n')) <= maximum
              && ByteLen(last) + 1 <= maximum - ByteLen(Join(lines, '\n'))
  {
    JoinAppend(lines, last);
    if lines != [] {
      SeparatedBytes(Join(lines, '\n'), last);
      assert Separated(Join(lines, '\n'), last) == Join(lines, '\n') + "\n" + last;
    }
  }

  // What the buffer of a stream is if nothing was cut: all its lines, and the numbers of the first and the last.
  function WholeBuffer(events: seq<Event>, stream: Stream): BufferedStream {
    var lines := LinesOf(events, stream);
    if lines == [] then BufferedStream([], 0, 0, false)
    else BufferedStream(Join(Texts(events, stream), '\n'), lines[0].number, lines[|lines| - 1].number, false)
  }

  ghost predicate HoldsLines(buffers: Buffers, events: seq<Event>, stream: Stream, maximum: usize) {
    && (stream in buffers <==> Texts(events, stream) != [])
    && (stream in buffers && NoneCut(events, stream) && FitsBuffer(Texts(events, stream), maximum) ==>
          buffers[stream] == WholeBuffer(events, stream))
    && (stream in buffers && !buffers[stream].truncated ==>
          NoneCut(events, stream) && FitsBuffer(Texts(events, stream), maximum))
  }

  lemma TextsAppend(events: seq<Event>, line: LogLine, stream: Stream)
    ensures Texts(events + [Line(line)], stream) ==
      if line.stream == stream then Texts(events, stream) + [line.text] else Texts(events, stream)
  {
    InitOfAppend(events, Line(line));
  }

  lemma WholeBufferAppend(events: seq<Event>, line: LogLine, stream: Stream)
    requires OnlyLines(events)
    ensures var more, whole := events + [Line(line)], WholeBuffer(events, stream);
      WholeBuffer(more, stream) ==
        if line.stream != stream then whole
        else if Texts(events, stream) == [] then BufferedStream(line.text, line.streamLine, line.streamLine, false)
        else whole.(text := Separated(whole.text, line.text), lastLine := line.streamLine)
  {
    LinesOfAppend(events, line, stream);
    TextsAppend(events, line, stream);
    TextsAreLines(events, stream);
    TextsNonEmpty(events, stream);
    JoinAppend(Texts(events, stream), line.text);
  }

  // The buffer takes the line whole, or says that it is not complete.
  lemma AppendWhole(buffer: BufferedStream, line: LogLine, maximum: usize)
    requires ByteLen(line.text) < U64_MAX
    ensures var fits := ByteLen(buffer.text) <= maximum && ByteLen(line.text) + 1 <= maximum - ByteLen(buffer.text);
      var after := Append(buffer, line, maximum);
      && (fits ==> after == buffer.(text := Separated(buffer.text, line.text), lastLine := line.streamLine,
                                    truncated := buffer.truncated || line.truncated))
      && (!after.truncated <==> fits && !buffer.truncated && !line.truncated)
  {
  }

  lemma HoldsFirst(buffers: Buffers, events: seq<Event>, line: LogLine, maximum: usize)
    requires HoldsLines(buffers, events, line.stream, maximum) && OnlyLines(events) && line.text != [] && ByteLen(line.text) < U64_MAX
    requires line.stream !in buffers
    ensures HoldsLines(ObserveLine(buffers, line, maximum), events + [Line(line)], line.stream, maximum)
  {
    var stream := line.stream;
    TextsAppend(events, line, stream);
    NoneCutAppend(events, line, stream);
    WholeBufferAppend(events, line, stream);
    AppendWhole(NewBuffer(line), line, maximum);
    FitsOneMore([], line.text, maximum);
    assert [] + [line.text] == [line.text];
    NoTextsNoCut(events, stream);
  }

  lemma {:induction false} NoTextsNoCut(events: seq<Event>, stream: Stream)
    requires Texts(events, stream) == []
    ensures NoneCut(events, stream)
  {
    forall i | 0 <= i < |events| && events[i].Line? ensures events[i].line.stream != stream {
      TextAmong(events, i);
    }
  }

  lemma HoldsNext(buffers: Buffers, events: seq<Event>, line: LogLine, maximum: usize)
    requires HoldsLines(buffers, events, line.stream, maximum) && OnlyLines(events) && ByteLen(line.text) < U64_MAX
    requires line.stream in buffers
    ensures HoldsLines(ObserveLine(buffers, line, maximum), events + [Line(line)], line.stream, maximum)
  {
    var stream := line.stream;
    TextsAppend(events, line, stream);
    NoneCutAppend(events, line, stream);
    WholeBufferAppend(events, line, stream);
    AppendWhole(buffers[stream], line, maximum);
    TextsNonEmpty(events, stream);
    TextsAreLines(events, stream);
    FitsOneMore(Texts(events, stream), line.text, maximum);
  }

  lemma HoldsOneMore(buffers: Buffers, events: seq<Event>, line: LogLine, stream: Stream, maximum: usize)
    requires HoldsLines(buffers, events, stream, maximum) && OnlyLines(events) && line.text != [] && ByteLen(line.text) < U64_MAX
    ensures HoldsLines(ObserveLine(buffers, line, maximum), events + [Line(line)], stream, maximum)
  {
    if line.stream != stream {
      TextsAppend(events, line, stream);
      NoneCutAppend(events, line, stream);
      WholeBufferAppend(events, line, stream);
    } else if stream in buffers {
      HoldsNext(buffers, events, line, maximum);
    } else {
      HoldsFirst(buffers, events, line, maximum);
    }
  }

  lemma NoneCutAppend(events: seq<Event>, line: LogLine, stream: Stream)
    ensures NoneCut(events + [Line(line)], stream) <==> NoneCut(events, stream) && (line.stream == stream ==> !line.truncated)
  {
    var more := events + [Line(line)];
    assert more[|events|] == Line(line);
    assert forall i | 0 <= i < |events| :: more[i] == events[i];
  }

  // Every event is a line short enough for its length and a separator to be counted.
  predicate ShortLines(events: seq<Event>) {
    forall i | 0 <= i < |events| :: events[i].Line? && ByteLen(events[i].line.text) < U64_MAX
  }

  lemma HoldsAfterLine(init: seq<Event>, line: LogLine, stream: Stream, maximum: usize)
    requires HoldsLines(BuffersAfter(init, maximum), init, stream, maximum)
    requires OnlyLines(init) && line.text != [] && ByteLen(line.text) < U64_MAX
    ensures HoldsLines(BuffersAfter(init + [Line(line)], maximum), init + [Line(line)], stream, maximum)
  {
    BuffersAppend(init, Line(line), maximum);
    HoldsOneMore(BuffersAfter(init, maximum), init, line, stream, maximum);
  }

  lemma LastLine(events: seq<Event>) returns (init: seq<Event>, line: LogLine)
    requires events != [] && OnlyLines(events) && ShortLines(events)
    ensures events == init + [Line(line)] && OnlyLines(init) && ShortLines(init)
    ensures line.text != [] && ByteLen(line.text) < U64_MAX
  {
    var last := events[|events| - 1];
    init, line := events[..|events| - 1], last.line;
    assert last == Line(line);
  }

  lemma HoldsNothing(stream: Stream, maximum: usize)
    ensures HoldsLines(map[], [], stream, maximum)
  {
  }

  /** The buffer of a stream says that it is complete exactly if no line was cut and the joined lines fit
      the limit; and then it holds exactly these lines. */
  lemma {:induction false} BufferedExactly(events: seq<Event>, stream: Stream, maximum: usize)
    requires OnlyLines(events) && ShortLines(events)
    ensures HoldsLines(BuffersAfter(events, maximum), events, stream, maximum)
    decreases |events|
  {
    if events == [] {
      HoldsNothing(stream, maximum);
    } else {
      var init, line := LastLine(events);
      BufferedExactly(init, stream, maximum);
      HoldsAfterLine(init, line, stream, maximum);
    }
  }

  // ---------------------------------------------------------------- delivered lines and batch text

  function DeliveredTexts(deliveries: seq<Delivery>): seq<string> {
    seq(|deliveries|, i requires 0 <= i < |deliveries| => deliveries[i].text)
  }

  /** Every raw line fits the line limit, and every terminated one leaves the escape scanner where
      normalizing it alone is right. */
  predicate CleanInput(limits: Limits, w: seq<byte>)
    decreases |w|
  {
    if FirstBreak(w) == |w| then |w| <= limits.maxLineBytes
    else
      var segment := w[..FirstBreak(w)];
      |segment| <= limits.maxLineBytes && EndsClean(Decode(segment)) && CleanInput(limits, AfterFirst(w))
  }

  lemma UnbrokenBytes(w: seq<byte>)
    requires forall i | 0 <= i < |w| :: !IsBreak(w[i])
    ensures CR !in w && LF !in w
  {
  }

  lemma DeliverWhole(limits: Limits, segment: seq<byte>)
    requires |segment| <= limits.maxLineBytes
    requires forall i | 0 <= i < |segment| :: !IsBreak(segment[i])
    ensures DeliveredTexts(Deliver(limits, segment)) == NormalLines(Decode(segment))
  {
    UnbrokenBytes(segment);
    assert segment[..Min(|segment|, limits.maxLineBytes)] == segment;
    FramedLineIsSingle(segment);
  }

  lemma DeliverFirst(limits: Limits, w: seq<byte>)
    requires FirstBreak(w) < |w|
    ensures Delivered(limits, w) == Deliver(limits, w[..FirstBreak(w)]) + Delivered(limits, AfterFirst(w))
  {
    DeliverConcat(limits, [w[..FirstBreak(w)]], SplitLines(AfterFirst(w)));
    DeliverConcat(limits, [w[..FirstBreak(w)]], []);
  }

  lemma TextsConcat(x: seq<Delivery>, y: seq<Delivery>)
    ensures DeliveredTexts(x + y) == DeliveredTexts(x) + DeliveredTexts(y)
  {
  }

  lemma TerminatorSplits(segment: seq<byte>, b: byte, tail: seq<byte>)
    requires IsBreak(b) && EndsClean(Decode(segment))
    ensures NormalLines(Decode(segment + [b] + tail)) == NormalLines(Decode(segment)) + NormalLines(Decode(tail))
  {
    DecodeSplit(segment, b, tail);
    Linewise(Decode(segment), b as char, Decode(tail));
  }

  // The LF of a CRLF is skipped.
  lemma AtMostLfSkipped(w: seq<byte>)
    requires FirstBreak(w) < |w|
    ensures w[FirstBreak(w) + 1..] == AfterFirst(w) || w[FirstBreak(w) + 1..] == [LF] + AfterFirst(w)
  {
    if AfterFirst(w) != w[FirstBreak(w) + 1..] {
      CutHead(w, FirstBreak(w) + 1);
    }
  }

  lemma LfIsBlank(tail: seq<byte>, rest: seq<byte>)
    requires tail == rest || tail == [LF] + rest
    ensures NormalLines(Decode(tail)) == NormalLines(Decode(rest))
  {
    LeadingBreak(rest);
  }

  // A terminator splits the batch normalization of the input, CRLF like CR alone.
  lemma BatchSplits(w: seq<byte>)
    requires FirstBreak(w) < |w| && EndsClean(Decode(w[..FirstBreak(w)]))
    ensures NormalLines(Decode(w)) == NormalLines(Decode(w[..FirstBreak(w)])) + NormalLines(Decode(AfterFirst(w)))
  {
    CutAt(w, FirstBreak(w));
    TerminatorSplits(w[..FirstBreak(w)], w[FirstBreak(w)], w[FirstBreak(w) + 1..]);
    AtMostLfSkipped(w);
    LfIsBlank(w[FirstBreak(w) + 1..], AfterFirst(w));
  }

  lemma LeadingBreak(rest: seq<byte>)
    ensures NormalLines(Decode([LF] + rest)) == NormalLines(Decode(rest))
  {
    assert [] + [LF] + rest == [LF] + rest;
    DecodeSplit([], LF, rest);
    Linewise("", '\n', Decode(rest));
    assert NormalLines("") == [];
  }

  /** What is delivered line by line is what normalizing the whole input at once gives. */
  lemma {:induction false} DeliveredIsBatch(limits: Limits, w: seq<byte>)
    requires CleanInput(limits, w)
    ensures DeliveredTexts(Delivered(limits, w)) == NormalLines(Decode(w))
    decreases |w|
  {
    if FirstBreak(w) == |w| {
      DeliverUnbroken(limits, w);
    } else {
      DeliverFirst(limits, w);
      DeliverWhole(limits, w[..FirstBreak(w)]);
      TextsConcat(Deliver(limits, w[..FirstBreak(w)]), Delivered(limits, AfterFirst(w)));
      BatchSplits(w);
      DeliveredIsBatch(limits, AfterFirst(w));
    }
  }

  lemma DeliverUnbroken(limits: Limits, w: seq<byte>)
    requires FirstBreak(w) == |w| && |w| <= limits.maxLineBytes
    ensures DeliveredTexts(Delivered(limits, w)) == NormalLines(Decode(w))
  {
    if w != [] {
      DeliverConcat(limits, [w], []);
      DeliverWhole(limits, w);
    }
  }

  // ---------------------------------------------------------------- the theorem

  lemma {:induction false} TextsOfNumbered(events: seq<Event>, stream: Stream, deliveries: seq<Delivery>)
    requires LinesOf(events, stream) == Number(deliveries)
    ensures Texts(events, stream) == DeliveredTexts(deliveries)
  {
    TextsAreLines(events, stream);
    assert |LinesOf(events, stream)| == |deliveries|;
  }

  lemma {:induction false} TextsAreLines(events: seq<Event>, stream: Stream)
    ensures |Texts(events, stream)| == |LinesOf(events, stream)|
    ensures forall i | 0 <= i < |LinesOf(events, stream)| :: Texts(events, stream)[i] == LinesOf(events, stream)[i].text
  {
    if events != [] {
      TextsAreLines(events[..|events| - 1], stream);
    }
  }

  lemma {:induction false} BuffersAfterBegin(base: seq<Event>, scope: Scope, body: seq<Event>, maximum: usize)
    requires BuffersAfter(base, maximum) == map[]
    ensures BuffersAfter(base + [Began(scope)] + body, maximum) == BuffersAfter(body, maximum)
  {
    var all := base + [Began(scope)] + body;
    if body == [] {
      assert all[..|all| - 1] == base;
    } else {
      assert all[..|all| - 1] == base + [Began(scope)] + body[..|body| - 1];
      BuffersAfterBegin(base, scope, body[..|body| - 1], maximum);
    }
  }

  // With clean input no delivered line is cut.
  lemma {:induction false} CleanIsUncut(limits: Limits, w: seq<byte>)
    requires CleanInput(limits, w)
    ensures forall i | 0 <= i < |Delivered(limits, w)| :: !Delivered(limits, w)[i].cut
    decreases |w|
  {
    if FirstBreak(w) == |w| {
      if w != [] {
        DeliverConcat(limits, [w], []);
      }
    } else {
      DeliverFirst(limits, w);
      CleanIsUncut(limits, AfterFirst(w));
    }
  }

  lemma {:induction false} UncutLines(events: seq<Event>, stream: Stream)
    requires forall i | 0 <= i < |LinesOf(events, stream)| :: !LinesOf(events, stream)[i].cut
    ensures NoneCut(events, stream)
  {
    if events != [] {
      var init := events[..|events| - 1];
      assert forall i | 0 <= i < |LinesOf(init, stream)| :: LinesOf(init, stream)[i] == LinesOf(events, stream)[i];
      UncutLines(init, stream);
      if events[|events| - 1].Line? && events[|events| - 1].line.stream == stream {
        assert !LinesOf(events, stream)[|LinesOf(init, stream)|].cut;
      }
    }
  }

  lemma PartOfJoin(lines: seq<string>, k: nat)
    requires k < |lines|
    ensures ByteLen(lines[k]) <= ByteLen(Join(lines, '\n'))
    ensures |lines| > 1 ==> ByteLen(lines[k]) < ByteLen(Join(lines, '\n'))
    decreases |lines|
  {
    if |lines| > 1 {
      var rest := Join(lines[1..], '\n');
      ByteLenConcat(lines[0] + ['\n'], rest);
      ByteLenConcat(lines[0], ['\n']);
      assert ByteLen(['\n']) == 1;
      if k > 0 {
        PartOfJoin(lines[1..], k - 1);
      }
    }
  }

  lemma {:induction false} TextAmong(events: seq<Event>, k: nat)
    requires k < |events| && events[k].Line?
    ensures events[k].line.text in Texts(events, events[k].line.stream)
  {
    var init := events[..|events| - 1];
    if k < |init| {
      assert init[k] == events[k];
      TextAmong(init, k);
    }
  }

  lemma FittingIsShort(events: seq<Event>, maximum: usize)
    requires OnlyLines(events) && forall stream :: FitsBuffer(Texts(events, stream), maximum)
    ensures ShortLines(events)
  {
    forall k | 0 <= k < |events| ensures ByteLen(events[k].line.text) < U64_MAX {
      var texts := Texts(events, events[k].line.stream);
      TextAmong(events, k);
      var i :| 0 <= i < |texts| && texts[i] == events[k].line.text;
      PartOfJoin(texts, i);
      assert FitsBuffer(texts, maximum);
    }
  }

  // The bytes of a stream are parsed in a stream as they are in a batch: the escape scanner is outside every
  // sequence at each line end, no line is too long, and the clean text fits the buffer.
  predicate ParsesWhole(limits: Limits, w: seq<byte>, maximum: usize) {
    CleanInput(limits, w) && FitsBuffer(NormalLines(Decode(w)), maximum)
  }

  // The longest beginning of whole characters that fits.
  predicate IsLongest(text: string, room: nat, k: nat) {
    k <= |text| && ByteLen(text[..k]) <= room && (k < |text| ==> ByteLen(text[..k + 1]) > room)
  }

  /** How one delivered line changes its buffer: it is appended behind a line feed if it fits with one, and else the
      longest beginning of whole characters that fits is, and the buffer is marked as cut. */
  lemma AppendExactly(buffer: BufferedStream, line: LogLine, maximum: usize)
    ensures var next := Append(buffer, line, maximum);
      var room := if ByteLen(buffer.text) <= maximum then maximum - ByteLen(buffer.text) else 0;
      var gap := if buffer.text == "" then "" else "\n";
      && next.firstLine == buffer.firstLine && next.lastLine == line.streamLine
      && if Min(ByteLen(line.text) + 1, U64_MAX) <= room
         then next.text == buffer.text + gap + line.text && next.truncated == (buffer.truncated || line.truncated)
         else
           next.truncated &&
           exists k: nat :: IsLongest(line.text, room, k)
             && next.text == if k == 0 then buffer.text else buffer.text + gap + line.text[..k]
  {
    var room := SatSub(maximum, ByteLen(buffer.text));
    var bound := Min(room, ByteLen(line.text));
    var part := Fit(line.text, bound);
    FitIsLongest(line.text, room, bound, part);
    assert IsLongest(line.text, room, |part|);
    SeparatedBy(buffer.text, line.text);
    SeparatedBy(buffer.text, part);
  }

  lemma SeparatedBy(text: string, more: string)
    ensures Separated(text, more) == text + (if text == "" then "" else "\n") + more
  {
    if text == "" {
      NothingInFront<char>("");
      NothingInFront(more);
    }
  }

  lemma OneMoreCharacter(text: string, k: nat)
    requires k < |text|
    ensures ByteLen(text[..k + 1]) == ByteLen(text[..k]) + |EncodeChar(text[k])|
  {
    var c := text[k];
    assert text[..k + 1] == text[..k] + [c];
    ByteLenConcat(text[..k], [c]);
    assert [c][1..] == [];
  }

  lemma FitIsLongest(text: string, room: nat, bound: nat, part: string)
    requires bound == Min(room, ByteLen(text)) && part == Fit(text, bound)
    ensures part == text[..|part|] && IsLongest(text, room, |part|)
  {
    var k := |part|;
    assert part == text[..k];
    if k < |text| {
      NextIsTooLong(text, room, bound, k);
    }
  }

  // The next character does not fit.
  lemma NextIsTooLong(text: string, room: nat, bound: nat, k: nat)
    requires bound == Min(room, ByteLen(text)) && k < |text| && ByteLen(text[..k]) + |EncodeChar(text[k])| > bound
    ensures ByteLen(text[..k + 1]) > room
  {
    OneMoreCharacter(text, k);
    PrefixIsShorter(text, k + 1);
  }

  lemma PrefixIsShorter(text: string, k: nat)
    requires k <= |text|
    ensures ByteLen(text[..k]) <= ByteLen(text)
  {
    ByteLenConcat(text[..k], text[k..]);
    assert text == text[..k] + text[k..];
  }

  /** How a parsed diagnostic is emitted: as it is, but located if it has a location, and with the scope, the stream
      and the lines of the buffer. */
  lemma StreamedExactly(d: Diagnostic, scope: Scope, stream: Stream, buffer: BufferedStream)
    ensures var e := Streamed(d, scope, stream, buffer, PARSER_ID);
      e.EmitDiagnostic? &&
      var emitted := e.diagnostic;
      && emitted == d.(quality := emitted.quality, provenance := emitted.provenance)
      && emitted.quality == (if d.location.Some? then Located else d.quality)
      && emitted.provenance.Some? &&
      var p := emitted.provenance.value;
      && p.source == StreamName(stream) && p.stream == Some(stream) && p.startLine == Some(buffer.firstLine)
      && p.endLine == Some(if buffer.lastLine < buffer.firstLine then buffer.firstLine else buffer.lastLine)
      && p.scopeId == Some(scope.id) && p.scopeKind == Some(scope.kind) && p.title == scope.scopeLabel
      && p.parser == Some("builtin.diagnostics.v1")
  {
  }

  // The buffer that holds the normalization of all bytes of a stream.
  function BatchBuffer(w: seq<byte>): BufferedStream {
    BufferedStream(Normalize(Decode(w)), 1, Min(|NormalLines(Decode(w))|, U64_MAX), false)
  }

  // What the batch reducer finds in the first n streams, with the span of all their lines.
  function BatchEmissions(parse: string -> seq<Diagnostic>, scope: Scope, pushed: seq<Tagged>, n: nat): seq<Emission>
    requires n <= |STREAMS|
  {
    if n == 0 then []
    else
      var before, w := BatchEmissions(parse, scope, pushed, n - 1), BytesOf(pushed, STREAMS[n - 1]);
      if Normalize(Decode(w)) == [] then before
      else before + StreamedAll(parse(Normalize(Decode(w))), scope, STREAMS[n - 1], BatchBuffer(w), PARSER_ID)
  }

  ghost predicate HoldsBatch(buffers: Buffers, stream: Stream, w: seq<byte>) {
    (stream in buffers <==> Normalize(Decode(w)) != []) && (stream in buffers ==> buffers[stream] == BatchBuffer(w))
  }

  lemma {:induction false} FlushIsBatch(parse: string -> seq<Diagnostic>, scope: Scope, buffers: Buffers, pushed: seq<Tagged>, n: nat)
    requires n <= |STREAMS| && forall stream :: HoldsBatch(buffers, stream, BytesOf(pushed, stream))
    ensures FlushUpTo(parse, scope, buffers, PARSER_ID, n) == BatchEmissions(parse, scope, pushed, n)
  {
    if n > 0 {
      FlushIsBatch(parse, scope, buffers, pushed, n - 1);
      assert HoldsBatch(buffers, STREAMS[n - 1], BytesOf(pushed, STREAMS[n - 1]));
    }
  }

  // The delivered lines of a stream with clean input are the clean lines of all its bytes, uncut.
  lemma CleanTexts(limits: Limits, body: seq<Event>, stream: Stream, w: seq<byte>)
    requires CleanInput(limits, w) && LinesOf(body, stream) == Number(Delivered(limits, w))
    ensures Texts(body, stream) == NormalLines(Decode(w)) && NoneCut(body, stream)
    ensures |LinesOf(body, stream)| == |NormalLines(Decode(w))|
  {
    TextsOfNumbered(body, stream, Delivered(limits, w));
    TextsAreLines(body, stream);
    DeliveredIsBatch(limits, w);
    CleanIsUncut(limits, w);
    UncutLines(body, stream);
  }

  lemma WholeIsBatch(body: seq<Event>, stream: Stream, deliveries: seq<Delivery>, w: seq<byte>)
    requires LinesOf(body, stream) == Number(deliveries) && |deliveries| == |NormalLines(Decode(w))| > 0
    requires Texts(body, stream) == NormalLines(Decode(w))
    ensures WholeBuffer(body, stream) == BatchBuffer(w)
  {
    var n := |deliveries|;
    assert LinesOf(body, stream)[0].number == 1 && LinesOf(body, stream)[n - 1].number == Min(n, U64_MAX);
  }

  lemma NormalizesToNothing(s: string)
    ensures Normalize(s) == [] <==> NormalLines(s) == []
  {
    NormalLinesAreNormal(s);
    if NormalLines(s) != [] {
      JoinKept(NormalLines(s), '\n');
    }
  }

  lemma BodyHoldsBatch(limits: Limits, body: seq<Event>, stream: Stream, w: seq<byte>, maximum: usize)
    requires OnlyLines(body) && ShortLines(body) && ParsesWhole(limits, w, maximum)
    requires LinesOf(body, stream) == Number(Delivered(limits, w))
    ensures HoldsBatch(BuffersAfter(body, maximum), stream, w)
  {
    CleanTexts(limits, body, stream, w);
    BufferedExactly(body, stream, maximum);
    NormalizesToNothing(Decode(w));
    if NormalLines(Decode(w)) != [] {
      WholeIsBatch(body, stream, Delivered(limits, w), w);
    }
  }

  lemma EmittedAtEnd(parse: string -> seq<Diagnostic>, maximum: usize, scopes: ScopeBuffers, event: Event)
    requires event.Ended?
    ensures React(DiagnosticParser(parse, maximum), scopes, event).1
      == FlushUpTo(parse, event.scope, BuffersOf(scopes, event.scope.id), PARSER_ID, |STREAMS|)
  {
    if event.scope.id !in scopes {
      NothingToFlush(parse, event.scope, |STREAMS|);
    }
  }

  lemma {:induction false} NothingToFlush(parse: string -> seq<Diagnostic>, scope: Scope, n: nat)
    requires n <= |STREAMS|
    ensures FlushUpTo(parse, scope, map[], PARSER_ID, n) == []
  {
    if n > 0 {
      NothingToFlush(parse, scope, n - 1);
    }
  }

  /** Batch and stream parse the same text. Let a scope begin in any reachable state, let anything happen
      while it stays open, let nothing pushed to it exceed what the scope retains, and let its streams be
      such that each can be parsed whole. Then the diagnostics emitted when the scope ends are, stream by
      stream, those parsed from the terminal normalization of all bytes pushed to the stream, which is
      what the batch reducer parses, with the span of all its lines; a stream that normalizes to nothing
      is not parsed. */
  lemma BatchStreamEquality(limits: Limits, before: seq<Op>, scope: Scope, during: seq<Op>, reason: EndReason,
                            parse: string -> seq<Diagnostic>, maximum: usize)
    returns (init: seq<Event>, last: Event)
    requires CanBegin(limits, Run(limits, before), scope)
    requires StaysOpen(during, scope.id)
    requires |Pushed(during, scope.id)| <= limits.maxScopeBytes
    requires forall stream :: ParsesWhole(limits, BytesOf(Pushed(during, scope.id), stream), maximum)
    ensures Run(limits, before + [Begin(scope)] + during + [End(scope.id, reason)]).trace == init + [last]
    ensures last.Ended? && last.scope == scope
    ensures var parser := DiagnosticParser(parse, maximum);
      React(parser, Alone(parser, map[], init), last).1
        == BatchEmissions(parse, scope, Pushed(during, scope.id), |STREAMS|)
  {
    var body := FramingRefinesSpec(limits, before, scope, during, reason);
    init, last := LastEvent(limits, before, scope, during, reason);
    var pushed, base := Pushed(during, scope.id), Project(Run(limits, before).trace, scope.id);
    var lost := |pushed| > limits.maxScopeBytes || AnyCut(body);
    ProjectAppend(init, last, scope.id);
    SplitLast(Project(init, scope.id), last, base + [Began(scope)] + body, Ended(scope, EffectiveReason(reason, lost), lost));
    BuffersAtEnd(limits, before, scope, init, body, maximum);
    LinesHaveText(limits, before, scope, during, reason, body);
    BodyHoldsAll(limits, body, pushed, maximum);
    StateIsParserState(parse, maximum, init);
    EmittedAtEnd(parse, maximum, StateAfter(init, maximum), last);
    FlushIsBatch(parse, scope, BuffersAfter(body, maximum), pushed, |STREAMS|);
  }

  lemma BuffersAtEnd(limits: Limits, before: seq<Op>, scope: Scope, init: seq<Event>, body: seq<Event>, maximum: usize)
    requires CanBegin(limits, Run(limits, before), scope)
    requires Project(init, scope.id) == Project(Run(limits, before).trace, scope.id) + [Began(scope)] + body
    ensures BuffersOf(StateAfter(init, maximum), scope.id) == BuffersAfter(body, maximum)
  {
    RunSafe(limits, before);
    ClosedScopeEmpty(Run(limits, before).trace, scope.id, maximum);
    BuffersAfterBegin(Project(Run(limits, before).trace, scope.id), scope, body, maximum);
    BuffersOfScope(init, scope.id, maximum);
  }

  lemma BodyHoldsAll(limits: Limits, body: seq<Event>, pushed: seq<Tagged>, maximum: usize)
    requires OnlyLines(body) && |pushed| <= limits.maxScopeBytes
    requires forall stream :: ParsesWhole(limits, BytesOf(pushed, stream), maximum)
    requires forall stream :: LinesOf(body, stream) == Number(Delivered(limits, Share(limits, pushed, stream)))
    ensures forall stream :: HoldsBatch(BuffersAfter(body, maximum), stream, BytesOf(pushed, stream))
  {
    assert Retained(limits, pushed) == pushed;
    forall stream ensures FitsBuffer(Texts(body, stream), maximum) {
      var w := BytesOf(pushed, stream);
      assert ParsesWhole(limits, w, maximum);
      TextsOfNumbered(body, stream, Delivered(limits, w));
      DeliveredIsBatch(limits, w);
    }
    FittingIsShort(body, maximum);
    forall stream ensures HoldsBatch(BuffersAfter(body, maximum), stream, BytesOf(pushed, stream)) {
      BodyHoldsBatch(limits, body, stream, BytesOf(pushed, stream), maximum);
    }
  }

  // Delivered lines are never blank.
  lemma {:induction false} ProjectHasText(trace: seq<Event>, id: string)
    requires Watch(trace) != Violated
    ensures forall i | 0 <= i < |Project(trace, id)| && Project(trace, id)[i].Line? :: Project(trace, id)[i].line.text != []
  {
    if trace != [] {
      ProjectHasText(trace[..|trace| - 1], id);
    }
  }

  lemma LinesHaveText(limits: Limits, before: seq<Op>, scope: Scope, during: seq<Op>, reason: EndReason, body: seq<Event>)
    requires AllLines(body, scope)
    requires exists last ::
      Project(Run(limits, before + [Begin(scope)] + during + [End(scope.id, reason)]).trace, scope.id) ==
      Project(Run(limits, before).trace, scope.id) + [Began(scope)] + body + [last]
    ensures OnlyLines(body)
  {
    var ops := before + [Begin(scope)] + during + [End(scope.id, reason)];
    RunSafe(limits, ops);
    ProjectHasText(Run(limits, ops).trace, scope.id);
    var shown, base := Project(Run(limits, ops).trace, scope.id), Project(Run(limits, before).trace, scope.id);
    forall i | 0 <= i < |body| ensures body[i].Line? && body[i].line.text != [] {
      assert shown[|base| + 1 + i] == body[i];
    }
  }

  // ---------------------------------------------------------------- the condition is needed

  lemma StripExample(whole: string)
    requires whole == "x\U{1B}\ny"
    ensures Strip(Ground, whole) == "xy"
  {
    assert whole[0..] == whole && whole[4..] == [];
    StripStep(Ground, whole, 0);
    StripStep(Ground, whole, 1);
    StripStep(Escape, whole, 2);
    StripStep(Ground, whole, 3);
  }

  lemma StripPieces(first: string, second: string)
    requires first == "x\U{1B}" && second == "y"
    ensures Strip(Ground, first) == "x" && Strip(Ground, second) == "y"
  {
    assert first[0..] == first && first[2..] == [] && second[1..] == [];
    StripStep(Ground, first, 0);
    StripStep(Ground, first, 1);
  }

  lemma NormalOneLine(s: string, visible: string)
    requires Strip(Ground, s) == visible && visible != [] && '\n' !in visible && !IsWhitespace(visible[|visible| - 1])
    ensures NormalLines(s) == [visible] && Normalize(s) == visible
  {
    OneLine(visible);
  }

  lemma Swallowed(whole: string)
    requires whole == "x\U{1B}\ny"
    ensures Normalize(whole) == "xy"
  {
    StripExample(whole);
    NormalOneLine(whole, "xy");
  }

  lemma LineByLine(first: string, second: string)
    requires first == "x\U{1B}" && second == "y"
    ensures Join(NormalLines(first) + NormalLines(second), '\n') == "x\ny"
  {
    StripPieces(first, second);
    NormalOneLine(first, "x");
    NormalOneLine(second, "y");
    assert ["x"] + ["y"] == ["x", "y"];
  }

  /** Without it the two texts can differ: an ESC at the end of a line swallows the terminator in the
      batch text but not between two lines. */
  lemma EscapeSwallowsTerminator(first: string, second: string)
    requires first == "x\U{1B}" && second == "y"
    ensures Normalize(first + "\n" + second) == "xy"
    ensures Join(NormalLines(first) + NormalLines(second), '\n') == "x\ny"
  {
    Swallowed(first + "\n" + second);
    LineByLine(first, second);
  }
}
