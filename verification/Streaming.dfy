/** The bridge from delivered lines to the batch parsers: a bounded text buffer per scope and stream,
    handed to the parser registry when the scope ends. */
module Streaming {
  import opened Model
  import opened Utf8
  import opened Engine
  import opened Plan

  datatype BufferedStream = BufferedStream(text: string, firstLine: u64, lastLine: u64, truncated: bool)

  type Buffers = map<Stream, BufferedStream>

  function Separated(text: string, more: string): string {
    if text == [] then more else text + "\n" + more
  }

  // One delivered line into the buffer of its stream.
  function Append(buffer: BufferedStream, line: LogLine, maximum: usize): BufferedStream {
    var available := SatSub(maximum, ByteLen(buffer.text));
    if SatAdd(ByteLen(line.text), 1) <= available then
      buffer.(text := Separated(buffer.text, line.text), lastLine := line.streamLine,
              truncated := buffer.truncated || line.truncated)
    else
      var part := Fit(line.text, Min(available, ByteLen(line.text)));
      buffer.(text := if part == [] then buffer.text else Separated(buffer.text, part), lastLine := line.streamLine,
              truncated := true)
  }

  function NewBuffer(line: LogLine): BufferedStream {
    BufferedStream([], line.streamLine, line.streamLine, false)
  }

  function ObserveLine(buffers: Buffers, line: LogLine, maximum: usize): Buffers {
    var buffer := if line.stream in buffers then buffers[line.stream] else NewBuffer(line);
    buffers[line.stream := Append(buffer, line, maximum)]
  }

  // How parsed diagnostics are emitted: located ones say so, all carry the span of the buffer.
  function Streamed(d: Diagnostic, scope: Scope, stream: Stream, buffer: BufferedStream, parserId: string): Emission {
    EmitDiagnostic(d.(
      quality := if d.location.Some? then Located else d.quality,
      provenance := Some(NewProvenance(StreamName(stream)).WithScope(scope)
        .WithSpan(stream, buffer.firstLine, buffer.lastLine).WithParser(parserId))))
  }

  function StreamedAll(ds: seq<Diagnostic>, scope: Scope, stream: Stream, buffer: BufferedStream, parserId: string): seq<Emission> {
    seq(|ds|, i requires 0 <= i < |ds| => Streamed(ds[i], scope, stream, buffer, parserId))
  }

  // The buffers of the first n streams, parsed as texts.
  function FlushUpTo(parse: string -> seq<Diagnostic>, scope: Scope, buffers: Buffers, parserId: string, n: nat): seq<Emission>
    requires n <= |STREAMS|
  {
    if n == 0 then []
    else
      var before := FlushUpTo(parse, scope, buffers, parserId, n - 1);
      var stream := STREAMS[n - 1];
      if stream in buffers
      then before + StreamedAll(parse(buffers[stream].text), scope, stream, buffers[stream], parserId)
      else before
  }

  const PARSER_ID := "builtin.diagnostics.v1"

  // ---------------------------------------------------------------- the parser on values

  type ScopeBuffers = map<string, Buffers>

  function BuffersOf(scopes: ScopeBuffers, id: string): Buffers {
    if id in scopes then scopes[id] else map[]
  }

  function Observe(scopes: ScopeBuffers, line: LogLine, maximum: usize): ScopeBuffers {
    scopes[line.scope.id := ObserveLine(BuffersOf(scopes, line.scope.id), line, maximum)]
  }

  function Boundary(parse: string -> seq<Diagnostic>, scopes: ScopeBuffers, event: Event): (ScopeBuffers, seq<Emission>) {
    if event.Ended? && event.scope.id in scopes
    then (scopes - {event.scope.id}, FlushUpTo(parse, event.scope, scopes[event.scope.id], PARSER_ID, |STREAMS|))
    else (scopes, [])
  }

  // The built-in diagnostic parser as a member of a plan.
  function DiagnosticParser(parse: string -> seq<Diagnostic>, maximum: usize): Parser<ScopeBuffers> {
    Parser(PARSER_ID,
      (scopes, line) => (Observe(scopes, line, maximum), []),
      (scopes, event) => Boundary(parse, scopes, event),
      scopes => (scopes, []))
  }

  // ---------------------------------------------------------------- the parser as a class

  class BuiltinDiagnosticParser {
    const maximum: usize
    const parse: string -> seq<Diagnostic>
    var scopes: ScopeBuffers

    constructor (maximum: usize, parse: string -> seq<Diagnostic>)
      ensures scopes == map[] && this.maximum == maximum && this.parse == parse
    {
      this.maximum, this.parse, scopes := maximum, parse, map[];
    }

    method AppendLine(buffer: BufferedStream, line: LogLine) returns (next: BufferedStream)
      ensures next == Append(buffer, line, maximum)
    {
      next := buffer.(lastLine := line.streamLine);
      var required := SatAdd(ByteLen(line.text), 1);
      var available := SatSub(maximum, ByteLen(buffer.text));
      if required <= available {
        next := next.(text := Separated(next.text, line.text));
      } else {
        next := next.(truncated := true);
        var boundary := FloorBoundary(line.text, Min(available, ByteLen(line.text)));
        if boundary > 0 {
          next := next.(text := Separated(next.text, SliceTo(line.text, boundary)));
        }
      }
      next := next.(truncated := next.truncated || line.truncated);
    }

    method ObserveDelivered(line: LogLine)
      modifies this
      ensures scopes == Observe(old(scopes), line, maximum)
    {
      var id := line.scope.id;
      if id !in scopes {
        scopes := scopes[id := map[]];
      }
      var streams := scopes[id];
      var buffer := AppendLine(if line.stream in streams then streams[line.stream] else NewBuffer(line), line);
      scopes := scopes[id := streams[line.stream := buffer]];
    }

    method FlushScope(scope: Scope) returns (emissions: seq<Emission>)
      modifies this
      ensures (scopes, emissions) == Boundary(parse, old(scopes), Ended(scope, Complete, false))
    {
      emissions := [];
      if scope.id !in scopes {
        return;
      }
      var streams := scopes[scope.id];
      scopes := scopes - {scope.id};
      for n := 0 to |STREAMS|
        invariant emissions == FlushUpTo(parse, scope, streams, PARSER_ID, n)
      {
        var stream := STREAMS[n];
        if stream in streams {
          var parsed := parse(streams[stream].text);
          emissions := emissions + StreamedAll(parsed, scope, stream, streams[stream], PARSER_ID);
        }
      }
    }
  }
}
