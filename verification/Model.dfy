/** The data model shared by every component: findings, scopes, lines, limits and counters. */
module Model {

  const U64_MAX: nat := 0xFFFF_FFFF_FFFF_FFFF
  const U32_MAX: nat := 0xFFFF_FFFF

  type u32 = x: nat | x <= U32_MAX
  type u64 = x: nat | x <= U64_MAX
  // The program's usize, on a 64-bit target.
  type usize = x: nat | x <= U64_MAX
  type byte = x: nat | x < 256

  datatype Option<+T> = None | Some(value: T)

  function Min(a: nat, b: nat): nat {
    if a <= b then a else b
  }

  // saturating_add on a 64-bit counter
  function SatAdd(a: nat, b: nat): u64 {
    Min(a + b, U64_MAX)
  }

  function SatSub(a: nat, b: nat): nat {
    if a <= b then 0 else a - b
  }

  datatype Severity = Error | Warning | Note

  datatype DiagnosticClass = Compiler | Test | Lint | Tool | Infrastructure

  // Best evidence first; the order of the constructors is the order of the program's enumeration.
  datatype EvidenceQuality = Located | Structured | Summary | Fallback

  datatype Stream = Stdout | Stderr | Combined | Annotation | StructuredStream

  // Every stream, in the order in which an ordered map enumerates them.
  const STREAMS: seq<Stream> := [Stdout, Stderr, Combined, Annotation, StructuredStream]

  function StreamName(stream: Stream): string {
    match stream
    case Stdout => "stdout"
    case Stderr => "stderr"
    case Combined => "combined"
    case Annotation => "annotation"
    case StructuredStream => "structured"
  }

  datatype ScopeKind = Invocation | Job | Step | Command | TestScope | Attempt | Other

  datatype EndReason = Complete | Truncated | Cancelled | Interrupted

  datatype Location = Location(
    path: string,
    line: Option<u32>,
    column: Option<u32>,
    endLine: Option<u32>,
    endColumn: Option<u32>)

  datatype Scope = Scope(id: string, kind: ScopeKind, scopeLabel: Option<string>)

  datatype Provenance = Provenance(
    source: string,
    title: Option<string>,
    scopeId: Option<string>,
    scopeKind: Option<ScopeKind>,
    stream: Option<Stream>,
    startLine: Option<u64>,
    endLine: Option<u64>,
    parser: Option<string>)
  {
    function WithLabel(text: string): Provenance {
      this.(title := Some(text))
    }

    function WithScope(scope: Scope): Provenance {
      this.(scopeId := Some(scope.id), scopeKind := Some(scope.kind),
            title := if title.None? then scope.scopeLabel else title)
    }

    function WithSpan(channel: Stream, first: u64, last: u64): Provenance {
      this.(stream := Some(channel), startLine := Some(first), endLine := Some(if last < first then first else last))
    }

    function WithParser(id: string): Provenance {
      this.(parser := Some(id))
    }
  }

  function NewProvenance(source: string): Provenance {
    Provenance(source, None, None, None, None, None, None, None)
  }

  datatype Diagnostic = Diagnostic(
    severity: Severity,
    class_: DiagnosticClass,
    code: Option<string>,
    message: string,
    location: Option<Location>,
    provenance: Option<Provenance>,
    quality: EvidenceQuality,
    count: u32)

  datatype TestFailure = TestFailure(
    name: string,
    message: string,
    framework: Option<string>,
    location: Option<Location>,
    provenance: Option<Provenance>)

  datatype Budget = Budget(maxBytes: usize, maxItems: usize)

  datatype Limits = Limits(maxScopes: usize, maxScopeBytes: usize, maxLineBytes: usize, maxCandidates: usize)

  datatype LogLine = LogLine(
    scope: Scope,
    stream: Stream,
    ordinal: u64,
    streamLine: u64,
    text: string,
    truncated: bool)

  datatype Stats = Stats(
    bytesSeen: u64,
    bytesRetained: u64,
    linesSeen: u64,
    truncatedLines: u64,
    scopesStarted: u64,
    scopesCompleted: u64,
    candidatesEmitted: u64,
    candidatesDropped: u64,
    omittedTestFailures: nat)

  const NO_STATS := Stats(0, 0, 0, 0, 0, 0, 0, 0, 0)

  datatype Reduction = Reduction(
    diagnostics: seq<Diagnostic>,
    testFailures: seq<TestFailure>,
    truncated: bool,
    omittedDiagnostics: nat,
    usedBytes: nat,
    stats: Stats)
}
