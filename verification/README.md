# logcompact, modelled and verified

logcompact reduces build and test logs to a bounded list of findings. A session receives chunks of bytes for
streams of scopes, frames them into lines, strips terminal escape sequences, shows every line to a plan of parser
state machines under hard bounds, and finally suppresses, deduplicates, ranks and budgets what the parsers emitted.
This project models that machinery in Dafny and proves what the reducer promises of it. `dafny verify dfyconfig.toml`
checks everything.

## How the model is built

* **Session.** The framing half of a session (`Engine`) is a state machine on values that never looks at what parsers
  do; it records a *trace* of the events parsers are shown. A parser (`Plan`) is any deterministic machine from its
  state and an event to its next state and its emissions, so every theorem about traces holds for every plan;
  `Candidates` says what the candidate store then holds. The class `Session.ReductionSession` keeps the scopes, line
  buffers, counters and candidate store that the program keeps, updates them in place, and each of its methods is proved
  to do one step of that machine. A line buffer that is absent and one that is empty are the same state.
* **Text.** `Utf8` and `Text` hold lossy decoding, the escape-sequence automaton (section 5.4 of ECMA-48 gives the final
  byte of a control sequence), line clean-up and the ASCII fast path; the character loops are methods proved against
  the automaton. `Decoding` tells decoding by encodings alone, and `Escapes` what is shown by the grammar of the text.
* **Finalizer.** `Finalize` follows the passes over the candidates, with loops where the program loops; `Sorting` gives
  the stable library sort its meaning, `Sanitizing` says what becomes of every text, `FinalizeExact` spells out the
  comparisons, `FailureRanking` says what becomes of equal test failures, and `Counters` what the counters and the
  truncation flag of a whole run mean. Serialized size, redaction and path mapping are abstract functions.
* **Problem matchers.** `MatchMachine` is the multiline matching machine for any kind of capture, `MatchSpec` the
  recursive description of what it reports, `MatchBounds` when it gives up, `MatchCaptures` says which captures a report
  holds, `ProblemMatcher` has the capture and emission rules and the parser class, and `MatchEmissions` says what a
  match is reported as. A regular expression is a function from a line to optional captures.
* **Test logs and stack traces.** `TestFailures` and `TestAccumulator` model the accumulator for libtest, GoogleTest and
  Go with all its line recognizers, `TestReports` and `GoReports` what is reported of a test that fails, `TestNames` that
  nothing else is, `GoCompaction` what later lines see of its compaction, and `TestLog` the streaming parser around it.
  `StackTraces` is the machine shared by `JavaTraces` and `NodeTraces`; `RustCompiler` and `JavaCompiler` are the rustc and
  javac reducers, `Gates` the scan that decides which of them run, and `GateHints` the words it looks for. `Recognizers`
  reads back what the frameworks, compilers and runtimes write, and `LineKinds` says what such a line is to
  the stack traces.
* **Printer.** `GitHub` prints workflow commands and decodes them again.

Counters are 64 bits wide and saturate, repetition counts and coordinates are 32 bits wide, and `usize` is 64 bits wide.

## What was found

Seven properties one might expect do not hold of the program. For each the project gives an input on which it fails and
the exact condition under which it holds.

* Normalizing line by line is not normalizing the whole text when a line ends inside an escape sequence
  (`StreamingLemmas.EscapeSwallowsTerminator`); `TextLemmas.LinewiseExactly` says when it is.
* The cheap filter in front of the test-failure accumulator turns away indented status lines
  (`TestFailureLemmas.IndentedStatusIsLost`); `PreFilterExactly` says when it is lossless.
* Compaction of Go blocks is invisible at the end of a log, but on a log in which a test fails twice in the same way it
  is seen by a panic that follows (`GoCompaction.CompactionVisibleToPanic`). No line sees it unless the last block of the
  test is a failed one that repeats an earlier one (`CompactionInvisibleToLine`), and `CompactionSeenExactly` says of every
  line when it sees it.
* The gate in front of the Node reducer suppresses exceptions that only runtime frames confirm
  (`Gates.NativeOnlyErrorIsLost`); `NodeGateExactly` says when.
* The text buffered for a scope can exceed its limit (`StreamingLemmas.BufferBoundReached`), by one byte at most
  (`BufferBound`), and exactly after a line was cut to precisely what was left (`BufferExceedsExactly`).
* Equal test failures are not always merged (`FailureRanking.RepeatedAroundAnother`): they are exactly if equal ones of
  one provenance and name come one after the other (`MergedExactly`).
* A reduction does not say that it is truncated because a scope was cut at its byte limit
  (`Counters.CutScopeIsNotTruncation`); `TruncatedExactly` says when it does.

## Model

| member | source | states |
|---|---|---|
| Session.ChunkInvariantReduction | crates/logcompact-core/src/session.rs:222-343 | for every plan, policy and limits, runs that differ only in how the bytes of a stream are cut into chunks return equal reductions, counters included |
| ChunkInvariance.PushConcat | crates/logcompact-core/src/session.rs:222-269 | pushing two chunks in a row reaches the state that pushing their concatenation reaches, limits and counters included |
| ChunkInvariance.PushEmpty | crates/logcompact-core/src/session.rs:222-269 | pushing an empty chunk changes nothing |
| ChunkInvariance.SameTrace | crates/logcompact-core/src/session.rs:222-304 | runs with the same bytewise form reach the same state and show parsers the same trace |
| ChunkInvariance.JoiningKeepsBytewise | crates/logcompact-core/src/session.rs:222-269 | joining adjacent chunks of one stream anywhere in a run keeps its bytewise form, so it is covered by the invariance |
| Session.ReductionSession.BeginScope | crates/logcompact-core/src/session.rs:200-220 | a begin is accepted exactly when the scope is not open and there is room; otherwise it is counted as dropped and nothing else changes |
| Session.ReductionSession.PushChunk | crates/logcompact-core/src/session.rs:222-269 | the byte loop over the retained part of a chunk is the specified framing step; a chunk for an unknown scope changes nothing |
| Session.ReductionSession.DispatchBytes | crates/logcompact-core/src/session.rs:345-384 | a framed line that is not blank is numbered, counted and shown to every parser in plan order |
| Session.ReductionSession.EndScope | crates/logcompact-core/src/session.rs:271-305 | ending a scope flushes its unfinished lines in stream order, removes its buffers and shows the end with the effective reason |
| Session.ReductionSession.Show | crates/logcompact-core/src/session.rs:386-404 | one event reaches every parser in plan order, and the candidate store gains exactly what they emit, within its limit |
| Session.ReductionSession.Finish | crates/logcompact-core/src/session.rs:307-343 | open scopes are ended as interrupted in order of their identifiers, parsers finish, and the result is the finalization of the stored candidates |
| Session.Drive | crates/logcompact-core/src/session.rs:185-343 | driving the class through any run returns the reduction of that run |
| Plan.CandidateStore.AddDiagnostic | crates/logcompact-core/src/session.rs:123-138 | a diagnostic is stored or counted as one step of the store does; what the store then holds is `Candidates.StoredExactly` |
| Plan.CandidateStore.AddTestFailure | crates/logcompact-core/src/session.rs:140-156 | the same for test failures, under the same shared limit |
| Plan.CandidatesConserved | crates/logcompact-core/src/session.rs:117-156 | over any trace and plan, at most the maximum is stored, and every attempted emission is either stored or counted as dropped |
| Candidates.StoredExactly | crates/logcompact-core/src/session.rs:94-156 | after any trace, for any plan, the store holds the first emissions that ask for a place, up to the limit, in order; each is as it was emitted, but a missing provenance names the source, parser, scope, stream and line of its event; all others are counted |
| Candidates.OffersOfParser | crates/logcompact-core/src/session.rs:359-404 | what a parser offers within a plan is what it emits by itself |
| Plan.ParserIndependence | crates/logcompact-core/src/session.rs:359-404 | every parser of a plan goes through the states it would go through by itself |
| Framing.FramingRefinesSpec | crates/logcompact-core/src/session.rs:222-304 | between begin and end of a scope, in any run, the lines of each stream are its share of the first retained bytes, split at CR, LF and CRLF, cut to the line limit, normalized, without blanks, numbered from 1; the end reports lost input exactly when bytes exceeded the limit or a delivered line was cut |
| Framing.UnclosedScope | crates/logcompact-core/src/session.rs:307-311 | a scope still open at the end is delivered in the same way and ends as interrupted |
| Framing.CrTrackingInvisible | crates/logcompact-core/src/session.rs:247-266 | remembering a CR before an LF avoids empty segments only: the non-empty segments are those of splitting at every CR and every LF |
| Framing.DeliveredByByte | crates/logcompact-core/src/session.rs:247-266 | the terminated and open segments of the byte loop deliver what splitting the whole input delivers |
| Lifecycle.RunSafe | crates/logcompact-core/src/session.rs:200-384 | in every reachable state events match per scope and are numbered consecutively, buffers exist for open scopes only, limits hold, and the line and scope counters equal what the trace contains, up to saturation |
| Lifecycle.FinishSafe | crates/logcompact-core/src/session.rs:307-343 | a finished session has ended every scope it began, then shown one final event, and keeps no scope and no byte |
| Lifecycle.BeginExactly | crates/logcompact-core/src/session.rs:200-220 | in every run a begin is shown to parsers exactly if its scope is not open there and fewer scopes than the limit are; otherwise it is counted and changes nothing else |
| Lifecycle.FinishInOrder | crates/logcompact-core/src/session.rs:307-311 | finishing ends every scope that parsers were left open, once and in ascending order of identifiers |
| Lifecycle.IdLessExactly | crates/logcompact-core/src/session.rs:307-311 | identifiers compare at the first character where they differ, a beginning coming first |
| Isolation.ScopeIsolation | crates/logcompact-core/src/session.rs:200-384 | unless a begin of the scope is refused for room, what parsers are shown of it equals the run with all other scopes' operations erased |
| Text.NormalizeTerminalText | crates/logcompact-core/src/text.rs:6-53 | the character loop with its lookahead computes the automaton's visible text, right-trimmed without blank lines |
| Text.StripControls | crates/logcompact-core/src/text.rs:8-44 | the loop over characters equals the escape automaton run from its ground state |
| TextLemmas.NormalizeIdempotent | crates/logcompact-core/src/text.rs:6-53 | normalizing twice is normalizing once |
| TextLemmas.NormalizeFixedPoints | crates/logcompact-core/src/text.rs:6-53 | the fixed points are exactly the joins of visible, right-trimmed lines without control characters |
| TextLemmas.NormalLinesAreNormal | crates/logcompact-core/src/text.rs:6-53 | every line of a normalized text is visible, right-trimmed and free of control characters |
| TextLemmas.Linewise | crates/logcompact-core/src/text.rs:6-53 | a line that ends outside every escape sequence contributes the same clean lines alone and inside the whole text |
| TextLemmas.LinewiseExactly | crates/logcompact-core/src/text.rs:6-53 | that condition is exact: for every other line some continuation tells the two apart |
| TextLemmas.FastPath | crates/logcompact-core/src/text.rs:55-64 | the ASCII fast path computes what the general path computes |
| TextLemmas.FramedLineIsSingle | crates/logcompact-core/src/text.rs:55-64 | a framed line normalizes to at most one clean line |
| Escapes.EveryText | crates/logcompact-core/src/text.rs:6-44 | every text is a sequence of characters, control sequences, commands and two-character escapes, perhaps with an unfinished one at the end, and exactly its characters are shown |
| Escapes.PiecesShown | crates/logcompact-core/src/text.rs:6-44 | conversely any such sequence shows its characters: tabs, line feeds and printable ones as themselves, a carriage return as a line feed, other control characters not at all |
| Escapes.ControlSequence | crates/logcompact-core/src/text.rs:13-20 | ESC [, characters outside 0x40 to 0x7E and one of these show nothing, whatever follows |
| Escapes.OperatingSystemCommand | crates/logcompact-core/src/text.rs:21-32 | ESC ] and a body show nothing up to the first BEL or ESC \ |
| Escapes.TwoCharacters | crates/logcompact-core/src/text.rs:33-37 | ESC and any other character show nothing |
| Escapes.Unfinished | crates/logcompact-core/src/text.rs:11-39 | a sequence that is not finished shows nothing to the end of the text |
| Escapes.NormalizedLines | crates/logcompact-core/src/text.rs:6-53 | the clean lines are the parts of what is shown between line feeds that are not blank, without the whitespace at their ends |
| Escapes.LinesOfParts | crates/logcompact-core/src/text.rs:46-52 | the lines of a text are its parts between line feeds, each without one carriage return before its line feed, and no empty line at the end |
| Utf8.DecodeSplit | crates/logcompact-core/src/text.rs:6-8 | lossy decoding distributes over every ASCII byte, so input may be cut into lines before decoding |
| Utf8.DecodeEncode | crates/logcompact-core/src/finalize.rs:157-160 | text survives encoding and lossy decoding unchanged |
| Utf8.EncodeLength | crates/logcompact-builtins/src/test_failures.rs:767-770 | the length of a text counted in bytes is that of its encoding |
| Decoding.NextExactly | crates/logcompact-core/src/text.rs:6-8 | lossy decoding takes the character whose encoding comes next; where none does, one replacement character stands for the longest beginning of an encoding, or for one byte |
| LineCounts.DeduplicateLines | crates/logcompact-core/src/text.rs:66-83 | the loop returns the distinct nonblank trimmed lines with their saturated counts |
| LineCounts.DistinctIsDistinct | crates/logcompact-core/src/text.rs:66-83 | no line is listed twice |
| LineCounts.FirstSeenOrder | crates/logcompact-core/src/text.rs:66-83 | lines are listed in the order of their first occurrence |
| LineCounts.CountsAddUp | crates/logcompact-core/src/text.rs:66-83 | the occurrences of the listed lines add up to all lines |
| StreamingLemmas.BatchStreamEquality | crates/logcompact-builtins/src/streaming.rs:65-146 | when raw lines end outside escape sequences and the clean text of every stream fits the buffer, what the parser emits at the end of a scope is, stream by stream, what parsing the normalization of all pushed bytes gives, with the span of all their lines |
| StreamingLemmas.BufferedExactly | crates/logcompact-builtins/src/streaming.rs:98-140 | a buffer says that it is complete exactly if no line was cut and the joined lines fit the limit, and then it holds exactly these lines with the numbers of the first and the last |
| StreamingLemmas.DeliveredIsBatch | crates/logcompact-builtins/src/diagnostics/mod.rs:173-181 | the lines delivered one by one are the clean lines of the whole input |
| StreamingLemmas.BufferBound | crates/logcompact-builtins/src/streaming.rs:112-140 | after any trace every buffered text is at most one byte longer than its limit |
| StreamingLemmas.BufferBoundReached | crates/logcompact-builtins/src/streaming.rs:121-139 | two delivered lines of one byte each take a buffer of two bytes over its limit |
| StreamingLemmas.AppendExceedsExactly | crates/logcompact-builtins/src/streaming.rs:115-139 | one line takes a buffer over its limit exactly if it is cut, at a character boundary, to precisely what is left beside an earlier text |
| StreamingLemmas.BufferExceedsExactly | crates/logcompact-builtins/src/streaming.rs:98-146 | after any trace a buffer is over its limit exactly if some line since its scope last ended did that |
| StreamingLemmas.AppendExactly | crates/logcompact-builtins/src/streaming.rs:98-140 | a line is appended behind a line feed if it fits with one; else the longest beginning of whole characters that fits is, and the buffer is marked as cut |
| StreamingLemmas.StreamedExactly | crates/logcompact-builtins/src/streaming.rs:65-90 | a parsed diagnostic is emitted as it is, but located if it has a location, and with the scope, stream and lines of the buffer |
| StreamingLemmas.StateIsParserState | crates/logcompact-builtins/src/streaming.rs:98-146 | the state these theorems speak of is the state the parser has in any plan |
| StreamingLemmas.EscapeSwallowsTerminator | crates/logcompact-core/src/text.rs:11-38 | an ESC at the end of a line swallows the terminator in the whole text but not between two lines |
| Streaming.BuiltinDiagnosticParser.ObserveDelivered | crates/logcompact-builtins/src/streaming.rs:98-140 | one delivered line is appended to the buffer of its stream, cut at a character boundary when it does not fit |
| Streaming.BuiltinDiagnosticParser.FlushScope | crates/logcompact-builtins/src/streaming.rs:65-90 | ending a scope parses the buffered texts in stream order and forgets them |
| Finalize.FinalizeFindings | crates/logcompact-core/src/finalize.rs:19-120 | the passes together compute the specified reduction |
| Finalize.SuppressOverlappedFallbacks | crates/logcompact-core/src/finalize.rs:167-185 | the pass over the candidates keeps the unsuppressed ones in order |
| Finalize.Deduplicate | crates/logcompact-core/src/finalize.rs:59-79 | the loop with its position index merges each finding into the first of its identity |
| Finalize.RetainSerialized | crates/logcompact-core/src/finalize.rs:100-136 | the byte pass keeps what still fits and skips the rest |
| FinalizeLemmas.SuppressionExact | crates/logcompact-core/src/finalize.rs:167-200 | suppression removes exactly the fallbacks whose span overlaps, in the same scope and stream, the span of a finding that is no fallback |
| FinalizeLemmas.DedupGroups | crates/logcompact-core/src/finalize.rs:59-79 | identities are pairwise distinct and in first-seen order, each count is the saturated sum of its group, each quality the best of its group |
| FinalizeExact.SameIdentityExactly | crates/logcompact-core/src/finalize.rs:59-79 | two findings are merged exactly if they differ at most in quality and count |
| FinalizeExact.BetterExactly | crates/logcompact-core/src/finalize.rs:68-74 | of two qualities the better one is kept, located before structured before summary before fallback |
| FinalizeExact.SuppressionInOrder | crates/logcompact-core/src/finalize.rs:167-200 | suppression drops, in order, exactly the fallbacks that share a scope, a stream and lines with a finding that is none |
| FinalizeLemmas.RankedOrder | crates/logcompact-core/src/finalize.rs:57-81 | what is ranked is a permutation of the deduplicated survivors, ordered by rank, ties in their order before |
| FinalizeLemmas.RankOrderIsTotal | crates/logcompact-core/src/policy.rs:50-90 | rank keys order diagnostics totally |
| FinalizeLemmas.FailureOrderIsTotal | crates/logcompact-core/src/finalize.rs:82-86 | provenance and name order test failures totally |
| FinalizeExact.FailureOrderExactly | crates/logcompact-core/src/finalize.rs:82-86 | failures compare by provenance, field by field, and then by name; one without provenance comes first |
| FinalizeExact.ReturnedInDefaultOrder | crates/logcompact-core/src/policy.rs:62-90 | under the default policy findings are returned by severity, then class, then quality, then first line |
| FinalizeLemmas.GreedyPass | crates/logcompact-core/src/finalize.rs:100-136 | one byte pass keeps a subsequence, uses the saturated sum of the kept sizes, stays within the maximum, and skips only what would not fit beside the final set |
| FinalizeLemmas.BudgetSpent | crates/logcompact-core/src/finalize.rs:89-119 | items and bytes stay within the budget, used bytes are the sizes returned, retained and omitted add up for both kinds, and truncated says exactly that something was omitted, dropped or cut |
| FinalizeLemmas.OmittedExactly | crates/logcompact-core/src/finalize.rs:89-105 | no diagnostic is omitted exactly if the ranked ones are few enough and their sizes fit together |
| FinalizeLemmas.FailuresOmittedExactly | crates/logcompact-core/src/finalize.rs:93-106 | no test failure is omitted exactly if the ranked ones find enough items and bytes beside the returned diagnostics |
| FinalizeLemmas.NothingOmittedExactly | crates/logcompact-core/src/finalize.rs:89-106 | nothing at all is omitted exactly if all ranked findings together are few enough and fit |
| FinalizeLemmas.KeepsAllExactly | crates/logcompact-core/src/finalize.rs:122-136 | a byte pass keeps every value exactly if the saturated sum of their sizes still fits |
| FinalizeLemmas.NothingMoreFits | crates/logcompact-core/src/finalize.rs:100-103 | no ranked diagnostic rejected by the byte pass fits beside everything returned |
| FinalizeLemmas.NoFailureFits | crates/logcompact-core/src/finalize.rs:100-103 | nor does any rejected test failure |
| FinalizeLemmas.DiagnosticsFirst | crates/logcompact-core/src/finalize.rs:89-103 | two finalizations with different test failures and counters return and omit the same diagnostics |
| FinalizeLemmas.SanitizeIdempotent | crates/logcompact-core/src/finalize.rs:157-165 | sanitizing twice is sanitizing once |
| Sanitizing.ReturnedAreClean | crates/logcompact-core/src/finalize.rs:26-165 | every returned finding is one of the input with its texts redacted and then normalized, its path mapped before that, and everything else as it was |
| Sanitizing.RedactionDecides | crates/logcompact-core/src/finalize.rs:26-165 | finalizations whose inputs agree after mapping and redaction return the same reduction |
| Sanitizing.RedactionReachesAll | crates/logcompact-core/src/finalize.rs:26-165 | if redaction turns every text into one, only that text is returned, in every field |
| FinalizeLemmas.FinalizeIdempotent | crates/logcompact-core/src/finalize.rs:19-120 | finalizing the returned diagnostics again returns them unchanged and omits nothing |
| FinalizeLemmas.DefaultFinalizeIdempotent | crates/logcompact-core/src/policy.rs:19-90 | under the default redactor, path mapper and ranker finalizing twice changes nothing, and errors come before warnings before notes |
| FailureRanking.RankedFailuresAre | crates/logcompact-core/src/finalize.rs:82-87 | the ranked failures are exactly the sanitized ones, sorted, without equal neighbours |
| FailureRanking.FailuresTieExactly | crates/logcompact-core/src/finalize.rs:82-86 | two failures tie in that order exactly if provenance and name are equal |
| FailureRanking.MergedExactly | crates/logcompact-core/src/finalize.rs:82-87 | no failure is returned to the budget twice exactly if, among those of each provenance and name, equal ones come one after the other |
| FailureRanking.RepeatedAroundAnother | crates/logcompact-core/src/finalize.rs:82-87 | a failure reported before and after another one of the same provenance and name is kept twice |
| Counters.TruncatedExactly | crates/logcompact-core/src/finalize.rs:89-119 | a reduction is truncated exactly if not everything that is ranked fits the items and bytes of the budget together, a candidate or a begin was dropped, or a delivered line was cut |
| Counters.CutScopeIsNotTruncation | crates/logcompact-core/src/session.rs:238-245 | any chunk longer than what its scope retains, in short enough lines, ends the scope as truncated while the reduction does not say so |
| Counters.CountersAre | crates/logcompact-core/src/session.rs:222-245 | bytes seen are those pushed to open scopes, bytes retained the first ones of each scope, dropped candidates the refused begins, up to saturation |
| Counters.ReturnedCounters | crates/logcompact-core/src/session.rs:307-343 | the counters of the returned reduction are those of the run: bytes, lines, scopes, stored candidates, and as dropped ones the refused begins and every emission that was not stored |
| Counters.RetainedIs | crates/logcompact-core/src/session.rs:230-245 | what a scope retains is the first bytes pushed to it since it was begun |
| Sorting.StableSortIsStable | crates/logcompact-core/src/finalize.rs:81-86 | the sort rearranges, orders, and keeps ties in place |
| MatchLemmas.BoundsHold | crates/logcompact-builtins/src/problem_matcher.rs:292-402 | over every trace retained bytes and live states stay within their bounds, and every state waits for a later pattern of an existing matcher |
| MatchLemmas.NoneOutlivesScope | crates/logcompact-builtins/src/problem_matcher.rs:200-209 | no partial match survives the end of its scope |
| MatchLemmas.ReportsSpanConsecutiveLines | crates/logcompact-builtins/src/problem_matcher.rs:292-395 | every report spans exactly as many consecutive delivered lines as its matcher has patterns, or at least as many when it loops, bounds or not |
| MatchSpec.MachineRefinesBlocks | crates/logcompact-builtins/src/problem_matcher.rs:292-395 | when nothing was given up for bounds, each matcher reports on each stream what a recursive description over consecutive lines says: a failing line is retried as a first line only, and each loop hit inherits the header captures only |
| MatchBounds.GiveUpExactly | crates/logcompact-builtins/src/problem_matcher.rs:292-402 | a partial match is given up exactly if it would not fit: too many captured bytes together, or a new one too many |
| MatchBounds.RoomForAll | crates/logcompact-builtins/src/problem_matcher.rs:292-395 | with enough room nothing is ever given up and exactly the described matches are reported |
| ProblemMatcherLemmas.SessionMatches | crates/logcompact-builtins/src/problem_matcher.rs:180-209 | for every session run: no state left at the end, the parser of a plan emits exactly what its reports make, every emitted diagnostic spans as many consecutive lines as its matcher has patterns or more when looping, and the refinement holds for every matcher, scope and stream |
| ProblemMatcherLemmas.ParserIsMachine | crates/logcompact-builtins/src/problem_matcher.rs:180-209 | the parser in a plan is the matching machine followed by the emissions of its attempts |
| ProblemMatcherLemmas.FirstCaptureWins | crates/logcompact-builtins/src/problem_matcher.rs:404-443 | along a match every captured field keeps its first value and a message is only extended |
| MatchCaptures.ReportsAreFirstCaptures | crates/logcompact-builtins/src/problem_matcher.rs:292-443 | every specified report, loop hits included, covers consecutive lines that match its patterns one by one; each field is the first capture of that field along them and the message all captured messages, one per line; a loop hit takes the header and its own line only |
| MatchEmissions.EmissionExact | crates/logcompact-builtins/src/problem_matcher.rs:445-614 | a complete match yields one diagnostic, one dropped candidate or nothing, each exactly when; the diagnostic has each coordinate from its own capture or place, the end line not before the line, the path below root and prefix, the severity by its word, the code if not empty, the message, and the scope, stream, lines and label |
| MatchEmissions.ReportsEmitCaptures | crates/logcompact-builtins/src/problem_matcher.rs:292-497 | every specified report, loop hits included, is emitted as the diagnostic of the first captures along its lines |
| MatchEmissions.EmissionsInTurn | crates/logcompact-builtins/src/problem_matcher.rs:185-198 | attempts are emitted in turn, a partial match given up as one dropped candidate |
| MatchEmissions.BytesAreCaptures | crates/logcompact-builtins/src/problem_matcher.rs:266-290 | the bytes counted of a match are those of all its captures together |
| ProblemMatcher.ProblemMatcherParser.RetainedStateBytes | crates/logcompact-builtins/src/problem_matcher.rs:397-402 | folding over the states gives the saturated sum of their capture bytes |
| ProblemMatcher.ProblemMatcherParser.Start | crates/logcompact-builtins/src/problem_matcher.rs:356-395 | starting a match reports, stores or gives up as the machine does |
| ProblemMatcher.ProblemMatcherParser.ObserveOne | crates/logcompact-builtins/src/problem_matcher.rs:292-354 | one matcher observing one line is one step of the machine |
| ProblemMatcher.ProblemMatcherParser.ObserveDelivered | crates/logcompact-builtins/src/problem_matcher.rs:185-198 | a line is shown to all matchers in order, and their attempts become emissions |
| ProblemMatcher.ProblemMatcherParser.EndScope | crates/logcompact-builtins/src/problem_matcher.rs:200-205 | the end of a scope removes exactly its states |
| TestAccumulator.TestFailureAccumulator.ObserveLine | crates/logcompact-builtins/src/test_failures.rs:90-228 | one line updates the fields as the accumulator on values does |
| TestAccumulator.TestFailureAccumulator.Finish | crates/logcompact-builtins/src/test_failures.rs:230-249 | finishing closes the open blocks and returns the specified evidence |
| TestAccumulator.ExtractFailures | crates/logcompact-builtins/src/test_failures.rs:90-249 | one accumulator over a whole log returns the evidence of all its lines: at most 20 failures with bounded names and messages |
| TestAccumulator.TestFailureAccumulator.CompactGoBlocks | crates/logcompact-builtins/src/test_failures.rs:462-475 | the loop drops exactly the failed blocks that repeat an earlier one |
| TestAccumulator.TestFailureAccumulator.FinishGoFailures | crates/logcompact-builtins/src/test_failures.rs:477-519 | failed blocks become evidence once each, up to the limit |
| TestFailures.BoundedText | crates/logcompact-builtins/src/test_failures.rs:767-784 | stepping back to a character boundary gives the longest prefix that fits beside the ellipsis |
| TestFailureLemmas.BoundedIsLongestFit | crates/logcompact-builtins/src/test_failures.rs:767-784 | bounded text fits its limit in bytes and is the whole text or the longest prefix of whole characters with an ellipsis |
| TestFailureLemmas.PreFilterExactly | crates/logcompact-builtins/src/test_failures.rs:65-228 | skipping a line is lossless for every accumulator exactly when the filter passes it or no recognizer accepts its trimmed form |
| TestFailureLemmas.TrimmedLinesPass | crates/logcompact-builtins/src/test_failures.rs:65-88 | on lines without surrounding whitespace the filter is always lossless |
| TestFailureLemmas.FilteringLosesNothing | crates/logcompact-builtins/src/streaming.rs:159-181 | over whole logs of such lines, filtering first reaches the same accumulator |
| TestFailureLemmas.IndentedStatusIsLost | crates/logcompact-builtins/src/test_failures.rs:65-79 | an indented Go status line is turned away although the observer would start on it |
| TestFailureLemmas.CompactionTransparent | crates/logcompact-builtins/src/test_failures.rs:462-519 | finishing after compaction returns what finishing without it returns |
| TestFailureLemmas.CompactionKeepsOpenBlocks | crates/logcompact-builtins/src/test_failures.rs:440-475 | the block of a test that has not failed is found after compaction as before |
| GoCompaction.CompactionVisibleToPanic | crates/logcompact-builtins/src/test_failures.rs:328-345 | on the log of a test that fails twice in the same way and then panics, compaction before the panic, also that of the next start of the test, leaves one finding where there would be two |
| GoCompaction.CompactionInvisibleToLine | crates/logcompact-builtins/src/test_failures.rs:90-228 | whatever line follows, compaction before it does not change what is finally returned, unless the last block of the running or failed test is a failed block that repeats an earlier one |
| GoCompaction.CompactionSeenExactly | crates/logcompact-builtins/src/test_failures.rs:328-475 | for every line, at the limit on failures or below, compaction before it cannot be seen in the result exactly if the last block the line can change repeats no earlier failed one, or the change reads the same in the report and, where only one of the two blocks awaits the line as its assertion, the other frameworks report the same with it as without it |
| GoCompaction.NoGoYet | crates/logcompact-builtins/src/test_failures.rs:90-228 | while lines are shown no Go test is among the failures yet, so every accumulator to which a line is shown is covered by that condition |
| GoCompaction.NextTestForgetsCompaction | crates/logcompact-builtins/src/test_failures.rs:96-101 | compaction before the start of a test leaves the accumulators equal after it |
| GoCompaction.CompactIdempotent | crates/logcompact-builtins/src/test_failures.rs:462-475 | compacting twice is compacting once |
| TestFailureLemmas.FailedGoTestIsReported | crates/logcompact-builtins/src/test_failures.rs:314-326 | a Go test whose failure was seen while it had an open block or there was room for one, if need be after compaction, is reported whatever follows, unless 20 failures are |
| TestFailureLemmas.RoomExactly | crates/logcompact-builtins/src/test_failures.rs:440-460 | that is exactly when a block is found or pushed for the test |
| GoReports.GoFailureIsReported | crates/logcompact-builtins/src/test_failures.rs:314-519 | a failed Go test is reported, unless 20 failures are, with the first of the best places, the first panic or else the first thing said, and the first six distinct details between its status line and the next, whatever follows without naming it again |
| GoReports.GoTestCollects | crates/logcompact-builtins/src/test_failures.rs:96-131 | what is said about a Go test from its start on, while there is room for its block, is what its failure is then reported with |
| GoReports.GoWordsExactly | crates/logcompact-builtins/src/test_failures.rs:629-658 | the words by which a line says what was got or wanted, and those that the framework writes |
| TestReports.RustPanicIsReported | crates/logcompact-builtins/src/test_failures.rs:188-284 | a libtest panic is reported whatever follows, unless 20 failures are, with the place of its last panic, the last failed assertion or else the first reason, and the first four details said before another test or a heading is named |
| TestReports.RustOutputIsReported | crates/logcompact-builtins/src/test_failures.rs:179-284 | so is a test whose captured output begins |
| TestReports.OpenRustBlockIsReported | crates/logcompact-builtins/src/test_failures.rs:188-284 | the same for any open block of any accumulator |
| TestReports.IdleReachesRust | crates/logcompact-builtins/src/test_failures.rs:99-177 | a line that is no Go or GoogleTest event reaches the libtest reducer if no Go or GoogleTest failure is open |
| TestReports.GtestFailureIsReported | crates/logcompact-builtins/src/test_failures.rs:128-312 | a GoogleTest failure is reported whatever follows, unless 20 failures are, with the running test, its place and the first eight lines said about it before the next test or failure or its end |
| TestReports.GtestIsRunning | crates/logcompact-builtins/src/test_failures.rs:133-160 | a started GoogleTest test is the running one until another one starts or it ends |
| TestReports.GtestEnds | crates/logcompact-builtins/src/test_failures.rs:152-160 | the line that ends the running test ends it, and no test is running until another one starts |
| TestReports.FailedNameIsReported | crates/logcompact-builtins/src/test_failures.rs:170-177 | a libtest test whose status line says that it failed is among the failures, unless 20 are |
| TestReports.SummariesAre | crates/logcompact-builtins/src/test_failures.rs:235-247 | a failure that is there for its name says only that, and no other failure has the name |
| TestNames.NothingIsMadeUp | crates/logcompact-builtins/src/test_failures.rs:90-249 | every returned failure names a test that some line says has failed, or a started GoogleTest test if some line names the place of a failure |
| TestFailureLemmas.AlwaysWithin | crates/logcompact-builtins/src/test_failures.rs:90-519 | after any lines there are at most 80 Go blocks, 20 failures and 20 names, and what finishing returns has names of at most 512 and messages of at most 1000 bytes |
| Recognizers.GoRunIsRead | crates/logcompact-builtins/src/test_failures.rs:544-548 | the start of a Go test is read back with its name |
| Recognizers.GoFailIsRead | crates/logcompact-builtins/src/test_failures.rs:550-556 | so is its failure, without the duration |
| Recognizers.GoPanicIsRead | crates/logcompact-builtins/src/test_failures.rs:562-570 | a Go panic is read back with its message, without what the runtime says about recovering |
| Recognizers.GoPlaceIsRead | crates/logcompact-builtins/src/test_failures.rs:572-619 | a Go place is read back with path, line, message and whether it is a stack frame |
| Recognizers.GtestRunIsRead | crates/logcompact-builtins/src/test_failures.rs:528-531 | the start of a GoogleTest test is read back with its name |
| Recognizers.GtestFailureIsRead | crates/logcompact-builtins/src/test_failures.rs:666-682 | a GoogleTest failure is read back with path and line |
| Recognizers.GtestFailedIsRead | crates/logcompact-builtins/src/test_failures.rs:533-542 | the end of a failed GoogleTest test is read back with its name |
| Recognizers.RustBlockIsRead | crates/logcompact-builtins/src/test_failures.rs:700-705 | the captured output of a libtest test is read back with its name |
| Recognizers.RustPanicIsRead | crates/logcompact-builtins/src/test_failures.rs:707-737 | a libtest panic is read back with name, path, line and column |
| Recognizers.RustFailedIsRead | crates/logcompact-builtins/src/test_failures.rs:522-526 | a failed libtest status is read back with its name |
| Recognizers.NormalizePathExactly | crates/logcompact-builtins/src/test_failures.rs:684-687 | a path loses the quotes around it and a leading "./", and its backslashes become slashes |
| TestLog.ConfirmedEvidence | crates/logcompact-builtins/src/streaming.rs:159-195 | when a scope ends, in any run, the failures emitted are those of its delivered lines, field by field, if it was ended as complete with all bytes retained and no line cut, and none otherwise; each names the scope |
| TestLog.OnlyCompleteScopesEmit | crates/logcompact-builtins/src/streaming.rs:183-195 | over whole finished sessions the parser emits only at the end of complete scopes that lost no input |
| TestLog.FinishLogOf | crates/logcompact-builtins/src/test_log.rs:90-141 | finishing a log extracts each name and message once, up to the limit, and nothing from an incomplete one |
| TestLog.ExtractedExactly | crates/logcompact-builtins/src/test_log.rs:111-133 | what is extracted are the first twenty pieces of evidence that repeat no name and message, each with its location, the framework that its message tells and the provenance of the log |
| TestLog.TestFailureParser.ObserveDelivered | crates/logcompact-builtins/src/streaming.rs:159-181 | the empty-map shortcut and the per-scope test are one rule for skipping a line |
| TestLog.TestFailureParser.EndScope | crates/logcompact-builtins/src/streaming.rs:183-195 | ending a scope removes its reducer and emits its failures |
| StackTraces.EveryExceptionOnce | crates/logcompact-builtins/src/diagnostics/java/junit.rs:36-90 | the machine emits exactly one verdict for each exception line, in order |
| StackTraces.VerdictLocation | crates/logcompact-builtins/src/diagnostics/java/junit.rs:53-72 | a reported exception has the location of the first application frame if it is among the first 64, else the leading one, and it is reported exactly when explicit, with a leading location, or followed by a frame |
| StackTraces.AtMostOneEach | crates/logcompact-builtins/src/diagnostics/java/junit.rs:36-90 | there are no more diagnostics than exception lines |
| StackTraces.StepReachable | crates/logcompact-builtins/src/diagnostics/javascript/node.rs:38-101 | every step keeps a pending exception and a leading location exclusive |
| JavaTraces.JavaTestDiagnosticParser.ObserveLine | crates/logcompact-builtins/src/diagnostics/java/junit.rs:36-72 | one line is one step of the machine |
| JavaTraces.Reduce | crates/logcompact-builtins/src/diagnostics/java/junit.rs:5-21 | reducing a text yields the verdicts of its blocks and records their messages |
| Recognizers.JavaExceptionIsRead | crates/logcompact-builtins/src/diagnostics/java/junit.rs:96-121 | a throwable of a package is read back with its message, explicit behind "Caused by: " |
| Recognizers.JavaFrameIsRead | crates/logcompact-builtins/src/diagnostics/java/junit.rs:123-160 | a Java frame is read back with the file below the directories of its package, its line, and whether it is a framework's |
| LineKinds.JavaExceptionKind | crates/logcompact-builtins/src/diagnostics/java/junit.rs:36-52 | a throwable of a package is an exception to the machine, with its message, explicit behind "Caused by: " |
| LineKinds.JavaKindsAre | crates/logcompact-builtins/src/diagnostics/java/junit.rs:53-67 | a Java frame is an application frame with its place, or one without a place exactly if its callable starts with one of nine framework packages |
| NodeTraces.JavaScriptTestDiagnosticParser.ObserveLine | crates/logcompact-builtins/src/diagnostics/javascript/node.rs:38-80 | one line is one step of the machine |
| NodeTraces.Reduce | crates/logcompact-builtins/src/diagnostics/javascript/node.rs:7-23 | reducing a text yields the verdicts of its blocks and records their messages |
| Recognizers.NodeExceptionIsRead | crates/logcompact-builtins/src/diagnostics/javascript/node.rs:104-114 | an error class and its message are read back |
| Recognizers.NodePlaceIsRead | crates/logcompact-builtins/src/diagnostics/javascript/node.rs:133-165 | a script's place is read back with path, line and column, for every extension |
| Recognizers.NodeFrameIsRead | crates/logcompact-builtins/src/diagnostics/javascript/node.rs:116-131 | a frame is read back with its place, or none if it is a dependency's |
| LineKinds.NodePlaceKind | crates/logcompact-builtins/src/diagnostics/javascript/node.rs:38-45 | a line that is a script's place and does not start with "at " is a source header, even if it also names an error |
| LineKinds.NodeExceptionKind | crates/logcompact-builtins/src/diagnostics/javascript/node.rs:46-61 | an error class and its message are an exception |
| LineKinds.NodeFrameKind | crates/logcompact-builtins/src/diagnostics/javascript/node.rs:62-75 | a line that starts with "at " and holds a script's place is a frame, never a header, and has a place unless it is a dependency's |
| LineKinds.BlankKinds | crates/logcompact-builtins/src/diagnostics/javascript/node.rs:76-78 | a line of spaces is blank to both machines, and no header, exception or frame |
| RustCompiler.Reduce | crates/logcompact-builtins/src/diagnostics/rust/rustc.rs:7-34 | the line loop yields, for each header whose segment names a location, one diagnostic with the first location and first detail of the segment |
| RustCompiler.SegmentDiagnostic | crates/logcompact-builtins/src/diagnostics/rust/rustc.rs:52-68 | a header whose segment names a location is an error at the first one, whose message is the header with the first detail, cut at whole characters to 1024 bytes and an ellipsis |
| Recognizers.RustcHeaderIsRead | crates/logcompact-builtins/src/diagnostics/rust/rustc.rs:70-81 | an error header is read back with code and message |
| Recognizers.RustcPlaceIsRead | crates/logcompact-builtins/src/diagnostics/rust/rustc.rs:83-96 | an arrow is read back with path, line and column |
| Recognizers.RustcDetailIsRead | crates/logcompact-builtins/src/diagnostics/rust/rustc.rs:98-103 | what was expected and found is read back behind its margin |
| JavaCompiler.ParseDiagnostics | crates/logcompact-builtins/src/diagnostics/java/javac.rs:9-38 | the nested loops yield one diagnostic per parsed line, completed by the first symbol in the next eight lines before another diagnostic |
| JavaCompiler.CompletedExactly | crates/logcompact-builtins/src/diagnostics/java/javac.rs:14-36 | a diagnostic that cannot find a symbol is completed by the first symbol named in the eight lines behind it before another diagnostic, and no other one is |
| JavaCompiler.WordsExactly | crates/logcompact-builtins/src/diagnostics/java/javac.rs:27-30 | the words of a symbol are what stands between its whitespace |
| Recognizers.JavacLineIsRead | crates/logcompact-builtins/src/diagnostics/java/javac.rs:40-78 | a javac line is read back with path, line, column, severity and message |
| Gates.ClassifyLine | crates/logcompact-builtins/src/diagnostics/arbitration.rs:86-122 | one pass with an early exit decides whether a line has a mark, an upper-case or non-ASCII character, and whether it has a mark, a starting word or a keyword anywhere |
| Gates.Scan | crates/logcompact-builtins/src/diagnostics/mod.rs:228-287 | one pass gives the hints of all nonblank lines and the candidate lines deduplicated with counts |
| GateHints.HintsExactly | crates/logcompact-builtins/src/diagnostics/mod.rs:228-287 | each hint is set exactly if some line with a mark, a capital or a character outside ASCII holds one of its words |
| GateHints.CandidateExactly | crates/logcompact-builtins/src/diagnostics/arbitration.rs:86-122 | a candidate holds a colon or a parenthesis, begins with one of four words or holds one of eight |
| Gates.RustGateLosesNothing | crates/logcompact-builtins/src/diagnostics/mod.rs:301-303 | where the rustc gate is closed the reducer finds nothing |
| Gates.JavaCompilerGateLosesNothing | crates/logcompact-builtins/src/diagnostics/mod.rs:297-299 | where the javac gate is closed the reducer finds nothing |
| Gates.JavaTestGateLosesNothing | crates/logcompact-builtins/src/diagnostics/mod.rs:309-311 | where the Java test gate is closed the reducer finds nothing |
| Gates.NodeGateExactly | crates/logcompact-builtins/src/diagnostics/mod.rs:305-307 | where the Node gate is closed the reducer by itself finds nothing exactly if no exception is directly followed by a frame, and nothing located in any case |
| Gates.NativeOnlyErrorIsLost | crates/logcompact-builtins/src/diagnostics/mod.rs:305-307 | an error above a native frame is lost to the gate |
| GitHub.RenderGithub | crates/logcompact/src/lib.rs:116-158 | pushing text piece by piece prints one line for each diagnostic and then for each failure |
| GitHub.OutputIsDecodable | crates/logcompact/src/lib.rs:116-158 | a decoder recovers severity, location and message of every diagnostic, then name and message of every failure, in order, for all strings |
| GitHub.EscapingIsOnePass | crates/logcompact/src/lib.rs:259-270 | the chained replacements equal one pass over the characters |
| GitHub.EscapedIsSafe | crates/logcompact/src/lib.rs:259-270 | escaped messages hold no CR or LF; escaped properties hold no colon and no comma either |
| GitHub.EscapingIsDecodable | crates/logcompact/src/lib.rs:259-270 | both escapings can be undone for every string |

## Left out

- StreamingLemmas.BufferBound: assumes that the byte length of every delivered line fits 64 bits, as it does for any string in memory; a longer one cannot exist in the program.
- ProblemMatcherLemmas.SessionMatches: assumes fewer than 2^64 delivered lines, because line numbers saturate there.
- StreamingLemmas.BufferExceedsExactly: assumes what `BufferBound` assumes, and so does `AppendExceedsExactly` of its line.
- StreamingLemmas.BufferedExactly: assumes that every line is at least one byte shorter than 2^64 bytes, so that its length and a separator can be counted.
- TestLog.ConfirmedEvidence: models the test-log reducer as the streaming parser uses it; its fallback diagnostic and the JavaScript, Java and Python parsers it also feeds in batch use are not part of it.
- Command line, reading files and standard input, process exit: input and output.
- JSON, serde and the messages about malformed matcher definitions: library code; serialized size is an abstract function, and compiled matchers are taken to satisfy what compilation checks.
- The regular-expression engine and its compile limits: a pattern is any function from a line to optional captures.
- Redactors, path mappers and custom rankers: abstract functions; the idempotence theorem takes ones that leave finished findings alone, as the identities do.
- The parse of a buffered text inside the streaming diagnostic parser: an abstract function, so the parser theorems hold for any registry of reducers.
- The one-line grammars of C++, TypeScript, Go, protobuf, pytest and the linker, the SWC and Python reducers and their hint flags, arbitration between reducers, and the generic fallback lines: single-branch string slicing.
- SARIF, JSON, JSON Lines and human-readable output: field-by-field printing without a protocol to preserve.
- The order in which a problem matcher interleaves attempts with emissions within one line: the model collects a line's attempts and then emits them in that order, which no other part of the program can observe.
- The streaming test-failure parser holds its accumulators as values, one per scope, and uses the value functions that the accumulator object is proved against.
- The stable sort of the standard library: modelled by insertion sort, whose result any stable sort has.
