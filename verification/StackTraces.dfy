/** Exceptions followed by stack frames: the machine that confirms a pending exception by what follows
    it, and the description of a block that it implements. */
module StackTraces {
  import opened Model

  const MAX_STACK_FRAMES := 64

  // What a line is to the machine. A frame carries its location if it is an application frame.
  datatype Kind =
    | Header(location: Location)
    | Exception(message: string, explicit: bool)
    | Frame(application: Option<Location>)
    | Blank
    | Unrelated

  /** A location that precedes its exception, the pending exception, whether it needs no frame to be
      believed, and how many frames followed it. */
  datatype State = State(leading: Option<Location>, pending: Option<Diagnostic>, explicit: bool, frames: nat)

  const IDLE := State(None, None, false, 0)

  function NewException(message: string, location: Option<Location>): Diagnostic {
    Diagnostic(Error, Test, None, message, location, None, Structured, 1)
  }

  function Confirmed(s: State): Option<Diagnostic> {
    if s.explicit || s.frames > 0 || (s.pending.Some? && s.pending.value.location.Some?) then s.pending else None
  }

  datatype Stepped = Stepped(state: State, emitted: Option<Diagnostic>)

  function StepTrace(s: State, kind: Kind): Stepped {
    match kind
    case Header(location) => Stepped(State(Some(location), None, false, 0), Confirmed(s))
    case Exception(message, explicit) =>
      Stepped(State(None, Some(NewException(message, s.leading)), explicit, 0), Confirmed(s))
    case Frame(application) =>
      var next := s.(frames := s.frames + 1);
      if s.pending.None? then Stepped(s, None)
      else if application.Some? then Stepped(IDLE, Some(s.pending.value.(location := application)))
      else if next.frames >= MAX_STACK_FRAMES then Stepped(IDLE, Confirmed(next))
      else Stepped(next, None)
    case Blank => Stepped(s, None)
    case Unrelated => if s.pending.None? then Stepped(s, None) else Stepped(IDLE, Confirmed(s))
  }

  function OptionSeq<T>(value: Option<T>): seq<T> {
    match value case None => [] case Some(x) => [x]
  }

  // Everything the machine emits over the remaining lines and at their end.
  function Emitted(s: State, kinds: seq<Kind>): seq<Diagnostic>
    decreases |kinds|
  {
    if kinds == [] then OptionSeq(Confirmed(s))
    else OptionSeq(StepTrace(s, kinds[0]).emitted) + Emitted(StepTrace(s, kinds[0]).state, kinds[1..])
  }

  // What was emitted over the first i lines, and what will be.
  ghost predicate Progress(emitted: seq<Diagnostic>, s: State, kinds: seq<Kind>, i: nat) {
    i <= |kinds| && emitted + Emitted(s, kinds[i..]) == Emitted(IDLE, kinds)
  }

  lemma ProgressStep(emitted: seq<Diagnostic>, s: State, kinds: seq<Kind>, i: nat)
    requires i < |kinds| && Progress(emitted, s, kinds, i)
    ensures var next := StepTrace(s, kinds[i]); Progress(emitted + OptionSeq(next.emitted), next.state, kinds, i + 1)
  {
    assert kinds[i..][1..] == kinds[i + 1..];
  }

  lemma ProgressStart(kinds: seq<Kind>)
    ensures Progress([], IDLE, kinds, 0)
  {
    assert kinds[0..] == kinds;
  }

  lemma ProgressEnd(emitted: seq<Diagnostic>, s: State, kinds: seq<Kind>)
    requires Progress(emitted, s, kinds, |kinds|)
    ensures emitted + OptionSeq(Confirmed(s)) == Emitted(IDLE, kinds)
  {
  }

  function MessagesOf(diagnostics: seq<Diagnostic>): set<string> {
    set d | d in diagnostics :: d.message
  }

  // Records a finding and its message.
  method Record(found: Option<Diagnostic>, diagnostics: seq<Diagnostic>, messages: set<string>)
    returns (diagnostics': seq<Diagnostic>, messages': set<string>)
    requires messages == MessagesOf(diagnostics)
    ensures diagnostics' == diagnostics + OptionSeq(found) && messages' == MessagesOf(diagnostics')
  {
    diagnostics', messages' := diagnostics, messages;
    if found.Some? {
      messages' := messages + {found.value.message};
      diagnostics' := diagnostics + [found.value];
    }
  }

  // A pending exception and a leading location exclude each other, and nothing is left of a closed block.
  predicate IsReachable(s: State) {
    && (s.pending.Some? ==> s.leading.None?)
    && (s.pending.None? ==> !s.explicit && s.frames == 0)
    && s.frames < MAX_STACK_FRAMES
  }

  lemma StepReachable(s: State, kind: Kind)
    requires IsReachable(s)
    ensures IsReachable(StepTrace(s, kind).state)
  {
  }

  // ---------------------------------------------------------------- the description of a block

  // The frames directly after an exception, blank lines aside.
  function FramesOf(kinds: seq<Kind>): seq<Option<Location>> {
    if kinds == [] then []
    else
      match kinds[0]
      case Frame(application) => [application] + FramesOf(kinds[1..])
      case Blank => FramesOf(kinds[1..])
      case _ => []
  }

  function FirstApplication(frames: seq<Option<Location>>): Option<Location> {
    if frames == [] then None else if frames[0].Some? then frames[0] else FirstApplication(frames[1..])
  }

  function Limited(frames: seq<Option<Location>>, seen: nat): seq<Option<Location>> {
    frames[..Min(|frames|, if seen <= MAX_STACK_FRAMES then MAX_STACK_FRAMES - seen else 0)]
  }

  /** An exception is reported if it is explicit, has a leading location or is followed by a frame; its
      location is that of the first application frame among the first 64, or else the leading one. */
  function Verdict(message: string, explicit: bool, leading: Option<Location>, frames: seq<Option<Location>>): Option<Diagnostic> {
    var application := FirstApplication(Limited(frames, 0));
    if explicit || leading.Some? || frames != []
    then Some(NewException(message, if application.Some? then application else leading)) else None
  }

  // One verdict for each exception line, in order.
  function Blocks(leading: Option<Location>, kinds: seq<Kind>): seq<Diagnostic>
    decreases |kinds|
  {
    if kinds == [] then []
    else
      match kinds[0]
      case Exception(message, explicit) =>
        OptionSeq(Verdict(message, explicit, leading, FramesOf(kinds[1..]))) + Blocks(None, kinds[1..])
      case Header(location) => Blocks(Some(location), kinds[1..])
      case _ => Blocks(leading, kinds[1..])
  }

  // What a block in progress still yields, given the frames that follow.
  function Rest(s: State, frames: seq<Option<Location>>): Option<Diagnostic>
    requires s.pending.Some?
  {
    var application := FirstApplication(Limited(frames, s.frames));
    if application.Some? then Some(s.pending.value.(location := application))
    else if s.explicit || s.frames > 0 || s.pending.value.location.Some? || frames != [] then s.pending
    else None
  }

  function Remaining(s: State, kinds: seq<Kind>): seq<Diagnostic> {
    (if s.pending.Some? then OptionSeq(Rest(s, FramesOf(kinds))) else []) + Blocks(s.leading, kinds)
  }

  lemma RestOfFrame(s: State, application: Option<Location>, frames: seq<Option<Location>>)
    requires IsReachable(s) && s.pending.Some?
    ensures var next := StepTrace(s, Frame(application));
      Rest(s, [application] + frames) == if next.state.pending.Some? then Rest(next.state, frames) else next.emitted
    ensures var next := StepTrace(s, Frame(application)); next.state.pending.Some? ==> next.emitted == None
  {
    var all := [application] + frames;
    var limited := Limited(all, s.frames);
    assert limited[0] == application;
    assert limited[1..] == Limited(frames, s.frames + 1);
    assert FirstApplication(limited) == if application.Some? then application else FirstApplication(limited[1..]);
    assert all != [] && (s.frames + 1 == MAX_STACK_FRAMES ==> limited[1..] == []);
  }

  lemma RestOfStop(s: State)
    requires s.pending.Some?
    ensures Rest(s, []) == Confirmed(s)
  {
  }

  lemma RestOfNew(message: string, explicit: bool, leading: Option<Location>, frames: seq<Option<Location>>)
    ensures Rest(State(None, Some(NewException(message, leading)), explicit, 0), frames) == Verdict(message, explicit, leading, frames)
  {
    if FirstApplication(Limited(frames, 0)).Some? {
      assert frames != [];
    }
  }

  lemma {:induction false} MachineIsBlocks(s: State, kinds: seq<Kind>)
    requires IsReachable(s)
    ensures Emitted(s, kinds) == Remaining(s, kinds)
    decreases |kinds|
  {
    if kinds == [] {
      if s.pending.Some? {
        RestOfStop(s);
      }
    } else {
      var next := StepTrace(s, kinds[0]);
      StepReachable(s, kinds[0]);
      MachineIsBlocks(next.state, kinds[1..]);
      match kinds[0] {
        case Frame(application) =>
          if s.pending.Some? {
            RestOfFrame(s, application, FramesOf(kinds[1..]));
          }
        case Exception(message, explicit) =>
          RestOfNew(message, explicit, s.leading, FramesOf(kinds[1..]));
          if s.pending.Some? {
            RestOfStop(s);
          }
        case _ =>
          if s.pending.Some? {
            RestOfStop(s);
          }
      }
    }
  }

  /** The machine reports exactly one verdict for each exception line, in order. */
  lemma EveryExceptionOnce(kinds: seq<Kind>)
    ensures Emitted(IDLE, kinds) == Blocks(None, kinds)
  {
    MachineIsBlocks(IDLE, kinds);
  }

  function ExceptionsIn(kinds: seq<Kind>): nat {
    if kinds == [] then 0 else (if kinds[0].Exception? then 1 else 0) + ExceptionsIn(kinds[1..])
  }

  lemma {:induction false} FirstApplicationIsFirst(frames: seq<Option<Location>>, k: nat)
    requires k < |frames| && frames[k].Some? && forall i | 0 <= i < k :: frames[i].None?
    ensures FirstApplication(frames) == frames[k]
  {
    if k > 0 {
      FirstApplicationIsFirst(frames[1..], k - 1);
    }
  }

  lemma {:induction false} NoApplication(frames: seq<Option<Location>>)
    requires forall i | 0 <= i < |frames| :: frames[i].None?
    ensures FirstApplication(frames).None?
  {
    if frames != [] {
      NoApplication(frames[1..]);
    }
  }

  /** What is reported of an exception: an error of a test with its message and nothing else, at the first
      application frame if it is among the first 64 frames, and at the leading location if none of these is
      an application frame; then it is reported only if it is explicit or has such a location or a frame. */
  lemma VerdictLocation(message: string, explicit: bool, leading: Option<Location>, frames: seq<Option<Location>>)
    ensures forall k: nat | k < |frames| && k < 64 && frames[k].Some? && (forall i | 0 <= i < k :: frames[i].None?) ::
      Verdict(message, explicit, leading, frames) == Some(Diagnostic(Error, Test, None, message, frames[k], None, Structured, 1))
    ensures (forall i | 0 <= i < |frames| && i < 64 :: frames[i].None?) ==>
      Verdict(message, explicit, leading, frames) ==
        if explicit || leading.Some? || frames != []
        then Some(Diagnostic(Error, Test, None, message, leading, None, Structured, 1)) else None
  {
    var limited := Limited(frames, 0);
    forall k: nat | k < |frames| && k < 64 && frames[k].Some? && (forall i | 0 <= i < k :: frames[i].None?)
      ensures Verdict(message, explicit, leading, frames) == Some(Diagnostic(Error, Test, None, message, frames[k], None, Structured, 1))
    {
      FirstApplicationIsFirst(limited, k);
    }
    if forall i | 0 <= i < |frames| && i < 64 :: frames[i].None? {
      NoApplication(limited);
    }
  }

  /** No more diagnostics than exception lines. */
  lemma {:induction false} AtMostOneEach(leading: Option<Location>, kinds: seq<Kind>)
    ensures |Blocks(leading, kinds)| <= ExceptionsIn(kinds)
    decreases |kinds|
  {
    if kinds != [] {
      match kinds[0]
      case Exception(_, _) => AtMostOneEach(None, kinds[1..]);
      case Header(location) => AtMostOneEach(Some(location), kinds[1..]);
      case _ => AtMostOneEach(leading, kinds[1..]);
    }
  }
}
