/** Terminal text normalization: the escape-sequence automaton, the line clean-up that follows it,
    and the ASCII fast path for single lines. */
module Text {
  import opened Model
  import opened Utf8

  const ESC: char := '\U{1B}'
  const BEL: char := '\U{7}'
  const CR: byte := 0x0D
  const LF: byte := 0x0A

  // Unicode general category Cc
  predicate IsControl(c: char) {
    c as int < 0x20 || 0x7F <= c as int < 0xA0
  }

  // Unicode property White_Space
  predicate IsWhitespace(c: char) {
    var n := c as int;
    0x09 <= n <= 0x0D || n == 0x20 || n == 0x85 || n == 0xA0 || n == 0x1680 || 0x2000 <= n <= 0x200A ||
    n == 0x2028 || n == 0x2029 || n == 0x202F || n == 0x205F || n == 0x3000
  }

  function TrimEnd(s: string): string {
    if s != [] && IsWhitespace(s[|s| - 1]) then TrimEnd(s[..|s| - 1]) else s
  }

  function TrimStart(s: string): string {
    if s != [] && IsWhitespace(s[0]) then TrimStart(s[1..]) else s
  }

  function Trim(s: string): string {
    TrimEnd(TrimStart(s))
  }

  // ---------------------------------------------------------------- escape automaton

  /** Where the scanner stands: outside any sequence, just after ESC, inside a control sequence
      (section 5.4 of ECMA-48), inside an operating system command, or after an ESC that may
      end that command. */
  datatype Mode = Ground | Escape | Csi | Osc | OscEscape

  function StepMode(mode: Mode, c: char): Mode {
    match mode
    case Ground => if c == ESC then Escape else Ground
    case Escape => if c == '[' then Csi else if c == ']' then Osc else Ground
    case Csi => if '@' <= c <= '~' then Ground else Csi
    case Osc => if c == BEL then Ground else if c == ESC then OscEscape else Osc
    case OscEscape =>
      if c == '\\' || c == BEL then Ground else if c == ESC then OscEscape else Osc
  }

  // What one character contributes to the visible text.
  function Visible(mode: Mode, c: char): string {
    if mode != Ground || c == ESC then []
    else if c == '\r' then "\n"
    else if c == '\n' || c == '\t' || !IsControl(c) then [c]
    else []
  }

  function EndMode(mode: Mode, s: string): Mode
    decreases |s|
  {
    if s == [] then mode else EndMode(StepMode(mode, s[0]), s[1..])
  }

  function Strip(mode: Mode, s: string): string
    decreases |s|
  {
    if s == [] then [] else Visible(mode, s[0]) + Strip(StepMode(mode, s[0]), s[1..])
  }

  // ---------------------------------------------------------------- lines

  // Index of the first occurrence, or the length of the string.
  function Find(s: string, c: char): (k: nat)
    ensures k <= |s|
    ensures c !in s[..k]
    ensures k < |s| ==> s[k] == c
  {
    if s == [] || s[0] == c then 0 else 1 + Find(s[1..], c)
  }

  function DropCr(line: string): string {
    if line != [] && line[|line| - 1] == '\r' then line[..|line| - 1] else line
  }

  // The lines of a text: terminated by LF or CRLF, with no empty line after a final terminator.
  function Lines(s: string): seq<string> {
    if s == [] then []
    else
      var k := Find(s, '\n');
      if k == |s| then [s] else [DropCr(s[..k])] + Lines(s[k + 1..])
  }

  // Right-trimmed lines without the blank ones.
  function NonBlank(lines: seq<string>): seq<string> {
    if lines == [] then []
    else (if TrimEnd(lines[0]) == [] then [] else [TrimEnd(lines[0])]) + NonBlank(lines[1..])
  }

  function Join(lines: seq<string>, separator: char): string {
    if lines == [] then []
    else if |lines| == 1 then lines[0]
    else lines[0] + [separator] + Join(lines[1..], separator)
  }

  // The clean lines of a text in which a scanner starting in the given mode reads.
  function NormalLines(s: string): seq<string> {
    NonBlank(Lines(Strip(Ground, s)))
  }

  function Normalize(s: string): string {
    Join(NormalLines(s), '\n')
  }

  predicate IsPlain(bytes: seq<byte>) {
    forall i | 0 <= i < |bytes| :: bytes[i] == 0x09 || 0x20 <= bytes[i] <= 0x7E
  }

  // One framed line: plain ASCII is only trimmed, everything else takes the general path.
  function NormalizeLine(bytes: seq<byte>): string {
    if IsPlain(bytes) then TrimEnd(Ascii(bytes)) else Normalize(Decode(bytes))
  }

  lemma StripStep(mode: Mode, s: string, i: nat)
    requires i < |s|
    ensures Strip(mode, s[i..]) == Visible(mode, s[i]) + Strip(StepMode(mode, s[i]), s[i + 1..])
  {
    assert s[i..][1..] == s[i + 1..];
  }

  // Skips past the final byte of a control sequence.
  method SkipCsi(s: string, start: nat) returns (i: nat)
    requires start <= |s|
    ensures start <= i <= |s|
    ensures Strip(Ground, s[i..]) == Strip(Csi, s[start..])
  {
    i := start;
    while i < |s|
      invariant start <= i <= |s|
      invariant Strip(Csi, s[i..]) == Strip(Csi, s[start..])
    {
      StripStep(Csi, s, i);
      var next := s[i];
      i := i + 1;
      if '@' <= next <= '~' { return; }
    }
  }

  // Skips past BEL or ESC \, whichever ends an operating system command.
  method SkipOsc(s: string, start: nat) returns (i: nat)
    requires start <= |s|
    ensures start <= i <= |s|
    ensures Strip(Ground, s[i..]) == Strip(Osc, s[start..])
  {
    i := start;
    while i < |s|
      invariant start <= i <= |s|
      invariant Strip(Osc, s[i..]) == Strip(Osc, s[start..])
    {
      StripStep(Osc, s, i);
      var next := s[i];
      i := i + 1;
      if next == BEL { return; }
      if next == ESC && i < |s| {
        StripStep(OscEscape, s, i);
        StripStep(Osc, s, i);
        if s[i] == '\\' {
          i := i + 1;
          return;
        }
      }
    }
  }

  // Skips what follows an ESC: a control sequence, a command, or any single character.
  method SkipEscape(s: string, start: nat) returns (i: nat)
    requires start <= |s|
    ensures start <= i <= |s|
    ensures Strip(Ground, s[i..]) == Strip(Escape, s[start..])
  {
    i := start;
    if i < |s| {
      StripStep(Escape, s, i);
      var peeked := s[i];
      i := i + 1;
      if peeked == '[' {
        i := SkipCsi(s, i);
      } else if peeked == ']' {
        i := SkipOsc(s, i);
      }
    }
  }

  // The text shown so far and what the rest shows make up everything visible.
  ghost predicate Shows(output: string, chars: string, i: nat, mode: Mode) {
    i <= |chars| && output + Strip(mode, chars[i..]) == Strip(Ground, chars)
  }

  lemma ShowStep(output: string, chars: string, i: nat)
    requires i < |chars| && Shows(output, chars, i, Ground)
    ensures Shows(output + Visible(Ground, chars[i]), chars, i + 1, StepMode(Ground, chars[i]))
  {
    StripStep(Ground, chars, i);
    var visible, rest := Visible(Ground, chars[i]), Strip(StepMode(Ground, chars[i]), chars[i + 1..]);
    assert output + (visible + rest) == output + visible + rest;
  }

  // One character or one escape sequence.
  method ShowNext(output: string, chars: string, start: nat) returns (shown: string, i: nat)
    requires start < |chars| && Shows(output, chars, start, Ground)
    ensures start < i <= |chars| && Shows(shown, chars, i, Ground)
  {
    ShowStep(output, chars, start);
    shown, i := output, start + 1;
    var c := chars[start];
    if c == ESC {
      assert output + Visible(Ground, c) == output;
      i := SkipEscape(chars, i);
    } else if c == '\r' {
      shown := output + "\n";
    } else if c == '\n' || c == '\t' || !IsControl(c) {
      shown := output + [c];
    } else {
      assert output + Visible(Ground, c) == output;
    }
  }

  // The character loop: everything visible, in order.
  method StripControls(chars: string) returns (output: string)
    ensures output == Strip(Ground, chars)
  {
    output := [];
    var i := 0;
    assert chars[0..] == chars;
    while i < |chars|
      invariant Shows(output, chars, i, Ground)
    {
      output, i := ShowNext(output, chars, i);
    }
  }

  method NormalizeTerminalText(input: seq<byte>) returns (text: string)
    ensures text == Normalize(Decode(input))
  {
    var output := StripControls(Decode(input));
    text := Join(NonBlank(Lines(output)), '\n');
  }
}
