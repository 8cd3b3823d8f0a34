/** What normalization makes visible, told by the grammar of terminal text: characters, control sequences,
    operating system commands and two-character escapes. Every text is a sequence of these and perhaps an
    unfinished one, and exactly its characters are shown. */
module Escapes {
  import opened Model
  import opened Sequences
  import opened Text
  import opened Strings
  import opened TextLemmas

  // A parameter or intermediate character of a control sequence, and one that ends it.
  predicate IsFinal(c: char) {
    0x40 <= c as int <= 0x7E
  }

  predicate NoFinal(s: string) {
    forall i | 0 <= i < |s| :: !IsFinal(s[i])
  }

  // Neither BEL nor ESC \ occurs.
  predicate NoTerminator(s: string) {
    (forall i | 0 <= i < |s| :: s[i] as int != 0x07) &&
    forall i | 0 <= i < |s| - 1 :: !(s[i] as int == 0x1B && s[i + 1] == '\\')
  }

  // ---------------------------------------------------------------- inside a sequence

  lemma StripCons(mode: Mode, c: char, rest: string)
    ensures Strip(mode, [c] + rest) == Visible(mode, c) + Strip(StepMode(mode, c), rest)
    ensures EndMode(mode, [c] + rest) == EndMode(StepMode(mode, c), rest)
  {
    assert ([c] + rest)[1..] == rest;
  }

  lemma {:induction false} InsideSequence(s: string)
    requires NoFinal(s)
    ensures Strip(Csi, s) == [] && EndMode(Csi, s) == Csi
  {
    if s != [] {
      InsideSequence(s[1..]);
    }
  }

  lemma {:induction false} InsideCommand(s: string, mode: Mode)
    requires NoTerminator(s) && (mode == Osc || (mode == OscEscape && (s == [] || s[0] != '\\')))
    ensures Strip(mode, s) == [] && EndMode(mode, s) in {Osc, OscEscape}
    decreases |s|
  {
    if s != [] {
      InsideCommand(s[1..], StepMode(mode, s[0]));
    }
  }

  // What follows an opening, a body that shows nothing, and the end of it.
  lemma AfterBody(opening: string, body: string, end: string, rest: string, inside: Mode, last: Mode)
    requires Strip(Ground, opening) == [] && EndMode(Ground, opening) == inside
    requires Strip(inside, body) == [] && EndMode(inside, body) == last
    requires Strip(last, end) == [] && EndMode(last, end) == Ground
    ensures Strip(Ground, opening + body + end + rest) == Strip(Ground, rest)
  {
    StripConcat(Ground, opening, body);
    StripConcat(Ground, opening + body, end);
    StripConcat(Ground, opening + body + end, rest);
  }

  lemma Opening(c: char)
    ensures var s := ['\U{1B}', c];
      && Strip(Ground, s) == []
      && EndMode(Ground, s) == if c == '[' then Csi else if c == ']' then Osc else Ground
  {
    var s := ['\U{1B}', c];
    assert s == ['\U{1B}'] + [c] && [c] == [c] + [];
    StripCons(Ground, '\U{1B}', [c]);
    StripCons(Escape, c, []);
  }

  // ---------------------------------------------------------------- the forms

  /** A control sequence shows nothing: ESC [, any characters outside '@'..'~', and one of these. */
  lemma ControlSequence(params: string, final: char, rest: string)
    requires NoFinal(params) && IsFinal(final)
    ensures Strip(Ground, "\U{1B}[" + params + [final] + rest) == Strip(Ground, rest)
  {
    Opening('[');
    InsideSequence(params);
    StripCons(Csi, final, []);
    assert [final] == [final] + [];
    AfterBody("\U{1B}[", params, [final], rest, Csi, Csi);
  }

  /** An operating system command shows nothing, whether BEL or ESC \ ends it. */
  lemma OperatingSystemCommand(body: string, end: string, rest: string)
    requires NoTerminator(body) && (end == "\U{7}" || end == "\U{1B}\\")
    ensures Strip(Ground, "\U{1B}]" + body + end + rest) == Strip(Ground, rest)
  {
    Opening(']');
    InsideCommand(body, Osc);
    CommandEnd(EndMode(Osc, body), end);
    AfterBody("\U{1B}]", body, end, rest, Osc, EndMode(Osc, body));
  }

  lemma CommandEnd(mode: Mode, end: string)
    requires mode in {Osc, OscEscape} && (end == "\U{7}" || end == "\U{1B}\\")
    ensures Strip(mode, end) == [] && EndMode(mode, end) == Ground
  {
    StripCons(mode, end[0], end[1..]);
    assert end == [end[0]] + end[1..];
    if |end| == 2 {
      StripCons(OscEscape, end[1], []);
      assert end[1..] == [end[1]] + [];
    }
  }

  /** ESC and any other character show nothing. */
  lemma TwoCharacters(c: char, rest: string)
    requires c != '[' && c != ']'
    ensures Strip(Ground, ['\U{1B}', c] + rest) == Strip(Ground, rest)
  {
    Opening(c);
    StripConcat(Ground, ['\U{1B}', c], rest);
  }

  // What a character outside all sequences is shown as: tabs, line feeds and everything that is no control
  // character as itself, a carriage return as a line feed, all else as nothing.
  function ShownAs(c: char): string {
    var n := c as int;
    if n == 0x0D then "\n"
    else if n == 0x09 || n == 0x0A || 0x20 <= n < 0x7F || 0xA0 <= n then [c]
    else ""
  }

  lemma SingleCharacter(c: char, rest: string)
    requires c as int != 0x1B
    ensures Strip(Ground, [c] + rest) == ShownAs(c) + Strip(Ground, rest)
  {
    StripCons(Ground, c, rest);
  }

  // ---------------------------------------------------------------- unfinished sequences

  predicate IsUnfinished(s: string) {
    s == "" || s == "\U{1B}" ||
    (|s| >= 2 && s[..2] == "\U{1B}[" && NoFinal(s[2..])) ||
    (|s| >= 2 && s[..2] == "\U{1B}]" && NoTerminator(s[2..]))
  }

  /** A sequence that the text does not finish shows nothing. */
  lemma Unfinished(s: string)
    requires IsUnfinished(s)
    ensures Strip(Ground, s) == []
  {
    if |s| >= 2 {
      assert s == s[..2] + s[2..];
      StripConcat(Ground, s[..2], s[2..]);
      if s[..2] == "\U{1B}[" {
        Opening('[');
        InsideSequence(s[2..]);
      } else {
        Opening(']');
        InsideCommand(s[2..], Osc);
      }
    } else if s != "" {
      StripCons(Ground, s[0], []);
      assert s == [s[0]] + [];
    }
  }

  // ---------------------------------------------------------------- every text

  datatype Piece =
    | Character(c: char)
    | Sequence(params: string, final: char)
    | SystemCommand(body: string, end: string)
    | Pair(second: char)

  predicate IsPiece(p: Piece) {
    match p
    case Character(c) => c as int != 0x1B
    case Sequence(params, final) => NoFinal(params) && IsFinal(final)
    case SystemCommand(body, end) => NoTerminator(body) && (end == "\U{7}" || end == "\U{1B}\\")
    case Pair(second) => second != '[' && second != ']'
  }

  function Written(p: Piece): string {
    match p
    case Character(c) => [c]
    case Sequence(params, final) => "\U{1B}[" + params + [final]
    case SystemCommand(body, end) => "\U{1B}]" + body + end
    case Pair(second) => ['\U{1B}', second]
  }

  function WrittenAll(pieces: seq<Piece>): string {
    if pieces == [] then "" else Written(pieces[0]) + WrittenAll(pieces[1..])
  }

  function ShownAll(pieces: seq<Piece>): string {
    if pieces == [] then "" else (if pieces[0].Character? then ShownAs(pieces[0].c) else "") + ShownAll(pieces[1..])
  }

  predicate ArePieces(pieces: seq<Piece>) {
    forall i | 0 <= i < |pieces| :: IsPiece(pieces[i])
  }

  lemma PieceShown(p: Piece, rest: string)
    requires IsPiece(p)
    ensures Strip(Ground, Written(p) + rest) == (if p.Character? then ShownAs(p.c) else "") + Strip(Ground, rest)
  {
    match p
    case Character(c) => SingleCharacter(c, rest);
    case Sequence(params, final) => ControlSequence(params, final, rest);
    case SystemCommand(body, end) => OperatingSystemCommand(body, end, rest);
    case Pair(second) => TwoCharacters(second, rest);
  }

  /** What is shown of a text of pieces and perhaps an unfinished sequence: its characters, in order. */
  lemma {:induction false} PiecesShown(pieces: seq<Piece>, rest: string)
    requires ArePieces(pieces) && IsUnfinished(rest)
    ensures Strip(Ground, WrittenAll(pieces) + rest) == ShownAll(pieces)
  {
    if pieces == [] {
      assert "" + rest == rest;
      Unfinished(rest);
    } else {
      var p, more := pieces[0], pieces[1..];
      AppendAssociates(Written(p), WrittenAll(more), rest);
      PieceShown(p, WrittenAll(more) + rest);
      PiecesShown(more, rest);
    }
  }

  // The first place where a control sequence ends, or the length.
  function FinalAt(s: string): (k: nat)
    ensures k <= |s| && NoFinal(s[..k]) && (k < |s| ==> IsFinal(s[k]))
  {
    if s == [] || IsFinal(s[0]) then 0
    else
      var k := 1 + FinalAt(s[1..]);
      assert forall i | 0 < i < k :: s[i] == s[1..][..k - 1][i - 1];
      k
  }

  // The first place where a command ends, or the length.
  function TerminatorAt(s: string): (k: nat)
    ensures k <= |s| && NoTerminator(s[..k])
    ensures k < |s| ==> s[k] as int == 0x07 || (s[k] as int == 0x1B && k + 1 < |s| && s[k + 1] == '\\')
  {
    if s == [] || s[0] as int == 0x07 || (s[0] as int == 0x1B && |s| > 1 && s[1] == '\\') then 0
    else
      var k := 1 + TerminatorAt(s[1..]);
      assert forall i | 0 < i < k :: s[i] == s[1..][..k - 1][i - 1];
      k
  }

  lemma FirstSequence(opening: string, tail: string) returns (p: Piece, rest: string)
    requires opening == "\U{1B}[" && !NoFinal(tail)
    ensures IsPiece(p) && opening + tail == Written(p) + rest && |rest| < |tail|
  {
    var k := FinalAt(tail);
    assert tail[..|tail|] == tail;
    p, rest := Sequence(tail[..k], tail[k]), tail[k + 1..];
    assert tail == tail[..k] + [tail[k]] + rest;
  }

  lemma FirstCommand(opening: string, tail: string) returns (p: Piece, rest: string)
    requires opening == "\U{1B}]" && !NoTerminator(tail)
    ensures IsPiece(p) && opening + tail == Written(p) + rest && |rest| < |tail|
  {
    var k := TerminatorAt(tail);
    assert tail[..|tail|] == tail;
    var n := if tail[k] as int == 0x07 then 1 else 2;
    p, rest := SystemCommand(tail[..k], tail[k..k + n]), tail[k + n..];
    ThreeParts(tail, k, n);
    FourParts(opening, tail[..k], tail[k..k + n], rest);
  }

  lemma ThreeParts(s: string, k: nat, n: nat)
    requires k + n <= |s|
    ensures s == s[..k] + s[k..k + n] + s[k + n..]
  {
  }

  lemma FourParts(a: string, b: string, c: string, d: string)
    ensures a + (b + c + d) == a + b + c + d
  {
  }

  // The first piece of a text that is more than an unfinished sequence.
  lemma FirstPiece(s: string) returns (p: Piece, rest: string)
    requires !IsUnfinished(s)
    ensures IsPiece(p) && s == Written(p) + rest && |rest| < |s|
  {
    if s[0] as int != 0x1B {
      p, rest := Character(s[0]), s[1..];
    } else {
      var opening, tail := s[..2], s[2..];
      assert s == opening + tail;
      if s[1] == '[' {
        p, rest := FirstSequence(opening, tail);
      } else if s[1] == ']' {
        p, rest := FirstCommand(opening, tail);
      } else {
        p, rest := Pair(s[1]), tail;
      }
    }
  }

  /** Every text is a sequence of pieces and perhaps an unfinished one, and what is shown of it are exactly
      its characters. */
  lemma {:induction false} EveryText(s: string) returns (pieces: seq<Piece>, rest: string)
    ensures s == WrittenAll(pieces) + rest && ArePieces(pieces) && IsUnfinished(rest)
    ensures Strip(Ground, s) == ShownAll(pieces)
    decreases |s|
  {
    if IsUnfinished(s) {
      pieces, rest := [], s;
    } else {
      var p, more := FirstPiece(s);
      pieces, rest := EveryText(more);
      AppendAssociates(Written(p), WrittenAll(pieces), rest);
      pieces := [p] + pieces;
    }
    PiecesShown(pieces, rest);
  }

  // ---------------------------------------------------------------- lines

  // The lines are the texts between line feeds that are not blank, without the whitespace at their ends.
  ghost predicate AreInkOf(lines: seq<string>, segments: seq<string>) {
    if segments == [] then lines == []
    else if IsBlank(segments[0]) then AreInkOf(lines, segments[1..])
    else lines != [] && IsInkOf(lines[0], segments[0]) && AreInkOf(lines[1..], segments[1..])
  }

  lemma BlankExactly(s: string)
    ensures IsBlank(s) <==> TrimEnd(s) == ""
  {
    TrimEndIsInk(s);
    if TrimEnd(s) == "" {
      assert s[0..] == s;
    }
  }

  lemma InkNext(segment: string, lines: seq<string>, segments: seq<string>)
    requires AreInkOf(lines, segments)
    ensures AreInkOf(NonBlank([segment]) + lines, [segment] + segments)
  {
    TrimEndIsInk(segment);
    BlankExactly(segment);
    assert ([segment] + segments)[1..] == segments && [segment][1..] == [];
    assert [] + lines == lines && ([TrimEnd(segment)] + lines)[1..] == lines;
  }

  lemma {:induction false} LinesAreInk(segments: seq<string>)
    requires segments != [] && forall i | 0 <= i < |segments| :: '\n' !in segments[i]
    ensures AreInkOf(NonBlank(Lines(Join(segments, '\n'))), segments)
  {
    var first, rest := segments[0], segments[1..];
    assert segments == [first] + rest;
    if rest == [] {
      OneLine(first);
      InkNext(first, [], []);
      AppendNothing(NonBlank([first]));
    } else {
      LinesAreInk(rest);
      PeelLine(first, Join(rest, '\n'));
      InkNext(first, NonBlank(Lines(Join(rest, '\n'))), rest);
    }
  }

  // The carriage return before a line feed.
  predicate IsChomped(line: string, part: string) {
    if part != "" && part[|part| - 1] as int == 0x0D then line == part[..|part| - 1] else line == part
  }

  // The parts in front of line feeds lose one carriage return; the last one is a line if there is anything.
  predicate AreLinesOf(lines: seq<string>, parts: seq<string>) {
    if |parts| == 0 then lines == []
    else if |parts| == 1 then lines == (if parts[0] == "" then [] else parts)
    else lines != [] && IsChomped(lines[0], parts[0]) && AreLinesOf(lines[1..], parts[1..])
  }

  /** The lines of a text are its parts between line feeds, each without one carriage return before its line feed;
      behind the last line feed there is a line only if there is text. */
  lemma {:induction false} LinesOfParts(parts: seq<string>)
    requires parts != [] && forall i | 0 <= i < |parts| :: '\n' !in parts[i]
    ensures AreLinesOf(Lines(Join(parts, '\n')), parts)
  {
    if |parts| == 1 {
      FindNone(parts[0]);
    } else {
      var rest := parts[1..];
      LinesOfParts(rest);
      FirstLine(parts[0], Join(rest, '\n'));
      var lines := Lines(Join(rest, '\n'));
      assert ([DropCr(parts[0])] + lines)[1..] == lines;
    }
  }

  /** The lines of a normalized text: write the text as pieces and perhaps an unfinished sequence, and what is
      shown of it as segments between line feeds; the clean lines are the segments that are not blank,
      without the whitespace at their ends. */
  lemma NormalizedLines(pieces: seq<Piece>, rest: string, segments: seq<string>)
    requires ArePieces(pieces) && IsUnfinished(rest)
    requires segments != [] && forall i | 0 <= i < |segments| :: '\n' !in segments[i]
    requires ShownAll(pieces) == Join(segments, '\n')
    ensures AreInkOf(NormalLines(WrittenAll(pieces) + rest), segments)
    ensures Normalize(WrittenAll(pieces) + rest) == Join(NormalLines(WrittenAll(pieces) + rest), '\n')
  {
    PiecesShown(pieces, rest);
    LinesAreInk(segments);
  }
}
