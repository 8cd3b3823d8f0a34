/** UTF-8 as the reducer uses it: lossy decoding of raw bytes (section 4 of RFC 3629 gives the
    well-formed sequences), encoding, and byte lengths of text. */
module Utf8 {
  import opened Model

  const REPLACEMENT: char := '\U{FFFD}'

  // The byte at an index, or 0 past the end. No check below accepts 0 as a continuation.
  function At(bytes: seq<byte>, i: nat): byte {
    if i < |bytes| then bytes[i] else 0
  }

  predicate IsContinuation(b: byte) {
    0x80 <= b <= 0xBF
  }

  // Length of the sequence announced by a lead byte, or 0 if no sequence starts with it.
  function Width(lead: byte): nat {
    if lead < 0x80 then 1
    else if 0xC2 <= lead <= 0xDF then 2
    else if 0xE0 <= lead <= 0xEF then 3
    else if 0xF0 <= lead <= 0xF4 then 4
    else 0
  }

  // The second byte of a well-formed sequence: overlong forms, surrogates and values
  // above U+10FFFF are excluded here.
  predicate IsSecond(lead: byte, second: byte) {
    IsContinuation(second) &&
    (lead == 0xE0 ==> 0xA0 <= second) &&
    (lead == 0xED ==> second <= 0x9F) &&
    (lead == 0xF0 ==> 0x90 <= second) &&
    (lead == 0xF4 ==> second <= 0x8F)
  }

  datatype Decoded = Decoded(length: nat, character: char)

  // The first character of the input, or the replacement of its longest ill-formed prefix.
  function Next(bytes: seq<byte>): (d: Decoded)
    requires bytes != []
    ensures 1 <= d.length <= |bytes|
  {
    var b0, b1, b2, b3 := bytes[0], At(bytes, 1), At(bytes, 2), At(bytes, 3);
    var width := Width(b0);
    if width == 1 then Decoded(1, b0 as char)
    else if width == 0 || !IsSecond(b0, b1) then Decoded(1, REPLACEMENT)
    else if width == 2 then Decoded(2, ((b0 - 0xC0) * 0x40 + (b1 - 0x80)) as char)
    else if !IsContinuation(b2) then Decoded(2, REPLACEMENT)
    else if width == 3 then
      Decoded(3, ((b0 - 0xE0) * 0x1000 + (b1 - 0x80) * 0x40 + (b2 - 0x80)) as char)
    else if !IsContinuation(b3) then Decoded(3, REPLACEMENT)
    else
      Decoded(4, ((b0 - 0xF0) * 0x4_0000 + (b1 - 0x80) * 0x1000 + (b2 - 0x80) * 0x40 + (b3 - 0x80)) as char)
  }

  function Decode(bytes: seq<byte>): string {
    if bytes == [] then []
    else [Next(bytes).character] + Decode(bytes[Next(bytes).length..])
  }

  function EncodeChar(c: char): (r: seq<byte>)
    ensures 1 <= |r| <= 4
  {
    var n := c as int;
    if n < 0x80 then [n]
    else if n < 0x800 then [0xC0 + n / 0x40, 0x80 + n % 0x40]
    else if n < 0x1_0000 then [0xE0 + n / 0x1000, 0x80 + n / 0x40 % 0x40, 0x80 + n % 0x40]
    else [0xF0 + n / 0x4_0000, 0x80 + n / 0x1000 % 0x40, 0x80 + n / 0x40 % 0x40, 0x80 + n % 0x40]
  }

  function Encode(s: string): seq<byte> {
    if s == [] then [] else EncodeChar(s[0]) + Encode(s[1..])
  }

  // The length of a string as the program measures it: in encoded bytes.
  function ByteLen(s: string): nat {
    if s == [] then 0 else |EncodeChar(s[0])| + ByteLen(s[1..])
  }

  // Whether a byte offset falls between whole characters.
  predicate IsCharBoundary(s: string, offset: nat) {
    offset == 0 ||
    (s != [] && |EncodeChar(s[0])| <= offset && IsCharBoundary(s[1..], offset - |EncodeChar(s[0])|))
  }

  // The characters before a boundary.
  function SliceTo(s: string, offset: nat): (prefix: string)
    requires IsCharBoundary(s, offset)
    ensures prefix <= s && ByteLen(prefix) == offset
  {
    if offset == 0 then [] else [s[0]] + SliceTo(s[1..], offset - |EncodeChar(s[0])|)
  }

  // The longest prefix of at most so many bytes.
  function Fit(s: string, maximum: nat): (prefix: string)
    ensures prefix <= s && ByteLen(prefix) <= maximum
    ensures |prefix| < |s| ==> ByteLen(prefix) + |EncodeChar(s[|prefix|])| > maximum
  {
    if s == [] || |EncodeChar(s[0])| > maximum then []
    else
      var rest := Fit(s[1..], maximum - |EncodeChar(s[0])|);
      assert rest != [] ==> ([s[0]] + rest)[1..] == rest;
      [s[0]] + rest
  }

  // No character begins or ends between two offsets, the higher one included.
  predicate NoneBetween(s: string, low: int, high: int) {
    forall n: nat | low < n <= high :: !IsCharBoundary(s, n)
  }

  // Steps back from a byte offset to a character boundary.
  method FloorBoundary(s: string, maximum: nat) returns (boundary: nat)
    ensures boundary <= maximum && IsCharBoundary(s, boundary)
    ensures SliceTo(s, boundary) == Fit(s, maximum)
  {
    boundary := maximum;
    while boundary > 0 && !IsCharBoundary(s, boundary)
      invariant boundary <= maximum
      invariant NoneBetween(s, boundary, maximum)
    {
      boundary := boundary - 1;
    }
    FitIsFloor(s, maximum, boundary);
  }

  lemma BoundaryBehind(s: string, n: nat)
    requires s != []
    ensures IsCharBoundary(s, n + |EncodeChar(s[0])|) <==> IsCharBoundary(s[1..], n)
  {
  }

  lemma NoneBehind(s: string, width: nat, boundary: nat, maximum: nat)
    requires s != [] && width == |EncodeChar(s[0])| && NoneBetween(s, boundary, maximum)
    ensures NoneBetween(s[1..], boundary - width, maximum - width)
  {
    forall n: nat | boundary - width < n <= maximum - width ensures !IsCharBoundary(s[1..], n) {
      BoundaryBehind(s, n);
    }
  }

  // The first character fits, so the boundary lies behind it.
  lemma FirstFits(s: string, width: nat, boundary: nat, maximum: nat)
    requires s != [] && width == |EncodeChar(s[0])| <= maximum
    requires IsCharBoundary(s, boundary) && NoneBetween(s, boundary, maximum)
    ensures width <= boundary && IsCharBoundary(s[1..], boundary - width)
    ensures SliceTo(s, boundary) == [s[0]] + SliceTo(s[1..], boundary - width)
  {
    BoundaryBehind(s, 0);
  }

  lemma {:induction false} FitIsFloor(s: string, maximum: nat, boundary: nat)
    requires boundary <= maximum && IsCharBoundary(s, boundary) && NoneBetween(s, boundary, maximum)
    ensures SliceTo(s, boundary) == Fit(s, maximum)
  {
    if s != [] {
      var tail, width := s[1..], |EncodeChar(s[0])|;
      if width <= maximum {
        FirstFits(s, width, boundary, maximum);
        NoneBehind(s, width, boundary, maximum);
        FitIsFloor(tail, maximum - width, boundary - width);
      }
    }
  }

  predicate IsAscii(bytes: seq<byte>) {
    forall i | 0 <= i < |bytes| :: bytes[i] < 0x80
  }

  // Bytes below 0x80, read as characters.
  function Ascii(bytes: seq<byte>): string
    requires IsAscii(bytes)
  {
    seq(|bytes|, i requires 0 <= i < |bytes| => bytes[i] as char)
  }

  lemma {:induction false} ByteLenConcat(a: string, b: string)
    ensures ByteLen(a + b) == ByteLen(a) + ByteLen(b)
  {
    if a == [] {
      assert a + b == b;
    } else {
      ByteLenConcat(a[1..], b);
      assert (a + b)[1..] == a[1..] + b;
    }
  }

  lemma {:induction false} EncodeLength(s: string)
    ensures |Encode(s)| == ByteLen(s)
  {
    if s != [] {
      EncodeLength(s[1..]);
    }
  }

  lemma {:induction false} ByteLenAtLeast(s: string)
    ensures |s| <= ByteLen(s)
  {
    if s != [] {
      ByteLenAtLeast(s[1..]);
    }
  }

  // A sequence never extends across an ASCII byte: whatever follows one, the first
  // character before it decodes as if the input ended there.
  lemma NextStopsAtAscii(a: seq<byte>, d: byte, rest: seq<byte>)
    requires a != [] && d < 0x80
    ensures Next(a + [d] + rest) == Next(a)
  {
    var s := a + [d] + rest;
    assert s[0] == a[0];
    assert forall i: nat | 1 <= i <= 3 && i < |a| :: At(s, i) == At(a, i);
    assert |a| <= 3 ==> At(s, |a|) == d;
  }

  /** Lossy decoding distributes over every ASCII byte, so over CR and LF: raw input can be cut
      into lines before decoding. */
  lemma {:induction false} DecodeSplit(a: seq<byte>, d: byte, rest: seq<byte>)
    requires d < 0x80
    ensures Decode(a + [d] + rest) == Decode(a) + [d as char] + Decode(rest)
    decreases |a|
  {
    var s := a + [d] + rest;
    if a == [] {
      assert s[1..] == rest;
    } else {
      NextStopsAtAscii(a, d, rest);
      var n := Next(a).length;
      assert s[n..] == a[n..] + [d] + rest;
      DecodeSplit(a[n..], d, rest);
    }
  }

  lemma {:induction false} DecodeAscii(bytes: seq<byte>)
    requires IsAscii(bytes)
    ensures Decode(bytes) == Ascii(bytes)
  {
    if bytes != [] {
      DecodeAscii(bytes[1..]);
    }
  }

  // An ASCII character in the text was the same byte in the input.
  lemma {:induction false} DecodedAsciiWasByte(bytes: seq<byte>, d: byte)
    requires d < 0x80
    requires d as char in Decode(bytes)
    ensures d in bytes
    decreases |bytes|
  {
    if bytes != [] {
      var n := Next(bytes);
      if n.character != d as char {
        DecodedAsciiWasByte(bytes[n.length..], d);
      } else {
        assert bytes[0] == d;
      }
    }
  }

  lemma NextOfOne(c: char, rest: seq<byte>)
    requires c as int < 0x80
    ensures Next(EncodeChar(c) + rest) == Decoded(1, c)
  {
  }

  lemma NextOfTwo(c: char, rest: seq<byte>)
    requires 0x80 <= c as int < 0x800
    ensures Next(EncodeChar(c) + rest) == Decoded(2, c)
  {
    var s := EncodeChar(c) + rest;
    assert s[0] == EncodeChar(c)[0] && At(s, 1) == EncodeChar(c)[1];
  }

  lemma NextOfThree(c: char, rest: seq<byte>)
    requires 0x800 <= c as int < 0x1_0000
    ensures Next(EncodeChar(c) + rest) == Decoded(3, c)
  {
    var n, e := c as int, EncodeChar(c);
    var s := e + rest;
    assert s[0] == e[0] && At(s, 1) == e[1] && At(s, 2) == e[2];
    assert n == n / 0x1000 * 0x1000 + n / 0x40 % 0x40 * 0x40 + n % 0x40;
  }

  lemma FourDigits(n: nat)
    requires 0x1_0000 <= n < 0x11_0000
    ensures n / 0x4_0000 <= 4
    ensures n == n / 0x4_0000 * 0x4_0000 + n / 0x1000 % 0x40 * 0x1000 + n / 0x40 % 0x40 * 0x40 + n % 0x40
  {
  }

  lemma NextOfFour(c: char, rest: seq<byte>)
    requires c as int >= 0x1_0000
    ensures Next(EncodeChar(c) + rest) == Decoded(4, c)
  {
    var n, e := c as int, EncodeChar(c);
    var s := e + rest;
    assert s[0] == e[0] && At(s, 1) == e[1] && At(s, 2) == e[2] && At(s, 3) == e[3];
    FourDigits(n);
  }

  lemma NextOfEncoded(c: char, rest: seq<byte>)
    ensures Next(EncodeChar(c) + rest) == Decoded(|EncodeChar(c)|, c)
  {
    var n := c as int;
    if n < 0x80 {
      NextOfOne(c, rest);
    } else if n < 0x800 {
      NextOfTwo(c, rest);
    } else if n < 0x1_0000 {
      NextOfThree(c, rest);
    } else {
      NextOfFour(c, rest);
    }
  }

  /** Text that is already a string survives encoding and lossy decoding unchanged. */
  lemma {:induction false} DecodeEncode(s: string)
    ensures Decode(Encode(s)) == s
  {
    if s != [] {
      var e, rest := EncodeChar(s[0]), Encode(s[1..]);
      NextOfEncoded(s[0], rest);
      assert (e + rest)[|e|..] == rest;
      DecodeEncode(s[1..]);
    }
  }
}
