/** Lossy decoding, told by encodings alone: a character whose encoding comes next is decoded, and anything
    else is replaced up to the longest beginning of an encoding, or byte by byte. */
module Decoding {
  import opened Model
  import opened Utf8

  // The first k bytes begin the encoding of a character but do not complete it.
  ghost predicate Begins(bytes: seq<byte>, k: nat) {
    k <= |bytes| && exists c :: bytes[..k] < EncodeChar(c)
  }

  ghost predicate NoCharacter(bytes: seq<byte>) {
    forall c :: !(EncodeChar(c) <= bytes)
  }

  // What an encoding looks like.
  lemma EncodedShape(c: char)
    ensures var e := EncodeChar(c);
      && Width(e[0]) == |e|
      && (|e| > 1 ==> IsSecond(e[0], e[1]))
      && (|e| > 2 ==> IsContinuation(e[2]))
      && (|e| > 3 ==> IsContinuation(e[3]))
  {
    var n := c as int;
    if n >= 0x1_0000 {
      FourDigits(n);
    }
  }

  lemma TwoBytes(b0: byte, b1: byte)
    requires Width(b0) == 2 && IsSecond(b0, b1)
    ensures EncodeChar(((b0 - 0xC0) * 0x40 + (b1 - 0x80)) as char) == [b0, b1]
  {
  }

  lemma Low6(x: nat, d: nat)
    requires d < 0x40
    ensures (x * 0x40 + d) / 0x40 == x && (x * 0x40 + d) % 0x40 == d
  {
  }

  lemma Low12(x: nat, d: nat)
    requires d < 0x1000
    ensures (x * 0x1000 + d) / 0x1000 == x
  {
  }

  lemma Low18(x: nat, d: nat)
    requires d < 0x4_0000
    ensures (x * 0x4_0000 + d) / 0x4_0000 == x
  {
  }

  lemma FourParts(a: nat, b: nat, c: nat, d: nat, n: nat)
    requires b < 0x40 && c < 0x40 && d < 0x40 && n == a * 0x4_0000 + b * 0x1000 + c * 0x40 + d
    ensures n / 0x4_0000 == a && n / 0x1000 % 0x40 == b && n / 0x40 % 0x40 == c && n % 0x40 == d
  {
    var y := a * 0x40 + b;
    var x := y * 0x40 + c;
    Low6(x, d);
    Low6(y, c);
    Low6(a, b);
    Low12(y, c * 0x40 + d);
    Low18(a, b * 0x1000 + c * 0x40 + d);
  }

  lemma ThreeParts(a: nat, b: nat, c: nat, n: nat)
    requires b < 0x40 && c < 0x40 && n == a * 0x1000 + b * 0x40 + c
    ensures n / 0x1000 == a && n / 0x40 % 0x40 == b && n % 0x40 == c
  {
    Low6(a * 0x40 + b, c);
    Low6(a, b);
    Low12(a, b * 0x40 + c);
  }

  lemma ThreeBytes(b0: byte, b1: byte, b2: byte)
    requires Width(b0) == 3 && IsSecond(b0, b1) && IsContinuation(b2)
    ensures EncodeChar(((b0 - 0xE0) * 0x1000 + (b1 - 0x80) * 0x40 + (b2 - 0x80)) as char) == [b0, b1, b2]
  {
    var a, b, c := b0 - 0xE0, b1 - 0x80, b2 - 0x80;
    var n := a * 0x1000 + b * 0x40 + c;
    ThreeParts(a, b, c, n);
    assert 0x800 <= n < 0xD800 || 0xE000 <= n < 0x1_0000;
  }

  lemma FourBytes(b0: byte, b1: byte, b2: byte, b3: byte)
    requires Width(b0) == 4 && IsSecond(b0, b1) && IsContinuation(b2) && IsContinuation(b3)
    ensures EncodeChar(((b0 - 0xF0) * 0x4_0000 + (b1 - 0x80) * 0x1000 + (b2 - 0x80) * 0x40 + (b3 - 0x80)) as char)
      == [b0, b1, b2, b3]
  {
    var a, b, c, d := b0 - 0xF0, b1 - 0x80, b2 - 0x80, b3 - 0x80;
    var n := a * 0x4_0000 + b * 0x1000 + c * 0x40 + d;
    FourParts(a, b, c, d, n);
    assert 0x1_0000 <= n < 0x11_0000;
  }

  // A well-formed sequence is the encoding of what it is decoded as.
  lemma WellFormedIsEncoded(bytes: seq<byte>)
    requires bytes != []
    requires var b0, b1, b2, b3 := bytes[0], At(bytes, 1), At(bytes, 2), At(bytes, 3);
      var width := Width(b0);
      && width > 0 && (width > 1 ==> IsSecond(b0, b1)) && (width > 2 ==> IsContinuation(b2)) && (width > 3 ==> IsContinuation(b3))
    ensures EncodeChar(Next(bytes).character) <= bytes && Next(bytes).length == Width(bytes[0])
  {
    var b0, b1, b2, b3, width := bytes[0], At(bytes, 1), At(bytes, 2), At(bytes, 3), Width(bytes[0]);
    if width == 2 {
      TwoBytes(b0, b1);
    } else if width == 3 {
      ThreeBytes(b0, b1, b2);
    } else if width == 4 {
      FourBytes(b0, b1, b2, b3);
    }
  }

  // Some characters begin with two, or three, well-formed bytes.
  lemma TwoBegin(bytes: seq<byte>)
    requires |bytes| >= 2 && Width(bytes[0]) > 2 && IsSecond(bytes[0], bytes[1])
    ensures Begins(bytes, 2)
  {
    var b0, b1 := bytes[0], bytes[1];
    var more := if Width(b0) == 3 then [b0, b1, 0x80] else [b0, b1, 0x80, 0x80];
    WellFormedIsEncoded(more);
    var c := Next(more).character;
    EncodedShape(c);
    assert EncodeChar(c) == more && bytes[..2] == more[..2];
  }

  lemma ThreeBegin(bytes: seq<byte>)
    requires |bytes| >= 3 && Width(bytes[0]) == 4 && IsSecond(bytes[0], bytes[1]) && IsContinuation(bytes[2])
    ensures Begins(bytes, 3)
  {
    var more := [bytes[0], bytes[1], bytes[2], 0x80];
    WellFormedIsEncoded(more);
    var c := Next(more).character;
    EncodedShape(c);
    assert EncodeChar(c) == more && bytes[..3] == more[..3];
  }

  // What begins an encoding has its shape.
  lemma BeginningShape(bytes: seq<byte>, k: nat)
    requires Begins(bytes, k) && k >= 2
    ensures k < Width(bytes[0]) && IsSecond(bytes[0], bytes[1]) && (k > 2 ==> IsContinuation(bytes[2]))
  {
    var c :| bytes[..k] < EncodeChar(c);
    EncodedShape(c);
    assert bytes[..k][0] == bytes[0] && bytes[..k][1] == bytes[1] && (k > 2 ==> bytes[..k][2] == bytes[2]);
  }

  /** An encoding that comes next is decoded. */
  lemma EncodedIsDecoded(bytes: seq<byte>, c: char)
    requires EncodeChar(c) <= bytes
    ensures Next(bytes) == Decoded(|EncodeChar(c)|, c)
  {
    assert bytes == EncodeChar(c) + bytes[|EncodeChar(c)|..];
    NextOfEncoded(c, bytes[|EncodeChar(c)|..]);
  }

  // How many bytes are replaced where no character comes next.
  lemma IllFormed(bytes: seq<byte>)
    requires bytes != [] && NoCharacter(bytes)
    ensures Next(bytes).character == REPLACEMENT
    ensures Next(bytes).length == 1 || Begins(bytes, Next(bytes).length)
  {
    var b0, b1, b2, b3, width := bytes[0], At(bytes, 1), At(bytes, 2), At(bytes, 3), Width(bytes[0]);
    if width > 0 && (width > 1 ==> IsSecond(b0, b1)) && (width > 2 ==> IsContinuation(b2)) && (width > 3 ==> IsContinuation(b3)) {
      WellFormedIsEncoded(bytes);
    } else if width > 2 && IsSecond(b0, b1) {
      if IsContinuation(b2) {
        ThreeBegin(bytes);
      } else {
        TwoBegin(bytes);
      }
    }
  }

  lemma NoLongerBeginning(bytes: seq<byte>, k: nat)
    requires bytes != [] && NoCharacter(bytes) && k > Next(bytes).length
    ensures !Begins(bytes, k)
  {
    if Begins(bytes, k) {
      BeginningShape(bytes, k);
      WellFormedUnless(bytes);
    }
  }

  lemma WellFormedUnless(bytes: seq<byte>)
    requires bytes != [] && NoCharacter(bytes)
    ensures var b0, b1, b2, b3, width := bytes[0], At(bytes, 1), At(bytes, 2), At(bytes, 3), Width(bytes[0]);
      !(width > 0 && (width > 1 ==> IsSecond(b0, b1)) && (width > 2 ==> IsContinuation(b2)) && (width > 3 ==> IsContinuation(b3)))
  {
    var b0, b1, b2, b3, width := bytes[0], At(bytes, 1), At(bytes, 2), At(bytes, 3), Width(bytes[0]);
    if width > 0 && (width > 1 ==> IsSecond(b0, b1)) && (width > 2 ==> IsContinuation(b2)) && (width > 3 ==> IsContinuation(b3)) {
      WellFormedIsEncoded(bytes);
    }
  }

  /** Lossy decoding takes one step at a time. If some character's encoding comes next, it is that
      character. If not, it is the replacement character, for the longest beginning of an encoding, and
      for a single byte if not even two bytes begin one. */
  lemma NextExactly(bytes: seq<byte>)
    requires bytes != []
    ensures forall c | EncodeChar(c) <= bytes :: Next(bytes) == Decoded(|EncodeChar(c)|, c)
    ensures NoCharacter(bytes) ==>
      var n := Next(bytes).length;
      && Next(bytes).character == REPLACEMENT
      && (n == 1 || Begins(bytes, n))
      && forall k: nat | k > n :: !Begins(bytes, k)
  {
    forall c | EncodeChar(c) <= bytes ensures Next(bytes) == Decoded(|EncodeChar(c)|, c) {
      EncodedIsDecoded(bytes, c);
    }
    if NoCharacter(bytes) {
      IllFormed(bytes);
      forall k: nat | k > Next(bytes).length ensures !Begins(bytes, k) {
        NoLongerBeginning(bytes, k);
      }
    }
  }
}
