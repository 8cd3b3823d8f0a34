/** Searching, splitting and decimal numbers, as the line recognizers use them. */
module Strings {
  import opened Model
  import opened Text

  predicate StartsWith(s: string, prefix: string) {
    prefix <= s
  }

  predicate EndsWith(s: string, suffix: string) {
    |suffix| <= |s| && s[|s| - |suffix|..] == suffix
  }

  lemma SliceOfTail(s: string, k: nat, n: nat)
    requires k + 1 + n <= |s|
    ensures s[k + 1..k + 1 + n] == s[1..][k..k + n]
  {
  }

  lemma SliceOfInit(s: string, k: nat, n: nat)
    requires k + n < |s|
    ensures s[k..k + n] == s[..|s| - 1][k..k + n]
  {
  }

  // The first occurrence.
  function IndexOf(s: string, part: string): (index: Option<nat>)
    ensures index.Some? ==> index.value + |part| <= |s| && s[index.value..index.value + |part|] == part
  {
    if part <= s then Some(0)
    else if s == [] then None
    else
      match IndexOf(s[1..], part)
      case None => None
      case Some(k) =>
        SliceOfTail(s, k, |part|);
        Some(k + 1)
  }

  // The last occurrence.
  function LastIndexOf(s: string, part: string): (index: Option<nat>)
    ensures index.Some? ==> index.value + |part| <= |s| && s[index.value..index.value + |part|] == part
  {
    if EndsWith(s, part) then Some(|s| - |part|)
    else if s == [] then None
    else
      match LastIndexOf(s[..|s| - 1], part)
      case None => None
      case Some(k) =>
        SliceOfInit(s, k, |part|);
        Some(k)
  }

  predicate Contains(s: string, part: string) {
    IndexOf(s, part).Some?
  }

  function StripPrefix(s: string, prefix: string): Option<string> {
    if prefix <= s then Some(s[|prefix|..]) else None
  }

  function StripSuffix(s: string, suffix: string): Option<string> {
    if EndsWith(s, suffix) then Some(s[..|s| - |suffix|]) else None
  }

  function SplitOnce(s: string, separator: string): Option<(string, string)> {
    match IndexOf(s, separator)
    case None => None
    case Some(k) => Some((s[..k], s[k + |separator|..]))
  }

  function RSplitOnce(s: string, separator: string): Option<(string, string)> {
    match LastIndexOf(s, separator)
    case None => None
    case Some(k) => Some((s[..k], s[k + |separator|..]))
  }

  // The texts between all occurrences of a separator.
  function SplitOn(s: string, separator: char): seq<string> {
    var k := Find(s, separator);
    if k == |s| then [s] else [s[..k]] + SplitOn(s[k + 1..], separator)
  }

  function TrimStartOf(s: string, c: char): string {
    if s != [] && s[0] == c then TrimStartOf(s[1..], c) else s
  }

  function TrimEndOf(s: string, c: char): string {
    if s != [] && s[|s| - 1] == c then TrimEndOf(s[..|s| - 1], c) else s
  }

  // Every occurrence of a character replaced by a text.
  function Replace(s: string, c: char, text: string): string {
    if s == [] then [] else (if s[0] == c then text else [s[0]]) + Replace(s[1..], c, text)
  }

  // A path without surrounding quotes and a leading "./", with forward slashes only.
  function NormalizePath(path: string): string {
    var slashed := Replace(TrimEndOf(TrimStartOf(path, '"'), '"'), '\\', "/");
    match StripPrefix(slashed, "./") case None => slashed case Some(rest) => rest
  }

  // The characters up to the first whitespace.
  function Word(s: string): string {
    if s == [] || IsWhitespace(s[0]) then [] else [s[0]] + Word(s[1..])
  }

  // The characters after the last whitespace.
  function WordAtEnd(s: string): string {
    if s == [] || IsWhitespace(s[|s| - 1]) then [] else WordAtEnd(s[..|s| - 1]) + [s[|s| - 1]]
  }

  function Before(s: string, separator: string): string {
    match SplitOnce(s, separator) case None => s case Some(parts) => parts.0
  }

  function AfterLast(s: string, separator: string): string {
    match RSplitOnce(s, separator) case None => s case Some(parts) => parts.1
  }

  // ASCII lower case.
  function ToLower(s: string): string {
    seq(|s|, i requires 0 <= i < |s| => if 'A' <= s[i] <= 'Z' then (s[i] as int + 32) as char else s[i])
  }

  predicate StartsWithAny(s: string, prefixes: seq<string>) {
    exists i :: 0 <= i < |prefixes| && StartsWith(s, prefixes[i])
  }

  predicate ContainsAny(s: string, parts: seq<string>) {
    exists i :: 0 <= i < |parts| && Contains(s, parts[i])
  }

  lemma {:induction false} FindBehind(a: string, c: char, rest: string)
    requires c !in a
    ensures Find(a + [c] + rest, c) == |a|
  {
    if a != [] {
      assert (a + [c] + rest)[1..] == a[1..] + [c] + rest;
      FindBehind(a[1..], c, rest);
    }
  }

  lemma FindAbsent(a: string, c: char)
    requires c !in a
    ensures Find(a, c) == |a|
  {
  }

  // Splitting undoes joining.
  lemma {:induction false} SplitJoined(parts: seq<string>, c: char)
    requires parts != [] && forall i | 0 <= i < |parts| :: c !in parts[i]
    ensures SplitOn(Join(parts, c), c) == parts
  {
    if |parts| == 1 {
      FindAbsent(parts[0], c);
    } else {
      var rest := Join(parts[1..], c);
      FindBehind(parts[0], c, rest);
      var s := parts[0] + [c] + rest;
      assert s[..|parts[0]|] == parts[0] && s[|parts[0]| + 1..] == rest;
      SplitJoined(parts[1..], c);
    }
  }

  // Joining undoes splitting.
  lemma {:induction false} JoinSplit(s: string, c: char)
    ensures var parts := SplitOn(s, c);
      parts != [] && Join(parts, c) == s && forall i | 0 <= i < |parts| :: c !in parts[i]
    decreases |s|
  {
    var k := Find(s, c);
    if k == |s| {
      assert s[..k] == s;
    } else {
      JoinSplit(s[k + 1..], c);
      assert s == s[..k] + [c] + s[k + 1..];
    }
  }

  // ---------------------------------------------------------------- decimal numbers

  predicate IsDigit(c: char) {
    '0' <= c <= '9'
  }

  predicate IsDigits(s: string) {
    forall i | 0 <= i < |s| :: IsDigit(s[i])
  }

  // ASCII letters, digits, and the characters of qualified class names.
  predicate IsIdentifier(s: string) {
    forall i | 0 <= i < |s| ::
      IsDigit(s[i]) || 'a' <= s[i] <= 'z' || 'A' <= s[i] <= 'Z' || s[i] == '_' || s[i] == '.' || s[i] == '$'
  }

  function Decimal(s: string): nat
    requires IsDigits(s)
  {
    if s == [] then 0 else Decimal(s[..|s| - 1]) * 10 + (s[|s| - 1] as int - '0' as int)
  }

  // Parsing an unsigned 32-bit number; one leading plus sign is accepted.
  function ParseU32(s: string): Option<u32> {
    var digits := if s != [] && s[0] == '+' then s[1..] else s;
    if digits == [] || !IsDigits(digits) || Decimal(digits) > U32_MAX then None else Some(Decimal(digits))
  }

  // The decimal form without leading zeros.
  function Show(n: nat): string {
    if n < 10 then [('0' as int + n) as char] else Show(n / 10) + [('0' as int + n % 10) as char]
  }

  lemma {:induction false} ShowIsDecimal(n: nat)
    ensures Show(n) != [] && IsDigits(Show(n)) && Decimal(Show(n)) == n
  {
    var last := ('0' as int + n % 10) as char;
    if n < 10 {
      assert Show(n) == [last] && Show(n)[..0] == [];
    } else {
      ShowIsDecimal(n / 10);
      assert Show(n)[..|Show(n)| - 1] == Show(n / 10);
    }
  }

  lemma ParseShow(n: u32)
    ensures ParseU32(Show(n)) == Some(n)
  {
    ShowIsDecimal(n);
    assert IsDigit(Show(n)[0]);
  }

  // ---------------------------------------------------------------- what numbers are read and written as

  function Zeros(k: nat): string {
    seq(k, _ => '0')
  }

  function Pow10(k: nat): nat {
    if k == 0 then 1 else 10 * Pow10(k - 1)
  }

  function WithoutPlus(s: string): string {
    if s != [] && s[0] == '+' then s[1..] else s
  }

  lemma DivideTwice(n: nat, k: nat)
    ensures Pow10(k) > 0 && n / 10 / Pow10(k) == n / Pow10(k + 1)
  {
    if k > 0 {
      DivideTwice(n, k - 1);
    }
    var m := Pow10(k);
    var q, r := n / 10 / m, n / 10 % m;
    var whole := n % 10 + 10 * r;
    DivisionIs(n, 10 * m, q, whole);
  }

  lemma AtLeastOnce(d: int, m: int)
    requires m > 0
    ensures d >= 1 ==> d * m >= m
    ensures d <= -1 ==> d * m <= -m
  {
  }

  lemma DivisionIs(n: nat, m: nat, q: nat, r: nat)
    requires m > 0 && r < m && n == q * m + r
    ensures n / m == q
  {
    AtLeastOnce(n / m - q, m);
    assert (n / m - q) * m == r - n % m;
  }

  /** The decimal form is positional: its k-th character from the end is the k-th digit, and it has no
      leading zero. */
  lemma {:induction false} ShowIsPositional(n: nat, k: nat)
    requires k < |Show(n)|
    ensures Pow10(k) > 0 && Show(n)[|Show(n)| - 1 - k] as int == '0' as int + n / Pow10(k) % 10
    ensures |Show(n)| > 1 ==> Show(n)[0] != '0'
    decreases n
  {
    if n >= 10 {
      if k > 0 {
        ShowIsPositional(n / 10, k - 1);
        DivideTwice(n, k - 1);
      } else {
        ShowIsPositional(n / 10, 0);
      }
      if |Show(n / 10)| == 1 {
        assert n / 10 < 10 && Show(n)[0] == Show(n / 10)[0];
      }
    }
  }

  lemma DecimalSnoc(s: string, c: char)
    requires IsDigits(s) && IsDigit(c)
    ensures IsDigits(s + [c]) && Decimal(s + [c]) == Decimal(s) * 10 + (c as int - '0' as int)
  {
    assert (s + [c])[..|s|] == s;
  }

  lemma {:induction false} DecimalOfPadded(k: nat, s: string)
    requires IsDigits(s)
    ensures IsDigits(Zeros(k) + s) && Decimal(Zeros(k) + s) == Decimal(s)
  {
    if s != [] {
      var init, c := s[..|s| - 1], s[|s| - 1];
      DecimalOfPadded(k, init);
      assert Zeros(k) + s == Zeros(k) + init + [c] && s == init + [c];
      DecimalSnoc(Zeros(k) + init, c);
    } else if k > 0 {
      DecimalOfPadded(k - 1, s);
      assert Zeros(k) + s == Zeros(k - 1) + s + ['0'];
      DecimalSnoc(Zeros(k - 1) + s, '0');
    }
  }

  lemma ShowSnoc(n: nat, c: char)
    requires IsDigit(c)
    ensures Show(n * 10 + (c as int - '0' as int)) == if n == 0 then [c] else Show(n) + [c]
  {
  }

  // Digits are zeros followed by the decimal form of their value.
  lemma {:induction false} DigitsArePadded(s: string) returns (k: nat)
    requires s != [] && IsDigits(s)
    ensures s == Zeros(k) + Show(Decimal(s))
  {
    var init, c := s[..|s| - 1], s[|s| - 1];
    assert s == init + [c] && IsDigit(c);
    DecimalSnoc(init, c);
    ShowSnoc(Decimal(init), c);
    if init == [] {
      k := 0;
    } else {
      k := DigitsArePadded(init);
      if Decimal(init) == 0 {
        assert Zeros(k) + Show(0) == Zeros(k + 1);
        k := k + 1;
      }
    }
  }

  // A number is read from its decimal form, perhaps behind zeros and one plus sign.
  ghost predicate IsWritten(s: string, n: nat) {
    exists k :: WithoutPlus(s) == Zeros(k) + Show(n)
  }

  /** A text is read as a 32-bit number exactly if it is that number in decimal form, perhaps behind zeros and
      one plus sign. */
  lemma ParseExactly(s: string, n: u32)
    ensures ParseU32(s) == Some(n) <==> IsWritten(s, n)
  {
    var digits := WithoutPlus(s);
    if ParseU32(s) == Some(n) {
      var k := DigitsArePadded(digits);
    }
    if IsWritten(s, n) {
      var k :| digits == Zeros(k) + Show(n);
      ShowIsDecimal(n);
      DecimalOfPadded(k, Show(n));
    }
  }

  // How many leading characters are digits.
  function DigitCount(s: string): (n: nat)
    ensures n <= |s| && IsDigits(s[..n])
    ensures n < |s| ==> !IsDigit(s[n])
  {
    if s == [] || !IsDigit(s[0]) then 0
    else
      var n := 1 + DigitCount(s[1..]);
      assert forall i | 0 < i < n :: s[i] == s[1..][..n - 1][i - 1];
      n
  }

  // ---------------------------------------------------------------- parts of a text

  predicate PartAt(s: string, part: string, i: nat) {
    i + |part| <= |s| && s[i..i + |part|] == part
  }

  ghost predicate IsPart(part: string, s: string) {
    exists i: nat :: PartAt(s, part, i)
  }

  lemma PartAtTail(s: string, part: string, i: nat)
    requires s != [] && i > 0
    ensures PartAt(s, part, i) <==> PartAt(s[1..], part, i - 1)
  {
    if i + |part| <= |s| {
      assert s[i..i + |part|] == s[1..][i - 1..i - 1 + |part|];
    }
  }

  // A text that does not start with a part contains it exactly if its tail does.
  lemma PartOfTail(s: string, part: string)
    requires s != [] && !(part <= s)
    ensures IsPart(part, s) <==> IsPart(part, s[1..])
  {
    if IsPart(part, s) {
      var i: nat :| PartAt(s, part, i);
      assert i > 0;
      PartAtTail(s, part, i);
    }
    if IsPart(part, s[1..]) {
      var i: nat :| PartAt(s[1..], part, i);
      PartAtTail(s, part, i + 1);
    }
  }

  /** Searching finds a text exactly if it occurs. */
  lemma {:induction false} ContainsIsPart(s: string, part: string)
    ensures Contains(s, part) <==> IsPart(part, s)
  {
    if part <= s {
      assert PartAt(s, part, 0);
    } else if s != [] {
      ContainsIsPart(s[1..], part);
      PartOfTail(s, part);
    }
  }

  lemma PartOfPart(a: string, b: string, c: string)
    requires IsPart(a, b) && IsPart(b, c)
    ensures IsPart(a, c)
  {
    var i: nat :| PartAt(b, a, i);
    var j: nat :| PartAt(c, b, j);
    forall k | 0 <= k < |a| ensures c[i + j + k] == a[k] {
      assert b[i..i + |a|][k] == b[i + k];
      assert c[j..j + |b|][i + k] == c[j + i + k];
    }
    assert PartAt(c, a, i + j);
  }

  lemma SliceIsPart(s: string, i: nat, j: nat)
    requires i <= j <= |s|
    ensures IsPart(s[i..j], s)
  {
    assert PartAt(s, s[i..j], i);
  }

  lemma PrefixIsPart(prefix: string, s: string)
    requires prefix <= s
    ensures IsPart(prefix, s)
  {
    assert PartAt(s, prefix, 0);
  }

  lemma SuffixIsPart(s: string, i: nat)
    requires i <= |s|
    ensures IsPart(s[i..], s)
  {
    assert PartAt(s, s[i..], i);
  }

  lemma EndIsPart(s: string, suffix: string)
    requires EndsWith(s, suffix)
    ensures IsPart(suffix, s)
  {
    assert PartAt(s, suffix, |s| - |suffix|);
  }

  lemma PartHas(part: string, s: string, c: char)
    requires IsPart(part, s) && c in part
    ensures c in s
  {
    var i: nat :| PartAt(s, part, i);
    var k :| 0 <= k < |part| && part[k] == c;
    assert s[i + k] == c;
  }

  predicate NoWhitespace(s: string) {
    forall i | 0 <= i < |s| :: !IsWhitespace(s[i])
  }

  /** Trimming a text keeps every part of it that holds no whitespace. */
  lemma TrimKeepsPart(s: string, part: string)
    requires part != [] && NoWhitespace(part) && IsPart(part, s)
    ensures IsPart(part, Trim(s))
  {
    TrimStartKeepsPart(s, part);
    TrimEndKeepsPart(TrimStart(s), part);
  }

  lemma {:induction false} TrimStartKeepsPart(s: string, part: string)
    requires part != [] && NoWhitespace(part) && IsPart(part, s)
    ensures IsPart(part, TrimStart(s))
  {
    if s != [] && IsWhitespace(s[0]) {
      var i: nat :| PartAt(s, part, i);
      assert s[i..i + |part|][0] == part[0];
      assert PartAt(s[1..], part, i - 1);
      TrimStartKeepsPart(s[1..], part);
    }
  }

  lemma {:induction false} TrimEndKeepsPart(s: string, part: string)
    requires part != [] && NoWhitespace(part) && IsPart(part, s)
    ensures IsPart(part, TrimEnd(s))
  {
    if s != [] && IsWhitespace(s[|s| - 1]) {
      var i: nat :| PartAt(s, part, i);
      assert s[i..i + |part|][|part| - 1] == part[|part| - 1];
      assert PartAt(s[..|s| - 1], part, i);
      TrimEndKeepsPart(s[..|s| - 1], part);
    }
  }

  lemma {:induction false} TrimIsPart(s: string)
    ensures IsPart(TrimStart(s), s) && IsPart(TrimEnd(s), s)
  {
    SuffixIsPart(s, 0);
    assert s[0..] == s;
    if s != [] {
      TrimIsPart(s[1..]);
      TrimIsPart(s[..|s| - 1]);
      SuffixIsPart(s, 1);
      SliceIsPart(s, 0, |s| - 1);
      assert s[0..|s| - 1] == s[..|s| - 1];
      PartOfPart(TrimStart(s[1..]), s[1..], s);
      PartOfPart(TrimEnd(s[..|s| - 1]), s[..|s| - 1], s);
    }
  }

  lemma TrimmedAlready(s: string)
    requires s != [] && !IsWhitespace(s[0]) && !IsWhitespace(s[|s| - 1])
    ensures TrimStart(s) == s && TrimEnd(s) == s && Trim(s) == s
  {
  }

  lemma {:induction false} TrimOfIsPart(s: string, c: char)
    ensures IsPart(TrimStartOf(s, c), s) && IsPart(TrimEndOf(s, c), s)
  {
    SuffixIsPart(s, 0);
    assert s[0..] == s;
    if s != [] {
      TrimOfIsPart(s[1..], c);
      TrimOfIsPart(s[..|s| - 1], c);
      SuffixIsPart(s, 1);
      SliceIsPart(s, 0, |s| - 1);
      assert s[0..|s| - 1] == s[..|s| - 1];
      PartOfPart(TrimStartOf(s[1..], c), s[1..], s);
      PartOfPart(TrimEndOf(s[..|s| - 1], c), s[..|s| - 1], s);
    }
  }

  lemma BeforeIsPart(s: string, separator: string)
    ensures IsPart(Before(s, separator), s)
  {
    match IndexOf(s, separator) {
      case None => PrefixIsPart(s, s);
      case Some(k) =>
        SliceIsPart(s, 0, k);
        assert s[0..k] == s[..k];
    }
  }

  lemma AfterLastIsPart(s: string, separator: string)
    ensures IsPart(AfterLast(s, separator), s)
  {
    match LastIndexOf(s, separator) {
      case None => PrefixIsPart(s, s);
      case Some(k) => SuffixIsPart(s, k + |separator|);
    }
  }

  lemma {:induction false} WordIsPart(s: string)
    ensures Word(s) <= s && IsPart(Word(s), s)
  {
    if s != [] && !IsWhitespace(s[0]) {
      WordIsPart(s[1..]);
    }
    PrefixIsPart(Word(s), s);
  }

  lemma {:induction false} WordAtEndIsPart(s: string)
    ensures IsPart(WordAtEnd(s), s)
  {
    WordEnds(s);
    EndIsPart(s, WordAtEnd(s));
  }

  lemma {:induction false} WordEnds(s: string)
    ensures EndsWith(s, WordAtEnd(s))
  {
    if s != [] && !IsWhitespace(s[|s| - 1]) {
      var init := s[..|s| - 1];
      WordEnds(init);
      assert s[|s| - |WordAtEnd(s)|..] == init[|init| - |WordAtEnd(init)|..] + [s[|s| - 1]];
    }
  }

  // ---------------------------------------------------------------- what searching and trimming find

  /** The first occurrence, if there is one. */
  lemma {:induction false} IndexOfExactly(s: string, part: string)
    ensures match IndexOf(s, part)
      case None => forall i: nat :: !PartAt(s, part, i)
      case Some(k) => PartAt(s, part, k) && forall i: nat | i < k :: !PartAt(s, part, i)
  {
    PartAtStart(s, part);
    if s != [] && !(part <= s) {
      IndexOfExactly(s[1..], part);
      forall i: nat | PartAt(s, part, i) ensures i > 0 && PartAt(s[1..], part, i - 1) {
        PartAtTail(s, part, i);
      }
      if IndexOf(s, part).Some? {
        PartAtTail(s, part, IndexOf(s, part).value);
      }
    }
  }

  lemma PartAtStart(s: string, part: string)
    ensures PartAt(s, part, 0) <==> part <= s
    ensures s == [] ==> forall i: nat | i > 0 :: !PartAt(s, part, i)
  {
  }

  lemma PartAtInit(s: string, part: string, i: nat)
    requires s != [] && i + |part| < |s|
    ensures PartAt(s, part, i) <==> PartAt(s[..|s| - 1], part, i)
  {
    SliceOfInit(s, i, |part|);
  }

  lemma PartAtEnd(s: string, part: string)
    ensures EndsWith(s, part) <==> |part| <= |s| && PartAt(s, part, |s| - |part|)
  {
    if |part| <= |s| {
      assert s[|s| - |part|..] == s[|s| - |part|..|s|];
    }
  }

  /** The last occurrence, if there is one. */
  lemma {:induction false} LastIndexOfExactly(s: string, part: string)
    ensures match LastIndexOf(s, part)
      case None => forall i: nat :: !PartAt(s, part, i)
      case Some(k) => PartAt(s, part, k) && forall i: nat | i > k :: !PartAt(s, part, i)
  {
    if EndsWith(s, part) {
      PartAtEnd(s, part);
    } else if s != [] {
      var init := s[..|s| - 1];
      LastIndexOfExactly(init, part);
      forall i: nat ensures PartAt(s, part, i) <==> PartAt(init, part, i) {
        PartNotAtEnd(s, part, i);
      }
    }
  }

  lemma PartNotAtEnd(s: string, part: string, i: nat)
    requires s != [] && !EndsWith(s, part)
    ensures PartAt(s, part, i) <==> PartAt(s[..|s| - 1], part, i)
  {
    PartAtEnd(s, part);
    if i + |part| < |s| {
      PartAtInit(s, part, i);
    }
  }

  predicate IsBlank(s: string) {
    forall i | 0 <= i < |s| :: IsWhitespace(s[i])
  }

  // What precedes the whitespace at the end of a text.
  ghost predicate IsInkOf(t: string, s: string) {
    t <= s && IsBlank(s[|t|..]) && (t == "" || !IsWhitespace(t[|t| - 1]))
  }

  lemma {:induction false} TrimEndIsInk(s: string)
    ensures IsInkOf(TrimEnd(s), s)
  {
    if s != [] && IsWhitespace(s[|s| - 1]) {
      var init := s[..|s| - 1];
      TrimEndIsInk(init);
      var t := TrimEnd(init);
      forall i | 0 <= i < |s[|t|..]| ensures IsWhitespace(s[|t|..][i]) {
        if i < |init| - |t| {
          assert s[|t|..][i] == init[|t|..][i];
        }
      }
    }
  }

  lemma {:induction false} TrimStartExactly(s: string)
    ensures |TrimStart(s)| <= |s|
    ensures var k := |s| - |TrimStart(s)|;
      IsBlank(s[..k]) && TrimStart(s) == s[k..] && (TrimStart(s) == "" || !IsWhitespace(TrimStart(s)[0]))
  {
    if s != [] && IsWhitespace(s[0]) {
      TrimStartExactly(s[1..]);
      var k := |s| - |TrimStart(s)|;
      forall i | 0 <= i < k ensures IsWhitespace(s[..k][i]) {
        if i > 0 {
          assert s[i] == s[1..][..k - 1][i - 1];
        }
      }
    }
  }

  /** Trimming takes away exactly the whitespace around a text. */
  lemma TrimExactly(s: string) returns (before: string, after: string)
    ensures s == before + Trim(s) + after && IsBlank(before) && IsBlank(after)
    ensures Trim(s) == "" || (!IsWhitespace(Trim(s)[0]) && !IsWhitespace(Trim(s)[|Trim(s)| - 1]))
  {
    var t := TrimStart(s);
    TrimStartExactly(s);
    TrimEndIsInk(t);
    before, after := s[..|s| - |t|], t[|Trim(s)|..];
  }
}
