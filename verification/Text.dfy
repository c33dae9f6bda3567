/** Python text: `str(int)`, whitespace, and the UTF-8 encoding. */
module Text {
  import opened Bytes
  import opened Results

  predicate IsDigit(c: char) {
    '0' <= c <= '9'
  }

  predicate AllDigits(s: string) {
    forall i :: 0 <= i < |s| ==> IsDigit(s[i])
  }

  function DigitChar(d: nat): (c: char)
    requires d < 10
    ensures IsDigit(c)
  {
    '0' + (d as char)
  }

  function DigitValue(c: char): (d: nat)
    requires IsDigit(c)
    ensures d < 10
  {
    (c - '0') as int
  }

  function NatToString(n: nat): (s: string)
    ensures s != [] && AllDigits(s)
    ensures s[0] == '0' ==> n == 0 && |s| == 1
  {
    if n < 10 then [DigitChar(n)] else NatToString(n / 10) + [DigitChar(n % 10)]
  }

  function StringToNat(s: string): nat
    requires AllDigits(s)
  {
    if s == [] then 0 else 10 * StringToNat(s[..|s| - 1]) + DigitValue(s[|s| - 1])
  }

  lemma {:induction false} ReadPrintedNat(n: nat)
    ensures StringToNat(NatToString(n)) == n
  {
    var s := NatToString(n);
    if n < 10 {
      assert s[..0] == [];
      assert DigitValue(DigitChar(n)) == n;
    } else {
      ReadPrintedNat(n / 10);
      assert s[..|s| - 1] == NatToString(n / 10);
      assert DigitValue(DigitChar(n % 10)) == n % 10;
    }
  }

  function DigitSpan(s: string): (n: nat)
    ensures n <= |s| && AllDigits(s[..n])
  {
    if s == [] || !IsDigit(s[0]) then 0 else 1 + DigitSpan(s[1..])
  }

  lemma {:induction false} DigitSpanExact(digits: string, rest: string)
    requires AllDigits(digits) && (rest == [] || !IsDigit(rest[0]))
    ensures DigitSpan(digits + rest) == |digits|
  {
    if digits == [] {
      assert digits + rest == rest;
    } else {
      DigitSpanExact(digits[1..], rest);
      assert (digits + rest)[1..] == digits[1..] + rest;
    }
  }

  /** `str(i)`. */
  function IntToString(i: int): (s: string)
    ensures s != []
  {
    if i < 0 then "-" + NatToString(-i) else NatToString(i)
  }

  lemma IntToStringInjective(i: int, j: int)
    requires IntToString(i) == IntToString(j)
    ensures i == j
  {
    ReadPrintedNat(if i < 0 then -i else i);
    ReadPrintedNat(if j < 0 then -j else j);
    if i < 0 {
      assert IntToString(i)[0] == '-' && IntToString(i)[1..] == NatToString(-i);
    }
    if j < 0 {
      assert IntToString(j)[0] == '-' && IntToString(j)[1..] == NatToString(-j);
    }
  }

  /** The characters for which Python's `str.isspace` holds; `\s` and `strip` use the same set. */
  predicate IsSpace(c: char) {
    var n := c as int;
    || 9 <= n <= 13 || 28 <= n <= 32 || n == 0x85 || n == 0xA0 || n == 0x1680
    || 0x2000 <= n <= 0x200A || n == 0x2028 || n == 0x2029 || n == 0x202F || n == 0x205F || n == 0x3000
  }

  predicate IsBlank(s: string) {
    forall i :: 0 <= i < |s| ==> IsSpace(s[i])
  }

  function SkipSpace(s: string): (r: string)
    ensures |r| <= |s|
    ensures r == [] || !IsSpace(r[0])
    ensures IsBlank(s) <==> r == []
  {
    if s != [] && IsSpace(s[0]) then SkipSpace(s[1..]) else s
  }

  function SkipSpaceEnd(s: string): (r: string)
    ensures r <= s
    ensures r == [] || !IsSpace(r[|r| - 1])
  {
    if s != [] && IsSpace(s[|s| - 1]) then SkipSpaceEnd(s[..|s| - 1]) else s
  }

  /** `s.strip()`. */
  function Strip(s: string): string {
    SkipSpaceEnd(SkipSpace(s))
  }

  /** UTF-8 of one code point. */
  function EncodeChar(c: char): (b: bytes)
    ensures 1 <= |b| <= 4
  {
    var n := c as int;
    if n < 0x80 then [n]
    else if n < 0x800 then [0xC0 + n / 0x40, 0x80 + n % 0x40]
    else if n < 0x1_0000 then [0xE0 + n / 0x1000, 0x80 + n / 0x40 % 0x40, 0x80 + n % 0x40]
    else
      [0xF0 + n / 0x4_0000, 0x80 + n / 0x1000 % 0x40, 0x80 + n / 0x40 % 0x40, 0x80 + n % 0x40]
  }

  /** `s.encode("utf-8")`. */
  function EncodeUtf8(s: string): bytes {
    if s == [] then [] else EncodeChar(s[0]) + EncodeUtf8(s[1..])
  }

  /** A character of each length. */
  lemma Utf8Examples()
    ensures EncodeUtf8("A") == [0x41] && EncodeUtf8("\U{E9}") == [0xC3, 0xA9]
    ensures EncodeUtf8("\U{20AC}") == [0xE2, 0x82, 0xAC] && EncodeUtf8("\U{1F600}") == [0xF0, 0x9F, 0x98, 0x80]
  {
  }

  predicate IsTail(b: byte) {
    0x80 <= b < 0xC0
  }

  function LowBits(b: byte): int {
    b as int - 0x80
  }

  predicate IsScalar(n: int) {
    0 <= n < 0xD800 || 0xE000 <= n < 0x11_0000
  }

  /** The first code point of `b` and the number of bytes it takes; overlong forms, surrogates and
      truncated sequences are refused. */
  function DecodeChar(b: bytes): (r: Option<(char, nat)>)
    requires b != []
    ensures r.Some? ==> 1 <= r.value.1 <= |b|
  {
    var b0: int := b[0];
    if b0 < 0x80 then Some((b0 as char, 1))
    else if 0xC2 <= b0 < 0xE0 && |b| >= 2 && IsTail(b[1]) then
      Some((((b0 - 0xC0) * 0x40 + LowBits(b[1])) as char, 2))
    else if 0xE0 <= b0 < 0xF0 && |b| >= 3 && IsTail(b[1]) && IsTail(b[2]) then
      var n := (b0 - 0xE0) * 0x1000 + LowBits(b[1]) * 0x40 + LowBits(b[2]);
      if n >= 0x800 && IsScalar(n) then Some((n as char, 3)) else None
    else if 0xF0 <= b0 < 0xF5 && |b| >= 4 && IsTail(b[1]) && IsTail(b[2]) && IsTail(b[3]) then
      var n := (b0 - 0xF0) * 0x4_0000 + LowBits(b[1]) * 0x1000 + LowBits(b[2]) * 0x40 + LowBits(b[3]);
      if n >= 0x1_0000 && IsScalar(n) then Some((n as char, 4)) else None
    else None
  }

  /** `b.decode("utf-8")`; None where Python raises UnicodeDecodeError. */
  function DecodeUtf8(b: bytes): Option<string> {
    if b == [] then Some("")
    else
      match DecodeChar(b)
      case None => None
      case Some((c, n)) =>
        match DecodeUtf8(b[n..])
        case None => None
        case Some(s) => Some([c] + s)
  }

  lemma SplitDigits(n: nat)
    ensures n == n / 0x40 * 0x40 + n % 0x40
    ensures n / 0x40 == n / 0x1000 * 0x40 + n / 0x40 % 0x40
    ensures n / 0x1000 == n / 0x4_0000 * 0x40 + n / 0x1000 % 0x40
  {
    assert n / 0x1000 == n / 0x40 / 0x40 && n / 0x4_0000 == n / 0x1000 / 0x40;
  }

  lemma DecodeShortChar(c: char, rest: bytes)
    requires c as int < 0x1_0000
    ensures DecodeChar(EncodeChar(c) + rest) == Some((c, |EncodeChar(c)|))
  {
    var b, e := EncodeChar(c) + rest, EncodeChar(c);
    SplitDigits(c as int);
    assert b[0] == e[0] && (|e| > 1 ==> b[1] == e[1]) && (|e| > 2 ==> b[2] == e[2]);
  }

  lemma DecodeLongChar(c: char, rest: bytes)
    requires c as int >= 0x1_0000
    ensures DecodeChar(EncodeChar(c) + rest) == Some((c, 4)) && |EncodeChar(c)| == 4
  {
    var b, e := EncodeChar(c) + rest, EncodeChar(c);
    SplitDigits(c as int);
    assert b[0] == e[0] && b[1] == e[1] && b[2] == e[2] && b[3] == e[3];
  }

  lemma DecodeEncodedChar(c: char, rest: bytes)
    ensures DecodeChar(EncodeChar(c) + rest) == Some((c, |EncodeChar(c)|))
  {
    hide DecodeChar, EncodeChar;
    if c as int < 0x1_0000 {
      DecodeShortChar(c, rest);
    } else {
      DecodeLongChar(c, rest);
    }
  }

  lemma {:induction false} DecodeEncodedUtf8(s: string)
    ensures DecodeUtf8(EncodeUtf8(s)) == Some(s)
  {
    if s != [] {
      var rest := EncodeUtf8(s[1..]);
      DecodeEncodedChar(s[0], rest);
      assert EncodeUtf8(s)[|EncodeChar(s[0])|..] == rest;
      DecodeEncodedUtf8(s[1..]);
      assert s == [s[0]] + s[1..];
    }
  }

  lemma EncodeUtf8Injective(s: string, t: string)
    requires EncodeUtf8(s) == EncodeUtf8(t)
    ensures s == t
  {
    DecodeEncodedUtf8(s);
    DecodeEncodedUtf8(t);
  }

  predicate IsAscii(s: string) {
    forall i :: 0 <= i < |s| ==> s[i] as int < 0x80
  }

  lemma {:induction false} AsciiLength(s: string)
    requires IsAscii(s)
    ensures |EncodeUtf8(s)| == |s|
  {
    if s != [] {
      AsciiLength(s[1..]);
    }
  }
}
