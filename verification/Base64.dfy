/** Base64 with padding (section 4 of RFC 4648), as `base64.b64encode` and
    `base64.b64decode(..., validate=True)` behave: bad characters, misplaced padding and
    incomplete groups are refused, left-over bits of the last group are ignored. */
module Base64 {
  import opened Bytes
  import opened Results

  type sextet = x: int | 0 <= x < 64

  function Symbol(v: sextet): (c: char)
    ensures c != '='
  {
    if v < 26 then 'A' + (v as char)
    else if v < 52 then 'a' + ((v - 26) as char)
    else if v < 62 then '0' + ((v - 52) as char)
    else if v == 62 then '+'
    else '/'
  }

  function Value(c: char): (r: Option<int>)
    ensures r.Some? ==> 0 <= r.value < 64
  {
    if 'A' <= c <= 'Z' then Some((c - 'A') as int)
    else if 'a' <= c <= 'z' then Some((c - 'a') as int + 26)
    else if '0' <= c <= '9' then Some((c - '0') as int + 52)
    else if c == '+' then Some(62)
    else if c == '/' then Some(63)
    else None
  }

  lemma ValueOfSymbol(v: sextet)
    ensures Value(Symbol(v)) == Some(v)
  {
  }

  function Encode(b: bytes): (s: string)
    ensures |s| == (|b| + 2) / 3 * 4
  {
    if |b| == 0 then ""
    else if |b| == 1 then [Symbol(b[0] / 4), Symbol(b[0] % 4 * 16), '=', '=']
    else if |b| == 2 then
      [Symbol(b[0] / 4), Symbol(b[0] % 4 * 16 + b[1] / 16), Symbol(b[1] % 16 * 4), '=']
    else
      [Symbol(b[0] / 4), Symbol(b[0] % 4 * 16 + b[1] / 16), Symbol(b[1] % 16 * 4 + b[2] / 64), Symbol(b[2] % 64)]
      + Encode(b[3..])
  }

  /** The alphabet: capitals, small letters, digits, plus and slash. */
  lemma Alphabet(v: sextet)
    ensures Symbol(0) == 'A' && Symbol(25) == 'Z' && Symbol(26) == 'a' && Symbol(51) == 'z'
    ensures Symbol(52) == '0' && Symbol(61) == '9' && Symbol(62) == '+' && Symbol(63) == '/'
    ensures v !in {25, 51, 61, 62, 63} ==> Symbol(v + 1) as int == Symbol(v) as int + 1
  {
  }

  /** Section 4 of RFC 4648: three bytes are four letters of the alphabet with the same bits, first bits
      first. */
  lemma GroupsAreLetters(x: byte, y: byte, z: byte, rest: bytes)
    ensures var n := 65536 * x + 256 * y + z;
            Encode([x, y, z] + rest)
            == [Symbol(n / 262144), Symbol(n / 4096 % 64), Symbol(n / 64 % 64), Symbol(n % 64)] + Encode(rest)
  {
    hide Symbol;
    assert ([x, y, z] + rest)[3..] == rest;
    SixBits(x / 4, x % 4 * 16 + y / 16, y % 16 * 4 + z / 64, z % 64);
  }

  /** A last group of one or two bytes is filled up with zero bits and padding. */
  lemma LastGroups(x: byte, y: byte)
    ensures var n := 65536 * x + 256 * y; Encode([x, y]) == [Symbol(n / 262144), Symbol(n / 4096 % 64), Symbol(n / 64 % 64), '=']
    ensures var n := 65536 * x; Encode([x]) == [Symbol(n / 262144), Symbol(n / 4096 % 64), '=', '=']
    ensures Encode([]) == ""
  {
    hide Symbol;
    SixBits(x / 4, x % 4 * 16 + y / 16, y % 16 * 4, 0);
    SixBits(x / 4, x % 4 * 16, 0, 0);
  }

  lemma SixBits(a: sextet, b: sextet, c: sextet, d: sextet)
    ensures var n := 262144 * a + 4096 * b + 64 * c + d;
            n / 262144 == a && n / 4096 % 64 == b && n / 64 % 64 == c && n % 64 == d
  {
    var n := 262144 * a + 4096 * b + 64 * c + d;
    assert n / 64 == 4096 * a + 64 * b + c;
    assert n / 4096 == 64 * a + b;
  }

  /** One full group of four symbols. */
  function DecodeGroup(s: string): (r: Option<bytes>)
    requires |s| >= 4
    ensures r.Some? ==> |r.value| == 3
  {
    match (Value(s[0]), Value(s[1]), Value(s[2]), Value(s[3]))
    case (Some(a), Some(b), Some(c), Some(d)) =>
      Some([a * 4 + b / 16, b % 16 * 16 + c / 4, c % 4 * 64 + d])
    case _ => None
  }

  function Decode(s: string): Option<bytes> {
    if |s| == 0 then Some([])
    else if |s| < 4 then None
    else if |s| == 4 && s[3] == '=' then
      match (Value(s[0]), Value(s[1]), Value(s[2]))
      case (Some(a), Some(b), Some(c)) => Some([a * 4 + b / 16, b % 16 * 16 + c / 4])
      case (Some(a), Some(b), None) => if s[2] == '=' then Some([a * 4 + b / 16]) else None
      case _ => None
    else
      match (DecodeGroup(s), Decode(s[4..]))
      case (Some(g), Some(rest)) => Some(g + rest)
      case _ => None
  }

  lemma DecodeLastOne(x: byte)
    ensures Decode(Encode([x])) == Some([x])
  {
    ValueOfSymbol(x / 4);
    ValueOfSymbol(x % 4 * 16);
    assert x / 4 * 4 + x % 4 * 16 / 16 == x;
  }

  lemma DecodeLastTwo(x: byte, y: byte)
    ensures Decode(Encode([x, y])) == Some([x, y])
  {
    ValueOfSymbol(x / 4);
    ValueOfSymbol(x % 4 * 16 + y / 16);
    ValueOfSymbol(y % 16 * 4);
    assert x / 4 * 4 + (x % 4 * 16 + y / 16) / 16 == x;
    assert (x % 4 * 16 + y / 16) % 16 * 16 + y % 16 * 4 / 4 == y;
  }

  lemma DecodeFullGroup(x: byte, y: byte, z: byte, s: string)
    requires |s| >= 4
    requires s[..4] == Encode([x, y, z])[..4]
    ensures DecodeGroup(s) == Some([x, y, z]) && s[3] != '='
  {
    hide Value, Symbol;
    var a, b, c, d := x / 4, x % 4 * 16 + y / 16, y % 16 * 4 + z / 64, z % 64;
    ValueOfSymbol(a);
    ValueOfSymbol(b);
    ValueOfSymbol(c);
    ValueOfSymbol(d);
    assert s[0] == s[..4][0] && s[1] == s[..4][1] && s[2] == s[..4][2] && s[3] == s[..4][3];
    assert a * 4 + b / 16 == x && b % 16 * 16 + c / 4 == y && c % 4 * 64 + d == z;
  }

  lemma DecodeMore(s: string, group: bytes, rest: bytes)
    requires |s| >= 4 && s[3] != '=' && DecodeGroup(s) == Some(group)
    requires s[4..] == Encode(rest) && Decode(Encode(rest)) == Some(rest)
    ensures Decode(s) == Some(group + rest)
  {
  }

  lemma {:induction false} DecodeEncoded(b: bytes)
    ensures Decode(Encode(b)) == Some(b)
  {
    hide Value, Symbol, DecodeGroup;
    if |b| == 1 {
      DecodeLastOne(b[0]);
      assert b == [b[0]];
    } else if |b| == 2 {
      DecodeLastTwo(b[0], b[1]);
      assert b == [b[0], b[1]];
    } else if |b| >= 3 {
      var s, rest := Encode(b), b[3..];
      DecodeEncoded(rest);
      DecodeFullGroup(b[0], b[1], b[2], s);
      DecodeMore(s, [b[0], b[1], b[2]], rest);
      assert b == [b[0], b[1], b[2]] + rest;
    }
  }

  /** Decoded text has three bytes a group, less one for each padding character. */
  lemma {:induction false} DecodedLength(s: string)
    requires Decode(s).Some?
    ensures |s| % 4 == 0
    ensures |Decode(s).value| % 3 == 0 ==> |Decode(s).value| == |s| / 4 * 3
    ensures |Decode(s).value| % 3 != 0 ==> |Decode(s).value| / 3 == |s| / 4 - 1 && s[|s| - 1] == '='
  {
    hide Value, DecodeGroup;
    if |s| > 4 || (|s| == 4 && s[3] != '=') {
      DecodedLength(s[4..]);
    }
  }

  /** The text of a 32-byte key is 44 characters long and ends in padding. */
  predicate PaddedKey(s: string) {
    |s| == 44 && s[43] == '='
  }

  lemma KeyText(s: string)
    requires Decode(s).Some? && |Decode(s).value| == 32
    ensures PaddedKey(s)
  {
    DecodedLength(s);
  }

  lemma EncodedKey(b: bytes)
    requires |b| == 32
    ensures PaddedKey(Encode(b)) && Decode(Encode(b)) == Some(b)
  {
    DecodeEncoded(b);
    KeyText(Encode(b));
  }

  lemma {:induction false} EncodedIsAscii(b: bytes)
    ensures forall i :: 0 <= i < |Encode(b)| ==> 0x20 <= Encode(b)[i] as int < 0x7F
  {
    if |b| >= 3 {
      EncodedIsAscii(b[3..]);
    }
  }
}
