/** JSON text (RFC 8259) as `json.dumps` writes it, with non-ASCII characters escaped, and as
    `json.loads` reads it.  One round-trip theorem serves the relay payloads, the handshake
    messages and the lines of the offline queue. */
module Json {
  import opened Results
  import opened Text

  /** A decoded JSON document.  An object keeps the insertion order of a Python dict; a float is
      kept as its text. */
  datatype Json =
    | JNull
    | JBool(b: bool)
    | JInt(i: int)
    | JFloat(text: string)
    | JStr(s: string)
    | JArr(items: seq<Json>)
    | JObj(fields: Dict)

  datatype Field = Field(key: string, value: Json)

  type Dict = seq<Field>

  /** The `separators` argument of `json.dumps`. */
  datatype Style = Style(item: string, key: string)

  const COMPACT := Style(",", ":")
  const SPACED := Style(", ", ": ")

  // ---------------------------------------------------------------- dictionaries

  predicate HasKey(d: Dict, k: string) {
    exists i :: 0 <= i < |d| && d[i].key == k
  }

  predicate UniqueKeys(d: Dict) {
    forall i, j :: 0 <= i < j < |d| ==> d[i].key != d[j].key
  }

  /** `d.get(k)`. */
  function Get(d: Dict, k: string): (r: Option<Json>)
    ensures r.Some? <==> HasKey(d, k)
    ensures r.Some? ==> Field(k, r.value) in d
  {
    if d == [] then None
    else if d[0].key == k then
      Some(d[0].value)
    else
      match Get(d[1..], k)
      case None => assert forall i :: 0 < i < |d| ==> d[i] == d[1..][i - 1]; None
      case Some(v) => assert HasKey(d[1..], k); Some(v)
  }

  function GetStr(d: Dict, k: string): Option<string> {
    match Get(d, k)
    case Some(JStr(s)) => Some(s)
    case _ => None
  }

  function GetInt(d: Dict, k: string): Option<int> {
    match Get(d, k)
    case Some(JInt(i)) => Some(i)
    case _ => None
  }

  function GetBool(d: Dict, k: string): Option<bool> {
    match Get(d, k)
    case Some(JBool(b)) => Some(b)
    case _ => None
  }

  /** `d[k] = v`: a present key keeps its position. */
  function Insert(d: Dict, k: string, v: Json): Dict {
    if d == [] then [Field(k, v)]
    else if d[0].key == k then [Field(k, v)] + d[1..]
    else [d[0]] + Insert(d[1..], k, v)
  }

  lemma {:induction false} GetInsert(d: Dict, k: string, v: Json, k': string)
    ensures Get(Insert(d, k, v), k') == if k' == k then Some(v) else Get(d, k')
  {
    if d != [] {
      if d[0].key == k {
        assert ([Field(k, v)] + d[1..])[1..] == d[1..];
      } else {
        GetInsert(d[1..], k, v, k');
        assert ([d[0]] + Insert(d[1..], k, v))[1..] == Insert(d[1..], k, v);
      }
    }
  }

  lemma {:induction false} GetAt(d: Dict, i: nat)
    requires i < |d| && UniqueKeys(d)
    ensures Get(d, d[i].key) == Some(d[i].value)
  {
    if i > 0 {
      assert d[0].key != d[i].key;
      assert d[i] == d[1..][i - 1];
      GetAt(d[1..], i - 1);
    }
  }

  lemma {:induction false} InsertFresh(d: Dict, k: string, v: Json)
    requires !HasKey(d, k)
    ensures Insert(d, k, v) == d + [Field(k, v)]
  {
    if d != [] {
      assert forall i :: 0 <= i < |d[1..]| ==> d[1..][i] == d[i + 1];
      InsertFresh(d[1..], k, v);
    }
  }

  /** The dict built from key/value pairs in reading order: the last value of a key wins. */
  function ToDict(pairs: Dict): Dict {
    if pairs == [] then []
    else Insert(ToDict(pairs[..|pairs| - 1]), pairs[|pairs| - 1].key, pairs[|pairs| - 1].value)
  }

  lemma {:induction false} ToDictUnique(d: Dict)
    requires UniqueKeys(d)
    ensures ToDict(d) == d
  {
    if d != [] {
      var front, last := d[..|d| - 1], d[|d| - 1];
      ToDictUnique(front);
      InsertFresh(front, last.key, last.value);
      assert d == front + [last];
    }
  }

  // ---------------------------------------------------------------- string literals

  function HexChar(n: nat): char
    requires n < 16
  {
    if n < 10 then '0' + (n as char) else 'a' + ((n - 10) as char)
  }

  function HexValue(c: char): (r: Option<nat>)
    ensures r.Some? ==> r.value < 16
  {
    if '0' <= c <= '9' then Some((c - '0') as int)
    else if 'a' <= c <= 'f' then Some((c - 'a') as int + 10)
    else if 'A' <= c <= 'F' then Some((c - 'A') as int + 10)
    else None
  }

  function Hex2(n: nat): (s: string)
    requires n < 0x100
    ensures |s| == 2
  {
    [HexChar(n / 16), HexChar(n % 16)]
  }

  function Hex4(n: nat): (s: string)
    requires n < 0x1_0000
    ensures |s| == 4
  {
    Hex2(n / 0x100) + Hex2(n % 0x100)
  }

  function ReadHex2(s: string): (r: Option<nat>)
    requires |s| >= 2
    ensures r.Some? ==> r.value < 0x100
  {
    match (HexValue(s[0]), HexValue(s[1]))
    case (Some(a), Some(b)) => Some(a * 16 + b)
    case _ => None
  }

  function ReadHex4(s: string): (r: Option<nat>)
    ensures r.Some? ==> |s| >= 4 && r.value < 0x1_0000
  {
    if |s| < 4 then None
    else
      match (ReadHex2(s), ReadHex2(s[2..]))
      case (Some(a), Some(b)) => Some(a * 0x100 + b)
      case _ => None
  }

  lemma HexDigit(n: nat)
    requires n < 16
    ensures HexValue(HexChar(n)) == Some(n)
  {
  }

  lemma ReadPrintedHex2(n: nat, rest: string)
    requires n < 0x100
    ensures ReadHex2(Hex2(n) + rest) == Some(n)
  {
    HexDigit(n / 16);
    HexDigit(n % 16);
  }

  lemma ReadPrintedHex(n: nat, rest: string)
    requires n < 0x1_0000
    ensures ReadHex4(Hex4(n) + rest) == Some(n)
  {
    ReadPrintedHex2(n / 0x100, Hex2(n % 0x100) + rest);
    ReadPrintedHex2(n % 0x100, rest);
    var s := Hex4(n) + rest;
    assert s == Hex2(n / 0x100) + (Hex2(n % 0x100) + rest);
    assert s[2..] == Hex2(n % 0x100) + rest;
  }

  /** A character inside a string literal, as `ensure_ascii` writes it. */
  function EscapeChar(c: char): (s: string)
    ensures s != [] && s[0] != '"'
  {
    var n := c as int;
    if c == '"' then "\\\""
    else if c == '\\' then "\\\\"
    else if c == '\n' then "\\n"
    else if c == '\r' then "\\r"
    else if c == '\t' then "\\t"
    else if n == 8 then "\\b"
    else if n == 12 then "\\f"
    else if 0x20 <= n < 0x7F then [c]
    else if n < 0x1_0000 then "\\u" + Hex4(n)
    else
      "\\u" + Hex4(0xD800 + (n - 0x1_0000) / 0x400) + "\\u" + Hex4(0xDC00 + (n - 0x1_0000) % 0x400)
  }

  /** The character at the head of the rest of a literal and the length of its spelling; None for
      a raw control character, a bad escape or a surrogate without its partner. */
  function ReadChar(s: string): (r: Option<(char, nat)>)
    requires s != []
    ensures r.Some? ==> 1 <= r.value.1 <= |s|
  {
    if s[0] != '\\' then
      if s[0] as int < 0x20 then None else Some((s[0], 1))
    else if |s| < 2 then None
    else if s[1] == 'u' then
      match ReadHex4(s[2..])
      case None => None
      case Some(n) =>
        if IsScalar(n) then Some((n as char, 6))
        else if n < 0xDC00 && |s| >= 12 && s[6] == '\\' && s[7] == 'u' then
          match ReadHex4(s[8..])
          case None => None
          case Some(m) =>
            if 0xDC00 <= m < 0xE000
            then Some(((0x1_0000 + (n - 0xD800) * 0x400 + (m - 0xDC00)) as char, 12))
            else None
        else None
    else
      match s[1]
      case '"' => Some(('"', 2))
      case '\\' => Some(('\\', 2))
      case '/' => Some(('/', 2))
      case 'n' => Some(('\n', 2))
      case 'r' => Some(('\r', 2))
      case 't' => Some(('\t', 2))
      case 'b' => Some((8 as char, 2))
      case 'f' => Some((12 as char, 2))
      case _ => None
  }

  lemma ReadEscapedUnit(n: nat, rest: string)
    requires n < 0x1_0000
    ensures var s := "\\u" + Hex4(n) + rest;
            && |s| >= 6 && s[0] == '\\' && s[1] == 'u' && ReadHex4(s[2..]) == Some(n) && s[6..] == rest
  {
    var s := "\\u" + Hex4(n) + rest;
    assert s[2..] == Hex4(n) + rest;
    ReadPrintedHex(n, rest);
  }

  /** A character outside the basic plane is spelled as its two surrogates. */
  lemma EscapedPair(n: nat)
    requires 0x1_0000 <= n < 0x11_0000
    ensures var hi, lo := 0xD800 + (n - 0x1_0000) / 0x400, 0xDC00 + (n - 0x1_0000) % 0x400;
            && EscapeChar(n as char) == "\\u" + Hex4(hi) + "\\u" + Hex4(lo)
            && 0xD800 <= hi < 0xDC00 <= lo < 0xE000
            && 0x1_0000 + (hi - 0xD800) * 0x400 + (lo - 0xDC00) == n
  {
    hide Hex4;
  }

  lemma ReadSurrogates(n: nat, rest: string)
    requires 0x1_0000 <= n < 0x11_0000
    ensures ReadChar(EscapeChar(n as char) + rest) == Some((n as char, 12))
  {
    hide Hex4, ReadHex4, EscapeChar;
    var hi, lo := 0xD800 + (n - 0x1_0000) / 0x400, 0xDC00 + (n - 0x1_0000) % 0x400;
    var low := "\\u" + Hex4(lo) + rest;
    var s := EscapeChar(n as char) + rest;
    EscapedPair(n);
    assert s == "\\u" + Hex4(hi) + low;
    ReadEscapedUnit(hi, low);
    ReadEscapedUnit(lo, rest);
    assert s[6..] == low && s[8..] == low[2..] && s[6] == low[0] && s[7] == low[1];
  }

  lemma ReadEscapedChar(c: char, rest: string)
    ensures ReadChar(EscapeChar(c) + rest) == Some((c, |EscapeChar(c)|))
  {
    var n := c as int;
    if n >= 0x1_0000 {
      ReadSurrogates(n, rest);
    } else if EscapeChar(c) == "\\u" + Hex4(n) {
      ReadEscapedUnit(n, rest);
    } else {
      var e, s := EscapeChar(c), EscapeChar(c) + rest;
      assert s[0] == e[0] && (|e| == 2 ==> s[1] == e[1]);
    }
  }

  function Escape(s: string): string {
    if s == [] then "" else EscapeChar(s[0]) + Escape(s[1..])
  }

  /** Reads a literal up to and including its closing quote. */
  function ReadString(s: string): (r: Option<(string, string)>)
    ensures r.Some? ==> |r.value.1| < |s|
    decreases |s|
  {
    if s == [] then None
    else if s[0] == '"' then Some(("", s[1..]))
    else
      match ReadChar(s)
      case None => None
      case Some((c, n)) =>
        match ReadString(s[n..])
        case None => None
        case Some((tail, rest)) => Some(([c] + tail, rest))
  }

  lemma {:induction false} ReadEscaped(s: string, rest: string)
    ensures ReadString(Escape(s) + "\"" + rest) == Some((s, rest))
  {
    hide EscapeChar, ReadChar;
    var text := Escape(s) + "\"" + rest;
    if s == [] {
      assert text == "\"" + rest;
    } else {
      var tail := Escape(s[1..]) + "\"" + rest;
      assert text == EscapeChar(s[0]) + tail;
      ReadEscapedChar(s[0], tail);
      assert text[|EscapeChar(s[0])|..] == tail;
      ReadEscaped(s[1..], rest);
      assert s == [s[0]] + s[1..];
    }
  }

  // ---------------------------------------------------------------- numbers

  predicate IsNumChar(c: char) {
    IsDigit(c) || c == '-' || c == '+' || c == '.' || c == 'e' || c == 'E'
  }

  predicate AllNumChars(s: string) {
    forall i :: 0 <= i < |s| ==> IsNumChar(s[i])
  }

  /** The longest prefix of number characters. */
  function NumSpan(s: string): (n: nat)
    ensures n <= |s|
    ensures AllNumChars(s[..n])
    ensures n < |s| ==> !IsNumChar(s[n])
  {
    if s == [] || !IsNumChar(s[0]) then 0 else 1 + NumSpan(s[1..])
  }

  lemma {:induction false} NumSpanExact(text: string, rest: string)
    requires AllNumChars(text) && (rest == [] || !IsNumChar(rest[0]))
    ensures NumSpan(text + rest) == |text|
  {
    if text == [] {
      assert text + rest == rest;
    } else {
      NumSpanExact(text[1..], rest);
      assert (text + rest)[1..] == text[1..] + rest;
    }
  }

  predicate NatText(t: string) {
    t != [] && AllDigits(t) && (t[0] == '0' ==> |t| == 1)
  }

  predicate IntText(t: string) {
    NatText(t) || (t != [] && t[0] == '-' && NatText(t[1..]))
  }

  predicate ExponentText(t: string) {
    && t != [] && (t[0] == 'e' || t[0] == 'E')
    && var digits := if |t| > 1 && (t[1] == '+' || t[1] == '-') then t[2..] else t[1..];
       digits != [] && AllDigits(digits)
  }

  /** A number with a fraction, an exponent or both. */
  predicate FloatText(t: string) {
    && AllNumChars(t) && !IntText(t) && t != []
    && var u := if t[0] == '-' then t[1..] else t;
       var n := DigitSpan(u);
       && NatText(u[..n])
       && var tail := u[n..];
          var m := if tail != [] && tail[0] == '.' then DigitSpan(tail[1..]) else 0;
          if m > 0 then tail[m + 1..] == [] || ExponentText(tail[m + 1..]) else ExponentText(tail)
  }

  function IntOf(t: string): int
    requires IntText(t)
  {
    if t[0] == '-' then 0 - StringToNat(t[1..]) else StringToNat(t)
  }

  function NumberOf(t: string): Option<Json> {
    if IntText(t) then Some(JInt(IntOf(t)))
    else if FloatText(t) then Some(JFloat(t))
    else None
  }

  lemma PrintedInt(i: int)
    ensures AllNumChars(IntToString(i)) && IntText(IntToString(i)) && IntOf(IntToString(i)) == i
  {
    var n: nat := if i < 0 then -i else i;
    var t := NatToString(n);
    ReadPrintedNat(n);
    if i < 0 {
      assert IntToString(i)[1..] == t;
    }
  }

  // ---------------------------------------------------------------- printer

  /** `json.dumps(v, separators=...)`. */
  function Print(v: Json, st: Style): string
    decreases v, 0
  {
    match v
    case JNull => "null"
    case JBool(b) => if b then "true" else "false"
    case JInt(i) => IntToString(i)
    case JFloat(t) => t
    case JStr(s) => "\"" + Escape(s) + "\""
    case JArr(items) => if items == [] then "[]" else "[" + PrintItems(items, st)
    case JObj(fields) => if fields == [] then "{}" else "{" + PrintFields(fields, st)
  }

  /** The items of a non-empty array and its closing bracket. */
  function PrintItems(items: seq<Json>, st: Style): string
    requires items != []
    decreases items, 0
  {
    Print(items[0], st) + if |items| == 1 then "]" else st.item + PrintItems(items[1..], st)
  }

  function PrintFields(fields: Dict, st: Style): (s: string)
    requires fields != []
    ensures s != [] && s[0] == '"'
    decreases fields, 0
  {
    PrintField(fields[0], st) + if |fields| == 1 then "}" else st.item + PrintFields(fields[1..], st)
  }

  function PrintField(f: Field, st: Style): (s: string)
    ensures s != [] && s[0] == '"'
    decreases f, 0
  {
    "\"" + Escape(f.key) + "\"" + st.key + Print(f.value, st)
  }

  /** Documents a Python object can be: float text is a float's, keys of a dict are distinct. */
  predicate Valid(v: Json)
    decreases v, 0
  {
    match v
    case JFloat(t) => FloatText(t)
    case JArr(items) => forall x | x in items :: Valid(x)
    case JObj(fields) => UniqueKeys(fields) && forall f | f in fields :: Valid(f.value)
    case _ => true
  }

  // ---------------------------------------------------------------- reader

  predicate IsWs(c: char) {
    c == ' ' || c == '\t' || c == '\n' || c == '\r'
  }

  function SkipWs(s: string): (r: string)
    ensures |r| <= |s|
  {
    if s != [] && IsWs(s[0]) then SkipWs(s[1..]) else s
  }

  type Parsed<T> = Option<(T, string)>

  /** A literal name, a string or a number. */
  function ReadAtom(s: string): (r: Parsed<Json>)
    ensures r.Some? ==> |r.value.1| < |s|
  {
    if s != [] && s[0] == '"' then
      match ReadString(s[1..])
      case None => None
      case Some((t, rest)) => Some((JStr(t), rest))
    else if "null" <= s then Some((JNull, s[4..]))
    else if "true" <= s then Some((JBool(true), s[4..]))
    else if "false" <= s then Some((JBool(false), s[5..]))
    else
      var n := NumSpan(s);
      match NumberOf(s[..n])
      case None => None
      case Some(v) => Some((v, s[n..]))
  }

  function ReadValue(s: string): (r: Parsed<Json>)
    ensures r.Some? ==> |r.value.1| < |s|
    decreases |s|, 1
  {
    if s == [] then None
    else if s[0] == '[' then
      var t := SkipWs(s[1..]);
      if t != [] && t[0] == ']' then Some((JArr([]), t[1..]))
      else
        match ReadItems(t)
        case None => None
        case Some((items, rest)) => Some((JArr(items), rest))
    else if s[0] == '{' then
      var t := SkipWs(s[1..]);
      if t != [] && t[0] == '}' then Some((JObj([]), t[1..]))
      else
        match ReadFields(t)
        case None => None
        case Some((fields, rest)) => Some((JObj(ToDict(fields)), rest))
    else ReadAtom(s)
  }

  /** `value (, value)* ]` */
  function ReadItems(s: string): (r: Parsed<seq<Json>>)
    ensures r.Some? ==> |r.value.1| < |s|
    decreases |s|, 2
  {
    match ReadValue(s)
    case None => None
    case Some((v, rest)) =>
      var t := SkipWs(rest);
      if t != [] && t[0] == ']' then Some(([v], t[1..]))
      else if t != [] && t[0] == ',' then
        match ReadItems(SkipWs(t[1..]))
        case None => None
        case Some((vs, rest')) => Some(([v] + vs, rest'))
      else None
  }

  /** `"key" : value (, "key" : value)* }` */
  function ReadFields(s: string): (r: Parsed<Dict>)
    ensures r.Some? ==> |r.value.1| < |s|
    decreases |s|, 2
  {
    if s == [] || s[0] != '"' then None
    else
      match ReadString(s[1..])
      case None => None
      case Some((k, rest)) =>
        var c := SkipWs(rest);
        if c == [] || c[0] != ':' then None
        else
          match ReadValue(SkipWs(c[1..]))
          case None => None
          case Some((v, rest')) =>
            var t := SkipWs(rest');
            if t != [] && t[0] == '}' then Some(([Field(k, v)], t[1..]))
            else if t != [] && t[0] == ',' then
              match ReadFields(SkipWs(t[1..]))
              case None => None
              case Some((fs, rest'')) => Some(([Field(k, v)] + fs, rest''))
            else None
  }

  /** `json.loads(s)`; None where it raises JSONDecodeError. */
  function Loads(s: string): Option<Json> {
    match ReadValue(SkipWs(s))
    case None => None
    case Some((v, rest)) => if SkipWs(rest) == [] then Some(v) else None
  }

  function Dumps(v: Json, st: Style): string {
    Print(v, st)
  }

  // ---------------------------------------------------------------- round trip

  predicate StyleOk(st: Style) {
    st == COMPACT || st == SPACED
  }

  /** The text after a value cannot extend it. */
  predicate Delimited(rest: string) {
    rest == [] || !IsNumChar(rest[0])
  }

  lemma PrintHead(v: Json, st: Style)
    requires Valid(v)
    ensures Print(v, st) != [] && !IsWs(Print(v, st)[0])
    ensures Print(v, st)[0] != ']' && Print(v, st)[0] != '}'
  {
    if v.JInt? {
      PrintedInt(v.i);
    }
    if v.JFloat? {
      assert IsNumChar(v.text[0]);
    }
  }

  lemma SkipSeparator(sep: string, rest: string, c: char)
    requires sep == [c] || sep == [c, ' ']
    requires !IsWs(c) && (rest == [] || !IsWs(rest[0]))
    ensures SkipWs(sep + rest) == sep + rest
    ensures SkipWs((sep + rest)[1..]) == rest
  {
    if sep == [c] {
      assert (sep + rest)[1..] == rest;
    } else {
      assert (sep + rest)[1..] == [' '] + rest;
      assert ([' '] + rest)[1..] == rest;
    }
  }

  lemma ReadPrintedAtom(v: Json, st: Style, rest: string)
    requires Valid(v) && Delimited(rest) && !v.JArr? && !v.JObj?
    ensures var s := Print(v, st) + rest;
            s != [] && s[0] != '[' && s[0] != '{' && ReadAtom(s) == Some((v, rest))
  {
    var s := Print(v, st) + rest;
    match v {
      case JStr(t) =>
        assert s[1..] == Escape(t) + "\"" + rest;
        ReadEscaped(t, rest);
      case JInt(i) =>
        PrintedInt(i);
        ReadPrintedNumber(IntToString(i), v, rest);
      case JFloat(t) =>
        ReadPrintedNumber(t, v, rest);
      case JNull =>
        assert s[..4] == "null" && s[4..] == rest;
      case JBool(b) =>
        if b {
          assert s[..4] == "true" && s[4..] == rest;
        } else {
          assert s[..5] == "false" && s[5..] == rest;
        }
    }
  }

  lemma ReadPrintedNumber(t: string, v: Json, rest: string)
    requires t != [] && AllNumChars(t) && NumberOf(t) == Some(v) && Delimited(rest)
    ensures ReadAtom(t + rest) == Some((v, rest)) && IsNumChar((t + rest)[0])
  {
    var s := t + rest;
    NumSpanExact(t, rest);
    assert IsNumChar(t[0]) && s[0] == t[0];
    assert s[..|t|] == t && s[|t|..] == rest;
  }

  lemma LastItem(s: string, v: Json, rest: string)
    requires ReadValue(s) == Some((v, "]" + rest))
    ensures ReadItems(s) == Some(([v], rest))
  {
    assert ("]" + rest)[1..] == rest;
  }

  lemma MoreItems(s: string, v: Json, t: string, vs: seq<Json>, rest: string)
    requires ReadValue(s) == Some((v, t)) && t != [] && t[0] == ',' && SkipWs(t) == t
    requires ReadItems(SkipWs(t[1..])) == Some((vs, rest))
    ensures ReadItems(s) == Some(([v] + vs, rest))
  {
  }

  lemma LastField(s: string, k: string, c: string, v: Json, rest: string)
    requires s != [] && s[0] == '"' && ReadString(s[1..]) == Some((k, c))
    requires c != [] && c[0] == ':' && SkipWs(c) == c
    requires ReadValue(SkipWs(c[1..])) == Some((v, "}" + rest))
    ensures ReadFields(s) == Some(([Field(k, v)], rest))
  {
    assert ("}" + rest)[1..] == rest;
  }

  lemma MoreFields(s: string, k: string, c: string, v: Json, t: string, fs: Dict, rest: string)
    requires s != [] && s[0] == '"' && ReadString(s[1..]) == Some((k, c))
    requires c != [] && c[0] == ':' && SkipWs(c) == c
    requires ReadValue(SkipWs(c[1..])) == Some((v, t)) && t != [] && t[0] == ',' && SkipWs(t) == t
    requires ReadFields(SkipWs(t[1..])) == Some((fs, rest))
    ensures ReadFields(s) == Some(([Field(k, v)] + fs, rest))
  {
  }

  lemma ReadBracketed(s: string, t: string, items: seq<Json>, rest: string)
    requires s == "[" + t && t != [] && !IsWs(t[0]) && t[0] != ']'
    requires ReadItems(t) == Some((items, rest))
    ensures ReadValue(s) == Some((JArr(items), rest))
  {
    assert s[1..] == t;
  }

  lemma ReadBraced(s: string, t: string, fields: Dict, rest: string)
    requires s == "{" + t && t != [] && t[0] == '"' && UniqueKeys(fields)
    requires ReadFields(t) == Some((fields, rest))
    ensures ReadValue(s) == Some((JObj(fields), rest))
  {
    assert s[1..] == t;
    ToDictUnique(fields);
  }

  lemma {:induction false} ReadPrinted(v: Json, st: Style, rest: string)
    requires Valid(v) && StyleOk(st) && Delimited(rest)
    ensures ReadValue(Print(v, st) + rest) == Some((v, rest))
    decreases v, 0
  {
    if v.JArr? && v.items != [] {
      ReadPrintedArray(v.items, st, rest);
    } else if v.JObj? && v.fields != [] {
      ReadPrintedObject(v.fields, st, rest);
    } else if v.JArr? || v.JObj? {
      ReadEmpty(v, rest);
    } else {
      ReadPrintedAtom(v, st, rest);
    }
  }

  lemma {:induction false} ReadPrintedArray(items: seq<Json>, st: Style, rest: string)
    requires items != [] && (forall x | x in items :: Valid(x)) && StyleOk(st)
    ensures ReadValue("[" + PrintItems(items, st) + rest) == Some((JArr(items), rest))
    decreases items, 1
  {
    var t := PrintItems(items, st) + rest;
    PrintHead(items[0], st);
    ReadPrintedItems(items, st, rest);
    assert "[" + PrintItems(items, st) + rest == "[" + t;
    ReadBracketed("[" + t, t, items, rest);
  }

  lemma {:induction false} ReadPrintedObject(fields: Dict, st: Style, rest: string)
    requires fields != [] && UniqueKeys(fields) && (forall f | f in fields :: Valid(f.value)) && StyleOk(st)
    ensures ReadValue("{" + PrintFields(fields, st) + rest) == Some((JObj(fields), rest))
    decreases fields, 1
  {
    var t := PrintFields(fields, st) + rest;
    ReadPrintedFields(fields, st, rest);
    assert "{" + PrintFields(fields, st) + rest == "{" + t;
    ReadBraced("{" + t, t, fields, rest);
  }

  lemma ReadEmpty(v: Json, rest: string)
    requires v == JArr([]) || v == JObj([])
    ensures ReadValue((if v.JArr? then "[]" else "{}") + rest) == Some((v, rest))
  {
    if v.JArr? {
      assert ("[]" + rest)[1..] == "]" + rest;
      assert ("]" + rest)[1..] == rest;
    } else {
      assert ("{}" + rest)[1..] == "}" + rest;
      assert ("}" + rest)[1..] == rest;
    }
  }

  lemma {:induction false} ReadPrintedItems(items: seq<Json>, st: Style, rest: string)
    requires items != [] && (forall x | x in items :: Valid(x)) && StyleOk(st)
    ensures ReadItems(PrintItems(items, st) + rest) == Some((items, rest))
    decreases items, 0
  {
    hide Print, Valid, ReadValue, ReadItems;
    var s := PrintItems(items, st) + rest;
    if |items| == 1 {
      assert s == Print(items[0], st) + ("]" + rest);
      ReadPrinted(items[0], st, "]" + rest);
      LastItem(s, items[0], rest);
      assert items == [items[0]];
    } else {
      var more := PrintItems(items[1..], st) + rest;
      var t := st.item + more;
      assert s == Print(items[0], st) + t;
      ReadPrinted(items[0], st, t);
      PrintHead(items[1], st);
      SkipSeparator(st.item, more, ',');
      ReadPrintedItems(items[1..], st, rest);
      MoreItems(s, items[0], t, items[1..], rest);
      assert items == [items[0]] + items[1..];
    }
  }

  lemma ReadPrintedKey(f: Field, st: Style, after: string)
    requires Valid(f.value) && StyleOk(st)
    ensures var s, c := PrintField(f, st) + after, st.key + (Print(f.value, st) + after);
            && ReadString(s[1..]) == Some((f.key, c)) && SkipWs(c) == c && SkipWs(c[1..]) == Print(f.value, st) + after
  {
    hide Print, Escape, Valid;
    var s, c := PrintField(f, st) + after, st.key + (Print(f.value, st) + after);
    assert s[1..] == Escape(f.key) + "\"" + c;
    ReadEscaped(f.key, c);
    PrintHead(f.value, st);
    SkipSeparator(st.key, Print(f.value, st) + after, ':');
  }

  lemma ReadLastField(f: Field, st: Style, rest: string)
    requires Valid(f.value) && StyleOk(st)
    requires ReadValue(Print(f.value, st) + ("}" + rest)) == Some((f.value, "}" + rest))
    ensures ReadFields(PrintField(f, st) + ("}" + rest)) == Some(([f], rest))
  {
    var s, c := PrintField(f, st) + ("}" + rest), st.key + (Print(f.value, st) + ("}" + rest));
    ReadPrintedKey(f, st, "}" + rest);
    LastField(s, f.key, c, f.value, rest);
  }

  lemma ReadNextField(f: Field, st: Style, more: string, fs: Dict, rest: string)
    requires Valid(f.value) && StyleOk(st) && more != [] && more[0] == '"'
    requires ReadValue(Print(f.value, st) + (st.item + more)) == Some((f.value, st.item + more))
    requires ReadFields(more) == Some((fs, rest))
    ensures ReadFields(PrintField(f, st) + (st.item + more)) == Some(([f] + fs, rest))
  {
    var t := st.item + more;
    var s, c := PrintField(f, st) + t, st.key + (Print(f.value, st) + t);
    ReadPrintedKey(f, st, t);
    SkipSeparator(st.item, more, ',');
    MoreFields(s, f.key, c, f.value, t, fs, rest);
  }

  lemma {:induction false} ReadPrintedFields(fields: Dict, st: Style, rest: string)
    requires fields != [] && (forall f | f in fields :: Valid(f.value)) && StyleOk(st)
    ensures ReadFields(PrintFields(fields, st) + rest) == Some((fields, rest))
    decreases fields, 0
  {
    hide Print, PrintField, Valid, ReadValue, ReadFields, SkipWs;
    var f := fields[0];
    assert f in fields;
    if |fields| == 1 {
      ReadPrinted(f.value, st, "}" + rest);
      ReadLastField(f, st, rest);
      assert PrintFields(fields, st) + rest == PrintField(f, st) + ("}" + rest);
      assert fields == [f];
    } else {
      var more := PrintFields(fields[1..], st) + rest;
      ReadPrinted(f.value, st, st.item + more);
      ReadPrintedFields(fields[1..], st, rest);
      ReadNextField(f, st, more, fields[1..], rest);
      assert PrintFields(fields, st) + rest == PrintField(f, st) + (st.item + more);
      assert fields == [f] + fields[1..];
    }
  }

  /** `json.loads(json.dumps(v)) == v` in both separator styles the node uses. */
  lemma LoadsDumps(v: Json, st: Style)
    requires Valid(v) && StyleOk(st)
    ensures Loads(Dumps(v, st)) == Some(v)
  {
    PrintHead(v, st);
    ReadPrinted(v, st, "");
    assert Print(v, st) + "" == Print(v, st);
  }

  // ---------------------------------------------------------------- the printed alphabet

  /** Between space and tilde: no control character, no line end, nothing outside ASCII. */
  predicate Graphic(s: string) {
    forall i :: 0 <= i < |s| ==> 0x20 <= s[i] as int < 0x7F
  }

  lemma EscapeCharGraphic(c: char)
    ensures Graphic(EscapeChar(c))
  {
    var n := c as int;
    if n >= 0x1_0000 {
      HexGraphic(0xD800 + (n - 0x1_0000) / 0x400);
      HexGraphic(0xDC00 + (n - 0x1_0000) % 0x400);
    } else {
      HexGraphic(n);
    }
  }

  lemma HexGraphic(n: nat)
    requires n < 0x1_0000
    ensures Graphic(Hex4(n))
  {
  }

  lemma {:induction false} EscapeGraphic(s: string)
    ensures Graphic(Escape(s))
  {
    if s != [] {
      EscapeCharGraphic(s[0]);
      EscapeGraphic(s[1..]);
    }
  }

  lemma {:induction false} PrintGraphic(v: Json, st: Style)
    requires Valid(v) && StyleOk(st)
    ensures Graphic(Print(v, st))
    decreases v, 0
  {
    if v.JStr? {
      EscapeGraphic(v.s);
    } else if v.JArr? && v.items != [] {
      PrintItemsGraphic(v.items, st);
    } else if v.JObj? && v.fields != [] {
      PrintFieldsGraphic(v.fields, st);
    } else if v.JInt? {
      PrintedInt(v.i);
    }
  }

  lemma {:induction false} PrintItemsGraphic(items: seq<Json>, st: Style)
    requires items != [] && (forall x | x in items :: Valid(x)) && StyleOk(st)
    ensures Graphic(PrintItems(items, st))
    decreases items, 0
  {
    PrintGraphic(items[0], st);
    if |items| > 1 {
      PrintItemsGraphic(items[1..], st);
    }
  }

  lemma {:induction false} PrintFieldsGraphic(fields: Dict, st: Style)
    requires fields != [] && (forall f | f in fields :: Valid(f.value)) && StyleOk(st)
    ensures Graphic(PrintFields(fields, st))
    decreases fields, 0
  {
    hide Print, Valid, Escape;
    assert fields[0] in fields;
    EscapeGraphic(fields[0].key);
    PrintGraphic(fields[0].value, st);
    if |fields| > 1 {
      PrintFieldsGraphic(fields[1..], st);
    }
  }

  // ---------------------------------------------------------------- what is read is valid

  lemma {:induction false} InsertValid(d: Dict, k: string, v: Json)
    requires UniqueKeys(d) && (forall f | f in d :: Valid(f.value)) && Valid(v)
    ensures UniqueKeys(Insert(d, k, v)) && forall f | f in Insert(d, k, v) :: Valid(f.value)
  {
    hide Valid;
    if d != [] && d[0].key != k {
      assert d[0] in d;
      InsertValid(d[1..], k, v);
      InsertKeys(d[1..], k, v);
      assert forall i :: 0 < i < |d| ==> d[i].key != d[0].key;
    }
  }

  lemma {:induction false} InsertKeys(d: Dict, k: string, v: Json)
    ensures forall i :: 0 <= i < |Insert(d, k, v)| ==> Insert(d, k, v)[i].key == k || exists j :: 0 <= j < |d| && d[j].key == Insert(d, k, v)[i].key
  {
    if d != [] && d[0].key != k {
      InsertKeys(d[1..], k, v);
      forall i | 0 <= i < |Insert(d, k, v)| && Insert(d, k, v)[i].key != k
        ensures exists j :: 0 <= j < |d| && d[j].key == Insert(d, k, v)[i].key
      {
        if i > 0 {
          var j :| 0 <= j < |d[1..]| && d[1..][j].key == Insert(d[1..], k, v)[i - 1].key;
          assert d[j + 1].key == Insert(d, k, v)[i].key;
        } else {
          assert d[0].key == Insert(d, k, v)[i].key;
        }
      }
    }
  }

  lemma {:induction false} ToDictValid(pairs: Dict)
    requires forall f | f in pairs :: Valid(f.value)
    ensures UniqueKeys(ToDict(pairs)) && forall f | f in ToDict(pairs) :: Valid(f.value)
  {
    hide Valid, Insert;
    if pairs != [] {
      var front, last := pairs[..|pairs| - 1], pairs[|pairs| - 1];
      ToDictValid(front);
      InsertValid(ToDict(front), last.key, last.value);
    }
  }

  lemma AtomValid(s: string)
    requires ReadAtom(s).Some?
    ensures Valid(ReadAtom(s).value.0)
  {
    hide IntText, FloatText, ReadString, NumSpan;
  }

  lemma {:induction false} ReadValueValid(s: string)
    requires ReadValue(s).Some?
    ensures Valid(ReadValue(s).value.0)
    decreases |s|, 1
  {
    hide ReadAtom, ReadItems, ReadFields, ToDict, FloatText;
    if s[0] == '[' {
      var t := SkipWs(s[1..]);
      if !(t != [] && t[0] == ']') {
        ReadItemsValid(t);
      }
    } else if s[0] == '{' {
      var t := SkipWs(s[1..]);
      if !(t != [] && t[0] == '}') {
        ReadFieldsValid(t);
        ToDictValid(ReadFields(t).value.0);
      }
    } else {
      AtomValid(s);
    }
  }

  lemma {:induction false} ReadItemsValid(s: string)
    requires ReadItems(s).Some?
    ensures forall x | x in ReadItems(s).value.0 :: Valid(x)
    decreases |s|, 2
  {
    hide Valid, ReadValue;
    ReadValueValid(s);
    var t := SkipWs(ReadValue(s).value.1);
    if t[0] == ',' {
      ReadItemsValid(SkipWs(t[1..]));
    }
  }

  lemma {:induction false} ReadFieldsValid(s: string)
    requires ReadFields(s).Some?
    ensures forall f | f in ReadFields(s).value.0 :: Valid(f.value)
    decreases |s|, 2
  {
    hide Valid, ReadValue, ReadString;
    var c := SkipWs(ReadString(s[1..]).value.1);
    ReadValueValid(SkipWs(c[1..]));
    var t := SkipWs(ReadValue(SkipWs(c[1..])).value.1);
    if t[0] == ',' {
      ReadFieldsValid(SkipWs(t[1..]));
    }
  }

  /** Every document `json.loads` yields has distinct keys and floats that are floats. */
  lemma LoadsValid(s: string)
    requires Loads(s).Some?
    ensures Valid(Loads(s).value)
  {
    hide Valid, ReadValue;
    ReadValueValid(SkipWs(s));
  }

  // ---------------------------------------------------------------- ends of printed documents

  /** Neither end of the text is white space. */
  predicate Trim(s: string) {
    s != "" && !IsSpace(s[0]) && !IsSpace(s[|s| - 1])
  }

  lemma PrintTrim(v: Json, st: Style)
    requires Valid(v) && StyleOk(st)
    ensures Trim(Print(v, st))
  {
    hide PrintItems, PrintFields, Escape, Valid, StyleOk;
    match v {
      case JInt(i) => PrintedInt(i);
      case JFloat(t) => FloatIsNumber(v);
      case JArr(items) =>
        if items != [] {
          ItemsEnd(items, st);
        }
      case JObj(fields) =>
        if fields != [] {
          FieldsEnd(fields, st);
        }
      case _ =>
    }
  }

  lemma FloatIsNumber(v: Json)
    requires v.JFloat? && Valid(v)
    ensures v.text != "" && AllNumChars(v.text)
  {
  }

  lemma {:induction false} ItemsEnd(items: seq<Json>, st: Style)
    requires items != []
    ensures var s := PrintItems(items, st); s != "" && s[|s| - 1] == ']'
  {
    hide Print;
    if |items| > 1 {
      ItemsEnd(items[1..], st);
    }
  }

  lemma {:induction false} FieldsEnd(fields: Dict, st: Style)
    requires fields != []
    ensures var s := PrintFields(fields, st); s[|s| - 1] == '}'
  {
    hide PrintField;
    if |fields| > 1 {
      FieldsEnd(fields[1..], st);
    }
  }

  /** An object, an array and a string as Python prints them. */
  lemma PrintExamples()
    ensures Dumps(JObj([Field("a", JInt(-1))]), SPACED) == "{\"a\": -1}"
    ensures Dumps(JArr([JNull, JBool(true)]), COMPACT) == "[null,true]"
    ensures Escape("\U{E9}\n") == "\\u00e9\\n"
  {
    ObjectExample();
    ArrayExample();
    StringExample();
  }

  lemma ObjectExample()
    ensures Dumps(JObj([Field("a", JInt(-1))]), SPACED) == "{\"a\": -1}"
  {
    hide Escape, EscapeChar;
    LetterEscaped('a');
  }

  lemma LetterEscaped(c: char)
    requires 'a' <= c <= 'z'
    ensures Escape([c]) == [c]
  {
  }

  lemma ArrayExample()
    ensures Dumps(JArr([JNull, JBool(true)]), COMPACT) == "[null,true]"
  {
  }

  lemma StringExample()
    ensures Escape("\U{E9}\n") == "\\u00e9\\n"
  {
  }
}
