/** The fallback TOML writer (aim_node/management/config_writer.py) and, as its specification, a
    reader of TOML v1.0.0 documents with bare keys, tables by dotted header, basic and multi-line basic
    strings, booleans and numbers. */
module Toml {
  import opened Results
  import opened Text
  import Json

  datatype Value = Str(s: string) | Bool(b: bool) | Int(i: int) | Float(text: string)

  /** A value of the written dict; `Other` is one the writer passes over, a list or None. */
  datatype Item = Leaf(value: Value) | Other | Table(entries: seq<Entry>)

  datatype Entry = Entry(key: string, item: Item)

  // ---------------------------------------------------------------- writer

  function ValueText(v: Value): string {
    match v
    case Str(s) => "\"" + s + "\""
    case Bool(b) => if b then "true" else "false"
    case Int(i) => IntToString(i)
    case Float(t) => t
  }

  /** The lines of the first pass: the leaves of this level. */
  function LeafLines(d: seq<Entry>): seq<string> {
    if d == [] then []
    else (if d[0].item.Leaf? then [d[0].key + " = " + ValueText(d[0].item.value)] else []) + LeafLines(d[1..])
  }

  function SectionName(prefix: string, key: string): string {
    if prefix != "" then prefix + "." + key else key
  }

  /** The lines of the second pass: a header and the contents of every sub-table. */
  function SectionLines(d: seq<Entry>, prefix: string): seq<string>
    decreases d, 0
  {
    if d == [] then []
    else
      (if d[0].item.Table? then
         var section := SectionName(prefix, d[0].key);
         ["", "[" + section + "]"] + WriteLines(d[0].item.entries, section)
       else [])
      + SectionLines(d[1..], prefix)
  }

  function WriteLines(d: seq<Entry>, prefix: string): seq<string>
    decreases d, 1
  {
    LeafLines(d) + SectionLines(d, prefix)
  }

  function Unlines(lines: seq<string>): string {
    if lines == [] then "" else lines[0] + "\n" + Unlines(lines[1..])
  }

  lemma {:induction false} UnlinesConcat(a: seq<string>, b: seq<string>)
    ensures Unlines(a + b) == Unlines(a) + Unlines(b)
  {
    if a == [] {
      assert a + b == b;
    } else {
      assert (a + b)[1..] == a[1..] + b;
      UnlinesConcat(a[1..], b);
    }
  }

  class TextFile {
    var text: string

    constructor ()
      ensures text == ""
    {
      text := "";
    }

    method WriteLine(line: string)
      modifies this
      ensures text == old(text) + line + "\n"
    {
      text := text + line + "\n";
    }
  }

  /** `_write_toml`: two passes over the dict, recursing into sub-tables in the second. */
  method WriteToml(f: TextFile, d: seq<Entry>, prefix: string)
    modifies f
    ensures f.text == old(f.text) + Unlines(WriteLines(d, prefix))
    decreases d
  {
    hide ValueText, Unlines, SectionName, LeafLines, SectionLines;
    ghost var leaves: seq<string> := [];
    UnlinesNone();
    assert d[0..] == d;
    var i := 0;
    while i < |d|
      invariant i <= |d|
      invariant f.text == old(f.text) + Unlines(leaves)
      invariant leaves + LeafLines(d[i..]) == LeafLines(d)
    {
      LeafLinesFrom(d, i);
      if d[i].item.Leaf? {
        var line := d[i].key + " = " + ValueText(d[i].item.value);
        f.WriteLine(line);
        UnlinesSnoc(leaves, line);
        leaves := leaves + [line];
      }
      i := i + 1;
    }
    NoLinesAfter(d, prefix);
    assert leaves == LeafLines(d);
    ghost var sections: seq<string> := [];
    i := 0;
    while i < |d|
      invariant i <= |d|
      invariant f.text == old(f.text) + Unlines(leaves) + Unlines(sections)
      invariant sections + SectionLines(d[i..], prefix) == SectionLines(d, prefix)
    {
      SectionLinesFrom(d, i, prefix);
      if d[i].item.Table? {
        var section := SectionName(prefix, d[i].key);
        ghost var body := WriteLines(d[i].item.entries, section);
        f.WriteLine("");
        UnlinesSnoc(sections, "");
        f.WriteLine("[" + section + "]");
        UnlinesSnoc(sections + [""], "[" + section + "]");
        WriteToml(f, d[i].item.entries, section);
        UnlinesConcat(sections + [""] + ["[" + section + "]"], body);
        sections := sections + [""] + ["[" + section + "]"] + body;
      }
      i := i + 1;
    }
    assert sections == SectionLines(d, prefix);
    UnlinesConcat(leaves, sections);
  }

  lemma LeafLinesFrom(d: seq<Entry>, i: nat)
    requires i < |d|
    ensures LeafLines(d[i..])
         == (if d[i].item.Leaf? then [d[i].key + " = " + ValueText(d[i].item.value)] else []) + LeafLines(d[i + 1..])
  {
    assert d[i..][1..] == d[i + 1..];
  }

  lemma SectionLinesFrom(d: seq<Entry>, i: nat, prefix: string)
    requires i < |d|
    ensures var section := SectionName(prefix, d[i].key);
            var written := if d[i].item.Table?
                           then [""] + ["[" + section + "]"] + WriteLines(d[i].item.entries, section) else [];
            SectionLines(d[i..], prefix) == written + SectionLines(d[i + 1..], prefix)
  {
    hide SectionName, WriteLines;
    assert d[i..][1..] == d[i + 1..];
  }

  lemma NoLinesAfter(d: seq<Entry>, prefix: string)
    ensures LeafLines(d[|d|..]) == [] && SectionLines(d[|d|..], prefix) == [] && d[0..] == d
  {
  }

  lemma UnlinesNone()
    ensures Unlines([]) == ""
  {
  }

  lemma UnlinesSnoc(lines: seq<string>, line: string)
    ensures Unlines(lines + [line]) == Unlines(lines) + line + "\n"
  {
    UnlinesConcat(lines, [line]);
    assert Unlines([line]) == line + "\n";
  }

  // ---------------------------------------------------------------- reader: lines and values

  /** The position of the first line end, or the length. */
  function LineEnd(text: string): (n: nat)
    ensures n <= |text|
    ensures n < |text| ==> text[n] == '\n'
    ensures forall i :: 0 <= i < n ==> text[i] != '\n'
  {
    if text == "" || text[0] == '\n' then 0 else 1 + LineEnd(text[1..])
  }

  /** What follows the line that ends at n. */
  function After(text: string, n: nat): (rest: string)
    requires n <= |text|
    ensures |rest| <= |text| && (text != "" ==> |rest| < |text| || n == |text| == 0)
  {
    if n == |text| then "" else text[n + 1..]
  }

  /** CRLF line ends become LF. */
  function Normal(text: string): string {
    if text == "" then ""
    else if "\r\n" <= text then "\n" + Normal(text[2..])
    else [text[0]] + Normal(text[1..])
  }

  predicate OneLine(line: string) {
    '\n' !in line && '\r' !in line
  }

  lemma LineEndExact(x: string, rest: string)
    requires '\n' !in x
    ensures LineEnd(x + "\n" + rest) == |x|
  {
    var text := x + "\n" + rest;
    assert forall i :: 0 <= i < |x| ==> text[i] == x[i];
    assert text[|x|] == '\n';
  }

  predicate IsBareChar(c: char) {
    'A' <= c <= 'Z' || 'a' <= c <= 'z' || '0' <= c <= '9' || c == '_' || c == '-'
  }

  predicate BareKey(k: string) {
    k != "" && forall i :: 0 <= i < |k| ==> IsBareChar(k[i])
  }

  /** A character a basic string may hold as it is. */
  predicate IsPlain(c: char) {
    c != '"' && c != '\\' && (c == '\t' || (c as int >= 0x20 && c as int != 0x7F))
  }

  predicate Plain(s: string) {
    forall i :: 0 <= i < |s| ==> IsPlain(s[i])
  }

  function ReadHex8(s: string): Option<nat> {
    if |s| < 8 then None
    else
      match (Json.ReadHex4(s), Json.ReadHex4(s[4..]))
      case (Some(a), Some(b)) => Some(a * 0x1_0000 + b)
      case _ => None
  }

  /** An escape sequence: the character and the length of the sequence. */
  function ReadEscape(s: string): (r: Option<(char, nat)>)
    requires s != "" && s[0] == '\\'
    ensures r.Some? ==> 2 <= r.value.1 <= |s|
  {
    if |s| < 2 then None
    else
      match s[1]
      case 'b' => Some((8 as char, 2))
      case 't' => Some(('\t', 2))
      case 'n' => Some(('\n', 2))
      case 'f' => Some((12 as char, 2))
      case 'r' => Some(('\r', 2))
      case '"' => Some(('"', 2))
      case '\\' => Some(('\\', 2))
      case 'u' =>
        (match Json.ReadHex4(s[2..])
         case Some(n) => if IsScalar(n) then Some((n as char, 6)) else None
         case None => None)
      case 'U' =>
        (match ReadHex8(s[2..])
         case Some(n) => if IsScalar(n) then Some((n as char, 10)) else None
         case None => None)
      case _ => None
  }

  /** The rest of a one-line basic string: its value and what follows the closing quote. */
  function ReadBasic(s: string): (r: Option<(string, string)>)
    ensures r.Some? ==> |r.value.0| + 1 + |r.value.1| <= |s|
    decreases |s|
  {
    if s == "" then None
    else if s[0] == '"' then Some(("", s[1..]))
    else if s[0] == '\\' then
      match ReadEscape(s)
      case None => None
      case Some((c, n)) =>
        match ReadBasic(s[n..])
        case None => None
        case Some((tail, rest)) => Some(([c] + tail, rest))
    else if !IsPlain(s[0]) then None
    else
      match ReadBasic(s[1..])
      case None => None
      case Some((tail, rest)) => Some(([s[0]] + tail, rest))
  }

  predicate IsTab(c: char) {
    c == ' ' || c == '\t'
  }

  function SkipTabs(s: string): (r: string)
    ensures |r| <= |s|
  {
    if s != "" && IsTab(s[0]) then SkipTabs(s[1..]) else s
  }

  predicate IsCommentChar(c: char) {
    c == '\t' || (c as int >= 0x20 && c as int != 0x7F)
  }

  /** Only white space or a comment is left. */
  predicate Finished(s: string) {
    var t := SkipTabs(s);
    t == "" || (t[0] == '#' && forall i :: 0 <= i < |t| ==> IsCommentChar(t[i]))
  }

  function TokenEnd(s: string): (n: nat)
    ensures n <= |s|
  {
    if s == "" || IsTab(s[0]) || s[0] == '#' then 0 else 1 + TokenEnd(s[1..])
  }

  function ReadToken(t: string): Option<Value> {
    if t == "true" then Some(Bool(true))
    else if t == "false" then Some(Bool(false))
    else if Json.IntText(t) then Some(Int(Json.IntOf(t)))
    else if Json.FloatText(t) then Some(Float(t))
    else None
  }

  function TabSpan(s: string): (n: nat)
    ensures n <= |s| && (n > 0 ==> IsTab(s[0]))
  {
    if s != "" && IsTab(s[0]) then 1 + TabSpan(s[1..]) else 0
  }

  function WhiteSpan(s: string): (n: nat)
    ensures n <= |s| && (s != "" && (IsTab(s[0]) || s[0] == '\n') ==> n > 0)
    ensures forall i :: 0 <= i < n ==> IsTab(s[i]) || s[i] == '\n'
  {
    if s != "" && (IsTab(s[0]) || s[0] == '\n') then 1 + WhiteSpan(s[1..]) else 0
  }

  /** The length of a backslash at the end of a line with all white space that follows it. */
  function Continuation(t: string): (r: Option<nat>)
    requires t != "" && t[0] == '\\'
    ensures r.Some? ==> 2 <= r.value <= |t|
  {
    var tabs := TabSpan(t[1..]);
    if 1 + tabs < |t| && t[1 + tabs] == '\n' then Some(1 + WhiteSpan(t[1..])) else None
  }

  /** What the first character or escape of a multi-line string stands for, and its length. */
  function FirstItem(t: string): (r: Option<(string, nat)>)
    requires t != ""
    ensures r.Some? ==> |r.value.0| <= 1 <= r.value.1 <= |t|
  {
    if t[0] == '\\' then
      match Continuation(t)
      case Some(n) => Some(("", n))
      case None =>
        match ReadEscape(t)
        case None => None
        case Some((c, n)) => Some(([c], n))
    else if t[0] == '"' || t[0] == '\n' || IsPlain(t[0]) then Some(([t[0]], 1))
    else None
  }

  const QUOTES := "\"\"\""

  /** The rest of a multi-line basic string after its opening quotes: its value, and what follows the
      closing ones, before which up to two quotes belong to the string. */
  function ReadMulti(t: string): (r: Option<(string, string)>)
    ensures r.Some? ==> |r.value.0| + 3 + |r.value.1| <= |t|
    decreases |t|
  {
    if QUOTES <= t then
      var n := if |t| > 3 && t[3] == '"' then (if |t| > 4 && t[4] == '"' then 2 else 1) else 0;
      Some((t[3..3 + n], t[3 + n..]))
    else if t == "" then None
    else
      match FirstItem(t)
      case None => None
      case Some((out, n)) =>
        match ReadMulti(t[n..])
        case None => None
        case Some((tail, rest)) => Some((out + tail, rest))
  }

  /** A line end right after the opening quotes is not part of the string. */
  function TrimStart(t: string): string {
    if t != "" && t[0] == '\n' then t[1..] else t
  }

  /** A value up to the end of its line; multi-line strings and the other kinds are not read. */
  function ReadValue(s: string): Option<Value> {
    if QUOTES <= s then None
    else if s != "" && s[0] == '"' then
      match ReadBasic(s[1..])
      case None => None
      case Some((v, rest)) => if Finished(rest) then Some(Str(v)) else None
    else
      var n := TokenEnd(s);
      if Finished(s[n..]) then ReadToken(s[..n]) else None
  }

  function BareSpan(s: string): (n: nat)
    ensures n <= |s|
    ensures forall i :: 0 <= i < n ==> IsBareChar(s[i])
  {
    if s == "" || !IsBareChar(s[0]) then 0 else 1 + BareSpan(s[1..])
  }

  /** `key = value` */
  function ReadKeyValue(line: string): Option<(string, Value)> {
    var n := BareSpan(line);
    var t := SkipTabs(line[n..]);
    if n == 0 || t == "" || t[0] != '=' then None
    else
      match ReadValue(SkipTabs(t[1..]))
      case None => None
      case Some(v) => Some((line[..n], v))
  }

  /** A line `key = """...`: the key, and where the text after the quotes begins. */
  function OpensMulti(line: string): (r: Option<(string, nat)>)
    ensures r.Some? ==> 3 <= r.value.1 <= |line|
  {
    var s := SkipTabs(line);
    var n := BareSpan(s);
    var t := SkipTabs(s[n..]);
    if n == 0 || t == "" || t[0] != '=' then None
    else
      var x := SkipTabs(t[1..]);
      if QUOTES <= x then Some((s[..n], |line| - |x| + 3)) else None
  }

  /** `a.b.c]`, the rest of a table header. */
  function ReadHeader(s: string): Option<seq<string>>
    decreases |s|
  {
    var n := BareSpan(s);
    if n == 0 || n == |s| then None
    else if s[n] == ']' then if Finished(s[n + 1..]) then Some([s[..n]]) else None
    else if s[n] != '.' then None
    else
      match ReadHeader(s[n + 1..])
      case None => None
      case Some(path) => Some([s[..n]] + path)
  }

  // ---------------------------------------------------------------- reader: documents

  datatype Tree = Val(value: Value) | Node(children: map<string, Tree>)

  /** A document being read: the tree so far and the table new keys go to. */
  datatype Doc = Doc(root: Tree, path: seq<string>)

  /** Adds an empty table; parents that are missing are made, a table that is there is an error. */
  function AddTable(t: Tree, path: seq<string>): Option<Tree>
    decreases |path|
  {
    if t.Val? || path == [] then None
    else if |path| == 1 then
      if path[0] in t.children then None else Some(Node(t.children[path[0] := Node(map[])]))
    else
      var child := if path[0] in t.children then t.children[path[0]] else Node(map[]);
      match AddTable(child, path[1..])
      case None => None
      case Some(c) => Some(Node(t.children[path[0] := c]))
  }

  /** Adds a key to the table at a path; a key that is there is an error. */
  function AddKey(t: Tree, path: seq<string>, k: string, v: Value): Option<Tree>
    decreases |path|
  {
    if t.Val? then None
    else if path == [] then
      if k in t.children then None else Some(Node(t.children[k := Val(v)]))
    else if path[0] !in t.children then None
    else
      match AddKey(t.children[path[0]], path[1..], k, v)
      case None => None
      case Some(c) => Some(Node(t.children[path[0] := c]))
  }

  function ReadLine(doc: Doc, line: string): Option<Doc> {
    var s := SkipTabs(line);
    if Finished(line) then Some(doc)
    else if s[0] == '[' then
      match ReadHeader(s[1..])
      case None => None
      case Some(path) =>
        match AddTable(doc.root, path)
        case None => None
        case Some(root) => Some(Doc(root, path))
    else
      match ReadKeyValue(s)
      case None => None
      case Some((k, v)) =>
        match AddKey(doc.root, doc.path, k, v)
        case None => None
        case Some(root) => Some(Doc(root, doc.path))
  }

  function ReadLines(doc: Doc, lines: seq<string>): Option<Doc>
    decreases |lines|
  {
    if lines == [] then Some(doc)
    else
      match ReadLine(doc, lines[0])
      case None => None
      case Some(d) => ReadLines(d, lines[1..])
  }

  /** The same with multi-line strings, which take as many lines as they need. */
  function ReadText(doc: Doc, text: string): Option<Doc>
    decreases |text|
  {
    if text == "" then Some(doc)
    else
      var n := LineEnd(text);
      match OpensMulti(text[..n])
      case None =>
        (match ReadLine(doc, text[..n])
         case None => None
         case Some(d) => ReadText(d, After(text, n)))
      case Some((k, o)) =>
        match ReadMulti(TrimStart(text[o..]))
        case None => None
        case Some((v, rest)) =>
          var m := LineEnd(rest);
          if !Finished(rest[..m]) then None
          else
            match AddKey(doc.root, doc.path, k, Str(v))
            case None => None
            case Some(root) => ReadText(Doc(root, doc.path), After(rest, m))
  }

  /** `tomli.load` on this part of the language. */
  function Read(text: string): Option<Tree> {
    match ReadText(Doc(Node(map[]), []), Normal(text))
    case None => None
    case Some(doc) => Some(doc.root)
  }

  // ---------------------------------------------------------------- what is written

  /** The dict as a tree, without the entries the writer passes over. */
  function ToMap(d: seq<Entry>): map<string, Tree> {
    if d == [] then map[]
    else
      match d[0].item
      case Other => ToMap(d[1..])
      case Leaf(v) => ToMap(d[1..])[d[0].key := Val(v)]
      case Table(entries) => ToMap(d[1..])[d[0].key := Node(ToMap(entries))]
  }

  predicate WritableValue(v: Value) {
    match v
    case Str(s) => Plain(s)
    case Float(t) => Json.FloatText(t)
    case _ => true
  }

  /** A dict with distinct bare keys and floats as Python prints them, at every depth. */
  predicate WellKeyed(d: seq<Entry>) {
    && (forall i, j :: 0 <= i < j < |d| ==> d[i].key != d[j].key)
    && (forall e | e in d ::
          && BareKey(e.key)
          && (e.item.Leaf? && e.item.value.Float? ==> Json.FloatText(e.item.value.text))
          && (e.item.Table? ==> WellKeyed(e.item.entries)))
  }

  /** Its string leaves at every depth. */
  predicate AllPlain(d: seq<Entry>) {
    forall e | e in d ::
      && (e.item.Leaf? && e.item.value.Str? ==> Plain(e.item.value.s))
      && (e.item.Table? ==> AllPlain(e.item.entries))
  }

  lemma {:induction false} WritableIff(d: seq<Entry>)
    ensures Writable(d) <==> WellKeyed(d) && AllPlain(d)
  {
    hide Plain, BareKey, Json.FloatText;
    forall e | e in d && e.item.Table?
      ensures Writable(e.item.entries) <==> WellKeyed(e.item.entries) && AllPlain(e.item.entries)
    {
      WritableIff(e.item.entries);
    }
  }

  /** A dict: distinct bare keys, and values that are written faithfully, at every depth. */
  predicate Writable(d: seq<Entry>) {
    && (forall i, j :: 0 <= i < j < |d| ==> d[i].key != d[j].key)
    && (forall e | e in d ::
          && BareKey(e.key)
          && (e.item.Leaf? ==> WritableValue(e.item.value))
          && (e.item.Table? ==> Writable(e.item.entries)))
  }

  // ---------------------------------------------------------------- values are read back

  /** A string was read without escapes exactly when it stands in the text as it is. */
  lemma {:induction false} UnescapedIsPlain(t: string)
    requires ReadBasic(t).Some?
    ensures var (s, rest) := ReadBasic(t).value;
            |s| + 1 + |rest| == |t| ==> Plain(s) && t == s + "\"" + rest
    decreases |t|
  {
    if t[0] == '"' {
      assert t == "" + "\"" + t[1..];
    } else if t[0] != '\\' {
      UnescapedIsPlain(t[1..]);
      assert t == [t[0]] + t[1..];
    }
  }

  lemma {:induction false} PlainIsRead(s: string, rest: string)
    requires Plain(s)
    ensures ReadBasic(s + "\"" + rest) == Some((s, rest))
  {
    var t := s + "\"" + rest;
    if s == "" {
      assert t[1..] == rest;
    } else {
      PlainIsRead(s[1..], rest);
      assert t[1..] == s[1..] + "\"" + rest;
      assert s == [s[0]] + s[1..];
    }
  }

  /** A string leaf is read back unchanged exactly when it has no quote, no backslash and no control
      character but tab. */
  lemma StringLeafSurvives(s: string)
    ensures ReadValue(ValueText(Str(s))) == Some(Str(s)) <==> Plain(s)
  {
    var text := ValueText(Str(s));
    assert text[1..] == s + "\"";
    if Plain(s) {
      PlainIsRead(s, "");
      assert s + "\"" + "" == s + "\"";
      assert |s| > 0 ==> text[1] == s[0];
    } else if ReadValue(text) == Some(Str(s)) {
      UnescapedIsPlain(s + "\"");
    }
  }

  lemma {:induction false} TokenIsWhole(t: string)
    requires forall i :: 0 <= i < |t| ==> !IsTab(t[i]) && t[i] != '#'
    ensures TokenEnd(t) == |t|
  {
    if t != "" {
      TokenIsWhole(t[1..]);
    }
  }

  lemma ValueSurvives(v: Value)
    requires WritableValue(v)
    ensures ReadValue(ValueText(v)) == Some(v)
    ensures ValueText(v) != "" && !IsTab(ValueText(v)[0])
    ensures OneLine(ValueText(v))
  {
    var t := ValueText(v);
    match v {
      case Str(s) =>
        StringLeafSurvives(s);
      case Bool(b) =>
        TokenIsWhole(t);
        assert t[..|t|] == t && t[|t|..] == "";
      case Int(i) =>
        Json.PrintedInt(i);
        NumberSurvives(t, v);
      case Float(_) =>
        NumberSurvives(t, v);
    }
  }

  lemma NumberSurvives(t: string, v: Value)
    requires t != "" && Json.AllNumChars(t) && (Json.IntText(t) || Json.FloatText(t)) && ReadToken(t) == Some(v)
    ensures ReadValue(t) == Some(v) && !IsTab(t[0]) && OneLine(t)
  {
    hide Json.IntText, Json.FloatText, ReadToken;
    assert forall i :: 0 <= i < |t| ==> Json.IsNumChar(t[i]);
    TokenIsWhole(t);
    assert t[..|t|] == t && t[|t|..] == "";
    assert Json.IsNumChar(t[0]);
  }

  // ---------------------------------------------------------------- lines are read back

  lemma {:induction false} BareSpanExact(k: string, rest: string)
    requires (forall i :: 0 <= i < |k| ==> IsBareChar(k[i])) && (rest == "" || !IsBareChar(rest[0]))
    ensures BareSpan(k + rest) == |k|
  {
    if k == "" {
      assert k + rest == rest;
    } else {
      BareSpanExact(k[1..], rest);
      assert (k + rest)[1..] == k[1..] + rest;
    }
  }

  lemma SkipOneTab(c: char, rest: string)
    requires c == ' ' && rest != "" && !IsTab(rest[0])
    ensures SkipTabs([c] + rest) == rest
  {
    assert ([c] + rest)[1..] == rest;
  }

  /** Reading a line of a key and a value is reading the value. */
  lemma KeyValueOf(k: string, x: string)
    requires BareKey(k) && x != "" && !IsTab(x[0])
    ensures var line := k + " = " + x;
            && ReadKeyValue(line) == (match ReadValue(x) case None => None case Some(v) => Some((k, v)))
            && OpensMulti(line) == (if QUOTES <= x then Some((k, |k| + 6)) else None)
            && SkipTabs(line) == line && !Finished(line) && line[0] != '['
  {
    hide ReadValue;
    var line := k + " = " + x;
    var tail := "= " + x;
    assert line == k + ([' '] + tail);
    assert line[0] == k[0] && IsBareChar(k[0]);
    BareSpanExact(k, [' '] + tail);
    assert line[..|k|] == k && line[|k|..] == [' '] + tail;
    SkipOneTab(' ', tail);
    assert tail[1..] == [' '] + x;
    SkipOneTab(' ', x);
  }

  /** A line that is one line and opens no multi-line string. */
  predicate Simple(line: string) {
    OneLine(line) && OpensMulti(line).None?
  }

  predicate AllSimple(lines: seq<string>) {
    forall i :: 0 <= i < |lines| ==> Simple(lines[i])
  }

  lemma LeafLineRead(doc: Doc, k: string, v: Value)
    requires BareKey(k) && WritableValue(v)
    ensures var line := k + " = " + ValueText(v);
            && Simple(line)
            && ReadLine(doc, line) == match AddKey(doc.root, doc.path, k, v)
                                      case None => None
                                      case Some(root) => Some(Doc(root, doc.path))
  {
    hide ValueText, ReadKeyValue, OpensMulti, WritableValue, AddKey, Finished;
    ValueSurvives(v);
    KeyValueOf(k, ValueText(v));
    KeyIsOneLine(k);
  }

  lemma KeyIsOneLine(k: string)
    requires BareKey(k)
    ensures OneLine(k + " = ")
  {
  }

  /** A path as the writer spells it. */
  function Dotted(path: seq<string>): string
    requires path != []
  {
    if |path| == 1 then path[0] else path[0] + "." + Dotted(path[1..])
  }

  predicate BarePath(path: seq<string>) {
    forall i :: 0 <= i < |path| ==> BareKey(path[i])
  }

  lemma {:induction false} DottedSnoc(path: seq<string>, k: string)
    requires path != []
    ensures Dotted(path + [k]) == Dotted(path) + "." + k
  {
    assert (path + [k])[1..] == path[1..] + [k];
    if |path| == 1 {
      assert path[1..] + [k] == [k];
    } else {
      DottedSnoc(path[1..], k);
      assert path[0] + "." + (Dotted(path[1..]) + "." + k) == path[0] + "." + Dotted(path[1..]) + "." + k;
    }
  }

  lemma {:induction false} DottedIsBare(path: seq<string>)
    requires path != [] && BarePath(path)
    ensures Dotted(path) != "" && forall i :: 0 <= i < |Dotted(path)| ==> IsBareChar(Dotted(path)[i]) || Dotted(path)[i] == '.'
  {
    if |path| > 1 {
      DottedIsBare(path[1..]);
    }
  }

  lemma {:induction false} HeaderRead(path: seq<string>)
    requires path != [] && BarePath(path)
    ensures ReadHeader(Dotted(path) + "]") == Some(path)
  {
    var s := Dotted(path) + "]";
    if |path| == 1 {
      BareSpanExact(path[0], "]");
      assert s[..|path[0]|] == path[0] && s[|path[0]| + 1..] == "";
      assert path == [path[0]];
    } else {
      var tail := Dotted(path[1..]) + "]";
      assert s == path[0] + ("." + tail);
      BareSpanExact(path[0], "." + tail);
      assert s[..|path[0]|] == path[0] && s[|path[0]| + 1..] == tail;
      HeaderRead(path[1..]);
      assert path == [path[0]] + path[1..];
    }
  }

  lemma HeaderLineRead(doc: Doc, path: seq<string>)
    requires path != [] && BarePath(path)
    ensures var line := "[" + Dotted(path) + "]";
            && Simple(line)
            && ReadLine(doc, line) == match AddTable(doc.root, path)
                                      case None => None
                                      case Some(root) => Some(Doc(root, path))
  {
    hide ReadHeader, AddTable, Dotted;
    var line := "[" + Dotted(path) + "]";
    HeaderRead(path);
    DottedIsBare(path);
    assert line[1..] == Dotted(path) + "]";
    assert SkipTabs(line) == line;
    forall i | 0 <= i < |line| ensures line[i] != '\n' && line[i] != '\r' {
      if 1 <= i < |line| - 1 {
        assert line[i] == Dotted(path)[i - 1];
      }
    }
  }

  // ---------------------------------------------------------------- documents are read back

  /** The table at a path. */
  function At(t: Tree, path: seq<string>): Option<map<string, Tree>>
    decreases |path|
  {
    if t.Val? then None
    else if path == [] then Some(t.children)
    else if path[0] in t.children then At(t.children[path[0]], path[1..])
    else None
  }

  /** The tree with the table at a path replaced. */
  function With(t: Tree, path: seq<string>, m: map<string, Tree>): Tree
    requires At(t, path).Some?
    decreases |path|
  {
    if path == [] then Node(m) else Node(t.children[path[0] := With(t.children[path[0]], path[1..], m)])
  }

  lemma {:induction false} AtWith(t: Tree, path: seq<string>, m: map<string, Tree>)
    requires At(t, path).Some?
    ensures At(With(t, path, m), path) == Some(m)
    decreases |path|
  {
    if path != [] {
      AtWith(t.children[path[0]], path[1..], m);
    }
  }

  lemma {:induction false} WithWith(t: Tree, path: seq<string>, m: map<string, Tree>, m2: map<string, Tree>)
    requires At(t, path).Some?
    ensures At(With(t, path, m), path).Some? && With(With(t, path, m), path, m2) == With(t, path, m2)
    decreases |path|
  {
    AtWith(t, path, m);
    if path != [] {
      WithWith(t.children[path[0]], path[1..], m, m2);
    }
  }

  lemma {:induction false} AddKeyAt(t: Tree, path: seq<string>, k: string, v: Value)
    requires At(t, path).Some? && k !in At(t, path).value
    ensures AddKey(t, path, k, v) == Some(With(t, path, At(t, path).value[k := Val(v)]))
    decreases |path|
  {
    if path != [] {
      AddKeyAt(t.children[path[0]], path[1..], k, v);
    }
  }

  lemma {:induction false} AddTableAt(t: Tree, path: seq<string>, k: string)
    requires At(t, path).Some? && k !in At(t, path).value
    ensures AddTable(t, path + [k]) == Some(With(t, path, At(t, path).value[k := Node(map[])]))
    decreases |path|
  {
    if path == [] {
      assert path + [k] == [k];
    } else {
      assert (path + [k])[1..] == path[1..] + [k] && (path + [k])[0] == path[0];
      AddTableAt(t.children[path[0]], path[1..], k);
    }
  }

  /** Replacing a table one level down. */
  lemma {:induction false} WithChild(t: Tree, path: seq<string>, k: string, m: map<string, Tree>)
    requires At(t, path).Some? && k in At(t, path).value && At(t, path).value[k].Node?
    ensures At(t, path + [k]) == Some(At(t, path).value[k].children)
    ensures With(t, path + [k], m) == With(t, path, At(t, path).value[k := Node(m)])
    decreases |path|
  {
    if path == [] {
      assert path + [k] == [k] && [k][1..] == [];
    } else {
      assert (path + [k])[1..] == path[1..] + [k] && (path + [k])[0] == path[0];
      WithChild(t.children[path[0]], path[1..], k, m);
    }
  }

  lemma {:induction false} ReadLinesConcat(doc: Doc, a: seq<string>, b: seq<string>)
    requires ReadLines(doc, a).Some?
    ensures ReadLines(doc, a + b) == ReadLines(ReadLines(doc, a).value, b)
    decreases |a|
  {
    hide ReadLine;
    if a == [] {
      assert a + b == b;
    } else {
      assert (a + b)[1..] == a[1..] + b;
      ReadLinesConcat(ReadLine(doc, a[0]).value, a[1..], b);
    }
  }

  function LeafMap(d: seq<Entry>): map<string, Tree> {
    if d == [] then map[]
    else if d[0].item.Leaf? then LeafMap(d[1..])[d[0].key := Val(d[0].item.value)]
    else LeafMap(d[1..])
  }

  function TableMap(d: seq<Entry>): map<string, Tree> {
    if d == [] then map[]
    else if d[0].item.Table? then TableMap(d[1..])[d[0].key := Node(ToMap(d[0].item.entries))]
    else TableMap(d[1..])
  }

  predicate KeyOf(d: seq<Entry>, k: string) {
    exists i :: 0 <= i < |d| && d[i].key == k
  }

  lemma {:induction false} MapKeys(d: seq<Entry>, k: string)
    ensures k in LeafMap(d) || k in TableMap(d) || k in ToMap(d) ==> KeyOf(d, k)
  {
    if d != [] {
      MapKeys(d[1..], k);
      if KeyOf(d[1..], k) {
        var i :| 0 <= i < |d[1..]| && d[1..][i].key == k;
        assert d[i + 1].key == k;
      }
    }
  }

  /** The entries of this level have distinct bare keys and leaves that are written faithfully. */
  predicate LeavesWritable(d: seq<Entry>) {
    && (forall i, j :: 0 <= i < j < |d| ==> d[i].key != d[j].key)
    && (forall e | e in d :: BareKey(e.key) && (e.item.Leaf? ==> WritableValue(e.item.value)))
  }

  lemma LeavesOf(d: seq<Entry>)
    requires Writable(d)
    ensures LeavesWritable(d)
  {
    hide BareKey, WritableValue;
  }

  lemma LeavesTail(d: seq<Entry>)
    requires d != [] && LeavesWritable(d)
    ensures LeavesWritable(d[1..]) && !KeyOf(d[1..], d[0].key) && BareKey(d[0].key)
    ensures d[0].item.Leaf? ==> WritableValue(d[0].item.value)
  {
    hide BareKey, WritableValue;
    assert d[0] in d;
  }

  lemma WritableTail(d: seq<Entry>)
    requires d != [] && Writable(d)
    ensures Writable(d[1..]) && !KeyOf(d[1..], d[0].key)
    ensures BareKey(d[0].key)
  {
    assert d[0] in d;
  }

  /** Leaves first, tables second: the same dict. */
  lemma {:induction false} LeavesThenTables(d: seq<Entry>)
    requires Writable(d)
    ensures ToMap(d) == LeafMap(d) + TableMap(d)
  {
    if d != [] {
      WritableTail(d);
      LeavesThenTables(d[1..]);
      MapKeys(d[1..], d[0].key);
    }
  }

  /** Reading the leaf lines adds the leaves to the current table. */
  lemma {:induction false} LeavesRead(d: seq<Entry>, doc: Doc)
    requires LeavesWritable(d) && At(doc.root, doc.path).Some?
    requires forall k :: KeyOf(d, k) ==> k !in At(doc.root, doc.path).value
    ensures ReadLines(doc, LeafLines(d))
         == Some(Doc(With(doc.root, doc.path, At(doc.root, doc.path).value + LeafMap(d)), doc.path))
    decreases |d|
  {
    hide ReadLine, ValueText, BareKey, WritableValue, AddKey, LeavesWritable, Simple;
    var m := At(doc.root, doc.path).value;
    if d == [] {
      assert m + map[] == m;
      WithSame(doc.root, doc.path);
    } else {
      LeavesTail(d);
      assert forall k :: KeyOf(d[1..], k) ==> KeyOf(d, k) by { TailKeys(d); }
      if d[0].item.Leaf? {
        var (k, v) := (d[0].key, d[0].item.value);
        LeafLineRead(doc, k, v);
        AddKeyAt(doc.root, doc.path, k, v);
        var doc1 := Doc(With(doc.root, doc.path, m[k := Val(v)]), doc.path);
        AtWith(doc.root, doc.path, m[k := Val(v)]);
        LeavesRead(d[1..], doc1);
        WithWith(doc.root, doc.path, m[k := Val(v)], m[k := Val(v)] + LeafMap(d[1..]));
        MapKeys(d[1..], k);
        assert m[k := Val(v)] + LeafMap(d[1..]) == m + LeafMap(d);
        assert LeafLines(d)[1..] == LeafLines(d[1..]);
      } else {
        LeavesRead(d[1..], doc);
        assert LeafLines(d) == LeafLines(d[1..]);
      }
    }
  }

  lemma TailKeys(d: seq<Entry>)
    requires d != []
    ensures forall k :: KeyOf(d[1..], k) ==> KeyOf(d, k)
  {
    forall k | KeyOf(d[1..], k) ensures KeyOf(d, k) {
      var i :| 0 <= i < |d[1..]| && d[1..][i].key == k;
      assert d[i + 1].key == k;
    }
  }

  lemma {:induction false} WithSame(t: Tree, path: seq<string>)
    requires At(t, path).Some?
    ensures With(t, path, At(t, path).value) == t
    decreases |path|
  {
    if path != [] {
      WithSame(t.children[path[0]], path[1..]);
    }
  }

  function Name(path: seq<string>): string {
    if path == [] then "" else Dotted(path)
  }

  lemma NameSnoc(path: seq<string>, k: string)
    requires BarePath(path) && BareKey(k)
    ensures SectionName(Name(path), k) == Name(path + [k]) == Dotted(path + [k])
    ensures BarePath(path + [k])
  {
    if path == [] {
      assert path + [k] == [k];
    } else {
      DottedSnoc(path, k);
      DottedIsBare(path);
    }
  }

  /** The header of a section opens an empty table. */
  lemma SectionOpened(doc: Doc, path: seq<string>, k: string)
    requires BarePath(path) && BareKey(k) && At(doc.root, path).Some? && k !in At(doc.root, path).value
    ensures var header, root := ["", "[" + Dotted(path + [k]) + "]"], With(doc.root, path, At(doc.root, path).value[k := Node(map[])]);
            && ReadLines(doc, header) == Some(Doc(root, path + [k]))
            && At(root, path) == Some(At(doc.root, path).value[k := Node(map[])])
            && At(root, path + [k]) == Some(map[])
  {
    hide AddTable, Dotted, ReadHeader;
    var m := At(doc.root, path).value;
    var header := ["", "[" + Dotted(path + [k]) + "]"];
    NameSnoc(path, k);
    AddTableAt(doc.root, path, k);
    AtWith(doc.root, path, m[k := Node(map[])]);
    WithChild(With(doc.root, path, m[k := Node(map[])]), path, k, map[]);
    HeaderLineRead(doc, path + [k]);
    assert ReadLine(doc, "") == Some(doc);
    var root := With(doc.root, path, m[k := Node(map[])]);
    assert header[1..][0] == "[" + Dotted(path + [k]) + "]" && header[1..][1..] == [];
    assert ReadLines(doc, header) == ReadLines(doc, header[1..]);
    assert ReadLines(Doc(root, path + [k]), []) == Some(Doc(root, path + [k]));
  }

  predicate TablesFresh(d: seq<Entry>, m: map<string, Tree>) {
    forall i :: 0 <= i < |d| && d[i].item.Table? ==> d[i].key !in m
  }

  /** Filling the opened table. */
  lemma SectionFilled(t: Tree, path: seq<string>, k: string, sub: map<string, Tree>)
    requires At(t, path).Some?
    ensures var m := At(t, path).value;
            var withTable := With(t, path, m[k := Node(map[])]);
            && At(withTable, path + [k]).Some?
            && With(withTable, path + [k], sub) == With(t, path, m[k := Node(sub)])
            && At(With(t, path, m[k := Node(sub)]), path) == Some(m[k := Node(sub)])
  {
    var m := At(t, path).value;
    AtWith(t, path, m[k := Node(map[])]);
    WithChild(With(t, path, m[k := Node(map[])]), path, k, sub);
    assert m[k := Node(map[])][k := Node(sub)] == m[k := Node(sub)];
    WithWith(t, path, m[k := Node(map[])], m[k := Node(sub)]);
    AtWith(t, path, m[k := Node(sub)]);
  }

  lemma RestFresh(d: seq<Entry>, m: map<string, Tree>, v: Tree)
    requires d != [] && TablesFresh(d, m) && !KeyOf(d[1..], d[0].key)
    ensures TablesFresh(d[1..], m[d[0].key := v])
    ensures d[0].item.Table? && v == Node(ToMap(d[0].item.entries)) ==> m[d[0].key := v] + TableMap(d[1..]) == m + TableMap(d)
  {
    hide ToMap;
    MapKeys(d[1..], d[0].key);
    assert forall i :: 0 <= i < |d[1..]| ==> d[1..][i] == d[i + 1];
  }

  lemma SectionLinesOf(d: seq<Entry>, path: seq<string>)
    requires d != [] && d[0].item.Table? && BarePath(path) && BareKey(d[0].key)
    ensures SectionLines(d, Name(path))
         == ["", "[" + Dotted(path + [d[0].key]) + "]"] + WriteLines(d[0].item.entries, Name(path + [d[0].key]))
            + SectionLines(d[1..], Name(path))
  {
    hide WriteLines, Dotted, Name, BareKey, SectionName;
    NameSnoc(path, d[0].key);
  }

  /** Reading the sections adds the sub-tables, whatever table was current before. */
  lemma {:induction false} SectionsRead(d: seq<Entry>, path: seq<string>, doc: Doc) returns (end: Doc)
    requires Writable(d) && BarePath(path) && At(doc.root, path).Some? && TablesFresh(d, At(doc.root, path).value)
    ensures ReadLines(doc, SectionLines(d, Name(path))) == Some(end)
    ensures end.root == With(doc.root, path, At(doc.root, path).value + TableMap(d))
    decreases d, 0
  {
    hide Dotted, BareKey, Name, WritableValue, ToMap, With, At, WriteLines, ReadLine;
    var m := At(doc.root, path).value;
    if d == [] {
      assert m + map[] == m;
      WithSame(doc.root, path);
      end := doc;
    } else {
      WritableTail(d);
      if d[0].item.Table? {
        assert d[0] in d;
        var (k, entries) := (d[0].key, d[0].item.entries);
        var inner := Node(ToMap(entries));
        SectionOpened(doc, path, k);
        NameSnoc(path, k);
        var withTable := Doc(With(doc.root, path, m[k := Node(map[])]), path + [k]);
        var filled := TableRead(entries, withTable);
        SectionFilled(doc.root, path, k, ToMap(entries));
        RestFresh(d, m, inner);
        end := SectionsRead(d[1..], path, filled);
        WithWith(doc.root, path, m[k := inner], m + TableMap(d));
        SectionLinesOf(d, path);
        var header, body := ["", "[" + Dotted(path + [k]) + "]"], WriteLines(entries, Name(path + [k]));
        ReadLinesConcat(doc, header, body);
        ReadLinesConcat(doc, header + body, SectionLines(d[1..], Name(path)));
      } else {
        end := SectionsRead(d[1..], path, doc);
        assert SectionLines(d, Name(path)) == SectionLines(d[1..], Name(path));
      }
    }
  }

  /** Reading what was written for a dict into the empty current table makes it that dict. */
  lemma {:induction false} TableRead(d: seq<Entry>, doc: Doc) returns (end: Doc)
    requires Writable(d) && BarePath(doc.path) && At(doc.root, doc.path) == Some(map[])
    ensures ReadLines(doc, WriteLines(d, Name(doc.path))) == Some(end)
    ensures end.root == With(doc.root, doc.path, ToMap(d))
    decreases d, 1
  {
    hide Dotted, BareKey, Name, WritableValue, With, At, LeafLines, SectionLines;
    LeavesOf(d);
    LeavesRead(d, doc);
    assert map[] + LeafMap(d) == LeafMap(d);
    var leaves := Doc(With(doc.root, doc.path, LeafMap(d)), doc.path);
    AtWith(doc.root, doc.path, LeafMap(d));
    WritableIff(d);
    TablesAreFresh(d);
    end := SectionsRead(d, doc.path, leaves);
    LeavesThenTables(d);
    WithWith(doc.root, doc.path, LeafMap(d), ToMap(d));
    ReadLinesConcat(doc, LeafLines(d), SectionLines(d, Name(doc.path)));
  }

  lemma {:induction false} LinesAreSimple(d: seq<Entry>, path: seq<string>)
    requires Writable(d) && BarePath(path)
    ensures AllSimple(WriteLines(d, Name(path)))
    decreases d, 1
  {
    hide Name, BareKey, WritableValue, Simple;
    LeavesOf(d);
    LeavesAreSimple(d);
    SectionsAreSimple(d, path);
  }

  lemma {:induction false} LeavesAreSimple(d: seq<Entry>)
    requires LeavesWritable(d)
    ensures AllSimple(LeafLines(d))
  {
    hide ValueText, BareKey, WritableValue, Simple;
    if d != [] {
      LeavesTail(d);
      LeavesAreSimple(d[1..]);
      if d[0].item.Leaf? {
        LeafLineRead(Doc(Node(map[]), []), d[0].key, d[0].item.value);
      }
    }
  }

  lemma {:induction false} SectionsAreSimple(d: seq<Entry>, path: seq<string>)
    requires Writable(d) && BarePath(path)
    ensures AllSimple(SectionLines(d, Name(path)))
    decreases d, 0
  {
    hide Name, BareKey, WritableValue, Dotted, WriteLines, Simple;
    if d != [] {
      WritableTail(d);
      SectionsAreSimple(d[1..], path);
      if d[0].item.Table? {
        assert d[0] in d;
        NameSnoc(path, d[0].key);
        LinesAreSimple(d[0].item.entries, path + [d[0].key]);
        HeaderLineRead(Doc(Node(map[]), []), path + [d[0].key]);
        SectionLinesOf(d, path);
        EmptyIsSimple();
      }
    }
  }

  lemma EmptyIsSimple()
    ensures Simple("")
  {
  }

  // ---------------------------------------------------------------- texts of several lines

  lemma {:induction false} NormalPrefix(a: string, b: string)
    requires '\r' !in a
    ensures Normal(a + b) == a + Normal(b)
  {
    if a == "" {
      assert a + b == b;
    } else {
      assert (a + b)[1..] == a[1..] + b;
      NormalPrefix(a[1..], b);
      assert a == [a[0]] + a[1..];
      assert [a[0]] + (a[1..] + Normal(b)) == a + Normal(b);
    }
  }

  lemma {:induction false} NormalConcat(a: string, b: string)
    requires b != "" && b[0] != '\n'
    ensures Normal(a + b) == Normal(a) + Normal(b)
  {
    if a == "" {
      assert a + b == b;
    } else if "\r\n" <= a {
      assert (a + b)[2..] == a[2..] + b;
      assert (a + b)[0] == '\r' && (a + b)[1] == '\n';
      NormalConcat(a[2..], b);
      assert "\n" + (Normal(a[2..]) + Normal(b)) == "\n" + Normal(a[2..]) + Normal(b);
    } else {
      assert (a + b)[1..] == a[1..] + b;
      assert |a| > 1 ==> (a + b)[1] == a[1];
      NormalConcat(a[1..], b);
      assert [a[0]] + (Normal(a[1..]) + Normal(b)) == [a[0]] + Normal(a[1..]) + Normal(b);
    }
  }

  lemma {:induction false} UnlinesHasNoReturn(lines: seq<string>)
    requires AllSimple(lines)
    ensures '\r' !in Unlines(lines)
  {
    hide OpensMulti;
    if lines != [] {
      assert Simple(lines[0]);
      UnlinesHasNoReturn(lines[1..]);
    }
  }

  /** Simple lines are read one by one, whatever comes after them. */
  lemma {:induction false} SimpleLinesRead(doc: Doc, lines: seq<string>, rest: string)
    requires AllSimple(lines) && ReadLines(doc, lines).Some?
    ensures ReadText(doc, Unlines(lines) + rest) == ReadText(ReadLines(doc, lines).value, rest)
    decreases |lines|
  {
    hide ReadLine, OpensMulti, Finished, ReadMulti, AddKey;
    if lines == [] {
      assert Unlines(lines) + rest == rest;
    } else {
      var line, more := lines[0], Unlines(lines[1..]) + rest;
      assert Simple(line);
      var text := Unlines(lines) + rest;
      assert text == line + "\n" + more;
      LineEndExact(line, more);
      assert text[..|line|] == line && After(text, |line|) == more;
      SimpleLinesRead(ReadLine(doc, line).value, lines[1..], rest);
    }
  }

  // ---------------------------------------------------------------- strings that are not plain

  function LeafAt(t: Tree, path: seq<string>): Option<Value>
    decreases |path|
  {
    if t.Val? then if path == [] then Some(t.value) else None
    else if path != [] && path[0] in t.children then LeafAt(t.children[path[0]], path[1..])
    else None
  }

  lemma WellKeyedTail(d: seq<Entry>)
    requires d != [] && WellKeyed(d)
    ensures WellKeyed(d[1..]) && !KeyOf(d[1..], d[0].key) && BareKey(d[0].key)
    ensures d[0].item.Table? ==> WellKeyed(d[0].item.entries)
    ensures d[0].item.Leaf? && d[0].item.value.Float? ==> Json.FloatText(d[0].item.value.text)
  {
    assert d[0] in d;
  }

  lemma {:induction false} AddTableStays(t: Tree, p: seq<string>, path: seq<string>)
    requires AddTable(t, p).Some? && LeafAt(t, path).Some?
    ensures LeafAt(AddTable(t, p).value, path) == LeafAt(t, path)
    decreases |p|
  {
    if |p| > 1 && path != [] && path[0] == p[0] {
      AddTableStays(t.children[p[0]], p[1..], path[1..]);
    }
  }

  lemma {:induction false} AddKeyStays(t: Tree, p: seq<string>, k: string, v: Value, path: seq<string>)
    requires AddKey(t, p, k, v).Some? && LeafAt(t, path).Some?
    ensures LeafAt(AddKey(t, p, k, v).value, path) == LeafAt(t, path)
    decreases |p|
  {
    if p != [] && path != [] && path[0] == p[0] {
      AddKeyStays(t.children[p[0]], p[1..], k, v, path[1..]);
    }
  }

  lemma {:induction false} AddKeyPuts(t: Tree, p: seq<string>, k: string, v: Value)
    requires AddKey(t, p, k, v).Some?
    ensures LeafAt(AddKey(t, p, k, v).value, p + [k]) == Some(v)
    decreases |p|
  {
    if p == [] {
      assert p + [k] == [k] && [k][1..] == [];
    } else {
      assert (p + [k])[1..] == p[1..] + [k] && (p + [k])[0] == p[0];
      AddKeyPuts(t.children[p[0]], p[1..], k, v);
    }
  }

  lemma LineStays(doc: Doc, line: string, path: seq<string>)
    requires ReadLine(doc, line).Some? && LeafAt(doc.root, path).Some?
    ensures LeafAt(ReadLine(doc, line).value.root, path) == LeafAt(doc.root, path)
  {
    hide ReadKeyValue, ReadHeader, AddTable, AddKey, LeafAt;
    var s := SkipTabs(line);
    if !Finished(line) {
      if s[0] == '[' {
        AddTableStays(doc.root, ReadHeader(s[1..]).value, path);
      } else {
        var (k, v) := ReadKeyValue(s).value;
        AddKeyStays(doc.root, doc.path, k, v, path);
      }
    }
  }

  /** A leaf that was read is never changed by what is read later. */
  lemma {:induction false} LeafStays(doc: Doc, text: string, path: seq<string>)
    requires ReadText(doc, text).Some? && LeafAt(doc.root, path).Some?
    ensures LeafAt(ReadText(doc, text).value.root, path) == LeafAt(doc.root, path)
    decreases |text|
  {
    hide ReadLine, OpensMulti, Finished, ReadMulti, AddKey, LeafAt, LineEnd;
    if text != "" {
      var n := LineEnd(text);
      if OpensMulti(text[..n]).None? {
        LineStays(doc, text[..n], path);
        LeafStays(ReadLine(doc, text[..n]).value, After(text, n), path);
      } else {
        var (k, o) := OpensMulti(text[..n]).value;
        var (v, rest) := ReadMulti(TrimStart(text[o..])).value;
        var root := AddKey(doc.root, doc.path, k, Str(v)).value;
        AddKeyStays(doc.root, doc.path, k, Str(v), path);
        LeafStays(Doc(root, doc.path), After(rest, LineEnd(rest)), path);
      }
    }
  }

  lemma PlainCons(c: char, s: string)
    ensures Plain([c] + s) <==> IsPlain(c) && Plain(s)
  {
    assert ([c] + s)[0] == c;
    assert forall i :: 0 <= i < |s| ==> ([c] + s)[i + 1] == s[i];
  }

  /** The text a string was read from: as long as the string and plain, or longer and with an escape. */
  lemma {:induction false} RawText(t: string) returns (raw: string)
    requires ReadBasic(t).Some?
    ensures t == raw + "\"" + ReadBasic(t).value.1
    ensures var s := ReadBasic(t).value.0; Plain(s) || ('\\' in raw && |raw| > |s|)
    ensures |raw| >= |ReadBasic(t).value.0|
    decreases |t|
  {
    hide ReadEscape, Plain, IsPlain;
    var (s, rest) := ReadBasic(t).value;
    if t[0] == '"' {
      raw := "";
      EmptyIsPlain();
      assert t == "" + "\"" + t[1..];
    } else {
      var n := if t[0] == '\\' then ReadEscape(t).value.1 else 1;
      var tail := RawText(t[n..]);
      raw := t[..n] + tail;
      assert t == t[..n] + t[n..];
      assert t[..n] + (tail + "\"" + rest) == raw + "\"" + rest;
      assert raw[0] == t[0];
      PlainCons(t[0], ReadBasic(t[n..]).value.0);
      if '\\' in tail {
        var i :| 0 <= i < |tail| && tail[i] == '\\';
        assert raw[n + i] == '\\';
      }
    }
  }

  lemma EmptyIsPlain()
    ensures Plain("")
  {
  }

  /** A character that stands for itself in every kind of string, and is no quote. */
  predicate Literal(c: char) {
    c == '\n' || IsBareChar(c)
  }

  /** How the text after a written line begins: with a key, an empty line, or not at all. */
  predicate HeadOk(more: string) {
    more == "" || Literal(more[0])
  }

  /** A string that is not plain is not read as a one-line string from its own text: the reader would have
      to go on past the end of the line. */
  lemma BasicNotSame(s: string, more: string)
    requires !Plain(s)
    ensures var y := Normal(s) + "\"\n" + more;
            var r := ReadBasic(y[..LineEnd(y)]);
            r.Some? ==> r.value.0 != s
  {
    hide ReadBasic, Plain;
    var y := Normal(s) + "\"\n" + more;
    var z := y[..LineEnd(y)];
    NormalShorter(s);
    assert y[|Normal(s)| + 1] == '\n';
    assert |z| <= |Normal(s)| + 1;
    if ReadBasic(z).Some? && ReadBasic(z).value.0 == s {
      var raw := RawText(z);
      assert false;
    }
  }

  lemma {:induction false} NormalShorter(s: string)
    ensures |Normal(s)| <= |s|
  {
    if s != "" {
      NormalShorter(if "\r\n" <= s then s[2..] else s[1..]);
    }
  }

  /** A quote, a line end and the character c, from position p. */
  predicate Mark(w: string, p: int, c: char) {
    0 <= p < |w| - 2 && w[p] == '"' && w[p + 1] == '\n' && w[p + 2] == c
  }

  lemma EscapedQuote(t: string, i: nat)
    requires t != "" && t[0] == '\\' && ReadEscape(t).Some? && 1 <= i < ReadEscape(t).value.1 && t[i] == '"'
    ensures i == 1 && ReadEscape(t) == Some(('"', 2))
  {
    if t[1] == 'u' || t[1] == 'U' {
      HexRun(t);
    }
  }

  lemma HexRun(t: string)
    requires |t| > 1 && t[0] == '\\' && ReadEscape(t).Some? && (t[1] == 'u' || t[1] == 'U')
    ensures forall i :: 1 <= i < ReadEscape(t).value.1 ==> t[i] != '"'
  {
    hide Json.ReadHex4;
    HexHasNoQuote(t[2..]);
    assert forall i :: 2 <= i < |t| ==> t[i] == t[2..][i - 2];
    if t[1] == 'U' {
      HexHasNoQuote(t[2..][4..]);
      assert forall i :: 6 <= i < |t| ==> t[i] == t[2..][4..][i - 6];
    }
  }

  lemma HexHasNoQuote(s: string)
    ensures |s| >= 4 && Json.ReadHex4(s).Some? ==> forall i :: 0 <= i < 4 ==> s[i] != '"'
  {
    if |s| >= 4 && Json.ReadHex4(s).Some? {
      assert s[2..][0] == s[2] && s[2..][1] == s[3];
    }
  }

  lemma LiteralIs(c: char)
    requires Literal(c)
    ensures c != '"' && c != '\\' && c != '\r' && (c == '\n' || IsPlain(c))
  {
  }

  /** A character that stands for itself, at the head of the rest of a string. */
  lemma OneLiteral(t: string)
    requires t != "" && Literal(t[0]) && ReadMulti(t).Some?
    ensures ReadMulti(t[1..]).Some? && ReadMulti(t).value.0 == [t[0]] + ReadMulti(t[1..]).value.0
  {
    LiteralIs(t[0]);
  }

  /** What an item with the quote of a mark in it stands for is that quote, and the mark goes on behind it. */
  lemma MarkedItem(t: string, q: nat, c: char)
    requires Mark(t, q, c) && FirstItem(t).Some? && q < FirstItem(t).value.1
    ensures FirstItem(t).value == ("\"", q + 1)
  {
    hide ReadEscape, WhiteSpan, TabSpan;
    assert forall i :: 1 <= i < |t| ==> t[i] == t[1..][i - 1];
    if t[0] == '\\' && Continuation(t).None? {
      EscapedQuote(t, q);
    }
  }

  /** A mark inside a multi-line string comes out of it, no later than it went in. */
  lemma {:induction false} MarkComesOut(t: string, q: nat, c: char) returns (p: nat)
    requires ReadMulti(t).Some? && Mark(t, q, c) && Literal(c) && |ReadMulti(t).value.1| + q + 2 <= |t|
    ensures p <= q && Mark(ReadMulti(t).value.0, p, c)
    decreases |t|
  {
    hide FirstItem, Literal;
    NotClosing(t, q, c);
    var (out, n) := FirstItem(t).value;
    if q < n {
      MarkedItem(t, q, c);
      LiteralsFollow(t[n..], c);
      p := 0;
    } else {
      var p' := MarkComesOut(t[n..], q - n, c);
      p := p' + |out|;
    }
  }

  lemma LiteralsFollow(t: string, c: char)
    requires |t| >= 2 && t[0] == '\n' && t[1] == c && Literal(c) && ReadMulti(t).Some?
    ensures var v := ReadMulti(t).value.0; |v| >= 2 && v[0] == '\n' && v[1] == c
  {
    hide ReadMulti, Literal;
    NewlineIsLiteral();
    OneLiteral(t);
    OneLiteral(t[1..]);
  }

  lemma NewlineIsLiteral()
    ensures Literal('\n')
  {
  }

  /** The closing quotes do not come before the end of a mark that is read. */
  lemma NotClosing(t: string, q: nat, c: char)
    requires ReadMulti(t).Some? && Mark(t, q, c) && |ReadMulti(t).value.1| + q + 2 <= |t|
    ensures !(QUOTES <= t) && t != "" && FirstItem(t).Some?
  {
    hide FirstItem;
    assert QUOTES[0] == '"' && QUOTES[1] == '"' && QUOTES[2] == '"';
  }

  /** Normal line ends move a mark to the front, if at all. */
  lemma {:induction false} MarkNormal(s: string, p: nat, c: char) returns (q: nat)
    requires Mark(s, p, c) && Literal(c)
    ensures q <= p && Mark(Normal(s), q, c)
  {
    LiteralIs(c);
    if "\r\n" <= s {
      var q' := MarkNormal(s[2..], p - 2, c);
      q := q' + 1;
    } else if p > 0 {
      var q' := MarkNormal(s[1..], p - 1, c);
      q := q' + 1;
    } else {
      q := 0;
      assert s[1..][0] == '\n' && s[1..][1..] == s[2..] && s[2..][0] == c;
      NormalFirst(s[2..]);
    }
  }

  lemma NormalFirst(s: string)
    requires s != "" && s[0] != '\r'
    ensures Normal(s) != "" && Normal(s)[0] == s[0]
  {
  }

  /** A string that begins with two quotes is not read as a multi-line string from its own text.  The
      quote that ends its text, the line end and what follows would have to come out of it somewhere, so
      they stand in the string; but from there they would come out two places earlier, and so on. */
  lemma {:induction false} MultiNotSame(s: string, more: string, c: char, p: nat)
    requires more != "" && c == more[0] && Literal(c) && |Normal(s)| >= 2 && Normal(s)[0] == '"' && Normal(s)[1] == '"'
    requires Mark(s, p, c)
    ensures var r := ReadMulti(TrimStart(Normal(s)[2..] + "\"\n" + more)); r.Some? ==> r.value.0 != s
    decreases p
  {
    hide ReadMulti, Normal, Literal;
    LiteralIs(c);
    var n, t := Normal(s), Normal(s)[2..] + "\"\n" + more;
    var r := ReadMulti(TrimStart(t));
    if r.Some? && r.value.0 == s {
      var q := MarkNormal(s, p, c);
      NormalShorter(s);
      NormalQuote(s);
      if q == 1 {
        assert t[0] == '\n' && t[1] == c;
        assert TrimStart(t)[0] == c;
        OneLiteral(TrimStart(t));
        assert false;
      }
      MarkInContent(n, more, q, c);
      var cut := |t| - |TrimStart(t)|;
      assert TrimStart(t)[q - 2 - cut..] == t[q - 2..];
      var p' := MarkComesOut(TrimStart(t), q - 2 - cut, c);
      MultiNotSame(s, more, c, p');
    }
  }

  lemma NormalQuote(s: string)
    requires Normal(s) != "" && Normal(s)[0] == '"'
    ensures s != "" && s[0] == '"'
  {
  }

  lemma MarkInContent(n: string, more: string, q: nat, c: char)
    requires Mark(n, q, c) && q >= 2
    ensures var t := n[2..] + "\"\n" + more; Mark(t, q - 2, c) && (t[0] == '\n' ==> q > 2)
  {
  }

  /** Nor is any such string: the mark at the end of its text would come out of it. */
  lemma MultiNotRead(s: string, more: string)
    requires HeadOk(more) && |Normal(s)| >= 2 && Normal(s)[0] == '"' && Normal(s)[1] == '"'
    ensures var r := ReadMulti(TrimStart(Normal(s)[2..] + "\"\n" + more)); r.Some? ==> r.value.0 != s
  {
    hide ReadMulti, Normal, Literal;
    var n, t := Normal(s), Normal(s)[2..] + "\"\n" + more;
    var r := ReadMulti(TrimStart(t));
    if r.Some? && r.value.0 == s {
      NormalShorter(s);
      var cut := |t| - |TrimStart(t)|;
      assert TrimStart(t) == t[cut..];
      assert Mark(t, |n| - 2, more[0]);
      assert cut > 0 ==> |n| > 2;
      var p := MarkComesOut(TrimStart(t), |n| - 2 - cut, more[0]);
      MultiNotSame(s, more, more[0], p);
    }
  }

  /** Nor is the string of one quote. */
  lemma QuoteNotRead(s: string, more: string)
    requires HeadOk(more) && Normal(s) == "\""
    ensures ReadMulti(more).Some? ==> ReadMulti(more).value.0 != s
  {
    hide ReadMulti, Literal;
    NormalQuote(s);
    if ReadMulti(more).Some? {
      NothingMulti();
      OneLiteral(more);
      LiteralIs(more[0]);
    }
  }

  lemma NothingMulti()
    ensures ReadMulti("") == None
  {
  }

  lemma {:induction false} LineEndSkips(a: string, b: string)
    requires '\n' !in a
    ensures LineEnd(a + b) == |a| + LineEnd(b)
  {
    if a == "" {
      assert a + b == b;
    } else {
      assert (a + b)[1..] == a[1..] + b;
      LineEndSkips(a[1..], b);
    }
  }

  /** Whatever comes after the text of a key and a string that is not plain, the document does not give
      that key that string. */
  lemma NotReadBack(doc: Doc, k: string, s: string, more: string)
    requires BareKey(k) && !Plain(s) && HeadOk(more)
    ensures var end := ReadText(doc, k + " = \"" + Normal(s) + "\"\n" + more);
            end.Some? ==> LeafAt(end.value.root, doc.path + [k]) != Some(Str(s))
  {
    hide ReadMulti, Normal, Plain, LeafAt, AddKey, Finished, ReadKeyValue, OpensMulti, ReadText, ReadValue, BareKey;
    var y := Normal(s) + "\"\n" + more;
    var text := k + " = \"" + Normal(s) + "\"\n" + more;
    var x := "\"" + y[..LineEnd(y)];
    var line := k + " = " + x;
    assert text == k + " = \"" + y;
    KeyIsOneLine(k);
    LineEndSkips(k + " = \"", y);
    assert text[..LineEnd(text)] == line;
    KeyValueOf(k, x);
    var end := ReadText(doc, text);
    if end.Some? {
      TextStep(doc, text);
      if QUOTES <= x {
        assert text[|k| + 6..] == y[2..];
        MultiValue(s, more);
        var (v, rest) := ReadMulti(TrimStart(y[2..])).value;
        AddKeyPuts(doc.root, doc.path, k, Str(v));
        LeafStays(Doc(AddKey(doc.root, doc.path, k, Str(v)).value, doc.path), After(rest, LineEnd(rest)), doc.path + [k]);
      } else {
        BasicValue(s, more);
        var v := ReadValue(x).value;
        AddKeyPuts(doc.root, doc.path, k, v);
        LeafStays(Doc(AddKey(doc.root, doc.path, k, v).value, doc.path), After(text, LineEnd(text)), doc.path + [k]);
      }
    }
  }

  /** One step of reading a text. */
  lemma TextStep(doc: Doc, text: string)
    requires text != "" && ReadText(doc, text).Some?
    ensures var n, multi := LineEnd(text), OpensMulti(text[..LineEnd(text)]);
            multi.None? ==>
              && ReadLine(doc, text[..n]).Some?
              && ReadText(doc, text) == ReadText(ReadLine(doc, text[..n]).value, After(text, n))
    ensures var multi := OpensMulti(text[..LineEnd(text)]);
            multi.Some? ==>
              var m := ReadMulti(TrimStart(text[multi.value.1..]));
              && m.Some?
              && var root := AddKey(doc.root, doc.path, multi.value.0, Str(m.value.0));
                 && root.Some?
                 && ReadText(doc, text) == ReadText(Doc(root.value, doc.path), After(m.value.1, LineEnd(m.value.1)))
  {
    hide ReadLine, OpensMulti, Finished, ReadMulti, AddKey;
  }

  lemma MultiValue(s: string, more: string)
    requires HeadOk(more)
    ensures var y := Normal(s) + "\"\n" + more;
            QUOTES <= "\"" + y[..LineEnd(y)] ==>
              && |y| >= 2 && (ReadMulti(TrimStart(y[2..])).Some? ==> ReadMulti(TrimStart(y[2..])).value.0 != s)
  {
    hide ReadMulti, Normal, Literal;
    var y := Normal(s) + "\"\n" + more;
    var x := "\"" + y[..LineEnd(y)];
    if QUOTES <= x {
      assert x[1] == y[0] && x[2] == y[1];
      if |Normal(s)| >= 2 {
        assert y[2..] == Normal(s)[2..] + "\"\n" + more;
        MultiNotRead(s, more);
      } else {
        assert Normal(s) == "\"";
        assert TrimStart(y[2..]) == more;
        QuoteNotRead(s, more);
      }
    }
  }

  lemma BasicValue(s: string, more: string)
    requires !Plain(s)
    ensures var y := Normal(s) + "\"\n" + more;
            ReadValue("\"" + y[..LineEnd(y)]) != Some(Str(s))
  {
    hide ReadBasic, Normal, Plain, Finished, ReadToken;
    var y := Normal(s) + "\"\n" + more;
    assert ("\"" + y[..LineEnd(y)])[1..] == y[..LineEnd(y)];
    BasicNotSame(s, more);
  }

  // ---------------------------------------------------------------- the first string that is not plain

  /** Where the first string leaf that is not plain stands in what is written: the lines before it, the
      document after them, the table relative to some table, the key, the string, and the lines after. */
  datatype Bad = Bad(before: seq<string>, doc: Doc, rel: seq<string>, key: string, s: string, after: seq<string>)

  predicate LinesHeadOk(lines: seq<string>) {
    lines == [] || lines[0] == "" || IsBareChar(lines[0][0])
  }

  predicate IsBad(start: Doc, base: seq<string>, lines: seq<string>, b: Bad) {
    && lines == b.before + [b.key + " = " + ValueText(Str(b.s))] + b.after
    && AllSimple(b.before) && LinesHeadOk(b.after)
    && ReadLines(start, b.before) == Some(b.doc) && b.doc.path == base + b.rel
    && BareKey(b.key) && !Plain(b.s)
  }

  /** The string leaves of this level, and those of its tables. */
  predicate LeavesPlain(d: seq<Entry>) {
    forall e | e in d :: e.item.Leaf? && e.item.value.Str? ==> Plain(e.item.value.s)
  }

  predicate TablesPlain(d: seq<Entry>) {
    forall e | e in d :: e.item.Table? ==> AllPlain(e.item.entries)
  }

  lemma PlainParts(d: seq<Entry>)
    ensures AllPlain(d) <==> LeavesPlain(d) && TablesPlain(d)
  {
    hide Plain;
  }

  lemma PlainTail(d: seq<Entry>)
    requires d != []
    ensures LeavesPlain(d) <==> LeavesPlain(d[1..]) && (d[0].item.Leaf? && d[0].item.value.Str? ==> Plain(d[0].item.value.s))
    ensures TablesPlain(d) <==> TablesPlain(d[1..]) && (d[0].item.Table? ==> AllPlain(d[0].item.entries))
  {
    hide Plain, AllPlain;
    assert forall e :: e in d <==> e == d[0] || e in d[1..];
  }

  lemma LeavesHead(d: seq<Entry>)
    requires WellKeyed(d)
    ensures LinesHeadOk(LeafLines(d))
  {
    hide ValueText;
    if d != [] {
      assert d[0] in d;
      WellKeyedTail(d);
      LeavesHead(d[1..]);
    }
  }

  lemma SectionsHead(d: seq<Entry>, prefix: string)
    ensures LinesHeadOk(SectionLines(d, prefix))
  {
    hide WriteLines, SectionName;
    if d != [] {
      SectionsHead(d[1..], prefix);
    }
  }

  /** Lines before and after. */
  lemma BadWithin(start: Doc, doc: Doc, base: seq<string>, lines: seq<string>, b: Bad, front: seq<string>, back: seq<string>) returns (b': Bad)
    requires IsBad(doc, base, lines, b) && AllSimple(front) && LinesHeadOk(back) && ReadLines(start, front) == Some(doc)
    ensures b' == b.(before := front + b.before, after := b.after + back) && IsBad(start, base, front + lines + back, b')
  {
    hide Simple, ValueText, ReadLine, Plain, BareKey;
    ReadLinesConcat(start, front, b.before);
    b' := b.(before := front + b.before, after := b.after + back);
    var line := [b.key + " = " + ValueText(Str(b.s))];
    assert front + (b.before + line + b.after) + back == front + b.before + line + (b.after + back);
  }

  /** A string leaf of this level that is not plain. */
  lemma {:induction false} BadLeaf(d: seq<Entry>, doc: Doc) returns (b: Bad)
    requires WellKeyed(d) && !LeavesPlain(d) && At(doc.root, doc.path).Some?
    requires forall k :: KeyOf(d, k) ==> k !in At(doc.root, doc.path).value
    ensures IsBad(doc, doc.path, LeafLines(d), b) && b.rel == []
    ensures KeyOf(d, b.key) && b.key in ToMap(d) && ToMap(d)[b.key] == Val(Str(b.s))
    decreases |d|
  {
    hide ReadLine, ValueText, BareKey, Plain, AddKey, WellKeyed, Simple, LeavesPlain, TablesPlain, AllPlain, At, With, IsBareChar, Json.FloatText;
    NothingPlain();
    WellKeyedTail(d);
    PlainTail(d);
    TailKeys(d);
    HeadKey(d);
    if d[0].item.Leaf? && d[0].item.value.Str? && !Plain(d[0].item.value.s) {
      LeavesHead(d[1..]);
      b := Bad([], doc, [], d[0].key, d[0].item.value.s, LeafLines(d[1..]));
      assert doc.path + [] == doc.path;
    } else {
      var doc1, front := doc, [];
      if d[0].item.Leaf? {
        var (k, v) := (d[0].key, d[0].item.value);
        WritableIs(v);
        LeafLineRead(doc, k, v);
        AddKeyAt(doc.root, doc.path, k, v);
        doc1 := Doc(With(doc.root, doc.path, At(doc.root, doc.path).value[k := Val(v)]), doc.path);
        AtWith(doc.root, doc.path, At(doc.root, doc.path).value[k := Val(v)]);
        front := [k + " = " + ValueText(v)];
        assert ReadLines(doc1, front[1..]) == Some(doc1);
      }
      var b1 := BadLeaf(d[1..], doc1);
      b := BadWithin(doc, doc1, doc.path, LeafLines(d[1..]), b1, front, []);
      assert LeafLines(d) == front + LeafLines(d[1..]) + [];
    }
  }

  lemma WritableIs(v: Value)
    requires (v.Str? ==> Plain(v.s)) && (v.Float? ==> Json.FloatText(v.text))
    ensures WritableValue(v)
  {
  }

  lemma NothingPlain()
    ensures LeavesPlain([]) && TablesPlain([])
  {
  }

  lemma HeadKey(d: seq<Entry>)
    requires d != []
    ensures KeyOf(d, d[0].key)
  {
  }

  /** A table, at any depth, with such a leaf. */
  lemma {:induction false} BadSection(d: seq<Entry>, path: seq<string>, doc: Doc) returns (b: Bad)
    requires WellKeyed(d) && !TablesPlain(d) && BarePath(path) && At(doc.root, path).Some?
    requires TablesFresh(d, At(doc.root, path).value)
    ensures IsBad(doc, path, SectionLines(d, Name(path)), b) && b.rel != [] && KeyOf(d, b.rel[0])
    ensures LeafAt(Node(ToMap(d)), b.rel + [b.key]) == Some(Str(b.s))
    decreases d, 0
  {
    hide Dotted, BareKey, Name, Plain, With, At, WriteLines, ReadLine, ValueText, Simple, WellKeyed, AllPlain, TablesPlain,
      LeavesPlain, IsBad, ReadLines, BarePath, TablesFresh, Json.FloatText, SectionName;
    NothingPlain();
    WellKeyedTail(d);
    PlainTail(d);
    TailKeys(d);
    HeadKey(d);
    var m := At(doc.root, path).value;
    if !d[0].item.Table? {
      FreshTail(d, m);
      b := BadSection(d[1..], path, doc);
      NoSection(d, path);
      LeafElsewhere(d, b.rel + [b.key]);
    } else {
      var (k, entries) := (d[0].key, d[0].item.entries);
      FreshHead(d, m);
      SectionOpened(doc, path, k);
      NameSnoc(path, k);
      SectionLinesOf(d, path);
      HeaderSimple(path + [k]);
      var withTable := Doc(With(doc.root, path, m[k := Node(map[])]), path + [k]);
      var header, body := ["", "[" + Dotted(path + [k]) + "]"], WriteLines(entries, Name(path + [k]));
      var more := SectionLines(d[1..], Name(path));
      if !AllPlain(entries) {
        var b1 := BadTable(entries, withTable);
        SectionsHead(d[1..], Name(path));
        var b2 := BadWithin(doc, withTable, path + [k], body, b1, header, more);
        b := b2.(rel := [k] + b2.rel);
        Deeper(doc, path, k, header + body + more, b2);
        DeeperLeaf(d, b2.rel, b2.key, b2.s);
      } else {
        WritableIff(entries);
        LinesAreSimple(entries, path + [k]);
        var filled := TableRead(entries, withTable);
        SectionFilled(doc.root, path, k, ToMap(entries));
        RestFresh(d, m, Node(ToMap(entries)));
        ReadLinesConcat(doc, header, body);
        var b1 := BadSection(d[1..], path, filled);
        b := BadWithin(doc, filled, path, more, b1, header + body, []);
        assert header + body + more + [] == SectionLines(d, Name(path));
        LeafElsewhere(d, b.rel + [b.key]);
      }
    }
  }

  lemma HeaderSimple(path: seq<string>)
    requires path != [] && BarePath(path)
    ensures AllSimple(["", "[" + Dotted(path) + "]"])
  {
    hide Simple, ReadLine, Dotted;
    EmptyIsSimple();
    HeaderLineRead(Doc(Node(map[]), []), path);
  }

  lemma NoSection(d: seq<Entry>, path: seq<string>)
    requires d != [] && !d[0].item.Table?
    ensures SectionLines(d, Name(path)) == SectionLines(d[1..], Name(path))
  {
    hide Name, WriteLines;
  }

  lemma FreshTail(d: seq<Entry>, m: map<string, Tree>)
    requires d != [] && TablesFresh(d, m)
    ensures TablesFresh(d[1..], m)
  {
    assert forall i :: 0 <= i < |d[1..]| ==> d[1..][i] == d[i + 1];
  }

  lemma FreshHead(d: seq<Entry>, m: map<string, Tree>)
    requires d != [] && TablesFresh(d, m)
    ensures d[0].item.Table? ==> d[0].key !in m
  {
  }

  /** A leaf of the other entries is a leaf of all. */
  lemma LeafElsewhere(d: seq<Entry>, path: seq<string>)
    requires d != [] && !KeyOf(d[1..], d[0].key) && LeafAt(Node(ToMap(d[1..])), path).Some?
    ensures LeafAt(Node(ToMap(d)), path) == LeafAt(Node(ToMap(d[1..])), path)
  {
    MapKeys(d[1..], d[0].key);
  }

  lemma Deeper(doc: Doc, path: seq<string>, k: string, lines: seq<string>, b: Bad)
    requires IsBad(doc, path + [k], lines, b)
    ensures IsBad(doc, path, lines, b.(rel := [k] + b.rel))
  {
    hide Simple, ValueText, ReadLines, Plain, BareKey, LinesHeadOk;
    assert path + [k] + b.rel == path + ([k] + b.rel);
  }

  lemma DeeperLeaf(d: seq<Entry>, rel: seq<string>, key: string, s: string)
    requires d != [] && d[0].item.Table? && LeafAt(Node(ToMap(d[0].item.entries)), rel + [key]) == Some(Str(s))
    ensures LeafAt(Node(ToMap(d)), [d[0].key] + rel + [key]) == Some(Str(s))
  {
    assert ([d[0].key] + rel + [key])[1..] == rel + [key];
  }

  /** Such a leaf anywhere in a table that is written into the empty current one. */
  lemma {:induction false} BadTable(d: seq<Entry>, doc: Doc) returns (b: Bad)
    requires WellKeyed(d) && !AllPlain(d) && BarePath(doc.path) && At(doc.root, doc.path) == Some(map[])
    ensures IsBad(doc, doc.path, WriteLines(d, Name(doc.path)), b)
    ensures LeafAt(Node(ToMap(d)), b.rel + [b.key]) == Some(Str(b.s))
    decreases d, 1
  {
    hide Dotted, BareKey, Name, Plain, With, At, LeafLines, SectionLines, ReadLine, ValueText, Simple, WellKeyed, AllPlain,
      TablesPlain, LeavesPlain, IsBad, ReadLines, BarePath, TablesFresh, LeavesWritable, Json.FloatText;
    PlainParts(d);
    var sections := SectionLines(d, Name(doc.path));
    if !LeavesPlain(d) {
      var b1 := BadLeaf(d, doc);
      SectionsHead(d, Name(doc.path));
      NoLines(doc);
      b := BadWithin(doc, doc, doc.path, LeafLines(d), b1, [], sections);
      assert [] + LeafLines(d) + sections == WriteLines(d, Name(doc.path));
      assert [] + [b.key] == [b.key] && [b.key][1..] == [];
    } else {
      LeavesAreWritable(d);
      LeavesRead(d, doc);
      assert map[] + LeafMap(d) == LeafMap(d);
      LeavesAreSimple(d);
      AtWith(doc.root, doc.path, LeafMap(d));
      TablesAreFresh(d);
      var leaves := Doc(With(doc.root, doc.path, LeafMap(d)), doc.path);
      var b1 := BadSection(d, doc.path, leaves);
      b := BadWithin(doc, leaves, doc.path, sections, b1, LeafLines(d), []);
      assert LeafLines(d) + sections + [] == WriteLines(d, Name(doc.path));
    }
  }

  lemma NoLines(doc: Doc)
    ensures ReadLines(doc, []) == Some(doc) && AllSimple([]) && LinesHeadOk([])
  {
  }

  lemma LeavesAreWritable(d: seq<Entry>)
    requires WellKeyed(d) && LeavesPlain(d)
    ensures LeavesWritable(d)
  {
    hide BareKey, Plain, Json.FloatText;
  }

  lemma TablesAreFresh(d: seq<Entry>)
    requires WellKeyed(d)
    ensures TablesFresh(d, LeafMap(d))
  {
    hide BareKey, Json.FloatText;
    if d != [] {
      WellKeyedTail(d);
      TablesAreFresh(d[1..]);
      MapKeys(d[1..], d[0].key);
      forall i | 0 <= i < |d| && d[i].item.Table? ensures d[i].key !in LeafMap(d) {
        if i > 0 {
          assert d[i] == d[1..][i - 1];
        }
      }
    }
  }

  /** The text from the first string leaf that is not plain on, with normal line ends. */
  lemma BadText(b: Bad)
    requires AllSimple(b.before) && BareKey(b.key) && LinesHeadOk(b.after)
    ensures var lines := b.before + [b.key + " = " + ValueText(Str(b.s))] + b.after;
            Normal(Unlines(lines))
            == Unlines(b.before) + (b.key + " = \"" + Normal(b.s) + "\"\n" + Normal(Unlines(b.after)))
    ensures HeadOk(Normal(Unlines(b.after)))
  {
    hide Normal, AllSimple, Unlines, BareKey, HeadOk, LinesHeadOk;
    var line, more := b.key + " = " + ValueText(Str(b.s)), Unlines(b.after);
    UnlinesConcat(b.before + [line], b.after);
    UnlinesSnoc(b.before, line);
    UnlinesHasNoReturn(b.before);
    LeafText(b.key, b.s, more);
    Grouped(Unlines(b.before), line, more);
    NormalPrefix(Unlines(b.before), line + "\n" + more);
    NormalLeaf(b.key, b.s, more);
    NormalHead(b.after);
  }

  lemma Grouped(a: string, line: string, more: string)
    ensures a + line + "\n" + more == a + (line + "\n" + more)
  {
  }

  lemma LeafText(k: string, s: string, more: string)
    ensures k + " = " + ValueText(Str(s)) + "\n" + more == k + " = \"" + (s + ("\"\n" + more))
  {
    assert " = " + ("\"" + s) == " = \"" + s;
    assert k + " = " + ("\"" + s + "\"") == k + " = \"" + s + "\"";
    assert "\"" + "\n" + more == "\"\n" + more;
  }

  lemma NormalLeaf(k: string, s: string, more: string)
    requires BareKey(k)
    ensures Normal(k + " = \"" + (s + ("\"\n" + more))) == k + " = \"" + Normal(s) + "\"\n" + Normal(more)
  {
    hide Normal;
    KeyIsOneLine(k);
    NormalPrefix(k + " = \"", s + ("\"\n" + more));
    NormalConcat(s, "\"\n" + more);
    NormalPrefix("\"\n", more);
  }

  lemma NormalHead(lines: seq<string>)
    requires LinesHeadOk(lines)
    ensures HeadOk(Normal(Unlines(lines)))
  {
    if lines != [] {
      NormalFirst(Unlines(lines));
    }
  }

  /** Round trip: reading the text `write_config` falls back to writing rebuilds the dict, at any depth,
      empty tables included, exactly when every string leaf is free of quotes, backslashes and control
      characters but tab.  One direction is that such strings are read back; the other is that the first
      one that is not is read as something else, or not at all. */
  lemma WriteRead(d: seq<Entry>)
    requires WellKeyed(d)
    ensures Read(Unlines(WriteLines(d, ""))) == Some(Node(ToMap(d))) <==> AllPlain(d)
  {
    hide WriteLines, ReadLines, Writable, ToMap, LeafAt, WellKeyed, AllPlain, Normal, ReadText, AllSimple, BareKey, Plain, LinesHeadOk, HeadOk;
    WritableIff(d);
    assert Name([]) == "";
    if AllPlain(d) {
      PlainIsReadBack(d);
    } else {
      var start := Doc(Node(map[]), []);
      var b := BadTable(d, start);
      BadText(b);
      var text := b.key + " = \"" + Normal(b.s) + "\"\n" + Normal(Unlines(b.after));
      SimpleLinesRead(start, b.before, text);
      NotReadBack(b.doc, b.key, b.s, Normal(Unlines(b.after)));
      assert start.path + b.rel == b.rel;
    }
  }

  lemma PlainIsReadBack(d: seq<Entry>)
    requires Writable(d)
    ensures Read(Unlines(WriteLines(d, ""))) == Some(Node(ToMap(d)))
  {
    hide WriteLines, ReadLines, Writable, ToMap, Normal, AllSimple;
    var start, lines := Doc(Node(map[]), []), WriteLines(d, "");
    assert Name([]) == "";
    LinesAreSimple(d, []);
    UnlinesHasNoReturn(lines);
    NormalPrefix(Unlines(lines), "");
    assert Unlines(lines) + "" == Unlines(lines);
    NothingNormal();
    var end := TableRead(d, start);
    SimpleLinesRead(start, lines, "");
  }

  lemma NothingNormal()
    ensures Normal("") == ""
  {
  }
}
