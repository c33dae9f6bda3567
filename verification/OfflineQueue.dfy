/** The offline usage queue: a JSON-lines file that is appended to, counted, read and flushed to an
    idempotent meter (aim_node/core/offline_queue.py). */
module OfflineQueue {
  import opened Results
  import opened Text
  import opened Json

  const MAX_QUEUE_ENTRIES := 50

  /** The file's text, None while it does not exist. */
  type File = Option<string>

  // ---------------------------------------------------------------- lines

  predicate IsLineEnd(c: char) {
    c == '\n' || c == '\r'
  }

  /** The position of the first line end, or the length. */
  function EndOf(text: string): (n: nat)
    ensures n <= |text|
    ensures n < |text| ==> IsLineEnd(text[n])
    ensures forall i :: 0 <= i < n ==> !IsLineEnd(text[i])
  {
    if text == "" || IsLineEnd(text[0]) then 0 else 1 + EndOf(text[1..])
  }

  /** The lines that are not blank, stripped. */
  function NonBlank(text: string): seq<string> {
    if text == "" then []
    else
      var n := EndOf(text);
      (if IsBlank(text[..n]) then [] else [Strip(text[..n])]) + if n == |text| then [] else NonBlank(text[n + 1..])
  }

  /** What follows the last line end. */
  function Tail(text: string): string {
    var n := EndOf(text);
    if n == |text| then text else Tail(text[n + 1..])
  }

  /** A line as it is written: no line end inside, no white space around. */
  predicate IsEntryLine(line: string) {
    && line != "" && !IsSpace(line[0]) && !IsSpace(line[|line| - 1])
    && forall i :: 0 <= i < |line| ==> !IsLineEnd(line[i])
  }

  lemma {:induction false} StripBlankPrefix(blank: string, line: string)
    requires IsBlank(blank) && IsEntryLine(line)
    ensures Strip(blank + line) == line && !IsBlank(blank + line)
  {
    if blank == "" {
      assert blank + line == line;
      assert SkipSpace(line) == line;
    } else {
      assert (blank + line)[1..] == blank[1..] + line;
      StripBlankPrefix(blank[1..], line);
    }
  }

  lemma EndOfExact(text: string, rest: string)
    requires (forall i :: 0 <= i < |text| ==> !IsLineEnd(text[i])) && rest != "" && IsLineEnd(rest[0])
    ensures EndOf(text + rest) == |text|
  {
    var n := EndOf(text + rest);
    assert (text + rest)[|text|] == rest[0];
    assert forall i :: 0 <= i < |text| ==> (text + rest)[i] == text[i];
  }

  /** Writing a line to a file whose last line is not ended: the line joins it. */
  lemma WriteToTail(tail: string, line: string)
    requires IsEntryLine(line) && forall i :: 0 <= i < |tail| ==> !IsLineEnd(tail[i])
    ensures NonBlank(tail + line + "\n") == [if IsBlank(tail) then line else Strip(tail + line)]
    ensures Tail(tail + line + "\n") == ""
  {
    var joined := tail + line;
    EndOfExact(joined, "\n");
    var text := joined + "\n";
    assert text[..|joined|] == joined && text[|joined| + 1..] == "";
    if IsBlank(tail) {
      StripBlankPrefix(tail, line);
    } else {
      assert !IsBlank(joined) by {
        var i :| 0 <= i < |tail| && !IsSpace(tail[i]);
        assert joined[i] == tail[i];
      }
    }
  }

  /** Text added at the end leaves the first line alone. */
  lemma FirstLineKept(text: string, more: string)
    requires EndOf(text) < |text|
    ensures var n := EndOf(text);
            && NonBlank(text + more) == (if IsBlank(text[..n]) then [] else [Strip(text[..n])]) + NonBlank(text[n + 1..] + more)
            && Tail(text + more) == Tail(text[n + 1..] + more)
  {
    hide NonBlank, Tail, Strip, IsBlank;
    var n, whole := EndOf(text), text + more;
    EndOfExact(text[..n], text[n..] + more);
    assert whole == text[..n] + (text[n..] + more);
    assert whole[..n] == text[..n] && whole[n + 1..] == text[n + 1..] + more;
    FirstLine(whole, n);
  }

  /** A written line becomes a line of its own exactly when what follows the last line end of the
      file is blank; a torn last line swallows it. */
  lemma {:induction false} WrittenLine(text: string, line: string)
    requires IsEntryLine(line)
    ensures NonBlank(text + (line + "\n")) == NonBlank(text) + [line] <==> IsBlank(Tail(text))
    ensures !IsBlank(Tail(text)) ==> |NonBlank(text + (line + "\n"))| == |NonBlank(text)|
    ensures Tail(text + (line + "\n")) == ""
    decreases |text|
  {
    hide Strip, IsBlank, NonBlank, Tail, IsEntryLine;
    var n := EndOf(text);
    if n == |text| {
      WriteToTail(text, line);
      assert text + (line + "\n") == text + line + "\n";
      TailOnly(text);
    } else {
      var rest := text[n + 1..];
      WrittenLine(rest, line);
      FirstLineKept(text, line + "\n");
      FirstLine(text, n);
      ConsSame(if IsBlank(text[..n]) then [] else [Strip(text[..n])], NonBlank(rest + (line + "\n")), NonBlank(rest), line);
    }
  }

  lemma TailOnly(text: string)
    requires EndOf(text) == |text|
    ensures Tail(text) == text
    ensures NonBlank(text) == if IsBlank(text) then [] else [Strip(text)]
  {
    assert text[..|text|] == text;
  }

  lemma FirstLine(text: string, n: nat)
    requires EndOf(text) == n < |text|
    ensures NonBlank(text) == (if IsBlank(text[..n]) then [] else [Strip(text[..n])]) + NonBlank(text[n + 1..])
    ensures Tail(text) == Tail(text[n + 1..])
  {
  }

  lemma ConsSame(head: seq<string>, a: seq<string>, b: seq<string>, line: string)
    ensures head + a == head + b + [line] <==> a == b + [line]
  {
    assert head + b + [line] == head + (b + [line]);
    if head + a == head + (b + [line]) {
      assert a == (head + a)[|head|..] && b + [line] == (head + (b + [line]))[|head|..];
    }
  }

  // ---------------------------------------------------------------- entries

  function TextOf(f: File): string {
    match f
    case None => ""
    case Some(t) => t
  }

  function Lines(f: File): seq<string> {
    NonBlank(TextOf(f))
  }

  /** `count()` */
  function Count(f: File): nat {
    |Lines(f)|
  }

  /** The documents of the lines that are JSON; the others are skipped. */
  function Documents(lines: seq<string>): seq<Json> {
    if lines == [] then []
    else
      Documents(lines[..|lines| - 1])
      + match Loads(lines[|lines| - 1]) case None => [] case Some(v) => [v]
  }

  /** `read_all()` */
  function ReadAll(f: File): seq<Json> {
    Documents(Lines(f))
  }

  /** `json.dumps(entry)` */
  function LineOf(entry: Json): string {
    Dumps(entry, SPACED)
  }

  /** How `append` ends: what is no object is written before `entry.get` raises. */
  datatype Appended = Accepted | Rejected | RaisedAfterWriting

  /** `append(entry)` */
  function Append(f: File, entry: Json): (File, Appended) {
    if Count(f) >= MAX_QUEUE_ENTRIES then (f, Rejected)
    else (Some(TextOf(f) + (LineOf(entry) + "\n")), if entry.JObj? then Accepted else RaisedAfterWriting)
  }

  lemma LineIsEntry(entry: Json)
    requires Valid(entry)
    ensures IsEntryLine(LineOf(entry)) && Loads(LineOf(entry)) == Some(entry)
  {
    hide Valid, Print, Loads, FloatText;
    LoadsDumps(entry, SPACED);
    PrintGraphic(entry, SPACED);
    PrintTrim(entry, SPACED);
  }

  lemma NoDocuments()
    ensures Documents([]) == []
  {
  }

  lemma DocumentsSnoc(lines: seq<string>, line: string)
    ensures Documents(lines + [line]) == Documents(lines) + match Loads(line) case None => [] case Some(v) => [v]
  {
    assert (lines + [line])[..|lines|] == lines;
  }

  lemma {:induction false} DocumentsShorter(lines: seq<string>)
    ensures |Documents(lines)| <= |lines|
  {
    if lines != [] {
      DocumentsShorter(lines[..|lines| - 1]);
    }
  }

  /** A file whose last line is ended, or at least blank. */
  predicate Ended(f: File) {
    IsBlank(Tail(TextOf(f)))
  }

  /** Every document of a queue is one Python can print again. */
  lemma {:induction false} DocumentsValid(lines: seq<string>)
    ensures forall i :: 0 <= i < |Documents(lines)| ==> Valid(Documents(lines)[i])
  {
    hide Valid, Loads;
    if lines != [] {
      DocumentsValid(lines[..|lines| - 1]);
      if Loads(lines[|lines| - 1]).Some? {
        LoadsValid(lines[|lines| - 1]);
      }
    }
  }

  /** An append below 50 lines puts exactly its entry at the end of the queue, and raises if that is no
      object. */
  lemma AppendAdds(f: File, entry: Json)
    requires Ended(f) && Valid(entry)
    ensures var (f', end) := Append(f, entry);
            && (end.Rejected? <==> Count(f) >= 50)
            && (end.RaisedAfterWriting? <==> !end.Rejected? && !entry.JObj?)
            && Ended(f')
            && (end.Rejected? ==> f' == f)
            && (!end.Rejected? ==> ReadAll(f') == ReadAll(f) + [entry] && Count(f') == Count(f) + 1)
  {
    hide NonBlank, Tail, LineOf, Loads, Valid;
    LineIsEntry(entry);
    WrittenLine(TextOf(f), LineOf(entry));
    DocumentsSnoc(Lines(f), LineOf(entry));
  }

  /** To a file with a torn last line an append adds no line at all. */
  lemma TornFileSwallows(f: File, entry: Json)
    requires !Ended(f) && Valid(entry)
    ensures Count(Append(f, entry).0) == Count(f)
  {
    hide NonBlank, Tail, LineOf, Loads, Valid;
    LineIsEntry(entry);
    WrittenLine(TextOf(f), LineOf(entry));
  }

  // ---------------------------------------------------------------- flushing

  /** What a `meter` call does: it is idempotent, but it may also fail, before or after the usage was
      recorded, with an error status or an exception. */
  datatype Behaviour =
    | Served
    | RefusedWith(status: int)
    | RecordedButStatus(status: int)
    | RaisedBefore
    | RaisedAfter

  /** The status a call returns, None for an exception. */
  function StatusOf(recorded: seq<Json>, id: Json, b: Behaviour): Option<int> {
    match b
    case Served => Some(if id in recorded then 409 else 200)
    case RefusedWith(s) => Some(if s == 200 || s == 409 then 500 else s)
    case RecordedButStatus(s) => Some(if s == 200 || s == 409 then 500 else s)
    case _ => None
  }

  function Recorded(recorded: seq<Json>, id: Json, b: Behaviour): seq<Json> {
    if (b.Served? || b.RecordedButStatus? || b.RaisedAfter?) && id !in recorded then recorded + [id] else recorded
  }

  /** `entry.get("cost_usd", "0.00")` */
  function CostOf(entry: Dict): Json {
    match Get(entry, "cost_usd")
    case None => JStr("0.00")
    case Some(v) => v
  }

  /** The request id of an entry that can be sent; None where `entry.get`, `Decimal(...)` or
      `entry["request_id"]` raises.  `priced` says which JSON values `Decimal` takes. */
  function IdOf(priced: Json -> bool, entry: Json): Option<Json> {
    if entry.JObj? && priced(CostOf(entry.fields)) then Get(entry.fields, "request_id") else None
  }

  /** An entry can be sent exactly when it is an object with a request id and a cost `Decimal` takes; a
      missing cost is "0.00". */
  lemma IdOfIff(priced: Json -> bool, entry: Json, id: Json)
    ensures IdOf(priced, entry) == Some(id) <==>
            && entry.JObj? && Get(entry.fields, "request_id") == Some(id)
            && (if HasKey(entry.fields, "cost_usd") then priced(Get(entry.fields, "cost_usd").value) else priced(JStr("0.00")))
  {
  }

  /** The send loop: usage recorded, entries sent, and whether it ended by an exception.  A script
      that runs out stands for a cancelled call. */
  function SendAll(priced: Json -> bool, entries: seq<Json>, recorded: seq<Json>, script: seq<Behaviour>): (r: (seq<Json>, nat, bool))
    ensures r.1 <= |entries|
  {
    if entries == [] then (recorded, 0, false)
    else if IdOf(priced, entries[0]).None? || script == [] then (recorded, 0, true)
    else
      var id := IdOf(priced, entries[0]).value;
      var recorded' := Recorded(recorded, id, script[0]);
      match StatusOf(recorded, id, script[0])
      case None => (recorded', 0, true)
      case Some(status) =>
        if status == 200 || status == 409 then
          var (more, n, raised) := SendAll(priced, entries[1..], recorded', script[1..]);
          (more, n + 1, raised)
        else (recorded', 0, false)
  }

  /** Appending entries one after the other, until one raises. */
  function AppendAll(f: File, entries: seq<Json>): (File, bool)
    decreases |entries|
  {
    if entries == [] then (f, false)
    else
      var (f', end) := Append(f, entries[0]);
      if end.RaisedAfterWriting? then (f', true) else AppendAll(f', entries[1..])
  }

  /** `clear()`; `unlinks` is false where removing the file fails. */
  function Clear(f: File, unlinks: bool): File {
    if unlinks then None else f
  }

  /** How a flush ends: it returns the number of entries sent, the send loop raises, or re-appending
      does. */
  datatype Ending = Finished(sent: nat) | SendRaised | AppendRaised

  /** `flush()`: the file, the meter's records, and how it ends. */
  function Flush(priced: Json -> bool, f: File, recorded: seq<Json>, script: seq<Behaviour>, unlinks: bool): (File, seq<Json>, Ending) {
    var entries := ReadAll(f);
    var (recorded', sent, raised) := SendAll(priced, entries, recorded, script);
    if entries == [] then (f, recorded, Finished(0))
    else if raised then (f, recorded', SendRaised)
    else if sent == |entries| then (Clear(f, unlinks), recorded', Finished(sent))
    else
      var (f', stopped) := AppendAll(Clear(f, unlinks), entries[sent..]);
      (f', recorded', if stopped then AppendRaised else Finished(sent))
  }

  // ---------------------------------------------------------------- what a flush leaves

  predicate AllValid(entries: seq<Json>) {
    forall i :: 0 <= i < |entries| ==> Valid(entries[i])
  }

  /** The position of the first document that is no object, or the length. */
  function FirstOdd(entries: seq<Json>): (n: nat)
    ensures n <= |entries|
    ensures forall i :: 0 <= i < n ==> entries[i].JObj?
    ensures n < |entries| ==> !entries[n].JObj?
  {
    if entries == [] || !entries[0].JObj? then 0 else 1 + FirstOdd(entries[1..])
  }

  /** No entry stands behind a document that is no object. */
  predicate NoneBehindOdd(entries: seq<Json>) {
    FirstOdd(entries) + 1 >= |entries|
  }

  /** How many of the entries appending writes where there is room for so many lines: those up to the
      first that is no object, which raises. */
  function Written(entries: seq<Json>, room: nat): (n: nat)
    ensures n <= |entries| && n <= room
  {
    var upTo := if FirstOdd(entries) < |entries| then FirstOdd(entries) + 1 else |entries|;
    if upTo <= room then upTo else room
  }

  predicate Stops(entries: seq<Json>, room: nat) {
    FirstOdd(entries) < |entries| && FirstOdd(entries) < room
  }

  function RoomIn(f: File): nat {
    if Count(f) <= MAX_QUEUE_ENTRIES then MAX_QUEUE_ENTRIES - Count(f) else 0
  }

  /** Appending several entries adds those. */
  lemma {:induction false} AppendAllAdds(f: File, entries: seq<Json>)
    requires Ended(f) && AllValid(entries) && Count(f) <= MAX_QUEUE_ENTRIES
    ensures var (f', stopped), n := AppendAll(f, entries), Written(entries, RoomIn(f));
            && Ended(f') && ReadAll(f') == ReadAll(f) + entries[..n] && Count(f') == Count(f) + n
            && stopped == Stops(entries, RoomIn(f))
    decreases |entries|
  {
    hide ReadAll, Count, Ended, Append, Valid;
    if entries == [] {
      assert ReadAll(f) + [] == ReadAll(f);
    } else {
      AppendAdds(f, entries[0]);
      var (f', end) := Append(f, entries[0]);
      if end.Rejected? {
        AppendAllAdds(f, entries[1..]);
        assert entries[..0] == entries[1..][..0] == [];
      } else if end.Accepted? {
        AppendAllAdds(f', entries[1..]);
        var n := Written(entries[1..], RoomIn(f'));
        assert entries[..n + 1] == [entries[0]] + entries[1..][..n];
        assert ReadAll(f) + [entries[0]] + entries[1..][..n] == ReadAll(f) + ([entries[0]] + entries[1..][..n]);
      } else {
        assert entries[..1] == [entries[0]];
      }
    }
  }

  /** Re-appending to an emptied queue never meets the limit.  What it restores is exactly the entries
      given, if and only if none stands behind a document that is no object. */
  lemma ReappendKeepsAll(entries: seq<Json>)
    requires AllValid(entries) && |entries| <= MAX_QUEUE_ENTRIES
    ensures ReadAll(AppendAll(None, entries).0) == entries[..Written(entries, MAX_QUEUE_ENTRIES)]
    ensures ReadAll(AppendAll(None, entries).0) == entries <==> NoneBehindOdd(entries)
    ensures AppendAll(None, entries).1 <==> FirstOdd(entries) < |entries|
  {
    hide ReadAll, Count, Ended, Append, Valid;
    EmptyQueue();
    AppendAllAdds(None, entries);
    assert [] + entries[..Written(entries, MAX_QUEUE_ENTRIES)] == entries[..Written(entries, MAX_QUEUE_ENTRIES)];
  }

  lemma EmptyQueue()
    ensures ReadAll(None) == [] && Count(None) == 0 && Ended(None)
  {
  }

  /** The send loop records a prefix and possibly one entry more, and records nothing else. */
  lemma {:induction false} SentAreRecorded(priced: Json -> bool, entries: seq<Json>, recorded: seq<Json>, script: seq<Behaviour>)
    ensures var (after, sent, _) := SendAll(priced, entries, recorded, script);
            && recorded <= after
            && (forall i :: 0 <= i < sent ==> IdOf(priced, entries[i]).Some? && IdOf(priced, entries[i]).value in after)
            && (forall id :: id in after ==> id in recorded || exists i :: 0 <= i < |entries| && IdOf(priced, entries[i]) == Some(id))
            && (NoRepeats(recorded) ==> NoRepeats(after))
    decreases |entries|
  {
    hide IdOf, Recorded, NoRepeats, StatusOf;
    if entries != [] && IdOf(priced, entries[0]).Some? && script != [] {
      var id := IdOf(priced, entries[0]).value;
      var recorded' := Recorded(recorded, id, script[0]);
      RecordsOnlyIt(recorded, id, script[0]);
      SentAreRecorded(priced, entries[1..], recorded', script[1..]);
      assert forall i :: 0 <= i < |entries| - 1 ==> entries[1..][i] == entries[i + 1];
      assert forall i :: 1 <= i < |entries| ==> entries[i] == entries[1..][i - 1];
    }
  }

  lemma RecordsOnlyIt(recorded: seq<Json>, id: Json, b: Behaviour)
    ensures var recorded', status := Recorded(recorded, id, b), StatusOf(recorded, id, b);
            && recorded <= recorded'
            && (status == Some(200) || status == Some(409) ==> id in recorded')
            && (forall x :: x in recorded' ==> x in recorded || x == id)
            && (NoRepeats(recorded) ==> NoRepeats(recorded'))
  {
  }

  predicate NoRepeats(ids: seq<Json>) {
    forall i, j :: 0 <= i < j < |ids| ==> ids[i] != ids[j]
  }

  lemma FewEntries(f: File)
    ensures |ReadAll(f)| <= Count(f) && AllValid(ReadAll(f))
  {
    hide Valid;
    DocumentsShorter(Lines(f));
    DocumentsValid(Lines(f));
  }

  /** Everything a flush does.  One whose send loop raises leaves the file alone.  Any other takes the
      sent entries out and re-appends the rest, up to the first document that is no object, where it
      raises; where the file cannot be removed, it appends them to what is there. */
  lemma FlushEffect(priced: Json -> bool, f: File, recorded: seq<Json>, script: seq<Behaviour>, unlinks: bool)
    requires Ended(f) && Count(f) <= MAX_QUEUE_ENTRIES
    ensures var (f', recorded', ending), entries := Flush(priced, f, recorded, script, unlinks), ReadAll(f);
            var (after, n, raised) := SendAll(priced, entries, recorded, script);
            var rest, room := entries[n..], if unlinks then MAX_QUEUE_ENTRIES else RoomIn(f);
            && Ended(f') && Count(f') <= MAX_QUEUE_ENTRIES && recorded' == after
            && (if raised then ending == SendRaised && f' == f
                else
                  && ReadAll(f') == (if unlinks then [] else entries) + rest[..Written(rest, room)]
                  && ending == if Stops(rest, room) then AppendRaised else Finished(n))
  {
    hide ReadAll, Ended, AppendAll, Append, Valid, Count;
    var entries := ReadAll(f);
    var (_, n, raised) := SendAll(priced, entries, recorded, script);
    FewEntries(f);
    EmptyQueue();
    assert entries[|entries|..] == [] && entries + [] == entries;
    AppendAllAdds(Clear(f, unlinks), entries[n..]);
  }

  /** A flush refused by the service, with entries left to keep. */
  predicate Refused(priced: Json -> bool, entries: seq<Json>, recorded: seq<Json>, script: seq<Behaviour>) {
    var (_, n, raised) := SendAll(priced, entries, recorded, script);
    !raised && n < |entries|
  }

  /** A flush that is not cut short by an exception of the send loop leaves exactly the unsent suffix, in
      order, if and only if it was not refused while an entry stood behind a document that is no object;
      and it raises if and only if it was refused with such a document in the queue. */
  lemma FlushLeavesSuffix(priced: Json -> bool, f: File, recorded: seq<Json>, script: seq<Behaviour>)
    requires Ended(f) && Count(f) <= MAX_QUEUE_ENTRIES
    ensures var (f', _, ending), entries := Flush(priced, f, recorded, script, true), ReadAll(f);
            var (_, n, _) := SendAll(priced, entries, recorded, script);
            && Ended(f') && Count(f') <= MAX_QUEUE_ENTRIES
            && (ending.SendRaised? ==> f' == f)
            && (!ending.SendRaised? ==>
                  && (ReadAll(f') == entries[n..] <==> !(Refused(priced, entries, recorded, script) && !NoneBehindOdd(entries)))
                  && (ending.AppendRaised? <==> Refused(priced, entries, recorded, script) && FirstOdd(entries) < |entries|))
  {
    hide ReadAll, Ended, Flush, Valid, Count, SendAll, IdOf;
    var entries := ReadAll(f);
    FlushEffect(priced, f, recorded, script, true);
    FewEntries(f);
    OddStaysAhead(priced, entries, recorded, script);
    var n := SendAll(priced, entries, recorded, script).1;
    assert forall w :: 0 <= w <= |entries[n..]| ==> (entries[n..][..w] == entries[n..] <==> w == |entries[n..]|);
  }

  /** The send loop never gets past a document that is no object. */
  lemma OddStaysAhead(priced: Json -> bool, entries: seq<Json>, recorded: seq<Json>, script: seq<Behaviour>)
    ensures var (_, n, raised) := SendAll(priced, entries, recorded, script);
            && n <= FirstOdd(entries) && FirstOdd(entries[n..]) == FirstOdd(entries) - n
            && (!raised && n == |entries| ==> FirstOdd(entries) == |entries|)
  {
    hide SendAll;
    var (_, n, raised) := SendAll(priced, entries, recorded, script);
    if FirstOdd(entries) < |entries| {
      SendStopsAt(priced, entries, recorded, script, FirstOdd(entries));
    }
    OddOfSuffix(entries, n);
  }

  lemma {:induction false} OddOfSuffix(entries: seq<Json>, n: nat)
    requires n <= FirstOdd(entries)
    ensures FirstOdd(entries[n..]) == FirstOdd(entries) - n
  {
    if n > 0 {
      OddOfSuffix(entries[1..], n - 1);
      assert entries[1..][n - 1..] == entries[n..];
    }
  }

  /** A concrete loss.  The queue holds an entry, a number and an entry, and the service refuses the first
      call: the flush raises, and the entry behind the number is gone. */
  lemma OddEntryLoses(priced: Json -> bool, a: Json, b: Json) returns (f: File)
    requires Valid(a) && Valid(b) && a.JObj? && b.JObj? && IdOf(priced, a).Some?
    ensures ReadAll(f) == [a, JInt(5), b]
    ensures var (f', recorded, ending) := Flush(priced, f, [], [RefusedWith(500)], true);
            ending == AppendRaised && recorded == [] && ReadAll(f') == [a, JInt(5)]
  {
    hide ReadAll, Ended, Flush, Valid, Count, IdOf, Append;
    EmptyQueue();
    assert Valid(JInt(5)) by { NumberValid(); }
    AppendAdds(None, a);
    var f1 := Append(None, a).0;
    AppendAdds(f1, JInt(5));
    var f2 := Append(f1, JInt(5)).0;
    AppendAdds(f2, b);
    f := Append(f2, b).0;
    var entries := [a, JInt(5), b];
    assert ReadAll(f) == entries;
    FlushEffect(priced, f, [], [RefusedWith(500)], true);
    assert SendAll(priced, entries, [], [RefusedWith(500)]) == ([], 0, false);
    assert entries[0..] == entries && entries[1..][0] == JInt(5);
    assert FirstOdd(entries[1..]) == 0;
    assert entries[..2] == [a, JInt(5)];
  }

  lemma NumberValid()
    ensures Valid(JInt(5))
  {
  }

  /** The first entry can be sent and its call reports it recorded. */
  predicate FirstAccepted(priced: Json -> bool, entries: seq<Json>, recorded: seq<Json>, script: seq<Behaviour>) {
    && entries != [] && script != [] && IdOf(priced, entries[0]).Some?
    && StatusOf(recorded, IdOf(priced, entries[0]).value, script[0]) in {Some(200), Some(409)}
  }

  /** When removing the file fails, a flush leaves the sent entries in the queue as well: the suffix
      property then holds exactly when the first call refuses its entry and the queue is full. */
  lemma FlushWithoutUnlink(priced: Json -> bool, f: File, recorded: seq<Json>, script: seq<Behaviour>)
    requires Ended(f) && Count(f) <= MAX_QUEUE_ENTRIES && ReadAll(f) != []
    requires Flush(priced, f, recorded, script, false).2 != SendRaised
    ensures var f', n := Flush(priced, f, recorded, script, false).0, SendAll(priced, ReadAll(f), recorded, script).1;
            && ReadAll(f) <= ReadAll(f')
            && (ReadAll(f') == ReadAll(f)[n..]
                <==> !FirstAccepted(priced, ReadAll(f), recorded, script) && Count(f) == MAX_QUEUE_ENTRIES)
  {
    hide ReadAll, Ended, AppendAll, Append, Valid, Count, IdOf, StatusOf, Recorded;
    var entries := ReadAll(f);
    var n := SendAll(priced, entries, recorded, script).1;
    FlushEffect(priced, f, recorded, script, false);
    assert n > 0 <==> FirstAccepted(priced, entries, recorded, script);
    var w := Written(entries[n..], RoomIn(f));
    assert |entries + entries[n..][..w]| == |entries| + w && |entries[n..]| == |entries| - n;
    if n == 0 {
      assert entries[0..] == entries && (w == 0 ==> entries + [] == entries);
    }
  }

  // ---------------------------------------------------------------- entries that cannot be sent

  predicate AllSent(priced: Json -> bool, entries: seq<Json>) {
    forall i :: 0 <= i < |entries| ==> IdOf(priced, entries[i]).Some?
  }

  /** With a service that answers every call, the send loop gets through exactly when every entry can
      be sent. */
  lemma {:induction false} SendsAllIff(priced: Json -> bool, entries: seq<Json>, recorded: seq<Json>, script: seq<Behaviour>)
    requires |script| >= |entries| && forall i :: 0 <= i < |script| ==> script[i].Served?
    ensures var (_, n, raised) := SendAll(priced, entries, recorded, script);
            && (!raised <==> AllSent(priced, entries))
            && (!raised ==> n == |entries|)
    decreases |entries|
  {
    hide IdOf;
    if entries != [] && IdOf(priced, entries[0]).Some? {
      var id := IdOf(priced, entries[0]).value;
      SendsAllIff(priced, entries[1..], Recorded(recorded, id, script[0]), script[1..]);
      assert forall i :: 0 <= i < |entries| - 1 ==> entries[1..][i] == entries[i + 1];
      assert AllSent(priced, entries) <==> AllSent(priced, entries[1..]) by {
        if AllSent(priced, entries[1..]) {
          assert forall i :: 1 <= i < |entries| ==> entries[i] == entries[1..][i - 1];
        }
      }
    }
  }

  /** A flush to a service that answers every call ends exactly when every entry is an object with a
      request id and a cost `Decimal` takes; it then empties the queue. */
  lemma FlushEndsIff(priced: Json -> bool, f: File, recorded: seq<Json>, script: seq<Behaviour>)
    requires |script| >= |ReadAll(f)| && forall i :: 0 <= i < |script| ==> script[i].Served?
    requires Ended(f) && Count(f) <= MAX_QUEUE_ENTRIES
    ensures var (f', _, ending) := Flush(priced, f, recorded, script, true);
            && (ending.Finished? <==> AllSent(priced, ReadAll(f)))
            && (ending.Finished? ==> ending.sent == |ReadAll(f)| && ReadAll(f') == [])
            && (!ending.Finished? ==> ending == SendRaised && f' == f)
  {
    hide ReadAll, IdOf, Ended, Count, Flush;
    SendsAllIff(priced, ReadAll(f), recorded, script);
    FlushEffect(priced, f, recorded, script, true);
  }

  /** No flush gets past an entry that cannot be sent, whatever the service does. */
  lemma {:induction false} SendStopsAt(
    priced: Json -> bool, entries: seq<Json>, recorded: seq<Json>, script: seq<Behaviour>, k: nat
  )
    requires k < |entries| && IdOf(priced, entries[k]).None?
    ensures var (after, n, raised) := SendAll(priced, entries, recorded, script);
            && n <= k
            && forall id :: id in after ==> id in recorded || exists i :: 0 <= i < k && IdOf(priced, entries[i]) == Some(id)
    decreases k
  {
    hide IdOf, Recorded, NoRepeats, StatusOf;
    if k > 0 && IdOf(priced, entries[0]).Some? && script != [] {
      var id := IdOf(priced, entries[0]).value;
      RecordsOnlyIt(recorded, id, script[0]);
      SendStopsAt(priced, entries[1..], Recorded(recorded, id, script[0]), script[1..], k - 1);
      assert forall i :: 0 <= i < k - 1 ==> entries[1..][i] == entries[i + 1];
    }
  }

  // ---------------------------------------------------------------- runs

  datatype Event =
    | DoAppend(entry: Dict)
    | DoFlush(script: seq<Behaviour>, unlinks: bool)

  /** The queue with its meter; `accepted` is every entry ever in the queue, oldest first, and `sent` how
      many of them were taken out of it as sent. */
  datatype State = State(file: File, recorded: seq<Json>, accepted: seq<Json>, sent: nat)

  function Step(priced: Json -> bool, s: State, e: Event): State {
    match e
    case DoAppend(entry) =>
      var (f, end) := Append(s.file, JObj(entry));
      s.(file := f, accepted := if end.Accepted? then s.accepted + [JObj(entry)] else s.accepted)
    case DoFlush(script, unlinks) =>
      var (f, recorded, ending) := Flush(priced, s.file, s.recorded, script, unlinks);
      s.(file := f, recorded := recorded,
         sent := if ending != SendRaised && unlinks then s.sent + SendAll(priced, ReadAll(s.file), s.recorded, script).1 else s.sent)
  }

  function Run(priced: Json -> bool, s: State, es: seq<Event>): State
    decreases |es|
  {
    if es == [] then s else Step(priced, Run(priced, s, es[..|es| - 1]), es[|es| - 1])
  }

  predicate Appendable(es: seq<Event>) {
    forall i :: 0 <= i < |es| && es[i].DoAppend? ==> Valid(JObj(es[i].entry))
  }

  /** The file can always be removed. */
  predicate Removable(es: seq<Event>) {
    forall i :: 0 <= i < |es| && es[i].DoFlush? ==> es[i].unlinks
  }

  /** A flush that is refused, and clears the file, while an entry stands behind a document that is no
      object. */
  predicate Losing(priced: Json -> bool, s: State, e: Event) {
    && e.DoFlush? && e.unlinks
    && Refused(priced, ReadAll(s.file), s.recorded, e.script) && !NoneBehindOdd(ReadAll(s.file))
  }

  predicate NothingLosing(priced: Json -> bool, s: State, es: seq<Event>) {
    forall i :: 0 <= i < |es| ==> !Losing(priced, Run(priced, s, es[..i]), es[i])
  }

  /** Any queue file to start from: malformed lines and documents that are no objects are allowed, a torn
      last line is not. */
  predicate Start(s: State) {
    && Ended(s.file) && Count(s.file) <= 50
    && s.accepted == ReadAll(s.file) && s.sent == 0 && NoRepeats(s.recorded)
  }

  predicate Settled(priced: Json -> bool, s: State, entry: Json) {
    IdOf(priced, entry).Some? && IdOf(priced, entry).value in s.recorded
  }

  /** The file has at most 50 lines, only accepted entries are in the queue, and nothing is recorded
      twice. */
  predicate Sane(s: State) {
    && Ended(s.file) && Count(s.file) <= 50 && NoRepeats(s.recorded)
    && forall i :: 0 <= i < |ReadAll(s.file)| ==> ReadAll(s.file)[i] in s.accepted
  }

  /** Each accepted entry is in the queue or recorded. */
  predicate Kept(priced: Json -> bool, s: State) {
    forall i :: 0 <= i < |s.accepted| ==> s.accepted[i] in ReadAll(s.file) || Settled(priced, s, s.accepted[i])
  }

  /** The queue is the unsent end of what was accepted, and everything before it is recorded. */
  predicate Inv(priced: Json -> bool, s: State) {
    && |s.accepted| == s.sent + |ReadAll(s.file)|
    && ReadAll(s.file) == s.accepted[s.sent..]
    && forall i :: 0 <= i < s.sent ==> Settled(priced, s, s.accepted[i])
  }

  lemma SettledStays(priced: Json -> bool, s: State, s': State, entry: Json)
    requires Settled(priced, s, entry) && s.recorded <= s'.recorded
    ensures Settled(priced, s', entry)
  {
  }

  lemma AppendKeeps(priced: Json -> bool, s: State, entry: Dict)
    requires Sane(s) && Valid(JObj(entry))
    ensures var s' := Step(priced, s, DoAppend(entry));
            && Sane(s') && (Kept(priced, s) ==> Kept(priced, s')) && (Inv(priced, s) ==> Inv(priced, s'))
            && |s'.accepted| - |ReadAll(s'.file)| == |s.accepted| - |ReadAll(s.file)|
  {
    hide ReadAll, Ended, Append, Valid, Settled, NoRepeats, Count;
    AppendAdds(s.file, JObj(entry));
    var s' := Step(priced, s, DoAppend(entry));
    forall x | Settled(priced, s, x) ensures Settled(priced, s', x) {
      SettledStays(priced, s, s', x);
    }
    if Append(s.file, JObj(entry)).1.Accepted? {
      assert forall x :: x in s.accepted && x in ReadAll(s.file) ==> x in ReadAll(s'.file);
      assert JObj(entry) in ReadAll(s'.file);
      forall i | 0 <= i < |s'.accepted| && Kept(priced, s)
        ensures s'.accepted[i] in ReadAll(s'.file) || Settled(priced, s', s'.accepted[i])
      {
        if i < |s.accepted| {
          assert s.accepted[i] in ReadAll(s.file) || Settled(priced, s, s.accepted[i]);
        }
      }
      if Inv(priced, s) {
        assert s'.accepted[s.sent..] == s.accepted[s.sent..] + [JObj(entry)];
      }
    } else {
      assert s'.file == s.file && s'.accepted == s.accepted;
    }
  }

  /** What a flush does to the state: n entries sent, and the rest kept up to some position w. */
  predicate Took(priced: Json -> bool, s: State, s': State, n: nat, w: nat, unlinks: bool)
    requires n + w <= |ReadAll(s.file)|
  {
    var entries := ReadAll(s.file);
    && s'.accepted == s.accepted && s.recorded <= s'.recorded
    && s'.sent == (if unlinks then s.sent + n else s.sent)
    && ReadAll(s'.file) == (if unlinks then [] else entries) + entries[n..][..w]
    && forall i :: 0 <= i < n ==> Settled(priced, s', entries[i])
  }

  /** Every flush does that, and it keeps all of the rest exactly when it is not a losing one. */
  lemma FlushTakes(priced: Json -> bool, s: State, script: seq<Behaviour>, unlinks: bool) returns (n: nat, w: nat)
    requires Sane(s)
    ensures n + w <= |ReadAll(s.file)|
    ensures var s', e := Step(priced, s, DoFlush(script, unlinks)), DoFlush(script, unlinks);
            && Ended(s'.file) && Count(s'.file) <= 50 && NoRepeats(s'.recorded)
            && Took(priced, s, s', n, w, unlinks)
            && (unlinks ==>
                  && (n + w == |ReadAll(s.file)| <==> !Losing(priced, s, e))
                  && (n + w == |ReadAll(s.file)| || n + w > FirstOdd(ReadAll(s.file))))
    ensures forall k :: 0 <= k < |ReadAll(s.file)| && IdOf(priced, ReadAll(s.file)[k]).None? ==> n <= k
  {
    hide ReadAll, Ended, Flush, Valid, IdOf, NoRepeats, Count, SendAll, Settled, NoneBehindOdd, Stops;
    var entries := ReadAll(s.file);
    var raised: bool;
    n, raised := SendAll(priced, entries, s.recorded, script).1, SendAll(priced, entries, s.recorded, script).2;
    FlushEffect(priced, s.file, s.recorded, script, unlinks);
    SentAreRecorded(priced, entries, s.recorded, script);
    FewEntries(s.file);
    SentBefore(priced, entries, s.recorded, script);
    if raised {
      n, w := 0, if unlinks then |entries| else 0;
      assert entries[0..][..|entries|] == entries && [] + entries == entries && entries + [] == entries;
    } else {
      w := Written(entries[n..], if unlinks then MAX_QUEUE_ENTRIES else RoomIn(s.file));
      RestKept(priced, entries, s.recorded, script);
      SettledAre(priced, Step(priced, s, DoFlush(script, unlinks)), entries, n);
    }
  }

  lemma SentBefore(priced: Json -> bool, entries: seq<Json>, recorded: seq<Json>, script: seq<Behaviour>)
    ensures forall k :: 0 <= k < |entries| && IdOf(priced, entries[k]).None? ==> SendAll(priced, entries, recorded, script).1 <= k
  {
    hide IdOf, SendAll;
    forall k | 0 <= k < |entries| && IdOf(priced, entries[k]).None? ensures SendAll(priced, entries, recorded, script).1 <= k {
      SendStopsAt(priced, entries, recorded, script, k);
    }
  }

  /** With an empty file, all of the rest is kept unless an entry stands behind a document that is no object;
      in any case everything up to that. */
  lemma RestKept(priced: Json -> bool, entries: seq<Json>, recorded: seq<Json>, script: seq<Behaviour>)
    requires |entries| <= MAX_QUEUE_ENTRIES && !SendAll(priced, entries, recorded, script).2
    ensures var n := SendAll(priced, entries, recorded, script).1;
            var w := Written(entries[n..], MAX_QUEUE_ENTRIES);
            && (n + w == |entries| <==> n == |entries| || NoneBehindOdd(entries))
            && (n + w == |entries| || n + w > FirstOdd(entries))
  {
    hide SendAll;
    OddStaysAhead(priced, entries, recorded, script);
  }

  lemma SettledAre(priced: Json -> bool, s: State, entries: seq<Json>, n: nat)
    requires n <= |entries| && forall i :: 0 <= i < n ==> IdOf(priced, entries[i]).Some? && IdOf(priced, entries[i]).value in s.recorded
    ensures forall i :: 0 <= i < n ==> Settled(priced, s, entries[i])
  {
  }

  lemma TookSane(priced: Json -> bool, s: State, s': State, n: nat, w: nat, unlinks: bool)
    requires Sane(s) && n + w <= |ReadAll(s.file)| && Took(priced, s, s', n, w, unlinks)
    requires Ended(s'.file) && Count(s'.file) <= 50 && NoRepeats(s'.recorded)
    ensures Sane(s')
  {
    hide ReadAll, Ended, Count, NoRepeats, Settled;
    var entries := ReadAll(s.file);
    forall x | x in ReadAll(s'.file) ensures x in s'.accepted {
      assert x in entries;
    }
  }

  lemma TookKept(priced: Json -> bool, s: State, s': State, n: nat, w: nat, unlinks: bool)
    requires Kept(priced, s) && n + w <= |ReadAll(s.file)| && Took(priced, s, s', n, w, unlinks)
    requires unlinks ==> n + w == |ReadAll(s.file)|
    ensures Kept(priced, s')
  {
    hide ReadAll, Settled;
    var entries := ReadAll(s.file);
    forall x | x in s.accepted ensures x in ReadAll(s'.file) || Settled(priced, s', x) {
      if Settled(priced, s, x) {
        SettledStays(priced, s, s', x);
      } else {
        var j :| 0 <= j < |entries| && entries[j] == x;
        if j >= n && unlinks {
          assert ReadAll(s'.file)[j - n] == x;
        } else if !unlinks {
          assert ReadAll(s'.file)[j] == x;
        }
      }
    }
  }

  lemma TookInOrder(priced: Json -> bool, s: State, s': State, n: nat, w: nat)
    requires Inv(priced, s) && n + w == |ReadAll(s.file)| && Took(priced, s, s', n, w, true)
    ensures Inv(priced, s')
  {
    hide ReadAll, Settled;
    var entries := ReadAll(s.file);
    assert entries[n..][..w] == s.accepted[s.sent + n..];
    forall i | 0 <= i < s.sent + n ensures Settled(priced, s', s'.accepted[i]) {
      if i < s.sent {
        SettledStays(priced, s, s', s.accepted[i]);
      } else {
        assert s.accepted[i] == entries[i - s.sent];
      }
    }
  }

  function Missing(s: State): int {
    |s.accepted| - s.sent - |ReadAll(s.file)|
  }

  lemma TookCounts(priced: Json -> bool, s: State, s': State, n: nat, w: nat)
    requires n + w <= |ReadAll(s.file)| && Took(priced, s, s', n, w, true)
    ensures Missing(s') == Missing(s) + |ReadAll(s.file)| - n - w
  {
    hide ReadAll, Settled;
    assert |[] + ReadAll(s.file)[n..][..w]| == w;
  }

  lemma FlushKeeps(priced: Json -> bool, s: State, script: seq<Behaviour>, unlinks: bool)
    requires Sane(s)
    ensures var s', losing := Step(priced, s, DoFlush(script, unlinks)), Losing(priced, s, DoFlush(script, unlinks));
            && Sane(s')
            && (Kept(priced, s) && !losing ==> Kept(priced, s'))
            && (Inv(priced, s) && !losing && unlinks ==> Inv(priced, s'))
            && (unlinks ==> Missing(s') >= Missing(s) && (Missing(s') == Missing(s) <==> !losing))
  {
    hide ReadAll, Step, Took, Kept, Inv, Sane, Losing, Missing;
    var n, w := FlushTakes(priced, s, script, unlinks);
    var s' := Step(priced, s, DoFlush(script, unlinks));
    TookSane(priced, s, s', n, w, unlinks);
    if unlinks {
      TookCounts(priced, s, s', n, w);
    }
    if !Losing(priced, s, DoFlush(script, unlinks)) || !unlinks {
      if Kept(priced, s) {
        TookKept(priced, s, s', n, w, unlinks);
      }
      if Inv(priced, s) && unlinks {
        TookInOrder(priced, s, s', n, w);
      }
    }
  }

  /** Exactly once.  Over every run of appends and flushes, with flushes cut short by exceptions or error
      statuses at any point and files that cannot be removed: nothing is recorded twice and the file never
      holds more than 50 lines.  As long as no flush is a losing one, an accepted entry is in the queue or
      recorded; and if besides the file can be removed, the queue is exactly the unsent end of what was
      accepted, in order.  Where it can be removed, entries sent and entries queued add up to the accepted
      ones exactly when no flush was a losing one. */
  lemma {:induction false} ExactlyOnce(priced: Json -> bool, s: State, es: seq<Event>)
    requires Start(s) && Appendable(es)
    ensures Sane(Run(priced, s, es))
    ensures NothingLosing(priced, s, es) ==> Kept(priced, Run(priced, s, es))
    ensures NothingLosing(priced, s, es) && Removable(es) ==> Inv(priced, Run(priced, s, es))
    ensures Removable(es) ==> Missing(Run(priced, s, es)) >= 0
                              && (Missing(Run(priced, s, es)) == 0 <==> NothingLosing(priced, s, es))
    decreases |es|
  {
    hide ReadAll, Ended, NoRepeats, Count, Step, Settled, Losing;
    if es == [] {
      assert s.accepted[0..] == s.accepted;
    } else {
      var front := es[..|es| - 1];
      FrontOf(priced, s, es);
      ExactlyOnce(priced, s, front);
      match es[|es| - 1] {
        case DoAppend(entry) =>
          AppendKeeps(priced, Run(priced, s, front), entry);
          AppendMisses(priced, Run(priced, s, front), entry);
        case DoFlush(script, unlinks) =>
          FlushKeeps(priced, Run(priced, s, front), script, unlinks);
      }
    }
  }

  lemma AppendMisses(priced: Json -> bool, s: State, entry: Dict)
    ensures Step(priced, s, DoAppend(entry)).sent == s.sent && !Losing(priced, s, DoAppend(entry))
  {
    hide Append;
  }

  /** What holds of a run holds of its beginning. */
  lemma FrontOf(priced: Json -> bool, s: State, es: seq<Event>)
    requires es != []
    ensures var front, last := es[..|es| - 1], es[|es| - 1];
            && (Appendable(es) ==> Appendable(front)) && (Removable(es) ==> Removable(front))
            && (NothingLosing(priced, s, es) <==> NothingLosing(priced, s, front) && !Losing(priced, Run(priced, s, front), last))
  {
    hide Losing, Run, Valid;
    var front := es[..|es| - 1];
    assert forall i :: 0 <= i < |front| ==> front[i] == es[i] && front[..i] == es[..i];
  }

  predicate AcceptedId(priced: Json -> bool, accepted: seq<Json>, id: Json) {
    exists i :: 0 <= i < |accepted| && IdOf(priced, accepted[i]) == Some(id)
  }

  /** Nothing is recorded that was neither recorded before nor accepted. */
  lemma {:induction false} OnlyAcceptedRecorded(priced: Json -> bool, s: State, es: seq<Event>, id: Json)
    requires Start(s) && Appendable(es) && id in Run(priced, s, es).recorded
    ensures id in s.recorded || AcceptedId(priced, Run(priced, s, es).accepted, id)
    decreases |es|
  {
    hide ReadAll, Ended, Valid, IdOf, NoRepeats, Count, Append, AppendAll, SendAll, NothingLosing, Kept, Inv, Missing, Losing;
    if es != [] {
      var front, last := es[..|es| - 1], es[|es| - 1];
      FrontOf(priced, s, es);
      var t := Run(priced, s, front);
      ExactlyOnce(priced, s, front);
      if last.DoFlush? {
        SentAreRecorded(priced, ReadAll(t.file), t.recorded, last.script);
      }
      if id in t.recorded {
        OnlyAcceptedRecorded(priced, s, front, id);
        if id !in s.recorded {
          var i :| 0 <= i < |t.accepted| && IdOf(priced, t.accepted[i]) == Some(id);
          assert Run(priced, s, es).accepted[i] == t.accepted[i];
        }
      } else {
        var i :| 0 <= i < |ReadAll(t.file)| && IdOf(priced, ReadAll(t.file)[i]) == Some(id);
        assert ReadAll(t.file)[i] in t.accepted;
      }
    }
  }

  /** The ids of the first k entries. */
  predicate IdBefore(priced: Json -> bool, entries: seq<Json>, k: nat, id: Json)
    requires k <= |entries|
  {
    exists i :: 0 <= i < k && IdOf(priced, entries[i]) == Some(id)
  }

  /** Entry k is the first that cannot be sent: no object, no request id, or a cost `Decimal` refuses. */
  predicate FirstUnsent(priced: Json -> bool, queue: seq<Json>, k: nat) {
    && k < |queue| && IdOf(priced, queue[k]).None?
    && forall i :: 0 <= i < k ==> IdOf(priced, queue[i]).Some?
  }

  /** The first entry that cannot be sent blocks the queue for good.  Over every run it stays in the queue,
      in place, and only entries before it are ever recorded; and as long as no flush is a losing one, all
      entries behind it stay as well. */
  lemma {:induction false} BlockedForGood(priced: Json -> bool, s: State, es: seq<Event>, k: nat) returns (m: nat)
    requires Start(s) && Appendable(es) && FirstUnsent(priced, ReadAll(s.file), k)
    ensures m <= k && ReadAll(s.file)[m..k + 1] <= ReadAll(Run(priced, s, es).file)
    ensures NothingLosing(priced, s, es) ==> ReadAll(s.file)[m..] <= ReadAll(Run(priced, s, es).file)
    ensures forall id :: id in Run(priced, s, es).recorded ==>
              id in s.recorded || IdBefore(priced, ReadAll(s.file), k, id)
    decreases |es|
  {
    hide ReadAll, Ended, Valid, IdOf, NoRepeats, Count, Step, Kept, Inv, Missing, Losing, NothingLosing, FirstUnsent, IdBefore;
    var queue := ReadAll(s.file);
    UnsentIsIn(priced, queue, k);
    if es == [] {
      m := 0;
      assert queue[0..] == queue && NothingLosing(priced, s, es) == NothingLosing(priced, s, []);
    } else {
      var front := es[..|es| - 1];
      FrontOf(priced, s, es);
      ExactlyOnce(priced, s, front);
      var before := BlockedForGood(priced, s, front, k);
      m := BlockedStep(priced, Run(priced, s, front), es[|es| - 1], queue, k, before, s.recorded);
    }
  }

  lemma UnsentIsIn(priced: Json -> bool, queue: seq<Json>, k: nat)
    requires FirstUnsent(priced, queue, k)
    ensures k < |queue|
  {
  }

  lemma BlockedStep(
    priced: Json -> bool, s: State, e: Event, queue: seq<Json>, k: nat, before: nat, recorded: seq<Json>
  ) returns (m: nat)
    requires Sane(s) && (e.DoAppend? ==> Valid(JObj(e.entry)))
    requires FirstUnsent(priced, queue, k) && before <= k && queue[before..k + 1] <= ReadAll(s.file)
    requires forall id :: id in s.recorded ==> id in recorded || IdBefore(priced, queue, k, id)
    ensures m <= k && queue[m..k + 1] <= ReadAll(Step(priced, s, e).file)
    ensures queue[before..] <= ReadAll(s.file) && !Losing(priced, s, e) ==> queue[m..] <= ReadAll(Step(priced, s, e).file)
    ensures forall id :: id in Step(priced, s, e).recorded ==> id in recorded || IdBefore(priced, queue, k, id)
  {
    hide ReadAll, Ended, Valid, IdOf, NoRepeats, Count, Flush, Append, SendAll, IdBefore, Settled, Losing, FirstUnsent, Took;
    m := before;
    UnsentIsIn(priced, queue, k);
    match e {
      case DoAppend(entry) =>
        AppendAdds(s.file, JObj(entry));
      case DoFlush(script, unlinks) =>
        var entries := ReadAll(s.file);
        ObjectsAhead(priced, queue, before, entries, k);
        BlockedIds(priced, queue, before, entries, s.recorded, script, k);
        FlushEffect(priced, s.file, s.recorded, script, unlinks);
        var n, w := FlushTakes(priced, s, script, unlinks);
        m := if unlinks then before + n else before;
        BlockedStays(priced, s, Step(priced, s, e), n, w, unlinks, queue, k, before);
    }
  }

  /** What is taken out leaves a blocked entry in place, and all behind it if nothing is lost. */
  lemma BlockedStays(
    priced: Json -> bool, s: State, s': State, n: nat, w: nat, unlinks: bool, queue: seq<Json>, k: nat, before: nat
  )
    requires n + w <= |ReadAll(s.file)| && Took(priced, s, s', n, w, unlinks)
    requires before <= k < |queue| && n <= k - before && queue[before..k + 1] <= ReadAll(s.file)
    requires unlinks ==> n + w == |ReadAll(s.file)| || n + w >= k - before + 1
    ensures var m := if unlinks then before + n else before;
            && queue[m..k + 1] <= ReadAll(s'.file)
            && (queue[before..] <= ReadAll(s.file) && (unlinks ==> n + w == |ReadAll(s.file)|) ==> queue[m..] <= ReadAll(s'.file))
  {
    hide ReadAll, Settled;
    var entries := ReadAll(s.file);
    if unlinks {
      KeptAhead(queue[before..k + 1], entries, n, w);
      assert queue[before + n..k + 1] == queue[before..k + 1][n..];
      if queue[before..] <= entries && n + w == |entries| {
        KeptAhead(queue[before..], entries, n, w);
        assert queue[before + n..] == queue[before..][n..];
      }
    }
  }

  lemma KeptAhead(part: seq<Json>, entries: seq<Json>, n: nat, w: nat)
    requires part <= entries && n <= |part| <= n + w <= |entries|
    ensures part[n..] <= [] + entries[n..][..w]
  {
  }

  lemma InQueue(queue: seq<Json>, before: nat, entries: seq<Json>, k: nat)
    requires before <= k < |queue| && queue[before..k + 1] <= entries
    ensures k - before < |entries|
    ensures forall i :: before <= i <= k ==> entries[i - before] == queue[i]
  {
    assert forall i :: before <= i <= k ==> entries[i - before] == queue[before..k + 1][i - before] == queue[i];
  }

  /** What can be sent is an object. */
  lemma ObjectsAhead(priced: Json -> bool, queue: seq<Json>, before: nat, entries: seq<Json>, k: nat)
    requires FirstUnsent(priced, queue, k) && before <= k && queue[before..k + 1] <= entries
    ensures FirstOdd(entries) >= k - before && k - before < |entries| && IdOf(priced, entries[k - before]).None?
  {
    InQueue(queue, before, entries, k);
    forall i | 0 <= i < k - before ensures entries[i].JObj? {
      assert entries[i] == queue[before + i] && IdOf(priced, queue[before + i]).Some?;
    }
  }

  lemma BlockedIds(
    priced: Json -> bool, queue: seq<Json>, before: nat, entries: seq<Json>, recorded: seq<Json>, script: seq<Behaviour>, k: nat
  )
    requires before <= k < |queue| && queue[before..k + 1] <= entries && IdOf(priced, queue[k]).None?
    ensures forall id :: id in SendAll(priced, entries, recorded, script).0 ==> id in recorded || IdBefore(priced, queue, k, id)
  {
    hide IdOf, SendAll;
    InQueue(queue, before, entries, k);
    SendStopsAt(priced, entries, recorded, script, k - before);
    forall id | id in SendAll(priced, entries, recorded, script).0 && id !in recorded ensures IdBefore(priced, queue, k, id) {
      var i :| 0 <= i < k - before && IdOf(priced, entries[i]) == Some(id);
      assert IdOf(priced, queue[before + i]) == Some(id);
    }
  }

  // ---------------------------------------------------------------- the queue object

  /** The usage service: what it has recorded, and how its next calls are going to behave. */
  class Meter {
    var recorded: seq<Json>
    var script: seq<Behaviour>

    constructor (script: seq<Behaviour>)
      ensures recorded == [] && this.script == script
    {
      recorded, this.script := [], script;
    }

    /** One call: its status, or None for an exception. */
    method Record(id: Json) returns (status: Option<int>)
      modifies this
      ensures old(script) == [] ==> status == None && recorded == old(recorded) && script == []
      ensures old(script) != [] ==>
                && status == StatusOf(old(recorded), id, old(script)[0])
                && recorded == Recorded(old(recorded), id, old(script)[0])
                && script == old(script)[1..]
    {
      if script == [] {
        return None;
      }
      status := StatusOf(recorded, id, script[0]);
      recorded := Recorded(recorded, id, script[0]);
      script := script[1..];
    }
  }

  lemma AppendFirst(lines: seq<string>, line: string, more: seq<string>)
    ensures lines + ([line] + more) == lines + [line] + more
  {
  }

  lemma NonBlankStep(text: string)
    requires text != ""
    ensures var n := EndOf(text);
            NonBlank(text) == (if IsBlank(text[..n]) then [] else [Strip(text[..n])])
                              + NonBlank(if n == |text| then "" else text[n + 1..])
  {
  }

  lemma NoLines()
    ensures NonBlank("") == []
  {
  }

  class Queue {
    var file: File

    constructor (file: File)
      ensures this.file == file
    {
      this.file := file;
    }

    method LoadLines() returns (lines: seq<string>)
      ensures lines == Lines(file)
    {
      hide NonBlank, Strip, IsBlank;
      var rest := TextOf(file);
      lines := [];
      while rest != ""
        invariant lines + NonBlank(rest) == Lines(file)
        decreases |rest|
      {
        NonBlankStep(rest);
        var n := EndOf(rest);
        var line := rest[..n];
        rest := if n == |rest| then "" else rest[n + 1..];
        if !IsBlank(line) {
          AppendFirst(lines, Strip(line), NonBlank(rest));
          lines := lines + [Strip(line)];
        }
      }
      NoLines();
    }

    method CountLines() returns (n: nat)
      ensures n == Count(file)
    {
      var lines := LoadLines();
      n := |lines|;
    }

    method Entries() returns (entries: seq<Json>)
      ensures entries == ReadAll(file)
    {
      hide Lines, Loads, Documents;
      var lines := LoadLines();
      entries := [];
      NoDocuments();
      for i := 0 to |lines|
        invariant entries == Documents(lines[..i])
      {
        DocumentsSnoc(lines[..i], lines[i]);
        assert lines[..i + 1] == lines[..i] + [lines[i]];
        var v := Loads(lines[i]);
        if v.Some? {
          entries := entries + [v.value];
        }
      }
      assert lines[..|lines|] == lines;
    }

    method Add(entry: Json) returns (end: Appended)
      modifies this
      ensures (file, end) == Append(old(file), entry)
    {
      hide Lines, LineOf;
      var n := CountLines();
      if n >= MAX_QUEUE_ENTRIES {
        return Rejected;
      }
      file := Some(TextOf(file) + (LineOf(entry) + "\n"));
      return if entry.JObj? then Accepted else RaisedAfterWriting;
    }

    /** Removing the file fails when `unlinks` is false. */
    method Remove(unlinks: bool)
      modifies this
      ensures file == Clear(old(file), unlinks)
    {
      if unlinks {
        file := None;
      }
    }

    method FlushTo(priced: Json -> bool, meter: Meter, unlinks: bool) returns (ending: Ending)
      modifies this, meter
      ensures (file, meter.recorded, ending) == Flush(priced, old(file), old(meter.recorded), old(meter.script), unlinks)
    {
      hide ReadAll, IdOf, Recorded, StatusOf, Append;
      var entries := Entries();
      if entries == [] {
        return Finished(0);
      }
      var n := 0;
      while n < |entries|
        invariant n <= |entries| && file == old(file)
        invariant var (r, k, raised) := SendAll(priced, entries[n..], meter.recorded, meter.script);
                  SendAll(priced, entries, old(meter.recorded), old(meter.script)) == (r, n + k, raised)
      {
        assert entries[n..][0] == entries[n] && entries[n..][1..] == entries[n + 1..];
        var id := IdOf(priced, entries[n]);
        if id.None? {
          return SendRaised;
        }
        var status := meter.Record(id.value);
        if status.None? {
          return SendRaised;
        }
        if status.value == 200 || status.value == 409 {
          n := n + 1;
        } else {
          break;
        }
      }
      assert entries[|entries|..] == [];
      assert SendAll(priced, entries, old(meter.recorded), old(meter.script)) == (meter.recorded, n, false);
      if n == |entries| {
        Remove(unlinks);
      } else {
        var remaining := entries[n..];
        Remove(unlinks);
        ghost var recorded := meter.recorded;
        var i := 0;
        while i < |remaining|
          invariant i <= |remaining| && meter.recorded == recorded
          invariant AppendAll(file, remaining[i..]) == AppendAll(Clear(old(file), unlinks), remaining)
        {
          assert remaining[i..][0] == remaining[i] && remaining[i..][1..] == remaining[i + 1..];
          var end := Add(remaining[i]);
          if end.RaisedAfterWriting? {
            return AppendRaised;
          }
          i := i + 1;
        }
      }
      return Finished(n);
    }
  }
}
