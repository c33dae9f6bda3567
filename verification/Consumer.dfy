/** The buyer's end of a session: invoking a request and reading error codes back out of error
    texts (aim_node/consumer/session_manager.py). */
module Consumer {
  import opened Bytes
  import opened Crypto
  import opened Protocol
  import opened RelayCrypto
  import opened Results
  import opened Text
  import opened Transport

  const DEFAULT_INVOKE_TIMEOUT_MS := 30_000
  const SESSION_EXPIRED := 1004
  const ADAPTER_ERROR := 1006
  const SESSION_CLOSING := 1010

  /** How `invoke` ends: an answer, a SessionInvokeError, or another exception let through. */
  datatype InvokeResult =
    | Answered(body: bytes, traceId: string, latencyMs: int, sequence: int)
    | InvokeError(code: int, message: string)
    | Raised(fault: Fault)

  /** `\s*(\d+):\s*(.*)$` matched at the start of a text: the digits and the rest of the line. */
  function MatchErrorCode(s: string): Option<(nat, string)> {
    var t := SkipSpace(s);
    var n := DigitSpan(t);
    if n == 0 || n == |t| || t[n] != ':' then None
    else
      var rest := SkipSpace(t[n + 1..]);
      var line := if rest != [] && rest[|rest| - 1] == '\n' then rest[..|rest| - 1] else rest;
      if '\n' in line then None else Some((StringToNat(t[..n]), line))
  }

  function OrFailed(message: string): string {
    if message == "" then "session invoke failed" else message
  }

  /** The SessionInvokeError made of a RuntimeError's text. */
  function ErrorOfText(text: string): (r: InvokeResult)
    ensures r.InvokeError?
  {
    match MatchErrorCode(text)
    case Some((code, message)) => InvokeError(code, OrFailed(message))
    case None => InvokeError(ADAPTER_ERROR, OrFailed(text))
  }

  function InvokeResultOf(r: Result<Payload>): InvokeResult {
    match r
    case Ok(p) => if p.Response? then Answered(p.body, p.traceId, p.latencyMs, p.sequence) else Raised(TypeError("response"))
    case Err(RuntimeError(text)) => ErrorOfText(text)
    case Err(e) => Raised(e)
  }

  /** After leading white space, at most a final line end. */
  predicate SingleLine(message: string) {
    var rest := SkipSpace(message);
    forall i :: 0 <= i < |rest| - 1 ==> rest[i] != '\n'
  }

  /** A text that starts with digits and a colon. */
  lemma MatchDigits(d: string, tail: string)
    requires d != [] && AllDigits(d)
    ensures var s := d + ":" + tail;
            SkipSpace(s) == s && DigitSpan(s) == |d| && s[|d|] == ':' && s[..|d|] == d && s[|d| + 1..] == tail
  {
    hide DigitSpan;
    var s := d + ":" + tail;
    assert s[0] == d[0] && IsDigit(s[0]);
    assert s == d + (":" + tail);
    DigitSpanExact(d, ":" + tail);
  }

  /** A message taken apart: white space, the text, and at most a final line end. */
  datatype Line = Line(space: string, line: string, end: string)
  {
    predicate Of(message: string) {
      && (SingleLine(message) ==>
            && message == space + line + end && IsBlank(space) && end in {"", "\n"}
            && '\n' !in line && (line != "" ==> !IsSpace(line[0])))
    }
  }

  lemma {:induction false} SkippedSpace(s: string) returns (space: string)
    ensures s == space + SkipSpace(s) && IsBlank(space)
  {
    space := "";
    if s != [] && IsSpace(s[0]) {
      var more := SkippedSpace(s[1..]);
      space := [s[0]] + more;
      assert s == [s[0]] + s[1..];
    }
  }

  lemma LineOf(message: string) returns (parts: Line)
    ensures var rest := SkipSpace(message);
            var line := if rest != [] && rest[|rest| - 1] == '\n' then rest[..|rest| - 1] else rest;
            && (SingleLine(message) <==> '\n' !in line)
            && parts.Of(message) && parts.line == line
  {
    hide SkipSpace, IsBlank, IsSpace;
    var rest := SkipSpace(message);
    var line := if rest != [] && rest[|rest| - 1] == '\n' then rest[..|rest| - 1] else rest;
    assert forall i :: 0 <= i < |line| ==> line[i] == rest[i];
    if '\n' in line {
      var i :| 0 <= i < |line| && line[i] == '\n';
      assert rest[i] == '\n';
    }
    var space := SkippedSpace(message);
    parts := Line(space, line, if line == rest then "" else "\n");
    assert rest == line + parts.end;
  }

  lemma SkipOneSpace(message: string)
    ensures SkipSpace(" " + message) == SkipSpace(message)
  {
    assert (" " + message)[1..] == message;
  }

  lemma MatchedDigits(d: string, message: string) returns (parts: Line)
    requires d != [] && AllDigits(d)
    ensures parts.Of(message)
    ensures MatchErrorCode(d + ":" + (" " + message))
         == if SingleLine(message) then Some((StringToNat(d), parts.line)) else None
  {
    hide DigitSpan, SingleLine, StringToNat, SkipSpace, Line.Of;
    MatchDigits(d, " " + message);
    SkipOneSpace(message);
    parts := LineOf(message);
  }

  /** The pattern reads a non-negative code back with the line of the message, exactly when it is a
      single line. */
  lemma MatchedError(code: nat, message: string) returns (parts: Line)
    ensures parts.Of(message)
    ensures MatchErrorCode(IntToString(code) + ": " + message) == if SingleLine(message) then Some((code, parts.line)) else None
  {
    hide NatToString, MatchErrorCode, SingleLine, StringToNat, Line.Of;
    var d := NatToString(code);
    ReadPrintedNat(code);
    parts := MatchedDigits(d, message);
    assert IntToString(code) + ": " + message == d + ":" + (" " + message);
  }

  /** A negative code never matches. */
  lemma NegativeUnmatched(code: int, message: string)
    requires code < 0
    ensures MatchErrorCode(IntToString(code) + ": " + message).None?
  {
    hide NatToString, StringToNat;
    var s := IntToString(code) + ": " + message;
    assert s[0] == '-' && SkipSpace(s) == s && DigitSpan(s) == 0;
  }

  /** The error made of an error frame's text. */
  lemma ErrorTextRead(code: int, message: string) returns (parts: Line)
    ensures parts.Of(message)
    ensures ErrorOfText(IntToString(code) + ": " + message)
         == if code >= 0 && SingleLine(message) then InvokeError(code, if parts.line == "" then "session invoke failed" else parts.line)
            else InvokeError(1006, IntToString(code) + ": " + message)
  {
    hide MatchErrorCode, SingleLine, IntToString;
    if code >= 0 {
      parts := MatchedError(code, message);
    } else {
      NegativeUnmatched(code, message);
      parts := LineOf(message);
    }
  }

  /** The code an error frame carries reaches the caller exactly when it is non-negative with a
      single-line message, or is the code unreadable errors are given anyway. */
  lemma ErrorCodePreserved(code: int, message: string)
    ensures ErrorOfText(IntToString(code) + ": " + message).code == code <==> code == 1006 || (code >= 0 && SingleLine(message))
  {
    hide ErrorOfText, SingleLine, Line.Of, IntToString;
    var _ := ErrorTextRead(code, message);
  }

  /** A message that is one line without white space in front arrives as it is. */
  lemma MessagePreserved(code: nat, message: string)
    requires message != "" && !IsSpace(message[0]) && '\n' !in message
    ensures ErrorOfText(IntToString(code) + ": " + message) == InvokeError(code, message)
  {
    hide ErrorOfText, IntToString;
    var parts := ErrorTextRead(code, message);
    assert SkipSpace(message) == message;
    assert message == parts.space + parts.line + parts.end;
  }

  // ---------------------------------------------------------------- sessions

  datatype Mode = Direct | Relay | Unsupported

  class SessionState {
    const connectionMode: Mode
    const transport: RelayTransport?
    var requestCount: nat

    constructor (mode: Mode, transport: RelayTransport?)
      ensures connectionMode == mode && this.transport == transport && requestCount == 0
    {
      connectionMode, this.transport, requestCount := mode, transport, 0;
    }
  }

  class SessionManager {
    var sessions: map<string, SessionState>

    constructor ()
      ensures sessions == map[]
    {
      sessions := map[];
    }

    /** `invoke` with the uuid it generates; `direct` is how an HTTP call would end. */
    method Invoke(c: Primitives, sessionId: string, body: bytes, traceId: string, direct: InvokeResult)
      returns (r: InvokeResult)
      requires sessionId in sessions && sessions[sessionId].transport != null ==>
                 sessions[sessionId].transport.Valid() && sessions[sessionId].transport.pendingRequests == {}
      modifies if sessionId in sessions then {sessions[sessionId]} else {}
      modifies if sessionId in sessions && sessions[sessionId].transport != null
               then sessions[sessionId].transport.Footprint() else {}
      ensures sessionId !in sessions ==> r == InvokeError(SESSION_EXPIRED, "session expired")
      ensures sessionId in sessions ==> sessions[sessionId].requestCount == old(sessions[sessionId].requestCount) + 1
      ensures sessionId in sessions && sessions[sessionId].connectionMode == Direct ==> r == direct
      ensures sessionId in sessions && sessions[sessionId].connectionMode != Direct
              && !(sessions[sessionId].connectionMode == Relay && sessions[sessionId].transport != null) ==>
                r == InvokeError(SESSION_CLOSING, "session closing")
      ensures sessionId in sessions && sessions[sessionId].connectionMode == Relay && sessions[sessionId].transport != null ==>
                var t := sessions[sessionId].transport;
                var n := old(sessions[sessionId].requestCount) + 1;
                var p := Request(traceId, n, "application/json", body, 30_000);
                && t.Valid() && t.pendingRequests == {}
                && t.View() == SendRequest(c, old(t.View()), p).0
                && match SendRequest(c, old(t.View()), p).1
                   case Ok(q) => q.Response? && r == Answered(q.body, q.traceId, q.latencyMs, q.sequence)
                   case Err(RuntimeError(text)) => r == ErrorOfText(text)
                   case Err(fault) => r == Raised(fault)
    {
      hide SendRequest, ErrorOfText;
      if sessionId !in sessions {
        return InvokeError(SESSION_EXPIRED, "session expired");
      }
      var state := sessions[sessionId];
      state.requestCount := state.requestCount + 1;
      if state.connectionMode == Direct {
        return direct;
      }
      if state.connectionMode == Relay && state.transport != null {
        var request := Request(traceId, state.requestCount, "application/json", body, DEFAULT_INVOKE_TIMEOUT_MS);
        var response := state.transport.Request(c, request);
        return InvokeResultOf(response);
      }
      return InvokeError(SESSION_CLOSING, "session closing");
    }
  }
}
