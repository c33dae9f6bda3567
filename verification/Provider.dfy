/** The seller's end of a session: receive requests, forward them to the adapter, send back a
    response or an error (aim_node/provider/session_handler.py). */
module Provider {
  import opened Bytes
  import opened Crypto
  import opened Protocol
  import opened RelayCrypto
  import opened Results
  import opened Transport
  import opened Text
  import Json

  /** How a `forward_request` call ends: a body, an AdapterError, or any other exception. */
  datatype Forwarded =
    | Forwarded(body: bytes, latencyMs: int)
    | AdapterFailed(code: int, message: string)
    | Crashed(text: string)

  /** `str(exc)` */
  function FaultText(f: Fault): string {
    match f
    case ValueError(t) => t
    case RuntimeError(t) => t
    case TypeError(t) => t
    case KeyError(t) => t
    case OverflowError => "int too big to convert"
    case ConnectionClosed => "connection closed"
  }

  const INVALID_REQUEST := 1001

  function InvalidRequest(traceId: Option<string>, text: string): Payload {
    Payload.Error(traceId, INVALID_REQUEST, "provider: invalid request (" + text + ")")
  }

  function ResponseTo(request: Payload, body: bytes, latencyMs: int): Payload
    requires request.Request?
  {
    Response(request.traceId, request.sequence, "application/json", body, latencyMs)
  }

  /** What the loop does with one received frame. */
  datatype Action = Forward(request: Payload) | Say(reply: Payload) | Ignore | GiveUp(fault: Fault)

  function OnFrame(frameType: nat, plaintext: bytes): (a: Action)
    ensures a.Forward? ==> a.request.Request?
  {
    if frameType == FRAME_REQUEST then
      match DeserializePayload(frameType, plaintext)
      case Ok(Some(p)) =>
        if p.Request? then Forward(p) else Say(InvalidRequest(None, "request payload decode failed"))
      case Ok(None) => Say(InvalidRequest(None, "request payload decode failed"))
      case Err(e) => Say(InvalidRequest(None, FaultText(e)))
    else if frameType == FRAME_CANCEL then
      match DeserializePayload(frameType, plaintext)
      case Ok(Some(p)) => Say(CancelAck(if p.Cancel? then p.traceId else "", p.Cancel?))
      case Ok(None) => Say(CancelAck("", false))
      case Err(e) => GiveUp(e)
    else Ignore
  }

  /** The reply to one forwarded request.  A response that cannot be sent is reported as an invalid
      request; an error that cannot be sent ends the session. */
  function Answer(c: Primitives, io: Io, request: Payload, outcome: Forwarded): (Io, Result<()>)
    requires request.Request?
  {
    match outcome
    case Forwarded(body, latency) =>
      var (io', sent) := SendPayload(c, io, ResponseTo(request, body, latency));
      if sent.Ok? then (io', sent)
      else SendPayload(c, io', InvalidRequest(Some(request.traceId), FaultText(sent.fault)))
    case AdapterFailed(code, message) => SendPayload(c, io, Payload.Error(Some(request.traceId), code, message))
    case Crashed(text) => SendPayload(c, io, InvalidRequest(Some(request.traceId), text))
  }

  /** The error that is sent in place of a response: it does not fit a frame, or its send raised. */
  function RefusalFor(c: Primitives, ep: Endpoint, response: Payload, traceId: string): Payload {
    match Sendable(c, ep, response)
    case Err(e) => InvalidRequest(Some(traceId), FaultText(e))
    case Ok(_) => InvalidRequest(Some(traceId), FaultText(ConnectionClosed))
  }

  function FirstReply(request: Payload, outcome: Forwarded): Payload
    requires request.Request?
  {
    match outcome
    case Forwarded(body, latency) => ResponseTo(request, body, latency)
    case AdapterFailed(code, message) => Payload.Error(Some(request.traceId), code, message)
    case Crashed(text) => InvalidRequest(Some(request.traceId), text)
  }

  /** The payload an answer consists of, None when nothing is sent; `fates` says how the sends end, none
      of them after transmitting. */
  function ReplyChoice(c: Primitives, ep: Endpoint, fates: seq<Fate>, request: Payload, outcome: Forwarded): Option<Payload>
    requires request.Request?
  {
    var first := FirstReply(request, outcome);
    if Goes(c, ep, fates, first) then Some(first)
    else
      var second := RefusalFor(c, ep, first, request.traceId);
      var later := if Sendable(c, ep, first).Ok? then LaterFates(fates) else fates;
      if outcome.Forwarded? && Goes(c, ep, later, second) then Some(second) else None
  }

  /** A payload can be sent and its send completes. */
  predicate Goes(c: Primitives, ep: Endpoint, fates: seq<Fate>, p: Payload) {
    Sendable(c, ep, p).Ok? && NextFate(fates).Completes?
  }

  /** A send that does not raise after transmitting puts out the whole frame, or nothing. */
  lemma SendsOrNot(c: Primitives, io: Io, p: Payload)
    requires !io.closed && NoneAfter(io.fates)
    ensures var (io', r) := SendPayload(c, io, p);
            && r.Ok? == Goes(c, io.ep, io.fates, p) && NoneAfter(io'.fates) && !io'.closed && io'.inbox == io.inbox
            && io'.fates == (if Sendable(c, io.ep, p).Ok? then LaterFates(io.fates) else io.fates)
            && (r.Ok? ==> io'.ep == io.ep.(sendSeq := io.ep.sendSeq + 1) && io'.outbox == io.outbox + [Sendable(c, io.ep, p).value])
            && (r.Err? ==>
                  && io'.ep == io.ep && io'.outbox == io.outbox
                  && r.fault == if Sendable(c, io.ep, p).Ok? then ConnectionClosed else Sendable(c, io.ep, p).fault)
  {
    hide SerializePayload, SealNext;
  }

  /** On an open socket whose sends do not raise after transmitting, the try/except cascade puts out
      exactly the chosen payload, or nothing and it raises. */
  lemma AnswerSendsChoice(c: Primitives, io: Io, request: Payload, outcome: Forwarded)
    requires request.Request? && !io.closed && NoneAfter(io.fates)
    ensures var (io', r) := Answer(c, io, request, outcome);
            && NoneAfter(io'.fates) && !io'.closed && io'.inbox == io.inbox
            && match ReplyChoice(c, io.ep, io.fates, request, outcome)
               case Some(q) =>
                 && r.Ok? && Sendable(c, io.ep, q).Ok?
                 && io'.ep == io.ep.(sendSeq := io.ep.sendSeq + 1) && io'.outbox == io.outbox + [Sendable(c, io.ep, q).value]
               case None => r.Err? && io'.ep == io.ep && io'.outbox == io.outbox
  {
    hide Sendable, SendPayload, FaultText;
    var first := FirstReply(request, outcome);
    SendsOrNot(c, io, first);
    if outcome.Forwarded? {
      var (io', sent) := SendPayload(c, io, first);
      var second := RefusalFor(c, io.ep, first, request.traceId);
      SendsOrNot(c, io', second);
      assert sent.Err? ==> second == InvalidRequest(Some(request.traceId), FaultText(sent.fault));
      assert sent.Err? ==> Answer(c, io, request, outcome) == SendPayload(c, io', second);
    } else {
      assert Answer(c, io, request, outcome) == SendPayload(c, io, first);
    }
  }

  /** The receive loop until it raises; `script` is what the adapter is going to answer. */
  function Serve(c: Primitives, io: Io, script: seq<Forwarded>): Io
    decreases |io.inbox|
  {
    var (io', r) := RecvFrame(c, io);
    match r
    case Err(_) => io'
    case Ok((frameType, plaintext)) =>
      match OnFrame(frameType, plaintext)
      case GiveUp(_) => io'
      case Ignore => Serve(c, io', script)
      case Say(p) =>
        SendKeepsInbox(c, io', p);
        var (io'', sent) := SendPayload(c, io', p);
        if sent.Err? then io'' else Serve(c, io'', script)
      case Forward(request) =>
        if script == [] then io'
        else
          AnswerKeepsInbox(c, io', request, script[0]);
          var (io'', sent) := Answer(c, io', request, script[0]);
          if sent.Err? then io'' else Serve(c, io'', script[1..])
  }

  /** What the loop does with each kind of frame: a readable request is forwarded, an unreadable one
      answered with an error that names no request; a readable cancellation is acknowledged under its own
      id, an unreadable one ends the session; anything else is passed over. */
  lemma OnFrameCases(frameType: nat, plaintext: bytes)
    ensures var read, action := DeserializePayload(frameType, plaintext), OnFrame(frameType, plaintext);
            match frameType
            case 0x10 =>
              if read.Ok? then read.value.Some? && action == Forward(read.value.value)
              else action == Say(Payload.Error(None, 1001, "provider: invalid request (" + FaultText(read.fault) + ")"))
            case 0x30 =>
              if read.Ok? then read.value.Some? && read.value.value.Cancel? && action == Say(CancelAck(read.value.value.traceId, true))
              else action == GiveUp(read.fault)
            case _ => action == Ignore
  {
    hide FaultText, DeserializePayload;
    DeserializedKind(frameType, plaintext);
  }

  lemma SendKeepsInbox(c: Primitives, io: Io, p: Payload)
    ensures SendPayload(c, io, p).0.inbox == io.inbox
  {
    hide SerializePayload, SealNext;
  }

  lemma AnswerKeepsInbox(c: Primitives, io: Io, request: Payload, outcome: Forwarded)
    requires request.Request?
    ensures Answer(c, io, request, outcome).0.inbox == io.inbox
  {
    hide SerializePayload, SealNext, FaultText;
  }

  class ProviderSessionHandler {
    var activeSessions: map<string, RelayTransport>
    var sessionTasks: set<string>

    constructor ()
      ensures activeSessions == map[] && sessionTasks == {}
    {
      activeSessions, sessionTasks := map[], {};
    }

    method SendOn(c: Primitives, transport: RelayTransport, p: Payload) returns (r: Result<()>)
      requires transport.Valid()
      modifies transport.sendSeq, if transport.ws == null then {} else {transport.ws}
      ensures (transport.View(), r) == SendPayload(c, old(transport.View()), p)
    {
      hide SerializePayload, SealNext;
      var bytes := SerializePayload(p);
      if bytes.Err? {
        return Err(bytes.fault);
      }
      r := transport.Send(c, FrameTypeOf(p), bytes.value);
    }

    /** The `while True` loop of `_process_session`. */
    method ServeLoop(c: Primitives, transport: RelayTransport, script: seq<Forwarded>)
      requires transport.Valid()
      modifies transport, transport.sendSeq, transport.recvSeq, if transport.ws == null then {} else {transport.ws}
      ensures transport.Valid() && transport.ws == old(transport.ws) && transport.state == old(transport.state)
      ensures transport.View() == Serve(c, old(transport.View()), script)
    {
      hide SerializePayload, SealNext, RecvFrame, OnFrame, FaultText;
      var adapter := script;
      while true
        invariant transport.Valid() && transport.ws == old(transport.ws) && transport.state == old(transport.state)
        invariant Serve(c, transport.View(), adapter) == Serve(c, old(transport.View()), script)
        decreases |transport.View().inbox|
      {
        var frame := transport.Recv(c);
        if frame.Err? {
          return;
        }
        var action := OnFrame(frame.value.0, frame.value.1);
        var sent := Ok(());
        match action {
          case GiveUp(_) => return;
          case Ignore =>
          case Say(p) =>
            sent := SendOn(c, transport, p);
          case Forward(request) =>
            if adapter == [] {
              return;
            }
            match adapter[0] {
              case Forwarded(body, latency) =>
                sent := SendOn(c, transport, ResponseTo(request, body, latency));
                if sent.Err? {
                  sent := SendOn(c, transport, InvalidRequest(Some(request.traceId), FaultText(sent.fault)));
                }
              case AdapterFailed(code, message) =>
                sent := SendOn(c, transport, Payload.Error(Some(request.traceId), code, message));
              case Crashed(text) =>
                sent := SendOn(c, transport, InvalidRequest(Some(request.traceId), text));
            }
            adapter := adapter[1..];
        }
        if sent.Err? {
          return;
        }
      }
    }

    /** `_process_session`: serve until the session fails, then forget it and close its transport. */
    method ProcessSession(
      c: Primitives, sessionId: string, transport: RelayTransport, script: seq<Forwarded>, arriving: nat
    )
      requires transport.Valid()
      requires sessionId in activeSessions ==> activeSessions[sessionId] == transport
      modifies this, transport, transport.sendSeq, transport.recvSeq, if transport.ws == null then {} else {transport.ws}
      ensures transport.Valid()
      ensures activeSessions == old(activeSessions) - {sessionId} && sessionTasks == old(sessionTasks) - {sessionId}
      ensures var served := Serve(c, old(transport.View()), script);
              if sessionId in old(activeSessions) then
                && transport.state == RelayState.Closed
                && transport.View() == (if old(transport.state) == RelayState.Closed then served
                                        else Shut(c, served, "connection_drop", arriving).0)
              else transport.View() == served
    {
      hide Serve, Shut;
      ServeLoop(c, transport, script);
      sessionTasks := sessionTasks - {sessionId};
      if sessionId in activeSessions {
        activeSessions := activeSessions - {sessionId};
        var _ := transport.Close(c, "connection_drop", arriving);
      }
    }
  }

  // ---------------------------------------------------------------- when a reply can be sent

  /** An upper bound on the JSON text of an error payload. */
  lemma ErrorTextLength(traceId: string, code: int, message: string)
    requires |message| <= MAX_MESSAGE_LEN
    ensures |SerializePayload(Payload.Error(Some(traceId), code, message)).value|
         <= 40 + |IntToString(code)| + 12 * |message| + 12 * |traceId|
  {
    hide EncodeUtf8, Json.Escape, IntToString;
    var p := Payload.Error(Some(traceId), code, message);
    var v := Json.JObj(FieldsOf(p));
    FieldsValid(p);
    Json.PrintGraphic(v, Json.COMPACT);
    AsciiLength(Json.Print(v, Json.COMPACT));
    EscapeLength(traceId);
    EscapeLength(message);
    ErrorPrint(traceId, code, message);
  }

  lemma FieldLength(f: Json.Field)
    requires forall i :: 0 <= i < |f.key| ==> 'a' <= f.key[i] <= 'z' || f.key[i] == '_'
    ensures |Json.PrintField(f, Json.COMPACT)| == |f.key| + 3 + |Json.Print(f.value, Json.COMPACT)|
  {
    EscapeWord(f.key);
  }

  lemma ErrorPrint(traceId: string, code: int, message: string)
    ensures |Json.Print(Json.JObj(FieldsOf(Payload.Error(Some(traceId), code, message))), Json.COMPACT)|
         == |IntToString(code)| + |Json.Escape(message)| + |Json.Escape(traceId)| + 36
  {
    hide Json.Escape, IntToString, Json.PrintField;
    var fs := FieldsOf(Payload.Error(Some(traceId), code, message));
    FieldLength(fs[0]);
    FieldLength(fs[1]);
    FieldLength(fs[2]);
    assert fs[1..][0] == fs[1] && fs[1..][1..] == [fs[2]];
    assert |Json.PrintFields([fs[2]], Json.COMPACT)| == |Json.PrintField(fs[2], Json.COMPACT)| + 1;
    assert |Json.PrintFields(fs[1..], Json.COMPACT)|
        == |Json.PrintField(fs[1], Json.COMPACT)| + 1 + |Json.PrintFields([fs[2]], Json.COMPACT)|;
    assert |Json.PrintFields(fs, Json.COMPACT)|
        == |Json.PrintField(fs[0], Json.COMPACT)| + 1 + |Json.PrintFields(fs[1..], Json.COMPACT)|;
  }

  lemma {:induction false} EscapeWord(s: string)
    requires forall i :: 0 <= i < |s| ==> 'a' <= s[i] <= 'z' || s[i] == '_'
    ensures Json.Escape(s) == s
  {
    if s != [] {
      EscapeWord(s[1..]);
      assert s == [s[0]] + s[1..];
    }
  }

  lemma {:induction false} EscapeLength(s: string)
    ensures |Json.Escape(s)| <= 12 * |s|
  {
    if s != [] {
      EscapeLength(s[1..]);
    }
  }

  /** The payload fits the length field of a frame. */
  predicate Fits(p: Payload) {
    SerializePayload(p).Ok? && |SerializePayload(p).value| <= 0xFFFF
  }

  lemma FitsIffSendable(c: Primitives, ep: Endpoint, p: Payload)
    requires ep.keys.Some? && GoodKeys(ep.keys.value) && ep.sendSeq <= MAX_SEQUENCE
    ensures Sendable(c, ep, p).Ok? <==> Fits(p)
  {
    hide EncryptFrame, SerializePayload;
    var k := ep.keys.value;
    if SerializePayload(p).Ok? {
      SealableFrames(c, OutboundKey(k, ep.isInitiator), OutboundPrefix(k, ep.isInitiator), ep.sendSeq,
                     FrameTypeOf(p), SerializePayload(p).value);
    }
  }

  /** A failed request is answered, with the adapter's own code and text or with 1001 and the text of the
      exception, exactly when the message has at most 500 characters, the error fits a frame and its send
      completes, as long as sequence numbers last. */
  lemma ErrorAnswered(c: Primitives, ep: Endpoint, fates: seq<Fate>, request: Payload, outcome: Forwarded)
    requires ep.keys.Some? && GoodKeys(ep.keys.value) && ep.sendSeq <= MAX_SEQUENCE
    requires request.Request? && !outcome.Forwarded?
    ensures var p := if outcome.AdapterFailed? then Payload.Error(Some(request.traceId), outcome.code, outcome.message)
                     else Payload.Error(Some(request.traceId), 1001, "provider: invalid request (" + outcome.text + ")");
            var answered := |p.message| <= 500 && |SerializePayload(p).value| <= 0xFFFF && NextFate(fates).Completes?;
            ReplyChoice(c, ep, fates, request, outcome) == if answered then Some(p) else None
  {
    hide EncryptFrame, EncodeUtf8, FieldsOf, Sendable;
    FitsIffSendable(c, ep, FirstReply(request, outcome));
  }

  /** The frame is no limit for trace ids and codes of ordinary length. */
  lemma OrdinaryErrorFits(traceId: string, code: int, message: string)
    requires |message| <= MAX_MESSAGE_LEN && |traceId| <= 4000 && |IntToString(code)| <= 4000
    ensures Fits(Payload.Error(Some(traceId), code, message))
  {
    hide EncodeUtf8, FieldsOf;
    ErrorTextLength(traceId, code, message);
  }

  const TOO_LARGE := "plaintext too large for uint16 length field"

  /** A forwarded body is answered by its response, with the request's ids and the adapter's body and
      latency, if a frame can hold it and its send completes.  If not, the answer is an error that names
      the limit or else the connection, unless that does not fit either or its send raises too. */
  lemma ForwardedAnswered(c: Primitives, ep: Endpoint, fates: seq<Fate>, request: Payload, outcome: Forwarded)
    requires ep.keys.Some? && GoodKeys(ep.keys.value) && ep.sendSeq <= MAX_SEQUENCE
    requires request.Request? && outcome.Forwarded?
    ensures var response := Response(request.traceId, request.sequence, "application/json", outcome.body, outcome.latencyMs);
            var why := if Fits(response) then "connection closed" else "plaintext too large for uint16 length field";
            var refusal := Payload.Error(Some(request.traceId), 1001, "provider: invalid request (" + why + ")");
            var later := if Fits(response) then LaterFates(fates) else fates;
            ReplyChoice(c, ep, fates, request, outcome)
            == if Fits(response) && NextFate(fates).Completes? then Some(response)
               else if Fits(refusal) && NextFate(later).Completes? then Some(refusal) else None
  {
    hide SerializePayload, EncryptFrame, Sendable;
    var response := ResponseTo(request, outcome.body, outcome.latencyMs);
    FitsIffSendable(c, ep, response);
    FitsIffSendable(c, ep, InvalidRequest(Some(request.traceId), if Fits(response) then "connection closed" else TOO_LARGE));
    if !Fits(response) {
      TooLargeText(c, ep, response);
    }
  }

  /** Why a response that does not fit is refused. */
  lemma TooLargeText(c: Primitives, ep: Endpoint, p: Payload)
    requires ep.keys.Some? && GoodKeys(ep.keys.value) && ep.sendSeq <= MAX_SEQUENCE
    requires !Fits(p) && p.Response?
    ensures Sendable(c, ep, p) == Err(ValueError(TOO_LARGE)) && FaultText(ValueError(TOO_LARGE)) == TOO_LARGE
  {
    hide FieldsOf, EncodeUtf8;
  }
}
