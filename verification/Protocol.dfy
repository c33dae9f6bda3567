/** The payloads of relay frames and their JSON form (aim_node/relay/protocol.py). */
module Protocol {
  import opened Bytes
  import opened Results
  import opened Text
  import Base64
  import opened Json

  const FRAME_REQUEST := 0x10
  const FRAME_RESPONSE := 0x11
  const FRAME_ERROR := 0x12
  const FRAME_HEARTBEAT := 0x20
  const FRAME_HEARTBEAT_ACK := 0x21
  const FRAME_CANCEL := 0x30
  const FRAME_CANCEL_ACK := 0x31
  const FRAME_CLOSE := 0x40
  const FRAME_CLOSE_ACK := 0x41

  const MAX_TIMEOUT_MS := 300_000
  const MAX_MESSAGE_LEN := 500

  datatype Payload =
    | Request(traceId: string, sequence: int, contentType: string, body: bytes, timeoutMs: int)
    | Response(traceId: string, sequence: int, contentType: string, body: bytes, latencyMs: int)
    | Error(errorTraceId: Option<string>, code: int, message: string)
    | Cancel(traceId: string)
    | CancelAck(traceId: string, cancelled: bool)
    | Close(reason: string, message: string)

  function FrameTypeOf(p: Payload): (t: nat)
    ensures t < 0x100 && t != FRAME_HEARTBEAT && t != FRAME_HEARTBEAT_ACK
  {
    match p
    case Request(_, _, _, _, _) => FRAME_REQUEST
    case Response(_, _, _, _, _) => FRAME_RESPONSE
    case Error(_, _, _) => FRAME_ERROR
    case Cancel(_) => FRAME_CANCEL
    case CancelAck(_, _) => FRAME_CANCEL_ACK
    case Close(_, _) => FRAME_CLOSE
  }

  /** `_validate_payload` accepts. */
  predicate ValidPayload(p: Payload) {
    match p
    case Request(_, _, _, _, timeout) => 0 <= timeout <= MAX_TIMEOUT_MS
    case Error(_, _, message) => |message| <= MAX_MESSAGE_LEN
    case Close(_, message) => |message| <= MAX_MESSAGE_LEN
    case _ => true
  }

  /** `asdict` with the body in base64, its keys in the order `sort_keys` writes them. */
  function FieldsOf(p: Payload): Dict {
    match p
    case Request(t, n, ct, b, timeout) =>
      [Field("body", JStr(Base64.Encode(b))), Field("content_type", JStr(ct)), Field("sequence", JInt(n)),
       Field("timeout_ms", JInt(timeout)), Field("trace_id", JStr(t))]
    case Response(t, n, ct, b, latency) =>
      [Field("body", JStr(Base64.Encode(b))), Field("content_type", JStr(ct)), Field("latency_ms", JInt(latency)),
       Field("sequence", JInt(n)), Field("trace_id", JStr(t))]
    case Error(t, code, message) =>
      [Field("code", JInt(code)), Field("message", JStr(message)),
       Field("trace_id", if t.Some? then JStr(t.value) else JNull)]
    case Cancel(t) => [Field("trace_id", JStr(t))]
    case CancelAck(t, b) => [Field("cancelled", JBool(b)), Field("trace_id", JStr(t))]
    case Close(reason, message) => [Field("message", JStr(message)), Field("reason", JStr(reason))]
  }

  function SerializePayload(p: Payload): Result<bytes> {
    if !ValidPayload(p) then Err(ValueError("invalid payload"))
    else Ok(EncodeUtf8(Dumps(JObj(FieldsOf(p)), COMPACT)))
  }

  /** `decoded["body"]` through `_decode_body`. */
  function GetBody(d: Dict): Option<bytes> {
    match GetStr(d, "body")
    case None => None
    case Some(text) => Base64.Decode(text)
  }

  function PayloadOfFields(frameType: nat, d: Dict): Result<Payload> {
    var missing := Err(KeyError("missing or ill-typed field"));
    if frameType == FRAME_REQUEST then
      match (GetStr(d, "trace_id"), GetInt(d, "sequence"), GetStr(d, "content_type"), GetBody(d), GetInt(d, "timeout_ms"))
      case (Some(t), Some(n), Some(ct), Some(b), Some(timeout)) => Ok(Request(t, n, ct, b, timeout))
      case _ => missing
    else if frameType == FRAME_RESPONSE then
      match (GetStr(d, "trace_id"), GetInt(d, "sequence"), GetStr(d, "content_type"), GetBody(d), GetInt(d, "latency_ms"))
      case (Some(t), Some(n), Some(ct), Some(b), Some(latency)) => Ok(Response(t, n, ct, b, latency))
      case _ => missing
    else if frameType == FRAME_ERROR then
      match (Get(d, "trace_id"), GetInt(d, "code"), GetStr(d, "message"))
      case (Some(JStr(t)), Some(code), Some(m)) => Ok(Error(Some(t), code, m))
      case (Some(JNull), Some(code), Some(m)) => Ok(Error(None, code, m))
      case (None, Some(code), Some(m)) => Ok(Error(None, code, m))
      case _ => missing
    else if frameType == FRAME_CANCEL then
      match GetStr(d, "trace_id")
      case Some(t) => Ok(Cancel(t))
      case None => missing
    else if frameType == FRAME_CANCEL_ACK then
      match (GetStr(d, "trace_id"), GetBool(d, "cancelled"))
      case (Some(t), Some(b)) => Ok(CancelAck(t, b))
      case _ => missing
    else if frameType == FRAME_CLOSE then
      match (GetStr(d, "reason"), if HasKey(d, "message") then GetStr(d, "message") else Some(""))
      case (Some(r), Some(m)) => Ok(Close(r, m))
      case _ => missing
    else Err(ValueError("unsupported frame type"))
  }

  predicate IsControl(frameType: nat) {
    frameType == FRAME_HEARTBEAT || frameType == FRAME_HEARTBEAT_ACK || frameType == FRAME_CLOSE_ACK
  }

  /** `deserialize_payload`: a control frame decodes to no payload at all. */
  function DeserializePayload(frameType: nat, data: bytes): Result<Option<Payload>> {
    if IsControl(frameType) then
      if data == [] || data == EncodeUtf8("{}") || data == EncodeUtf8("null") then Ok(None)
      else Err(ValueError("control frames must not include a payload"))
    else
      match DecodeUtf8(data)
      case None => Err(ValueError("invalid UTF-8"))
      case Some(text) =>
        match Loads(text)
        case None => Err(ValueError("invalid JSON"))
        case Some(JObj(d)) =>
          (match PayloadOfFields(frameType, d)
           case Err(e) => Err(e)
           case Ok(p) => if ValidPayload(p) then Ok(Some(p)) else Err(ValueError("invalid payload")))
        case Some(_) => Err(ValueError("payload JSON must decode to an object"))
  }

  // ---------------------------------------------------------------- round trip

  lemma FieldsValid(p: Payload)
    ensures Valid(JObj(FieldsOf(p)))
  {
    hide Base64.Encode;
  }

  /** What the fields are called on the wire. */
  lemma FieldNames(p: Payload)
    ensures var d := FieldsOf(p);
            match p
            case Request(t, n, ct, b, timeout) =>
              && |d| == 5 && GetStr(d, "trace_id") == Some(t) && GetInt(d, "sequence") == Some(n)
              && GetStr(d, "content_type") == Some(ct) && GetStr(d, "body") == Some(Base64.Encode(b))
              && GetInt(d, "timeout_ms") == Some(timeout)
            case Response(t, n, ct, b, latency) =>
              && |d| == 5 && GetStr(d, "trace_id") == Some(t) && GetInt(d, "sequence") == Some(n)
              && GetStr(d, "content_type") == Some(ct) && GetStr(d, "body") == Some(Base64.Encode(b))
              && GetInt(d, "latency_ms") == Some(latency)
            case Error(t, code, message) =>
              && |d| == 3 && Get(d, "trace_id") == Some(if t.Some? then JStr(t.value) else JNull)
              && GetInt(d, "code") == Some(code) && GetStr(d, "message") == Some(message)
            case Cancel(t) => |d| == 1 && GetStr(d, "trace_id") == Some(t)
            case CancelAck(t, b) => |d| == 2 && GetStr(d, "trace_id") == Some(t) && GetBool(d, "cancelled") == Some(b)
            case Close(reason, message) => |d| == 2 && GetStr(d, "reason") == Some(reason) && GetStr(d, "message") == Some(message)
  {
    hide Base64.Encode, Get;
    var d := FieldsOf(p);
    FieldsValid(p);
    GetAt(d, 0);
    if |d| > 1 {
      GetAt(d, 1);
    }
    if |d| > 2 {
      GetAt(d, 2);
    }
    if |d| > 4 {
      GetAt(d, 3);
      GetAt(d, 4);
    }
  }

  lemma FieldsRead(p: Payload)
    ensures PayloadOfFields(FrameTypeOf(p), FieldsOf(p)) == Ok(p)
  {
    hide Base64.Encode, Base64.Decode, Get, FieldsOf;
    FieldNames(p);
    if p.Request? || p.Response? {
      Base64.DecodeEncoded(p.body);
    }
  }

  /** The bytes of a payload are the UTF-8 text of a JSON object with exactly these fields. */
  lemma WireFields(p: Payload)
    requires SerializePayload(p).Ok?
    ensures var text := DecodeUtf8(SerializePayload(p).value);
            text.Some? && Loads(text.value) == Some(JObj(FieldsOf(p)))
    ensures FrameTypeOf(p) == match p case Request(_, _, _, _, _) => 0x10 case Response(_, _, _, _, _) => 0x11
                                      case Error(_, _, _) => 0x12 case Cancel(_) => 0x30
                                      case CancelAck(_, _) => 0x31 case Close(_, _) => 0x40
  {
    hide EncodeUtf8, DecodeUtf8, Loads, Dumps, FieldsOf;
    FieldsValid(p);
    LoadsDumps(JObj(FieldsOf(p)), COMPACT);
    DecodeEncodedUtf8(Dumps(JObj(FieldsOf(p)), COMPACT));
  }

  /** Every payload with a timeout of at most five minutes and a message of at most 500 characters, and no
      other, serializes; it is read back unchanged under its own frame type. */
  lemma PayloadRoundTrip(p: Payload)
    ensures SerializePayload(p).Ok? <==>
            && (p.Request? ==> 0 <= p.timeoutMs <= 300_000)
            && (p.Error? || p.Close? ==> |p.message| <= 500)
    ensures SerializePayload(p).Ok? <==> ValidPayload(p)
    ensures SerializePayload(p).Ok? ==> DeserializePayload(FrameTypeOf(p), SerializePayload(p).value) == Ok(Some(p))
  {
    hide EncodeUtf8, DecodeUtf8, Loads, Dumps, FieldsOf, PayloadOfFields;
    FieldsValid(p);
    FieldsRead(p);
    LoadsDumps(JObj(FieldsOf(p)), COMPACT);
    DecodeEncodedUtf8(Dumps(JObj(FieldsOf(p)), COMPACT));
  }

  /** Whatever deserializes is a valid payload of the kind its frame type names. */
  lemma DeserializedKind(frameType: nat, data: bytes)
    ensures var r := DeserializePayload(frameType, data);
            && (r.Ok? && r.value.Some? ==> FrameTypeOf(r.value.value) == frameType && ValidPayload(r.value.value))
            && (r.Ok? && r.value.None? <==> IsControl(frameType) && (data == [] || data == EncodeUtf8("{}") || data == EncodeUtf8("null")))
  {
    hide DecodeUtf8, EncodeUtf8, Loads, Get, GetBody;
  }

  /** Two payloads of one kind serialize to the same bytes only when they are equal. */
  lemma SerializeInjective(p: Payload, q: Payload)
    requires FrameTypeOf(p) == FrameTypeOf(q)
    requires SerializePayload(p).Ok? && SerializePayload(p) == SerializePayload(q)
    ensures p == q
  {
    hide SerializePayload, DeserializePayload;
    PayloadRoundTrip(p);
    PayloadRoundTrip(q);
  }

  // ---------------------------------------------------------------- key order

  /** Order of Python strings: by code point, a proper prefix first. */
  predicate StrLess(s: string, t: string) {
    if s == [] then t != []
    else if t == [] then false
    else s[0] < t[0] || (s[0] == t[0] && StrLess(s[1..], t[1..]))
  }

  /** The listed fields are in the order `sort_keys=True` gives. */
  lemma FieldsSorted(p: Payload)
    ensures forall i :: 0 <= i < |FieldsOf(p)| - 1 ==> StrLess(FieldsOf(p)[i].key, FieldsOf(p)[i + 1].key)
  {
    hide Base64.Encode;
    assert "timeout_ms"[1..][0] == 'i' && "trace_id"[1..][0] == 'r';
  }
}
