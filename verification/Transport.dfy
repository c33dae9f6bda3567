/** One encrypted relay session over a WebSocket (aim_node/relay/transport.py): the sending and
    receiving rules as functions on the session's state, and the transport object that follows
    them.  A send that completes is one step. */
module Transport {
  import opened Bytes
  import opened Crypto
  import opened Handshake
  import opened Protocol
  import opened RelayCrypto
  import opened Results
  import opened Text

  datatype RelayState = Disconnected | Connecting | Handshaking | Established | Closing | Closed

  /** What a session remembers between frames. */
  datatype Endpoint = Endpoint(
    keys: Option<TrafficKeys>,
    isInitiator: bool,
    sendSeq: nat,
    recvSeq: nat,
    awaitingAck: bool,
    missed: nat
  )

  /** How a send on an open socket ends: it completes, or it raises (a cancelled task, a connection
      that breaks) before or after its bytes went out. */
  datatype Fate = Completes | RaisesBefore | RaisesAfter

  /** An endpoint together with its socket: what the relay has yet to deliver, what was put on the
      wire, whether the socket is closed, and how the next sends are going to end.  Sends for which
      nothing is given complete. */
  datatype Io = Io(ep: Endpoint, inbox: seq<bytes>, outbox: seq<bytes>, closed: bool, fates: seq<Fate>)

  function NextFate(fates: seq<Fate>): Fate {
    if fates == [] then Completes else fates[0]
  }

  function LaterFates(fates: seq<Fate>): seq<Fate> {
    if fates == [] then [] else fates[1..]
  }

  /** No send raises after transmitting. */
  predicate NoneAfter(fates: seq<Fate>) {
    forall i :: 0 <= i < |fates| ==> !fates[i].RaisesAfter?
  }

  /** What one send on an open socket adds to the wire. */
  function Transmitted(fates: seq<Fate>, raw: bytes): seq<bytes> {
    if NextFate(fates).RaisesBefore? then [] else [raw]
  }

  function OutboundKey(k: TrafficKeys, isInitiator: bool): bytes {
    if isInitiator then k.buyerToSellerKey else k.sellerToBuyerKey
  }

  function OutboundPrefix(k: TrafficKeys, isInitiator: bool): bytes {
    if isInitiator then k.buyerToSellerNoncePrefix else k.sellerToBuyerNoncePrefix
  }

  function InboundKey(k: TrafficKeys, isInitiator: bool): bytes {
    if isInitiator then k.sellerToBuyerKey else k.buyerToSellerKey
  }

  function InboundPrefix(k: TrafficKeys, isInitiator: bool): bytes {
    if isInitiator then k.sellerToBuyerNoncePrefix else k.buyerToSellerNoncePrefix
  }

  /** What one side seals with is what the other opens with, and the two directions differ. */
  lemma DirectionsMirror(k: TrafficKeys, isInitiator: bool)
    ensures OutboundKey(k, isInitiator) == InboundKey(k, !isInitiator)
    ensures OutboundPrefix(k, isInitiator) == InboundPrefix(k, !isInitiator)
    ensures GoodKeys(k) ==> OutboundKey(k, isInitiator) != InboundKey(k, isInitiator)
    ensures OutboundKey(k, true) == k.buyerToSellerKey && OutboundKey(k, false) == k.sellerToBuyerKey
    ensures OutboundPrefix(k, true) == k.buyerToSellerNoncePrefix && OutboundPrefix(k, false) == k.sellerToBuyerNoncePrefix
  {
  }

  // ---------------------------------------------------------------- one frame

  const NOT_ESTABLISHED := RuntimeError("relay session is not established")

  /** The bytes the next frame of an endpoint is sent as. */
  function SealNext(c: Primitives, ep: Endpoint, frameType: int, payload: bytes): Result<bytes> {
    match ep.keys
    case None => Err(NOT_ESTABLISHED)
    case Some(k) =>
      EncryptFrame(c, OutboundKey(k, ep.isInitiator), OutboundPrefix(k, ep.isInitiator), ep.sendSeq, frameType, payload)
  }

  /** Decryption followed by the strict sequence check. */
  function OpenNext(c: Primitives, ep: Endpoint, raw: bytes): Result<OpenedFrame> {
    match ep.keys
    case None => Err(NOT_ESTABLISHED)
    case Some(k) =>
      match DecryptFrame(c, InboundKey(k, ep.isInitiator), InboundPrefix(k, ep.isInitiator), raw)
      case Err(e) => Err(e)
      case Ok(f) => if f.sequence == ep.recvSeq then Ok(f) else Err(ValueError("unexpected sequence number"))
  }

  /** The endpoint after it accepted a frame: an acknowledged heartbeat clears the miss counter. */
  function Accepted(ep: Endpoint, f: OpenedFrame): Endpoint {
    var ep' := ep.(recvSeq := ep.recvSeq + 1);
    if f.frameType == FRAME_HEARTBEAT_ACK then ep'.(awaitingAck := false, missed := 0) else ep'
  }

  /** Frames answered by the transport itself. */
  function AutoReply(frameType: nat): Option<nat> {
    if frameType == FRAME_HEARTBEAT then Some(FRAME_HEARTBEAT_ACK)
    else if frameType == FRAME_CLOSE then Some(FRAME_CLOSE_ACK)
    else None
  }

  /** Frames `recv_frame` does not return. */
  predicate IsHeartbeat(frameType: nat) {
    frameType == FRAME_HEARTBEAT || frameType == FRAME_HEARTBEAT_ACK
  }

  // ---------------------------------------------------------------- the calls

  function SendFrame(c: Primitives, io: Io, frameType: int, payload: bytes): (Io, Result<()>) {
    match SealNext(c, io.ep, frameType, payload)
    case Err(e) => (io, Err(e))
    case Ok(raw) =>
      if io.closed then (io, Err(ConnectionClosed))
      else
        var io1 := io.(outbox := io.outbox + Transmitted(io.fates, raw), fates := LaterFates(io.fates));
        if NextFate(io.fates).Completes? then (io1.(ep := io.ep.(sendSeq := io.ep.sendSeq + 1)), Ok(()))
        else (io1, Err(ConnectionClosed))
  }

  /** One turn of the loop of `recv_frame`: None to go round again. */
  function RecvTurn(c: Primitives, io: Io): (r: (Io, Option<Result<(nat, bytes)>>))
    ensures r.0.inbox == io.inbox || (io.inbox != [] && r.0.inbox == io.inbox[1..])
    ensures r.1.None? || r.1.value.Ok? ==> |r.0.inbox| < |io.inbox|
    ensures r.1.None? ==> r.0.ep.keys == io.ep.keys && r.0.closed == io.closed
  {
    if io.ep.keys.None? then (io, Some(Err(NOT_ESTABLISHED)))
    else if io.closed || io.inbox == [] then (io, Some(Err(ConnectionClosed)))
    else
      var io1 := io.(inbox := io.inbox[1..]);
      match OpenNext(c, io.ep, io.inbox[0])
      case Err(e) => (io1, Some(Err(e)))
      case Ok(f) =>
        var io2 := io1.(ep := Accepted(io.ep, f));
        var sent := match AutoReply(f.frameType)
                    case None => (io2, Ok(()))
                    case Some(t) => SendFrame(c, io2, t, []);
        if sent.1.Err? then (sent.0, Some(Err(sent.1.fault)))
        else if IsHeartbeat(f.frameType) then (sent.0, None)
        else (sent.0, Some(Ok((f.frameType, f.plaintext))))
  }

  function RecvFrame(c: Primitives, io: Io): (r: (Io, Result<(nat, bytes)>))
    ensures r.1.Ok? ==> |r.0.inbox| < |io.inbox|
    ensures |r.0.inbox| <= |io.inbox|
    decreases |io.inbox|
  {
    var (io', r) := RecvTurn(c, io);
    match r
    case None => RecvFrame(c, io')
    case Some(result) => (io', result)
  }

  /** `recv_frame` under a timeout that passes when `arriving` frames have come in; None when it does
      before there is a result.  Heartbeats among these frames are processed all the same. */
  function RecvWithin(c: Primitives, io: Io, arriving: nat): (Io, Option<Result<(nat, bytes)>>)
    decreases arriving
  {
    if arriving == 0 then (io, None)
    else
      var (io', r) := RecvTurn(c, io);
      match r
      case None => RecvWithin(c, io', arriving - 1)
      case Some(_) => (io', r)
  }

  /** `f"{code}: {message}"` */
  function ErrorText(code: int, message: string): string {
    IntToString(code) + ": " + message
  }

  /** One accepted frame, when an acknowledgement of it could be sent: a heartbeat (0x20) is answered by 0x21
      and a close (0x40) by 0x41, nothing else is; heartbeats and their acknowledgements are not returned;
      an acknowledged heartbeat, and nothing else, clears the miss counter. */
  lemma TurnEffect(c: Primitives, io: Io, f: OpenedFrame)
    requires !io.closed && io.inbox != [] && OpenNext(c, io.ep, io.inbox[0]) == Ok(f) && NextFate(io.fates).Completes?
    requires SealNext(c, io.ep, 0x21, []).Ok? && SealNext(c, io.ep, 0x41, []).Ok?
    ensures var (io', r) := RecvTurn(c, io);
            && io'.inbox == io.inbox[1..] && !io'.closed
            && io'.outbox == io.outbox + (if f.frameType == 0x20 then [SealNext(c, io.ep, 0x21, []).value]
                                          else if f.frameType == 0x40 then [SealNext(c, io.ep, 0x41, []).value] else [])
            && io'.ep.recvSeq == io.ep.recvSeq + 1
            && io'.ep.sendSeq == io.ep.sendSeq + |io'.outbox| - |io.outbox|
            && (io'.ep.awaitingAck, io'.ep.missed)
               == (if f.frameType == 0x21 then (false, 0) else (io.ep.awaitingAck, io.ep.missed))
            && r == if f.frameType == 0x20 || f.frameType == 0x21 then None else Some(Ok((f.frameType, f.plaintext)))
  {
    hide OpenNext, EncryptFrame;
  }

  /** What `send_request` makes of one received frame: None to keep waiting. */
  function Settle(frameType: nat, plaintext: bytes, traceId: string): Option<Result<Payload>> {
    match DeserializePayload(frameType, plaintext)
    case Err(e) => Some(Err(e))
    case Ok(None) => None
    case Ok(Some(p)) =>
      if p.Response? && p.traceId == traceId then Some(Ok(p))
      else if p.Error? && (p.errorTraceId.None? || p.errorTraceId.value == traceId) then
        Some(Err(RuntimeError(ErrorText(p.code, p.message))))
      else None
  }

  /** A payload that arrives ends a call exactly when it is the call's response, or an error for the call
      or for none in particular. */
  lemma SettledBy(p: Payload, traceId: string)
    requires ValidPayload(p)
    ensures var settled := Settle(FrameTypeOf(p), SerializePayload(p).value, traceId);
            && (settled == Some(Ok(p)) <==> p.Response? && p.traceId == traceId)
            && (settled.Some? && settled.value.Err? <==> p.Error? && (p.errorTraceId == None || p.errorTraceId == Some(traceId)))
            && (settled.Some? && settled.value.Err? ==>
                  settled.value.fault == RuntimeError(IntToString(p.code) + ": " + p.message))
            && (settled.Some? && settled.value.Ok? ==> settled.value.value == p)
  {
    hide SerializePayload, DeserializePayload, IntToString;
    PayloadRoundTrip(p);
  }

  function AwaitReply(c: Primitives, io: Io, traceId: string): (r: (Io, Result<Payload>))
    ensures r.1.Ok? ==> r.1.value.Response? && r.1.value.traceId == traceId
    decreases |io.inbox|
  {
    var (io', r) := RecvFrame(c, io);
    match r
    case Err(e) => (io', Err(e))
    case Ok((frameType, plaintext)) =>
      match Settle(frameType, plaintext, traceId)
      case None => AwaitReply(c, io', traceId)
      case Some(outcome) => (io', outcome)
  }

  /** The bytes a payload would be sent as, or why it cannot be. */
  function Sendable(c: Primitives, ep: Endpoint, p: Payload): Result<bytes> {
    match SerializePayload(p)
    case Err(e) => Err(e)
    case Ok(bytes) => SealNext(c, ep, FrameTypeOf(p), bytes)
  }

  function SendPayload(c: Primitives, io: Io, p: Payload): (Io, Result<()>) {
    match SerializePayload(p)
    case Err(e) => (io, Err(e))
    case Ok(bytes) => SendFrame(c, io, FrameTypeOf(p), bytes)
  }

  function SendRequest(c: Primitives, io: Io, p: Payload): (r: (Io, Result<Payload>))
    requires p.Request?
    ensures r.1.Ok? ==> r.1.value.Response? && r.1.value.traceId == p.traceId
  {
    var (io', sent) := SendPayload(c, io, p);
    if sent.Err? then (io', Err(sent.fault)) else AwaitReply(c, io', p.traceId)
  }

  /** `close` of a session that is not closed yet: the socket afterwards, and whether it returned.
      `arriving` is how many frames come in within the five seconds it waits. */
  function Shut(c: Primitives, io: Io, reason: string, arriving: nat): (Io, bool) {
    if io.ep.keys.None? then (io.(closed := true), true)
    else
      var (sent, s) := SendPayload(c, io, Payload.Close(reason, ""));
      if s.Err? then (sent.(closed := true), false)
      else
        var (done, f) := RecvWithin(c, sent, arriving);
        (done.(closed := true), f.None? || (f.value.Ok? && f.value.value.0 == FRAME_CLOSE_ACK))
  }

  // ---------------------------------------------------------------- connecting

  /** Both sides of `connect` after the socket is open: the manager, the messages sent, the rest of
      the inbox, and the traffic keys. */
  datatype Connected = Connected(
    manager: Manager, inbox: seq<bytes>, fates: seq<Fate>, outbox: seq<bytes>, keys: Result<TrafficKeys>)

  function ReadText(inbox: seq<bytes>): Result<string> {
    if inbox == [] then Err(ConnectionClosed)
    else
      match DecodeUtf8(inbox[0])
      case None => Err(ValueError("invalid UTF-8"))
      case Some(text) => Ok(text)
  }

  function ConnectInitiator(
    c: Primitives, m: Manager, inbox: seq<bytes>, fates: seq<Fate>, session: string, peerPub: bytes,
    ephemeral: bytes, sentAt: int, checkedAt: int
  ): Connected {
    var (m1, init) := CreateInit(c, m, session, ephemeral, sentAt);
    match init
    case Err(e) => Connected(m1, inbox, fates, [], Err(e))
    case Ok(msg) =>
      var sent, later := Transmitted(fates, EncodeUtf8(WriteInit(msg))), LaterFates(fates);
      if !NextFate(fates).Completes? then Connected(m1, inbox, later, sent, Err(ConnectionClosed))
      else
        match ReadText(inbox)
        case Err(e) => Connected(m1, if inbox == [] then inbox else inbox[1..], later, sent, Err(e))
        case Ok(text) =>
          match ReadAccept(text)
          case Err(e) => Connected(m1, inbox[1..], later, sent, Err(e))
          case Ok(accept) =>
            var (m2, r) := VerifyAccept(c, m1, accept, peerPub, checkedAt);
            Connected(m2, inbox[1..], later, sent, if r.Ok? then Ok(r.value.trafficKeys) else Err(r.fault))
  }

  function ConnectResponder(
    c: Primitives, m: Manager, inbox: seq<bytes>, fates: seq<Fate>, session: string, peerNode: string, peerPub: bytes,
    ephemeral: bytes, checkedAt: int, sentAt: int
  ): Connected {
    match ReadText(inbox)
    case Err(e) => Connected(m, if inbox == [] then inbox else inbox[1..], fates, [], Err(e))
    case Ok(text) =>
      match ReadInit(text)
      case Err(e) => Connected(m, inbox[1..], fates, [], Err(e))
      case Ok(init) =>
        var (m1, checked) := VerifyInit(c, m, init, session, peerNode, peerPub, checkedAt);
        if checked.Err? then Connected(m1, inbox[1..], fates, [], Err(checked.fault))
        else
          var (m2, accept) := CreateAccept(c, m1, session, init.ephemeralPubkey, ephemeral, sentAt);
          match accept
          case Err(e) => Connected(m2, inbox[1..], fates, [], Err(e))
          case Ok(msg) =>
            var sent, later := Transmitted(fates, EncodeUtf8(WriteAccept(msg))), LaterFates(fates);
            if !NextFate(fates).Completes? then Connected(m2, inbox[1..], later, sent, Err(ConnectionClosed))
            else
              match PublicKeyOf(init.ephemeralPubkey)
              case Err(e) => Connected(m2, inbox[1..], later, sent, Err(e))
              case Ok(peer) => Connected(m2, inbox[1..], later, sent, ComputeKeys(c, m2, peer, session))
  }

  // ---------------------------------------------------------------- the socket

  class WebSocket {
    var incoming: seq<bytes>
    var outgoing: seq<bytes>
    var closed: bool
    var fates: seq<Fate>

    /** A socket on which the relay is going to deliver `script` and sends are going to end like
        `fates`. */
    constructor (script: seq<bytes>, fates: seq<Fate>)
      ensures incoming == script && outgoing == [] && !closed && this.fates == fates
    {
      incoming, outgoing, closed, this.fates := script, [], false, fates;
    }

    method Send(raw: bytes) returns (r: Result<()>)
      modifies `outgoing, `fates
      ensures closed ==> r == Err(ConnectionClosed) && outgoing == old(outgoing) && fates == old(fates)
      ensures !closed ==>
                && r == (if NextFate(old(fates)).Completes? then Ok(()) else Err(ConnectionClosed))
                && outgoing == old(outgoing) + Transmitted(old(fates), raw) && fates == LaterFates(old(fates))
    {
      if closed {
        return Err(ConnectionClosed);
      }
      var fate := NextFate(fates);
      outgoing := outgoing + Transmitted(fates, raw);
      fates := LaterFates(fates);
      return if fate.Completes? then Ok(()) else Err(ConnectionClosed);
    }

    method Recv() returns (r: Result<bytes>)
      modifies `incoming
      ensures if closed || old(incoming) == [] then r == Err(ConnectionClosed) && incoming == old(incoming)
              else r == Ok(old(incoming)[0]) && incoming == old(incoming)[1..]
    {
      if closed || incoming == [] {
        return Err(ConnectionClosed);
      }
      r := Ok(incoming[0]);
      incoming := incoming[1..];
    }
  }

  // ---------------------------------------------------------------- the transport

  class RelayTransport {
    const handshake: HandshakeManager
    const sendSeq: SequenceTracker
    const recvSeq: SequenceTracker
    var state: RelayState
    var ws: WebSocket?
    var trafficKeys: Option<TrafficKeys>
    var isInitiator: bool
    var awaitingHeartbeatAck: bool
    var missedHeartbeats: nat
    var pendingRequests: set<string>

    ghost predicate Valid()
      reads this
    {
      sendSeq != recvSeq && (trafficKeys.Some? ==> ws != null)
    }

    ghost function Footprint(): set<object>
      reads this
    {
      {this, sendSeq, recvSeq} + if ws == null then {} else {ws}
    }

    ghost function View(): Io
      requires Valid()
      reads this, Footprint()
    {
      Io(Endpoint(trafficKeys, isInitiator, sendSeq.nextExpected, recvSeq.nextExpected,
                  awaitingHeartbeatAck, missedHeartbeats),
         if ws == null then [] else ws.incoming,
         if ws == null then [] else ws.outgoing,
         if ws == null then true else ws.closed,
         if ws == null then [] else ws.fates)
    }

    constructor (handshake: HandshakeManager)
      ensures Valid() && this.handshake == handshake && state == Disconnected && ws == null
      ensures fresh(sendSeq) && fresh(recvSeq)
      ensures View() == Io(Endpoint(None, false, 0, 0, false, 0), [], [], true, []) && pendingRequests == {}
    {
      this.handshake := handshake;
      sendSeq := new SequenceTracker();
      recvSeq := new SequenceTracker();
      state, ws, trafficKeys, isInitiator := Disconnected, null, None, false;
      awaitingHeartbeatAck, missedHeartbeats, pendingRequests := false, 0, {};
    }

    /** `connect` on a freshly opened socket.  `ephemeral` is the private key X25519 generates and
        the two times are the clock at the two handshake calls. */
    method Connect(
      c: Primitives, socket: WebSocket, session: string, peerNode: string, peerPub: bytes, initiator: bool,
      ephemeral: bytes, firstAt: int, secondAt: int
    ) returns (r: Result<()>)
      requires Valid() && !socket.closed && socket.outgoing == [] && trafficKeys.None?
      modifies this, socket, handshake
      ensures Valid() && ws == socket && isInitiator == initiator
      ensures var spec := if initiator
                then ConnectInitiator(c, old(handshake.View()), old(socket.incoming), old(socket.fates), session, peerPub,
                                      ephemeral, firstAt, secondAt)
                else ConnectResponder(c, old(handshake.View()), old(socket.incoming), old(socket.fates), session, peerNode,
                                      peerPub, ephemeral, firstAt, secondAt);
              && handshake.View() == spec.manager
              && socket.incoming == spec.inbox && socket.outgoing == spec.outbox && socket.fates == spec.fates
              && r.Ok? == spec.keys.Ok?
              && trafficKeys == (if spec.keys.Ok? then Some(spec.keys.value) else None)
              && state == (if spec.keys.Ok? then RelayState.Established else Handshaking)
      ensures sendSeq.nextExpected == old(sendSeq.nextExpected) && recvSeq.nextExpected == old(recvSeq.nextExpected)
    {
      hide CreateInit, VerifyInit, CreateAccept, VerifyAccept, ComputeKeys, ReadInit, ReadAccept, WriteInit, WriteAccept,
        EncodeUtf8, DecodeUtf8, PublicKeyOf;
      state, isInitiator, ws := Connecting, initiator, socket;
      state := Handshaking;
      if initiator {
        var init := handshake.Init(c, session, ephemeral, firstAt);
        if init.Err? {
          return Err(init.fault);
        }
        var sent := socket.Send(EncodeUtf8(WriteInit(init.value)));
        if sent.Err? {
          return Err(sent.fault);
        }
        var raw := socket.Recv();
        if raw.Err? {
          return Err(raw.fault);
        }
        var text := DecodeUtf8(raw.value);
        if text.None? {
          return Err(ValueError("invalid UTF-8"));
        }
        var accept := ReadAccept(text.value);
        if accept.Err? {
          return Err(accept.fault);
        }
        var result := handshake.CheckAccept(c, accept.value, peerPub, secondAt);
        if result.Err? {
          return Err(result.fault);
        }
        trafficKeys := Some(result.value.trafficKeys);
      } else {
        var raw := socket.Recv();
        if raw.Err? {
          return Err(raw.fault);
        }
        var text := DecodeUtf8(raw.value);
        if text.None? {
          return Err(ValueError("invalid UTF-8"));
        }
        var init := ReadInit(text.value);
        if init.Err? {
          return Err(init.fault);
        }
        var checked := handshake.CheckInit(c, init.value, session, peerNode, peerPub, firstAt);
        if checked.Err? {
          return Err(checked.fault);
        }
        var accept := handshake.Accept(c, session, init.value.ephemeralPubkey, ephemeral, secondAt);
        if accept.Err? {
          return Err(accept.fault);
        }
        var sent := socket.Send(EncodeUtf8(WriteAccept(accept.value)));
        if sent.Err? {
          return Err(sent.fault);
        }
        var peer := PublicKeyOf(init.value.ephemeralPubkey);
        if peer.Err? {
          return Err(peer.fault);
        }
        var keys := handshake.SharedKeys(c, peer.value, session);
        if keys.Err? {
          return Err(keys.fault);
        }
        trafficKeys := Some(keys.value);
      }
      state := RelayState.Established;
      return Ok(());
    }

    method Send(c: Primitives, frameType: int, payload: bytes) returns (r: Result<()>)
      requires Valid()
      modifies sendSeq, if ws == null then {} else {ws}
      ensures (View(), r) == SendFrame(c, old(View()), frameType, payload)
    {
      hide EncryptFrame;
      if ws == null || trafficKeys.None? {
        return Err(NOT_ESTABLISHED);
      }
      var sequence := sendSeq.NextSequence();
      var raw := EncryptFrame(c, OutboundKey(trafficKeys.value, isInitiator),
                              OutboundPrefix(trafficKeys.value, isInitiator), sequence, frameType, payload);
      if raw.Err? {
        return Err(raw.fault);
      }
      var sent := ws.Send(raw.value);
      if sent.Err? {
        return sent;
      }
      r := sendSeq.ValidateAndAdvance(sequence);
    }

    /** One turn of the loop of `recv_frame`; None to go round again. */
    method Turn(c: Primitives) returns (t: Option<Result<(nat, bytes)>>)
      requires Valid()
      modifies this`awaitingHeartbeatAck, this`missedHeartbeats, sendSeq, recvSeq, if ws == null then {} else {ws}
      ensures Valid()
      ensures (View(), t) == RecvTurn(c, old(View()))
    {
      hide DecryptFrame, SealNext;
      if ws == null || trafficKeys.None? {
        return Some(Err(NOT_ESTABLISHED));
      }
      var raw := ws.Recv();
      if raw.Err? {
        return Some(Err(raw.fault));
      }
      var f := DecryptFrame(c, InboundKey(trafficKeys.value, isInitiator),
                            InboundPrefix(trafficKeys.value, isInitiator), raw.value);
      if f.Err? {
        return Some(Err(f.fault));
      }
      var inOrder := recvSeq.ValidateAndAdvance(f.value.sequence);
      if inOrder.Err? {
        return Some(Err(ValueError("unexpected sequence number")));
      }
      if f.value.frameType == FRAME_HEARTBEAT {
        var acked := Send(c, FRAME_HEARTBEAT_ACK, []);
        return if acked.Err? then Some(Err(acked.fault)) else None;
      }
      if f.value.frameType == FRAME_HEARTBEAT_ACK {
        awaitingHeartbeatAck := false;
        missedHeartbeats := 0;
        return None;
      }
      if f.value.frameType == FRAME_CLOSE {
        var acked := Send(c, FRAME_CLOSE_ACK, []);
        if acked.Err? {
          return Some(Err(acked.fault));
        }
      }
      return Some(Ok((f.value.frameType, f.value.plaintext)));
    }

    method Recv(c: Primitives) returns (r: Result<(nat, bytes)>)
      requires Valid()
      modifies this`awaitingHeartbeatAck, this`missedHeartbeats, sendSeq, recvSeq, if ws == null then {} else {ws}
      ensures Valid()
      ensures (View(), r) == RecvFrame(c, old(View()))
    {
      hide RecvTurn;
      while true
        invariant Valid()
        invariant RecvFrame(c, View()) == RecvFrame(c, old(View()))
        decreases |View().inbox|
      {
        var turn := Turn(c);
        if turn.Some? {
          return turn.value;
        }
      }
    }

    /** `recv_frame` under a timeout. */
    method RecvInTime(c: Primitives, arriving: nat) returns (r: Option<Result<(nat, bytes)>>)
      requires Valid()
      modifies this`awaitingHeartbeatAck, this`missedHeartbeats, sendSeq, recvSeq, if ws == null then {} else {ws}
      ensures Valid()
      ensures (View(), r) == RecvWithin(c, old(View()), arriving)
    {
      hide RecvTurn;
      for i := 0 to arriving
        invariant Valid()
        invariant RecvWithin(c, View(), arriving - i) == RecvWithin(c, old(View()), arriving)
      {
        var turn := Turn(c);
        if turn.Some? {
          return turn;
        }
      }
      return None;
    }

    /** `send_request` while it is the only outstanding request. */
    method Request(c: Primitives, p: Payload) returns (r: Result<Payload>)
      requires Valid() && p.Request? && pendingRequests == {}
      modifies this, sendSeq, recvSeq, if ws == null then {} else {ws}
      ensures Valid() && pendingRequests == {}
      ensures (View(), r) == SendRequest(c, old(View()), p)
    {
      hide SerializePayload, DeserializePayload, SealNext, RecvFrame, ErrorText;
      pendingRequests := pendingRequests + {p.traceId};
      var bytes := SerializePayload(p);
      if bytes.Err? {
        pendingRequests := pendingRequests - {p.traceId};
        return Err(bytes.fault);
      }
      var sent := Send(c, FrameTypeOf(p), bytes.value);
      if sent.Err? {
        pendingRequests := pendingRequests - {p.traceId};
        return Err(sent.fault);
      }
      ghost var start := View();
      while true
        invariant Valid() && pendingRequests == {p.traceId}
        invariant ws != null ==> ws == old(ws)
        invariant AwaitReply(c, View(), p.traceId) == AwaitReply(c, start, p.traceId)
        decreases |View().inbox|
      {
        var frame := Recv(c);
        if frame.Err? {
          pendingRequests := pendingRequests - {p.traceId};
          return Err(frame.fault);
        }
        var outcome := Settle(frame.value.0, frame.value.1, p.traceId);
        if outcome.Some? {
          pendingRequests := pendingRequests - {p.traceId};
          return outcome.value;
        }
      }
    }

    /** `close`: a CLOSE frame, at most five seconds for its acknowledgement, and in every case a
        closed socket.  `arriving` is how many frames come in within the five seconds. */
    method Close(c: Primitives, reason: string, arriving: nat) returns (r: Result<()>)
      requires Valid()
      modifies this, sendSeq, recvSeq, if ws == null then {} else {ws}
      ensures Valid() && state == RelayState.Closed
      ensures old(state) == RelayState.Closed ==> View() == old(View()) && r == Ok(())
      ensures old(state) != RelayState.Closed ==> (View(), r.Ok?) == Shut(c, old(View()), reason, arriving)
    {
      hide SerializePayload, SealNext, RecvWithin;
      if state == RelayState.Closed {
        return Ok(());
      }
      state := Closing;
      r := Ok(());
      if trafficKeys.Some? && ws != null {
        var payload := SerializePayload(Payload.Close(reason, ""));
        var sent := if payload.Err? then Err(payload.fault) else Ok(());
        if payload.Ok? {
          sent := Send(c, FRAME_CLOSE, payload.value);
        }
        if sent.Err? {
          r := Err(sent.fault);
        } else {
          var frame := RecvInTime(c, arriving);
          if frame.Some? && frame.value.Err? {
            r := Err(frame.value.fault);
          } else if frame.Some? && frame.value.value.0 != FRAME_CLOSE_ACK {
            r := Err(RuntimeError("expected CLOSE_ACK"));
          }
        }
      }
      if ws != null {
        ws.closed := true;
      }
      state := RelayState.Closed;
    }
  }
}
