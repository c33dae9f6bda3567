/** The two-message handshake of a relay session (aim_node/core/handshake.py): the signed
    payloads, the manager's four operations as functions on its fields, and the manager itself. */
module Handshake {
  import opened Base64
  import opened Bytes
  import opened Crypto
  import opened RelayCrypto
  import opened Results
  import opened Text
  import Json

  const MAX_CLOCK_SKEW_MS := 30_000
  const PROTOCOL_VERSION := "AIM/1.0"

  datatype HandshakeState = Idle | InitSent | InitReceived | Established | Rejected | Failed

  datatype InitMessage = InitMessage(
    sessionId: string,
    initiatorNodeId: string,
    ephemeralPubkey: string,
    timestamp: int,
    signature: string,
    protocolVersion: string
  )

  datatype AcceptMessage = AcceptMessage(
    sessionId: string,
    responderNodeId: string,
    ephemeralPubkey: string,
    timestamp: int,
    signature: string,
    protocolVersion: string
  )

  datatype HandshakeResult = HandshakeResult(
    trafficKeys: TrafficKeys,
    peerNodeId: string,
    peerEphemeralPubkey: bytes,
    sessionId: string
  )

  // ---------------------------------------------------------------- signed payloads

  const INIT_TAG := "AIM-HANDSHAKE-INIT"
  const ACCEPT_TAG := "AIM-HANDSHAKE-ACCEPT"

  function InitText(sessionId: string, nodeId: string, ephemeral: string, timestamp: int): string {
    INIT_TAG + sessionId + nodeId + ephemeral + IntToString(timestamp)
  }

  function AcceptText(
    sessionId: string, nodeId: string, ephemeral: string, buyerEphemeral: string, timestamp: int
  ): string {
    ACCEPT_TAG + sessionId + nodeId + ephemeral + buyerEphemeral + IntToString(timestamp)
  }

  function BuildInitPayload(sessionId: string, nodeId: string, ephemeral: string, timestamp: int): bytes {
    EncodeUtf8(InitText(sessionId, nodeId, ephemeral, timestamp))
  }

  function BuildAcceptPayload(
    sessionId: string, nodeId: string, ephemeral: string, buyerEphemeral: string, timestamp: int
  ): bytes {
    EncodeUtf8(AcceptText(sessionId, nodeId, ephemeral, buyerEphemeral, timestamp))
  }

  predicate NoPadding(s: string) {
    forall i :: 0 <= i < |s| ==> s[i] != '='
  }

  lemma IntTextHasNoPadding(i: int)
    ensures NoPadding(IntToString(i))
  {
  }

  /** The last '=' of a string splits it in one way only. */
  lemma SplitAtLastPadding(x: string, d: string, y: string, e: string)
    requires x + d == y + e && NoPadding(d) && NoPadding(e)
    requires x != [] && x[|x| - 1] == '=' && y != [] && y[|y| - 1] == '='
    ensures x == y && d == e
  {
    var s := x + d;
    assert s[|x| - 1] == '=' && s[|y| - 1] == '=';
    assert forall i :: |x| <= i < |s| ==> s[i] == d[i - |x|];
    assert forall i :: |y| <= i < |s| ==> s[i] == e[i - |y|];
    assert x == s[..|x|] && y == s[..|y|] && d == s[|x|..] && e == s[|y|..];
  }

  lemma SplitFromEnd(x: string, k: string, y: string, l: string)
    requires x + k == y + l && |k| == |l|
    ensures x == y && k == l
  {
    var s := x + k;
    assert x == s[..|x|] && y == s[..|y|] && k == s[|x|..] && l == s[|y|..];
  }

  lemma SplitFromStart(a: string, x: string, b: string, y: string)
    requires a + x == b + y && |a| == |b|
    ensures a == b && x == y
  {
    var s := a + x;
    assert a == s[..|a|] && b == s[..|b|] && x == s[|a|..] && y == s[|b|..];
  }

  /** The accept payload has no delimiters.  It fixes both keys, the timestamp and the
      concatenation of the two identifiers, and nothing more. */
  lemma AcceptPayloadDetermines(
    sid: string, node: string, eph: string, buyer: string, ts: int,
    sid2: string, node2: string, eph2: string, buyer2: string, ts2: int
  )
    requires PaddedKey(eph) && PaddedKey(buyer) && PaddedKey(eph2) && PaddedKey(buyer2)
    ensures BuildAcceptPayload(sid, node, eph, buyer, ts) == BuildAcceptPayload(sid2, node2, eph2, buyer2, ts2)
       <==> sid + node == sid2 + node2 && eph == eph2 && buyer == buyer2 && ts == ts2
  {
    hide EncodeUtf8, IntToString;
    assert forall s: string, n: string :: ACCEPT_TAG + s + n == ACCEPT_TAG + (s + n);
    if BuildAcceptPayload(sid, node, eph, buyer, ts) == BuildAcceptPayload(sid2, node2, eph2, buyer2, ts2) {
      EncodeUtf8Injective(AcceptText(sid, node, eph, buyer, ts), AcceptText(sid2, node2, eph2, buyer2, ts2));
      IntTextHasNoPadding(ts);
      IntTextHasNoPadding(ts2);
      SplitAtLastPadding(ACCEPT_TAG + sid + node + eph + buyer, IntToString(ts),
                         ACCEPT_TAG + sid2 + node2 + eph2 + buyer2, IntToString(ts2));
      IntToStringInjective(ts, ts2);
      SplitFromEnd(ACCEPT_TAG + sid + node + eph, buyer, ACCEPT_TAG + sid2 + node2 + eph2, buyer2);
      SplitFromEnd(ACCEPT_TAG + sid + node, eph, ACCEPT_TAG + sid2 + node2, eph2);
      SplitFromStart(ACCEPT_TAG, sid + node, ACCEPT_TAG, sid2 + node2);
    }
  }

  lemma InitPayloadDetermines(
    sid: string, node: string, eph: string, ts: int, sid2: string, node2: string, eph2: string, ts2: int
  )
    requires PaddedKey(eph) && PaddedKey(eph2)
    ensures BuildInitPayload(sid, node, eph, ts) == BuildInitPayload(sid2, node2, eph2, ts2)
       <==> sid + node == sid2 + node2 && eph == eph2 && ts == ts2
  {
    hide EncodeUtf8, IntToString;
    assert forall s: string, n: string :: INIT_TAG + s + n == INIT_TAG + (s + n);
    if BuildInitPayload(sid, node, eph, ts) == BuildInitPayload(sid2, node2, eph2, ts2) {
      EncodeUtf8Injective(InitText(sid, node, eph, ts), InitText(sid2, node2, eph2, ts2));
      IntTextHasNoPadding(ts);
      IntTextHasNoPadding(ts2);
      SplitAtLastPadding(INIT_TAG + sid + node + eph, IntToString(ts), INIT_TAG + sid2 + node2 + eph2, IntToString(ts2));
      IntToStringInjective(ts, ts2);
      SplitFromEnd(INIT_TAG + sid + node, eph, INIT_TAG + sid2 + node2, eph2);
      SplitFromStart(INIT_TAG, sid + node, INIT_TAG, sid2 + node2);
    }
  }

  /** With session ids of equal length the payload fixes every field. */
  lemma AcceptPayloadInjective(
    sid: string, node: string, eph: string, buyer: string, ts: int,
    sid2: string, node2: string, eph2: string, buyer2: string, ts2: int
  )
    requires PaddedKey(eph) && PaddedKey(buyer) && PaddedKey(eph2) && PaddedKey(buyer2)
    requires |sid| == |sid2|
    requires BuildAcceptPayload(sid, node, eph, buyer, ts) == BuildAcceptPayload(sid2, node2, eph2, buyer2, ts2)
    ensures (sid, node, eph, buyer, ts) == (sid2, node2, eph2, buyer2, ts2)
  {
    hide BuildAcceptPayload;
    AcceptPayloadDetermines(sid, node, eph, buyer, ts, sid2, node2, eph2, buyer2, ts2);
    SplitFromStart(sid, node, sid2, node2);
  }

  lemma InitPayloadInjective(
    sid: string, node: string, eph: string, ts: int, sid2: string, node2: string, eph2: string, ts2: int
  )
    requires PaddedKey(eph) && PaddedKey(eph2) && |sid| == |sid2|
    requires BuildInitPayload(sid, node, eph, ts) == BuildInitPayload(sid2, node2, eph2, ts2)
    ensures (sid, node, eph, ts) == (sid2, node2, eph2, ts2)
  {
    hide BuildInitPayload;
    InitPayloadDetermines(sid, node, eph, ts, sid2, node2, eph2, ts2);
    SplitFromStart(sid, node, sid2, node2);
  }

  /** Without equal lengths it does not: a character can move between the identifiers. */
  lemma PayloadAmbiguity(eph: string, buyer: string, ts: int)
    ensures BuildAcceptPayload("s1", "node", eph, buyer, ts) == BuildAcceptPayload("s", "1node", eph, buyer, ts)
  {
    hide EncodeUtf8, IntToString;
    assert ACCEPT_TAG + "s1" + "node" == ACCEPT_TAG + "s" + "1node";
  }

  /** The two kinds of payload never coincide: their tags differ at position 14. */
  lemma PayloadKindsDiffer(
    sid: string, node: string, eph: string, ts: int,
    sid2: string, node2: string, eph2: string, buyer2: string, ts2: int
  )
    ensures BuildInitPayload(sid, node, eph, ts) != BuildAcceptPayload(sid2, node2, eph2, buyer2, ts2)
  {
    hide EncodeUtf8, IntToString;
    var s, t := InitText(sid, node, eph, ts), AcceptText(sid2, node2, eph2, buyer2, ts2);
    assert s[14] == INIT_TAG[14] == 'I' && t[14] == ACCEPT_TAG[14] == 'A';
    assert EncodeUtf8(s) != EncodeUtf8(t) by {
      if EncodeUtf8(s) == EncodeUtf8(t) {
        EncodeUtf8Injective(s, t);
      }
    }
  }

  // ---------------------------------------------------------------- operations

  datatype Manager = Manager(
    nodeId: string,
    edPrivate: bytes,
    state: HandshakeState,
    ephPrivate: Option<bytes>,
    ephPublic: Option<bytes>,
    peerEphPublic: Option<bytes>,
    sessionId: Option<string>
  )

  function NewManager(nodeId: string, edPrivate: bytes): Manager {
    Manager(nodeId, edPrivate, Idle, None, None, None, None)
  }

  predicate TimestampOk(timestamp: int, now: int) {
    -MAX_CLOCK_SKEW_MS <= now - timestamp <= MAX_CLOCK_SKEW_MS
  }

  /** `_verify_signature` with the base64 text of a signature. */
  predicate SignatureOk(c: Primitives, pub: bytes, payload: bytes, signature: string) {
    Decode(signature).Some? && c.verify(pub, payload, Decode(signature).value)
  }

  /** `X25519PublicKey.from_public_bytes(b64decode(text, validate=True))`. */
  function PublicKeyOf(text: string): Result<bytes> {
    match Decode(text)
    case None => Err(ValueError("invalid base64"))
    case Some(b) => if |b| == 32 then Ok(b) else Err(ValueError("An X25519 public key is 32 bytes long"))
  }

  function SignText(c: Primitives, m: Manager, payload: bytes): string {
    Encode(c.sign(m.edPrivate, payload))
  }

  /** `_compute_shared_secret_and_keys`. */
  function ComputeKeys(c: Primitives, m: Manager, peer: bytes, sessionId: string): Result<TrafficKeys> {
    if m.ephPrivate.None? then Err(ValueError("local ephemeral key not initialized"))
    else if |peer| != 32 then Err(ValueError("An X25519 public key is 32 bytes long"))
    else
      match c.exchange(m.ephPrivate.value, peer)
      case None => Err(ValueError("Error computing shared key."))
      case Some(secret) => Ok(DeriveTrafficKeys(c, secret, sessionId))
  }

  /** A manager with the generated key pair of private key `ephemeral`. */
  function WithEphemeral(c: Primitives, m: Manager, ephemeral: bytes): Manager {
    m.(ephPrivate := Some(ephemeral), ephPublic := Some(c.x25519Public(ephemeral)))
  }

  function CreateInit(
    c: Primitives, m: Manager, sessionId: string, ephemeral: bytes, now: int
  ): (Manager, Result<InitMessage>) {
    if m.state != Idle then (m, Err(RuntimeError("cannot create init")))
    else
      var eph := Encode(c.x25519Public(ephemeral));
      var payload := BuildInitPayload(sessionId, m.nodeId, eph, now);
      (WithEphemeral(c, m, ephemeral).(sessionId := Some(sessionId), state := InitSent),
       Ok(InitMessage(sessionId, m.nodeId, eph, now, SignText(c, m, payload), PROTOCOL_VERSION)))
  }

  predicate InitAcceptable(
    c: Primitives, msg: InitMessage, expectedSession: string, expectedNode: string, buyerPub: bytes, now: int
  ) {
    && msg.sessionId == expectedSession
    && msg.initiatorNodeId == expectedNode
    && TimestampOk(msg.timestamp, now)
    && SignatureOk(c, buyerPub,
                   BuildInitPayload(msg.sessionId, msg.initiatorNodeId, msg.ephemeralPubkey, msg.timestamp),
                   msg.signature)
    && PublicKeyOf(msg.ephemeralPubkey).Ok?
  }

  function VerifyInit(
    c: Primitives, m: Manager, msg: InitMessage, expectedSession: string, expectedNode: string,
    buyerPub: bytes, now: int
  ): (Manager, Result<()>) {
    if m.state != Idle then (m, Err(RuntimeError("cannot verify init")))
    else if !InitAcceptable(c, msg, expectedSession, expectedNode, buyerPub, now) then
      (m.(state := Failed), Err(ValueError("init rejected")))
    else
      (m.(peerEphPublic := Some(PublicKeyOf(msg.ephemeralPubkey).value), sessionId := Some(msg.sessionId),
          state := InitReceived), Ok(()))
  }

  /** What `create_accept` checks before it generates a key and signs. */
  predicate AcceptReachesSigning(m: Manager, sessionId: string, buyerEph: string) {
    && m.state == InitReceived
    && m.sessionId == Some(sessionId)
    && Decode(buyerEph).Some?
    && match m.peerEphPublic
       case None => |Decode(buyerEph).value| == 32
       case Some(peer) => peer == Decode(buyerEph).value
  }

  function CreateAccept(
    c: Primitives, m: Manager, sessionId: string, buyerEph: string, ephemeral: bytes, now: int
  ): (Manager, Result<AcceptMessage>) {
    if m.state != InitReceived then (m, Err(RuntimeError("cannot create accept")))
    else if !AcceptReachesSigning(m, sessionId, buyerEph) then
      var mismatch := m.sessionId == Some(sessionId) && Decode(buyerEph).Some? && m.peerEphPublic.Some?;
      (if mismatch then m.(state := Failed) else m, Err(ValueError("accept refused")))
    else
      var peer := Decode(buyerEph).value;
      var eph := Encode(c.x25519Public(ephemeral));
      var payload := BuildAcceptPayload(sessionId, m.nodeId, eph, buyerEph, now);
      var m' := WithEphemeral(c, m, ephemeral).(peerEphPublic := Some(peer));
      match ComputeKeys(c, m', peer, sessionId)
      case Err(e) => (m', Err(e))
      case Ok(_) =>
        (m'.(state := Established),
         Ok(AcceptMessage(sessionId, m.nodeId, eph, now, SignText(c, m, payload), PROTOCOL_VERSION)))
  }

  predicate AcceptAcceptable(c: Primitives, m: Manager, msg: AcceptMessage, sellerPub: bytes, now: int)
    requires m.ephPublic.Some? && m.sessionId.Some?
  {
    && msg.sessionId == m.sessionId.value
    && TimestampOk(msg.timestamp, now)
    && SignatureOk(c, sellerPub,
                   BuildAcceptPayload(msg.sessionId, msg.responderNodeId, msg.ephemeralPubkey,
                                      Encode(m.ephPublic.value), msg.timestamp),
                   msg.signature)
    && PublicKeyOf(msg.ephemeralPubkey).Ok?
  }

  function VerifyAccept(
    c: Primitives, m: Manager, msg: AcceptMessage, sellerPub: bytes, now: int
  ): (Manager, Result<HandshakeResult>) {
    if m.state != InitSent then (m, Err(RuntimeError("cannot verify accept")))
    else if m.ephPublic.None? || m.sessionId.None? || !AcceptAcceptable(c, m, msg, sellerPub, now) then
      (m.(state := Failed), Err(ValueError("accept rejected")))
    else
      var peer := PublicKeyOf(msg.ephemeralPubkey).value;
      var m' := m.(peerEphPublic := Some(peer));
      match ComputeKeys(c, m', peer, msg.sessionId)
      case Err(e) => (m'.(state := Failed), Err(e))
      case Ok(keys) =>
        (m'.(state := Established), Ok(HandshakeResult(keys, msg.responderNodeId, peer, msg.sessionId)))
  }

  // ---------------------------------------------------------------- what each check lets through

  /** A text that decodes to a public key. */
  predicate IsKey(text: string) {
    Decode(text).Some? && |Decode(text).value| == 32
  }

  /** The signature is one of this text, under this key. */
  predicate SignedBy(c: Primitives, pub: bytes, text: string, signature: string) {
    Decode(signature).Some? && c.verify(pub, EncodeUtf8(text), Decode(signature).value)
  }

  /** An idle manager takes an init exactly when it names the expected session and node, is at most 30
      seconds old or early, is signed by the buyer over these ids, the key and the time, and has a key. */
  lemma InitVerifiedIff(c: Primitives, m: Manager, msg: InitMessage, session: string, node: string, pub: bytes, now: int)
    requires m.state == Idle
    ensures var (m', r) := VerifyInit(c, m, msg, session, node, pub, now);
            var signed := "AIM-HANDSHAKE-INIT" + session + node + msg.ephemeralPubkey + IntToString(msg.timestamp);
            && (r.Ok? <==>
                  && msg.sessionId == session && msg.initiatorNodeId == node
                  && -30_000 <= now - msg.timestamp <= 30_000
                  && SignedBy(c, pub, signed, msg.signature) && IsKey(msg.ephemeralPubkey))
            && m' == if r.Ok? then m.(peerEphPublic := Decode(msg.ephemeralPubkey), sessionId := Some(session), state := InitReceived)
                     else m.(state := Failed)
  {
    hide EncodeUtf8, Decode, IntToString;
  }

  /** A manager that took an init answers for exactly its session and the key it took, if the key
      agreement succeeds; another key ends the handshake, another session does not.  The answer is signed
      over the ids, both keys and the time. */
  lemma AcceptCreatedIff(c: Primitives, m: Manager, session: string, buyerEph: string, ephemeral: bytes, now: int)
    requires SignatureLaws(c) && m.state == InitReceived && m.peerEphPublic.Some? && |m.peerEphPublic.value| == 32
    ensures var (m', r) := CreateAccept(c, m, session, buyerEph, ephemeral, now);
            var mine := m.sessionId == Some(session);
            && (r.Ok? <==> mine && Decode(buyerEph) == m.peerEphPublic && c.exchange(ephemeral, m.peerEphPublic.value).Some?)
            && (m'.state == Failed <==> mine && Decode(buyerEph).Some? && Decode(buyerEph) != m.peerEphPublic)
            && (m'.state == Established <==> r.Ok?)
            && (!mine || Decode(buyerEph).None? ==> m' == m)
            && (r.Ok? ==>
                  var accept := r.value;
                  var signed := "AIM-HANDSHAKE-ACCEPT" + session + m.nodeId + accept.ephemeralPubkey + buyerEph + IntToString(now);
                  && accept.sessionId == session && accept.responderNodeId == m.nodeId && accept.timestamp == now
                  && Decode(accept.ephemeralPubkey) == Some(c.x25519Public(ephemeral))
                  && m'.ephPrivate == Some(ephemeral) && m'.sessionId == m.sessionId && m'.peerEphPublic == m.peerEphPublic
                  && SignedBy(c, c.ed25519Public(m.edPrivate), signed, accept.signature))
  {
    hide EncodeUtf8, Decode, Encode, IntToString, DeriveTrafficKeys;
    DecodeEncoded(c.x25519Public(ephemeral));
    DecodeEncoded(c.sign(m.edPrivate, BuildAcceptPayload(session, m.nodeId, Encode(c.x25519Public(ephemeral)), buyerEph, now)));
  }

  /** A manager that sent an init takes an accept exactly when it names its session, is at most 30 seconds
      old or early, is signed by the seller over the ids, the two keys and the time, and has a key with
      which the key agreement succeeds; the traffic keys are then those of the secret and the session. */
  lemma AcceptVerifiedIff(c: Primitives, m: Manager, msg: AcceptMessage, pub: bytes, now: int)
    requires m.state == InitSent && m.sessionId.Some? && m.ephPrivate.Some? && m.ephPublic.Some?
    ensures var (m', r) := VerifyAccept(c, m, msg, pub, now);
            var signed := "AIM-HANDSHAKE-ACCEPT" + msg.sessionId + msg.responderNodeId + msg.ephemeralPubkey
                          + Encode(m.ephPublic.value) + IntToString(msg.timestamp);
            && (r.Ok? <==>
                  && msg.sessionId == m.sessionId.value
                  && -30_000 <= now - msg.timestamp <= 30_000
                  && SignedBy(c, pub, signed, msg.signature)
                  && IsKey(msg.ephemeralPubkey) && c.exchange(m.ephPrivate.value, Decode(msg.ephemeralPubkey).value).Some?)
            && m'.state == (if r.Ok? then Established else Failed)
            && (r.Ok? ==>
                  && r.value.sessionId == msg.sessionId && r.value.peerNodeId == msg.responderNodeId
                  && Some(r.value.peerEphemeralPubkey) == Decode(msg.ephemeralPubkey)
                  && r.value.trafficKeys
                     == DeriveTrafficKeys(c, c.exchange(m.ephPrivate.value, r.value.peerEphemeralPubkey).value, msg.sessionId))
  {
    hide EncodeUtf8, Decode, Encode, IntToString, DeriveTrafficKeys;
  }

  // ---------------------------------------------------------------- the manager

  /** One handshake; its fields change only through the four operations. */
  class HandshakeManager {
    const nodeId: string
    const edPrivate: bytes
    var state: HandshakeState
    var ephPrivate: Option<bytes>
    var ephPublic: Option<bytes>
    var peerEphPublic: Option<bytes>
    var sessionId: Option<string>

    ghost function View(): Manager
      reads this
    {
      Manager(nodeId, edPrivate, state, ephPrivate, ephPublic, peerEphPublic, sessionId)
    }

    constructor (nodeId: string, edPrivate: bytes)
      ensures View() == NewManager(nodeId, edPrivate)
    {
      this.nodeId, this.edPrivate, state := nodeId, edPrivate, Idle;
      ephPrivate, ephPublic, peerEphPublic, sessionId := None, None, None, None;
    }

    method Init(c: Primitives, session: string, ephemeral: bytes, now: int) returns (r: Result<InitMessage>)
      modifies this
      ensures (View(), r) == CreateInit(c, old(View()), session, ephemeral, now)
    {
      if state != Idle {
        return Err(RuntimeError("cannot create init"));
      }
      ephPrivate := Some(ephemeral);
      ephPublic := Some(c.x25519Public(ephemeral));
      sessionId := Some(session);
      var eph := Encode(ephPublic.value);
      var signature := Encode(c.sign(edPrivate, BuildInitPayload(session, nodeId, eph, now)));
      state := InitSent;
      return Ok(InitMessage(session, nodeId, eph, now, signature, PROTOCOL_VERSION));
    }

    method CheckInit(
      c: Primitives, msg: InitMessage, expectedSession: string, expectedNode: string, buyerPub: bytes, now: int
    ) returns (r: Result<()>)
      modifies this
      ensures (View(), r) == VerifyInit(c, old(View()), msg, expectedSession, expectedNode, buyerPub, now)
    {
      hide BuildInitPayload, Decode;
      if state != Idle {
        return Err(RuntimeError("cannot verify init"));
      }
      var payload := BuildInitPayload(msg.sessionId, msg.initiatorNodeId, msg.ephemeralPubkey, msg.timestamp);
      if msg.sessionId != expectedSession || msg.initiatorNodeId != expectedNode
         || !TimestampOk(msg.timestamp, now) || !SignatureOk(c, buyerPub, payload, msg.signature) {
        state := Failed;
        return Err(ValueError("init rejected"));
      }
      var key := PublicKeyOf(msg.ephemeralPubkey);
      if key.Err? {
        state := Failed;
        return Err(ValueError("init rejected"));
      }
      peerEphPublic := Some(key.value);
      sessionId := Some(msg.sessionId);
      state := InitReceived;
      return Ok(());
    }

    method Accept(c: Primitives, session: string, buyerEph: string, ephemeral: bytes, now: int)
      returns (r: Result<AcceptMessage>)
      modifies this
      ensures (View(), r) == CreateAccept(c, old(View()), session, buyerEph, ephemeral, now)
    {
      hide BuildAcceptPayload, Encode, Decode, DeriveTrafficKeys;
      if state != InitReceived {
        return Err(RuntimeError("cannot create accept"));
      }
      if sessionId != Some(session) || Decode(buyerEph).None? {
        return Err(ValueError("accept refused"));
      }
      var peer := Decode(buyerEph).value;
      if peerEphPublic.None? {
        if |peer| != 32 {
          return Err(ValueError("accept refused"));
        }
        peerEphPublic := Some(peer);
      } else if peerEphPublic.value != peer {
        state := Failed;
        return Err(ValueError("accept refused"));
      }
      ephPrivate := Some(ephemeral);
      ephPublic := Some(c.x25519Public(ephemeral));
      var eph := Encode(ephPublic.value);
      var signature := Encode(c.sign(edPrivate, BuildAcceptPayload(session, nodeId, eph, buyerEph, now)));
      var keys := SharedKeys(c, peer, session);
      if keys.Err? {
        return Err(keys.fault);
      }
      state := Established;
      return Ok(AcceptMessage(session, nodeId, eph, now, signature, PROTOCOL_VERSION));
    }

    method CheckAccept(c: Primitives, msg: AcceptMessage, sellerPub: bytes, now: int)
      returns (r: Result<HandshakeResult>)
      modifies this
      ensures (View(), r) == VerifyAccept(c, old(View()), msg, sellerPub, now)
    {
      hide BuildAcceptPayload, Encode, Decode, DeriveTrafficKeys;
      if state != InitSent {
        return Err(RuntimeError("cannot verify accept"));
      }
      if ephPublic.None? || sessionId.None? {
        state := Failed;
        return Err(ValueError("accept rejected"));
      }
      var payload := BuildAcceptPayload(msg.sessionId, msg.responderNodeId, msg.ephemeralPubkey,
                                        Encode(ephPublic.value), msg.timestamp);
      var key := PublicKeyOf(msg.ephemeralPubkey);
      if msg.sessionId != sessionId.value || !TimestampOk(msg.timestamp, now)
         || !SignatureOk(c, sellerPub, payload, msg.signature) || key.Err? {
        state := Failed;
        return Err(ValueError("accept rejected"));
      }
      peerEphPublic := Some(key.value);
      var keys := SharedKeys(c, key.value, msg.sessionId);
      if keys.Err? {
        state := Failed;
        return Err(keys.fault);
      }
      state := Established;
      return Ok(HandshakeResult(keys.value, msg.responderNodeId, key.value, msg.sessionId));
    }

    /** `_compute_shared_secret_and_keys` only reads the manager. */
    function SharedKeys(c: Primitives, peer: bytes, session: string): (r: Result<TrafficKeys>)
      reads this
      ensures r == ComputeKeys(c, View(), peer, session)
    {
      if ephPrivate.None? then Err(ValueError("local ephemeral key not initialized"))
      else if |peer| != 32 then Err(ValueError("An X25519 public key is 32 bytes long"))
      else
        match c.exchange(ephPrivate.value, peer)
        case None => Err(ValueError("Error computing shared key."))
        case Some(secret) => Ok(DeriveTrafficKeys(c, secret, session))
    }
  }

  // ---------------------------------------------------------------- messages as JSON

  predicate KeysWithin(d: Json.Dict, names: seq<string>) {
    forall i :: 0 <= i < |d| ==> d[i].key in names
  }

  const INIT_KEYS := ["ephemeral_pubkey", "initiator_node_id", "protocol_version", "session_id", "signature", "timestamp"]
  const ACCEPT_KEYS := ["ephemeral_pubkey", "protocol_version", "responder_node_id", "session_id", "signature", "timestamp"]

  /** `asdict`, in the order `sort_keys` writes it. */
  function InitFields(m: InitMessage): Json.Dict {
    [Json.Field("ephemeral_pubkey", Json.JStr(m.ephemeralPubkey)),
     Json.Field("initiator_node_id", Json.JStr(m.initiatorNodeId)),
     Json.Field("protocol_version", Json.JStr(m.protocolVersion)),
     Json.Field("session_id", Json.JStr(m.sessionId)),
     Json.Field("signature", Json.JStr(m.signature)),
     Json.Field("timestamp", Json.JInt(m.timestamp))]
  }

  function AcceptFields(m: AcceptMessage): Json.Dict {
    [Json.Field("ephemeral_pubkey", Json.JStr(m.ephemeralPubkey)),
     Json.Field("protocol_version", Json.JStr(m.protocolVersion)),
     Json.Field("responder_node_id", Json.JStr(m.responderNodeId)),
     Json.Field("session_id", Json.JStr(m.sessionId)),
     Json.Field("signature", Json.JStr(m.signature)),
     Json.Field("timestamp", Json.JInt(m.timestamp))]
  }

  function WriteInit(m: InitMessage): string {
    Json.Dumps(Json.JObj(InitFields(m)), Json.COMPACT)
  }

  function WriteAccept(m: AcceptMessage): string {
    Json.Dumps(Json.JObj(AcceptFields(m)), Json.COMPACT)
  }

  /** `HandshakeInitMessage(**fields)`: an unknown or a missing name is refused. */
  function InitOfFields(d: Json.Dict): Result<InitMessage> {
    var version := if Json.HasKey(d, "protocol_version") then Json.GetStr(d, "protocol_version") else Some(PROTOCOL_VERSION);
    if !KeysWithin(d, INIT_KEYS) then Err(TypeError("unexpected keyword argument"))
    else
      match (Json.GetStr(d, "session_id"), Json.GetStr(d, "initiator_node_id"), Json.GetStr(d, "ephemeral_pubkey"),
             Json.GetInt(d, "timestamp"), Json.GetStr(d, "signature"), version)
      case (Some(s), Some(n), Some(e), Some(t), Some(g), Some(v)) => Ok(InitMessage(s, n, e, t, g, v))
      case _ => Err(TypeError("missing required argument"))
  }

  function AcceptOfFields(d: Json.Dict): Result<AcceptMessage> {
    var version := if Json.HasKey(d, "protocol_version") then Json.GetStr(d, "protocol_version") else Some(PROTOCOL_VERSION);
    if !KeysWithin(d, ACCEPT_KEYS) then Err(TypeError("unexpected keyword argument"))
    else
      match (Json.GetStr(d, "session_id"), Json.GetStr(d, "responder_node_id"), Json.GetStr(d, "ephemeral_pubkey"),
             Json.GetInt(d, "timestamp"), Json.GetStr(d, "signature"), version)
      case (Some(s), Some(n), Some(e), Some(t), Some(g), Some(v)) => Ok(AcceptMessage(s, n, e, t, g, v))
      case _ => Err(TypeError("missing required argument"))
  }

  function ReadInit(text: string): Result<InitMessage> {
    match Json.Loads(text)
    case None => Err(ValueError("invalid JSON"))
    case Some(JObj(d)) => InitOfFields(d)
    case Some(_) => Err(TypeError("argument after ** must be a mapping"))
  }

  function ReadAccept(text: string): Result<AcceptMessage> {
    match Json.Loads(text)
    case None => Err(ValueError("invalid JSON"))
    case Some(JObj(d)) => AcceptOfFields(d)
    case Some(_) => Err(TypeError("argument after ** must be a mapping"))
  }

  lemma InitFieldsRead(m: InitMessage)
    ensures Json.UniqueKeys(InitFields(m)) && InitOfFields(InitFields(m)) == Ok(m)
  {
    hide Json.Get;
    var d := InitFields(m);
    assert d[0].key == INIT_KEYS[0] && d[1].key == INIT_KEYS[1] && d[2].key == INIT_KEYS[2]
        && d[3].key == INIT_KEYS[3] && d[4].key == INIT_KEYS[4] && d[5].key == INIT_KEYS[5];
    assert Json.UniqueKeys(d) && KeysWithin(d, INIT_KEYS);
    Json.GetAt(d, 0);
    Json.GetAt(d, 1);
    Json.GetAt(d, 2);
    Json.GetAt(d, 3);
    Json.GetAt(d, 4);
    Json.GetAt(d, 5);
  }

  lemma AcceptFieldsRead(m: AcceptMessage)
    ensures Json.UniqueKeys(AcceptFields(m)) && AcceptOfFields(AcceptFields(m)) == Ok(m)
  {
    hide Json.Get;
    var d := AcceptFields(m);
    assert d[0].key == ACCEPT_KEYS[0] && d[1].key == ACCEPT_KEYS[1] && d[2].key == ACCEPT_KEYS[2]
        && d[3].key == ACCEPT_KEYS[3] && d[4].key == ACCEPT_KEYS[4] && d[5].key == ACCEPT_KEYS[5];
    assert Json.UniqueKeys(d) && KeysWithin(d, ACCEPT_KEYS);
    Json.GetAt(d, 0);
    Json.GetAt(d, 1);
    Json.GetAt(d, 2);
    Json.GetAt(d, 3);
    Json.GetAt(d, 4);
    Json.GetAt(d, 5);
  }

  /** The handshake messages survive their trip as JSON text. */
  lemma MessagesRoundTrip(i: InitMessage, a: AcceptMessage)
    ensures ReadInit(WriteInit(i)) == Ok(i)
    ensures ReadAccept(WriteAccept(a)) == Ok(a)
  {
    hide Json.Loads, Json.Dumps, InitOfFields, AcceptOfFields;
    InitFieldsRead(i);
    AcceptFieldsRead(a);
    Json.LoadsDumps(Json.JObj(InitFields(i)), Json.COMPACT);
    Json.LoadsDumps(Json.JObj(AcceptFields(a)), Json.COMPACT);
  }
}
