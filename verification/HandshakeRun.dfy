/** Every run of any number of handshake managers over a relay that delivers whatever messages it
    likes.  The only thing the relay cannot do is make a signature check succeed for a payload the
    owner of an honest key never signed. */
module HandshakeRun {
  import opened Base64
  import opened Bytes
  import opened Crypto
  import opened Handshake
  import opened RelayCrypto
  import opened Results
  import opened Text

  /** Why a signature exists: which manager made it, and of what. */
  datatype Origin =
    | FromInit(manager: nat, session: string, node: string, ephemeral: string, timestamp: int)
    | FromAccept(manager: nat, session: string, node: string, ephPrivate: bytes, buyerEph: string, timestamp: int)

  datatype Signed = Signed(pub: bytes, payload: bytes, origin: Origin)

  datatype World = World(managers: map<nat, Manager>, signed: seq<Signed>)

  const EMPTY := World(map[], [])

  datatype Event =
    | Start(id: nat, nodeId: string, edPrivate: bytes)
    | SendInit(id: nat, session: string, ephemeral: bytes, now: int)
    | RecvInit(id: nat, init: InitMessage, session: string, node: string, pub: bytes, now: int)
    | SendAccept(id: nat, session: string, buyerEph: string, ephemeral: bytes, now: int)
    | RecvAccept(id: nat, accept: AcceptMessage, pub: bytes, now: int)

  /** The signature an event makes.  A `create_accept` that fails while computing the keys has
      already signed. */
  function Signs(c: Primitives, m: Manager, e: Event): Option<Signed> {
    match e
    case SendInit(id, session, ephemeral, now) =>
      if m.state != Idle then None
      else
        var text := Encode(c.x25519Public(ephemeral));
        Some(Signed(c.ed25519Public(m.edPrivate), BuildInitPayload(session, m.nodeId, text, now),
                    FromInit(id, session, m.nodeId, text, now)))
    case SendAccept(id, session, buyerEph, ephemeral, now) =>
      if !AcceptReachesSigning(m, session, buyerEph) then None
      else
        var text := Encode(c.x25519Public(ephemeral));
        Some(Signed(c.ed25519Public(m.edPrivate), BuildAcceptPayload(session, m.nodeId, text, buyerEph, now),
                    FromAccept(id, session, m.nodeId, ephemeral, buyerEph, now)))
    case _ => None
  }

  /** The manager after an event addressed to it. */
  function Next(c: Primitives, m: Manager, e: Event): Manager {
    match e
    case Start(_, _, _) => m
    case SendInit(_, session, ephemeral, now) => CreateInit(c, m, session, ephemeral, now).0
    case RecvInit(_, msg, session, node, pub, now) => VerifyInit(c, m, msg, session, node, pub, now).0
    case SendAccept(_, session, buyerEph, ephemeral, now) => CreateAccept(c, m, session, buyerEph, ephemeral, now).0
    case RecvAccept(_, msg, pub, now) => VerifyAccept(c, m, msg, pub, now).0
  }

  function Step(c: Primitives, w: World, e: Event): World
    requires e.Start? || e.id in w.managers
  {
    if e.Start? then w.(managers := w.managers[e.id := NewManager(e.nodeId, e.edPrivate)])
    else
      var m := w.managers[e.id];
      World(w.managers[e.id := Next(c, m, e)],
            match Signs(c, m, e) case None => w.signed case Some(s) => w.signed + [s])
  }

  predicate WasSigned(w: World, pub: bytes, payload: bytes) {
    exists k :: 0 <= k < |w.signed| && w.signed[k].pub == pub && w.signed[k].payload == payload
  }

  /** The key, payload and signature that the check of an event is about. */
  function Claim(m: Manager, e: Event): Option<(bytes, bytes, string)> {
    match e
    case RecvInit(_, msg, _, _, pub, _) =>
      Some((pub, BuildInitPayload(msg.sessionId, msg.initiatorNodeId, msg.ephemeralPubkey, msg.timestamp), msg.signature))
    case RecvAccept(_, msg, pub, _) =>
      if m.ephPublic.None? then None
      else
        Some((pub, BuildAcceptPayload(msg.sessionId, msg.responderNodeId, msg.ephemeralPubkey,
                                      Encode(m.ephPublic.value), msg.timestamp), msg.signature))
    case _ => None
  }

  /** The relay cannot forge: a signature that is delivered and passes the check under an honest key
      is of a payload that key's owner signed before. */
  predicate Unforged(c: Primitives, w: World, honest: set<bytes>, m: Manager, e: Event) {
    match Claim(m, e)
    case None => true
    case Some((pub, payload, signature)) =>
      pub in honest && SignatureOk(c, pub, payload, signature) ==> WasSigned(w, pub, payload)
  }

  predicate Admissible(c: Primitives, honest: set<bytes>, w: World, e: Event) {
    if e.Start? then e.id !in w.managers
    else e.id in w.managers && Unforged(c, w, honest, w.managers[e.id], e)
  }

  /** The worlds a run passes through. */
  ghost predicate IsRun(c: Primitives, honest: set<bytes>, ws: seq<World>, es: seq<Event>) {
    && |ws| == |es| + 1 && ws[0] == EMPTY
    && forall i {:trigger es[i]} :: 0 <= i < |es| ==>
         Admissible(c, honest, ws[i], es[i]) && ws[i + 1] == Step(c, ws[i], es[i])
  }

  // ---------------------------------------------------------------- finality

  predicate Final(m: Manager) {
    m.state == Established || m.state == Failed
  }

  /** ESTABLISHED and FAILED are never left: no operation changes anything any more. */
  lemma FinalStatesAreKept(c: Primitives, m: Manager, e: Event)
    requires Final(m)
    ensures Next(c, m, e) == m && Signs(c, m, e).None?
  {
  }

  lemma {:induction false} FinalStatesAreKeptInRuns(
    c: Primitives, honest: set<bytes>, ws: seq<World>, es: seq<Event>, i: nat, j: nat, id: nat
  )
    requires IsRun(c, honest, ws, es) && i <= j < |ws|
    requires id in ws[i].managers && Final(ws[i].managers[id])
    ensures id in ws[j].managers && ws[j].managers[id] == ws[i].managers[id]
  {
    if i < j {
      FinalStatesAreKeptInRuns(c, honest, ws, es, i, j - 1, id);
      assert Admissible(c, honest, ws[j - 1], es[j - 1]);
      FinalStatesAreKept(c, ws[i].managers[id], es[j - 1]);
    }
  }

  // ---------------------------------------------------------------- the invariant

  predicate ManagerOk(c: Primitives, m: Manager) {
    && (m.ephPrivate.Some? ==> m.ephPublic == Some(c.x25519Public(m.ephPrivate.value)))
    && (m.peerEphPublic.Some? ==> |m.peerEphPublic.value| == 32)
    && (m.state == InitSent ==> m.ephPrivate.Some? && m.sessionId.Some?)
  }

  /** A signature is of the payload its origin says, and an accept whose key agreement succeeds
      has left its seller established with exactly those keys. */
  predicate SignedOk(c: Primitives, w: World, s: Signed) {
    match s.origin
    case FromInit(id, session, node, eph, ts) =>
      && s.payload == BuildInitPayload(session, node, eph, ts)
      && PaddedKey(eph)
      && id in w.managers
      && s.pub == c.ed25519Public(w.managers[id].edPrivate)
    case FromAccept(id, session, node, ephPrivate, buyerEph, ts) =>
      && s.payload == BuildAcceptPayload(session, node, Encode(c.x25519Public(ephPrivate)), buyerEph, ts)
      && Decode(buyerEph).Some? && |Decode(buyerEph).value| == 32
      && id in w.managers
      && s.pub == c.ed25519Public(w.managers[id].edPrivate)
      && (c.exchange(ephPrivate, Decode(buyerEph).value).Some? ==>
            && w.managers[id].state == Established
            && w.managers[id].ephPrivate == Some(ephPrivate)
            && w.managers[id].peerEphPublic == Some(Decode(buyerEph).value)
            && w.managers[id].sessionId == Some(session)
            && w.managers[id].nodeId == node)
  }

  ghost predicate Inv(c: Primitives, w: World) {
    && (forall id | id in w.managers :: ManagerOk(c, w.managers[id]))
    && (forall k | 0 <= k < |w.signed| :: SignedOk(c, w, w.signed[k]))
  }

  lemma NextIsOk(c: Primitives, m: Manager, e: Event)
    requires DhLaws(c) && ManagerOk(c, m)
    ensures ManagerOk(c, Next(c, m, e)) && Next(c, m, e).edPrivate == m.edPrivate
  {
    hide BuildInitPayload, BuildAcceptPayload, Encode, Decode, DeriveTrafficKeys;
  }

  lemma NewSignatureIsOk(c: Primitives, w: World, e: Event)
    requires DhLaws(c) && !e.Start? && e.id in w.managers && ManagerOk(c, w.managers[e.id])
    requires Signs(c, w.managers[e.id], e).Some?
    ensures SignedOk(c, Step(c, w, e), Signs(c, w.managers[e.id], e).value)
  {
    hide BuildInitPayload, BuildAcceptPayload, Encode, Decode, DeriveTrafficKeys;
    if e.SendInit? {
      EncodedKey(c.x25519Public(e.ephemeral));
    }
  }

  lemma OldSignatureStaysOk(c: Primitives, w: World, e: Event, s: Signed)
    requires !e.Start? && e.id in w.managers && SignedOk(c, w, s)
    requires Next(c, w.managers[e.id], e).edPrivate == w.managers[e.id].edPrivate
    ensures SignedOk(c, Step(c, w, e), s)
  {
    hide BuildInitPayload, BuildAcceptPayload, Encode, Decode, Next, Signs;
    if s.origin.FromAccept? && s.origin.manager == e.id && Final(w.managers[e.id]) {
      FinalStatesAreKept(c, w.managers[e.id], e);
    }
  }

  lemma InvStep(c: Primitives, honest: set<bytes>, w: World, e: Event)
    requires DhLaws(c) && Inv(c, w) && Admissible(c, honest, w, e)
    ensures Inv(c, Step(c, w, e))
  {
    hide Next, Signs, SignedOk, Unforged;
    var w' := Step(c, w, e);
    if e.Start? {
      forall k | 0 <= k < |w.signed| ensures SignedOk(c, w', w.signed[k]) {
        StartKeepsSignature(c, w, e, w.signed[k]);
      }
    } else {
      NextIsOk(c, w.managers[e.id], e);
      forall k | 0 <= k < |w'.signed| ensures SignedOk(c, w', w'.signed[k]) {
        if k < |w.signed| {
          OldSignatureStaysOk(c, w, e, w.signed[k]);
        } else {
          NewSignatureIsOk(c, w, e);
        }
      }
    }
  }

  lemma StartKeepsSignature(c: Primitives, w: World, e: Event, s: Signed)
    requires e.Start? && e.id !in w.managers && SignedOk(c, w, s)
    ensures SignedOk(c, Step(c, w, e), s)
  {
    hide BuildInitPayload, BuildAcceptPayload, Encode, Decode;
  }

  lemma {:induction false} InvInRuns(c: Primitives, honest: set<bytes>, ws: seq<World>, es: seq<Event>, i: nat)
    requires DhLaws(c) && IsRun(c, honest, ws, es) && i < |ws|
    ensures Inv(c, ws[i])
  {
    hide Inv, Step;
    if i == 0 {
      EmptyInv(c);
    } else {
      InvInRuns(c, honest, ws, es, i - 1);
      assert Admissible(c, honest, ws[i - 1], es[i - 1]) && ws[i] == Step(c, ws[i - 1], es[i - 1]);
      InvStep(c, honest, ws[i - 1], es[i - 1]);
    }
  }

  lemma EmptyInv(c: Primitives)
    ensures Inv(c, EMPTY)
  {
  }

  // ---------------------------------------------------------------- agreement

  /** Manager `id` of `w` is a seller with this node id that created an accept for this session and
      this buyer key and is established. */
  predicate SellerAnswered(w: World, id: nat, session: string, node: string, buyerKey: bytes) {
    && id in w.managers
    && w.managers[id].state == Established
    && w.managers[id].sessionId == Some(session)
    && w.managers[id].nodeId == node
    && w.managers[id].peerEphPublic == Some(buyerKey)
  }

  /** And it computes these keys. */
  predicate SellerHolds(c: Primitives, w: World, id: nat, session: string, buyerKey: bytes, keys: TrafficKeys) {
    && id in w.managers
    && SellerAnswered(w, id, session, w.managers[id].nodeId, buyerKey)
    && ComputeKeys(c, w.managers[id], buyerKey, session) == Ok(keys)
  }

  /** The accept that made a buyer's check succeed was made by a seller for the buyer's own key.  Its
      session and node ids, written one after the other, are those the buyer read; the seller is
      established and, for the buyer's session id, computes the buyer's keys. */
  lemma AcceptHasSeller(
    c: Primitives, w: World, b: Manager, msg: AcceptMessage, pub: bytes, now: int, k: nat
  )
    requires DhLaws(c) && Inv(c, w) && ManagerOk(c, b) && k < |w.signed|
    requires VerifyAccept(c, b, msg, pub, now).1.Ok?
    requires w.signed[k].payload == BuildAcceptPayload(msg.sessionId, msg.responderNodeId, msg.ephemeralPubkey,
                                                       Encode(b.ephPublic.value), msg.timestamp)
    ensures w.signed[k].origin.FromAccept?
    ensures var o := w.signed[k].origin;
            && o.session + o.node == msg.sessionId + msg.responderNodeId
            && o.timestamp == msg.timestamp
            && SellerAnswered(w, o.manager, o.session, o.node, b.ephPublic.value)
            && w.signed[k].pub == c.ed25519Public(w.managers[o.manager].edPrivate)
            && ComputeKeys(c, w.managers[o.manager], b.ephPublic.value, msg.sessionId)
               == Ok(VerifyAccept(c, b, msg, pub, now).1.value.trafficKeys)
  {
    hide BuildInitPayload, BuildAcceptPayload, Encode, Decode, DeriveTrafficKeys, SignatureOk;
    assert SignedOk(c, w, w.signed[k]);
    match w.signed[k].origin {
      case FromInit(_, s, n, e, t) =>
        PayloadKindsDiffer(s, n, e, t, msg.sessionId, msg.responderNodeId, msg.ephemeralPubkey,
                           Encode(b.ephPublic.value), msg.timestamp);
      case FromAccept(id, s, n, x, buyerEph, t) =>
        KeyText(msg.ephemeralPubkey);
        KeyText(buyerEph);
        EncodedKey(c.x25519Public(x));
        EncodedKey(b.ephPublic.value);
        AcceptPayloadDetermines(s, n, Encode(c.x25519Public(x)), buyerEph, t,
                                msg.sessionId, msg.responderNodeId, msg.ephemeralPubkey,
                                Encode(b.ephPublic.value), msg.timestamp);
        assert c.exchange(x, b.ephPublic.value) == c.exchange(b.ephPrivate.value, c.x25519Public(x));
    }
  }

  /** The initiator's check at event `e` succeeds. */
  predicate BuyerAccepts(c: Primitives, w: World, e: Event) {
    && e.RecvAccept? && e.id in w.managers
    && VerifyAccept(c, w.managers[e.id], e.accept, e.pub, e.now).1.Ok?
  }

  function BuyerResult(c: Primitives, w: World, e: Event): HandshakeResult
    requires BuyerAccepts(c, w, e)
  {
    VerifyAccept(c, w.managers[e.id], e.accept, e.pub, e.now).1.value
  }

  lemma BuyerResultFields(c: Primitives, w: World, e: Event)
    requires DhLaws(c) && BuyerAccepts(c, w, e) && ManagerOk(c, w.managers[e.id])
    ensures var b, r := w.managers[e.id], BuyerResult(c, w, e);
            && b.state == InitSent && b.ephPublic.Some? && |b.ephPublic.value| == 32
            && b.sessionId == Some(r.sessionId)
            && r.sessionId == e.accept.sessionId && r.peerNodeId == e.accept.responderNodeId
            && Next(c, b, e).state == Established
            && -30_000 <= e.now - e.accept.timestamp <= 30_000
            && SignatureOk(c, e.pub, BuildAcceptPayload(e.accept.sessionId, e.accept.responderNodeId,
                 e.accept.ephemeralPubkey, Encode(b.ephPublic.value), e.accept.timestamp), e.accept.signature)
  {
    hide BuildAcceptPayload, Encode, Decode, DeriveTrafficKeys;
  }

  /** The accepts signed with this key are for sessions whose ids have this length. */
  predicate AcceptSessionsHaveLength(w: World, pub: bytes, n: nat) {
    forall k | 0 <= k < |w.signed| && w.signed[k].pub == pub && w.signed[k].origin.FromAccept? ::
      |w.signed[k].origin.session| == n
  }

  /** Event `i` is a successful `verify_accept` against an honest seller key. */
  ghost predicate BuyerEstablishes(c: Primitives, honest: set<bytes>, ws: seq<World>, es: seq<Event>, i: nat) {
    i < |es| && i + 1 < |ws| && BuyerAccepts(c, ws[i], es[i]) && es[i].pub in honest
  }

  /** Some seller with the checked key created an accept for the buyer's ephemeral key, is
      established, and computes the buyer's traffic keys from the buyer's session id.  The two read
      the same session and node ids as far as one text can say, the one written after the other. */
  predicate AgreedUpToSplit(c: Primitives, w: World, e: Event, seller: nat, session: string, node: string)
    requires BuyerAccepts(c, w, e)
  {
    var b, result := w.managers[e.id], BuyerResult(c, w, e);
    && b.sessionId == Some(result.sessionId) && b.ephPublic.Some?
    && SellerAnswered(w, seller, session, node, b.ephPublic.value)
    && session + node == result.sessionId + result.peerNodeId
    && e.pub == c.ed25519Public(w.managers[seller].edPrivate)
    && ComputeKeys(c, w.managers[seller], b.ephPublic.value, result.sessionId) == Ok(result.trafficKeys)
    && GoodKeys(result.trafficKeys)
  }

  /** The seller has the checked key and node id, created an accept for the buyer's session id and
      ephemeral key, is established, and holds the traffic keys the buyer ended up with. */
  predicate Agreed(c: Primitives, w: World, e: Event, seller: nat)
    requires BuyerAccepts(c, w, e)
  {
    var b, result := w.managers[e.id], BuyerResult(c, w, e);
    && b.sessionId == Some(result.sessionId) && b.ephPublic.Some?
    && SellerHolds(c, w, seller, result.sessionId, b.ephPublic.value, result.trafficKeys)
    && e.pub == c.ed25519Public(w.managers[seller].edPrivate)
    && w.managers[seller].nodeId == result.peerNodeId
    && GoodKeys(result.trafficKeys)
  }

  /** Handshake agreement.  In every run, when an initiator's `verify_accept` succeeds against an
      honest seller key, it is ESTABLISHED and a seller with that key agrees with it but for where
      the session id ends; and they agree altogether exactly when that seller's session id is as
      long as the buyer's. */
  lemma AgreementUpToSplit(
    c: Primitives, honest: set<bytes>, ws: seq<World>, es: seq<Event>, i: nat
  ) returns (seller: nat, k: nat)
    requires Lawful(c) && IsRun(c, honest, ws, es) && BuyerEstablishes(c, honest, ws, es, i)
    ensures k < |ws[i].signed| && ws[i].signed[k].pub == es[i].pub
    ensures var o := ws[i].signed[k].origin;
            && o.FromAccept? && o.manager == seller
            && AgreedUpToSplit(c, ws[i], es[i], seller, o.session, o.node)
            && -30_000 <= es[i].now - o.timestamp <= 30_000
            && (Agreed(c, ws[i], es[i], seller) <==> |o.session| == |es[i].accept.sessionId|)
    ensures es[i].id in ws[i + 1].managers && ws[i + 1].managers[es[i].id].state == Established
  {
    hide DeriveTrafficKeys, BuildAcceptPayload, Encode, Decode, VerifyAccept, SignedOk, GoodKeys, ComputeKeys;
    hide Next, Unforged, SignatureOk, DhLaws, Lawful;
    LawfulDh(c);
    var e, w := es[i], ws[i];
    assert Admissible(c, honest, w, e) && ws[i + 1] == Step(c, w, e);
    InvInRuns(c, honest, ws, es, i);
    var b := w.managers[e.id];
    BuyerResultFields(c, w, e);
    k := CheckedWasSigned(c, honest, w, e);
    AcceptHasSeller(c, w, b, e.accept, e.pub, e.now, k);
    seller := w.signed[k].origin.manager;
    ComputedKeysAreGood(c, w.managers[seller], b.ephPublic.value, e.accept.sessionId);
    SameSplit(w.signed[k].origin.session, w.signed[k].origin.node, e.accept.sessionId, e.accept.responderNodeId);
  }

  lemma SameSplit(s: string, n: string, s2: string, n2: string)
    requires s + n == s2 + n2
    ensures s == s2 <==> |s| == |s2|
    ensures |s| == |s2| ==> n == n2
  {
    assert s == (s + n)[..|s|] && s2 == (s2 + n2)[..|s2|];
    assert n == (s + n)[|s|..] && n2 == (s2 + n2)[|s2|..];
  }

  /** So they agree altogether when the owner of that key signs accepts for ids of one length. */
  lemma Agreement(
    c: Primitives, honest: set<bytes>, ws: seq<World>, es: seq<Event>, i: nat
  ) returns (seller: nat)
    requires Lawful(c) && IsRun(c, honest, ws, es) && BuyerEstablishes(c, honest, ws, es, i)
    requires AcceptSessionsHaveLength(ws[i], es[i].pub, |es[i].accept.sessionId|)
    ensures Agreed(c, ws[i], es[i], seller)
    ensures es[i].id in ws[i + 1].managers && ws[i + 1].managers[es[i].id].state == Established
  {
    hide Lawful, IsRun, Agreed, AgreedUpToSplit;
    var k: nat;
    seller, k := AgreementUpToSplit(c, honest, ws, es, i);
  }

  lemma LawfulDh(c: Primitives)
    requires Lawful(c)
    ensures DhLaws(c) && SignatureLaws(c)
  {
  }

  /** The signature that made the buyer's check succeed is one of those made in the run. */
  lemma CheckedWasSigned(c: Primitives, honest: set<bytes>, w: World, e: Event) returns (k: nat)
    requires DhLaws(c) && BuyerAccepts(c, w, e) && e.pub in honest && Unforged(c, w, honest, w.managers[e.id], e)
    requires ManagerOk(c, w.managers[e.id])
    ensures w.managers[e.id].ephPublic.Some?
    ensures k < |w.signed| && w.signed[k].pub == e.pub
    ensures w.signed[k].payload == BuildAcceptPayload(e.accept.sessionId, e.accept.responderNodeId, e.accept.ephemeralPubkey,
                                                      Encode(w.managers[e.id].ephPublic.value), e.accept.timestamp)
  {
    hide BuildAcceptPayload, BuildInitPayload, Encode, Decode, VerifyAccept, SignatureOk, DhLaws, Next, ManagerOk;
    BuyerResultFields(c, w, e);
    var payload := BuildAcceptPayload(e.accept.sessionId, e.accept.responderNodeId, e.accept.ephemeralPubkey,
                                      Encode(w.managers[e.id].ephPublic.value), e.accept.timestamp);
    assert WasSigned(w, e.pub, payload);
    k :| 0 <= k < |w.signed| && w.signed[k].pub == e.pub && w.signed[k].payload == payload;
  }

  lemma ComputedKeysAreGood(c: Primitives, m: Manager, peer: bytes, session: string)
    requires Lawful(c) && ComputeKeys(c, m, peer, session).Ok?
    ensures GoodKeys(ComputeKeys(c, m, peer, session).value)
  {
    hide GoodKeys, DeriveTrafficKeys, Lawful;
    DerivedKeysAreGood(c, c.exchange(m.ephPrivate.value, peer).value, session);
  }

  /** The signature behind an accepted init was made for it. */
  lemma InitHasSigner(c: Primitives, w: World, msg: InitMessage, k: nat) returns (buyer: nat)
    requires Inv(c, w) && k < |w.signed| && PublicKeyOf(msg.ephemeralPubkey).Ok?
    requires w.signed[k].payload == BuildInitPayload(msg.sessionId, msg.initiatorNodeId, msg.ephemeralPubkey, msg.timestamp)
    ensures buyer in w.managers && w.signed[k].pub == c.ed25519Public(w.managers[buyer].edPrivate)
    ensures var o := w.signed[k].origin;
            && o == FromInit(buyer, o.session, o.node, msg.ephemeralPubkey, msg.timestamp)
            && o.session + o.node == msg.sessionId + msg.initiatorNodeId
  {
    hide BuildInitPayload, BuildAcceptPayload, Encode, Decode, ManagerOk;
    assert SignedOk(c, w, w.signed[k]);
    KeyText(msg.ephemeralPubkey);
    match w.signed[k].origin {
      case FromInit(id, s, n, eph, t) =>
        InitPayloadDetermines(s, n, eph, t, msg.sessionId, msg.initiatorNodeId, msg.ephemeralPubkey, msg.timestamp);
        buyer := id;
      case FromAccept(_, s, n, x, buyerEph, t) =>
        PayloadKindsDiffer(msg.sessionId, msg.initiatorNodeId, msg.ephemeralPubkey, msg.timestamp,
                           s, n, Encode(c.x25519Public(x)), buyerEph, t);
    }
  }

  /** The seller's check at event `e` succeeds. */
  predicate SellerAccepts(c: Primitives, w: World, e: Event) {
    && e.RecvInit? && e.id in w.managers
    && VerifyInit(c, w.managers[e.id], e.init, e.session, e.node, e.pub, e.now).1.Ok?
  }

  lemma SellerResultFields(c: Primitives, w: World, e: Event)
    requires SellerAccepts(c, w, e)
    ensures e.RecvInit? && e.id in w.managers
    ensures e.init.sessionId == e.session && e.init.initiatorNodeId == e.node
    ensures -30_000 <= e.now - e.init.timestamp <= 30_000
    ensures PublicKeyOf(e.init.ephemeralPubkey).Ok?
    ensures Next(c, w.managers[e.id], e).peerEphPublic == Some(PublicKeyOf(e.init.ephemeralPubkey).value)
    ensures SignatureOk(c, e.pub, BuildInitPayload(e.init.sessionId, e.init.initiatorNodeId, e.init.ephemeralPubkey,
                                                   e.init.timestamp), e.init.signature)
  {
    hide BuildInitPayload, SignatureOk, Decode;
  }

  /** A buyer with this public key signed the ephemeral key of `e` for this session and node. */
  predicate BuyerSigned(c: Primitives, w: World, e: Event, buyer: nat, session: string, node: string)
    requires e.RecvInit?
  {
    && buyer in w.managers && e.pub == c.ed25519Public(w.managers[buyer].edPrivate)
    && exists k :: 0 <= k < |w.signed|
         && w.signed[k].origin == FromInit(buyer, session, node, e.init.ephemeralPubkey, e.init.timestamp)
  }

  /** The other direction: a seller that accepts an init under an honest buyer key was sent an
      ephemeral key that buyer signed, at a time within the skew, for ids that written one after the
      other are those of the seller; and that key is the one the seller keeps. */
  lemma InitHasBuyer(
    c: Primitives, honest: set<bytes>, ws: seq<World>, es: seq<Event>, i: nat
  ) returns (buyer: nat, session: string, node: string)
    requires DhLaws(c) && IsRun(c, honest, ws, es) && i < |es|
    requires SellerAccepts(c, ws[i], es[i]) && es[i].pub in honest
    ensures BuyerSigned(c, ws[i], es[i], buyer, session, node)
    ensures session + node == es[i].session + es[i].node
    ensures session == es[i].session <==> |session| == |es[i].session|
    ensures session == es[i].session ==> node == es[i].node
    ensures -30_000 <= es[i].now - es[i].init.timestamp <= 30_000
    ensures es[i].id in ws[i + 1].managers
         && ws[i + 1].managers[es[i].id].peerEphPublic == Decode(es[i].init.ephemeralPubkey)
  {
    hide BuildInitPayload, BuildAcceptPayload, Encode, Decode, SellerAccepts, Next, Inv, SignatureOk;
    var e, w := es[i], ws[i];
    SellerResultFields(c, w, e);
    assert Admissible(c, honest, w, e) && ws[i + 1] == Step(c, w, e);
    InvInRuns(c, honest, ws, es, i);
    var payload := BuildInitPayload(e.init.sessionId, e.init.initiatorNodeId, e.init.ephemeralPubkey, e.init.timestamp);
    var k :| 0 <= k < |w.signed| && w.signed[k].pub == e.pub && w.signed[k].payload == payload;
    buyer := InitHasSigner(c, w, e.init, k);
    session, node := w.signed[k].origin.session, w.signed[k].origin.node;
    SameSplit(session, node, e.session, e.node);
  }

  // ---------------------------------------------------------------- handshakes that complete

  /** A message of time `sent` is checked within the clock skew. */
  predicate InStep(sent: int, now: int) {
    -30_000 <= now - sent <= 30_000
  }

  lemma SamePayloads(s: string, n: string, s2: string, n2: string)
    requires s + n == s2 + n2
    ensures forall eph, t :: BuildInitPayload(s, n, eph, t) == BuildInitPayload(s2, n2, eph, t)
    ensures forall eph, b, t :: BuildAcceptPayload(s, n, eph, b, t) == BuildAcceptPayload(s2, n2, eph, b, t)
  {
    hide EncodeUtf8, IntToString;
    assert INIT_TAG + s + n == INIT_TAG + (s + n) == INIT_TAG + s2 + n2;
    assert ACCEPT_TAG + s + n == ACCEPT_TAG + (s + n) == ACCEPT_TAG + s2 + n2;
  }

  /** An init whose ids were split elsewhere, with clocks in step, is accepted by a seller that expects
      the other split. */
  lemma SplitInit(c: Primitives, buyer: Manager, seller: Manager, session: string, theirs: string, node: string,
                  x: bytes, sent: int, now: int)
    requires DhLaws(c) && SignatureLaws(c) && InStep(sent, now) && session + buyer.nodeId == theirs + node
    requires buyer.state == Idle && seller.state == Idle
    ensures var init := CreateInit(c, buyer, session, x, sent).1;
            && init.Ok?
            && init.value.ephemeralPubkey == Encode(c.x25519Public(x))
            && init.value.sessionId == session && init.value.initiatorNodeId == buyer.nodeId
            && VerifyInit(c, seller, init.value.(sessionId := theirs, initiatorNodeId := node), theirs, node,
                          c.ed25519Public(buyer.edPrivate), now)
               == (seller.(peerEphPublic := Some(c.x25519Public(x)), sessionId := Some(theirs), state := InitReceived), Ok(()))
  {
    hide BuildInitPayload, Encode, Decode;
    SamePayloads(session, buyer.nodeId, theirs, node);
    DecodeEncoded(c.x25519Public(x));
    DecodeEncoded(c.sign(buyer.edPrivate, BuildInitPayload(session, buyer.nodeId, Encode(c.x25519Public(x)), sent)));
  }

  /** The traffic keys of an established manager: those it computes for its peer and its session. */
  function KeysHeld(c: Primitives, m: Manager): Result<TrafficKeys> {
    if m.peerEphPublic.None? || m.sessionId.None? then Err(ValueError("no session"))
    else ComputeKeys(c, m, m.peerEphPublic.value, m.sessionId.value)
  }

  /** So is the accept that answers it. */
  lemma SplitAccept(
    c: Primitives, buyer: Manager, seller: Manager, session: string, theirs: string, node: string,
    x: bytes, y: bytes, sent: int, now: int
  )
    requires DhLaws(c) && SignatureLaws(c) && InStep(sent, now) && c.exchange(y, c.x25519Public(x)).Some?
    requires buyer.state == InitSent && buyer.sessionId == Some(session) && session + node == theirs + seller.nodeId
    requires buyer.ephPrivate == Some(x) && buyer.ephPublic == Some(c.x25519Public(x))
    requires seller.state == InitReceived && seller.sessionId == Some(theirs)
    requires seller.peerEphPublic == Some(c.x25519Public(x))
    ensures AcceptReachesSigning(seller, theirs, Encode(c.x25519Public(x)))
    ensures var (m, accept) := CreateAccept(c, seller, theirs, Encode(c.x25519Public(x)), y, sent);
            && accept.Ok? && accept.value.sessionId == theirs && accept.value.responderNodeId == seller.nodeId
            && accept.value.ephemeralPubkey == Encode(c.x25519Public(y)) && accept.value.timestamp == sent
            && m.state == Established && m.sessionId == Some(theirs)
            && var (b, result) := VerifyAccept(c, buyer, accept.value.(sessionId := session, responderNodeId := node),
                                               c.ed25519Public(seller.edPrivate), now);
               && result.Ok? && b.state == Established && b.sessionId == Some(session)
               && var secret := c.exchange(y, c.x25519Public(x)).value;
                  && KeysHeld(c, m) == Ok(DeriveTrafficKeys(c, secret, theirs))
                  && KeysHeld(c, b) == Ok(DeriveTrafficKeys(c, secret, session))
                  && result.value.trafficKeys == DeriveTrafficKeys(c, secret, session)
  {
    hide BuildAcceptPayload, Encode, Decode, DeriveTrafficKeys;
    SamePayloads(session, node, theirs, seller.nodeId);
    DecodeEncoded(c.x25519Public(x));
    DecodeEncoded(c.x25519Public(y));
    DecodeEncoded(c.sign(seller.edPrivate, BuildAcceptPayload(theirs, seller.nodeId, Encode(c.x25519Public(y)),
                                                              Encode(c.x25519Public(x)), sent)));
  }

  lemma ExtendRun(c: Primitives, honest: set<bytes>, ws: seq<World>, es: seq<Event>, e: Event)
      returns (ws': seq<World>, es': seq<Event>)
    requires IsRun(c, honest, ws, es) && Admissible(c, honest, ws[|es|], e)
    ensures IsRun(c, honest, ws', es') && es' == es + [e] && ws' == ws + [Step(c, ws[|es|], e)]
  {
    hide Unforged, Step;
    ws', es' := ws + [Step(c, ws[|es|], e)], es + [e];
  }

  /** A buyer and a seller that were started, and the buyer's init delivered with its ids split as the
      seller expects them. */
  lemma SplitOpening(c: Primitives, honest: set<bytes>, buyer: Manager, seller: Manager, session: string, theirs: string,
                     node: string, x: bytes, sent: int, now: int) returns (ws: seq<World>, es: seq<Event>)
    requires DhLaws(c) && SignatureLaws(c) && InStep(sent, now) && session + buyer.nodeId == theirs + node
    requires buyer == NewManager(buyer.nodeId, buyer.edPrivate) && seller == NewManager(seller.nodeId, seller.edPrivate)
    ensures IsRun(c, honest, ws, es) && |es| == 4 && |ws| == 5
    ensures ws[4].managers == map[
              0 := CreateInit(c, buyer, session, x, sent).0,
              1 := seller.(peerEphPublic := Some(c.x25519Public(x)), sessionId := Some(theirs), state := InitReceived)]
  {
    hide BuildInitPayload, Encode, VerifyInit, DhLaws, SignatureLaws, SignText;
    SplitInit(c, buyer, seller, session, theirs, node, x, sent, now);
    SamePayloads(session, buyer.nodeId, theirs, node);
    var init := CreateInit(c, buyer, session, x, sent).1.value.(sessionId := theirs, initiatorNodeId := node);
    var pub := c.ed25519Public(buyer.edPrivate);
    ws, es := [EMPTY], [];
    ws, es := ExtendRun(c, honest, ws, es, Start(0, buyer.nodeId, buyer.edPrivate));
    ws, es := ExtendRun(c, honest, ws, es, Start(1, seller.nodeId, seller.edPrivate));
    assert ws[2].managers == map[0 := buyer, 1 := seller];
    ws, es := ExtendRun(c, honest, ws, es, SendInit(0, session, x, sent));
    assert ws[3].signed[0].pub == pub;
    assert WasSigned(ws[3], pub, BuildInitPayload(theirs, node, init.ephemeralPubkey, init.timestamp));
    ws, es := ExtendRun(c, honest, ws, es, RecvInit(1, init, theirs, node, pub, now));
  }

  /** With clocks in step and a key agreement that does not fail, a relay that moves the end of the
      session id in both messages completes a handshake between a buyer in one session and a seller in
      another. */
  lemma SplitRun(c: Primitives, buyer: Manager, seller: Manager, session: string, buyerNode: string,
                 theirs: string, sellerNode: string, x: bytes, y: bytes, times: (int, int, int, int))
      returns (honest: set<bytes>, ws: seq<World>, es: seq<Event>)
    requires DhLaws(c) && SignatureLaws(c) && c.exchange(y, c.x25519Public(x)).Some?
    requires InStep(times.0, times.1) && InStep(times.2, times.3)
    requires buyer == NewManager(buyer.nodeId, buyer.edPrivate) && seller == NewManager(seller.nodeId, seller.edPrivate)
    requires session + buyer.nodeId == theirs + buyerNode && session + sellerNode == theirs + seller.nodeId
    ensures IsRun(c, honest, ws, es) && |ws| == 7 && BuyerEstablishes(c, honest, ws, es, 5)
    ensures EstablishedIn(ws[6], 0, session) && EstablishedIn(ws[6], 1, theirs)
    ensures var secret := c.exchange(y, c.x25519Public(x)).value;
            && KeysHeld(c, ws[6].managers[0]) == Ok(DeriveTrafficKeys(c, secret, session))
            && KeysHeld(c, ws[6].managers[1]) == Ok(DeriveTrafficKeys(c, secret, theirs))
            && BuyerResult(c, ws[5], es[5]).trafficKeys == DeriveTrafficKeys(c, secret, session)
  {
    hide BuildAcceptPayload, BuildInitPayload, Encode, Decode, VerifyAccept, DhLaws, SignatureLaws, SignText, ComputeKeys, IsRun;
    hide DeriveTrafficKeys, KeysHeld, CreateAccept;
    var pub := c.ed25519Public(seller.edPrivate);
    honest := {pub, c.ed25519Public(buyer.edPrivate)};
    ws, es := SplitOpening(c, honest, buyer, seller, session, theirs, buyerNode, x, times.0, times.1);
    var b, m, eph := ws[4].managers[0], ws[4].managers[1], Encode(c.x25519Public(x));
    SplitAccept(c, b, m, session, theirs, sellerNode, x, y, times.2, times.3);
    SamePayloads(session, sellerNode, theirs, seller.nodeId);
    var accept := CreateAccept(c, m, theirs, eph, y, times.2).1.value.(sessionId := session, responderNodeId := sellerNode);
    ws, es := ExtendRun(c, honest, ws, es, SendAccept(1, theirs, eph, y, times.2));
    var last := |ws[5].signed| - 1;
    assert ws[5].signed[last].pub == pub;
    assert WasSigned(ws[5], pub, BuildAcceptPayload(session, sellerNode, accept.ephemeralPubkey, eph, accept.timestamp));
    ws, es := ExtendRun(c, honest, ws, es, RecvAccept(0, accept, pub, times.3));
  }

  /** For any two different splits there are lawful primitives under which the two ends of that run hold
      no key in common. */
  lemma SplitKeysDiffer(buyer: Manager, seller: Manager, session: string, buyerNode: string, theirs: string,
                        sellerNode: string, x: bytes, y: bytes, now: int)
      returns (c: Primitives, honest: set<bytes>, ws: seq<World>, es: seq<Event>)
    requires buyer == NewManager(buyer.nodeId, buyer.edPrivate) && seller == NewManager(seller.nodeId, seller.edPrivate)
    requires session + buyer.nodeId == theirs + buyerNode && session + sellerNode == theirs + seller.nodeId
    requires session != theirs
    ensures Lawful(c) && IsRun(c, honest, ws, es) && |ws| == 7
    ensures EstablishedIn(ws[6], 0, session) && EstablishedIn(ws[6], 1, theirs)
    ensures var b, m := KeysHeld(c, ws[6].managers[0]), KeysHeld(c, ws[6].managers[1]);
            && b.Ok? && m.Ok?
            && b.value.buyerToSellerKey != m.value.buyerToSellerKey
            && b.value.sellerToBuyerKey != m.value.sellerToBuyerKey
  {
    hide IsRun, BuyerEstablishes, Lawful, DeriveTrafficKeys, KeysHeld, BuyerResult;
    c := KeysDependOnBoth([], session, [], theirs);
    LawfulDh(c);
    honest, ws, es := SplitRun(c, buyer, seller, session, buyerNode, theirs, sellerNode, x, y, (now, now, now, now));
  }

  predicate EstablishedIn(w: World, id: nat, session: string) {
    id in w.managers && w.managers[id].state == Established && w.managers[id].sessionId == Some(session)
  }

  /** A concrete case: both ends ESTABLISHED, the buyer in session "s" and the seller in session "s1". */
  lemma SessionsCanDiffer(c: Primitives, buyerKey: bytes, sellerKey: bytes, x: bytes, y: bytes, now: int)
      returns (honest: set<bytes>, ws: seq<World>, es: seq<Event>)
    requires DhLaws(c) && SignatureLaws(c) && c.exchange(y, c.x25519Public(x)).Some?
    ensures IsRun(c, honest, ws, es) && BuyerEstablishes(c, honest, ws, es, 5)
    ensures EstablishedIn(ws[6], 0, "s") && EstablishedIn(ws[6], 1, "s1")
  {
    hide IsRun, BuyerEstablishes, DhLaws, SignatureLaws;
    honest, ws, es := SplitRun(c, NewManager("1b", buyerKey), NewManager("n", sellerKey), "s", "b", "s1", "1n",
                               x, y, (now, now, now, now));
  }

  /** With a relay that passes both messages on unchanged, the handshake completes in one session: the
      premises of `Agreement` are met. */
  lemma HonestRun(c: Primitives, buyer: Manager, seller: Manager, session: string, x: bytes, y: bytes,
                  times: (int, int, int, int))
      returns (honest: set<bytes>, ws: seq<World>, es: seq<Event>)
    requires DhLaws(c) && SignatureLaws(c) && c.exchange(y, c.x25519Public(x)).Some?
    requires InStep(times.0, times.1) && InStep(times.2, times.3)
    requires buyer == NewManager(buyer.nodeId, buyer.edPrivate) && seller == NewManager(seller.nodeId, seller.edPrivate)
    ensures IsRun(c, honest, ws, es) && BuyerEstablishes(c, honest, ws, es, 5)
    ensures EstablishedIn(ws[6], 0, session) && EstablishedIn(ws[6], 1, session)
  {
    hide IsRun, BuyerEstablishes, DhLaws, SignatureLaws;
    honest, ws, es := SplitRun(c, buyer, seller, session, buyer.nodeId, session, seller.nodeId, x, y, times);
  }
}
