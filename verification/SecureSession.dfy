/** The layers put together: two `connect` calls perform a handshake of HandshakeRun, each transport
    comes out of its call with the keys its own manager computed, and a whole session between them is
    then end-to-end correct. */
module SecureSession {
  import Base64
  import opened Bytes
  import opened Crypto
  import opened Handshake
  import opened Protocol
  import opened RelayCrypto
  import opened Results
  import opened Text
  import opened Transport
  import HR = HandshakeRun
  import SR = SessionRun
  import E2E = EndToEnd

  /** The arguments of a `connect` call of either role, and what its socket and clock are going to do. */
  datatype InitiatorCall = InitiatorCall(
    manager: Manager, inbox: seq<bytes>, fates: seq<Fate>, session: string, pub: bytes,
    ephemeral: bytes, sentAt: int, checkedAt: int)

  datatype ResponderCall = ResponderCall(
    manager: Manager, inbox: seq<bytes>, fates: seq<Fate>, session: string, node: string, pub: bytes,
    ephemeral: bytes, checkedAt: int, sentAt: int)

  function Initiated(c: Primitives, b: InitiatorCall): Connected {
    ConnectInitiator(c, b.manager, b.inbox, b.fates, b.session, b.pub, b.ephemeral, b.sentAt, b.checkedAt)
  }

  function Responded(c: Primitives, s: ResponderCall): Connected {
    ConnectResponder(c, s.manager, s.inbox, s.fates, s.session, s.node, s.pub, s.ephemeral, s.checkedAt, s.sentAt)
  }

  /** The accept a successful initiator read. */
  function AcceptRead(b: InitiatorCall): Result<AcceptMessage> {
    match ReadText(b.inbox)
    case Err(e) => Err(e)
    case Ok(text) => ReadAccept(text)
  }

  /** In the world `w` of a handshake run, manager `id` is where the initiator's call has left its
      manager when it checks the accept, and `e` is that check. */
  predicate ChecksIn(c: Primitives, b: InitiatorCall, w: HR.World, id: nat, e: HR.Event) {
    && id in w.managers && w.managers[id] == HR.Next(c, b.manager, HR.SendInit(id, b.session, b.ephemeral, b.sentAt))
    && AcceptRead(b).Ok? && e == HR.RecvAccept(id, AcceptRead(b).value, b.pub, b.checkedAt)
  }

  /** A successful `connect` of the initiator is `create_init` followed by an accepted `verify_accept`
      of the first message the relay delivered, in any world of other managers; its keys are the
      result's. */
  lemma ConnectInitiatorIsHandshake(c: Primitives, b: InitiatorCall, w: HR.World, id: nat, e: HR.Event)
    requires Initiated(c, b).keys.Ok? && ChecksIn(c, b, w, id, e)
    ensures HR.BuyerAccepts(c, w, e) && HR.BuyerResult(c, w, e).trafficKeys == Initiated(c, b).keys.value
    ensures Initiated(c, b).manager == HR.Next(c, w.managers[id], e)
    ensures Initiated(c, b).manager.state == HandshakeState.Established
  {
    hide CreateInit, VerifyAccept, ReadAccept, WriteInit, EncodeUtf8, DecodeUtf8;
    AcceptedIsEstablished(c, w.managers[id], e.accept, b.pub, b.checkedAt);
  }

  lemma AcceptedIsEstablished(c: Primitives, m: Manager, accept: AcceptMessage, pub: bytes, now: int)
    requires VerifyAccept(c, m, accept, pub, now).1.Ok?
    ensures VerifyAccept(c, m, accept, pub, now).0.state == HandshakeState.Established
  {
    hide BuildAcceptPayload, DeriveTrafficKeys;
  }

  /** A successful `connect` of the responder is `verify_init` followed by `create_accept`, and the
      keys it ends with are the ones its established manager computes from its own session id. */
  lemma ConnectResponderIsHandshake(c: Primitives, s: ResponderCall, id: nat) returns (init: InitMessage)
    requires Responded(c, s).keys.Ok?
    ensures var r := Responded(c, s);
            var m1 := HR.Next(c, s.manager, HR.RecvInit(id, init, s.session, s.node, s.pub, s.checkedAt));
            && r.manager == HR.Next(c, m1, HR.SendAccept(id, s.session, init.ephemeralPubkey, s.ephemeral, s.sentAt))
            && r.manager.state == HandshakeState.Established
            && r.manager.peerEphPublic.Some? && r.manager.sessionId == Some(s.session)
            && HR.KeysHeld(c, r.manager) == r.keys
  {
    hide ReadInit, WriteAccept, EncodeUtf8, DecodeUtf8, BuildAcceptPayload, BuildInitPayload, DeriveTrafficKeys, SignText;
    init := ReadInit(ReadText(s.inbox).value).value;
  }

  /** Whatever reaches it, the first thing an idle initiator sends is its init. */
  lemma InitiatorSends(c: Primitives, b: InitiatorCall)
    requires b.manager.state == Idle && NextFate(b.fates).Completes?
    ensures var init := CreateInit(c, b.manager, b.session, b.ephemeral, b.sentAt).1;
            init.Ok? && Initiated(c, b).outbox == [EncodeUtf8(WriteInit(init.value))]
  {
    hide VerifyAccept, ReadAccept, WriteInit, EncodeUtf8, DecodeUtf8, BuildInitPayload;
  }

  lemma InitRead(c: Primitives, init: InitMessage)
    ensures ReadText([EncodeUtf8(WriteInit(init))]) == Ok(WriteInit(init)) && ReadInit(WriteInit(init)) == Ok(init)
  {
    hide WriteInit, ReadInit, EncodeUtf8, DecodeUtf8;
    DecodeEncodedUtf8(WriteInit(init));
    MessagesRoundTrip(init, AcceptMessage("", "", "", 0, "", ""));
  }

  lemma AcceptReadBack(c: Primitives, accept: AcceptMessage)
    ensures ReadText([EncodeUtf8(WriteAccept(accept))]) == Ok(WriteAccept(accept)) && ReadAccept(WriteAccept(accept)) == Ok(accept)
  {
    hide WriteAccept, ReadAccept, EncodeUtf8, DecodeUtf8;
    DecodeEncodedUtf8(WriteAccept(accept));
    MessagesRoundTrip(InitMessage("", "", "", 0, "", ""), accept);
  }

  /** The two calls are about one session, name each other, and check each other's message within the
      clock skew; their sends complete and their key agreement succeeds. */
  predicate Meet(c: Primitives, b: InitiatorCall, s: ResponderCall) {
    && b.manager == NewManager(b.manager.nodeId, b.manager.edPrivate)
    && s.manager == NewManager(s.manager.nodeId, s.manager.edPrivate)
    && b.session == s.session && s.node == b.manager.nodeId
    && s.pub == c.ed25519Public(b.manager.edPrivate) && b.pub == c.ed25519Public(s.manager.edPrivate)
    && HR.InStep(b.sentAt, s.checkedAt) && HR.InStep(s.sentAt, b.checkedAt)
    && NextFate(b.fates).Completes? && NextFate(s.fates).Completes?
    && c.exchange(s.ephemeral, c.x25519Public(b.ephemeral)).Some?
  }

  /** The responder answers the init it gets with an accept, and has the keys of the secret. */
  lemma ResponderAnswers(c: Primitives, b: InitiatorCall, s: ResponderCall) returns (accept: AcceptMessage)
    requires DhLaws(c) && SignatureLaws(c) && Meet(c, b, s) && s.inbox == Initiated(c, b).outbox
    ensures var r := Responded(c, s);
            && r.outbox == [EncodeUtf8(WriteAccept(accept))] && r.manager.state == HandshakeState.Established
            && r.keys == Ok(DeriveTrafficKeys(c, c.exchange(s.ephemeral, c.x25519Public(b.ephemeral)).value, s.session))
    ensures var (m, checked) := VerifyAccept(c, CreateInit(c, b.manager, b.session, b.ephemeral, b.sentAt).0, accept, b.pub, b.checkedAt);
            && checked.Ok? && m.state == HandshakeState.Established && Ok(checked.value.trafficKeys) == Responded(c, s).keys
  {
    hide SignatureLaws, BuildInitPayload, BuildAcceptPayload, WriteInit, WriteAccept, ReadInit, EncodeUtf8, DecodeUtf8;
    hide DeriveTrafficKeys, SignText, Base64.Encode, Base64.Decode, VerifyInit, VerifyAccept, CreateAccept, ReadText, Initiated;
    InitiatorSends(c, b);
    var (waiting, init) := CreateInit(c, b.manager, b.session, b.ephemeral, b.sentAt);
    InitRead(c, init.value);
    HR.SplitInit(c, b.manager, s.manager, b.session, s.session, s.node, b.ephemeral, b.sentAt, s.checkedAt);
    var m1 := VerifyInit(c, s.manager, init.value, s.session, s.node, s.pub, s.checkedAt).0;
    HR.SplitAccept(c, waiting, m1, b.session, s.session, s.manager.nodeId, b.ephemeral, s.ephemeral, s.sentAt, b.checkedAt);
    AcceptCreatedIff(c, m1, s.session, init.value.ephemeralPubkey, s.ephemeral, s.sentAt);
    accept := CreateAccept(c, m1, s.session, init.value.ephemeralPubkey, s.ephemeral, s.sentAt).1.value;
    Base64.DecodeEncoded(c.x25519Public(b.ephemeral));
  }

  /** When the relay delivers each side's message to the other, both calls return, with the same keys:
      those of the shared secret and the session. */
  lemma ConnectsBoth(c: Primitives, b: InitiatorCall, s: ResponderCall)
    requires DhLaws(c) && SignatureLaws(c) && Meet(c, b, s)
    requires s.inbox == Initiated(c, b).outbox && b.inbox == Responded(c, s).outbox
    ensures var keys := DeriveTrafficKeys(c, c.exchange(s.ephemeral, c.x25519Public(b.ephemeral)).value, s.session);
            Initiated(c, b).keys == Ok(keys) && Responded(c, s).keys == Ok(keys)
    ensures Initiated(c, b).manager.state == HandshakeState.Established
         && Responded(c, s).manager.state == HandshakeState.Established
    ensures |Initiated(c, b).outbox| == 1 && |Responded(c, s).outbox| == 1
  {
    hide DhLaws, SignatureLaws, WriteInit, WriteAccept, ReadAccept, EncodeUtf8, DecodeUtf8, VerifyAccept, DeriveTrafficKeys;
    hide Responded, CreateInit, ReadText;
    InitiatorSends(c, b);
    var accept := ResponderAnswers(c, b, s);
    AcceptReadBack(c, accept);
  }

  /** The application over the two transports, each with its own keys. */
  function Opening(buyerKeys: TrafficKeys, sellerKeys: TrafficKeys): E2E.App {
    E2E.NewApp(buyerKeys).(w := SR.World(SR.NewPeer(buyerKeys, SR.Buyer), SR.NewPeer(sellerKeys, SR.Seller)))
  }

  /** A seller that agrees with the buyer on the session id has the buyer's keys, and the two transports
      are the two fresh endpoints of one session. */
  lemma KeysMakeSession(c: Primitives, w: HR.World, e: HR.Event, seller: nat)
    requires HR.BuyerAccepts(c, w, e) && HR.Agreed(c, w, e, seller)
    ensures var m, keys := w.managers[seller], HR.BuyerResult(c, w, e).trafficKeys;
            && m.peerEphPublic.Some? && m.sessionId.Some? && HR.KeysHeld(c, m) == Ok(keys)
            && Opening(keys, HR.KeysHeld(c, m).value) == E2E.NewApp(keys)
  {
    hide ComputeKeys, HR.BuyerAccepts, HR.BuyerResult, GoodKeys;
  }

  /** What a session guarantees at step j: each side has accepted exactly a prefix of what the other sent,
      and a call that an accepted frame ends returns the adapter's outcome for its own request. */
  ghost predicate SoundAt(c: Primitives, apps: seq<E2E.App>, es: seq<E2E.Event>, j: nat) {
    && (j < |apps| ==>
          && apps[j].w.buyer.accepted <= apps[j].w.seller.sent
          && apps[j].w.seller.accepted <= apps[j].w.buyer.sent)
    && forall r :: E2E.CallEnds(c, apps, es, j, r) ==> j < |apps| && E2E.Correlated(apps[j], r)
  }

  /** Every run of a session between a buyer and a seller with these keys is sound throughout. */
  ghost predicate Sound(c: Primitives, buyerKeys: TrafficKeys, sellerKeys: TrafficKeys) {
    forall apps, es, j: nat :: E2E.IsRunFrom(c, Opening(buyerKeys, sellerKeys), apps, es) ==> SoundAt(c, apps, es, j)
  }

  lemma SameKeysAreSound(c: Primitives, keys: TrafficKeys)
    requires AeadLaws(c) && GoodKeys(keys)
    ensures Sound(c, keys, keys)
  {
    hide AeadLaws, GoodKeys, E2E.IsRunFrom, E2E.CallEnds, E2E.Correlated, E2E.Inv;
    forall apps, es, j: nat | E2E.IsRunFrom(c, Opening(keys, keys), apps, es) ensures SoundAt(c, apps, es, j) {
      assert E2E.IsRun(c, keys, apps, es);
      if j < |apps| {
        E2E.InvInRuns(c, keys, apps, es, j);
        AcceptedPrefixes(apps[j], keys);
      }
      forall r | E2E.CallEnds(c, apps, es, j, r) ensures j < |apps| && E2E.Correlated(apps[j], r) {
        CallIsInRun(c, apps, es, j, r);
        E2E.Correlation(c, keys, apps, es, j, r);
      }
    }
  }

  lemma CallIsInRun(c: Primitives, apps: seq<E2E.App>, es: seq<E2E.Event>, j: nat, r: Result<Payload>)
    requires E2E.CallEnds(c, apps, es, j, r)
    ensures j < |apps|
  {
  }

  lemma AcceptedPrefixes(a: E2E.App, keys: TrafficKeys)
    requires E2E.Inv(a, keys)
    ensures a.w.buyer.accepted <= a.w.seller.sent && a.w.seller.accepted <= a.w.buyer.sent
  {
    hide E2E.InOrder, E2E.Talk, E2E.Frames, E2E.RequestsOk, E2E.AllQuiet, E2E.SellerOk;
  }

  lemma LawfulAead(c: Primitives)
    requires Lawful(c)
    ensures AeadLaws(c)
  {
  }

  /** Safety of a whole session.  In any run of handshakes a buyer's `connect` succeeds against an honest
      seller key.  Then an established seller with that key agrees with it but for where the session id
      ends, and altogether exactly when their session ids are equally long.  If so, for every `connect`
      call that left this seller's manager as it is, every session between the two transports, over any
      relay, each under the keys of its own call, is sound throughout. */
  lemma SessionSafety(
    c: Primitives, honest: set<bytes>, ws: seq<HR.World>, hs: seq<HR.Event>, i: nat, id: nat, b: InitiatorCall
  ) returns (seller: nat, session: string, node: string)
    requires Lawful(c) && HR.IsRun(c, honest, ws, hs) && i < |hs| && i + 1 < |ws|
    requires Initiated(c, b).keys.Ok? && b.pub in honest && ChecksIn(c, b, ws[i], id, hs[i])
    ensures HR.BuyerAccepts(c, ws[i], hs[i]) && HR.AgreedUpToSplit(c, ws[i], hs[i], seller, session, node)
    ensures HR.Agreed(c, ws[i], hs[i], seller) <==> |session| == |b.session|
    ensures |session| == |b.session| ==>
              forall s: ResponderCall :: Responded(c, s).keys.Ok? && Responded(c, s).manager == ws[i].managers[seller] ==>
                Sound(c, Initiated(c, b).keys.value, Responded(c, s).keys.value)
  {
    hide HR.IsRun, HR.BuyerResult, HR.BuyerAccepts, HR.Agreed, HR.AgreedUpToSplit, HR.BuyerEstablishes, Lawful, Sound,
      Initiated, Responded, AcceptRead, HR.Next;
    ConnectInitiatorIsHandshake(c, b, ws[i], id, hs[i]);
    SessionAsked(c, b, ws[i], id, hs[i]);
    CheckEstablishes(c, honest, ws, hs, i, b);
    var k: nat;
    seller, k := HR.AgreementUpToSplit(c, honest, ws, hs, i);
    session, node := ws[i].signed[k].origin.session, ws[i].signed[k].origin.node;
    SellerKnown(c, ws[i], hs[i], seller, session, node);
    if |session| == |b.session| {
      LawfulAead(c);
      SoundWithSeller(c, ws[i], hs[i], seller, Initiated(c, b).keys.value);
    }
  }

  lemma SellerKnown(c: Primitives, w: HR.World, e: HR.Event, seller: nat, session: string, node: string)
    requires HR.BuyerAccepts(c, w, e) && HR.AgreedUpToSplit(c, w, e, seller, session, node)
    ensures seller in w.managers
  {
    hide HR.BuyerResult, ComputeKeys, HR.BuyerAccepts, GoodKeys;
  }

  /** Sessions with a seller that agrees with the buyer are sound, each transport under its own keys. */
  lemma SoundWithSeller(c: Primitives, w: HR.World, e: HR.Event, seller: nat, keys: TrafficKeys)
    requires AeadLaws(c) && HR.BuyerAccepts(c, w, e) && HR.Agreed(c, w, e, seller) && seller in w.managers
    requires keys == HR.BuyerResult(c, w, e).trafficKeys
    ensures forall s: ResponderCall :: Responded(c, s).keys.Ok? && Responded(c, s).manager == w.managers[seller] ==>
              Sound(c, keys, Responded(c, s).keys.value)
  {
    hide HR.BuyerResult, HR.BuyerAccepts, HR.Agreed, GoodKeys, AeadLaws, Sound, HR.KeysHeld, Responded, HR.Next;
    KeysMakeSession(c, w, e, seller);
    KeysAreGood(c, w, e, seller);
    SameKeysAreSound(c, keys);
    forall s: ResponderCall | Responded(c, s).keys.Ok? && Responded(c, s).manager == w.managers[seller]
      ensures Sound(c, keys, Responded(c, s).keys.value)
    {
      var init := ConnectResponderIsHandshake(c, s, seller);
    }
  }

  lemma CheckEstablishes(c: Primitives, honest: set<bytes>, ws: seq<HR.World>, hs: seq<HR.Event>, i: nat, b: InitiatorCall)
    requires i < |hs| && i + 1 < |ws| && HR.BuyerAccepts(c, ws[i], hs[i]) && b.pub in honest && hs[i].pub == b.pub
    ensures HR.BuyerEstablishes(c, honest, ws, hs, i)
  {
  }

  /** The accept names the session the buyer asked for. */
  lemma SessionAsked(c: Primitives, b: InitiatorCall, w: HR.World, id: nat, e: HR.Event)
    requires ChecksIn(c, b, w, id, e) && HR.BuyerAccepts(c, w, e) && Initiated(c, b).keys.Ok?
    ensures e.accept.sessionId == b.session
  {
    hide BuildAcceptPayload, BuildInitPayload, DeriveTrafficKeys, SignText, SignatureOk, EncodeUtf8, DecodeUtf8, ReadAccept, WriteInit;
  }

  lemma KeysAreGood(c: Primitives, w: HR.World, e: HR.Event, seller: nat)
    requires HR.BuyerAccepts(c, w, e) && HR.Agreed(c, w, e, seller)
    ensures GoodKeys(HR.BuyerResult(c, w, e).trafficKeys)
  {
    hide GoodKeys, HR.BuyerResult, ComputeKeys, HR.SellerHolds, HR.BuyerAccepts;
  }
}
