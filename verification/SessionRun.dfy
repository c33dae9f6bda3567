/** Every run of two endpoints that share traffic keys over a relay that may drop, duplicate,
    reorder, reflect or invent frames.  All it cannot do is make a frame open under a key without
    an endpoint having sealed that frame under that key. */
module SessionRun {
  import opened Bytes
  import opened Crypto
  import opened Protocol
  import opened RelayCrypto
  import opened Results
  import opened Transport

  datatype Frame = Frame(frameType: nat, payload: bytes)

  datatype Side = Buyer | Seller

  /** One endpoint with the history of its session: what it completed sending, what it accepted,
      what `recv_frame` returned, and how many CLOSE frames it accepted but did not return because their
      acknowledgement raised. */
  datatype Peer = Peer(
    ep: Endpoint, sent: seq<Frame>, accepted: seq<Frame>, returned: seq<Frame>, unacked: nat
  )

  datatype World = World(buyer: Peer, seller: Peer)

  function Other(s: Side): Side {
    if s == Buyer then Seller else Buyer
  }

  function PeerOf(w: World, s: Side): Peer {
    if s == Buyer then w.buyer else w.seller
  }

  function WithPeer(w: World, s: Side, p: Peer): World {
    if s == Buyer then w.(buyer := p) else w.(seller := p)
  }

  function NewPeer(keys: TrafficKeys, s: Side): Peer {
    Peer(Endpoint(Some(keys), s == Buyer, 0, 0, false, 0), [], [], [], 0)
  }

  function NewSession(keys: TrafficKeys): World {
    World(NewPeer(keys, Buyer), NewPeer(keys, Seller))
  }

  datatype Event =
    // a send_frame call that runs to completion or raises before transmitting
    | Emit(side: Side, frameType: nat, payload: bytes)
    // the relay hands these bytes to one turn of the recv_frame loop; `fate` is how the send of an
    // automatic acknowledgement ends
    | Deliver(side: Side, raw: bytes, fate: Fate)
    // the heartbeat loop writes its two counters
    | Monitor(side: Side, awaiting: bool, missed: nat)

  function EmitFrame(c: Primitives, p: Peer, frameType: nat, payload: bytes): Peer {
    if SealNext(c, p.ep, frameType, payload).Err? then p
    else p.(ep := p.ep.(sendSeq := p.ep.sendSeq + 1), sent := p.sent + [Frame(frameType, payload)])
  }

  /** The turn that accepts this frame raises: its acknowledgement cannot be sealed, or the send of it
      raises. */
  predicate Raises(c: Primitives, ep: Endpoint, f: OpenedFrame, fate: Fate) {
    match AutoReply(f.frameType)
    case None => false
    case Some(t) => SealNext(c, ep, t, []).Err? || !fate.Completes?
  }

  /** A frame that passed decryption and the sequence check: acknowledge it if the transport does
      so itself, then return it unless it is a heartbeat. */
  function TakeFrame(c: Primitives, p: Peer, f: OpenedFrame, fate: Fate): Peer {
    var p1 := p.(ep := Accepted(p.ep, f), accepted := p.accepted + [Frame(f.frameType, f.plaintext)]);
    if Raises(c, p.ep, f, fate) then if IsHeartbeat(f.frameType) then p1 else p1.(unacked := p.unacked + 1)
    else
      var p2 := match AutoReply(f.frameType) case None => p1 case Some(t) => EmitFrame(c, p1, t, []);
      if IsHeartbeat(f.frameType) then p2
      else p2.(returned := p2.returned + [Frame(f.frameType, f.plaintext)])
  }

  function Step(c: Primitives, w: World, e: Event): World {
    var p := PeerOf(w, e.side);
    match e
    case Emit(s, t, payload) => WithPeer(w, s, EmitFrame(c, p, t, payload))
    case Deliver(s, raw, fate) =>
      (match OpenNext(c, p.ep, raw)
       case Err(_) => w
       case Ok(f) => WithPeer(w, s, TakeFrame(c, p, f, fate)))
    case Monitor(s, awaiting, missed) =>
      WithPeer(w, s, p.(ep := p.ep.(awaitingAck := awaiting, missed := missed)))
  }

  function Run(c: Primitives, w: World, es: seq<Event>): World
    decreases |es|
  {
    if es == [] then w else Step(c, Run(c, w, es[..|es| - 1]), es[|es| - 1])
  }

  // ---------------------------------------------------------------- what the relay cannot do

  /** `raw` is the i-th frame this peer completed sending. */
  predicate IsSent(c: Primitives, p: Peer, i: nat, raw: bytes) {
    && i < |p.sent| && p.ep.keys.Some?
    && EncryptFrame(c, OutboundKey(p.ep.keys.value, p.ep.isInitiator), OutboundPrefix(p.ep.keys.value, p.ep.isInitiator),
                    i, p.sent[i].frameType, p.sent[i].payload) == Ok(raw)
  }

  /** Some endpoint sealed `raw` under `key`. */
  ghost predicate Authentic(c: Primitives, w: World, key: bytes, raw: bytes) {
    exists s: Side, i: nat ::
      && IsSent(c, PeerOf(w, s), i, raw)
      && OutboundKey(PeerOf(w, s).ep.keys.value, PeerOf(w, s).ep.isInitiator) == key
  }

  /** Besides, no acknowledgement raises after it was transmitted. */
  ghost predicate Admissible(c: Primitives, w: World, e: Event) {
    e.Deliver? ==>
      var ep := PeerOf(w, e.side).ep;
      && !e.fate.RaisesAfter?
      && (ep.keys.Some? && OpenNext(c, ep, e.raw).Ok? ==>
            Authentic(c, w, InboundKey(ep.keys.value, ep.isInitiator), e.raw))
  }

  ghost predicate AdmissibleRun(c: Primitives, w: World, es: seq<Event>) {
    forall i {:trigger es[i]} :: 0 <= i < |es| ==> Admissible(c, Run(c, w, es[..i]), es[i])
  }

  // ---------------------------------------------------------------- the invariant

  function NonHeartbeat(fs: seq<Frame>): seq<Frame> {
    if fs == [] then []
    else
      var last := fs[|fs| - 1];
      NonHeartbeat(fs[..|fs| - 1]) + if IsHeartbeat(last.frameType) then [] else [last]
  }

  predicate PeerOk(p: Peer, keys: TrafficKeys, s: Side) {
    && p.ep.keys == Some(keys) && p.ep.isInitiator == (s == Buyer)
    && p.ep.sendSeq == |p.sent| <= MAX_SEQUENCE + 1
    && p.ep.recvSeq == |p.accepted|
  }

  function WithoutClose(fs: seq<Frame>): seq<Frame> {
    if fs == [] then []
    else WithoutClose(fs[..|fs| - 1]) + if fs[|fs| - 1].frameType == FRAME_CLOSE then [] else [fs[|fs| - 1]]
  }

  /** Only unacknowledged closes are missing from what was returned. */
  predicate ReturnedOk(p: Peer) {
    && |p.returned| + p.unacked == |NonHeartbeat(p.accepted)|
    && (p.unacked == 0 ==> p.returned == NonHeartbeat(p.accepted))
    && WithoutClose(p.returned) == WithoutClose(NonHeartbeat(p.accepted))
  }

  lemma WithoutCloseSnoc(fs: seq<Frame>, f: Frame)
    ensures WithoutClose(fs + [f]) == WithoutClose(fs) + if f.frameType == FRAME_CLOSE then [] else [f]
  {
    assert (fs + [f])[..|fs|] == fs;
  }

  predicate Inv(w: World, keys: TrafficKeys) {
    && PeerOk(w.buyer, keys, Buyer) && PeerOk(w.seller, keys, Seller)
    && ReturnedOk(w.buyer) && ReturnedOk(w.seller)
    && w.seller.accepted <= w.buyer.sent
    && w.buyer.accepted <= w.seller.sent
  }

  lemma NonHeartbeatSnoc(fs: seq<Frame>, f: Frame)
    ensures NonHeartbeat(fs + [f]) == NonHeartbeat(fs) + if IsHeartbeat(f.frameType) then [] else [f]
  {
    assert (fs + [f])[..|fs|] == fs;
  }

  lemma EmitKeeps(c: Primitives, p: Peer, keys: TrafficKeys, s: Side, t: nat, payload: bytes)
    requires PeerOk(p, keys, s) && GoodKeys(keys)
    ensures var p' := EmitFrame(c, p, t, payload);
            && PeerOk(p', keys, s) && p.sent <= p'.sent
            && p'.accepted == p.accepted && p'.returned == p.returned && p'.unacked == p.unacked
            && (p' != p ==> p'.sent == p.sent + [Frame(t, payload)])
            && (t < 0x100 && |payload| < 0x1_0000 ==> (p' == p <==> p.ep.sendSeq == MAX_SEQUENCE + 1))
  {
    SealableFrames(c, OutboundKey(keys, p.ep.isInitiator), OutboundPrefix(keys, p.ep.isInitiator), p.ep.sendSeq, t, payload);
  }

  lemma TakeKeeps(c: Primitives, p: Peer, keys: TrafficKeys, s: Side, f: OpenedFrame, fate: Fate)
    requires PeerOk(p, keys, s) && ReturnedOk(p) && GoodKeys(keys)
    ensures var p' := TakeFrame(c, p, f, fate);
            && PeerOk(p', keys, s) && ReturnedOk(p') && p.sent <= p'.sent
            && p'.accepted == p.accepted + [Frame(f.frameType, f.plaintext)]
  {
    hide EmitFrame, NonHeartbeat, WithoutClose, SealNext;
    var frame := Frame(f.frameType, f.plaintext);
    var p1 := p.(ep := Accepted(p.ep, f), accepted := p.accepted + [frame]);
    NonHeartbeatSnoc(p.accepted, frame);
    WithoutCloseSnoc(NonHeartbeat(p.accepted), frame);
    WithoutCloseSnoc(p.returned, frame);
    var p' := TakeFrame(c, p, f, fate);
    if AutoReply(f.frameType).Some? {
      EmitKeeps(c, p1, keys, s, AutoReply(f.frameType).value, []);
    }
    assert NonHeartbeat(p.accepted) + [] == NonHeartbeat(p.accepted);
    assert WithoutClose(p.returned) + [] == WithoutClose(p.returned);
    assert WithoutClose(p'.returned) == WithoutClose(NonHeartbeat(p'.accepted));
  }

  /** A frame that opens for one side is the next frame the other side completed sending. */
  lemma AcceptedIsNextSent(c: Primitives, w: World, keys: TrafficKeys, s: Side, raw: bytes, fate: Fate)
    requires AeadLaws(c) && GoodKeys(keys) && Inv(w, keys)
    requires OpenNext(c, PeerOf(w, s).ep, raw).Ok? && Admissible(c, w, Deliver(s, raw, fate))
    ensures var p, q, f := PeerOf(w, s), PeerOf(w, Other(s)), OpenNext(c, PeerOf(w, s).ep, raw).value;
            |p.accepted| < |q.sent| && q.sent[|p.accepted|] == Frame(f.frameType, f.plaintext)
  {
    hide EncryptFrame, DecryptFrame;
    var p := PeerOf(w, s);
    var r: Side, i: nat :| IsSent(c, PeerOf(w, r), i, raw)
      && OutboundKey(keys, PeerOf(w, r).ep.isInitiator) == InboundKey(keys, p.ep.isInitiator);
    DirectionsMirror(keys, p.ep.isInitiator);
    assert r == Other(s);
    var q := PeerOf(w, r);
    DecryptEncrypted(c, OutboundKey(keys, q.ep.isInitiator), OutboundPrefix(keys, q.ep.isInitiator),
                     i, q.sent[i].frameType, q.sent[i].payload);
  }

  lemma InvStep(c: Primitives, w: World, keys: TrafficKeys, e: Event)
    requires AeadLaws(c) && GoodKeys(keys) && Inv(w, keys) && Admissible(c, w, e)
    ensures Inv(Step(c, w, e), keys)
  {
    hide EmitFrame, TakeFrame, Authentic, OpenNext, AeadLaws, GoodKeys, NonHeartbeat, WithoutClose, EncryptFrame;
    var p := PeerOf(w, e.side);
    match e {
      case Emit(s, t, payload) => EmitKeeps(c, p, keys, s, t, payload);
      case Deliver(s, raw, fate) =>
        if OpenNext(c, p.ep, raw).Ok? {
          TakeKeeps(c, p, keys, s, OpenNext(c, p.ep, raw).value, fate);
          AcceptedIsNextSent(c, w, keys, s, raw, fate);
        }
      case Monitor(_, _, _) =>
    }
  }

  lemma {:induction false} InvInRuns(c: Primitives, keys: TrafficKeys, es: seq<Event>)
    requires AeadLaws(c) && GoodKeys(keys) && AdmissibleRun(c, NewSession(keys), es)
    ensures Inv(Run(c, NewSession(keys), es), keys)
  {
    hide Step, Admissible, AeadLaws, GoodKeys;
    if es != [] {
      var front, last := es[..|es| - 1], es[|es| - 1];
      assert forall i :: 0 <= i < |front| ==> front[i] == es[i] && front[..i] == es[..i];
      InvInRuns(c, keys, front);
      assert Admissible(c, Run(c, NewSession(keys), es[..|es| - 1]), es[|es| - 1]);
      InvStep(c, Run(c, NewSession(keys), front), keys, last);
    }
  }

  // ---------------------------------------------------------------- main results

  /** The non-heartbeat frames of a prefix are a prefix of the non-heartbeat frames. */
  lemma {:induction false} NonHeartbeatPrefix(fs: seq<Frame>, gs: seq<Frame>)
    requires fs <= gs
    ensures NonHeartbeat(fs) <= NonHeartbeat(gs)
    decreases |gs|
  {
    if fs != gs {
      assert fs <= gs[..|gs| - 1];
      NonHeartbeatPrefix(fs, gs[..|gs| - 1]);
    }
  }

  /** Prefix delivery.  Whatever the relay does, each side has accepted exactly a prefix, in order and
      once each, of the frames its peer completed sending.  `recv_frame` has returned the non-heartbeat
      frames of that prefix exactly when the acknowledgement of no CLOSE raised; and in any case all of
      them but CLOSE frames. */
  lemma PrefixDelivery(c: Primitives, keys: TrafficKeys, es: seq<Event>, s: Side)
    requires AeadLaws(c) && GoodKeys(keys) && AdmissibleRun(c, NewSession(keys), es)
    ensures var w := Run(c, NewSession(keys), es);
            var p, q := PeerOf(w, s), PeerOf(w, Other(s));
            && p.accepted <= q.sent
            && (p.returned == NonHeartbeat(p.accepted) <==> CloseAcksRaised(c, NewSession(keys), es, s) == 0)
            && (p.returned == NonHeartbeat(p.accepted) ==> p.returned <= NonHeartbeat(q.sent))
            && WithoutClose(p.returned) == WithoutClose(NonHeartbeat(p.accepted))
  {
    InvInRuns(c, keys, es);
    UnackedCounts(c, NewSession(keys), es, s);
    var w := Run(c, NewSession(keys), es);
    NonHeartbeatPrefix(PeerOf(w, s).accepted, PeerOf(w, Other(s)).sent);
  }

  /** The count of unacknowledged closes is the number of turns that raised on one. */
  lemma {:induction false} UnackedCounts(c: Primitives, w: World, es: seq<Event>, s: Side)
    ensures PeerOf(Run(c, w, es), s).unacked == PeerOf(w, s).unacked + CloseAcksRaised(c, w, es, s)
    decreases |es|
  {
    hide OpenNext, Step, RaisesOnClose;
    if es != [] {
      UnackedCounts(c, w, es[..|es| - 1], s);
      StepUnacked(c, Run(c, w, es[..|es| - 1]), es[|es| - 1], s);
    }
  }

  lemma StepUnacked(c: Primitives, w: World, e: Event, s: Side)
    ensures PeerOf(Step(c, w, e), s).unacked == PeerOf(w, s).unacked
         + if e.Deliver? && e.side == s && RaisesOnClose(c, PeerOf(w, s).ep, e.raw, e.fate) then 1 else 0
  {
    hide OpenNext, SealNext;
  }

  function CloseAcksRaised(c: Primitives, w: World, es: seq<Event>, s: Side): nat
    decreases |es|
  {
    if es == [] then 0
    else
      var before, e := Run(c, w, es[..|es| - 1]), es[|es| - 1];
      CloseAcksRaised(c, w, es[..|es| - 1], s)
      + if e.Deliver? && e.side == s && RaisesOnClose(c, PeerOf(before, s).ep, e.raw, e.fate) then 1 else 0
  }

  predicate RaisesOnClose(c: Primitives, ep: Endpoint, raw: bytes, fate: Fate) {
    var f := OpenNext(c, ep, raw);
    f.Ok? && f.value.frameType == FRAME_CLOSE && Raises(c, ep, f.value, fate)
  }

  /** No two frames an endpoint completed sending in a run share a nonce. */
  lemma NoncesOfRunDistinct(c: Primitives, keys: TrafficKeys, es: seq<Event>, s: Side, i: nat, j: nat)
    requires AeadLaws(c) && GoodKeys(keys) && AdmissibleRun(c, NewSession(keys), es)
    requires i < j < |PeerOf(Run(c, NewSession(keys), es), s).sent|
    ensures BuildNonce(OutboundPrefix(keys, s == Buyer), i).Ok? && BuildNonce(OutboundPrefix(keys, s == Buyer), j).Ok?
    ensures BuildNonce(OutboundPrefix(keys, s == Buyer), i) != BuildNonce(OutboundPrefix(keys, s == Buyer), j)
  {
    hide Run, AdmissibleRun, AeadLaws;
    InvInRuns(c, keys, es);
    NonceDeterminesSequence(OutboundPrefix(keys, s == Buyer), i, j);
  }

  /** A frame sent when the other side has accepted everything before it opens there as it was sent. */
  lemma EmittedOpens(c: Primitives, w: World, keys: TrafficKeys, s: Side, t: nat, payload: bytes)
    requires AeadLaws(c) && GoodKeys(keys) && Inv(w, keys)
    requires SealNext(c, PeerOf(w, s).ep, t, payload).Ok?
    requires |PeerOf(w, Other(s)).accepted| == |PeerOf(w, s).sent|
    ensures var raw, w' := SealNext(c, PeerOf(w, s).ep, t, payload).value, Step(c, w, Emit(s, t, payload));
            && OpenNext(c, PeerOf(w', Other(s)).ep, raw) == Ok(OpenedFrame(t, |PeerOf(w, s).sent|, payload))
            && Admissible(c, w', Deliver(Other(s), raw, Completes))
  {
    hide EncryptFrame, DecryptFrame, GoodKeys, AeadLaws;
    var p, w' := PeerOf(w, s), Step(c, w, Emit(s, t, payload));
    var raw := SealNext(c, p.ep, t, payload).value;
    DirectionsMirror(keys, p.ep.isInitiator);
    DecryptEncrypted(c, OutboundKey(keys, p.ep.isInitiator), OutboundPrefix(keys, p.ep.isInitiator), p.ep.sendSeq, t, payload);
    assert IsSent(c, PeerOf(w', s), |p.sent|, raw);
  }

  // ---------------------------------------------------------------- the transport follows runs

  /** The deliveries one `recv_frame` call makes, with the ways its acknowledgements end. */
  function Deliveries(c: Primitives, s: Side, io: Io): seq<Event>
    decreases |io.inbox|
  {
    if io.inbox == [] || io.closed || io.ep.keys.None? then []
    else
      var (io', r) := RecvTurn(c, io);
      [Deliver(s, io.inbox[0], NextFate(io.fates))] + if r.None? then Deliveries(c, s, io') else []
  }

  /** The world after some events, first to last. */
  function Follow(c: Primitives, w: World, es: seq<Event>): World
    decreases |es|
  {
    if es == [] then w else Follow(c, Step(c, w, es[0]), es[1..])
  }

  /** One turn of the `recv_frame` loop is one delivery, on a socket whose sends do not raise after
      transmitting. */
  lemma TurnIsDelivery(c: Primitives, w: World, s: Side, io: Io)
    requires PeerOf(w, s).ep == io.ep && io.ep.keys.Some? && !io.closed && io.inbox != [] && NoneAfter(io.fates)
    ensures var (io', r) := RecvTurn(c, io);
            var w' := Step(c, w, Deliver(s, io.inbox[0], NextFate(io.fates)));
            && io'.inbox == io.inbox[1..] && NoneAfter(io'.fates)
            && PeerOf(w', s).ep == io'.ep && PeerOf(w', Other(s)) == PeerOf(w, Other(s))
            && PeerOf(w', s).returned == PeerOf(w, s).returned
                 + (if r.Some? && r.value.Ok? then [Frame(r.value.value.0, r.value.value.1)] else [])
  {
    hide OpenNext, SealNext;
    if OpenNext(c, io.ep, io.inbox[0]).Ok? {
      SealIgnoresReceipt(c, io.ep, OpenNext(c, io.ep, io.inbox[0]).value);
    }
  }

  /** Accepting a frame does not change what an acknowledgement is sealed as. */
  lemma SealIgnoresReceipt(c: Primitives, ep: Endpoint, f: OpenedFrame)
    ensures forall t, payload :: SealNext(c, Accepted(ep, f), t, payload) == SealNext(c, ep, t, payload)
  {
    hide EncryptFrame;
  }

  /** A `recv_frame` call on such a socket is a run of deliveries: it leaves the endpoint as they do, and
      it returns a frame exactly when they append that frame to the returned ones. */
  lemma {:induction false} RecvFrameIsDeliveries(c: Primitives, w: World, s: Side, io: Io)
    requires PeerOf(w, s).ep == io.ep && io.ep.keys.Some? && !io.closed && NoneAfter(io.fates)
    ensures var (io', r) := RecvFrame(c, io);
            var w' := Follow(c, w, Deliveries(c, s, io));
            && PeerOf(w', s).ep == io'.ep
            && PeerOf(w', s).returned == PeerOf(w, s).returned + (if r.Ok? then [Frame(r.value.0, r.value.1)] else [])
            && PeerOf(w', Other(s)) == PeerOf(w, Other(s))
    decreases |io.inbox|
  {
    hide RecvTurn, Step;
    if io.inbox == [] {
      NoTurn(c, io);
    } else {
      TurnIsDelivery(c, w, s, io);
      var (io', r) := RecvTurn(c, io);
      var e := Deliver(s, io.inbox[0], NextFate(io.fates));
      var rest := if r.None? then Deliveries(c, s, io') else [];
      assert ([e] + rest)[1..] == rest;
      if r.None? {
        RecvFrameIsDeliveries(c, Step(c, w, e), s, io');
      }
    }
  }

  lemma NoTurn(c: Primitives, io: Io)
    requires io.ep.keys.Some? && io.inbox == []
    ensures RecvTurn(c, io) == (io, Some(Err(ConnectionClosed)))
  {
  }
}
