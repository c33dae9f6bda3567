/** Requests and replies over a session: the buyer has at most one request outstanding, the seller
    handles one request at a time, and everything between them goes through the relay of
    SessionRun.  Heartbeats of both sides interleave freely, and either side may close. */
module EndToEnd {
  import opened Bytes
  import opened Crypto
  import opened Protocol
  import opened RelayCrypto
  import opened Results
  import opened Transport
  import opened Provider
  import opened Text
  import opened Consumer
  import SR = SessionRun

  datatype SellerState = Listening | Busy(request: Payload) | Ended

  /** A request the seller forwarded and how the adapter answered it. */
  datatype Handled = Handled(request: Payload, outcome: Forwarded)

  /** A side's connection: in use, in `close` and waiting for the acknowledgement, or gone. */
  datatype Link = Up | Leaving | Down

  datatype App = App(
    w: SR.World,
    buyerLink: Link,
    sellerLink: Link,
    requests: seq<Payload>,    // requests the buyer sent
    calling: bool,             // the last of them is outstanding
    seller: SellerState,
    handled: seq<Handled>,
    replies: seq<Payload>      // what the seller sent besides heartbeats
  )

  function NewApp(keys: TrafficKeys): App {
    App(SR.NewSession(keys), Up, Up, [], false, Listening, [], [])
  }

  datatype Event =
    | Call(request: Payload)
    | Abandon
    | BuyerTurn(raw: bytes, fate: Fate)
    | SellerTurn(raw: bytes, fate: Fate)
    | Reply(outcome: Forwarded, fates: seq<Fate>)
    // `close`, by the application or the heartbeat loop; a frame it takes while it waits; the end of
    // the wait or of the connection
    | Close(side: SR.Side, reason: string, fate: Fate)
    | ClosingTurn(side: SR.Side, raw: bytes, fate: Fate)
    | Drop(side: SR.Side)
    | Beat(side: SR.Side)
    | Count(side: SR.Side, awaiting: bool, missed: nat)

  function Put(c: Primitives, w: SR.World, s: SR.Side, p: Payload): SR.World {
    SR.Step(c, w, SR.Emit(s, FrameTypeOf(p), if SerializePayload(p).Ok? then SerializePayload(p).value else []))
  }

  /** What one turn of `recv_frame` inside `send_request` leads to; None to keep waiting. */
  function BuyerOutcome(c: Primitives, a: App, raw: bytes, fate: Fate): Option<Result<Payload>>
    requires a.requests != []
  {
    match OpenNext(c, a.w.buyer.ep, raw)
    case Err(e) => Some(Err(e))
    case Ok(f) =>
      if SR.Raises(c, a.w.buyer.ep, f, fate) then Some(Err(ConnectionClosed))
      else if IsHeartbeat(f.frameType) then None
      else if a.requests[|a.requests| - 1].Request? then
        Settle(f.frameType, f.plaintext, a.requests[|a.requests| - 1].traceId)
      else None
  }

  /** One turn of the seller's loop. */
  function SellerReads(c: Primitives, a: App, raw: bytes, fate: Fate): App {
    var w' := SR.Step(c, a.w, SR.Deliver(SR.Seller, raw, fate));
    match OpenNext(c, a.w.seller.ep, raw)
    case Err(_) => a.(seller := Ended)
    case Ok(f) =>
      if SR.Raises(c, a.w.seller.ep, f, fate) then a.(w := w', seller := Ended)
      else if IsHeartbeat(f.frameType) then a.(w := w')
      else
        match OnFrame(f.frameType, f.plaintext)
        case Forward(p) => a.(w := w', seller := Busy(p))
        case Ignore => a.(w := w')
        case GiveUp(_) => a.(w := w', seller := Ended)
        case Say(q) =>
          if !Goes(c, w'.seller.ep, [fate], q) then a.(w := w', seller := Ended)
          else a.(w := Put(c, w', SR.Seller, q), replies := a.replies + [q])
  }

  function SellerReplies(c: Primitives, a: App, outcome: Forwarded, fates: seq<Fate>): App
    requires a.seller.Busy? && a.seller.request.Request?
  {
    var handled := a.handled + [Handled(a.seller.request, outcome)];
    var choice := ReplyChoice(c, a.w.seller.ep, fates, a.seller.request, outcome);
    if a.sellerLink.Down? || choice.None? then a.(seller := Ended, handled := handled)
    else
      a.(w := Put(c, a.w, SR.Seller, choice.value), seller := if a.sellerLink.Up? then Listening else Ended,
         handled := handled, replies := a.replies + [choice.value])
  }

  function LinkOf(a: App, s: SR.Side): Link {
    if s == SR.Buyer then a.buyerLink else a.sellerLink
  }

  /** A side stops using the session: an outstanding call or a wait for requests ends with an exception;
      an adapter call that is under way goes on. */
  function Leave(a: App, s: SR.Side, link: Link): App {
    if s == SR.Buyer then a.(buyerLink := link, calling := false)
    else a.(sellerLink := link, seller := if a.seller.Listening? then Ended else a.seller)
  }

  function Closes(c: Primitives, a: App, s: SR.Side, reason: string, fate: Fate): App {
    var p := Payload.Close(reason, "");
    if !Goes(c, SR.PeerOf(a.w, s).ep, [fate], p) then Leave(a, s, Down)
    else Leave(a.(w := Put(c, a.w, s, p)), s, Leaving)
  }

  /** `close` waits for one frame that is no heartbeat, whatever it is. */
  function ClosingReads(c: Primitives, a: App, s: SR.Side, raw: bytes, fate: Fate): App {
    var w' := SR.Step(c, a.w, SR.Deliver(s, raw, fate));
    var f := OpenNext(c, SR.PeerOf(a.w, s).ep, raw);
    var waiting := f.Ok? && IsHeartbeat(f.value.frameType) && !SR.Raises(c, SR.PeerOf(a.w, s).ep, f.value, fate);
    Leave(a.(w := w'), s, if waiting then Leaving else Down)
  }

  predicate Enabled(a: App, e: Event) {
    match e
    case Call(p) =>
      && !a.calling && p.Request? && a.buyerLink.Up?
      // a uuid4 that was not used before
      && forall i :: 0 <= i < |a.requests| ==> a.requests[i].Request? && a.requests[i].traceId != p.traceId
    case Abandon => a.calling
    case BuyerTurn(_, _) => a.calling && a.requests != []
    case SellerTurn(_, _) => a.seller.Listening?
    case Close(s, _, fate) => !LinkOf(a, s).Down? && !fate.RaisesAfter?
    case ClosingTurn(s, _, _) => LinkOf(a, s).Leaving?
    case Beat(s) => !LinkOf(a, s).Down?
    case Reply(_, fates) => a.seller.Busy? && a.seller.request.Request? && NoneAfter(fates)
    case _ => true
  }

  function Step(c: Primitives, a: App, e: Event): App
    requires Enabled(a, e)
  {
    match e
    case Call(p) =>
      if Sendable(c, a.w.buyer.ep, p).Err? then a
      else a.(w := Put(c, a.w, SR.Buyer, p), requests := a.requests + [p], calling := true)
    case Abandon => a.(calling := false)
    case BuyerTurn(raw, fate) =>
      a.(w := SR.Step(c, a.w, SR.Deliver(SR.Buyer, raw, fate)), calling := BuyerOutcome(c, a, raw, fate).None?)
    case SellerTurn(raw, fate) => SellerReads(c, a, raw, fate)
    case Reply(outcome, fates) => SellerReplies(c, a, outcome, fates)
    case Close(s, reason, fate) => Closes(c, a, s, reason, fate)
    case ClosingTurn(s, raw, fate) => ClosingReads(c, a, s, raw, fate)
    case Drop(s) => Leave(a, s, Down)
    case Beat(s) => a.(w := SR.Step(c, a.w, SR.Emit(s, FRAME_HEARTBEAT, [])))
    case Count(s, awaiting, missed) => a.(w := SR.Step(c, a.w, SR.Monitor(s, awaiting, missed)))
  }

  ghost predicate Admissible(c: Primitives, a: App, e: Event) {
    && Enabled(a, e)
    && (e.BuyerTurn? ==> SR.Admissible(c, a.w, SR.Deliver(SR.Buyer, e.raw, e.fate)))
    && (e.SellerTurn? ==> SR.Admissible(c, a.w, SR.Deliver(SR.Seller, e.raw, e.fate)))
    && (e.ClosingTurn? ==> SR.Admissible(c, a.w, SR.Deliver(e.side, e.raw, e.fate)))
  }

  ghost predicate IsRunFrom(c: Primitives, start: App, apps: seq<App>, es: seq<Event>) {
    && |apps| == |es| + 1 && apps[0] == start
    && forall i {:trigger es[i]} :: 0 <= i < |es| ==> Admissible(c, apps[i], es[i]) && apps[i + 1] == Step(c, apps[i], es[i])
  }

  ghost predicate IsRun(c: Primitives, keys: TrafficKeys, apps: seq<App>, es: seq<Event>) {
    IsRunFrom(c, NewApp(keys), apps, es)
  }

  // ---------------------------------------------------------------- the invariant

  /** Frames that neither side's application sees: heartbeats, closes and their acknowledgements. */
  predicate IsControl(frameType: nat) {
    IsHeartbeat(frameType) || frameType == FRAME_CLOSE || frameType == FRAME_CLOSE_ACK
  }

  /** The frames of requests and replies. */
  function Talk(fs: seq<SR.Frame>): seq<SR.Frame> {
    if fs == [] then []
    else
      var last := fs[|fs| - 1];
      Talk(fs[..|fs| - 1]) + if IsControl(last.frameType) then [] else [last]
  }

  lemma TalkSnoc(fs: seq<SR.Frame>, f: SR.Frame)
    ensures Talk(fs + [f]) == Talk(fs) + if IsControl(f.frameType) then [] else [f]
  {
    assert (fs + [f])[..|fs|] == fs;
  }

  lemma {:induction false} TalkPrefix(fs: seq<SR.Frame>, gs: seq<SR.Frame>)
    requires fs <= gs
    ensures Talk(fs) <= Talk(gs)
    decreases |gs|
  {
    if fs != gs {
      assert fs <= gs[..|gs| - 1];
      TalkPrefix(fs, gs[..|gs| - 1]);
    }
  }

  /** A close or its acknowledgement holds what its sender put there, which settles no call. */
  predicate Quiet(f: SR.Frame) {
    var payload := DeserializePayload(f.frameType, f.payload);
    && (f.frameType == FRAME_CLOSE ==> payload.Ok? && payload.value.Some? && payload.value.value.Close?)
    && (f.frameType == FRAME_CLOSE_ACK ==> payload == Ok(None))
  }

  predicate AllQuiet(fs: seq<SR.Frame>) {
    forall i :: 0 <= i < |fs| ==> Quiet(fs[i])
  }

  function FrameOf(p: Payload): SR.Frame {
    SR.Frame(FrameTypeOf(p), if SerializePayload(p).Ok? then SerializePayload(p).value else [])
  }

  function Frames(ps: seq<Payload>): (fs: seq<SR.Frame>)
    ensures |fs| == |ps|
    ensures forall i :: 0 <= i < |ps| ==> fs[i] == FrameOf(ps[i])
  {
    seq(|ps|, i requires 0 <= i < |ps| => FrameOf(ps[i]))
  }

  lemma FramesSnoc(ps: seq<Payload>, p: Payload)
    ensures Frames(ps + [p]) == Frames(ps) + [FrameOf(p)]
  {
  }

  /** The response to a handled request: the adapter's body and latency under the request's own ids. */
  predicate Responds(h: Handled, q: Payload) {
    && h.request.Request? && h.outcome.Forwarded? && q.Response?
    && q.traceId == h.request.traceId && q.sequence == h.request.sequence
    && q.contentType == "application/json"
    && q.body == h.outcome.body && q.latencyMs == h.outcome.latencyMs
  }

  /** Code and message of the error that answers a handled request: those of the adapter, or 1001 with
      the exception, which for a body that was not sent names the limit or the connection. */
  predicate Fails(h: Handled, code: int, message: string) {
    && h.request.Request?
    && match h.outcome
       case AdapterFailed(theirs, text) => code == theirs && message == text
       case Crashed(text) => code == 1001 && message == "provider: invalid request (" + text + ")"
       case Forwarded(body, latencyMs) =>
         && code == 1001
         && var response := Response(h.request.traceId, h.request.sequence, "application/json", body, latencyMs);
            var why := if Fits(response) then "connection closed" else "plaintext too large for uint16 length field";
            message == "provider: invalid request (" + why + ")"
  }

  /** A reply to a handled request: the response, or the error that takes its place. */
  predicate Answers(h: Handled, q: Payload) {
    Responds(h, q) || (q.Error? && h.request.Request? && q.errorTraceId == Some(h.request.traceId) && Fails(h, q.code, q.message))
  }

  predicate RequestsOk(requests: seq<Payload>) {
    && (forall i :: 0 <= i < |requests| ==> requests[i].Request? && ValidPayload(requests[i]))
    && (forall i, j :: 0 <= i < j < |requests| ==> requests[i].traceId != requests[j].traceId)
  }

  /** Handled requests are the first ones sent, in order, and replies answer them one to one. */
  predicate InOrder(a: App) {
    && |a.replies| <= |a.handled| <= |a.requests| && |a.handled| <= |a.replies| + 1
    && (forall i :: 0 <= i < |a.handled| ==> a.handled[i].request == a.requests[i])
    && (forall i :: 0 <= i < |a.replies| ==> ValidPayload(a.replies[i]) && Answers(a.handled[i], a.replies[i]))
  }

  predicate SellerOk(a: App) {
    var received := |Talk(a.w.seller.accepted)|;
    match a.seller
    case Listening => |a.replies| == |a.handled| == received && a.sellerLink.Up?
    case Busy(p) =>
      && |a.replies| == |a.handled| && |a.handled| + 1 <= received <= |a.requests|
      && p == a.requests[|a.handled|] && (a.sellerLink.Up? ==> received == |a.handled| + 1)
    case Ended => true
  }

  predicate Inv(a: App, keys: TrafficKeys) {
    && SR.Inv(a.w, keys)
    && RequestsOk(a.requests)
    && Talk(a.w.buyer.sent) == Frames(a.requests)
    && Talk(a.w.seller.sent) == Frames(a.replies)
    && AllQuiet(a.w.buyer.sent) && AllQuiet(a.w.seller.sent)
    && InOrder(a)
    && SellerOk(a)
    && (a.calling ==> a.requests != [] && a.buyerLink.Up?)
  }

  // ---------------------------------------------------------------- steps of the world

  /** A sendable payload is put on the wire; nothing else changes. */
  lemma PutEffect(c: Primitives, w: SR.World, keys: TrafficKeys, s: SR.Side, p: Payload)
    requires AeadLaws(c) && GoodKeys(keys) && SR.Inv(w, keys) && Sendable(c, SR.PeerOf(w, s).ep, p).Ok?
    ensures var w', sent := Put(c, w, s, p), SR.PeerOf(w, s).sent;
            && SR.Inv(w', keys) && ValidPayload(p)
            && SR.PeerOf(w', SR.Other(s)) == SR.PeerOf(w, SR.Other(s))
            && SR.PeerOf(w', s).accepted == SR.PeerOf(w, s).accepted
            && Talk(SR.PeerOf(w', s).sent) == Talk(sent) + (if IsControl(FrameTypeOf(p)) then [] else [FrameOf(p)])
            && (AllQuiet(sent) ==> AllQuiet(SR.PeerOf(w', s).sent))
  {
    hide SealNext, Talk, AeadLaws, GoodKeys, Quiet, SerializePayload, DeserializePayload;
    PayloadRoundTrip(p);
    SR.InvStep(c, w, keys, SR.Emit(s, FrameTypeOf(p), SerializePayload(p).value));
    TalkSnoc(SR.PeerOf(w, s).sent, FrameOf(p));
    PayloadQuiet(p);
  }

  lemma PayloadQuiet(p: Payload)
    requires SerializePayload(p).Ok?
    ensures Quiet(FrameOf(p))
  {
    hide SerializePayload, DeserializePayload;
    PayloadRoundTrip(p);
  }

  /** A heartbeat changes no other frame. */
  lemma BeatEffect(c: Primitives, w: SR.World, keys: TrafficKeys, s: SR.Side)
    requires AeadLaws(c) && GoodKeys(keys) && SR.Inv(w, keys)
    ensures var w', sent := SR.Step(c, w, SR.Emit(s, FRAME_HEARTBEAT, [])), SR.PeerOf(w, s).sent;
            && SR.Inv(w', keys) && SR.PeerOf(w', SR.Other(s)) == SR.PeerOf(w, SR.Other(s))
            && SR.PeerOf(w', s).accepted == SR.PeerOf(w, s).accepted
            && Talk(SR.PeerOf(w', s).sent) == Talk(sent)
            && (AllQuiet(sent) ==> AllQuiet(SR.PeerOf(w', s).sent))
  {
    hide SealNext, Talk, AeadLaws, GoodKeys, DeserializePayload, SR.Inv;
    SR.InvStep(c, w, keys, SR.Emit(s, FRAME_HEARTBEAT, []));
    TalkSnoc(SR.PeerOf(w, s).sent, SR.Frame(FRAME_HEARTBEAT, []));
  }

  /** Accepting a frame may send one automatic reply. */
  lemma TakenSends(c: Primitives, p: SR.Peer, f: OpenedFrame, fate: Fate)
    ensures var sent := SR.TakeFrame(c, p, f, fate).sent;
            sent == p.sent || sent == p.sent + [SR.Frame(FRAME_HEARTBEAT_ACK, [])] || sent == p.sent + [SR.Frame(FRAME_CLOSE_ACK, [])]
  {
    hide SealNext;
  }

  lemma AcksAreQuiet()
    ensures Quiet(SR.Frame(FRAME_HEARTBEAT_ACK, [])) && Quiet(SR.Frame(FRAME_CLOSE_ACK, []))
  {
  }

  /** A frame that opens is the next the peer sent, and if it is part of the talk, the next of that. */
  lemma DeliverEffect(c: Primitives, w: SR.World, keys: TrafficKeys, s: SR.Side, raw: bytes, fate: Fate)
    requires AeadLaws(c) && GoodKeys(keys) && SR.Inv(w, keys) && SR.Admissible(c, w, SR.Deliver(s, raw, fate))
    requires OpenNext(c, SR.PeerOf(w, s).ep, raw).Ok?
    ensures var w', f := SR.Step(c, w, SR.Deliver(s, raw, fate)), OpenNext(c, SR.PeerOf(w, s).ep, raw).value;
            var n, theirs := |Talk(SR.PeerOf(w, s).accepted)|, Talk(SR.PeerOf(w, SR.Other(s)).sent);
            && SR.Inv(w', keys) && SR.PeerOf(w', SR.Other(s)) == SR.PeerOf(w, SR.Other(s))
            && (IsControl(f.frameType) ==> |Talk(SR.PeerOf(w', s).accepted)| == n)
            && (!IsControl(f.frameType) ==>
                  && |Talk(SR.PeerOf(w', s).accepted)| == n + 1 <= |theirs|
                  && theirs[n] == SR.Frame(f.frameType, f.plaintext))
            && Talk(SR.PeerOf(w', s).sent) == Talk(SR.PeerOf(w, s).sent)
            && (AllQuiet(SR.PeerOf(w, s).sent) ==> AllQuiet(SR.PeerOf(w', s).sent))
            && (AllQuiet(SR.PeerOf(w, SR.Other(s)).sent) ==> Quiet(SR.Frame(f.frameType, f.plaintext)))
  {
    hide OpenNext, SealNext, Talk, AeadLaws, GoodKeys, SR.Authentic, SR.PeerOk, Quiet, SR.TakeFrame;
    var p, w' := SR.PeerOf(w, s), SR.Step(c, w, SR.Deliver(s, raw, fate));
    var f := OpenNext(c, p.ep, raw).value;
    SR.InvStep(c, w, keys, SR.Deliver(s, raw, fate));
    SR.AcceptedIsNextSent(c, w, keys, s, raw, fate);
    TakenAccepts(c, p, f, fate);
    TakenSends(c, p, f, fate);
    AcksAreQuiet();
    TalkSnoc(p.accepted, SR.Frame(f.frameType, f.plaintext));
    TalkSnoc(p.sent, SR.Frame(FRAME_HEARTBEAT_ACK, []));
    TalkSnoc(p.sent, SR.Frame(FRAME_CLOSE_ACK, []));
    TalkPrefix(SR.PeerOf(w', s).accepted, SR.PeerOf(w', SR.Other(s)).sent);
  }

  lemma TakenAccepts(c: Primitives, p: SR.Peer, f: OpenedFrame, fate: Fate)
    ensures SR.TakeFrame(c, p, f, fate).accepted == p.accepted + [SR.Frame(f.frameType, f.plaintext)]
  {
    hide SealNext;
  }

  // ---------------------------------------------------------------- steps of the application

  lemma SendableNeedsNumbers(c: Primitives, ep: Endpoint, p: Payload)
    requires ep.keys.Some? && GoodKeys(ep.keys.value) && Sendable(c, ep, p).Ok?
    ensures ep.sendSeq <= MAX_SEQUENCE
  {
    hide SerializePayload, EncryptFrame;
    var k := ep.keys.value;
    SealableFrames(c, OutboundKey(k, ep.isInitiator), OutboundPrefix(k, ep.isInitiator), ep.sendSeq,
                   FrameTypeOf(p), SerializePayload(p).value);
  }

  lemma ChoiceGoes(c: Primitives, ep: Endpoint, fates: seq<Fate>, request: Payload, outcome: Forwarded)
    requires request.Request? && ReplyChoice(c, ep, fates, request, outcome).Some?
    ensures Sendable(c, ep, ReplyChoice(c, ep, fates, request, outcome).value).Ok?
  {
    hide Sendable, FaultText;
  }

  /** Whatever is chosen as a reply answers the request. */
  lemma ChoiceAnswers(c: Primitives, ep: Endpoint, fates: seq<Fate>, request: Payload, outcome: Forwarded)
    requires request.Request? && ep.keys.Some? && GoodKeys(ep.keys.value)
    ensures var choice := ReplyChoice(c, ep, fates, request, outcome);
            choice.Some? ==>
              && Sendable(c, ep, choice.value).Ok?
              && Answers(Handled(request, outcome), choice.value)
              && !IsControl(FrameTypeOf(choice.value))
  {
    hide Sendable, FaultText, ReplyChoice, SerializePayload, GoodKeys;
    var choice := ReplyChoice(c, ep, fates, request, outcome);
    if choice.Some? {
      ChoiceGoes(c, ep, fates, request, outcome);
      SendableNeedsNumbers(c, ep, choice.value);
      if outcome.Forwarded? {
        ForwardedAnswered(c, ep, fates, request, outcome);
      } else {
        ErrorAnswered(c, ep, fates, request, outcome);
      }
    }
  }

  lemma CallKeeps(c: Primitives, a: App, keys: TrafficKeys, p: Payload)
    requires AeadLaws(c) && GoodKeys(keys) && Inv(a, keys) && Enabled(a, Call(p))
    ensures Inv(Step(c, a, Call(p)), keys)
  {
    hide AeadLaws, GoodKeys, SR.Inv, Talk, Frames, Sendable, Put, SerializePayload;
    if Sendable(c, a.w.buyer.ep, p).Ok? {
      PutEffect(c, a.w, keys, SR.Buyer, p);
      FramesSnoc(a.requests, p);
    }
  }

  lemma SameKeys(a: App, keys: TrafficKeys)
    requires SR.Inv(a.w, keys)
    ensures a.w.buyer.ep.keys == Some(keys) && a.w.seller.ep.keys == Some(keys)
  {
    hide SR.ReturnedOk;
  }

  lemma ReplyKeeps(c: Primitives, a: App, keys: TrafficKeys, outcome: Forwarded, fates: seq<Fate>)
    requires AeadLaws(c) && GoodKeys(keys) && Inv(a, keys) && Enabled(a, Reply(outcome, fates))
    ensures Inv(Step(c, a, Reply(outcome, fates)), keys)
  {
    hide AeadLaws, GoodKeys, SR.Inv, Talk, Frames, Sendable, Put, SerializePayload, ReplyChoice, RequestsOk, Answers, AllQuiet;
    SameKeys(a, keys);
    ChoiceAnswers(c, a.w.seller.ep, fates, a.seller.request, outcome);
    var choice := ReplyChoice(c, a.w.seller.ep, fates, a.seller.request, outcome);
    if choice.Some? && !a.sellerLink.Down? {
      PutEffect(c, a.w, keys, SR.Seller, choice.value);
      FramesSnoc(a.replies, choice.value);
    }
  }

  /** A frame of the talk that the seller accepts is the buyer's next request. */
  lemma SellerGetsRequest(c: Primitives, a: App, keys: TrafficKeys, raw: bytes, fate: Fate)
    requires AeadLaws(c) && GoodKeys(keys) && Inv(a, keys) && Admissible(c, a, SellerTurn(raw, fate))
    requires OpenNext(c, a.w.seller.ep, raw).Ok? && !IsControl(OpenNext(c, a.w.seller.ep, raw).value.frameType)
    ensures |a.handled| < |a.requests|
    ensures OpenNext(c, a.w.seller.ep, raw).value.frameType == FRAME_REQUEST
    ensures var f := OpenNext(c, a.w.seller.ep, raw).value; OnFrame(f.frameType, f.plaintext) == Forward(a.requests[|a.handled|])
  {
    hide AeadLaws, GoodKeys, SR.Inv, Talk, OpenNext, SerializePayload, DeserializePayload, FaultText, SR.Step, SR.Admissible;
    DeliverEffect(c, a.w, keys, SR.Seller, raw, fate);
    PayloadRoundTrip(a.requests[|a.handled|]);
  }

  lemma ControlIgnored(frameType: nat, plaintext: bytes)
    requires IsControl(frameType)
    ensures OnFrame(frameType, plaintext) == Ignore
  {
  }

  /** What one frame makes of the seller: nothing, or busy with the next request. */
  lemma SellerReadsWhat(c: Primitives, a: App, keys: TrafficKeys, raw: bytes, fate: Fate)
    requires AeadLaws(c) && GoodKeys(keys) && Inv(a, keys) && Admissible(c, a, SellerTurn(raw, fate))
    ensures var a', w' := SellerReads(c, a, raw, fate), SR.Step(c, a.w, SR.Deliver(SR.Seller, raw, fate));
            && (a' == a.(seller := a'.seller) || a' == a.(w := w', seller := a'.seller))
            && (a'.seller == Listening ==>
                  && OpenNext(c, a.w.seller.ep, raw).Ok? && a' == a.(w := w')
                  && IsControl(OpenNext(c, a.w.seller.ep, raw).value.frameType))
            && (a'.seller.Busy? ==>
                  && OpenNext(c, a.w.seller.ep, raw).Ok? && a'.w == w'
                  && !IsControl(OpenNext(c, a.w.seller.ep, raw).value.frameType)
                  && |a.handled| < |a.requests| && a'.seller == Busy(a.requests[|a.handled|]))
  {
    hide AeadLaws, GoodKeys, Inv, OpenNext, OnFrame, SR.Step, SR.Admissible, Put, Sendable;
    if OpenNext(c, a.w.seller.ep, raw).Ok? {
      var f := OpenNext(c, a.w.seller.ep, raw).value;
      if IsControl(f.frameType) {
        ControlIgnored(f.frameType, f.plaintext);
      } else {
        SellerGetsRequest(c, a, keys, raw, fate);
      }
    }
  }

  lemma SellerTurnKeeps(c: Primitives, a: App, keys: TrafficKeys, raw: bytes, fate: Fate)
    requires AeadLaws(c) && GoodKeys(keys) && Inv(a, keys) && Admissible(c, a, SellerTurn(raw, fate))
    ensures Inv(Step(c, a, SellerTurn(raw, fate)), keys)
  {
    hide AeadLaws, GoodKeys, SR.Inv, Talk, OpenNext, SellerReads, SR.Step, SR.Admissible, RequestsOk, Frames, AllQuiet, Quiet, IsControl;
    SellerReadsWhat(c, a, keys, raw, fate);
    if OpenNext(c, a.w.seller.ep, raw).Ok? {
      DeliverEffect(c, a.w, keys, SR.Seller, raw, fate);
    } else {
      RefusedDelivery(c, a.w, SR.Seller, raw, fate);
    }
  }

  lemma RefusedDelivery(c: Primitives, w: SR.World, s: SR.Side, raw: bytes, fate: Fate)
    requires OpenNext(c, SR.PeerOf(w, s).ep, raw).Err?
    ensures SR.Step(c, w, SR.Deliver(s, raw, fate)) == w
  {
    hide OpenNext;
  }

  /** A frame of the talk that the buyer accepts is the next reply. */
  lemma BuyerGetsReply(c: Primitives, a: App, keys: TrafficKeys, raw: bytes, fate: Fate) returns (k: nat)
    requires AeadLaws(c) && GoodKeys(keys) && Inv(a, keys) && Admissible(c, a, BuyerTurn(raw, fate))
    requires OpenNext(c, a.w.buyer.ep, raw).Ok? && !IsControl(OpenNext(c, a.w.buyer.ep, raw).value.frameType)
    ensures k < |a.replies| && k == |Talk(a.w.buyer.accepted)|
    ensures OpenNext(c, a.w.buyer.ep, raw).value.frameType == FrameTypeOf(a.replies[k])
    ensures DeserializePayload(FrameTypeOf(a.replies[k]), OpenNext(c, a.w.buyer.ep, raw).value.plaintext)
         == Ok(Some(a.replies[k]))
  {
    hide AeadLaws, GoodKeys, SR.Inv, Talk, OpenNext, SerializePayload, DeserializePayload, SR.Step, SR.Admissible;
    DeliverEffect(c, a.w, keys, SR.Buyer, raw, fate);
    k := |Talk(a.w.buyer.accepted)|;
    PayloadRoundTrip(a.replies[k]);
  }

  lemma BuyerTurnKeeps(c: Primitives, a: App, keys: TrafficKeys, raw: bytes, fate: Fate)
    requires AeadLaws(c) && GoodKeys(keys) && Inv(a, keys) && Admissible(c, a, BuyerTurn(raw, fate))
    ensures Inv(Step(c, a, BuyerTurn(raw, fate)), keys)
  {
    hide AeadLaws, GoodKeys, SR.Inv, Talk, OpenNext, BuyerOutcome, SR.Admissible, RequestsOk, Frames, SR.TakeFrame, AllQuiet, Quiet;
    if OpenNext(c, a.w.buyer.ep, raw).Ok? {
      DeliverEffect(c, a.w, keys, SR.Buyer, raw, fate);
    }
  }

  lemma LeaveKeeps(a: App, keys: TrafficKeys, s: SR.Side, link: Link)
    requires Inv(a, keys) && !link.Up?
    ensures Inv(Leave(a, s, link), keys)
  {
    hide SR.Inv, Talk, Frames, RequestsOk, Answers, AllQuiet;
  }

  /** A close puts nothing into the talk. */
  lemma CloseKeeps(c: Primitives, a: App, keys: TrafficKeys, s: SR.Side, reason: string, fate: Fate)
    requires AeadLaws(c) && GoodKeys(keys) && Inv(a, keys)
    ensures Inv(Closes(c, a, s, reason, fate), keys)
  {
    hide AeadLaws, GoodKeys, SR.Inv, Talk, Frames, Sendable, Put, RequestsOk, Leave, AllQuiet, Answers;
    var p := Payload.Close(reason, "");
    if !Goes(c, SR.PeerOf(a.w, s).ep, [fate], p) {
      LeaveKeeps(a, keys, s, Down);
    } else {
      PutEffect(c, a.w, keys, s, p);
      LeaveKeeps(a.(w := Put(c, a.w, s, p)), keys, s, Leaving);
    }
  }

  /** A frame taken by a side that has stopped listening is lost to the talk. */
  lemma ClosingKeeps(c: Primitives, a: App, keys: TrafficKeys, s: SR.Side, raw: bytes, fate: Fate)
    requires AeadLaws(c) && GoodKeys(keys) && Inv(a, keys) && Admissible(c, a, ClosingTurn(s, raw, fate))
    ensures Inv(ClosingReads(c, a, s, raw, fate), keys)
  {
    hide AeadLaws, GoodKeys, SR.Inv, Talk, OpenNext, SR.Admissible, RequestsOk, Frames, SR.Step, AllQuiet, Quiet, Leave, Answers, IsControl;
    var w' := SR.Step(c, a.w, SR.Deliver(s, raw, fate));
    if OpenNext(c, SR.PeerOf(a.w, s).ep, raw).Ok? {
      DeliverEffect(c, a.w, keys, s, raw, fate);
      FramesLength(a);
    } else {
      RefusedDelivery(c, a.w, s, raw, fate);
    }
    LeaveKeeps(a.(w := w'), keys, s, Leaving);
    LeaveKeeps(a.(w := w'), keys, s, Down);
  }

  lemma FramesLength(a: App)
    ensures |Frames(a.requests)| == |a.requests|
  {
  }

  lemma BeatKeeps(c: Primitives, a: App, keys: TrafficKeys, s: SR.Side)
    requires AeadLaws(c) && GoodKeys(keys) && Inv(a, keys)
    ensures Inv(a.(w := SR.Step(c, a.w, SR.Emit(s, FRAME_HEARTBEAT, []))), keys)
  {
    hide AeadLaws, GoodKeys, SR.Inv, SR.Step, Talk, Frames, RequestsOk, InOrder, AllQuiet;
    BeatEffect(c, a.w, keys, s);
    InOrderOf(a, a.(w := SR.Step(c, a.w, SR.Emit(s, FRAME_HEARTBEAT, []))));
  }

  lemma CountKeeps(c: Primitives, a: App, keys: TrafficKeys, s: SR.Side, awaiting: bool, missed: nat)
    requires AeadLaws(c) && GoodKeys(keys) && Inv(a, keys)
    ensures Inv(a.(w := SR.Step(c, a.w, SR.Monitor(s, awaiting, missed))), keys)
  {
    hide AeadLaws, GoodKeys, SR.Inv, SR.Step, Talk, Frames, RequestsOk, InOrder, AllQuiet;
    SR.InvStep(c, a.w, keys, SR.Monitor(s, awaiting, missed));
    CountEffect(c, a.w, s, awaiting, missed);
    InOrderOf(a, a.(w := SR.Step(c, a.w, SR.Monitor(s, awaiting, missed))));
  }

  /** The heartbeat loop's counters are no part of what was sent or accepted. */
  lemma CountEffect(c: Primitives, w: SR.World, s: SR.Side, awaiting: bool, missed: nat)
    ensures var w' := SR.Step(c, w, SR.Monitor(s, awaiting, missed));
            && w'.buyer.sent == w.buyer.sent && w'.seller.sent == w.seller.sent
            && w'.buyer.accepted == w.buyer.accepted && w'.seller.accepted == w.seller.accepted
  {
  }

  lemma InOrderOf(a: App, a': App)
    requires a'.requests == a.requests && a'.handled == a.handled && a'.replies == a.replies
    ensures InOrder(a') == InOrder(a)
  {
    hide Answers, ValidPayload;
  }

  lemma InvStep(c: Primitives, a: App, keys: TrafficKeys, e: Event)
    requires AeadLaws(c) && GoodKeys(keys) && Inv(a, keys) && Admissible(c, a, e)
    ensures Inv(Step(c, a, e), keys)
  {
    hide AeadLaws, GoodKeys, SR.Admissible, BuyerOutcome, SellerReads, SellerReplies, Put, Closes, ClosingReads, Leave, Inv, SR.Step;
    match e {
      case Call(p) => CallKeeps(c, a, keys, p);
      case Abandon => AbandonKeeps(a, keys);
      case BuyerTurn(raw, fate) => BuyerTurnKeeps(c, a, keys, raw, fate);
      case SellerTurn(raw, fate) => SellerTurnKeeps(c, a, keys, raw, fate);
      case Reply(outcome, fates) => ReplyKeeps(c, a, keys, outcome, fates);
      case Close(s, reason, fate) => CloseKeeps(c, a, keys, s, reason, fate);
      case ClosingTurn(s, raw, fate) => ClosingKeeps(c, a, keys, s, raw, fate);
      case Drop(s) => LeaveKeeps(a, keys, s, Down);
      case Beat(s) => BeatKeeps(c, a, keys, s);
      case Count(s, awaiting, missed) => CountKeeps(c, a, keys, s, awaiting, missed);
    }
  }

  lemma AbandonKeeps(a: App, keys: TrafficKeys)
    requires Inv(a, keys)
    ensures Inv(a.(calling := false), keys)
  {
    hide SR.Inv, Talk, Frames, RequestsOk, InOrder, AllQuiet;
    InOrderOf(a, a.(calling := false));
  }

  lemma {:induction false} InvInRuns(c: Primitives, keys: TrafficKeys, apps: seq<App>, es: seq<Event>, i: nat)
    requires AeadLaws(c) && GoodKeys(keys) && IsRun(c, keys, apps, es) && i < |apps|
    ensures Inv(apps[i], keys)
  {
    hide Inv, Step, AeadLaws, GoodKeys;
    if i == 0 {
      NewAppInv(keys);
    } else {
      InvInRuns(c, keys, apps, es, i - 1);
      assert Admissible(c, apps[i - 1], es[i - 1]);
      InvStep(c, apps[i - 1], keys, es[i - 1]);
    }
  }

  lemma NewAppInv(keys: TrafficKeys)
    ensures Inv(NewApp(keys), keys)
  {
  }

  // ---------------------------------------------------------------- main results

  /** The seller handles requests in the order they were sent and sends one reply for each, in that
      order; only the last handled request of an ended session can lack its reply. */
  lemma RepliesInRequestOrder(c: Primitives, keys: TrafficKeys, apps: seq<App>, es: seq<Event>, i: nat)
    requires AeadLaws(c) && GoodKeys(keys) && IsRun(c, keys, apps, es) && i < |apps|
    ensures var a := apps[i];
            && InOrder(a)
            && (!a.seller.Ended? ==> |a.replies| == |a.handled|)
            && Talk(a.w.seller.sent) == Frames(a.replies)
            && Talk(a.w.buyer.sent) == Frames(a.requests)
  {
    InvInRuns(c, keys, apps, es, i);
  }

  /** The result a buyer gets for a frame it accepted is what the adapter made of its request: the
      response, or the text of the error that takes its place. */
  ghost predicate ResultOf(h: Handled, r: Result<Payload>) {
    match r
    case Ok(q) => Responds(h, q)
    case Err(fault) =>
      exists code: int, message :: Fails(h, code, message) && fault == RuntimeError(IntToString(code) + ": " + message)
  }

  /** Event `i` of the run ends the outstanding call with result `r`, through a frame the transport
      accepted rather than one it refused. */
  ghost predicate CallEnds(c: Primitives, apps: seq<App>, es: seq<Event>, i: nat, r: Result<Payload>) {
    && i < |es| && i + 1 < |apps|
    && es[i].BuyerTurn? && apps[i].requests != [] && BuyerOutcome(c, apps[i], es[i].raw, es[i].fate) == Some(r)
    && OpenNext(c, apps[i].w.buyer.ep, es[i].raw).Ok?
    && !SR.Raises(c, apps[i].w.buyer.ep, OpenNext(c, apps[i].w.buyer.ep, es[i].raw).value, es[i].fate)
  }

  /** The seller has handled exactly the outstanding request last, and `r` is its outcome. */
  ghost predicate Correlated(a: App, r: Result<Payload>) {
    && |a.handled| == |a.requests| > 0
    && a.handled[|a.handled| - 1].request == a.requests[|a.requests| - 1]
    && ResultOf(a.handled[|a.handled| - 1], r)
  }

  /** A reply that settles a call is for that call, and the call ends with what it says. */
  lemma SettledByReply(h: Handled, q: Payload, plaintext: bytes, traceId: string, r: Result<Payload>)
    requires Answers(h, q) && DeserializePayload(FrameTypeOf(q), plaintext) == Ok(Some(q))
    requires Settle(FrameTypeOf(q), plaintext, traceId) == Some(r)
    ensures h.request.traceId == traceId && ResultOf(h, r)
  {
    hide DeserializePayload, IntToString, Fits;
    if r.Err? {
      assert Fails(h, q.code, q.message);
    }
  }

  /** End-to-end correlation.  In every run, when an accepted frame ends a call, the seller has
      handled exactly this call's request last, and the result is the adapter's outcome for it. */
  lemma Correlation(
    c: Primitives, keys: TrafficKeys, apps: seq<App>, es: seq<Event>, i: nat, r: Result<Payload>
  )
    requires AeadLaws(c) && GoodKeys(keys) && IsRun(c, keys, apps, es) && CallEnds(c, apps, es, i, r)
    ensures Correlated(apps[i], r)
  {
    hide AeadLaws, GoodKeys, OpenNext, Inv, SR.Admissible, Settle, BuyerOutcome, Correlated, SR.Step, DeserializePayload;
    var a, raw, fate := apps[i], es[i].raw, es[i].fate;
    InvInRuns(c, keys, apps, es, i);
    assert Admissible(c, a, es[i]) && apps[i + 1] == Step(c, a, es[i]);
    EndedBySettle(c, a, raw, fate, r);
    QuietSettlesNothing(c, a, keys, raw, fate);
    var k := BuyerGetsReply(c, a, keys, raw, fate);
    var f := OpenNext(c, a.w.buyer.ep, raw).value;
    ReplyIsForLast(a, keys, k, f.plaintext, r);
  }

  /** A close or its acknowledgement ends no call. */
  lemma QuietSettlesNothing(c: Primitives, a: App, keys: TrafficKeys, raw: bytes, fate: Fate)
    requires AeadLaws(c) && GoodKeys(keys) && Inv(a, keys) && Admissible(c, a, BuyerTurn(raw, fate))
    requires OpenNext(c, a.w.buyer.ep, raw).Ok? && !IsHeartbeat(OpenNext(c, a.w.buyer.ep, raw).value.frameType)
    ensures var f := OpenNext(c, a.w.buyer.ep, raw).value;
            IsControl(f.frameType) ==> forall t :: Settle(f.frameType, f.plaintext, t) == None
  {
    hide AeadLaws, GoodKeys, SR.Inv, Talk, OpenNext, SR.Admissible, SR.Step, DeserializePayload, RequestsOk, InOrder, SellerOk, Frames;
    DeliverEffect(c, a.w, keys, SR.Buyer, raw, fate);
  }

  /** A call that an accepted frame ends was settled by that frame. */
  lemma EndedBySettle(c: Primitives, a: App, raw: bytes, fate: Fate, r: Result<Payload>)
    requires a.requests != [] && OpenNext(c, a.w.buyer.ep, raw).Ok? && BuyerOutcome(c, a, raw, fate) == Some(r)
    requires !SR.Raises(c, a.w.buyer.ep, OpenNext(c, a.w.buyer.ep, raw).value, fate)
    ensures var f, last := OpenNext(c, a.w.buyer.ep, raw).value, a.requests[|a.requests| - 1];
            && !IsHeartbeat(f.frameType)
            && last.Request? && Settle(f.frameType, f.plaintext, last.traceId) == Some(r)
  {
    hide OpenNext, SR.Step, Settle;
  }

  /** A reply that settles the outstanding call answers the last request, as trace ids differ. */
  lemma ReplyIsForLast(a: App, keys: TrafficKeys, k: nat, plaintext: bytes, r: Result<Payload>)
    requires Inv(a, keys) && k < |a.replies| && a.requests != [] && a.requests[|a.requests| - 1].Request?
    requires DeserializePayload(FrameTypeOf(a.replies[k]), plaintext) == Ok(Some(a.replies[k]))
    requires Settle(FrameTypeOf(a.replies[k]), plaintext, a.requests[|a.requests| - 1].traceId) == Some(r)
    ensures Correlated(a, r)
  {
    hide SR.Inv, Talk, Frames, SellerOk, Settle, Answers, ResultOf, DeserializePayload;
    var last := |a.requests| - 1;
    SettledByReply(a.handled[k], a.replies[k], plaintext, a.requests[last].traceId, r);
    assert a.handled[k].request == a.requests[k];
    assert k == last;
  }

  /** What `invoke` gives its caller for a response: the adapter's body and latency, under the trace id
      and the sequence number of the request that was handled. */
  lemma AnswerArrives(h: Handled, r: Result<Payload>)
    requires ResultOf(h, r) && r.Ok?
    ensures h.request.Request? && h.outcome.Forwarded?
    ensures var answer := InvokeResultOf(r);
            && answer.Answered?
            && answer.body == h.outcome.body && answer.latencyMs == h.outcome.latencyMs
            && answer.traceId == h.request.traceId && answer.sequence == h.request.sequence
  {
  }

  /** And for an error: its code and the line of its message when it is non-negative with a single-line
      message, and 1006 with the whole text when not. */
  lemma ErrorArrives(h: Handled, r: Result<Payload>) returns (code: int, message: string, parts: Line)
    requires ResultOf(h, r) && r.Err?
    ensures Fails(h, code, message) && parts.Of(message)
    ensures InvokeResultOf(r)
         == if code >= 0 && SingleLine(message) then InvokeError(code, if parts.line == "" then "session invoke failed" else parts.line)
            else InvokeError(1006, IntToString(code) + ": " + message)
  {
    hide ErrorOfText, SingleLine, Fails, IntToString;
    code, message :| Fails(h, code, message) && r.fault == RuntimeError(IntToString(code) + ": " + message);
    parts := ErrorTextRead(code, message);
  }

  /** A seller's AdapterError reaches the buyer as a SessionInvokeError with the same code exactly
      when the code is non-negative with a single-line message, or is 1006 already. */
  lemma AdapterErrorArrives(h: Handled, r: Result<Payload>)
    requires ResultOf(h, r) && h.outcome.AdapterFailed?
    ensures InvokeResultOf(r).InvokeError?
    ensures InvokeResultOf(r).code == h.outcome.code
       <==> h.outcome.code == 1006 || (h.outcome.code >= 0 && SingleLine(h.outcome.message))
  {
    hide ErrorOfText, SingleLine, IntToString;
    var code, message, _ := ErrorArrives(h, r);
  }

  // ---------------------------------------------------------------- the code follows runs

  /** An open socket of the endpoint of this side, on which no send raises after transmitting. */
  predicate Attached(w: SR.World, s: SR.Side, io: Io) {
    SR.PeerOf(w, s).ep == io.ep && !io.closed && NoneAfter(io.fates)
  }

  /** What is left of the fates after the turn that takes the next frame. */
  function FatesAfterTurn(c: Primitives, io: Io): seq<Fate>
    requires io.inbox != []
  {
    match OpenNext(c, io.ep, io.inbox[0])
    case Err(_) => io.fates
    case Ok(f) =>
      match AutoReply(f.frameType)
      case None => io.fates
      case Some(t) => if SealNext(c, io.ep, t, []).Err? then io.fates else LaterFates(io.fates)
  }

  /** The transport's view of a turn: what RecvTurn does is what the world's delivery does. */
  lemma TurnOutcome(c: Primitives, w: SR.World, s: SR.Side, io: Io)
    requires Attached(w, s, io) && io.ep.keys.Some? && io.inbox != []
    ensures var (io', t), w' := RecvTurn(c, io), SR.Step(c, w, SR.Deliver(s, io.inbox[0], NextFate(io.fates)));
            && io'.inbox == io.inbox[1..] && Attached(w', s, io') && io'.fates == FatesAfterTurn(c, io)
            && match OpenNext(c, io.ep, io.inbox[0])
               case Err(e) => t == Some(Err(e)) && w' == w
               case Ok(f) =>
                 if SR.Raises(c, io.ep, f, NextFate(io.fates)) then t.Some? && t.value.Err?
                 else t == (if IsHeartbeat(f.frameType) then None else Some(Ok((f.frameType, f.plaintext))))
  {
    hide OpenNext, SealNext;
    if OpenNext(c, io.ep, io.inbox[0]).Ok? {
      SR.SealIgnoresReceipt(c, io.ep, OpenNext(c, io.ep, io.inbox[0]).value);
    }
  }

  /** The waiting loop of `send_request`, on any such socket, takes exactly the buyer's turns. */
  lemma AwaitReplyTakesTurns(c: Primitives, a: App, io: Io)
    requires Attached(a.w, SR.Buyer, io) && io.ep.keys.Some? && io.inbox != []
    requires a.requests != [] && a.requests[|a.requests| - 1].Request?
    ensures var (io', _), traceId := RecvTurn(c, io), a.requests[|a.requests| - 1].traceId;
            && Attached(SR.Step(c, a.w, SR.Deliver(SR.Buyer, io.inbox[0], NextFate(io.fates))), SR.Buyer, io')
            && io'.inbox == io.inbox[1..]
            && match BuyerOutcome(c, a, io.inbox[0], NextFate(io.fates))
               case None => AwaitReply(c, io, traceId) == AwaitReply(c, io', traceId)
               case Some(Ok(q)) => AwaitReply(c, io, traceId) == (io', Ok(q))
               case Some(Err(_)) => AwaitReply(c, io, traceId).0 == io' && AwaitReply(c, io, traceId).1.Err?
  {
    hide OpenNext, Settle, RecvTurn, SR.Step, SR.Raises;
    TurnOutcome(c, a.w, SR.Buyer, io);
  }

  /** A send on a socket is a put in the world when it goes, and nothing when it does not. */
  lemma SendIsPut(c: Primitives, w: SR.World, s: SR.Side, io: Io, q: Payload)
    requires Attached(w, s, io)
    ensures var (io', r) := SendPayload(c, io, q);
            && r.Ok? == Goes(c, io.ep, io.fates, q) && io'.inbox == io.inbox
            && Attached(if r.Ok? then Put(c, w, s, q) else w, s, io')
  {
    hide Sendable, SerializePayload, SealNext;
    SendsOrNot(c, io, q);
    if Goes(c, io.ep, io.fates, q) {
      PutAdvances(c, w, s, q);
    }
  }

  lemma PutAdvances(c: Primitives, w: SR.World, s: SR.Side, q: Payload)
    requires Sendable(c, SR.PeerOf(w, s).ep, q).Ok?
    ensures var ep := SR.PeerOf(w, s).ep; SR.PeerOf(Put(c, w, s, q), s).ep == ep.(sendSeq := ep.sendSeq + 1)
  {
    hide SealNext, SerializePayload;
  }

  /** An answer on a socket is a put of the chosen reply. */
  lemma AnswerIsPut(c: Primitives, w: SR.World, io: Io, request: Payload, outcome: Forwarded)
    requires Attached(w, SR.Seller, io) && request.Request?
    ensures var (io', r), choice := Answer(c, io, request, outcome), ReplyChoice(c, io.ep, io.fates, request, outcome);
            && r.Ok? == choice.Some? && io'.inbox == io.inbox
            && Attached(if choice.Some? then Put(c, w, SR.Seller, choice.value) else w, SR.Seller, io')
  {
    hide Answer, ReplyChoice, Sendable, Put;
    AnswerSendsChoice(c, io, request, outcome);
    if ReplyChoice(c, io.ep, io.fates, request, outcome).Some? {
      PutAdvances(c, w, SR.Seller, ReplyChoice(c, io.ep, io.fates, request, outcome).value);
    }
  }

  /** The session after the seller read the next frame and, if it was a request, answered it. */
  function SellerRound(c: Primitives, a: App, io: Io, script: seq<Forwarded>): App
    requires io.inbox != []
  {
    var a1 := SellerReads(c, a, io.inbox[0], NextFate(io.fates));
    if a1.seller.Busy? && a1.seller.request.Request? && script != []
    then SellerReplies(c, a1, script[0], FatesAfterTurn(c, io)) else a1
  }

  /** A round of the model that leaves the seller listening is followed by the rest of the loop, any
      other round ends it. */
  predicate RoundTaken(c: Primitives, a: App, io: Io, script: seq<Forwarded>, next: Io)
    requires io.inbox != []
  {
    var a' := SellerRound(c, a, io, script);
    && Attached(a'.w, SR.Seller, next)
    && if a'.seller.Listening? then
         && next.inbox == io.inbox[1..]
         && Serve(c, io, script) == Serve(c, next, if |a'.handled| > |a.handled| && script != [] then script[1..] else script)
       else Serve(c, io, script) == next
  }

  /** The serving loop, on any such socket, takes exactly the seller's turns and replies. */
  lemma ServeTakesRounds(c: Primitives, a: App, io: Io, script: seq<Forwarded>) returns (next: Io)
    requires Attached(a.w, SR.Seller, io) && io.ep.keys.Some? && io.inbox != []
    requires a.seller.Listening? && a.sellerLink.Up?
    ensures RoundTaken(c, a, io, script, next)
  {
    hide OpenNext, RecvTurn, SR.Step, OnFrame, Put, SendPayload, Answer, ReplyChoice, Sendable, SR.Raises, FatesAfterTurn, Goes;
    TurnOutcome(c, a.w, SR.Seller, io);
    var (io', t) := RecvTurn(c, io);
    var w' := SR.Step(c, a.w, SR.Deliver(SR.Seller, io.inbox[0], NextFate(io.fates)));
    next := io';
    if t.Some? && t.value.Ok? {
      var (frameType, plaintext) := t.value.value;
      match OnFrame(frameType, plaintext) {
        case Say(q) =>
          SaidUntouched(c, io, plaintext);
          SendIsPut(c, w', SR.Seller, io', q);
          OneFate(c, io'.ep, io'.fates, q);
          next := SendPayload(c, io', q).0;
        case Forward(request) =>
          if script != [] {
            AnswerIsPut(c, w', io', request, script[0]);
            next := Answer(c, io', request, script[0]).0;
          }
        case _ =>
      }
    } else if t.None? {
      assert RecvFrame(c, io) == RecvFrame(c, io');
    }
  }

  lemma OneFate(c: Primitives, ep: Endpoint, fates: seq<Fate>, q: Payload)
    ensures Goes(c, ep, fates, q) == Goes(c, ep, [NextFate(fates)], q)
  {
    hide Sendable;
  }

  /** A frame the seller answers at once is none the transport acknowledges. */
  lemma SaidUntouched(c: Primitives, io: Io, plaintext: bytes)
    requires io.inbox != [] && OpenNext(c, io.ep, io.inbox[0]).Ok?
    requires OnFrame(OpenNext(c, io.ep, io.inbox[0]).value.frameType, plaintext).Say?
    ensures FatesAfterTurn(c, io) == io.fates
  {
    hide OpenNext, DeserializePayload, FaultText;
  }

  /** `close` begins with the close event: its frame goes out and it waits, or it is over. */
  lemma ShutBegins(c: Primitives, a: App, s: SR.Side, io: Io, reason: string, arriving: nat)
    requires Attached(a.w, s, io) && io.ep.keys.Some?
    ensures var a', sent := Closes(c, a, s, reason, NextFate(io.fates)), SendPayload(c, io, Payload.Close(reason, "")).0;
            && Attached(a'.w, s, sent) && sent.inbox == io.inbox
            && Shut(c, io, reason, arriving)
               == if LinkOf(a', s).Leaving? then ShutWaits(c, sent, arriving) else (sent.(closed := true), false)
  {
    hide Goes, SendPayload, Put, RecvWithin;
    SendIsPut(c, a.w, s, io, Payload.Close(reason, ""));
    OneFate(c, io.ep, io.fates, Payload.Close(reason, ""));
  }

  /** The rest of `close` once its frame is sent. */
  function ShutWaits(c: Primitives, io: Io, arriving: nat): (Io, bool) {
    var (done, f) := RecvWithin(c, io, arriving);
    (done.(closed := true), f.None? || (f.value.Ok? && f.value.value.0 == FRAME_CLOSE_ACK))
  }

  /** Its wait takes exactly the turns of a leaving side: heartbeats keep it waiting, anything else
      ends it. */
  lemma ShutTakesTurns(c: Primitives, a: App, s: SR.Side, io: Io, arriving: nat)
    requires Attached(a.w, s, io) && io.ep.keys.Some? && io.inbox != [] && arriving > 0
    ensures var a', io' := ClosingReads(c, a, s, io.inbox[0], NextFate(io.fates)), RecvTurn(c, io).0;
            && Attached(a'.w, s, io') && io'.inbox == io.inbox[1..]
            && (if LinkOf(a', s).Leaving? then ShutWaits(c, io, arriving) == ShutWaits(c, io', arriving - 1)
                else ShutWaits(c, io, arriving).0 == io'.(closed := true))
  {
    hide OpenNext, RecvTurn, SR.Step, SR.Raises;
    TurnOutcome(c, a.w, s, io);
  }
}
