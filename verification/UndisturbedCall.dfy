/** What a relay that passes frames on achieves: from any reachable state in which nothing is under
    way, a call gets the adapter's answer.  The other modules say what can not go wrong; this one
    that it can go right. */
module UndisturbedCall {
  import opened Bytes
  import opened Crypto
  import opened EndToEnd
  import opened Protocol
  import opened Provider
  import opened RelayCrypto
  import opened Results
  import opened Transport
  import SR = SessionRun

  /** Everything `s` sent has arrived. */
  predicate Arrived(w: SR.World, s: SR.Side) {
    |SR.PeerOf(w, SR.Other(s)).accepted| == |SR.PeerOf(w, s).sent|
  }

  /** A payload put on the wire when everything before it has arrived opens on the other side. */
  lemma PutOpens(c: Primitives, w: SR.World, keys: TrafficKeys, s: SR.Side, p: Payload)
    requires AeadLaws(c) && GoodKeys(keys) && SR.Inv(w, keys) && Arrived(w, s)
    requires Sendable(c, SR.PeerOf(w, s).ep, p).Ok?
    ensures var raw, w' := Sendable(c, SR.PeerOf(w, s).ep, p).value, Put(c, w, s, p);
            var got := OpenNext(c, SR.PeerOf(w', SR.Other(s)).ep, raw);
            && got.Ok? && got.value.frameType == FrameTypeOf(p)
            && DeserializePayload(FrameTypeOf(p), got.value.plaintext) == Ok(Some(p))
            && SR.Admissible(c, w', SR.Deliver(SR.Other(s), raw, Completes))
  {
    hide SealNext, OpenNext, DeserializePayload, SerializePayload, SR.Admissible, SR.Step, SR.Inv, AeadLaws, GoodKeys;
    PayloadRoundTrip(p);
    SR.EmittedOpens(c, w, keys, s, FrameTypeOf(p), SerializePayload(p).value);
  }

  /** A sendable payload changes nothing of its sender but what it sent. */
  lemma PutChanges(c: Primitives, w: SR.World, s: SR.Side, p: Payload)
    requires Sendable(c, SR.PeerOf(w, s).ep, p).Ok?
    ensures var w', q := Put(c, w, s, p), SR.PeerOf(w, s);
            && SR.PeerOf(w', SR.Other(s)) == SR.PeerOf(w, SR.Other(s))
            && SR.PeerOf(w', s).accepted == q.accepted
  {
    hide SealNext, SerializePayload;
  }

  /** Taking a request or a reply changes only what the receiver has accepted and returned. */
  lemma TakeChanges(c: Primitives, w: SR.World, s: SR.Side, raw: bytes)
    requires OpenNext(c, SR.PeerOf(w, s).ep, raw).Ok?
    requires OpenNext(c, SR.PeerOf(w, s).ep, raw).value.frameType in {FRAME_REQUEST, FRAME_RESPONSE, FRAME_ERROR}
    ensures var w', q := SR.Step(c, w, SR.Deliver(s, raw, Completes)), SR.PeerOf(w, s);
            && SR.PeerOf(w', SR.Other(s)) == SR.PeerOf(w, SR.Other(s))
            && SR.PeerOf(w', s).sent == q.sent
            && SR.PeerOf(w', s).ep.keys == q.ep.keys && SR.PeerOf(w', s).ep.isInitiator == q.ep.isInitiator
            && SR.PeerOf(w', s).ep.sendSeq == q.ep.sendSeq
  {
    hide OpenNext, SR.EmitFrame;
  }

  /** What can be sent depends on the sender's keys and send counter alone. */
  lemma ChoiceDependsOnSender(c: Primitives, ep: Endpoint, ep': Endpoint, request: Payload, outcome: Forwarded)
    requires request.Request? && ep'.keys == ep.keys && ep'.isInitiator == ep.isInitiator && ep'.sendSeq == ep.sendSeq
    ensures ReplyChoice(c, ep', [], request, outcome) == ReplyChoice(c, ep, [], request, outcome)
  {
    hide SerializePayload, EncryptFrame, FaultText;
  }

  /** The request arrives and is forwarded. */
  lemma RequestArrives(c: Primitives, a: App, keys: TrafficKeys, p: Payload) returns (raw: bytes)
    requires AeadLaws(c) && GoodKeys(keys) && Inv(a, keys) && Enabled(a, Call(p)) && a.seller.Listening?
    requires Arrived(a.w, SR.Buyer) && Sendable(c, a.w.buyer.ep, p).Ok?
    ensures var a1 := Step(c, a, Call(p));
            && Admissible(c, a1, SellerTurn(raw, Completes))
            && var a2 := Step(c, a1, SellerTurn(raw, Completes));
               && a2.seller == Busy(p) && a2.requests == a.requests + [p] && a2.calling && a2.sellerLink == a.sellerLink
               && a2.w.seller.ep.keys == a.w.seller.ep.keys && a2.w.seller.ep.isInitiator == a.w.seller.ep.isInitiator
               && a2.w.seller.ep.sendSeq == a.w.seller.ep.sendSeq && a2.w.seller.sent == a.w.seller.sent
               && a2.w.buyer.accepted == a.w.buyer.accepted
  {
    hide AeadLaws, GoodKeys, OpenNext, DeserializePayload, Sendable, Put, SR.Admissible, SR.Step, SR.Inv, RequestsOk, InOrder, SellerOk;
    hide FaultText, Frames;
    raw := Sendable(c, a.w.buyer.ep, p).value;
    var a1 := Step(c, a, Call(p));
    PutOpens(c, a.w, keys, SR.Buyer, p);
    PutChanges(c, a.w, SR.Buyer, p);
    TakeChanges(c, a1.w, SR.Seller, raw);
  }

  /** The result the reply of a handled request stands for. */
  function Said(q: Payload): Result<Payload>
    requires q.Response? || q.Error?
  {
    if q.Response? then Ok(q) else Err(RuntimeError(ErrorText(q.code, q.message)))
  }

  /** A reply settles its call with what it says, and is no frame the transport acknowledges. */
  lemma AnswerSettles(request: Payload, outcome: Forwarded, q: Payload)
    requires Answers(Handled(request, outcome), q)
    ensures (q.Response? || q.Error?) && !IsHeartbeat(FrameTypeOf(q))
    ensures forall plaintext :: DeserializePayload(FrameTypeOf(q), plaintext) == Ok(Some(q)) ==>
              Settle(FrameTypeOf(q), plaintext, request.traceId) == Some(Said(q))
    ensures forall c: Primitives, ep: Endpoint, f: OpenedFrame, fate: Fate :: f.frameType == FrameTypeOf(q) ==> !SR.Raises(c, ep, f, fate)
  {
    hide DeserializePayload, ErrorText, FaultText, Fits;
  }

  /** The reply arrives and ends the call with what it says. */
  lemma ReplyArrives(c: Primitives, a: App, keys: TrafficKeys, outcome: Forwarded, q: Payload) returns (raw: bytes)
    requires AeadLaws(c) && GoodKeys(keys) && Inv(a, keys) && Enabled(a, Reply(outcome, [])) && a.calling
    requires Arrived(a.w, SR.Seller) && a.sellerLink.Up?
    requires a.requests != [] && a.requests[|a.requests| - 1] == a.seller.request
    requires ReplyChoice(c, a.w.seller.ep, [], a.seller.request, outcome) == Some(q)
    ensures q.Response? || q.Error?
    ensures var a1 := Step(c, a, Reply(outcome, []));
            && Admissible(c, a1, BuyerTurn(raw, Completes)) && a1.requests == a.requests
            && OpenNext(c, a1.w.buyer.ep, raw).Ok?
            && BuyerOutcome(c, a1, raw, Completes) == Some(Said(q))
            && !SR.Raises(c, a1.w.buyer.ep, OpenNext(c, a1.w.buyer.ep, raw).value, Completes)
  {
    hide AeadLaws, GoodKeys, OpenNext, DeserializePayload, Sendable, Put, SR.Admissible, SR.Step, SR.Inv, RequestsOk, InOrder, SellerOk;
    hide FaultText, Frames, ReplyChoice, ErrorText, Settle, SR.Raises, Answers, Talk, AllQuiet;
    KeysOf(a, keys);
    ChoiceAnswers(c, a.w.seller.ep, [], a.seller.request, outcome);
    AnswerSettles(a.seller.request, outcome, q);
    raw := Sendable(c, a.w.seller.ep, q).value;
    var a1 := Step(c, a, Reply(outcome, []));
    PutOpens(c, a.w, keys, SR.Seller, q);
    PutChanges(c, a.w, SR.Seller, q);
    TakeChanges(c, a1.w, SR.Buyer, raw);
  }

  /** From any state that keeps the invariant, with nothing in flight, a listening seller and no call
      under way: if the request and an answer can be sent at all, passing on the two frames
      ends the call with that answer, the response the adapter gave or the error it raised. */
  lemma CallCompletes(c: Primitives, a: App, keys: TrafficKeys, p: Payload, outcome: Forwarded)
      returns (apps: seq<App>, es: seq<Event>)
    requires AeadLaws(c) && GoodKeys(keys) && Inv(a, keys) && Enabled(a, Call(p)) && a.seller.Listening?
    requires Arrived(a.w, SR.Buyer) && Arrived(a.w, SR.Seller)
    requires Sendable(c, a.w.buyer.ep, p).Ok? && ReplyChoice(c, a.w.seller.ep, [], p, outcome).Some?
    ensures |es| == 4 && |apps| == 5 && apps[0] == a && es[0] == Call(p) && es[2] == Reply(outcome, [])
    ensures forall i :: 0 <= i < 4 ==> Admissible(c, apps[i], es[i]) && apps[i + 1] == Step(c, apps[i], es[i])
    ensures var q := ReplyChoice(c, a.w.seller.ep, [], p, outcome).value;
            (q.Response? || q.Error?) && CallEnds(c, apps, es, 3, Said(q))
  {
    hide AeadLaws, GoodKeys, OpenNext, Sendable, SR.Admissible, SR.Inv, Inv, Step, BuyerOutcome, ReplyChoice, ErrorText, Said;
    var q := ReplyChoice(c, a.w.seller.ep, [], p, outcome).value;
    ListeningIsUp(a, keys);
    var raw := RequestArrives(c, a, keys, p);
    var a1 := Step(c, a, Call(p));
    InvStep(c, a, keys, Call(p));
    var a2 := Step(c, a1, SellerTurn(raw, Completes));
    InvStep(c, a1, keys, SellerTurn(raw, Completes));
    ChoiceDependsOnSender(c, a.w.seller.ep, a2.w.seller.ep, p, outcome);
    var raw2 := ReplyArrives(c, a2, keys, outcome, q);
    var a3 := Step(c, a2, Reply(outcome, []));
    apps := [a, a1, a2, a3, Step(c, a3, BuyerTurn(raw2, Completes))];
    es := [Call(p), SellerTurn(raw, Completes), Reply(outcome, []), BuyerTurn(raw2, Completes)];
  }

  lemma KeysOf(a: App, keys: TrafficKeys)
    requires Inv(a, keys)
    ensures a.w.seller.ep.keys == Some(keys)
  {
    hide SR.ReturnedOk, Talk, Frames, RequestsOk, InOrder, AllQuiet, SellerOk;
  }

  lemma ListeningIsUp(a: App, keys: TrafficKeys)
    requires Inv(a, keys) && a.seller.Listening?
    ensures a.sellerLink.Up?
  {
    hide SR.Inv, Talk, Frames, RequestsOk, InOrder, AllQuiet;
  }
}
