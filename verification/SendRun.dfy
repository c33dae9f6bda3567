/** Sends that raise.  `send_frame` reads the sequence number before it awaits the socket and advances
    it afterwards, so a send that is interrupted after its bytes went out leaves the number to the
    next frame.  Here every operation of an endpoint comes with the way its send ends. */
module SendRun {
  import opened Bytes
  import opened Crypto
  import opened Protocol
  import opened RelayCrypto
  import opened Results
  import opened Transport

  /** A `send_frame` call, or one turn of the `recv_frame` loop on the given bytes, which sends when a
      heartbeat or a close is acknowledged. */
  datatype Op =
    | Send(frameType: nat, payload: bytes, fate: Fate)
    | Receive(raw: bytes, fate: Fate)

  function After(c: Primitives, io: Io, op: Op): Io {
    match op
    case Send(t, payload, fate) => SendFrame(c, io.(fates := [fate]), t, payload).0
    case Receive(raw, fate) => RecvTurn(c, io.(inbox := [raw], fates := [fate])).0
  }

  function Run(c: Primitives, io: Io, ops: seq<Op>): Io
    decreases |ops|
  {
    if ops == [] then io else Run(c, After(c, io, ops[0]), ops[1..])
  }

  /** The bytes an operation asks the socket to send. */
  function Asked(c: Primitives, io: Io, op: Op): Option<bytes> {
    var frame: Option<(nat, bytes)> :=
      match op
      case Send(t, payload, _) => Some((t, payload))
      case Receive(raw, _) =>
        (match OpenNext(c, io.ep, raw)
         case Err(_) => None
         case Ok(f) => if AutoReply(f.frameType).Some? then Some((AutoReply(f.frameType).value, [])) else None);
    match frame
    case None => None
    case Some((t, payload)) =>
      match SealNext(c, io.ep, t, payload)
      case Err(_) => None
      case Ok(sealed) => if io.closed then None else Some(sealed)
  }

  /** The bytes an operation puts on the wire. */
  function Wired(c: Primitives, io: Io, op: Op): Option<bytes> {
    if op.fate.RaisesBefore? then None else Asked(c, io, op)
  }

  /** For each frame a run puts on the wire, whether its send completed. */
  function Completions(c: Primitives, io: Io, ops: seq<Op>): seq<bool>
    decreases |ops|
  {
    if ops == [] then []
    else
      (if Wired(c, io, ops[0]).Some? then [ops[0].fate.Completes?] else [])
      + Completions(c, After(c, io, ops[0]), ops[1..])
  }

  /** The frames a run puts on the wire. */
  function Wire(c: Primitives, io: Io, ops: seq<Op>): seq<bytes>
    decreases |ops|
  {
    if ops == [] then []
    else
      (if Wired(c, io, ops[0]).Some? then [Wired(c, io, ops[0]).value] else [])
      + Wire(c, After(c, io, ops[0]), ops[1..])
  }

  /** The nonce a frame was sealed under, from the number in its header. */
  function NonceOf(prefix: bytes, raw: bytes): Result<bytes>
    requires |raw| >= 11
  {
    BuildNonce(prefix, FromBigEndian(raw[3..11]))
  }

  ghost predicate Ready(io: Io) {
    io.ep.keys.Some? && GoodKeys(io.ep.keys.value)
  }

  /** An operation puts at most one frame on the wire, sealed under the current number, and only a
      completed send advances the number. */
  lemma AfterEffect(c: Primitives, io: Io, op: Op)
    requires Ready(io)
    ensures var io', wired := After(c, io, op), Wired(c, io, op);
            && io'.outbox == io.outbox + (if wired.Some? then [wired.value] else [])
            && io'.ep.keys == io.ep.keys && io'.ep.isInitiator == io.ep.isInitiator
            && io'.ep.sendSeq == io.ep.sendSeq + (if wired.Some? && op.fate.Completes? then 1 else 0)
    ensures var k := io.ep.keys.value;
            Wired(c, io, op).Some? ==>
              exists t: nat, payload :: EncryptFrame(c, OutboundKey(k, io.ep.isInitiator), OutboundPrefix(k, io.ep.isInitiator),
                                                io.ep.sendSeq, t, payload) == Ok(Wired(c, io, op).value)
  {
    hide EncryptFrame, DecryptFrame, GoodKeys;
    var k := io.ep.keys.value;
    if op.Send? {
      assert Wired(c, io, op).Some? ==>
          EncryptFrame(c, OutboundKey(k, io.ep.isInitiator), OutboundPrefix(k, io.ep.isInitiator),
                       io.ep.sendSeq, op.frameType, op.payload) == Ok(Wired(c, io, op).value);
    } else if OpenNext(c, io.ep, op.raw).Ok? && AutoReply(OpenNext(c, io.ep, op.raw).value.frameType).Some? {
      ReceiveEffect(c, io, op);
    }
  }

  lemma ReceiveEffect(c: Primitives, io: Io, op: Op)
    requires io.ep.keys.Some? && op.Receive? && OpenNext(c, io.ep, op.raw).Ok?
    requires AutoReply(OpenNext(c, io.ep, op.raw).value.frameType).Some?
    ensures var io', wired := After(c, io, op), Wired(c, io, op);
            && io'.outbox == io.outbox + (if wired.Some? then [wired.value] else [])
            && io'.ep.keys == io.ep.keys && io'.ep.isInitiator == io.ep.isInitiator
            && io'.ep.sendSeq == io.ep.sendSeq + (if wired.Some? && op.fate.Completes? then 1 else 0)
    ensures var k, t := io.ep.keys.value, AutoReply(OpenNext(c, io.ep, op.raw).value.frameType).value;
            Wired(c, io, op).Some? ==>
              EncryptFrame(c, OutboundKey(k, io.ep.isInitiator), OutboundPrefix(k, io.ep.isInitiator),
                           io.ep.sendSeq, t, []) == Ok(Wired(c, io, op).value)
  {
    hide EncryptFrame, DecryptFrame;
  }

  /** What a run appends to the outbox is its wire. */
  lemma {:induction false} OutboxIsWire(c: Primitives, io: Io, ops: seq<Op>)
    requires Ready(io)
    ensures Run(c, io, ops).outbox == io.outbox + Wire(c, io, ops)
    ensures |Wire(c, io, ops)| == |Completions(c, io, ops)|
    decreases |ops|
  {
    hide After, Wired, GoodKeys;
    if ops == [] {
      assert io.outbox + [] == io.outbox;
    } else {
      AfterEffect(c, io, ops[0]);
      OutboxIsWire(c, After(c, io, ops[0]), ops[1..]);
      var head := if Wired(c, io, ops[0]).Some? then [Wired(c, io, ops[0]).value] else [];
      var tail := Wire(c, After(c, io, ops[0]), ops[1..]);
      assert io.outbox + head + tail == io.outbox + (head + tail);
    }
  }

  lemma HeaderNumber(c: Primitives, key: bytes, prefix: bytes, sequence: nat, t: nat, payload: bytes)
    requires EncryptFrame(c, key, prefix, sequence, t, payload).Ok?
    ensures var raw := EncryptFrame(c, key, prefix, sequence, t, payload).value;
            && |raw| >= 11 && NonceOf(prefix, raw) == BuildNonce(prefix, sequence) && BuildNonce(prefix, sequence).Ok?
  {
    hide ToBigEndian, FromBigEndian, Header, BuildNonce;
    HeaderFields(|payload|, t, sequence);
    var raw := EncryptFrame(c, key, prefix, sequence, t, payload).value;
    var header := Header(|payload|, t, sequence);
    assert raw[..11] == header;
    assert raw[3..11] == header[3..11];
  }

  /** The i-th frame on the wire carries the i-th nonce counter. */
  lemma {:induction false} WireNonces(c: Primitives, io: Io, ops: seq<Op>, i: nat)
    requires Ready(io) && i < |Wire(c, io, ops)|
    ensures |Wire(c, io, ops)| == |NonceCounters(Completions(c, io, ops), io.ep.sendSeq)|
    ensures var prefix := OutboundPrefix(io.ep.keys.value, io.ep.isInitiator);
            var counter := NonceCounters(Completions(c, io, ops), io.ep.sendSeq)[i];
            && |Wire(c, io, ops)[i]| >= 11
            && BuildNonce(prefix, counter).Ok? && NonceOf(prefix, Wire(c, io, ops)[i]) == BuildNonce(prefix, counter)
    decreases |ops|
  {
    hide After, Wired, GoodKeys, NonceOf, BuildNonce, EncryptFrame, NonceCounters;
    var io', head := After(c, io, ops[0]), Wired(c, io, ops[0]);
    AfterEffect(c, io, ops[0]);
    OutboxIsWire(c, io, ops);
    if head.Some? {
      CountersTail(ops[0].fate.Completes?, Completions(c, io', ops[1..]), io.ep.sendSeq);
    } else {
      assert Wire(c, io, ops) == Wire(c, io', ops[1..]) && Completions(c, io, ops) == Completions(c, io', ops[1..]);
    }
    if head.Some? && i == 0 {
      var k := io.ep.keys.value;
      var t: nat, payload :| EncryptFrame(c, OutboundKey(k, io.ep.isInitiator), OutboundPrefix(k, io.ep.isInitiator),
                                          io.ep.sendSeq, t, payload) == Ok(head.value);
      HeaderNumber(c, OutboundKey(k, io.ep.isInitiator), OutboundPrefix(k, io.ep.isInitiator), io.ep.sendSeq, t, payload);
    } else {
      WireNonces(c, io', ops[1..], if head.Some? then i - 1 else i);
    }
  }

  /** The nonce counters of frames put on the wire one after the other: a send that does not complete
      leaves the counter where it is. */
  function NonceCounters(completed: seq<bool>, next: nat): (s: seq<nat>)
    ensures |s| == |completed|
    ensures forall i :: 0 <= i < |s| ==> s[i] >= next
  {
    if completed == [] then []
    else [next] + NonceCounters(completed[1..], if completed[0] then next + 1 else next)
  }

  predicate Distinct(s: seq<nat>) {
    forall i, j :: 0 <= i < j < |s| ==> s[i] != s[j]
  }

  lemma {:induction false} CountersDistinctIffComplete(completed: seq<bool>, next: nat)
    ensures Distinct(NonceCounters(completed, next))
       <==> forall i :: 0 <= i < |completed| - 1 ==> completed[i]
  {
    if |completed| >= 2 {
      var rest := completed[1..];
      var s, t := NonceCounters(completed, next), NonceCounters(rest, if completed[0] then next + 1 else next);
      CountersDistinctIffComplete(rest, if completed[0] then next + 1 else next);
      assert s[1..] == t && s[0] == next;
      if completed[0] {
        assert Distinct(t) ==> Distinct(s);
        assert Distinct(s) ==> Distinct(t) by {
          assert forall i :: 0 <= i < |t| ==> t[i] == s[i + 1];
        }
        assert forall i :: 0 <= i < |rest| - 1 ==> rest[i] == completed[i + 1];
        assert forall i :: 1 <= i < |completed| - 1 ==> completed[i] == rest[i - 1];
      } else {
        assert s[1] == t[0] == next;
      }
    }
  }

  lemma CountersTail(first: bool, rest: seq<bool>, next: nat)
    ensures NonceCounters([first] + rest, next) == [next] + NonceCounters(rest, if first then next + 1 else next)
  {
    assert ([first] + rest)[1..] == rest;
  }

  /** Over every run of an endpoint's sends and receives, whatever way each send ends, the frames put
      on the wire have pairwise different nonces exactly when every send that put one there, but the
      last, completed. */
  lemma NoncesDistinctIffSendsComplete(c: Primitives, io: Io, ops: seq<Op>)
    requires Ready(io)
    ensures Run(c, io, ops).outbox == io.outbox + Wire(c, io, ops)
    ensures forall i :: 0 <= i < |Wire(c, io, ops)| ==> |Wire(c, io, ops)[i]| >= 11
    ensures |Completions(c, io, ops)| == |Wire(c, io, ops)|
    ensures var prefix := OutboundPrefix(io.ep.keys.value, io.ep.isInitiator);
            (forall i, j :: 0 <= i < j < |Wire(c, io, ops)| ==>
               NonceOf(prefix, Wire(c, io, ops)[i]) != NonceOf(prefix, Wire(c, io, ops)[j]))
            <==> (forall i :: 0 <= i < |Wire(c, io, ops)| - 1 ==> Completions(c, io, ops)[i])
  {
    hide Wire, Completions, Run, NonceOf, BuildNonce, GoodKeys, NonceCounters;
    OutboxIsWire(c, io, ops);
    var prefix := OutboundPrefix(io.ep.keys.value, io.ep.isInitiator);
    var wire, counters := Wire(c, io, ops), NonceCounters(Completions(c, io, ops), io.ep.sendSeq);
    forall i | 0 <= i < |wire|
      ensures |wire[i]| >= 11 && BuildNonce(prefix, counters[i]).Ok? && NonceOf(prefix, wire[i]) == BuildNonce(prefix, counters[i])
    {
      WireNonces(c, io, ops, i);
    }
    forall i, j | 0 <= i < j < |wire|
      ensures NonceOf(prefix, wire[i]) == NonceOf(prefix, wire[j]) <==> counters[i] == counters[j]
    {
      NonceDeterminesSequence(prefix, counters[i], counters[j]);
    }
    CountersDistinctIffComplete(Completions(c, io, ops), io.ep.sendSeq);
  }

  /** A send interrupted after transmitting, followed by another send: two different frames under one
      key and one nonce. */
  lemma InterruptedSendReusesNonce(c: Primitives, io: Io, t: nat, p: bytes, q: bytes)
    requires AeadLaws(c) && Ready(io) && !io.closed && io.ep.sendSeq <= MAX_SEQUENCE && t < 0x100
    requires |p| < 0x1_0000 && |q| < 0x1_0000 && p != q
    ensures var ops := [Send(t, p, RaisesAfter), Send(t, q, Completes)];
            var prefix := OutboundPrefix(io.ep.keys.value, io.ep.isInitiator);
            && |Wire(c, io, ops)| == 2 && Wire(c, io, ops)[0] != Wire(c, io, ops)[1]
            && |Wire(c, io, ops)[0]| >= 11 && |Wire(c, io, ops)[1]| >= 11
            && NonceOf(prefix, Wire(c, io, ops)[0]) == NonceOf(prefix, Wire(c, io, ops)[1])
  {
    hide AeadLaws, EncryptFrame, DecryptFrame, NonceOf, BuildNonce;
    var ep, k := io.ep, io.ep.keys.value;
    var key, prefix := OutboundKey(k, ep.isInitiator), OutboundPrefix(k, ep.isInitiator);
    SealableFrames(c, key, prefix, ep.sendSeq, t, p);
    SealableFrames(c, key, prefix, ep.sendSeq, t, q);
    HeaderNumber(c, key, prefix, ep.sendSeq, t, p);
    HeaderNumber(c, key, prefix, ep.sendSeq, t, q);
    DecryptEncrypted(c, key, prefix, ep.sendSeq, t, p);
    DecryptEncrypted(c, key, prefix, ep.sendSeq, t, q);
    var first, second := Send(t, p, RaisesAfter), Send(t, q, Completes);
    var io1 := After(c, io, first);
    var raws := [EncryptFrame(c, key, prefix, ep.sendSeq, t, p).value, EncryptFrame(c, key, prefix, ep.sendSeq, t, q).value];
    assert Wired(c, io, first) == Some(raws[0]) && Wired(c, io1, second) == Some(raws[1]);
    assert [first, second][1..] == [second] && [second][1..] == [];
    assert Wire(c, io1, [second]) == [raws[1]];
    assert Wire(c, io, [first, second]) == [raws[0]] + [raws[1]];
  }
}
