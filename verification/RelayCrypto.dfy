/** Traffic keys, the sealed frame and the strict sequence counter
    (aim_node/core/relay_crypto.py). */
module RelayCrypto {
  import opened Bytes
  import opened Crypto
  import opened Results
  import opened Text

  datatype TrafficKeys = TrafficKeys(
    buyerToSellerKey: bytes,
    sellerToBuyerKey: bytes,
    buyerToSellerNoncePrefix: bytes,
    sellerToBuyerNoncePrefix: bytes
  )

  const B2S_KEY_LABEL := "AIM/1.0 buyer-to-seller key"
  const S2B_KEY_LABEL := "AIM/1.0 seller-to-buyer key"
  const B2S_NONCE_LABEL := "AIM/1.0 buyer-to-seller nonce"
  const S2B_NONCE_LABEL := "AIM/1.0 seller-to-buyer nonce"

  ghost predicate Lawful(c: Primitives) {
    && AeadLaws(c) && DhLaws(c) && SignatureLaws(c)
    && HkdfLaws(c, EncodeUtf8(B2S_KEY_LABEL), EncodeUtf8(S2B_KEY_LABEL))
  }

  lemma LabelsDiffer()
    ensures EncodeUtf8(B2S_KEY_LABEL) != EncodeUtf8(S2B_KEY_LABEL)
  {
    hide EncodeUtf8;
    assert B2S_KEY_LABEL[8] != S2B_KEY_LABEL[8];
    if EncodeUtf8(B2S_KEY_LABEL) == EncodeUtf8(S2B_KEY_LABEL) {
      EncodeUtf8Injective(B2S_KEY_LABEL, S2B_KEY_LABEL);
    }
  }

  function DeriveTrafficKeys(c: Primitives, secret: bytes, sessionId: string): TrafficKeys {
    var prk := c.hmacSha256(EncodeUtf8(sessionId), secret);
    TrafficKeys(
      c.hkdfExpand(prk, EncodeUtf8(B2S_KEY_LABEL), 32),
      c.hkdfExpand(prk, EncodeUtf8(S2B_KEY_LABEL), 32),
      c.hkdfExpand(prk, EncodeUtf8(B2S_NONCE_LABEL), 4),
      c.hkdfExpand(prk, EncodeUtf8(S2B_NONCE_LABEL), 4))
  }

  /** What a session needs of its keys: the sizes the cipher asks for and two different keys. */
  predicate GoodKeys(k: TrafficKeys) {
    && |k.buyerToSellerKey| == 32 && |k.sellerToBuyerKey| == 32
    && |k.buyerToSellerNoncePrefix| == 4 && |k.sellerToBuyerNoncePrefix| == 4
    && k.buyerToSellerKey != k.sellerToBuyerKey
  }

  lemma DerivedKeysAreGood(c: Primitives, secret: bytes, sessionId: string)
    requires Lawful(c)
    ensures GoodKeys(DeriveTrafficKeys(c, secret, sessionId))
  {
    hide EncodeUtf8;
  }

  /** The four values are HKDF (section 2 of RFC 5869) of the shared secret with the session id as salt:
      whatever else derives the same pseudo-random key has the same traffic keys. */
  lemma KeysOfExtract(c: Primitives, secret: bytes, sessionId: string, prk: bytes)
    requires prk == c.hmacSha256(EncodeUtf8(sessionId), secret)
    ensures var k := DeriveTrafficKeys(c, secret, sessionId);
            && k.buyerToSellerKey == c.hkdfExpand(prk, EncodeUtf8("AIM/1.0 buyer-to-seller key"), 32)
            && k.sellerToBuyerKey == c.hkdfExpand(prk, EncodeUtf8("AIM/1.0 seller-to-buyer key"), 32)
            && k.buyerToSellerNoncePrefix == c.hkdfExpand(prk, EncodeUtf8("AIM/1.0 buyer-to-seller nonce"), 4)
            && k.sellerToBuyerNoncePrefix == c.hkdfExpand(prk, EncodeUtf8("AIM/1.0 seller-to-buyer nonce"), 4)
    ensures forall x, t :: c.hmacSha256(EncodeUtf8(t), x) == prk ==> DeriveTrafficKeys(c, x, t) == DeriveTrafficKeys(c, secret, sessionId)
  {
    hide EncodeUtf8;
  }

  /** The keys depend on both the session id and the secret: for any other pair there are lawful
      primitives under which both keys and both prefixes differ. */
  lemma KeysDependOnBoth(x: bytes, s: string, y: bytes, t: string) returns (c: Primitives)
    requires s != t || x != y
    ensures Lawful(c) && forall p, q :: c.exchange(p, q) == Some(x)
    ensures var k, l := DeriveTrafficKeys(c, x, s), DeriveTrafficKeys(c, y, t);
            && k.buyerToSellerKey != l.buyerToSellerKey && k.sellerToBuyerKey != l.sellerToBuyerKey
            && k.buyerToSellerNoncePrefix != l.buyerToSellerNoncePrefix
            && k.sellerToBuyerNoncePrefix != l.sellerToBuyerNoncePrefix
  {
    hide EncodeUtf8, AeadLaws, DhLaws, SignatureLaws, HkdfLaws;
    if EncodeUtf8(s) == EncodeUtf8(t) {
      EncodeUtf8Injective(s, t);
    }
    LabelsDiffer();
    c := LawsAreConsistent(EncodeUtf8(B2S_KEY_LABEL), EncodeUtf8(S2B_KEY_LABEL), EncodeUtf8(s), x);
  }

  // ---------------------------------------------------------------- frames

  const MAX_SEQUENCE := 0xFFFF_FFFF_FFFF_FFFF

  function BuildNonce(prefix: bytes, sequence: int): Result<bytes> {
    if |prefix| != 4 then Err(ValueError("nonce prefix must be exactly 4 bytes"))
    else if sequence < 0 || sequence > MAX_SEQUENCE then Err(ValueError("sequence number must fit in uint64"))
    else Widths(); Ok(prefix + ToBigEndian(sequence, 8))
  }

  /** Two bytes of plaintext length, one of frame type, eight of sequence number. */
  function Header(length: nat, frameType: nat, sequence: nat): (h: bytes)
    requires length <= 0xFFFF && frameType <= 0xFF && sequence <= MAX_SEQUENCE
    ensures |h| == 11
  {
    Widths();
    ToBigEndian(length, 2) + ToBigEndian(frameType, 1) + ToBigEndian(sequence, 8)
  }

  function EncryptFrame(
    c: Primitives, key: bytes, prefix: bytes, sequence: int, frameType: int, plaintext: bytes
  ): Result<bytes> {
    if |key| != 32 then Err(ValueError("key must be exactly 32 bytes"))
    else if frameType < 0 || frameType > 0xFF then Err(ValueError("frame_type must fit in uint8"))
    else if |plaintext| > 0xFFFF then Err(ValueError("plaintext too large for uint16 length field"))
    else if sequence < 0 || sequence > MAX_SEQUENCE then Err(OverflowError)
    else
      var header := Header(|plaintext|, frameType, sequence);
      match BuildNonce(prefix, sequence)
      case Err(e) => Err(e)
      case Ok(nonce) => Ok(header + c.seal(key, nonce, plaintext, header))
  }

  datatype OpenedFrame = OpenedFrame(frameType: nat, sequence: nat, plaintext: bytes)

  function DecryptFrame(c: Primitives, key: bytes, prefix: bytes, raw: bytes): Result<OpenedFrame> {
    if |key| != 32 then Err(ValueError("key must be exactly 32 bytes"))
    else if |raw| < 27 then Err(ValueError("frame too short"))
    else
      var header, ciphertext := raw[..11], raw[11..];
      var length, frameType, sequence :=
        FromBigEndian(header[..2]), header[2] as int, FromBigEndian(header[3..]);
      if |ciphertext| < TAG_LENGTH then Err(ValueError("frame missing authentication tag"))
      else
        match BuildNonce(prefix, sequence)
        case Err(e) => Err(e)
        case Ok(nonce) =>
          match c.open(key, nonce, ciphertext, header)
          case None => Err(ValueError("frame authentication failed"))
          case Some(plaintext) =>
            if |plaintext| != length then Err(ValueError("plaintext length mismatch"))
            else Ok(OpenedFrame(frameType, sequence, plaintext))
  }

  lemma OneByte(b: byte)
    ensures Pow256(1) == 0x100 && ToBigEndian(b, 1) == [b]
  {
    Widths();
    assert ToBigEndian(b, 1) == ToBigEndian(b / 256, 0) + [b % 256];
  }

  lemma HeaderFields(length: nat, frameType: nat, sequence: nat)
    requires length <= 0xFFFF && frameType <= 0xFF && sequence <= MAX_SEQUENCE
    ensures var h := Header(length, frameType, sequence);
            FromBigEndian(h[..2]) == length && h[2] == frameType && FromBigEndian(h[3..]) == sequence
  {
    Widths();
    var h := Header(length, frameType, sequence);
    assert h[..2] == ToBigEndian(length, 2) && h[3..] == ToBigEndian(sequence, 8);
    OneByte(frameType);
    DecodeEncodedInt(length, 2);
    DecodeEncodedInt(sequence, 8);
  }

  lemma HeaderOfFields(h: bytes)
    requires |h| == 11
    ensures FromBigEndian(h[..2]) <= 0xFFFF && FromBigEndian(h[3..]) <= MAX_SEQUENCE
    ensures Header(FromBigEndian(h[..2]), h[2], FromBigEndian(h[3..])) == h
  {
    hide FromBigEndian, ToBigEndian, Pow256;
    Widths();
    EncodeDecodedInt(h[..2]);
    EncodeDecodedInt(h[3..]);
    OneByte(h[2]);
    assert h == h[..2] + [h[2]] + h[3..];
  }

  /** Exactly when a frame opens, byte by byte: two bytes of length, one of type and eight of sequence
      number in front, which are the associated data, and a nonce of the prefix and those eight bytes. */
  lemma OpensIff(c: Primitives, key: bytes, prefix: bytes, raw: bytes, f: OpenedFrame)
    ensures DecryptFrame(c, key, prefix, raw) == Ok(f) <==>
            && |key| == 32 && |prefix| == 4 && |raw| >= 27
            && c.open(key, prefix + raw[3..11], raw[11..], raw[..11]) == Some(f.plaintext)
            && FromBigEndian(raw[..2]) == |f.plaintext|
            && raw[2] == f.frameType
            && FromBigEndian(raw[3..11]) == f.sequence
  {
    hide ToBigEndian, FromBigEndian;
    Widths();
    if |raw| >= 27 {
      assert raw[..11][..2] == raw[..2] && raw[..11][3..] == raw[3..11];
      EncodeDecodedInt(raw[3..11]);
    }
  }

  /** Whatever `encrypt_frame` produces, `decrypt_frame` opens to the same three values. */
  lemma DecryptEncrypted(
    c: Primitives, key: bytes, prefix: bytes, sequence: int, frameType: int, plaintext: bytes
  )
    requires AeadLaws(c)
    requires EncryptFrame(c, key, prefix, sequence, frameType, plaintext).Ok?
    ensures DecryptFrame(c, key, prefix, EncryptFrame(c, key, prefix, sequence, frameType, plaintext).value)
         == Ok(OpenedFrame(frameType, sequence, plaintext))
  {
    hide ToBigEndian, FromBigEndian, Header;
    var header := Header(|plaintext|, frameType, sequence);
    var raw := EncryptFrame(c, key, prefix, sequence, frameType, plaintext).value;
    HeaderFields(|plaintext|, frameType, sequence);
    assert raw[..11] == header;
    assert raw[11..] == c.seal(key, BuildNonce(prefix, sequence).value, plaintext, header);
  }

  /** Whatever `decrypt_frame` accepts, `encrypt_frame` reproduces byte for byte. */
  lemma EncryptDecrypted(c: Primitives, key: bytes, prefix: bytes, raw: bytes)
    requires AeadLaws(c) && DecryptFrame(c, key, prefix, raw).Ok?
    ensures var f := DecryptFrame(c, key, prefix, raw).value;
            EncryptFrame(c, key, prefix, f.sequence, f.frameType, f.plaintext) == Ok(raw)
  {
    hide ToBigEndian, FromBigEndian, Header;
    HeaderOfFields(raw[..11]);
    assert raw == raw[..11] + raw[11..];
  }

  /** The codec is a bijection between the frames that can be sealed and the bytes that open. */
  lemma FrameCodecBijection(c: Primitives, key: bytes, prefix: bytes, raw: bytes, f: OpenedFrame)
    requires AeadLaws(c)
    ensures DecryptFrame(c, key, prefix, raw) == Ok(f)
       <==> EncryptFrame(c, key, prefix, f.sequence, f.frameType, f.plaintext) == Ok(raw)
  {
    hide DecryptFrame, EncryptFrame;
    if DecryptFrame(c, key, prefix, raw) == Ok(f) {
      EncryptDecrypted(c, key, prefix, raw);
    }
    if EncryptFrame(c, key, prefix, f.sequence, f.frameType, f.plaintext) == Ok(raw) {
      DecryptEncrypted(c, key, prefix, f.sequence, f.frameType, f.plaintext);
    }
  }

  /** Exactly the uint8 types, uint64 sequence numbers and plaintexts of up to 65535 bytes can be
      sealed under keys of the right size. */
  lemma SealableFrames(
    c: Primitives, key: bytes, prefix: bytes, sequence: int, frameType: int, plaintext: bytes
  )
    requires |key| == 32 && |prefix| == 4
    ensures EncryptFrame(c, key, prefix, sequence, frameType, plaintext).Ok?
       <==> 0 <= frameType < 0x100 && 0 <= sequence < 0x1_0000_0000_0000_0000 && |plaintext| < 0x1_0000
  {
  }

  /** Under one prefix, two nonces are equal exactly when their sequence numbers are. */
  lemma NonceDeterminesSequence(prefix: bytes, i: int, j: int)
    requires BuildNonce(prefix, i).Ok? && BuildNonce(prefix, j).Ok?
    ensures BuildNonce(prefix, i) == BuildNonce(prefix, j) <==> i == j
  {
    Widths();
    var m, n := BuildNonce(prefix, i).value, BuildNonce(prefix, j).value;
    assert m[4..] == ToBigEndian(i, 8) && n[4..] == ToBigEndian(j, 8);
    DecodeEncodedInt(i, 8);
    DecodeEncodedInt(j, 8);
  }

  // ---------------------------------------------------------------- sequence numbers

  /** Strict monotonic sequence enforcement. */
  class SequenceTracker {
    var nextExpected: nat

    constructor ()
      ensures nextExpected == 0
    {
      nextExpected := 0;
    }

    method ValidateAndAdvance(sequence: int) returns (r: Result<()>)
      modifies this
      ensures r == if sequence == old(nextExpected) then Ok(()) else Err(ValueError("unexpected sequence number"))
      ensures nextExpected == if r.Ok? then old(nextExpected) + 1 else old(nextExpected)
    {
      if sequence != nextExpected {
        return Err(ValueError("unexpected sequence number"));
      }
      nextExpected := nextExpected + 1;
      return Ok(());
    }

    function NextSequence(): nat
      reads this
    {
      nextExpected
    }
  }
}
