/** The cryptographic library calls as abstract functions, with the laws the protocol needs of
    them.  Nothing here looks inside a primitive: X25519 (section 6.1 of RFC 7748), Ed25519
    (section 5.1 of RFC 8032), HKDF (section 2 of RFC 5869) and ChaCha20-Poly1305 (section 2.8 of
    RFC 8439) are values of function type.  That a signature or a sealed frame nobody produced is
    not accepted is a property of a run, stated in HandshakeRun and SessionRun. */
module Crypto {
  import opened Bytes
  import opened Results

  const TAG_LENGTH := 16

  datatype Primitives = Primitives(
    // key, nonce, plaintext, associated data
    seal: (bytes, bytes, bytes, bytes) -> bytes,
    // key, nonce, ciphertext, associated data
    open: (bytes, bytes, bytes, bytes) -> Option<bytes>,
    x25519Public: bytes -> bytes,
    // private key, peer public key; None where the library raises on an all-zero secret
    exchange: (bytes, bytes) -> Option<bytes>,
    // key, message
    hmacSha256: (bytes, bytes) -> bytes,
    // pseudo-random key, info, length
    hkdfExpand: (bytes, bytes, nat) -> bytes,
    ed25519Public: bytes -> bytes,
    // private key, message
    sign: (bytes, bytes) -> bytes,
    // public key, message, signature
    verify: (bytes, bytes, bytes) -> bool
  )

  /** `open` inverts `seal` and accepts nothing but its output. */
  ghost predicate AeadLaws(c: Primitives) {
    && (forall k, n, p, a :: |c.seal(k, n, p, a)| == |p| + TAG_LENGTH)
    && (forall k, n, p, a :: c.open(k, n, c.seal(k, n, p, a), a) == Some(p))
    && (forall k, n, t, a :: c.open(k, n, t, a).Some? ==> t == c.seal(k, n, c.open(k, n, t, a).value, a))
  }

  /** Diffie-Hellman commutes, and fails for one side exactly when it fails for the other. */
  ghost predicate DhLaws(c: Primitives) {
    && (forall s :: |c.x25519Public(s)| == 32)
    && (forall s, t :: c.exchange(s, c.x25519Public(t)) == c.exchange(t, c.x25519Public(s)))
  }

  ghost predicate SignatureLaws(c: Primitives) {
    forall s, m :: c.verify(c.ed25519Public(s), m, c.sign(s, m))
  }

  /** Expansion has the requested length and separates the two key labels. */
  ghost predicate HkdfLaws(c: Primitives, info1: bytes, info2: bytes) {
    && (forall k, i, n :: |c.hkdfExpand(k, i, n)| == n)
    && (forall k :: c.hkdfExpand(k, info1, 32) != c.hkdfExpand(k, info2, 32))
  }

  function Zeros(n: nat): (b: bytes)
    ensures |b| == n
  {
    seq(n, _ => 0)
  }

  /** The laws are consistent: some primitives satisfy all of them, and more than one set does, as the
      HMAC of one key and message can be told from all others in whatever is derived from it. */
  lemma LawsAreConsistent(info1: bytes, info2: bytes, key: bytes, message: bytes) returns (c: Primitives)
    requires info1 != info2
    ensures AeadLaws(c) && DhLaws(c) && SignatureLaws(c) && HkdfLaws(c, info1, info2)
    ensures forall k, m, i, n: nat :: (k, m) != (key, message) && n > 0 ==>
              c.hkdfExpand(c.hmacSha256(k, m), i, n) != c.hkdfExpand(c.hmacSha256(key, message), i, n)
    ensures forall s, p :: c.exchange(s, p) == Some(message)
  {
    var seal := (k: bytes, n: bytes, p: bytes, a: bytes) => p + Zeros(16);
    var open := (k: bytes, n: bytes, t: bytes, a: bytes) =>
      if |t| >= 16 && t[|t| - 16..] == Zeros(16) then Some(t[..|t| - 16]) else None;
    var hmac := (k: bytes, m: bytes) => if (k, m) == (key, message) then [1] else [];
    var expand := (k: bytes, i: bytes, n: nat) => Marked(k == [1], i == info1, n);
    c := Primitives(seal, open, _ => Zeros(32), (s, p) => Some(message), hmac, expand, s => s, (s, m) => [], (p, m, s) => true);
    forall k, n, p, a
      ensures |c.seal(k, n, p, a)| == |p| + 16 && c.open(k, n, c.seal(k, n, p, a), a) == Some(p)
    {
      var t := p + Zeros(16);
      assert t[..|p|] == p && t[|p|..] == Zeros(16);
    }
    forall k ensures expand(k, info1, 32) != expand(k, info2, 32) {
      assert expand(k, info1, 32)[0] > expand(k, info2, 32)[0];
    }
    forall k, m, i, n: nat | (k, m) != (key, message) && n > 0
      ensures expand(hmac(k, m), i, n) != expand(hmac(key, message), i, n)
    {
      assert expand(hmac(k, m), i, n)[0] < expand(hmac(key, message), i, n)[0];
    }
  }

  /** Bytes that tell in the first place which of two cases holds for each flag. */
  function Marked(a: bool, b: bool, n: nat): (r: bytes)
    ensures |r| == n
    ensures n > 0 ==> r[0] == (if a then 2 else 0) + if b then 1 else 0
  {
    if n == 0 then [] else [(if a then 2 else 0) + if b then 1 else 0] + Zeros(n - 1)
  }
}
