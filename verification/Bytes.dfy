/** Byte strings and the fixed-width big-endian integers of the frame header. */
module Bytes {
  type byte = x: int | 0 <= x < 0x100
  type bytes = seq<byte>

  function Pow256(n: nat): (p: nat)
    ensures p > 0
  {
    if n == 0 then 1 else 256 * Pow256(n - 1)
  }

  /** `v.to_bytes(width, "big")` for a value that fits. */
  function ToBigEndian(v: nat, width: nat): (b: bytes)
    requires v < Pow256(width)
    ensures |b| == width
    decreases width
  {
    if width == 0 then [] else ToBigEndian(v / 256, width - 1) + [v % 256]
  }

  /** `int.from_bytes(b, "big")`. */
  function FromBigEndian(b: bytes): (v: nat)
    ensures v < Pow256(|b|)
  {
    if b == [] then 0 else 256 * FromBigEndian(b[..|b| - 1]) + b[|b| - 1]
  }

  /** The most significant byte comes first. */
  lemma {:induction false} FirstByteWeighsMost(b: bytes)
    requires b != []
    ensures FromBigEndian(b) == b[0] * Pow256(|b| - 1) + FromBigEndian(b[1..])
  {
    if |b| > 1 {
      var front, p := b[..|b| - 1], Pow256(|b| - 2);
      FirstByteWeighsMost(front);
      assert front[1..] == b[1..][..|b| - 2];
      TimesBase(b[0], p);
    }
  }

  lemma TimesBase(x: nat, p: nat)
    ensures 256 * (x * p) == x * (256 * p)
  {
  }

  lemma {:induction false} DecodeEncodedInt(v: nat, width: nat)
    requires v < Pow256(width)
    ensures FromBigEndian(ToBigEndian(v, width)) == v
    decreases width
  {
    if width > 0 {
      DecodeEncodedInt(v / 256, width - 1);
      var b := ToBigEndian(v, width);
      assert b[..width - 1] == ToBigEndian(v / 256, width - 1);
    }
  }

  lemma {:induction false} EncodeDecodedInt(b: bytes)
    ensures ToBigEndian(FromBigEndian(b), |b|) == b
  {
    if b != [] {
      EncodeDecodedInt(b[..|b| - 1]);
      var v := FromBigEndian(b);
      assert v / 256 == FromBigEndian(b[..|b| - 1]) && v % 256 == b[|b| - 1];
      assert b == b[..|b| - 1] + [b[|b| - 1]];
    }
  }

  /** Two bytes hold a uint16 and eight hold a uint64. */
  lemma Widths()
    ensures Pow256(1) == 0x100 && Pow256(2) == 0x1_0000 && Pow256(8) == 0x1_0000_0000_0000_0000
  {
    assert Pow256(1) == 256 * Pow256(0);
    assert Pow256(2) == 256 * Pow256(1);
    assert Pow256(3) == 256 * Pow256(2);
    assert Pow256(4) == 256 * Pow256(3);
    assert Pow256(5) == 256 * Pow256(4);
    assert Pow256(6) == 256 * Pow256(5);
    assert Pow256(7) == 256 * Pow256(6);
    assert Pow256(8) == 256 * Pow256(7);
  }
}
