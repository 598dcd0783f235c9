/**
 The zigzag coding of signed integers, in the machine's wrapping arithmetic: small magnitudes of either sign get
 small codes. `modulus` is 2^32 or 2^64.
 */
module Zigzag {
  import opened Words
  import Varint

  /** An even modulus, for which the wrapping below makes sense. */
  predicate Word(modulus: nat) {
    modulus == TWO32 || modulus == TWO64
  }

  predicate Signed(v: int, modulus: nat) {
    -(modulus as int) <= 2 * v < modulus
  }

  /** The unsigned value of a result, wrapped around. */
  function Wrap(x: int, modulus: nat): (u: nat)
    requires modulus > 0
    ensures u < modulus
  {
    x % modulus
  }

  /** (unsigned)(-v) * 2 - 1 for negative `v`, v * 2 otherwise. */
  function Encode(v: int, modulus: nat): (u: nat)
    requires Word(modulus)
    ensures u < modulus
  {
    if v < 0 then Wrap(Wrap(-v, modulus) * 2 - 1, modulus) else Wrap(v * 2, modulus)
  }

  /** Exclusive or with no bits or with all bits. */
  function Xor(x: nat, mask: nat, modulus: nat): nat
    requires x < modulus && (mask == 0 || mask == modulus - 1)
  {
    if mask == 0 then x else modulus - 1 - x
  }

  /** (u >> 1) ^ -(u & 1), taken as a signed value. */
  function Decode(u: nat, modulus: nat): int
    requires Word(modulus) && u < modulus
  {
    var bits := Xor(u / 2, Wrap(-(u % 2), modulus), modulus);
    if 2 * bits >= modulus then bits - modulus else bits
  }

  /** What the code is, without the wrapping: the non-negative values get the even codes, the others the odd ones. */
  lemma EncodeMeans(v: int, modulus: nat)
    requires Word(modulus) && Signed(v, modulus)
    ensures Encode(v, modulus) == if v < 0 then -2 * v - 1 else 2 * v
  {
    WrapIsIdentity(if v < 0 then -v else v * 2, modulus);
    if v < 0 {
      WrapIsIdentity(-v * 2 - 1, modulus);
    }
  }

  lemma WrapIsIdentity(x: int, modulus: nat)
    requires 0 <= x < modulus
    ensures Wrap(x, modulus) == x
  {
  }

  lemma DecodeMeans(u: nat, modulus: nat)
    requires Word(modulus) && u < modulus
    ensures Decode(u, modulus) == if u % 2 == 0 then u / 2 else -(u / 2) - 1
    ensures Signed(Decode(u, modulus), modulus)
  {
  }

  /** The two are inverse to each other, extreme values included: a bijection. */
  lemma Bijection(v: int, u: nat, modulus: nat)
    requires Word(modulus) && Signed(v, modulus) && u < modulus
    ensures Decode(Encode(v, modulus), modulus) == v
    ensures Signed(Decode(u, modulus), modulus) && Encode(Decode(u, modulus), modulus) == u
  {
    EncodeMeans(v, modulus);
    DecodeMeans(Encode(v, modulus), modulus);
    DecodeMeans(u, modulus);
    EncodeMeans(Decode(u, modulus), modulus);
  }

  /** Followed by the varint: `k` bytes are enough exactly for the values from -2^(7k-1) up to 2^(7k-1). */
  lemma EncodedSize(v: int, modulus: nat, k: nat)
    requires Word(modulus) && Signed(v, modulus) && k > 0
    ensures |Varint.Encode(Encode(v, modulus))| <= k <==> -(Varint.Pow(k) as int) <= 2 * v < Varint.Pow(k)
  {
    EncodeMeans(v, modulus);
    var u := Encode(v, modulus);
    var n := |Varint.Encode(u)|;
    Varint.EncodedLength(u, n);
    if n <= k {
      Varint.PowMonotone(n, k);
    } else {
      Varint.PowMonotone(k, n - 1);
    }
    assert Varint.Pow(k) == 128 * Varint.Pow(k - 1);
  }
}
