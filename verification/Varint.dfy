/**
 The variable-length integers: seven bits a byte, least significant first, the top bit saying that more follow
 (unsigned LEB128, section 7.6 of DWARF 5).
 */
module Varint {
  import opened Chunks

  /** 128 to the power `k`. */
  function Pow(k: nat): nat
    ensures Pow(k) > 0
  {
    if k == 0 then 1 else 128 * Pow(k - 1)
  }

  function Encode(v: nat): (b: seq<Byte>)
    ensures |b| > 0
  {
    if v < 128 then [v] else [v % 128 + 128] + Encode(v / 128)
  }

  /** A complete encoding: every byte but the last announces another one. */
  predicate Complete(b: seq<Byte>) {
    |b| > 0 && if |b| == 1 then b[0] < 128 else b[0] >= 128 && Complete(b[1..])
  }

  function Decode(b: seq<Byte>): nat
    requires Complete(b)
  {
    if |b| == 1 then b[0] else b[0] - 128 + 128 * Decode(b[1..])
  }

  lemma {:induction false} DecodeEncode(v: nat)
    ensures Complete(Encode(v)) && Decode(Encode(v)) == v
  {
    if v >= 128 {
      DecodeEncode(v / 128);
      assert Encode(v)[1..] == Encode(v / 128);
    }
  }

  /** The length: `k` bytes exactly for the values from 128^(k-1) up to 128^k, except that 0 takes one. */
  lemma {:induction false} EncodedLength(v: nat, k: nat)
    requires k > 0
    ensures |Encode(v)| == k <==> (if v == 0 then k == 1 else Pow(k - 1) <= v < Pow(k))
  {
    if v < 128 {
      if k > 1 {
        PowMonotone(1, k - 1);
        assert Pow(1) == 128 * Pow(0);
      }
    } else if k == 1 {
      assert Pow(1) == 128 * Pow(0);
    } else {
      EncodedLength(v / 128, k - 1);
      assert Pow(k) == 128 * Pow(k - 1) && Pow(k - 1) == 128 * Pow(k - 2);
    }
  }

  lemma {:induction false} PowMonotone(j: nat, k: nat)
    requires j <= k
    ensures Pow(j) <= Pow(k)
  {
    if j < k {
      PowMonotone(j, k - 1);
    }
  }

  lemma {:induction false} DecodeBelow(b: seq<Byte>)
    requires Complete(b)
    ensures Decode(b) < Pow(|b|)
  {
    if |b| == 1 {
      assert Pow(1) == 128 * Pow(0);
    } else {
      DecodeBelow(b[1..]);
    }
  }

  /** No encoding of a value is shorter. */
  lemma EncodeIsMinimal(b: seq<Byte>)
    requires Complete(b)
    ensures |Encode(Decode(b))| <= |b|
  {
    var v := Decode(b);
    DecodeBelow(b);
    var k := |Encode(v)|;
    EncodedLength(v, k);
    if k > |b| {
      PowMonotone(|b|, k - 1);
    }
  }

  /** No complete encoding is the beginning of another: a reader knows where one ends, whatever follows. */
  lemma {:induction false} PrefixFree(a: seq<Byte>, b: seq<Byte>)
    requires Complete(a) && Complete(b) && a <= b
    ensures a == b
  {
    if |a| > 1 {
      assert a[1..] <= b[1..];
      PrefixFree(a[1..], b[1..]);
    }
  }

  /** Values of 32 and 64 bits take at most 5 and 10 bytes: the writers' buffers are large enough. */
  lemma BufferIsEnough(v: nat)
    ensures v < 0x1_0000_0000 ==> |Encode(v)| <= 5
    ensures v < 0x1_0000_0000_0000_0000 ==> |Encode(v)| <= 10
  {
    var k := |Encode(v)|;
    EncodedLength(v, k);
    assert Pow(2) == 0x4000 && Pow(4) == Pow(2) * Pow(2) by { PowSum(2, 2); }
    assert Pow(5) == 128 * Pow(4) && Pow(10) == Pow(5) * Pow(5) by { PowSum(5, 5); }
    if k > 5 {
      PowMonotone(5, k - 1);
    }
    if k > 10 {
      PowMonotone(10, k - 1);
    }
  }

  lemma {:induction false} PowSum(j: nat, k: nat)
    ensures Pow(j + k) == Pow(j) * Pow(k)
  {
    if j > 0 {
      PowSum(j - 1, k);
    }
  }
}
