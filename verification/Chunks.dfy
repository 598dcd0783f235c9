/**
 A list of equal blocks seen as one flat byte sequence.
 */
module Chunks {
  type Byte = x: int | 0 <= x < 256

  /** Where block `k` begins. */
  function Off(k: nat, base: nat): nat {
    k * base
  }

  lemma OffStep(k: nat, base: nat)
    ensures Off(0, base) == 0 && Off(k + 1, base) == Off(k, base) + base
  {
  }

  lemma MulAtLeast(a: nat, base: nat)
    requires a >= 1
    ensures a * base >= base
  {
    assert (a - 1) * base >= 0;
  }

  lemma DivisionIsUnique(q: nat, m: nat, k: nat, r: nat, base: nat)
    requires m < base && r < base && q * base + m == k * base + r
    ensures q == k && m == r
  {
    if q > k {
      assert (q - k) * base == q * base - k * base;
      MulAtLeast(q - k, base);
    } else if q < k {
      assert (k - q) * base == k * base - q * base;
      MulAtLeast(k - q, base);
    }
  }

  /** A position is its block's beginning plus the remainder, for one block only. */
  lemma OffDivMod(k: nat, base: nat, r: nat)
    requires r < base
    ensures (Off(k, base) + r) / base == k && (Off(k, base) + r) % base == r
  {
    var x := k * base + r;
    Division(x, base);
    DivisionIsUnique(x / base, x % base, k, r, base);
  }

  lemma Division(x: nat, base: nat)
    requires base > 0
    ensures x == x / base * base + x % base && x % base < base
  {
  }

  lemma Locate(x: nat, base: nat)
    requires base > 0
    ensures Off(x / base, base) + x % base == x && x % base < base
  {
    Division(x, base);
  }

  lemma OffMonotone(j: nat, k: nat, base: nat)
    requires j <= k
    ensures Off(j, base) <= Off(k, base)
    ensures j < k ==> Off(j, base) + base <= Off(k, base)
  {
    assert (k - j) * base == k * base - j * base;
    if j < k {
      MulAtLeast(k - j, base);
    }
  }

  lemma OffAdd(j: nat, k: nat, base: nat)
    ensures Off(j + k, base) == Off(j, base) + Off(k, base)
  {
  }

  /** Enough blocks for `n` bytes, and not one more: the ceiling of n / base. */
  function Ceil(n: nat, base: nat): nat
    requires base > 0
  {
    (n + base - 1) / base
  }

  lemma CeilIsLeast(n: nat, base: nat)
    requires base > 0 && n > 0
    ensures Ceil(n, base) > 0
    ensures Off(Ceil(n, base), base) - base < n <= Off(Ceil(n, base), base)
  {
    var c := Ceil(n, base);
    Division(n + base - 1, base);
  }

  ghost predicate Uniform(bs: seq<seq<Byte>>, base: nat) {
    forall i | 0 <= i < |bs| :: |bs[i]| == base
  }

  /** The blocks one after the other. */
  function Flat(bs: seq<seq<Byte>>): seq<Byte> {
    if bs == [] then [] else bs[0] + Flat(bs[1..])
  }

  lemma {:induction false} FlatConcat(a: seq<seq<Byte>>, b: seq<seq<Byte>>)
    ensures Flat(a + b) == Flat(a) + Flat(b)
  {
    if a == [] {
      assert a + b == b;
    } else {
      FlatConcat(a[1..], b);
      assert (a + b)[1..] == a[1..] + b;
      assert a[0] + (Flat(a[1..]) + Flat(b)) == a[0] + Flat(a[1..]) + Flat(b);
    }
  }

  /** `f` with the bytes from `at` on replaced by `x`. */
  function Overwrite(f: seq<Byte>, at: nat, x: seq<Byte>): (r: seq<Byte>)
    requires at + |x| <= |f|
    ensures |r| == |f|
  {
    f[..at] + x + f[at + |x|..]
  }

  lemma OverwriteTwice(f: seq<Byte>, at: nat, x: seq<Byte>, y: seq<Byte>)
    requires at + |x| + |y| <= |f|
    ensures Overwrite(Overwrite(f, at, x), at + |x|, y) == Overwrite(f, at, x + y)
  {
  }

  lemma OverwriteFront(b: seq<Byte>, c: seq<Byte>, at: nat, x: seq<Byte>)
    requires at + |x| <= |b|
    ensures Overwrite(b + c, at, x) == Overwrite(b, at, x) + c
  {
  }

  lemma OverwriteBack(a: seq<Byte>, c: seq<Byte>, at: nat, x: seq<Byte>)
    requires at + |x| <= |c|
    ensures Overwrite(a + c, |a| + at, x) == a + Overwrite(c, at, x)
  {
  }

  /** Overwriting inside one block overwrites the flat sequence at the block's place. */
  lemma {:induction false} FlatOverwrite(bs: seq<seq<Byte>>, k: nat, base: nat, at: nat, x: seq<Byte>)
    requires Uniform(bs, base) && k < |bs| && at + |x| <= base
    ensures Off(k, base) + at + |x| <= |Flat(bs)|
    ensures Flat(bs[k := Overwrite(bs[k], at, x)]) == Overwrite(Flat(bs), Off(k, base) + at, x)
  {
    var bs' := bs[k := Overwrite(bs[k], at, x)];
    if k == 0 {
      assert bs'[1..] == bs[1..];
      OverwriteFront(bs[0], Flat(bs[1..]), at, x);
    } else {
      assert bs'[1..] == bs[1..][k - 1 := Overwrite(bs[1..][k - 1], at, x)];
      FlatOverwrite(bs[1..], k - 1, base, at, x);
      OverwriteBack(bs[0], Flat(bs[1..]), Off(k - 1, base) + at, x);
    }
  }

  /** A stretch of one block is a stretch of the flat sequence. */
  lemma {:induction false} FlatSlice(bs: seq<seq<Byte>>, k: nat, base: nat, at: nat, n: nat)
    requires Uniform(bs, base) && k < |bs| && at + n <= base
    ensures Off(k, base) + at + n <= |Flat(bs)|
    ensures Flat(bs)[Off(k, base) + at..Off(k, base) + at + n] == bs[k][at..at + n]
  {
    if k > 0 {
      FlatSlice(bs[1..], k - 1, base, at, n);
      var o := Off(k - 1, base) + at;
      assert Flat(bs)[base + o..base + o + n] == Flat(bs[1..])[o..o + n];
    }
  }
}
