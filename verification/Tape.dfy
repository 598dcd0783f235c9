/**
 A byte array seen from outside: one flat sequence with a cursor, and a capacity that is a multiple of the
 block size. This is all the codecs depend on.
 */
module Tapes {
  import opened Chunks

  /** `OutOfRange` is the exception of that name; `Fault` is following a null pointer. */
  datatype Result<T> = Got(value: T) | OutOfRange | Fault

  datatype Tape = Tape(data: seq<Byte>, pos: nat, cap: nat, base: nat)

  ghost predicate Good(t: Tape) {
    t.base > 0 && t.pos <= |t.data| <= t.cap && exists k: nat :: k > 0 && t.cap == Off(k, t.base)
  }

  /** `d` with the bytes from `at` on replaced by `x`, longer if need be. */
  function Overlay(d: seq<Byte>, at: nat, x: seq<Byte>): seq<Byte>
    requires at <= |d|
  {
    d[..at] + x + (if at + |x| <= |d| then d[at + |x|..] else [])
  }

  /** Byte by byte: the new ones from `at` on, the old ones everywhere else, as long as the longer of the two. */
  lemma OverlayMeans(d: seq<Byte>, at: nat, x: seq<Byte>)
    requires at <= |d|
    ensures |Overlay(d, at, x)| == if at + |x| > |d| then at + |x| else |d|
    ensures forall i | 0 <= i < |Overlay(d, at, x)| :: Overlay(d, at, x)[i] == if at <= i < at + |x| then x[i - at] else d[i]
  {
  }

  lemma OverlayTwice(d: seq<Byte>, at: nat, x: seq<Byte>, y: seq<Byte>)
    requires at <= |d|
    ensures Overlay(Overlay(d, at, x), at + |x|, y) == Overlay(d, at, x + y)
  {
  }

  /** What writing `x` makes of a tape: the fewest blocks that fit are added. */
  predicate Wrote(t: Tape, x: seq<Byte>, t': Tape)
    requires t.pos <= |t.data|
  {
    && t'.data == Overlay(t.data, t.pos, x) && t'.pos == t.pos + |x| && t'.base == t.base
    && if |x| <= t.cap - t.pos then t'.cap == t.cap else t'.cap - t.base < t'.pos <= t'.cap
  }

  /** What is written replaces what was there and nothing else; the cursor moves behind it. */
  lemma WroteMeans(t: Tape, x: seq<Byte>, t': Tape)
    requires t.pos <= |t.data| && Wrote(t, x, t')
    ensures t'.pos == t.pos + |x| && |t'.data| == if t'.pos > |t.data| then t'.pos else |t.data|
    ensures forall i | 0 <= i < |t'.data| :: t'.data[i] == if t.pos <= i < t'.pos then x[i - t.pos] else t.data[i]
  {
    OverlayMeans(t.data, t.pos, x);
  }

  lemma WroteTwice(t: Tape, x: seq<Byte>, t1: Tape, y: seq<Byte>, t2: Tape)
    requires t.pos <= |t.data| && Wrote(t, x, t1) && Wrote(t1, y, t2)
    ensures Wrote(t, x + y, t2)
  {
    OverlayTwice(t.data, t.pos, x, y);
  }

  /** Reading `n` bytes at the cursor. */
  function Read(t: Tape, n: nat): (r: (Result<seq<Byte>>, Tape))
    requires t.pos <= |t.data|
    ensures r.1.pos <= |r.1.data| && r.1.data == t.data
  {
    if n > |t.data| - t.pos then (OutOfRange, t)
    else if t.pos == t.cap then (Fault, t)
    else (Got(t.data[t.pos..t.pos + n]), t.(pos := t.pos + n))
  }

  /**
   What a read of any length gives: the exception exactly for more bytes than are left, the null pointer exactly
   for none at capacity, and else the bytes at the cursor. Only then the cursor moves, by that many.
   */
  lemma ReadMeans(t: Tape, n: nat)
    requires t.pos <= |t.data| <= t.cap
    ensures var (r, t') := Read(t, n);
            && (r.OutOfRange? <==> n > |t.data| - t.pos)
            && (r.Fault? <==> n == 0 && t.pos == t.cap)
            && (r.Got? ==> |r.value| == n && t' == t.(pos := t.pos + n) && forall i | 0 <= i < n :: r.value[i] == t.data[t.pos + i])
            && (!r.Got? ==> t' == t)
  {
  }

  /** The bytes from the cursor on begin with `x`. */
  predicate Ahead(t: Tape, x: seq<Byte>) {
    t.pos + |x| <= |t.data| && t.data[t.pos..t.pos + |x|] == x
  }

  lemma AheadSplit(t: Tape, x: seq<Byte>, y: seq<Byte>)
    requires Ahead(t, x + y)
    ensures Ahead(t, x) && Ahead(t.(pos := t.pos + |x|), y)
  {
    assert (x + y)[..|x|] == x && (x + y)[|x|..] == y;
  }

  /** Bytes that are ahead can be read, except that reading none faults with the cursor exactly at capacity. */
  lemma ReadAhead(t: Tape, x: seq<Byte>)
    requires Ahead(t, x) && |t.data| <= t.cap
    ensures Read(t, |x|) == if x == [] && t.pos == t.cap then (Fault, t) else (Got(x), t.(pos := t.pos + |x|))
  {
  }

  /** Filled by writes at the end, from the beginning on: not a block too many. */
  predicate Tight(t: Tape) {
    t.pos == |t.data| && (t.cap == t.base || t.cap - t.base < |t.data|)
  }

  lemma TightStays(t: Tape, x: seq<Byte>, t': Tape)
    requires Tight(t) && |t.data| <= t.cap && Wrote(t, x, t')
    ensures Tight(t') && t'.data == t.data + x
  {
  }

  /** Then the data ends exactly at capacity if and only if it fills a whole number of blocks. */
  lemma TightIsFull(t: Tape)
    requires Good(t) && Tight(t) && t.data != []
    ensures |t.data| == t.cap <==> |t.data| % t.base == 0
  {
    var n := |t.data|;
    var k: nat :| k > 0 && t.cap == Off(k, t.base);
    OffDivMod(k, t.base, 0);
    Locate(n, t.base);
    var j := n / t.base;
    if n % t.base == 0 {
      if j < k {
        OffMonotone(j + 1, k, t.base);
        OffStep(j, t.base);
      } else {
        OffMonotone(k, j, t.base);
      }
    }
  }
}
