/**
 Fixed-width integers as bytes: the program swaps a value's bytes when the array's byte order is not the one it
 was built for, and then copies the machine's representation. If it was built for the right one, the bytes that
 end up in the array do not depend on the machine.
 */
module Endian {
  import opened Chunks

  datatype Order = LITTLE_ENDIAN | BIG_ENDIAN

  /** A machine: how it keeps values in memory, and the order HPGS_BYTE_ORDER stood for when the program was built. */
  datatype Host = Host(memory: Order, selected: Order)

  /** Both programs were built for their machine's order, or neither was. */
  predicate Agree(a: Host, b: Host) {
    a.memory == a.selected <==> b.memory == b.selected
  }

  function Opposite(order: Order): Order {
    if order == LITTLE_ENDIAN then BIG_ENDIAN else LITTLE_ENDIAN
  }

  /** The order in which values really get into an array that asks for `order`. */
  function Actual(order: Order, host: Host): Order {
    if host.memory == host.selected then order else Opposite(order)
  }

  /** 256 to the power `w`: one more than the largest unsigned value of `w` bytes. */
  function Range(w: nat): nat
    ensures Range(w) > 0
  {
    if w == 0 then 1 else 256 * Range(w - 1)
  }

  /** The bytes of a value, least significant first. */
  function Bytes(v: nat, w: nat): (b: seq<Byte>)
    ensures |b| == w
  {
    if w == 0 then [] else [v % 256] + Bytes(v / 256, w - 1)
  }

  function Value(b: seq<Byte>): (v: nat)
    ensures v < Range(|b|)
  {
    if b == [] then 0 else b[0] + 256 * Value(b[1..])
  }

  function Reverse(b: seq<Byte>): (r: seq<Byte>)
    ensures |r| == |b|
  {
    if b == [] then [] else Reverse(b[1..]) + [b[0]]
  }

  /** `byteswap`: the value whose bytes are those of `v` in the opposite order. */
  function Byteswap(v: nat, w: nat): nat {
    Value(Reverse(Bytes(v, w)))
  }

  /** How a value is kept in memory in this byte order, and what memory stands for in it. */
  function InMemory(v: nat, w: nat, order: Order): (b: seq<Byte>)
    ensures |b| == w
  {
    if order == LITTLE_ENDIAN then Bytes(v, w) else Reverse(Bytes(v, w))
  }

  function FromMemory(b: seq<Byte>, order: Order): nat {
    if order == LITTLE_ENDIAN then Value(b) else Value(Reverse(b))
  }

  /** What the fixed-width writers store, and what the readers return for stored bytes. */
  function Stored(v: nat, w: nat, order: Order, host: Host): (b: seq<Byte>)
    ensures |b| == w
  {
    InMemory(if order != host.selected then Byteswap(v, w) else v, w, host.memory)
  }

  function Loaded(b: seq<Byte>, order: Order, host: Host): nat {
    var v := FromMemory(b, host.memory);
    if order == host.selected then v else Byteswap(v, |b|)
  }

  lemma {:induction false} ValueOfBytes(v: nat, w: nat)
    requires v < Range(w)
    ensures Value(Bytes(v, w)) == v
  {
    if w > 0 {
      ValueOfBytes(v / 256, w - 1);
      assert Bytes(v, w)[1..] == Bytes(v / 256, w - 1);
    }
  }

  lemma {:induction false} BytesOfValue(b: seq<Byte>)
    ensures Bytes(Value(b), |b|) == b
  {
    if b != [] {
      BytesOfValue(b[1..]);
      assert Value(b) / 256 == Value(b[1..]) && Value(b) % 256 == b[0];
    }
  }

  lemma {:induction false} ReverseAppend(b: seq<Byte>, x: Byte)
    ensures Reverse(b + [x]) == [x] + Reverse(b)
  {
    if b == [] {
      assert [] + [x] == [x] && [x][1..] == [];
    } else {
      ReverseAppend(b[1..], x);
      assert (b + [x])[1..] == b[1..] + [x];
    }
  }

  lemma {:induction false} ReverseTwice(b: seq<Byte>)
    ensures Reverse(Reverse(b)) == b
  {
    if b != [] {
      ReverseTwice(b[1..]);
      ReverseAppend(Reverse(b[1..]), b[0]);
    }
  }

  /** Swapping a value and keeping it in one order is keeping it in the other. */
  lemma SwappedIsOpposite(v: nat, w: nat, order: Order)
    requires v < Range(w)
    ensures InMemory(Byteswap(v, w), w, order) == InMemory(v, w, Opposite(order))
  {
    BytesOfValue(Reverse(Bytes(v, w)));
    ReverseTwice(Bytes(v, w));
  }

  /** The stored bytes are in the array's order if the program was built for the machine's, and else in the other. */
  lemma StoredInOrder(v: nat, w: nat, order: Order, host: Host)
    requires v < Range(w)
    ensures Stored(v, w, order, host) == InMemory(v, w, Actual(order, host))
  {
    SwappedIsOpposite(v, w, host.memory);
  }

  /** What is loaded depends on the bytes and, in the same way, on the order. */
  lemma LoadedInOrder(b: seq<Byte>, order: Order, host: Host)
    ensures Loaded(b, order, host) == FromMemory(b, Actual(order, host))
  {
    BytesOfValue(b);
    BytesOfValue(Reverse(b));
    ReverseTwice(b);
  }

  lemma FromMemoryBack(v: nat, w: nat, order: Order)
    requires v < Range(w)
    ensures FromMemory(InMemory(v, w, order), order) == v
  {
    ReverseTwice(Bytes(v, w));
    ValueOfBytes(v, w);
  }

  /** A value comes back, even when written on one machine and read on another, if both programs agree. */
  lemma LoadStored(v: nat, w: nat, order: Order, writer: Host, reader: Host)
    requires v < Range(w) && Agree(writer, reader)
    ensures Loaded(Stored(v, w, order, writer), order, reader) == v
  {
    StoredInOrder(v, w, order, writer);
    LoadedInOrder(Stored(v, w, order, writer), order, reader);
    FromMemoryBack(v, w, Actual(order, writer));
  }

  // ---- Byte by byte ----

  lemma DivideTwice(v: nat, r: nat)
    requires r > 0
    ensures 256 * r > 0 && v / 256 / r == v / (256 * r)
  {
    var q, b, a := v / 256 / r, v / 256 % r, v % 256;
    assert v / 256 == q * r + b by { Division(v / 256, r); }
    assert v == q * (256 * r) + (256 * b + a);
    OffDivMod(q, 256 * r, 256 * b + a);
  }

  lemma {:induction false} ByteAt(v: nat, w: nat, i: nat)
    requires i < w
    ensures Bytes(v, w)[i] == v / Range(i) % 256
  {
    if i > 0 {
      ByteAt(v / 256, w - 1, i - 1);
      DivideTwice(v, Range(i - 1));
    }
  }

  lemma {:induction false} ReverseAt(b: seq<Byte>, i: nat)
    requires i < |b|
    ensures Reverse(b)[i] == b[|b| - 1 - i]
  {
    if i < |b| - 1 {
      ReverseAt(b[1..], i);
    }
  }

  /** The byte at place `i` is that of weight 256^i in little endian, of weight 256^(w - 1 - i) in big endian. */
  lemma InMemoryAt(v: nat, w: nat, order: Order, i: nat)
    requires i < w
    ensures InMemory(v, w, order)[i] == v / Range(if order == LITTLE_ENDIAN then i else w - 1 - i) % 256
  {
    ByteAt(v, w, if order == LITTLE_ENDIAN then i else w - 1 - i);
    ReverseAt(Bytes(v, w), i);
  }

  // ---- When it goes wrong ----

  lemma {:induction false} ZeroBytes(w: nat)
    requires w > 0
    ensures Bytes(0, w)[w - 1] == 0
  {
    if w > 1 {
      ZeroBytes(w - 1);
    }
  }

  /** The number 1 looks different in the two orders. */
  lemma OneHasTwoEnds(w: nat)
    requires w > 1
    ensures 1 < Range(w) && Reverse(Bytes(1, w)) != Bytes(1, w)
  {
    assert Range(w) == 256 * Range(w - 1);
    ZeroBytes(w - 1);
    ReverseAt(Bytes(1, w), 0);
  }

  /** The array's order is really the one asked for exactly if the program was built for the machine's. */
  lemma OrderAsAsked(w: nat, order: Order, host: Host)
    requires w > 1
    ensures (forall v: nat | v < Range(w) :: Stored(v, w, order, host) == InMemory(v, w, order)) <==> host.memory == host.selected
  {
    if host.memory == host.selected {
      forall v: nat | v < Range(w) ensures Stored(v, w, order, host) == InMemory(v, w, order) {
        StoredInOrder(v, w, order, host);
      }
    } else {
      OneHasTwoEnds(w);
      StoredInOrder(1, w, order, host);
    }
  }

  /** Values of more than a byte come back exactly if writer and reader agree: always on one and the same machine. */
  lemma LoadStoredIff(w: nat, order: Order, writer: Host, reader: Host)
    requires w > 1
    ensures (forall v: nat | v < Range(w) :: Loaded(Stored(v, w, order, writer), order, reader) == v) <==> Agree(writer, reader)
  {
    if Agree(writer, reader) {
      forall v: nat | v < Range(w) ensures Loaded(Stored(v, w, order, writer), order, reader) == v {
        LoadStored(v, w, order, writer, reader);
      }
    } else {
      OneHasTwoEnds(w);
      StoredInOrder(1, w, order, writer);
      LoadedInOrder(Stored(1, w, order, writer), order, reader);
      ReverseTwice(Bytes(1, w));
      BytesOfValue(Reverse(Bytes(1, w)));
    }
  }

  // ---- Signed values ----

  /** Two's complement: the unsigned value of the same bits, and back. */
  function ToUnsigned(n: int, w: nat): int {
    if n < 0 then n + Range(w) else n
  }

  function ToSigned(v: nat, w: nat): int {
    if 2 * v >= Range(w) then v - Range(w) else v
  }

  predicate FitsSigned(n: int, w: nat) {
    -(Range(w) as int) <= 2 * n < Range(w)
  }

  lemma SignedComesBack(n: int, w: nat)
    requires w > 0 && FitsSigned(n, w)
    ensures 0 <= ToUnsigned(n, w) < Range(w) && ToSigned(ToUnsigned(n, w), w) == n
  {
    assert Range(w) == 256 * Range(w - 1);
  }
}
