/**
 What is written for a value of each format, and what the readers make of any bytes at all: the values, the
 exceptions, and where the cursor is afterwards.
 */
module Readers {
  import opened Chunks
  import opened Endian
  import opened Tapes
  import opened Words
  import opened Records
  import V = Varint
  import Z = Zigzag

  // ---- Writing ----

  lemma FieldWidth(l: Length, n: nat)
    requires l != Vint && n < TWO64
    ensures LengthWidth(l) == (match l case F16 => 2 case F32 => 4 case F64 => 8 case Vint => 0)
    ensures CutLength(l, n) == (match l case F16 => n % 0x1_0000 case F32 => n % 0x1_0000_0000 case _ => n)
    ensures CutLength(l, n) < Range(LengthWidth(l))
  {
    RangesAre();
  }

  /** A string's length field: 2, 4 or 8 bytes in the array's order, or a varint. */
  lemma LengthMeans(l: Length, n: nat, order: Order, host: Host)
    requires n < TWO64
    ensures LengthBytes(l, n, order, host) ==
            match l
            case F16 => InMemory(n % 0x1_0000, 2, Actual(order, host))
            case F32 => InMemory(n % 0x1_0000_0000, 4, Actual(order, host))
            case F64 => InMemory(n, 8, Actual(order, host))
            case Vint => V.Encode(n)
  {
    if l != Vint {
      FieldWidth(l, n);
      StoredInOrder(CutLength(l, n), LengthWidth(l), order, host);
    }
  }

  /** What is written for a value, format by format. */
  lemma EncodingMeans(r: Record, order: Order, host: Host)
    requires Typed(r)
    ensures Encoding(r, order, host) ==
            match r.format
            case Fixed(w, _) => InMemory(if r.value.n < 0 then r.value.n + Range(w) else r.value.n, w, Actual(order, host))
            case VarUint(_) => V.Encode(r.value.n)
            case VarInt(_) => V.Encode(if r.value.n < 0 then -2 * r.value.n - 1 else 2 * r.value.n)
            case Text(l) => LengthBytes(l, |r.value.b|, order, host) + r.value.b
  {
    match r.format
    case Fixed(w, signed) =>
      SignedBack(r.value.n, w, signed);
      StoredInOrder(if r.value.n < 0 then r.value.n + Range(w) else r.value.n, w, order, host);
    case VarInt(m) => Z.EncodeMeans(r.value.n, m);
    case _ =>
  }

  // ---- Reading ----

  /** A fixed-width value is returned only if its bytes are there, and is what they stand for. */
  lemma ReadFixedMeans(t: Tape, w: nat, order: Order, host: Host)
    requires t.pos <= |t.data| <= t.cap
    ensures var (r, t') := ReadFixed(t, w, order, host);
            && (r.OutOfRange? <==> w > |t.data| - t.pos)
            && (r.Fault? <==> w == 0 && t.pos == t.cap)
            && (r.Got? ==> t' == t.(pos := t.pos + w) && r.value == FromMemory(t.data[t.pos..t.pos + w], Actual(order, host)))
            && (!r.Got? ==> t' == t)
  {
    ReadMeans(t, w);
    if w <= |t.data| - t.pos {
      LoadedInOrder(t.data[t.pos..t.pos + w], order, host);
    }
  }

  /** The number that groups of seven bits stand for, least significant first, whatever their top bits say. */
  function Groups(b: seq<Byte>): nat {
    if b == [] then 0 else b[0] % 128 + 128 * Groups(b[1..])
  }

  /** How many groups a word has room for. */
  function MaxGroups(modulus: nat): nat {
    if modulus == TWO32 then 5 else 10
  }

  lemma {:induction false} GroupsAppend(b: seq<Byte>, x: Byte)
    ensures Groups(b + [x]) == Groups(b) + Shift(x % 128, |b|) && Groups(b) < V.Pow(|b|)
  {
    if b == [] {
      assert [] + [x] == [x] && [x][1..] == [];
    } else {
      assert (b + [x])[1..] == b[1..] + [x];
      GroupsAppend(b[1..], x);
    }
  }

  lemma {:induction false} ShiftIs(x: nat, k: nat)
    ensures Shift(x, k) == x * V.Pow(k)
  {
    if k > 0 {
      ShiftIs(x, k - 1);
    }
  }

  lemma PowersUpTo9()
    ensures V.Pow(1) == 0x80 && V.Pow(2) == 0x4000 && V.Pow(3) == 0x20_0000 && V.Pow(4) == 0x1000_0000
    ensures V.Pow(5) == 0x8_0000_0000 && V.Pow(6) == 0x400_0000_0000 && V.Pow(7) == 0x2_0000_0000_0000
    ensures V.Pow(8) == 0x100_0000_0000_0000 && V.Pow(9) == 0x8000_0000_0000_0000
  {
    assert V.Pow(1) == 128 * V.Pow(0) && V.Pow(2) == 128 * V.Pow(1) && V.Pow(3) == 128 * V.Pow(2);
    assert V.Pow(4) == 128 * V.Pow(3) && V.Pow(5) == 128 * V.Pow(4) && V.Pow(6) == 128 * V.Pow(5);
    assert V.Pow(7) == 128 * V.Pow(6) && V.Pow(8) == 128 * V.Pow(7) && V.Pow(9) == 128 * V.Pow(8);
  }

  /** Adding the bits of group `k` that fit the word is adding the group modulo the word. */
  lemma TruncatedGroup(low: nat, x: nat, k: nat, modulus: nat)
    requires Z.Word(modulus) && k < MaxGroups(modulus) && low < V.Pow(k) && x < 128
    ensures low < modulus && low + Truncate(Shift(x, k), modulus) == (low + Shift(x, k)) % modulus
  {
    ShiftIs(x, k);
    if k == MaxGroups(modulus) - 1 {
      TopGroup(low, x, k, modulus);
    } else {
      SmallGroup(low, x, k, modulus);
      Small(Shift(x, k), modulus);
      Small(low + Shift(x, k), modulus);
    }
  }

  lemma TopGroup(low: nat, x: nat, k: nat, modulus: nat)
    requires Z.Word(modulus) && x < 128 && k == MaxGroups(modulus) - 1 && low < V.Pow(k)
    ensures low < modulus && low + x * V.Pow(k) % modulus == (low + x * V.Pow(k)) % modulus
  {
    PowersUpTo9();
    if modulus == TWO32 {
      TopGroup32(low, x);
    } else {
      TopGroup64(low, x);
    }
  }

  lemma TopGroup32(low: nat, x: nat)
    requires x < 128 && low < 0x1000_0000
    ensures low + x * 0x1000_0000 % 0x1_0000_0000 == (low + x * 0x1000_0000) % 0x1_0000_0000
  {
    var q, r := x / 16, x % 16;
    assert x * 0x1000_0000 == q * 0x1_0000_0000 + r * 0x1000_0000;
  }

  lemma TopGroup64(low: nat, x: nat)
    requires x < 128 && low < 0x8000_0000_0000_0000
    ensures low + x * 0x8000_0000_0000_0000 % 0x1_0000_0000_0000_0000 == (low + x * 0x8000_0000_0000_0000) % 0x1_0000_0000_0000_0000
  {
    var q, r := x / 2, x % 2;
    assert x * 0x8000_0000_0000_0000 == q * 0x1_0000_0000_0000_0000 + r * 0x8000_0000_0000_0000;
  }

  lemma SmallGroup(low: nat, x: nat, k: nat, modulus: nat)
    requires Z.Word(modulus) && k + 1 < MaxGroups(modulus) && x < 128 && low < V.Pow(k)
    ensures low + x * V.Pow(k) < modulus
  {
    PowersUpTo9();
  }

  /** The bytes a varint reader has consumed between two states of the tape. */
  function Consumed(t: Tape, t': Tape): seq<Byte>
    requires t.pos <= t'.pos <= |t.data|
  {
    t.data[t.pos..t'.pos]
  }

  /**
   What a varint reader may make of any bytes: it goes on while the top bit is set and the word has room for
   another group. It never faults, ends in the exception exactly if the data ends before that, and returns the
   number that the consumed groups stand for, modulo the word.
   */
  ghost predicate ReadsVarint(t: Tape, r: Result<nat>, t': Tape, modulus: nat)
    requires modulus > 0
  {
    && t.pos <= t'.pos <= |t.data| && t' == t.(pos := t'.pos) && !r.Fault?
    && var b, n := Consumed(t, t'), t'.pos - t.pos;
       && n <= MaxGroups(modulus) && (forall i | 0 <= i < n - 1 :: b[i] >= 128)
       && if r.Got? then n > 0 && (b[n - 1] < 128 || n == MaxGroups(modulus)) && r.value == Groups(b) % modulus
          else n < MaxGroups(modulus) && t'.pos == |t.data| && (n > 0 ==> b[n - 1] >= 128)
  }

  /** The loop after `k` groups. */
  ghost predicate Reading(t: Tape, start: Tape, k: nat, modulus: nat, result: nat)
    requires modulus > 0
  {
    && start.pos + k == t.pos <= |t.data| <= t.cap && t == start.(pos := t.pos) && k <= MaxGroups(modulus)
    && result == Groups(Consumed(start, t)) % modulus && (forall i | 0 <= i < k :: Consumed(start, t)[i] >= 128)
  }

  ghost predicate EndsWell(t: Tape, start: Tape, k: nat, modulus: nat, result: nat)
    requires modulus > 0 && t.pos <= |t.data|
  {
    var (r, t') := ReadVarint(t, k, modulus, result);
    ReadsVarint(start, r, t', modulus)
  }

  lemma {:induction false} VarintOfAnyBytes(t: Tape, start: Tape, k: nat, modulus: nat, result: nat)
    requires Z.Word(modulus) && Reading(t, start, k, modulus, result)
    ensures EndsWell(t, start, k, modulus, result)
    decreases MaxGroups(modulus) - k
  {
    if k < MaxGroups(modulus) && t.pos < |t.data| && t.data[t.pos] >= 128 {
      var result' := result + Truncate(Shift(t.data[t.pos] % 128, k), modulus);
      OneMoreGroup(t, start, k, modulus, result);
      MoreBytes(t, start, k, modulus, result, result');
      VarintOfAnyBytes(Step(t), start, k + 1, modulus, result');
      GoesOn(t, start, k, modulus, result);
    } else {
      Stops(t, start, k, modulus, result);
    }
  }

  lemma GoesOn(t: Tape, start: Tape, k: nat, modulus: nat, result: nat)
    requires Z.Word(modulus) && k < MaxGroups(modulus) && t.pos < |t.data| <= t.cap && t.data[t.pos] >= 128
    requires EndsWell(Step(t), start, k + 1, modulus, result + Truncate(Shift(t.data[t.pos] % 128, k), modulus))
    ensures EndsWell(t, start, k, modulus, result)
  {
    AnyTurn(t, k, modulus, result);
  }

  lemma Stops(t: Tape, start: Tape, k: nat, modulus: nat, result: nat)
    requires Z.Word(modulus) && Reading(t, start, k, modulus, result)
    requires k == MaxGroups(modulus) || t.pos == |t.data| || t.data[t.pos] < 128
    ensures EndsWell(t, start, k, modulus, result)
  {
    if k < MaxGroups(modulus) {
      AnyTurn(t, k, modulus, result);
      if t.pos < |t.data| {
        OneMoreGroup(t, start, k, modulus, result);
        LastByte(t, start, k, modulus, result, result + Truncate(Shift(t.data[t.pos] % 128, k), modulus));
      } else {
        OutOfBytes(t, start, k, modulus, result);
      }
    }
  }

  lemma MoreBytes(t: Tape, start: Tape, k: nat, modulus: nat, result: nat, result': nat)
    requires Z.Word(modulus) && Reading(t, start, k, modulus, result) && k < MaxGroups(modulus) && t.pos < |t.data| && t.data[t.pos] >= 128
    requires Consumed(start, Step(t)) == Consumed(start, t) + [t.data[t.pos]]
    requires result' == Groups(Consumed(start, Step(t))) % modulus
    ensures Reading(Step(t), start, k + 1, modulus, result')
  {
  }

  lemma LastByte(t: Tape, start: Tape, k: nat, modulus: nat, result: nat, result': nat)
    requires Z.Word(modulus) && Reading(t, start, k, modulus, result) && k < MaxGroups(modulus) && t.pos < |t.data| && t.data[t.pos] < 128
    requires Consumed(start, Step(t)) == Consumed(start, t) + [t.data[t.pos]]
    requires result' == Groups(Consumed(start, Step(t))) % modulus
    ensures ReadsVarint(start, Result<nat>.Got(result'), Step(t), modulus)
  {
  }

  lemma OutOfBytes(t: Tape, start: Tape, k: nat, modulus: nat, result: nat)
    requires Z.Word(modulus) && Reading(t, start, k, modulus, result) && k < MaxGroups(modulus) && t.pos == |t.data|
    ensures ReadsVarint(start, Result<nat>.OutOfRange, t, modulus)
  {
  }

  /** One turn of the loop, whatever the byte. */
  lemma AnyTurn(t: Tape, k: nat, modulus: nat, result: nat)
    requires Z.Word(modulus) && k < MaxGroups(modulus) && t.pos <= |t.data| <= t.cap
    ensures ReadVarint(t, k, modulus, result) ==
            if t.pos == |t.data| then (Result<nat>.OutOfRange, t)
            else
              var x := t.data[t.pos];
              var result' := result + Truncate(Shift(x % 128, k), modulus);
              if x < 128 then (Result<nat>.Got(result'), Step(t)) else ReadVarint(Step(t), k + 1, modulus, result')
  {
    ReadMeans(t, 1);
  }

  lemma OneMoreGroup(t: Tape, start: Tape, k: nat, modulus: nat, result: nat)
    requires Z.Word(modulus) && Reading(t, start, k, modulus, result) && k < MaxGroups(modulus) && t.pos < |t.data|
    ensures var x := t.data[t.pos];
            && Consumed(start, Step(t)) == Consumed(start, t) + [x]
            && result + Truncate(Shift(x % 128, k), modulus) == Groups(Consumed(start, Step(t))) % modulus
  {
    var x, b := t.data[t.pos], Consumed(start, t);
    assert Consumed(start, Step(t)) == b + [x];
    GroupsAppend(b, x);
    TruncatedGroup(Groups(b), x % 128, k, modulus);
    Small(Groups(b), modulus);
  }

  lemma VarintReaderMeans(t: Tape, modulus: nat)
    requires Z.Word(modulus) && t.pos <= |t.data| <= t.cap
    ensures var (r, t') := ReadVarint(t, 0, modulus, 0); ReadsVarint(t, r, t', modulus)
  {
    assert Consumed(t, t) == [];
    Small(0, modulus);
    VarintOfAnyBytes(t, t, 0, modulus, 0);
  }

  /**
   What the string readers make of any bytes: the length as its field says, then that many bytes if there are so
   many, else the exception, with the cursor behind the length; of none at capacity the null pointer.
   */
  lemma ReadTextMeans(t: Tape, l: Length, order: Order, host: Host)
    requires t.pos <= |t.data| <= t.cap
    ensures var (n, t1) := ReadLength(t, l, order, host);
            var (r, t') := ReadText(t, l, order, host);
            && (l == Vint ==> ReadsVarint(t, n, t1, TWO64))
            && (l != Vint ==> (n.OutOfRange? <==> |t.data| - t.pos < LengthBits(l) / 8) && !n.Fault?)
            && (l != Vint && n.Got? ==> var w := LengthBits(l) / 8;
                  t1.pos == t.pos + w && n.value == FromMemory(t.data[t.pos..t.pos + w], Actual(order, host)))
            && t1 == t.(pos := t1.pos)
            && (r.OutOfRange? <==> n.OutOfRange? || (n.Got? && n.value > |t.data| - t1.pos))
            && (r.Fault? <==> n.Got? && n.value == 0 && t1.pos == t.cap)
            && (r.Got? ==> n.Got? && r.value == t.data[t1.pos..t1.pos + n.value] && t'.pos == t1.pos + n.value)
            && (!r.Got? ==> t' == t1)
  {
    if l == Vint {
      VarintReaderMeans(t, TWO64);
    } else {
      ReadFixedMeans(t, LengthWidth(l), order, host);
    }
    var (n, t1) := ReadLength(t, l, order, host);
    if n.Got? {
      ReadMeans(t1, n.value);
    }
  }

  /** The width of a length field, in bits; a variable one has none. */
  function LengthBits(l: Length): nat {
    match l
    case F16 => 16
    case F32 => 32
    case F64 => 64
    case Vint => 0
  }
}
