/**
 Typed values on a tape: what the writers put there and what the readers make of it, for every format and for
 lists of records of different formats.
 */
module Records {
  import opened Chunks
  import opened Endian
  import opened Tapes
  import opened Words
  import V = Varint
  import Z = Zigzag

  /** How a string's length is written. */
  datatype Length = F16 | F32 | F64 | Vint

  datatype Format =
    | Fixed(w: nat, signed: bool)
    | VarUint(modulus: nat)
    | VarInt(modulus: nat)
    | Text(length: Length)

  datatype Value = Number(n: int) | Characters(b: seq<Byte>)

  datatype Record = Record(format: Format, value: Value)

  /** How many different lengths fit. */
  function LengthLimit(l: Length): nat {
    match l
    case F16 => TWO16
    case F32 => TWO32
    case F64 => TWO64
    case Vint => TWO64
  }

  /** A length cut to what its field holds. */
  function CutLength(l: Length, n: nat): (r: nat)
    ensures r < LengthLimit(l)
  {
    match l
    case F16 => n % TWO16
    case F32 => n % TWO32
    case F64 => n % TWO64
    case Vint => n % TWO64
  }

  lemma ShortLength(l: Length, n: nat)
    ensures n < LengthLimit(l) ==> CutLength(l, n) == n
    ensures n >= LengthLimit(l) ==> CutLength(l, n) < n
  {
  }

  function LengthWidth(l: Length): nat {
    match l
    case F16 => 2
    case F32 => 4
    case F64 => 8
    case Vint => 0
  }

  /** The formats there are: 1, 2, 4 or 8 bytes, and variable lengths of 32 or 64 bits. */
  predicate Known(f: Format) {
    match f
    case Fixed(w, _) => w == 1 || w == 2 || w == 4 || w == 8
    case VarUint(m) => Z.Word(m)
    case VarInt(m) => Z.Word(m)
    case Text(_) => true
  }

  /** A value of the format's type. */
  predicate Typed(r: Record) {
    Known(r.format) &&
    match r.format
    case Fixed(w, signed) =>
      r.value.Number? && if signed then FitsSigned(r.value.n, w) else 0 <= r.value.n < Range(w)
    case VarUint(m) => r.value.Number? && 0 <= r.value.n < m
    case VarInt(m) => r.value.Number? && Z.Signed(r.value.n, m)
    case Text(_) => r.value.Characters? && |r.value.b| < TWO64
  }

  // ---- Writing ----

  lemma RangesAre()
    ensures Range(1) == 0x100 && Range(2) == TWO16 && Range(4) == TWO32 && Range(8) == TWO64
  {
    assert Range(3) == 256 * Range(2) && Range(5) == 256 * Range(4) && Range(6) == 256 * Range(5) && Range(7) == 256 * Range(6);
  }

  /** A string's length as it is written: cut to the width of its field. */
  function LengthBytes(l: Length, n: nat, order: Order, host: Host): (b: seq<Byte>)
    ensures |b| > 0
  {
    if l == Vint then V.Encode(n) else Stored(CutLength(l, n), LengthWidth(l), order, host)
  }

  function Encoding(r: Record, order: Order, host: Host): (b: seq<Byte>)
    requires Typed(r)
    ensures |b| > 0
  {
    match r.format
    case Fixed(w, signed) => Stored(if signed then ToUnsigned(r.value.n, w) else r.value.n, w, order, host)
    case VarUint(_) => V.Encode(r.value.n)
    case VarInt(m) => V.Encode(Z.Encode(r.value.n, m))
    case Text(l) => LengthBytes(l, |r.value.b|, order, host) + r.value.b
  }

  // ---- Reading ----

  function Map<X, Y>(r: (Result<X>, Tape), f: X -> Y): (Result<Y>, Tape) {
    match r.0
    case Got(x) => (Got(f(x)), r.1)
    case OutOfRange => (OutOfRange, r.1)
    case Fault => (Fault, r.1)
  }

  function ReadFixed(t: Tape, w: nat, order: Order, host: Host): (r: (Result<nat>, Tape))
    requires t.pos <= |t.data|
    ensures r.1.pos <= |r.1.data| && r.1.data == t.data
  {
    var (r, t1) := Read(t, w);
    match r
    case Got(b) => (Got(Loaded(b, order, host)), t1)
    case OutOfRange => (OutOfRange, t1)
    case Fault => (Fault, t1)
  }

  /** `x` shifted left by seven bits, `k` times. */
  function Shift(x: nat, k: nat): (r: nat)
    ensures x > 0 ==> V.Pow(k) <= r
  {
    if k == 0 then x else 128 * Shift(x, k - 1)
  }

  lemma {:induction false} ShiftSum(a: nat, b: nat, k: nat)
    ensures Shift(a + 128 * b, k) == Shift(a, k) + Shift(b, k + 1)
  {
    if k > 0 {
      ShiftSum(a, b, k - 1);
    }
  }

  /** The bits of `x` that fit into a word. */
  function Truncate(x: nat, modulus: nat): nat {
    if modulus == TWO32 then x % TWO32 else x % TWO64
  }

  /**
   The loop of the varint readers, from byte `k` on: the bits of a byte are shifted to their place, cut to the
   word, and added to those below, with which they do not overlap.
   */
  function ReadVarint(t: Tape, k: nat, modulus: nat, result: nat): (r: (Result<nat>, Tape))
    requires t.pos <= |t.data|
    ensures r.1.pos <= |r.1.data| && r.1.data == t.data
    decreases |t.data| - t.pos
  {
    if 7 * k >= (if modulus == TWO32 then 32 else 64) then (Got(result), t)
    else
      var (r, t1) := Read(t, 1);
      match r
      case OutOfRange => (OutOfRange, t1)
      case Fault => (Fault, t1)
      case Got(b) =>
        var result' := result + Truncate(Shift(b[0] % 128, k), modulus);
        if b[0] < 128 then (Got(result'), t1) else ReadVarint(t1, k + 1, modulus, result')
  }

  function ReadLength(t: Tape, l: Length, order: Order, host: Host): (r: (Result<nat>, Tape))
    requires t.pos <= |t.data|
    ensures r.1.pos <= |r.1.data| && r.1.data == t.data
  {
    if l == Vint then ReadVarint(t, 0, TWO64, 0) else ReadFixed(t, LengthWidth(l), order, host)
  }

  function ReadText(t: Tape, l: Length, order: Order, host: Host): (r: (Result<seq<Byte>>, Tape))
    requires t.pos <= |t.data|
    ensures r.1.pos <= |r.1.data| && r.1.data == t.data
  {
    var (n, t1) := ReadLength(t, l, order, host);
    match n
    case Got(n) => Read(t1, n)
    case OutOfRange => (OutOfRange, t1)
    case Fault => (Fault, t1)
  }

  function ReadValue(t: Tape, f: Format, order: Order, host: Host): (r: (Result<Value>, Tape))
    requires t.pos <= |t.data| && Known(f)
    ensures r.1.pos <= |r.1.data| && r.1.data == t.data
  {
    match f
    case Fixed(w, signed) => Map(ReadFixed(t, w, order, host), v => Number(if signed then ToSigned(v, w) else v))
    case VarUint(m) => Map(ReadVarint(t, 0, m, 0), v => Number(v))
    case VarInt(m) => Map(ReadVarint(t, 0, m, 0), v => Number(Z.Decode(v % m, m)))
    case Text(l) => Map(ReadText(t, l, order, host), b => Characters(b))
  }

  // ---- One record comes back ----

  /** Moving the cursor past `x`. */
  function Past(t: Tape, x: seq<Byte>): Tape {
    t.(pos := t.pos + |x|)
  }

  lemma FixedBack(t: Tape, v: nat, w: nat, order: Order, writer: Host, reader: Host)
    requires Agree(writer, reader) && w > 0 && v < Range(w) && |t.data| <= t.cap && Ahead(t, Stored(v, w, order, writer))
    ensures ReadFixed(t, w, order, reader) == (Got(v), Past(t, Stored(v, w, order, writer)))
  {
    ReadAhead(t, Stored(v, w, order, writer));
    LoadStored(v, w, order, writer, reader);
  }

  lemma PowersAre(k: nat)
    requires k <= 9
    ensures V.Pow(5) > TWO32 && V.Pow(4) < TWO32 && V.Pow(9) < TWO64 && V.Pow(10) > TWO64
    ensures k > 4 ==> V.Pow(k) > TWO32
  {
    assert V.Pow(2) == 0x4000 && V.Pow(4) == V.Pow(2) * V.Pow(2) by { V.PowSum(2, 2); }
    assert V.Pow(5) == 128 * V.Pow(4) && V.Pow(9) == V.Pow(5) * V.Pow(4) by { V.PowSum(5, 4); }
    assert V.Pow(10) == 128 * V.Pow(9);
    if k > 4 {
      V.PowMonotone(5, k);
    }
  }

  /** One turn of the reader's loop, with a byte ahead whose seven bits are `low`. */
  lemma VarintTurn(t: Tape, k: nat, modulus: nat, result: nat, low: nat, more: bool)
    requires Z.Word(modulus) && |t.data| <= t.cap && low < 128 && k <= 9 && (k > 4 ==> modulus == TWO64)
    requires Ahead(t, [if more then low + 128 else low]) && Shift(low, k) < modulus
    ensures ReadVarint(t, k, modulus, result) ==
            if more then ReadVarint(Step(t), k + 1, modulus, result + Shift(low, k))
            else (Result<nat>.Got(result + Shift(low, k)), Step(t))
  {
    var x: Byte := if more then low + 128 else low;
    assert x % 128 == low;
    ReadAhead(t, [x]);
  }

  /** Past one byte. */
  function Step(t: Tape): Tape {
    t.(pos := t.pos + 1)
  }

  /** The reader's loop while an encoded value is ahead: what is read so far and what is left make up the value. */
  lemma {:induction false} VarintLoop(t: Tape, k: nat, modulus: nat, result: nat, rest: nat)
    requires Z.Word(modulus) && |t.data| <= t.cap && Ahead(t, V.Encode(rest))
    requires result + Shift(rest, k) < modulus && (rest > 0 || k == 0) && k <= 10
    ensures ReadVarint(t, k, modulus, result) == (Result<nat>.Got(result + Shift(rest, k)), Past(t, V.Encode(rest)))
    decreases rest
  {
    FewTurns(k, rest, modulus);
    if rest < 128 {
      VarintTurn(t, k, modulus, result, rest, false);
    } else {
      VarintMore(t, k, modulus, result, rest);
      VarintLoop(Step(t), k + 1, modulus, result + Shift(rest % 128, k), rest / 128);
    }
  }

  lemma VarintMore(t: Tape, k: nat, modulus: nat, result: nat, rest: nat)
    requires Z.Word(modulus) && |t.data| <= t.cap && Ahead(t, V.Encode(rest)) && rest >= 128
    requires result + Shift(rest, k) < modulus && k <= 9 && (k > 4 ==> modulus == TWO64)
    ensures Shift(rest, k) == Shift(rest % 128, k) + Shift(rest / 128, k + 1)
    ensures ReadVarint(t, k, modulus, result) == ReadVarint(Step(t), k + 1, modulus, result + Shift(rest % 128, k))
    ensures Ahead(Step(t), V.Encode(rest / 128)) && Past(Step(t), V.Encode(rest / 128)) == Past(t, V.Encode(rest))
  {
    ShiftSum(rest % 128, rest / 128, k);
    FirstByte(t, rest);
    VarintTurn(t, k, modulus, result, rest % 128, true);
  }

  lemma FirstByte(t: Tape, v: nat)
    requires v >= 128 && Ahead(t, V.Encode(v))
    ensures Ahead(t, [v % 128 + 128]) && Ahead(Step(t), V.Encode(v / 128))
    ensures Past(Step(t), V.Encode(v / 128)) == Past(t, V.Encode(v))
  {
    AheadSplit(t, [v % 128 + 128], V.Encode(v / 128));
  }

  /** A value that fits the word leaves no bits for a sixth, or eleventh, byte. */
  lemma FewTurns(k: nat, rest: nat, modulus: nat)
    requires Z.Word(modulus) && k <= 10 && Shift(rest, k) < modulus && (rest > 0 || k == 0)
    ensures k <= 9 && (k > 4 ==> modulus == TWO64)
  {
    PowersAre(if k == 10 then 9 else k);
  }

  lemma Small(x: nat, modulus: nat)
    requires x < modulus
    ensures x % modulus == x
  {
  }

  lemma VarintBack(t: Tape, v: nat, modulus: nat)
    requires Z.Word(modulus) && v < modulus && |t.data| <= t.cap && Ahead(t, V.Encode(v))
    ensures ReadVarint(t, 0, modulus, 0) == (Got(v), Past(t, V.Encode(v)))
  {
    VarintLoop(t, 0, modulus, 0, v);
  }

  lemma FieldBack(t: Tape, l: Length, n: nat, order: Order, writer: Host, reader: Host)
    requires Agree(writer, reader) && l != Vint && n < LengthLimit(l) && |t.data| <= t.cap && Ahead(t, Stored(n, LengthWidth(l), order, writer))
    ensures ReadFixed(t, LengthWidth(l), order, reader) == (Result<nat>.Got(n), Past(t, Stored(n, LengthWidth(l), order, writer)))
  {
    RangesAre();
    FixedBack(t, n, LengthWidth(l), order, writer, reader);
  }

  lemma LengthBack(t: Tape, l: Length, n: nat, order: Order, writer: Host, reader: Host)
    requires Agree(writer, reader) && n < TWO64 && |t.data| <= t.cap && Ahead(t, LengthBytes(l, n, order, writer))
    ensures ReadLength(t, l, order, reader) == (Result<nat>.Got(CutLength(l, n)), Past(t, LengthBytes(l, n, order, writer)))
  {
    if l == Vint {
      VarintBack(t, n, TWO64);
    } else {
      FieldBack(t, l, CutLength(l, n), order, writer, reader);
    }
  }

  /** An empty string whose record ends exactly at capacity: its reader reads nothing there. */
  predicate EndsAtCapacity(t: Tape, r: Record, order: Order, host: Host)
    requires Typed(r)
  {
    r.format.Text? && r.value.b == [] && t.pos + |Encoding(r, order, host)| == t.cap
  }

  /** A string too long for its length field. */
  predicate Overlong(r: Record) {
    r.format.Text? && r.value.Characters? && |r.value.b| >= LengthLimit(r.format.length)
  }

  lemma TextBack(t: Tape, l: Length, b: seq<Byte>, order: Order, writer: Host, reader: Host)
    requires Agree(writer, reader) && |b| < LengthLimit(l) && |t.data| <= t.cap && Ahead(t, LengthBytes(l, |b|, order, writer) + b)
    ensures var n := LengthBytes(l, |b|, order, writer);
            ReadText(t, l, order, reader) == if b == [] && t.pos + |n| == t.cap then (Fault, Past(t, n)) else (Got(b), Past(t, n + b))
  {
    var n := LengthBytes(l, |b|, order, writer);
    AheadSplit(t, n, b);
    ShortLength(l, |b|);
    LengthBack(t, l, |b|, order, writer, reader);
    ReadAhead(Past(t, n), b);
  }

  /**
   A record that is ahead is read back by the reader of its format, whatever follows it and whatever the byte
   orders of the two machines, if their programs agree; except that an empty string ending exactly at capacity
   makes its reader fault.
   */
  lemma RecordBack(t: Tape, r: Record, order: Order, writer: Host, reader: Host)
    requires Agree(writer, reader) && Typed(r) && !Overlong(r) && |t.data| <= t.cap && Ahead(t, Encoding(r, order, writer))
    ensures ReadValue(t, r.format, order, reader).0 == if EndsAtCapacity(t, r, order, writer) then Fault else Got(r.value)
    ensures ReadValue(t, r.format, order, reader).1 == Past(t, Encoding(r, order, writer))
  {
    match r.format
    case Fixed(w, signed) =>
      var v := if signed then ToUnsigned(r.value.n, w) else r.value.n;
      SignedBack(r.value.n, w, signed);
      FixedBack(t, v, w, order, writer, reader);
    case VarUint(m) => VarintBack(t, r.value.n, m);
    case VarInt(m) =>
      Z.Bijection(r.value.n, 0, m);
      Small(Z.Encode(r.value.n, m), m);
      VarintBack(t, Z.Encode(r.value.n, m), m);
    case Text(l) => TextBack(t, l, r.value.b, order, writer, reader);
  }

  lemma SignedBack(n: int, w: nat, signed: bool)
    requires w > 0 && if signed then FitsSigned(n, w) else 0 <= n < Range(w)
    ensures var v := if signed then ToUnsigned(n, w) else n;
            0 <= v < Range(w) && (if signed then ToSigned(v, w) else v) == n
  {
    if signed {
      SignedComesBack(n, w);
    }
  }

  /** An overlong string comes back cut: its length field holds only the length modulo its range. */
  lemma OverlongIsCut(t: Tape, r: Record, order: Order, writer: Host, reader: Host)
    requires Agree(writer, reader) && Typed(r) && Overlong(r) && |t.data| <= t.cap && Ahead(t, Encoding(r, order, writer))
    ensures ReadValue(t, r.format, order, reader).0 == Got(Characters(r.value.b[..CutLength(r.format.length, |r.value.b|)]))
    ensures ReadValue(t, r.format, order, reader).0 != Got(r.value)
  {
    var l, b := r.format.length, r.value.b;
    var n := LengthBytes(l, |b|, order, writer);
    var m := CutLength(l, |b|);
    ShortLength(l, |b|);
    AheadSplit(t, n, b);
    LengthBack(t, l, |b|, order, writer, reader);
    assert b == b[..m] + b[m..];
    AheadSplit(Past(t, n), b[..m], b[m..]);
    ReadAhead(Past(t, n), b[..m]);
  }

  // ---- Lists of records ----

  ghost predicate AllTyped(rs: seq<Record>) {
    forall i | 0 <= i < |rs| :: Typed(rs[i]) && !Overlong(rs[i])
  }

  function EncodeAll(rs: seq<Record>, order: Order, host: Host): seq<Byte>
    requires forall i | 0 <= i < |rs| :: Typed(rs[i])
  {
    if rs == [] then [] else Encoding(rs[0], order, host) + EncodeAll(rs[1..], order, host)
  }

  function Values(rs: seq<Record>): (vs: seq<Value>)
    ensures |vs| == |rs|
  {
    if rs == [] then [] else [rs[0].value] + Values(rs[1..])
  }

  function ReadAll(t: Tape, rs: seq<Record>, order: Order, host: Host): (r: (Result<seq<Value>>, Tape))
    requires t.pos <= |t.data| && forall i | 0 <= i < |rs| :: Known(rs[i].format)
    ensures r.1.pos <= |r.1.data| && r.1.data == t.data
    decreases |rs|
  {
    if rs == [] then (Got([]), t)
    else
      var (v, t1) := ReadValue(t, rs[0].format, order, host);
      match v
      case OutOfRange => (OutOfRange, t1)
      case Fault => (Fault, t1)
      case Got(v) =>
        var (vs, t2) := ReadAll(t1, rs[1..], order, host);
        match vs
        case Got(vs) => (Got([v] + vs), t2)
        case OutOfRange => (OutOfRange, t2)
        case Fault => (Fault, t2)
  }

  predicate LastIsEmptyText(rs: seq<Record>) {
    rs != [] && rs[|rs| - 1].format.Text? && rs[|rs| - 1].value == Characters([])
  }

  /**
   Records up to the end of the data are all read back, and nothing is left; unless the last one is an empty
   string and the data ends exactly at capacity: then its reader faults.
   */
  lemma {:induction false} AllBack(t: Tape, rs: seq<Record>, order: Order, writer: Host, reader: Host)
    requires Agree(writer, reader) && AllTyped(rs) && t.pos <= |t.data| <= t.cap && t.data[t.pos..] == EncodeAll(rs, order, writer)
    ensures var (vs, t') := ReadAll(t, rs, order, reader);
            if LastIsEmptyText(rs) && |t.data| == t.cap then vs == Fault
            else vs == Got(Values(rs)) && t'.pos == |t.data|
    decreases |rs|
  {
    if rs != [] {
      FirstBack(t, rs, order, writer, reader);
      FirstPlace(t, rs, order, writer);
      if !EndsAtCapacity(t, rs[0], order, writer) {
        AllBack(Past(t, Encoding(rs[0], order, writer)), rs[1..], order, writer, reader);
      }
    }
  }

  /** The first record of a list is read back. */
  lemma FirstBack(t: Tape, rs: seq<Record>, order: Order, writer: Host, reader: Host)
    requires Agree(writer, reader) && AllTyped(rs) && rs != [] && t.pos <= |t.data| <= t.cap && t.data[t.pos..] == EncodeAll(rs, order, writer)
    ensures var e := Encoding(rs[0], order, writer);
            && t.pos + |e| <= |t.data| && t.data[t.pos + |e|..] == EncodeAll(rs[1..], order, writer)
            && ReadValue(t, rs[0].format, order, reader).0 == (if EndsAtCapacity(t, rs[0], order, writer) then Fault else Got(rs[0].value))
            && ReadValue(t, rs[0].format, order, reader).1 == Past(t, e)
  {
    SplitData(t, Encoding(rs[0], order, writer), EncodeAll(rs[1..], order, writer));
    RecordBack(t, rs[0], order, writer, reader);
  }

  /** Only the last record of all can end at capacity. */
  lemma FirstPlace(t: Tape, rs: seq<Record>, order: Order, host: Host)
    requires AllTyped(rs) && rs != [] && t.pos <= |t.data| <= t.cap && t.data[t.pos..] == EncodeAll(rs, order, host)
    ensures if |rs| == 1 then EndsAtCapacity(t, rs[0], order, host) <==> LastIsEmptyText(rs) && |t.data| == t.cap
            else !EndsAtCapacity(t, rs[0], order, host) && (LastIsEmptyText(rs[1..]) <==> LastIsEmptyText(rs))
  {
    var e, more := Encoding(rs[0], order, host), EncodeAll(rs[1..], order, host);
    assert |t.data| - t.pos == |e| + |more|;
    if |rs| > 1 {
      MoreFollows(rs[1..], order, host);
    } else {
      assert rs[1..] == [];
    }
  }

  lemma MoreFollows(rs: seq<Record>, order: Order, host: Host)
    requires rs != [] && forall i | 0 <= i < |rs| :: Typed(rs[i])
    ensures |EncodeAll(rs, order, host)| > 0
  {
  }

  lemma SplitData(t: Tape, e: seq<Byte>, more: seq<Byte>)
    requires t.pos <= |t.data| && t.data[t.pos..] == e + more
    ensures Ahead(t, e) && t.data[t.pos + |e|..] == more
  {
    assert t.data[t.pos..][..|e|] == e && t.data[t.pos..][|e|..] == more;
  }

  lemma {:induction false} EncodeAllAppend(rs: seq<Record>, r: Record, order: Order, host: Host)
    requires (forall i | 0 <= i < |rs| :: Typed(rs[i])) && Typed(r)
    ensures EncodeAll(rs + [r], order, host) == EncodeAll(rs, order, host) + Encoding(r, order, host)
  {
    if rs == [] {
      assert [] + [r] == [r] && [r][1..] == [];
    } else {
      assert (rs + [r])[1..] == rs[1..] + [r];
      EncodeAllAppend(rs[1..], r, order, host);
    }
  }
}
