/**
 The writers and readers of the byte array: each is proved to do on the array what the functions of `Records` do
 on a tape. `host` is the machine's byte order and the one the program was built for.
 */
module Codecs {
  import opened Chunks
  import opened Endian
  import opened Tapes
  import opened ByteArrays
  import opened Words
  import R = Records
  import Readers
  import V = Varint
  import Z = Zigzag

  /** A fixed-width value, its bytes swapped if the array's order is not the one the program was built for. */
  method WriteFixed(ba: ByteArray, v: nat, w: nat, host: Host)
    requires ba.Valid()
    modifies ba, ba.blocks, set b | b in ba.blocks :: b.ptr
    ensures ba.Valid() && ba.Extended() && ba.endian == old(ba.endian)
    ensures Wrote(old(ba.View()), Stored(v, w, ba.endian, host), ba.View())
  {
    var value := if ba.endian != host.selected then Byteswap(v, w) else v;
    ba.Write(InMemory(value, w, host.memory));
  }

  method ReadFixed(ba: ByteArray, w: nat, host: Host) returns (r: Result<nat>)
    requires ba.Valid()
    modifies ba`position, ba`cur, ba`index
    ensures ba.Valid() && (r, ba.View()) == R.ReadFixed(old(ba.View()), w, ba.endian, host)
    ensures r.OutOfRange? <==> w > ba.size - old(ba.position)
    ensures r.Fault? <==> w == 0 && old(ba.position) == ba.capacity
    ensures ba.position == if r.Got? then old(ba.position) + w else old(ba.position)
    ensures r.Got? ==> r.value == FromMemory(ba.Data()[old(ba.position)..old(ba.position) + w], Actual(ba.endian, host))
  {
    Readers.ReadFixedMeans(ba.View(), w, ba.endian, host);
    var b := ba.Read(w);
    match b {
      case Got(b) =>
        var v := FromMemory(b, host.memory);
        r := Got(if ba.endian == host.selected then v else Byteswap(v, |b|));
      case OutOfRange => r := OutOfRange;
      case Fault => r := Fault;
    }
  }

  /** How many bytes the writer's local buffer has. */
  function BufferSize(modulus: nat): nat {
    if modulus == TWO32 then 5 else 10
  }

  method PutByte(tmp: array<Byte>, i: nat, x: Byte)
    requires i < tmp.Length
    modifies tmp
    ensures tmp[..i + 1] == old(tmp[..i]) + [x]
  {
    tmp[i] := x;
  }

  lemma EncodeStep(done: seq<Byte>, value: nat)
    requires value >= 0x80
    ensures done + V.Encode(value) == done + [value % 0x80 + 0x80] + V.Encode(value / 0x80)
    ensures |V.Encode(value)| == 1 + |V.Encode(value / 0x80)|
  {
  }

  /** Seven bits at a time into a local buffer, which is large enough. */
  method EncodeVarint(v: nat, modulus: nat) returns (code: seq<Byte>)
    requires Z.Word(modulus) && v < modulus
    ensures code == V.Encode(v)
  {
    V.BufferIsEnough(v);
    var tmp := new Byte[BufferSize(modulus)];
    var value, i: nat := v, 0;
    while value >= 0x80
      invariant i + |V.Encode(value)| <= tmp.Length && tmp[..i] + V.Encode(value) == V.Encode(v)
    {
      EncodeStep(tmp[..i], value);
      PutByte(tmp, i, value % 0x80 + 0x80);
      i := i + 1;
      value := value / 0x80;
    }
    PutByte(tmp, i, value);
    i := i + 1;
    code := tmp[..i];
  }

  method WriteVarint(ba: ByteArray, v: nat, modulus: nat)
    requires ba.Valid() && Z.Word(modulus) && v < modulus
    modifies ba, ba.blocks, set b | b in ba.blocks :: b.ptr
    ensures ba.Valid() && ba.Extended() && ba.endian == old(ba.endian)
    ensures Wrote(old(ba.View()), V.Encode(v), ba.View())
  {
    var code := EncodeVarint(v, modulus);
    ba.Write(code);
  }

  /** One turn of the loop of the varint readers; `done` says whether it was the last. */
  method ReadSeven(ba: ByteArray, k: nat, modulus: nat, result: nat) returns (r: Result<nat>, done: bool)
    requires ba.Valid() && 7 * k < (if modulus == TWO32 then 32 else 64)
    modifies ba`position, ba`cur, ba`index
    ensures ba.Valid() && (!r.Got? ==> done)
    ensures R.ReadVarint(old(ba.View()), k, modulus, result) ==
            if done then (r, ba.View()) else R.ReadVarint(ba.View(), k + 1, modulus, r.value)
  {
    var b := ba.Read(1);
    match b {
      case OutOfRange => return OutOfRange, true;
      case Fault => return Fault, true;
      case Got(b) =>
        var v := b[0];
        if v < 0x80 {
          assert v % 0x80 == v;
          return Got(result + R.Truncate(R.Shift(v, k), modulus)), true;
        } else {
          return Got(result + R.Truncate(R.Shift(v % 0x80, k), modulus)), false;
        }
    }
  }

  method ReadVarint(ba: ByteArray, modulus: nat) returns (r: Result<nat>)
    requires ba.Valid() && Z.Word(modulus)
    modifies ba`position, ba`cur, ba`index
    ensures ba.Valid() && (r, ba.View()) == R.ReadVarint(old(ba.View()), 0, modulus, 0)
  {
    var result: nat, k: nat := 0, 0;
    while 7 * k < (if modulus == TWO32 then 32 else 64)
      invariant ba.Valid() && R.ReadVarint(ba.View(), k, modulus, result) == R.ReadVarint(old(ba.View()), 0, modulus, 0)
    {
      var done;
      r, done := ReadSeven(ba, k, modulus, result);
      if done {
        return;
      }
      result := r.value;
      k := k + 1;
    }
    return Got(result);
  }

  method WriteLength(ba: ByteArray, l: R.Length, n: nat, host: Host)
    requires ba.Valid() && n < TWO64
    modifies ba, ba.blocks, set b | b in ba.blocks :: b.ptr
    ensures ba.Valid() && ba.Extended() && ba.endian == old(ba.endian)
    ensures Wrote(old(ba.View()), R.LengthBytes(l, n, ba.endian, host), ba.View())
  {
    if l == R.Vint {
      WriteVarint(ba, n, TWO64);
    } else {
      WriteFixed(ba, R.CutLength(l, n), R.LengthWidth(l), host);
    }
  }

  /** A string: its length in the given form, then its bytes. */
  method WriteText(ba: ByteArray, l: R.Length, b: seq<Byte>, host: Host)
    requires ba.Valid() && |b| < TWO64
    modifies ba, ba.blocks, set b | b in ba.blocks :: b.ptr
    ensures ba.Valid() && ba.Extended() && ba.endian == old(ba.endian)
    ensures Wrote(old(ba.View()), R.LengthBytes(l, |b|, ba.endian, host) + b, ba.View())
  {
    ghost var before := ba.View();
    WriteLength(ba, l, |b|, host);
    ghost var between := ba.View();
    ba.Write(b);
    WroteTwice(before, R.LengthBytes(l, |b|, ba.endian, host), between, b, ba.View());
  }

  method ReadText(ba: ByteArray, l: R.Length, host: Host) returns (r: Result<seq<Byte>>)
    requires ba.Valid()
    modifies ba`position, ba`cur, ba`index
    ensures ba.Valid() && (r, ba.View()) == R.ReadText(old(ba.View()), l, ba.endian, host)
  {
    var n: Result<nat>;
    if l == R.Vint {
      n := ReadVarint(ba, TWO64);
    } else {
      n := ReadFixed(ba, R.LengthWidth(l), host);
    }
    match n {
      case Got(n) => r := ba.Read(n);
      case OutOfRange => r := OutOfRange;
      case Fault => r := Fault;
    }
  }

  /** The writer of the record's format. */
  method WriteRecord(ba: ByteArray, r: R.Record, host: Host)
    requires ba.Valid() && R.Typed(r)
    modifies ba, ba.blocks, set b | b in ba.blocks :: b.ptr
    ensures ba.Valid() && ba.Extended() && ba.endian == old(ba.endian)
    ensures Wrote(old(ba.View()), R.Encoding(r, ba.endian, host), ba.View())
  {
    match r.format {
      case Fixed(w, signed) =>
        R.SignedBack(r.value.n, w, signed);
        WriteFixed(ba, if signed then ToUnsigned(r.value.n, w) else r.value.n, w, host);
      case VarUint(m) => WriteVarint(ba, r.value.n, m);
      case VarInt(m) => WriteVarint(ba, Z.Encode(r.value.n, m), m);
      case Text(l) => WriteText(ba, l, r.value.b, host);
    }
  }

  /** The reader of a format. */
  method ReadValue(ba: ByteArray, f: R.Format, host: Host) returns (r: Result<R.Value>)
    requires ba.Valid() && R.Known(f)
    modifies ba`position, ba`cur, ba`index
    ensures ba.Valid() && (r, ba.View()) == R.ReadValue(old(ba.View()), f, ba.endian, host)
  {
    match f {
      case Fixed(w, signed) =>
        var v := ReadFixed(ba, w, host);
        match v {
          case Got(v) => r := Got(R.Number(if signed then ToSigned(v, w) else v));
          case OutOfRange => r := OutOfRange;
          case Fault => r := Fault;
        }
      case VarUint(m) =>
        var v := ReadVarint(ba, m);
        match v {
          case Got(v) => r := Got(R.Number(v));
          case OutOfRange => r := OutOfRange;
          case Fault => r := Fault;
        }
      case VarInt(m) =>
        var v := ReadVarint(ba, m);
        match v {
          case Got(v) => r := Got(R.Number(Z.Decode(v % m, m)));
          case OutOfRange => r := OutOfRange;
          case Fault => r := Fault;
        }
      case Text(l) =>
        var b := ReadText(ba, l, host);
        match b {
          case Got(b) => r := Got(R.Characters(b));
          case OutOfRange => r := OutOfRange;
          case Fault => r := Fault;
        }
    }
  }

  /** One more record at the end. */
  method WriteNext(ba: ByteArray, ghost done: seq<R.Record>, r: R.Record, host: Host)
    requires ba.Valid() && R.AllTyped(done + [r]) && Tight(ba.View()) && R.AllTyped(done) && R.Typed(r)
    requires ba.View().data == R.EncodeAll(done, ba.endian, host)
    modifies ba, ba.blocks, set b | b in ba.blocks :: b.ptr
    ensures ba.Valid() && ba.Extended() && ba.endian == old(ba.endian)
    ensures Tight(ba.View()) && ba.View().data == R.EncodeAll(done + [r], ba.endian, host)
  {
    ghost var before := ba.View();
    WriteRecord(ba, r, host);
    TightStays(before, R.Encoding(r, ba.endian, host), ba.View());
    R.EncodeAllAppend(done, r, ba.endian, host);
  }

  /** The records one after the other. */
  method WriteAll(ba: ByteArray, rs: seq<R.Record>, host: Host)
    requires ba.Valid() && R.AllTyped(rs) && Tight(ba.View()) && ba.View().data == []
    modifies ba, ba.blocks, set b | b in ba.blocks :: b.ptr
    ensures ba.Valid() && ba.Extended() && ba.endian == old(ba.endian)
    ensures Tight(ba.View()) && ba.View().data == R.EncodeAll(rs, ba.endian, host)
  {
    for i := 0 to |rs|
      invariant ba.Valid() && ba.Extended() && ba.endian == old(ba.endian)
      invariant Tight(ba.View()) && ba.View().data == R.EncodeAll(rs[..i], ba.endian, host)
    {
      assert rs[..i] + [rs[i]] == rs[..i + 1];
      WriteNext(ba, rs[..i], rs[i], host);
    }
    assert rs[..|rs|] == rs;
  }

  /** The values one after the other, up to the first that cannot be read. */
  method ReadAll(ba: ByteArray, rs: seq<R.Record>, host: Host) returns (r: Result<seq<R.Value>>)
    requires ba.Valid() && forall i | 0 <= i < |rs| :: R.Known(rs[i].format)
    modifies ba`position, ba`cur, ba`index
    ensures ba.Valid() && (r, ba.View()) == R.ReadAll(old(ba.View()), rs, ba.endian, host)
    decreases |rs|
  {
    if rs == [] {
      return Got([]);
    }
    var v := ReadValue(ba, rs[0].format, host);
    if v.OutOfRange? { return OutOfRange; }
    if v.Fault? { return Fault; }
    var vs := ReadAll(ba, rs[1..], host);
    match vs {
      case Got(vs) => r := Got([v.value] + vs);
      case OutOfRange => r := OutOfRange;
      case Fault => r := Fault;
    }
  }

  /**
   Writing any records to a new array, going back to its beginning and reading with the matching readers gives
   the same values and leaves nothing to read, for every block size and byte order; except exactly when the
   last record is an empty string and the records fill a whole number of blocks.
   */
  method RoundTrip(base: nat, rs: seq<R.Record>, little: bool, host: Host) returns (r: Result<seq<R.Value>>, left: int)
    requires base > 0 && R.AllTyped(rs)
    ensures var order := if little then LITTLE_ENDIAN else BIG_ENDIAN;
            if R.LastIsEmptyText(rs) && |R.EncodeAll(rs, order, host)| % base == 0 then r == Fault
            else r == Got(R.Values(rs)) && left == 0
  {
    var ba := new ByteArray(base);
    ba.endian := if little then LITTLE_ENDIAN else BIG_ENDIAN;
    WriteAll(ba, rs, host);
    r, left := ReadBack(ba, rs, host);
  }

  /** Going back to the beginning of an array filled by these records, and reading them. */
  method ReadBack(ba: ByteArray, rs: seq<R.Record>, host: Host) returns (r: Result<seq<R.Value>>, left: int)
    requires ba.Valid() && R.AllTyped(rs) && Tight(ba.View()) && ba.View().data == R.EncodeAll(rs, ba.endian, host)
    modifies ba`position, ba`size, ba`cur, ba`index
    ensures if R.LastIsEmptyText(rs) && |R.EncodeAll(rs, ba.endian, host)| % ba.baseSize == 0 then r == Fault
            else r == Got(R.Values(rs)) && left == 0
  {
    ba.ViewIsGood();
    ghost var full := ba.View();
    var ok := ba.SetPosition(0);
    r := ReadAll(ba, rs, host);
    left := ba.size - ba.position;
    Back(full, rs, ba.endian, host, ba.baseSize);
  }

  lemma Back(t: Tape, rs: seq<R.Record>, order: Order, host: Host, base: nat)
    requires R.AllTyped(rs) && Good(t) && Tight(t) && t.base == base && t.data == R.EncodeAll(rs, order, host)
    ensures var (vs, t') := R.ReadAll(t.(pos := 0), rs, order, host);
            if R.LastIsEmptyText(rs) && |t.data| % base == 0 then vs == Fault
            else vs == Got(R.Values(rs)) && t'.pos == |t.data|
  {
    assert t.data[0..] == t.data;
    R.AllBack(t.(pos := 0), rs, order, host, host);
    if rs != [] {
      R.MoreFollows(rs, order, host);
      TightIsFull(t);
    }
  }

  // ---- The exceptions do occur ----

  /** `n` empty strings, each with a length of one byte. */
  function Empties(n: nat): seq<R.Record> {
    if n == 0 then [] else [R.Record(R.Text(R.Vint), R.Characters([]))] + Empties(n - 1)
  }

  lemma {:induction false} EmptiesAreBytes(n: nat, order: Order, host: Host)
    ensures R.AllTyped(Empties(n)) && |R.EncodeAll(Empties(n), order, host)| == n && (n > 0 ==> R.LastIsEmptyText(Empties(n)))
  {
    if n > 0 {
      EmptiesAreBytes(n - 1, order, host);
      var rs := Empties(n);
      assert rs[1..] == Empties(n - 1);
      assert forall i | 0 < i < |rs| :: rs[i] == rs[1..][i - 1];
      assert |R.Encoding(rs[0], order, host)| == 1;
    }
  }

  /** For every block size there are records that cannot be read back: as many empty strings as a block has bytes. */
  lemma EmptyStringsFault(base: nat, order: Order, host: Host)
    requires base > 0
    ensures R.AllTyped(Empties(base))
    ensures R.ReadAll(Tape(R.EncodeAll(Empties(base), order, host), 0, base, base), Empties(base), order, host).0 == Fault
  {
    EmptiesAreBytes(base, order, host);
    var t := Tape(R.EncodeAll(Empties(base), order, host), 0, base, base);
    assert t.data[0..] == t.data;
    R.AllBack(t, Empties(base), order, host, host);
  }

  /** The same on the array itself. */
  method EmptyStringsDoNotComeBack(base: nat, little: bool, host: Host) returns (r: Result<seq<R.Value>>)
    requires base > 0
    ensures r == Fault
  {
    EmptiesAreBytes(base, if little then LITTLE_ENDIAN else BIG_ENDIAN, host);
    var left: int;
    r, left := RoundTrip(base, Empties(base), little, host);
  }

  /** Two bytes in a block of four, the cursor at the second: they cannot be saved. */
  method HalfBlockIsNotSaved() returns (r: Result<seq<Byte>>)
    ensures r == Fault
  {
    var ba := new ByteArray(4);
    ba.Write([1, 2]);
    var ok := ba.SetPosition(1);
    r := ba.WriteToFile();
  }

  /** Two bytes in a block of four: asking for both from position 3 runs off the block. */
  method PastTheEndIsNotGiven() returns (r: Result<seq<Iovec>>)
    ensures r == Fault
  {
    var ba := new ByteArray(4);
    ba.Write([1, 2]);
    var ok := ba.SetPosition(0);
    r := ba.GetReadBuffersAt(2, 3);
  }
}
