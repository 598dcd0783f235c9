/**
 The byte array as the program has it: a linked list of blocks, a cursor into it, and how far it is filled.
 Every operation is proved to do, on the one flat sequence `Data()`, what it would do on a plain buffer.
 */
module ByteArrays {
  import opened Chunks
  import opened Endian
  import opened Tapes

  class Node {
    const ptr: array<Byte>
    const size: nat
    var next: Node?

    constructor (s: nat)
      ensures fresh(ptr) && ptr.Length == size == s && next == null
    {
      ptr := new Byte[s];
      size := s;
      next := null;
    }

    /** memcpy into the block. */
    method Store(at: nat, x: seq<Byte>)
      requires at + |x| <= ptr.Length
      modifies ptr
      ensures ptr[..] == Overwrite(old(ptr[..]), at, x)
    {
      for i := 0 to |x|
        invariant ptr[..at] == old(ptr[..at]) && ptr[at..at + i] == x[..i] && ptr[at + i..] == old(ptr[at + i..])
      {
        ptr[at + i] := x[i];
      }
    }
  }

  /** A slice of a block handed to the caller. */
  datatype Iovec = Iovec(block: Node, at: nat, len: nat)

  ghost function Contents(bs: seq<Node>): (cs: seq<seq<Byte>>)
    reads set n | n in bs :: n.ptr
    ensures |cs| == |bs| && forall i | 0 <= i < |bs| :: cs[i] == bs[i].ptr[..]
  {
    seq(|bs|, i requires 0 <= i < |bs| reads set n | n in bs :: n.ptr => bs[i].ptr[..])
  }

  /** No two blocks share memory, and the bytes in them are `m`. */
  ghost predicate Hold(bs: seq<Node>, m: seq<Byte>)
    reads set n | n in bs :: n.ptr
  {
    (forall i, j | 0 <= i < j < |bs| :: bs[i].ptr != bs[j].ptr) && m == Flat(Contents(bs))
  }

  lemma HoldMore(bs: seq<Node>, m: seq<Byte>, node: Node)
    requires Hold(bs, m) && forall i | 0 <= i < |bs| :: bs[i].ptr != node.ptr
    ensures Hold(bs + [node], m + node.ptr[..])
  {
    var one := [node.ptr[..]];
    assert Contents(bs + [node]) == Contents(bs) + one;
    FlatConcat(Contents(bs), one);
    assert one[1..] == [];
  }

  lemma HoldOne(node: Node)
    ensures Hold([node], node.ptr[..])
  {
    assert Contents([node]) == [node.ptr[..]] && Contents([node])[1..] == [];
  }

  class ByteArray {
    const baseSize: nat
    var position: nat
    var capacity: nat
    var size: nat
    var endian: Order
    var root: Node
    var cur: Node?
    // The blocks of the list in order, the bytes in them, and the index of the block the cursor is in.
    ghost var blocks: seq<Node>
    ghost var memory: seq<Byte>
    ghost var index: nat

    /** The list: equal blocks, linked in order. */
    ghost predicate Chained()
      reads `blocks, `root, blocks
    {
      && baseSize > 0 && |blocks| > 0 && root == blocks[0]
      && (forall i | 0 <= i < |blocks| :: blocks[i].ptr.Length == blocks[i].size == baseSize)
      && (forall i {:trigger blocks[i].next} | 0 <= i < |blocks| ::
            blocks[i].next == if i + 1 < |blocks| then blocks[i + 1] else null)
    }

    ghost predicate Linked()
      reads `blocks, `memory, `root, `capacity, blocks
    {
      Chained() && |memory| == capacity == Off(|blocks|, baseSize)
    }

    ghost predicate Holds()
      reads `blocks, `memory, set n | n in blocks :: n.ptr
    {
      Hold(blocks, memory)
    }

    /** The cursor's block is the one the position is in; there is none exactly at capacity. */
    ghost predicate Cursor()
      reads `blocks, `index, `position, `cur
    {
      && index <= |blocks|
      && Off(index, baseSize) <= position < Off(index, baseSize) + baseSize
      && cur == if index < |blocks| then blocks[index] else null
    }

    ghost predicate Valid()
      reads this, blocks, set n | n in blocks :: n.ptr
    {
      Linked() && Holds() && Cursor() && position <= size <= capacity
    }

    /** The bytes written so far. */
    ghost function Data(): (d: seq<Byte>)
      requires size <= |memory|
      reads `memory, `size
      ensures |d| == size
    {
      memory[..size]
    }

    /** What the codecs see. */
    ghost function View(): Tape
      requires size <= |memory|
      reads `memory, `size, `position, `capacity
    {
      Tape(Data(), position, capacity, baseSize)
    }

    lemma ViewIsGood()
      requires Valid()
      ensures Good(View())
    {
      assert capacity == Off(|blocks|, baseSize) && |blocks| > 0;
    }

    constructor (base: nat)
      requires base > 0
      ensures Valid() && Data() == [] && position == 0 && capacity == base == baseSize && endian == BIG_ENDIAN
      ensures fresh(blocks) && fresh(set n | n in blocks :: n.ptr)
    {
      var node := new Node(base);
      baseSize, position, capacity, size := base, 0, base, 0;
      endian := BIG_ENDIAN;
      root, cur, blocks, index := node, node, [node], 0;
      memory := node.ptr[..];
      new;
      HoldOne(node);
    }

    /** Where the position is in its block. */
    lemma InBlock()
      requires Linked() && Cursor() && position <= capacity
      ensures position % baseSize == position - Off(index, baseSize)
      ensures position == capacity <==> index == |blocks|
      ensures index < |blocks| ==> Off(index, baseSize) + baseSize <= capacity
    {
      OffDivMod(index, baseSize, position - Off(index, baseSize));
      OffMonotone(index, |blocks|, baseSize);
    }

    /** When one block's bytes were overwritten, so was that stretch of the memory. */
    lemma BlockStored(before: seq<seq<Byte>>, k: nat, at: nat, x: seq<Byte>)
      requires Linked() && k < |blocks| == |before| && Uniform(before, baseSize) && memory == Flat(before)
      requires at + |x| <= baseSize && blocks[k].ptr[..] == Overwrite(before[k], at, x)
      requires forall i | 0 <= i < |blocks| && i != k :: blocks[i].ptr[..] == before[i]
      ensures Off(k, baseSize) + at + |x| <= capacity
      ensures Flat(Contents(blocks)) == Overwrite(memory, Off(k, baseSize) + at, x)
    {
      FlatOverwrite(before, k, baseSize, at, x);
      assert Contents(blocks) == before[k := Overwrite(before[k], at, x)];
    }

    /** Store into the cursor's block. */
    method Put(at: nat, x: seq<Byte>)
      requires Linked() && Holds() && index < |blocks| && cur == blocks[index] && at + |x| <= baseSize
      modifies `memory, blocks[index].ptr
      ensures Linked() && Holds()
      ensures Off(index, baseSize) + at + |x| <= capacity
      ensures memory == Overwrite(old(memory), Off(index, baseSize) + at, x)
    {
      ghost var before := Contents(blocks);
      cur.Store(at, x);
      BlockStored(before, index, at, x);
      memory := Overwrite(memory, Off(index, baseSize) + at, x);
    }

    /** Blocks that were not in the list before are new. */
    twostate predicate Extended()
      reads `blocks
    {
      forall b | b in blocks :: b in old(blocks) || (fresh(b) && fresh(b.ptr))
    }

    lemma Link(k: nat)
      requires Chained() && k < |blocks|
      ensures blocks[k].next == if k + 1 < |blocks| then blocks[k + 1] else null
    {
    }

    /** Walk the list to its last block. */
    method Last() returns (tmp: Node)
      requires Chained()
      ensures tmp == blocks[|blocks| - 1]
    {
      tmp := root;
      ghost var k := 0;
      Link(0);
      while tmp.next != null
        invariant k < |blocks| && tmp == blocks[k] && tmp.next == if k + 1 < |blocks| then blocks[k + 1] else null
        decreases |blocks| - k
      {
        Link(k + 1);
        tmp := tmp.next;
        k := k + 1;
      }
    }

    /** One more block after the last one. */
    method Append(last: Node) returns (node: Node)
      requires Chained() && Holds() && last == blocks[|blocks| - 1]
      modifies `blocks, `memory, last`next
      ensures Chained() && Holds() && blocks == old(blocks) + [node]
      ensures fresh(node) && fresh(node.ptr) && memory == old(memory) + node.ptr[..] && node.ptr.Length == baseSize
    {
      node := new Node(baseSize);
      HoldMore(blocks, memory, node);
      last.next := node;
      blocks := blocks + [node];
      memory := memory + node.ptr[..];
    }

    /** The same with the capacity kept up to date. */
    method AppendCounted(last: Node) returns (node: Node)
      requires Linked() && Holds() && last == blocks[|blocks| - 1]
      modifies `blocks, `memory, `capacity, last`next
      ensures Linked() && Holds() && blocks == old(blocks) + [node]
      ensures fresh(node) && fresh(node.ptr) && memory == old(memory) + node.ptr[..]
    {
      OffStep(|blocks|, baseSize);
      node := Append(last);
      capacity := capacity + baseSize;
    }

    /** `count` more blocks; the list is walked to its end first. The first new one is returned. */
    method Extend(count: nat) returns (first: Node?)
      requires Linked() && Holds()
      modifies `capacity, `blocks, `memory, blocks
      ensures Linked() && Holds() && |blocks| == |old(blocks)| + count && Extended() && old(memory) <= memory
      ensures old(blocks) <= blocks
      ensures first == if count > 0 then blocks[|old(blocks)|] else null
    {
      first := null;
      var tmp := Last();
      for i := 0 to count
        invariant Linked() && Holds() && |blocks| == |old(blocks)| + i && tmp == blocks[|blocks| - 1] && Extended()
        invariant old(blocks) <= blocks && old(memory) <= memory
        invariant first == if i > 0 then blocks[|old(blocks)|] else null
      {
        tmp := AppendCounted(tmp);
        if first == null {
          first := tmp;
        }
      }
    }

    /** The fewest blocks that hold `n` bytes. */
    method BlocksFor(n: nat) returns (count: nat)
      requires baseSize > 0 && n > 0
      ensures count > 0 && Off(count, baseSize) - baseSize < n <= Off(count, baseSize)
    {
      count := Ceil(n, baseSize);
      CeilIsLeast(n, baseSize);
    }

    /** `count` more blocks, with the cursor moved into the first of them if it was in none. */
    method Grow(count: nat)
      requires Valid() && count > 0
      modifies `capacity, `cur, `blocks, `memory, blocks
      ensures Valid() && Extended() && Data() == old(Data()) && capacity == old(capacity) + Off(count, baseSize)
    {
      var npos := Here();
      ghost var before := memory;
      var oldCap := capacity - position;
      var first := Extend(count);
      OffAdd(|old(blocks)|, count, baseSize);
      TakePrefix(before, memory, size);
      if oldCap == 0 {
        Reseat(first);
      }
    }

    /** Put the cursor into the block its position is in. */
    method Reseat(node: Node?)
      requires Linked() && Holds() && position <= size <= capacity
      requires index < |blocks| && node == blocks[index] && Off(index, baseSize) <= position < Off(index, baseSize) + baseSize
      modifies `cur
      ensures Valid()
    {
      cur := node;
    }

    /** More blocks at the end, if the rest of the list is too short; never one more than needed. */
    method AddCapacity(n: nat)
      requires Valid()
      modifies `capacity, `cur, `blocks, `memory, blocks
      ensures Valid() && Extended() && Data() == old(Data())
      ensures n <= capacity - position
      ensures if n <= old(capacity) - position then capacity == old(capacity) else capacity - baseSize < position + n
    {
      if n == 0 {
        return;
      }
      var oldCap := capacity - position;
      if oldCap >= n {
        return;
      }
      var count := BlocksFor(n - oldCap);
      Grow(count);
    }

    /** Bytes at a stretch of one block. */
    lemma BlockBytes(k: nat, at: nat, n: nat)
      requires Linked() && Holds() && k < |blocks| && at + n <= baseSize
      ensures Off(k, baseSize) + at + n <= capacity
      ensures memory[Off(k, baseSize) + at..Off(k, baseSize) + at + n] == blocks[k].ptr[at..at + n]
    {
      FlatSlice(Contents(blocks), k, baseSize, at, n);
    }

    /** `pos` is at offset `npos` of block `k`, which is `node`; `ncap` bytes of the block are left. */
    ghost predicate At(pos: nat, node: Node?, k: nat, npos: nat, ncap: nat)
      reads `blocks
    {
      k < |blocks| && node == blocks[k] && npos + ncap == baseSize && ncap > 0 && pos == Off(k, baseSize) + npos
    }

    /** From a block to the one after it, if there is one. */
    lemma Hop(pos: nat, node: Node, k: nat, npos: nat, ncap: nat)
      requires Linked() && At(pos, node, k, npos, ncap)
      ensures node.size == baseSize && pos + ncap == Off(k + 1, baseSize)
      ensures pos + ncap <= capacity && (node.next != null <==> pos + ncap < capacity)
      ensures node.next == if k + 1 < |blocks| then blocks[k + 1] else null
      ensures node.next != null ==> node.next.size == baseSize && At(pos + ncap, node.next, k + 1, 0, baseSize)
    {
      OffMonotone(k + 1, |blocks|, baseSize);
    }

    /** Where the loops that start at the cursor begin: the position's remainder by the block size. */
    method Here() returns (npos: nat)
      requires Linked() && Cursor() && position <= capacity
      ensures cur == null <==> position == capacity
      ensures npos < baseSize && (cur != null ==> cur.size == baseSize && At(position, cur, index, npos, baseSize - npos))
    {
      InBlock();
      npos := position % baseSize;
    }

    /** The next `n` bytes of the block are the memory there. */
    method GetPart(node: Node, ghost k: nat, ghost pos: nat, npos: nat, ncap: nat, n: nat) returns (part: seq<Byte>)
      requires Linked() && Holds() && At(pos, node, k, npos, ncap) && n <= ncap
      ensures pos + n <= capacity && part == memory[pos..pos + n]
    {
      BlockBytes(k, npos, n);
      part := node.ptr[npos..npos + n];
    }

    /** Step over `n` bytes of the cursor's block, the last of a read or write. */
    method Step(npos: nat, ncap: nat, n: nat)
      requires Linked() && At(position, cur, index, npos, ncap) && n <= ncap
      modifies `position, `cur, `index
      ensures Cursor() && position == old(position) + n
    {
      Hop(position, cur, index, npos, ncap);
      if cur.size == npos + n {
        cur := cur.next;
        index := index + 1;
      }
      position := position + n;
    }

    /** Step over the rest of the cursor's block, into the next one, which there is. */
    method Next(npos: nat, ncap: nat)
      requires Linked() && At(position, cur, index, npos, ncap) && position + ncap < capacity
      modifies `position, `cur, `index
      ensures At(position, cur, index, 0, baseSize) && cur.size == baseSize && position == old(position) + ncap
    {
      Hop(position, cur, index, npos, ncap);
      position := position + ncap;
      cur := cur.next;
      index := index + 1;
    }

    /** Half-way through `write`: `bpos` bytes are in place, `n` more go to the cursor's block and beyond. */
    ghost predicate Filling(before: seq<Byte>, start: nat, buf: seq<Byte>, bpos: nat, n: nat, npos: nat, ncap: nat)
      reads `memory, `blocks, `position, `cur, `index
    {
      && start + |buf| <= |before| && bpos + n == |buf| && position == start + bpos
      && memory == Overwrite(before, start, buf[..bpos])
      && if n > 0 then At(position, cur, index, npos, ncap) else Cursor()
    }

    /** One memcpy of the loop of `write`: the next `n` bytes of `buf`. */
    method PutPart(ghost before: seq<Byte>, ghost start: nat, buf: seq<Byte>, bpos: nat, npos: nat, ncap: nat, n: nat)
      requires Linked() && Holds() && At(position, cur, index, npos, ncap) && n <= ncap && bpos + n <= |buf|
      requires start + |buf| <= |before| && position == start + bpos && memory == Overwrite(before, start, buf[..bpos])
      modifies `memory, blocks[index].ptr
      ensures Linked() && Holds() && memory == Overwrite(before, start, buf[..bpos + n])
    {
      OverwriteTwice(before, start, buf[..bpos], buf[bpos..bpos + n]);
      assert buf[..bpos + n] == buf[..bpos] + buf[bpos..bpos + n];
      Put(npos, buf[bpos..bpos + n]);
    }

    /** The turn of the loop of `write` that completes it. */
    method FillLast(ghost before: seq<Byte>, ghost start: nat, buf: seq<Byte>, bpos: nat, n: nat, npos: nat, ncap: nat)
      returns (bpos': nat)
      requires Linked() && Holds() && 0 < n <= ncap && Filling(before, start, buf, bpos, n, npos, ncap)
      modifies `position, `cur, `index, `memory, set b | b in blocks :: b.ptr
      ensures Linked() && Holds() && Filling(before, start, buf, bpos', 0, npos, ncap)
    {
      PutPart(before, start, buf, bpos, npos, ncap, n);
      Step(npos, ncap, n);
      bpos' := bpos + n;
    }

    /** A turn that fills the rest of a block. */
    method FillRest(ghost before: seq<Byte>, ghost start: nat, buf: seq<Byte>, bpos: nat, n: nat, npos: nat, ncap: nat)
      returns (bpos': nat, n': nat, ncap': nat)
      requires Linked() && Holds() && ncap < n && Filling(before, start, buf, bpos, n, npos, ncap)
      modifies `position, `cur, `index, `memory, set b | b in blocks :: b.ptr
      ensures Linked() && Holds() && n' < n && Filling(before, start, buf, bpos', n', 0, ncap')
    {
      PutPart(before, start, buf, bpos, npos, ncap, ncap);
      Next(npos, ncap);
      bpos', n', ncap' := bpos + ncap, n - ncap, cur.size;
    }

    /** The loop of `write`, once there is room. */
    method Fill(buf: seq<Byte>)
      requires Linked() && Holds() && Cursor() && 0 < |buf| <= capacity - position
      modifies `position, `cur, `index, `memory, set b | b in blocks :: b.ptr
      ensures Linked() && Holds() && Cursor() && position == old(position) + |buf|
      ensures memory == Overwrite(old(memory), old(position), buf)
    {
      ghost var start := position;
      ghost var before := memory;
      var npos := Here();
      var ncap: nat := cur.size - npos;
      var bpos: nat, n: nat := 0, |buf|;
      while n > 0
        invariant Linked() && Holds() && Filling(before, start, buf, bpos, n, npos, ncap)
      {
        if ncap >= n {
          bpos := FillLast(before, start, buf, bpos, n, npos, ncap);
          n := 0;
        } else {
          bpos, n, ncap := FillRest(before, start, buf, bpos, n, npos, ncap);
          npos := 0;
        }
      }
      assert buf[..bpos] == buf;
    }

    /** `write` once there is room. */
    method Lay(buf: seq<Byte>)
      requires Valid() && 0 < |buf| <= capacity - position
      modifies `position, `size, `cur, `index, `memory, set b | b in blocks :: b.ptr
      ensures Valid() && position == old(position) + |buf|
      ensures Data() == Overlay(old(Data()), old(position), buf)
    {
      OverlayMemory(memory, size, position, buf);
      Fill(buf);
      if position > size {
        size := position;
      }
    }

    /** Write at the cursor, over what is there and beyond the end. */
    method Write(buf: seq<Byte>)
      requires Valid()
      modifies `position, `capacity, `size, `cur, `blocks, `index, `memory, blocks, set b | b in blocks :: b.ptr
      ensures Valid() && Extended() && Wrote(old(View()), buf, View())
    {
      if |buf| == 0 {
        return;
      }
      AddCapacity(|buf|);
      Lay(buf);
    }

    /** Half-way through `read`: `out` was read, `n` more bytes are in the cursor's block and beyond. */
    ghost predicate Reading(start: nat, out: seq<Byte>, n: nat, npos: nat, ncap: nat)
      reads `memory, `blocks, `position, `cur, `index
    {
      && start <= position && position + n <= |memory| && out == memory[start..position]
      && if n > 0 then At(position, cur, index, npos, ncap) else Cursor()
    }

    method ReadLast(ghost start: nat, out: seq<Byte>, n: nat, npos: nat, ncap: nat) returns (out': seq<Byte>)
      requires Linked() && Holds() && 0 < n <= ncap && Reading(start, out, n, npos, ncap)
      modifies `position, `cur, `index
      ensures Reading(start, out', 0, npos, ncap) && position == old(position) + n
    {
      var part := GetPart(cur, index, position, npos, ncap, n);
      JoinSlices(memory, start, position, position + n);
      out' := out + part;
      Step(npos, ncap, n);
    }

    method ReadRest(ghost start: nat, out: seq<Byte>, n: nat, npos: nat, ncap: nat) returns (out': seq<Byte>, n': nat, ncap': nat)
      requires Linked() && Holds() && ncap < n && Reading(start, out, n, npos, ncap)
      modifies `position, `cur, `index
      ensures n' < n && Reading(start, out', n', 0, ncap') && position + n' == old(position) + n
    {
      var part := GetPart(cur, index, position, npos, ncap, ncap);
      JoinSlices(memory, start, position, position + ncap);
      out' := out + part;
      Next(npos, ncap);
      n', ncap' := n - ncap, cur.size;
    }

    /** The loop of `read`. */
    method Copy(n: nat) returns (out: seq<Byte>)
      requires Linked() && Holds() && Cursor() && n <= capacity - position && cur != null
      modifies `position, `cur, `index
      ensures Cursor() && position == old(position) + n && out == memory[old(position)..old(position) + n]
    {
      ghost var start := position;
      var npos := Here();
      var ncap: nat := cur.size - npos;
      var left := n;
      out := [];
      while left > 0
        invariant Reading(start, out, left, npos, ncap) && position + left == start + n
      {
        if ncap >= left {
          out := ReadLast(start, out, left, npos, ncap);
          left := 0;
        } else {
          out, left, ncap := ReadRest(start, out, left, npos, ncap);
          npos := 0;
        }
      }
    }

    /** Read at the cursor. A read of nothing follows the null pointer when the cursor is exactly at capacity. */
    method Read(n: nat) returns (r: Result<seq<Byte>>)
      requires Valid()
      modifies `position, `cur, `index
      ensures Valid() && (r, View()) == Tapes.Read(old(View()), n)
      ensures r.OutOfRange? <==> n > size - old(position)
      ensures r.Fault? <==> n == 0 && old(position) == capacity
      ensures position == if r.Got? then old(position) + n else old(position)
      ensures r.Got? ==> |r.value| == n && forall i | 0 <= i < n :: r.value[i] == Data()[old(position) + i]
    {
      ReadMeans(View(), n);
      if n > size - position {
        return OutOfRange;
      }
      var npos := Here();
      if cur == null {
        return Fault;
      }
      var out := Copy(n);
      TakeSlice(memory, size, position - n, position);
      r := Got(out);
    }

    /** Move the cursor; past the end of the data, that end moves too. False is the out-of-range exception. */
    method SetPosition(v: nat) returns (ok: bool)
      requires Valid()
      modifies `position, `size, `cur, `index
      ensures Valid() && ok == (v <= capacity)
      ensures if ok then position == v && size == (if v > old(size) then v else old(size)) && old(Data()) <= Data()
              else position == old(position) && Data() == old(Data())
    {
      if v > capacity {
        return false;
      }
      position := v;
      if position > size {
        size := position;
      }
      Seek(v);
      return true;
    }

    /** Find the block of the position by walking the list. */
    method Seek(v: nat)
      requires Linked() && v == position <= capacity
      modifies `cur, `index
      ensures Cursor()
    {
      var left: nat := v;
      var node := root;
      index := 0;
      while left > node.size
        invariant At(position - left, node, index, 0, baseSize) && left <= position
        decreases left
      {
        Hop(position - left, node, index, 0, baseSize);
        left := left - node.size;
        node := node.next;
        index := index + 1;
      }
      Hop(position - left, node, index, 0, baseSize);
      cur := node;
      if left == node.size {
        cur := node.next;
        index := index + 1;
      }
    }

    /** Back to one block and no data. */
    method Clear()
      requires Valid()
      modifies `position, `capacity, `size, `cur, `blocks, `memory, `index, root`next
      ensures Valid() && Data() == [] && position == 0 && capacity == baseSize && blocks == old(blocks)[..1]
    {
      position, size := 0, 0;
      capacity := baseSize;
      cur := root;
      root.next := null;
      blocks, index, memory := blocks[..1], 0, root.ptr[..];
      HoldOne(root);
    }

    /** Half-way through `toString`: all but the last `left` bytes are copied. */
    ghost predicate Peeking(str: seq<Byte>, left: nat, node: Node?, k: nat, npos: nat, ncap: nat)
      reads `memory, `blocks, `position, `size
    {
      && position + left <= size <= |memory| && str == memory[position..size - left]
      && (left > 0 ==> At(size - left, node, k, npos, ncap))
    }

    method PeekLast(str: seq<Byte>, left: nat, node: Node, ghost k: nat, npos: nat, ncap: nat) returns (str': seq<Byte>)
      requires Linked() && Holds() && 0 < left <= ncap && Peeking(str, left, node, k, npos, ncap)
      ensures Peeking(str', 0, node, k, npos, ncap)
    {
      var part := GetPart(node, k, size - left, npos, ncap, left);
      JoinSlices(memory, position, size - left, size);
      str' := str + part;
    }

    method PeekRest(str: seq<Byte>, left: nat, node: Node, ghost k: nat, npos: nat, ncap: nat)
      returns (str': seq<Byte>, left': nat, node': Node, ncap': nat)
      requires Linked() && Holds() && ncap < left && Peeking(str, left, node, k, npos, ncap)
      ensures left' < left && Peeking(str', left', node', k + 1, 0, ncap')
    {
      Hop(size - left, node, k, npos, ncap);
      var part := GetPart(node, k, size - left, npos, ncap, ncap);
      JoinSlices(memory, position, size - left, size - left + ncap);
      str' := str + part;
      left', node', ncap' := left - ncap, node.next, node.next.size;
    }

    /** All that is left to read, without moving the cursor. */
    method ToString() returns (str: seq<Byte>)
      requires Valid()
      ensures str == Data()[position..]
    {
      var left: nat := size - position;
      if left == 0 {
        return [];
      }
      var npos := Here();
      var node := cur;
      ghost var k: nat := index;
      var ncap: nat := node.size - npos;
      str := [];
      while left > 0
        invariant Peeking(str, left, node, k, npos, ncap)
      {
        if ncap >= left {
          str := PeekLast(str, left, node, k, npos, ncap);
          left := 0;
        } else {
          str, left, node, ncap := PeekRest(str, left, node, k, npos, ncap);
          npos := 0;
          k := k + 1;
        }
      }
    }

    /** The slices `vs` lie inside one block each, are not empty, and are the memory from `from` to `pos`. */
    ghost predicate Cover(vs: seq<Iovec>, from: nat, pos: nat)
      reads `blocks, `memory, set i | 0 <= i < |vs| :: vs[i].block.ptr
    {
      && from <= pos <= |memory| && InBounds(vs)
      && (forall i | 0 <= i < |vs| :: vs[i].block in blocks)
      && IovBytes(vs) == memory[from..pos]
    }

    /** One more slice. */
    method AddSlice(ghost from: nat, vs: seq<Iovec>, ghost pos: nat, node: Node, ghost k: nat, npos: nat, ncap: nat, n: nat)
      returns (vs': seq<Iovec>)
      requires Linked() && Holds() && At(pos, node, k, npos, ncap) && 0 < n <= ncap && Cover(vs, from, pos)
      ensures Cover(vs', from, pos + n)
    {
      BlockBytes(k, npos, n);
      var iov := Iovec(node, npos, n);
      IovAppend(vs, iov);
      JoinSlices(memory, from, pos, pos + n);
      vs' := vs + [iov];
    }

    /** Half-way through the loop of `getReadBuffers`. */
    ghost predicate Slicing(vs: seq<Iovec>, from: nat, len: nat, left: nat, node: Node?, k: nat, npos: nat, ncap: nat)
      reads `blocks, `memory, set i | 0 <= i < |vs| :: vs[i].block.ptr
    {
      left <= len && Cover(vs, from, from + len - left) && (left > 0 ==> At(from + len - left, node, k, npos, ncap))
    }

    /** One turn. Without a next block to go on to the loop follows a null pointer: `ok` is false. */
    method SliceTurn(vs: seq<Iovec>, ghost from: nat, ghost len: nat, left: nat, node: Node, ghost k: nat, npos: nat, ncap: nat)
      returns (ok: bool, vs': seq<Iovec>, left': nat, node': Node, npos': nat, ncap': nat)
      requires Linked() && Holds() && left > 0 && Slicing(vs, from, len, left, node, k, npos, ncap)
      ensures ok ==> left' < left && Slicing(vs', from, len, left', node', k + 1, npos', ncap')
      ensures !ok ==> capacity < from + len
    {
      ghost var pos: nat := from + len - left;
      if ncap >= left {
        vs' := AddSlice(from, vs, pos, node, k, npos, ncap, left);
        ok, left', node', npos', ncap' := true, 0, node, npos, ncap;
      } else {
        Hop(pos, node, k, npos, ncap);
        vs' := AddSlice(from, vs, pos, node, k, npos, ncap, ncap);
        ok, left', node', npos', ncap' := false, left - ncap, node, npos, ncap;
        if node.next != null {
          ok, node', npos', ncap' := true, node.next, 0, node.next.size;
        }
      }
    }

    /** The loop of `getReadBuffers`: slices from `from` on, which is in block `first`. It faults past the last block. */
    method Slices(start: Node?, ghost first: nat, offset: nat, ghost from: nat, len: nat) returns (r: Result<seq<Iovec>>)
      requires Linked() && Holds() && len > 0 && offset < baseSize
      requires if start == null then from >= capacity else At(from, start, first, offset, baseSize - offset)
      ensures !r.OutOfRange?
      ensures r.Got? <==> from + len <= capacity
      ensures r.Got? ==> Cover(r.value, from, from + len)
    {
      if start == null {
        return Fault;
      }
      Hop(from, start, first, offset, baseSize - offset);
      var node: Node, npos: nat, left: nat := start, offset, len;
      ghost var k: nat := first;
      var ncap: nat := node.size - npos;
      var out: seq<Iovec> := [];
      while left > 0
        invariant Slicing(out, from, len, left, node, k, npos, ncap)
      {
        var ok;
        ok, out, left, node, npos, ncap := SliceTurn(out, from, len, left, node, k, npos, ncap);
        if !ok {
          return Fault;
        }
        k := k + 1;
      }
      return Got(out);
    }

    /** How much a reader asking for `len` bytes gets. */
    function Granted(len: nat): (n: nat)
      requires position <= size
      reads `position, `size
      ensures n <= len && n <= size - position && (n == len || n == size - position)
    {
      if len > size - position then size - position else len
    }

    /** Slices of what is left to read, at most `len` bytes of it. */
    method GetReadBuffers(len: nat) returns (r: Result<seq<Iovec>>)
      requires Valid()
      ensures r.Got? && Cover(r.value, position, position + Granted(len))
    {
      var n := Granted(len);
      if n == 0 {
        return Got([]);
      }
      var npos := Here();
      r := Slices(cur, index, npos, position, n);
    }

    /** Walk to the block of a position; null when the list ends before it. */
    method Walk(from: nat) returns (node: Node?, ghost k: nat, npos: nat)
      requires Linked()
      ensures npos < baseSize && if node == null then from >= capacity else At(from, node, k, npos, baseSize - npos)
    {
      Locate(from, baseSize);
      npos := from % baseSize;
      var count: nat := from / baseSize;
      k := 0;
      node := root;
      while count > 0
        invariant k + count == from / baseSize && At(Off(k, baseSize), node, k, 0, baseSize)
      {
        Hop(Off(k, baseSize), node, k, 0, baseSize);
        node := node.next;
        count := count - 1;
        k := k + 1;
        if node == null {
          OffMonotone(k, from / baseSize, baseSize);
          return;
        }
      }
    }

    /**
     The same from a position given; the length is cut by what is left at the cursor, not at that position. It
     faults exactly when that reaches past the capacity, which it does not for a position up to the cursor.
     */
    method GetReadBuffersAt(len: nat, from: nat) returns (r: Result<seq<Iovec>>)
      requires Valid()
      ensures !r.OutOfRange? && (r.Got? <==> Granted(len) == 0 || from + Granted(len) <= capacity)
      ensures r.Got? ==> if Granted(len) == 0 then r.value == [] else Cover(r.value, from, from + Granted(len))
    {
      var n := Granted(len);
      if n == 0 {
        return Got([]);
      }
      r := SlicesFrom(from, n);
    }

    method SlicesFrom(from: nat, len: nat) returns (r: Result<seq<Iovec>>)
      requires Linked() && Holds() && len > 0
      ensures !r.OutOfRange?
      ensures r.Got? <==> from + len <= capacity
      ensures r.Got? ==> Cover(r.value, from, from + len)
    {
      var node, k, npos := Walk(from);
      r := Slices(node, k, npos, from, len);
    }

    /** From a position up to the cursor what is granted lies in the data: the second form cannot fault there. */
    lemma UpToTheCursor(len: nat, from: nat)
      requires Valid() && from <= position
      ensures from + Granted(len) <= size <= capacity
      ensures from == position ==> forall vs, us: seq<Iovec> | Cover(vs, from, from + Granted(len)) && Cover(us, position, position + Granted(len)) ::
                IovBytes(vs) == IovBytes(us) == Data()[position..position + Granted(len)]
    {
      forall vs, us: seq<Iovec> | from == position && Cover(vs, from, from + Granted(len)) && Cover(us, position, position + Granted(len))
        ensures IovBytes(vs) == IovBytes(us) == Data()[position..position + Granted(len)]
      {
        CoverIsData(vs, from, from + Granted(len));
        CoverIsData(us, position, position + Granted(len));
      }
    }

    /** What the slices of the readers are: data. */
    lemma CoverIsData(vs: seq<Iovec>, from: nat, pos: nat)
      requires Cover(vs, from, pos) && pos <= size <= |memory|
      ensures IovBytes(vs) == Data()[from..pos] && InBounds(vs)
    {
    }

    /** Half-way through `writeToFile` on an aligned or long enough rest: `out` holds what precedes `pos`. */
    ghost predicate Saving(out: seq<Byte>, pos: int, left: int, node: Node?, k: nat)
      reads `memory, `blocks, `position, `size
    {
      && 0 <= left && position <= pos && pos + left == size <= |memory| && out == memory[position..pos]
      && (left > 0 ==> k < |blocks| && node == blocks[k] && 0 <= pos - Off(k, baseSize) < baseSize)
      && (0 < left < baseSize ==> pos == Off(k, baseSize))
    }

    /** What goes wrong otherwise: the file offset stays within the block while the list is walked to its end. */
    ghost predicate Stuck(pos: int, left: int, node: Node?, k: nat)
      reads `blocks, `index
    {
      && k <= |blocks| && node == (if k < |blocks| then blocks[k] else null)
      && 0 < left < baseSize && 0 < pos - Off(index, baseSize) < baseSize
    }

    /** How many bytes a turn of the loop of `writeToFile` asks to be written. */
    function SaveLength(pos: nat, left: int): int
      requires baseSize > 0
    {
      (if left > baseSize then baseSize else left) - pos % baseSize
    }

    /** One turn; a length that is not positive writes nothing. */
    method SaveTurn(out: seq<Byte>, pos: nat, left: int, node: Node) returns (out': seq<Byte>, pos': int, left': int, node': Node?)
      requires baseSize > 0 && left > 0
      requires pos % baseSize + SaveLength(pos, left) <= node.ptr.Length
      ensures var diff, len := pos % baseSize, SaveLength(pos, left);
              && out' == out + (if len > 0 then node.ptr[diff..diff + len] else [])
              && pos' == pos + len && left' == left - len && node' == node.next
    {
      var diff := pos % baseSize;
      var len := SaveLength(pos, left);
      out' := out;
      if len > 0 {
        out' := out' + node.ptr[diff..diff + len];
      }
      node' := node.next;
      pos' := pos + len;
      left' := left - len;
    }

    lemma SavingStep(out: seq<Byte>, pos: int, left: int, node: Node, k: nat)
      requires Linked() && Holds() && left > 0 && Saving(out, pos, left, node, k)
      ensures pos >= 0 && var diff, len := pos % baseSize, SaveLength(pos, left);
              && 0 < len && diff + len <= node.ptr.Length == baseSize
              && Saving(out + node.ptr[diff..diff + len], pos + len, left - len, node.next, k + 1)
    {
      OffDivMod(k, baseSize, pos - Off(k, baseSize));
      var diff, len := pos % baseSize, SaveLength(pos, left);
      Hop(pos, node, k, diff, baseSize - diff);
      BlockBytes(k, diff, len);
      JoinSlices(memory, position, pos, pos + len);
    }

    /** When the rest is short and not aligned, offset and length just change places. */
    lemma StuckStep(pos: int, left: int, node: Node, k: nat)
      requires Linked() && Stuck(pos, left, node, k)
      ensures pos >= 0 && var len := SaveLength(pos, left);
              && pos % baseSize + len <= node.ptr.Length == baseSize
              && Stuck(pos + len, left - len, node.next, k + 1)
    {
      OffDivMod(index, baseSize, pos - Off(index, baseSize));
      Hop(Off(k, baseSize), node, k, 0, baseSize);
    }

    /** The loop's state, in either case. */
    ghost predicate Dumping(stuck: bool, out: seq<Byte>, pos: int, left: int, node: Node?, k: nat)
      reads `memory, `blocks, `position, `size, `index
    {
      k <= |blocks| && if stuck then Stuck(pos, left, node, k) else Saving(out, pos, left, node, k)
    }

    method DumpTurn(ghost stuck: bool, out: seq<Byte>, pos: int, left: int, node: Node, ghost k: nat)
      returns (out': seq<Byte>, pos': int, left': int, node': Node?)
      requires Linked() && Holds() && left > 0 && k < |blocks| && Dumping(stuck, out, pos, left, node, k)
      ensures Dumping(stuck, out', pos', left', node', k + 1)
    {
      if stuck {
        StuckStep(pos, left, node, k);
      } else {
        SavingStep(out, pos, left, node, k);
      }
      out', pos', left', node' := SaveTurn(out, pos, left, node);
    }

    /** A cursor at a block's beginning. */
    lemma Aligned()
      requires Linked() && Cursor()
      ensures position % baseSize == position - Off(index, baseSize)
    {
      OffDivMod(index, baseSize, position - Off(index, baseSize));
    }

    /**
     The bytes `writeToFile` puts into the file, all that is left to read; but with an unaligned cursor and
     less than a block to read it runs off the end of the list.
     */
    method WriteToFile() returns (r: Result<seq<Byte>>)
      requires Valid()
      ensures r == if 0 < size - position < baseSize && position % baseSize != 0 then Fault else Got(Data()[position..])
    {
      Aligned();
      ghost var stuck := 0 < size - position < baseSize && position % baseSize != 0;
      r := Dump(stuck);
      TakeSlice(memory, size, position, size);
    }

    method Dump(ghost stuck: bool) returns (r: Result<seq<Byte>>)
      requires Valid() && (stuck <==> 0 < size - position < baseSize && position != Off(index, baseSize))
      ensures r == if stuck then Fault else Got(memory[position..size])
    {
      var npos := Here();
      var left: int, pos: int, node := size - position, position, cur;
      ghost var k: nat := index;
      var out: seq<Byte> := [];
      while left > 0
        invariant Dumping(stuck, out, pos, left, node, k)
        decreases |blocks| - k
      {
        if node == null {
          return Fault;
        }
        out, pos, left, node := DumpTurn(stuck, out, pos, left, node, k);
        k := k + 1;
      }
      return Got(out);
    }

    /** The first `at` bytes of a file are written. */
    ghost predicate Loaded(before: seq<Byte>, start: nat, file: seq<Byte>, at: nat)
      requires start <= |before| && size <= |memory|
      reads `memory, `size, `position
    {
      at <= |file| && position == start + at && Data() == Overlay(before, start, file[..at])
    }

    method LoadPart(ghost before: seq<Byte>, ghost start: nat, file: seq<Byte>, at: nat, n: nat) returns (at': nat)
      requires Valid() && start <= |before| && Loaded(before, start, file, at) && at + n <= |file|
      modifies `position, `capacity, `size, `cur, `blocks, `index, `memory, blocks, set b | b in blocks :: b.ptr
      ensures Valid() && Extended() && at' == at + n && Loaded(before, start, file, at')
    {
      LoadStep(before, start, file, at, n);
      Write(file[at..at + n]);
      at' := at + n;
    }

    /** Write a file's bytes at the cursor, a block's length at a time, until a short read meets the end. */
    method ReadFromFile(file: seq<Byte>)
      requires Valid()
      modifies `position, `capacity, `size, `cur, `blocks, `index, `memory, blocks, set b | b in blocks :: b.ptr
      ensures Valid() && Extended() && position == old(position) + |file|
      ensures Data() == Overlay(old(Data()), old(position), file)
    {
      ghost var before := Data();
      ghost var start := position;
      var at: nat, eof := 0, false;
      assert Overlay(before, start, []) == before;
      while !eof
        invariant Valid() && Extended() && Loaded(before, start, file, at) && (eof ==> at == |file|)
        decreases |file| - at, !eof
      {
        var n: nat := if |file| - at < baseSize then |file| - at else baseSize;
        eof := n < baseSize;
        at := LoadPart(before, start, file, at, n);
      }
      assert file[..at] == file;
    }
  }

  ghost predicate InBounds(vs: seq<Iovec>) {
    forall i | 0 <= i < |vs| :: vs[i].len > 0 && vs[i].at + vs[i].len <= vs[i].block.ptr.Length
  }

  /** The bytes a list of slices stands for. */
  ghost function IovBytes(vs: seq<Iovec>): seq<Byte>
    requires InBounds(vs)
    reads set i | 0 <= i < |vs| :: vs[i].block.ptr
  {
    if vs == [] then [] else
      var last := vs[|vs| - 1];
      IovBytes(vs[..|vs| - 1]) + last.block.ptr[last.at..last.at + last.len]
  }

  lemma IovAppend(vs: seq<Iovec>, v: Iovec)
    requires InBounds(vs) && v.len > 0 && v.at + v.len <= v.block.ptr.Length
    ensures InBounds(vs + [v]) && IovBytes(vs + [v]) == IovBytes(vs) + v.block.ptr[v.at..v.at + v.len]
  {
    assert (vs + [v])[..|vs|] == vs;
  }

  lemma LoadStep(before: seq<Byte>, start: nat, file: seq<Byte>, at: nat, n: nat)
    requires start <= |before| && at + n <= |file|
    ensures Overlay(Overlay(before, start, file[..at]), start + at, file[at..at + n]) == Overlay(before, start, file[..at + n])
  {
    OverlayTwice(before, start, file[..at], file[at..at + n]);
    assert file[..at] + file[at..at + n] == file[..at + n];
  }

  lemma TakePrefix(m: seq<Byte>, m': seq<Byte>, n: nat)
    requires m <= m' && n <= |m|
    ensures m[..n] == m'[..n]
  {
  }

  lemma TakeSlice(m: seq<Byte>, n: nat, a: nat, b: nat)
    requires a <= b <= n <= |m|
    ensures m[..n][a..b] == m[a..b]
  {
  }

  lemma JoinSlices(m: seq<Byte>, a: nat, b: nat, c: nat)
    requires a <= b <= c <= |m|
    ensures m[a..b] + m[b..c] == m[a..c]
  {
  }

  lemma OverlayMemory(memory: seq<Byte>, size: nat, at: nat, x: seq<Byte>)
    requires at <= size <= |memory| && at + |x| <= |memory|
    ensures var size' := if at + |x| > size then at + |x| else size;
            Overwrite(memory, at, x)[..size'] == Overlay(memory[..size], at, x)
  {
  }
}
