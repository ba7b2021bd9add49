// Buffer.c: a compacting and growing byte queue.
module ByteBuffer {
  import opened Common
  import opened Bytes

  // The buffer as a value: the bytes still to be read, and where they lie in the memory.
  datatype Buf = Buf(capacity: nat, readPos: nat, unread: seq<Byte>) {
    predicate Fits() {
      readPos + |unread| <= capacity
    }

    function Writeable(): int {
      capacity - readPos - |unread|
    }
  }

  // bufferSocketRead's second readv segment.
  const SPILL: nat := 40960

  // The room is there only if what has been read gives up its space.
  predicate Compacts(b: Buf, size: nat) {
    b.Writeable() < size <= b.readPos + b.Writeable()
  }

  function Extend(b: Buf, size: nat): Buf {
    if b.Writeable() >= size then b
    else if Compacts(b, size) then b.(readPos := 0)
    else b.(capacity := b.capacity + size)
  }

  function Append(b: Buf, bytes: seq<Byte>): Buf {
    if bytes == [] then b else Extend(b, |bytes|).(unread := b.unread + bytes)
  }

  // readv has delivered `bytes`, first into the free tail, then into the spill segment.
  function Receive(b: Buf, bytes: seq<Byte>): Buf
    requires b.Fits()
  {
    if |bytes| <= b.Writeable() then b.(unread := b.unread + bytes)
    else Append(b.(unread := b.unread + bytes[..b.Writeable()]), bytes[b.Writeable()..])
  }

  // send has taken `count` bytes.
  function Sent(b: Buf, count: nat): Buf
    requires count <= |b.unread|
  {
    Buf(b.capacity, b.readPos + count, b.unread[count..])
  }

  // bufferExtendRoom makes the room asked for, keeps the contents, and grows only when even
  // compaction would not do.
  lemma ExtendMakesRoom(b: Buf, size: nat)
    requires b.Fits()
    ensures var e := Extend(b, size);
            && e.Fits() && e.unread == b.unread && e.Writeable() >= size
            && e.capacity == (if |b.unread| + size > b.capacity then b.capacity + size else b.capacity)
            && e.readPos == (if b.Writeable() >= size || |b.unread| + size > b.capacity then b.readPos else 0)
  {
  }

  // The spill split is invisible: the bytes arrive in order, behind what was there. The memory grows, by
  // what the free tail does not hold, only when compaction would not do.
  lemma ReceiveAppends(b: Buf, bytes: seq<Byte>)
    requires b.Fits()
    ensures var r := Receive(b, bytes);
            && r.Fits() && r.unread == b.unread + bytes
            && r.capacity == (if |b.unread| + |bytes| > b.capacity then b.capacity + (|bytes| - b.Writeable())
                              else b.capacity)
            && r.readPos == (if |bytes| <= b.Writeable() || |b.unread| + |bytes| > b.capacity then b.readPos else 0)
  {
  }

  // Compaction copies the unread bytes to the front with memcpy, which needs the two regions apart.
  predicate InSource(b: Buf, i: nat) {
    b.readPos <= i < b.readPos + |b.unread|
  }

  predicate InDestination(b: Buf, i: nat) {
    i < |b.unread|
  }

  ghost predicate OverlappingCopy(b: Buf, size: nat) {
    Compacts(b, size) && exists i: nat :: InDestination(b, i) && InSource(b, i)
  }

  // bufferExtendRoom moves the bytes exactly when it compacts, and the regions then overlap exactly
  // when less has been read than is unread.
  lemma CompactionOverlap(b: Buf, size: nat)
    requires b.Fits()
    ensures Compacts(b, size) <==> Extend(b, size) != b && Extend(b, size).capacity == b.capacity
    ensures OverlappingCopy(b, size) <==>
            b.Writeable() < size <= b.readPos + b.Writeable() && b.readPos < |b.unread|
  {
    if Compacts(b, size) && b.readPos < |b.unread| {
      assert InDestination(b, b.readPos) && InSource(b, b.readPos);
    }
  }

  // ---------------------------------------------------------------- whole runs

  datatype Op = OpAppend(bytes: seq<Byte>) | OpReceive(bytes: seq<Byte>) | OpSend(count: nat)

  // The buffer with the history of bytes put in and taken out, and the most ever unread at once.
  datatype Trace = Trace(buf: Buf, received: seq<Byte>, sent: seq<Byte>, peak: nat)

  function Max(a: nat, b: nat): nat {
    if a < b then b else a
  }

  // A send takes no more than is there.
  predicate Possible(t: Trace, op: Op) {
    t.buf.Fits() && (op.OpSend? ==> op.count <= |t.buf.unread|)
  }

  function Step(t: Trace, op: Op): Trace
    requires Possible(t, op)
  {
    match op
    case OpAppend(bytes) =>
      var b := Append(t.buf, bytes);
      Trace(b, t.received + bytes, t.sent, Max(t.peak, |b.unread|))
    case OpReceive(bytes) =>
      var b := Receive(t.buf, bytes);
      Trace(b, t.received + bytes, t.sent, Max(t.peak, |b.unread|))
    case OpSend(count) => Trace(Sent(t.buf, count), t.received, t.sent + t.buf.unread[..count], t.peak)
  }

  ghost predicate Run(t: Trace, ops: seq<Op>, t': Trace)
    decreases |ops|
  {
    if ops == [] then t' == t else Possible(t, ops[0]) && Run(Step(t, ops[0]), ops[1..], t')
  }

  // Whether the operation copies between overlapping regions.
  ghost predicate StepOverlaps(t: Trace, op: Op)
    requires Possible(t, op)
  {
    match op
    case OpAppend(bytes) => OverlappingCopy(t.buf, |bytes|)
    case OpReceive(bytes) =>
      var free := t.buf.Writeable();
      |bytes| > free && OverlappingCopy(t.buf.(unread := t.buf.unread + bytes[..free]), |bytes| - free)
    case OpSend(_) => false
  }

  // For received bytes the free tail has been filled before the rest asks for room.
  lemma StepOverlapsExactly(t: Trace, op: Op)
    requires Possible(t, op)
    ensures var b, free := t.buf, t.buf.Writeable();
            StepOverlaps(t, op) <==>
              match op
              case OpAppend(bytes) => free < |bytes| <= b.readPos + free && b.readPos < |b.unread|
              case OpReceive(bytes) => free < |bytes| <= b.readPos + free && b.readPos < |b.unread| + free
              case OpSend(_) => false
  {
    match op
    case OpAppend(bytes) => CompactionOverlap(t.buf, |bytes|);
    case OpReceive(bytes) =>
      var free := t.buf.Writeable();
      if |bytes| > free {
        CompactionOverlap(t.buf.(unread := t.buf.unread + bytes[..free]), |bytes| - free);
      }
    case OpSend(_) =>
  }

  ghost predicate OverlapFree(t: Trace, ops: seq<Op>)
    decreases |ops|
  {
    ops == [] || (Possible(t, ops[0]) && !StepOverlaps(t, ops[0]) && OverlapFree(Step(t, ops[0]), ops[1..]))
  }

  // Overlapping copies do happen: ten bytes of memory, eight appended, two sent, four more appended.
  lemma OverlapReached()
    ensures var t := Trace(Buf(10, 0, []), [], [], 0);
            var first, last := [OpAppend([1, 2, 3, 4, 5, 6, 7, 8]), OpSend(2)], OpAppend([9, 10, 11, 12]);
            && Run(t, first, Step(Step(t, first[0]), first[1])) && OverlapFree(t, first)
            && !OverlapFree(t, first + [last])
  {
    var t := Trace(Buf(10, 0, []), [], [], 0);
    var first, last := [OpAppend([1, 2, 3, 4, 5, 6, 7, 8]), OpSend(2)], OpAppend([9, 10, 11, 12]);
    var t1 := Step(t, first[0]);
    assert t1.buf == Buf(10, 0, [1, 2, 3, 4, 5, 6, 7, 8]);
    var t2 := Step(t1, first[1]);
    assert t2.buf.readPos == 2 && |t2.buf.unread| == 6;
    StepOverlapsExactly(t, first[0]);
    StepOverlapsExactly(t1, first[1]);
    StepOverlapsExactly(t2, last);
    assert first[1..] == [first[1]] && [first[1]][1..] == [];
    assert (first + [last])[1..] == [first[1], last] && [first[1], last][1..] == [last];
    assert Run(t1, [first[1]], t2) && OverlapFree(t1, [first[1]]);
    assert !OverlapFree(t2, [last]);
    assert !OverlapFree(t1, [first[1], last]);
  }

  // Everything received is what was sent followed by what is still unread; the capacity is at
  // most the initial one or twice the most ever unread.
  ghost predicate Good(t: Trace, initial: nat) {
    && t.buf.Fits() && |t.buf.unread| <= t.peak
    && t.received == t.sent + t.buf.unread
    && t.buf.capacity <= Max(initial, 2 * t.peak)
  }

  lemma StepGood(t: Trace, op: Op, initial: nat)
    requires Good(t, initial) && Possible(t, op)
    ensures Good(Step(t, op), initial)
  {
    match op
    case OpAppend(bytes) =>
      ExtendMakesRoom(t.buf, |bytes|);
      assert t.sent + t.buf.unread + bytes == t.sent + (t.buf.unread + bytes);
      if bytes == [] { assert t.buf.unread + bytes == t.buf.unread; }
    case OpReceive(bytes) =>
      ReceiveAppends(t.buf, bytes);
      assert t.sent + t.buf.unread + bytes == t.sent + (t.buf.unread + bytes);
      if |bytes| > t.buf.Writeable() {
        var b := t.buf.(unread := t.buf.unread + bytes[..t.buf.Writeable()]);
        ExtendMakesRoom(b, |bytes| - t.buf.Writeable());
      }
    case OpSend(count) =>
      assert t.buf.unread == t.buf.unread[..count] + t.buf.unread[count..];
      assert t.sent + t.buf.unread == t.sent + t.buf.unread[..count] + t.buf.unread[count..];
  }

  // The buffer is a FIFO over any run, through compaction, growth, the spill split and partial
  // sends, and its capacity is bounded by the initial capacity and twice the peak of unread bytes.
  // For compaction memcpy is taken to copy forward; on the runs that are OverlapFree, which
  // StepOverlapsExactly tells step by step, any memcpy does.
  lemma {:induction false} FifoInBoundedSpace(initial: nat, t: Trace, ops: seq<Op>, t': Trace)
    requires Good(t, initial) && Run(t, ops, t')
    ensures Good(t', initial)
    decreases |ops|
  {
    if ops != [] {
      StepGood(t, ops[0], initial);
      FifoInBoundedSpace(initial, Step(t, ops[0]), ops[1..], t');
    }
  }

  lemma EmptyBufferGood(capacity: nat)
    ensures Good(Trace(Buf(capacity, 0, []), [], [], 0), capacity)
  {
  }

  // ---------------------------------------------------------------- the object

  class Buffer {
    var data: array<Byte>
    var readPos: nat
    var writePos: nat

    constructor (size: nat)
      ensures Valid() && View() == Buf(size, 0, []) && fresh(data)
    {
      data := new Byte[size](_ => 0);
      readPos, writePos := 0, 0;
    }

    ghost predicate Valid()
      reads this
    {
      readPos <= writePos <= data.Length
    }

    ghost function View(): (b: Buf)
      requires Valid()
      reads this, data
      ensures b.Fits()
    {
      Buf(data.Length, readPos, data[readPos..writePos])
    }

    function WriteableSize(): int
      reads this
    {
      data.Length - writePos
    }

    function ReadableSize(): int
      reads this
    {
      writePos - readPos
    }

    // memcpy(to, from, bytes) within the buffer, byte by byte from the front.
    method MoveToFront(count: nat)
      requires readPos + count <= data.Length
      modifies data
      ensures data[..count] == old(data[readPos..readPos + count])
    {
      var i := 0;
      while i < count
        invariant i <= count
        invariant forall k :: 0 <= k < i ==> data[k] == old(data[readPos + k])
        invariant forall k :: readPos + i <= k < data.Length ==> data[k] == old(data[k])
      {
        data[i] := data[readPos + i];
        i := i + 1;
      }
    }

    method Write(at: nat, bytes: seq<Byte>)
      requires at + |bytes| <= data.Length
      modifies data
      ensures data[..] == old(data[..at]) + bytes + old(data[at + |bytes|..])
    {
      var i := 0;
      while i < |bytes|
        invariant i <= |bytes|
        invariant forall k :: 0 <= k < i ==> data[at + k] == bytes[k]
        invariant forall k :: 0 <= k < data.Length && !(at <= k < at + i) ==> data[k] == old(data[k])
      {
        data[at + i] := bytes[i];
        i := i + 1;
      }
    }

    // realloc to capacity + size, the new part zeroed.
    method Grow(size: nat)
      requires Valid()
      modifies this`data
      ensures Valid() && fresh(data) && View() == old(View()).(capacity := old(data.Length) + size)
    {
      var previous := data;
      var bigger := new Byte[data.Length + size](_ => 0);
      var i := 0;
      while i < previous.Length
        invariant i <= previous.Length
        invariant forall k :: 0 <= k < i ==> bigger[k] == previous[k]
      {
        bigger[i] := previous[i];
        i := i + 1;
      }
      data := bigger;
    }

    method ExtendRoom(size: nat)
      requires Valid()
      modifies this, data
      ensures Valid() && View() == Extend(old(View()), size) && WriteableSize() >= size
      ensures data == old(data) || fresh(data)
    {
      if WriteableSize() >= size {
        return;
      }
      if readPos + WriteableSize() >= size {
        var readable := ReadableSize();
        MoveToFront(readable);
        readPos := 0;
        writePos := readable;
      } else {
        Grow(size);
      }
    }

    method AppendData(bytes: seq<Byte>) returns (ret: int)
      requires Valid()
      modifies this, data
      ensures Valid() && View() == Append(old(View()), bytes)
      ensures ret == if bytes == [] then -1 else 0
      ensures data == old(data) || fresh(data)
    {
      if |bytes| == 0 {
        return -1;
      }
      ExtendRoom(|bytes|);
      ghost var unread := data[readPos..writePos];
      Write(writePos, bytes);
      writePos := writePos + |bytes|;
      assert data[readPos..writePos] == unread + bytes;
      ret := 0;
    }

    // `input` is what readv delivered, None when it failed.
    method SocketRead(input: Option<seq<Byte>>) returns (result: int)
      requires Valid() && (input.Some? ==> |input.value| <= WriteableSize() + SPILL)
      modifies this, data
      ensures Valid() && result == (if input.None? then -1 else |input.value|)
      ensures View() == if input.None? then old(View()) else Receive(old(View()), input.value)
      ensures data == old(data) || fresh(data)
    {
      if input.None? {
        return -1;
      }
      var bytes := input.value;
      result := |bytes|;
      var writeable := WriteableSize();
      ghost var unread := data[readPos..writePos];
      if result <= writeable {
        Write(writePos, bytes);
        writePos := writePos + result;
        assert data[readPos..writePos] == unread + bytes;
      } else {
        Write(writePos, bytes[..writeable]);
        writePos := data.Length;
        assert data[readPos..writePos] == unread + bytes[..writeable];
        var _ := AppendData(bytes[writeable..]);
      }
    }

    // `count` is send's answer for the unread bytes.
    method SendData(count: int) returns (ret: int)
      requires Valid() && count <= ReadableSize()
      modifies this`readPos
      ensures Valid()
      ensures ret == if old(ReadableSize()) > 0 then count else 0
      ensures View() == if ret > 0 then Sent(old(View()), ret) else old(View())
    {
      if ReadableSize() > 0 {
        if count > 0 {
          readPos := readPos + count;
        }
        return count;
      }
      return 0;
    }

    // readPos += count, as the parser does.
    method Skip(count: nat)
      requires Valid() && count <= ReadableSize()
      modifies this`readPos
      ensures Valid() && View() == Sent(old(View()), count)
    {
      readPos := readPos + count;
    }

    // memmem over the unread bytes: the offset of the first CRLF from readPos.
    method FindCRLF() returns (r: Option<nat>)
      requires Valid()
      ensures r == Find(View().unread, CRLF)
    {
      ghost var hay := data[readPos..writePos];
      var i := 0;
      while readPos + i + 1 < writePos
        invariant forall j: nat :: j < i ==> !At(hay, j, CRLF)
      {
        PairAt(hay, i, CR, LF);
        if data[readPos + i] == CR && data[readPos + i + 1] == LF {
          FindUnique(hay, CRLF, i);
          return Some(i);
        }
        i := i + 1;
      }
      r := None;
    }
  }
}
