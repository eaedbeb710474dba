/**
 * DltBuffer: the daemon's store for messages while no client is connected.
 */
module DltBuffers {
  import opened Order
  import opened RingMemory
  import opened Entities

  /** The size of the header in front of the data area. */
  const BUFFER_HEAD_SIZE := 12

  /** Sizes and positions are of type int. */
  const INT_LIMIT := 0x8000_0000

  /** Whether growing by step from size, at most to max, reaches goal. */
  predicate CanReach(size: nat, goal: nat, step: nat, max: nat)
    decreases max - size
  {
    size >= goal || (step > 0 && size + BUFFER_HEAD_SIZE + step <= max && CanReach(size + step, goal, step, max))
  }

  /** From both sizes growth reaches the same goals. */
  ghost predicate SameReach(size: nat, now: nat, step: nat, max: nat) {
    forall goal {:trigger CanReach(size, goal, step, max)} {:trigger CanReach(now, goal, step, max)} ::
      CanReach(size, goal, step, max) <==> CanReach(now, goal, step, max)
  }

  lemma SameReachStep(size: nat, now: nat, step: nat, max: nat)
    requires SameReach(size, now, step, max) && step > 0 && now + BUFFER_HEAD_SIZE + step <= max
    ensures SameReach(size, now + step, step, max)
  {
    forall goal: nat
      ensures CanReach(size, goal, step, max) <==> CanReach(now + step, goal, step, max)
    {
      assert CanReach(now, goal, step, max) <==> CanReach(now + step, goal, step, max);
    }
  }

  /** The size that the header in front of the bytes announces, if it is a header and they cover it. */
  function FrontOf(bytes: seq<Byte>): (size: Option<nat>)
    ensures size.Some? ==> HEAD_SIZE + size.value <= |bytes|
  {
    if |bytes| < HEAD_SIZE || bytes[..4] != Magic || bytes[4] != STATUS then None
    else
      var n := SizeOf(bytes[8..12]);
      if |bytes| < HEAD_SIZE + n then None else Some(n)
  }

  /** A header in front of the bytes announces a size that the type int can hold. */
  predicate Fits(bytes: seq<Byte>) {
    |bytes| >= HEAD_SIZE && bytes[..4] == Magic && bytes[4] == STATUS ==> HEAD_SIZE + SizeOf(bytes[8..12]) < INT_LIMIT
  }

  class DltBuffer {
    const minSize: nat
    const maxSize: nat
    const stepSize: nat

    /** The data area; its length is the buffer's size. */
    var mem: array<Byte>
    var read: nat
    var write: nat
    var count: nat

    /** The bytes from read up to write are these. */
    ghost predicate Occupies(bytes: seq<Byte>)
      reads this, mem
    {
      && read <= mem.Length && |bytes| <= mem.Length
      && write == Advance(mem.Length, read, |bytes|)
      && Ring(mem[..], read, |bytes|) == bytes
    }

    ghost predicate SizesOk()
      reads this
    {
      BUFFER_HEAD_SIZE < minSize <= mem.Length + BUFFER_HEAD_SIZE <= maxSize < INT_LIMIT
    }

    /** The bytes in use; without a counted message they lie at the front of memory that has grown. */
    ghost predicate Consistent(bytes: seq<Byte>)
      reads this, mem
    {
      && SizesOk() && Occupies(bytes) && (count > 0 ==> bytes != [])
      && (count == 0 && bytes != [] ==> read == 0 && minSize < mem.Length + BUFFER_HEAD_SIZE)
    }

    /** The buffer holds the messages of q, oldest first. */
    ghost predicate Represents(q: seq<seq<Byte>>)
      reads this, mem
    {
      && count == |q| && SizesOk()
      && read <= mem.Length && TotalLength(q) <= mem.Length
      && write == Advance(mem.Length, read, TotalLength(q))
      && Blocks(Ring(mem[..], read, TotalLength(q)), q)
    }

    /** Whether the memory can grow by one step. */
    predicate CanGrow()
      reads this
    {
      stepSize > 0 && mem.Length + BUFFER_HEAD_SIZE + stepSize <= maxSize
    }

    /** dlt_buffer_init_dynamic behind its parameter checks. */
    constructor (minSize: nat, maxSize: nat, stepSize: nat)
      requires BUFFER_HEAD_SIZE < minSize <= maxSize < INT_LIMIT && stepSize <= maxSize
      ensures Represents([]) && fresh(mem) && mem.Length == minSize - BUFFER_HEAD_SIZE && read == 0
      ensures this.minSize == minSize && this.maxSize == maxSize && this.stepSize == stepSize
      ensures forall i :: 0 <= i < mem.Length ==> mem[i] == 0
    {
      this.minSize, this.maxSize, this.stepSize := minSize, maxSize, stepSize;
      mem := new Byte[minSize - BUFFER_HEAD_SIZE](_ => 0);
      read, write, count := 0, 0, 0;
    }

    /** dlt_buffer_write_block for data that fits. */
    method WriteBlock(p: nat, data: seq<Byte>) returns (p': nat)
      requires p <= mem.Length && |data| <= mem.Length
      modifies mem
      ensures Written(old(mem[..]), mem[..], p, data) && p' == Advance(mem.Length, p, |data|)
    {
      var size := mem.Length;
      if p + |data| <= size {
        for i := 0 to |data|
          invariant forall k :: 0 <= k < size ==> mem[k] == if p <= k < p + i then data[k - p] else old(mem[k])
        {
          mem[p + i] := data[i];
        }
        p' := p + |data|;
      } else {
        var n := size - p;
        for i := 0 to n
          invariant forall k :: 0 <= k < size ==> mem[k] == if p <= k < p + i then data[k - p] else old(mem[k])
        {
          mem[p + i] := data[i];
        }
        for i := 0 to |data| - n
          invariant forall k :: 0 <= k < size ==>
            mem[k] == if p <= k then data[k - p] else if k < i then data[n + k] else old(mem[k])
        {
          mem[i] := data[n + i];
        }
        p' := p + |data| - size;
      }
    }

    /** dlt_buffer_read_block. */
    method ReadBlock(p: nat, n: nat) returns (p': nat, data: seq<Byte>)
      requires p <= mem.Length && n <= mem.Length
      ensures data == Ring(mem[..], p, n) && p' == Advance(mem.Length, p, n)
    {
      if p + n <= mem.Length {
        data := mem[p..p + n];
        p' := p + n;
      } else {
        data := mem[p..] + mem[..p + n - mem.Length];
        p' := p + n - mem.Length;
      }
    }

    /**
     * dlt_buffer_increase_size. The copied stretch is computed from the positions alone, so
     * for an empty buffer it is the whole memory.
     */
    method IncreaseSize(ghost bytes: seq<Byte>) returns (ok: bool)
      requires Occupies(bytes)
      modifies this
      ensures ok <==> old(CanGrow())
      ensures !ok ==> mem == old(mem) && read == old(read) && write == old(write)
      ensures ok ==> fresh(mem) && mem.Length == old(mem.Length) + stepSize && read == 0
      ensures ok && bytes != [] ==> Occupies(bytes)
      ensures ok && bytes == [] ==> Occupies(Ring(old(mem[..]), old(read), old(mem.Length)))
      ensures count == old(count)
    {
      if stepSize == 0 || mem.Length + BUFFER_HEAD_SIZE + stepSize > maxSize {
        return false;
      }
      var n := if read < write then write - read else mem.Length - read + write;
      var _, kept := ReadBlock(read, n);
      var bigger := new Byte[mem.Length + stepSize];
      for i := 0 to n
        invariant bigger[..i] == kept[..i] && unchanged(this)
      {
        bigger[i] := kept[i];
      }
      assert Ring(bigger[..], 0, n) == bigger[..n] == kept;
      mem, read, write := bigger, 0, n;
      return true;
    }

    /** The free bytes as dlt_buffer_push3 computes them. */
    function FreeSize(): int
      reads this
    {
      if read > write then read - write
      else if count > 0 && write == read then 0
      else mem.Length - write + read
    }

    lemma FreeSizeExact(bytes: seq<Byte>)
      requires Occupies(bytes) && (count > 0 ==> bytes != []) && (count == 0 && |bytes| == mem.Length ==> bytes == [] || read == 0)
      ensures FreeSize() == mem.Length - |bytes|
    {
    }

    /** Grows until needed bytes are free, or fails. */
    method MakeRoom(ghost bytes: seq<Byte>, needed: nat) returns (ok: bool, ghost now: seq<Byte>)
      requires Consistent(bytes)
      modifies this
      ensures var occupied := if bytes == [] && needed > old(mem.Length) then old(mem.Length) else |bytes|;
              && (ok <==> CanReach(old(mem.Length), occupied + needed, stepSize, maxSize))
              && (ok ==> |now| == occupied && |now| + needed <= mem.Length)
      ensures Consistent(now)
      ensures now == if bytes == [] && needed > old(mem.Length) && old(CanGrow()) then Ring(old(mem[..]), old(read), old(mem.Length))
                     else bytes
      ensures bytes == [] && needed > old(mem.Length) && old(CanGrow()) ==> read == 0
      ensures read == 0 || read == old(read)
      ensures count == old(count) && (mem == old(mem) || fresh(mem)) && old(mem.Length) <= mem.Length
      ensures |bytes| + needed <= old(mem.Length) ==> mem == old(mem) && read == old(read)
      ensures SameReach(old(mem.Length), mem.Length, stepSize, maxSize)
    {
      now := bytes;
      ghost var occupied := if bytes == [] && needed > mem.Length then mem.Length else |bytes|;
      FreeSizeExact(now);
      while FreeSize() < needed
        invariant Consistent(now) && FreeSize() == mem.Length - |now| && count == old(count)
        invariant (mem == old(mem) || fresh(mem)) && old(mem.Length) <= mem.Length
        invariant if mem == old(mem) then now == bytes && read == old(read) && write == old(write)
                  else |now| == occupied && mem.Length > |now| && old(CanGrow()) && read == 0
        invariant mem != old(mem) ==> |bytes| + needed > old(mem.Length)
        invariant mem != old(mem) && bytes != [] ==> now == bytes
        invariant mem != old(mem) && bytes == [] ==>
          needed > old(mem.Length) && now == Ring(old(mem[..]), old(read), old(mem.Length))
        invariant SameReach(old(mem.Length), mem.Length, stepSize, maxSize)
        decreases maxSize - mem.Length
      {
        ghost var before := mem[..];
        var grown := IncreaseSize(now);
        if !grown {
          assert !CanReach(mem.Length, occupied + needed, stepSize, maxSize);
          return false, now;
        }
        SameReachStep(old(mem.Length), |before|, stepSize, maxSize);
        if now == [] {
          now := Ring(before, old(read), |before|);
        }
        FreeSizeExact(now);
      }
      assert CanReach(mem.Length, occupied + needed, stepSize, maxSize);
      return true, now;
    }

    /** The bytes of a message behind its header, in the memory and in the ring. */
    method AppendBytes(ghost bytes: seq<Byte>, p: nat, data: seq<Byte>) returns (p': nat)
      requires read <= mem.Length && |bytes| + |data| <= mem.Length && p == Advance(mem.Length, read, |bytes|)
      requires Ring(mem[..], read, |bytes|) == bytes
      modifies mem
      ensures p' == Advance(mem.Length, read, |bytes + data|) && Ring(mem[..], read, |bytes + data|) == bytes + data
    {
      ghost var before := mem[..];
      p' := WriteBlock(p, data);
      WriteExtends(before, mem[..], read, |bytes|, data);
      AdvanceTwice(mem.Length, read, |bytes|, |data|);
    }

    /** Writes a header and a message in three parts behind the occupied bytes. */
    method Store(ghost now: seq<Byte>, data1: seq<Byte>, data2: seq<Byte>, data3: seq<Byte>, padding: seq<Byte>)
      requires Occupies(now) && |padding| == 3 && HEAD_SIZE + |data1 + data2 + data3| < INT_LIMIT
      requires |now| + HEAD_SIZE + |data1 + data2 + data3| <= mem.Length
      modifies this`write, this`count, mem
      ensures var data := data1 + data2 + data3; Occupies(now + Head(|data|, padding) + data)
      ensures count == old(count) + 1
    {
      var n := |data1 + data2 + data3|;
      var head := Head(n, padding);
      var p := AppendBytes(now, write, head);
      p := AppendBytes(now + head, p, data1);
      p := AppendBytes(now + head + data1, p, data2);
      p := AppendBytes(now + head + data1 + data2, p, data3);
      assert now + head + data1 + data2 + data3 == now + head + (data1 + data2 + data3);
      write := p;
      count := count + 1;
    }

    /** Occupied bytes that are the blocks of q. */
    lemma BlocksRepresented(bytes: seq<Byte>, q: seq<seq<Byte>>)
      requires Occupies(bytes) && Blocks(bytes, q) && count == |q| && SizesOk()
      ensures Represents(q)
    {
      BlocksLength(bytes, q);
    }

    /**
     * dlt_buffer_push3 for a message in up to three parts, on the bytes in use; padding are
     * the uninitialised bytes of the header. An empty buffer that grows takes its old memory
     * for bytes in use, whether or not it can grow far enough.
     */
    method PushBytes(ghost bytes: seq<Byte>, data1: seq<Byte>, data2: seq<Byte>, data3: seq<Byte>, padding: seq<Byte>)
      returns (ok: bool, ghost now: seq<Byte>)
      requires Consistent(bytes) && |padding| == 3 && HEAD_SIZE + |data1 + data2 + data3| < INT_LIMIT
      modifies this, mem
      ensures var needed := HEAD_SIZE + |data1 + data2 + data3|;
              var stale := bytes == [] && needed > old(mem.Length);
              && (ok <==> CanReach(old(mem.Length), (if stale then old(mem.Length) else |bytes|) + needed, stepSize, maxSize))
              && now == (if stale && old(CanGrow()) then Ring(old(mem[..]), old(read), old(mem.Length)) else bytes)
              && (stale && old(CanGrow()) ==> read == 0) && (read == 0 || read == old(read)) && (ok && stale ==> old(CanGrow()))
      ensures ok ==> var data := data1 + data2 + data3; Consistent(now + Head(|data|, padding) + data)
      ensures !ok ==> Consistent(now)
      ensures count == old(count) + (if ok then 1 else 0) && (mem == old(mem) || fresh(mem)) && old(mem.Length) <= mem.Length
      ensures |bytes| + HEAD_SIZE + |data1 + data2 + data3| <= old(mem.Length) ==> mem == old(mem) && read == old(read)
      ensures SameReach(old(mem.Length), mem.Length, stepSize, maxSize)
    {
      ok, now := MakeRoom(bytes, HEAD_SIZE + |data1 + data2 + data3|);
      if ok {
        Store(now, data1, data2, data3, padding);
      }
    }

    /**
     * The same on a queue of messages: on success the message is the newest one, on refusal
     * nothing changes, unless an empty buffer grows for the message.
     */
    method Push(ghost q: seq<seq<Byte>>, data1: seq<Byte>, data2: seq<Byte>, data3: seq<Byte>, padding: seq<Byte>)
      returns (ok: bool)
      requires Represents(q) && |padding| == 3 && HEAD_SIZE + |data1 + data2 + data3| < INT_LIMIT
      modifies this, mem
      ensures var needed := HEAD_SIZE + |data1 + data2 + data3|;
              var stale := q == [] && needed > old(mem.Length);
              ok <==> CanReach(old(mem.Length), (if stale then old(mem.Length) else TotalLength(q)) + needed, stepSize, maxSize)
      ensures ok ==> (Represents(q + [data1 + data2 + data3])
                      <==> q != [] || HEAD_SIZE + |data1 + data2 + data3| <= old(mem.Length))
      ensures !ok ==> (Represents(q) <==> q != [] || !old(CanGrow()))
      ensures q == [] && HEAD_SIZE + |data1 + data2 + data3| > old(mem.Length) && old(CanGrow()) ==>
        && count == (if ok then 1 else 0) && read == 0 && old(mem.Length) <= mem.Length
        && Ring(mem[..], 0, old(mem.Length)) == Ring(old(mem[..]), old(read), old(mem.Length))
        && (!ok ==> Consistent(Ring(old(mem[..]), old(read), old(mem.Length))))
      ensures mem == old(mem) || fresh(mem)
    {
      ghost var data := data1 + data2 + data3;
      ghost var held := Ring(mem[..], read, TotalLength(q));
      BlocksLength(held, q);
      ghost var now;
      ok, now := PushBytes(held, data1, data2, data3, padding);
      ghost var stale := q == [] && HEAD_SIZE + |data| > old(mem.Length) && old(CanGrow());
      if stale {
        StaleOccupied(now, data, padding, ok);
      } else if ok {
        HeadAnnounces(|data|, padding);
        TotalLengthAppend(q, data);
        BlocksAppend(held, q, Head(|data|, padding), data);
        BlocksRepresented(held + Head(|data|, padding) + data, q + [data]);
      } else {
        BlocksRepresented(held, q);
      }
    }

    /** Bytes in use in front of the first message hide it. */
    lemma StaleOccupied(now: seq<Byte>, data: seq<Byte>, padding: seq<Byte>, ok: bool)
      requires |padding| == 3 && HEAD_SIZE + |data| < INT_LIMIT && SizesOk() && read == 0 && now != []
      requires if ok then Occupies(now + Head(|data|, padding) + data) && count == 1 else Occupies(now) && count == 0
      ensures |now| <= mem.Length && Ring(mem[..], 0, |now|) == now
      ensures if ok then !Represents([data]) else !Represents([])
    {
      var block := Head(|data|, padding) + data;
      assert TotalLength([data]) == HEAD_SIZE + |data| by {
        TotalLengthAppend([], data);
        assert [] + [data] == [data];
      }
      if ok {
        assert now + Head(|data|, padding) + data == now + block;
        RingSplit(mem[..], 0, |now|, |block|);
      }
    }

    /** dlt_buffer_minimize_size: memory of the minimum size is left as it is. */
    method MinimizeSize()
      requires SizesOk()
      modifies this
      ensures mem.Length + BUFFER_HEAD_SIZE == minSize
      ensures old(mem.Length) + BUFFER_HEAD_SIZE == minSize ==>
        mem == old(mem) && read == old(read) && write == old(write) && count == old(count)
      ensures old(mem.Length) + BUFFER_HEAD_SIZE != minSize ==>
        fresh(mem) && Represents([]) && forall i :: 0 <= i < mem.Length ==> mem[i] == 0
    {
      if mem.Length + BUFFER_HEAD_SIZE == minSize {
        return;
      }
      mem := new Byte[minSize - BUFFER_HEAD_SIZE](_ => 0);
      read, write, count := 0, 0, 0;
    }

    /** dlt_buffer_reset */
    method Reset()
      requires SizesOk()
      modifies this`read, this`write, this`count, mem
      ensures Represents([]) && forall i :: 0 <= i < mem.Length ==> mem[i] == 0
    {
      read, write, count := 0, 0, 0;
      for i := 0 to mem.Length
        modifies mem
        invariant forall j :: 0 <= j < i ==> mem[j] == 0
      {
        mem[i] := 0;
      }
    }

    /** The bytes in use as dlt_buffer_get computes them. */
    function UsedSize(): int
      reads this
    {
      if write > read then write - read else mem.Length - read + write
    }

    /** The bytes in use as dlt_buffer_get sees them. */
    ghost function UsedBytes(): seq<Byte>
      requires read <= mem.Length && write <= mem.Length
      reads this, mem
    {
      Ring(mem[..], read, UsedSize())
    }

    /** The size of the oldest message as the checks of dlt_buffer_get leave it, if they pass. */
    ghost function FrontSize(): Option<nat>
      requires read <= mem.Length && write <= mem.Length
      reads this, mem
    {
      if count == 0 then None else FrontOf(UsedBytes())
    }

    lemma FrontHeader(head: seq<Byte>)
      requires read <= mem.Length && write <= mem.Length && count > 0 && UsedSize() >= HEAD_SIZE
      requires head == Ring(mem[..], read, HEAD_SIZE)
      ensures FrontSize() == if head[..4] != Magic || head[4] != STATUS || UsedSize() < HEAD_SIZE + SizeOf(head[8..12]) then None
                             else Some(SizeOf(head[8..12]))
    {
      var bytes := UsedBytes();
      assert head == bytes[..HEAD_SIZE];
      assert head[..4] == bytes[..4] && head[8..12] == bytes[8..12];
    }

    /** The checks of dlt_buffer_get; when one fails the buffer is reset. */
    method CheckFront() returns (size: Option<nat>, p: nat)
      requires read <= mem.Length && write <= mem.Length && SizesOk()
      modifies this`read, this`write, this`count, mem
      ensures size == old(FrontSize())
      ensures size.None? ==> Represents([])
      ensures size.Some? ==>
        && read == old(read) && write == old(write) && count == old(count) && mem[..] == old(mem[..])
        && HEAD_SIZE <= mem.Length && p == Advance(mem.Length, read, HEAD_SIZE)
    {
      p := 0;
      if count == 0 {
        if write != read {
          Reset();
        }
        return None, p;
      }
      var used := UsedSize();
      if used < HEAD_SIZE {
        Reset();
        return None, p;
      }
      var head;
      p, head := ReadBlock(read, HEAD_SIZE);
      FrontHeader(head);
      if head[..4] != Magic || head[4] != STATUS || used < HEAD_SIZE + SizeOf(head[8..12]) {
        Reset();
        return None, p;
      }
      return Some(SizeOf(head[8..12])), p;
    }

    /** Bytes in use are what dlt_buffer_get sees, unless there are none. */
    lemma UsedIsOccupied(bytes: seq<Byte>)
      requires Occupies(bytes) && bytes != []
      ensures UsedBytes() == bytes
    {
    }

    /** What lies behind the header of the front. */
    lemma FrontData(n: nat)
      requires read <= mem.Length && write <= mem.Length && HEAD_SIZE + n <= UsedSize()
      ensures Ring(mem[..], Advance(mem.Length, read, HEAD_SIZE), n) == UsedBytes()[HEAD_SIZE..HEAD_SIZE + n]
      ensures Advance(mem.Length, Advance(mem.Length, read, HEAD_SIZE), n) == Advance(mem.Length, read, HEAD_SIZE + n)
    {
      RingSplit(mem[..], read, HEAD_SIZE, n);
      assert UsedBytes()[..HEAD_SIZE + n] == Ring(mem[..], read, HEAD_SIZE + n);
      AdvanceTwice(mem.Length, read, HEAD_SIZE, n);
    }

    /** The front of a queue is its oldest message. */
    lemma FrontOfQueue(q: seq<seq<Byte>>)
      requires Represents(q) && q != []
      ensures FrontSize() == Some(|q[0]|) && UsedBytes()[HEAD_SIZE..HEAD_SIZE + |q[0]|] == q[0]
      ensures Fits(UsedBytes())
    {
      var bytes := Ring(mem[..], read, TotalLength(q));
      UsedIsOccupied(bytes);
    }

    /** Behind its front a queue is the rest of it. */
    lemma RestOfQueue(q: seq<seq<Byte>>, read': nat)
      requires Represents(q) && q != [] && read' == Advance(mem.Length, read, HEAD_SIZE + |q[0]|)
      ensures TotalLength(q[1..]) <= mem.Length && write == Advance(mem.Length, read', TotalLength(q[1..]))
      ensures Blocks(Ring(mem[..], read', TotalLength(q[1..])), q[1..])
    {
      FrontBlock(mem[..], read, q);
    }

    /** The caller's memory gets the whole message whatever its size, if it asks for any data. */
    predicate Copies(want: bool, maxSize: int) {
      want && maxSize != 0
    }

    /** Moves behind the front; memory is given back when no message is left. */
    method DropFront(p: nat)
      requires SizesOk() && p <= mem.Length && count > 0
      modifies this
      ensures SizesOk() && (mem == old(mem) || fresh(mem))
      ensures if old(count) == 1 && old(mem.Length) + BUFFER_HEAD_SIZE != minSize then Represents([])
              else mem == old(mem) && read == p && write == old(write) && count == old(count) - 1
    {
      read, count := p, count - 1;
      if count == 0 {
        MinimizeSize();
      }
    }

    /**
     * dlt_buffer_get on the bytes in use: pull (want and delete), copy (want) and remove
     * (delete). written bytes go to the caller's memory of maxSize bytes. A buffer whose front
     * is no message is reset.
     */
    method GetBytes(want: bool, maxSize: int, delete: bool) returns (rc: int, data: seq<Byte>, written: nat)
      requires read <= mem.Length && write <= mem.Length && SizesOk() && (count > 0 ==> Fits(UsedBytes()))
      modifies this, mem
      ensures var size := old(FrontSize());
        if size.None? then rc == -1 && data == [] && Represents([])
        else
          && rc == size.value && HEAD_SIZE + rc <= old(UsedSize())
          && data == (if Copies(want, maxSize) then old(UsedBytes())[HEAD_SIZE..HEAD_SIZE + rc] else [])
          && (if delete && old(count) == 1 && old(mem.Length) + BUFFER_HEAD_SIZE != minSize then Represents([])
              else
                && mem == old(mem) && mem[..] == old(mem[..]) && write == old(write)
                && read == (if delete then Advance(mem.Length, old(read), HEAD_SIZE + rc) else old(read))
                && count == (if delete then old(count) - 1 else old(count)))
      // The copy stays within the caller's memory exactly when the message fits into it.
      ensures written == |data|
      ensures rc >= 0 ==>
        (written <= (if maxSize > 0 then maxSize else 0) <==> !Copies(want, maxSize) || rc == 0 || rc <= maxSize)
      ensures SizesOk() && (mem == old(mem) || fresh(mem))
    {
      var size, p := CheckFront();
      data, written := [], 0;
      if size.None? {
        return -1, data, written;
      }
      FrontData(size.value);
      if Copies(want, maxSize) {
        p, data := ReadBlock(p, size.value);
        written := |data|;
      } else {
        p := if p + size.value <= mem.Length then p + size.value else p + size.value - mem.Length;
      }
      rc := size.value;
      if delete {
        DropFront(p);
      }
    }

    /** The same on a queue of messages. */
    method Get(ghost q: seq<seq<Byte>>, want: bool, maxSize: int, delete: bool)
      returns (rc: int, data: seq<Byte>, written: nat)
      requires Represents(q)
      modifies this, mem
      ensures rc == -1 <==> q == []
      ensures q != [] ==> rc == |q[0]| && data == (if Copies(want, maxSize) then q[0] else [])
      ensures Represents(if delete && q != [] then q[1..] else q)
      ensures written == |data|
      ensures rc >= 0 ==>
        (written <= (if maxSize > 0 then maxSize else 0) <==> !Copies(want, maxSize) || rc == 0 || rc <= maxSize)
      ensures mem == old(mem) || fresh(mem)
    {
      if q != [] {
        FrontOfQueue(q);
        RestOfQueue(q, Advance(mem.Length, read, HEAD_SIZE + |q[0]|));
      }
      rc, data, written := GetBytes(want, maxSize, delete);
    }
  }

  /** What an empty buffer of this memory takes for bytes in use when it grows for a block. */
  function Stale(mem: seq<Byte>, read: nat, bytes: seq<Byte>): seq<Byte>
    requires read <= |mem|
  {
    if bytes == [] then Ring(mem, read, |mem|) else bytes
  }

  /** The result of pulling from these bytes in use. */
  ghost predicate Pulled(used: seq<Byte>, rc: int, got: seq<Byte>) {
    var size := FrontOf(used);
    if size.None? then rc == -1 && got == [] else rc == size.value && got == used[HEAD_SIZE..HEAD_SIZE + rc]
  }

  /** The pull of the only message; memory that has grown is given back. */
  method PullOnly(b: DltBuffer, ghost used: seq<Byte>) returns (rc: int, got: seq<Byte>)
    requires b.SizesOk() && b.Occupies(used) && used != [] && b.count == 1 && Fits(used)
    modifies b, b.mem
    ensures Pulled(used, rc, got)
    ensures if FrontOf(used).None? || old(b.mem.Length) + BUFFER_HEAD_SIZE != b.minSize then b.Represents([])
            else b.mem == old(b.mem) && b.mem[..] == old(b.mem[..]) && b.write == old(b.write) && b.count == 0
                 && b.read == Advance(b.mem.Length, old(b.read), HEAD_SIZE + rc)
    ensures b.SizesOk() && (b.mem == old(b.mem) || fresh(b.mem))
  {
    b.UsedIsOccupied(used);
    var written;
    rc, got, written := b.GetBytes(true, INT_LIMIT - 1, true);
  }

  /**
   * A buffer without messages that counts bytes as in use, or is about to: whatever message it
   * accepts, the next pull returns nothing if the old bytes in front are no message, and else
   * the old message there once more. The buffer is empty then, and the message lost.
   */
  method BrokenBufferLosesMessage(b: DltBuffer, ghost bytes: seq<Byte>, data: seq<Byte>, padding: seq<Byte>)
    returns (ok: bool, rc: int, got: seq<Byte>)
    requires b.Consistent(bytes) && b.count == 0 && |padding| == 3 && HEAD_SIZE + |data| < INT_LIMIT
    requires bytes != [] || HEAD_SIZE + |data| > b.mem.Length
    requires Fits(Stale(b.mem[..], b.read, bytes) + (Head(|data|, padding) + data))
    modifies b, b.mem
    ensures ok <==> CanReach(old(b.mem.Length), |old(Stale(b.mem[..], b.read, bytes))| + HEAD_SIZE + |data|, b.stepSize, b.maxSize)
    ensures ok ==>
      Pulled(old(Stale(b.mem[..], b.read, bytes)) + (Head(|data|, padding) + data), rc, got) && b.Represents([])
  {
    rc, got := 0, [];
    assert data + [] + [] == data;
    ghost var now;
    ok, now := b.PushBytes(bytes, data, [], [], padding);
    if ok {
      assert now + Head(|data|, padding) + data == now + (Head(|data|, padding) + data);
      rc, got := PullOnly(b, now + (Head(|data|, padding) + data));
    }
  }

  /** Bytes that start with a zero are no message. */
  lemma ZeroedIsNoMessage(bytes: seq<Byte>)
    requires |bytes| > 0 && bytes[0] == 0
    ensures FrontOf(bytes) == None && Fits(bytes)
  {
    if |bytes| >= HEAD_SIZE { assert bytes[..4][0] == 0; }
  }

  /**
   * A first message that needs more than the minimum size is accepted and counted, but the
   * next pull finds zeroed memory, drops everything and returns nothing.
   */
  method FirstLargeMessageIsLost(minSize: nat, maxSize: nat, stepSize: nat, data: seq<Byte>)
    returns (b: DltBuffer, ok: bool, rc: int)
    requires BUFFER_HEAD_SIZE < minSize <= maxSize < INT_LIMIT && stepSize <= maxSize
    requires minSize < BUFFER_HEAD_SIZE + HEAD_SIZE + |data| && HEAD_SIZE + |data| < INT_LIMIT
    ensures ok <==> CanReach(minSize - BUFFER_HEAD_SIZE, minSize - BUFFER_HEAD_SIZE + HEAD_SIZE + |data|, stepSize, maxSize)
    ensures ok ==> rc == -1 && b.Represents([])
  {
    b := new DltBuffer(minSize, maxSize, stepSize);
    ghost var stale := Stale(b.mem[..], b.read, []);
    assert stale[0] == 0;
    ZeroedIsNoMessage(stale + (Head(|data|, [0, 0, 0]) + data));
    var got;
    ok, rc, got := BrokenBufferLosesMessage(b, [], data, [0, 0, 0]);
  }

  lemma BlockAnnounces(block: seq<Byte>, data: seq<Byte>, rest: seq<Byte>)
    requires HEAD_SIZE + |data| < INT_LIMIT && block == Head(|data|, [0, 0, 0]) + data
    ensures FrontOf(block + rest) == Some(|data|) && (block + rest)[HEAD_SIZE..HEAD_SIZE + |data|] == data
    ensures Fits(block + rest) && block + [] == block
  {
    var head, all := Head(|data|, [0, 0, 0]), block + rest;
    HeadAnnounces(|data|, [0, 0, 0]);
    assert all[..HEAD_SIZE] == head;
    assert all[..4] == head[..4] && all[4] == head[4] && all[8..12] == head[8..12];
  }

  /** A message that fills the memory of an empty buffer is pushed and pulled; nothing clears it. */
  method FillAndPull(b: DltBuffer, data: seq<Byte>) returns (rc: int, got: seq<Byte>)
    requires b.Represents([]) && b.read == 0 && b.mem.Length + BUFFER_HEAD_SIZE == b.minSize
    requires b.mem.Length == HEAD_SIZE + |data|
    modifies b, b.mem
    ensures rc == |data| && got == data && b.Consistent([]) && b.count == 0
    ensures b.mem == old(b.mem) && b.mem[..] == Head(|data|, [0, 0, 0]) + data && b.read == b.mem.Length
  {
    var block := Head(|data|, [0, 0, 0]) + data;
    assert data + [] + [] == data && [] + Head(|data|, [0, 0, 0]) + data == block;
    var ok;
    ghost var now;
    ok, now := b.PushBytes([], data, [], [], [0, 0, 0]);
    BlockAnnounces(block, data, []);
    assert b.mem[..] == Ring(b.mem[..], 0, |block|) == block;
    rc, got := PullOnly(b, block);
  }

  /**
   * Then a larger message is accepted, and the pull that should return it returns the first
   * one again.
   */
  method OldMessageComesBack(minSize: nat, maxSize: nat, stepSize: nat, first: seq<Byte>, large: seq<Byte>)
    returns (b: DltBuffer, rc1: int, got1: seq<Byte>, ok: bool, rc2: int, got2: seq<Byte>)
    requires BUFFER_HEAD_SIZE < minSize <= maxSize < INT_LIMIT && stepSize <= maxSize
    requires minSize == BUFFER_HEAD_SIZE + HEAD_SIZE + |first| && |first| < |large| && HEAD_SIZE + |large| < INT_LIMIT
    ensures rc1 == |first| && got1 == first
    ensures ok <==> CanReach(HEAD_SIZE + |first|, HEAD_SIZE + |first| + HEAD_SIZE + |large|, stepSize, maxSize)
    ensures ok ==> rc2 == |first| && got2 == first && b.Represents([])
  {
    b := new DltBuffer(minSize, maxSize, stepSize);
    rc1, got1 := FillAndPull(b, first);
    ghost var block := Head(|first|, [0, 0, 0]) + first;
    assert Stale(b.mem[..], b.read, []) == block;
    BlockAnnounces(block, first, Head(|large|, [0, 0, 0]) + large);
    ok, rc2, got2 := BrokenBufferLosesMessage(b, [], large, [0, 0, 0]);
  }

  /**
   * A first message that is refused after the memory has grown breaks the buffer: the next
   * message for which there is room is accepted and counted, and lost.
   */
  method RefusedMessageLosesNext(minSize: nat, maxSize: nat, stepSize: nat, large: seq<Byte>, small: seq<Byte>)
    returns (b: DltBuffer, ok1: bool, ok2: bool, rc: int)
    requires BUFFER_HEAD_SIZE < minSize <= maxSize < INT_LIMIT && 0 < stepSize && minSize + stepSize <= maxSize
    requires HEAD_SIZE + |large| < INT_LIMIT && HEAD_SIZE + |small| < INT_LIMIT
    requires maxSize < BUFFER_HEAD_SIZE + HEAD_SIZE + |large|
    requires CanReach(minSize - BUFFER_HEAD_SIZE, minSize - BUFFER_HEAD_SIZE + HEAD_SIZE + |small|, stepSize, maxSize)
    ensures !ok1 && ok2 && rc == -1 && b.Represents([])
  {
    b := new DltBuffer(minSize, maxSize, stepSize);
    ghost var size := b.mem.Length;
    assert large + [] + [] == large;
    assert Ring(b.mem[..], 0, size)[0] == 0;
    ReachWithin(size, size + HEAD_SIZE + |large|, stepSize, maxSize);
    ghost var now;
    ok1, now := b.PushBytes([], large, [], [], [0, 0, 0]);
    assert CanReach(b.mem.Length, size + HEAD_SIZE + |small|, stepSize, maxSize);
    ZeroedIsNoMessage(now + (Head(|small|, [0, 0, 0]) + small));
    var got;
    ok2, rc, got := BrokenBufferLosesMessage(b, now, small, [0, 0, 0]);
  }

  /** A buffer of 29 bytes that may grow by 12 to 60, messages of 5 and of 10 bytes. */
  lemma OldMessageExample()
    ensures 29 == BUFFER_HEAD_SIZE + HEAD_SIZE + 5 && CanReach(HEAD_SIZE + 5, HEAD_SIZE + 5 + HEAD_SIZE + 10, 12, 60)
  {
    assert CanReach(29, 39, 12, 60);
  }

  /** A buffer of 36 bytes that may grow by 12 to 60, messages of 100 and of 5 bytes. */
  lemma RefusedMessageExample()
    ensures CanReach(36 - BUFFER_HEAD_SIZE, 36 - BUFFER_HEAD_SIZE + HEAD_SIZE + 5, 12, 60)
    ensures !CanReach(36 - BUFFER_HEAD_SIZE, 36 - BUFFER_HEAD_SIZE + HEAD_SIZE + 100, 12, 60)
  {
    assert CanReach(36, 41, 12, 60);
    assert !CanReach(36, 136, 12, 60);
  }

  /** Growth never reaches more than the maximum provides. */
  lemma {:induction false} ReachWithin(size: nat, goal: nat, step: nat, max: nat)
    requires size + BUFFER_HEAD_SIZE <= max
    ensures CanReach(size, goal, step, max) ==> goal + BUFFER_HEAD_SIZE <= max
    decreases max - size
  {
    if size < goal && step > 0 && size + BUFFER_HEAD_SIZE + step <= max {
      ReachWithin(size + step, goal, step, max);
    }
  }
}
