/**
 * The byte ring under DltBuffer: positions run from 0 to size inclusive, a block may wrap
 * around the end of the memory, and messages are stored behind a 12-byte header.
 */
module RingMemory {
  import opened Order

  // ------------------------------------------------------------------- positions

  /** n bytes from position p on, continued at the front behind the end of the memory. */
  function Ring(mem: seq<Byte>, p: nat, n: nat): (s: seq<Byte>)
    requires p <= |mem| && n <= |mem|
    ensures |s| == n
  {
    (mem + mem)[p..p + n]
  }

  /** The position behind n bytes from p; the end of the memory is not folded to 0. */
  function Advance(size: nat, p: nat, n: nat): (q: nat)
    requires p <= size && n <= size
    ensures q <= size
  {
    if p + n <= size then p + n else p + n - size
  }

  function Slot(size: nat, p: nat, i: nat): (k: nat)
    requires p <= size && i < size
    ensures k < size
  {
    if p + i < size then p + i else p + i - size
  }

  lemma RingAt(mem: seq<Byte>, p: nat, n: nat, i: nat)
    requires p <= |mem| && i < n <= |mem|
    ensures Ring(mem, p, n)[i] == mem[Slot(|mem|, p, i)]
  {
  }

  /** Advancing in two steps is advancing once. */
  lemma AdvanceTwice(size: nat, p: nat, a: nat, b: nat)
    requires p <= size && a + b <= size
    ensures Advance(size, Advance(size, p, a), b) == Advance(size, p, a + b)
  {
  }

  lemma RingSplit(mem: seq<Byte>, p: nat, a: nat, b: nat)
    requires p <= |mem| && a + b <= |mem|
    ensures Ring(mem, p, a + b) == Ring(mem, p, a) + Ring(mem, Advance(|mem|, p, a), b)
  {
    var n, mm := |mem|, mem + mem;
    assert mm[p..p + (a + b)] == mm[p..p + a] + mm[p + a..p + a + b];
    if p + a > n {
      RingShift(mem, p + a - n, b);
    }
  }

  lemma RingShift(mem: seq<Byte>, q: nat, b: nat)
    requires q + b <= |mem|
    ensures (mem + mem)[q..q + b] == (mem + mem)[q + |mem|..q + |mem| + b] == mem[q..q + b]
  {
  }

  // --------------------------------------------------------------------- writing

  /** How far slot k lies behind position p. */
  function Distance(size: nat, p: nat, k: nat): (d: nat)
    requires p <= size && k < size
    ensures d < size
  {
    if k >= p then k - p else k + size - p
  }

  /** new is old with data written at position p. */
  ghost predicate Written(old_: seq<Byte>, new_: seq<Byte>, p: nat, data: seq<Byte>) {
    && |new_| == |old_| && p <= |old_| && |data| <= |old_|
    && forall k :: 0 <= k < |old_| ==>
         new_[k] == var d := Distance(|old_|, p, k); if d < |data| then data[d] else old_[k]
  }

  /** Bytes written behind a stretch of the ring extend it and leave it alone. */
  lemma WriteExtends(old_: seq<Byte>, new_: seq<Byte>, r: nat, n: nat, data: seq<Byte>)
    requires r <= |old_| && n + |data| <= |old_|
    requires Written(old_, new_, Advance(|old_|, r, n), data)
    ensures Ring(new_, r, n + |data|) == Ring(old_, r, n) + data
  {
    var size, w := |old_|, Advance(|old_|, r, n);
    forall i | 0 <= i < n + |data| ensures Ring(new_, r, n + |data|)[i] == (Ring(old_, r, n) + data)[i] {
      RingAt(new_, r, n + |data|, i);
      var k := Slot(size, r, i);
      if i < n {
        RingAt(old_, r, n, i);
        assert Distance(size, w, k) >= |data|;
      } else {
        assert Distance(size, w, k) == i - n;
      }
    }
  }

  // ---------------------------------------------------------------------- blocks

  const HEAD_SIZE := 12

  const Magic: seq<Byte> := [83, 72, 77, 0]

  const STATUS: Byte := 2

  /** A 32-bit size, least significant byte first. */
  function SizeBytes(n: nat): (b: seq<Byte>)
    requires n < 0x1_0000_0000
    ensures |b| == 4
  {
    [n % 256, n / 256 % 256, n / 65536 % 256, n / 16777216]
  }

  function SizeOf(b: seq<Byte>): nat
    requires |b| == 4
  {
    (b[0] as int) + 256 * (b[1] as int) + 65536 * (b[2] as int) + 16777216 * (b[3] as int)
  }

  lemma SizeRoundTrip(n: nat)
    requires n < 0x1_0000_0000
    ensures SizeOf(SizeBytes(n)) == n
  {
  }

  /** The header of a message; its three padding bytes are whatever the stack held. */
  function Head(n: nat, padding: seq<Byte>): (h: seq<Byte>)
    requires n < 0x1_0000_0000 && |padding| == 3
    ensures |h| == HEAD_SIZE
  {
    Magic + [STATUS] + padding + SizeBytes(n)
  }

  /** A header that announces a message of n bytes. */
  ghost predicate Announces(h: seq<Byte>, n: nat) {
    |h| == HEAD_SIZE && h[..4] == Magic && h[4] == STATUS && SizeOf(h[8..12]) == n
  }

  lemma HeadAnnounces(n: nat, padding: seq<Byte>)
    requires n < 0x1_0000_0000 && |padding| == 3
    ensures Announces(Head(n, padding), n)
  {
    SizeRoundTrip(n);
    assert Head(n, padding)[8..12] == SizeBytes(n);
  }

  /** The bytes are the messages of q, one block after the other. */
  ghost predicate Blocks(bytes: seq<Byte>, q: seq<seq<Byte>>)
    decreases |q|
  {
    if |q| == 0 then bytes == []
    else
      && |bytes| >= HEAD_SIZE + |q[0]|
      && Announces(bytes[..HEAD_SIZE], |q[0]|)
      && bytes[HEAD_SIZE..HEAD_SIZE + |q[0]|] == q[0]
      && Blocks(bytes[HEAD_SIZE + |q[0]|..], q[1..])
  }

  function TotalLength(q: seq<seq<Byte>>): nat {
    if |q| == 0 then 0 else HEAD_SIZE + |q[0]| + TotalLength(q[1..])
  }

  lemma {:induction false} BlocksLength(bytes: seq<Byte>, q: seq<seq<Byte>>)
    requires Blocks(bytes, q)
    ensures |bytes| == TotalLength(q)
    decreases |q|
  {
    if |q| > 0 { BlocksLength(bytes[HEAD_SIZE + |q[0]|..], q[1..]); }
  }

  lemma {:induction false} TotalLengthAppend(q: seq<seq<Byte>>, m: seq<Byte>)
    ensures TotalLength(q + [m]) == TotalLength(q) + HEAD_SIZE + |m|
    decreases |q|
  {
    if |q| == 0 {
      assert q + [m] == [m] && [m][1..] == [];
    } else {
      assert (q + [m])[1..] == q[1..] + [m];
      TotalLengthAppend(q[1..], m);
    }
  }

  lemma DropOfConcat(bytes: seq<Byte>, h: seq<Byte>, m: seq<Byte>, n: nat)
    requires n <= |bytes|
    ensures (bytes + h + m)[n..] == bytes[n..] + h + m
  {
  }

  /** A block behind the blocks of q. */
  lemma {:induction false} BlocksAppend(bytes: seq<Byte>, q: seq<seq<Byte>>, h: seq<Byte>, m: seq<Byte>)
    requires Blocks(bytes, q) && Announces(h, |m|)
    ensures Blocks(bytes + h + m, q + [m])
    decreases |q|
  {
    var all := bytes + h + m;
    if |q| == 0 {
      assert all == h + m && q + [m] == [m] && [m][1..] == [];
      assert all[..HEAD_SIZE] == h && all[HEAD_SIZE..HEAD_SIZE + |m|] == m;
      assert all[HEAD_SIZE + |m|..] == [];
    } else {
      var n := HEAD_SIZE + |q[0]|;
      BlocksAppend(bytes[n..], q[1..], h, m);
      DropOfConcat(bytes, h, m, n);
      assert (q + [m])[1..] == q[1..] + [m];
      assert all[..HEAD_SIZE] == bytes[..HEAD_SIZE] && all[HEAD_SIZE..n] == bytes[HEAD_SIZE..n];
    }
  }

  /** The oldest message of a non-empty queue in the ring, and the ring behind it. */
  lemma FrontBlock(mem: seq<Byte>, r: nat, q: seq<seq<Byte>>)
    requires r <= |mem| && |q| > 0 && TotalLength(q) <= |mem|
    requires Blocks(Ring(mem, r, TotalLength(q)), q)
    ensures Announces(Ring(mem, r, HEAD_SIZE), |q[0]|)
    ensures Ring(mem, Advance(|mem|, r, HEAD_SIZE), |q[0]|) == q[0]
    ensures var n := HEAD_SIZE + |q[0]|;
            && Advance(|mem|, Advance(|mem|, r, HEAD_SIZE), |q[0]|) == Advance(|mem|, r, n)
            && Blocks(Ring(mem, Advance(|mem|, r, n), TotalLength(q[1..])), q[1..])
            && Advance(|mem|, Advance(|mem|, r, n), TotalLength(q[1..])) == Advance(|mem|, r, TotalLength(q))
  {
    var n, rest := HEAD_SIZE + |q[0]|, TotalLength(q[1..]);
    var bytes := Ring(mem, r, n + rest);
    RingSplit(mem, r, n, rest);
    assert Ring(mem, r, n) == bytes[..n] && Ring(mem, Advance(|mem|, r, n), rest) == bytes[n..];
    RingSplit(mem, r, HEAD_SIZE, |q[0]|);
    assert Ring(mem, r, HEAD_SIZE) == bytes[..n][..HEAD_SIZE] == bytes[..HEAD_SIZE];
    assert Ring(mem, Advance(|mem|, r, HEAD_SIZE), |q[0]|) == bytes[..n][HEAD_SIZE..] == bytes[HEAD_SIZE..n];
    AdvanceTwice(|mem|, r, HEAD_SIZE, |q[0]|);
    AdvanceTwice(|mem|, r, n, rest);
  }

  /** The bytes determine the messages. */
  lemma {:induction false} BlocksUnique(bytes: seq<Byte>, q: seq<seq<Byte>>, q': seq<seq<Byte>>)
    requires Blocks(bytes, q) && Blocks(bytes, q') && |q| == |q'|
    ensures q == q'
    decreases |q|
  {
    if |q| > 0 {
      assert |q[0]| == |q'[0]|;
      BlocksUnique(bytes[HEAD_SIZE + |q[0]|..], q[1..], q'[1..]);
      assert q == [q[0]] + q[1..] && q' == [q'[0]] + q'[1..];
    }
  }
}
