/**
 * The core dump streamer: the dump is read once, front to back, and whatever is read or
 * skipped is copied to a compressed file on the way. Offsets are 32-bit.
 */
module Streamer {
  import opened Order
  import Entities

  const CHUNK := 1024 * 128
  const WORD := 0x1_0000_0000
  const HALF := 0x8000_0000

  /** An unsigned int. */
  type Word = x: int | 0 <= x < WORD

  /** The state of a streamer: the bytes in front of pos were taken from the input. */
  datatype Stream = Stream(input: seq<Byte>, pos: nat, eof: bool, offset: Word, saving: bool, sink: seq<Byte>)

  ghost predicate Valid(s: Stream) {
    s.pos <= |s.input| && (s.eof ==> s.pos == |s.input|)
  }

  datatype Outcome = Outcome(ok: bool, state: Stream)

  // ----------------------------------------------------------------- specification

  function Upto(s: Stream, n: nat): nat {
    if s.pos + n <= |s.input| then s.pos + n else |s.input|
  }

  /** fread of n bytes: the end of file shows only in a read that goes beyond it. */
  ghost function Taken(s: Stream, n: nat): Stream {
    s.(pos := Upto(s, n), eof := s.eof || s.pos + n > |s.input|)
  }

  ghost function Saved(s: Stream, bytes: seq<Byte>): Stream {
    if s.saving then s.(sink := s.sink + bytes) else s
  }

  /** n bytes taken and saved. */
  ghost function Passed(s: Stream, n: nat): Stream
    requires s.pos + n <= |s.input|
  {
    Saved(Taken(s, n), s.input[s.pos..s.pos + n])
  }

  function Plus(offset: Word, n: Word): Word {
    (offset + n) % WORD
  }

  /** The conversion to int. */
  function AsInt(n: Word): int {
    if n < HALF then n else n - WORD
  }

  /** The longest multiple of the chunk size within n bytes, of those still there. */
  ghost function WholeChunks(remaining: nat): nat {
    if remaining < CHUNK then 0 else CHUNK + WholeChunks(remaining - CHUNK)
  }

  lemma {:induction false} WholeChunksWithin(remaining: nat)
    ensures WholeChunks(remaining) <= remaining
  {
    if remaining >= CHUNK {
      WholeChunksWithin(remaining - CHUNK);
    }
  }

  ghost function ReadSpec(s: Stream, size: Word): Outcome {
    if s.pos + size <= |s.input| then Outcome(true, Passed(s, size).(offset := Plus(s.offset, size)))
    else Outcome(false, Taken(s, size))
  }

  /** If the bytes are not all there, the rest is taken but only whole chunks of it are saved. */
  ghost function SkipSpec(s: Stream, n: nat): Outcome
    requires Valid(s)
  {
    if s.pos + n <= |s.input| then Outcome(true, Passed(s, n))
    else
      var rest := |s.input| - s.pos;
      WholeChunksWithin(rest);
      Outcome(false, Passed(s, WholeChunks(rest)).(pos := |s.input|, eof := true))
  }

  /** A move by less than 2^31 passes over the bytes; one by 2^31 or more takes nothing. */
  ghost function MoveSpec(s: Stream, n: Word): Outcome
    requires Valid(s)
  {
    var r := if n < HALF then SkipSpec(s, n) else Outcome(true, s);
    if r.ok then Outcome(true, r.state.(offset := Plus(s.offset, n))) else r
  }

  ghost function MoveToSpec(s: Stream, target: Word): Outcome
    requires Valid(s)
  {
    MoveSpec(s, (target - s.offset) % WORD)
  }

  ghost function FinishSpec(s: Stream): Stream
    requires Valid(s)
  {
    if s.eof then s
    else
      var rest := |s.input| - s.pos;
      Passed(s, rest).(eof := true, offset := (s.offset + rest) % WORD)
  }

  lemma OffsetOfSum(a: nat, n: nat)
    ensures (a % WORD + n) % WORD == (a + n) % WORD
  {
    var q, r := (a % WORD + n) / WORD, (a % WORD + n) % WORD;
    assert a + n == (a / WORD + q) * WORD + r;
  }

  lemma OffsetChanges(offset: Word, n: Word)
    requires n > 0
    ensures Plus(offset, n) != offset
  {
  }

  // --------------------------------------------------------------------- the class

  class FileStreamer {
    const input: seq<Byte>
    const saving: bool
    var pos: nat
    var eof: bool
    var offset: Word
    var sink: seq<Byte>

    ghost function State(): Stream
      reads this
    {
      Stream(input, pos, eof, offset, saving, sink)
    }

    constructor (input: seq<Byte>, saving: bool)
      ensures State() == Stream(input, 0, false, 0, saving, []) && Valid(State())
    {
      this.input, this.saving := input, saving;
      pos, eof, offset, sink := 0, false, 0, [];
    }

    method Fread(n: nat) returns (bytes: seq<Byte>)
      requires Valid(State())
      modifies this`pos, this`eof
      ensures Valid(State()) && State() == Taken(old(State()), n)
      ensures bytes == input[old(pos)..pos]
    {
      var upto := if pos + n <= |input| then pos + n else |input|;
      bytes := input[pos..upto];
      eof := eof || pos + n > |input|;
      pos := upto;
    }

    method GzWrite(bytes: seq<Byte>)
      modifies this`sink
      ensures State() == Saved(old(State()), bytes)
    {
      if saving {
        sink := sink + bytes;
      }
    }

    /** stream_read */
    method Read(size: Word) returns (ok: bool, bytes: seq<Byte>)
      requires Valid(State())
      modifies this
      ensures Valid(State()) && Outcome(ok, State()) == ReadSpec(old(State()), size)
      ensures bytes == input[old(pos)..pos]
    {
      bytes := Fread(size);
      if |bytes| != size {
        return false, bytes;
      }
      offset := Plus(offset, size);
      GzWrite(bytes);
      return true, bytes;
    }

    /** The loop of stream_move_ahead: passes over the bytes chunk by chunk. */
    method Skip(n: nat) returns (ok: bool)
      requires Valid(State())
      modifies this`pos, this`eof, this`sink
      ensures Valid(State()) && Outcome(ok, State()) == SkipSpec(old(State()), n)
    {
      ghost var start := State();
      var left: int := n;
      while left > 0
        invariant Valid(State()) && Skipping(start, State(), n, left)
      {
        var chunk := if left > CHUNK then CHUNK else left;
        ghost var before := State();
        var bytes := Fread(chunk);
        if |bytes| != chunk {
          SkipStops(start, before, n, left, chunk);
          return false;
        }
        GzWrite(bytes);
        SkipContinues(start, before, State(), n, left, chunk);
        left := left - chunk;
      }
      return true;
    }

    /** stream_move_ahead */
    method MoveAhead(n: Word) returns (ok: bool)
      requires Valid(State())
      modifies this
      ensures Valid(State()) && Outcome(ok, State()) == MoveSpec(old(State()), n)
    {
      var bytesToRead := AsInt(n);
      if bytesToRead > 0 {
        ok := Skip(bytesToRead);
        if !ok {
          return;
        }
      }
      offset := Plus(offset, n);
      return true;
    }

    /** stream_move_to_offest */
    method MoveToOffset(target: Word) returns (ok: bool)
      requires Valid(State())
      modifies this
      ensures Valid(State()) && Outcome(ok, State()) == MoveToSpec(old(State()), target)
    {
      ok := MoveAhead((target - offset) % WORD);
    }

    /** stream_finish */
    method Finish()
      requires Valid(State())
      modifies this
      ensures Valid(State()) && State() == FinishSpec(old(State()))
    {
      ghost var start := State();
      while !eof
        invariant Valid(State()) && start.input == input
        invariant FinishSpec(State()) == FinishSpec(start)
        decreases !eof, |input| - pos
      {
        ghost var before := State();
        var bytes := Fread(CHUNK);
        GzWrite(bytes);
        offset := (offset + |bytes|) % WORD;
        FinishContinues(before, State(), |bytes|);
      }
    }
  }

  /** Whole chunks are passed over until the last one. */
  ghost predicate Skipping(start: Stream, s: Stream, n: nat, left: int) {
    && 0 <= left <= n && start.pos + (n - left) <= |start.input|
    && s == Passed(start, n - left)
    && (left > 0 ==> WholeChunks(n - left) == n - left)
  }

  lemma {:induction false} WholeChunksFrom(k: nat, remaining: nat)
    requires WholeChunks(k) == k && k <= remaining < k + CHUNK
    ensures WholeChunks(remaining) == k
    decreases k
  {
    if k > 0 {
      WholeChunksFrom(k - CHUNK, remaining - CHUNK);
    }
  }

  lemma SkipStops(start: Stream, s: Stream, n: nat, left: int, chunk: nat)
    requires Valid(start) && Valid(s) && left > 0 && Skipping(start, s, n, left)
    requires chunk == (if left > CHUNK then CHUNK else left) && s.pos + chunk > |s.input|
    ensures SkipSpec(start, n) == Outcome(false, Taken(s, chunk))
  {
    WholeChunksFrom(n - left, |start.input| - start.pos);
  }

  lemma PassedTwice(s: Stream, a: nat, b: nat)
    requires Valid(s) && s.pos + a + b <= |s.input|
    ensures Passed(Passed(s, a), b) == Passed(s, a + b)
  {
    var i := s.input;
    assert i[s.pos..s.pos + a] + i[s.pos + a..s.pos + a + b] == i[s.pos..s.pos + a + b];
    assert s.sink + i[s.pos..s.pos + a] + i[s.pos + a..s.pos + a + b] == s.sink + i[s.pos..s.pos + a + b];
  }

  lemma SkipContinues(start: Stream, s: Stream, t: Stream, n: nat, left: int, chunk: nat)
    requires Valid(start) && Valid(s) && left > 0 && Skipping(start, s, n, left)
    requires chunk == (if left > CHUNK then CHUNK else left) && s.pos + chunk <= |s.input|
    requires t == Passed(s, chunk)
    ensures Skipping(start, t, n, left - chunk)
  {
    PassedTwice(start, n - left, chunk);
  }

  lemma FinishContinues(s: Stream, t: Stream, n: nat)
    requires Valid(s) && !s.eof && n == Upto(s, CHUNK) - s.pos
    requires t == Passed(s, n).(eof := s.pos + CHUNK > |s.input|, offset := (s.offset + n) % WORD)
    ensures Valid(t) && FinishSpec(t) == FinishSpec(s)
  {
    var rest := |s.input| - s.pos;
    PassedTwice(s, n, rest - n);
    OffsetOfSum(s.offset + n, rest - n);
    assert s.input[|s.input|..] == [];
  }

  // -------------------------------------------------------------------------- runs

  datatype Op = Read(size: Word) | MoveAhead(n: Word) | MoveTo(target: Word)

  ghost function Apply(s: Stream, op: Op): Outcome
    requires Valid(s)
    ensures Valid(Apply(s, op).state)
  {
    match op
    case Read(size) => ReadSpec(s, size)
    case MoveAhead(n) => MoveSpec(s, n)
    case MoveTo(target) => MoveToSpec(s, target)
  }

  /** Forward and by less than 2^31. */
  ghost predicate Forward(s: Stream, op: Op) {
    match op
    case Read(_) => true
    case MoveAhead(n) => n < HALF
    case MoveTo(target) => (target - s.offset) % WORD < HALF
  }

  /** The sink holds exactly the consumed input, the offset is its length modulo 2^32. */
  ghost predicate InStep(s: Stream) {
    && Valid(s)
    && (s.saving ==> s.sink == s.input[..s.pos])
    && s.offset == s.pos % WORD
  }

  lemma PassedInStep(s: Stream, n: Word)
    requires InStep(s) && s.pos + n <= |s.input|
    ensures InStep(Passed(s, n).(offset := Plus(s.offset, n)))
  {
    assert s.input[..s.pos] + s.input[s.pos..s.pos + n] == s.input[..s.pos + n];
    OffsetOfSum(s.pos, n);
  }

  lemma MoveInStepIff(s: Stream, n: Word)
    requires InStep(s) && MoveSpec(s, n).ok
    ensures InStep(MoveSpec(s, n).state) <==> n < HALF
  {
    if n < HALF {
      PassedInStep(s, n);
    } else {
      OffsetChanges(s.offset, n);
    }
  }

  /** A successful operation keeps this if and only if it goes forward. */
  lemma InStepIff(s: Stream, op: Op)
    requires InStep(s) && Apply(s, op).ok
    ensures InStep(Apply(s, op).state) <==> Forward(s, op)
  {
    match op
    case Read(size) => PassedInStep(s, size);
    case MoveAhead(n) => MoveInStepIff(s, n);
    case MoveTo(target) => MoveInStepIff(s, (target - s.offset) % WORD);
  }

  /** The state after the operations; None when one of them fails or does not go forward. */
  ghost function RunForward(s: Stream, ops: seq<Op>): (r: Entities.Option<Stream>)
    requires Valid(s)
    ensures r.Some? ==> Valid(r.value)
  {
    if |ops| == 0 then Entities.Some(s)
    else
      var before, op := RunForward(s, ops[..|ops| - 1]), ops[|ops| - 1];
      if before.None? || !Forward(before.value, op) || !Apply(before.value, op).ok then Entities.None
      else Entities.Some(Apply(before.value, op).state)
  }

  ghost function Begin(input: seq<Byte>, saving: bool): Stream {
    Stream(input, 0, false, 0, saving, [])
  }

  /** In every run of successful forward operations the copy equals what was consumed. */
  lemma {:induction false} RunInStep(input: seq<Byte>, saving: bool, ops: seq<Op>)
    requires RunForward(Begin(input, saving), ops).Some?
    ensures var s := RunForward(Begin(input, saving), ops).value;
            InStep(s) && s.input == input && s.saving == saving
  {
    if |ops| > 0 {
      var front, last := ops[..|ops| - 1], ops[|ops| - 1];
      RunInStep(input, saving, front);
      InStepIff(RunForward(Begin(input, saving), front).value, last);
    }
  }

  lemma FinishInStep(s: Stream)
    requires InStep(s) && s.saving
    ensures FinishSpec(s).sink == s.input && FinishSpec(s).pos == |s.input| && FinishSpec(s).offset == |s.input| % WORD
  {
    assert s.input[..s.pos] + s.input[s.pos..] == s.input && s.input[..|s.input|] == s.input;
    OffsetOfSum(s.pos, |s.input| - s.pos);
  }

  /** stream_finish then makes the copy the whole input. */
  lemma FinishCopiesAll(input: seq<Byte>, ops: seq<Op>)
    requires RunForward(Begin(input, true), ops).Some?
    ensures var s := FinishSpec(RunForward(Begin(input, true), ops).value);
            s.sink == input && s.pos == |input| && s.offset == |input| % WORD
  {
    RunInStep(input, true, ops);
    FinishInStep(RunForward(Begin(input, true), ops).value);
  }

  /** In step, moving to an offset ahead within the input reaches exactly that position. */
  lemma MoveReachesTarget(s: Stream, target: Word)
    requires InStep(s) && |s.input| < WORD && s.pos <= target <= |s.input| && target - s.pos < HALF
    ensures var r := Apply(s, MoveTo(target)); r.ok && r.state.pos == target && r.state.offset == target
  {
  }

  /** Moving back by up to 2^31 succeeds and sets the offset, but the input stays where it is. */
  lemma MoveBackOnlySetsOffset(s: Stream, target: Word)
    requires InStep(s) && target < s.offset <= target + HALF
    ensures var r := Apply(s, MoveTo(target));
            r.ok && r.state.offset == target && r.state.pos == s.pos && !InStep(r.state)
  {
    InStepIff(s, MoveTo(target));
  }
}
