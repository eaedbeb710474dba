/**
 * dlt-convert for DLT version 2 files: one scan builds an index of offsets, which then
 * serves random access, cutting and joining.
 */
module ConvertV2 {
  import opened Order
  import opened Entities
  import opened RecordsV2

  /** The index grows in blocks of this many entries. */
  const INDEX_BLOCK := 1000

  datatype ReadResult = Accepted | FilteredOut | Stopped

  class ConvertFileV2 {
    const accepts: Test
    const filter: Option<Test>

    /** The open file and the position in it. */
    var file: seq<Byte>
    var pos: nat

    var index: array?<nat>
    var counter: nat
    var counterTotal: nat

    /** The bytes of the message read last are the first rawSize bytes of the buffer. */
    var rawBuffer: array<Byte>
    var rawSize: nat

    ghost predicate Valid()
      reads this
    {
      && (if index == null then counter == 0 else counter <= index.Length && index.Length % INDEX_BLOCK == 0)
    }

    ghost function Offsets(): seq<nat>
      requires Valid()
      reads this, index
    {
      if index == null then [] else index[..counter]
    }

    ghost predicate RawIs(m: seq<Byte>)
      reads this, rawBuffer
    {
      rawSize == |m| && |m| <= rawBuffer.Length && rawBuffer[..|m|] == m
    }

    function Passes(): Test {
      if filter.Some? then filter.value else Everything
    }

    constructor (accepts: Test, filter: Option<Test>)
      ensures this.accepts == accepts && this.filter == filter
      ensures Valid() && counter == 0 && file == [] && fresh(rawBuffer) && index == null
    {
      this.accepts, this.filter := accepts, filter;
      file, pos, index, counter, counterTotal := [], 0, null, 0, 0;
      rawBuffer, rawSize := new Byte[0], 0;
    }

    /** dlt_cvt_file_v2_open: the index memory of a previous file is kept. */
    method Open(contents: seq<Byte>)
      requires Valid()
      modifies this`file, this`pos, this`counter, this`counterTotal
      ensures Valid() && file == contents && pos == 0 && counter == 0 && counterTotal == 0
    {
      counter, counterTotal := 0, 0;
      file, pos := contents, 0;
    }

    /** fread: what is left of the file, at most n bytes. */
    method Fread(n: nat) returns (bytes: seq<Byte>)
      modifies this`pos
      ensures bytes == if old(pos) + n <= |file| then file[old(pos)..old(pos) + n]
                       else if old(pos) <= |file| then file[old(pos)..] else []
      ensures pos == old(pos) + |bytes|
    {
      if pos + n <= |file| {
        bytes := file[pos..pos + n];
      } else if pos <= |file| {
        bytes := file[pos..];
      } else {
        bytes := [];
      }
      pos := pos + |bytes|;
    }

    /** Keeps the bytes of a message, in a larger buffer if need be. */
    method KeepRaw(m: seq<Byte>)
      modifies this`rawBuffer, this`rawSize, rawBuffer
      ensures RawIs(m) && (rawBuffer == old(rawBuffer) || fresh(rawBuffer))
    {
      if |m| > rawBuffer.Length {
        rawBuffer := new Byte[|m|];
      }
      rawSize := |m|;
      for i := 0 to |m|
        modifies rawBuffer
        invariant rawSize == |m| <= rawBuffer.Length && rawBuffer[..i] == m[..i]
        invariant rawBuffer == old(rawBuffer) || fresh(rawBuffer)
      {
        rawBuffer[i] := m[i];
      }
    }

    /** The header part of dlt_cvt_file_v2_read_one: the announced size, and back to the start. */
    method ReadSize() returns (n: Option<nat>)
      modifies this`pos
      ensures n == AnnouncedSize(file, old(pos))
      ensures n.Some? ==> pos == old(pos)
    {
      var fixed := Fread(STORAGE_FIXED);
      if |fixed| != STORAGE_FIXED {
        return None;
      }
      if fixed[0] != 68 || fixed[1] != 76 || fixed[2] != 84 || fixed[3] != 2 {
        return None;
      }
      var ecuLength := fixed[ECU_LENGTH_AT];
      pos := pos + ecuLength;
      var base := Fread(BASE_FIXED);
      if |base| != BASE_FIXED {
        return None;
      }
      pos := pos - (STORAGE_FIXED + ecuLength + BASE_FIXED);
      return Some(STORAGE_FIXED + ecuLength + BigEndian16(base[LENGTH_AT], base[LENGTH_AT + 1]));
    }

    /** dlt_cvt_file_v2_read_one: headers first, then back to the start for the whole message. */
    method ReadOne() returns (ok: bool)
      modifies this`pos, this`rawBuffer, this`rawSize, rawBuffer
      ensures ok <==> ReadAt(file, old(pos), accepts).Some?
      ensures ok ==> var m := ReadAt(file, old(pos), accepts).value; RawIs(m) && pos == old(pos) + |m|
      ensures rawBuffer == old(rawBuffer) || fresh(rawBuffer)
    {
      var total := ReadSize();
      if total.None? {
        return false;
      }
      var m := Fread(total.value);
      if |m| != total.value {
        return false;
      }
      KeepRaw(m);
      return Parses(m, accepts);
    }

    /** Makes sure there is a slot for one more index entry. */
    method GrowIndex()
      requires Valid()
      modifies this`index
      ensures Valid() && index != null && counter < index.Length && Offsets() == old(Offsets())
      ensures index == old(index) || fresh(index)
    {
      if counter % INDEX_BLOCK == 0 {
        var bigger := new nat[(counter / INDEX_BLOCK + 1) * INDEX_BLOCK](_ => 0);
        if index != null {
          for i := 0 to counter
            modifies bigger
            invariant bigger[..i] == index[..i]
          {
            bigger[i] := index[i];
          }
        }
        index := bigger;
      }
    }

    /** Enters the offset of the message just read when the filter lets it pass. */
    method Enter(start: nat, m: seq<Byte>) returns (r: ReadResult)
      requires Valid() && index != null && counter < index.Length
      modifies this`counter, index
      ensures Valid() && r == (if Passes()(m) then Accepted else FilteredOut)
      ensures Offsets() == old(Offsets()) + (if Passes()(m) then [start] else [])
    {
      if filter.None? || filter.value(m) {
        ghost var before := Offsets();
        index[counter] := start;
        counter := counter + 1;
        assert index[..counter] == before + [start];
        return Accepted;
      }
      return FilteredOut;
    }

    /** dlt_cvt_file_v2_read: the next message, indexed when the filter lets it pass. */
    method Read() returns (r: ReadResult)
      requires Valid()
      modifies this, index, rawBuffer
      ensures Valid() && file == old(file)
      ensures ReadEffect(file, accepts, Passes(), old(pos), old(Offsets()), old(counterTotal), r, pos, Offsets(), counterTotal)
      ensures (index == old(index) || fresh(index)) && (rawBuffer == old(rawBuffer) || fresh(rawBuffer))
    {
      GrowIndex();
      var start := pos;
      var ok := ReadOne();
      if !ok {
        return Stopped;
      }
      counterTotal := counterTotal + 1;
      r := Enter(start, rawBuffer[..rawSize]);
    }

    ghost predicate InScan()
      requires Valid()
      reads this, index
    {
      ScanState(file, accepts, Passes(), Offsets(), counterTotal, pos)
    }

    ghost predicate ScanDone()
      requires Valid()
      reads this, index
    {
      ScanComplete(file, accepts, Passes(), Offsets(), counterTotal)
    }

    method ScanOne() returns (more: bool)
      requires Valid() && InScan()
      modifies this, index, rawBuffer
      ensures Valid() && file == old(file) && (if more then InScan() && old(pos) < pos <= |file| else ScanDone())
      ensures (index == old(index) || fresh(index)) && (rawBuffer == old(rawBuffer) || fresh(rawBuffer))
    {
      ghost var offsets, total, start := Offsets(), counterTotal, pos;
      var r := Read();
      ScanStep(file, accepts, Passes(), start, offsets, total, r, pos, Offsets(), counterTotal);
      more := r != Stopped;
    }

    /** The scanning loop of main: the index of the whole file. */
    method Scan()
      requires Valid() && pos == 0 && counter == 0 && counterTotal == 0
      modifies this, index, rawBuffer
      ensures Valid() && file == old(file) && ScanDone()
      ensures (index == old(index) || fresh(index)) && (rawBuffer == old(rawBuffer) || fresh(rawBuffer))
    {
      ScanStart(file, accepts, Passes(), Offsets());
      var more := true;
      while more
        invariant Valid() && file == old(file) && (if more then InScan() else ScanDone())
        invariant (index == old(index) || fresh(index)) && (rawBuffer == old(rawBuffer) || fresh(rawBuffer))
        decreases more, |file| - pos
      {
        more := ScanOne();
      }
    }

    ghost function KeptMessages(): seq<seq<Byte>>
      reads this
    {
      Kept(file, accepts, Passes())
    }

    /** The index gives the offsets of these messages. */
    ghost predicate Indexes(kept: seq<seq<Byte>>)
      requires Valid()
      reads this, index
    {
      Locates(file, accepts, Offsets(), kept)
    }

    /** Message num of the index, with its bytes. */
    method Fetch(num: int, ghost kept: seq<seq<Byte>>) returns (ok: bool)
      requires Valid() && Indexes(kept)
      modifies this`pos, this`rawBuffer, this`rawSize, rawBuffer
      ensures ok <==> 0 <= num < |kept|
      ensures ok ==> RawIs(kept[num])
      ensures rawBuffer == old(rawBuffer) || fresh(rawBuffer)
    {
      if num < 0 || num >= counter {
        return false;
      }
      pos := index[num];
      assert index[num] == Offsets()[num];
      ok := ReadOne();
    }

    /** dlt_cvt_file_v2_message: the bytes the scan saw for message num. */
    method Message(num: int) returns (ok: bool)
      requires Valid() && ScanDone()
      modifies this`pos, this`rawBuffer, this`rawSize, rawBuffer
      ensures ok <==> 0 <= num < |KeptMessages()|
      ensures ok ==> RawIs(KeptMessages()[num])
      ensures rawBuffer == old(rawBuffer) || fresh(rawBuffer)
    {
      ghost var kept := KeptMessages();
      assert Indexes(kept) by {
        IndexExact(file, accepts, Passes());
      }
      ok := Fetch(num, kept);
    }

    /** The output loop of main for one file. */
    method WriteMessages(b: nat, e: nat, ghost kept: seq<seq<Byte>>) returns (written: seq<Byte>)
      requires Valid() && Indexes(kept) && b <= e < |kept|
      modifies this`pos, this`rawBuffer, this`rawSize, rawBuffer
      ensures written == Flatten(kept[b..e + 1])
      ensures rawBuffer == old(rawBuffer) || fresh(rawBuffer)
    {
      written := [];
      for num := b to e + 1
        modifies this`pos, this`rawBuffer, this`rawSize, rawBuffer
        invariant rawBuffer == old(rawBuffer) || fresh(rawBuffer)
        invariant written == Flatten(kept[b..num])
      {
        var ok := Fetch(num, kept);
        FlattenNext(kept, b, num);
        if ok {
          written := written + rawBuffer[..rawSize];
        }
      }
    }

    /** What main writes for one file, or None for a range it refuses. */
    method WriteRange(begin: Option<int>, end: Option<int>, ghost kept: seq<seq<Byte>>) returns (out: Option<seq<Byte>>)
      requires Valid() && Indexes(kept)
      modifies this`pos, this`rawBuffer, this`rawSize, rawBuffer
      ensures out == Cut(kept, begin, end)
      ensures rawBuffer == old(rawBuffer) || fresh(rawBuffer)
    {
      var b := if begin.Some? then begin.value else 0;
      var e := if end.Some? then end.value else counter - 1;
      if b < 0 || b >= counter || e < 0 || e >= counter || e < b {
        return None;
      }
      var written := WriteMessages(b, e, kept);
      return Some(written);
    }

    /** One input file: open, scan, write. */
    method ConvertFile(contents: seq<Byte>, begin: Option<int>, end: Option<int>) returns (out: Option<seq<Byte>>)
      requires Valid()
      modifies this, index, rawBuffer
      ensures Valid() && out == Cut(Kept(contents, accepts, Passes()), begin, end)
      ensures (index == old(index) || fresh(index)) && (rawBuffer == old(rawBuffer) || fresh(rawBuffer))
    {
      Open(contents);
      Scan();
      ghost var kept := Kept(contents, accepts, Passes());
      assert Indexes(kept) by {
        IndexExact(file, accepts, Passes());
      }
      out := WriteRange(begin, end, kept);
    }

    /** The loop of main over the input files, with one output. */
    method Convert(files: seq<seq<Byte>>, begin: Option<int>, end: Option<int>) returns (ok: bool, out: seq<Byte>)
      requires Valid()
      modifies this, index, rawBuffer
      ensures Output(ok, out) == ConvertAll(files, accepts, Passes(), begin, end)
    {
      ghost var cuts := CutsOf(files, accepts, Passes(), begin, end);
      out := [];
      for i := 0 to |files|
        invariant Valid()
        invariant (index == old(index) || fresh(index)) && (rawBuffer == old(rawBuffer) || fresh(rawBuffer))
        invariant Ahead(cuts, i, out)
      {
        var c := ConvertFile(files[i], begin, end);
        AheadNext(cuts, i, out);
        if c.None? {
          return false, out;
        }
        out := out + c.value;
      }
      return true, out;
    }
  }

  /** What was written for the first i files, and what the rest will give, make up the whole. */
  ghost predicate Ahead(cuts: seq<Option<seq<Byte>>>, i: nat, out: seq<Byte>) {
    i <= |cuts| && JoinCuts(cuts) == Output(JoinCuts(cuts[i..]).ok, out + JoinCuts(cuts[i..]).bytes)
  }

  lemma AheadNext(cuts: seq<Option<seq<Byte>>>, i: nat, out: seq<Byte>)
    requires i < |cuts| && Ahead(cuts, i, out)
    ensures if cuts[i].None? then JoinCuts(cuts) == Output(false, out) else Ahead(cuts, i + 1, out + cuts[i].value)
  {
    assert cuts[i..][0] == cuts[i] && cuts[i..][1..] == cuts[i + 1..];
    if cuts[i].Some? {
      assert out + (cuts[i].value + JoinCuts(cuts[i + 1..]).bytes) == (out + cuts[i].value) + JoinCuts(cuts[i + 1..]).bytes;
    }
  }

  /** What reading at pos does to the index and the counters. */
  ghost predicate ReadEffect(file: seq<Byte>, accepts: Test, passes: Test, pos: nat, offsets: seq<nat>, total: nat,
                             r: ReadResult, pos': nat, offsets': seq<nat>, total': nat) {
    var m := ReadAt(file, pos, accepts);
    if m.None? then r == Stopped && offsets' == offsets && total' == total
    else
      && r == (if passes(m.value) then Accepted else FilteredOut)
      && pos' == pos + |m.value| && total' == total + 1
      && offsets' == offsets + (if passes(m.value) then [pos] else [])
  }

  ghost predicate ScanComplete(file: seq<Byte>, accepts: Test, passes: Test, offsets: seq<nat>, total: nat) {
    offsets == Index(file, accepts, passes) && total == |Scanned(file, 0, accepts)|
  }

  lemma ScanStep(file: seq<Byte>, accepts: Test, passes: Test, pos: nat, offsets: seq<nat>, total: nat,
                 r: ReadResult, pos': nat, offsets': seq<nat>, total': nat)
    requires ScanState(file, accepts, passes, offsets, total, pos)
    requires ReadEffect(file, accepts, passes, pos, offsets, total, r, pos', offsets', total')
    ensures if r == Stopped then ScanComplete(file, accepts, passes, offsets', total')
            else ScanState(file, accepts, passes, offsets', total', pos') && pos < pos' <= |file|
  {
    var m := ReadAt(file, pos, accepts);
    if m.None? {
      ScanEnds(file, accepts, passes, offsets, total, pos);
    } else {
      ScanMoves(file, accepts, passes, offsets, total, pos, m.value, offsets');
    }
  }

  lemma ScanStart(file: seq<Byte>, accepts: Test, passes: Test, offsets: seq<nat>)
    requires offsets == []
    ensures ScanState(file, accepts, passes, offsets, 0, 0)
  {
  }

  /** What has been indexed, and what the scan from pos on will still find, make up the whole. */
  ghost predicate ScanState(file: seq<Byte>, accepts: Test, passes: Test, offsets: seq<nat>, total: nat, pos: nat) {
    var rest := Scanned(file, pos, accepts);
    && offsets + Starts(rest, pos, passes) == Index(file, accepts, passes)
    && total + |rest| == |Scanned(file, 0, accepts)|
  }

  lemma ScanEnds(file: seq<Byte>, accepts: Test, passes: Test, offsets: seq<nat>, total: nat, pos: nat)
    requires ScanState(file, accepts, passes, offsets, total, pos) && ReadAt(file, pos, accepts) == None
    ensures ScanComplete(file, accepts, passes, offsets, total)
  {
    assert Scanned(file, pos, accepts) == [];
  }

  lemma ScanMoves(file: seq<Byte>, accepts: Test, passes: Test, offsets: seq<nat>, total: nat, pos: nat,
                  m: seq<Byte>, offsets': seq<nat>)
    requires ScanState(file, accepts, passes, offsets, total, pos) && ReadAt(file, pos, accepts) == Some(m)
    requires offsets' == offsets + (if passes(m) then [pos] else [])
    ensures ScanState(file, accepts, passes, offsets', total + 1, pos + |m|)
  {
    var rest := Scanned(file, pos + |m|, accepts);
    assert Scanned(file, pos, accepts) == [m] + rest by {
      ScannedStep(file, pos, accepts, m);
    }
    StartsCons(m, rest, pos, passes);
    var head, tail := if passes(m) then [pos] else [], Starts(rest, pos + |m|, passes);
    assert offsets + (head + tail) == (offsets + head) + tail;
  }
}
