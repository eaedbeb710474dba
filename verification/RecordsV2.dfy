/**
 * DLT version 2 files: storage header, base header, message after message.
 *
 * Whether the message parser accepts the bytes of a message, beyond its check of their
 * number, and whether a filter lets it pass are arbitrary predicates on these bytes.
 */
module RecordsV2 {
  import opened Order
  import opened Entities

  const STORAGE_FIXED := 14
  const BASE_FIXED := 7
  const ECU_LENGTH_AT := 13
  const LENGTH_AT := 5

  type Test = seq<Byte> -> bool

  /** A 16-bit field, most significant byte first. */
  function BigEndian16(hi: Byte, lo: Byte): nat {
    (hi as int) * 256 + (lo as int)
  }

  predicate HasPattern(file: seq<Byte>, pos: nat)
    requires pos + STORAGE_FIXED <= |file|
  {
    file[pos] == 68 && file[pos + 1] == 76 && file[pos + 2] == 84 && file[pos + 3] == 2
  }

  /** The size of the record at pos as its headers give it; None when they are not all there. */
  function AnnouncedSize(file: seq<Byte>, pos: nat): (r: Option<nat>)
    ensures r.Some? ==> r.value >= STORAGE_FIXED
  {
    if pos + STORAGE_FIXED > |file| || !HasPattern(file, pos) then None
    else
      var base := pos + STORAGE_FIXED + file[pos + ECU_LENGTH_AT];
      if base + BASE_FIXED > |file| then None
      else Some(base - pos + BigEndian16(file[base + LENGTH_AT], file[base + LENGTH_AT + 1]))
  }

  /** The bytes behind the storage header have room for a base header. */
  predicate CoversHeaders(m: seq<Byte>) {
    |m| >= STORAGE_FIXED && |m| >= STORAGE_FIXED + m[ECU_LENGTH_AT] + BASE_FIXED
  }

  /**
   * dlt_message_read_v2: it skips the storage header and refuses what is left if that is
   * shorter than a base header; what else it refuses is up to accepts.
   */
  predicate Parses(m: seq<Byte>, accepts: Test) {
    CoversHeaders(m) && accepts(m)
  }

  /** dlt_cvt_file_v2_read_one: the bytes of the message at pos, if it is complete and parsed. */
  function ReadAt(file: seq<Byte>, pos: nat, accepts: Test): (r: Option<seq<Byte>>)
    ensures r.Some? ==> |r.value| >= STORAGE_FIXED && pos + |r.value| <= |file|
  {
    var n := AnnouncedSize(file, pos);
    if n.Some? && pos + n.value <= |file| && Parses(file[pos..pos + n.value], accepts) then Some(file[pos..pos + n.value])
    else None
  }

  /** The plain reading of a file: take the message at the front, go on behind it. */
  function Messages(bytes: seq<Byte>, accepts: Test): (m: seq<seq<Byte>>)
    decreases |bytes|
  {
    var r := ReadAt(bytes, 0, accepts);
    if r.None? then [] else [r.value] + Messages(bytes[|r.value|..], accepts)
  }

  /** The scan of a file by offsets: the messages from pos on, up to the first that cannot be read. */
  function Scanned(file: seq<Byte>, pos: nat, accepts: Test): (m: seq<seq<Byte>>)
    decreases |file| - pos
  {
    var r := ReadAt(file, pos, accepts);
    if r.None? then [] else [r.value] + Scanned(file, pos + |r.value|, accepts)
  }

  function Passing(msgs: seq<seq<Byte>>, passes: Test): seq<seq<Byte>> {
    if |msgs| == 0 then [] else (if passes(msgs[0]) then [msgs[0]] else []) + Passing(msgs[1..], passes)
  }

  /** Where the passing ones of msgs start when they are laid end to end from base on. */
  function Starts(msgs: seq<seq<Byte>>, base: nat, passes: Test): seq<nat> {
    if |msgs| == 0 then []
    else (if passes(msgs[0]) then [base] else []) + Starts(msgs[1..], base + |msgs[0]|, passes)
  }

  function Flatten(msgs: seq<seq<Byte>>): seq<Byte> {
    if |msgs| == 0 then [] else msgs[0] + Flatten(msgs[1..])
  }

  // --------------------------------------------------------------- index and parse

  /** Reading at an offset is reading at the front of the rest of the file. */
  lemma ReadAtSuffix(file: seq<Byte>, pos: nat, accepts: Test)
    requires pos <= |file|
    ensures ReadAt(file, pos, accepts) == ReadAt(file[pos..], 0, accepts)
  {
    var rest := file[pos..];
    assert |rest| == |file| - pos;
    var n := AnnouncedSize(rest, 0);
    assert AnnouncedSize(file, pos) == n;
    if n.Some? && n.value <= |rest| {
      assert file[pos..pos + n.value] == rest[..n.value];
    }
  }

  lemma MessagesStep(bytes: seq<Byte>, accepts: Test, m: seq<Byte>)
    requires ReadAt(bytes, 0, accepts) == Some(m) && |m| <= |bytes|
    ensures Messages(bytes, accepts) == [m] + Messages(bytes[|m|..], accepts)
  {
  }

  lemma ScannedStep(file: seq<Byte>, pos: nat, accepts: Test, m: seq<Byte>)
    requires ReadAt(file, pos, accepts) == Some(m)
    ensures Scanned(file, pos, accepts) == [m] + Scanned(file, pos + |m|, accepts)
  {
  }

  lemma SameFirstMessage(file: seq<Byte>, pos: nat, accepts: Test, m: seq<Byte>)
    requires ReadAt(file, pos, accepts) == Some(m) && pos + |m| <= |file|
    requires Scanned(file, pos + |m|, accepts) == Messages(file[pos + |m|..], accepts)
    ensures Scanned(file, pos, accepts) == Messages(file[pos..], accepts)
  {
    ScannedStep(file, pos, accepts, m);
    assert ReadAt(file[pos..], 0, accepts) == Some(m) by {
      ReadAtSuffix(file, pos, accepts);
    }
    MessagesStep(file[pos..], accepts, m);
    assert file[pos..][|m|..] == file[pos + |m|..];
  }

  lemma NoMessageHere(file: seq<Byte>, pos: nat, accepts: Test)
    requires pos <= |file| && ReadAt(file, pos, accepts) == None
    ensures Scanned(file, pos, accepts) == Messages(file[pos..], accepts)
  {
    ReadAtSuffix(file, pos, accepts);
  }

  /** Scanning by offsets reads what the plain reading reads. */
  lemma {:induction false} ScannedIsMessages(file: seq<Byte>, pos: nat, accepts: Test)
    requires pos <= |file|
    ensures Scanned(file, pos, accepts) == Messages(file[pos..], accepts)
    decreases |file| - pos, 1
  {
    var r := ReadAt(file, pos, accepts);
    if r.Some? {
      ScannedBehind(file, pos, accepts, r.value);
    } else {
      NoMessageHere(file, pos, accepts);
    }
  }

  lemma {:induction false} ScannedBehind(file: seq<Byte>, pos: nat, accepts: Test, m: seq<Byte>)
    requires pos <= |file| && ReadAt(file, pos, accepts) == Some(m)
    ensures Scanned(file, pos, accepts) == Messages(file[pos..], accepts)
    decreases |file| - pos, 0
  {
    assert 0 < |m| && pos + |m| <= |file|;
    assert Scanned(file, pos + |m|, accepts) == Messages(file[pos + |m|..], accepts) by {
      ScannedIsMessages(file, pos + |m|, accepts);
    }
    SameFirstMessage(file, pos, accepts, m);
  }

  /** Messages in order that a scan of the file meets from pos on. */
  ghost predicate FoundFrom(file: seq<Byte>, pos: nat, accepts: Test, msgs: seq<seq<Byte>>)
    decreases |msgs|
  {
    |msgs| == 0 || (ReadAt(file, pos, accepts) == Some(msgs[0]) && FoundFrom(file, pos + |msgs[0]|, accepts, msgs[1..]))
  }

  lemma {:induction false} ScannedFound(file: seq<Byte>, pos: nat, accepts: Test)
    ensures FoundFrom(file, pos, accepts, Scanned(file, pos, accepts))
    decreases |file| - pos
  {
    var r := ReadAt(file, pos, accepts);
    if r.Some? {
      ScannedFound(file, pos + |r.value|, accepts);
      assert Scanned(file, pos, accepts)[1..] == Scanned(file, pos + |r.value|, accepts);
    }
  }

  lemma StartsCons(m: seq<Byte>, msgs: seq<seq<Byte>>, base: nat, passes: Test)
    ensures Starts([m] + msgs, base, passes) == (if passes(m) then [base] else []) + Starts(msgs, base + |m|, passes)
  {
    assert ([m] + msgs)[1..] == msgs;
  }

  /** Entry k of the index is where message k of kept is read. */
  ghost predicate Locates(file: seq<Byte>, accepts: Test, ix: seq<nat>, kept: seq<seq<Byte>>) {
    |ix| == |kept| && forall k :: 0 <= k < |ix| ==> ReadAt(file, ix[k], accepts) == Some(kept[k])
  }

  lemma LocatesCons(file: seq<Byte>, accepts: Test, pos: nat, m: seq<Byte>, ix: seq<nat>, kept: seq<seq<Byte>>)
    requires Locates(file, accepts, ix, kept) && ReadAt(file, pos, accepts) == Some(m)
    ensures Locates(file, accepts, [pos] + ix, [m] + kept)
  {
  }

  /** Random access through the index gives the messages the scan accepted, in order. */
  lemma LocatesNext(file: seq<Byte>, pos: nat, accepts: Test, passes: Test, m: seq<Byte>, rest: seq<seq<Byte>>)
    requires ReadAt(file, pos, accepts) == Some(m)
    requires Locates(file, accepts, Starts(rest, pos + |m|, passes), Passing(rest, passes))
    ensures Locates(file, accepts, Starts([m] + rest, pos, passes), Passing([m] + rest, passes))
  {
    var ix, kept := Starts(rest, pos + |m|, passes), Passing(rest, passes);
    StartsCons(m, rest, pos, passes);
    assert Passing([m] + rest, passes) == (if passes(m) then [m] else []) + kept by {
      assert ([m] + rest)[1..] == rest;
    }
    if passes(m) {
      LocatesCons(file, accepts, pos, m, ix, kept);
    } else {
      assert [] + ix == ix && [] + kept == kept;
    }
  }

  lemma {:induction false} StartsLocate(file: seq<Byte>, pos: nat, accepts: Test, passes: Test, msgs: seq<seq<Byte>>)
    requires FoundFrom(file, pos, accepts, msgs)
    ensures Locates(file, accepts, Starts(msgs, pos, passes), Passing(msgs, passes))
    decreases |msgs|
  {
    if |msgs| > 0 {
      var m, rest := msgs[0], msgs[1..];
      StartsLocate(file, pos + |m|, accepts, passes, rest);
      LocatesNext(file, pos, accepts, passes, m, rest);
      assert msgs == [m] + rest;
    }
  }

  ghost predicate Ascending(ix: seq<nat>, lo: nat, hi: nat) {
    && (forall k :: 0 <= k < |ix| ==> lo <= ix[k] < hi)
    && (forall j, k :: 0 <= j < k < |ix| ==> ix[j] < ix[k])
  }

  lemma AscendingCons(ix: seq<nat>, pos: nat, next: nat, hi: nat)
    requires Ascending(ix, next, hi) && pos < next <= hi
    ensures Ascending([pos] + ix, pos, hi) && Ascending(ix, pos, hi)
  {
  }

  /** Offsets ascend strictly and stay in the file. */
  lemma {:induction false} StartsAscend(file: seq<Byte>, pos: nat, accepts: Test, passes: Test, msgs: seq<seq<Byte>>)
    requires FoundFrom(file, pos, accepts, msgs)
    ensures Ascending(Starts(msgs, pos, passes), pos, |file|)
    decreases |msgs|
  {
    if |msgs| > 0 {
      var m, rest := msgs[0], msgs[1..];
      StartsAscend(file, pos + |m|, accepts, passes, rest);
      AscendingCons(Starts(rest, pos + |m|, passes), pos, pos + |m|, |file|);
    }
  }

  /** The offsets dlt_cvt_file_v2_read records in a scan of the whole file. */
  function Index(file: seq<Byte>, accepts: Test, passes: Test): seq<nat> {
    Starts(Scanned(file, 0, accepts), 0, passes)
  }

  /**
   * For every file and filter: the index lists, in strictly ascending order, where the
   * passing messages of the plain reading start, and reading at entry k gives message k.
   */
  lemma IndexExact(file: seq<Byte>, accepts: Test, passes: Test)
    ensures var kept := Passing(Messages(file, accepts), passes);
            && Index(file, accepts, passes) == Starts(Messages(file, accepts), 0, passes)
            && Locates(file, accepts, Index(file, accepts, passes), kept)
            && Ascending(Index(file, accepts, passes), 0, |file|)
  {
    assert file[0..] == file;
    ScannedIsMessages(file, 0, accepts);
    var msgs := Scanned(file, 0, accepts);
    ScannedFound(file, 0, accepts);
    StartsLocate(file, 0, accepts, passes, msgs);
    StartsAscend(file, 0, accepts, passes, msgs);
  }

  // ---------------------------------------------------------- files laid end to end

  /** A message that, read on its own, is accepted as it is. */
  ghost predicate IsRecord(m: seq<Byte>, accepts: Test) {
    ReadAt(m, 0, accepts) == Some(m)
  }

  lemma RecordInFront(m: seq<Byte>, rest: seq<Byte>, accepts: Test)
    requires IsRecord(m, accepts)
    ensures ReadAt(m + rest, 0, accepts) == Some(m)
  {
    var all := m + rest;
    assert AnnouncedSize(all, 0) == AnnouncedSize(m, 0) == Some(|m|);
    assert all[..|m|] == m == m[..|m|];
  }

  /** Laying records end to end and reading the file gives the records back. */
  lemma {:induction false} ReadBack(msgs: seq<seq<Byte>>, accepts: Test)
    requires forall i :: 0 <= i < |msgs| ==> IsRecord(msgs[i], accepts)
    ensures Messages(Flatten(msgs), accepts) == msgs
    decreases |msgs|
  {
    if |msgs| > 0 {
      var rest := Flatten(msgs[1..]);
      ReadBack(msgs[1..], accepts);
      RecordInFront(msgs[0], rest, accepts);
      assert Flatten(msgs)[|msgs[0]|..] == rest;
      assert msgs == [msgs[0]] + msgs[1..];
    }
  }

  // ------------------------------------------------------------------------ layout

  /**
   * A record byte by byte: the pattern "DLT" and 2, nine bytes of time stamp, the length and
   * the text of the ECU id, five bytes of base header, and the number of bytes behind the
   * storage header, most significant octet first, which counts these seven and the payload.
   */
  function Encode(stamp: seq<Byte>, ecu: seq<Byte>, head: seq<Byte>, payload: seq<Byte>): (m: seq<Byte>)
    requires |stamp| == 9 && |ecu| < 256 && |head| == 5 && 7 + |payload| < 65536
    ensures |m| == 14 + |ecu| + 7 + |payload|
  {
    var n := 7 + |payload|;
    [68, 76, 84, 2] + stamp + [|ecu|] + ecu + head + [n / 256, n % 256] + payload
  }

  ghost predicate EncodedAs(m: seq<Byte>, stamp: seq<Byte>, ecu: seq<Byte>, head: seq<Byte>, payload: seq<Byte>) {
    && |stamp| == 9 && |ecu| < 256 && |head| == 5 && 7 + |payload| < 65536
    && m == Encode(stamp, ecu, head, payload)
  }

  /** Some record has these bytes. */
  ghost predicate Encoded(m: seq<Byte>) {
    exists stamp, ecu, head, payload :: EncodedAs(m, stamp, ecu, head, payload)
  }

  /** The headers of a record, wherever it stands in a file, announce its size. */
  lemma EncodedAnnounced(m: seq<Byte>, file: seq<Byte>, pos: nat)
    requires Encoded(m) && pos + |m| <= |file| && file[pos..pos + |m|] == m
    ensures AnnouncedSize(file, pos) == Some(|m|) && CoversHeaders(m)
  {
    var stamp, ecu, head, payload :| EncodedAs(m, stamp, ecu, head, payload);
    var base, n := 14 + |ecu|, 7 + |payload|;
    assert m[0] == 68 && m[1] == 76 && m[2] == 84 && m[3] == 2 && m[13] == |ecu|;
    assert m[base + 5] == n / 256 && m[base + 6] == n % 256;
    assert forall i :: 0 <= i < |m| ==> file[pos + i] == file[pos..pos + |m|][i] == m[i];
    assert file[pos + base + 5] == n / 256 && file[pos + base + 6] == n % 256;
    assert n / 256 * 256 + n % 256 == n;
  }

  lemma Octets(hi: Byte, lo: Byte)
    ensures var n := (hi as int) * 256 + (lo as int); n / 256 == hi && n % 256 == lo
  {
  }

  /** Bytes cut where a record is put together. */
  lemma Reassembled(m: seq<Byte>, base: nat)
    requires 14 <= base && base + 7 <= |m|
    ensures m == m[..4] + m[4..13] + [m[13]] + m[14..base] + m[base..base + 5] + [m[base + 5], m[base + 6]] + m[base + 7..]
  {
    assert m[..4] + m[4..13] == m[..13];
    assert m[..13] + [m[13]] == m[..14];
    assert m[..14] + m[14..base] == m[..base];
    assert m[..base] + m[base..base + 5] == m[..base + 5];
    assert m[..base + 5] + [m[base + 5], m[base + 6]] == m[..base + 7];
    assert m[..base + 7] + m[base + 7..] == m;
  }

  /** Bytes with a pattern and lengths that fit have the form of a record. */
  lemma LaidOut(m: seq<Byte>, base: nat)
    requires |m| >= 21 && m[0] == 68 && m[1] == 76 && m[2] == 84 && m[3] == 2
    requires base == 14 + (m[13] as int) && base + 7 <= |m| && |m| - base == (m[base + 5] as int) * 256 + (m[base + 6] as int)
    ensures Encoded(m)
  {
    var stamp, ecu, head, payload := m[4..13], m[14..base], m[base..base + 5], m[base + 7..];
    Octets(m[base + 5], m[base + 6]);
    Reassembled(m, base);
    assert m[..4] == [68, 76, 84, 2];
    assert EncodedAs(m, stamp, ecu, head, payload);
  }

  /** What headers announce has the form of a record, if it covers them. */
  lemma AnnouncedIsEncoded(file: seq<Byte>, pos: nat, n: nat)
    requires AnnouncedSize(file, pos) == Some(n) && pos + n <= |file| && CoversHeaders(file[pos..pos + n])
    ensures Encoded(file[pos..pos + n])
  {
    var m := file[pos..pos + n];
    assert forall i :: 0 <= i < n ==> m[i] == file[pos + i];
    var base := 14 + (m[13] as int);
    assert m[base + 5] == file[pos + base + 5] && m[base + 6] == file[pos + base + 6];
    LaidOut(m, base);
  }

  /**
   * The reader byte by byte: it returns m at a position if and only if the bytes there start
   * with m, m is a record, and the parser accepts it.
   */
  lemma ReadAtIff(file: seq<Byte>, pos: nat, accepts: Test, m: seq<Byte>)
    requires pos <= |file|
    ensures ReadAt(file, pos, accepts) == Some(m) <==> m <= file[pos..] && Encoded(m) && accepts(m)
  {
    if m <= file[pos..] && Encoded(m) && accepts(m) {
      assert file[pos..pos + |m|] == file[pos..][..|m|] == m;
      EncodedAnnounced(m, file, pos);
    }
    if ReadAt(file, pos, accepts) == Some(m) {
      AnnouncedIsEncoded(file, pos, |m|);
      assert m == file[pos..][..|m|];
    }
  }

  /** So nothing is read exactly where no accepted record starts. */
  lemma ReadsNothingIff(file: seq<Byte>, pos: nat, accepts: Test)
    requires pos <= |file|
    ensures ReadAt(file, pos, accepts) == None <==> forall m :: m <= file[pos..] ==> !(Encoded(m) && accepts(m))
  {
    forall m | m <= file[pos..] && Encoded(m) && accepts(m) ensures ReadAt(file, pos, accepts) == Some(m) {
      ReadAtIff(file, pos, accepts, m);
    }
    var r := ReadAt(file, pos, accepts);
    if r.Some? { ReadAtIff(file, pos, accepts, r.value); }
  }

  /** A record in front of anything is read as itself. */
  lemma EncodedIsRead(stamp: seq<Byte>, ecu: seq<Byte>, head: seq<Byte>, payload: seq<Byte>, rest: seq<Byte>, accepts: Test)
    requires |stamp| == 9 && |ecu| < 256 && |head| == 5 && 7 + |payload| < 65536
    ensures var m := Encode(stamp, ecu, head, payload);
            ReadAt(m + rest, 0, accepts) == if accepts(m) then Some(m) else None
  {
    var m := Encode(stamp, ecu, head, payload);
    assert EncodedAs(m, stamp, ecu, head, payload);
    assert (m + rest)[0..0 + |m|] == m;
    EncodedAnnounced(m, m + rest, 0);
  }

  /** A file of messages is records laid end to end. */
  lemma RecordIffEncoded(m: seq<Byte>, accepts: Test)
    ensures IsRecord(m, accepts) <==> Encoded(m) && accepts(m)
  {
    assert m[..|m|] == m;
    if Encoded(m) && accepts(m) {
      assert m[0..0 + |m|] == m;
      EncodedAnnounced(m, m, 0);
    }
    if IsRecord(m, accepts) {
      AnnouncedIsEncoded(m, 0, |m|);
    }
  }

  /** A message read from a file is accepted when it stands alone. */
  lemma ExtractedIsRecord(file: seq<Byte>, pos: nat, accepts: Test)
    requires ReadAt(file, pos, accepts).Some?
    ensures IsRecord(ReadAt(file, pos, accepts).value, accepts)
  {
    var m := ReadAt(file, pos, accepts).value;
    assert m[ECU_LENGTH_AT] == file[pos + ECU_LENGTH_AT];
    assert AnnouncedSize(m, 0) == AnnouncedSize(file, pos) == Some(|m|);
    assert m[..|m|] == m;
  }

  lemma {:induction false} MessagesAreRecords(bytes: seq<Byte>, accepts: Test)
    ensures forall i :: 0 <= i < |Messages(bytes, accepts)| ==> IsRecord(Messages(bytes, accepts)[i], accepts)
    decreases |bytes|
  {
    var r := ReadAt(bytes, 0, accepts);
    if r.Some? {
      var m := r.value;
      assert IsRecord(m, accepts) by { ExtractedIsRecord(bytes, 0, accepts); }
      MessagesStep(bytes, accepts, m);
      MessagesAreRecords(bytes[|m|..], accepts);
    }
  }

  lemma {:induction false} PassingMembers(msgs: seq<seq<Byte>>, passes: Test)
    ensures forall m :: m in Passing(msgs, passes) ==> m in msgs
    decreases |msgs|
  {
    if |msgs| > 0 { PassingMembers(msgs[1..], passes); }
  }

  lemma KeptAreRecords(file: seq<Byte>, accepts: Test, passes: Test)
    ensures forall i :: 0 <= i < |Kept(file, accepts, passes)| ==> IsRecord(Kept(file, accepts, passes)[i], accepts)
  {
    var msgs := Messages(file, accepts);
    MessagesAreRecords(file, accepts);
    PassingMembers(msgs, passes);
    forall i | 0 <= i < |Passing(msgs, passes)| ensures IsRecord(Passing(msgs, passes)[i], accepts) {
      assert Passing(msgs, passes)[i] in msgs;
    }
  }

  /** The messages of any file, laid end to end, are its front. */
  lemma {:induction false} MessagesAreFront(bytes: seq<Byte>, accepts: Test)
    ensures Flatten(Messages(bytes, accepts)) <= bytes
    decreases |bytes|
  {
    var r := ReadAt(bytes, 0, accepts);
    if r.Some? {
      var m := r.value;
      MessagesStep(bytes, accepts, m);
      MessagesAreFront(bytes[|m|..], accepts);
      FlattenCons(m, Messages(bytes[|m|..], accepts));
      assert m == bytes[..|m|];
      assert bytes == m + bytes[|m|..];
    }
  }

  lemma FlattenCons(m: seq<Byte>, rest: seq<seq<Byte>>)
    ensures Flatten([m] + rest) == m + Flatten(rest)
  {
    assert ([m] + rest)[1..] == rest;
  }

  /** The number of bytes in front of message k. */
  function StartOf(msgs: seq<seq<Byte>>, k: nat): nat
    requires k <= |msgs|
  {
    if k == 0 then 0 else StartOf(msgs, k - 1) + |msgs[k - 1]|
  }

  lemma {:induction false} FlattenConcat(a: seq<seq<Byte>>, b: seq<seq<Byte>>)
    ensures Flatten(a + b) == Flatten(a) + Flatten(b)
    decreases |a|
  {
    if |a| == 0 {
      assert a + b == b;
    } else {
      assert (a + b)[1..] == a[1..] + b;
      FlattenConcat(a[1..], b);
    }
  }

  lemma FlattenOne(m: seq<Byte>)
    ensures Flatten([m]) == m
  {
    var none: seq<seq<Byte>> := [m][1..];
    assert none == [];
  }

  lemma {:induction false} FlattenLength(msgs: seq<seq<Byte>>, k: nat)
    requires k <= |msgs|
    ensures |Flatten(msgs[..k])| == StartOf(msgs, k)
    decreases k
  {
    if k > 0 {
      FlattenLength(msgs, k - 1);
      assert msgs[..k] == msgs[..k - 1] + [msgs[k - 1]];
      FlattenConcat(msgs[..k - 1], [msgs[k - 1]]);
      FlattenOne(msgs[k - 1]);
    }
  }

  /** A range of messages laid end to end is a slice of all of them laid end to end. */
  lemma FlattenSlice(msgs: seq<seq<Byte>>, b: nat, e: nat)
    requires b <= e <= |msgs|
    ensures StartOf(msgs, b) <= StartOf(msgs, e) <= |Flatten(msgs)|
    ensures Flatten(msgs[b..e]) == Flatten(msgs)[StartOf(msgs, b)..StartOf(msgs, e)]
  {
    FlattenLength(msgs, b);
    FlattenLength(msgs, e);
    assert msgs[..e] == msgs[..b] + msgs[b..e] && msgs == msgs[..e] + msgs[e..];
    FlattenConcat(msgs[..b], msgs[b..e]);
    FlattenConcat(msgs[..e], msgs[e..]);
  }

  /** No filter. */
  const Everything: Test := (m: seq<Byte>) => true

  lemma {:induction false} AllPass(msgs: seq<seq<Byte>>)
    ensures Passing(msgs, Everything) == msgs
    decreases |msgs|
  {
    if |msgs| > 0 {
      AllPass(msgs[1..]);
      assert msgs == [msgs[0]] + msgs[1..];
    }
  }

  // -------------------------------------------------------------- cutting, joining

  /** The messages of a file that the scan accepts and the filter lets pass. */
  function Kept(file: seq<Byte>, accepts: Test, passes: Test): seq<seq<Byte>> {
    Passing(Messages(file, accepts), passes)
  }

  /** What is written for messages begin to end; None when the range is refused. */
  function Cut(kept: seq<seq<Byte>>, begin: Option<int>, end: Option<int>): Option<seq<Byte>> {
    var b := if begin.Some? then begin.value else 0;
    var e := if end.Some? then end.value else |kept| - 1;
    if b < 0 || b >= |kept| || e < 0 || e >= |kept| || e < b then None
    else Some(Flatten(kept[b..e + 1]))
  }

  datatype Output = Output(ok: bool, bytes: seq<Byte>)

  /** The outputs for the files in turn; the first refused range ends the run. */
  function JoinCuts(cuts: seq<Option<seq<Byte>>>): Output {
    if |cuts| == 0 then Output(true, [])
    else if cuts[0].None? then Output(false, [])
    else
      var r := JoinCuts(cuts[1..]);
      Output(r.ok, cuts[0].value + r.bytes)
  }

  function CutsOf(files: seq<seq<Byte>>, accepts: Test, passes: Test, begin: Option<int>, end: Option<int>):
    (cuts: seq<Option<seq<Byte>>>)
    ensures |cuts| == |files|
    ensures forall i :: 0 <= i < |files| ==> cuts[i] == Cut(Kept(files[i], accepts, passes), begin, end)
  {
    seq(|files|, i requires 0 <= i < |files| => Cut(Kept(files[i], accepts, passes), begin, end))
  }

  /** What the main loop over the input files writes. */
  function ConvertAll(files: seq<seq<Byte>>, accepts: Test, passes: Test, begin: Option<int>, end: Option<int>): Output {
    JoinCuts(CutsOf(files, accepts, passes, begin, end))
  }

  lemma FlattenNext(msgs: seq<seq<Byte>>, b: nat, n: nat)
    requires b <= n < |msgs|
    ensures Flatten(msgs[b..n + 1]) == Flatten(msgs[b..n]) + msgs[n]
  {
    assert msgs[b..n + 1] == msgs[b..n] + [msgs[n]];
    FlattenConcat(msgs[b..n], [msgs[n]]);
    FlattenOne(msgs[n]);
  }

  /** A file of accepted messages laid end to end. */
  ghost predicate IsRecordFile(file: seq<Byte>, msgs: seq<seq<Byte>>, accepts: Test) {
    file == Flatten(msgs) && forall i :: 0 <= i < |msgs| ==> IsRecord(msgs[i], accepts)
  }

  /**
   * For every file, without a filter: writing messages b to e gives exactly the bytes from
   * the start of message b to the end of message e.
   */
  lemma CutIsSlice(file: seq<Byte>, accepts: Test, b: nat, e: nat)
    requires b <= e < |Messages(file, accepts)|
    ensures var msgs := Messages(file, accepts);
            && StartOf(msgs, b) <= StartOf(msgs, e + 1) <= |file|
            && Cut(Kept(file, accepts, Everything), Some(b), Some(e)) == Some(file[StartOf(msgs, b)..StartOf(msgs, e + 1)])
  {
    var msgs := Messages(file, accepts);
    assert Kept(file, accepts, Everything) == msgs by { AllPass(msgs); }
    MessagesAreFront(file, accepts);
    SliceOfFront(file, msgs, b, e + 1);
    assert Cut(msgs, Some(b), Some(e)) == Some(Flatten(msgs[b..e + 1]));
  }

  lemma SliceOfFront(file: seq<Byte>, msgs: seq<seq<Byte>>, b: nat, e: nat)
    requires Flatten(msgs) <= file && b <= e <= |msgs|
    ensures StartOf(msgs, b) <= StartOf(msgs, e) <= |file|
    ensures Flatten(msgs[b..e]) == file[StartOf(msgs, b)..StartOf(msgs, e)]
  {
    FlattenSlice(msgs, b, e);
  }

  /** The default range writes what the scan could read; that is all of a file of messages. */
  lemma FullCutIsFile(file: seq<Byte>, accepts: Test)
    requires Messages(file, accepts) != []
    ensures Cut(Kept(file, accepts, Everything), None, None) == Some(Flatten(Messages(file, accepts)))
    ensures Cut(Kept(file, accepts, Everything), None, None) == Some(file)
            <==> exists msgs :: IsRecordFile(file, msgs, accepts)
  {
    var msgs := Messages(file, accepts);
    assert Kept(file, accepts, Everything) == msgs by { AllPass(msgs); }
    assert msgs[0..|msgs|] == msgs;
    if Flatten(msgs) == file {
      MessagesAreRecords(file, accepts);
      assert IsRecordFile(file, msgs, accepts);
    }
    forall other | IsRecordFile(file, other, accepts) ensures Flatten(msgs) == file {
      ReadBack(other, accepts);
    }
  }

  lemma CutOfRecords(kept: seq<seq<Byte>>, accepts: Test, b: nat, e: nat)
    requires b <= e < |kept| && forall i :: 0 <= i < |kept| ==> IsRecord(kept[i], accepts)
    ensures var c := Cut(kept, Some(b), Some(e)); c.Some? && Messages(c.value, accepts) == kept[b..e + 1]
  {
    ReadBack(kept[b..e + 1], accepts);
  }

  /** For every file, filter and range: what was cut out reads as the chosen messages. */
  lemma CutReadsBack(file: seq<Byte>, accepts: Test, passes: Test, b: nat, e: nat)
    requires b <= e < |Kept(file, accepts, passes)|
    ensures var kept := Kept(file, accepts, passes);
            var c := Cut(kept, Some(b), Some(e));
            c.Some? && Messages(c.value, accepts) == kept[b..e + 1]
  {
    KeptAreRecords(file, accepts, passes);
    CutOfRecords(Kept(file, accepts, passes), accepts, b, e);
  }

  /** A range is refused exactly if it is not one of indexed messages. */
  lemma CutRefusedIff(kept: seq<seq<Byte>>, b: int, e: int)
    ensures Cut(kept, Some(b), Some(e)).None? <==> !(0 <= b <= e < |kept|)
  {
  }

  /** By default it starts at the first message and ends with the last. */
  lemma CutDefaults(kept: seq<seq<Byte>>, b: int, e: int)
    ensures Cut(kept, None, Some(e)) == Cut(kept, Some(0), Some(e))
    ensures Cut(kept, Some(b), None) == Cut(kept, Some(b), Some(|kept| - 1))
  {
  }

  // ----------------------------------------------------------------------- joining

  /** The messages kept of all files, in order. */
  ghost function KeptOfAll(files: seq<seq<Byte>>, accepts: Test, passes: Test): seq<seq<Byte>> {
    if |files| == 0 then [] else Kept(files[0], accepts, passes) + KeptOfAll(files[1..], accepts, passes)
  }

  lemma CutsOfRest(files: seq<seq<Byte>>, accepts: Test, passes: Test, begin: Option<int>, end: Option<int>)
    requires |files| > 0
    ensures CutsOf(files, accepts, passes, begin, end)[1..] == CutsOf(files[1..], accepts, passes, begin, end)
  {
  }

  lemma FullCut(kept: seq<seq<Byte>>)
    ensures Cut(kept, None, None) == if kept == [] then None else Some(Flatten(kept))
  {
    assert kept[0..|kept|] == kept;
  }

  /**
   * Without a range, all files are written if and only if every one of them has a message
   * that is kept; the output is then the messages kept of all files, end to end.
   */
  lemma {:induction false} JoinSucceedsIff(files: seq<seq<Byte>>, accepts: Test, passes: Test)
    ensures ConvertAll(files, accepts, passes, None, None).ok <==>
            forall i :: 0 <= i < |files| ==> Kept(files[i], accepts, passes) != []
    ensures ConvertAll(files, accepts, passes, None, None).ok ==>
            ConvertAll(files, accepts, passes, None, None).bytes == Flatten(KeptOfAll(files, accepts, passes))
    decreases |files|
  {
    if |files| > 0 {
      var kept := Kept(files[0], accepts, passes);
      CutsOfRest(files, accepts, passes, None, None);
      FullCut(kept);
      JoinSucceedsIff(files[1..], accepts, passes);
      FlattenConcat(kept, KeptOfAll(files[1..], accepts, passes));
      assert forall i :: 0 < i < |files| ==> files[i] == files[1..][i - 1];
    }
  }

  /**
   * A refused range ends the run: the output is that of the files before it, and nothing of
   * the files behind it is written.
   */
  lemma {:induction false} JoinStops(files: seq<seq<Byte>>, rest: seq<seq<Byte>>, accepts: Test, passes: Test,
                                     begin: Option<int>, end: Option<int>)
    requires ConvertAll(files, accepts, passes, begin, end).ok
    ensures |rest| > 0 && Cut(Kept(rest[0], accepts, passes), begin, end) == None ==>
            ConvertAll(files + rest, accepts, passes, begin, end)
            == Output(false, ConvertAll(files, accepts, passes, begin, end).bytes)
    decreases |files|
  {
    if |rest| > 0 {
      if |files| == 0 {
        assert files + rest == rest;
      } else {
        CutsOfRest(files, accepts, passes, begin, end);
        CutsOfRest(files + rest, accepts, passes, begin, end);
        assert (files + rest)[1..] == files[1..] + rest;
        JoinStops(files[1..], rest, accepts, passes, begin, end);
      }
    }
  }

  lemma {:induction false} KeptOfAllAreRecords(files: seq<seq<Byte>>, accepts: Test, passes: Test)
    ensures forall i :: 0 <= i < |KeptOfAll(files, accepts, passes)| ==> IsRecord(KeptOfAll(files, accepts, passes)[i], accepts)
    decreases |files|
  {
    if |files| > 0 {
      KeptAreRecords(files[0], accepts, passes);
      KeptOfAllAreRecords(files[1..], accepts, passes);
    }
  }

  /** Joined files read as the kept messages of all of them, for every filter. */
  lemma JoinReadsBack(files: seq<seq<Byte>>, accepts: Test, passes: Test)
    requires forall i :: 0 <= i < |files| ==> Kept(files[i], accepts, passes) != []
    ensures var out := ConvertAll(files, accepts, passes, None, None);
            out.ok && Messages(out.bytes, accepts) == KeptOfAll(files, accepts, passes)
  {
    JoinSucceedsIff(files, accepts, passes);
    KeptOfAllAreRecords(files, accepts, passes);
    ReadBack(KeptOfAll(files, accepts, passes), accepts);
  }

  /** Without a filter, joining non-empty files of messages gives their concatenation. */
  lemma {:induction false} JoinConcatenates(files: seq<seq<Byte>>, msgs: seq<seq<seq<Byte>>>, accepts: Test)
    requires |files| == |msgs|
    requires forall i :: 0 <= i < |files| ==> IsRecordFile(files[i], msgs[i], accepts) && msgs[i] != []
    ensures ConvertAll(files, accepts, Everything, None, None) == Output(true, Flatten(files))
    decreases |files|
  {
    if |files| > 0 {
      assert IsRecordFile(files[0], msgs[0], accepts);
      ReadBack(msgs[0], accepts);
      AllPass(msgs[0]);
      CutsOfRest(files, accepts, Everything, None, None);
      FullCut(msgs[0]);
      JoinConcatenates(files[1..], msgs[1..], accepts);
    }
  }
}
