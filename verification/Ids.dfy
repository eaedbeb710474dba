/**
 * Application and context identifiers and the comparators that sort them.
 *
 * A DLT version 1 id is a 4-byte, zero-padded field. A version 2 id has an explicit length.
 */
module Ids {
  import opened Order

  const ID_SIZE := 4

  type Id = s: seq<Byte> | |s| == ID_SIZE witness [0, 0, 0, 0]

  function Zeros(n: nat): (z: seq<Byte>)
    ensures |z| == n && forall i :: 0 <= i < n ==> z[i] == 0
  {
    seq(n, _ => 0)
  }

  /** The bytes in front of the first NUL. */
  function CString(text: seq<Byte>): (c: seq<Byte>)
    ensures 0 !in c && c <= text
    ensures |c| < |text| ==> text[|c|] == 0
  {
    if |text| == 0 || text[0] == 0 then [] else [text[0]] + CString(text[1..])
  }

  /** A field copied up to its first NUL into zeroed memory of the same size. */
  function Padding(raw: seq<Byte>): (r: seq<Byte>)
    ensures |r| == |raw|
  {
    if |raw| == 0 then []
    else if raw[0] == 0 then Zeros(|raw|)
    else [raw[0]] + Padding(raw[1..])
  }

  /** dlt_set_id: at most four bytes of a text, stopping at its terminator. */
  function SetId(text: seq<Byte>): Id {
    Padding((text + Zeros(ID_SIZE))[..ID_SIZE])
  }

  predicate Padded(id: Id) {
    Padding(id) == id
  }

  lemma SetIdOfField(raw: Id)
    ensures SetId(raw) == Padding(raw)
  {
    assert (raw + Zeros(ID_SIZE))[..ID_SIZE] == raw;
  }

  lemma {:induction false} PaddingIdempotent(raw: seq<Byte>)
    ensures Padding(Padding(raw)) == Padding(raw)
  {
    if |raw| > 0 && raw[0] != 0 {
      PaddingIdempotent(raw[1..]);
      assert Padding(raw)[1..] == Padding(raw[1..]);
    }
  }

  lemma {:induction false} PaddingAt(raw: seq<Byte>, i: nat)
    requires i < |raw|
    ensures Padding(raw)[i] == if 0 !in raw[..i + 1] then raw[i] else 0
  {
    if raw[0] == 0 {
      assert raw[..i + 1][0] == 0;
    } else if i > 0 {
      PaddingAt(raw[1..], i - 1);
      assert raw[..i + 1] == [raw[0]] + raw[1..][..i];
    }
  }

  lemma FieldAt(text: seq<Byte>, n: nat, i: nat)
    requires i < n
    ensures Padding((text + Zeros(n))[..n])[i] == if i < |text| && 0 !in text[..i + 1] then text[i] else 0
  {
    var raw := (text + Zeros(n))[..n];
    PaddingAt(raw, i);
    if i < |text| {
      assert raw[..i + 1] == text[..i + 1];
    } else {
      assert raw[i] == 0 && raw[i] in raw[..i + 1];
    }
  }

  /** Byte i of a stored id is that of the text, as long as the text has not ended. */
  lemma SetIdAt(text: seq<Byte>, i: nat)
    requires i < 4
    ensures SetId(text)[i] == if i < |text| && 0 !in text[..i + 1] then text[i] else 0
  {
    FieldAt(text, 4, i);
  }

  lemma SetIdIsPadded(text: seq<Byte>)
    ensures Padded(SetId(text))
  {
    PaddingIdempotent((text + Zeros(ID_SIZE))[..ID_SIZE]);
  }

  lemma {:induction false} PaddingIsCString(raw: seq<Byte>)
    ensures Padding(raw) == CString(raw) + Zeros(|raw| - |CString(raw)|)
  {
    if |raw| > 0 && raw[0] != 0 {
      PaddingIsCString(raw[1..]);
    }
  }

  lemma {:induction false} PaddingOfText(text: seq<Byte>, n: nat)
    requires 0 !in text
    ensures Padding(text + Zeros(n)) == text + Zeros(n)
  {
    if |text| > 0 {
      assert (text + Zeros(n))[1..] == text[1..] + Zeros(n);
      PaddingOfText(text[1..], n);
    } else {
      assert text + Zeros(n) == Zeros(n);
    }
  }

  /** Printing a padded id with "%s" and reading it back with dlt_set_id gives the id. */
  lemma SetIdOfPrinted(id: Id)
    requires Padded(id)
    ensures SetId(CString(id)) == id
  {
    var c := CString(id);
    PaddingIsCString(id);
    assert (c + Zeros(ID_SIZE))[..ID_SIZE] == c + Zeros(ID_SIZE - |c|);
  }

  /** Normalising a field never raises it in the order. */
  lemma {:induction false} PaddingNotAbove(raw: seq<Byte>)
    ensures Padding(raw) == raw || Less(Padding(raw), raw)
  {
    if |raw| > 0 {
      if raw[0] == 0 {
        ZerosLeast(raw);
      } else {
        PaddingNotAbove(raw[1..]);
        assert Padding(raw)[1..] == Padding(raw[1..]);
        assert raw == [raw[0]] + raw[1..];
      }
    }
  }

  lemma {:induction false} ZerosLeast(raw: seq<Byte>)
    ensures Zeros(|raw|) == raw || Less(Zeros(|raw|), raw)
  {
    if |raw| > 0 {
      assert Zeros(|raw|)[1..] == Zeros(|raw| - 1);
      ZerosLeast(raw[1..]);
      assert raw == [raw[0]] + raw[1..];
    }
  }

  /** Bytes behind the terminator cannot lift a field over a greater padded one. */
  lemma {:induction false} PaddingBelow(raw: seq<Byte>, q: seq<Byte>)
    requires |raw| == |q| && Padding(q) == q
    requires Less(Padding(raw), q)
    ensures Less(raw, q)
  {
    assert |raw| > 0;
    if raw[0] == 0 {
      if q[0] == 0 {
        LessIrreflexive(q);
      }
    } else if raw[0] == q[0] {
      assert Padding(raw)[1..] == Padding(raw[1..]) && Padding(q)[1..] == Padding(q[1..]);
      PaddingBelow(raw[1..], q[1..]);
    }
  }

  // ---------------------------------------------------------------- comparators

  /** memcmp over fields of one size. */
  function Memcmp(a: seq<Byte>, b: seq<Byte>): (r: int)
    requires |a| == |b|
  {
    Compare(a, b)
  }

  /** Version 1 context comparator: application id first, then context id. */
  function CompareApidCtid(apid1: Id, ctid1: Id, apid2: Id, ctid2: Id): int {
    var cmp := Memcmp(apid1, apid2);
    if cmp < 0 then -1 else if cmp == 0 then Memcmp(ctid1, ctid2) else 1
  }

  /** The two-stage comparator is one lexicographic comparison of apid followed by ctid. */
  lemma CompareApidCtidIsLexicographic(apid1: Id, ctid1: Id, apid2: Id, ctid2: Id)
    ensures var r := CompareApidCtid(apid1, ctid1, apid2, ctid2);
            && (r < 0 <==> Less(apid1 + ctid1, apid2 + ctid2))
            && (r > 0 <==> Less(apid2 + ctid2, apid1 + ctid1))
            && (r == 0 <==> apid1 == apid2 && ctid1 == ctid2)
  {
    LessOfConcat(apid1, ctid1, apid2, ctid2);
    LessOfConcat(apid2, ctid2, apid1, ctid1);
    LessIsTotal(apid1, apid2);
  }

  /** Distinct pairs of ids have distinct keys. */
  lemma PairKeyInjective(apid1: Id, ctid1: Id, apid2: Id, ctid2: Id)
    ensures apid1 + ctid1 == apid2 + ctid2 <==> apid1 == apid2 && ctid1 == ctid2
  {
    assert (apid1 + ctid1)[..ID_SIZE] == apid1 && (apid1 + ctid1)[ID_SIZE..] == ctid1;
    assert (apid2 + ctid2)[..ID_SIZE] == apid2 && (apid2 + ctid2)[ID_SIZE..] == ctid2;
  }

  // ------------------------------------------------------------------ version 2

  /** A version 2 id: its length octet and that many bytes. */
  type IdV2 = s: seq<Byte> | |s| < 256 witness []

  /** dlt_set_id_v2: the text up to its terminator, zero-padded to the announced length. */
  function SetIdV2(text: seq<Byte>, len: Byte): (id: IdV2)
    ensures |id| == len
  {
    Padding((text + Zeros(len))[..len])
  }

  /** The same for an id of the announced length. */
  lemma SetIdV2At(text: seq<Byte>, len: Byte, i: nat)
    requires i < len
    ensures SetIdV2(text, len)[i] == if i < |text| && 0 !in text[..i + 1] then text[i] else 0
  {
    FieldAt(text, len, i);
  }

  function CompareV2(a: IdV2, b: IdV2): int {
    if |a| < |b| then -1 else if |a| > |b| then 1 else Memcmp(a, b)
  }

  function CompareApidCtidV2(apid1: IdV2, ctid1: IdV2, apid2: IdV2, ctid2: IdV2): int {
    if |apid1| < |apid2| then -1
    else if |apid1| > |apid2| then 1
    else
      var cmp := Memcmp(apid1, apid2);
      if cmp < 0 then -1
      else if cmp > 0 then 1
      else if |ctid1| < |ctid2| then -1
      else if |ctid1| > |ctid2| then 1
      else Memcmp(ctid1, ctid2)
  }

  /** The key of an application in a version 2 list. */
  function KeyV2(id: IdV2): Key {
    [|id|] + id
  }

  function PairKeyV2(apid: IdV2, ctid: IdV2): Key {
    KeyV2(apid) + KeyV2(ctid)
  }

  /** "Length first, then bytes" is the lexicographic order of the length-prefixed id. */
  lemma CompareV2IsLexicographic(a: IdV2, b: IdV2)
    ensures CompareV2(a, b) < 0 <==> Less(KeyV2(a), KeyV2(b))
    ensures CompareV2(a, b) > 0 <==> Less(KeyV2(b), KeyV2(a))
    ensures CompareV2(a, b) == 0 <==> a == b
    ensures KeyV2(a) == KeyV2(b) <==> a == b
  {
    assert KeyV2(a)[1..] == a && KeyV2(b)[1..] == b;
  }

  lemma PairKeyV2Order(apid1: IdV2, ctid1: IdV2, apid2: IdV2, ctid2: IdV2)
    ensures Less(PairKeyV2(apid1, ctid1), PairKeyV2(apid2, ctid2))
            <==> Less(KeyV2(apid1), KeyV2(apid2)) || (apid1 == apid2 && Less(KeyV2(ctid1), KeyV2(ctid2)))
    ensures PairKeyV2(apid1, ctid1) == PairKeyV2(apid2, ctid2) <==> apid1 == apid2 && ctid1 == ctid2
  {
    CompareV2IsLexicographic(apid1, apid2);
    CompareV2IsLexicographic(ctid1, ctid2);
    var k1, k2 := PairKeyV2(apid1, ctid1), PairKeyV2(apid2, ctid2);
    if |apid1| == |apid2| {
      LessOfConcat(KeyV2(apid1), KeyV2(ctid1), KeyV2(apid2), KeyV2(ctid2));
      var n := |apid1| + 1;
      assert k1[..n] == KeyV2(apid1) && k1[n..] == KeyV2(ctid1);
      assert k2[..n] == KeyV2(apid2) && k2[n..] == KeyV2(ctid2);
    } else {
      assert k1[0] == |apid1| && k2[0] == |apid2|;
    }
  }

  /**
   * The version 2 context comparator is a strict total order on pairs of ids, and it returns
   * zero exactly on equal pairs.
   */
  lemma CompareApidCtidV2IsLexicographic(apid1: IdV2, ctid1: IdV2, apid2: IdV2, ctid2: IdV2)
    ensures var r := CompareApidCtidV2(apid1, ctid1, apid2, ctid2);
            && (r < 0 <==> Less(PairKeyV2(apid1, ctid1), PairKeyV2(apid2, ctid2)))
            && (r > 0 <==> Less(PairKeyV2(apid2, ctid2), PairKeyV2(apid1, ctid1)))
            && (r == 0 <==> apid1 == apid2 && ctid1 == ctid2)
  {
    PairKeyV2Order(apid1, ctid1, apid2, ctid2);
    PairKeyV2Order(apid2, ctid2, apid1, ctid1);
    CompareV2IsLexicographic(apid1, apid2);
    CompareV2IsLexicographic(ctid1, ctid2);
    LessIsTotal(KeyV2(apid1), KeyV2(apid2));
  }
}
