/**
 * The text level of the runtime configuration files: decimal numbers as printf and sscanf
 * handle them, fields as strtok splits them, lines as fgets reads them.
 */
module RuntimeText {
  import opened Order
  import opened Entities

  const COLON: Byte := 58
  const NEWLINE: Byte := 10
  const MINUS: Byte := 45
  const PLUS: Byte := 43

  /** The size of the line buffer; fgets stores one byte less. */
  const TEXT_BUFFER_SIZE := 255

  // --------------------------------------------------------------------- numbers

  predicate IsDigit(b: Byte) {
    48 <= b <= 57
  }

  predicate IsSpace(b: Byte) {
    b == 32 || 9 <= b <= 13
  }

  function PrintNat(n: nat): (s: seq<Byte>)
    ensures |s| > 0 && forall i :: 0 <= i < |s| ==> IsDigit(s[i])
  {
    if n < 10 then [48 + n] else PrintNat(n / 10) + [48 + n % 10]
  }

  /** printf "%d". */
  function PrintInt(n: int): (s: seq<Byte>)
    ensures |s| > 0 && COLON !in s && NEWLINE !in s && 0 !in s
  {
    if n < 0 then [MINUS] + PrintNat(-n) else PrintNat(n)
  }

  function ValueOf(digits: seq<Byte>): int {
    if |digits| == 0 then 0 else ValueOf(digits[..|digits| - 1]) * 10 + digits[|digits| - 1] - 48
  }

  function LeadingDigits(s: seq<Byte>): seq<Byte> {
    if |s| == 0 || !IsDigit(s[0]) then [] else [s[0]] + LeadingDigits(s[1..])
  }

  function SkipSpaces(s: seq<Byte>): seq<Byte> {
    if |s| == 0 || !IsSpace(s[0]) then s else SkipSpaces(s[1..])
  }

  /** sscanf "%d": None when nothing could be converted. */
  function ScanInt(s: seq<Byte>): Option<int> {
    var t := SkipSpaces(s);
    var signed := |t| > 0 && (t[0] == MINUS || t[0] == PLUS);
    var digits := LeadingDigits(if signed then t[1..] else t);
    if |digits| == 0 then None
    else if signed && t[0] == MINUS then Some(0 - ValueOf(digits))
    else Some(ValueOf(digits))
  }

  lemma {:induction false} ValueOfPrinted(n: nat)
    ensures ValueOf(PrintNat(n)) == n
  {
    if n >= 10 {
      ValueOfPrinted(n / 10);
      assert PrintNat(n)[..|PrintNat(n)| - 1] == PrintNat(n / 10);
    } else {
      assert PrintNat(n)[..0] == [];
    }
  }

  lemma {:induction false} AllDigits(s: seq<Byte>)
    requires forall i :: 0 <= i < |s| ==> IsDigit(s[i])
    ensures LeadingDigits(s) == s
  {
    if |s| > 0 {
      AllDigits(s[1..]);
      assert s == [s[0]] + s[1..];
    }
  }

  /** Every integer survives printing and scanning. */
  lemma ScanPrinted(n: int)
    ensures ScanInt(PrintInt(n)) == Some(n)
  {
    var m: nat := if n < 0 then -n else n;
    ValueOfPrinted(m);
    AllDigits(PrintNat(m));
    if n < 0 {
      assert PrintInt(n)[1..] == PrintNat(m);
    }
  }

  // ---------------------------------------------------------------------- fields

  /** The length of the field at the front of s. */
  function FieldLength(s: seq<Byte>): (n: nat)
    ensures n <= |s| && COLON !in s[..n] && (n < |s| ==> s[n] == COLON)
  {
    if |s| == 0 || s[0] == COLON then 0
    else
      var m := FieldLength(s[1..]);
      assert s[..m + 1] == [s[0]] + s[1..][..m];
      m + 1
  }

  /** What successive calls of strtok with ":" return: the non-empty fields of s. */
  function Fields(s: seq<Byte>): (f: seq<seq<Byte>>)
    decreases |s|
  {
    if |s| == 0 then []
    else if s[0] == COLON then Fields(s[1..])
    else [s[..FieldLength(s)]] + Fields(s[FieldLength(s)..])
  }

  lemma {:induction false} FieldLengthIs(t: seq<Byte>, s: seq<Byte>)
    requires COLON !in t && (|s| == 0 || s[0] == COLON)
    ensures FieldLength(t + s) == |t|
    decreases |t|
  {
    if |t| > 0 {
      assert (t + s)[1..] == t[1..] + s;
      FieldLengthIs(t[1..], s);
    } else {
      assert t + s == s;
    }
  }

  /** A non-empty field in front of a delimiter is the next token. */
  lemma FieldsCons(t: seq<Byte>, s: seq<Byte>)
    requires |t| > 0 && COLON !in t
    ensures Fields(t + [COLON] + s) == [t] + Fields(s)
  {
    var all := t + [COLON] + s;
    assert all == t + ([COLON] + s);
    FieldLengthIs(t, [COLON] + s);
    assert all[..|t|] == t && all[|t|..] == [COLON] + s;
    assert ([COLON] + s)[1..] == s;
  }

  lemma FieldsLast(t: seq<Byte>)
    requires |t| > 0 && COLON !in t
    ensures Fields(t) == [t]
  {
    assert t + [] == t;
    FieldLengthIs(t, []);
    assert t[..|t|] == t && t[|t|..] == [];
  }

  lemma FieldsSkip(s: seq<Byte>)
    ensures Fields([COLON] + s) == Fields(s)
  {
    assert ([COLON] + s)[1..] == s;
  }

  // ----------------------------------------------------------------------- lines

  /** The number of bytes fgets takes: through the first newline, at most limit. */
  function LineLength(file: seq<Byte>, limit: nat): (n: nat)
    ensures n <= |file| && n <= limit
    ensures |file| > 0 && limit > 0 ==> n > 0
  {
    if |file| == 0 || limit == 0 then 0
    else if file[0] == NEWLINE then 1
    else 1 + LineLength(file[1..], limit - 1)
  }

  /** A short line with its newline is read as one. */
  lemma {:induction false} LineLengthIs(text: seq<Byte>, rest: seq<Byte>, limit: nat)
    requires NEWLINE !in text && |text| < limit
    ensures LineLength(text + [NEWLINE] + rest, limit) == |text| + 1
    decreases |text|
  {
    var all := text + [NEWLINE] + rest;
    if |text| > 0 {
      assert all[1..] == text[1..] + [NEWLINE] + rest;
      LineLengthIs(text[1..], rest, limit - 1);
    }
  }
}
