/**
 * The configured per-application settings: two scans over tables sorted by application and
 * context id that stop early, and what they find.
 */
module Settings {
  import opened Order
  import opened SortedTable
  import opened Ids
  import opened Entities

  datatype Setting = Setting(apid: Id, ctid: Id, value: int)

  /** strncmp: texts end at their first NUL or at their last byte. */
  function Strncmp(a: seq<Byte>, b: seq<Byte>, n: nat): int
    decreases n
  {
    if n == 0 then 0
    else
      var x: Byte := if |a| > 0 then a[0] else 0;
      var y: Byte := if |b| > 0 then b[0] else 0;
      if x != y || x == 0 then x as int - y as int
      else Strncmp(a[1..], b[1..], n - 1)
  }

  /** The first n bytes of a text in a zeroed field. */
  function Field(text: seq<Byte>, n: nat): seq<Byte> {
    Padding((text + Zeros(n))[..n])
  }

  lemma FieldStep(text: seq<Byte>, n: nat)
    requires n > 0
    ensures |text| > 0 && text[0] != 0 ==> Field(text, n) == [text[0]] + Field(text[1..], n - 1)
    ensures |text| == 0 || text[0] == 0 ==> Field(text, n) == Zeros(n)
  {
    var raw := (text + Zeros(n))[..n];
    if |text| > 0 && text[0] != 0 {
      assert raw[1..] == (text[1..] + Zeros(n - 1))[..n - 1];
    } else {
      assert raw[0] == 0;
    }
  }

  /** strncmp orders texts as their zero-padded fields are ordered. */
  lemma {:induction false} StrncmpIsCompare(a: seq<Byte>, b: seq<Byte>, n: nat)
    ensures Strncmp(a, b, n) == 0 <==> Field(a, n) == Field(b, n)
    ensures Strncmp(a, b, n) < 0 <==> Less(Field(a, n), Field(b, n))
    decreases n
  {
    if n > 0 {
      FieldStep(a, n);
      FieldStep(b, n);
      var x: Byte := if |a| > 0 then a[0] else 0;
      var y: Byte := if |b| > 0 then b[0] else 0;
      assert Field(a, n)[0] == x && Field(b, n)[0] == y;
      if x == y {
        if x == 0 {
          LessIrreflexive(Zeros(n));
        } else {
          StrncmpIsCompare(a[1..], b[1..], n - 1);
          assert Field(a, n)[1..] == Field(a[1..], n - 1) && Field(b, n)[1..] == Field(b[1..], n - 1);
        }
      }
    }
  }

  function SettingKey(e: Setting): Key {
    e.apid + e.ctid
  }

  predicate IdsPadded(table: seq<Setting>) {
    forall i {:trigger table[i]} :: 0 <= i < |table| ==> Padded(table[i].apid) && Padded(table[i].ctid)
  }

  /** dlt_daemon_compare_trace_load_settings */
  function CompareTraceLoad(a: Setting, b: Setting): int {
    var c := Strncmp(a.apid, b.apid, ID_SIZE);
    if c != 0 then c else Strncmp(a.ctid, b.ctid, ID_SIZE)
  }

  lemma StrncmpOfPadded(a: Id, b: Id)
    requires Padded(a) && Padded(b)
    ensures Strncmp(a, b, ID_SIZE) == 0 <==> a == b
    ensures Strncmp(a, b, ID_SIZE) < 0 <==> Less(a, b)
  {
    StrncmpIsCompare(a, b, ID_SIZE);
    SetIdOfField(a);
    SetIdOfField(b);
  }

  /** The comparator of the trace load table orders by the concatenated ids. */
  lemma CompareTraceLoadIsLexicographic(a: Setting, b: Setting)
    requires Padded(a.apid) && Padded(a.ctid) && Padded(b.apid) && Padded(b.ctid)
    ensures CompareTraceLoad(a, b) == 0 <==> SettingKey(a) == SettingKey(b)
    ensures CompareTraceLoad(a, b) < 0 <==> Less(SettingKey(a), SettingKey(b))
  {
    StrncmpOfPadded(a.apid, b.apid);
    StrncmpOfPadded(a.ctid, b.ctid);
    LessOfConcat(a.apid, a.ctid, b.apid, b.ctid);
    assert SettingKey(a) == SettingKey(b) ==> a.apid == b.apid && a.ctid == b.ctid by {
      assert a.apid == SettingKey(a)[..ID_SIZE] && b.apid == SettingKey(b)[..ID_SIZE];
      assert a.ctid == SettingKey(a)[ID_SIZE..] && b.ctid == SettingKey(b)[ID_SIZE..];
    }
  }

  // ------------------------------------------------------------------ one application

  predicate OfApp(e: Setting, apid: seq<Byte>) {
    Strncmp(apid, e.apid, ID_SIZE) == 0
  }

  lemma OfAppIsId(e: Setting, apid: seq<Byte>)
    requires Padded(e.apid)
    ensures OfApp(e, apid) <==> e.apid == SetId(apid)
  {
    StrncmpIsCompare(apid, e.apid, ID_SIZE);
    SetIdOfField(e.apid);
  }

  /** The entries of one application lie next to each other. */
  lemma NoneAfter(table: seq<Setting>, apid: seq<Byte>, i: nat, j: nat)
    requires StrictlySorted(table, SettingKey) && IdsPadded(table)
    requires i < j < |table| && OfApp(table[i], apid) && !OfApp(table[j], apid)
    ensures forall k :: j <= k < |table| ==> !OfApp(table[k], apid)
  {
    forall k | j < k < |table|
      ensures !OfApp(table[k], apid)
    {
      var a, b, c := table[i], table[j], table[k];
      OfAppIsId(a, apid);
      OfAppIsId(b, apid);
      OfAppIsId(c, apid);
      assert InOrder(table, SettingKey, i, j) && InOrder(table, SettingKey, j, k);
      LessOfConcat(a.apid, a.ctid, b.apid, b.ctid);
      LessOfConcat(b.apid, b.ctid, c.apid, c.ctid);
      LessIsTotal(a.apid, b.apid);
    }
  }

  // ------------------------------------------------------------------ log settings

  /** The entry for all contexts of its application. */
  predicate AppLevel(e: Setting) {
    |CString(e.ctid)| == 0
  }

  predicate NoContext(ctid: Option<seq<Byte>>) {
    ctid.None? || |CString(ctid.value)| == 0
  }

  predicate ExactContext(e: Setting, ctid: Option<seq<Byte>>) {
    !NoContext(ctid) && Strncmp(ctid.value, e.ctid, ID_SIZE) == 0
  }

  /** The entry of exactly this application and context, else the application's, else none. */
  ghost predicate IsLookup(table: seq<Setting>, apid: seq<Byte>, ctid: Option<seq<Byte>>, r: Option<nat>) {
    if r.Some? then
      && r.value < |table| && OfApp(table[r.value], apid)
      && (|| ExactContext(table[r.value], ctid)
          || (AppLevel(table[r.value]) && NoExact(table, |table|, apid, ctid)))
    else NoExact(table, |table|, apid, ctid) && NoAppLevel(table, |table|, apid)
  }

  ghost predicate NoExact(table: seq<Setting>, n: nat, apid: seq<Byte>, ctid: Option<seq<Byte>>) {
    forall i :: 0 <= i < n && i < |table| && OfApp(table[i], apid) ==> !ExactContext(table[i], ctid)
  }

  ghost predicate NoAppLevel(table: seq<Setting>, n: nat, apid: seq<Byte>) {
    forall i :: 0 <= i < n && i < |table| && OfApp(table[i], apid) ==> !AppLevel(table[i])
  }

  /** dlt_daemon_find_configured_app_id_ctx_id_settings */
  method FindLogSettings(table: seq<Setting>, apid: seq<Byte>, ctid: Option<seq<Byte>>) returns (r: Option<nat>)
    requires StrictlySorted(table, SettingKey) && IdsPadded(table)
    ensures IsLookup(table, apid, ctid, r)
  {
    r := None;
    for i := 0 to |table|
      invariant NoExact(table, i, apid, ctid)
      invariant if r.Some? then
                  r.value < i && OfApp(table[r.value], apid) && AppLevel(table[r.value]) && !NoContext(ctid)
                else NoAppLevel(table, i, apid)
    {
      if !OfApp(table[i], apid) {
        if r.Some? {
          NoneAfter(table, apid, r.value, i);
          return;
        }
        continue;
      }
      if AppLevel(table[i]) {
        r := Some(i);
      }
      if NoContext(ctid) {
        if r.Some? {
          return;
        }
      } else if ExactContext(table[i], ctid) {
        return Some(i);
      }
    }
  }

  /** On a sorted table there is only one answer. */
  lemma LookupUnique(table: seq<Setting>, apid: seq<Byte>, ctid: Option<seq<Byte>>, r: Option<nat>, q: Option<nat>)
    requires StrictlySorted(table, SettingKey) && IdsPadded(table)
    requires IsLookup(table, apid, ctid, r) && IsLookup(table, apid, ctid, q)
    ensures r == q
  {
    if r.Some? && q.Some? {
      var a, b := table[r.value], table[q.value];
      OfAppIsId(a, apid);
      OfAppIsId(b, apid);
      if ExactContext(a, ctid) {
        StrncmpIsCompare(ctid.value, a.ctid, ID_SIZE);
        StrncmpIsCompare(ctid.value, b.ctid, ID_SIZE);
      }
      SetIdOfField(a.ctid);
      SetIdOfField(b.ctid);
      PaddingIsCString(a.ctid);
      PaddingIsCString(b.ctid);
      assert SettingKey(a) == SettingKey(b);
      LessIrreflexive(SettingKey(a));
      assert InOrder(table, SettingKey, r.value, q.value) && InOrder(table, SettingKey, q.value, r.value);
    }
  }

  /** The context id that a search is about; none and an empty one are the same. */
  function SoughtContext(ctid: Option<seq<Byte>>): Id {
    if ctid.None? then [0, 0, 0, 0] else SetId(ctid.value)
  }

  lemma EmptyText(text: seq<Byte>)
    ensures |CString(text)| == 0 <==> SetId(text) == [0, 0, 0, 0]
  {
    FieldStep(text, ID_SIZE);
    assert SetId(text) == Field(text, ID_SIZE) && Zeros(4) == [0, 0, 0, 0];
    if |text| > 0 && text[0] != 0 { assert Field(text, ID_SIZE)[0] == text[0]; }
  }

  lemma ContextById(e: Setting, ctid: Option<seq<Byte>>)
    requires Padded(e.ctid)
    ensures NoContext(ctid) <==> SoughtContext(ctid) == [0, 0, 0, 0]
    ensures AppLevel(e) <==> e.ctid == [0, 0, 0, 0]
    ensures ExactContext(e, ctid) <==> !NoContext(ctid) && e.ctid == SoughtContext(ctid)
  {
    SetIdOfField(e.ctid);
    EmptyText(e.ctid);
    if ctid.Some? {
      EmptyText(ctid.value);
      StrncmpIsCompare(ctid.value, e.ctid, ID_SIZE);
    }
  }

  ghost predicate Lists(table: seq<Setting>, apid: Id, ctid: Id) {
    exists i :: 0 <= i < |table| && table[i].apid == apid && table[i].ctid == ctid
  }

  /**
   * The answer by stored ids: the entry of this application and context; if there is none, the
   * entry of this application without a context; if there is none either, none.
   */
  lemma LookupByIds(table: seq<Setting>, apid: seq<Byte>, ctid: Option<seq<Byte>>, r: Option<nat>)
    requires IdsPadded(table) && IsLookup(table, apid, ctid, r)
    ensures var a, c := SetId(apid), SoughtContext(ctid);
            && (r.Some? <==> Lists(table, a, c) || Lists(table, a, [0, 0, 0, 0]))
            && (r.Some? ==> r.value < |table| && table[r.value].apid == a
                            && table[r.value].ctid == if Lists(table, a, c) then c else [0, 0, 0, 0])
  {
    forall i | 0 <= i < |table|
      ensures OfApp(table[i], apid) <==> table[i].apid == SetId(apid)
      ensures NoContext(ctid) <==> SoughtContext(ctid) == [0, 0, 0, 0]
      ensures AppLevel(table[i]) <==> table[i].ctid == [0, 0, 0, 0]
      ensures ExactContext(table[i], ctid) <==> !NoContext(ctid) && table[i].ctid == SoughtContext(ctid)
    {
      OfAppIsId(table[i], apid);
      ContextById(table[i], ctid);
    }
  }

  // ------------------------------------------------------------------ trace load

  predicate Wanted(e: Setting, apid: seq<Byte>, ctid: Option<seq<Byte>>) {
    OfApp(e, apid) && (NoContext(ctid) || Strncmp(ctid.value, e.ctid, ID_SIZE) == 0)
  }

  /** The wanted entries in table order. */
  function Filtered(table: seq<Setting>, apid: seq<Byte>, ctid: Option<seq<Byte>>): seq<Setting> {
    if |table| == 0 then []
    else
      var n := |table| - 1;
      Filtered(table[..n], apid, ctid) + (if Wanted(table[n], apid, ctid) then [table[n]] else [])
  }

  /** Nothing but the wanted entries, and all of them. */
  lemma {:induction false} FilteredMembers(table: seq<Setting>, apid: seq<Byte>, ctid: Option<seq<Byte>>)
    ensures forall e :: e in Filtered(table, apid, ctid) <==> e in table && Wanted(e, apid, ctid)
  {
    if |table| > 0 {
      var n := |table| - 1;
      FilteredMembers(table[..n], apid, ctid);
      assert table == table[..n] + [table[n]];
    }
  }

  /** By stored ids: the entries of this application, and of this context if one is given. */
  lemma FilteredByIds(table: seq<Setting>, apid: seq<Byte>, ctid: Option<seq<Byte>>, e: Setting)
    requires Padded(e.apid) && Padded(e.ctid)
    ensures e in Filtered(table, apid, ctid) <==>
            e in table && e.apid == SetId(apid) && (SoughtContext(ctid) == [0, 0, 0, 0] || e.ctid == SoughtContext(ctid))
  {
    FilteredMembers(table, apid, ctid);
    OfAppIsId(e, apid);
    ContextById(e, ctid);
  }

  lemma FilteredNext(table: seq<Setting>, i: nat, apid: seq<Byte>, ctid: Option<seq<Byte>>)
    requires i < |table|
    ensures Filtered(table[..i + 1], apid, ctid)
            == Filtered(table[..i], apid, ctid) + (if Wanted(table[i], apid, ctid) then [table[i]] else [])
  {
    assert table[..i + 1][..i] == table[..i];
  }

  lemma {:induction false} FilteredSorted(table: seq<Setting>, apid: seq<Byte>, ctid: Option<seq<Byte>>)
    requires StrictlySorted(table, SettingKey)
    ensures StrictlySorted(Filtered(table, apid, ctid), SettingKey)
  {
    if |table| > 0 {
      var n := |table| - 1;
      var front := Filtered(table[..n], apid, ctid);
      PrefixSorted(table, SettingKey, n);
      FilteredSorted(table[..n], apid, ctid);
      FilteredMembers(table[..n], apid, ctid);
      var all := Filtered(table, apid, ctid);
      forall i, j ensures InOrder(all, SettingKey, i, j) {
        if 0 <= i < j < |all| {
          if j < |front| {
            assert InOrder(front, SettingKey, i, j);
          } else {
            assert front[i] in table[..n];
            var k :| 0 <= k < n && table[k] == front[i];
            assert InOrder(table, SettingKey, k, n);
          }
        }
      }
    }
  }

  lemma {:induction false} NothingMore(table: seq<Setting>, i: nat, apid: seq<Byte>, ctid: Option<seq<Byte>>)
    requires i <= |table| && forall k :: i <= k < |table| ==> !OfApp(table[k], apid)
    ensures Filtered(table, apid, ctid) == Filtered(table[..i], apid, ctid)
    decreases |table|
  {
    if i == |table| {
      assert table[..i] == table;
    } else {
      var n := |table| - 1;
      NothingMore(table[..n], i, apid, ctid);
      assert table[..n][..i] == table[..i];
    }
  }

  /**
   * dlt_daemon_find_preconfigured_trace_load_settings. The first `memory` reallocations
   * succeed; the one after them fails and leaves nothing.
   */
  method FindTraceLoadSettings(table: seq<Setting>, apid: seq<Byte>, ctid: Option<seq<Byte>>, memory: nat)
    returns (ok: bool, found: seq<Setting>)
    requires StrictlySorted(table, SettingKey) && IdsPadded(table)
    ensures ok <==> |Filtered(table, apid, ctid)| <= memory
    ensures found == if ok then Filtered(table, apid, ctid) else []
    ensures StrictlySorted(found, SettingKey)
  {
    found := [];
    ghost var first := 0;
    var i := 0;
    while i < |table|
      invariant 0 <= first && 0 <= i <= |table| && found == Filtered(table[..i], apid, ctid) && |found| <= memory
      invariant |found| > 0 ==> first < i && OfApp(table[first], apid)
    {
      FilteredNext(table, i, apid, ctid);
      if !OfApp(table[i], apid) {
        if |found| != 0 {
          NoneAfter(table, apid, first, i);
          break;
        }
      } else if NoContext(ctid) || Strncmp(ctid.value, table[i].ctid, ID_SIZE) == 0 {
        if |found| == memory {
          FilteredGrows(table, i + 1, apid, ctid);
          return false, [];
        }
        found, first := found + [table[i]], i;
      }
      i := i + 1;
    }
    NothingMore(table, i, apid, ctid);
    SortChangesNothing(table, apid, ctid);
    return true, Sort(found, SettingKey);
  }

  lemma SortChangesNothing(table: seq<Setting>, apid: seq<Byte>, ctid: Option<seq<Byte>>)
    requires StrictlySorted(table, SettingKey)
    ensures var found := Filtered(table, apid, ctid); StrictlySorted(found, SettingKey) && Sort(found, SettingKey) == found
  {
    FilteredSorted(table, apid, ctid);
    SortOfSorted(Filtered(table, apid, ctid), SettingKey);
  }

  lemma {:induction false} FilteredGrows(table: seq<Setting>, i: nat, apid: seq<Byte>, ctid: Option<seq<Byte>>)
    requires i <= |table|
    ensures |Filtered(table[..i], apid, ctid)| <= |Filtered(table, apid, ctid)|
    decreases |table|
  {
    if i == |table| {
      assert table[..i] == table;
    } else {
      var n := |table| - 1;
      FilteredGrows(table[..n], i, apid, ctid);
      assert table[..n][..i] == table[..i];
    }
  }
}
