/**
 * Ids with bytes behind their terminator. The range check in front of the binary search
 * compares the raw bytes, so it can hide a listed entry; exactly when it does, and what
 * registering such an id then does to the list.
 */
module UnpaddedIds {
  import opened Order
  import opened Ids
  import opened SortedTable
  import opened TableMaps
  import opened Entities
  import opened UserLists
  import opened Refinement

  /** An application is hidden only from an un-padded id of the last entry. */
  ghost predicate Hidden(u: UserList, raw: Id) {
    raw[0] != 0 && !Padded(raw) && |u.apps| > 0 && u.apps[|u.apps| - 1].apid == SetId(raw)
  }

  /** A context is hidden only from an un-padded id of the application of the last context. */
  ghost predicate HiddenCtx(u: UserList, rawApid: Id, rawCtid: Id) {
    && rawApid[0] != 0 && rawCtid[0] != 0 && !Padded(rawApid)
    && |u.ctxs| > 0 && u.ctxs[|u.ctxs| - 1].apid == SetId(rawApid)
    && Has(u.ctxs, CtxKey, SetId(rawApid) + SetId(rawCtid))
  }

  lemma SetIdTwice(raw: Id)
    ensures SetId(SetId(raw)) == SetId(raw) && Padded(SetId(raw)) && (SetId(raw)[0] == 0 <==> raw[0] == 0)
    ensures Padded(raw) <==> SetId(raw) == raw
  {
    SetIdIsPadded(raw);
    SetIdOfField(SetId(raw));
    SetIdOfField(raw);
  }

  lemma FindAppNormal(u: UserList, raw: Id)
    requires Ordered(u) && !Hidden(u, raw)
    ensures FindApp(u.apps, raw) == FindApp(u.apps, SetId(raw))
  {
    SetIdTwice(raw);
    if raw[0] != 0 {
      FindAppExact(u, raw);
      FindAppExact(u, SetId(raw));
    }
  }

  /** Exactly when a context lookup gives the table's answer. */
  lemma FindCtxExact(u: UserList, rawApid: Id, rawCtid: Id)
    requires Ordered(u) && rawApid[0] != 0 && rawCtid[0] != 0
    ensures FindCtx(u.ctxs, rawApid, rawCtid) == Position(u.ctxs, CtxKey, SetId(rawApid) + SetId(rawCtid))
            <==> !HiddenCtx(u, rawApid, rawCtid)
  {
    var a, k := SetId(rawApid), SetId(rawApid) + SetId(rawCtid);
    var ctxs, p := u.ctxs, Position(u.ctxs, CtxKey, k);
    PositionHas(ctxs, CtxKey, k);
    SetIdTwice(rawApid);
    if p >= 0 {
      var first, last := ctxs[0], ctxs[|ctxs| - 1];
      assert CtxIdsOk(first) && CtxIdsOk(last);
      PairKeyInjective(ctxs[p].apid, ctxs[p].ctid, a, SetId(rawCtid));
      CtxRange(ctxs, p);
      LessIsTotal(first.apid, a);
      LessIsTotal(a, last.apid);
      RangeCheckMisses(rawApid, first.apid, last.apid, a);
    }
  }

  lemma FindCtxNormal(u: UserList, rawApid: Id, rawCtid: Id)
    requires Ordered(u) && !HiddenCtx(u, rawApid, rawCtid)
    ensures FindCtx(u.ctxs, rawApid, rawCtid) == FindCtx(u.ctxs, SetId(rawApid), SetId(rawCtid))
  {
    SetIdTwice(rawApid);
    SetIdTwice(rawCtid);
    if rawApid[0] != 0 && rawCtid[0] != 0 {
      FindCtxExact(u, rawApid, rawCtid);
      FindCtxExact(u, SetId(rawApid), SetId(rawCtid));
    }
  }

  /** Unless the entry is hidden, the raw id and its normal form register the same record. */
  lemma AddAppNormal(build: Build, u: UserList, raw: Id, pid: int, description: Option<seq<Byte>>, fd: int, pipe: OpenResult)
    requires Ordered(u) && !Hidden(u, raw)
    ensures var r, s := AddApp(build, u, raw, pid, description, fd, pipe), AddApp(build, u, SetId(raw), pid, description, fd, pipe);
            r.users == s.users && r.events == s.events
  {
    SetIdTwice(raw);
    FindAppNormal(u, raw);
    assert NewApplication(raw) == NewApplication(SetId(raw));
  }

  lemma AddCtxNormal(cfg: Config, u: UserList, rawApid: Id, rawCtid: Id, r: Registration)
    requires Ordered(u) && !Hidden(u, rawApid) && !HiddenCtx(u, rawApid, rawCtid)
    ensures AddCtx(cfg, u, rawApid, rawCtid, r).users == AddCtx(cfg, u, SetId(rawApid), SetId(rawCtid), r).users
  {
    SetIdTwice(rawApid);
    SetIdTwice(rawCtid);
    FindAppNormal(u, rawApid);
    FindCtxNormal(u, rawApid, rawCtid);
    assert NewContext(rawApid, rawCtid) == NewContext(SetId(rawApid), SetId(rawCtid));
  }

  /** A second entry under a key breaks the order. */
  lemma SecondEntryUnsorted<T>(s: seq<T>, key: T -> Key, x: T)
    requires StrictlySorted(s, key) && Has(s, key, key(x))
    ensures !StrictlySorted(Sort(s + [x], key), key)
  {
    AppendThenSort(s, key, x);
    InsertSplits(s, key, x);
    LessIrreflexive(key(x));
    var p := InsertPosition(s, key, key(x));
    var i :| 0 <= i < |s| && key(s[i]) == key(x);
    var t := s[..p] + [x] + s[p..];
    var j := if i < p then i else i + 1;
    assert key(t[j]) == key(t[p]) == key(x);
    assert !InOrder(t, key, p, j) || !InOrder(t, key, j, p);
  }

  lemma HiddenListedTwice(build: Build, u: UserList, raw: Id, pid: int, description: Option<seq<Byte>>, fd: int, pipe: OpenResult)
    requires Ordered(u) && Hidden(u, raw)
    ensures !Ordered(AddApp(build, u, raw, pid, description, fd, pipe).users)
  {
    FindAppExact(u, raw);
    assert FindApp(u.apps, raw) < 0;
    AppendedThenConfigured(build, u, raw, pid, description, fd, pipe);
    var v := Others(build, u, pid, fd, pipe);
    assert Ordered(v) && Has(v.apps, AppKey, SetId(raw)) by {
      OthersRefine(build, u, pid, fd, pipe);
      HasAt(u.apps, AppKey, |u.apps| - 1);
    }
    SecondEntryUnsorted(v.apps, AppKey, FirstRecord(build, raw, pid, description, fd, pipe));
  }

  /** The range check of dlt_daemon_application_find refuses the id. */
  predicate AppOutside(apps: seq<Application>, raw: Id) {
    |apps| > 0 && (Memcmp(raw, apps[0].apid) < 0 || Memcmp(raw, apps[|apps| - 1].apid) > 0)
  }

  predicate CtxOutside(ctxs: seq<Context>, rawApid: Id) {
    |ctxs| > 0 && (Memcmp(rawApid, ctxs[0].apid) < 0 || Memcmp(rawApid, ctxs[|ctxs| - 1].apid) > 0)
  }

  lemma LastAfterSort<T>(s: seq<T>, key: T -> Key, x: T)
    requires StrictlySorted(s, key) && |s| > 0
    ensures var t := Sort(s + [x], key); |t| == |s| + 1 && (t[|s|] == x || t[|s|] == s[|s| - 1])
  {
    AppendThenSort(s, key, x);
    InsertSplits(s, key, x);
  }

  lemma UnpaddedIsAbove(raw: Id)
    requires !Padded(raw)
    ensures Memcmp(raw, SetId(raw)) > 0
  {
    SetIdTwice(raw);
    LessIsTotal(SetId(raw), SetId(raw));
    RangeCheckMisses(raw, SetId(raw), SetId(raw), SetId(raw));
  }

  /** The second entry of a hidden application is hidden too: the caller is told that nothing was added. */
  lemma HiddenStaysOutside(build: Build, u: UserList, raw: Id, pid: int, description: Option<seq<Byte>>, fd: int, pipe: OpenResult)
    requires Ordered(u) && Hidden(u, raw)
    ensures AppOutside(InsertApp(build, u, raw, pid, description, fd, pipe).users.apps, raw)
  {
    AppendedThenConfigured(build, u, raw, pid, description, fd, pipe);
    var v := Others(build, u, pid, fd, pipe);
    OthersRefine(build, u, pid, fd, pipe);
    LastAfterSort(v.apps, AppKey, FirstRecord(build, raw, pid, description, fd, pipe));
    UnpaddedIsAbove(raw);
  }

  lemma HiddenCtxStaysOutside(u: UserList, a: nat, rawApid: Id, rawCtid: Id, c: Context)
    requires Ordered(u) && HiddenCtx(u, rawApid, rawCtid) && a < |u.apps| && c.apid == SetId(rawApid)
    ensures CtxOutside(InsertCtx(u, a, c).ctxs, rawApid)
  {
    LastAfterSort(u.ctxs, CtxKey, c);
    UnpaddedIsAbove(rawApid);
  }

  /**
   * Registering an application keeps the list sorted and free of duplicates if and only if
   * its id has nothing behind the terminator or is not the id of the last entry.
   */
  lemma AddKeepsOrderIff(build: Build, u: UserList, raw: Id, pid: int, description: Option<seq<Byte>>, fd: int, pipe: OpenResult)
    requires Ordered(u)
    ensures Ordered(AddApp(build, u, raw, pid, description, fd, pipe).users) <==> !Hidden(u, raw)
  {
    if Hidden(u, raw) {
      HiddenListedTwice(build, u, raw, pid, description, fd, pipe);
    } else {
      AddAppNormal(build, u, raw, pid, description, fd, pipe);
      SetIdIsPadded(raw);
      AddAppRefines(build, u, SetId(raw), pid, description, fd, pipe);
    }
  }

  lemma AddCtxKeepsOrder(cfg: Config, u: UserList, rawApid: Id, rawCtid: Id, r: Registration)
    requires Ordered(u) && !HiddenCtx(u, rawApid, rawCtid)
    ensures Ordered(AddCtx(cfg, u, rawApid, rawCtid, r).users)
  {
    if Hidden(u, rawApid) {
      FindAppExact(u, rawApid);
    } else {
      AddCtxNormal(cfg, u, rawApid, rawCtid, r);
      SetIdIsPadded(rawApid);
      SetIdIsPadded(rawCtid);
      AddCtxRefines(cfg, u, SetId(rawApid), SetId(rawCtid), r);
    }
  }

  /** The registration of a context gets as far as looking the context up. */
  predicate Reached(u: UserList, rawApid: Id, r: Registration) {
    LevelsInRange(r.level, r.trace) && FindApp(u.apps, rawApid) >= 0
  }

  /** The same for a context: the breach needs an application that is found. */
  lemma AddCtxKeepsOrderIff(cfg: Config, u: UserList, rawApid: Id, rawCtid: Id, r: Registration)
    requires Ordered(u)
    ensures Ordered(AddCtx(cfg, u, rawApid, rawCtid, r).users) <==> !(Reached(u, rawApid, r) && HiddenCtx(u, rawApid, rawCtid))
  {
    if !Reached(u, rawApid, r) {
      assert AddCtx(cfg, u, rawApid, rawCtid, r).users == u;
    } else if HiddenCtx(u, rawApid, rawCtid) {
      FindCtxExact(u, rawApid, rawCtid);
      PositionHas(u.ctxs, CtxKey, SetId(rawApid) + SetId(rawCtid));
      SecondEntryUnsorted(u.ctxs, CtxKey, Register(cfg, NewContext(rawApid, rawCtid), true, r));
    } else {
      AddCtxKeepsOrder(cfg, u, rawApid, rawCtid, r);
    }
  }

  /** One application "A" and the bytes 'A', NUL, NUL, 'X'. */
  lemma HiddenExample()
    ensures var u := UserList([NewApplication([65, 0, 0, 0])], []);
            Ordered(u) && Hidden(u, [65, 0, 0, 88])
  {
    var raw: Id := [65, 0, 0, 88];
    var id: Id := [65, 0, 0, 0];
    SetIdOfField(raw);
    SetIdOfField(id);
    assert raw[1..] == [0, 0, 88] && Zeros(3) == [0, 0, 0] && id[1..] == [0, 0, 0];
    assert Padding(raw) == id && Padding(id) == id;
  }
}
