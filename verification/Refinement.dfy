/**
 * The sorted arrays refine the two maps: every operation on arrays does to the maps exactly
 * what the reference operation does, with the same descriptor events, and keeps both arrays
 * strictly sorted.
 */
module Refinement {
  import opened Order
  import opened Ids
  import opened SortedTable
  import opened TableMaps
  import opened Entities
  import opened UserLists
  import D = Directory

  ghost predicate AppIdOk(a: Application) {
    Padded(a.apid) && a.apid[0] != 0
  }

  ghost predicate CtxIdsOk(c: Context) {
    Padded(c.apid) && c.apid[0] != 0 && Padded(c.ctid) && c.ctid[0] != 0
  }

  ghost predicate Ordered(u: UserList) {
    && StrictlySorted(u.apps, AppKey)
    && StrictlySorted(u.ctxs, CtxKey)
    && (forall i {:trigger AppIdOk(u.apps[i])} :: 0 <= i < |u.apps| ==> AppIdOk(u.apps[i]))
    && (forall i {:trigger CtxIdsOk(u.ctxs[i])} :: 0 <= i < |u.ctxs| ==> CtxIdsOk(u.ctxs[i]))
  }

  ghost function Abs(u: UserList): D.Dir {
    D.Dir(AsMap(u.apps, AppKey), AsMap(u.ctxs, CtxKey))
  }

  // --------------------------------------------------------------------- lookup

  /** The range check rejects a listed id only if its raw bytes exceed the greatest entry. */
  lemma RangeCheckMisses(raw: Id, first: Id, last: Id, k: Id)
    requires Padded(first) && Padded(last) && k == SetId(raw)
    requires first == k || Less(first, k)
    requires k == last || Less(k, last)
    ensures !Less(raw, first)
    ensures Less(last, raw) <==> k == last && raw != k
  {
    SetIdOfField(raw);
    PaddingNotAbove(raw);
    LessIsTotal(raw, first);
    LessIsTotal(raw, last);
    if Less(raw, first) {
      if raw != k { LessTransitive(k, raw, first); }
      LessIsTotal(first, k);
    }
    if Less(k, last) {
      PaddingBelow(raw, last);
    }
  }

  /**
   * Exactly when range check plus binary search give the table's answer: for every raw id
   * except one with garbage behind its terminator whose normalised form is the greatest id
   * in the table. Padded ids are always found.
   */
  lemma FindAppExact(u: UserList, raw: Id)
    requires Ordered(u) && raw[0] != 0
    ensures FindApp(u.apps, raw) == Position(u.apps, AppKey, SetId(raw))
            <==> Padded(raw) || |u.apps| == 0 || u.apps[|u.apps| - 1].apid != SetId(raw)
  {
    var apps, k := u.apps, SetId(raw);
    var p, n := Position(apps, AppKey, k), |apps|;
    SetIdOfField(raw);
    if p >= 0 {
      assert AppKey(apps[p]) == k && AppIdOk(apps[0]) && AppIdOk(apps[n - 1]);
      assert InOrder(apps, AppKey, 0, p) && InOrder(apps, AppKey, p, n - 1);
      RangeCheckMisses(raw, apps[0].apid, apps[n - 1].apid, k);
      if apps[n - 1].apid == k { PositionUnique(apps, AppKey, n - 1); }
    } else if n > 0 {
      HasAt(apps, AppKey, n - 1);
    }
  }

  lemma FindAppPadded(u: UserList, raw: Id)
    requires Ordered(u) && Padded(raw) && raw[0] != 0
    ensures SetId(raw) == raw
    ensures FindApp(u.apps, raw) == Position(u.apps, AppKey, raw)
    ensures FindApp(u.apps, raw) >= 0 <==> raw in Abs(u).apps
  {
    SetIdOfField(raw);
    FindAppExact(u, raw);
    MapLookup(u.apps, AppKey, raw);
  }

  lemma CtxRange(ctxs: seq<Context>, p: nat)
    requires StrictlySorted(ctxs, CtxKey) && p < |ctxs|
    ensures !Less(ctxs[p].apid, ctxs[0].apid) && !Less(ctxs[|ctxs| - 1].apid, ctxs[p].apid)
  {
    var a, b, c := ctxs[0], ctxs[p], ctxs[|ctxs| - 1];
    assert InOrder(ctxs, CtxKey, 0, p) && InOrder(ctxs, CtxKey, p, |ctxs| - 1);
    LessOfConcat(a.apid, a.ctid, b.apid, b.ctid);
    LessOfConcat(b.apid, b.ctid, c.apid, c.ctid);
    LessIsTotal(a.apid, b.apid);
    LessIsTotal(b.apid, c.apid);
  }

  lemma FindCtxIsPosition(ctxs: seq<Context>, apid: Id, ctid: Id)
    requires StrictlySorted(ctxs, CtxKey) && apid[0] != 0 && ctid[0] != 0
    requires SetId(apid) == apid && SetId(ctid) == ctid
    ensures FindCtx(ctxs, apid, ctid) == Position(ctxs, CtxKey, apid + ctid)
  {
    var p := Position(ctxs, CtxKey, apid + ctid);
    if p >= 0 {
      assert CtxKey(ctxs[p]) == apid + ctid;
      PairKeyInjective(ctxs[p].apid, ctxs[p].ctid, apid, ctid);
      CtxRange(ctxs, p);
    }
  }

  lemma FindCtxPadded(u: UserList, apid: Id, ctid: Id)
    requires Ordered(u) && Padded(apid) && Padded(ctid) && apid[0] != 0 && ctid[0] != 0
    ensures SetId(apid) == apid && SetId(ctid) == ctid
    ensures FindCtx(u.ctxs, apid, ctid) == Position(u.ctxs, CtxKey, apid + ctid)
    ensures FindCtx(u.ctxs, apid, ctid) >= 0 <==> apid + ctid in Abs(u).ctxs
  {
    SetIdOfField(apid);
    SetIdOfField(ctid);
    FindCtxIsPosition(u.ctxs, apid, ctid);
    MapLookup(u.ctxs, CtxKey, apid + ctid);
  }

  // ----------------------------------------------------------------- descriptors

  /** Rewriting records without touching their ids keeps the ids well-formed. */
  lemma SameIdsOk(u: UserList, v: UserList)
    requires Ordered(u) && |v.apps| == |u.apps| && |v.ctxs| == |u.ctxs|
    requires forall i :: 0 <= i < |u.apps| ==> v.apps[i].apid == u.apps[i].apid
    requires forall i :: 0 <= i < |u.ctxs| ==> v.ctxs[i].apid == u.ctxs[i].apid && v.ctxs[i].ctid == u.ctxs[i].ctid
    ensures forall i {:trigger AppIdOk(v.apps[i])} :: 0 <= i < |v.apps| ==> AppIdOk(v.apps[i])
    ensures forall i {:trigger CtxIdsOk(v.ctxs[i])} :: 0 <= i < |v.ctxs| ==> CtxIdsOk(v.ctxs[i])
  {
    forall i | 0 <= i < |v.apps| ensures AppIdOk(v.apps[i]) {
      assert AppIdOk(u.apps[i]);
    }
    forall i | 0 <= i < |v.ctxs| ensures CtxIdsOk(v.ctxs[i]) {
      assert CtxIdsOk(u.ctxs[i]);
    }
  }

  lemma InvalidateRefines(u: UserList, h: int)
    requires Ordered(u)
    ensures Ordered(InvalidateFd(u, h)) && Abs(InvalidateFd(u, h)) == D.Invalidate(Abs(u), h)
  {
    MapSeqAsMap(u.apps, AppKey, AppReleaser(h));
    MapSeqAsMap(u.ctxs, CtxKey, CtxReleaser(h));
    SameIdsOk(u, InvalidateFd(u, h));
  }

  lemma ReplaceApp(u: UserList, p: nat, a: Application)
    requires Ordered(u) && p < |u.apps| && a.apid == u.apps[p].apid
    ensures Ordered(u.(apps := u.apps[p := a]))
    ensures Abs(u.(apps := u.apps[p := a])) == Abs(u).(apps := Abs(u).apps[AppKey(a) := a])
  {
    assert AppKey(a) == AppKey(u.apps[p]);
    ReplaceAsMap(u.apps, AppKey, p, a);
    SameIdsOk(u, u.(apps := u.apps[p := a]));
  }

  lemma ReplaceCtx(u: UserList, p: nat, c: Context)
    requires Ordered(u) && p < |u.ctxs| && c.apid == u.ctxs[p].apid && c.ctid == u.ctxs[p].ctid
    ensures Ordered(u.(ctxs := u.ctxs[p := c]))
    ensures Abs(u.(ctxs := u.ctxs[p := c])) == Abs(u).(ctxs := Abs(u).ctxs[CtxKey(c) := c])
  {
    assert CtxKey(c) == CtxKey(u.ctxs[p]);
    ReplaceAsMap(u.ctxs, CtxKey, p, c);
    SameIdsOk(u, u.(ctxs := u.ctxs[p := c]));
  }

  lemma AppAt(u: UserList, p: nat)
    requires Ordered(u) && p < |u.apps|
    ensures var k := AppKey(u.apps[p]); k in Abs(u).apps && Abs(u).apps[k] == u.apps[p]
  {
    MapEntry(u.apps, AppKey, p);
  }

  lemma CtxAt(u: UserList, p: nat)
    requires Ordered(u) && p < |u.ctxs|
    ensures var k := CtxKey(u.ctxs[p]); k in Abs(u).ctxs && Abs(u).ctxs[k] == u.ctxs[p]
  {
    MapEntry(u.ctxs, CtxKey, p);
  }

  /** A change on arrays and an effect on maps agree. */
  ghost predicate Agrees(r: Change, e: D.Effect) {
    Ordered(r.users) && Abs(r.users) == e.dir && r.events == e.events
  }

  lemma ResetRefines(u: UserList, p: nat)
    requires Ordered(u) && p < |u.apps|
    ensures AppKey(u.apps[p]) in Abs(u).apps
    ensures Agrees(ResetAt(u, p), D.ResetHandle(Abs(u), AppKey(u.apps[p])))
    ensures ResetAt(u, p).users.apps[p].apid == u.apps[p].apid
  {
    AppAt(u, p);
    var a := u.apps[p];
    if a.userHandle != FD_INIT {
      var a' := a.(userHandle := FD_INIT, ownsHandle := false);
      ReplaceApp(u, p, a');
      MapSeqAsMap(u.ctxs, CtxKey, CtxReleaser(a.userHandle));
      SameIdsOk(u, ResetAt(u, p).users);
    }
  }

  lemma RebindRefines(u: UserList, p: nat, pid: int)
    requires Ordered(u) && p < |u.apps|
    ensures AppKey(u.apps[p]) in Abs(u).apps
    ensures Agrees(RebindAt(u, p, pid), D.Rebind(Abs(u), AppKey(u.apps[p]), pid))
    ensures RebindAt(u, p, pid).users.apps[p].apid == u.apps[p].apid
  {
    AppAt(u, p);
    ResetRefines(u, p);
    var v := ResetAt(u, p).users;
    AppAt(v, p);
    ReplaceApp(v, p, v.apps[p].(pid := 0));
  }

  lemma AttachRefines(build: Build, u: UserList, p: nat, pid: int, fd: int, pipe: OpenResult)
    requires Ordered(u) && p < |u.apps|
    ensures AppKey(u.apps[p]) in Abs(u).apps
    ensures Agrees(AttachAt(build, u, p, pid, fd, pipe), D.Attach(build, Abs(u), AppKey(u.apps[p]), pid, fd, pipe))
  {
    AppAt(u, p);
    var q := Acquire(build, fd, pipe);
    InvalidateRefines(u, q.handle);
    var v := InvalidateFd(u, q.handle);
    AppAt(v, p);
    ReplaceApp(v, p, v.apps[p].(userHandle := q.handle, ownsHandle := q.owned, pid := pid));
  }

  // ---------------------------------------------------------------- applications

  lemma AddKnownApp(build: Build, u: UserList, raw: Id, p: nat, pid: int, description: Option<seq<Byte>>,
                    fd: int, pipe: OpenResult)
    requires Ordered(u) && raw[0] != 0 && p < |u.apps| && u.apps[p].apid == SetId(raw)
    ensures Agrees(ConfigureAt(build, u, p, pid, description, fd, pipe),
                   D.AddApp(build, Abs(u), raw, pid, description, fd, pipe))
  {
    AppAt(u, p);
    ReplaceApp(u, p, u.apps[p].(description := description));
    var u1 := DescribeAt(u, p, description);
    RebindRefines(u1, p, pid);
    AttachRefines(build, RebindAt(u1, p, pid).users, p, pid, fd, pipe);
  }

  /** The record a first registration ends up with. */
  function FirstRecord(build: Build, raw: Id, pid: int, description: Option<seq<Byte>>,
                       fd: int, pipe: OpenResult): Application
  {
    var q := Acquire(build, fd, pipe);
    var a := NewApplication(raw).(description := description);
    if pid == 0 then a else a.(userHandle := q.handle, ownsHandle := q.owned, pid := pid)
  }

  /** The other entries when an application registers for the first time. */
  function Others(build: Build, u: UserList, pid: int, fd: int, pipe: OpenResult): UserList {
    if pid == 0 then u else InvalidateFd(u, Acquire(build, fd, pipe).handle)
  }

  lemma AppendedThenConfigured(build: Build, u: UserList, raw: Id, pid: int, description: Option<seq<Byte>>,
                               fd: int, pipe: OpenResult)
    ensures var r := ConfigureAt(build, u.(apps := u.apps + [NewApplication(raw)]), |u.apps|, pid, description, fd, pipe);
            var v := Others(build, u, pid, fd, pipe);
            && r.users == v.(apps := v.apps + [FirstRecord(build, raw, pid, description, fd, pipe)])
            && r.events == if pid == 0 then [] else Acquire(build, fd, pipe).events
  {
    var n := |u.apps|;
    var a := NewApplication(raw).(description := description);
    var u1 := DescribeAt(u.(apps := u.apps + [NewApplication(raw)]), n, description);
    assert u1.apps == u.apps + [a];
    var u2 := RebindAt(u1, n, pid).users;
    assert u2.apps == u1.apps && u2.ctxs == u1.ctxs;
    if pid != 0 {
      var q := Acquire(build, fd, pipe);
      var v := InvalidateFd(u2, q.handle);
      assert v.apps == InvalidateFd(u, q.handle).apps + [a];
    }
  }

  lemma OthersRefine(build: Build, u: UserList, pid: int, fd: int, pipe: OpenResult)
    requires Ordered(u)
    ensures Ordered(Others(build, u, pid, fd, pipe))
    ensures Abs(Others(build, u, pid, fd, pipe))
            == if pid == 0 then Abs(u) else D.Invalidate(Abs(u), Acquire(build, fd, pipe).handle)
    ensures forall k :: Has(u.apps, AppKey, k) <==> Has(Others(build, u, pid, fd, pipe).apps, AppKey, k)
  {
    if pid != 0 {
      var v := Others(build, u, pid, fd, pipe);
      InvalidateRefines(u, Acquire(build, fd, pipe).handle);
      assert forall i :: 0 <= i < |u.apps| ==> AppKey(v.apps[i]) == AppKey(u.apps[i]);
    }
  }

  /** On maps, too, a first registration adds one record next to the others. */
  lemma FirstRegistrationOnMaps(build: Build, d: D.Dir, raw: Id, pid: int, description: Option<seq<Byte>>,
                                fd: int, pipe: OpenResult)
    requires raw[0] != 0 && SetId(raw) !in d.apps
    ensures var d1 := if pid == 0 then d else D.Invalidate(d, Acquire(build, fd, pipe).handle);
            var e := D.AddApp(build, d, raw, pid, description, fd, pipe);
            && e.dir == d1.(apps := d1.apps[SetId(raw) := FirstRecord(build, raw, pid, description, fd, pipe)])
            && e.events == if pid == 0 then [] else Acquire(build, fd, pipe).events
  {
    var k, a := SetId(raw), NewApplication(raw).(description := description);
    var d0 := D.Introduce(d, raw, description);
    assert d0 == d.(apps := d.apps[k := a]);
    assert D.Rebind(d0, k, pid).dir == d0;
    if pid != 0 {
      var q := Acquire(build, fd, pipe);
      var x := FirstRecord(build, raw, pid, description, fd, pipe);
      assert D.Invalidate(d0, q.handle).apps[k := x] == D.Invalidate(d, q.handle).apps[k := x];
    }
  }

  /** The table after a first registration: the new record sorted in among the others. */
  lemma AddNewAppTable(v: UserList, x: Application)
    requires Ordered(v) && AppIdOk(x) && !Has(v.apps, AppKey, AppKey(x))
    ensures var w := v.(apps := Sort(v.apps + [x], AppKey));
            Ordered(w) && Abs(w) == Abs(v).(apps := Abs(v).apps[AppKey(x) := x])
  {
    AppendThenSort(v.apps, AppKey, x);
    InsertAsMap(v.apps, AppKey, x);
    InsertAllApps(v.apps, x);
  }

  lemma AddNewApp(build: Build, u: UserList, raw: Id, pid: int, description: Option<seq<Byte>>,
                  fd: int, pipe: OpenResult)
    requires Ordered(u) && raw[0] != 0 && Padded(raw) && FindApp(u.apps, raw) < 0
    ensures var r := AddApp(build, u, raw, pid, description, fd, pipe);
            && Agrees(Change(r.users, r.events), D.AddApp(build, Abs(u), raw, pid, description, fd, pipe))
            && 0 <= r.position < |r.users.apps| && r.users.apps[r.position].apid == raw
  {
    FindAppPadded(u, raw);
    PositionHas(u.apps, AppKey, raw);
    var v, x := Others(build, u, pid, fd, pipe), FirstRecord(build, raw, pid, description, fd, pipe);
    var w := v.(apps := Sort(v.apps + [x], AppKey));
    assert AddApp(build, u, raw, pid, description, fd, pipe)
           == Addition(w, FindApp(w.apps, raw), if pid == 0 then [] else Acquire(build, fd, pipe).events) by {
      AppendedThenConfigured(build, u, raw, pid, description, fd, pipe);
    }
    OthersRefine(build, u, pid, fd, pipe);
    AddNewAppTable(v, x);
    FirstRegistrationOnMaps(build, Abs(u), raw, pid, description, fd, pipe);
    FindAppPadded(w, raw);
  }

  lemma InsertAllApps(apps: seq<Application>, x: Application)
    requires (forall i :: 0 <= i < |apps| ==> AppIdOk(apps[i])) && AppIdOk(x)
    ensures forall i :: 0 <= i < |Insert(apps, AppKey, x)| ==> AppIdOk(Insert(apps, AppKey, x)[i])
  {
    InsertSplits(apps, AppKey, x);
  }

  /** Registering an application, on arrays and on maps. */
  lemma AddAppRefines(build: Build, u: UserList, raw: Id, pid: int, description: Option<seq<Byte>>,
                      fd: int, pipe: OpenResult)
    requires Ordered(u) && Padded(raw)
    ensures var r := AddApp(build, u, raw, pid, description, fd, pipe);
            && Agrees(Change(r.users, r.events), D.AddApp(build, Abs(u), raw, pid, description, fd, pipe))
            && (r.position >= 0 <==> raw[0] != 0)
            && (r.position >= 0 ==> r.position < |r.users.apps| && r.users.apps[r.position].apid == raw)
  {
    if raw[0] != 0 {
      FindAppPadded(u, raw);
      if FindApp(u.apps, raw) < 0 {
        AddNewApp(build, u, raw, pid, description, fd, pipe);
      } else {
        var p := FindApp(u.apps, raw);
        AddKnownApp(build, u, raw, p, pid, description, fd, pipe);
        ConfigureKeepsId(build, u, p, pid, description, fd, pipe);
      }
    }
  }

  lemma ConfigureKeepsId(build: Build, u: UserList, p: nat, pid: int, description: Option<seq<Byte>>,
                         fd: int, pipe: OpenResult)
    requires p < |u.apps|
    ensures ConfigureAt(build, u, p, pid, description, fd, pipe).users.apps[p].apid == u.apps[p].apid
  {
  }

  lemma DeleteAppRefines(u: UserList, p: nat)
    requires Ordered(u) && p < |u.apps|
    ensures AppKey(u.apps[p]) in Abs(u).apps
    ensures Agrees(DeleteAppAt(u, p), D.DeleteApp(Abs(u), AppKey(u.apps[p])))
  {
    ResetRefines(u, p);
    WithoutAsMap(ResetAt(u, p).users.apps, AppKey, p);
  }

  // -------------------------------------------------------------------- contexts

  lemma CountRefines(u: UserList, p: nat, delta: int)
    requires Ordered(u) && p < |u.apps|
    ensures Ordered(CountAt(u, p, delta)) && AppKey(u.apps[p]) in Abs(u).apps
    ensures var k := AppKey(u.apps[p]);
            Abs(CountAt(u, p, delta)) ==
            Abs(u).(apps := Abs(u).apps[k := Abs(u).apps[k].(numContexts := Abs(u).apps[k].numContexts + delta)])
  {
    AppAt(u, p);
    ReplaceApp(u, p, u.apps[p].(numContexts := u.apps[p].numContexts + delta));
  }

  lemma InsertAllCtxs(ctxs: seq<Context>, x: Context)
    requires (forall i :: 0 <= i < |ctxs| ==> CtxIdsOk(ctxs[i])) && CtxIdsOk(x)
    ensures forall i :: 0 <= i < |Insert(ctxs, CtxKey, x)| ==> CtxIdsOk(Insert(ctxs, CtxKey, x)[i])
  {
    InsertSplits(ctxs, CtxKey, x);
  }

  lemma AppendSortCtx(u: UserList, c: Context)
    requires Ordered(u) && CtxIdsOk(c) && Position(u.ctxs, CtxKey, CtxKey(c)) < 0
    ensures var v := u.(ctxs := Sort(u.ctxs + [c], CtxKey));
            Ordered(v) && Abs(v) == D.Dir(Abs(u).apps, Abs(u).ctxs[CtxKey(c) := c])
  {
    AppendThenSort(u.ctxs, CtxKey, c);
    PositionHas(u.ctxs, CtxKey, CtxKey(c));
    InsertAsMap(u.ctxs, CtxKey, c);
    InsertAllCtxs(u.ctxs, c);
  }

  lemma AddNewCtx(u: UserList, a: nat, c: Context, v: UserList)
    requires Ordered(u) && CtxIdsOk(c)
    requires a < |u.apps| && u.apps[a].apid == c.apid && FindCtx(u.ctxs, c.apid, c.ctid) < 0
    requires v == InsertCtx(u, a, c)
    ensures var m, k := Abs(u).apps, AppKey(u.apps[a]);
            && k in m && Ordered(v) && FindCtx(v.ctxs, c.apid, c.ctid) >= 0
            && Abs(v) == D.Dir(m[k := m[k].(numContexts := m[k].numContexts + 1)], Abs(u).ctxs[CtxKey(c) := c])
  {
    CountRefines(u, a, 1);
    FindCtxPadded(u, c.apid, c.ctid);
    AppendSortCtx(CountAt(u, a, 1), c);
    FindCtxPadded(v, c.apid, c.ctid);
  }

  lemma AddKnownCtx(cfg: Config, u: UserList, p: nat, apid: Id, ctid: Id, r: Registration)
    requires Ordered(u) && p < |u.ctxs| && CtxKey(u.ctxs[p]) == apid + ctid
    requires SetId(apid) == apid && SetId(ctid) == ctid && apid in Abs(u).apps
    requires apid[0] != 0 && ctid[0] != 0 && LevelsInRange(r.level, r.trace)
    ensures var v := u.(ctxs := u.ctxs[p := Register(cfg, u.ctxs[p], false, r)]);
            Ordered(v) && Abs(v) == D.AddCtx(cfg, Abs(u), apid, ctid, r)
  {
    CtxAt(u, p);
    ReplaceCtx(u, p, Register(cfg, u.ctxs[p], false, r));
  }

  lemma AddUnknownOnMaps(cfg: Config, d: D.Dir, apid: Id, ctid: Id, r: Registration, c: Context)
    requires SetId(apid) == apid && SetId(ctid) == ctid
    requires apid[0] != 0 && ctid[0] != 0 && LevelsInRange(r.level, r.trace)
    requires apid in d.apps && apid + ctid !in d.ctxs
    requires c == Register(cfg, NewContext(apid, ctid), true, r)
    ensures c.apid == apid && c.ctid == ctid
    ensures D.AddCtx(cfg, d, apid, ctid, r) ==
            D.Dir(d.apps[apid := d.apps[apid].(numContexts := d.apps[apid].numContexts + 1)], d.ctxs[CtxKey(c) := c])
  {
  }

  lemma AddUnknownCtx(cfg: Config, u: UserList, a: nat, r: Registration, c: Context, v: UserList)
    requires Ordered(u) && CtxIdsOk(c) && LevelsInRange(r.level, r.trace)
    requires a < |u.apps| && u.apps[a].apid == c.apid && FindCtx(u.ctxs, c.apid, c.ctid) < 0
    requires c == Register(cfg, NewContext(c.apid, c.ctid), true, r)
    requires v == InsertCtx(u, a, c)
    ensures Ordered(v) && Abs(v) == D.AddCtx(cfg, Abs(u), c.apid, c.ctid, r)
    ensures FindCtx(v.ctxs, c.apid, c.ctid) >= 0
  {
    FindAppPadded(u, c.apid);
    FindCtxPadded(u, c.apid, c.ctid);
    AppAt(u, a);
    AddUnknownOnMaps(cfg, Abs(u), c.apid, c.ctid, r, c);
    AddNewCtx(u, a, c, v);
  }

  /** Registering a context, on arrays and on maps. */
  lemma AddCtxRefines(cfg: Config, u: UserList, rawApid: Id, rawCtid: Id, r: Registration)
    requires Ordered(u) && Padded(rawApid) && Padded(rawCtid)
    ensures var s := AddCtx(cfg, u, rawApid, rawCtid, r);
            && Ordered(s.users) && Abs(s.users) == D.AddCtx(cfg, Abs(u), rawApid, rawCtid, r)
            && (s.position >= 0 <==> rawApid[0] != 0 && rawCtid[0] != 0 && LevelsInRange(r.level, r.trace)
                                     && rawApid in Abs(u).apps)
  {
    if rawApid[0] != 0 && rawCtid[0] != 0 && LevelsInRange(r.level, r.trace) {
      FindAppPadded(u, rawApid);
      FindCtxPadded(u, rawApid, rawCtid);
      var a, p := FindApp(u.apps, rawApid), FindCtx(u.ctxs, rawApid, rawCtid);
      if a >= 0 {
        if p >= 0 {
          AddKnownCtx(cfg, u, p, rawApid, rawCtid, r);
        } else {
          AddUnknownCtx(cfg, u, a, r, Register(cfg, NewContext(rawApid, rawCtid), true, r),
                        AddCtx(cfg, u, rawApid, rawCtid, r).users);
        }
      }
    }
  }

  /** A successful registration returns the entry of that context, at its sorted position. */
  lemma AddCtxPosition(cfg: Config, u: UserList, rawApid: Id, rawCtid: Id, r: Registration)
    requires Ordered(u) && Padded(rawApid) && Padded(rawCtid)
    ensures var s := AddCtx(cfg, u, rawApid, rawCtid, r);
            && (s.position < 0 ==> s.users == u)
            && (s.position >= 0 ==> s.position < |s.users.ctxs|
                                    && s.users.ctxs[s.position].apid == rawApid
                                    && s.users.ctxs[s.position].ctid == rawCtid)
  {
    var s := AddCtx(cfg, u, rawApid, rawCtid, r);
    AddCtxRefines(cfg, u, rawApid, rawCtid, r);
    if s.position >= 0 {
      FindCtxPadded(u, rawApid, rawCtid);
      FindCtxPadded(s.users, rawApid, rawCtid);
      var c := s.users.ctxs[s.position];
      assert CtxKey(c) == rawApid + rawCtid;
      PairKeyInjective(c.apid, c.ctid, rawApid, rawCtid);
    } else if rawApid[0] != 0 {
      FindAppPadded(u, rawApid);
    }
  }

  lemma RemoveCtx(u: UserList, p: nat)
    requires Ordered(u) && p < |u.ctxs|
    ensures var v := u.(ctxs := Without(u.ctxs, p));
            Ordered(v) && Abs(v) == D.Dir(Abs(u).apps, Abs(u).ctxs - {CtxKey(u.ctxs[p])})
  {
    WithoutAsMap(u.ctxs, CtxKey, p);
  }

  lemma DeleteCtxRefines(u: UserList, p: nat)
    requires Ordered(u) && p < |u.ctxs|
    ensures CtxKey(u.ctxs[p]) in Abs(u).ctxs
    ensures Ordered(DeleteCtxAt(u, p))
    ensures Abs(DeleteCtxAt(u, p)) == D.DeleteCtx(Abs(u), CtxKey(u.ctxs[p]))
  {
    CtxAt(u, p);
    assert CtxIdsOk(u.ctxs[p]);
    FindAppPadded(u, u.ctxs[p].apid);
    RemoveCtx(u, p);
    var a := FindApp(u.apps, u.ctxs[p].apid);
    if a >= 0 {
      CountRefines(u.(ctxs := Without(u.ctxs, p)), a, -1);
    }
  }

  lemma ClearCtxsRefines(u: UserList)
    requires Ordered(u)
    ensures Ordered(ClearCtxs(u))
    ensures Abs(ClearCtxs(u)) == D.Dir(MapValues(Abs(u).apps, D.ResetCount), map[])
  {
    var f := (a: Application) => a.(numContexts := 0);
    MapSeqAsMap(u.apps, AppKey, f);
    SameIdsOk(u, ClearCtxs(u).(ctxs := u.ctxs));
    assert MapValues(Abs(u).apps, f) == MapValues(Abs(u).apps, D.ResetCount);
  }

  // ----------------------------------------------------------------------- sends

  lemma SendRefines(cfg: Config, u: UserList, p: nat, outcome: Outcome)
    requires Ordered(u) && p < |u.ctxs|
    ensures CtxKey(u.ctxs[p]) in Abs(u).ctxs
    ensures Agrees(SendAt(cfg, u, p, outcome), D.Send(cfg, Abs(u), CtxKey(u.ctxs[p]), outcome))
  {
    CtxAt(u, p);
    assert CtxIdsOk(u.ctxs[p]);
    FindAppPadded(u, u.ctxs[p].apid);
    var a := FindApp(u.apps, u.ctxs[p].apid);
    if a >= 0 { ResetRefines(u, a); }
  }

  lemma SendStateRefines(u: UserList, p: nat, outcome: Outcome)
    requires Ordered(u) && p < |u.apps|
    ensures AppKey(u.apps[p]) in Abs(u).apps
    ensures Agrees(SendStateAt(u, p, outcome), D.SendAppState(Abs(u), AppKey(u.apps[p]), outcome))
  {
    AppAt(u, p);
    ResetRefines(u, p);
  }

  lemma UpdateRefines(cfg: Config, u: UserList, p: nat, enforce: bool, cap: int, level: int, outcome: Outcome)
    requires Ordered(u) && p < |u.ctxs|
    ensures CtxKey(u.ctxs[p]) in Abs(u).ctxs
    ensures Agrees(UpdateAt(cfg, u, p, enforce, cap, level, outcome),
                   D.Update(cfg, Abs(u), CtxKey(u.ctxs[p]), enforce, cap, level, outcome))
  {
    CtxAt(u, p);
    if u.ctxs[p].userHandle >= FD_MINIMUM {
      var c := u.ctxs[p].(logLevel := UpdatedLevel(enforce, cap, level));
      ReplaceCtx(u, p, c);
      SendRefines(cfg, u.(ctxs := u.ctxs[p := c]), p, outcome);
    }
  }

  lemma SetRefines(cfg: Config, u: UserList, p: nat, request: LevelRequest, outcome: Outcome)
    requires Ordered(u) && p < |u.ctxs|
    ensures CtxKey(u.ctxs[p]) in Abs(u).ctxs
    ensures Agrees(SetAt(cfg, u, p, request, outcome), D.Set(cfg, Abs(u), CtxKey(u.ctxs[p]), request, outcome))
  {
    CtxAt(u, p);
    var c := u.ctxs[p];
    var c1 := Requested(c, request);
    ReplaceCtx(u, p, c1);
    if c.userHandle >= FD_MINIMUM {
      var u1 := u.(ctxs := u.ctxs[p := c1]);
      SendRefines(cfg, u1, p, outcome);
      var v := SendAt(cfg, u1, p, outcome).users;
      SendKeepsIds(cfg, u1, p, outcome);
      CtxAt(v, p);
      ReplaceCtx(v, p, v.ctxs[p].(logLevel := c.logLevel, traceStatus := c.traceStatus));
    }
  }

  lemma SendKeepsIds(cfg: Config, u: UserList, p: nat, outcome: Outcome)
    requires p < |u.ctxs|
    ensures var v := SendAt(cfg, u, p, outcome).users;
            forall i :: 0 <= i < |u.ctxs| ==> v.ctxs[i].apid == u.ctxs[i].apid && v.ctxs[i].ctid == u.ctxs[i].ctid
  {
  }

  lemma InjectRefines(u: UserList, p: nat, outcome: Outcome)
    requires Ordered(u) && p < |u.ctxs|
    ensures CtxKey(u.ctxs[p]) in Abs(u).ctxs
    ensures Agrees(InjectAt(u, p, outcome), D.InjectInto(Abs(u), CtxKey(u.ctxs[p]), outcome))
  {
    CtxAt(u, p);
    ReplaceCtx(u, p, u.ctxs[p].(userHandle := FD_INIT));
  }
}
