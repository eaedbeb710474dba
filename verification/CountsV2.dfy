/**
 * The context counters of the version 2 registry over whole runs.
 */
module CountsV2 {
  import opened Order
  import opened Ids
  import opened SortedTable
  import opened TableMaps
  import opened DirectoryV2

  /** The number of contexts of an application. */
  function Owned(ctxs: seq<Context>, a: IdV2): nat {
    if |ctxs| == 0 then 0 else Owned(ctxs[..|ctxs| - 1], a) + if ctxs[|ctxs| - 1].apid == a then 1 else 0
  }

  lemma {:induction false} OwnedConcat(x: seq<Context>, y: seq<Context>, a: IdV2)
    ensures Owned(x + y, a) == Owned(x, a) + Owned(y, a)
    decreases |y|
  {
    if |y| == 0 {
      assert x + y == x;
    } else {
      assert (x + y)[..|x + y| - 1] == x + y[..|y| - 1];
      OwnedConcat(x, y[..|y| - 1], a);
    }
  }

  lemma OwnedOne(c: Context, a: IdV2)
    ensures Owned([c], a) == if c.apid == a then 1 else 0
  {
    assert [c][..0] == [];
  }

  lemma OwnedSplit(x: seq<Context>, c: Context, y: seq<Context>, a: IdV2)
    ensures Owned(x + [c] + y, a) == Owned(x + y, a) + if c.apid == a then 1 else 0
  {
    OwnedConcat(x + [c], y, a);
    OwnedConcat(x, [c], a);
    OwnedConcat(x, y, a);
    OwnedOne(c, a);
  }

  lemma OwnedSorted(s: seq<Context>, c: Context, a: IdV2)
    requires StrictlySorted(s, CtxKey)
    ensures Owned(Sort(s + [c], CtxKey), a) == Owned(s, a) + if c.apid == a then 1 else 0
  {
    var p := InsertPosition(s, CtxKey, CtxKey(c));
    assert Sort(s + [c], CtxKey) == s[..p] + [c] + s[p..] by {
      AppendThenSort(s, CtxKey, c);
      InsertSplits(s, CtxKey, c);
    }
    OwnedInserted(s, p, c, a);
  }

  lemma OwnedInserted(s: seq<Context>, p: nat, c: Context, a: IdV2)
    requires p <= |s|
    ensures Owned(s[..p] + [c] + s[p..], a) == Owned(s, a) + if c.apid == a then 1 else 0
  {
    OwnedSplit(s[..p], c, s[p..], a);
    assert s[..p] + s[p..] == s;
  }

  lemma OwnedWithout(s: seq<Context>, p: nat, a: IdV2)
    requires p < |s|
    ensures Owned(Without(s, p), a) == Owned(s, a) - if s[p].apid == a then 1 else 0
  {
    OwnedSplit(s[..p], s[p], s[p + 1..], a);
    assert s[..p] + [s[p]] + s[p + 1..] == s;
  }

  lemma {:induction false} OwnedBySameIds(s: seq<Context>, t: seq<Context>, a: IdV2)
    requires |s| == |t| && forall i :: 0 <= i < |s| ==> s[i].apid == t[i].apid
    ensures Owned(s, a) == Owned(t, a)
    decreases |s|
  {
    if |s| > 0 { OwnedBySameIds(s[..|s| - 1], t[..|t| - 1], a); }
  }

  lemma {:induction false} OwnedNone(s: seq<Context>, a: IdV2)
    ensures Owned(s, a) == 0 <==> forall i :: 0 <= i < |s| ==> s[i].apid != a
    decreases |s|
  {
    if |s| > 0 {
      OwnedNone(s[..|s| - 1], a);
      assert forall i :: 0 <= i < |s| - 1 ==> s[..|s| - 1][i] == s[i];
    }
  }

  // ---------------------------------------------------------------------- invariant

  /** Every context belongs to a listed application, and each application counts its own. */
  ghost predicate CountsOk(u: UserList) {
    && Ordered(u)
    && (forall i :: 0 <= i < |u.ctxs| ==> ListsApp(u, u.ctxs[i].apid))
    && (forall p :: 0 <= p < |u.apps| ==> Counted(u, u.apps[p]))
  }

  ghost predicate Counted(u: UserList, a: Application) {
    a.numContexts == Owned(u.ctxs, a.apid)
  }

  /** The same on the map of applications. */
  ghost predicate CountedMap(u: UserList) {
    forall k :: k in Apps(u) ==> Counted(u, Apps(u)[k]) && k == KeyV2(Apps(u)[k].apid)
  }

  lemma CountedIffMap(u: UserList)
    requires Ordered(u)
    ensures CountedMap(u) <==> forall p :: 0 <= p < |u.apps| ==> Counted(u, u.apps[p])
  {
    forall k | k in Apps(u)
      ensures k == KeyV2(Apps(u)[k].apid) && exists p :: 0 <= p < |u.apps| && u.apps[p] == Apps(u)[k]
    {
      MapLookup(u.apps, AppKey, k);
    }
    forall p | 0 <= p < |u.apps| ensures AppKey(u.apps[p]) in Apps(u) && Apps(u)[AppKey(u.apps[p])] == u.apps[p] {
      MapEntry(u.apps, AppKey, p);
    }
  }

  /** Applications are deleted after their contexts. */
  ghost predicate OrderedDeletion(u: UserList, op: Op) {
    op.DeleteApplication? ==> Owned(u.ctxs, IdOf(op.apid)) == 0
  }

  ghost predicate OrderedRun(ops: seq<Op>) {
    |ops| == 0 || (OrderedRun(ops[..|ops| - 1]) && OrderedDeletion(Run(ops[..|ops| - 1]), ops[|ops| - 1]))
  }

  lemma AddAppCounts(u: UserList, apid: IdV2, payload: int)
    requires CountsOk(u)
    ensures CountsOk(AddApp(u, apid, payload))
  {
    var v := AddApp(u, apid, payload);
    AddAppMaps(u, apid, payload);
    CountedIffMap(u);
    if |apid| > 0 && KeyV2(apid) !in Apps(u) { OwnedNone(u.ctxs, apid); }
    CountedIffMap(v);
  }

  lemma DeleteAppCounts(u: UserList, apid: IdV2)
    requires CountsOk(u) && Owned(u.ctxs, apid) == 0
    ensures CountsOk(DeleteApp(u, apid))
  {
    var v := DeleteApp(u, apid);
    DeleteAppMaps(u, apid);
    CountedIffMap(u);
    OwnedNone(u.ctxs, apid);
    forall i | 0 <= i < |u.ctxs| ensures ListsApp(v, u.ctxs[i].apid) {
      CompareV2IsLexicographic(u.ctxs[i].apid, apid);
    }
    CountedIffMap(v);
  }

  /** The contexts after an addition, or a deletion, application by application. */
  lemma AddCtxOwned(u: UserList, apid: IdV2, ctid: IdV2, level: int, trace: int, payload: int, a: IdV2)
    requires Ordered(u) && !Refused(u, apid, ctid, level, trace)
    ensures Owned(AddCtx(u, apid, ctid, level, trace, payload).ctxs, a)
            == Owned(u.ctxs, a) + if PairKeyV2(apid, ctid) !in Ctxs(u) && apid == a then 1 else 0
  {
    FoundAppsListed(u, apid);
    FoundCtxsListed(u, apid, ctid);
    var p := FindCtx(u, apid, ctid);
    if p >= 0 {
      OwnedBySameIds(u.ctxs, u.ctxs[p := u.ctxs[p].(payload := payload)], a);
    } else {
      OwnedSorted(u.ctxs, Context(apid, ctid, payload), a);
    }
  }

  lemma DeleteCtxOwned(u: UserList, apid: IdV2, ctid: IdV2, a: IdV2)
    requires Ordered(u) && |apid| > 0 && |ctid| > 0 && PairKeyV2(apid, ctid) in Ctxs(u)
    ensures Owned(DeleteCtx(u, apid, ctid).ctxs, a) == Owned(u.ctxs, a) - if apid == a then 1 else 0
  {
    FoundCtxsListed(u, apid, ctid);
    OwnedWithout(u.ctxs, FindCtx(u, apid, ctid), a);
  }

  /** Every context of v belongs to an application that v lists. */
  ghost predicate AllListed(u: UserList) {
    forall i :: 0 <= i < |u.ctxs| ==> ListsApp(u, u.ctxs[i].apid)
  }

  lemma ListedByMap(u: UserList)
    requires Ordered(u)
    ensures AllListed(u) <==> forall k :: k in Ctxs(u) ==> ListsApp(u, Ctxs(u)[k].apid)
  {
    forall k | k in Ctxs(u) ensures exists p :: 0 <= p < |u.ctxs| && u.ctxs[p] == Ctxs(u)[k] {
      MapLookup(u.ctxs, CtxKey, k);
    }
    forall p | 0 <= p < |u.ctxs| ensures CtxKey(u.ctxs[p]) in Ctxs(u) && Ctxs(u)[CtxKey(u.ctxs[p])] == u.ctxs[p] {
      MapEntry(u.ctxs, CtxKey, p);
    }
  }

  lemma AddCtxCounts(u: UserList, apid: IdV2, ctid: IdV2, level: int, trace: int, payload: int)
    requires CountsOk(u)
    ensures CountsOk(AddCtx(u, apid, ctid, level, trace, payload))
  {
    var v := AddCtx(u, apid, ctid, level, trace, payload);
    AddCtxMaps(u, apid, ctid, level, trace, payload);
    if !Refused(u, apid, ctid, level, trace) {
      CountedIffMap(u);
      forall k | k in Apps(v) ensures Counted(v, Apps(v)[k]) && k == KeyV2(Apps(v)[k].apid) {
        AddCtxOwned(u, apid, ctid, level, trace, payload, Apps(u)[k].apid);
        CompareV2IsLexicographic(Apps(u)[k].apid, apid);
      }
      CountedIffMap(v);
      ListedByMap(u);
      ListedByMap(v);
    }
  }

  lemma DeleteCtxCounts(u: UserList, apid: IdV2, ctid: IdV2)
    requires CountsOk(u)
    ensures CountsOk(DeleteCtx(u, apid, ctid))
  {
    var v := DeleteCtx(u, apid, ctid);
    DeleteCtxMaps(u, apid, ctid);
    if |apid| > 0 && |ctid| > 0 && PairKeyV2(apid, ctid) in Ctxs(u) {
      CountedIffMap(u);
      forall k | k in Apps(v) ensures Counted(v, Apps(v)[k]) && k == KeyV2(Apps(v)[k].apid) {
        DeleteCtxOwned(u, apid, ctid, Apps(u)[k].apid);
        CompareV2IsLexicographic(Apps(u)[k].apid, apid);
      }
      CountedIffMap(v);
      ListedByMap(u);
      ListedByMap(v);
    }
  }

  lemma StepCounts(u: UserList, op: Op)
    requires CountsOk(u) && OrderedDeletion(u, op)
    ensures CountsOk(Step(u, op))
  {
    match op
    case AddApplication(apid, payload) => AddAppCounts(u, IdOf(apid), payload);
    case DeleteApplication(apid) => DeleteAppCounts(u, IdOf(apid));
    case AddContext(apid, ctid, level, trace, payload) => AddCtxCounts(u, IdOf(apid), IdOf(ctid), level, trace, payload);
    case DeleteContext(apid, ctid) => DeleteCtxCounts(u, IdOf(apid), IdOf(ctid));
  }

  /**
   * In every run of version 2 operations that deletes applications after their contexts, each
   * context's application is listed and each counter is the number of its contexts.
   */
  lemma {:induction false} RunKeepsCountsV2(ops: seq<Op>)
    requires OrderedRun(ops)
    ensures CountsOk(Run(ops))
  {
    if |ops| == 0 {
      assert Ordered(UserList([], []));
    } else {
      RunKeepsCountsV2(ops[..|ops| - 1]);
      StepCounts(Run(ops[..|ops| - 1]), ops[|ops| - 1]);
    }
  }

  // -------------------------------------------------------------------------- total

  function SumOf(apps: seq<Application>): int {
    if |apps| == 0 then 0 else SumOf(apps[..|apps| - 1]) + apps[|apps| - 1].numContexts
  }

  /** The number of contexts whose application is one of these. */
  function OwnedByAny(apps: seq<Application>, ctxs: seq<Context>): nat {
    if |apps| == 0 then 0 else OwnedByAny(apps[..|apps| - 1], ctxs) + Owned(ctxs, apps[|apps| - 1].apid)
  }

  lemma {:induction false} SumIsOwned(apps: seq<Application>, ctxs: seq<Context>)
    requires forall p :: 0 <= p < |apps| ==> apps[p].numContexts == Owned(ctxs, apps[p].apid)
    ensures SumOf(apps) == OwnedByAny(apps, ctxs)
    decreases |apps|
  {
    if |apps| > 0 { SumIsOwned(apps[..|apps| - 1], ctxs); }
  }

  ghost predicate HasOwner(apps: seq<Application>, c: Context) {
    exists i :: 0 <= i < |apps| && apps[i].apid == c.apid
  }

  /** One more context is counted once if its application is among them, which differ. */
  lemma {:induction false} OwnedByAnyNext(apps: seq<Application>, ctxs: seq<Context>, c: Context)
    requires forall i, j :: 0 <= i < j < |apps| ==> apps[i].apid != apps[j].apid
    ensures OwnedByAny(apps, ctxs + [c])
            == OwnedByAny(apps, ctxs) + if HasOwner(apps, c) then 1 else 0
    decreases |apps|
  {
    if |apps| > 0 {
      var n := |apps| - 1;
      OwnedByAnyNext(apps[..n], ctxs, c);
      OwnedConcat(ctxs, [c], apps[n].apid);
      OwnedOne(c, apps[n].apid);
      assert forall i :: 0 <= i < n ==> apps[..n][i] == apps[i];
    }
  }

  lemma {:induction false} OwnedByAnyIsAll(apps: seq<Application>, ctxs: seq<Context>)
    requires forall i, j :: 0 <= i < j < |apps| ==> apps[i].apid != apps[j].apid
    requires forall k :: 0 <= k < |ctxs| ==> HasOwner(apps, ctxs[k])
    ensures OwnedByAny(apps, ctxs) == |ctxs|
    decreases |ctxs|
  {
    if |ctxs| == 0 {
      NothingOwned(apps);
    } else {
      var n := |ctxs| - 1;
      OwnedByAnyIsAll(apps, ctxs[..n]);
      OwnedByAnyNext(apps, ctxs[..n], ctxs[n]);
      assert ctxs[..n] + [ctxs[n]] == ctxs;
    }
  }

  lemma {:induction false} NothingOwned(apps: seq<Application>)
    ensures OwnedByAny(apps, []) == 0
    decreases |apps|
  {
    if |apps| > 0 { NothingOwned(apps[..|apps| - 1]); }
  }

  /** The counters then sum to the number of contexts. */
  lemma CountersSumToTotalV2(u: UserList)
    requires CountsOk(u)
    ensures SumOf(u.apps) == |u.ctxs|
  {
    forall i, j | 0 <= i < j < |u.apps| ensures u.apps[i].apid != u.apps[j].apid {
      assert InOrder(u.apps, AppKey, i, j);
      LessIrreflexive(AppKey(u.apps[i]));
    }
    forall k | 0 <= k < |u.ctxs| ensures HasOwner(u.apps, u.ctxs[k]) {
      var a := u.ctxs[k].apid;
      MapLookup(u.apps, AppKey, KeyV2(a));
      CompareV2IsLexicographic(u.apps[Position(u.apps, AppKey, KeyV2(a))].apid, a);
    }
    forall p | 0 <= p < |u.apps| ensures u.apps[p].numContexts == Owned(u.ctxs, u.apps[p].apid) {
      assert Counted(u, u.apps[p]);
    }
    SumIsOwned(u.apps, u.ctxs);
    OwnedByAnyIsAll(u.apps, u.ctxs);
  }
}
