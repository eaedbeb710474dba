/**
 * A restart of the daemon: both runtime configuration files are saved, and read in turn into
 * an empty registry.
 */
module Restarts {
  import opened Order
  import opened Ids
  import opened SortedTable
  import opened TableMaps
  import opened Entities
  import opened UserLists
  import opened Refinement
  import opened Counts
  import opened Segments
  import opened RuntimeConfig
  import opened RuntimeApplications

  /** The two loads at the start of the daemon; ok is what runtime_context_cfg_loaded is set from. */
  function Restart(build: Build, cfg: Config, apps: seq<Byte>, ctxs: seq<Byte>, level: int, trace: int): Loaded {
    var r := LoadApplications(build, UserList([], []), apps);
    if r.ok then LoadContexts(cfg, Loader(r.users, level, trace), ctxs) else r
  }

  /** The number of contexts of an application. */
  function OwnedIn(ctxs: seq<Context>, a: Id): nat {
    if |ctxs| == 0 then 0 else OwnedIn(ctxs[..|ctxs| - 1], a) + if ctxs[|ctxs| - 1].apid == a then 1 else 0
  }

  lemma {:induction false} OwnedInSegment(ctxs: seq<Context>, a: Id, lo: nat, hi: nat)
    requires lo <= hi <= |ctxs| && forall i :: 0 <= i < |ctxs| ==> (lo <= i < hi <==> ctxs[i].apid == a)
    ensures OwnedIn(ctxs, a) == hi - lo
  {
    if |ctxs| > 0 {
      var n := |ctxs| - 1;
      assert lo <= n < hi <==> ctxs[n].apid == a;
      OwnedInSegment(ctxs[..n], a, if lo <= n then lo else n, if hi <= n then hi else n);
    }
  }

  /** A counter that is right counts the contexts of its application. */
  lemma CounterIsOwned(u: UserList, p: nat)
    requires Ordered(u) && CountsOk(Abs(u)) && p < |u.apps|
    ensures u.apps[p].numContexts == OwnedIn(u.ctxs, u.apps[p].apid)
  {
    OffsetsLocateContexts(u, p);
    var base := OffsetBase(u.apps, p);
    OwnedInSegment(u.ctxs, u.apps[p].apid, base, base + u.apps[p].numContexts);
  }

  /** Counting the first n contexts adds to each application the number of its own. */
  lemma {:induction false} CountedExact(apps: seq<Application>, ctxs: seq<Context>, n: nat, i: nat)
    requires StrictlySorted(apps, AppKey) && n <= |ctxs| && i < |apps|
    ensures CountedApps(apps, ctxs, n)[i]
            == apps[i].(numContexts := apps[i].numContexts + OwnedIn(ctxs[..n], apps[i].apid))
  {
    if n > 0 {
      CountedExact(apps, ctxs, n - 1, i);
      assert ctxs[..n][..n - 1] == ctxs[..n - 1];
      PositionUnique(apps, AppKey, i);
    }
  }

  lemma OwnersComeBack(u: UserList)
    requires Ordered(u) && CountsOk(Abs(u)) && AllSavableApps(u.apps)
    ensures AllOwned(MapSeq(u.apps, ReloadedApp), u.ctxs)
  {
    ReloadedAppsOrdered(u);
    forall i | 0 <= i < |u.ctxs| ensures Position(MapSeq(u.apps, ReloadedApp), AppKey, u.ctxs[i].apid) >= 0 {
      CtxAt(u, i);
      MapLookup(u.apps, AppKey, u.ctxs[i].apid);
      SameKeysPosition(u.apps, MapSeq(u.apps, ReloadedApp), AppKey, u.ctxs[i].apid);
    }
  }

  lemma CountersComeBack(u: UserList, n: nat)
    requires Ordered(u) && CountsOk(Abs(u)) && AllSavableApps(u.apps) && n <= |u.ctxs|
    ensures var apps := CountedApps(MapSeq(u.apps, ReloadedApp), u.ctxs, n);
            && (forall i :: 0 <= i < |u.apps| ==>
                  apps[i] == ReloadedApp(u.apps[i]).(numContexts := OwnedIn(u.ctxs[..n], u.apps[i].apid)))
            && (n == |u.ctxs| ==> forall i :: 0 <= i < |u.apps| ==> apps[i].numContexts == u.apps[i].numContexts)
  {
    ReloadedAppsOrdered(u);
    var v := MapSeq(u.apps, ReloadedApp);
    forall i | 0 <= i < |u.apps|
      ensures CountedApps(v, u.ctxs, n)[i] == ReloadedApp(u.apps[i]).(numContexts := OwnedIn(u.ctxs[..n], u.apps[i].apid))
      ensures OwnedIn(u.ctxs, u.apps[i].apid) == u.apps[i].numContexts
    {
      CountedExact(v, u.ctxs, n, i);
      CounterIsOwned(u, i);
    }
    assert n == |u.ctxs| ==> u.ctxs[..n] == u.ctxs;
  }

  lemma LoadedAfterApplications(build: Build, cfg: Config, u: UserList, level: int, trace: int, appFile: seq<Byte>, file: seq<Byte>)
    requires Ordered(u) && |u.apps| > 0 && AllSavableApps(u.apps)
    ensures Restart(build, cfg, SaveApplications(u, appFile), file, level, trace)
            == LoadContexts(cfg, Loader(UserList(MapSeq(u.apps, ReloadedApp), []), level, trace), file)
  {
    SaveThenLoadApplications(build, u, appFile);
  }

  /**
   * Saving both and loading both into an empty registry: every application comes back, in
   * order, and the contexts in front of the first one whose levels a registration refuses;
   * each application counts exactly those of its own. The restart reports success if and only
   * if there is no such context, and then all counters are what they were.
   */
  lemma RestartRestores(build: Build, cfg: Config, u: UserList, level: int, trace: int, appFile: seq<Byte>, ctxFile: seq<Byte>)
    requires Ordered(u) && CountsOk(Abs(u)) && |u.ctxs| > 0 && AllSavableApps(u.apps) && AllSavable(u.ctxs)
    ensures var r := Restart(build, cfg, SaveApplications(u, appFile), SaveContexts(u, ctxFile), level, trace);
            var n := Acceptable(u.ctxs);
            && (r.ok <==> forall i :: 0 <= i < |u.ctxs| ==> InRange(u.ctxs[i]))
            && Ordered(r.users) && r.users.ctxs == MapSeq(u.ctxs[..n], Reloader(cfg)) && |r.users.apps| == |u.apps|
            && (forall i :: 0 <= i < |u.apps| ==>
                  r.users.apps[i] == ReloadedApp(u.apps[i]).(numContexts := OwnedIn(u.ctxs[..n], u.apps[i].apid)))
            && (r.ok ==> forall i :: 0 <= i < |u.apps| ==> r.users.apps[i].numContexts == u.apps[i].numContexts)
  {
    var v, n := UserList(MapSeq(u.apps, ReloadedApp), []), Acceptable(u.ctxs);
    CtxAt(u, 0);
    ReloadedAppsOrdered(u);
    OwnersComeBack(u);
    LoadedAfterApplications(build, cfg, u, level, trace, appFile, SaveContexts(u, ctxFile));
    SaveThenLoad(cfg, u, v, level, trace, ctxFile);
    CountersComeBack(u, n);
  }
}
