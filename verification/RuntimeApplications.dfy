/**
 * The runtime configuration file of applications.
 */
module RuntimeApplications {
  import opened Order
  import opened Ids
  import opened SortedTable
  import opened TableMaps
  import opened Entities
  import opened UserLists
  import opened Refinement
  import opened RuntimeText
  import opened RuntimeConfig

  function ApplicationHead(a: Application): seq<Byte> {
    CString(a.apid) + [COLON]
  }

  function ApplicationLine(a: Application): seq<Byte> {
    ApplicationHead(a) + (Printed(a.description) + [COLON, NEWLINE])
  }

  function ApplicationLines(apps: seq<Application>): seq<Byte> {
    if |apps| == 0 then [] else ApplicationLine(apps[0]) + ApplicationLines(apps[1..])
  }

  /** dlt_daemon_applications_save: an empty registry leaves the file as it is. */
  function SaveApplications(u: UserList, file: seq<Byte>): seq<Byte> {
    if |u.apps| > 0 then ApplicationLines(u.apps) else file
  }

  /** Registration from the file: the process is unknown, so no descriptor is looked for. */
  function AddLoaded(build: Build, u: UserList, id: Id, description: seq<Byte>): Addition {
    AddApp(build, u, id, 0, Some(description), -1, -1)
  }

  /** One line of dlt_daemon_applications_load. */
  function LoadApplicationLine(build: Build, u: UserList, line: seq<Byte>): Loaded {
    var f := Fields(CString(line));
    if |f| > 1 then
      var r := AddLoaded(build, u, SetId(f[0]), f[1]);
      Loaded(r.users, r.position >= 0)
    else
      Loaded(u, true)
  }

  /** dlt_daemon_applications_load. */
  function LoadApplications(build: Build, u: UserList, file: seq<Byte>): Loaded
    decreases |file|
  {
    if |file| == 0 then Loaded(u, true)
    else
      var n := LineLength(file, TEXT_BUFFER_SIZE - 1);
      var r := LoadApplicationLine(build, u, file[..n]);
      if r.ok then LoadApplications(build, r.users, file[n..]) else r
  }

  ghost predicate SavableApp(a: Application) {
    && PlainId(a.apid) && SavableDescription(a.description)
    && |ApplicationHead(a)| + DescriptionRoom(a.description) < TEXT_BUFFER_SIZE - 1
  }

  ghost predicate AllSavableApps(apps: seq<Application>) {
    forall i {:trigger SavableApp(apps[i])} :: 0 <= i < |apps| ==> SavableApp(apps[i])
  }

  /** The application a saved one is read back as. */
  function ReloadedApp(a: Application): Application {
    NewApplication(a.apid).(description := Reread(a.description))
  }

  // ------------------------------------------------------------- one application

  lemma LoadNextLine(build: Build, u: UserList, text: seq<Byte>, rest: seq<Byte>)
    requires NEWLINE !in text && |text| < TEXT_BUFFER_SIZE - 1
    ensures var r := LoadApplicationLine(build, u, text + [NEWLINE]);
            LoadApplications(build, u, text + [NEWLINE] + rest)
            == if r.ok then LoadApplications(build, r.users, rest) else r
  {
    var file := text + [NEWLINE] + rest;
    LineLengthIs(text, rest, TEXT_BUFFER_SIZE - 1);
    assert file[..|text| + 1] == text + [NEWLINE] && file[|text| + 1..] == rest;
  }

  ghost predicate LoadsApp(build: Build, u: UserList, a: Application, line: seq<Byte>, rest: seq<Byte>) {
    var r := AddLoaded(build, u, a.apid, Reread(a.description).value);
    LoadApplications(build, u, line + rest)
    == if r.position >= 0 then LoadApplications(build, r.users, rest) else Loaded(r.users, false)
  }

  lemma LoadDescribingAppLine(build: Build, u: UserList, a: Application, text: seq<Byte>, rest: seq<Byte>)
    requires SavableApp(a) && NEWLINE !in text && 0 !in text && |text| < TEXT_BUFFER_SIZE - 1
    requires var f := Fields(text + [NEWLINE]);
             |f| > 1 && f[0] == CString(a.apid) && f[1] == Reread(a.description).value
    ensures LoadsApp(build, u, a, text + [NEWLINE], rest)
  {
    CStringOfPlain(text + [NEWLINE]);
    SetIdOfPrinted(a.apid);
    LoadNextLine(build, u, text, rest);
  }

  lemma AppLineFields(a: Application, s: seq<Byte>)
    requires PlainId(a.apid)
    ensures Fields(ApplicationHead(a) + s) == [CString(a.apid)] + Fields(s)
  {
    CStringNonEmpty(a.apid);
    FieldsCons(CString(a.apid), s);
  }

  lemma PlainAppFields(a: Application, d: seq<Byte>)
    requires PlainId(a.apid) && COLON !in d
    ensures Fields(ApplicationHead(a) + (d + [COLON, NEWLINE])) == [CString(a.apid)] + (if d == [] then [[NEWLINE]] else [d, [NEWLINE]])
  {
    AppLineFields(a, d + [COLON, NEWLINE]);
    FieldsLast([NEWLINE]);
    if d == [] {
      assert d + [COLON, NEWLINE] == [COLON] + [NEWLINE];
      FieldsSkip([NEWLINE]);
    } else {
      assert d + [COLON, NEWLINE] == d + [COLON] + [NEWLINE];
      FieldsCons(d, [NEWLINE]);
    }
  }

  lemma LoadPlainApplication(build: Build, u: UserList, a: Application, rest: seq<Byte>)
    requires SavableApp(a) && Printed(a.description) != [NEWLINE]
    ensures LoadsApp(build, u, a, ApplicationLine(a), rest)
  {
    var d := Printed(a.description);
    var text := ApplicationHead(a) + (d + [COLON]);
    assert ApplicationLine(a) == text + [NEWLINE] == ApplicationHead(a) + (d + [COLON, NEWLINE]);
    PlainAppFields(a, d);
    LoadDescribingAppLine(build, u, a, text, rest);
  }

  lemma SkipBareAppLine(build: Build, u: UserList, rest: seq<Byte>)
    ensures LoadApplications(build, u, [COLON] + [NEWLINE] + rest) == LoadApplications(build, u, rest)
  {
    LoadNextLine(build, u, [COLON], rest);
    CStringOfPlain([COLON] + [NEWLINE]);
    FieldsSkip([NEWLINE]);
    FieldsLast([NEWLINE]);
  }

  lemma NewlineAppLine(a: Application, rest: seq<Byte>)
    requires Printed(a.description) == [NEWLINE]
    ensures ApplicationLine(a) + rest == ApplicationHead(a) + [NEWLINE] + ([COLON] + [NEWLINE] + rest)
  {
  }

  lemma LoadNewlineApplication(build: Build, u: UserList, a: Application, rest: seq<Byte>)
    requires SavableApp(a) && Printed(a.description) == [NEWLINE]
    ensures LoadsApp(build, u, a, ApplicationLine(a), rest)
  {
    var head, tail := ApplicationHead(a), [COLON] + [NEWLINE] + rest;
    assert LoadsApp(build, u, a, head + [NEWLINE], tail) by {
      AppLineFields(a, [NEWLINE]);
      FieldsLast([NEWLINE]);
      LoadDescribingAppLine(build, u, a, head, tail);
    }
    NewlineAppLine(a, rest);
    SkipBareAppLine(build, AddLoaded(build, u, a.apid, Reread(a.description).value).users, rest);
  }

  lemma LoadSavedApplication(build: Build, u: UserList, a: Application, rest: seq<Byte>)
    requires SavableApp(a)
    ensures LoadsApp(build, u, a, ApplicationLine(a), rest)
  {
    if Printed(a.description) == [NEWLINE] {
      LoadNewlineApplication(build, u, a, rest);
    } else {
      LoadPlainApplication(build, u, a, rest);
    }
  }

  // ------------------------------------------------------------ a whole registry

  ghost predicate RereadsApps(f: Application -> Application, apps: seq<Application>) {
    && StrictlySorted(apps, AppKey) && AllSavableApps(apps)
    && forall i {:trigger f(apps[i])} :: 0 <= i < |apps| ==> f(apps[i]) == ReloadedApp(apps[i])
  }

  lemma RereadAppsPrefix(f: Application -> Application, apps: seq<Application>, n: nat)
    requires RereadsApps(f, apps) && n <= |apps|
    ensures StrictlySorted(MapSeq(apps[..n], f), AppKey)
    ensures forall i :: 0 <= i < n ==> AppKey(MapSeq(apps[..n], f)[i]) == AppKey(apps[i])
  {
    PrefixSorted(apps, AppKey, n);
    var t := MapSeq(apps[..n], f);
    forall i | 0 <= i < n ensures AppKey(t[i]) == AppKey(apps[i]) {
      assert t[i] == f(apps[i]) && SavableApp(apps[i]);
      SetIdOfField(apps[i].apid);
    }
    SameKeysSorted(apps[..n], t, AppKey);
  }

  /** Reading back an application that is not there yet appends it when it is the greatest. */
  lemma AppAddedBack(build: Build, v: UserList, a: Application)
    requires Ordered(v) && SavableApp(a) && Position(v.apps, AppKey, AppKey(a)) < 0
    requires StrictlySorted(v.apps + [ReloadedApp(a)], AppKey)
    ensures var r := AddLoaded(build, v, a.apid, Reread(a.description).value);
            r.position >= 0 && Ordered(r.users) && r.users == v.(apps := v.apps + [ReloadedApp(a)])
  {
    FindAppPadded(v, a.apid);
    AddAppRefines(build, v, a.apid, 0, Reread(a.description), -1, -1);
    AppendedThenConfigured(build, v, a.apid, 0, Reread(a.description), -1, -1);
    SortOfSorted(v.apps + [ReloadedApp(a)], AppKey);
  }

  lemma ReadNextApp(build: Build, f: Application -> Application, v: UserList, apps: seq<Application>, n: nat)
    requires RereadsApps(f, apps) && n < |apps| && Ordered(v) && v.apps == MapSeq(apps[..n], f)
    ensures var r := AddLoaded(build, v, apps[n].apid, Reread(apps[n].description).value);
            r.position >= 0 && Ordered(r.users) && r.users == v.(apps := MapSeq(apps[..n + 1], f))
  {
    var a := apps[n];
    assert SavableApp(a) && f(a) == ReloadedApp(a);
    MapSeqNext(apps, f, n);
    RereadAppsPrefix(f, apps, n);
    RereadAppsPrefix(f, apps, n + 1);
    var p := Position(v.apps, AppKey, AppKey(a));
    if p >= 0 { DistinctKeys(apps, AppKey, p, n); }
    AppAddedBack(build, v, a);
  }

  lemma LoadAppLine(build: Build, v: UserList, apps: seq<Application>, n: nat)
    requires n < |apps| && SavableApp(apps[n])
    requires AddLoaded(build, v, apps[n].apid, Reread(apps[n].description).value).position >= 0
    ensures LoadApplications(build, v, ApplicationLines(apps[n..]))
            == LoadApplications(build, AddLoaded(build, v, apps[n].apid, Reread(apps[n].description).value).users,
                                ApplicationLines(apps[n + 1..]))
  {
    assert apps[n..][1..] == apps[n + 1..];
    LoadSavedApplication(build, v, apps[n], ApplicationLines(apps[n + 1..]));
  }

  lemma {:induction false} ReadRestApps(build: Build, f: Application -> Application, v: UserList, apps: seq<Application>, n: nat)
    requires RereadsApps(f, apps) && n <= |apps| && Ordered(v) && v.apps == MapSeq(apps[..n], f)
    ensures LoadApplications(build, v, ApplicationLines(apps[n..])) == Loaded(v.(apps := MapSeq(apps, f)), true)
    decreases |apps| - n
  {
    if n == |apps| {
      assert ApplicationLines(apps[n..]) == [] && apps[..n] == apps;
    } else {
      assert SavableApp(apps[n]);
      ReadNextApp(build, f, v, apps, n);
      LoadAppLine(build, v, apps, n);
      ReadRestApps(build, f, AddLoaded(build, v, apps[n].apid, Reread(apps[n].description).value).users, apps, n + 1);
    }
  }

  /**
   * Saving a non-empty registry of applications and loading the file into an empty one gives
   * back every application, in the same order, without process and descriptor.
   */
  lemma SaveThenLoadApplications(build: Build, u: UserList, file: seq<Byte>)
    requires Ordered(u) && |u.apps| > 0 && AllSavableApps(u.apps)
    ensures LoadApplications(build, UserList([], []), SaveApplications(u, file))
            == Loaded(UserList(MapSeq(u.apps, ReloadedApp), []), true)
  {
    assert u.apps[0..] == u.apps;
    assert [] == MapSeq(u.apps[..0], ReloadedApp);
    ReadRestApps(build, ReloadedApp, UserList([], []), u.apps, 0);
  }

  lemma ReloadedAppTwice(a: Application)
    requires SavableApp(a)
    ensures SavableApp(ReloadedApp(a)) && ReloadedApp(ReloadedApp(a)) == ReloadedApp(a)
    ensures AppIdOk(ReloadedApp(a)) && AppKey(ReloadedApp(a)) == AppKey(a)
  {
    SetIdOfField(a.apid);
    CStringOfPlain(Reread(a.description).value);
  }

  lemma ReloadedAppsOrdered(u: UserList)
    requires Ordered(u) && AllSavableApps(u.apps)
    ensures Ordered(UserList(MapSeq(u.apps, ReloadedApp), []))
    ensures forall i :: 0 <= i < |u.apps| ==> AppKey(ReloadedApp(u.apps[i])) == AppKey(u.apps[i])
  {
    var w := MapSeq(u.apps, ReloadedApp);
    forall i | 0 <= i < |u.apps|
      ensures AppIdOk(w[i]) && AppKey(ReloadedApp(u.apps[i])) == AppKey(u.apps[i])
    {
      assert SavableApp(u.apps[i]) && w[i] == ReloadedApp(u.apps[i]);
      ReloadedAppTwice(u.apps[i]);
    }
    SameKeysSorted(u.apps, w, AppKey);
    assert StrictlySorted(UserList(w, []).ctxs, CtxKey);
  }

  /** A second cycle gives exactly the applications of the first. */
  lemma SecondApplicationCycleIdentical(build: Build, u: UserList, file: seq<Byte>, file': seq<Byte>)
    requires Ordered(u) && |u.apps| > 0 && AllSavableApps(u.apps)
    ensures var w := LoadApplications(build, UserList([], []), SaveApplications(u, file)).users;
            LoadApplications(build, UserList([], []), SaveApplications(w, file')) == Loaded(w, true)
  {
    SaveThenLoadApplications(build, u, file);
    var w := UserList(MapSeq(u.apps, ReloadedApp), []);
    forall i | 0 <= i < |u.apps| ensures SavableApp(w.apps[i]) && ReloadedApp(w.apps[i]) == w.apps[i] {
      assert SavableApp(u.apps[i]) && w.apps[i] == ReloadedApp(u.apps[i]);
      ReloadedAppTwice(u.apps[i]);
    }
    ReloadedAppsOrdered(u);
    SaveThenLoadApplications(build, w, file');
    assert MapSeq(w.apps, ReloadedApp) == w.apps;
  }
}
