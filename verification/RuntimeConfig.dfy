/**
 * The runtime configuration: registered applications and contexts written to a text file and
 * read back at the next start of the daemon.
 */
module RuntimeConfig {
  import opened Order
  import opened Ids
  import opened SortedTable
  import opened TableMaps
  import opened Entities
  import opened UserLists
  import opened Refinement
  import opened RuntimeText

  // --------------------------------------------------------------------- saving

  /** The description as "%s" prints it; an absent one prints as nothing. */
  function Printed(description: Option<seq<Byte>>): seq<Byte> {
    if description.Some? then CString(description.value) else []
  }

  function ContextHead(c: Context): seq<Byte> {
    CString(c.apid) + [COLON] + (CString(c.ctid) + [COLON]
    + (PrintInt(c.logLevel) + [COLON] + (PrintInt(c.traceStatus) + [COLON])))
  }

  function ContextLine(c: Context): seq<Byte> {
    ContextHead(c) + (Printed(c.description) + [COLON, NEWLINE])
  }

  function ContextLines(ctxs: seq<Context>): seq<Byte> {
    if |ctxs| == 0 then [] else ContextLine(ctxs[0]) + ContextLines(ctxs[1..])
  }

  /** dlt_daemon_contexts_save: an empty registry leaves the file as it is. */
  function SaveContexts(u: UserList, file: seq<Byte>): seq<Byte> {
    if |u.ctxs| > 0 then ContextLines(u.ctxs) else file
  }

  // -------------------------------------------------------------------- loading

  /** The loader's variables: the registry so far, the last level and trace status scanned. */
  datatype Loader = Loader(users: UserList, level: int, trace: int)

  function Scanned(field: seq<Byte>, previous: int): int {
    var r := ScanInt(field);
    if r.Some? then r.value else previous
  }

  datatype LineResult = LineResult(loader: Loader, failed: bool)

  function LoadContextFields(cfg: Config, l: Loader, f: seq<seq<Byte>>): LineResult {
    var level := if |f| > 2 then Scanned(f[2], l.level) else l.level;
    var trace := if |f| > 3 then Scanned(f[3], l.trace) else l.trace;
    if |f| > 4 then
      var r := AddCtx(cfg, l.users, SetId(f[0]), SetId(f[1]),
                      Registration(AsInt8(level), AsInt8(trace), 0, 0, Some(f[4])));
      LineResult(Loader(r.users, level, trace), r.position < 0)
    else
      LineResult(Loader(l.users, level, trace), false)
  }

  /** One line of dlt_daemon_contexts_load. */
  function LoadContextLine(cfg: Config, l: Loader, line: seq<Byte>): LineResult {
    LoadContextFields(cfg, l, Fields(CString(line)))
  }

  datatype Loaded = Loaded(users: UserList, ok: bool)

  /** dlt_daemon_contexts_load: stops at the first context that cannot be added. */
  function LoadContexts(cfg: Config, l: Loader, file: seq<Byte>): Loaded
    decreases |file|
  {
    if |file| == 0 then Loaded(l.users, true)
    else
      var n := LineLength(file, TEXT_BUFFER_SIZE - 1);
      var r := LoadContextLine(cfg, l, file[..n]);
      if r.failed then Loaded(r.loader.users, false) else LoadContexts(cfg, r.loader, file[n..])
  }

  // ------------------------------------------------------------ what can be saved

  ghost predicate PlainText(s: seq<Byte>) {
    COLON !in s && NEWLINE !in s && 0 !in s
  }

  ghost predicate PlainId(id: Id) {
    Padded(id) && id[0] != 0 && PlainText(CString(id))
  }

  /** A description that is absent, empty, plain, or the lone newline an absent one becomes. */
  ghost predicate SavableDescription(d: Option<seq<Byte>>) {
    PlainText(Printed(d)) || Printed(d) == [NEWLINE]
  }

  /** Levels are stored in int8_t; not all of them are accepted by a registration. */
  predicate StoredLevels(level: int, trace: int) {
    -128 <= level < 128 && -128 <= trace < 128
  }

  ghost predicate Savable(c: Context) {
    && PlainId(c.apid) && PlainId(c.ctid)
    && StoredLevels(c.logLevel, c.traceStatus)
    && SavableDescription(c.description)
    && |ContextHead(c)| + DescriptionRoom(c.description) < TEXT_BUFFER_SIZE - 1
  }

  ghost predicate AllSavable(ctxs: seq<Context>) {
    forall i {:trigger Savable(ctxs[i])} :: 0 <= i < |ctxs| ==> Savable(ctxs[i])
  }

  /** A registration accepts the levels of the context. */
  predicate InRange(c: Context) {
    LevelsInRange(c.logLevel, c.traceStatus)
  }

  /** The number of contexts in front of the first one whose levels are out of range. */
  function Acceptable(ctxs: seq<Context>): (n: nat)
    ensures n <= |ctxs| && (n < |ctxs| ==> !InRange(ctxs[n]))
    ensures forall i :: 0 <= i < n ==> InRange(ctxs[i])
  {
    if |ctxs| == 0 || !InRange(ctxs[0]) then 0 else 1 + Acceptable(ctxs[1..])
  }

  /** What a description adds to the first physical line: a newline ends that line early. */
  function DescriptionRoom(d: Option<seq<Byte>>): nat {
    if Printed(d) == [NEWLINE] then 0 else |Printed(d)| + 1
  }

  /** The description a saved one is read back as. */
  function Reread(d: Option<seq<Byte>>): Option<seq<Byte>> {
    Some(if Printed(d) == [] then [NEWLINE] else Printed(d))
  }

  function Rereading(c: Context): Registration {
    Registration(c.logLevel, c.traceStatus, 0, 0, Reread(c.description))
  }

  /** The context a saved one is read back as. */
  function Reloaded(cfg: Config, c: Context): Context {
    Register(cfg, NewContext(c.apid, c.ctid), true, Rereading(c))
  }

  // ---------------------------------------------------------------- one context

  lemma {:induction false} CStringOfPlain(s: seq<Byte>)
    requires 0 !in s
    ensures CString(s) == s
  {
    if |s| > 0 {
      CStringOfPlain(s[1..]);
      assert s == [s[0]] + s[1..];
    }
  }

  lemma CStringNonEmpty(id: Id)
    requires id[0] != 0
    ensures |CString(id)| > 0
  {
  }

  lemma FourFields(a: seq<Byte>, b: seq<Byte>, l: seq<Byte>, t: seq<Byte>, rest: seq<Byte>)
    requires |a| > 0 && |b| > 0 && |l| > 0 && |t| > 0
    requires COLON !in a && COLON !in b && COLON !in l && COLON !in t
    ensures Fields(a + [COLON] + (b + [COLON] + (l + [COLON] + (t + [COLON] + rest)))) == [a, b, l, t] + Fields(rest)
  {
    var r1 := t + [COLON] + rest;
    var r2 := l + [COLON] + r1;
    FieldsCons(a, b + [COLON] + r2);
    FieldsCons(b, r2);
    FieldsCons(l, r1);
    FieldsCons(t, rest);
    assert [a] + ([b] + ([l] + ([t] + Fields(rest)))) == [a, b, l, t] + Fields(rest);
  }

  /** The line of context C of application A with level 4, trace status 0 and description "d". */
  lemma LineText(c: Context)
    requires c.apid == [65, 0, 0, 0] && c.ctid == [67, 0, 0, 0] && c.logLevel == 4 && c.traceStatus == 0
    requires c.description == Some([100])
    ensures ContextLine(c) == [65, 58, 67, 58, 52, 58, 48, 58, 100, 58, 10]
  {
    assert CString(c.apid) == [65] && CString(c.ctid) == [67] && CString([100]) == [100] by {
      CStringOfPlain([100]);
    }
    assert PrintInt(4) == [52] && PrintInt(0) == [48];
  }

  /** The first four fields of a context line. */
  lemma HeadFields(c: Context, rest: seq<Byte>)
    requires PlainId(c.apid) && PlainId(c.ctid)
    ensures Fields(ContextHead(c) + rest)
            == [CString(c.apid), CString(c.ctid), PrintInt(c.logLevel), PrintInt(c.traceStatus)] + Fields(rest)
  {
    var a, b, l, t := CString(c.apid), CString(c.ctid), PrintInt(c.logLevel), PrintInt(c.traceStatus);
    CStringNonEmpty(c.apid);
    CStringNonEmpty(c.ctid);
    assert ContextHead(c) + rest == a + [COLON] + (b + [COLON] + (l + [COLON] + (t + [COLON] + rest)));
    FourFields(a, b, l, t, rest);
  }

  lemma HeadIsText(c: Context)
    requires PlainId(c.apid) && PlainId(c.ctid)
    ensures NEWLINE !in ContextHead(c) && 0 !in ContextHead(c)
  {
  }

  /** Everything in front of the description is short. */
  lemma HeadIsShort(c: Context)
    requires StoredLevels(c.logLevel, c.traceStatus)
    ensures |ContextHead(c)| <= 20
  {
    ShortLevel(c.logLevel);
    ShortLevel(c.traceStatus);
    CStringWithin(c.apid);
    CStringWithin(c.ctid);
  }

  lemma ShortLevel(n: int)
    requires -128 <= n < 128
    ensures |PrintInt(n)| <= 4
  {
    var m := if n < 0 then -n else n;
    if m >= 10 {
      assert |PrintNat(m)| == |PrintNat(m / 10)| + 1;
      if m >= 100 { assert |PrintNat(m / 10)| == |PrintNat(m / 10 / 10)| + 1; }
    }
  }

  lemma {:induction false} CStringWithin(s: seq<Byte>)
    ensures |CString(s)| <= |s|
  {
    if |s| > 0 { CStringWithin(s[1..]); }
  }

  /** The first five fields of a line that describes context c with description d. */
  ghost predicate Describes(f: seq<seq<Byte>>, c: Context, d: seq<Byte>) {
    && |f| > 4 && f[0] == CString(c.apid) && f[1] == CString(c.ctid)
    && f[2] == PrintInt(c.logLevel) && f[3] == PrintInt(c.traceStatus) && f[4] == d
  }

  lemma ScannedPrinted(n: int, previous: int)
    requires -128 <= n < 128
    ensures Scanned(PrintInt(n), previous) == n && AsInt8(n) == n
  {
    ScanPrinted(n);
  }

  /** A line with five fields or more adds the context they describe. */
  lemma LoadFullLine(cfg: Config, l: Loader, c: Context, f: seq<seq<Byte>>, d: seq<Byte>)
    requires PlainId(c.apid) && PlainId(c.ctid) && StoredLevels(c.logLevel, c.traceStatus)
    requires Describes(f, c, d)
    ensures var r := AddCtx(cfg, l.users, c.apid, c.ctid, Registration(c.logLevel, c.traceStatus, 0, 0, Some(d)));
            LoadContextFields(cfg, l, f) == LineResult(Loader(r.users, c.logLevel, c.traceStatus), r.position < 0)
  {
    ScannedPrinted(c.logLevel, l.level);
    ScannedPrinted(c.traceStatus, l.trace);
    assert SetId(f[0]) == c.apid by { SetIdOfPrinted(c.apid); }
    assert SetId(f[1]) == c.ctid by { SetIdOfPrinted(c.ctid); }
  }

  /** A level or trace status that is no number is taken from the line before. */
  lemma UnreadableLevelTakesPrevious(cfg: Config, l: Loader, apid: Id, ctid: Id, f: seq<seq<Byte>>)
    requires PlainId(apid) && PlainId(ctid) && StoredLevels(l.level, l.trace)
    requires |f| > 4 && f[0] == CString(apid) && f[1] == CString(ctid) && ScanInt(f[2]) == None && ScanInt(f[3]) == None
    ensures var r := AddCtx(cfg, l.users, apid, ctid, Registration(l.level, l.trace, 0, 0, Some(f[4])));
            LoadContextFields(cfg, l, f) == LineResult(Loader(r.users, l.level, l.trace), r.position < 0)
  {
    StoredIsInt8(l.level);
    StoredIsInt8(l.trace);
    assert Scanned(f[2], l.level) == l.level && Scanned(f[3], l.trace) == l.trace;
    assert SetId(f[0]) == apid by { SetIdOfPrinted(apid); }
    assert SetId(f[1]) == ctid by { SetIdOfPrinted(ctid); }
  }

  lemma StoredIsInt8(n: int)
    requires -128 <= n < 128
    ensures AsInt8(n) == n
  {
  }

  /** A line that is only a delimiter adds nothing. */
  lemma LoadBareLine(cfg: Config, l: Loader)
    ensures LoadContextLine(cfg, l, [COLON, NEWLINE]) == LineResult(l, false)
  {
    CStringOfPlain([COLON, NEWLINE]);
    FieldsSkip([NEWLINE]);
    assert [COLON, NEWLINE] == [COLON] + [NEWLINE];
    FieldsLast([NEWLINE]);
  }

  /** Reading one physical line and going on. */
  lemma LoadNext(cfg: Config, l: Loader, text: seq<Byte>, rest: seq<Byte>)
    requires NEWLINE !in text && |text| < TEXT_BUFFER_SIZE - 1
    ensures var r := LoadContextLine(cfg, l, text + [NEWLINE]);
            LoadContexts(cfg, l, text + [NEWLINE] + rest)
            == if r.failed then Loaded(r.loader.users, false) else LoadContexts(cfg, r.loader, rest)
  {
    var file := text + [NEWLINE] + rest;
    LineLengthIs(text, rest, TEXT_BUFFER_SIZE - 1);
    assert file[..|text| + 1] == text + [NEWLINE] && file[|text| + 1..] == rest;
  }

  /** The fields of a line with an ordinary or no description. */
  lemma PlainLineFields(c: Context)
    requires Savable(c) && Printed(c.description) != [NEWLINE]
    ensures Describes(Fields(ContextLine(c)), c, Reread(c.description).value)
  {
    var d := Printed(c.description);
    HeadFields(c, d + [COLON, NEWLINE]);
    if d == [] {
      assert d + [COLON, NEWLINE] == [COLON] + [NEWLINE];
      FieldsSkip([NEWLINE]);
    } else {
      assert d + [COLON, NEWLINE] == d + [COLON] + [NEWLINE];
      FieldsCons(d, [NEWLINE]);
    }
    FieldsLast([NEWLINE]);
  }

  /** What LoadContexts does behind a saved context. */
  ghost predicate LoadsAndGoesOn(cfg: Config, l: Loader, c: Context, line: seq<Byte>, rest: seq<Byte>) {
    var r := AddCtx(cfg, l.users, c.apid, c.ctid, Rereading(c));
    LoadContexts(cfg, l, line + rest)
    == if r.position < 0 then Loaded(r.users, false)
       else LoadContexts(cfg, Loader(r.users, c.logLevel, c.traceStatus), rest)
  }

  /** A physical line whose fields describe c. */
  lemma LoadDescribingLine(cfg: Config, l: Loader, c: Context, text: seq<Byte>, rest: seq<Byte>)
    requires Savable(c) && NEWLINE !in text && 0 !in text && |text| < TEXT_BUFFER_SIZE - 1
    requires Describes(Fields(text + [NEWLINE]), c, Reread(c.description).value)
    ensures LoadsAndGoesOn(cfg, l, c, text + [NEWLINE], rest)
  {
    CStringOfPlain(text + [NEWLINE]);
    LoadFullLine(cfg, l, c, Fields(text + [NEWLINE]), Reread(c.description).value);
    LoadNext(cfg, l, text, rest);
  }

  lemma LoadPlainContext(cfg: Config, l: Loader, c: Context, rest: seq<Byte>)
    requires Savable(c) && Printed(c.description) != [NEWLINE]
    ensures LoadsAndGoesOn(cfg, l, c, ContextLine(c), rest)
  {
    var text := ContextHead(c) + (Printed(c.description) + [COLON]);
    HeadIsText(c);
    assert ContextLine(c) == text + [NEWLINE];
    PlainLineFields(c);
    LoadDescribingLine(cfg, l, c, text, rest);
  }

  lemma NewlineLine(c: Context, rest: seq<Byte>)
    requires Printed(c.description) == [NEWLINE]
    ensures ContextLine(c) + rest == ContextHead(c) + [NEWLINE] + ([COLON] + [NEWLINE] + rest)
  {
  }

  /** A lone newline as description breaks its line in two; the second part adds nothing. */
  lemma LoadNewlineContext(cfg: Config, l: Loader, c: Context, rest: seq<Byte>)
    requires Savable(c) && Printed(c.description) == [NEWLINE]
    ensures LoadsAndGoesOn(cfg, l, c, ContextLine(c), rest)
  {
    var head, tail := ContextHead(c), [COLON] + [NEWLINE] + rest;
    assert LoadsAndGoesOn(cfg, l, c, head + [NEWLINE], tail) by {
      HeadIsText(c);
      HeadFields(c, [NEWLINE]);
      FieldsLast([NEWLINE]);
      LoadDescribingLine(cfg, l, c, head, tail);
    }
    NewlineLine(c, rest);
    SkipBareLine(cfg, Loader(AddCtx(cfg, l.users, c.apid, c.ctid, Rereading(c)).users, c.logLevel, c.traceStatus), rest);
  }

  lemma SkipBareLine(cfg: Config, l: Loader, rest: seq<Byte>)
    ensures LoadContexts(cfg, l, [COLON] + [NEWLINE] + rest) == LoadContexts(cfg, l, rest)
  {
    LoadNext(cfg, l, [COLON], rest);
    assert [COLON] + [NEWLINE] == [COLON, NEWLINE];
    LoadBareLine(cfg, l);
  }

  /** Reading a saved context registers it, with the description it reads back as. */
  lemma LoadSavedContext(cfg: Config, l: Loader, c: Context, rest: seq<Byte>)
    requires Savable(c)
    ensures LoadsAndGoesOn(cfg, l, c, ContextLine(c), rest)
  {
    if Printed(c.description) == [NEWLINE] {
      LoadNewlineContext(cfg, l, c, rest);
    } else {
      LoadPlainContext(cfg, l, c, rest);
    }
  }

  // ------------------------------------------------------------ a whole registry

  function Reloader(cfg: Config): Context -> Context {
    (c: Context) => Reloaded(cfg, c)
  }

  /** Every context of ctxs finds its application in apps. */
  ghost predicate AllOwned(apps: seq<Application>, ctxs: seq<Context>) {
    forall i :: 0 <= i < |ctxs| ==> Position(apps, AppKey, ctxs[i].apid) >= 0
  }

  lemma ReloadedIds(cfg: Config, c: Context)
    requires Savable(c)
    ensures Reloaded(cfg, c).apid == c.apid && Reloaded(cfg, c).ctid == c.ctid
  {
    SetIdOfField(c.apid);
    SetIdOfField(c.ctid);
  }

  /** The applications after n contexts of ctxs have been counted. */
  function CountedApps(apps: seq<Application>, ctxs: seq<Context>, n: nat): (r: seq<Application>)
    requires n <= |ctxs|
    ensures |r| == |apps|
  {
    if n == 0 then apps
    else
      var r, p := CountedApps(apps, ctxs, n - 1), Position(apps, AppKey, ctxs[n - 1].apid);
      if p < 0 then r else r[p := r[p].(numContexts := r[p].numContexts + 1)]
  }

  lemma {:induction false} CountedAppsIds(apps: seq<Application>, ctxs: seq<Context>, n: nat)
    requires n <= |ctxs|
    ensures forall i :: 0 <= i < |apps| ==> AppKey(CountedApps(apps, ctxs, n)[i]) == AppKey(apps[i])
  {
    if n > 0 { CountedAppsIds(apps, ctxs, n - 1); }
  }

  lemma {:induction false} CountedAppsByIds(apps: seq<Application>, c1: seq<Context>, c2: seq<Context>, n: nat)
    requires n <= |c1| == |c2| && forall i :: 0 <= i < |c1| ==> c1[i].apid == c2[i].apid
    ensures CountedApps(apps, c1, n) == CountedApps(apps, c2, n)
  {
    if n > 0 { CountedAppsByIds(apps, c1, c2, n - 1); }
  }

  /** The function f rereads each of the contexts, which are in order. */
  ghost predicate Rereads(cfg: Config, f: Context -> Context, ctxs: seq<Context>) {
    && StrictlySorted(ctxs, CtxKey) && AllSavable(ctxs)
    && forall i {:trigger f(ctxs[i])} :: 0 <= i < |ctxs| ==> f(ctxs[i]) == Reloaded(cfg, ctxs[i])
  }

  /** The registry after the first n contexts of ctxs have been read. */
  ghost predicate ReadSoFar(f: Context -> Context, v: UserList, apps: seq<Application>, ctxs: seq<Context>, n: nat) {
    && n <= |ctxs| && Ordered(v) && AllOwned(apps, ctxs)
    && v.apps == CountedApps(apps, ctxs, n)
    && v.ctxs == MapSeq(ctxs[..n], f)
  }

  lemma RereadPrefix(cfg: Config, f: Context -> Context, ctxs: seq<Context>, n: nat)
    requires Rereads(cfg, f, ctxs) && n <= |ctxs|
    ensures StrictlySorted(MapSeq(ctxs[..n], f), CtxKey)
    ensures forall i :: 0 <= i < n ==> CtxKey(MapSeq(ctxs[..n], f)[i]) == CtxKey(ctxs[i])
  {
    PrefixSorted(ctxs, CtxKey, n);
    var t := MapSeq(ctxs[..n], f);
    forall i | 0 <= i < n ensures CtxKey(t[i]) == CtxKey(ctxs[i]) {
      assert t[i] == f(ctxs[i]) && Savable(ctxs[i]);
      ReloadedIds(cfg, ctxs[i]);
    }
    SameKeysSorted(ctxs[..n], t, CtxKey);
  }

  lemma NextIsNew(cfg: Config, f: Context -> Context, ctxs: seq<Context>, n: nat)
    requires Rereads(cfg, f, ctxs) && n < |ctxs|
    ensures Position(MapSeq(ctxs[..n], f), CtxKey, CtxKey(ctxs[n])) < 0
  {
    RereadPrefix(cfg, f, ctxs, n);
    var p := Position(MapSeq(ctxs[..n], f), CtxKey, CtxKey(ctxs[n]));
    if p >= 0 { DistinctKeys(ctxs, CtxKey, p, n); }
  }

  /** Reading back a context that is not there yet inserts it. */
  lemma AddedBack(cfg: Config, v: UserList, c: Context, a: nat)
    requires Ordered(v) && Savable(c) && InRange(c) && Position(v.ctxs, CtxKey, CtxKey(c)) < 0
    requires a == Position(v.apps, AppKey, c.apid)
    ensures var r := AddCtx(cfg, v, c.apid, c.ctid, Rereading(c));
            r.position >= 0 && Ordered(r.users) && r.users == InsertCtx(v, a, Reloaded(cfg, c))
  {
    FindAppPadded(v, c.apid);
    FindCtxPadded(v, c.apid, c.ctid);
    AddCtxRefines(cfg, v, c.apid, c.ctid, Rereading(c));
  }

  lemma AppendedReloaded(cfg: Config, f: Context -> Context, ctxs: seq<Context>, n: nat)
    requires Rereads(cfg, f, ctxs) && n < |ctxs|
    ensures Sort(MapSeq(ctxs[..n], f) + [f(ctxs[n])], CtxKey) == MapSeq(ctxs[..n + 1], f)
  {
    MapSeqNext(ctxs, f, n);
    RereadPrefix(cfg, f, ctxs, n + 1);
    SortOfSorted(MapSeq(ctxs[..n + 1], f), CtxKey);
  }

  lemma ReadNextState(f: Context -> Context, v: UserList, w: UserList, apps: seq<Application>, ctxs: seq<Context>,
                      n: nat, a: nat)
    requires ReadSoFar(f, v, apps, ctxs, n) && n < |ctxs|
    requires a == Position(apps, AppKey, ctxs[n].apid)
    requires w == InsertCtx(v, a, f(ctxs[n])) && Ordered(w)
    requires Sort(MapSeq(ctxs[..n], f) + [f(ctxs[n])], CtxKey) == MapSeq(ctxs[..n + 1], f)
    ensures ReadSoFar(f, w, apps, ctxs, n + 1)
  {
  }

  lemma ReadNext(cfg: Config, f: Context -> Context, v: UserList, apps: seq<Application>, ctxs: seq<Context>, n: nat)
    requires Rereads(cfg, f, ctxs) && ReadSoFar(f, v, apps, ctxs, n) && n < |ctxs| && InRange(ctxs[n])
    ensures var r := AddCtx(cfg, v, ctxs[n].apid, ctxs[n].ctid, Rereading(ctxs[n]));
            r.position >= 0 && ReadSoFar(f, r.users, apps, ctxs, n + 1)
  {
    var c := ctxs[n];
    assert Savable(c) && f(c) == Reloaded(cfg, c);
    var a := Position(apps, AppKey, c.apid);
    assert a == Position(v.apps, AppKey, c.apid) by {
      CountedAppsIds(apps, ctxs, n);
      SameKeysPosition(apps, v.apps, AppKey, c.apid);
    }
    NextIsNew(cfg, f, ctxs, n);
    AddedBack(cfg, v, c, a);
    AppendedReloaded(cfg, f, ctxs, n);
    ReadNextState(f, v, AddCtx(cfg, v, c.apid, c.ctid, Rereading(c)).users, apps, ctxs, n, a);
  }

  lemma LinesFrom(ctxs: seq<Context>, n: nat)
    requires n < |ctxs|
    ensures ContextLines(ctxs[n..]) == ContextLine(ctxs[n]) + ContextLines(ctxs[n + 1..])
  {
    assert ctxs[n..][1..] == ctxs[n + 1..];
  }

  lemma {:induction false} LinesAppend(done: seq<Context>, c: Context)
    ensures ContextLines(done + [c]) == ContextLines(done) + ContextLine(c)
    decreases |done|
  {
    if |done| == 0 {
      assert done + [c] == [c] && [c][1..] == [];
    } else {
      assert (done + [c])[1..] == done[1..] + [c];
      LinesAppend(done[1..], c);
    }
  }

  lemma LinesNext(ctxs: seq<Context>, i: nat)
    requires i < |ctxs|
    ensures ContextLines(ctxs[..i + 1]) == ContextLines(ctxs[..i]) + ContextLine(ctxs[i])
  {
    assert ctxs[..i + 1] == ctxs[..i] + [ctxs[i]];
    LinesAppend(ctxs[..i], ctxs[i]);
  }

  /** The loader behind the line of c. */
  function Behind(cfg: Config, l: Loader, c: Context): Loader {
    Loader(AddCtx(cfg, l.users, c.apid, c.ctid, Rereading(c)).users, c.logLevel, c.traceStatus)
  }

  lemma LoadLine(cfg: Config, l: Loader, ctxs: seq<Context>, n: nat)
    requires n < |ctxs| && Savable(ctxs[n])
    ensures LoadContexts(cfg, l, ContextLines(ctxs[n..]))
            == if AddCtx(cfg, l.users, ctxs[n].apid, ctxs[n].ctid, Rereading(ctxs[n])).position < 0
               then Loaded(Behind(cfg, l, ctxs[n]).users, false)
               else LoadContexts(cfg, Behind(cfg, l, ctxs[n]), ContextLines(ctxs[n + 1..]))
  {
    LinesFrom(ctxs, n);
    LoadSavedContext(cfg, l, ctxs[n], ContextLines(ctxs[n + 1..]));
  }

  /** A context whose levels are out of range is refused, and ends the load. */
  lemma ReadStops(cfg: Config, l: Loader, ctxs: seq<Context>, n: nat)
    requires n < |ctxs| && Savable(ctxs[n]) && !InRange(ctxs[n])
    ensures LoadContexts(cfg, l, ContextLines(ctxs[n..])) == Loaded(l.users, false)
  {
    LoadLine(cfg, l, ctxs, n);
  }

  lemma ReadGoesOn(cfg: Config, f: Context -> Context, l: Loader, apps: seq<Application>, ctxs: seq<Context>, n: nat)
    returns (next: Loader)
    requires Rereads(cfg, f, ctxs) && ReadSoFar(f, l.users, apps, ctxs, n) && n < |ctxs| && InRange(ctxs[n])
    ensures ReadSoFar(f, next.users, apps, ctxs, n + 1)
    ensures LoadContexts(cfg, l, ContextLines(ctxs[n..])) == LoadContexts(cfg, next, ContextLines(ctxs[n + 1..]))
  {
    next := Behind(cfg, l, ctxs[n]);
    assert Savable(ctxs[n]);
    ReadNext(cfg, f, l.users, apps, ctxs, n);
    LoadLine(cfg, l, ctxs, n);
  }

  /** The result of loading, by the loader and the number of contexts behind it. */
  type Loading = (Loader, nat) -> Loaded

  function LoadingOf(cfg: Config, ctxs: seq<Context>): Loading {
    (l: Loader, n: nat) => if n <= |ctxs| then LoadContexts(cfg, l, ContextLines(ctxs[n..])) else Loaded(l.users, true)
  }

  type Progress = (UserList, nat) -> bool

  ghost function ProgressOf(f: Context -> Context, apps: seq<Application>, ctxs: seq<Context>): Progress {
    (v: UserList, n: nat) => ReadSoFar(f, v, apps, ctxs, n)
  }

  /** One line: the end of the file, a context out of range, or a context that is read. */
  ghost predicate Walks(load: Loading, soFar: Progress, ctxs: seq<Context>, l: Loader, n: nat) {
    soFar(l.users, n) && n <= |ctxs| ==>
      if n == |ctxs| then load(l, n) == Loaded(l.users, true)
      else if !InRange(ctxs[n]) then load(l, n) == Loaded(l.users, false)
      else exists next: Loader :: soFar(next.users, n + 1) && load(l, n) == load(next, n + 1)
  }

  lemma WalksEnd(cfg: Config, ctxs: seq<Context>, l: Loader)
    ensures LoadingOf(cfg, ctxs)(l, |ctxs|) == Loaded(l.users, true)
  {
    assert ContextLines(ctxs[|ctxs|..]) == [];
  }

  lemma LoadingWalks(cfg: Config, f: Context -> Context, apps: seq<Application>, ctxs: seq<Context>, l: Loader, n: nat)
    requires Rereads(cfg, f, ctxs)
    ensures Walks(LoadingOf(cfg, ctxs), ProgressOf(f, apps, ctxs), ctxs, l, n)
  {
    var load, soFar := LoadingOf(cfg, ctxs), ProgressOf(f, apps, ctxs);
    if soFar(l.users, n) && n == |ctxs| {
      WalksEnd(cfg, ctxs, l);
    } else if soFar(l.users, n) && !InRange(ctxs[n]) {
      assert Savable(ctxs[n]);
      ReadStops(cfg, l, ctxs, n);
    } else if soFar(l.users, n) {
      var next := ReadGoesOn(cfg, f, l, apps, ctxs, n);
      assert soFar(next.users, n + 1) && load(l, n) == load(next, n + 1);
    }
  }

  /** Reading from n on goes as far as m, the first context out of range. */
  lemma {:induction false} ReadRest(load: Loading, soFar: Progress, ctxs: seq<Context>, l: Loader, n: nat, m: nat)
    requires forall l': Loader, i: nat :: Walks(load, soFar, ctxs, l', i)
    requires soFar(l.users, n)
    requires n <= m <= |ctxs| && (forall i :: n <= i < m ==> InRange(ctxs[i])) && (m < |ctxs| ==> !InRange(ctxs[m]))
    ensures load(l, n).ok == (m == |ctxs|) && soFar(load(l, n).users, m)
    decreases |ctxs| - n
  {
    assert Walks(load, soFar, ctxs, l, n);
    if n < m {
      var next: Loader :| soFar(next.users, n + 1) && load(l, n) == load(next, n + 1);
      ReadRest(load, soFar, ctxs, next, n + 1, m);
    }
  }

  /**
   * Saving a non-empty registry of contexts and loading the file into a daemon that knows the
   * same applications and has no contexts: the load succeeds if and only if all levels and
   * trace statuses are ones a registration accepts. Exactly the contexts in front of the first
   * other one come back, in the same order, each as Reloaded says, and are counted, whatever
   * the loader's variables hold.
   */
  lemma SaveThenLoad(cfg: Config, u: UserList, v: UserList, level: int, trace: int, file: seq<Byte>)
    requires Ordered(u) && |u.ctxs| > 0 && AllSavable(u.ctxs)
    requires Ordered(v) && v.ctxs == [] && AllOwned(v.apps, u.ctxs)
    ensures var r, n := LoadContexts(cfg, Loader(v, level, trace), SaveContexts(u, file)), Acceptable(u.ctxs);
            && (r.ok <==> forall i :: 0 <= i < |u.ctxs| ==> InRange(u.ctxs[i]))
            && Ordered(r.users) && r.users.ctxs == MapSeq(u.ctxs[..n], Reloader(cfg))
            && r.users.apps == CountedApps(v.apps, u.ctxs, n)
  {
    var n := Acceptable(u.ctxs);
    assert u.ctxs[0..] == u.ctxs;
    assert v.ctxs == MapSeq(u.ctxs[..0], Reloader(cfg));
    var load, soFar := LoadingOf(cfg, u.ctxs), ProgressOf(Reloader(cfg), v.apps, u.ctxs);
    forall l: Loader, i: nat ensures Walks(load, soFar, u.ctxs, l, i) {
      LoadingWalks(cfg, Reloader(cfg), v.apps, u.ctxs, l, i);
    }
    ReadRest(load, soFar, u.ctxs, Loader(v, level, trace), 0, n);
  }

  /** With all levels in range everything comes back. */
  lemma SaveThenLoadAll(cfg: Config, u: UserList, v: UserList, level: int, trace: int, file: seq<Byte>)
    requires Ordered(u) && |u.ctxs| > 0 && AllSavable(u.ctxs)
    requires Ordered(v) && v.ctxs == [] && AllOwned(v.apps, u.ctxs)
    requires forall i :: 0 <= i < |u.ctxs| ==> InRange(u.ctxs[i])
    ensures LoadContexts(cfg, Loader(v, level, trace), SaveContexts(u, file))
            == Loaded(UserList(CountedApps(v.apps, u.ctxs, |u.ctxs|), MapSeq(u.ctxs, Reloader(cfg))), true)
  {
    var r := LoadContexts(cfg, Loader(v, level, trace), SaveContexts(u, file));
    assert Acceptable(u.ctxs) == |u.ctxs| && u.ctxs[..|u.ctxs|] == u.ctxs;
    assert r.ok && r.users.apps == CountedApps(v.apps, u.ctxs, |u.ctxs|) && r.users.ctxs == MapSeq(u.ctxs, Reloader(cfg)) by {
      SaveThenLoad(cfg, u, v, level, trace, file);
    }
  }

  /** With enforcement off and a plain description nothing a context was saved with is lost. */
  lemma ReloadedExact(cfg: Config, c: Context)
    requires Savable(c) && !cfg.enforce && c.description.Some?
    requires PlainText(c.description.value) && c.description.value != []
    ensures var r := Reloaded(cfg, c);
            && r.apid == c.apid && r.ctid == c.ctid && r.logLevel == c.logLevel && r.traceStatus == c.traceStatus
            && r.description == c.description && r.predefined
  {
    ReloadedIds(cfg, c);
    CStringOfPlain(c.description.value);
  }

  /** Enforcement does not make the printed levels longer. */
  ghost predicate KeepsWidth(cfg: Config) {
    cfg.enforce ==> cfg.defaultLogLevel >= 0 && cfg.defaultTraceStatus >= 0
  }

  lemma MinWidth(n: int, cap: int)
    requires n < 10 && cap >= 0
    ensures |PrintInt(Min(n, cap))| <= |PrintInt(n)|
  {
  }

  lemma HeadWidth(c: Context, r: Context)
    requires r.apid == c.apid && r.ctid == c.ctid
    requires |PrintInt(r.logLevel)| <= |PrintInt(c.logLevel)| && |PrintInt(r.traceStatus)| <= |PrintInt(c.traceStatus)|
    ensures |ContextHead(r)| <= |ContextHead(c)|
  {
  }

  /** An absent description comes back as a newline, and that one stays. */
  lemma ReloadedTwice(cfg: Config, c: Context)
    requires Savable(c) && InRange(c) && KeepsWidth(cfg)
    ensures Savable(Reloaded(cfg, c)) && InRange(Reloaded(cfg, c)) && Reloaded(cfg, Reloaded(cfg, c)) == Reloaded(cfg, c)
  {
    var r := Reloaded(cfg, c);
    ReloadedIds(cfg, c);
    CStringOfPlain(Reread(c.description).value);
    if cfg.enforce {
      MinWidth(c.logLevel, cfg.defaultLogLevel);
      MinWidth(c.traceStatus, cfg.defaultTraceStatus);
    }
    HeadWidth(c, r);
  }

  /** Contexts that were read back once are read back as they are. */
  lemma ReadBackStable(cfg: Config, apps: seq<Application>, ctxs: seq<Context>, again: seq<Context>)
    requires AllSavable(ctxs) && AllOwned(apps, ctxs) && KeepsWidth(cfg) && again == MapSeq(ctxs, Reloader(cfg))
    requires forall i :: 0 <= i < |ctxs| ==> InRange(ctxs[i])
    ensures AllSavable(again) && AllOwned(apps, again) && MapSeq(again, Reloader(cfg)) == again
    ensures forall i :: 0 <= i < |ctxs| ==> again[i].apid == ctxs[i].apid && InRange(again[i])
  {
    forall i | 0 <= i < |again|
      ensures Savable(again[i]) && InRange(again[i]) && Reloaded(cfg, again[i]) == again[i] && again[i].apid == ctxs[i].apid
    {
      assert Savable(ctxs[i]) && again[i] == Reloaded(cfg, ctxs[i]);
      ReloadedTwice(cfg, ctxs[i]);
      ReloadedIds(cfg, ctxs[i]);
    }
  }

  /** What a first cycle brings back is all in range, so a second one brings all of it back. */
  lemma StableCycle(cfg: Config, v: UserList, ctxs: seq<Context>, w: UserList, level: int, trace: int, file: seq<Byte>)
    requires Ordered(v) && v.ctxs == [] && |ctxs| > 0 && AllSavable(ctxs) && AllOwned(v.apps, ctxs) && KeepsWidth(cfg)
    requires forall i :: 0 <= i < |ctxs| ==> InRange(ctxs[i])
    requires Ordered(w) && w == UserList(CountedApps(v.apps, ctxs, |ctxs|), MapSeq(ctxs, Reloader(cfg)))
    ensures LoadContexts(cfg, Loader(v, level, trace), SaveContexts(w, file)) == Loaded(w, true)
  {
    ReadBackStable(cfg, v.apps, ctxs, w.ctxs);
    assert CountedApps(v.apps, w.ctxs, |w.ctxs|) == w.apps by {
      CountedAppsByIds(v.apps, ctxs, w.ctxs, |ctxs|);
    }
    SaveThenLoadAll(cfg, w, v, level, trace, file);
  }

  lemma CountedPrefix(apps: seq<Application>, ctxs: seq<Context>, n: nat, m: nat)
    requires n <= m <= |ctxs|
    ensures CountedApps(apps, ctxs[..m], n) == CountedApps(apps, ctxs, n)
  {
  }

  /**
   * A second save and load cycle on the same file gives exactly the contexts of the first. If
   * the first one brought any back, that is so for every file the second save finds.
   */
  lemma SecondCycleIdentical(cfg: Config, u: UserList, v: UserList, level: int, trace: int, file: seq<Byte>, file': seq<Byte>)
    requires Ordered(u) && |u.ctxs| > 0 && AllSavable(u.ctxs)
    requires Ordered(v) && v.ctxs == [] && AllOwned(v.apps, u.ctxs) && KeepsWidth(cfg)
    ensures var saved := SaveContexts(u, file);
            var w := LoadContexts(cfg, Loader(v, level, trace), saved).users;
            && LoadContexts(cfg, Loader(v, level, trace), SaveContexts(w, saved)) == Loaded(w, InRange(u.ctxs[0]))
            && (InRange(u.ctxs[0]) ==> LoadContexts(cfg, Loader(v, level, trace), SaveContexts(w, file')) == Loaded(w, true))
  {
    var saved, n := SaveContexts(u, file), Acceptable(u.ctxs);
    SaveThenLoad(cfg, u, v, level, trace, file);
    var w := LoadContexts(cfg, Loader(v, level, trace), saved).users;
    if n > 0 {
      var front := u.ctxs[..n];
      CountedPrefix(v.apps, u.ctxs, n, n);
      StableCycle(cfg, v, front, w, level, trace, saved);
      StableCycle(cfg, v, front, w, level, trace, file');
    }
  }

  /**
   * Saving does nothing when no context is left: the file of an earlier save stays, and the
   * next load brings back the contexts of that save, up to the first one out of range.
   */
  lemma EmptySaveBringsBackOldContexts(cfg: Config, u: UserList, v: UserList, level: int, trace: int, file: seq<Byte>)
    requires Ordered(u) && |u.ctxs| > 0 && AllSavable(u.ctxs)
    requires Ordered(v) && v.ctxs == [] && AllOwned(v.apps, u.ctxs)
    ensures var w := LoadContexts(cfg, Loader(v, level, trace), SaveContexts(v, SaveContexts(u, file))).users;
            w.ctxs == MapSeq(u.ctxs[..Acceptable(u.ctxs)], Reloader(cfg)) && (w.ctxs != [] <==> InRange(u.ctxs[0]))
  {
    SaveThenLoad(cfg, u, v, level, trace, file);
  }
}
