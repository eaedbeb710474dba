/**
 * The registry of one ECU as two plain maps: the reference the sorted arrays are measured
 * against.
 *
 * No order, no positions and no search appear here; what an operation does to the records,
 * to the descriptors and to the messages sent is what dlt_daemon_common.c does.
 */
module Directory {
  import opened Order
  import opened Ids
  import opened Entities
  import opened TableMaps

  datatype Dir = Dir(apps: map<Key, Application>, ctxs: map<Key, Context>)

  datatype Effect = Effect(dir: Dir, events: seq<Event>)

  datatype Op =
    | AddApplication(apid: Id, pid: int, description: Option<seq<Byte>>, fd: int, pipe: OpenResult)
    | DeleteApplication(apid: Id)
    | ClearApplications
    | AddContext(apid: Id, ctid: Id, registration: Registration)
    | DeleteContext(apid: Id, ctid: Id)
    | ClearContexts
    | InvalidateFd(fd: int)
    | SendState(apid: Id, outcome: Outcome)
    | SendLevel(apid: Id, ctid: Id, outcome: Outcome)
    | UpdateLevel(key: Key, enforce: bool, cap: int, level: int, outcome: Outcome)
    | SetLevel(key: Key, request: LevelRequest, outcome: Outcome)
    | SetStorage(key: Key, level: int)
    | Inject(apid: Id, ctid: Id, outcome: Outcome)

  /** dlt_daemon_application_reset_user_handle. */
  function ResetHandle(d: Dir, k: Key): Effect
    requires k in d.apps
  {
    var a := d.apps[k];
    if a.userHandle == FD_INIT then Effect(d, [])
    else
      Effect(
        Dir(d.apps[k := a.(userHandle := FD_INIT, ownsHandle := false)],
            MapValues(d.ctxs, CtxReleaser(a.userHandle))),
        if a.ownsHandle then [Closed(a.userHandle)] else [])
  }

  function Invalidate(d: Dir, h: int): Dir {
    Dir(MapValues(d.apps, AppReleaser(h)), MapValues(d.ctxs, CtxReleaser(h)))
  }

  /** The part of registration that drops the descriptor of a previous process. */
  function Rebind(d: Dir, k: Key, pid: int): Effect
    requires k in d.apps
  {
    if d.apps[k].pid == pid then Effect(d, [])
    else
      var e := ResetHandle(d, k);
      Effect(e.dir.(apps := e.dir.apps[k := e.dir.apps[k].(pid := 0)]), e.events)
  }

  /** The part of registration that gives the application a descriptor. */
  function Attach(build: Build, d: Dir, k: Key, pid: int, fd: int, pipe: OpenResult): Effect
    requires k in d.apps
  {
    if d.apps[k].userHandle != FD_INIT || pid == 0 then Effect(d, [])
    else
      var q := Acquire(build, fd, pipe);
      var d1 := Invalidate(d, q.handle);
      Effect(
        d1.(apps := d1.apps[k := d1.apps[k].(userHandle := q.handle, ownsHandle := q.owned, pid := pid)]),
        q.events)
  }

  function Introduce(d: Dir, raw: Id, description: Option<seq<Byte>>): Dir {
    var k := SetId(raw);
    var a := if k in d.apps then d.apps[k] else NewApplication(raw);
    d.(apps := d.apps[k := a.(description := description)])
  }

  function AddApp(build: Build, d: Dir, raw: Id, pid: int, description: Option<seq<Byte>>,
                  fd: int, pipe: OpenResult): Effect
  {
    if raw[0] == 0 then Effect(d, [])
    else
      var k := SetId(raw);
      var e1 := Rebind(Introduce(d, raw, description), k, pid);
      var e2 := Attach(build, e1.dir, k, pid, fd, pipe);
      Effect(e2.dir, e1.events + e2.events)
  }

  function DeleteApp(d: Dir, k: Key): Effect
    requires k in d.apps
  {
    var e := ResetHandle(d, k);
    Effect(e.dir.(apps := e.dir.apps - {k}), e.events)
  }

  function AddCtx(cfg: Config, d: Dir, rawApid: Id, rawCtid: Id, r: Registration): Dir {
    var a := SetId(rawApid);
    var k := SetId(rawApid) + SetId(rawCtid);
    if rawApid[0] == 0 || rawCtid[0] == 0 || !LevelsInRange(r.level, r.trace) || a !in d.apps then d
    else if k in d.ctxs then
      d.(ctxs := d.ctxs[k := Register(cfg, d.ctxs[k], false, r)])
    else
      Dir(d.apps[a := d.apps[a].(numContexts := d.apps[a].numContexts + 1)],
          d.ctxs[k := Register(cfg, NewContext(rawApid, rawCtid), true, r)])
  }

  function DeleteCtx(d: Dir, k: Key): Dir
    requires k in d.ctxs
  {
    var a := AppKeyOf(d.ctxs[k]);
    Dir(if a in d.apps then d.apps[a := d.apps[a].(numContexts := d.apps[a].numContexts - 1)] else d.apps,
        d.ctxs - {k})
  }

  function AppKeyOf(c: Context): Key {
    c.apid
  }

  function ResetCount(a: Application): Application {
    a.(numContexts := 0)
  }

  /** dlt_daemon_user_send_log_level: only a negative descriptor is refused. */
  function Send(cfg: Config, d: Dir, k: Key, outcome: Outcome): Effect
    requires k in d.ctxs
  {
    var c := d.ctxs[k];
    if c.userHandle < 0 then Effect(d, [])
    else
      var e := if outcome.DeadDescriptor? && AppKeyOf(c) in d.apps then ResetHandle(d, AppKeyOf(c)) else Effect(d, []);
      Effect(e.dir, [LevelMessage(cfg, c, outcome)] + e.events)
  }

  /** dlt_daemon_user_send_log_state, likewise. */
  function SendAppState(d: Dir, k: Key, outcome: Outcome): Effect
    requires k in d.apps
  {
    var h := d.apps[k].userHandle;
    if h < 0 then Effect(d, [])
    else
      var e := if outcome.DeadDescriptor? then ResetHandle(d, k) else Effect(d, []);
      Effect(e.dir, [Sent(h, 0, 0, 0, outcome)] + e.events)
  }

  /** One iteration of the all-log-level broadcast. */
  function Update(cfg: Config, d: Dir, k: Key, enforce: bool, cap: int, level: int, outcome: Outcome): Effect
    requires k in d.ctxs
  {
    if d.ctxs[k].userHandle < FD_MINIMUM then Effect(d, [])
    else
      var c := d.ctxs[k].(logLevel := UpdatedLevel(enforce, cap, level));
      Send(cfg, d.(ctxs := d.ctxs[k := c]), k, outcome)
  }

  /**
   * A level set for one context: stored, sent if there is a descriptor to send it on, and
   * taken back when the send fails.
   */
  function Set(cfg: Config, d: Dir, k: Key, request: LevelRequest, outcome: Outcome): Effect
    requires k in d.ctxs
  {
    var c := d.ctxs[k];
    var d1 := d.(ctxs := d.ctxs[k := Requested(c, request)]);
    if c.userHandle < FD_MINIMUM then Effect(if Stays(c, request, outcome) then d1 else d, [])
    else
      var e := Send(cfg, d1, k, outcome);
      if Stays(c, request, outcome) then e
      else Effect(e.dir.(ctxs := e.dir.ctxs[k := e.dir.ctxs[k].(logLevel := c.logLevel, traceStatus := c.traceStatus)]), e.events)
  }

  /** An injection: after a pipe error the context's descriptor is closed and dropped. */
  function InjectInto(d: Dir, k: Key, outcome: Outcome): Effect
    requires k in d.ctxs
  {
    var c := d.ctxs[k];
    if c.userHandle < 0 then Effect(d, [])
    else if outcome.DeadDescriptor? then
      Effect(d.(ctxs := d.ctxs[k := c.(userHandle := FD_INIT)]), [Sent(c.userHandle, 0, 0, 0, outcome), Closed(c.userHandle)])
    else Effect(d, [Sent(c.userHandle, 0, 0, 0, outcome)])
  }

  function Step(build: Build, cfg: Config, d: Dir, op: Op): Effect {
    match op
    case AddApplication(raw, pid, description, fd, pipe) => AddApp(build, d, raw, pid, description, fd, pipe)
    case DeleteApplication(raw) =>
      if raw[0] != 0 && SetId(raw) in d.apps then DeleteApp(d, SetId(raw)) else Effect(d, [])
    case ClearApplications => Effect(d.(apps := map[]), [])
    case AddContext(rawApid, rawCtid, r) => Effect(AddCtx(cfg, d, rawApid, rawCtid, r), [])
    case DeleteContext(rawApid, rawCtid) =>
      var k := SetId(rawApid) + SetId(rawCtid);
      if rawApid[0] != 0 && rawCtid[0] != 0 && k in d.ctxs then Effect(DeleteCtx(d, k), []) else Effect(d, [])
    case ClearContexts => Effect(Dir(MapValues(d.apps, ResetCount), map[]), [])
    case InvalidateFd(fd) => Effect(Invalidate(d, fd), [])
    case SendState(raw, outcome) =>
      if raw[0] != 0 && SetId(raw) in d.apps then SendAppState(d, SetId(raw), outcome) else Effect(d, [])
    case SendLevel(rawApid, rawCtid, outcome) =>
      var k := SetId(rawApid) + SetId(rawCtid);
      if rawApid[0] != 0 && rawCtid[0] != 0 && k in d.ctxs then Send(cfg, d, k, outcome) else Effect(d, [])
    case UpdateLevel(k, enforce, cap, level, outcome) =>
      if k in d.ctxs then Update(cfg, d, k, enforce, cap, level, outcome) else Effect(d, [])
    case SetLevel(k, request, outcome) =>
      if k in d.ctxs then Set(cfg, d, k, request, outcome) else Effect(d, [])
    case SetStorage(k, level) =>
      if k in d.ctxs then Effect(d.(ctxs := d.ctxs[k := d.ctxs[k].(storageLogLevel := level)]), []) else Effect(d, [])
    case Inject(rawApid, rawCtid, outcome) =>
      var k := SetId(rawApid) + SetId(rawCtid);
      if rawApid[0] != 0 && rawCtid[0] != 0 && k in d.ctxs then InjectInto(d, k, outcome) else Effect(d, [])
  }

  function Run(build: Build, cfg: Config, d: Dir, ops: seq<Op>): Effect
    decreases |ops|
  {
    if |ops| == 0 then Effect(d, [])
    else
      var e1 := Step(build, cfg, d, ops[0]);
      var e2 := Run(build, cfg, e1.dir, ops[1..]);
      Effect(e2.dir, e1.events + e2.events)
  }

  const Empty := Dir(map[], map[])
}
