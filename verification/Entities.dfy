/**
 * The records the daemon keeps for registered applications and contexts, its configuration,
 * and what it does to file descriptors.
 */
module Entities {
  import opened Order
  import opened Ids

  datatype Option<+T> = None | Some(value: T)

  const FD_INIT := -1
  const FD_MINIMUM := 3

  const LOG_DEFAULT := -1
  const LOG_VERBOSE := 6
  const TRACE_DEFAULT := -1
  const TRACE_ON := 1

  datatype Application = Application(
    apid: Id,
    pid: int,
    description: Option<seq<Byte>>,
    numContexts: int,
    userHandle: int,
    ownsHandle: bool)

  datatype Context = Context(
    apid: Id,
    ctid: Id,
    logLevel: int,
    traceStatus: int,
    logLevelPos: int,
    userHandle: int,
    description: Option<seq<Byte>>,
    storageLogLevel: int,
    predefined: bool)

  function AppKey(a: Application): Key {
    a.apid
  }

  function CtxKey(c: Context): Key {
    c.apid + c.ctid
  }

  /** The settings of the daemon that the registry consults. */
  datatype Config = Config(
    defaultLogLevel: int,
    defaultTraceStatus: int,
    enforce: bool,
    runtimeLoaded: bool,
    maintainStorageLevel: bool)

  /** Which transports the daemon was compiled for. */
  datatype Build = Build(sockets: bool, fifo: bool)

  /** What open() returns: a descriptor, or -1. */
  type OpenResult = x: int | x >= -1

  datatype Outcome = Delivered | DeadDescriptor | OtherError

  datatype Event =
    | Opened(handle: int)
    | Closed(handle: int)
    | Sent(handle: int, level: Byte, trace: Byte, pos: int, outcome: Outcome)

  // ------------------------------------------------- record-level operations

  function NewApplication(raw: Id): Application {
    Application(SetId(raw), 0, None, 0, FD_INIT, false)
  }

  /** A zeroed record with its ids filled in. */
  function NewContext(rawApid: Id, rawCtid: Id): Context {
    Context(SetId(rawApid), SetId(rawCtid), 0, 0, 0, 0, None, 0, false)
  }

  function ReleaseApp(a: Application, h: int): Application {
    if a.userHandle == h then a.(userHandle := FD_INIT) else a
  }

  function ReleaseCtx(c: Context, h: int): Context {
    if c.userHandle == h then c.(userHandle := FD_INIT) else c
  }

  function AppReleaser(h: int): Application -> Application {
    (a: Application) => ReleaseApp(a, h)
  }

  function CtxReleaser(h: int): Context -> Context {
    (c: Context) => ReleaseCtx(c, h)
  }

  datatype Acquired = Acquired(handle: int, owned: bool, events: seq<Event>)

  /** The descriptor a (re)registered application gets, in each build of the daemon. */
  function Acquire(build: Build, fd: int, pipe: OpenResult): Acquired {
    var h := if build.sockets && fd >= FD_MINIMUM then fd else FD_INIT;
    if build.fifo && h < FD_MINIMUM then
      Acquired(pipe, pipe >= 0, if pipe >= 0 then [Opened(pipe)] else [])
    else
      Acquired(h, false, [])
  }

  function Min(a: int, b: int): int {
    if a < b then a else b
  }

  function Max(a: int, b: int): int {
    if a > b then a else b
  }

  predicate LevelsInRange(level: int, trace: int) {
    LOG_DEFAULT <= level <= LOG_VERBOSE && TRACE_DEFAULT <= trace <= TRACE_ON
  }

  datatype Registration = Registration(
    level: int, trace: int, pos: int, handle: int, description: Option<seq<Byte>>)

  /** What dlt_daemon_context_add stores in the record of a new or already known context. */
  function Register(cfg: Config, c: Context, isNew: bool, r: Registration): Context {
    var level := if cfg.enforce then Min(r.level, cfg.defaultLogLevel) else r.level;
    var trace := if cfg.enforce then Min(r.trace, cfg.defaultTraceStatus) else r.trace;
    var c1 := if isNew || !cfg.runtimeLoaded then c.(logLevel := level, traceStatus := trace) else c;
    c1.(description := r.description, logLevelPos := r.pos, userHandle := r.handle, predefined := r.handle == 0)
  }

  /** The conversion of a log level to the octet that is sent. */
  function AsOctet(level: int): Byte {
    level % 256
  }

  /** The conversion of an int to int8_t. */
  function AsInt8(x: int): int {
    (x + 128) % 256 - 128
  }

  /** A level set for one context, by its application's own message or by a client's request. */
  datatype LevelRequest = FromApplication(level: Byte, trace: Byte) | FromClient(level: Byte)

  function Requested(c: Context, r: LevelRequest): Context {
    if r.FromApplication? then c.(logLevel := AsInt8(r.level), traceStatus := AsInt8(r.trace))
    else c.(logLevel := AsInt8(r.level))
  }

  /** Whether the levels requested stay stored: a failed send takes them back. */
  predicate Stays(c: Context, r: LevelRequest, outcome: Outcome) {
    if c.userHandle < FD_MINIMUM then r.FromApplication? else outcome.Delivered?
  }

  /** The log level dlt_daemon_user_send_log_level announces to an application. */
  function LevelToSend(cfg: Config, c: Context): Byte {
    if c.storageLogLevel != LOG_DEFAULT && cfg.maintainStorageLevel then
      AsOctet(Max(c.logLevel, c.storageLogLevel))
    else
      AsOctet(if c.logLevel == LOG_DEFAULT then cfg.defaultLogLevel else c.logLevel)
  }

  function TraceToSend(cfg: Config, c: Context): Byte {
    AsOctet(if c.traceStatus == TRACE_DEFAULT then cfg.defaultTraceStatus else c.traceStatus)
  }

  /** The message with the levels in effect for a context. */
  function LevelMessage(cfg: Config, c: Context, outcome: Outcome): (e: Event)
    ensures e.Sent?
  {
    Sent(c.userHandle, LevelToSend(cfg, c), TraceToSend(cfg, c), c.logLevelPos, outcome)
  }

  /** The level an all-contexts update stores. */
  function UpdatedLevel(enforce: bool, cap: int, level: int): int {
    if enforce && level > cap then cap else level
  }
}
