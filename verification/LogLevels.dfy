/**
 * The log-level ceiling: with enforcement on, no context is stored or told a level above the
 * daemon's default (or the storage level in effect).
 */
module LogLevels {
  import opened Order
  import opened Ids
  import opened Entities
  import opened Directory
  import opened Frames

  ghost predicate Enforcing(cfg: Config) {
    cfg.enforce && 0 <= cfg.defaultLogLevel <= LOG_VERBOSE
  }

  /** Stored levels lie between "default" and the ceiling; storage levels do not exceed s. */
  ghost predicate LevelsOk(cfg: Config, d: Dir, s: nat) {
    forall k :: k in d.ctxs ==>
      && LOG_DEFAULT <= d.ctxs[k].logLevel <= cfg.defaultLogLevel
      && LOG_DEFAULT <= d.ctxs[k].storageLogLevel <= s
  }

  predicate WithinDefault(cfg: Config, level: int) {
    LOG_DEFAULT <= level <= cfg.defaultLogLevel
  }

  /** Levels that an operation stores directly lie between "default" and the ceiling. */
  predicate Capped(cfg: Config, s: nat, op: Op) {
    match op
    case UpdateLevel(_, enforce, cap, level, _) => WithinDefault(cfg, UpdatedLevel(enforce, cap, level))
    case SetLevel(_, request, _) => WithinDefault(cfg, AsInt8(request.level))
    case SetStorage(_, level) => LOG_DEFAULT <= level <= s
    case _ => true
  }

  function Ceiling(cfg: Config, s: nat): int {
    if cfg.maintainStorageLevel then Max(cfg.defaultLogLevel, s) else cfg.defaultLogLevel
  }

  ghost predicate SentBelow(events: seq<Event>, bound: int) {
    forall i :: 0 <= i < |events| && events[i].Sent? ==> events[i].level <= bound
  }

  lemma SameRecordsSameLevels(cfg: Config, d: Dir, d': Dir, s: nat)
    requires LevelsOk(cfg, d, s) && SameRecords(d, d')
    ensures LevelsOk(cfg, d', s)
  {
    forall k | k in d'.ctxs
      ensures d'.ctxs[k].logLevel == d.ctxs[k].logLevel && d'.ctxs[k].storageLogLevel == d.ctxs[k].storageLogLevel
    {
      assert Bare(d.ctxs[k]) == Bare(d'.ctxs[k]);
    }
  }

  lemma SendKeepsLevels(cfg: Config, d: Dir, k: Key, outcome: Outcome, s: nat)
    requires Enforcing(cfg) && s < 256 && LevelsOk(cfg, d, s) && k in d.ctxs
    ensures LevelsOk(cfg, Send(cfg, d, k, outcome).dir, s)
    ensures SentBelow(Send(cfg, d, k, outcome).events, Ceiling(cfg, s))
  {
    SendFrame(cfg, d, k, outcome);
    assert LevelsOk(cfg, Send(cfg, d, k, outcome).dir, s) by {
      SameRecordsSameLevels(cfg, d, Send(cfg, d, k, outcome).dir, s);
    }
    SentWithin(cfg, d.ctxs[k], s);
  }

  lemma SentWithin(cfg: Config, c: Context, s: nat)
    requires Enforcing(cfg) && s < 256 && WithinDefault(cfg, c.logLevel) && LOG_DEFAULT <= c.storageLogLevel <= s
    ensures LevelToSend(cfg, c) <= Ceiling(cfg, s)
  {
  }

  lemma AddAppKeepsLevels(build: Build, cfg: Config, d: Dir, raw: Id, pid: int,
                          description: Option<seq<Byte>>, fd: int, pipe: OpenResult, s: nat)
    requires LevelsOk(cfg, d, s)
    ensures LevelsOk(cfg, AddApp(build, d, raw, pid, description, fd, pipe).dir, s)
  {
    if raw[0] != 0 {
      var d1 := Introduce(d, raw, description);
      AddAppFrame(build, d, raw, pid, description, fd, pipe);
      SameRecordsSameLevels(cfg, d1, AddApp(build, d, raw, pid, description, fd, pipe).dir, s);
    }
  }

  lemma AddAppSendsNothing(build: Build, d: Dir, raw: Id, pid: int, description: Option<seq<Byte>>, fd: int, pipe: OpenResult)
    ensures SentBelow(AddApp(build, d, raw, pid, description, fd, pipe).events, -1)
  {
  }

  lemma AddCtxKeepsLevels(cfg: Config, d: Dir, rawApid: Id, rawCtid: Id, r: Registration, s: nat)
    requires Enforcing(cfg) && LevelsOk(cfg, d, s)
    ensures LevelsOk(cfg, AddCtx(cfg, d, rawApid, rawCtid, r), s)
  {
  }

  lemma ResetKeepsLevels(cfg: Config, d: Dir, k: Key, s: nat)
    requires LevelsOk(cfg, d, s) && k in d.apps
    ensures LevelsOk(cfg, ResetHandle(d, k).dir, s)
  {
    ResetFrame(d, k);
    SameRecordsSameLevels(cfg, d, ResetHandle(d, k).dir, s);
  }

  lemma SendStateKeepsLevels(cfg: Config, d: Dir, k: Key, outcome: Outcome, s: nat)
    requires Enforcing(cfg) && LevelsOk(cfg, d, s) && k in d.apps
    ensures LevelsOk(cfg, SendAppState(d, k, outcome).dir, s)
    ensures SentBelow(SendAppState(d, k, outcome).events, Ceiling(cfg, s))
  {
    ResetKeepsLevels(cfg, d, k, s);
  }

  /** Storing a level in a record keeps the levels exactly if it lies within the default. */
  lemma StoreKeepsLevelsIff(cfg: Config, d: Dir, k: Key, c: Context, s: nat)
    requires LevelsOk(cfg, d, s) && k in d.ctxs && c.storageLogLevel == d.ctxs[k].storageLogLevel
    ensures LevelsOk(cfg, d.(ctxs := d.ctxs[k := c]), s) <==> WithinDefault(cfg, c.logLevel)
  {
    var d' := d.(ctxs := d.ctxs[k := c]);
    assert k in d'.ctxs && d'.ctxs[k] == c;
  }

  lemma SameRecordsSymmetric(d: Dir, d': Dir)
    requires SameRecords(d, d')
    ensures SameRecords(d', d)
  {
  }

  lemma SameRecordsLevelsIff(cfg: Config, d: Dir, d': Dir, s: nat)
    requires SameRecords(d, d')
    ensures LevelsOk(cfg, d, s) <==> LevelsOk(cfg, d', s)
  {
    SameRecordsSymmetric(d, d');
    if LevelsOk(cfg, d, s) { SameRecordsSameLevels(cfg, d, d', s); }
    if LevelsOk(cfg, d', s) { SameRecordsSameLevels(cfg, d', d, s); }
  }

  /** A broadcast step keeps the ceiling exactly if it stores nothing or a level within it. */
  lemma UpdateKeepsLevelsIff(cfg: Config, d: Dir, k: Key, enforce: bool, cap: int, level: int, outcome: Outcome, s: nat)
    requires LevelsOk(cfg, d, s) && k in d.ctxs
    ensures LevelsOk(cfg, Update(cfg, d, k, enforce, cap, level, outcome).dir, s)
            <==> d.ctxs[k].userHandle < FD_MINIMUM || WithinDefault(cfg, UpdatedLevel(enforce, cap, level))
  {
    if d.ctxs[k].userHandle >= FD_MINIMUM {
      var c := d.ctxs[k].(logLevel := UpdatedLevel(enforce, cap, level));
      var d1 := d.(ctxs := d.ctxs[k := c]);
      StoreKeepsLevelsIff(cfg, d, k, c, s);
      SendFrame(cfg, d1, k, outcome);
      SameRecordsLevelsIff(cfg, d1, Send(cfg, d1, k, outcome).dir, s);
    }
  }

  /**
   * The level of an application's own message is stored unchecked, and so is a client's once it
   * is capped, which it is under enforcement: the ceiling is kept exactly if the level stored
   * lies within it or is taken back.
   */
  lemma SetKeepsLevelsIff(cfg: Config, d: Dir, k: Key, request: LevelRequest, outcome: Outcome, s: nat)
    requires LevelsOk(cfg, d, s) && k in d.ctxs
    ensures LevelsOk(cfg, Set(cfg, d, k, request, outcome).dir, s)
            <==> !Stays(d.ctxs[k], request, outcome) || WithinDefault(cfg, AsInt8(request.level))
  {
    var c := Settled(d.ctxs[k], request, outcome);
    StoreKeepsLevelsIff(cfg, d, k, c, s);
    SetFrame(cfg, d, k, request, outcome);
    SameRecordsLevelsIff(cfg, d.(ctxs := d.ctxs[k := c]), Set(cfg, d, k, request, outcome).dir, s);
  }

  /** Levels within the ceiling are announced within it. */
  lemma StoredThenSent(cfg: Config, d: Dir, k: Key, c: Context, outcome: Outcome, s: nat)
    requires Enforcing(cfg) && s < 256 && LevelsOk(cfg, d, s) && k in d.ctxs
    requires c.storageLogLevel == d.ctxs[k].storageLogLevel && WithinDefault(cfg, c.logLevel)
    ensures SentBelow(Send(cfg, d.(ctxs := d.ctxs[k := c]), k, outcome).events, Ceiling(cfg, s))
  {
    StoreKeepsLevelsIff(cfg, d, k, c, s);
    SendKeepsLevels(cfg, d.(ctxs := d.ctxs[k := c]), k, outcome, s);
  }

  lemma StepKeepsLevels(build: Build, cfg: Config, d: Dir, op: Op, s: nat)
    requires Enforcing(cfg) && s < 256 && LevelsOk(cfg, d, s) && Capped(cfg, s, op)
    ensures LevelsOk(cfg, Step(build, cfg, d, op).dir, s)
    ensures SentBelow(Step(build, cfg, d, op).events, Ceiling(cfg, s))
  {
    match op
    case AddApplication(raw, pid, description, fd, pipe) =>
      AddAppKeepsLevels(build, cfg, d, raw, pid, description, fd, pipe, s);
      AddAppSendsNothing(build, d, raw, pid, description, fd, pipe);
    case DeleteApplication(raw) => if SetId(raw) in d.apps { ResetKeepsLevels(cfg, d, SetId(raw), s); }
    case AddContext(rawApid, rawCtid, r) => AddCtxKeepsLevels(cfg, d, rawApid, rawCtid, r, s);
    case DeleteContext(rawApid, rawCtid) =>
      var k := SetId(rawApid) + SetId(rawCtid);
      if k in d.ctxs { assert DeleteCtx(d, k).ctxs == d.ctxs - {k}; }
    case InvalidateFd(fd) =>
      InvalidateFrame(d, fd);
      SameRecordsSameLevels(cfg, d, Invalidate(d, fd), s);
    case SendState(raw, outcome) => if SetId(raw) in d.apps { SendStateKeepsLevels(cfg, d, SetId(raw), outcome, s); }
    case SendLevel(rawApid, rawCtid, outcome) =>
      if SetId(rawApid) + SetId(rawCtid) in d.ctxs {
        SendKeepsLevels(cfg, d, SetId(rawApid) + SetId(rawCtid), outcome, s);
      }
    case UpdateLevel(k, enforce, cap, level, outcome) =>
      if k in d.ctxs {
        UpdateKeepsLevelsIff(cfg, d, k, enforce, cap, level, outcome, s);
        StoredThenSent(cfg, d, k, d.ctxs[k].(logLevel := UpdatedLevel(enforce, cap, level)), outcome, s);
      }
    case SetLevel(k, request, outcome) =>
      if k in d.ctxs {
        SetKeepsLevelsIff(cfg, d, k, request, outcome, s);
        StoredThenSent(cfg, d, k, Requested(d.ctxs[k], request), outcome, s);
      }
    case Inject(rawApid, rawCtid, outcome) =>
      var k := SetId(rawApid) + SetId(rawCtid);
      if k in d.ctxs {
        InjectFrame(d, k, outcome);
        SameRecordsSameLevels(cfg, d, InjectInto(d, k, outcome).dir, s);
      }
    case _ =>
  }

  /**
   * Every run whose updates and level messages ask for levels within the ceiling keeps stored
   * levels at or below the default and sends no level above the larger of the default and
   * the storage level.
   */
  lemma {:induction false} RunKeepsLevels(build: Build, cfg: Config, d: Dir, ops: seq<Op>, s: nat)
    requires Enforcing(cfg) && s < 256 && LevelsOk(cfg, d, s)
    requires forall i :: 0 <= i < |ops| ==> Capped(cfg, s, ops[i])
    ensures LevelsOk(cfg, Run(build, cfg, d, ops).dir, s)
    ensures SentBelow(Run(build, cfg, d, ops).events, Ceiling(cfg, s))
    decreases |ops|
  {
    if |ops| > 0 {
      StepKeepsLevels(build, cfg, d, ops[0], s);
      RunKeepsLevels(build, cfg, Step(build, cfg, d, ops[0]).dir, ops[1..], s);
    }
  }

  /**
   * What an application's own level message makes the daemon announce: without a storage
   * level the octet is within the default exactly if the one received was, or was 255 for
   * "default". Octets from 128 to 254 are stored as levels below -1 and announced unchanged.
   */
  lemma AnnouncedOctet(cfg: Config, c: Context, octet: Byte, trace: Byte)
    requires Enforcing(cfg) && (c.storageLogLevel == LOG_DEFAULT || !cfg.maintainStorageLevel)
    ensures LevelToSend(cfg, Requested(c, FromApplication(octet, trace))) <= cfg.defaultLogLevel
            <==> octet <= cfg.defaultLogLevel || octet == 255
    ensures octet != 255 ==> LevelToSend(cfg, Requested(c, FromApplication(octet, trace))) == octet
  {
  }
}
