/**
 * What single operations send and store, level by level and octet by octet.
 */
module Announcements {
  import opened Order
  import opened Entities
  import opened Directory

  /** The octet that stands for a level. */
  predicate Octet(level: int, octet: Byte) {
    (0 <= level < 256 ==> octet == level) && (-256 <= level < 0 ==> octet == level + 256)
  }

  /**
   * The octet announced for a context: of a stored level and a storage level in effect the
   * larger one; otherwise the stored level, or the default if "default" is stored.
   */
  predicate Announced(cfg: Config, stored: int, storage: int, octet: Byte) {
    if cfg.maintainStorageLevel && storage != -1 then
      (stored >= storage ==> Octet(stored, octet)) && (storage >= stored ==> Octet(storage, octet))
    else if stored == -1 then Octet(cfg.defaultLogLevel, octet)
    else Octet(stored, octet)
  }

  /** The trace status announced: the stored one, or the default if "default" is stored. */
  predicate AnnouncedTrace(cfg: Config, stored: int, octet: Byte) {
    Octet(if stored == -1 then cfg.defaultTraceStatus else stored, octet)
  }

  /** The message tells context c about a level and a trace status, at its position. */
  predicate Informs(cfg: Config, c: Context, level: int, trace: int, message: Event) {
    && message.Sent? && Announced(cfg, level, c.storageLogLevel, message.level)
    && AnnouncedTrace(cfg, trace, message.trace) && message.pos == c.logLevelPos
  }

  /** The level an octet is stored as. */
  function Signed(octet: Byte): int {
    if octet < 128 then octet else octet - 256
  }

  ghost predicate OneMessage(events: seq<Event>, handle: int, outcome: Outcome) {
    && |events| > 0 && events[0].Sent? && events[0].handle == handle && events[0].outcome == outcome
    && forall i :: 0 < i < |events| ==> events[i].Closed?
  }

  lemma OctetConverts(level: int)
    ensures Octet(level, AsOctet(level))
  {
  }

  /**
   * A level send is one message with the level in effect on the context's descriptor, and none
   * on a negative one. Nothing that is stored about levels changes.
   */
  lemma SendExact(cfg: Config, d: Dir, k: Key, outcome: Outcome)
    requires k in d.ctxs
    ensures var c, e := d.ctxs[k], Send(cfg, d, k, outcome);
            && (c.userHandle < 0 ==> e == Effect(d, []))
            && (c.userHandle >= 0 ==>
                  && OneMessage(e.events, c.userHandle, outcome)
                  && Informs(cfg, c, c.logLevel, c.traceStatus, e.events[0]))
            && e.dir.ctxs.Keys == d.ctxs.Keys && e.dir.apps.Keys == d.apps.Keys
            && forall j :: j in d.ctxs ==> SameLevels(e.dir.ctxs[j], d.ctxs[j])
  {
    var c := d.ctxs[k];
    OctetConverts(Max(c.logLevel, c.storageLogLevel));
    OctetConverts(c.logLevel);
    OctetConverts(cfg.defaultLogLevel);
    OctetConverts(c.traceStatus);
    OctetConverts(cfg.defaultTraceStatus);
  }

  predicate SameLevels(c: Context, c': Context) {
    c.logLevel == c'.logLevel && c.traceStatus == c'.traceStatus && c.storageLogLevel == c'.storageLogLevel
  }

  /** The announced level in plain words, for levels that are octets. */
  lemma AnnouncedLevel(cfg: Config, d: Dir, k: Key, outcome: Outcome)
    requires k in d.ctxs && d.ctxs[k].userHandle >= 0 && 0 <= cfg.defaultLogLevel < 256
    ensures var c, events := d.ctxs[k], Send(cfg, d, k, outcome).events;
            && OneMessage(events, c.userHandle, outcome)
            && var level, kept := events[0].level, cfg.maintainStorageLevel && c.storageLogLevel != -1;
               && (!kept && c.logLevel == -1 ==> level == cfg.defaultLogLevel)
               && (!kept && 0 <= c.logLevel < 256 ==> level == c.logLevel)
               && (kept && 0 <= c.logLevel < 256 && 0 <= c.storageLogLevel < 256 ==>
                     level >= c.logLevel && level >= c.storageLogLevel && level in {c.logLevel, c.storageLogLevel})
  {
    SendExact(cfg, d, k, outcome);
  }

  /** The state send: one message on the application's descriptor, none on a negative one. */
  lemma StateSendExact(d: Dir, k: Key, outcome: Outcome)
    requires k in d.apps
    ensures var h, e := d.apps[k].userHandle, SendAppState(d, k, outcome);
            && (h < 0 ==> e == Effect(d, []))
            && (h >= 0 ==> OneMessage(e.events, h, outcome))
            && (h >= 0 && outcome.DeadDescriptor? ==> e.dir.apps[k].userHandle == -1)
            && (!outcome.DeadDescriptor? ==> e.dir == d)
  {
  }

  /** An injection: one message, and after a pipe error one close and one context that forgets. */
  lemma InjectExact(d: Dir, k: Key, outcome: Outcome)
    requires k in d.ctxs
    ensures var c, e := d.ctxs[k], InjectInto(d, k, outcome);
            && (c.userHandle < 0 ==> e == Effect(d, []))
            && (c.userHandle >= 0 ==> OneMessage(e.events, c.userHandle, outcome))
            && (c.userHandle >= 0 && outcome.DeadDescriptor? ==>
                  && |e.events| == 2 && e.events[1] == Closed(c.userHandle)
                  && e.dir.ctxs == d.ctxs[k := c.(userHandle := -1)])
            && (!outcome.DeadDescriptor? ==> e.dir == d && |e.events| <= 1) && e.dir.apps == d.apps
  {
  }

  /** Whether a level set for a context stays, and what is stored then. */
  ghost predicate LevelsAfter(c: Context, request: LevelRequest, outcome: Outcome, c': Context) {
    var sendable := c.userHandle >= 3;
    match request
    case FromApplication(level, trace) =>
      if sendable && !outcome.Delivered? then c'.logLevel == c.logLevel && c'.traceStatus == c.traceStatus
      else c'.logLevel == Signed(level) && c'.traceStatus == Signed(trace)
    case FromClient(level) =>
      if sendable && outcome.Delivered? then c'.logLevel == Signed(level) && c'.traceStatus == c.traceStatus
      else c'.logLevel == c.logLevel && c'.traceStatus == c.traceStatus
  }

  /**
   * A level set for one context: sent if there is a descriptor of at least 3, and once. A
   * client's level stays only if it was delivered; an application's levels stay unless their
   * send failed. No other context's levels change.
   */
  lemma SetExact(cfg: Config, d: Dir, k: Key, request: LevelRequest, outcome: Outcome)
    requires k in d.ctxs
    ensures var c, e := d.ctxs[k], Set(cfg, d, k, request, outcome);
            && e.dir.ctxs.Keys == d.ctxs.Keys && LevelsAfter(c, request, outcome, e.dir.ctxs[k])
            && (forall j :: j in d.ctxs && j != k ==> SameLevels(e.dir.ctxs[j], d.ctxs[j]))
            && (c.userHandle < 3 ==> e.events == [])
            && (c.userHandle >= 3 ==>
                  OneMessage(e.events, c.userHandle, outcome)
                  && Informs(cfg, c, Signed(request.level),
                             if request.FromApplication? then Signed(request.trace) else c.traceStatus, e.events[0]))
  {
    var c := d.ctxs[k];
    RequestedExact(c, request);
    if c.userHandle >= 3 {
      SetSends(cfg, d, k, request, outcome);
    }
  }

  lemma RequestedExact(c: Context, request: LevelRequest)
    ensures Requested(c, request) == c.(logLevel := Signed(request.level),
                                        traceStatus := if request.FromApplication? then Signed(request.trace) else c.traceStatus)
  {
  }

  lemma SetSends(cfg: Config, d: Dir, k: Key, request: LevelRequest, outcome: Outcome)
    requires k in d.ctxs && d.ctxs[k].userHandle >= 3
    ensures var c, e := d.ctxs[k], Set(cfg, d, k, request, outcome);
            var c1 := Requested(c, request);
            var stored := if outcome.Delivered? then c1 else c;
            && e.dir.ctxs.Keys == d.ctxs.Keys
            && e.dir.ctxs[k].logLevel == stored.logLevel && e.dir.ctxs[k].traceStatus == stored.traceStatus
            && (forall j :: j in d.ctxs && j != k ==> SameLevels(e.dir.ctxs[j], d.ctxs[j]))
            && OneMessage(e.events, c.userHandle, outcome)
            && Informs(cfg, c, c1.logLevel, c1.traceStatus, e.events[0])
  {
    var d1 := d.(ctxs := d.ctxs[k := Requested(d.ctxs[k], request)]);
    SendExact(cfg, d1, k, outcome);
  }

  /** A storage level is stored for this context and nothing else changes. */
  lemma StorageSet(build: Build, cfg: Config, d: Dir, k: Key, level: int)
    requires k in d.ctxs
    ensures var e := Step(build, cfg, d, SetStorage(k, level));
            && e.dir.apps == d.apps && e.dir.ctxs.Keys == d.ctxs.Keys && e.events == []
            && e.dir.ctxs[k] == d.ctxs[k].(storageLogLevel := level)
            && forall j :: j in d.ctxs && j != k ==> e.dir.ctxs[j] == d.ctxs[j]
  {
  }

  /** Clearing the contexts leaves none, and no counter counts one; the applications stay. */
  lemma ContextsCleared(build: Build, cfg: Config, d: Dir)
    ensures var e := Step(build, cfg, d, ClearContexts);
            && e.dir.ctxs == map[] && e.events == [] && e.dir.apps.Keys == d.apps.Keys
            && forall k :: k in d.apps ==> e.dir.apps[k] == d.apps[k].(numContexts := 0)
  {
  }
}
