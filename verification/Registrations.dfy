/**
 * What one registration means for the registry: who holds which descriptor afterwards, what
 * is stored, and what is left alone.
 */
module Registrations {
  import opened Order
  import opened Ids
  import opened Entities
  import opened Directory
  import opened Handles

  /** The contexts of application k wait for their own registration. */
  ghost predicate ContextsDetached(d: Dir, k: Key) {
    forall c :: c in d.ctxs && AppKeyOf(d.ctxs[c]) == k ==> d.ctxs[c].userHandle in {FD_INIT, 0}
  }

  lemma RebindDetaches(d: Dir, k: Key, pid: int)
    requires HandlesOk(d) && k in d.apps && d.apps[k].pid != pid
    ensures var e := Rebind(d, k, pid);
            && HandlesOk(e.dir) && k in e.dir.apps && e.dir.apps[k].userHandle == FD_INIT && ContextsDetached(e.dir, k)
            && e.dir.apps[k].description == d.apps[k].description && e.dir.apps.Keys == d.apps.Keys
  {
    ResetKeeps(d, k);
  }

  lemma RebindReleases(d: Dir, k: Key, pid: int)
    requires HandlesOk(d) && k in d.apps && d.apps[k].pid != pid && d.apps[k].userHandle != FD_INIT
    ensures Unheld(Rebind(d, k, pid).dir, d.apps[k].userHandle)
  {
    var h, d1 := d.apps[k].userHandle, ResetHandle(d, k).dir;
    forall j | j in d1.apps ensures d1.apps[j].userHandle != h {
      if j != k { assert d.apps[j].userHandle != h; }
    }
  }

  /** Application k and nobody else holds the descriptor. */
  ghost predicate HeldAloneBy(d: Dir, h: int, k: Key) {
    && k in d.apps && d.apps[k].userHandle == h
    && (forall j :: j in d.apps && j != k ==> d.apps[j].userHandle != h)
    && (forall c :: c in d.ctxs ==> d.ctxs[c].userHandle != h)
  }

  lemma AttachGivesAlone(build: Build, d: Dir, k: Key, pid: int, fd: int, pipe: OpenResult)
    requires k in d.apps && d.apps[k].userHandle == FD_INIT && pid != 0 && Acquire(build, fd, pipe).handle != FD_INIT
    ensures var q, d' := Acquire(build, fd, pipe), Attach(build, d, k, pid, fd, pipe).dir;
            HeldAloneBy(d', q.handle, k) && d'.apps[k].ownsHandle == q.owned && d'.apps[k].pid == pid
  {
  }

  lemma AttachKeepsDetached(build: Build, d: Dir, k: Key, pid: int, fd: int, pipe: OpenResult)
    requires k in d.apps && ContextsDetached(d, k)
    ensures ContextsDetached(Attach(build, d, k, pid, fd, pipe).dir, k)
  {
  }

  /** The id is new, another process holds it, or its process has lost its descriptor. */
  ghost predicate NeedsDescriptor(d: Dir, k: Key, pid: int) {
    k in d.apps ==> d.apps[k].pid != pid || d.apps[k].userHandle == -1
  }

  lemma DetachedAfterRebind(d: Dir, k: Key, pid: int)
    requires HandlesOk(d) && k in d.apps && NeedsDescriptor(d, k, pid)
    ensures var e := Rebind(d, k, pid);
            && k in e.dir.apps && e.dir.apps[k].userHandle == FD_INIT && ContextsDetached(e.dir, k)
            && e.dir.apps[k].description == d.apps[k].description
  {
    if d.apps[k].pid != pid {
      RebindDetaches(d, k, pid);
    } else {
      forall c | c in d.ctxs && AppKeyOf(d.ctxs[c]) == k ensures d.ctxs[c].userHandle in {FD_INIT, 0} {
        assert BorrowedFromOwner(d, d.ctxs[c]);
      }
    }
  }

  /**
   * A first registration, one by another process, or one after a lost descriptor, over a connected socket: afterwards the
   * application and nobody else holds the connection's descriptor, which the daemon does not
   * own, and the contexts of the application are detached until they register again.
   */
  lemma RegistrationTakesSocket(build: Build, d: Dir, raw: Id, pid: int, description: Option<seq<Byte>>, fd: int, pipe: OpenResult)
    requires HandlesOk(d) && raw[0] != 0 && pid != 0 && build.sockets && fd >= FD_MINIMUM
    requires NeedsDescriptor(d, SetId(raw), pid)
    ensures var k, d' := SetId(raw), AddApp(build, d, raw, pid, description, fd, pipe).dir;
            && HeldAloneBy(d', fd, k) && !d'.apps[k].ownsHandle && d'.apps[k].pid == pid && ContextsDetached(d', k)
            && d'.apps[k].description == description
            && d'.apps[k].numContexts == (if k in d.apps then d.apps[k].numContexts else 0)
  {
    var k := SetId(raw);
    var d1 := Introduce(d, raw, description);
    assert HandlesOk(d1);
    var d2 := Rebind(d1, k, pid).dir;
    assert k in d2.apps && d2.apps[k].userHandle == FD_INIT && ContextsDetached(d2, k) by {
      DetachedAfterRebind(d1, k, pid);
    }
    AttachGivesAlone(build, d2, k, pid, fd, pipe);
    AttachKeepsDetached(build, d2, k, pid, fd, pipe);
  }

  /**
   * The same without a connected socket, in builds with pipes: the daemon opens the pipe and
   * owns it, or, if it cannot be opened, the application has no descriptor and nothing is open.
   */
  lemma RegistrationOpensPipe(build: Build, d: Dir, raw: Id, pid: int, description: Option<seq<Byte>>, fd: int, pipe: OpenResult)
    requires HandlesOk(d) && raw[0] != 0 && pid != 0 && build.fifo && (!build.sockets || fd < 3)
    requires NeedsDescriptor(d, SetId(raw), pid)
    ensures var k, e := SetId(raw), AddApp(build, d, raw, pid, description, fd, pipe);
            && k in e.dir.apps && e.dir.apps[k].pid == pid && e.dir.apps[k].description == description
            && (pipe >= 0 ==>
                  && HeldAloneBy(e.dir, pipe, k) && e.dir.apps[k].ownsHandle && ContextsDetached(e.dir, k)
                  && |e.events| > 0 && e.events[|e.events| - 1] == Opened(pipe)
                  && forall i :: 0 <= i < |e.events| - 1 ==> e.events[i].Closed?)
            && (pipe < 0 ==>
                  && e.dir.apps[k].userHandle == -1 && !e.dir.apps[k].ownsHandle
                  && forall i :: 0 <= i < |e.events| ==> e.events[i].Closed?)
  {
    var k := SetId(raw);
    var d1 := Introduce(d, raw, description);
    assert HandlesOk(d1);
    var e1 := Rebind(d1, k, pid);
    assert k in e1.dir.apps && e1.dir.apps[k].userHandle == FD_INIT && ContextsDetached(e1.dir, k)
           && e1.dir.apps[k].description == description by {
      DetachedAfterRebind(d1, k, pid);
    }
    if pipe >= 0 { AttachGivesAlone(build, e1.dir, k, pid, fd, pipe); }
    AttachKeepsDetached(build, e1.dir, k, pid, fd, pipe);
  }

  /** In builds without pipes an application without a connected socket has no descriptor. */
  lemma RegistrationWithoutConnection(build: Build, d: Dir, raw: Id, pid: int, description: Option<seq<Byte>>, fd: int, pipe: OpenResult)
    requires HandlesOk(d) && raw[0] != 0 && pid != 0 && !build.fifo && (!build.sockets || fd < 3)
    requires NeedsDescriptor(d, SetId(raw), pid)
    ensures var k, e := SetId(raw), AddApp(build, d, raw, pid, description, fd, pipe);
            && k in e.dir.apps && e.dir.apps[k].userHandle == -1 && !e.dir.apps[k].ownsHandle && e.dir.apps[k].pid == pid
            && forall i :: 0 <= i < |e.events| ==> e.events[i].Closed?
  {
    var k := SetId(raw);
    var d1 := Introduce(d, raw, description);
    assert HandlesOk(d1);
    DetachedAfterRebind(d1, k, pid);
  }

  /**
   * A registration from the runtime configuration names no process: whoever had the id loses
   * it and its descriptor, which is closed if the daemon owned it.
   */
  lemma RegistrationWithoutProcess(build: Build, d: Dir, raw: Id, description: Option<seq<Byte>>, fd: int, pipe: OpenResult)
    requires HandlesOk(d) && raw[0] != 0 && SetId(raw) in d.apps && d.apps[SetId(raw)].pid != 0
    ensures var k, e := SetId(raw), AddApp(build, d, raw, 0, description, fd, pipe);
            && k in e.dir.apps && e.dir.apps[k].pid == 0 && e.dir.apps[k].userHandle == -1 && ContextsDetached(e.dir, k)
            && var a := d.apps[k];
               e.events == if a.userHandle != -1 && a.ownsHandle then [Closed(a.userHandle)] else []
  {
    var k := SetId(raw);
    var d1 := Introduce(d, raw, description);
    assert HandlesOk(d1);
    RebindDetaches(d1, k, 0);
  }

  /** A new process takes the place of an old one: nobody holds the old descriptor any more. */
  lemma RegistrationDropsOldProcess(build: Build, d: Dir, raw: Id, pid: int, description: Option<seq<Byte>>, fd: int, pipe: OpenResult)
    requires HandlesOk(d) && raw[0] != 0 && SetId(raw) in d.apps && d.apps[SetId(raw)].pid != pid
    requires var h := d.apps[SetId(raw)].userHandle; h != FD_INIT && (pid != 0 ==> Acquire(build, fd, pipe).handle != h)
    ensures var h := d.apps[SetId(raw)].userHandle;
            Unheld(AddApp(build, d, raw, pid, description, fd, pipe).dir, h)
  {
    var k := SetId(raw);
    var d1 := Introduce(d, raw, description);
    assert HandlesOk(d1);
    RebindReleases(d1, k, pid);
  }

  /** A process that is connected and registers again changes its description and nothing else. */
  lemma RegistrationAgainKeeps(build: Build, d: Dir, raw: Id, pid: int, description: Option<seq<Byte>>, fd: int, pipe: OpenResult)
    requires raw[0] != 0 && SetId(raw) in d.apps && d.apps[SetId(raw)].pid == pid && d.apps[SetId(raw)].userHandle != FD_INIT
    ensures var k := SetId(raw);
            AddApp(build, d, raw, pid, description, fd, pipe)
            == Effect(d.(apps := d.apps[k := d.apps[k].(description := description)]), [])
  {
  }

  /** Two records agree in everything but the named context and its application's counter. */
  ghost predicate OthersUnchanged(d: Dir, d': Dir, k: Key, a: Key) {
    && d'.apps.Keys == d.apps.Keys && d'.ctxs.Keys == d.ctxs.Keys + {k}
    && (forall j :: j in d.apps && j != a ==> d'.apps[j] == d.apps[j])
    && (forall j :: j in d.ctxs && j != k ==> d'.ctxs[j] == d.ctxs[j])
  }

  /**
   * A successful context registration: the record has the ids, descriptor, position and
   * description given; its level and trace status are the requested ones, never above the
   * defaults under enforcement, unless a level loaded from the runtime configuration is
   * kept; the application counts a new context once; nothing else changes.
   */
  lemma ContextRegistered(cfg: Config, d: Dir, apid: Id, ctid: Id, r: Registration)
    requires WellKeyed(d) && Padded(apid) && Padded(ctid) && apid[0] != 0 && ctid[0] != 0
    requires LevelsInRange(r.level, r.trace) && apid in d.apps
    ensures var k, d' := apid + ctid, AddCtx(cfg, d, apid, ctid, r);
            && OthersUnchanged(d, d', k, apid)
            && d'.apps[apid] == d.apps[apid].(numContexts := d.apps[apid].numContexts + if k in d.ctxs then 0 else 1)
            && var c := d'.ctxs[k];
               && c.apid == apid && c.ctid == ctid && c.userHandle == r.handle && c.logLevelPos == r.pos
               && c.description == r.description && (c.predefined <==> r.handle == 0)
               && c.storageLogLevel == (if k in d.ctxs then d.ctxs[k].storageLogLevel else 0)
               && (if k in d.ctxs && cfg.runtimeLoaded then
                     c.logLevel == d.ctxs[k].logLevel && c.traceStatus == d.ctxs[k].traceStatus
                   else if cfg.enforce then
                     && c.logLevel <= cfg.defaultLogLevel && c.traceStatus <= cfg.defaultTraceStatus
                     && c.logLevel in {r.level, cfg.defaultLogLevel} && c.traceStatus in {r.trace, cfg.defaultTraceStatus}
                     && c.logLevel <= r.level && c.traceStatus <= r.trace
                   else c.logLevel == r.level && c.traceStatus == r.trace)
  {
    SetIdOfField(apid);
    SetIdOfField(ctid);
    if apid + ctid in d.ctxs {
      KeyedContext(d, apid, ctid);
    }
  }

  /**
   * A registration changes nothing if an id is empty, the application is not listed, the level
   * is not from -1 to 6 or the trace status not from -1 to 1; otherwise the context is listed.
   */
  lemma ContextRefusedIff(cfg: Config, d: Dir, apid: Id, ctid: Id, r: Registration)
    ensures var listed := apid[0] != 0 && ctid[0] != 0 && SetId(apid) in d.apps && -1 <= r.level <= 6 && -1 <= r.trace <= 1;
            if listed then SetId(apid) + SetId(ctid) in AddCtx(cfg, d, apid, ctid, r).ctxs
            else AddCtx(cfg, d, apid, ctid, r) == d
  {
  }
}
