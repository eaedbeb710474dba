/**
 * Who may be reached through which file descriptor, over whole runs of the registry.
 */
module Handles {
  import opened Order
  import opened Ids
  import opened Entities
  import opened Directory

  ghost predicate WellKeyed(d: Dir) {
    && (forall k :: k in d.apps ==> AppKey(d.apps[k]) == k)
    && (forall k :: k in d.ctxs ==> CtxKey(d.ctxs[k]) == k)
  }

  /** No two applications share a live descriptor. */
  ghost predicate NoSharing(d: Dir) {
    forall j, k :: j in d.apps && k in d.apps && j != k && d.apps[j].userHandle == d.apps[k].userHandle
                   ==> d.apps[j].userHandle == FD_INIT
  }

  /** A context holds no descriptor, the "predefined" mark 0, or its own application's one. */
  ghost predicate BorrowedFromOwner(d: Dir, c: Context) {
    c.userHandle == FD_INIT || c.userHandle == 0 || HeldByOwner(d, c)
  }

  ghost predicate HeldByOwner(d: Dir, c: Context) {
    AppKeyOf(c) in d.apps && d.apps[AppKeyOf(c)].userHandle == c.userHandle
  }

  ghost predicate HandlesOk(d: Dir) {
    && WellKeyed(d)
    && NoSharing(d)
    && forall k :: k in d.ctxs ==> BorrowedFromOwner(d, d.ctxs[k])
  }

  /**
   * What the callers of the registry guarantee: a context is registered with 0 or with its
   * application's current descriptor, and applications are cleared after their contexts.
   */
  ghost predicate Legal(d: Dir, op: Op) {
    match op
    case AddContext(rawApid, _, r) =>
      SetId(rawApid) in d.apps ==> r.handle == 0 || r.handle == d.apps[SetId(rawApid)].userHandle
    case ClearApplications => d.ctxs == map[]
    case _ => true
  }

  ghost predicate LegalRun(build: Build, cfg: Config, d: Dir, ops: seq<Op>)
    decreases |ops|
  {
    |ops| == 0 || (Legal(d, ops[0]) && LegalRun(build, cfg, Step(build, cfg, d, ops[0]).dir, ops[1..]))
  }

  lemma ResetKeeps(d: Dir, k: Key)
    requires HandlesOk(d) && k in d.apps
    ensures HandlesOk(ResetHandle(d, k).dir)
    ensures forall c :: c in ResetHandle(d, k).dir.ctxs && AppKeyOf(ResetHandle(d, k).dir.ctxs[c]) == k
                        ==> ResetHandle(d, k).dir.ctxs[c].userHandle in {FD_INIT, 0}
  {
  }

  lemma InvalidateKeeps(d: Dir, h: int)
    requires HandlesOk(d)
    ensures HandlesOk(Invalidate(d, h))
    ensures h != FD_INIT ==> forall k :: k in d.apps ==> Invalidate(d, h).apps[k].userHandle != h
    ensures h != FD_INIT ==> forall k :: k in d.ctxs ==> Invalidate(d, h).ctxs[k].userHandle != h
  {
  }

  lemma RebindKeeps(d: Dir, k: Key, pid: int)
    requires HandlesOk(d) && k in d.apps
    ensures HandlesOk(Rebind(d, k, pid).dir) && k in Rebind(d, k, pid).dir.apps
  {
    ResetKeeps(d, k);
  }

  lemma AttachKeeps(build: Build, d: Dir, k: Key, pid: int, fd: int, pipe: OpenResult)
    requires HandlesOk(d) && k in d.apps
    ensures HandlesOk(Attach(build, d, k, pid, fd, pipe).dir)
  {
    InvalidateKeeps(d, Acquire(build, fd, pipe).handle);
  }

  lemma AddAppKeeps(build: Build, d: Dir, raw: Id, pid: int, description: Option<seq<Byte>>,
                    fd: int, pipe: OpenResult)
    requires HandlesOk(d)
    ensures HandlesOk(AddApp(build, d, raw, pid, description, fd, pipe).dir)
  {
    if raw[0] != 0 {
      var d1 := Introduce(d, raw, description);
      assert HandlesOk(d1);
      RebindKeeps(d1, SetId(raw), pid);
      AttachKeeps(build, Rebind(d1, SetId(raw), pid).dir, SetId(raw), pid, fd, pipe);
    }
  }

  lemma SendKeeps(cfg: Config, d: Dir, k: Key, outcome: Outcome)
    requires HandlesOk(d) && k in d.ctxs
    ensures HandlesOk(Send(cfg, d, k, outcome).dir)
  {
    if AppKeyOf(d.ctxs[k]) in d.apps { ResetKeeps(d, AppKeyOf(d.ctxs[k])); }
  }

  /** The context found under the key of two ids carries these ids. */
  lemma KeyedContext(d: Dir, apid: Id, ctid: Id)
    requires WellKeyed(d) && apid + ctid in d.ctxs
    ensures d.ctxs[apid + ctid].apid == apid && d.ctxs[apid + ctid].ctid == ctid
  {
    var c := d.ctxs[apid + ctid];
    assert CtxKey(c) == apid + ctid;
    PairKeyInjective(c.apid, c.ctid, apid, ctid);
  }

  lemma AddCtxKeeps(cfg: Config, d: Dir, rawApid: Id, rawCtid: Id, r: Registration)
    requires HandlesOk(d)
    requires SetId(rawApid) in d.apps ==> r.handle == 0 || r.handle == d.apps[SetId(rawApid)].userHandle
    ensures HandlesOk(AddCtx(cfg, d, rawApid, rawCtid, r))
  {
    var k := SetId(rawApid) + SetId(rawCtid);
    if k in d.ctxs { KeyedContext(d, SetId(rawApid), SetId(rawCtid)); }
  }

  lemma UpdateKeeps(cfg: Config, d: Dir, k: Key, enforce: bool, cap: int, level: int, outcome: Outcome)
    requires HandlesOk(d) && k in d.ctxs
    ensures HandlesOk(Update(cfg, d, k, enforce, cap, level, outcome).dir)
  {
    SendKeeps(cfg, d.(ctxs := d.ctxs[k := d.ctxs[k].(logLevel := UpdatedLevel(enforce, cap, level))]), k, outcome);
  }

  /** Changing a context's levels does not matter here. */
  lemma SameHandlesKeep(d: Dir, k: Key, c: Context)
    requires HandlesOk(d) && k in d.ctxs
    requires c.apid == d.ctxs[k].apid && c.ctid == d.ctxs[k].ctid && c.userHandle in {d.ctxs[k].userHandle, FD_INIT}
    ensures HandlesOk(d.(ctxs := d.ctxs[k := c]))
  {
    assert BorrowedFromOwner(d, d.ctxs[k]);
  }

  lemma SendKeepsContexts(cfg: Config, d: Dir, k: Key, outcome: Outcome)
    requires k in d.ctxs
    ensures k in Send(cfg, d, k, outcome).dir.ctxs
  {
  }

  lemma SetKeeps(cfg: Config, d: Dir, k: Key, request: LevelRequest, outcome: Outcome)
    requires HandlesOk(d) && k in d.ctxs
    ensures HandlesOk(Set(cfg, d, k, request, outcome).dir)
  {
    var c := d.ctxs[k];
    var d1 := d.(ctxs := d.ctxs[k := Requested(c, request)]);
    SameHandlesKeep(d, k, Requested(c, request));
    if c.userHandle >= FD_MINIMUM {
      SendKeeps(cfg, d1, k, outcome);
      SendKeepsContexts(cfg, d1, k, outcome);
      var e := Send(cfg, d1, k, outcome).dir;
      SameHandlesKeep(e, k, e.ctxs[k].(logLevel := c.logLevel, traceStatus := c.traceStatus));
    }
  }

  lemma InjectKeeps(d: Dir, k: Key, outcome: Outcome)
    requires HandlesOk(d) && k in d.ctxs
    ensures HandlesOk(InjectInto(d, k, outcome).dir)
  {
    SameHandlesKeep(d, k, d.ctxs[k].(userHandle := FD_INIT));
  }

  lemma DeleteAppKeeps(d: Dir, k: Key)
    requires HandlesOk(d) && k in d.apps
    ensures HandlesOk(DeleteApp(d, k).dir)
  {
    ResetKeeps(d, k);
  }

  lemma DeleteCtxKeeps(d: Dir, k: Key)
    requires HandlesOk(d) && k in d.ctxs
    ensures HandlesOk(DeleteCtx(d, k))
  {
  }

  lemma StepKeeps(build: Build, cfg: Config, d: Dir, op: Op)
    requires HandlesOk(d) && Legal(d, op)
    ensures HandlesOk(Step(build, cfg, d, op).dir)
  {
    match op
    case AddApplication(raw, pid, description, fd, pipe) => AddAppKeeps(build, d, raw, pid, description, fd, pipe);
    case DeleteApplication(raw) => if SetId(raw) in d.apps { DeleteAppKeeps(d, SetId(raw)); }
    case DeleteContext(rawApid, rawCtid) =>
      if SetId(rawApid) + SetId(rawCtid) in d.ctxs { DeleteCtxKeeps(d, SetId(rawApid) + SetId(rawCtid)); }
    case AddContext(rawApid, rawCtid, r) => AddCtxKeeps(cfg, d, rawApid, rawCtid, r);
    case InvalidateFd(fd) => InvalidateKeeps(d, fd);
    case SendState(raw, outcome) => if SetId(raw) in d.apps { ResetKeeps(d, SetId(raw)); }
    case SendLevel(rawApid, rawCtid, outcome) =>
      var k := SetId(rawApid) + SetId(rawCtid);
      if k in d.ctxs { SendKeeps(cfg, d, k, outcome); }
    case UpdateLevel(k, enforce, cap, level, outcome) =>
      if k in d.ctxs { UpdateKeeps(cfg, d, k, enforce, cap, level, outcome); }
    case SetLevel(k, request, outcome) => if k in d.ctxs { SetKeeps(cfg, d, k, request, outcome); }
    case SetStorage(k, level) => if k in d.ctxs { SameHandlesKeep(d, k, d.ctxs[k].(storageLogLevel := level)); }
    case Inject(rawApid, rawCtid, outcome) =>
      var k := SetId(rawApid) + SetId(rawCtid);
      if k in d.ctxs { InjectKeeps(d, k, outcome); }
    case _ =>
  }

  /**
   * In every legal run no two applications share a descriptor and every context's
   * descriptor is FD_INIT, 0, or that of the application with its apid.
   */
  lemma {:induction false} RunKeepsHandles(build: Build, cfg: Config, d: Dir, ops: seq<Op>)
    requires HandlesOk(d) && LegalRun(build, cfg, d, ops)
    ensures HandlesOk(Run(build, cfg, d, ops).dir)
    decreases |ops|
  {
    if |ops| > 0 {
      StepKeeps(build, cfg, d, ops[0]);
      RunKeepsHandles(build, cfg, Step(build, cfg, d, ops[0]).dir, ops[1..]);
    }
  }

  /** A message to the context is not sent at all, or on its own application's descriptor. */
  ghost predicate SafeSend(d: Dir, c: Context) {
    c.userHandle < 0 || HeldByOwner(d, c)
  }

  /**
   * Exactly one kind of context is not safe to send to: one with the mark 0 whose application
   * does not hold descriptor 0. The guard of most callers, a descriptor of at least 3, is
   * therefore enough; the log storage functions send without it.
   */
  lemma SafeSendIff(d: Dir, k: Key)
    requires HandlesOk(d) && k in d.ctxs
    ensures SafeSend(d, d.ctxs[k]) <==> d.ctxs[k].userHandle != 0 || HeldByOwner(d, d.ctxs[k])
    ensures d.ctxs[k].userHandle >= FD_MINIMUM ==> SafeSend(d, d.ctxs[k])
  {
    assert BorrowedFromOwner(d, d.ctxs[k]);
  }

  /** A message that is safe to send reaches the descriptor of its own application only. */
  lemma MessageReachesOwnerOnly(d: Dir, k: Key, j: Key)
    requires HandlesOk(d) && k in d.ctxs && SafeSend(d, d.ctxs[k]) && d.ctxs[k].userHandle != FD_INIT
    requires j in d.apps && d.apps[j].userHandle == d.ctxs[k].userHandle
    ensures j == AppKeyOf(d.ctxs[k])
  {
    assert BorrowedFromOwner(d, d.ctxs[k]);
  }

  // ------------------------------------------------------------ dead descriptors

  /** Nobody in the registry holds the descriptor. */
  ghost predicate Unheld(d: Dir, h: int) {
    && (forall k :: k in d.apps ==> d.apps[k].userHandle != h)
    && (forall k :: k in d.ctxs ==> d.ctxs[k].userHandle != h)
  }

  predicate IsSend(op: Op) {
    op.SendState? || op.SendLevel? || op.UpdateLevel? || op.SetLevel?
  }

  /** What a caller without a guard of its own has to see to. */
  ghost predicate Safe(d: Dir, op: Op) {
    op.SendLevel? || op.Inject? ==>
      var k := SetId(op.apid) + SetId(op.ctid);
      k in d.ctxs ==> SafeSend(d, d.ctxs[k])
  }

  ghost predicate SafeRun(build: Build, cfg: Config, d: Dir, ops: seq<Op>)
    decreases |ops|
  {
    |ops| == 0 || (Safe(d, ops[0]) && SafeRun(build, cfg, Step(build, cfg, d, ops[0]).dir, ops[1..]))
  }

  ghost predicate NeverUsed(events: seq<Event>, h: int) {
    forall i :: 0 <= i < |events| ==> events[i].handle != h
  }

  /** At most one message first, then closings; a dead peer's descriptor is held by nobody after. */
  ghost predicate SendReleases(e: Effect) {
    && (forall i :: 0 < i < |e.events| ==> e.events[i].Closed?)
    && (|e.events| > 0 ==> e.events[0].Sent? && e.events[0].handle >= 0)
    && (|e.events| > 0 && e.events[0].outcome.DeadDescriptor? ==> Unheld(e.dir, e.events[0].handle))
  }

  lemma CtxSendReleases(cfg: Config, d: Dir, k: Key, outcome: Outcome)
    requires HandlesOk(d) && k in d.ctxs && SafeSend(d, d.ctxs[k])
    ensures SendReleases(Send(cfg, d, k, outcome))
  {
    assert BorrowedFromOwner(d, d.ctxs[k]);
  }

  /** A send that meets a dead descriptor leaves nobody holding it exactly if it was safe. */
  lemma DeadSendReleasesIff(cfg: Config, d: Dir, k: Key)
    requires HandlesOk(d) && k in d.ctxs && d.ctxs[k].userHandle >= 0
    ensures Unheld(Send(cfg, d, k, DeadDescriptor).dir, d.ctxs[k].userHandle) <==> SafeSend(d, d.ctxs[k])
  {
    var c := d.ctxs[k];
    assert BorrowedFromOwner(d, c);
    if SafeSend(d, c) {
      CtxSendReleases(cfg, d, k, DeadDescriptor);
    } else {
      assert Send(cfg, d, k, DeadDescriptor).dir.ctxs[k].userHandle == 0;
    }
  }

  /** After a pipe error in an injection the application still holds the descriptor. */
  lemma DeadInjectionKeepsDescriptor(d: Dir, k: Key)
    requires HandlesOk(d) && k in d.ctxs && SafeSend(d, d.ctxs[k]) && d.ctxs[k].userHandle >= 0
    ensures !Unheld(InjectInto(d, k, DeadDescriptor).dir, d.ctxs[k].userHandle)
  {
    assert InjectInto(d, k, DeadDescriptor).dir.apps[AppKeyOf(d.ctxs[k])].userHandle == d.ctxs[k].userHandle;
  }

  lemma SetReleases(cfg: Config, d: Dir, k: Key, request: LevelRequest, outcome: Outcome)
    requires HandlesOk(d) && k in d.ctxs
    ensures SendReleases(Set(cfg, d, k, request, outcome))
  {
    var c := d.ctxs[k];
    if c.userHandle >= FD_MINIMUM {
      var d1 := d.(ctxs := d.ctxs[k := Requested(c, request)]);
      SameHandlesKeep(d, k, Requested(c, request));
      SafeSendIff(d1, k);
      CtxSendReleases(cfg, d1, k, outcome);
    }
  }

  lemma UpdateReleases(cfg: Config, d: Dir, k: Key, enforce: bool, cap: int, level: int, outcome: Outcome)
    requires HandlesOk(d) && k in d.ctxs
    ensures SendReleases(Update(cfg, d, k, enforce, cap, level, outcome))
  {
    if d.ctxs[k].userHandle >= FD_MINIMUM {
      var c := d.ctxs[k].(logLevel := UpdatedLevel(enforce, cap, level));
      SameHandlesKeep(d, k, c);
      SafeSendIff(d.(ctxs := d.ctxs[k := c]), k);
      CtxSendReleases(cfg, d.(ctxs := d.ctxs[k := c]), k, outcome);
    }
  }

  lemma AppSendReleases(d: Dir, k: Key, outcome: Outcome)
    requires HandlesOk(d) && k in d.apps
    ensures SendReleases(SendAppState(d, k, outcome))
  {
  }

  /** A send that meets a dead descriptor leaves nobody holding it. */
  lemma DeadSendReleases(build: Build, cfg: Config, d: Dir, op: Op)
    requires HandlesOk(d) && IsSend(op) && Safe(d, op)
    ensures SendReleases(Step(build, cfg, d, op))
  {
    match op
    case SendState(raw, outcome) => if SetId(raw) in d.apps { AppSendReleases(d, SetId(raw), outcome); }
    case SendLevel(rawApid, rawCtid, outcome) =>
      if SetId(rawApid) + SetId(rawCtid) in d.ctxs { CtxSendReleases(cfg, d, SetId(rawApid) + SetId(rawCtid), outcome); }
    case UpdateLevel(k, enforce, cap, level, outcome) =>
      if k in d.ctxs { UpdateReleases(cfg, d, k, enforce, cap, level, outcome); }
    case SetLevel(k, request, outcome) => if k in d.ctxs { SetReleases(cfg, d, k, request, outcome); }
  }

  lemma CtxSendStaysUnheld(cfg: Config, d: Dir, k: Key, outcome: Outcome, h: int)
    requires Unheld(d, h) && h != FD_INIT && k in d.ctxs
    ensures Unheld(Send(cfg, d, k, outcome).dir, h) && NeverUsed(Send(cfg, d, k, outcome).events, h)
  {
  }

  lemma SendStaysUnheld(build: Build, cfg: Config, d: Dir, op: Op, h: int)
    requires Unheld(d, h) && h != FD_INIT && IsSend(op)
    ensures Unheld(Step(build, cfg, d, op).dir, h)
    ensures NeverUsed(Step(build, cfg, d, op).events, h)
  {
    match op
    case SendState(_, _) =>
    case SendLevel(rawApid, rawCtid, outcome) =>
      if SetId(rawApid) + SetId(rawCtid) in d.ctxs {
        CtxSendStaysUnheld(cfg, d, SetId(rawApid) + SetId(rawCtid), outcome, h);
      }
    case UpdateLevel(k, enforce, cap, level, outcome) =>
      if k in d.ctxs {
        var c := d.ctxs[k].(logLevel := UpdatedLevel(enforce, cap, level));
        CtxSendStaysUnheld(cfg, d.(ctxs := d.ctxs[k := c]), k, outcome, h);
      }
    case SetLevel(k, request, outcome) =>
      if k in d.ctxs {
        CtxSendStaysUnheld(cfg, d.(ctxs := d.ctxs[k := Requested(d.ctxs[k], request)]), k, outcome, h);
      }
  }

  lemma {:induction false} SendsStayUnheld(build: Build, cfg: Config, d: Dir, ops: seq<Op>, h: int)
    requires Unheld(d, h) && h != FD_INIT && forall i :: 0 <= i < |ops| ==> IsSend(ops[i])
    ensures Unheld(Run(build, cfg, d, ops).dir, h)
    ensures NeverUsed(Run(build, cfg, d, ops).events, h)
    decreases |ops|
  {
    if |ops| > 0 {
      SendStaysUnheld(build, cfg, d, ops[0], h);
      SendsStayUnheld(build, cfg, Step(build, cfg, d, ops[0]).dir, ops[1..], h);
    }
  }

  predicate MetDead(e: Event) {
    e.Sent? && e.outcome.DeadDescriptor?
  }

  /** No message follows a dead peer's on the same descriptor. */
  ghost predicate NoReuse(events: seq<Event>) {
    forall i, j :: 0 <= i < j < |events| && MetDead(events[i]) && events[j].Sent?
                   ==> events[j].handle != events[i].handle
  }

  ghost predicate DeadReleased(d: Dir, events: seq<Event>) {
    forall i :: 0 <= i < |events| && MetDead(events[i]) ==> Unheld(d, events[i].handle)
  }

  /** The events of one send, put in front of events that are in order. */
  lemma PrependSend(d: Dir, e1: seq<Event>, e2: seq<Event>)
    requires NoReuse(e2) && DeadReleased(d, e2)
    requires forall i :: 0 < i < |e1| ==> e1[i].Closed?
    requires |e1| > 0 && MetDead(e1[0]) ==> NeverUsed(e2, e1[0].handle) && Unheld(d, e1[0].handle)
    ensures NoReuse(e1 + e2) && DeadReleased(d, e1 + e2)
  {
    var all, n := e1 + e2, |e1|;
    assert forall i :: 0 <= i < |all| ==> all[i] == if i < n then e1[i] else e2[i - n];
  }

  /**
   * In every sequence of safe sends, a broadcast above all: once a send on a descriptor has met
   * a dead peer, no later message goes to that descriptor and in the end nobody holds it.
   */
  lemma {:induction false} DeadDescriptorIsNotUsedAgain(build: Build, cfg: Config, d: Dir, ops: seq<Op>)
    requires HandlesOk(d) && (forall i :: 0 <= i < |ops| ==> IsSend(ops[i])) && SafeRun(build, cfg, d, ops)
    ensures NoReuse(Run(build, cfg, d, ops).events)
    ensures DeadReleased(Run(build, cfg, d, ops).dir, Run(build, cfg, d, ops).events)
    decreases |ops|
  {
    if |ops| > 0 {
      var e1 := Step(build, cfg, d, ops[0]);
      StepKeeps(build, cfg, d, ops[0]);
      DeadSendReleases(build, cfg, d, ops[0]);
      DeadDescriptorIsNotUsedAgain(build, cfg, e1.dir, ops[1..]);
      if |e1.events| > 0 && MetDead(e1.events[0]) {
        SendsStayUnheld(build, cfg, e1.dir, ops[1..], e1.events[0].handle);
      }
      var e2 := Run(build, cfg, e1.dir, ops[1..]);
      PrependSend(e2.dir, e1.events, e2.events);
    }
  }
}
