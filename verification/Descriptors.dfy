/**
 * The FIFO build: the daemon opens a pipe per application and must close it exactly once.
 */
module Descriptors {
  import opened Order
  import opened Ids
  import opened Entities
  import opened Directory
  import opened Handles

  /**
   * The descriptors open after an event. None stands for misuse: opening a descriptor that
   * is open, closing one that is not, or sending on one that is not.
   */
  function Apply(open: set<int>, e: Event): Option<set<int>> {
    if e.Opened? then (if e.handle in open then None else Some(open + {e.handle}))
    else if e.handle !in open then None
    else if e.Closed? then Some(open - {e.handle})
    else Some(open)
  }

  function Replay(open: set<int>, events: seq<Event>): Option<set<int>>
    decreases |events|
  {
    if |events| == 0 then Some(open)
    else
      var next := Apply(open, events[0]);
      if next.Some? then Replay(next.value, events[1..]) else None
  }

  function OwnedHandles(d: Dir): set<int> {
    set k | k in d.apps && d.apps[k].ownsHandle :: d.apps[k].userHandle
  }

  ghost predicate FifoOk(d: Dir) {
    HandlesOk(d) && forall k :: k in d.apps ==> (d.apps[k].ownsHandle <==> d.apps[k].userHandle != FD_INIT)
  }

  const FifoBuild := Build(false, true)

  /**
   * The registry's clients as in Legal, safe sends, no pipe error in an injection, no clearing
   * of applications that own a descriptor, and an operating system that never hands out a
   * descriptor that is still open.
   */
  ghost predicate FifoLegal(d: Dir, op: Op) {
    Legal(d, op) && Safe(d, op) &&
    match op
    case AddApplication(raw, pid, description, fd, pipe) =>
      pipe !in OwnedHandles(Rebind(Introduce(d, raw, description), SetId(raw), pid).dir)
    case InvalidateFd(fd) => fd !in OwnedHandles(d)
    case ClearApplications => OwnedHandles(d) == {}
    case Inject(rawApid, rawCtid, outcome) =>
      var k := SetId(rawApid) + SetId(rawCtid);
      k in d.ctxs && d.ctxs[k].userHandle >= 0 ==> !outcome.DeadDescriptor?
    case _ => true
  }

  ghost predicate FifoLegalRun(cfg: Config, d: Dir, ops: seq<Op>)
    decreases |ops|
  {
    |ops| == 0 || (FifoLegal(d, ops[0]) && FifoLegalRun(cfg, Step(FifoBuild, cfg, d, ops[0]).dir, ops[1..]))
  }

  lemma {:induction false} ReplayConcat(open: set<int>, e1: seq<Event>, e2: seq<Event>)
    ensures var m := Replay(open, e1);
            Replay(open, e1 + e2) == if m.Some? then Replay(m.value, e2) else None
    decreases |e1|
  {
    if |e1| == 0 {
      assert e1 + e2 == e2;
    } else {
      assert (e1 + e2)[1..] == e1[1..] + e2;
      var next := Apply(open, e1[0]);
      if next.Some? { ReplayConcat(next.value, e1[1..], e2); }
    }
  }

  /** An effect is balanced when its events turn the owned descriptors of d into those of d'. */
  ghost predicate Balanced(d: Dir, e: Effect) {
    FifoOk(e.dir) && Replay(OwnedHandles(d), e.events) == Some(OwnedHandles(e.dir))
  }

  lemma ReplayOne(open: set<int>, e: Event)
    ensures Replay(open, [e]) == Apply(open, e)
  {
    assert [e][1..] == [];
  }

  lemma ResetBalanced(d: Dir, k: Key)
    requires FifoOk(d) && k in d.apps
    ensures Balanced(d, ResetHandle(d, k))
  {
    ResetKeeps(d, k);
    var a, e := d.apps[k], ResetHandle(d, k);
    if a.userHandle != FD_INIT {
      ReplayOne(OwnedHandles(d), Closed(a.userHandle));
      assert OwnedHandles(e.dir) == OwnedHandles(d) - {a.userHandle} by {
        forall j | j in d.apps && j != k && d.apps[j].ownsHandle ensures d.apps[j].userHandle in OwnedHandles(e.dir) {
          assert e.dir.apps[j] == d.apps[j];
        }
      }
    }
  }

  lemma RebindBalanced(d: Dir, k: Key, pid: int)
    requires FifoOk(d) && k in d.apps
    ensures Balanced(d, Rebind(d, k, pid)) && k in Rebind(d, k, pid).dir.apps
  {
    if d.apps[k].pid != pid {
      ResetBalanced(d, k);
      RebindKeeps(d, k, pid);
      var d1, d2 := ResetHandle(d, k).dir, Rebind(d, k, pid).dir;
      SameOwned(d1, d2);
    }
  }

  lemma SameOwned(d1: Dir, d2: Dir)
    requires d1.apps.Keys == d2.apps.Keys
    requires forall k :: k in d1.apps ==> d1.apps[k].userHandle == d2.apps[k].userHandle
    requires forall k :: k in d1.apps ==> d1.apps[k].ownsHandle == d2.apps[k].ownsHandle
    ensures OwnedHandles(d1) == OwnedHandles(d2)
  {
  }

  lemma AttachBalanced(d: Dir, k: Key, pid: int, fd: int, pipe: OpenResult)
    requires FifoOk(d) && k in d.apps && pipe !in OwnedHandles(d)
    ensures Balanced(d, Attach(FifoBuild, d, k, pid, fd, pipe))
  {
    AttachKeeps(FifoBuild, d, k, pid, fd, pipe);
    var e := Attach(FifoBuild, d, k, pid, fd, pipe);
    if d.apps[k].userHandle == FD_INIT && pid != 0 {
      var d1 := Invalidate(d, pipe);
      assert forall j :: j in d.apps ==> d1.apps[j] == d.apps[j];
      if pipe >= 0 {
        ReplayOne(OwnedHandles(d), Opened(pipe));
        assert OwnedHandles(e.dir) == OwnedHandles(d) + {pipe} by {
          assert e.dir.apps[k].userHandle == pipe && e.dir.apps[k].ownsHandle;
          forall j | j in d.apps && d.apps[j].ownsHandle ensures d.apps[j].userHandle in OwnedHandles(e.dir) {
            assert e.dir.apps[j] == d.apps[j];
          }
        }
      } else {
        SameOwned(d, e.dir);
      }
    }
  }

  lemma AddAppBalanced(d: Dir, raw: Id, pid: int, description: Option<seq<Byte>>, fd: int, pipe: OpenResult)
    requires FifoOk(d) && FifoLegal(d, AddApplication(raw, pid, description, fd, pipe))
    ensures Balanced(d, AddApp(FifoBuild, d, raw, pid, description, fd, pipe))
  {
    if raw[0] != 0 {
      var d1, k := Introduce(d, raw, description), SetId(raw);
      assert FifoOk(d1);
      assert OwnedHandles(d1) == OwnedHandles(d) by {
        forall j | j in d.apps && d.apps[j].ownsHandle ensures d.apps[j].userHandle in OwnedHandles(d1) {
          assert d1.apps[j].userHandle == d.apps[j].userHandle && d1.apps[j].ownsHandle;
        }
      }
      var e1 := Rebind(d1, k, pid);
      RebindBalanced(d1, k, pid);
      var e2 := Attach(FifoBuild, e1.dir, k, pid, fd, pipe);
      AttachBalanced(e1.dir, k, pid, fd, pipe);
      ReplayConcat(OwnedHandles(d), e1.events, e2.events);
    }
  }

  /** Sending to a live descriptor, and resetting the application k when the peer is dead. */
  lemma SendThenReset(d: Dir, k: Key, s: Event, dead: bool)
    requires FifoOk(d) && s.Sent? && s.handle in OwnedHandles(d) && (dead ==> k in d.apps)
    ensures var e := if dead then ResetHandle(d, k) else Effect(d, []);
            Balanced(d, Effect(e.dir, [s] + e.events))
  {
    ReplayOne(OwnedHandles(d), s);
    if dead {
      ResetBalanced(d, k);
      ReplayConcat(OwnedHandles(d), [s], ResetHandle(d, k).events);
    }
  }

  lemma SendBalanced(cfg: Config, d: Dir, k: Key, outcome: Outcome)
    requires FifoOk(d) && k in d.ctxs && SafeSend(d, d.ctxs[k])
    ensures Balanced(d, Send(cfg, d, k, outcome))
  {
    var c := d.ctxs[k];
    if c.userHandle >= 0 {
      assert d.apps[AppKeyOf(c)].ownsHandle;
      SendThenReset(d, AppKeyOf(c), LevelMessage(cfg, c, outcome), outcome.DeadDescriptor?);
    }
  }

  lemma DeleteBalanced(d: Dir, k: Key)
    requires FifoOk(d) && k in d.apps
    ensures Balanced(d, DeleteApp(d, k))
  {
    ResetBalanced(d, k);
    ResetKeeps(d, k);
    var e, f := ResetHandle(d, k), DeleteApp(d, k);
    assert OwnedHandles(f.dir) == OwnedHandles(e.dir) by {
      forall j | j in e.dir.apps && e.dir.apps[j].ownsHandle ensures e.dir.apps[j].userHandle in OwnedHandles(f.dir) {
        assert j != k && f.dir.apps[j] == e.dir.apps[j];
      }
    }
  }

  lemma UpdateBalanced(cfg: Config, d: Dir, k: Key, enforce: bool, cap: int, level: int, outcome: Outcome)
    requires FifoOk(d) && k in d.ctxs
    ensures Balanced(d, Update(cfg, d, k, enforce, cap, level, outcome))
  {
    if d.ctxs[k].userHandle >= FD_MINIMUM {
      var c := d.ctxs[k].(logLevel := UpdatedLevel(enforce, cap, level));
      LevelSendBalanced(cfg, d, k, c, outcome);
    }
  }

  /** Sending after a change of levels. */
  lemma LevelSendBalanced(cfg: Config, d: Dir, k: Key, c: Context, outcome: Outcome)
    requires FifoOk(d) && k in d.ctxs && d.ctxs[k].userHandle == c.userHandle >= FD_MINIMUM
    requires c.apid == d.ctxs[k].apid && c.ctid == d.ctxs[k].ctid
    ensures Balanced(d, Send(cfg, d.(ctxs := d.ctxs[k := c]), k, outcome))
  {
    var d1 := d.(ctxs := d.ctxs[k := c]);
    SameHandlesKeep(d, k, c);
    SafeSendIff(d1, k);
    assert OwnedHandles(d1) == OwnedHandles(d);
    SendBalanced(cfg, d1, k, outcome);
  }

  lemma SetBalanced(cfg: Config, d: Dir, k: Key, request: LevelRequest, outcome: Outcome)
    requires FifoOk(d) && k in d.ctxs
    ensures Balanced(d, Set(cfg, d, k, request, outcome))
  {
    var c := d.ctxs[k];
    SetKeeps(cfg, d, k, request, outcome);
    if c.userHandle >= FD_MINIMUM {
      LevelSendBalanced(cfg, d, k, Requested(c, request), outcome);
      SameOwned(Send(cfg, d.(ctxs := d.ctxs[k := Requested(c, request)]), k, outcome).dir, Set(cfg, d, k, request, outcome).dir);
    } else {
      SameOwned(d, Set(cfg, d, k, request, outcome).dir);
    }
  }

  /** A send keeps the balance exactly if nothing is sent or the descriptor is open. */
  lemma SendBalancedIff(cfg: Config, d: Dir, k: Key, outcome: Outcome)
    requires FifoOk(d) && k in d.ctxs
    ensures Balanced(d, Send(cfg, d, k, outcome)) <==> d.ctxs[k].userHandle < 0 || d.ctxs[k].userHandle in OwnedHandles(d)
  {
    var c := d.ctxs[k];
    if c.userHandle in OwnedHandles(d) {
      var dead := outcome.DeadDescriptor? && AppKeyOf(c) in d.apps;
      if c.userHandle >= 0 { SendThenReset(d, AppKeyOf(c), LevelMessage(cfg, c, outcome), dead); }
    } else if c.userHandle >= 0 {
      assert Apply(OwnedHandles(d), Send(cfg, d, k, outcome).events[0]) == None;
    }
  }

  /** An injection keeps the balance exactly if nothing is sent, or the descriptor is open and there is no pipe error. */
  lemma InjectBalancedIff(d: Dir, k: Key, outcome: Outcome)
    requires FifoOk(d) && k in d.ctxs
    ensures Balanced(d, InjectInto(d, k, outcome)) <==>
            d.ctxs[k].userHandle < 0 || (d.ctxs[k].userHandle in OwnedHandles(d) && !outcome.DeadDescriptor?)
  {
    var h, open, e := d.ctxs[k].userHandle, OwnedHandles(d), InjectInto(d, k, outcome);
    if h >= 0 && h !in open {
      assert Apply(open, e.events[0]) == None;
    } else if h >= 0 {
      ReplayOne(open, Sent(h, 0, 0, 0, outcome));
      if outcome.DeadDescriptor? {
        ReplayConcat(open, [Sent(h, 0, 0, 0, outcome)], [Closed(h)]);
        ReplayOne(open, Closed(h));
        assert e.events == [Sent(h, 0, 0, 0, outcome)] + [Closed(h)];
        SameOwned(d, e.dir);
        assert h in OwnedHandles(e.dir);
      }
    }
  }

  /** Clearing the applications keeps the balance exactly if they own no descriptor. */
  lemma ClearBalancedIff(cfg: Config, d: Dir)
    requires FifoOk(d) && d.ctxs == map[]
    ensures Balanced(d, Step(FifoBuild, cfg, d, ClearApplications)) <==> OwnedHandles(d) == {}
  {
    var e := Step(FifoBuild, cfg, d, ClearApplications);
    assert OwnedHandles(e.dir) == {};
  }

  lemma SendStateBalanced(d: Dir, k: Key, outcome: Outcome)
    requires FifoOk(d) && k in d.apps
    ensures Balanced(d, SendAppState(d, k, outcome))
  {
    var h := d.apps[k].userHandle;
    if h >= 0 {
      assert d.apps[k].ownsHandle && h in OwnedHandles(d);
      SendThenReset(d, k, Sent(h, 0, 0, 0, outcome), outcome.DeadDescriptor?);
    }
  }

  lemma MessageBalanced(cfg: Config, d: Dir, op: Op)
    requires FifoOk(d) && FifoLegal(d, op) && (IsSend(op) || op.Inject?)
    ensures Balanced(d, Step(FifoBuild, cfg, d, op))
  {
    match op
    case SendState(raw, outcome) =>
      if SetId(raw) in d.apps { SendStateBalanced(d, SetId(raw), outcome); }
    case SendLevel(rawApid, rawCtid, outcome) =>
      var k := SetId(rawApid) + SetId(rawCtid);
      if k in d.ctxs { SendBalanced(cfg, d, k, outcome); }
    case UpdateLevel(k, enforce, cap, level, outcome) =>
      if k in d.ctxs { UpdateBalanced(cfg, d, k, enforce, cap, level, outcome); }
    case SetLevel(k, request, outcome) => if k in d.ctxs { SetBalanced(cfg, d, k, request, outcome); }
    case Inject(rawApid, rawCtid, outcome) =>
      var k := SetId(rawApid) + SetId(rawCtid);
      if k in d.ctxs {
        InjectBalancedIff(d, k, outcome);
        if d.ctxs[k].userHandle >= 0 {
          assert d.apps[AppKeyOf(d.ctxs[k])].ownsHandle && d.ctxs[k].userHandle in OwnedHandles(d);
        }
      }
  }

  lemma StepBalanced(cfg: Config, d: Dir, op: Op)
    requires FifoOk(d) && FifoLegal(d, op)
    ensures Balanced(d, Step(FifoBuild, cfg, d, op))
  {
    if IsSend(op) || op.Inject? {
      MessageBalanced(cfg, d, op);
    } else {
      StepKeeps(FifoBuild, cfg, d, op);
      var d' := Step(FifoBuild, cfg, d, op).dir;
      match op
      case AddApplication(raw, pid, description, fd, pipe) => AddAppBalanced(d, raw, pid, description, fd, pipe);
      case DeleteApplication(raw) => if SetId(raw) in d.apps { DeleteBalanced(d, SetId(raw)); }
      case ClearApplications => ClearBalancedIff(cfg, d);
      case _ => SameOwned(d, d');
    }
  }

  /**
   * In every legal run of the FIFO build the descriptors open for applications are exactly
   * those the listed applications own: nothing leaks, nothing is closed twice, and no
   * message goes to a closed descriptor.
   */
  lemma {:induction false} RunBalanced(cfg: Config, d: Dir, ops: seq<Op>)
    requires FifoOk(d) && FifoLegalRun(cfg, d, ops)
    ensures Balanced(d, Run(FifoBuild, cfg, d, ops))
    decreases |ops|
  {
    if |ops| > 0 {
      var e1 := Step(FifoBuild, cfg, d, ops[0]);
      StepBalanced(cfg, d, ops[0]);
      RunBalanced(cfg, e1.dir, ops[1..]);
      ReplayConcat(OwnedHandles(d), e1.events, Run(FifoBuild, cfg, e1.dir, ops[1..]).events);
    }
  }
}
