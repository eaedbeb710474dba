/**
 * Whole runs of the registry on sorted arrays.
 */
module Runs {
  import opened Ids
  import opened SortedTable
  import opened TableMaps
  import opened Entities
  import opened UserLists
  import opened Refinement
  import D = Directory
  import H = Handles
  import C = Counts
  import opened Segments
  import opened UnpaddedIds

  function Step(build: Build, cfg: Config, u: UserList, op: D.Op): Change {
    match op
    case AddApplication(raw, pid, description, fd, pipe) =>
      var r := AddApp(build, u, raw, pid, description, fd, pipe);
      Change(r.users, r.events)
    case DeleteApplication(raw) =>
      var p := FindApp(u.apps, raw);
      if p >= 0 then DeleteAppAt(u, p) else Change(u, [])
    case ClearApplications => Change(u.(apps := []), [])
    case AddContext(rawApid, rawCtid, r) => Change(AddCtx(cfg, u, rawApid, rawCtid, r).users, [])
    case DeleteContext(rawApid, rawCtid) =>
      var p := FindCtx(u.ctxs, rawApid, rawCtid);
      Change(if p >= 0 then DeleteCtxAt(u, p) else u, [])
    case ClearContexts => Change(ClearCtxs(u), [])
    case InvalidateFd(fd) => Change(InvalidateFd(u, fd), [])
    case SendState(raw, outcome) =>
      var p := FindApp(u.apps, raw);
      if p >= 0 then SendStateAt(u, p, outcome) else Change(u, [])
    case SendLevel(rawApid, rawCtid, outcome) =>
      var p := FindCtx(u.ctxs, rawApid, rawCtid);
      if p >= 0 then SendAt(cfg, u, p, outcome) else Change(u, [])
    case UpdateLevel(k, enforce, cap, level, outcome) =>
      var p := Position(u.ctxs, CtxKey, k);
      if p >= 0 then UpdateAt(cfg, u, p, enforce, cap, level, outcome) else Change(u, [])
    case SetLevel(k, request, outcome) =>
      var p := Position(u.ctxs, CtxKey, k);
      if p >= 0 then SetAt(cfg, u, p, request, outcome) else Change(u, [])
    case SetStorage(k, level) =>
      var p := Position(u.ctxs, CtxKey, k);
      Change(if p >= 0 then SetStorageAt(u, p, level) else u, [])
    case Inject(rawApid, rawCtid, outcome) =>
      var p := FindCtx(u.ctxs, rawApid, rawCtid);
      if p >= 0 then InjectAt(u, p, outcome) else Change(u, [])
  }

  function Run(build: Build, cfg: Config, u: UserList, ops: seq<D.Op>): Change
    decreases |ops|
  {
    if |ops| == 0 then Change(u, [])
    else
      var r1 := Step(build, cfg, u, ops[0]);
      var r2 := Run(build, cfg, r1.users, ops[1..]);
      Change(r2.users, r1.events + r2.events)
  }

  /** The ids an operation names are zero-padded fields. */
  ghost predicate IdsPadded(op: D.Op) {
    match op
    case AddApplication(raw, _, _, _, _) => Padded(raw)
    case DeleteApplication(raw) => Padded(raw)
    case AddContext(rawApid, rawCtid, _) => Padded(rawApid) && Padded(rawCtid)
    case DeleteContext(rawApid, rawCtid) => Padded(rawApid) && Padded(rawCtid)
    case SendState(raw, _) => Padded(raw)
    case SendLevel(rawApid, rawCtid, _) => Padded(rawApid) && Padded(rawCtid)
    case Inject(rawApid, rawCtid, _) => Padded(rawApid) && Padded(rawCtid)
    case _ => true
  }

  lemma StepRefinesApps(build: Build, cfg: Config, u: UserList, op: D.Op)
    requires Ordered(u) && IdsPadded(op)
    requires op.AddApplication? || op.DeleteApplication? || op.SendState?
    ensures Agrees(Step(build, cfg, u, op), D.Step(build, cfg, Abs(u), op))
  {
    if op.apid[0] != 0 { FindAppPadded(u, op.apid); }
    match op
    case AddApplication(raw, pid, description, fd, pipe) => AddAppRefines(build, u, raw, pid, description, fd, pipe);
    case DeleteApplication(raw) => if FindApp(u.apps, raw) >= 0 { DeleteAppRefines(u, FindApp(u.apps, raw)); }
    case SendState(raw, outcome) => if FindApp(u.apps, raw) >= 0 { SendStateRefines(u, FindApp(u.apps, raw), outcome); }
  }

  lemma StepRefinesCtxs(build: Build, cfg: Config, u: UserList, op: D.Op)
    requires Ordered(u) && IdsPadded(op) && (op.DeleteContext? || op.SendLevel? || op.Inject?)
    ensures Agrees(Step(build, cfg, u, op), D.Step(build, cfg, Abs(u), op))
  {
    if op.apid[0] != 0 && op.ctid[0] != 0 {
      FindCtxPadded(u, op.apid, op.ctid);
      var p := FindCtx(u.ctxs, op.apid, op.ctid);
      if p >= 0 && op.DeleteContext? { DeleteCtxRefines(u, p); }
      if p >= 0 && op.SendLevel? { SendRefines(cfg, u, p, op.outcome); }
      if p >= 0 && op.Inject? { InjectRefines(u, p, op.outcome); }
    }
  }

  lemma StepRefinesKeyed(build: Build, cfg: Config, u: UserList, op: D.Op)
    requires Ordered(u) && (op.UpdateLevel? || op.SetLevel? || op.SetStorage?)
    ensures Agrees(Step(build, cfg, u, op), D.Step(build, cfg, Abs(u), op))
  {
    MapLookup(u.ctxs, CtxKey, op.key);
    var p := Position(u.ctxs, CtxKey, op.key);
    if p >= 0 {
      match op
      case UpdateLevel(k, enforce, cap, level, outcome) => UpdateRefines(cfg, u, p, enforce, cap, level, outcome);
      case SetLevel(k, request, outcome) => SetRefines(cfg, u, p, request, outcome);
      case SetStorage(k, level) => ReplaceCtx(u, p, u.ctxs[p].(storageLogLevel := level));
    }
  }

  lemma StepRefinesPadded(build: Build, cfg: Config, u: UserList, op: D.Op)
    requires Ordered(u) && IdsPadded(op)
    ensures Agrees(Step(build, cfg, u, op), D.Step(build, cfg, Abs(u), op))
  {
    match op
    case AddApplication(_, _, _, _, _) => StepRefinesApps(build, cfg, u, op);
    case DeleteApplication(_) => StepRefinesApps(build, cfg, u, op);
    case SendState(_, _) => StepRefinesApps(build, cfg, u, op);
    case DeleteContext(_, _) => StepRefinesCtxs(build, cfg, u, op);
    case SendLevel(_, _, _) => StepRefinesCtxs(build, cfg, u, op);
    case AddContext(rawApid, rawCtid, r) => AddCtxRefines(cfg, u, rawApid, rawCtid, r);
    case ClearContexts => ClearCtxsRefines(u);
    case InvalidateFd(fd) => InvalidateRefines(u, fd);
    case Inject(_, _, _) => StepRefinesCtxs(build, cfg, u, op);
    case UpdateLevel(_, _, _, _, _) => StepRefinesKeyed(build, cfg, u, op);
    case SetLevel(_, _, _) => StepRefinesKeyed(build, cfg, u, op);
    case SetStorage(_, _) => StepRefinesKeyed(build, cfg, u, op);
    case ClearApplications =>
  }

  /** The operation with its ids as dlt_set_id stores them. */
  function Normal(op: D.Op): D.Op {
    match op
    case AddApplication(raw, pid, description, fd, pipe) => D.AddApplication(SetId(raw), pid, description, fd, pipe)
    case DeleteApplication(raw) => D.DeleteApplication(SetId(raw))
    case AddContext(rawApid, rawCtid, r) => D.AddContext(SetId(rawApid), SetId(rawCtid), r)
    case DeleteContext(rawApid, rawCtid) => D.DeleteContext(SetId(rawApid), SetId(rawCtid))
    case SendState(raw, outcome) => D.SendState(SetId(raw), outcome)
    case SendLevel(rawApid, rawCtid, outcome) => D.SendLevel(SetId(rawApid), SetId(rawCtid), outcome)
    case Inject(rawApid, rawCtid, outcome) => D.Inject(SetId(rawApid), SetId(rawCtid), outcome)
    case _ => op
  }

  /** The range checks hide no entry from the ids the operation names. */
  ghost predicate Visible(u: UserList, op: D.Op) {
    match op
    case AddApplication(raw, _, _, _, _) => !Hidden(u, raw)
    case DeleteApplication(raw) => !Hidden(u, raw)
    case AddContext(rawApid, rawCtid, _) => !Hidden(u, rawApid) && !HiddenCtx(u, rawApid, rawCtid)
    case DeleteContext(rawApid, rawCtid) => !HiddenCtx(u, rawApid, rawCtid)
    case SendState(raw, _) => !Hidden(u, raw)
    case SendLevel(rawApid, rawCtid, _) => !HiddenCtx(u, rawApid, rawCtid)
    case Inject(rawApid, rawCtid, _) => !HiddenCtx(u, rawApid, rawCtid)
    case _ => true
  }

  ghost predicate VisibleRun(build: Build, cfg: Config, u: UserList, ops: seq<D.Op>)
    decreases |ops|
  {
    |ops| == 0 || (Visible(u, ops[0]) && VisibleRun(build, cfg, Step(build, cfg, u, ops[0]).users, ops[1..]))
  }

  /** Zero-padded ids are always visible. */
  lemma {:induction false} PaddedIsVisible(build: Build, cfg: Config, u: UserList, ops: seq<D.Op>)
    requires forall i :: 0 <= i < |ops| ==> IdsPadded(ops[i])
    ensures VisibleRun(build, cfg, u, ops)
    decreases |ops|
  {
    if |ops| > 0 {
      assert IdsPadded(ops[0]) && Visible(u, ops[0]);
      PaddedIsVisible(build, cfg, Step(build, cfg, u, ops[0]).users, ops[1..]);
    }
  }

  lemma StepNormal(build: Build, cfg: Config, u: UserList, op: D.Op)
    requires Ordered(u) && Visible(u, op)
    ensures Step(build, cfg, u, op) == Step(build, cfg, u, Normal(op))
  {
    match op
    case AddApplication(raw, pid, description, fd, pipe) => AddAppNormal(build, u, raw, pid, description, fd, pipe);
    case DeleteApplication(raw) => FindAppNormal(u, raw);
    case AddContext(rawApid, rawCtid, r) => AddCtxNormal(cfg, u, rawApid, rawCtid, r);
    case DeleteContext(rawApid, rawCtid) => FindCtxNormal(u, rawApid, rawCtid);
    case SendState(raw, _) => FindAppNormal(u, raw);
    case SendLevel(rawApid, rawCtid, _) => FindCtxNormal(u, rawApid, rawCtid);
    case Inject(rawApid, rawCtid, _) => FindCtxNormal(u, rawApid, rawCtid);
    case _ =>
  }

  lemma MapStepNormal(build: Build, cfg: Config, d: D.Dir, op: D.Op)
    ensures D.Step(build, cfg, d, op) == D.Step(build, cfg, d, Normal(op)) && IdsPadded(Normal(op))
  {
    if op.AddApplication? || op.DeleteApplication? || op.SendState? {
      SetIdTwice(op.apid);
    } else if op.AddContext? || op.DeleteContext? || op.SendLevel? || op.Inject? {
      SetIdTwice(op.apid);
      SetIdTwice(op.ctid);
    }
  }

  /** One operation on the sorted arrays does to the maps what the reference does. */
  lemma StepRefines(build: Build, cfg: Config, u: UserList, op: D.Op)
    requires Ordered(u) && Visible(u, op)
    ensures Agrees(Step(build, cfg, u, op), D.Step(build, cfg, Abs(u), op))
  {
    StepNormal(build, cfg, u, op);
    MapStepNormal(build, cfg, Abs(u), op);
    StepRefinesPadded(build, cfg, u, Normal(op));
  }

  /**
   * Every run on sorted arrays, with their range checks, binary searches, appends, sorts and
   * shifts, is a run on two plain maps: same records, same descriptor events, and both arrays
   * strictly sorted throughout. The ids may be arbitrary as long as none is hidden.
   */
  lemma {:induction false} RunRefines(build: Build, cfg: Config, u: UserList, ops: seq<D.Op>)
    requires Ordered(u) && VisibleRun(build, cfg, u, ops)
    ensures Agrees(Run(build, cfg, u, ops), D.Run(build, cfg, Abs(u), ops))
    decreases |ops|
  {
    if |ops| > 0 {
      StepRefines(build, cfg, u, ops[0]);
      RunRefines(build, cfg, Step(build, cfg, u, ops[0]).users, ops[1..]);
    }
  }

  /** After any run, looking an id up gives exactly the map's answer. */
  lemma LookupAfterRun(build: Build, cfg: Config, u: UserList, ops: seq<D.Op>, apid: Id, ctid: Id)
    requires Ordered(u) && VisibleRun(build, cfg, u, ops)
    requires Padded(apid) && Padded(ctid) && apid[0] != 0 && ctid[0] != 0
    ensures var v, m := Run(build, cfg, u, ops).users, D.Run(build, cfg, Abs(u), ops).dir;
            var p, q := FindApp(v.apps, apid), FindCtx(v.ctxs, apid, ctid);
            && (p >= 0 <==> apid in m.apps) && (p >= 0 ==> v.apps[p] == m.apps[apid])
            && (q >= 0 <==> apid + ctid in m.ctxs) && (q >= 0 ==> v.ctxs[q] == m.ctxs[apid + ctid])
  {
    RunRefines(build, cfg, u, ops);
    var v := Run(build, cfg, u, ops).users;
    FindAppPadded(v, apid);
    FindCtxPadded(v, apid, ctid);
    MapLookup(v.apps, AppKey, apid);
    MapLookup(v.ctxs, CtxKey, apid + ctid);
  }

  const NoUsers := UserList([], [])

  /**
   * Everything the daemon relies on, after every legal run from an empty registry: sorted
   * arrays, unshared descriptors, exact counters that sum to the number of contexts.
   */
  lemma RegistryInvariants(build: Build, cfg: Config, ops: seq<D.Op>)
    requires VisibleRun(build, cfg, NoUsers, ops)
    requires H.LegalRun(build, cfg, D.Empty, ops) && C.OrderedRun(build, cfg, D.Empty, ops)
    ensures var v := Run(build, cfg, NoUsers, ops).users;
            && Ordered(v) && H.HandlesOk(Abs(v)) && C.CountsOk(Abs(v))
            && OffsetBase(v.apps, |v.apps|) == |v.ctxs|
  {
    var v := Run(build, cfg, NoUsers, ops).users;
    assert Abs(NoUsers) == D.Empty;
    RunRefines(build, cfg, NoUsers, ops);
    H.RunKeepsHandles(build, cfg, D.Empty, ops);
    C.RunKeepsCounts(build, cfg, D.Empty, ops);
    CountersSumToTotal(v);
  }

  // ------------------------------------------------------------------- broadcast

  /** The iterations of the broadcast from index p on, as operations. */
  function BroadcastOps(ctxs: seq<Context>, p: nat, enforce: bool, cap: int, level: int,
                        outcomes: nat -> Outcome): (ops: seq<D.Op>)
    requires p <= |ctxs|
    ensures |ops| == |ctxs| - p
    ensures forall i :: 0 <= i < |ops| ==> ops[i].UpdateLevel? && IdsPadded(ops[i])
    decreases |ctxs| - p
  {
    if p == |ctxs| then []
    else [D.UpdateLevel(CtxKey(ctxs[p]), enforce, cap, level, outcomes(p))]
         + BroadcastOps(ctxs, p + 1, enforce, cap, level, outcomes)
  }

  lemma {:induction false} BroadcastOpsByKeys(c1: seq<Context>, c2: seq<Context>, p: nat, enforce: bool,
                                              cap: int, level: int, outcomes: nat -> Outcome)
    requires p <= |c1| == |c2| && forall i :: 0 <= i < |c1| ==> CtxKey(c1[i]) == CtxKey(c2[i])
    ensures BroadcastOps(c1, p, enforce, cap, level, outcomes) == BroadcastOps(c2, p, enforce, cap, level, outcomes)
    decreases |c1| - p
  {
    if p < |c1| { BroadcastOpsByKeys(c1, c2, p + 1, enforce, cap, level, outcomes); }
  }

  lemma UpdateKeepsKeys(cfg: Config, u: UserList, p: nat, enforce: bool, cap: int, level: int, outcome: Outcome)
    requires p < |u.ctxs|
    ensures var v := UpdateAt(cfg, u, p, enforce, cap, level, outcome).users;
            |v.ctxs| == |u.ctxs| && forall i :: 0 <= i < |u.ctxs| ==> CtxKey(v.ctxs[i]) == CtxKey(u.ctxs[i])
  {
  }

  lemma RunCons(build: Build, cfg: Config, u: UserList, op: D.Op, ops: seq<D.Op>)
    ensures var r1 := Step(build, cfg, u, op);
            var r2 := Run(build, cfg, r1.users, ops);
            Run(build, cfg, u, [op] + ops) == Change(r2.users, r1.events + r2.events)
  {
    assert ([op] + ops)[1..] == ops;
  }

  lemma UpdateStep(build: Build, cfg: Config, u: UserList, p: nat, enforce: bool, cap: int, level: int, outcome: Outcome)
    requires Ordered(u) && p < |u.ctxs|
    ensures Step(build, cfg, u, D.UpdateLevel(CtxKey(u.ctxs[p]), enforce, cap, level, outcome))
            == UpdateAt(cfg, u, p, enforce, cap, level, outcome)
    ensures Ordered(UpdateAt(cfg, u, p, enforce, cap, level, outcome).users)
  {
    UpdateRefines(cfg, u, p, enforce, cap, level, outcome);
    PositionUnique(u.ctxs, CtxKey, p);
  }

  lemma BroadcastRest(cfg: Config, u: UserList, p: nat, enforce: bool, cap: int, level: int, outcomes: nat -> Outcome)
    requires p < |u.ctxs|
    ensures BroadcastOps(UpdateAt(cfg, u, p, enforce, cap, level, outcomes(p)).users.ctxs, p + 1, enforce, cap, level, outcomes)
            == BroadcastOps(u.ctxs, p + 1, enforce, cap, level, outcomes)
  {
    UpdateKeepsKeys(cfg, u, p, enforce, cap, level, outcomes(p));
    BroadcastOpsByKeys(UpdateAt(cfg, u, p, enforce, cap, level, outcomes(p)).users.ctxs, u.ctxs,
                       p + 1, enforce, cap, level, outcomes);
  }

  /** One iteration in front of a broadcast that is a run. */
  lemma BroadcastCons(build: Build, cfg: Config, u: UserList, p: nat, enforce: bool, cap: int, level: int,
                      outcomes: nat -> Outcome, r: Change, ops: seq<D.Op>)
    requires p < |u.ctxs| && r == UpdateAt(cfg, u, p, enforce, cap, level, outcomes(p))
    requires ops == BroadcastOps(u.ctxs, p + 1, enforce, cap, level, outcomes)
    requires r == Step(build, cfg, u, D.UpdateLevel(CtxKey(u.ctxs[p]), enforce, cap, level, outcomes(p)))
    requires UpdateFrom(cfg, r.users, p + 1, enforce, cap, level, outcomes) == Run(build, cfg, r.users, ops)
    ensures UpdateFrom(cfg, u, p, enforce, cap, level, outcomes)
            == Run(build, cfg, u, BroadcastOps(u.ctxs, p, enforce, cap, level, outcomes))
  {
    RunCons(build, cfg, u, D.UpdateLevel(CtxKey(u.ctxs[p]), enforce, cap, level, outcomes(p)), ops);
  }

  /** The broadcast loop over the contexts array is a run of its iterations. */
  lemma {:induction false} BroadcastIsRun(build: Build, cfg: Config, u: UserList, p: nat, enforce: bool,
                                          cap: int, level: int, outcomes: nat -> Outcome)
    requires Ordered(u) && p <= |u.ctxs|
    ensures UpdateFrom(cfg, u, p, enforce, cap, level, outcomes)
            == Run(build, cfg, u, BroadcastOps(u.ctxs, p, enforce, cap, level, outcomes))
    decreases |u.ctxs| - p
  {
    if p < |u.ctxs| {
      var r := UpdateAt(cfg, u, p, enforce, cap, level, outcomes(p));
      UpdateStep(build, cfg, u, p, enforce, cap, level, outcomes(p));
      BroadcastRest(cfg, u, p, enforce, cap, level, outcomes);
      BroadcastIsRun(build, cfg, r.users, p + 1, enforce, cap, level, outcomes);
      BroadcastCons(build, cfg, u, p, enforce, cap, level, outcomes, r,
                    BroadcastOps(u.ctxs, p + 1, enforce, cap, level, outcomes));
    }
  }

  /** A run of sends from a registry in order. */
  lemma SendsAvoidDeadDescriptors(build: Build, cfg: Config, u: UserList, ops: seq<D.Op>)
    requires Ordered(u) && H.HandlesOk(Abs(u))
    requires (forall i :: 0 <= i < |ops| ==> H.IsSend(ops[i])) && VisibleRun(build, cfg, u, ops)
    requires H.SafeRun(build, cfg, Abs(u), ops)
    ensures var r := Run(build, cfg, u, ops);
            && H.NoReuse(r.events) && H.DeadReleased(Abs(r.users), r.events) && H.HandlesOk(Abs(r.users))
  {
    RunRefines(build, cfg, u, ops);
    H.DeadDescriptorIsNotUsedAgain(build, cfg, Abs(u), ops);
    SendsAreLegal(build, cfg, Abs(u), ops);
    H.RunKeepsHandles(build, cfg, Abs(u), ops);
  }

  /**
   * In an all-log-level broadcast over the arrays: after a send on a descriptor has met a
   * dead peer no later iteration sends on it, and in the end no application and no context
   * holds it.
   */
  lemma BroadcastAvoidsDeadDescriptors(build: Build, cfg: Config, u: UserList, enforce: bool, cap: int,
                                       level: int, outcomes: nat -> Outcome)
    requires Ordered(u) && H.HandlesOk(Abs(u))
    ensures var r := UpdateFrom(cfg, u, 0, enforce, cap, level, outcomes);
            && H.NoReuse(r.events) && H.DeadReleased(Abs(r.users), r.events) && H.HandlesOk(Abs(r.users))
  {
    BroadcastIsRun(build, cfg, u, 0, enforce, cap, level, outcomes);
    var ops := BroadcastOps(u.ctxs, 0, enforce, cap, level, outcomes);
    PaddedIsVisible(build, cfg, u, ops);
    UpdatesAreSafe(build, cfg, Abs(u), ops);
    SendsAvoidDeadDescriptors(build, cfg, u, ops);
  }

  /** The loops that test the descriptor themselves send only what is safe. */
  lemma {:induction false} UpdatesAreSafe(build: Build, cfg: Config, d: D.Dir, ops: seq<D.Op>)
    requires forall i :: 0 <= i < |ops| ==> ops[i].UpdateLevel? || ops[i].SetLevel?
    ensures H.SafeRun(build, cfg, d, ops)
    decreases |ops|
  {
    if |ops| > 0 { UpdatesAreSafe(build, cfg, D.Step(build, cfg, d, ops[0]).dir, ops[1..]); }
  }

  lemma {:induction false} SendsAreLegal(build: Build, cfg: Config, d: D.Dir, ops: seq<D.Op>)
    requires forall i :: 0 <= i < |ops| ==> H.IsSend(ops[i])
    ensures H.LegalRun(build, cfg, d, ops)
    decreases |ops|
  {
    if |ops| > 0 { SendsAreLegal(build, cfg, D.Step(build, cfg, d, ops[0]).dir, ops[1..]); }
  }
}
