/**
 * The two messages of an application that go through its range of the contexts array, as runs
 * of single operations: its own level message and its unregistration.
 */
module RangeRuns {
  import opened Order
  import opened Ids
  import opened SortedTable
  import opened TableMaps
  import opened Entities
  import opened UserLists
  import opened Refinement
  import opened Segments
  import D = Directory
  import C = Counts
  import L = LogLevels
  import opened Runs

  // -------------------------------------------------------------- runs of any step

  type Stepper = (UserList, D.Op) -> Change

  function StepOf(build: Build, cfg: Config): Stepper {
    (u: UserList, op: D.Op) => Step(build, cfg, u, op)
  }

  /** A run of an arbitrary step. */
  function RunBy(step: Stepper, u: UserList, ops: seq<D.Op>): Change
    decreases |ops|
  {
    if |ops| == 0 then Change(u, [])
    else
      var r1 := step(u, ops[0]);
      var r2 := RunBy(step, r1.users, ops[1..]);
      Change(r2.users, r1.events + r2.events)
  }

  lemma {:induction false} RunIsRunBy(build: Build, cfg: Config, u: UserList, ops: seq<D.Op>)
    ensures Run(build, cfg, u, ops) == RunBy(StepOf(build, cfg), u, ops)
    decreases |ops|
  {
    if |ops| > 0 { RunIsRunBy(build, cfg, Step(build, cfg, u, ops[0]).users, ops[1..]); }
  }

  lemma RunByCons(step: Stepper, u: UserList, op: D.Op, ops: seq<D.Op>)
    ensures var r1 := step(u, op);
            var r2 := RunBy(step, r1.users, ops);
            RunBy(step, u, [op] + ops) == Change(r2.users, r1.events + r2.events)
  {
    assert ([op] + ops)[1..] == ops;
  }

  // ------------------------------------------------------- loops over the contexts

  /** A loop over the n contexts from base on, with an arbitrary body. */
  function LoopBy(body: (UserList, nat) -> Change, u: UserList, base: nat, n: nat): Change
    decreases n
  {
    if n == 0 then Change(u, [])
    else
      var r1 := body(u, base);
      var r2 := LoopBy(body, r1.users, base + 1, n - 1);
      Change(r2.users, r1.events + r2.events)
  }

  /** One operation for each of the n contexts from base on. */
  function LoopOps(opOf: (Key, nat) -> D.Op, ctxs: seq<Context>, base: nat, n: nat): (ops: seq<D.Op>)
    requires base + n <= |ctxs|
    ensures |ops| == n
    ensures forall i :: 0 <= i < n ==> ops[i] == opOf(CtxKey(ctxs[base + i]), base + i)
    decreases n
  {
    if n == 0 then [] else [opOf(CtxKey(ctxs[base]), base)] + LoopOps(opOf, ctxs, base + 1, n - 1)
  }

  ghost predicate SameKeys(c1: seq<Context>, c2: seq<Context>) {
    |c1| == |c2| && forall i :: 0 <= i < |c1| ==> CtxKey(c1[i]) == CtxKey(c2[i])
  }

  /** The body at p is the step of the operation for the context there. */
  ghost predicate BodySteps(step: Stepper, inv: UserList -> bool, body: (UserList, nat) -> Change, opOf: (Key, nat) -> D.Op,
                            v: UserList, p: nat)
  {
    inv(v) && p < |v.ctxs| ==>
      var r := body(v, p);
      step(v, opOf(CtxKey(v.ctxs[p]), p)) == r && inv(r.users) && SameKeys(v.ctxs, r.users.ctxs)
  }

  lemma LoopOpsByKeys(opOf: (Key, nat) -> D.Op, c1: seq<Context>, c2: seq<Context>, base: nat, n: nat)
    requires base + n <= |c1| && SameKeys(c1, c2)
    ensures LoopOps(opOf, c1, base, n) == LoopOps(opOf, c2, base, n)
  {
  }

  lemma {:induction false} LoopIsRunBy(step: Stepper, inv: UserList -> bool, body: (UserList, nat) -> Change,
                                       opOf: (Key, nat) -> D.Op, u: UserList, base: nat, n: nat)
    requires inv(u) && base + n <= |u.ctxs| && forall v: UserList, p: nat :: BodySteps(step, inv, body, opOf, v, p)
    ensures LoopBy(body, u, base, n) == RunBy(step, u, LoopOps(opOf, u.ctxs, base, n))
    decreases n
  {
    if n > 0 {
      assert BodySteps(step, inv, body, opOf, u, base);
      var r := body(u, base);
      LoopIsRunBy(step, inv, body, opOf, r.users, base + 1, n - 1);
      LoopOpsByKeys(opOf, u.ctxs, r.users.ctxs, base + 1, n - 1);
      RunByCons(step, u, opOf(CtxKey(u.ctxs[base]), base), LoopOps(opOf, u.ctxs, base + 1, n - 1));
    }
  }

  // --------------------------------------------------------------- level messages

  function SetBody(cfg: Config, request: LevelRequest, outcomes: nat -> Outcome): (UserList, nat) -> Change {
    (u: UserList, p: nat) => if p < |u.ctxs| then SetAt(cfg, u, p, request, outcomes(p)) else Change(u, [])
  }

  function SetOp(request: LevelRequest, outcomes: nat -> Outcome): (Key, nat) -> D.Op {
    (k: Key, p: nat) => D.SetLevel(k, request, outcomes(p))
  }

  function SetOps(ctxs: seq<Context>, base: nat, n: nat, request: LevelRequest, outcomes: nat -> Outcome): (ops: seq<D.Op>)
    requires base + n <= |ctxs|
    ensures |ops| == n
    ensures forall i :: 0 <= i < n ==> ops[i] == D.SetLevel(CtxKey(ctxs[base + i]), request, outcomes(base + i))
  {
    LoopOps(SetOp(request, outcomes), ctxs, base, n)
  }

  lemma SetStep(build: Build, cfg: Config, u: UserList, p: nat, request: LevelRequest, outcome: Outcome)
    requires Ordered(u) && p < |u.ctxs|
    ensures Step(build, cfg, u, D.SetLevel(CtxKey(u.ctxs[p]), request, outcome)) == SetAt(cfg, u, p, request, outcome)
    ensures Ordered(SetAt(cfg, u, p, request, outcome).users)
  {
    SetRefines(cfg, u, p, request, outcome);
    PositionUnique(u.ctxs, CtxKey, p);
  }

  lemma SetKeepsKeys(cfg: Config, u: UserList, p: nat, request: LevelRequest, outcome: Outcome)
    requires p < |u.ctxs|
    ensures SameKeys(u.ctxs, SetAt(cfg, u, p, request, outcome).users.ctxs)
  {
    if u.ctxs[p].userHandle >= FD_MINIMUM {
      SendKeepsIds(cfg, u.(ctxs := u.ctxs[p := Requested(u.ctxs[p], request)]), p, outcome);
    }
  }

  lemma {:induction false} SetRangeIsLoop(cfg: Config, u: UserList, base: nat, n: nat, request: LevelRequest, outcomes: nat -> Outcome)
    requires base + n <= |u.ctxs|
    ensures SetRange(cfg, u, base, n, request, outcomes) == LoopBy(SetBody(cfg, request, outcomes), u, base, n)
    decreases n
  {
    if n > 0 {
      var r := SetAt(cfg, u, base, request, outcomes(base));
      assert SetBody(cfg, request, outcomes)(u, base) == r;
      SetRangeIsLoop(cfg, r.users, base + 1, n - 1, request, outcomes);
    }
  }

  /** Setting the levels of a range of contexts is a run. */
  lemma SetRangeIsRun(build: Build, cfg: Config, u: UserList, base: nat, n: nat, request: LevelRequest, outcomes: nat -> Outcome)
    requires Ordered(u) && base + n <= |u.ctxs|
    ensures SetRange(cfg, u, base, n, request, outcomes) == Run(build, cfg, u, SetOps(u.ctxs, base, n, request, outcomes))
  {
    var step, inv := StepOf(build, cfg), (v: UserList) => Ordered(v);
    var body, opOf := SetBody(cfg, request, outcomes), SetOp(request, outcomes);
    forall v: UserList, p: nat
      ensures BodySteps(step, inv, body, opOf, v, p)
    {
      if Ordered(v) && p < |v.ctxs| {
        SetStep(build, cfg, v, p, request, outcomes(p));
        SetKeepsKeys(cfg, v, p, request, outcomes(p));
      }
    }
    SetRangeIsLoop(cfg, u, base, n, request, outcomes);
    LoopIsRunBy(step, inv, body, opOf, u, base, n);
    RunIsRunBy(build, cfg, u, SetOps(u.ctxs, base, n, request, outcomes));
  }

  /** The operations name the contexts of the range and no others. */
  lemma SetOpsNames(ctxs: seq<Context>, base: nat, n: nat, request: LevelRequest, outcomes: nat -> Outcome, i: nat)
    requires StrictlySorted(ctxs, CtxKey) && base + n <= |ctxs| && i < |ctxs|
    ensures base <= i < base + n
            <==> D.SetLevel(CtxKey(ctxs[i]), request, outcomes(i)) in SetOps(ctxs, base, n, request, outcomes)
  {
    var op, ops := D.SetLevel(CtxKey(ctxs[i]), request, outcomes(i)), SetOps(ctxs, base, n, request, outcomes);
    if base <= i < base + n {
      assert ops[i - base] == op;
    } else if op in ops {
      var j :| 0 <= j < n && ops[j] == op;
      DistinctKeys(ctxs, CtxKey, base + j, i);
    }
  }

  /**
   * An application's level message is a run of level changes, each of a context of its own,
   * and none of its contexts is left out.
   */
  lemma SetAppLevelsIsRun(build: Build, cfg: Config, u: UserList, raw: Id, level: Byte, trace: Byte,
                          outcomes: nat -> Outcome, p: nat)
    requires Ordered(u) && C.CountsOk(Abs(u)) && p == FindApp(u.apps, raw)
    ensures RangeInBounds(u, p)
    ensures var ops := SetOps(u.ctxs, OffsetBase(u.apps, p), u.apps[p].numContexts, FromApplication(level, trace), outcomes);
            && SetAppLevels(cfg, u, raw, level, trace, outcomes) == Run(build, cfg, u, ops)
            && forall i :: 0 <= i < |u.ctxs| ==>
                 (u.ctxs[i].apid == u.apps[p].apid
                  <==> D.SetLevel(CtxKey(u.ctxs[i]), FromApplication(level, trace), outcomes(i)) in ops)
  {
    var base, n := OffsetBase(u.apps, p), u.apps[p].numContexts;
    var request := FromApplication(level, trace);
    OffsetsLocateContexts(u, p);
    assert SetAppLevels(cfg, u, raw, level, trace, outcomes) == Run(build, cfg, u, SetOps(u.ctxs, base, n, request, outcomes)) by {
      SetRangeIsRun(build, cfg, u, base, n, request, outcomes);
    }
    forall i | 0 <= i < |u.ctxs|
      ensures u.ctxs[i].apid == u.apps[p].apid
              <==> D.SetLevel(CtxKey(u.ctxs[i]), request, outcomes(i)) in SetOps(u.ctxs, base, n, request, outcomes)
    {
      SetOpsNames(u.ctxs, base, n, request, outcomes, i);
    }
  }

  /** It keeps the ceiling on all contexts if the level asked for lies within the default. */
  lemma SetAppLevelsKeepsCeiling(build: Build, cfg: Config, u: UserList, raw: Id, level: Byte, trace: Byte,
                                 outcomes: nat -> Outcome, p: nat, s: nat)
    requires Ordered(u) && C.CountsOk(Abs(u)) && p == FindApp(u.apps, raw)
    requires L.Enforcing(cfg) && s < 256 && L.LevelsOk(cfg, Abs(u), s) && L.WithinDefault(cfg, AsInt8(level))
    ensures RangeInBounds(u, p)
    ensures var r := SetAppLevels(cfg, u, raw, level, trace, outcomes);
            L.LevelsOk(cfg, Abs(r.users), s) && L.SentBelow(r.events, L.Ceiling(cfg, s))
  {
    OffsetsLocateContexts(u, p);
    SetRangeKeepsCeiling(build, cfg, u, OffsetBase(u.apps, p), u.apps[p].numContexts, FromApplication(level, trace), outcomes, s);
  }

  lemma SetRangeKeepsCeiling(build: Build, cfg: Config, u: UserList, base: nat, n: nat, request: LevelRequest,
                             outcomes: nat -> Outcome, s: nat)
    requires Ordered(u) && base + n <= |u.ctxs|
    requires L.Enforcing(cfg) && s < 256 && L.LevelsOk(cfg, Abs(u), s) && L.WithinDefault(cfg, AsInt8(request.level))
    ensures var r := SetRange(cfg, u, base, n, request, outcomes);
            L.LevelsOk(cfg, Abs(r.users), s) && L.SentBelow(r.events, L.Ceiling(cfg, s))
  {
    var ops := SetOps(u.ctxs, base, n, request, outcomes);
    assert SetRange(cfg, u, base, n, request, outcomes) == Run(build, cfg, u, ops) by {
      SetRangeIsRun(build, cfg, u, base, n, request, outcomes);
    }
    assert Agrees(Run(build, cfg, u, ops), D.Run(build, cfg, Abs(u), ops)) by {
      PaddedIsVisible(build, cfg, u, ops);
      RunRefines(build, cfg, u, ops);
    }
    L.RunKeepsLevels(build, cfg, Abs(u), ops, s);
  }

  // --------------------------------------------------------------- unregistration

  /** The deletions of the contexts base + n - 1 down to base. */
  function DeleteOps(ctxs: seq<Context>, base: nat, n: nat): seq<D.Op>
    requires base + n <= |ctxs|
  {
    if n == 0 then []
    else [D.DeleteContext(ctxs[base + n - 1].apid, ctxs[base + n - 1].ctid)] + DeleteOps(ctxs, base, n - 1)
  }

  lemma {:induction false} DeleteOpsPrefix(c1: seq<Context>, c2: seq<Context>, base: nat, n: nat)
    requires base + n <= |c1| && base + n <= |c2| && c1[..base + n] == c2[..base + n]
    ensures DeleteOps(c1, base, n) == DeleteOps(c2, base, n)
  {
    if n > 0 {
      assert c1[base + n - 1] == c1[..base + n][base + n - 1] && c2[base + n - 1] == c2[..base + n][base + n - 1];
      assert c1[..base + n - 1] == c1[..base + n][..base + n - 1] && c2[..base + n - 1] == c2[..base + n][..base + n - 1];
      DeleteOpsPrefix(c1, c2, base, n - 1);
    }
  }

  lemma DeleteStep(build: Build, cfg: Config, u: UserList, q: nat)
    requires Ordered(u) && q < |u.ctxs|
    ensures Step(build, cfg, u, D.DeleteContext(u.ctxs[q].apid, u.ctxs[q].ctid)) == Change(DeleteCtxAt(u, q), [])
    ensures Ordered(DeleteCtxAt(u, q))
  {
    assert CtxIdsOk(u.ctxs[q]);
    FindCtxPadded(u, u.ctxs[q].apid, u.ctxs[q].ctid);
    PositionUnique(u.ctxs, CtxKey, q);
    DeleteCtxRefines(u, q);
  }

  ghost predicate DeletesBy(step: Stepper) {
    forall v: UserList, q: nat {:trigger DeleteCtxAt(v, q)} :: Ordered(v) && q < |v.ctxs| ==>
      step(v, D.DeleteContext(v.ctxs[q].apid, v.ctxs[q].ctid)) == Change(DeleteCtxAt(v, q), []) && Ordered(DeleteCtxAt(v, q))
  }

  lemma {:induction false} DeleteRangeIsRunBy(step: Stepper, u: UserList, base: nat, n: nat, rest: seq<D.Op>)
    requires DeletesBy(step) && Ordered(u) && base + n <= |u.ctxs|
    ensures RunBy(step, u, DeleteOps(u.ctxs, base, n) + rest) == RunBy(step, DeleteCtxRange(u, base, n), rest)
    decreases n
  {
    if n == 0 {
      assert [] + rest == rest;
    } else {
      var q := base + n - 1;
      var v, tail := DeleteCtxAt(u, q), DeleteOps(u.ctxs, base, n - 1);
      var op := D.DeleteContext(u.ctxs[q].apid, u.ctxs[q].ctid);
      DeleteOpsPrefix(v.ctxs, u.ctxs, base, n - 1);
      DeleteRangeIsRunBy(step, v, base, n - 1, rest);
      assert DeleteOps(u.ctxs, base, n) + rest == [op] + (tail + rest);
      RunByCons(step, u, op, tail + rest);
      assert [] + RunBy(step, v, tail + rest).events == RunBy(step, v, tail + rest).events;
    }
  }

  /** Deleting a range of contexts, with operations behind it, is a run. */
  lemma DeleteRangeIsRun(build: Build, cfg: Config, u: UserList, base: nat, n: nat, rest: seq<D.Op>)
    requires Ordered(u) && base + n <= |u.ctxs|
    ensures Run(build, cfg, u, DeleteOps(u.ctxs, base, n) + rest) == Run(build, cfg, DeleteCtxRange(u, base, n), rest)
  {
    var step := StepOf(build, cfg);
    RunIsRunBy(build, cfg, u, DeleteOps(u.ctxs, base, n) + rest);
    RunIsRunBy(build, cfg, DeleteCtxRange(u, base, n), rest);
    assert DeletesBy(step) by {
      forall v: UserList, q: nat | Ordered(v) && q < |v.ctxs|
        ensures step(v, D.DeleteContext(v.ctxs[q].apid, v.ctxs[q].ctid)) == Change(DeleteCtxAt(v, q), []) && Ordered(DeleteCtxAt(v, q))
      {
        DeleteStep(build, cfg, v, q);
      }
    }
    DeleteRangeIsRunBy(step, u, base, n, rest);
  }

  lemma {:induction false} DeleteRangeKeepsIds(u: UserList, base: nat, n: nat)
    requires base + n <= |u.ctxs|
    ensures var v := DeleteCtxRange(u, base, n);
            forall i :: 0 <= i < |u.apps| ==> AppKey(v.apps[i]) == AppKey(u.apps[i])
    decreases n
  {
    if n > 0 { DeleteRangeKeepsIds(DeleteCtxAt(u, base + n - 1), base, n - 1); }
  }

  lemma {:induction false} DeleteRangeOrdered(u: UserList, base: nat, n: nat)
    requires Ordered(u) && base + n <= |u.ctxs|
    ensures Ordered(DeleteCtxRange(u, base, n))
    decreases n
  {
    if n > 0 {
      DeleteCtxRefines(u, base + n - 1);
      DeleteRangeOrdered(DeleteCtxAt(u, base + n - 1), base, n - 1);
    }
  }

  /** Unregistering an application is the run that deletes its contexts and then itself. */
  lemma UnregisterIsRun(build: Build, cfg: Config, u: UserList, raw: Id, p: nat)
    requires Ordered(u) && p == FindApp(u.apps, raw) && RangeInBounds(u, p)
    ensures var base, n := OffsetBase(u.apps, p), u.apps[p].numContexts;
            Unregister(u, raw)
            == Run(build, cfg, u, DeleteOps(u.ctxs, base, n) + [D.DeleteApplication(u.apps[p].apid)])
  {
    var base, n := OffsetBase(u.apps, p), u.apps[p].numContexts;
    var v, op := DeleteCtxRange(u, base, n), D.DeleteApplication(u.apps[p].apid);
    DeleteRangeIsRun(build, cfg, u, base, n, [op]);
    DeleteRangeOrdered(u, base, n);
    DeleteRangeKeepsIds(u, base, n);
    assert AppIdOk(v.apps[p]);
    FindAppPadded(v, u.apps[p].apid);
    PositionUnique(v.apps, AppKey, p);
    assert [op] == [op] + [];
    RunCons(build, cfg, v, op, []);
  }
}
