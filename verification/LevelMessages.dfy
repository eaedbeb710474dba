/**
 * An application's own level message, in full: it goes through all contexts of the application,
 * and a pipe that breaks on the way changes what happens to the rest. Exactly when the ceiling
 * on log levels survives it.
 */
module LevelMessages {
  import opened Order
  import opened Ids
  import opened Entities
  import opened UserLists
  import opened Refinement
  import opened Segments
  import H = Handles
  import C = Counts
  import L = LogLevels
  import opened RangeRuns

  /**
   * Every send fails, and only the last one because the descriptor is dead: after a dead
   * descriptor the contexts that follow have none, and what is set for them stays.
   */
  predicate TakenBack(u: UserList, base: nat, n: nat, outcomes: nat -> Outcome)
    requires base + n <= |u.ctxs|
  {
    forall i :: base <= i < base + n ==>
      && u.ctxs[i].userHandle >= FD_MINIMUM && !outcomes(i).Delivered?
      && (i + 1 < base + n ==> outcomes(i).OtherError?)
  }

  lemma SetSparesOthers(cfg: Config, u: UserList, p: nat, request: LevelRequest, outcome: Outcome, q: nat)
    requires p < |u.ctxs| && q < |u.ctxs| && q != p
    ensures SetAt(cfg, u, p, request, outcome).users.ctxs[q].logLevel == u.ctxs[q].logLevel
  {
  }

  ghost predicate BodySpares(body: (UserList, nat) -> Change, v: UserList, p: nat, q: nat) {
    p < |v.ctxs| && q < |v.ctxs| && p != q ==>
      var w := body(v, p).users;
      |w.ctxs| == |v.ctxs| && w.ctxs[q].logLevel == v.ctxs[q].logLevel
  }

  lemma {:induction false} LoopSparesBelow(body: (UserList, nat) -> Change, u: UserList, base: nat, n: nat, q: nat)
    requires base + n <= |u.ctxs| && q < base && forall v: UserList, p: nat :: BodySpares(body, v, p, q)
    ensures var w := LoopBy(body, u, base, n).users; |w.ctxs| == |u.ctxs| && w.ctxs[q].logLevel == u.ctxs[q].logLevel
    decreases n
  {
    if n > 0 {
      assert BodySpares(body, u, base, q);
      LoopSparesBelow(body, body(u, base).users, base + 1, n - 1, q);
    }
  }

  lemma RangeSparesBelow(cfg: Config, u: UserList, base: nat, n: nat, request: LevelRequest, outcomes: nat -> Outcome, q: nat)
    requires base + n <= |u.ctxs| && q < base
    ensures SetRange(cfg, u, base, n, request, outcomes).users.ctxs[q].logLevel == u.ctxs[q].logLevel
  {
    var body := SetBody(cfg, request, outcomes);
    forall v: UserList, p: nat ensures BodySpares(body, v, p, q) {
      if p < |v.ctxs| && q < |v.ctxs| && p != q { SetSparesOthers(cfg, v, p, request, outcomes(p), q); }
    }
    SetRangeIsLoop(cfg, u, base, n, request, outcomes);
    LoopSparesBelow(body, u, base, n, q);
  }

  lemma RangeOrdered(cfg: Config, u: UserList, base: nat, n: nat, request: LevelRequest, outcomes: nat -> Outcome)
    requires Ordered(u) && base + n <= |u.ctxs|
    ensures Ordered(SetRange(cfg, u, base, n, request, outcomes).users)
    decreases n
  {
    if n > 0 {
      SetRefines(cfg, u, base, request, outcomes(base));
      RangeOrdered(cfg, SetAt(cfg, u, base, request, outcomes(base)).users, base + 1, n - 1, request, outcomes);
    }
  }

  lemma BreachedAt(cfg: Config, w: UserList, q: nat, s: nat)
    requires Ordered(w) && q < |w.ctxs| && !L.WithinDefault(cfg, w.ctxs[q].logLevel)
    ensures !L.LevelsOk(cfg, Abs(w), s)
  {
    CtxAt(w, q);
  }

  lemma SetStores(cfg: Config, u: UserList, p: nat, request: LevelRequest, outcome: Outcome)
    requires p < |u.ctxs| && Stays(u.ctxs[p], request, outcome)
    ensures SetAt(cfg, u, p, request, outcome).users.ctxs[p].logLevel == AsInt8(request.level)
  {
  }

  lemma RangeGoesOn(cfg: Config, u: UserList, base: nat, n: nat, request: LevelRequest, outcomes: nat -> Outcome, v: UserList)
    requires 0 < n && base + n <= |u.ctxs| && v == SetAt(cfg, u, base, request, outcomes(base)).users
    ensures |v.ctxs| == |u.ctxs|
    ensures SetRange(cfg, u, base, n, request, outcomes).users == SetRange(cfg, v, base + 1, n - 1, request, outcomes).users
  {
  }

  /** A level outside the ceiling that is once set stays set. */
  lemma SetStaysBreached(cfg: Config, u: UserList, base: nat, n: nat, request: LevelRequest, outcomes: nat -> Outcome, s: nat)
    requires Ordered(u) && 0 < n && base + n <= |u.ctxs| && Stays(u.ctxs[base], request, outcomes(base))
    requires !L.WithinDefault(cfg, AsInt8(request.level))
    ensures !L.LevelsOk(cfg, Abs(SetRange(cfg, u, base, n, request, outcomes).users), s)
  {
    var v := SetAt(cfg, u, base, request, outcomes(base)).users;
    SetStores(cfg, u, base, request, outcomes(base));
    SetRefines(cfg, u, base, request, outcomes(base));
    RangeGoesOn(cfg, u, base, n, request, outcomes, v);
    LevelStaysBreached(cfg, v, base, n - 1, request, outcomes, s);
  }

  lemma LevelStaysBreached(cfg: Config, v: UserList, q: nat, n: nat, request: LevelRequest, outcomes: nat -> Outcome, s: nat)
    requires Ordered(v) && q + 1 + n <= |v.ctxs| && !L.WithinDefault(cfg, v.ctxs[q].logLevel)
    ensures !L.LevelsOk(cfg, Abs(SetRange(cfg, v, q + 1, n, request, outcomes).users), s)
  {
    RangeSparesBelow(cfg, v, q + 1, n, request, outcomes, q);
    RangeOrdered(cfg, v, q + 1, n, request, outcomes);
    BreachedAt(cfg, SetRange(cfg, v, q + 1, n, request, outcomes).users, q, s);
  }

  /** A send that fails for another reason than a dead descriptor changes nothing. */
  lemma FailedSetChangesNothing(cfg: Config, u: UserList, p: nat, request: LevelRequest)
    requires p < |u.ctxs| && u.ctxs[p].userHandle >= FD_MINIMUM && request.FromApplication?
    ensures SetAt(cfg, u, p, request, OtherError).users == u
  {
    assert SetAt(cfg, u, p, request, OtherError).users.ctxs == u.ctxs;
  }

  /** After a dead descriptor no context of the application has one to send on. */
  lemma DeadSetDetaches(cfg: Config, u: UserList, p: nat, request: LevelRequest, q: nat)
    requires Ordered(u) && C.CountsOk(Abs(u)) && H.HandlesOk(Abs(u)) && p < |u.ctxs| && q < |u.ctxs| && p != q
    requires u.ctxs[p].userHandle >= FD_MINIMUM && u.ctxs[q].apid == u.ctxs[p].apid
    ensures SetAt(cfg, u, p, request, DeadDescriptor).users.ctxs[q].userHandle < FD_MINIMUM
  {
    var d, c := Abs(u), u.ctxs[p];
    CtxAt(u, p);
    CtxAt(u, q);
    assert H.BorrowedFromOwner(d, c) && H.BorrowedFromOwner(d, u.ctxs[q]);
    assert CtxIdsOk(c);
    FindAppPadded(u, c.apid);
    var a := FindApp(u.apps, c.apid);
    AppAt(u, a);
    var u1 := u.(ctxs := u.ctxs[p := Requested(c, request)]);
    assert ResetAt(u1, a).users.ctxs[q] == ReleaseCtx(u.ctxs[q], c.userHandle);
  }

  /** The last send meets a dead descriptor: the levels are taken back all the same. */
  lemma DeadSetKeepsLevels(cfg: Config, u: UserList, p: nat, request: LevelRequest, s: nat)
    requires Ordered(u) && p < |u.ctxs| && u.ctxs[p].userHandle >= FD_MINIMUM && L.LevelsOk(cfg, Abs(u), s)
    ensures L.LevelsOk(cfg, Abs(SetAt(cfg, u, p, request, DeadDescriptor).users), s)
  {
    CtxAt(u, p);
    SetRefines(cfg, u, p, request, DeadDescriptor);
    L.SetKeepsLevelsIff(cfg, Abs(u), CtxKey(u.ctxs[p]), request, DeadDescriptor, s);
  }

  /** The contexts base up to base + n belong to one application. */
  ghost predicate OneOwner(u: UserList, base: nat, n: nat) {
    base + n <= |u.ctxs| && forall i, j :: base <= i < base + n && base <= j < base + n ==> u.ctxs[i].apid == u.ctxs[j].apid
  }

  lemma DeadSetBreaches(cfg: Config, u: UserList, base: nat, n: nat, request: LevelRequest, outcomes: nat -> Outcome, s: nat)
    requires Ordered(u) && C.CountsOk(Abs(u)) && H.HandlesOk(Abs(u)) && OneOwner(u, base, n) && 1 < n
    requires request.FromApplication? && !L.WithinDefault(cfg, AsInt8(request.level))
    requires u.ctxs[base].userHandle >= FD_MINIMUM && outcomes(base).DeadDescriptor?
    ensures !L.LevelsOk(cfg, Abs(SetRange(cfg, u, base, n, request, outcomes).users), s)
  {
    var v := SetAt(cfg, u, base, request, outcomes(base)).users;
    assert |v.ctxs| == |u.ctxs| && v.ctxs[base + 1].userHandle < FD_MINIMUM by {
      DeadSetDetaches(cfg, u, base, request, base + 1);
    }
    assert Ordered(v) by { SetRefines(cfg, u, base, request, outcomes(base)); }
    RangeGoesOn(cfg, u, base, n, request, outcomes, v);
    DetachedBreaches(cfg, v, base + 1, n - 1, request, outcomes, s);
  }

  /** What is set for a context without a descriptor stays. */
  lemma DetachedBreaches(cfg: Config, u: UserList, base: nat, n: nat, request: LevelRequest, outcomes: nat -> Outcome, s: nat)
    requires Ordered(u) && 0 < n && base + n <= |u.ctxs| && u.ctxs[base].userHandle < FD_MINIMUM
    requires request.FromApplication? && !L.WithinDefault(cfg, AsInt8(request.level))
    ensures !L.LevelsOk(cfg, Abs(SetRange(cfg, u, base, n, request, outcomes).users), s)
  {
    SetStaysBreached(cfg, u, base, n, request, outcomes, s);
  }

  /** A level outside the ceiling does no harm exactly if it is taken back everywhere. */
  lemma {:induction false} RangeKeepsCeilingIff(cfg: Config, u: UserList, base: nat, n: nat, request: LevelRequest,
                                                outcomes: nat -> Outcome, s: nat)
    requires Ordered(u) && C.CountsOk(Abs(u)) && H.HandlesOk(Abs(u)) && OneOwner(u, base, n) && L.LevelsOk(cfg, Abs(u), s)
    requires request.FromApplication? && !L.WithinDefault(cfg, AsInt8(request.level))
    ensures L.LevelsOk(cfg, Abs(SetRange(cfg, u, base, n, request, outcomes).users), s) <==> TakenBack(u, base, n, outcomes)
    decreases n
  {
    if n > 0 {
      var c, outcome := u.ctxs[base], outcomes(base);
      if Stays(c, request, outcome) {
        SetStaysBreached(cfg, u, base, n, request, outcomes, s);
      } else if outcome.OtherError? {
        FailedSetChangesNothing(cfg, u, base, request);
        RangeGoesOn(cfg, u, base, n, request, outcomes, u);
        RangeKeepsCeilingIff(cfg, u, base + 1, n - 1, request, outcomes, s);
      } else if n > 1 {
        DeadSetBreaches(cfg, u, base, n, request, outcomes, s);
      } else {
        DeadSetKeepsLevels(cfg, u, base, request, s);
        RangeGoesOn(cfg, u, base, n, request, outcomes, SetAt(cfg, u, base, request, outcome).users);
      }
    }
  }

  /**
   * An application's level message keeps the ceiling for the whole registry if and only if its
   * level lies within the default, or every one of its contexts has a descriptor and all sends
   * fail, none but the last because the descriptor is dead.
   */
  lemma LevelMessageKeepsCeilingIff(build: Build, cfg: Config, u: UserList, raw: Id, level: Byte, trace: Byte,
                                    outcomes: nat -> Outcome, p: nat, s: nat)
    requires Ordered(u) && C.CountsOk(Abs(u)) && H.HandlesOk(Abs(u)) && p == FindApp(u.apps, raw)
    requires L.Enforcing(cfg) && s < 256 && L.LevelsOk(cfg, Abs(u), s)
    ensures RangeInBounds(u, p)
    ensures L.LevelsOk(cfg, Abs(SetAppLevels(cfg, u, raw, level, trace, outcomes).users), s)
            <==> L.WithinDefault(cfg, AsInt8(level)) || TakenBack(u, OffsetBase(u.apps, p), u.apps[p].numContexts, outcomes)
  {
    OffsetsLocateContexts(u, p);
    if L.WithinDefault(cfg, AsInt8(level)) {
      SetAppLevelsKeepsCeiling(build, cfg, u, raw, level, trace, outcomes, p, s);
    } else {
      RangeKeepsCeilingIff(cfg, u, OffsetBase(u.apps, p), u.apps[p].numContexts, FromApplication(level, trace), outcomes, s);
    }
  }

  // ---------------------------------------------------------------- the broadcast

  function UpdateBody(cfg: Config, enforce: bool, cap: int, level: int, outcomes: nat -> Outcome): (UserList, nat) -> Change {
    (u: UserList, p: nat) => if p < |u.ctxs| then UpdateAt(cfg, u, p, enforce, cap, level, outcomes(p)) else Change(u, [])
  }

  lemma {:induction false} UpdateIsLoop(cfg: Config, u: UserList, p: nat, enforce: bool, cap: int, level: int, outcomes: nat -> Outcome)
    requires p <= |u.ctxs|
    ensures UpdateFrom(cfg, u, p, enforce, cap, level, outcomes)
            == LoopBy(UpdateBody(cfg, enforce, cap, level, outcomes), u, p, |u.ctxs| - p)
    decreases |u.ctxs| - p
  {
    if p < |u.ctxs| {
      var r := UpdateAt(cfg, u, p, enforce, cap, level, outcomes(p));
      assert UpdateBody(cfg, enforce, cap, level, outcomes)(u, p) == r;
      UpdateIsLoop(cfg, r.users, p + 1, enforce, cap, level, outcomes);
    }
  }

  lemma UpdateSparesOthers(cfg: Config, u: UserList, p: nat, enforce: bool, cap: int, level: int, outcome: Outcome, q: nat)
    requires p < |u.ctxs| && q < |u.ctxs| && q != p
    ensures UpdateAt(cfg, u, p, enforce, cap, level, outcome).users.ctxs[q].logLevel == u.ctxs[q].logLevel
  {
  }

  lemma UpdateSparesBelow(cfg: Config, u: UserList, p: nat, enforce: bool, cap: int, level: int, outcomes: nat -> Outcome, q: nat)
    requires q < p <= |u.ctxs|
    ensures var w := UpdateFrom(cfg, u, p, enforce, cap, level, outcomes).users;
            |w.ctxs| == |u.ctxs| && w.ctxs[q].logLevel == u.ctxs[q].logLevel
  {
    var body := UpdateBody(cfg, enforce, cap, level, outcomes);
    forall v: UserList, i: nat ensures BodySpares(body, v, i, q) {
      if i < |v.ctxs| && q < |v.ctxs| && i != q { UpdateSparesOthers(cfg, v, i, enforce, cap, level, outcomes(i), q); }
    }
    UpdateIsLoop(cfg, u, p, enforce, cap, level, outcomes);
    LoopSparesBelow(body, u, p, |u.ctxs| - p, q);
  }

  lemma {:induction false} UpdateOrdered(cfg: Config, u: UserList, p: nat, enforce: bool, cap: int, level: int, outcomes: nat -> Outcome)
    requires Ordered(u) && p <= |u.ctxs|
    ensures Ordered(UpdateFrom(cfg, u, p, enforce, cap, level, outcomes).users)
    decreases |u.ctxs| - p
  {
    if p < |u.ctxs| {
      UpdateRefines(cfg, u, p, enforce, cap, level, outcomes(p));
      UpdateOrdered(cfg, UpdateAt(cfg, u, p, enforce, cap, level, outcomes(p)).users, p + 1, enforce, cap, level, outcomes);
    }
  }

  /** A level that is updated stays updated. */
  lemma UpdateStaysBreached(cfg: Config, u: UserList, p: nat, enforce: bool, cap: int, level: int, outcomes: nat -> Outcome, s: nat)
    requires Ordered(u) && p < |u.ctxs| && u.ctxs[p].userHandle >= FD_MINIMUM
    requires !L.WithinDefault(cfg, UpdatedLevel(enforce, cap, level))
    ensures !L.LevelsOk(cfg, Abs(UpdateFrom(cfg, u, p, enforce, cap, level, outcomes).users), s)
  {
    var v := UpdateAt(cfg, u, p, enforce, cap, level, outcomes(p)).users;
    UpdateGoesOn(cfg, u, p, enforce, cap, level, outcomes, v);
    assert Ordered(v) by { UpdateRefines(cfg, u, p, enforce, cap, level, outcomes(p)); }
    UpdatedStaysBreached(cfg, v, p, enforce, cap, level, outcomes, s);
  }

  lemma UpdateGoesOn(cfg: Config, u: UserList, p: nat, enforce: bool, cap: int, level: int, outcomes: nat -> Outcome, v: UserList)
    requires p < |u.ctxs| && v == UpdateAt(cfg, u, p, enforce, cap, level, outcomes(p)).users
    ensures |v.ctxs| == |u.ctxs|
    ensures u.ctxs[p].userHandle >= FD_MINIMUM ==> v.ctxs[p].logLevel == UpdatedLevel(enforce, cap, level)
    ensures UpdateFrom(cfg, u, p, enforce, cap, level, outcomes).users == UpdateFrom(cfg, v, p + 1, enforce, cap, level, outcomes).users
  {
  }

  lemma UpdatedStaysBreached(cfg: Config, v: UserList, p: nat, enforce: bool, cap: int, level: int, outcomes: nat -> Outcome, s: nat)
    requires Ordered(v) && p < |v.ctxs| && !L.WithinDefault(cfg, v.ctxs[p].logLevel)
    ensures !L.LevelsOk(cfg, Abs(UpdateFrom(cfg, v, p + 1, enforce, cap, level, outcomes).users), s)
  {
    UpdateSparesBelow(cfg, v, p + 1, enforce, cap, level, outcomes, p);
    UpdateOrdered(cfg, v, p + 1, enforce, cap, level, outcomes);
    BreachedAt(cfg, UpdateFrom(cfg, v, p + 1, enforce, cap, level, outcomes).users, p, s);
  }

  /** The broadcast from p on, one context after the other. */
  lemma {:induction false} UpdateKeepsCeilingIff(cfg: Config, u: UserList, p: nat, enforce: bool, cap: int, level: int,
                                                 outcomes: nat -> Outcome, s: nat)
    requires Ordered(u) && p <= |u.ctxs| && L.LevelsOk(cfg, Abs(u), s)
    ensures L.LevelsOk(cfg, Abs(UpdateFrom(cfg, u, p, enforce, cap, level, outcomes).users), s)
            <==> L.WithinDefault(cfg, UpdatedLevel(enforce, cap, level))
                 || forall i :: p <= i < |u.ctxs| ==> u.ctxs[i].userHandle < FD_MINIMUM
    decreases |u.ctxs| - p
  {
    if p < |u.ctxs| {
      var within := L.WithinDefault(cfg, UpdatedLevel(enforce, cap, level));
      if !within && u.ctxs[p].userHandle >= FD_MINIMUM {
        UpdateStaysBreached(cfg, u, p, enforce, cap, level, outcomes, s);
      } else {
        var v := UpdateAt(cfg, u, p, enforce, cap, level, outcomes(p)).users;
        UpdateStepKeeps(cfg, u, p, enforce, cap, level, outcomes(p), s);
        UpdateGoesOn(cfg, u, p, enforce, cap, level, outcomes, v);
        UpdateKeepsCeilingIff(cfg, v, p + 1, enforce, cap, level, outcomes, s);
      }
    }
  }

  lemma UpdateStepKeeps(cfg: Config, u: UserList, p: nat, enforce: bool, cap: int, level: int, outcome: Outcome, s: nat)
    requires Ordered(u) && p < |u.ctxs| && L.LevelsOk(cfg, Abs(u), s)
    requires L.WithinDefault(cfg, UpdatedLevel(enforce, cap, level)) || u.ctxs[p].userHandle < FD_MINIMUM
    ensures var v := UpdateAt(cfg, u, p, enforce, cap, level, outcome).users;
            Ordered(v) && L.LevelsOk(cfg, Abs(v), s) && (u.ctxs[p].userHandle < FD_MINIMUM ==> v == u)
  {
    CtxAt(u, p);
    UpdateRefines(cfg, u, p, enforce, cap, level, outcome);
    L.UpdateKeepsLevelsIff(cfg, Abs(u), CtxKey(u.ctxs[p]), enforce, cap, level, outcome, s);
  }

  /**
   * A broadcast of a level keeps the ceiling for the whole registry if and only if the level
   * that its cap leaves lies within the default, or no context has a descriptor to send on.
   */
  lemma BroadcastKeepsCeilingIff(cfg: Config, u: UserList, enforce: bool, cap: int, level: int, outcomes: nat -> Outcome, s: nat)
    requires Ordered(u) && L.LevelsOk(cfg, Abs(u), s)
    ensures L.LevelsOk(cfg, Abs(UpdateFrom(cfg, u, 0, enforce, cap, level, outcomes).users), s)
            <==> L.WithinDefault(cfg, UpdatedLevel(enforce, cap, level))
                 || forall c :: c in u.ctxs ==> c.userHandle < FD_MINIMUM
  {
    UpdateKeepsCeilingIff(cfg, u, 0, enforce, cap, level, outcomes, s);
    assert forall i :: 0 <= i < |u.ctxs| ==> u.ctxs[i] in u.ctxs;
  }
}
