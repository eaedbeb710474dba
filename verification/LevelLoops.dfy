/**
 * The two loops that set levels, over the whole contexts array: the broadcast of a level and an
 * application's own level message. What every context ends with, which messages are sent, and
 * how a descriptor that dies on the way changes the rest.
 */
module LevelLoops {
  import opened Order
  import opened Ids
  import opened Entities
  import opened UserLists
  import opened Refinement
  import opened Segments
  import H = Handles
  import C = Counts
  import opened Announcements
  import opened RangeRuns
  import opened LevelMessages

  // ------------------------------------------------------------------- one iteration

  /** The descriptor of context q after an iteration at p. */
  function HandleAfter(v: UserList, p: nat, outcome: Outcome, q: nat): int
    requires p < |v.ctxs| && q < |v.ctxs|
  {
    if v.ctxs[p].userHandle >= 3 && outcome.DeadDescriptor? && v.ctxs[q].userHandle == v.ctxs[p].userHandle then -1
    else v.ctxs[q].userHandle
  }

  /** An iteration at p: a dead descriptor is gone everywhere; levels change at p only. */
  ghost predicate Iterates(v: UserList, p: nat, outcome: Outcome, w: UserList) {
    && p < |v.ctxs| == |w.ctxs|
    && forall q :: 0 <= q < |v.ctxs| ==>
         && w.ctxs[q].userHandle == HandleAfter(v, p, outcome, q)
         && w.ctxs[q].apid == v.ctxs[q].apid && w.ctxs[q].storageLogLevel == v.ctxs[q].storageLogLevel
         && w.ctxs[q].logLevelPos == v.ctxs[q].logLevelPos
         && (q != p ==> SameLevels(w.ctxs[q], v.ctxs[q]))
  }

  /** The context has a descriptor to send on, and no earlier one from base on found it dead. */
  ghost predicate Live(u: UserList, base: nat, i: nat, outcomes: nat -> Outcome)
    requires i < |u.ctxs|
  {
    u.ctxs[i].userHandle >= 3
    && forall j :: base <= j < i && u.ctxs[j].userHandle == u.ctxs[i].userHandle ==> !outcomes(j).DeadDescriptor?
  }

  /** Which contexts are live does not change by an iteration in front of them. */
  lemma LiveAfter(v: UserList, p: nat, w: UserList, i: nat, outcomes: nat -> Outcome)
    requires Iterates(v, p, outcomes(p), w) && p < i < |v.ctxs|
    ensures Live(v, p, i, outcomes) <==> Live(w, p + 1, i, outcomes)
    ensures Live(v, p, i, outcomes) ==> w.ctxs[i].userHandle == v.ctxs[i].userHandle
  {
    if Live(v, p, i, outcomes) {
      forall j | p + 1 <= j < i && w.ctxs[j].userHandle == w.ctxs[i].userHandle ensures !outcomes(j).DeadDescriptor? {
        assert v.ctxs[j].userHandle == v.ctxs[i].userHandle;
      }
    }
    if Live(w, p + 1, i, outcomes) {
      forall j | p <= j < i && v.ctxs[j].userHandle == v.ctxs[i].userHandle ensures !outcomes(j).DeadDescriptor? {
        if j > p { assert w.ctxs[j].userHandle == w.ctxs[i].userHandle; }
      }
    }
  }

  // -------------------------------------------------------------------------- loops

  ghost predicate BodyIterates(body: (UserList, nat) -> Change, inv: UserList -> bool, outcomes: nat -> Outcome, v: UserList, p: nat) {
    inv(v) && p < |v.ctxs| ==> inv(body(v, p).users) && Iterates(v, p, outcomes(p), body(v, p).users)
  }

  /** The registry when the loop comes to context i. */
  ghost predicate AtTurn(u: UserList, base: nat, i: nat, outcomes: nat -> Outcome, v: UserList) {
    && i < |u.ctxs| == |v.ctxs| && SameLevels(v.ctxs[i], u.ctxs[i])
    && (if Live(u, base, i, outcomes) then v.ctxs[i].userHandle == u.ctxs[i].userHandle else v.ctxs[i].userHandle < 3)
  }

  /** What the loop does to context i is done when it comes to it. */
  lemma {:induction false} LoopTurn(body: (UserList, nat) -> Change, inv: UserList -> bool, outcomes: nat -> Outcome,
                                    u: UserList, base: nat, n: nat, i: nat) returns (v: UserList)
    requires inv(u) && base <= i < base + n <= |u.ctxs|
    requires forall x: UserList, p: nat :: BodyIterates(body, inv, outcomes, x, p)
    ensures inv(v) && AtTurn(u, base, i, outcomes, v)
    ensures var w, x := LoopBy(body, u, base, n).users, body(v, i).users;
            |w.ctxs| == |x.ctxs| == |u.ctxs| && SameLevels(w.ctxs[i], x.ctxs[i])
    decreases n
  {
    assert BodyIterates(body, inv, outcomes, u, base);
    var w := body(u, base).users;
    if i == base {
      v := u;
      LoopSpares(body, inv, outcomes, w, base + 1, n - 1, i);
    } else {
      v := LoopTurn(body, inv, outcomes, w, base + 1, n - 1, i);
      LiveAfter(u, base, w, i, outcomes);
    }
  }

  /** Contexts outside the range keep their levels. */
  lemma {:induction false} LoopSpares(body: (UserList, nat) -> Change, inv: UserList -> bool, outcomes: nat -> Outcome,
                                      u: UserList, base: nat, n: nat, i: nat)
    requires inv(u) && base + n <= |u.ctxs| && i < |u.ctxs| && !(base <= i < base + n)
    requires forall x: UserList, p: nat :: BodyIterates(body, inv, outcomes, x, p)
    ensures var w := LoopBy(body, u, base, n).users; |w.ctxs| == |u.ctxs| && SameLevels(w.ctxs[i], u.ctxs[i])
    decreases n
  {
    if n > 0 {
      assert BodyIterates(body, inv, outcomes, u, base);
      LoopSpares(body, inv, outcomes, body(u, base).users, base + 1, n - 1, i);
    }
  }

  // ----------------------------------------------------------------------- messages

  /** The messages among the events. */
  function SentOf(events: seq<Event>): seq<Event> {
    if |events| == 0 then [] else (if events[0].Sent? then [events[0]] else []) + SentOf(events[1..])
  }

  lemma {:induction false} SentOfConcat(a: seq<Event>, b: seq<Event>)
    ensures SentOf(a + b) == SentOf(a) + SentOf(b)
    decreases |a|
  {
    if |a| == 0 {
      assert a + b == b;
    } else {
      var first := if a[0].Sent? then [a[0]] else [];
      var x, y := SentOf(a[1..]), SentOf(b);
      SentOfConcat(a[1..], b);
      assert SentOf(a) == first + x;
      assert SentOf(a + b) == first + (x + y) by { assert (a + b)[0] == a[0] && (a + b)[1..] == a[1..] + b; }
      assert first + (x + y) == first + x + y;
    }
  }

  lemma {:induction false} NothingSent(events: seq<Event>)
    requires forall i :: 0 <= i < |events| ==> events[i].Closed?
    ensures SentOf(events) == []
    decreases |events|
  {
    if |events| > 0 { NothingSent(events[1..]); }
  }

  lemma OneSent(events: seq<Event>, handle: int, outcome: Outcome)
    requires OneMessage(events, handle, outcome)
    ensures SentOf(events) == [events[0]]
  {
    NothingSent(events[1..]);
  }

  /** A message that tells context c about the level, and about the trace status or, without one, its own. */
  ghost predicate Tells(cfg: Config, c: Context, level: int, trace: Option<int>, outcome: Outcome, message: Event) {
    && message.Sent? && message.handle == c.userHandle && message.outcome == outcome
    && Informs(cfg, c, level, if trace.Some? then trace.value else c.traceStatus, message)
  }

  /** The messages are one for each live context from i up to the end of the range, in order. */
  ghost predicate Delivers(cfg: Config, u: UserList, base: nat, i: nat, end: nat, level: int, trace: Option<int>,
                           outcomes: nat -> Outcome, messages: seq<Event>)
    requires i <= end <= |u.ctxs|
    decreases end - i
  {
    if i == end then messages == []
    else if Live(u, base, i, outcomes) then
      && |messages| > 0 && Tells(cfg, u.ctxs[i], level, trace, outcomes(i), messages[0])
      && Delivers(cfg, u, base, i + 1, end, level, trace, outcomes, messages[1..])
    else Delivers(cfg, u, base, i + 1, end, level, trace, outcomes, messages)
  }

  /** An iteration sends one message if its context has a descriptor, and else none. */
  ghost predicate BodyTells(body: (UserList, nat) -> Change, inv: UserList -> bool, cfg: Config, level: int,
                            trace: Option<int>, outcomes: nat -> Outcome, v: UserList, p: nat)
  {
    inv(v) && p < |v.ctxs| ==>
      var messages := SentOf(body(v, p).events);
      if v.ctxs[p].userHandle >= 3 then |messages| == 1 && Tells(cfg, v.ctxs[p], level, trace, outcomes(p), messages[0])
      else messages == []
  }

  lemma {:induction false} DeliversAfter(cfg: Config, v: UserList, p: nat, w: UserList, i: nat, end: nat, level: int,
                                         trace: Option<int>, outcomes: nat -> Outcome, messages: seq<Event>)
    requires Iterates(v, p, outcomes(p), w) && p < i <= end <= |v.ctxs|
    ensures Delivers(cfg, v, p, i, end, level, trace, outcomes, messages) <==> Delivers(cfg, w, p + 1, i, end, level, trace, outcomes, messages)
    decreases end - i
  {
    if i < end {
      LiveAfter(v, p, w, i, outcomes);
      if Live(v, p, i, outcomes) {
        if |messages| > 0 { DeliversAfter(cfg, v, p, w, i + 1, end, level, trace, outcomes, messages[1..]); }
      } else {
        DeliversAfter(cfg, v, p, w, i + 1, end, level, trace, outcomes, messages);
      }
    }
  }

  lemma {:induction false} LoopDelivers(body: (UserList, nat) -> Change, inv: UserList -> bool, cfg: Config, level: int,
                                        trace: Option<int>, outcomes: nat -> Outcome, u: UserList, base: nat, n: nat)
    requires inv(u) && base + n <= |u.ctxs|
    requires forall x: UserList, p: nat :: BodyIterates(body, inv, outcomes, x, p)
    requires forall x: UserList, p: nat :: BodyTells(body, inv, cfg, level, trace, outcomes, x, p)
    ensures Delivers(cfg, u, base, base, base + n, level, trace, outcomes, SentOf(LoopBy(body, u, base, n).events))
    decreases n
  {
    if n > 0 {
      assert BodyIterates(body, inv, outcomes, u, base) && BodyTells(body, inv, cfg, level, trace, outcomes, u, base);
      var r := body(u, base);
      var rest := LoopBy(body, r.users, base + 1, n - 1).events;
      LoopDelivers(body, inv, cfg, level, trace, outcomes, r.users, base + 1, n - 1);
      SentOfConcat(r.events, rest);
      DeliversAfter(cfg, u, base, r.users, base + 1, base + n, level, trace, outcomes, SentOf(rest));
      var all := SentOf(LoopBy(body, u, base, n).events);
      assert all == SentOf(r.events) + SentOf(rest);
      assert Live(u, base, base, outcomes) <==> u.ctxs[base].userHandle >= 3;
      if u.ctxs[base].userHandle >= 3 {
        assert all[0] == SentOf(r.events)[0] && all[1..] == SentOf(rest);
      } else {
        assert all == SentOf(rest);
      }
    }
  }

  // -------------------------------------------------------------------- the two bodies

  ghost predicate Sound(v: UserList) {
    Ordered(v) && H.HandlesOk(Abs(v))
  }

  /** The application that is reset when a send to context p fails holds the descriptor. */
  ghost predicate OwnerFound(apps: seq<Application>, c: Context) {
    var a := FindApp(apps, c.apid);
    a >= 0 && apps[a].userHandle == c.userHandle
  }

  lemma FindsOwner(v: UserList, p: nat)
    requires Sound(v) && p < |v.ctxs| && v.ctxs[p].userHandle >= 3
    ensures OwnerFound(v.apps, v.ctxs[p])
  {
    var c := v.ctxs[p];
    CtxAt(v, p);
    assert H.BorrowedFromOwner(Abs(v), c);
    assert CtxIdsOk(c);
    FindAppPadded(v, c.apid);
    AppAt(v, FindApp(v.apps, c.apid));
  }

  lemma SendIterates(cfg: Config, v: UserList, p: nat, outcome: Outcome)
    requires p < |v.ctxs| && v.ctxs[p].userHandle >= 3 && OwnerFound(v.apps, v.ctxs[p])
    ensures var r := SendAt(cfg, v, p, outcome);
            && Iterates(v, p, outcome, r.users) && SameLevels(r.users.ctxs[p], v.ctxs[p])
            && OneMessage(r.events, v.ctxs[p].userHandle, outcome)
            && Informs(cfg, v.ctxs[p], v.ctxs[p].logLevel, v.ctxs[p].traceStatus, r.events[0])
  {
    var c := v.ctxs[p];
    OctetConverts(Max(c.logLevel, c.storageLogLevel));
    OctetConverts(c.logLevel);
    OctetConverts(cfg.defaultLogLevel);
    OctetConverts(c.traceStatus);
    OctetConverts(cfg.defaultTraceStatus);
  }

  /** Context p with other levels. */
  function WithLevels(v: UserList, p: nat, level: int, trace: int): UserList
    requires p < |v.ctxs|
  {
    v.(ctxs := v.ctxs[p := v.ctxs[p].(logLevel := level, traceStatus := trace)])
  }

  lemma ChangedIterates(v: UserList, p: nat, level: int, trace: int, outcome: Outcome, w: UserList)
    requires p < |v.ctxs| && Iterates(WithLevels(v, p, level, trace), p, outcome, w)
    ensures Iterates(v, p, outcome, w)
  {
    var v1 := WithLevels(v, p, level, trace);
    forall q | 0 <= q < |v.ctxs|
      ensures v1.ctxs[q].userHandle == v.ctxs[q].userHandle && v1.ctxs[q].apid == v.ctxs[q].apid
      ensures v1.ctxs[q].storageLogLevel == v.ctxs[q].storageLogLevel && v1.ctxs[q].logLevelPos == v.ctxs[q].logLevelPos
      ensures q != p ==> v1.ctxs[q] == v.ctxs[q]
    {
    }
  }

  lemma UpdateIterates(cfg: Config, v: UserList, p: nat, enforce: bool, cap: int, level: int, outcome: Outcome)
    requires Sound(v) && p < |v.ctxs|
    ensures Sound(UpdateAt(cfg, v, p, enforce, cap, level, outcome).users)
    ensures Iterates(v, p, outcome, UpdateAt(cfg, v, p, enforce, cap, level, outcome).users)
  {
    UpdateRefines(cfg, v, p, enforce, cap, level, outcome);
    H.UpdateKeeps(cfg, Abs(v), CtxKey(v.ctxs[p]), enforce, cap, level, outcome);
    UpdateExact(cfg, v, p, enforce, cap, level, outcome);
  }

  /** One iteration of the broadcast. */
  lemma UpdateExact(cfg: Config, v: UserList, p: nat, enforce: bool, cap: int, level: int, outcome: Outcome)
    requires Sound(v) && p < |v.ctxs|
    ensures var c, r := v.ctxs[p], UpdateAt(cfg, v, p, enforce, cap, level, outcome);
            var stored := if !enforce || level <= cap then level else cap;
            && Iterates(v, p, outcome, r.users) && r.users.ctxs[p].traceStatus == c.traceStatus
            && r.users.ctxs[p].logLevel == (if c.userHandle >= 3 then stored else c.logLevel)
            && (if c.userHandle >= 3 then
                  OneMessage(r.events, c.userHandle, outcome) && Informs(cfg, c, stored, c.traceStatus, r.events[0])
                else r.events == [])
  {
    var c := v.ctxs[p];
    var stored := if !enforce || level <= cap then level else cap;
    if c.userHandle >= 3 {
      FindsOwner(v, p);
      var v1 := WithLevels(v, p, stored, c.traceStatus);
      assert UpdateAt(cfg, v, p, enforce, cap, level, outcome) == SendAt(cfg, v1, p, outcome);
      SendIterates(cfg, v1, p, outcome);
      ChangedIterates(v, p, stored, c.traceStatus, outcome, SendAt(cfg, v1, p, outcome).users);
    }
  }

  /** One iteration of an application's level message. */
  lemma SetAtExact(cfg: Config, v: UserList, p: nat, request: LevelRequest, outcome: Outcome)
    requires Sound(v) && p < |v.ctxs| && request.FromApplication?
    ensures var c, r := v.ctxs[p], SetAt(cfg, v, p, request, outcome);
            && Iterates(v, p, outcome, r.users) && LevelsAfter(c, request, outcome, r.users.ctxs[p])
            && (if c.userHandle >= 3 then
                  OneMessage(r.events, c.userHandle, outcome)
                  && Informs(cfg, c, Signed(request.level), Signed(request.trace), r.events[0])
                else r.events == [])
  {
    if v.ctxs[p].userHandle >= 3 {
      FindsOwner(v, p);
      SetAndSent(cfg, v, p, request, outcome);
    } else {
      SetWithoutSend(cfg, v, p, request, outcome);
    }
  }

  lemma SetWithoutSend(cfg: Config, v: UserList, p: nat, request: LevelRequest, outcome: Outcome)
    requires p < |v.ctxs| && v.ctxs[p].userHandle < 3 && request.FromApplication?
    ensures SetAt(cfg, v, p, request, outcome) == Change(WithLevels(v, p, Signed(request.level), Signed(request.trace)), [])
  {
  }

  lemma SetAndSent(cfg: Config, v: UserList, p: nat, request: LevelRequest, outcome: Outcome)
    requires p < |v.ctxs| && v.ctxs[p].userHandle >= 3 && OwnerFound(v.apps, v.ctxs[p]) && request.FromApplication?
    ensures var c, r := v.ctxs[p], SetAt(cfg, v, p, request, outcome);
            && Iterates(v, p, outcome, r.users) && LevelsAfter(c, request, outcome, r.users.ctxs[p])
            && OneMessage(r.events, c.userHandle, outcome)
            && Informs(cfg, c, Signed(request.level), Signed(request.trace), r.events[0])
  {
    var c, level, trace := v.ctxs[p], Signed(request.level), Signed(request.trace);
    var v1 := WithLevels(v, p, level, trace);
    var sent := SendAt(cfg, v1, p, outcome);
    SendIterates(cfg, v1, p, outcome);
    ChangedIterates(v, p, level, trace, outcome, sent.users);
    SetIsSend(cfg, v, p, request, outcome, sent);
    RestoredIterates(v, p, outcome, sent.users, c.logLevel, c.traceStatus);
  }

  lemma SetIsSend(cfg: Config, v: UserList, p: nat, request: LevelRequest, outcome: Outcome, sent: Change)
    requires p < |v.ctxs| && v.ctxs[p].userHandle >= 3 && request.FromApplication?
    requires sent == SendAt(cfg, WithLevels(v, p, Signed(request.level), Signed(request.trace)), p, outcome)
    ensures |sent.users.ctxs| == |v.ctxs|
    ensures SetAt(cfg, v, p, request, outcome)
            == if outcome.Delivered? then sent
               else Change(WithLevels(sent.users, p, v.ctxs[p].logLevel, v.ctxs[p].traceStatus), sent.events)
  {
    var c := v.ctxs[p];
    RequestedLevels(c, request);
    var v1 := v.(ctxs := v.ctxs[p := Requested(c, request)]);
    assert v1 == WithLevels(v, p, Signed(request.level), Signed(request.trace));
    assert sent == SendAt(cfg, v1, p, outcome);
  }

  lemma RequestedLevels(c: Context, request: LevelRequest)
    requires request.FromApplication?
    ensures Requested(c, request) == c.(logLevel := Signed(request.level), traceStatus := Signed(request.trace))
  {
  }

  lemma RestoredIterates(v: UserList, p: nat, outcome: Outcome, w: UserList, level: int, trace: int)
    requires Iterates(v, p, outcome, w)
    ensures Iterates(v, p, outcome, WithLevels(w, p, level, trace))
  {
  }

  // ------------------------------------------------------------------- whole messages

  /**
   * The broadcast of a level over the whole registry. A context that has a descriptor of at
   * least 3, which no context before it found dead, ends with the level, or with the cap if
   * that is enforced and lower; every other context keeps its level, and all keep their trace
   * status. The messages are one for each such context, in order, on its descriptor, and
   * announce that level.
   */
  lemma BroadcastExact(cfg: Config, u: UserList, enforce: bool, cap: int, level: int, outcomes: nat -> Outcome)
    requires Ordered(u) && H.HandlesOk(Abs(u))
    ensures var r := UpdateFrom(cfg, u, 0, enforce, cap, level, outcomes);
            var stored := if !enforce || level <= cap then level else cap;
            && |r.users.ctxs| == |u.ctxs|
            && (forall i :: 0 <= i < |u.ctxs| ==>
                  && r.users.ctxs[i].logLevel == (if Live(u, 0, i, outcomes) then stored else u.ctxs[i].logLevel)
                  && r.users.ctxs[i].traceStatus == u.ctxs[i].traceStatus)
            && Delivers(cfg, u, 0, 0, |u.ctxs|, stored, None, outcomes, SentOf(r.events))
  {
    var body, inv := UpdateBody(cfg, enforce, cap, level, outcomes), (v: UserList) => Sound(v);
    var stored := if !enforce || level <= cap then level else cap;
    forall v: UserList, p: nat
      ensures BodyIterates(body, inv, outcomes, v, p) && BodyTells(body, inv, cfg, stored, None, outcomes, v, p)
    {
      if inv(v) && p < |v.ctxs| { UpdateBodyExact(cfg, enforce, cap, level, outcomes, v, p); }
    }
    UpdateIsLoop(cfg, u, 0, enforce, cap, level, outcomes);
    LoopDelivers(body, inv, cfg, stored, None, outcomes, u, 0, |u.ctxs|);
    forall i | 0 <= i < |u.ctxs|
      ensures var w := LoopBy(body, u, 0, |u.ctxs|).users;
              && |w.ctxs| == |u.ctxs| && w.ctxs[i].traceStatus == u.ctxs[i].traceStatus
              && w.ctxs[i].logLevel == (if Live(u, 0, i, outcomes) then stored else u.ctxs[i].logLevel)
    {
      var v := LoopTurn(body, inv, outcomes, u, 0, |u.ctxs|, i);
      UpdateExact(cfg, v, i, enforce, cap, level, outcomes(i));
    }
    if |u.ctxs| == 0 { assert LoopBy(body, u, 0, 0).users == u; }
  }

  lemma UpdateBodyExact(cfg: Config, enforce: bool, cap: int, level: int, outcomes: nat -> Outcome, v: UserList, p: nat)
    requires Sound(v) && p < |v.ctxs|
    ensures var r := UpdateBody(cfg, enforce, cap, level, outcomes)(v, p);
            var stored := if !enforce || level <= cap then level else cap;
            && Sound(r.users) && Iterates(v, p, outcomes(p), r.users)
            && (if v.ctxs[p].userHandle >= 3 then
                  |SentOf(r.events)| == 1 && Tells(cfg, v.ctxs[p], stored, None, outcomes(p), SentOf(r.events)[0])
                else SentOf(r.events) == [])
  {
    UpdateIterates(cfg, v, p, enforce, cap, level, outcomes(p));
    UpdateExact(cfg, v, p, enforce, cap, level, outcomes(p));
    var c, r := v.ctxs[p], UpdateAt(cfg, v, p, enforce, cap, level, outcomes(p));
    if c.userHandle >= 3 { OneSent(r.events, c.userHandle, outcomes(p)); }
  }

  lemma SetBodyExact(cfg: Config, request: LevelRequest, outcomes: nat -> Outcome, v: UserList, p: nat)
    requires Sound(v) && p < |v.ctxs| && request.FromApplication?
    ensures var r := SetBody(cfg, request, outcomes)(v, p);
            && Sound(r.users) && Iterates(v, p, outcomes(p), r.users)
            && (if v.ctxs[p].userHandle >= 3 then
                  |SentOf(r.events)| == 1 && Tells(cfg, v.ctxs[p], Signed(request.level), Some(Signed(request.trace)), outcomes(p), SentOf(r.events)[0])
                else SentOf(r.events) == [])
  {
    assert Sound(SetAt(cfg, v, p, request, outcomes(p)).users) by {
      SetRefines(cfg, v, p, request, outcomes(p));
      H.SetKeeps(cfg, Abs(v), CtxKey(v.ctxs[p]), request, outcomes(p));
    }
    SetAtExact(cfg, v, p, request, outcomes(p));
    var c, r := v.ctxs[p], SetAt(cfg, v, p, request, outcomes(p));
    if c.userHandle >= 3 { OneSent(r.events, c.userHandle, outcomes(p)); }
  }

  /** What context i ends with when an application sets the levels of a range. */
  ghost predicate RangeLevels(u: UserList, w: UserList, base: nat, n: nat, request: LevelRequest, outcomes: nat -> Outcome, i: nat)
    requires i < |u.ctxs| && request.FromApplication?
  {
    && |w.ctxs| == |u.ctxs|
    && if base <= i < base + n && (!Live(u, base, i, outcomes) || outcomes(i).Delivered?)
       then w.ctxs[i].logLevel == Signed(request.level) && w.ctxs[i].traceStatus == Signed(request.trace)
       else w.ctxs[i].logLevel == u.ctxs[i].logLevel && w.ctxs[i].traceStatus == u.ctxs[i].traceStatus
  }

  /** Levels asked for by an application, for a range of contexts. */
  lemma RangeExact(cfg: Config, u: UserList, base: nat, n: nat, request: LevelRequest, outcomes: nat -> Outcome)
    requires Sound(u) && base + n <= |u.ctxs| && request.FromApplication?
    ensures var r := SetRange(cfg, u, base, n, request, outcomes);
            && (forall i :: 0 <= i < |u.ctxs| ==> RangeLevels(u, r.users, base, n, request, outcomes, i))
            && Delivers(cfg, u, base, base, base + n, Signed(request.level), Some(Signed(request.trace)), outcomes, SentOf(r.events))
  {
    var body, inv := SetBody(cfg, request, outcomes), (v: UserList) => Sound(v);
    forall v: UserList, p: nat
      ensures BodyIterates(body, inv, outcomes, v, p) && BodyTells(body, inv, cfg, Signed(request.level), Some(Signed(request.trace)), outcomes, v, p)
    {
      if inv(v) && p < |v.ctxs| { SetBodyExact(cfg, request, outcomes, v, p); }
    }
    SetRangeIsLoop(cfg, u, base, n, request, outcomes);
    LoopDelivers(body, inv, cfg, Signed(request.level), Some(Signed(request.trace)), outcomes, u, base, n);
    forall i | 0 <= i < |u.ctxs|
      ensures RangeLevels(u, LoopBy(body, u, base, n).users, base, n, request, outcomes, i)
    {
      if base <= i < base + n {
        var v := LoopTurn(body, inv, outcomes, u, base, n, i);
        SetAtExact(cfg, v, i, request, outcomes(i));
      } else {
        LoopSpares(body, inv, outcomes, u, base, n, i);
      }
    }
  }

  /** What context i ends with when the application asks for the two levels. */
  ghost predicate OwnLevels(u: UserList, w: UserList, raw: Id, base: nat, level: Byte, trace: Byte, outcomes: nat -> Outcome, i: nat)
    requires i < |u.ctxs|
  {
    && |w.ctxs| == |u.ctxs|
    && if u.ctxs[i].apid == SetId(raw) && (!Live(u, base, i, outcomes) || outcomes(i).Delivered?)
       then w.ctxs[i].logLevel == (if level < 128 then level else level - 256)
            && w.ctxs[i].traceStatus == (if trace < 128 then trace else trace - 256)
       else w.ctxs[i].logLevel == u.ctxs[i].logLevel && w.ctxs[i].traceStatus == u.ctxs[i].traceStatus
  }

  /**
   * An application's level message over the whole registry. Each of its contexts ends with the
   * two octets as levels, less 256 from 128 on, unless it has a descriptor of at least 3, which
   * none of them before it found dead, and its send fails; those, and the contexts of other
   * applications, keep both. The messages are one for each of its contexts with such a
   * descriptor, in order, and announce that level.
   */
  lemma LevelMessageExact(cfg: Config, u: UserList, raw: Id, level: Byte, trace: Byte, outcomes: nat -> Outcome, p: nat)
    requires Ordered(u) && C.CountsOk(Abs(u)) && H.HandlesOk(Abs(u)) && p == FindApp(u.apps, raw)
    ensures RangeInBounds(u, p)
    ensures var r, base := SetAppLevels(cfg, u, raw, level, trace, outcomes), OffsetBase(u.apps, p);
            && (forall i :: 0 <= i < |u.ctxs| ==> OwnLevels(u, r.users, raw, base, level, trace, outcomes, i))
            && Delivers(cfg, u, base, base, base + u.apps[p].numContexts, Signed(level), Some(Signed(trace)), outcomes, SentOf(r.events))
  {
    OffsetsLocateContexts(u, p);
    var base, n, request := OffsetBase(u.apps, p), u.apps[p].numContexts, FromApplication(level, trace);
    var w := SetRange(cfg, u, base, n, request, outcomes).users;
    RangeExact(cfg, u, base, n, request, outcomes);
    forall i | 0 <= i < |u.ctxs| ensures OwnLevels(u, w, raw, base, level, trace, outcomes, i) {
      assert RangeLevels(u, w, base, n, request, outcomes, i);
      assert base <= i < base + n <==> u.ctxs[i].apid == SetId(raw);
    }
  }
}
