/**
 * The registry of one ECU as dlt_daemon_common.c keeps it: two arrays, searched by range
 * check and binary search, appended to and sorted, shifted on deletion. Array contents are
 * sequences here; the class RegisteredUsers implements each function on real arrays.
 */
module UserLists {
  import opened Order
  import opened Ids
  import opened SortedTable
  import opened TableMaps
  import opened Entities

  datatype UserList = UserList(apps: seq<Application>, ctxs: seq<Context>)

  /** A new list, and what happened to descriptors. */
  datatype Change = Change(users: UserList, events: seq<Event>)

  /** A change together with the position of the entry the C function returns, or -1. */
  datatype Addition = Addition(users: UserList, position: int, events: seq<Event>)

  /** dlt_daemon_application_find: the range check looks at the raw bytes of the id. */
  function FindApp(apps: seq<Application>, raw: Id): (p: int)
    ensures -1 <= p < |apps|
    ensures p >= 0 ==> apps[p].apid == SetId(raw)
  {
    if raw[0] == 0 || |apps| == 0 then -1
    else if Memcmp(raw, apps[0].apid) < 0 || Memcmp(raw, apps[|apps| - 1].apid) > 0 then -1
    else Position(apps, AppKey, SetId(raw))
  }

  /** dlt_daemon_context_find: the range check looks at the raw application id only. */
  function FindCtx(ctxs: seq<Context>, rawApid: Id, rawCtid: Id): (p: int)
    ensures -1 <= p < |ctxs|
    ensures p >= 0 ==> CtxKey(ctxs[p]) == SetId(rawApid) + SetId(rawCtid)
  {
    if rawApid[0] == 0 || rawCtid[0] == 0 || |ctxs| == 0 then -1
    else if Memcmp(rawApid, ctxs[0].apid) < 0 || Memcmp(rawApid, ctxs[|ctxs| - 1].apid) > 0 then -1
    else Position(ctxs, CtxKey, SetId(rawApid) + SetId(rawCtid))
  }

  function InvalidateFd(u: UserList, fd: int): UserList {
    UserList(MapSeq(u.apps, AppReleaser(fd)), MapSeq(u.ctxs, CtxReleaser(fd)))
  }

  function ResetAt(u: UserList, p: nat): (r: Change)
    requires p < |u.apps|
    ensures |r.users.apps| == |u.apps| && |r.users.ctxs| == |u.ctxs|
  {
    var a := u.apps[p];
    if a.userHandle == FD_INIT then Change(u, [])
    else
      Change(
        UserList(u.apps[p := a.(userHandle := FD_INIT, ownsHandle := false)],
                 MapSeq(u.ctxs, CtxReleaser(a.userHandle))),
        if a.ownsHandle then [Closed(a.userHandle)] else [])
  }

  function RebindAt(u: UserList, p: nat, pid: int): (r: Change)
    requires p < |u.apps|
    ensures |r.users.apps| == |u.apps| && |r.users.ctxs| == |u.ctxs|
  {
    if u.apps[p].pid == pid then Change(u, [])
    else
      var r := ResetAt(u, p);
      Change(r.users.(apps := r.users.apps[p := r.users.apps[p].(pid := 0)]), r.events)
  }

  function AttachAt(build: Build, u: UserList, p: nat, pid: int, fd: int, pipe: OpenResult): (r: Change)
    requires p < |u.apps|
    ensures |r.users.apps| == |u.apps| && |r.users.ctxs| == |u.ctxs|
  {
    if u.apps[p].userHandle != FD_INIT || pid == 0 then Change(u, [])
    else
      var q := Acquire(build, fd, pipe);
      var v := InvalidateFd(u, q.handle);
      Change(
        v.(apps := v.apps[p := v.apps[p].(userHandle := q.handle, ownsHandle := q.owned, pid := pid)]),
        q.events)
  }

  function DescribeAt(u: UserList, p: nat, description: Option<seq<Byte>>): (v: UserList)
    requires p < |u.apps|
    ensures |v.apps| == |u.apps| && v.ctxs == u.ctxs
  {
    u.(apps := u.apps[p := u.apps[p].(description := description)])
  }

  /** The body of dlt_daemon_application_add between finding the slot and sorting. */
  function ConfigureAt(build: Build, u: UserList, p: nat, pid: int, description: Option<seq<Byte>>,
                       fd: int, pipe: OpenResult): (r: Change)
    requires p < |u.apps|
    ensures |r.users.apps| == |u.apps| && |r.users.ctxs| == |u.ctxs|
  {
    var r1 := RebindAt(DescribeAt(u, p, description), p, pid);
    var r2 := AttachAt(build, r1.users, p, pid, fd, pipe);
    Change(r2.users, r1.events + r2.events)
  }

  /** The branch of dlt_daemon_application_add for an unknown id, up to the sort. */
  function InsertApp(build: Build, u: UserList, raw: Id, pid: int, description: Option<seq<Byte>>,
                     fd: int, pipe: OpenResult): Change
  {
    var appended := u.(apps := u.apps + [NewApplication(raw)]);
    var r := ConfigureAt(build, appended, |u.apps|, pid, description, fd, pipe);
    Change(r.users.(apps := Sort(r.users.apps, AppKey)), r.events)
  }

  function AddApp(build: Build, u: UserList, raw: Id, pid: int, description: Option<seq<Byte>>,
                  fd: int, pipe: OpenResult): Addition
  {
    if raw[0] == 0 then Addition(u, -1, [])
    else
      var p := FindApp(u.apps, raw);
      if p >= 0 then
        var r := ConfigureAt(build, u, p, pid, description, fd, pipe);
        Addition(r.users, p, r.events)
      else
        var r := InsertApp(build, u, raw, pid, description, fd, pipe);
        Addition(r.users, FindApp(r.users.apps, raw), r.events)
  }

  function DeleteAppAt(u: UserList, p: nat): Change
    requires p < |u.apps|
  {
    var r := ResetAt(u, p);
    Change(r.users.(apps := Without(r.users.apps, p)), r.events)
  }

  function CountAt(u: UserList, p: nat, delta: int): UserList
    requires p < |u.apps|
  {
    u.(apps := u.apps[p := u.apps[p].(numContexts := u.apps[p].numContexts + delta)])
  }

  /** The branch of dlt_daemon_context_add for an unknown pair of ids, up to the sort. */
  function InsertCtx(u: UserList, a: nat, c: Context): UserList
    requires a < |u.apps|
  {
    CountAt(u, a, 1).(ctxs := Sort(u.ctxs + [c], CtxKey))
  }

  function AddCtx(cfg: Config, u: UserList, rawApid: Id, rawCtid: Id, r: Registration): Addition {
    if rawApid[0] == 0 || rawCtid[0] == 0 || !LevelsInRange(r.level, r.trace) then Addition(u, -1, [])
    else
      var a := FindApp(u.apps, rawApid);
      if a < 0 then Addition(u, -1, [])
      else
        var p := FindCtx(u.ctxs, rawApid, rawCtid);
        if p >= 0 then
          Addition(u.(ctxs := u.ctxs[p := Register(cfg, u.ctxs[p], false, r)]), p, [])
        else
          var v := InsertCtx(u, a, Register(cfg, NewContext(rawApid, rawCtid), true, r));
          Addition(v, FindCtx(v.ctxs, rawApid, rawCtid), [])
  }

  function DeleteCtxAt(u: UserList, p: nat): UserList
    requires p < |u.ctxs|
  {
    var a := FindApp(u.apps, u.ctxs[p].apid);
    var v := u.(ctxs := Without(u.ctxs, p));
    if a >= 0 then CountAt(v, a, -1) else v
  }

  function ClearCtxs(u: UserList): UserList {
    UserList(MapSeq(u.apps, (a: Application) => a.(numContexts := 0)), [])
  }

  function SendAt(cfg: Config, u: UserList, p: nat, outcome: Outcome): (r: Change)
    requires p < |u.ctxs|
    ensures |r.users.ctxs| == |u.ctxs| && |r.users.apps| == |u.apps|
  {
    var c := u.ctxs[p];
    if c.userHandle < 0 then Change(u, [])
    else
      var a := FindApp(u.apps, c.apid);
      var r := if outcome.DeadDescriptor? && a >= 0 then ResetAt(u, a) else Change(u, []);
      Change(r.users, [LevelMessage(cfg, c, outcome)] + r.events)
  }

  function SendStateAt(u: UserList, p: nat, outcome: Outcome): Change
    requires p < |u.apps|
  {
    var h := u.apps[p].userHandle;
    if h < 0 then Change(u, [])
    else
      var r := if outcome.DeadDescriptor? then ResetAt(u, p) else Change(u, []);
      Change(r.users, [Sent(h, 0, 0, 0, outcome)] + r.events)
  }

  function UpdateAt(cfg: Config, u: UserList, p: nat, enforce: bool, cap: int, level: int, outcome: Outcome): (r: Change)
    requires p < |u.ctxs|
    ensures |r.users.ctxs| == |u.ctxs|
  {
    if u.ctxs[p].userHandle < FD_MINIMUM then Change(u, [])
    else
      var c := u.ctxs[p].(logLevel := UpdatedLevel(enforce, cap, level));
      SendAt(cfg, u.(ctxs := u.ctxs[p := c]), p, outcome)
  }

  function SetAt(cfg: Config, u: UserList, p: nat, request: LevelRequest, outcome: Outcome): (r: Change)
    requires p < |u.ctxs|
    ensures |r.users.ctxs| == |u.ctxs| && |r.users.apps| == |u.apps|
  {
    var c := u.ctxs[p];
    var u1 := u.(ctxs := u.ctxs[p := Requested(c, request)]);
    if c.userHandle < FD_MINIMUM then Change(if Stays(c, request, outcome) then u1 else u, [])
    else
      var r := SendAt(cfg, u1, p, outcome);
      if Stays(c, request, outcome) then r
      else Change(r.users.(ctxs := r.users.ctxs[p := r.users.ctxs[p].(logLevel := c.logLevel, traceStatus := c.traceStatus)]), r.events)
  }

  function SetStorageAt(u: UserList, p: nat, level: int): UserList
    requires p < |u.ctxs|
  {
    u.(ctxs := u.ctxs[p := u.ctxs[p].(storageLogLevel := level)])
  }

  function InjectAt(u: UserList, p: nat, outcome: Outcome): Change
    requires p < |u.ctxs|
  {
    var c := u.ctxs[p];
    if c.userHandle < 0 then Change(u, [])
    else if outcome.DeadDescriptor? then
      Change(u.(ctxs := u.ctxs[p := c.(userHandle := FD_INIT)]), [Sent(c.userHandle, 0, 0, 0, outcome), Closed(c.userHandle)])
    else Change(u, [Sent(c.userHandle, 0, 0, 0, outcome)])
  }

  /** Levels set for the n contexts from base on, in order. */
  function SetRange(cfg: Config, u: UserList, base: nat, n: nat, request: LevelRequest, outcomes: nat -> Outcome): (r: Change)
    requires base + n <= |u.ctxs|
    ensures |r.users.ctxs| == |u.ctxs| && |r.users.apps| == |u.apps|
    decreases n
  {
    if n == 0 then Change(u, [])
    else
      var r1 := SetAt(cfg, u, base, request, outcomes(base));
      var r2 := SetRange(cfg, r1.users, base + 1, n - 1, request, outcomes);
      Change(r2.users, r1.events + r2.events)
  }

  /** The loop of dlt_daemon_user_send_all_log_level_update, from index p on. */
  function UpdateFrom(cfg: Config, u: UserList, p: nat, enforce: bool, cap: int, level: int,
                      outcomes: nat -> Outcome): Change
    requires p <= |u.ctxs|
    decreases |u.ctxs| - p
  {
    if p == |u.ctxs| then Change(u, [])
    else
      var r1 := UpdateAt(cfg, u, p, enforce, cap, level, outcomes(p));
      var r2 := UpdateFrom(cfg, r1.users, p + 1, enforce, cap, level, outcomes);
      Change(r2.users, r1.events + r2.events)
  }

  /** The number of contexts of the first p applications, as their counters have it. */
  function OffsetBase(apps: seq<Application>, p: nat): int
    requires p <= |apps|
  {
    if p == 0 then 0 else OffsetBase(apps, p - 1) + apps[p - 1].numContexts
  }

  /** Deletes the contexts base + n - 1 down to base. */
  function DeleteCtxRange(u: UserList, base: nat, n: nat): (v: UserList)
    requires base + n <= |u.ctxs|
    ensures |v.apps| == |u.apps|
    decreases n
  {
    if n == 0 then u else DeleteCtxRange(DeleteCtxAt(u, base + n - 1), base, n - 1)
  }

  /** The counters in front of p and at p describe a range inside the contexts array. */
  predicate RangeInBounds(u: UserList, p: nat)
    requires p < |u.apps|
  {
    0 <= OffsetBase(u.apps, p) && 0 <= u.apps[p].numContexts
    && OffsetBase(u.apps, p) + u.apps[p].numContexts <= |u.ctxs|
  }

  /**
   * dlt_daemon_process_user_message_set_app_ll_ts: the levels an application asks for, set for
   * the contexts that the counters say are its own.
   */
  function SetAppLevels(cfg: Config, u: UserList, raw: Id, level: Byte, trace: Byte, outcomes: nat -> Outcome): Change
    requires FindApp(u.apps, raw) >= 0 ==> RangeInBounds(u, FindApp(u.apps, raw))
  {
    var p := FindApp(u.apps, raw);
    if p < 0 then Change(u, [])
    else SetRange(cfg, u, OffsetBase(u.apps, p), u.apps[p].numContexts, FromApplication(level, trace), outcomes)
  }

  /**
   * What unregistering an application does: it computes from the counters where the
   * application's contexts must be, deletes that range, and deletes the application.
   */
  function Unregister(u: UserList, raw: Id): Change
    requires FindApp(u.apps, raw) >= 0 ==> RangeInBounds(u, FindApp(u.apps, raw))
  {
    var p := FindApp(u.apps, raw);
    if p < 0 then Change(u, [])
    else DeleteAppAt(DeleteCtxRange(u, OffsetBase(u.apps, p), u.apps[p].numContexts), p)
  }
}
