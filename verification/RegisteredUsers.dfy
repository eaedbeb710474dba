/**
 * DltDaemonRegisteredUsers: the applications and contexts of one ECU in two growable arrays.
 *
 * Each method does on the arrays what the function of the same name in UserLists computes on
 * their contents; the theorems about runs are about those functions.
 */
module RegisteredUserArrays {
  import opened Order
  import opened Ids
  import opened SortedTable
  import opened TableMaps
  import opened SortedArrays
  import opened Entities
  import opened UserLists
  import opened Refinement
  import opened Segments
  import opened UnpaddedIds
  import C = Counts
  import opened RuntimeText
  import R = RuntimeConfig

  class RegisteredUsers {
    /** Growth steps of the two arrays. */
    const appBlock: nat
    const ctxBlock: nat

    var applications: array?<Application>
    var numApplications: nat
    var contexts: array?<Context>
    var numContexts: nat

    ghost predicate Valid()
      reads this
    {
      && appBlock >= 1 && ctxBlock >= 1
      && (if applications == null then numApplications == 0
          else BlockCapacity(numApplications, appBlock) <= applications.Length && numApplications <= applications.Length)
      && (if contexts == null then numContexts == 0
          else BlockCapacity(numContexts, ctxBlock) <= contexts.Length && numContexts <= contexts.Length)
    }

    ghost function Apps(): seq<Application>
      requires Valid()
      reads this, applications
    {
      if applications == null then [] else applications[..numApplications]
    }

    ghost function Ctxs(): seq<Context>
      requires Valid()
      reads this, contexts
    {
      if contexts == null then [] else contexts[..numContexts]
    }

    ghost function View(): UserList
      requires Valid()
      reads this, applications, contexts
    {
      UserList(Apps(), Ctxs())
    }

    constructor (appBlock: nat, ctxBlock: nat)
      requires appBlock >= 1 && ctxBlock >= 1
      ensures Valid() && View() == UserList([], [])
      ensures this.appBlock == appBlock && this.ctxBlock == ctxBlock
    {
      this.appBlock, this.ctxBlock := appBlock, ctxBlock;
      applications, numApplications := null, 0;
      contexts, numContexts := null, 0;
    }

    method FindApplication(raw: Id) returns (p: int)
      requires Valid() && (StrictlySorted(Apps(), AppKey) || AppOutside(Apps(), raw))
      ensures p == FindApp(Apps(), raw)
    {
      if raw[0] == 0 || numApplications == 0 {
        return -1;
      }
      if Memcmp(raw, applications[0].apid) < 0 || Memcmp(raw, applications[numApplications - 1].apid) > 0 {
        return -1;
      }
      p := BinarySearch(applications, numApplications, AppKey, SetId(raw));
    }

    method FindContext(rawApid: Id, rawCtid: Id) returns (p: int)
      requires Valid() && (StrictlySorted(Ctxs(), CtxKey) || CtxOutside(Ctxs(), rawApid))
      ensures p == FindCtx(Ctxs(), rawApid, rawCtid)
    {
      if rawApid[0] == 0 || rawCtid[0] == 0 || numContexts == 0 {
        return -1;
      }
      if Memcmp(rawApid, contexts[0].apid) < 0 || Memcmp(rawApid, contexts[numContexts - 1].apid) > 0 {
        return -1;
      }
      p := BinarySearch(contexts, numContexts, CtxKey, SetId(rawApid) + SetId(rawCtid));
    }

    /** dlt_daemon_applications_invalidate_fd. */
    method InvalidateApplications(fd: int)
      requires Valid()
      modifies applications
      ensures Valid() && Apps() == MapSeq(old(Apps()), AppReleaser(fd)) && Ctxs() == old(Ctxs())
    {
      for i := 0 to numApplications
        invariant Valid() && Ctxs() == old(Ctxs())
        invariant applications != null ==>
          forall j :: 0 <= j < numApplications ==>
            applications[j] == if j < i then ReleaseApp(old(applications[j]), fd) else old(applications[j])
      {
        if applications[i].userHandle == fd {
          applications[i] := applications[i].(userHandle := FD_INIT);
        }
      }
    }

    /** dlt_daemon_contexts_invalidate_fd. */
    method InvalidateContexts(fd: int)
      requires Valid()
      modifies contexts
      ensures Valid() && Ctxs() == MapSeq(old(Ctxs()), CtxReleaser(fd)) && Apps() == old(Apps())
    {
      for i := 0 to numContexts
        invariant Valid() && Apps() == old(Apps())
        invariant contexts != null ==>
          forall j :: 0 <= j < numContexts ==>
            contexts[j] == if j < i then ReleaseCtx(old(contexts[j]), fd) else old(contexts[j])
      {
        if contexts[i].userHandle == fd {
          contexts[i] := contexts[i].(userHandle := FD_INIT);
        }
      }
    }

    method SetApplication(p: nat, a: Application)
      requires Valid() && p < numApplications
      modifies applications
      ensures Valid() && Apps() == old(Apps())[p := a] && Ctxs() == old(Ctxs())
    {
      applications[p] := a;
    }

    method SetContext(p: nat, c: Context)
      requires Valid() && p < numContexts
      modifies contexts
      ensures Valid() && Ctxs() == old(Ctxs())[p := c] && Apps() == old(Apps())
    {
      contexts[p] := c;
    }

    /** dlt_daemon_application_reset_user_handle. */
    method ResetUserHandle(p: nat) returns (events: seq<Event>)
      requires Valid() && p < numApplications
      modifies applications, contexts
      ensures Valid() && View() == ResetAt(old(View()), p).users && events == ResetAt(old(View()), p).events
    {
      var a := applications[p];
      if a.userHandle == FD_INIT {
        return [];
      }
      InvalidateContexts(a.userHandle);
      events := if a.ownsHandle then [Closed(a.userHandle)] else [];
      SetApplication(p, a.(userHandle := FD_INIT, ownsHandle := false));
    }

    method Rebind(p: nat, pid: int) returns (events: seq<Event>)
      requires Valid() && p < numApplications
      modifies applications, contexts
      ensures Valid() && View() == RebindAt(old(View()), p, pid).users && events == RebindAt(old(View()), p, pid).events
    {
      events := [];
      if applications[p].pid != pid {
        events := ResetUserHandle(p);
        SetApplication(p, applications[p].(pid := 0));
      }
    }

    method Attach(build: Build, p: nat, pid: int, fd: int, pipe: OpenResult) returns (events: seq<Event>)
      requires Valid() && p < numApplications
      modifies applications, contexts
      ensures Valid() && View() == AttachAt(build, old(View()), p, pid, fd, pipe).users
      ensures events == AttachAt(build, old(View()), p, pid, fd, pipe).events
    {
      events := [];
      if applications[p].userHandle == FD_INIT && pid != 0 {
        var q := Acquire(build, fd, pipe);
        InvalidateApplications(q.handle);
        InvalidateContexts(q.handle);
        SetApplication(p, applications[p].(userHandle := q.handle, ownsHandle := q.owned, pid := pid));
        events := q.events;
      }
    }

    method Configure(build: Build, p: nat, pid: int, description: Option<seq<Byte>>, fd: int, pipe: OpenResult)
      returns (events: seq<Event>)
      requires Valid() && p < numApplications
      modifies applications, contexts
      ensures Valid() && View() == ConfigureAt(build, old(View()), p, pid, description, fd, pipe).users
      ensures events == ConfigureAt(build, old(View()), p, pid, description, fd, pipe).events
    {
      SetApplication(p, applications[p].(description := description));
      var e1 := Rebind(p, pid);
      var e2 := Attach(build, p, pid, fd, pipe);
      events := e1 + e2;
    }

    /** Makes room and puts a fresh record behind the last one. */
    method AppendApplication(a: Application)
      requires Valid()
      modifies this, applications
      ensures Valid() && Apps() == old(Apps()) + [a] && Ctxs() == old(Ctxs()) && contexts == old(contexts)
      ensures applications == old(applications) || fresh(applications)
      ensures numApplications == old(numApplications) + 1
    {
      if applications == null {
        BlockCapacityRoom(0, appBlock);
        applications := new Application[appBlock];
      }
      var r := Grow(applications, numApplications + 1, appBlock);
      applications, numApplications := r, numApplications + 1;
      applications[numApplications - 1] := a;
      assert applications[..numApplications] == r[..numApplications - 1] + [a];
    }

    method AppendContext(c: Context)
      requires Valid()
      modifies this, contexts
      ensures Valid() && Ctxs() == old(Ctxs()) + [c] && Apps() == old(Apps()) && applications == old(applications)
      ensures contexts == old(contexts) || fresh(contexts)
      ensures numContexts == old(numContexts) + 1
    {
      if contexts == null {
        BlockCapacityRoom(0, ctxBlock);
        contexts := new Context[ctxBlock];
      }
      var r := Grow(contexts, numContexts + 1, ctxBlock);
      contexts, numContexts := r, numContexts + 1;
      contexts[numContexts - 1] := c;
      assert contexts[..numContexts] == r[..numContexts - 1] + [c];
    }

    method SortApplications()
      requires Valid()
      modifies applications
      ensures Valid() && Apps() == Sort(old(Apps()), AppKey) && Ctxs() == old(Ctxs())
    {
      if applications != null {
        SortPrefix(applications, numApplications, AppKey);
      }
    }

    method SortContexts()
      requires Valid()
      modifies contexts
      ensures Valid() && Ctxs() == Sort(old(Ctxs()), CtxKey) && Apps() == old(Apps())
    {
      if contexts != null {
        SortPrefix(contexts, numContexts, CtxKey);
      }
    }

    method InsertApplication(build: Build, raw: Id, pid: int, description: Option<seq<Byte>>, fd: int, pipe: OpenResult)
      returns (events: seq<Event>)
      requires Valid()
      modifies this, applications, contexts
      ensures Valid()
      ensures var r := InsertApp(build, old(View()), raw, pid, description, fd, pipe);
              View() == r.users && events == r.events
      ensures applications == old(applications) || fresh(applications)
      ensures contexts == old(contexts)
    {
      ghost var appended := View().(apps := Apps() + [NewApplication(raw)]);
      AppendApplication(NewApplication(raw));
      assert View() == appended;
      events := Configure(build, numApplications - 1, pid, description, fd, pipe);
      ghost var r := ConfigureAt(build, appended, |appended.apps| - 1, pid, description, fd, pipe);
      assert View() == r.users && events == r.events;
      SortApplications();
      assert View() == r.users.(apps := Sort(r.users.apps, AppKey));
    }

    /** dlt_daemon_application_add. */
    method AddApplication(build: Build, raw: Id, pid: int, description: Option<seq<Byte>>, fd: int, pipe: OpenResult)
      returns (p: int, events: seq<Event>)
      requires Valid() && Ordered(View())
      modifies this, applications, contexts
      ensures Valid() && (Ordered(View()) <==> !Hidden(old(View()), raw))
      ensures var r := AddApp(build, old(View()), raw, pid, description, fd, pipe);
              View() == r.users && p == r.position && events == r.events
      ensures applications == old(applications) || fresh(applications)
      ensures contexts == old(contexts)
    {
      ghost var u := View();
      ghost var goal := AddApp(build, u, raw, pid, description, fd, pipe);
      assert Ordered(goal.users) <==> !Hidden(u, raw) by {
        AddKeepsOrderIff(build, u, raw, pid, description, fd, pipe);
      }
      if raw[0] == 0 {
        return -1, [];
      }
      p := FindApplication(raw);
      if p >= 0 {
        events := Configure(build, p, pid, description, fd, pipe);
      } else {
        assert StrictlySorted(goal.users.apps, AppKey) || AppOutside(goal.users.apps, raw) by {
          if Hidden(u, raw) { HiddenStaysOutside(build, u, raw, pid, description, fd, pipe); }
        }
        p, events := InsertAndFindApplication(build, raw, pid, description, fd, pipe);
      }
    }

    method InsertAndFindApplication(build: Build, raw: Id, pid: int, description: Option<seq<Byte>>, fd: int, pipe: OpenResult)
      returns (p: int, events: seq<Event>)
      requires Valid()
      requires var apps := InsertApp(build, View(), raw, pid, description, fd, pipe).users.apps;
               StrictlySorted(apps, AppKey) || AppOutside(apps, raw)
      modifies this, applications, contexts
      ensures Valid()
      ensures var r := InsertApp(build, old(View()), raw, pid, description, fd, pipe);
              View() == r.users && events == r.events && p == FindApp(r.users.apps, raw)
      ensures applications == old(applications) || fresh(applications)
      ensures contexts == old(contexts)
    {
      ghost var r := InsertApp(build, View(), raw, pid, description, fd, pipe);
      events := InsertApplication(build, raw, pid, description, fd, pipe);
      assert View() == r.users;
      p := FindApplication(raw);
    }

    /** dlt_daemon_application_del. */
    method DeleteApplication(p: nat) returns (events: seq<Event>)
      requires Valid() && p < numApplications
      modifies this, applications, contexts
      ensures Valid() && View() == DeleteAppAt(old(View()), p).users && events == DeleteAppAt(old(View()), p).events
      ensures applications == old(applications) && contexts == old(contexts)
    {
      events := ResetUserHandle(p);
      ShrinkApplications(p);
    }

    method ShrinkApplications(p: nat)
      requires Valid() && p < numApplications
      modifies this, applications
      ensures Valid() && Apps() == Without(old(Apps()), p) && Ctxs() == old(Ctxs())
      ensures applications == old(applications) && contexts == old(contexts)
    {
      ShiftDown(applications, numApplications, p, Application([0, 0, 0, 0], 0, None, 0, 0, false));
      numApplications := numApplications - 1;
      BlockCapacityStep(numApplications, appBlock);
    }

    method ShrinkContexts(p: nat)
      requires Valid() && p < numContexts
      modifies this, contexts
      ensures Valid() && Ctxs() == Without(old(Ctxs()), p) && Apps() == old(Apps())
      ensures applications == old(applications) && contexts == old(contexts)
      ensures numApplications == old(numApplications) && numContexts == old(numContexts) - 1
    {
      ShiftDown(contexts, numContexts, p, Context([0, 0, 0, 0], [0, 0, 0, 0], 0, 0, 0, 0, None, 0, false));
      numContexts := numContexts - 1;
      BlockCapacityStep(numContexts, ctxBlock);
    }

    method InsertContext(a: nat, c: Context)
      requires Valid() && a < numApplications
      modifies this, applications, contexts
      ensures Valid() && View() == InsertCtx(old(View()), a, c)
      ensures contexts == old(contexts) || fresh(contexts)
      ensures applications == old(applications)
    {
      ghost var u := View();
      SetApplication(a, applications[a].(numContexts := applications[a].numContexts + 1));
      assert View() == CountAt(u, a, 1);
      AppendContext(c);
      SortContexts();
      assert View() == CountAt(u, a, 1).(ctxs := Sort(u.ctxs + [c], CtxKey));
    }

    /** dlt_daemon_context_add on the daemon's own ECU. */
    method AddContext(cfg: Config, rawApid: Id, rawCtid: Id, r: Registration) returns (p: int)
      requires Valid() && Ordered(View())
      modifies this, applications, contexts
      ensures Valid()
      ensures Ordered(View()) <==> !(Reached(old(View()), rawApid, r) && HiddenCtx(old(View()), rawApid, rawCtid))
      ensures var s := AddCtx(cfg, old(View()), rawApid, rawCtid, r); View() == s.users && p == s.position
      ensures contexts == old(contexts) || fresh(contexts)
      ensures applications == old(applications)
    {
      ghost var u := View();
      assert Ordered(AddCtx(cfg, u, rawApid, rawCtid, r).users) <==> !(Reached(u, rawApid, r) && HiddenCtx(u, rawApid, rawCtid)) by {
        AddCtxKeepsOrderIff(cfg, u, rawApid, rawCtid, r);
      }
      if rawApid[0] == 0 || rawCtid[0] == 0 || !LevelsInRange(r.level, r.trace) {
        return -1;
      }
      var a := FindApplication(rawApid);
      if a < 0 {
        return -1;
      }
      p := RegisterContext(cfg, a, rawApid, rawCtid, r);
    }

    /** The part of dlt_daemon_context_add behind the search for the application. */
    method RegisterContext(cfg: Config, a: nat, rawApid: Id, rawCtid: Id, r: Registration) returns (p: int)
      requires Valid() && Ordered(View()) && a == FindApp(Apps(), rawApid)
      requires rawApid[0] != 0 && rawCtid[0] != 0 && LevelsInRange(r.level, r.trace)
      modifies this, applications, contexts
      ensures Valid()
      ensures var s := AddCtx(cfg, old(View()), rawApid, rawCtid, r); View() == s.users && p == s.position
      ensures contexts == old(contexts) || fresh(contexts)
      ensures applications == old(applications)
    {
      ghost var u := View();
      p := FindContext(rawApid, rawCtid);
      if p >= 0 {
        SetContext(p, Register(cfg, contexts[p], false, r));
        assert View() == AddCtx(cfg, u, rawApid, rawCtid, r).users;
      } else {
        var c := Register(cfg, NewContext(rawApid, rawCtid), true, r);
        InsertedIsSearchable(cfg, u, a, rawApid, rawCtid, r);
        p := InsertAndFindContext(a, c, rawApid, rawCtid);
      }
    }

    method InsertAndFindContext(a: nat, c: Context, rawApid: Id, rawCtid: Id) returns (p: int)
      requires Valid() && a < numApplications
      requires var ctxs := InsertCtx(View(), a, c).ctxs; StrictlySorted(ctxs, CtxKey) || CtxOutside(ctxs, rawApid)
      modifies this, applications, contexts
      ensures Valid() && View() == InsertCtx(old(View()), a, c) && p == FindCtx(Ctxs(), rawApid, rawCtid)
      ensures contexts == old(contexts) || fresh(contexts)
      ensures applications == old(applications)
    {
      InsertContext(a, c);
      p := FindContext(rawApid, rawCtid);
    }

    /** dlt_daemon_context_del. */
    method DeleteContext(p: nat)
      requires Valid() && StrictlySorted(Apps(), AppKey) && p < numContexts
      modifies this, applications, contexts
      ensures Valid() && View() == DeleteCtxAt(old(View()), p)
      ensures applications == old(applications) && contexts == old(contexts)
      ensures numApplications == old(numApplications) && numContexts == old(numContexts) - 1
    {
      var a := FindApplication(contexts[p].apid);
      ShrinkContexts(p);
      if a >= 0 {
        SetApplication(a, applications[a].(numContexts := applications[a].numContexts - 1));
      }
    }

    /** dlt_daemon_contexts_clear. */
    method ClearContexts()
      requires Valid()
      modifies this, applications
      ensures Valid() && View() == ClearCtxs(old(View())) && applications == old(applications)
    {
      contexts := null;
      for i := 0 to numApplications
        invariant contexts == null && applications == old(applications) && numApplications == old(numApplications)
        invariant applications != null ==>
          forall j :: 0 <= j < numApplications ==>
            applications[j] == if j < i then old(applications[j]).(numContexts := 0) else old(applications[j])
      {
        applications[i] := applications[i].(numContexts := 0);
      }
      numContexts := 0;
    }

    /** dlt_daemon_applications_clear. */
    method ClearApplications()
      requires Valid()
      modifies this
      ensures Valid() && View() == old(View()).(apps := []) && contexts == old(contexts)
    {
      applications := null;
      numApplications := 0;
    }

    /** dlt_daemon_user_send_log_level; outcome is what the send reports. A negative descriptor is never written to. */
    method SendLogLevel(cfg: Config, p: nat, outcome: Outcome) returns (events: seq<Event>)
      requires Valid() && StrictlySorted(Apps(), AppKey) && p < numContexts
      modifies applications, contexts
      ensures Valid() && View() == SendAt(cfg, old(View()), p, outcome).users
      ensures events == SendAt(cfg, old(View()), p, outcome).events
    {
      var c := contexts[p];
      events := [];
      if c.userHandle >= 0 {
        var e := [];
        if outcome.DeadDescriptor? {
          var a := FindApplication(c.apid);
          if a >= 0 {
            e := ResetUserHandle(a);
          }
        }
        events := [LevelMessage(cfg, c, outcome)] + e;
      }
    }

    /**
     * dlt_daemon_process_user_message_set_app_ll_ts for one context, and dlt_daemon_send_log_level:
     * the levels are stored first and restored when the send fails. Without a descriptor to send
     * on, what a client asks for is taken back and what the application asks for stays.
     */
    method SetLogLevel(cfg: Config, p: nat, request: LevelRequest, outcome: Outcome) returns (events: seq<Event>)
      requires Valid() && Ordered(View()) && p < numContexts
      modifies applications, contexts
      ensures Valid() && Ordered(View()) && View() == SetAt(cfg, old(View()), p, request, outcome).users
      ensures events == SetAt(cfg, old(View()), p, request, outcome).events
    {
      assert Ordered(SetAt(cfg, View(), p, request, outcome).users) by {
        SetRefines(cfg, View(), p, request, outcome);
      }
      var c := contexts[p];
      events := [];
      if c.userHandle >= FD_MINIMUM {
        SetContext(p, Requested(c, request));
        events := SendLogLevel(cfg, p, outcome);
        if !Stays(c, request, outcome) {
          SetContext(p, contexts[p].(logLevel := c.logLevel, traceStatus := c.traceStatus));
        }
      } else if Stays(c, request, outcome) {
        SetContext(p, Requested(c, request));
      }
    }

    /**
     * The send of an injected message: on a pipe error the descriptor is closed and the context
     * forgets it, but the application and its other contexts do not.
     */
    method Inject(p: nat, outcome: Outcome) returns (events: seq<Event>)
      requires Valid() && p < numContexts
      modifies contexts
      ensures Valid() && View() == InjectAt(old(View()), p, outcome).users
      ensures events == InjectAt(old(View()), p, outcome).events
    {
      var c := contexts[p];
      events := [];
      if c.userHandle >= 0 {
        events := [Sent(c.userHandle, 0, 0, 0, outcome)];
        if outcome.DeadDescriptor? {
          events := events + [Closed(c.userHandle)];
          SetContext(p, c.(userHandle := FD_INIT));
        }
      }
    }

    /** The send of the logging state to an application; outcome is what the send reports. */
    method SendState(p: nat, outcome: Outcome) returns (events: seq<Event>)
      requires Valid() && p < numApplications
      modifies applications, contexts
      ensures Valid() && View() == SendStateAt(old(View()), p, outcome).users
      ensures events == SendStateAt(old(View()), p, outcome).events
    {
      var h := applications[p].userHandle;
      events := [];
      if h >= 0 {
        var e := [];
        if outcome.DeadDescriptor? {
          e := ResetUserHandle(p);
        }
        events := [Sent(h, 0, 0, 0, outcome)] + e;
      }
    }

    /** One iteration of the broadcast. */
    method UpdateLogLevel(cfg: Config, p: nat, enforce: bool, cap: int, level: int, outcome: Outcome)
      returns (events: seq<Event>)
      requires Valid() && Ordered(View()) && p < numContexts
      modifies applications, contexts
      ensures Valid() && Ordered(View()) && View() == UpdateAt(cfg, old(View()), p, enforce, cap, level, outcome).users
      ensures events == UpdateAt(cfg, old(View()), p, enforce, cap, level, outcome).events
    {
      UpdateRefines(cfg, View(), p, enforce, cap, level, outcome);
      events := [];
      if contexts[p].userHandle >= FD_MINIMUM {
        SetContext(p, contexts[p].(logLevel := UpdatedLevel(enforce, cap, level)));
        events := SendLogLevel(cfg, p, outcome);
      }
    }

    /** dlt_daemon_user_send_all_log_level_update. */
    method SendAllLogLevelUpdate(cfg: Config, enforce: bool, cap: int, level: int, outcomes: nat -> Outcome)
      returns (events: seq<Event>)
      requires Valid() && Ordered(View())
      modifies applications, contexts
      ensures Valid() && Ordered(View())
      ensures View() == UpdateFrom(cfg, old(View()), 0, enforce, cap, level, outcomes).users
      ensures events == UpdateFrom(cfg, old(View()), 0, enforce, cap, level, outcomes).events
    {
      events := [];
      ghost var before := View();
      for i := 0 to numContexts
        invariant Valid() && Ordered(View())
        invariant BroadcastDone(cfg, before, View(), i, enforce, cap, level, outcomes, events)
      {
        events := UpdateNext(cfg, before, i, enforce, cap, level, outcomes, events);
      }
    }

    method UpdateNext(cfg: Config, ghost before: UserList, i: nat, enforce: bool, cap: int, level: int,
                      outcomes: nat -> Outcome, events: seq<Event>) returns (events': seq<Event>)
      requires Valid() && Ordered(View()) && i < numContexts
      requires BroadcastDone(cfg, before, View(), i, enforce, cap, level, outcomes, events)
      modifies applications, contexts
      ensures Valid() && Ordered(View()) && BroadcastDone(cfg, before, View(), i + 1, enforce, cap, level, outcomes, events')
    {
      ghost var r := UpdateAt(cfg, View(), i, enforce, cap, level, outcomes(i));
      BroadcastStep(cfg, before, View(), i, enforce, cap, level, outcomes, events);
      var e := UpdateLogLevel(cfg, i, enforce, cap, level, outcomes(i));
      assert View() == r.users && e == r.events;
      events' := events + e;
    }

    /** dlt_daemon_contexts_save; file is what the file holds before and r what it holds after. */
    method SaveContexts(file: seq<Byte>) returns (r: seq<Byte>)
      requires Valid()
      ensures r == R.SaveContexts(View(), file)
    {
      if numContexts == 0 {
        return file;
      }
      r := [];
      ghost var all := Ctxs();
      for i := 0 to numContexts
        invariant r == R.ContextLines(all[..i])
      {
        R.LinesNext(all, i);
        r := r + R.ContextLine(contexts[i]);
      }
      assert all[..numContexts] == all;
    }

    /** One line of the file: the context it describes, if it has all five fields. */
    method LoadContextLine(cfg: Config, line: seq<Byte>, level: int, trace: int)
      returns (level': int, trace': int, failed: bool)
      requires Valid() && Ordered(View())
      modifies this, applications, contexts
      ensures Valid() && Ordered(View())
      ensures R.LineResult(R.Loader(View(), level', trace'), failed)
              == R.LoadContextLine(cfg, R.Loader(old(View()), level, trace), line)
      ensures applications == old(applications) && (contexts == old(contexts) || fresh(contexts))
    {
      var f := Fields(CString(line));
      level', trace', failed := level, trace, false;
      if |f| > 2 {
        level' := R.Scanned(f[2], level);
      }
      if |f| > 3 {
        trace' := R.Scanned(f[3], trace);
      }
      if |f| > 4 {
        SetIdIsPadded(f[0]);
        SetIdIsPadded(f[1]);
        var p := AddContext(cfg, SetId(f[0]), SetId(f[1]), Registration(AsInt8(level'), AsInt8(trace'), 0, 0, Some(f[4])));
        failed := p < 0;
      }
    }

    /** dlt_daemon_contexts_load; level and trace are the uninitialised variables of the loader. */
    method LoadContexts(cfg: Config, file: seq<Byte>, level: int, trace: int) returns (ok: bool)
      requires Valid() && Ordered(View())
      modifies this, applications, contexts
      ensures Valid() && Ordered(View())
      ensures R.Loaded(View(), ok) == R.LoadContexts(cfg, R.Loader(old(View()), level, trace), file)
    {
      var ll, ts, rest := level, trace, file;
      ghost var goal := R.LoadContexts(cfg, R.Loader(View(), level, trace), file);
      while |rest| > 0
        invariant Valid() && Ordered(View())
        invariant applications == old(applications) && (contexts == old(contexts) || fresh(contexts))
        invariant goal == R.LoadContexts(cfg, R.Loader(View(), ll, ts), rest)
        decreases |rest|
      {
        var n := LineLength(rest, TEXT_BUFFER_SIZE - 1);
        var failed;
        ll, ts, failed := LoadContextLine(cfg, rest[..n], ll, ts);
        if failed {
          return false;
        }
        rest := rest[n..];
      }
      return true;
    }

    /** The number of contexts of the applications in front of p, from their counters. */
    method OffsetOf(p: nat) returns (base: int)
      requires Valid() && p <= numApplications
      ensures base == OffsetBase(Apps(), p)
    {
      base := 0;
      for i := 0 to p
        invariant base == OffsetBase(Apps(), i)
      {
        base := base + applications[i].numContexts;
      }
    }

    /** Levels set for the n contexts from base on. */
    method SetLevels(cfg: Config, base: nat, n: nat, request: LevelRequest, outcomes: nat -> Outcome) returns (events: seq<Event>)
      requires Valid() && Ordered(View()) && base + n <= numContexts
      modifies applications, contexts
      ensures Valid() && Ordered(View()) && View() == SetRange(cfg, old(View()), base, n, request, outcomes).users
      ensures events == SetRange(cfg, old(View()), base, n, request, outcomes).events
    {
      events := [];
      ghost var before := View();
      for i := 0 to n
        invariant Valid() && Ordered(View())
        invariant SetsDone(cfg, before, View(), base, n, i, request, outcomes, events)
      {
        events := SetNext(cfg, before, base, n, i, request, outcomes, events);
      }
    }

    method SetNext(cfg: Config, ghost before: UserList, base: nat, ghost n: nat, i: nat, request: LevelRequest,
                   outcomes: nat -> Outcome, events: seq<Event>) returns (events': seq<Event>)
      requires Valid() && Ordered(View()) && i < n && SetsDone(cfg, before, View(), base, n, i, request, outcomes, events)
      modifies applications, contexts
      ensures Valid() && Ordered(View()) && SetsDone(cfg, before, View(), base, n, i + 1, request, outcomes, events')
    {
      ghost var r := SetAt(cfg, View(), base + i, request, outcomes(base + i));
      SetsStep(cfg, before, View(), base, n, i, request, outcomes, events);
      var e := SetLogLevel(cfg, base + i, request, outcomes(base + i));
      assert View() == r.users && e == r.events;
      events' := events + e;
    }

    /** dlt_daemon_process_user_message_set_app_ll_ts: the contexts are located by summing counters. */
    method SetApplicationLevels(cfg: Config, raw: Id, level: Byte, trace: Byte, outcomes: nat -> Outcome)
      returns (events: seq<Event>)
      requires Valid() && Ordered(View()) && C.CountsOk(Abs(View()))
      modifies applications, contexts
      ensures Valid() && Ordered(View())
      ensures FindApp(old(Apps()), raw) >= 0 ==> RangeInBounds(old(View()), FindApp(old(Apps()), raw))
      ensures View() == SetAppLevels(cfg, old(View()), raw, level, trace, outcomes).users
      ensures events == SetAppLevels(cfg, old(View()), raw, level, trace, outcomes).events
    {
      events := [];
      var p := FindApplication(raw);
      if p >= 0 {
        OffsetsLocateContexts(View(), p);
        var base := OffsetOf(p);
        events := SetLevels(cfg, base, applications[p].numContexts, FromApplication(level, trace), outcomes);
      }
    }

    /** Deletes count contexts of application p, the last one first. */
    method DeleteContextRange(ghost u: UserList, ghost p: nat, base: nat, count: nat)
      requires Valid() && OwnRange(u, p, base, count) && CutSoFar(u, View(), p, base + count, 0)
      modifies this, applications, contexts
      ensures Valid() && CutSoFar(u, View(), p, base, count)
      ensures applications == old(applications) && contexts == old(contexts)
      ensures numApplications == old(numApplications)
    {
      for n := count downto 0
        invariant Valid() && applications == old(applications) && contexts == old(contexts)
        invariant numApplications == old(numApplications)
        invariant CutSoFar(u, View(), p, base + n, count - n)
      {
        DeleteLastOf(u, p, base, count, n + 1);
      }
    }

    method DeleteLastOf(ghost u: UserList, ghost p: nat, base: nat, ghost count: nat, n: nat)
      requires Valid() && OwnRange(u, p, base, count) && 0 < n <= count
      requires CutSoFar(u, View(), p, base + n, count - n)
      modifies this, applications, contexts
      ensures Valid() && CutSoFar(u, View(), p, base + n - 1, count - n + 1)
      ensures applications == old(applications) && contexts == old(contexts)
      ensures numApplications == old(numApplications)
    {
      LastOfRange(u, p, base, count, n);
      CutBelow(u, View(), p, base + n, count - n);
      DeleteContext(base + n - 1);
    }

    method DeleteContextsOf(p: nat)
      requires Valid() && Ordered(View()) && C.CountsOk(Abs(View())) && p < numApplications
      modifies this, applications, contexts
      ensures Valid() && RangeInBounds(old(View()), p)
      ensures View() == CutRange(old(View()), p, OffsetBase(old(Apps()), p), old(Apps()[p].numContexts))
      ensures applications == old(applications) && contexts == old(contexts)
      ensures numApplications == old(numApplications)
    {
      OffsetsLocateContexts(View(), p);
      var base := OffsetOf(p);
      ghost var u := View();
      RangeIsOwn(u, p, base, applications[p].numContexts);
      CutNothing(u, p, base + applications[p].numContexts);
      DeleteContextRange(u, p, base, applications[p].numContexts);
    }

    /** Unregistering an application: its contexts are located by summing counters. */
    method UnregisterApplication(raw: Id) returns (events: seq<Event>)
      requires Valid() && Ordered(View()) && C.CountsOk(Abs(View()))
      modifies this, applications, contexts
      ensures Valid()
      ensures FindApp(old(Apps()), raw) >= 0 ==> RangeInBounds(old(View()), FindApp(old(Apps()), raw))
      ensures View() == Unregister(old(View()), raw).users && events == Unregister(old(View()), raw).events
    {
      var p := FindApplication(raw);
      if p < 0 {
        return [];
      }
      UnregisterIsCut(View(), raw, p);
      DeleteContextsOf(p);
      events := DeleteApplication(p);
    }
  }

  /** After the insertion the contexts are in order, or the range check keeps the search away from them. */
  lemma InsertedIsSearchable(cfg: Config, u: UserList, a: nat, rawApid: Id, rawCtid: Id, r: Registration)
    requires Ordered(u) && a == FindApp(u.apps, rawApid) && FindCtx(u.ctxs, rawApid, rawCtid) < 0
    requires rawApid[0] != 0 && rawCtid[0] != 0 && LevelsInRange(r.level, r.trace)
    ensures var ctxs := InsertCtx(u, a, Register(cfg, NewContext(rawApid, rawCtid), true, r)).ctxs;
            StrictlySorted(ctxs, CtxKey) || CtxOutside(ctxs, rawApid)
  {
    if HiddenCtx(u, rawApid, rawCtid) {
      HiddenCtxStaysOutside(u, a, rawApid, rawCtid, Register(cfg, NewContext(rawApid, rawCtid), true, r));
    } else {
      AddCtxKeepsOrder(cfg, u, rawApid, rawCtid, r);
    }
  }

  /** Contexts base up to base + n are p's. */
  ghost predicate OwnRange(u: UserList, p: nat, base: nat, n: nat) {
    p < |u.apps| && base + n <= |u.ctxs| && OwnPrefix(u, p, base, n)
  }

  ghost predicate OwnPrefix(u: UserList, p: nat, base: nat, n: nat)
    requires p < |u.apps| && base + n <= |u.ctxs|
  {
    n == 0 || (u.ctxs[base + n - 1].apid == u.apps[p].apid && OwnPrefix(u, p, base, n - 1))
  }

  lemma {:induction false} LastOfRange(u: UserList, p: nat, base: nat, count: nat, n: nat)
    requires OwnRange(u, p, base, count) && 0 < n <= count
    ensures u.ctxs[base + n - 1].apid == u.apps[p].apid
    decreases count
  {
    if n < count { LastOfRange(u, p, base, count - 1, n); }
  }

  lemma {:induction false} RangeIsOwn(u: UserList, p: nat, base: nat, n: nat)
    requires p < |u.apps| && base + n <= |u.ctxs|
    requires forall i :: base <= i < base + n ==> u.ctxs[i].apid == u.apps[p].apid
    ensures OwnRange(u, p, base, n)
    decreases n
  {
    if n > 0 { RangeIsOwn(u, p, base, n - 1); }
  }

  lemma UnregisterIsCut(u: UserList, raw: Id, p: nat)
    requires Ordered(u) && C.CountsOk(Abs(u)) && p == FindApp(u.apps, raw)
    ensures RangeInBounds(u, p)
    ensures Unregister(u, raw) == DeleteAppAt(CutRange(u, p, OffsetBase(u.apps, p), u.apps[p].numContexts), p)
  {
    OwnContextsDeleted(u, p);
  }

  /** The contexts base up to base + n are gone from u, all of them p's. */
  ghost predicate CutSoFar(u: UserList, now: UserList, p: nat, base: nat, n: nat) {
    p < |u.apps| && base + n <= |u.ctxs| && now == CutRange(u, p, base, n) && Ordered(now)
  }

  lemma CutWider(u: UserList, v: UserList, p: nat, base: nat, n: nat)
    requires p < |u.apps| && 0 < base && base + n <= |u.ctxs| && v == CutRange(u, p, base, n)
    ensures CountAt(v.(ctxs := Without(v.ctxs, base - 1)), p, -1) == CutRange(u, p, base - 1, n + 1)
  {
    assert Without(v.ctxs, base - 1) == u.ctxs[..base - 1] + u.ctxs[base + n..];
    assert v.apps[p := Counted(v.apps[p], -1)] == u.apps[p := Counted(u.apps[p], 0 - (n + 1))];
  }

  lemma DeleteKeepsOrdered(v: UserList, q: nat)
    requires Ordered(v) && q < |v.ctxs|
    ensures Ordered(DeleteCtxAt(v, q))
  {
    DeleteCtxRefines(v, q);
  }

  /** Deleting the context below a cut widens the cut. */
  lemma CutBelow(u: UserList, v: UserList, p: nat, base: nat, n: nat)
    requires CutSoFar(u, v, p, base, n) && 0 < base
    requires u.ctxs[base - 1].apid == u.apps[p].apid
    ensures CutSoFar(u, DeleteCtxAt(v, base - 1), p, base - 1, n + 1)
  {
    DeleteKeepsOrdered(v, base - 1);
    OneCounted(v, p, base - 1);
    CutWider(u, v, p, base, n);
  }

  /** The first i iterations, with their events, lead from before to now. */
  ghost predicate BroadcastDone(cfg: Config, before: UserList, now: UserList, i: nat, enforce: bool, cap: int, level: int,
                                outcomes: nat -> Outcome, events: seq<Event>)
  {
    && i <= |now.ctxs|
    && var rest := UpdateFrom(cfg, now, i, enforce, cap, level, outcomes);
       UpdateFrom(cfg, before, 0, enforce, cap, level, outcomes) == Change(rest.users, events + rest.events)
  }

  lemma BroadcastStep(cfg: Config, before: UserList, now: UserList, i: nat, enforce: bool, cap: int, level: int,
                      outcomes: nat -> Outcome, events: seq<Event>)
    requires BroadcastDone(cfg, before, now, i, enforce, cap, level, outcomes, events) && i < |now.ctxs|
    ensures var r := UpdateAt(cfg, now, i, enforce, cap, level, outcomes(i));
            BroadcastDone(cfg, before, r.users, i + 1, enforce, cap, level, outcomes, events + r.events)
  {
    var r := UpdateAt(cfg, now, i, enforce, cap, level, outcomes(i));
    var rest := UpdateFrom(cfg, r.users, i + 1, enforce, cap, level, outcomes);
    assert events + (r.events + rest.events) == (events + r.events) + rest.events;
  }

  /** The first i of n contexts from base on are done and lead, with their events, from before to now. */
  ghost predicate SetsDone(cfg: Config, before: UserList, now: UserList, base: nat, n: nat, i: nat, request: LevelRequest,
                           outcomes: nat -> Outcome, events: seq<Event>)
  {
    && i <= n && base + n <= |now.ctxs| && |before.ctxs| == |now.ctxs|
    && var rest := SetRange(cfg, now, base + i, n - i, request, outcomes);
       SetRange(cfg, before, base, n, request, outcomes) == Change(rest.users, events + rest.events)
  }

  lemma SetsStep(cfg: Config, before: UserList, now: UserList, base: nat, n: nat, i: nat, request: LevelRequest,
                 outcomes: nat -> Outcome, events: seq<Event>)
    requires SetsDone(cfg, before, now, base, n, i, request, outcomes, events) && i < n
    ensures var r := SetAt(cfg, now, base + i, request, outcomes(base + i));
            SetsDone(cfg, before, r.users, base, n, i + 1, request, outcomes, events + r.events)
  {
    var r := SetAt(cfg, now, base + i, request, outcomes(base + i));
    var rest := SetRange(cfg, r.users, base + i + 1, n - i - 1, request, outcomes);
    assert events + (r.events + rest.events) == (events + r.events) + rest.events;
  }
}
