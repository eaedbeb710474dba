/**
 * The version 2 registry on its growable arrays. Each method does on the arrays what the
 * function of DirectoryV2 with its name computes on their contents.
 */
module RegisteredUserArraysV2 {
  import opened Ids
  import opened SortedTable
  import opened SortedArrays
  import opened DirectoryV2
  import E = Entities

  class RegisteredUsersV2 {
    const appBlock: nat
    const ctxBlock: nat

    var applications: array<Application>
    var numApplications: nat
    var contexts: array<Context>
    var numContexts: nat

    ghost predicate Valid()
      reads this
    {
      && appBlock >= 1 && BlockCapacity(numApplications, appBlock) <= applications.Length && numApplications <= applications.Length
      && ctxBlock >= 1 && BlockCapacity(numContexts, ctxBlock) <= contexts.Length && numContexts <= contexts.Length
    }

    ghost function View(): UserList
      requires Valid()
      reads this, applications, contexts
    {
      UserList(applications[..numApplications], contexts[..numContexts])
    }

    constructor (appBlock: nat, ctxBlock: nat)
      requires appBlock >= 1 && ctxBlock >= 1
      ensures Valid() && View() == UserList([], []) && fresh(applications) && fresh(contexts)
    {
      this.appBlock, this.ctxBlock := appBlock, ctxBlock;
      applications, numApplications := new Application[appBlock], 0;
      contexts, numContexts := new Context[ctxBlock], 0;
    }

    /** dlt_daemon_application_find_v2 */
    method FindApplication(apid: IdV2) returns (p: int)
      requires Valid() && Ordered(View())
      ensures p == FindApp(View(), apid)
    {
      if |apid| == 0 {
        return -1;
      }
      p := BinarySearch(applications, numApplications, AppKey, KeyV2(apid));
    }

    /** dlt_daemon_context_find_v2 */
    method FindContext(apid: IdV2, ctid: IdV2) returns (p: int)
      requires Valid() && Ordered(View())
      ensures p == FindCtx(View(), apid, ctid)
    {
      if |apid| == 0 || |ctid| == 0 {
        return -1;
      }
      p := BinarySearch(contexts, numContexts, CtxKey, PairKeyV2(apid, ctid));
    }

    method InsertApplication(a: Application)
      requires Valid()
      modifies this`applications, this`numApplications, applications
      ensures Valid() && View() == old(View()).(apps := Sort(old(View()).apps + [a], AppKey))
      ensures applications == old(applications) || fresh(applications)
    {
      var r := Grow(applications, numApplications + 1, appBlock);
      applications, numApplications := r, numApplications + 1;
      applications[numApplications - 1] := a;
      assert applications[..numApplications] == old(View()).apps + [a];
      SortPrefix(applications, numApplications, AppKey);
    }

    method InsertContext(c: Context)
      requires Valid()
      modifies this`contexts, this`numContexts, contexts
      ensures Valid() && View() == old(View()).(ctxs := Sort(old(View()).ctxs + [c], CtxKey))
      ensures contexts == old(contexts) || fresh(contexts)
    {
      var r := Grow(contexts, numContexts + 1, ctxBlock);
      contexts, numContexts := r, numContexts + 1;
      contexts[numContexts - 1] := c;
      assert contexts[..numContexts] == old(View()).ctxs + [c];
      SortPrefix(contexts, numContexts, CtxKey);
    }

    method Count(p: nat, delta: int)
      requires Valid() && p < numApplications
      modifies applications
      ensures Valid() && View() == CountAt(old(View()), p, delta)
    {
      applications[p] := applications[p].(numContexts := applications[p].numContexts + delta);
    }

    /** dlt_daemon_application_add_v2; the position of the application afterwards, or -1. */
    method AddApplication(apid: IdV2, payload: int) returns (p: int)
      requires Valid() && Ordered(View())
      modifies this`applications, this`numApplications, applications
      ensures Valid() && Ordered(View()) && View() == AddApp(old(View()), apid, payload)
      ensures p == FindApp(View(), apid) && (p >= 0 <==> |apid| > 0)
      ensures applications == old(applications) || fresh(applications)
    {
      AddAppLists(View(), apid, payload);
      FoundAppsListed(AddApp(View(), apid, payload), apid);
      if |apid| == 0 {
        return -1;
      }
      p := FindApplication(apid);
      if p >= 0 {
        applications[p] := applications[p].(payload := payload);
        assert View() == AddApp(old(View()), apid, payload);
      } else {
        InsertApplication(Application(apid, payload, 0));
      }
      p := FindApplication(apid);
    }

    /** dlt_daemon_context_add_v2; the position of the context afterwards, or -1. */
    method AddContext(apid: IdV2, ctid: IdV2, level: int, trace: int, payload: int) returns (p: int)
      requires Valid() && Ordered(View())
      modifies this`contexts, this`numContexts, contexts, applications
      ensures Valid() && Ordered(View()) && View() == AddCtx(old(View()), apid, ctid, level, trace, payload)
      ensures p == if Refused(old(View()), apid, ctid, level, trace) then -1 else FindCtx(View(), apid, ctid)
      ensures contexts == old(contexts) || fresh(contexts)
    {
      assert Ordered(AddCtx(View(), apid, ctid, level, trace, payload)) by {
        AddCtxLists(View(), apid, ctid, level, trace, payload);
      }
      if |ctid| == 0 || !E.LevelsInRange(level, trace) {
        return -1;
      }
      var a := FindApplication(apid);
      if a < 0 {
        return -1;
      }
      p := FindContext(apid, ctid);
      if p >= 0 {
        contexts[p] := contexts[p].(payload := payload);
        assert View() == AddCtx(old(View()), apid, ctid, level, trace, payload);
      } else {
        Count(a, 1);
        InsertContext(Context(apid, ctid, payload));
      }
      p := FindContext(apid, ctid);
    }

    method ShrinkApplications(p: nat)
      requires Valid() && p < numApplications
      modifies this`numApplications, applications
      ensures Valid() && View() == old(View()).(apps := Without(old(View()).apps, p))
    {
      ShiftDown(applications, numApplications, p, Application([], 0, 0));
      numApplications := numApplications - 1;
      BlockCapacityStep(numApplications, appBlock);
    }

    method ShrinkContexts(p: nat)
      requires Valid() && p < numContexts
      modifies this`numContexts, contexts
      ensures Valid() && View() == old(View()).(ctxs := Without(old(View()).ctxs, p))
    {
      ShiftDown(contexts, numContexts, p, Context([], [], 0));
      numContexts := numContexts - 1;
      BlockCapacityStep(numContexts, ctxBlock);
    }

    /** dlt_daemon_application_del_v2 */
    method DeleteApplication(apid: IdV2)
      requires Valid() && Ordered(View())
      modifies this`numApplications, applications
      ensures Valid() && Ordered(View()) && View() == DeleteApp(old(View()), apid)
    {
      assert Ordered(DeleteApp(View(), apid)) by {
        DeleteAppLists(View(), apid);
      }
      var p := FindApplication(apid);
      if p >= 0 {
        ShrinkApplications(p);
      }
    }

    /** dlt_daemon_context_del_v2 */
    method DeleteContext(apid: IdV2, ctid: IdV2)
      requires Valid() && Ordered(View())
      modifies this`numContexts, contexts, applications
      ensures Valid() && Ordered(View()) && View() == DeleteCtx(old(View()), apid, ctid)
    {
      ghost var u := View();
      assert Ordered(DeleteCtx(u, apid, ctid)) by {
        DeleteCtxLists(u, apid, ctid);
      }
      var p := FindContext(apid, ctid);
      if p < 0 {
        return;
      }
      var a := FindApplication(apid);
      ShrinkContexts(p);
      if a >= 0 {
        assert a < numApplications && View().apps == u.apps;
        Count(a, -1);
      }
      assert View() == DeleteCtx(u, apid, ctid);
    }
  }
}
