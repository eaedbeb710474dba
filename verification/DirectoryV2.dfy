/**
 * The registry of one ECU under version 2 ids, as an index: which ids are listed. Records
 * carry their ids, the context counter and a payload that stands for everything else.
 */
module DirectoryV2 {
  import opened Order
  import opened Ids
  import opened SortedTable
  import opened TableMaps
  import E = Entities

  datatype Application = Application(apid: IdV2, payload: int, numContexts: int)

  datatype Context = Context(apid: IdV2, ctid: IdV2, payload: int)

  datatype UserList = UserList(apps: seq<Application>, ctxs: seq<Context>)

  function AppKey(a: Application): Key {
    KeyV2(a.apid)
  }

  function CtxKey(c: Context): Key {
    PairKeyV2(c.apid, c.ctid)
  }

  // ------------------------------------------------------------- operations on lists

  function FindApp(u: UserList, apid: IdV2): int {
    if |apid| == 0 then -1 else Position(u.apps, AppKey, KeyV2(apid))
  }

  function FindCtx(u: UserList, apid: IdV2, ctid: IdV2): int {
    if |apid| == 0 || |ctid| == 0 then -1 else Position(u.ctxs, CtxKey, PairKeyV2(apid, ctid))
  }

  function CountAt(u: UserList, p: nat, delta: int): UserList
    requires p < |u.apps|
  {
    u.(apps := u.apps[p := u.apps[p].(numContexts := u.apps[p].numContexts + delta)])
  }

  /** dlt_daemon_application_add_v2 */
  function AddApp(u: UserList, apid: IdV2, payload: int): UserList {
    var p := FindApp(u, apid);
    if |apid| == 0 then u
    else if p >= 0 then u.(apps := u.apps[p := u.apps[p].(payload := payload)])
    else u.(apps := Sort(u.apps + [Application(apid, payload, 0)], AppKey))
  }

  /** dlt_daemon_application_del_v2 for the application found under the id. */
  function DeleteApp(u: UserList, apid: IdV2): UserList {
    var p := FindApp(u, apid);
    if p < 0 then u else u.(apps := Without(u.apps, p))
  }

  /** No context is added and none is changed. */
  predicate Refused(u: UserList, apid: IdV2, ctid: IdV2, level: int, trace: int) {
    |ctid| == 0 || !E.LevelsInRange(level, trace) || FindApp(u, apid) < 0
  }

  /** dlt_daemon_context_add_v2: levels outside their range are refused first. */
  function AddCtx(u: UserList, apid: IdV2, ctid: IdV2, level: int, trace: int, payload: int): UserList {
    var a, p := FindApp(u, apid), FindCtx(u, apid, ctid);
    if Refused(u, apid, ctid, level, trace) then u
    else if p >= 0 then u.(ctxs := u.ctxs[p := u.ctxs[p].(payload := payload)])
    else CountAt(u, a, 1).(ctxs := Sort(u.ctxs + [Context(apid, ctid, payload)], CtxKey))
  }

  /** dlt_daemon_context_del_v2 for the context found under the ids. */
  function DeleteCtx(u: UserList, apid: IdV2, ctid: IdV2): UserList {
    var a, p := FindApp(u, apid), FindCtx(u, apid, ctid);
    if p < 0 then u
    else (if a < 0 then u else CountAt(u, a, -1)).(ctxs := Without(u.ctxs, p))
  }

  /** An operation names ids as the daemon receives them: a text and a length octet. */
  datatype Name = Name(text: seq<Byte>, len: Byte)

  function IdOf(n: Name): IdV2 {
    SetIdV2(n.text, n.len)
  }

  datatype Op =
    | AddApplication(apid: Name, payload: int)
    | DeleteApplication(apid: Name)
    | AddContext(apid: Name, ctid: Name, level: int, trace: int, payload: int)
    | DeleteContext(apid: Name, ctid: Name)

  function Step(u: UserList, op: Op): UserList {
    match op
    case AddApplication(apid, payload) => AddApp(u, IdOf(apid), payload)
    case DeleteApplication(apid) => DeleteApp(u, IdOf(apid))
    case AddContext(apid, ctid, level, trace, payload) => AddCtx(u, IdOf(apid), IdOf(ctid), level, trace, payload)
    case DeleteContext(apid, ctid) => DeleteCtx(u, IdOf(apid), IdOf(ctid))
  }

  function Run(ops: seq<Op>): UserList {
    if |ops| == 0 then UserList([], []) else Step(Run(ops[..|ops| - 1]), ops[|ops| - 1])
  }

  // ---------------------------------------------------------- what each step lists

  ghost predicate Ordered(u: UserList) {
    StrictlySorted(u.apps, AppKey) && StrictlySorted(u.ctxs, CtxKey)
  }

  ghost predicate ListsApp(u: UserList, apid: IdV2) {
    KeyV2(apid) in AsMap(u.apps, AppKey)
  }

  ghost predicate ListsCtx(u: UserList, apid: IdV2, ctid: IdV2) {
    PairKeyV2(apid, ctid) in AsMap(u.ctxs, CtxKey)
  }

  lemma FoundAppsListed(u: UserList, apid: IdV2)
    ensures FindApp(u, apid) >= 0 <==> |apid| > 0 && ListsApp(u, apid)
    ensures FindApp(u, apid) < |u.apps| && (FindApp(u, apid) >= 0 ==> u.apps[FindApp(u, apid)].apid == apid)
  {
    MapLookup(u.apps, AppKey, KeyV2(apid));
    var p := FindApp(u, apid);
    if p >= 0 {
      CompareV2IsLexicographic(u.apps[p].apid, apid);
    }
  }

  lemma FoundCtxsListed(u: UserList, apid: IdV2, ctid: IdV2)
    ensures FindCtx(u, apid, ctid) >= 0 <==> |apid| > 0 && |ctid| > 0 && ListsCtx(u, apid, ctid)
    ensures FindCtx(u, apid, ctid) >= 0 ==> u.ctxs[FindCtx(u, apid, ctid)].apid == apid && u.ctxs[FindCtx(u, apid, ctid)].ctid == ctid
  {
    MapLookup(u.ctxs, CtxKey, PairKeyV2(apid, ctid));
    var p := FindCtx(u, apid, ctid);
    if p >= 0 {
      PairKeyV2Order(u.ctxs[p].apid, u.ctxs[p].ctid, apid, ctid);
    }
  }

  /** A table after adding x under its key, as append-and-sort does it. */
  lemma SortedInsert<T>(s: seq<T>, key: T -> Key, x: T)
    requires StrictlySorted(s, key) && Position(s, key, key(x)) < 0
    ensures StrictlySorted(Sort(s + [x], key), key)
    ensures AsMap(Sort(s + [x], key), key) == AsMap(s, key)[key(x) := x]
  {
    PositionHas(s, key, key(x));
    AppendThenSort(s, key, x);
    InsertAsMap(s, key, x);
  }

  ghost function Apps(u: UserList): map<Key, Application> {
    AsMap(u.apps, AppKey)
  }

  ghost function Ctxs(u: UserList): map<Key, Context> {
    AsMap(u.ctxs, CtxKey)
  }

  /** Counting at a listed application changes its counter and nothing else. */
  lemma CountMaps(u: UserList, p: nat, delta: int)
    requires Ordered(u) && p < |u.apps|
    ensures var v, k, a := CountAt(u, p, delta), AppKey(u.apps[p]), u.apps[p];
            && Ordered(v) && v.ctxs == u.ctxs && k in Apps(u) && Apps(u)[k] == a
            && Apps(v) == Apps(u)[k := a.(numContexts := a.numContexts + delta)]
  {
    MapEntry(u.apps, AppKey, p);
    ReplaceAsMap(u.apps, AppKey, p, CountAt(u, p, delta).apps[p]);
  }

  /** Adding an application: a new record without contexts, or a new payload. */
  lemma AddAppMaps(u: UserList, apid: IdV2, payload: int)
    requires Ordered(u)
    ensures var v, k := AddApp(u, apid, payload), KeyV2(apid);
            && Ordered(v) && v.ctxs == u.ctxs
            && Apps(v) == if |apid| == 0 then Apps(u)
                          else Apps(u)[k := if k in Apps(u) then Apps(u)[k].(payload := payload) else Application(apid, payload, 0)]
  {
    var p := FindApp(u, apid);
    FoundAppsListed(u, apid);
    if p >= 0 {
      MapEntry(u.apps, AppKey, p);
      ReplaceAsMap(u.apps, AppKey, p, u.apps[p].(payload := payload));
    } else if |apid| > 0 {
      SortedInsert(u.apps, AppKey, Application(apid, payload, 0));
    }
  }

  lemma DeleteAppMaps(u: UserList, apid: IdV2)
    requires Ordered(u)
    ensures var v := DeleteApp(u, apid);
            Ordered(v) && v.ctxs == u.ctxs && Apps(v) == if |apid| == 0 then Apps(u) else Apps(u) - {KeyV2(apid)}
  {
    var p := FindApp(u, apid);
    FoundAppsListed(u, apid);
    if p >= 0 {
      WithoutAsMap(u.apps, AppKey, p);
    }
  }

  /** Adding a context: a new record, counted once at its application, or a new payload. */
  lemma AddCtxMaps(u: UserList, apid: IdV2, ctid: IdV2, level: int, trace: int, payload: int)
    requires Ordered(u)
    ensures var v, a, k := AddCtx(u, apid, ctid, level, trace, payload), KeyV2(apid), PairKeyV2(apid, ctid);
            && Ordered(v)
            && if Refused(u, apid, ctid, level, trace) then v == u
               else
                 && a in Apps(u) && Apps(u)[a].apid == apid
                 && Ctxs(v) == Ctxs(u)[k := Context(apid, ctid, payload)]
                 && Apps(v) == if k in Ctxs(u) then Apps(u)
                               else Apps(u)[a := Apps(u)[a].(numContexts := Apps(u)[a].numContexts + 1)]
  {
    if !Refused(u, apid, ctid, level, trace) {
      var a, p := FindApp(u, apid), FindCtx(u, apid, ctid);
      FoundAppsListed(u, apid);
      FoundCtxsListed(u, apid, ctid);
      MapEntry(u.apps, AppKey, a);
      if p >= 0 {
        ReplaceAsMap(u.ctxs, CtxKey, p, u.ctxs[p].(payload := payload));
      } else {
        CountMaps(u, a, 1);
        SortedInsert(u.ctxs, CtxKey, Context(apid, ctid, payload));
      }
    }
  }

  /** Deleting a context: it is gone, and its application counts one less. */
  lemma DeleteCtxMaps(u: UserList, apid: IdV2, ctid: IdV2)
    requires Ordered(u)
    ensures var v, a, k := DeleteCtx(u, apid, ctid), KeyV2(apid), PairKeyV2(apid, ctid);
            && Ordered(v)
            && if |apid| == 0 || |ctid| == 0 || k !in Ctxs(u) then v == u
               else
                 && Ctxs(v) == Ctxs(u) - {k}
                 && Apps(v) == if a in Apps(u) then Apps(u)[a := Apps(u)[a].(numContexts := Apps(u)[a].numContexts - 1)]
                               else Apps(u)
  {
    var a, p := FindApp(u, apid), FindCtx(u, apid, ctid);
    FoundAppsListed(u, apid);
    FoundCtxsListed(u, apid, ctid);
    if p >= 0 {
      WithoutAsMap(u.ctxs, CtxKey, p);
      if a >= 0 {
        CountMaps(u, a, -1);
      }
    }
  }

  lemma AddAppLists(u: UserList, apid: IdV2, payload: int)
    requires Ordered(u)
    ensures Ordered(AddApp(u, apid, payload)) && AddApp(u, apid, payload).ctxs == u.ctxs
    ensures AsMap(AddApp(u, apid, payload).apps, AppKey).Keys ==
            AsMap(u.apps, AppKey).Keys + (if |apid| == 0 then {} else {KeyV2(apid)})
  {
    AddAppMaps(u, apid, payload);
  }

  lemma DeleteAppLists(u: UserList, apid: IdV2)
    requires Ordered(u)
    ensures Ordered(DeleteApp(u, apid)) && DeleteApp(u, apid).ctxs == u.ctxs
    ensures AsMap(DeleteApp(u, apid).apps, AppKey).Keys ==
            AsMap(u.apps, AppKey).Keys - (if |apid| == 0 then {} else {KeyV2(apid)})
  {
    DeleteAppMaps(u, apid);
  }

  lemma AddCtxLists(u: UserList, apid: IdV2, ctid: IdV2, level: int, trace: int, payload: int)
    requires Ordered(u)
    ensures var v := AddCtx(u, apid, ctid, level, trace, payload);
            && Ordered(v) && AsMap(v.apps, AppKey).Keys == AsMap(u.apps, AppKey).Keys
            && AsMap(v.ctxs, CtxKey).Keys ==
                AsMap(u.ctxs, CtxKey).Keys + (if Refused(u, apid, ctid, level, trace) then {} else {PairKeyV2(apid, ctid)})
  {
    AddCtxMaps(u, apid, ctid, level, trace, payload);
  }

  lemma DeleteCtxLists(u: UserList, apid: IdV2, ctid: IdV2)
    requires Ordered(u)
    ensures var v := DeleteCtx(u, apid, ctid);
            && Ordered(v) && AsMap(v.apps, AppKey).Keys == AsMap(u.apps, AppKey).Keys
            && AsMap(v.ctxs, CtxKey).Keys ==
                AsMap(u.ctxs, CtxKey).Keys - (if |apid| == 0 || |ctid| == 0 then {} else {PairKeyV2(apid, ctid)})
  {
    DeleteCtxMaps(u, apid, ctid);
  }

  // ------------------------------------------------------------------------- runs

  /** The last operation on the id that counts was an addition. */
  ghost predicate AppAdded(ops: seq<Op>, apid: IdV2) {
    if |ops| == 0 then false
    else
      var op := ops[|ops| - 1];
      if op.AddApplication? && IdOf(op.apid) == apid then true
      else if op.DeleteApplication? && IdOf(op.apid) == apid then false
      else AppAdded(ops[..|ops| - 1], apid)
  }

  /** The operation adds this context, if its application is listed. */
  ghost predicate Adds(op: Op, apid: IdV2, ctid: IdV2) {
    op.AddContext? && IdOf(op.apid) == apid && IdOf(op.ctid) == ctid && E.LevelsInRange(op.level, op.trace)
  }

  /** Likewise for a context; adding one counts only with levels in range and while its application is listed. */
  ghost predicate CtxAdded(ops: seq<Op>, apid: IdV2, ctid: IdV2) {
    if |ops| == 0 then false
    else
      var op, front := ops[|ops| - 1], ops[..|ops| - 1];
      if Adds(op, apid, ctid) && AppAdded(front, apid) then true
      else if op.DeleteContext? && IdOf(op.apid) == apid && IdOf(op.ctid) == ctid then false
      else CtxAdded(front, apid, ctid)
  }

  lemma StepOrdered(u: UserList, op: Op)
    requires Ordered(u)
    ensures Ordered(Step(u, op))
  {
    match op
    case AddApplication(apid, payload) => AddAppLists(u, IdOf(apid), payload);
    case DeleteApplication(apid) => DeleteAppLists(u, IdOf(apid));
    case AddContext(apid, ctid, level, trace, payload) => AddCtxLists(u, IdOf(apid), IdOf(ctid), level, trace, payload);
    case DeleteContext(apid, ctid) => DeleteCtxLists(u, IdOf(apid), IdOf(ctid));
  }

  lemma StepListsApp(u: UserList, op: Op, id: IdV2)
    requires Ordered(u) && |id| > 0
    ensures ListsApp(Step(u, op), id) <==>
            (if op.AddApplication? && IdOf(op.apid) == id then true
             else if op.DeleteApplication? && IdOf(op.apid) == id then false
             else ListsApp(u, id))
  {
    CompareV2IsLexicographic(IdOf(op.apid), id);
    match op
    case AddApplication(apid, payload) => AddAppLists(u, IdOf(apid), payload);
    case DeleteApplication(apid) => DeleteAppLists(u, IdOf(apid));
    case AddContext(apid, ctid, level, trace, payload) => AddCtxLists(u, IdOf(apid), IdOf(ctid), level, trace, payload);
    case DeleteContext(apid, ctid) => DeleteCtxLists(u, IdOf(apid), IdOf(ctid));
  }

  lemma StepListsCtx(u: UserList, op: Op, apid: IdV2, ctid: IdV2)
    requires Ordered(u) && |apid| > 0 && |ctid| > 0
    ensures ListsCtx(Step(u, op), apid, ctid) <==>
            (if Adds(op, apid, ctid) && ListsApp(u, apid) then true
             else if op.DeleteContext? && IdOf(op.apid) == apid && IdOf(op.ctid) == ctid then false
             else ListsCtx(u, apid, ctid))
  {
    match op
    case AddApplication(a, payload) => AddAppLists(u, IdOf(a), payload);
    case DeleteApplication(a) => DeleteAppLists(u, IdOf(a));
    case AddContext(a, c, level, trace, payload) =>
      AddCtxLists(u, IdOf(a), IdOf(c), level, trace, payload);
      FoundAppsListed(u, IdOf(a));
      PairKeyV2Order(IdOf(a), IdOf(c), apid, ctid);
    case DeleteContext(a, c) =>
      DeleteCtxLists(u, IdOf(a), IdOf(c));
      PairKeyV2Order(IdOf(a), IdOf(c), apid, ctid);
  }

  lemma {:induction false} RunOrdered(ops: seq<Op>)
    ensures Ordered(Run(ops))
  {
    if |ops| > 0 {
      RunOrdered(ops[..|ops| - 1]);
      StepOrdered(Run(ops[..|ops| - 1]), ops[|ops| - 1]);
    }
  }

  /** After every run an application is found iff it was added and not deleted since. */
  lemma {:induction false} AppFoundIffAdded(ops: seq<Op>, apid: IdV2)
    requires |apid| > 0
    ensures FindApp(Run(ops), apid) >= 0 <==> AppAdded(ops, apid)
    ensures ListsApp(Run(ops), apid) <==> AppAdded(ops, apid)
  {
    if |ops| > 0 {
      var front := ops[..|ops| - 1];
      AppFoundIffAdded(front, apid);
      RunOrdered(front);
      StepListsApp(Run(front), ops[|ops| - 1], apid);
    }
    FoundAppsListed(Run(ops), apid);
  }

  /** And a context iff it was added with valid levels to a listed application and not deleted since. */
  lemma {:induction false} CtxFoundIffAdded(ops: seq<Op>, apid: IdV2, ctid: IdV2)
    requires |apid| > 0 && |ctid| > 0
    ensures FindCtx(Run(ops), apid, ctid) >= 0 <==> CtxAdded(ops, apid, ctid)
    ensures ListsCtx(Run(ops), apid, ctid) <==> CtxAdded(ops, apid, ctid)
  {
    if |ops| > 0 {
      var front := ops[..|ops| - 1];
      CtxFoundIffAdded(front, apid, ctid);
      AppFoundIffAdded(front, apid);
      RunOrdered(front);
      StepListsCtx(Run(front), ops[|ops| - 1], apid, ctid);
    }
    FoundCtxsListed(Run(ops), apid, ctid);
  }
}
