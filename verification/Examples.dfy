/**
 * Small runs in which a property of the other modules fails, with nothing but the failing
 * condition out of place.
 */
module Examples {
  import opened Order
  import opened Ids
  import opened SortedTable
  import opened TableMaps
  import opened Entities
  import opened Directory
  import opened Descriptors
  import opened LogLevels
  import L = UserLists
  import RC = RuntimeConfig
  import opened Refinement
  import opened UnpaddedIds

  const A: Id := [65, 0, 0, 0]
  const B: Id := [66, 0, 0, 0]
  const C: Id := [67, 0, 0, 0]

  /** "A" with a byte behind its terminator. */
  const RawA: Id := [65, 0, 0, 88]

  lemma IdFacts()
    ensures SetId(A) == A && SetId(B) == B && SetId(C) == C && SetId(RawA) == A
    ensures Padded(A) && Padded(B) && Padded(C) && !Padded(RawA)
  {
    SetIdOfField(A);
    SetIdOfField(B);
    SetIdOfField(C);
    SetIdOfField(RawA);
    assert A[1..] == [0, 0, 0] && B[1..] == [0, 0, 0] && C[1..] == [0, 0, 0] && Zeros(3) == [0, 0, 0];
    assert Padding(A) == A && Padding(B) == B && Padding(C) == C && Padding(RawA) == A;
    assert A != RawA by { assert A[3] != RawA[3]; }
    SetIdTwice(A);
    SetIdTwice(B);
    SetIdTwice(C);
    SetIdTwice(RawA);
  }

  /** An id as the registry stores it. */
  ghost predicate Stored(id: Id) {
    SetId(id) == id && id[0] != 0
  }

  function App(id: Id, n: int, h: int): Application {
    Application(id, 10, None, n, h, true)
  }

  function Ctx(apid: Id, ctid: Id, h: int): Context {
    Context(apid, ctid, LOG_DEFAULT, TRACE_DEFAULT, 0, h, None, 0, h == 0)
  }

  /** A process registers and the daemon opens its pipe. */
  function Registers(id: Id, pipe: OpenResult): Op {
    AddApplication(id, 10, None, FD_INIT, pipe)
  }

  function Adds(apid: Id, ctid: Id, h: int): Op {
    AddContext(apid, ctid, Registration(LOG_DEFAULT, TRACE_DEFAULT, 0, h, None))
  }

  lemma RunOne(cfg: Config, d: Dir, op: Op)
    ensures Run(FifoBuild, cfg, d, [op]) == Step(FifoBuild, cfg, d, op)
    ensures FifoLegal(d, op) ==> FifoLegalRun(cfg, d, [op])
  {
    assert [op][1..] == [];
  }

  lemma RunTwo(cfg: Config, d: Dir, op1: Op, e1: Effect, op2: Op, e2: Effect)
    requires Step(FifoBuild, cfg, d, op1) == e1 && Step(FifoBuild, cfg, e1.dir, op2) == e2
    ensures Run(FifoBuild, cfg, d, [op1, op2]) == Effect(e2.dir, e1.events + e2.events)
    ensures FifoLegal(d, op1) && FifoLegal(e1.dir, op2) ==> FifoLegalRun(cfg, d, [op1, op2])
  {
    assert [op1, op2][1..] == [op2];
    RunOne(cfg, e1.dir, op2);
  }

  lemma RegistersStep(cfg: Config, d: Dir, id: Id, pipe: OpenResult)
    requires Stored(id) && id !in d.apps && pipe >= 0
    requires (forall k :: k in d.apps ==> d.apps[k].userHandle != pipe) && d.ctxs == map[]
    ensures Step(FifoBuild, cfg, d, Registers(id, pipe)) == Effect(d.(apps := d.apps[id := App(id, 0, pipe)]), [Opened(pipe)])
  {
    var d1 := Introduce(d, id, None);
    var d2 := Rebind(d1, id, 10).dir;
    assert d2 == d1.(apps := d1.apps[id := d1.apps[id].(pid := 0)]);
    var d3 := Invalidate(d2, pipe);
    assert d3.apps == d2.apps && d3.ctxs == d2.ctxs;
  }

  ghost predicate Defaults(cfg: Config) {
    cfg.defaultLogLevel >= 0 && cfg.defaultTraceStatus >= 0
  }

  lemma AddsStep(cfg: Config, d: Dir, a: Id, c: Id, h: int)
    requires Stored(a) && Stored(c) && a in d.apps && a + c !in d.ctxs && Defaults(cfg)
    ensures Step(FifoBuild, cfg, d, Adds(a, c, h)) ==
            Effect(Dir(d.apps[a := d.apps[a].(numContexts := d.apps[a].numContexts + 1)], d.ctxs[a + c := Ctx(a, c, h)]), [])
  {
  }

  /** An application with the pipe 5 and its context with the given descriptor. */
  function Started(a: Id, c: Id, h: int): Dir {
    Dir(map[a := App(a, 1, 5)], map[a + c := Ctx(a, c, h)])
  }

  function Start(a: Id, c: Id, h: int): seq<Op> {
    [Registers(a, 5), Adds(a, c, h)]
  }

  lemma RegistersLegal(d: Dir, id: Id, pipe: OpenResult)
    requires forall k :: k in d.apps ==> d.apps[k].userHandle != pipe
    requires pipe >= 0
    ensures FifoLegal(d, Registers(id, pipe))
  {
    var d1 := Introduce(d, id, None);
    var d2 := Rebind(d1, SetId(id), 10).dir;
    assert forall k :: k in d2.apps ==> d2.apps[k].userHandle != pipe;
  }

  lemma AddsLegal(d: Dir, a: Id, c: Id, h: int)
    requires Stored(a) && (a in d.apps ==> h == 0 || h == d.apps[a].userHandle)
    ensures FifoLegal(d, Adds(a, c, h))
  {
  }

  /** A process registers with its pipe 5, and its context is loaded with the mark 0 or registers with the pipe. */
  lemma StartedIsReached(cfg: Config, a: Id, c: Id, h: int)
    requires Defaults(cfg) && Stored(a) && Stored(c) && h in {0, 5}
    ensures Run(FifoBuild, cfg, Empty, Start(a, c, h)) == Effect(Started(a, c, h), [Opened(5)])
    ensures FifoLegalRun(cfg, Empty, Start(a, c, h))
  {
    var d1 := Dir(map[a := App(a, 0, 5)], map[]);
    RegistersStep(cfg, Empty, a, 5);
    AddsStep(cfg, d1, a, c, h);
    RegistersLegal(Empty, a, 5);
    AddsLegal(d1, a, c, h);
    RunTwo(cfg, Empty, Registers(a, 5), Effect(d1, [Opened(5)]), Adds(a, c, h), Effect(Started(a, c, h), []));
  }

  type Stepper = (Dir, Op) -> Effect

  /** A run of an arbitrary step. */
  function RunBy(step: Stepper, d: Dir, ops: seq<Op>): Effect
    decreases |ops|
  {
    if |ops| == 0 then Effect(d, [])
    else
      var e1 := step(d, ops[0]);
      var e2 := RunBy(step, e1.dir, ops[1..]);
      Effect(e2.dir, e1.events + e2.events)
  }

  lemma {:induction false} RunIsRunBy(cfg: Config, d: Dir, ops: seq<Op>)
    ensures Run(FifoBuild, cfg, d, ops) == RunBy((d: Dir, op: Op) => Step(FifoBuild, cfg, d, op), d, ops)
    decreases |ops|
  {
    if |ops| > 0 { RunIsRunBy(cfg, Step(FifoBuild, cfg, d, ops[0]).dir, ops[1..]); }
  }

  lemma {:induction false} RunByConcat(step: Stepper, d: Dir, ops: seq<Op>, more: seq<Op>)
    ensures var e1 := RunBy(step, d, ops);
            var e2 := RunBy(step, e1.dir, more);
            RunBy(step, d, ops + more) == Effect(e2.dir, e1.events + e2.events)
    decreases |ops|
  {
    if |ops| == 0 {
      assert ops + more == more;
    } else {
      RunByConcat(step, step(d, ops[0]).dir, ops[1..], more);
      assert (ops + more)[1..] == ops[1..] + more;
    }
  }

  lemma RunConcat(cfg: Config, d: Dir, ops: seq<Op>, more: seq<Op>)
    ensures var e1 := Run(FifoBuild, cfg, d, ops);
            var e2 := Run(FifoBuild, cfg, e1.dir, more);
            Run(FifoBuild, cfg, d, ops + more) == Effect(e2.dir, e1.events + e2.events)
  {
    RunIsRunBy(cfg, d, ops);
    RunIsRunBy(cfg, Run(FifoBuild, cfg, d, ops).dir, more);
    RunIsRunBy(cfg, d, ops + more);
    RunByConcat((d: Dir, op: Op) => Step(FifoBuild, cfg, d, op), d, ops, more);
  }

  /** What follows the start, from the empty registry. */
  lemma FromStart(cfg: Config, a: Id, c: Id, h: int, more: seq<Op>)
    requires Defaults(cfg) && Stored(a) && Stored(c) && h in {0, 5}
    ensures var e := Run(FifoBuild, cfg, Started(a, c, h), more);
            && Run(FifoBuild, cfg, Empty, Start(a, c, h) + more) == Effect(e.dir, [Opened(5)] + e.events)
            && Replay({}, [Opened(5)] + e.events) == Replay({5}, e.events)
  {
    StartedIsReached(cfg, a, c, h);
    RunConcat(cfg, Empty, Start(a, c, h), more);
    ReplayConcat({}, [Opened(5)], Run(FifoBuild, cfg, Started(a, c, h), more).events);
    ReplayOne({}, Opened(5));
    assert {} + {5} == {5};
  }

  lemma InjectThenDelete(cfg: Config, a: Id, c: Id)
    requires Stored(a) && Stored(c)
    ensures Run(FifoBuild, cfg, Started(a, c, 5), [Inject(a, c, DeadDescriptor), DeleteApplication(a)]).events
            == [Sent(5, 0, 0, 0, DeadDescriptor), Closed(5), Closed(5)]
  {
    var d2 := Started(a, c, 5).(ctxs := map[a + c := Ctx(a, c, 5).(userHandle := FD_INIT)]);
    var e1 := Effect(d2, [Sent(5, 0, 0, 0, DeadDescriptor), Closed(5)]);
    assert InjectInto(Started(a, c, 5), a + c, DeadDescriptor) == e1;
    RunTwo(cfg, Started(a, c, 5), Inject(a, c, DeadDescriptor), e1, DeleteApplication(a), DeleteApp(d2, a));
  }

  /** The pipe breaks during an injection: the application still owns it and closes it again when it leaves. */
  lemma InjectionClosesTwice(cfg: Config, a: Id, c: Id)
    requires Defaults(cfg) && Stored(a) && Stored(c)
    ensures var events := Run(FifoBuild, cfg, Empty, Start(a, c, 5) + [Inject(a, c, DeadDescriptor), DeleteApplication(a)]).events;
            events == [Opened(5), Sent(5, 0, 0, 0, DeadDescriptor), Closed(5), Closed(5)] && Replay({}, events) == None
  {
    var more := [Inject(a, c, DeadDescriptor), DeleteApplication(a)];
    ReplayAfterStart(cfg, a, c, 5, more, [Sent(5, 0, 0, 0, DeadDescriptor), Closed(5), Closed(5)]) by {
      InjectThenDelete(cfg, a, c);
    }
    ClosedTwice(5);
  }

  lemma ReplayAfterStart(cfg: Config, a: Id, c: Id, h: int, more: seq<Op>, events: seq<Event>)
    requires Defaults(cfg) && Stored(a) && Stored(c) && h in {0, 5} && Run(FifoBuild, cfg, Started(a, c, h), more).events == events
    ensures Run(FifoBuild, cfg, Empty, Start(a, c, h) + more).events == [Opened(5)] + events
    ensures Replay({}, [Opened(5)] + events) == Replay({5}, events)
  {
    FromStart(cfg, a, c, h, more);
  }

  lemma ClosedTwice(h: int)
    ensures Replay({h}, [Sent(h, 0, 0, 0, DeadDescriptor), Closed(h), Closed(h)]) == None
  {
    var events := [Sent(h, 0, 0, 0, DeadDescriptor), Closed(h), Closed(h)];
    assert events[1..] == [Closed(h), Closed(h)];
    assert events[1..][1..] == [Closed(h)];
    assert {h} - {h} == {};
    assert Replay({}, [Closed(h)]) == None;
    assert Replay({h}, events[1..]) == None;
  }

  lemma SendToMark(cfg: Config, a: Id, c: Id)
    requires Stored(a) && Stored(c)
    ensures var e := Run(FifoBuild, cfg, Started(a, c, 0), [SendLevel(a, c, DeadDescriptor)]);
            && e.events == [LevelMessage(cfg, Ctx(a, c, 0), DeadDescriptor), Closed(5)]
            && a in e.dir.apps && e.dir.apps[a].userHandle == FD_INIT
            && Replay({5}, e.events) == None
  {
    RunOne(cfg, Started(a, c, 0), SendLevel(a, c, DeadDescriptor));
    assert Step(FifoBuild, cfg, Started(a, c, 0), SendLevel(a, c, DeadDescriptor)) == Send(cfg, Started(a, c, 0), a + c, DeadDescriptor);
  }

  /**
   * A level sent to a context with the mark 0, as the log storage functions do, goes to
   * descriptor 0, and an error there closes the application's own pipe.
   */
  lemma MarkIsSentTo(cfg: Config, a: Id, c: Id)
    requires Defaults(cfg) && Stored(a) && Stored(c)
    ensures var e := Run(FifoBuild, cfg, Empty, Start(a, c, 0) + [SendLevel(a, c, DeadDescriptor)]);
            && e.events == [Opened(5), LevelMessage(cfg, Ctx(a, c, 0), DeadDescriptor), Closed(5)]
            && a in e.dir.apps && e.dir.apps[a].userHandle == FD_INIT
            && Replay({}, e.events) == None
  {
    FromStart(cfg, a, c, 0, [SendLevel(a, c, DeadDescriptor)]);
    SendToMark(cfg, a, c);
    var sent := LevelMessage(cfg, Ctx(a, c, 0), DeadDescriptor);
    assert [Opened(5)] + [sent, Closed(5)] == [Opened(5), sent, Closed(5)];
  }

  lemma RaiseLevel(cfg: Config, a: Id, c: Id)
    requires Enforcing(cfg) && cfg.defaultLogLevel == 4
    ensures var d, request := Started(a, c, 5), FromApplication(6, 0);
            var e := Run(FifoBuild, cfg, d, [SetLevel(a + c, request, Delivered)]);
            LevelsOk(cfg, d, 0) && !LevelsOk(cfg, e.dir, 0) && e.events == [Sent(5, 6, 0, 0, Delivered)]
  {
    var d, request := Started(a, c, 5), FromApplication(6, 0);
    RunOne(cfg, d, SetLevel(a + c, request, Delivered));
    assert Step(FifoBuild, cfg, d, SetLevel(a + c, request, Delivered)) == Set(cfg, d, a + c, request, Delivered);
    SetKeepsLevelsIff(cfg, d, a + c, request, Delivered, 0);
  }

  /**
   * With enforcement on and 4 as the default, an application's own message raises the level of
   * its context to 6, and the daemon announces 6.
   */
  lemma ApplicationRaisesLevel(cfg: Config, a: Id, c: Id)
    requires Enforcing(cfg) && cfg.defaultLogLevel == 4 && cfg.defaultTraceStatus >= 0 && Stored(a) && Stored(c)
    ensures var d := Run(FifoBuild, cfg, Empty, Start(a, c, 5)).dir;
            var e := Run(FifoBuild, cfg, Empty, Start(a, c, 5) + [SetLevel(a + c, FromApplication(6, 0), Delivered)]);
            LevelsOk(cfg, d, 0) && !LevelsOk(cfg, e.dir, 0) && e.events == [Opened(5), Sent(5, 6, 0, 0, Delivered)]
  {
    StartedIsReached(cfg, a, c, 5);
    FromStart(cfg, a, c, 5, [SetLevel(a + c, FromApplication(6, 0), Delivered)]);
    RaiseLevel(cfg, a, c);
    assert [Opened(5)] + [Sent(5, 6, 0, 0, Delivered)] == [Opened(5), Sent(5, 6, 0, 0, Delivered)];
  }

  /** The list of two applications, A in front of B, and one context. */
  function Two(a: Application, b: Application, c: Context): L.UserList {
    L.UserList([a, b], [c])
  }

  lemma TwoOrdered(a: Application, b: Application, c: Context)
    requires a.apid == A && b.apid == B && c.apid in {A, B} && c.ctid == C
    ensures Ordered(Two(a, b, c)) && Abs(Two(a, b, c)) == Dir(map[A := a, B := b], map[c.apid + C := c])
  {
    IdFacts();
    var u := Two(a, b, c);
    assert Less(A, B);
    assert StrictlySorted(u.apps, AppKey) && StrictlySorted(u.ctxs, CtxKey);
    assert u.apps[..1] == [a] && u.apps[..1][..0] == [] && u.ctxs[..0] == [];
    assert AsMap([a], AppKey) == map[A := a];
    assert AsMap(u.ctxs, CtxKey) == map[c.apid + C := c];
  }

  /**
   * A legal run in which application A gets the pipe 0 and a context of application B is
   * loaded from the runtime configuration. Unregistering A releases the context of B.
   */
  lemma PipeZeroReleasesOthers(cfg: Config)
    requires Defaults(cfg)
    ensures var ops := [Registers(A, 0), Registers(B, 5), Adds(B, C, 0)];
            var u := Two(App(A, 0, 0), App(B, 1, 5), Ctx(B, C, 0));
            && FifoLegalRun(cfg, Empty, ops) && Run(FifoBuild, cfg, Empty, ops).dir == Abs(u) && Ordered(u)
            && L.FindApp(u.apps, A) == 0 && L.RangeInBounds(u, 0)
            && L.Unregister(u, A).users.ctxs == [Ctx(B, C, 0).(userHandle := FD_INIT)] != u.ctxs
  {
    IdFacts();
    assert A != B by { assert A[0] != B[0]; }
    PipeZeroRun(cfg, A, B, C);
    PipeZeroUnregister();
  }

  lemma PipeZeroRun(cfg: Config, a: Id, b: Id, c: Id)
    requires Defaults(cfg) && Stored(a) && Stored(b) && Stored(c) && a != b
    ensures var ops := [Registers(a, 0), Registers(b, 5), Adds(b, c, 0)];
            var d := Dir(map[a := App(a, 0, 0), b := App(b, 1, 5)], map[b + c := Ctx(b, c, 0)]);
            FifoLegalRun(cfg, Empty, ops) && Run(FifoBuild, cfg, Empty, ops).dir == d
  {
    var d1 := Dir(map[a := App(a, 0, 0)], map[]);
    var d2 := Dir(map[a := App(a, 0, 0), b := App(b, 0, 5)], map[]);
    var d3 := Dir(map[a := App(a, 0, 0), b := App(b, 1, 5)], map[b + c := Ctx(b, c, 0)]);
    RegistersStep(cfg, Empty, a, 0);
    RegistersStep(cfg, d1, b, 5);
    AddsStep(cfg, d2, b, c, 0);
    RegistersLegal(Empty, a, 0);
    RegistersLegal(d1, b, 5);
    AddsLegal(d2, b, c, 0);
    RunThree(cfg, Empty, Registers(a, 0), Effect(d1, [Opened(0)]), Registers(b, 5), Effect(d2, [Opened(5)]),
             Adds(b, c, 0), Effect(d3, []));
  }

  lemma RunThree(cfg: Config, d: Dir, op1: Op, e1: Effect, op2: Op, e2: Effect, op3: Op, e3: Effect)
    requires Step(FifoBuild, cfg, d, op1) == e1 && Step(FifoBuild, cfg, e1.dir, op2) == e2 && Step(FifoBuild, cfg, e2.dir, op3) == e3
    ensures Run(FifoBuild, cfg, d, [op1, op2, op3]).dir == e3.dir
    ensures FifoLegal(d, op1) && FifoLegal(e1.dir, op2) && FifoLegal(e2.dir, op3) ==> FifoLegalRun(cfg, d, [op1, op2, op3])
  {
    assert [op1, op2, op3][1..] == [op2, op3];
    RunTwo(cfg, e1.dir, op2, e2, op3, e3);
  }

  lemma PipeZeroUnregister()
    ensures var u := Two(App(A, 0, 0), App(B, 1, 5), Ctx(B, C, 0));
            && Abs(u) == Dir(map[A := App(A, 0, 0), B := App(B, 1, 5)], map[B + C := Ctx(B, C, 0)]) && Ordered(u)
            && L.FindApp(u.apps, A) == 0 && L.RangeInBounds(u, 0)
            && L.Unregister(u, A).users.ctxs == [Ctx(B, C, 0).(userHandle := FD_INIT)] != u.ctxs
  {
    IdFacts();
    var u := Two(App(A, 0, 0), App(B, 1, 5), Ctx(B, C, 0));
    TwoOrdered(u.apps[0], u.apps[1], u.ctxs[0]);
    FindsFirst(u, A);
    var v := L.ResetAt(u, 0).users;
    assert v.ctxs == [Ctx(B, C, 0).(userHandle := FD_INIT)];
  }

  lemma FindsFirst(u: L.UserList, raw: Id)
    requires Ordered(u) && |u.apps| == 2 && u.apps[0].apid == A && u.apps[1].apid == B && raw in {A, RawA}
    ensures L.FindApp(u.apps, raw) == 0
  {
    IdFacts();
    assert A != B by { assert A[0] != B[0]; }
    FindAppExact(u, raw);
    PositionUnique(u.apps, AppKey, 0);
  }

  /**
   * The application of the context is found under the id with a byte behind its terminator,
   * because B is listed behind it, but the context, the last of the list, is not.
   */
  lemma HiddenContextExample(cfg: Config, r: Registration)
    requires LevelsInRange(r.level, r.trace)
    ensures var u := Two(App(A, 1, 5), App(B, 0, 6), Ctx(A, C, 5));
            && Ordered(u) && L.FindApp(u.apps, RawA) == 0 && HiddenCtx(u, RawA, C)
            && !Ordered(L.AddCtx(cfg, u, RawA, C, r).users)
  {
    IdFacts();
    var u := Two(App(A, 1, 5), App(B, 0, 6), Ctx(A, C, 5));
    TwoOrdered(u.apps[0], u.apps[1], u.ctxs[0]);
    FindsFirst(u, RawA);
    HasAt(u.ctxs, CtxKey, 0);
    AddCtxKeepsOrderIff(cfg, u, RawA, C, r);
  }

  /** An application with two contexts, one of them set to level 100 by a client. */
  function Raised(a: Id, b: Id, c: Id): Dir {
    Dir(map[a := App(a, 2, 5)], map[a + b := Ctx(a, b, 5).(logLevel := 100), a + c := Ctx(a, c, 5)])
  }

  lemma RaisedIsReached(cfg: Config, a: Id, b: Id, c: Id)
    requires Defaults(cfg) && Stored(a) && Stored(b) && Stored(c) && a + b != a + c
    ensures Run(FifoBuild, cfg, Empty, Start(a, b, 5) + [Adds(a, c, 5), SetLevel(a + b, FromClient(100), Delivered)]).dir
            == Raised(a, b, c)
  {
    var d2 := Dir(map[a := App(a, 2, 5)], map[a + b := Ctx(a, b, 5), a + c := Ctx(a, c, 5)]);
    AddsStep(cfg, Started(a, b, 5), a, c, 5);
    var e2 := Set(cfg, d2, a + b, FromClient(100), Delivered);
    assert e2.dir == Raised(a, b, c);
    RunTwo(cfg, Started(a, b, 5), Adds(a, c, 5), Effect(d2, []), SetLevel(a + b, FromClient(100), Delivered), e2);
    FromStart(cfg, a, b, 5, [Adds(a, c, 5), SetLevel(a + b, FromClient(100), Delivered)]);
  }

  /** The list with the same records, and one that knows the application only. */
  function RaisedList(a: Id, b: Id, c: Id): L.UserList {
    L.UserList([App(a, 2, 5)], [Ctx(a, b, 5).(logLevel := 100), Ctx(a, c, 5)])
  }

  function Restarted(a: Id): L.UserList {
    L.UserList([NewApplication(a)], [])
  }

  ghost predicate PlainIds(a: Id, b: Id, c: Id) {
    RC.PlainId(a) && RC.PlainId(b) && RC.PlainId(c) && Less(b, c)
  }

  lemma PlainIdsStored(a: Id, b: Id, c: Id)
    requires PlainIds(a, b, c)
    ensures Stored(a) && Stored(b) && Stored(c) && Less(a + b, a + c) && a + b != a + c
  {
    SetIdTwice(a);
    SetIdTwice(b);
    SetIdTwice(c);
    LessOfConcat(a, b, a, c);
    LessIrreflexive(a + b);
  }

  lemma RaisedListed(a: Id, b: Id, c: Id)
    requires PlainIds(a, b, c)
    ensures Ordered(RaisedList(a, b, c)) && Abs(RaisedList(a, b, c)) == Raised(a, b, c)
  {
    PlainIdsStored(a, b, c);
    var u := RaisedList(a, b, c);
    assert StrictlySorted(u.apps, AppKey) && StrictlySorted(u.ctxs, CtxKey);
    assert u.apps[..0] == [] && u.ctxs[..1] == [u.ctxs[0]] && u.ctxs[..1][..0] == [];
    assert AsMap([u.ctxs[0]], CtxKey) == map[a + b := u.ctxs[0]];
    assert AsMap(u.apps, AppKey) == map[a := u.apps[0]];
  }

  lemma RaisedSavable(a: Id, b: Id, c: Id)
    requires PlainIds(a, b, c)
    ensures RC.AllSavable(RaisedList(a, b, c).ctxs)
  {
    RC.HeadIsShort(RaisedList(a, b, c).ctxs[0]);
    RC.HeadIsShort(RaisedList(a, b, c).ctxs[1]);
  }

  lemma RestartedKnows(a: Id, b: Id, c: Id)
    requires PlainIds(a, b, c)
    ensures Ordered(Restarted(a)) && RC.AllOwned(Restarted(a).apps, RaisedList(a, b, c).ctxs)
  {
    PlainIdsStored(a, b, c);
    var v := Restarted(a);
    assert v.apps[0].apid == a && AppIdOk(v.apps[0]);
    assert StrictlySorted(v.apps, AppKey) && StrictlySorted(v.ctxs, CtxKey);
  }

  /**
   * With enforcement off a client sets one of two contexts to level 100. Both are saved; at the
   * next start the load stops at the first and brings back neither.
   */
  lemma LevelStopsLoad(cfg: Config, a: Id, b: Id, c: Id, level: int, trace: int, file: seq<Byte>)
    requires Defaults(cfg) && !cfg.enforce && PlainIds(a, b, c)
    ensures var ops := Start(a, b, 5) + [Adds(a, c, 5), SetLevel(a + b, FromClient(100), Delivered)];
            Ordered(RaisedList(a, b, c)) && Abs(RaisedList(a, b, c)) == Run(FifoBuild, cfg, Empty, ops).dir
    ensures RC.LoadContexts(cfg, RC.Loader(Restarted(a), level, trace), RC.SaveContexts(RaisedList(a, b, c), file))
            == RC.Loaded(Restarted(a), false)
  {
    PlainIdsStored(a, b, c);
    RaisedListed(a, b, c);
    RaisedIsReached(cfg, a, b, c);
    StoppedAtOnce(cfg, a, b, c, level, trace, file);
  }

  lemma StoppedAtOnce(cfg: Config, a: Id, b: Id, c: Id, level: int, trace: int, file: seq<Byte>)
    requires PlainIds(a, b, c)
    ensures RC.LoadContexts(cfg, RC.Loader(Restarted(a), level, trace), RC.SaveContexts(RaisedList(a, b, c), file))
            == RC.Loaded(Restarted(a), false)
  {
    var u, v := RaisedList(a, b, c), Restarted(a);
    RaisedListed(a, b, c);
    RaisedSavable(a, b, c);
    RestartedKnows(a, b, c);
    assert !RC.InRange(u.ctxs[0]) && RC.Acceptable(u.ctxs) == 0;
    var r := RC.LoadContexts(cfg, RC.Loader(v, level, trace), RC.SaveContexts(u, file));
    assert !r.ok && r.users.ctxs == [] && r.users.apps == v.apps by {
      RC.SaveThenLoad(cfg, u, v, level, trace, file);
    }
  }
}
