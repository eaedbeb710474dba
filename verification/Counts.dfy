/**
 * The per-application context counters agree with the contexts, over whole runs.
 */
module Counts {
  import opened Order
  import opened Ids
  import opened Entities
  import opened TableMaps
  import opened Directory
  import opened Handles
  import opened Frames

  ghost function CtxsOf(d: Dir, a: Key): set<Key> {
    set k | k in d.ctxs && AppKeyOf(d.ctxs[k]) == a
  }

  /** Every context belongs to a registered application, which counts it. */
  ghost predicate CountsOk(d: Dir) {
    && WellKeyed(d)
    && (forall k :: k in d.ctxs ==> AppKeyOf(d.ctxs[k]) in d.apps)
    && (forall a :: a in d.apps ==> d.apps[a].numContexts == |CtxsOf(d, a)|)
  }

  /** Applications go after their contexts. */
  ghost predicate OrderedDeletion(d: Dir, op: Op) {
    match op
    case DeleteApplication(raw) => CtxsOf(d, SetId(raw)) == {}
    case ClearApplications => d.ctxs == map[]
    case _ => true
  }

  ghost predicate OrderedRun(build: Build, cfg: Config, d: Dir, ops: seq<Op>)
    decreases |ops|
  {
    |ops| == 0 || (OrderedDeletion(d, ops[0]) && OrderedRun(build, cfg, Step(build, cfg, d, ops[0]).dir, ops[1..]))
  }

  lemma SameRecordsSameCounts(d: Dir, d': Dir)
    requires CountsOk(d) && SameRecords(d, d')
    ensures CountsOk(d')
  {
    forall k | k in d'.ctxs ensures CtxKey(d'.ctxs[k]) == k && AppKeyOf(d'.ctxs[k]) == AppKeyOf(d.ctxs[k]) {
      assert CtxKey(Bare(d.ctxs[k])) == CtxKey(Bare(d'.ctxs[k]));
    }
    forall a | a in d'.apps
      ensures AppKey(d'.apps[a]) == a && d'.apps[a].numContexts == |CtxsOf(d', a)|
    {
      assert BareApp(d.apps[a]) == BareApp(d'.apps[a]);
      assert CtxsOf(d', a) == CtxsOf(d, a);
    }
  }

  lemma IntroduceKeepsCounts(d: Dir, raw: Id, description: Option<seq<Byte>>)
    requires CountsOk(d)
    ensures CountsOk(Introduce(d, raw, description))
  {
    var d' := Introduce(d, raw, description);
    forall a | a in d'.apps ensures d'.apps[a].numContexts == |CtxsOf(d', a)| {
      assert CtxsOf(d', a) == CtxsOf(d, a);
      if a !in d.apps {
        assert CtxsOf(d, a) == {};
      }
    }
  }

  lemma KnownCtxKeepsCounts(d: Dir, k: Key, c: Context)
    requires CountsOk(d) && k in d.ctxs && c.apid == d.ctxs[k].apid && c.ctid == d.ctxs[k].ctid
    ensures CountsOk(d.(ctxs := d.ctxs[k := c]))
  {
    var d' := d.(ctxs := d.ctxs[k := c]);
    forall a | a in d'.apps ensures d'.apps[a].numContexts == |CtxsOf(d', a)| {
      assert CtxsOf(d', a) == CtxsOf(d, a);
    }
  }

  lemma CtxsOfExtended(d: Dir, d': Dir, k: Key, c: Context, a: Key)
    requires k !in d.ctxs && d'.ctxs == d.ctxs[k := c]
    ensures CtxsOf(d', a) == if a == AppKeyOf(c) then CtxsOf(d, a) + {k} else CtxsOf(d, a)
    ensures k !in CtxsOf(d, a)
  {
  }

  lemma NewCtxKeepsCounts(d: Dir, d': Dir, k: Key, c: Context)
    requires CountsOk(d) && k !in d.ctxs && CtxKey(c) == k && AppKeyOf(c) in d.apps
    requires d'.apps == d.apps[AppKeyOf(c) := d.apps[AppKeyOf(c)].(numContexts := d.apps[AppKeyOf(c)].numContexts + 1)]
    requires d'.ctxs == d.ctxs[k := c]
    ensures CountsOk(d')
  {
    forall a | a in d'.apps ensures AppKey(d'.apps[a]) == a && d'.apps[a].numContexts == |CtxsOf(d', a)| {
      CtxsOfExtended(d, d', k, c, a);
    }
  }

  lemma AddCtxKeepsCounts(cfg: Config, d: Dir, rawApid: Id, rawCtid: Id, r: Registration)
    requires CountsOk(d)
    ensures CountsOk(AddCtx(cfg, d, rawApid, rawCtid, r))
  {
    var k := SetId(rawApid) + SetId(rawCtid);
    if k in d.ctxs {
      KnownCtxKeepsCounts(d, k, Register(cfg, d.ctxs[k], false, r));
    } else if AddCtx(cfg, d, rawApid, rawCtid, r) != d {
      NewCtxKeepsCounts(d, AddCtx(cfg, d, rawApid, rawCtid, r), k, Register(cfg, NewContext(rawApid, rawCtid), true, r));
    }
  }

  lemma DeleteCtxKeepsCounts(d: Dir, k: Key)
    requires CountsOk(d) && k in d.ctxs
    ensures CountsOk(DeleteCtx(d, k))
  {
    var d' := DeleteCtx(d, k);
    forall a | a in d'.apps ensures d'.apps[a].numContexts == |CtxsOf(d', a)| {
      assert CtxsOf(d', a) == CtxsOf(d, a) - {k};
      if a == AppKeyOf(d.ctxs[k]) {
        assert k in CtxsOf(d, a);
      } else {
        assert k !in CtxsOf(d, a);
      }
    }
  }

  lemma AddAppKeepsCounts(build: Build, d: Dir, raw: Id, pid: int, description: Option<seq<Byte>>,
                          fd: int, pipe: OpenResult)
    requires CountsOk(d)
    ensures CountsOk(AddApp(build, d, raw, pid, description, fd, pipe).dir)
  {
    if raw[0] != 0 {
      IntroduceKeepsCounts(d, raw, description);
      AddAppFrame(build, d, raw, pid, description, fd, pipe);
      SameRecordsSameCounts(Introduce(d, raw, description), AddApp(build, d, raw, pid, description, fd, pipe).dir);
    }
  }

  lemma ResetKeepsCounts(d: Dir, k: Key)
    requires CountsOk(d) && k in d.apps
    ensures CountsOk(ResetHandle(d, k).dir)
    ensures CtxsOf(ResetHandle(d, k).dir, k) == CtxsOf(d, k)
  {
    ResetFrame(d, k);
    SameRecordsSameCounts(d, ResetHandle(d, k).dir);
  }

  lemma SendKeepsCounts(cfg: Config, d: Dir, k: Key, outcome: Outcome)
    requires CountsOk(d) && k in d.ctxs
    ensures CountsOk(Send(cfg, d, k, outcome).dir)
  {
    SendFrame(cfg, d, k, outcome);
    SameRecordsSameCounts(d, Send(cfg, d, k, outcome).dir);
  }

  lemma StepKeepsCounts(build: Build, cfg: Config, d: Dir, op: Op)
    requires CountsOk(d) && OrderedDeletion(d, op)
    ensures CountsOk(Step(build, cfg, d, op).dir)
  {
    match op
    case AddApplication(raw, pid, description, fd, pipe) =>
      AddAppKeepsCounts(build, d, raw, pid, description, fd, pipe);
    case DeleteApplication(raw) =>
      if SetId(raw) in d.apps {
        ResetKeepsCounts(d, SetId(raw));
        DeletedWithoutContexts(ResetHandle(d, SetId(raw)).dir, SetId(raw));
      }
    case ClearApplications =>
    case AddContext(rawApid, rawCtid, r) => AddCtxKeepsCounts(cfg, d, rawApid, rawCtid, r);
    case DeleteContext(rawApid, rawCtid) =>
      var k := SetId(rawApid) + SetId(rawCtid);
      if k in d.ctxs { DeleteCtxKeepsCounts(d, k); }
    case ClearContexts => ClearedKeepsCounts(d);
    case InvalidateFd(fd) =>
      InvalidateFrame(d, fd);
      SameRecordsSameCounts(d, Invalidate(d, fd));
    case SendState(raw, outcome) => if SetId(raw) in d.apps { ResetKeepsCounts(d, SetId(raw)); }
    case SendLevel(rawApid, rawCtid, outcome) =>
      var k := SetId(rawApid) + SetId(rawCtid);
      if k in d.ctxs { SendKeepsCounts(cfg, d, k, outcome); }
    case UpdateLevel(k, enforce, cap, level, outcome) =>
      if k in d.ctxs {
        var c := d.ctxs[k].(logLevel := UpdatedLevel(enforce, cap, level));
        KnownCtxKeepsCounts(d, k, c);
        SendKeepsCounts(cfg, d.(ctxs := d.ctxs[k := c]), k, outcome);
      }
    case SetLevel(k, request, outcome) =>
      if k in d.ctxs {
        var c := Settled(d.ctxs[k], request, outcome);
        KnownCtxKeepsCounts(d, k, c);
        SetFrame(cfg, d, k, request, outcome);
        SameRecordsSameCounts(d.(ctxs := d.ctxs[k := c]), Set(cfg, d, k, request, outcome).dir);
      }
    case SetStorage(k, level) =>
      if k in d.ctxs { KnownCtxKeepsCounts(d, k, d.ctxs[k].(storageLogLevel := level)); }
    case Inject(rawApid, rawCtid, outcome) =>
      var k := SetId(rawApid) + SetId(rawCtid);
      if k in d.ctxs {
        InjectFrame(d, k, outcome);
        SameRecordsSameCounts(d, InjectInto(d, k, outcome).dir);
      }
  }

  lemma ClearedKeepsCounts(d: Dir)
    requires CountsOk(d)
    ensures CountsOk(Dir(MapValues(d.apps, ResetCount), map[]))
  {
    var d' := Dir(MapValues(d.apps, ResetCount), map[]);
    forall a | a in d'.apps ensures d'.apps[a].numContexts == |CtxsOf(d', a)| {
      assert CtxsOf(d', a) == {};
    }
  }

  lemma DeletedWithoutContexts(d: Dir, a: Key)
    requires CountsOk(d) && a in d.apps && CtxsOf(d, a) == {}
    ensures CountsOk(d.(apps := d.apps - {a}))
  {
    var d' := d.(apps := d.apps - {a});
    forall k | k in d'.ctxs ensures AppKeyOf(d'.ctxs[k]) in d'.apps {
      assert k !in CtxsOf(d, a);
    }
    forall b | b in d'.apps ensures d'.apps[b].numContexts == |CtxsOf(d', b)| {
      assert CtxsOf(d', b) == CtxsOf(d, b);
    }
  }

  /** In every run that deletes applications after their contexts the counters are exact. */
  lemma {:induction false} RunKeepsCounts(build: Build, cfg: Config, d: Dir, ops: seq<Op>)
    requires CountsOk(d) && OrderedRun(build, cfg, d, ops)
    ensures CountsOk(Run(build, cfg, d, ops).dir)
    decreases |ops|
  {
    if |ops| > 0 {
      StepKeepsCounts(build, cfg, d, ops[0]);
      RunKeepsCounts(build, cfg, Step(build, cfg, d, ops[0]).dir, ops[1..]);
    }
  }
}
