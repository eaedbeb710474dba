/**
 * What the descriptor-related operations of the registry leave alone.
 */
module Frames {
  import opened Order
  import opened Ids
  import opened Entities
  import opened Directory

  function Bare(c: Context): Context {
    c.(userHandle := FD_INIT)
  }

  function BareApp(a: Application): Application {
    a.(userHandle := FD_INIT, ownsHandle := false, pid := 0)
  }

  /** Same records up to descriptors and process ids. */
  ghost predicate SameRecords(d: Dir, d': Dir) {
    && d.apps.Keys == d'.apps.Keys
    && d.ctxs.Keys == d'.ctxs.Keys
    && (forall k :: k in d.apps ==> BareApp(d.apps[k]) == BareApp(d'.apps[k]))
    && (forall k :: k in d.ctxs ==> Bare(d.ctxs[k]) == Bare(d'.ctxs[k]))
  }

  lemma ResetFrame(d: Dir, k: Key)
    requires k in d.apps
    ensures SameRecords(d, ResetHandle(d, k).dir)
  {
  }

  lemma InvalidateFrame(d: Dir, h: int)
    ensures SameRecords(d, Invalidate(d, h))
  {
  }

  lemma SameRecordsTransitive(d1: Dir, d2: Dir, d3: Dir)
    requires SameRecords(d1, d2) && SameRecords(d2, d3)
    ensures SameRecords(d1, d3)
  {
  }

  lemma RebindFrame(d: Dir, k: Key, pid: int)
    requires k in d.apps
    ensures SameRecords(d, Rebind(d, k, pid).dir)
  {
    ResetFrame(d, k);
  }

  lemma AttachFrame(build: Build, d: Dir, k: Key, pid: int, fd: int, pipe: OpenResult)
    requires k in d.apps
    ensures SameRecords(d, Attach(build, d, k, pid, fd, pipe).dir)
  {
    InvalidateFrame(d, Acquire(build, fd, pipe).handle);
  }

  /** Registering an application touches no record but its own, up to descriptors. */
  lemma AddAppFrame(build: Build, d: Dir, raw: Id, pid: int, description: Option<seq<Byte>>,
                    fd: int, pipe: OpenResult)
    requires raw[0] != 0
    ensures SameRecords(Introduce(d, raw, description), AddApp(build, d, raw, pid, description, fd, pipe).dir)
  {
    var d1, k := Introduce(d, raw, description), SetId(raw);
    RebindFrame(d1, k, pid);
    var d2 := Rebind(d1, k, pid).dir;
    AttachFrame(build, d2, k, pid, fd, pipe);
    SameRecordsTransitive(d1, d2, Attach(build, d2, k, pid, fd, pipe).dir);
  }

  lemma SendFrame(cfg: Config, d: Dir, k: Key, outcome: Outcome)
    requires k in d.ctxs
    ensures SameRecords(d, Send(cfg, d, k, outcome).dir)
    ensures forall i :: 0 <= i < |Send(cfg, d, k, outcome).events| && Send(cfg, d, k, outcome).events[i].Sent?
                        ==> Send(cfg, d, k, outcome).events[i].level == LevelToSend(cfg, d.ctxs[k])
  {
    if AppKeyOf(d.ctxs[k]) in d.apps { ResetFrame(d, AppKeyOf(d.ctxs[k])); }
  }

  /** The record of a context whose levels were set, up to its descriptor. */
  function Settled(c: Context, request: LevelRequest, outcome: Outcome): Context {
    if Stays(c, request, outcome) then Requested(c, request) else c
  }

  lemma SetFrame(cfg: Config, d: Dir, k: Key, request: LevelRequest, outcome: Outcome)
    requires k in d.ctxs
    ensures SameRecords(d.(ctxs := d.ctxs[k := Settled(d.ctxs[k], request, outcome)]), Set(cfg, d, k, request, outcome).dir)
  {
    var d1 := d.(ctxs := d.ctxs[k := Requested(d.ctxs[k], request)]);
    if d.ctxs[k].userHandle >= FD_MINIMUM { SendFrame(cfg, d1, k, outcome); }
  }

  lemma InjectFrame(d: Dir, k: Key, outcome: Outcome)
    requires k in d.ctxs
    ensures SameRecords(d, InjectInto(d, k, outcome).dir)
  {
  }
}
