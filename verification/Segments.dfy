/**
 * Where the contexts of an application lie in the contexts array.
 *
 * The daemon finds them by summing counters: the contexts of application p start at the sum
 * of the counters in front of p. This module proves that sum right from the order of the two
 * arrays and the agreement of the counters, and with it the unregistration of an application.
 */
module Segments {
  import opened Order
  import opened Ids
  import opened SortedTable
  import opened TableMaps
  import opened Entities
  import opened UserLists
  import opened Refinement
  import D = Directory
  import opened Handles
  import opened Counts

  /** The number of leading contexts whose application id is below a. */
  function Lower(ctxs: seq<Context>, a: Id): (n: nat)
    ensures n <= |ctxs|
  {
    if |ctxs| == 0 || Less(ctxs[|ctxs| - 1].apid, a) then |ctxs| else Lower(ctxs[..|ctxs| - 1], a)
  }

  /** The number of leading contexts whose application id is not above a. */
  function Upper(ctxs: seq<Context>, a: Id): (n: nat)
    ensures n <= |ctxs|
  {
    if |ctxs| == 0 || !Less(a, ctxs[|ctxs| - 1].apid) then |ctxs| else Upper(ctxs[..|ctxs| - 1], a)
  }

  /** Along the contexts array application ids never decrease. */
  lemma ApidsAscend(ctxs: seq<Context>, i: nat, j: nat)
    requires StrictlySorted(ctxs, CtxKey) && i <= j < |ctxs|
    ensures ctxs[i].apid == ctxs[j].apid || Less(ctxs[i].apid, ctxs[j].apid)
  {
    if i < j {
      assert InOrder(ctxs, CtxKey, i, j);
      LessOfConcat(ctxs[i].apid, ctxs[i].ctid, ctxs[j].apid, ctxs[j].ctid);
    }
  }

  lemma {:induction false} LowerExact(ctxs: seq<Context>, a: Id, i: nat)
    requires StrictlySorted(ctxs, CtxKey) && i < |ctxs|
    ensures i < Lower(ctxs, a) <==> Less(ctxs[i].apid, a)
  {
    var n := |ctxs| - 1;
    ApidsAscend(ctxs, i, n);
    if Less(ctxs[n].apid, a) {
      if ctxs[i].apid != ctxs[n].apid { LessTransitive(ctxs[i].apid, ctxs[n].apid, a); }
    } else if i < n {
      PrefixSorted(ctxs, CtxKey, n);
      LowerExact(ctxs[..n], a, i);
    }
  }

  lemma {:induction false} UpperExact(ctxs: seq<Context>, a: Id, i: nat)
    requires StrictlySorted(ctxs, CtxKey) && i < |ctxs|
    ensures i < Upper(ctxs, a) <==> !Less(a, ctxs[i].apid)
  {
    var n := |ctxs| - 1;
    ApidsAscend(ctxs, i, n);
    if !Less(a, ctxs[n].apid) {
      if Less(a, ctxs[i].apid) && ctxs[i].apid != ctxs[n].apid { LessTransitive(a, ctxs[i].apid, ctxs[n].apid); }
    } else if i < n {
      PrefixSorted(ctxs, CtxKey, n);
      UpperExact(ctxs[..n], a, i);
    }
  }

  /** Contexts Lower to Upper are exactly those of application a. */
  lemma SegmentExact(ctxs: seq<Context>, a: Id, i: nat)
    requires StrictlySorted(ctxs, CtxKey) && i < |ctxs|
    ensures Lower(ctxs, a) <= i < Upper(ctxs, a) <==> ctxs[i].apid == a
  {
    LowerExact(ctxs, a, i);
    UpperExact(ctxs, a, i);
    LessIsTotal(ctxs[i].apid, a);
  }

  lemma LowerNotAboveUpper(ctxs: seq<Context>, a: Id)
    requires StrictlySorted(ctxs, CtxKey)
    ensures Lower(ctxs, a) <= Upper(ctxs, a)
  {
    var i := Upper(ctxs, a);
    if i < Lower(ctxs, a) {
      LowerExact(ctxs, a, i);
      UpperExact(ctxs, a, i);
      LessIsTotal(a, ctxs[i].apid);
    }
  }

  ghost function KeysIn(ctxs: seq<Context>, lo: nat, hi: nat): set<Key>
    requires lo <= hi <= |ctxs|
    decreases hi
  {
    if lo == hi then {} else KeysIn(ctxs, lo, hi - 1) + {CtxKey(ctxs[hi - 1])}
  }

  lemma {:induction false} KeysInMembers(ctxs: seq<Context>, lo: nat, hi: nat, k: Key)
    requires lo <= hi <= |ctxs|
    ensures k in KeysIn(ctxs, lo, hi) <==> exists i :: lo <= i < hi && CtxKey(ctxs[i]) == k
    decreases hi
  {
    if lo < hi { KeysInMembers(ctxs, lo, hi - 1, k); }
  }

  lemma {:induction false} KeysInSize(ctxs: seq<Context>, lo: nat, hi: nat)
    requires StrictlySorted(ctxs, CtxKey) && lo <= hi <= |ctxs|
    ensures |KeysIn(ctxs, lo, hi)| == hi - lo
    decreases hi
  {
    if lo < hi {
      var k := CtxKey(ctxs[hi - 1]);
      KeysInSize(ctxs, lo, hi - 1);
      KeysInMembers(ctxs, lo, hi - 1, k);
      forall i | lo <= i < hi - 1 ensures CtxKey(ctxs[i]) != k {
        DistinctKeys(ctxs, CtxKey, i, hi - 1);
      }
    }
  }

  lemma SegmentKeys(u: UserList, a: Id, k: Key)
    requires Ordered(u) && Lower(u.ctxs, a) <= Upper(u.ctxs, a)
    ensures k in CtxsOf(Abs(u), a) <==> k in KeysIn(u.ctxs, Lower(u.ctxs, a), Upper(u.ctxs, a))
  {
    var ctxs, lo, hi := u.ctxs, Lower(u.ctxs, a), Upper(u.ctxs, a);
    KeysInMembers(ctxs, lo, hi, k);
    if k in CtxsOf(Abs(u), a) {
      MapLookup(ctxs, CtxKey, k);
      SegmentExact(ctxs, a, Position(ctxs, CtxKey, k));
    }
    if k in KeysIn(ctxs, lo, hi) {
      var i :| lo <= i < hi && CtxKey(ctxs[i]) == k;
      CtxAt(u, i);
      SegmentExact(ctxs, a, i);
    }
  }

  /** The counter of an application is the length of its segment. */
  lemma CounterIsSegmentLength(u: UserList, p: nat)
    requires Ordered(u) && CountsOk(Abs(u)) && p < |u.apps|
    ensures u.apps[p].numContexts == Upper(u.ctxs, u.apps[p].apid) - Lower(u.ctxs, u.apps[p].apid) >= 0
  {
    var a, ctxs := u.apps[p].apid, u.ctxs;
    var lo, hi := Lower(ctxs, a), Upper(ctxs, a);
    LowerNotAboveUpper(ctxs, a);
    AppAt(u, p);
    assert CtxsOf(Abs(u), a) == KeysIn(ctxs, lo, hi) by {
      forall k ensures k in CtxsOf(Abs(u), a) <==> k in KeysIn(ctxs, lo, hi) {
        SegmentKeys(u, a, k);
      }
    }
    KeysInSize(ctxs, lo, hi);
  }

  /** Every context's application is listed, at some position. */
  lemma OwnerListed(u: UserList, i: nat) returns (p: nat)
    requires Ordered(u) && CountsOk(Abs(u)) && i < |u.ctxs|
    ensures p < |u.apps| && u.apps[p].apid == u.ctxs[i].apid
  {
    CtxAt(u, i);
    MapLookup(u.apps, AppKey, u.ctxs[i].apid);
    p := Position(u.apps, AppKey, u.ctxs[i].apid);
    assert AppKey(u.apps[p]) == u.ctxs[i].apid;
  }

  /** No context lies between the segments of neighbouring applications. */
  lemma NoGap(u: UserList, p: nat, i: nat)
    requires Ordered(u) && CountsOk(Abs(u)) && p + 1 < |u.apps| && i < |u.ctxs|
    ensures i < Upper(u.ctxs, u.apps[p].apid) <==> i < Lower(u.ctxs, u.apps[p + 1].apid)
  {
    var a, b, c := u.apps[p].apid, u.apps[p + 1].apid, u.ctxs[i].apid;
    assert InOrder(u.apps, AppKey, p, p + 1);
    UpperExact(u.ctxs, a, i);
    LowerExact(u.ctxs, b, i);
    var q := OwnerListed(u, i);
    LessIsTotal(a, c);
    LessIsTotal(c, b);
    if q <= p {
      assert InOrder(u.apps, AppKey, q, p);
      if q < p { LessTransitive(c, a, b); }
    } else {
      assert InOrder(u.apps, AppKey, p + 1, q);
      if q > p + 1 { LessTransitive(a, b, c); }
    }
  }

  lemma SegmentsAdjacent(u: UserList, p: nat)
    requires Ordered(u) && CountsOk(Abs(u)) && p + 1 < |u.apps|
    ensures Upper(u.ctxs, u.apps[p].apid) == Lower(u.ctxs, u.apps[p + 1].apid)
  {
    var x, y := Upper(u.ctxs, u.apps[p].apid), Lower(u.ctxs, u.apps[p + 1].apid);
    if x < y {
      NoGap(u, p, x);
    } else if y < x {
      NoGap(u, p, y);
    }
  }

  lemma FirstSegment(u: UserList)
    requires Ordered(u) && CountsOk(Abs(u)) && |u.apps| > 0
    ensures Lower(u.ctxs, u.apps[0].apid) == 0
    ensures Upper(u.ctxs, u.apps[|u.apps| - 1].apid) == |u.ctxs|
  {
    var first, last := u.apps[0].apid, u.apps[|u.apps| - 1].apid;
    if Lower(u.ctxs, first) > 0 {
      LowerExact(u.ctxs, first, 0);
      var q := OwnerListed(u, 0);
      assert InOrder(u.apps, AppKey, 0, q);
      LessIsTotal(first, u.ctxs[0].apid);
    }
    var i := Upper(u.ctxs, last);
    if i < |u.ctxs| {
      UpperExact(u.ctxs, last, i);
      var q := OwnerListed(u, i);
      assert InOrder(u.apps, AppKey, q, |u.apps| - 1);
      LessIsTotal(last, u.ctxs[i].apid);
    }
  }

  /** Summing the counters in front of application p gives the start of its contexts. */
  lemma {:induction false} OffsetIsLower(u: UserList, p: nat)
    requires Ordered(u) && CountsOk(Abs(u)) && p < |u.apps|
    ensures OffsetBase(u.apps, p) == Lower(u.ctxs, u.apps[p].apid)
  {
    if p == 0 {
      FirstSegment(u);
    } else {
      OffsetIsLower(u, p - 1);
      CounterIsSegmentLength(u, p - 1);
      SegmentsAdjacent(u, p - 1);
    }
  }

  /** The range computed from the counters holds exactly the contexts of application p. */
  lemma OffsetsLocateContexts(u: UserList, p: nat)
    requires Ordered(u) && CountsOk(Abs(u)) && p < |u.apps|
    ensures RangeInBounds(u, p)
    ensures forall i :: 0 <= i < |u.ctxs| ==>
      (OffsetBase(u.apps, p) <= i < OffsetBase(u.apps, p) + u.apps[p].numContexts
       <==> u.ctxs[i].apid == u.apps[p].apid)
  {
    OffsetIsLower(u, p);
    CounterIsSegmentLength(u, p);
    forall i | 0 <= i < |u.ctxs|
      ensures Lower(u.ctxs, u.apps[p].apid) <= i < Upper(u.ctxs, u.apps[p].apid) <==> u.ctxs[i].apid == u.apps[p].apid
    {
      SegmentExact(u.ctxs, u.apps[p].apid, i);
    }
  }

  /** All counters together count every context once. */
  lemma CountersSumToTotal(u: UserList)
    requires Ordered(u) && CountsOk(Abs(u))
    ensures OffsetBase(u.apps, |u.apps|) == |u.ctxs|
  {
    var n := |u.apps|;
    if n == 0 {
      if |u.ctxs| > 0 { var _ := OwnerListed(u, 0); }
    } else {
      OffsetIsLower(u, n - 1);
      CounterIsSegmentLength(u, n - 1);
      FirstSegment(u);
    }
  }

  // -------------------------------------------------------------- unregistration

  lemma OneCounted(u: UserList, p: nat, q: nat)
    requires Ordered(u) && p < |u.apps| && q < |u.ctxs| && u.ctxs[q].apid == u.apps[p].apid
    ensures DeleteCtxAt(u, q) == CountAt(u.(ctxs := Without(u.ctxs, q)), p, -1)
  {
    assert CtxIdsOk(u.ctxs[q]);
    FindAppPadded(u, u.ctxs[q].apid);
    PositionUnique(u.apps, AppKey, p);
  }

  function Counted(a: Application, delta: int): Application {
    a.(numContexts := a.numContexts + delta)
  }

  /** What deleting n contexts of application p from index base on must leave. */
  function CutRange(u: UserList, p: nat, base: nat, n: nat): UserList
    requires p < |u.apps| && base + n <= |u.ctxs|
  {
    UserList(u.apps[p := Counted(u.apps[p], 0 - n)], u.ctxs[..base] + u.ctxs[base + n..])
  }

  lemma CutOneMore(u: UserList, p: nat, base: nat, n: nat, v: UserList)
    requires p < |u.apps| && 0 < n && base + n <= |u.ctxs|
    requires v == CountAt(u.(ctxs := Without(u.ctxs, base + n - 1)), p, -1)
    ensures CutRange(v, p, base, n - 1) == CutRange(u, p, base, n)
  {
    assert v.ctxs[..base] == u.ctxs[..base] && v.ctxs[base + n - 1..] == u.ctxs[base + n..];
    assert v.apps[p := Counted(v.apps[p], 1 - n)] == u.apps[p := Counted(u.apps[p], 0 - n)];
  }

  lemma CutNothing(u: UserList, p: nat, base: nat)
    requires p < |u.apps| && base <= |u.ctxs|
    ensures CutRange(u, p, base, 0) == u
  {
    assert u.ctxs == u.ctxs[..base] + u.ctxs[base..];
    assert u.apps[p := Counted(u.apps[p], 0)] == u.apps;
  }

  /** Deleting the contexts of application p, from the last one down, cuts out their range. */
  lemma {:induction false} RangeDeleted(u: UserList, p: nat, base: nat, n: nat)
    requires Ordered(u) && p < |u.apps| && base + n <= |u.ctxs|
    requires forall i :: base <= i < base + n ==> u.ctxs[i].apid == u.apps[p].apid
    ensures DeleteCtxRange(u, base, n) == CutRange(u, p, base, n)
    decreases n
  {
    if n == 0 {
      CutNothing(u, p, base);
    } else {
      var q := base + n - 1;
      var v := CountAt(u.(ctxs := Without(u.ctxs, q)), p, -1);
      assert Ordered(v) && v == DeleteCtxAt(u, q) by {
        DeleteCtxRefines(u, q);
        OneCounted(u, p, q);
      }
      RangeDeleted(v, p, base, n - 1);
      CutOneMore(u, p, base, n, v);
    }
  }

  /** The contexts of other applications. */
  function NotOf(ctxs: seq<Context>, a: Id): seq<Context> {
    if |ctxs| == 0 then []
    else (if ctxs[0].apid == a then [] else [ctxs[0]]) + NotOf(ctxs[1..], a)
  }

  lemma {:induction false} NotOfConcat(s: seq<Context>, t: seq<Context>, a: Id)
    ensures NotOf(s + t, a) == NotOf(s, a) + NotOf(t, a)
    decreases |s|
  {
    if |s| == 0 {
      assert s + t == t;
    } else {
      assert (s + t)[0] == s[0] && (s + t)[1..] == s[1..] + t;
      NotOfConcat(s[1..], t, a);
      var head := if s[0].apid == a then [] else [s[0]];
      assert head + (NotOf(s[1..], a) + NotOf(t, a)) == (head + NotOf(s[1..], a)) + NotOf(t, a);
    }
  }

  lemma {:induction false} NotOfUniform(s: seq<Context>, a: Id, drop: bool)
    requires forall i :: 0 <= i < |s| ==> (s[i].apid == a <==> drop)
    ensures NotOf(s, a) == if drop then [] else s
    decreases |s|
  {
    if |s| > 0 {
      NotOfUniform(s[1..], a, drop);
      assert s == [s[0]] + s[1..];
    }
  }

  /** Cutting out the segment of a is dropping the contexts of a. */
  lemma NotOfSegment(ctxs: seq<Context>, a: Id, lo: nat, hi: nat)
    requires lo <= hi <= |ctxs|
    requires forall i :: 0 <= i < |ctxs| ==> (lo <= i < hi <==> ctxs[i].apid == a)
    ensures NotOf(ctxs, a) == ctxs[..lo] + ctxs[hi..]
  {
    var x, y, z := ctxs[..lo], ctxs[lo..hi], ctxs[hi..];
    assert NotOf(x, a) == x by { NotOfUniform(x, a, false); }
    assert NotOf(y, a) == [] by { NotOfUniform(y, a, true); }
    assert NotOf(z, a) == z by { NotOfUniform(z, a, false); }
    assert NotOf(x + (y + z), a) == x + z by { NotOfThree(x, y, z, a); }
    assert ctxs == x + (y + z);
  }

  lemma NotOfThree(x: seq<Context>, y: seq<Context>, z: seq<Context>, a: Id)
    requires NotOf(x, a) == x && NotOf(y, a) == [] && NotOf(z, a) == z
    ensures NotOf(x + (y + z), a) == x + z
  {
    NotOfConcat(x, y + z, a);
    NotOfConcat(y, z, a);
    assert [] + z == z;
  }

  /** Releasing the application's descriptor touches no context of another application. */
  ghost predicate SparesOthers(u: UserList, p: nat)
    requires p < |u.apps|
  {
    u.apps[p].userHandle != 0 || forall c :: c in u.ctxs && c.apid != u.apps[p].apid ==> c.userHandle != 0
  }

  lemma ReleaseNothing(u: UserList, ctxs: seq<Context>, p: nat)
    requires Ordered(u) && HandlesOk(Abs(u)) && p < |u.apps|
    requires u.apps[p].userHandle != FD_INIT && u.apps[p].userHandle != 0
    requires forall i :: 0 <= i < |ctxs| ==> ctxs[i] in u.ctxs && ctxs[i].apid != u.apps[p].apid
    ensures MapSeq(ctxs, CtxReleaser(u.apps[p].userHandle)) == ctxs
  {
    forall i | 0 <= i < |ctxs| ensures ctxs[i].userHandle != u.apps[p].userHandle {
      var j :| 0 <= j < |u.ctxs| && u.ctxs[j] == ctxs[i];
      CtxAt(u, j);
      AppAt(u, p);
      assert BorrowedFromOwner(Abs(u), ctxs[i]);
    }
  }

  lemma {:induction false} NotOfMembers(ctxs: seq<Context>, a: Id)
    ensures forall c :: c in NotOf(ctxs, a) <==> c in ctxs && c.apid != a
    decreases |ctxs|
  {
    if |ctxs| > 0 {
      NotOfMembers(ctxs[1..], a);
      assert ctxs == [ctxs[0]] + ctxs[1..];
    }
  }

  /** The contexts left over: an application on descriptor 0 takes the mark 0 from them. */
  function LeftOver(a: Application, ctxs: seq<Context>): seq<Context> {
    if a.userHandle == 0 then MapSeq(ctxs, CtxReleaser(0)) else ctxs
  }

  /** Deleting an application whose contexts are gone. */
  lemma DeleteBare(u: UserList, p: nat, base: nat, n: nat, v: UserList)
    requires Ordered(u) && HandlesOk(Abs(u)) && p < |u.apps| && base + n <= |u.ctxs|
    requires v == CutRange(u, p, base, n)
    requires forall i :: 0 <= i < |v.ctxs| ==> v.ctxs[i] in u.ctxs && v.ctxs[i].apid != u.apps[p].apid
    ensures var a := u.apps[p];
            DeleteAppAt(v, p) == Change(UserList(Without(u.apps, p), LeftOver(a, v.ctxs)),
                                        if a.userHandle != FD_INIT && a.ownsHandle then [Closed(a.userHandle)] else [])
  {
    if u.apps[p].userHandle != FD_INIT && u.apps[p].userHandle != 0 {
      ReleaseNothing(u, v.ctxs, p);
    }
    assert Without(ResetAt(v, p).users.apps, p) == Without(u.apps, p);
  }

  /** The deleted range leaves the contexts of the other applications. */
  lemma OwnContextsDeleted(u: UserList, p: nat)
    requires Ordered(u) && CountsOk(Abs(u)) && p < |u.apps|
    ensures RangeInBounds(u, p)
    ensures var base, n := OffsetBase(u.apps, p), u.apps[p].numContexts;
            && DeleteCtxRange(u, base, n) == CutRange(u, p, base, n)
            && CutRange(u, p, base, n).ctxs == NotOf(u.ctxs, u.apps[p].apid)
  {
    OffsetsLocateContexts(u, p);
    var base, n := OffsetBase(u.apps, p), u.apps[p].numContexts;
    assert DeleteCtxRange(u, base, n) == CutRange(u, p, base, n) by { RangeDeleted(u, p, base, n); }
    NotOfSegment(u.ctxs, u.apps[p].apid, base, base + n);
  }

  /**
   * Unregistering an application, whose contexts are located by summing counters, removes
   * that application and exactly its contexts. The stored descriptor is closed once when the
   * daemon owns it. Everything else stays as it was, except that an application on descriptor
   * 0 takes the mark 0 from the contexts of others.
   */
  lemma UnregisterExact(u: UserList, raw: Id, p: nat)
    requires Ordered(u) && CountsOk(Abs(u)) && HandlesOk(Abs(u)) && p == FindApp(u.apps, raw)
    ensures RangeInBounds(u, p)
    ensures var a := u.apps[p];
            Unregister(u, raw) == Change(UserList(Without(u.apps, p), LeftOver(a, NotOf(u.ctxs, a.apid))),
                                         if a.userHandle != FD_INIT && a.ownsHandle then [Closed(a.userHandle)] else [])
  {
    OwnContextsDeleted(u, p);
    NotOfMembers(u.ctxs, u.apps[p].apid);
    var base, n := OffsetBase(u.apps, p), u.apps[p].numContexts;
    DeleteBare(u, p, base, n, CutRange(u, p, base, n));
  }

  lemma LeftOverIff(u: UserList, p: nat)
    requires p < |u.apps|
    ensures var others := NotOf(u.ctxs, u.apps[p].apid);
            LeftOver(u.apps[p], others) == others <==> SparesOthers(u, p)
  {
    var a, others := u.apps[p], NotOf(u.ctxs, u.apps[p].apid);
    NotOfMembers(u.ctxs, a.apid);
    if SparesOthers(u, p) {
      assert forall i :: 0 <= i < |others| ==> others[i] in others;
    } else {
      var c :| c in u.ctxs && c.apid != a.apid && c.userHandle == 0;
      var j :| 0 <= j < |others| && others[j] == c;
      assert LeftOver(a, others)[j] != others[j];
    }
  }

  /**
   * Descriptor 0 also marks contexts loaded from the runtime configuration. The other
   * contexts stay as they were if and only if the application did not hold it or there is
   * no such context.
   */
  lemma UnregisterSparesOthersIff(u: UserList, raw: Id, p: nat)
    requires Ordered(u) && CountsOk(Abs(u)) && HandlesOk(Abs(u)) && p == FindApp(u.apps, raw)
    ensures RangeInBounds(u, p)
    ensures Unregister(u, raw).users.ctxs == NotOf(u.ctxs, u.apps[p].apid) <==> SparesOthers(u, p)
  {
    UnregisterExact(u, raw, p);
    LeftOverIff(u, p);
  }

  /** On the maps: the application and all contexts under its id are gone. */
  ghost function Forget(d: D.Dir, a: Key): D.Dir {
    D.Dir(d.apps - {a}, map k | k in d.ctxs && D.AppKeyOf(d.ctxs[k]) != a :: d.ctxs[k])
  }

  lemma SortedWithoutRange<T>(s: seq<T>, key: T -> Key, lo: nat, hi: nat)
    requires StrictlySorted(s, key) && lo <= hi <= |s|
    ensures StrictlySorted(s[..lo] + s[hi..], key)
  {
    var t := s[..lo] + s[hi..];
    forall i, j ensures InOrder(t, key, i, j) {
      assert InOrder(s, key, if i < lo then i else i + hi - lo, if j < lo then j else j + hi - lo);
    }
  }

  lemma NotOfSorted(u: UserList, p: nat)
    requires Ordered(u) && CountsOk(Abs(u)) && p < |u.apps|
    ensures StrictlySorted(NotOf(u.ctxs, u.apps[p].apid), CtxKey)
  {
    OwnContextsDeleted(u, p);
    var base := OffsetBase(u.apps, p);
    SortedWithoutRange(u.ctxs, CtxKey, base, base + u.apps[p].numContexts);
  }

  lemma NotOfAsMap(u: UserList, a: Id)
    requires Ordered(u) && StrictlySorted(NotOf(u.ctxs, a), CtxKey)
    ensures AsMap(NotOf(u.ctxs, a), CtxKey) == Forget(Abs(u), a).ctxs
  {
    var t, m := NotOf(u.ctxs, a), Forget(Abs(u), a).ctxs;
    NotOfMembers(u.ctxs, a);
    forall i | 0 <= i < |t| ensures CtxKey(t[i]) in m && m[CtxKey(t[i])] == t[i] {
      assert t[i] in t;
      var j :| 0 <= j < |u.ctxs| && u.ctxs[j] == t[i];
      CtxAt(u, j);
    }
    forall k | k in m ensures Has(t, CtxKey, k) {
      MapLookup(u.ctxs, CtxKey, k);
      var c := u.ctxs[Position(u.ctxs, CtxKey, k)];
      assert c in t && CtxKey(c) == k;
      var i :| 0 <= i < |t| && t[i] == c;
      HasAt(t, CtxKey, i);
    }
    MapIs(t, CtxKey, m);
  }

  lemma NotOfIdsOk(u: UserList, a: Id)
    requires Ordered(u)
    ensures forall i :: 0 <= i < |NotOf(u.ctxs, a)| ==> CtxIdsOk(NotOf(u.ctxs, a)[i])
  {
    NotOfMembers(u.ctxs, a);
    var t := NotOf(u.ctxs, a);
    forall i | 0 <= i < |t| ensures CtxIdsOk(t[i]) {
      assert t[i] in u.ctxs;
    }
  }

  lemma ForgetRefines(u: UserList, p: nat, v: UserList)
    requires Ordered(u) && CountsOk(Abs(u)) && p < |u.apps|
    requires v == UserList(Without(u.apps, p), NotOf(u.ctxs, u.apps[p].apid))
    ensures Ordered(v) && Abs(v) == Forget(Abs(u), u.apps[p].apid)
  {
    WithoutAsMap(u.apps, AppKey, p);
    NotOfSorted(u, p);
    NotOfAsMap(u, u.apps[p].apid);
    NotOfIdsOk(u, u.apps[p].apid);
  }

  /** Deleting contexts one by one keeps everything the registry relies on. */
  lemma {:induction false} RangeDeletionKeeps(u: UserList, base: nat, n: nat)
    requires Ordered(u) && CountsOk(Abs(u)) && HandlesOk(Abs(u)) && base + n <= |u.ctxs|
    ensures var v := DeleteCtxRange(u, base, n); Ordered(v) && CountsOk(Abs(v)) && HandlesOk(Abs(v))
    decreases n
  {
    if n > 0 {
      var q := base + n - 1;
      DeleteCtxRefines(u, q);
      DeleteCtxKeeps(Abs(u), CtxKey(u.ctxs[q]));
      DeleteCtxKeepsCounts(Abs(u), CtxKey(u.ctxs[q]));
      RangeDeletionKeeps(DeleteCtxAt(u, q), base, n - 1);
    }
  }

  lemma NoContextsLeft(u: UserList, v: UserList, a: Id)
    requires v.ctxs == NotOf(u.ctxs, a)
    ensures CtxsOf(Abs(v), a) == {}
  {
    NotOfMembers(u.ctxs, a);
    forall k | k in Abs(v).ctxs ensures D.AppKeyOf(Abs(v).ctxs[k]) != a {
      MapLookup(v.ctxs, CtxKey, k);
    }
  }

  lemma AppDeletionKeeps(v: UserList, p: nat)
    requires Ordered(v) && CountsOk(Abs(v)) && HandlesOk(Abs(v)) && p < |v.apps| && CtxsOf(Abs(v), v.apps[p].apid) == {}
    ensures var w := DeleteAppAt(v, p).users; Ordered(w) && CountsOk(Abs(w)) && HandlesOk(Abs(w))
  {
    var k := AppKey(v.apps[p]);
    DeleteAppRefines(v, p);
    DeleteAppKeeps(Abs(v), k);
    ResetKeepsCounts(Abs(v), k);
    DeletedWithoutContexts(D.ResetHandle(Abs(v), k).dir, k);
  }

  /** Every unregistration keeps everything the registry relies on. */
  lemma UnregisterKeepsInvariants(u: UserList, raw: Id, p: nat)
    requires Ordered(u) && CountsOk(Abs(u)) && HandlesOk(Abs(u)) && p == FindApp(u.apps, raw)
    ensures RangeInBounds(u, p)
    ensures var v := Unregister(u, raw).users; Ordered(v) && HandlesOk(Abs(v)) && CountsOk(Abs(v))
  {
    OwnContextsDeleted(u, p);
    var base, n := OffsetBase(u.apps, p), u.apps[p].numContexts;
    var v := DeleteCtxRange(u, base, n);
    RangeDeletionKeeps(u, base, n);
    assert v.apps[p].apid == u.apps[p].apid;
    NoContextsLeft(u, v, u.apps[p].apid);
    AppDeletionKeeps(v, p);
  }

  /** On the maps the id and its contexts are gone and nothing else has changed. */
  lemma UnregisterForgets(u: UserList, raw: Id, p: nat)
    requires Ordered(u) && CountsOk(Abs(u)) && HandlesOk(Abs(u)) && p == FindApp(u.apps, raw) && SparesOthers(u, p)
    ensures RangeInBounds(u, p)
    ensures Abs(Unregister(u, raw).users) == Forget(Abs(u), SetId(raw))
  {
    UnregisterExact(u, raw, p);
    LeftOverIff(u, p);
    ForgetRefines(u, p, Unregister(u, raw).users);
  }
}
