/**
 * dlt-receive: the size limit given on the command line and the output files it splits the
 * received messages into.
 */
module Receive {
  import opened Order
  import opened RuntimeText

  // ---------------------------------------------------------------- the limit argument

  const INT64_MAX := 0x7fff_ffff_ffff_ffff

  /** Storage, standard, extra and extended header, and the largest user data. */
  const MIN_LIMIT := 16 + 4 + 12 + 10 + 2048

  const REFUSED := -2

  function FactorOf(last: Byte): int {
    if last == 75 || last == 107 then 1024
    else if last == 77 || last == 109 then 1024 * 1024
    else if last == 71 || last == 103 then 1024 * 1024 * 1024
    else 1
  }

  /** Digits, the last of which may be one of K, M, G in either case instead. */
  ghost predicate IsSize(arg: seq<Byte>) {
    && |arg| > 0
    && (forall i :: 0 <= i < |arg| - 1 ==> IsDigit(arg[i]))
    && (IsDigit(arg[|arg| - 1]) || FactorOf(arg[|arg| - 1]) != 1)
  }

  ghost function DigitsOf(arg: seq<Byte>): seq<Byte>
    requires |arg| > 0
  {
    if IsDigit(arg[|arg| - 1]) then arg else arg[..|arg| - 1]
  }

  /** The number of bytes the argument stands for. */
  ghost function SizeOf(arg: seq<Byte>): int
    requires |arg| > 0
  {
    ValueOf(DigitsOf(arg)) * FactorOf(arg[|arg| - 1])
  }

  ghost predicate AreDigits(s: seq<Byte>) {
    |s| > 0 && forall i :: 0 <= i < |s| ==> IsDigit(s[i])
  }

  /** The size that an argument stands for, letter by letter. */
  lemma SizeBySuffix(digits: seq<Byte>, letter: Byte)
    requires AreDigits(digits)
    ensures SizeOf(digits) == ValueOf(digits)
    ensures !IsDigit(letter) ==>
      SizeOf(digits + [letter]) == ValueOf(digits) *
        (if letter in {75, 107} then 1024 else if letter in {77, 109} then 1048576
         else if letter in {71, 103} then 1073741824 else 1)
    ensures IsSize(digits) && (!IsDigit(letter) ==> (IsSize(digits + [letter]) <==> letter in {75, 107, 77, 109, 71, 103}))
  {
    assert (digits + [letter])[..|digits|] == digits;
    assert forall i :: 0 <= i < |digits| ==> (digits + [letter])[i] == digits[i];
  }

  /** atoll: zero when nothing can be converted. */
  function Atoll(s: seq<Byte>): int {
    var r := ScanInt(s);
    if r.Some? then r.value else 0
  }

  lemma {:induction false} LeadingDigitsStop(digits: seq<Byte>, rest: seq<Byte>)
    requires forall i :: 0 <= i < |digits| ==> IsDigit(digits[i])
    requires |rest| > 0 ==> !IsDigit(rest[0])
    ensures LeadingDigits(digits + rest) == digits
  {
    if |digits| > 0 {
      assert (digits + rest)[1..] == digits[1..] + rest;
      LeadingDigitsStop(digits[1..], rest);
      assert digits == [digits[0]] + digits[1..];
    } else {
      assert digits + rest == rest;
    }
  }

  lemma {:induction false} ValueNotNegative(digits: seq<Byte>)
    requires forall i :: 0 <= i < |digits| ==> IsDigit(digits[i])
    ensures ValueOf(digits) >= 0
  {
    if |digits| > 0 {
      ValueNotNegative(digits[..|digits| - 1]);
    }
  }

  lemma AtollOfSize(arg: seq<Byte>)
    requires IsSize(arg)
    ensures Atoll(arg) == ValueOf(DigitsOf(arg)) >= 0
  {
    var digits := DigitsOf(arg);
    var rest := arg[|digits|..];
    assert arg == digits + rest;
    LeadingDigitsStop(digits, rest);
    ValueNotNegative(digits);
  }

  /**
   * convert_arg_to_byte_size. It accepts exactly the sizes of at least one message that fit
   * 64 bits, and no product leaves that range.
   */
  method ConvertArgToByteSize(arg: seq<Byte>) returns (r: int)
    requires |arg| > 0 && (IsSize(arg) ==> ValueOf(DigitsOf(arg)) <= INT64_MAX)
    ensures r != REFUSED <==> IsSize(arg) && MIN_LIMIT <= SizeOf(arg) <= INT64_MAX
    ensures r != REFUSED ==> r == SizeOf(arg)
  {
    for i := 0 to |arg| - 1
      invariant forall k :: 0 <= k < i ==> IsDigit(arg[k])
    {
      if !IsDigit(arg[i]) {
        return REFUSED;
      }
    }
    var last := arg[|arg| - 1];
    var factor := FactorOf(last);
    if factor == 1 && !IsDigit(last) {
      return REFUSED;
    }
    AtollOfSize(arg);
    var mult := Atoll(arg);
    if INT64_MAX / factor < mult {
      return REFUSED;
    }
    assert factor * mult <= INT64_MAX;
    r := factor * mult;
    if MIN_LIMIT > r {
      r := REFUSED;
    }
  }

  // -------------------------------------------------------------------- output files

  datatype Attempt = Wrote(bytes: seq<Byte>) | WriteFailed

  /** What was done to one output file since it was opened. */
  type OutFile = seq<Attempt>

  datatype Output = Output(limit: int, total: int, isOpen: bool, closed: seq<OutFile>, current: OutFile)

  /**
   * A received message, whether the filter passes it, and what the system does: whether a
   * file can be opened, and how many bytes a write takes (-1 for an error).
   */
  datatype Delivery = Delivery(header: seq<Byte>, data: seq<Byte>, passes: bool, opens: bool, written: int)

  predicate Possible(d: Delivery) {
    -1 <= d.written <= |d.header| + |d.data|
  }

  /** An opened file and a complete write. */
  predicate Complete(d: Delivery) {
    d.opens && d.written == |d.header| + |d.data|
  }

  function Closed(o: Output): seq<OutFile> {
    if o.isOpen then o.closed + [o.current] else o.closed
  }

  predicate MustRotate(o: Output, d: Delivery) {
    o.limit > -1 && |d.header| + |d.data| + o.total > o.limit
  }

  function Write(o: Output, d: Delivery): Output
    requires Possible(d)
  {
    if !o.isOpen then o.(total := o.total - 1)
    else if d.written < 0 then o.(total := o.total - 1, current := o.current + [WriteFailed])
    else o.(total := o.total + d.written, current := o.current + [Wrote((d.header + d.data)[..d.written])])
  }

  function Step(o: Output, d: Delivery): Output
    requires Possible(d)
  {
    if !d.passes then o
    else if !MustRotate(o, d) then Write(o, d)
    else if !d.opens then o.(isOpen := false, closed := Closed(o), current := [])
    else Write(Output(o.limit, 0, true, Closed(o), []), d)
  }

  function Run(o: Output, ds: seq<Delivery>): Output
    requires forall i :: 0 <= i < |ds| ==> Possible(ds[i])
  {
    if |ds| == 0 then o else Step(Run(o, ds[..|ds| - 1]), ds[|ds| - 1])
  }

  function Fresh(limit: int): Output {
    Output(limit, 0, true, [], [])
  }

  /** The part of DltReceiveData behind file output. */
  class Receiver {
    const climit: int
    var totalbytes: int
    var handleOpen: bool
    var closedFiles: seq<OutFile>
    var currentFile: OutFile

    ghost function State(): Output
      reads this
    {
      Output(climit, totalbytes, handleOpen, closedFiles, currentFile)
    }

    constructor (limit: int)
      ensures State() == Fresh(limit)
    {
      climit, totalbytes, handleOpen, closedFiles, currentFile := limit, 0, true, [], [];
    }

    method CloseOutputFile()
      modifies this`handleOpen, this`closedFiles, this`currentFile
      ensures State() == old(State()).(isOpen := false, closed := old(Closed(State())), current := [])
    {
      if handleOpen {
        closedFiles := closedFiles + [currentFile];
      }
      currentFile, handleOpen := [], false;
    }

    method Writev(d: Delivery) returns (bytesWritten: int)
      requires Possible(d)
      modifies this`currentFile
      ensures bytesWritten == if handleOpen then d.written else -1
      ensures State() == Write(old(State()), d).(total := old(totalbytes))
    {
      if !handleOpen {
        return -1;
      }
      bytesWritten := d.written;
      currentFile := currentFile + [if d.written < 0 then WriteFailed else Wrote((d.header + d.data)[..d.written])];
    }

    /** The file output of dlt_receive_message_callback. */
    method Callback(d: Delivery) returns (r: int)
      requires Possible(d)
      modifies this
      ensures State() == Step(old(State()), d)
      ensures r == 0 || r == -1
      ensures r == 0 <==> !d.passes || (|State().current| > 0 && handleOpen && d.written >= 0)
    {
      if !d.passes {
        return 0;
      }
      if climit > -1 {
        var bytesToWrite := |d.header| + |d.data|;
        if bytesToWrite + totalbytes > climit {
          CloseOutputFile();
          if !d.opens {
            return -1;
          }
          handleOpen := true;
          totalbytes := 0;
        }
      }
      var bytesWritten := Writev(d);
      totalbytes := totalbytes + bytesWritten;
      return if 0 > bytesWritten then -1 else 0;
    }
  }

  // ------------------------------------------------------------------------ the limit

  ghost function Size(f: OutFile): nat {
    if |f| == 0 then 0
    else Size(f[..|f| - 1]) + (if f[|f| - 1].Wrote? then |f[|f| - 1].bytes| else 0)
  }

  ghost function Failures(f: OutFile): nat {
    if |f| == 0 then 0 else Failures(f[..|f| - 1]) + (if f[|f| - 1].WriteFailed? then 1 else 0)
  }

  /** Within the limit, one byte over it for every failed write, or a single write. */
  ghost predicate Fits(f: OutFile, limit: int) {
    Size(f) <= limit + Failures(f) || |f| == 1
  }

  ghost predicate Bounded(o: Output) {
    && (o.isOpen ==> o.total == Size(o.current) - Failures(o.current) && Fits(o.current, o.limit))
    && forall i :: 0 <= i < |o.closed| ==> Fits(o.closed[i], o.limit)
  }

  lemma StepBounded(o: Output, d: Delivery)
    requires Possible(d) && o.limit >= 0 && Bounded(o)
    ensures Bounded(Step(o, d))
  {
    var s := Step(o, d);
    if d.passes && s.isOpen {
      assert s.current[..|s.current| - 1] == if MustRotate(o, d) then [] else o.current;
    }
  }

  /** Whatever fails in a run, every file ever opened is bounded by the limit in this way. */
  lemma {:induction false} RunBounded(limit: int, ds: seq<Delivery>)
    requires limit >= 0 && forall i :: 0 <= i < |ds| ==> Possible(ds[i])
    ensures Bounded(Run(Fresh(limit), ds)) && Run(Fresh(limit), ds).limit == limit
  {
    if |ds| > 0 {
      RunBounded(limit, ds[..|ds| - 1]);
      StepBounded(Run(Fresh(limit), ds[..|ds| - 1]), ds[|ds| - 1]);
    }
  }

  // ------------------------------------------------------------------ complete writes

  ghost predicate AllComplete(ds: seq<Delivery>) {
    forall i :: 0 <= i < |ds| ==> Possible(ds[i]) && Complete(ds[i])
  }

  /** The messages the filter passed, each written as a whole. */
  ghost function Received(ds: seq<Delivery>): OutFile {
    if |ds| == 0 then []
    else
      var d := ds[|ds| - 1];
      Received(ds[..|ds| - 1]) + (if d.passes then [Wrote(d.header + d.data)] else [])
  }

  ghost function Joined(files: seq<OutFile>): OutFile {
    if |files| == 0 then [] else Joined(files[..|files| - 1]) + files[|files| - 1]
  }

  /** File i was left because the first message of the next file did not fit into it. */
  ghost predicate LeftFull(files: seq<OutFile>, limit: int, i: int) {
    0 <= i < |files| - 1 ==>
      && |files[i + 1]| > 0 && files[i + 1][0].Wrote?
      && Size(files[i]) + |files[i + 1][0].bytes| > limit
  }

  ghost predicate Greedy(files: seq<OutFile>, limit: int) {
    forall i :: LeftFull(files, limit, i)
  }

  ghost predicate Faithful(o: Output, ds: seq<Delivery>) {
    && o.isOpen
    && Joined(o.closed) + o.current == Received(ds)
    && (o.limit > -1 ==> Greedy(o.closed + [o.current], o.limit))
    && (o.limit == -1 ==> o.closed == [])
  }

  lemma {:induction false} NoFailures(f: OutFile)
    requires forall i :: 0 <= i < |f| ==> f[i].Wrote?
    ensures Failures(f) == 0
  {
    if |f| > 0 {
      NoFailures(f[..|f| - 1]);
    }
  }

  lemma {:induction false} ReceivedWrote(ds: seq<Delivery>)
    ensures forall i :: 0 <= i < |Received(ds)| ==> Received(ds)[i].Wrote?
  {
    if |ds| > 0 {
      ReceivedWrote(ds[..|ds| - 1]);
    }
  }

  lemma JoinedStep(o: Output, d: Delivery)
    requires Possible(d) && Complete(d) && d.passes && o.isOpen
    ensures var s := Step(o, d);
            s.isOpen && Joined(s.closed) + s.current == Joined(o.closed) + o.current + [Wrote(d.header + d.data)]
  {
    var s := Step(o, d);
    assert (d.header + d.data)[..d.written] == d.header + d.data;
    if MustRotate(o, d) {
      assert (o.closed + [o.current])[..|o.closed|] == o.closed;
    } else {
      assert Joined(o.closed) + (o.current + [Wrote(d.header + d.data)]) == Joined(o.closed) + o.current + [Wrote(d.header + d.data)];
    }
  }

  lemma GreedyStep(o: Output, d: Delivery)
    requires Possible(d) && Complete(d) && d.passes && o.isOpen && o.limit > -1 && o.total == Size(o.current)
    requires Greedy(o.closed + [o.current], o.limit)
    ensures var s := Step(o, d); Greedy(s.closed + [s.current], o.limit)
  {
    var s := Step(o, d);
    var files: seq<OutFile> := o.closed + [o.current];
    var more: seq<OutFile> := s.closed + [s.current];
    forall i
      ensures LeftFull(more, o.limit, i)
    {
      assert LeftFull(files, o.limit, i);
    }
  }

  lemma FaithfulStep(o: Output, ds: seq<Delivery>, d: Delivery)
    requires Possible(d) && Complete(d) && Faithful(o, ds) && o.limit >= -1 && (o.limit > -1 ==> Bounded(o))
    ensures Faithful(Step(o, d), ds + [d])
  {
    assert (ds + [d])[..|ds|] == ds;
    if d.passes {
      JoinedStep(o, d);
      if o.limit > -1 {
        assert Failures(o.current) == 0 by {
          ReceivedWrote(ds);
          assert forall i :: 0 <= i < |o.current| ==> o.current[i] == Received(ds)[|Joined(o.closed)| + i];
          NoFailures(o.current);
        }
        GreedyStep(o, d);
      }
    }
  }

  /**
   * While files can be opened and writes are complete, the files laid end to end are exactly
   * the received messages, whole and in order; a new file starts only for a message that
   * does not fit; and without a limit there is one file.
   */
  lemma {:induction false} RunFaithful(limit: int, ds: seq<Delivery>)
    requires limit >= -1 && AllComplete(ds)
    ensures Faithful(Run(Fresh(limit), ds), ds) && Run(Fresh(limit), ds).limit == limit
  {
    if |ds| > 0 {
      var front := ds[..|ds| - 1];
      RunFaithful(limit, front);
      if limit > -1 {
        RunBounded(limit, front);
      }
      FaithfulStep(Run(Fresh(limit), front), front, ds[|ds| - 1]);
      assert front + [ds[|ds| - 1]] == ds;
    }
  }

  lemma {:induction false} JoinedParts(files: seq<OutFile>, k: nat, i: nat)
    requires k < |files| && i < |files[k]|
    ensures files[k][i] in Joined(files)
  {
    var n := |files| - 1;
    if k < n {
      JoinedParts(files[..n], k, i);
    }
  }

  /** Then every file holds at most the limit or exactly one message. */
  lemma CompleteFilesFit(limit: int, ds: seq<Delivery>, k: nat)
    requires limit >= 0 && AllComplete(ds)
    requires k < |Closed(Run(Fresh(limit), ds))|
    ensures var f := Closed(Run(Fresh(limit), ds))[k];
            && (forall i :: 0 <= i < |f| ==> f[i].Wrote?)
            && (Size(f) <= limit || |f| == 1)
  {
    var o := Run(Fresh(limit), ds);
    RunFaithful(limit, ds);
    RunBounded(limit, ds);
    ReceivedWrote(ds);
    var files := Closed(o);
    assert files[..|o.closed|] == o.closed;
    assert Joined(files) == Received(ds);
    forall i | 0 <= i < |files[k]|
      ensures files[k][i].Wrote?
    {
      JoinedParts(files, k, i);
    }
    NoFailures(files[k]);
    assert Fits(files[k], limit);
  }

  /** After a file could not be opened, the next message of that size or more tries again, in a new file. */
  lemma OpenIsTriedAgain(o: Output, d: Delivery, next: Delivery)
    requires Possible(d) && Possible(next) && d.passes && next.passes && MustRotate(o, d) && !d.opens
    requires |next.header| + |next.data| >= |d.header| + |d.data| && next.opens && next.written >= 0
    ensures var s := Step(Step(o, d), next);
            && s.isOpen && s.closed == Closed(o) && s.total == next.written
            && s.current == [Wrote((next.header + next.data)[..next.written])]
  {
  }

  /** A storage header of 16 bytes and a standard header of 4, and a length field of 16 bits. */
  const MIN_MESSAGE := 20
  const MAX_MESSAGE := 16 + 65535

  /** The sizes that messages can have. */
  predicate Message(d: Delivery) {
    MIN_MESSAGE <= |d.header| && |d.header| + |d.data| <= MAX_MESSAGE
  }

  /** A message that goes into the current file and takes it over the limit. */
  ghost predicate Overfills(o: Output, d: Delivery) {
    Possible(d) && Message(d) && d.passes && !MustRotate(o, d) && Size(Step(o, d).current) > o.limit
  }

  lemma SizeAfter(o: Output, d: Delivery)
    requires Possible(d) && d.passes && o.isOpen && !MustRotate(o, d)
    ensures Size(Step(o, d).current) == Size(o.current) + (if d.written < 0 then 0 else d.written)
  {
    var f := Step(o, d).current;
    assert f[..|f| - 1] == o.current;
  }

  /** A message of n bytes that is written, or fails to be. */
  function MessageOf(n: nat, written: int): Delivery
    requires n >= MIN_MESSAGE
  {
    Delivery(seq(MIN_MESSAGE, _ => 0), seq(n - MIN_MESSAGE, _ => 0), true, true, written)
  }

  /**
   * A write that fails is counted as minus one byte. Some message can take the current file
   * over the limit if and only if a write to it has failed, the smallest message still fits by
   * the count, and the largest one reaches beyond what the failures have hidden; short writes
   * do no harm.
   */
  lemma OverfillsIff(o: Output)
    requires o.limit >= 0 && o.isOpen && Bounded(o)
    ensures (exists d :: Overfills(o, d)) <==>
            Failures(o.current) > 0 && MIN_MESSAGE <= o.limit - o.total < Failures(o.current) + MAX_MESSAGE
  {
    var room, hidden := o.limit - o.total, Failures(o.current);
    if hidden > 0 && MIN_MESSAGE <= room < hidden + MAX_MESSAGE {
      var n := if room <= MAX_MESSAGE then room else MAX_MESSAGE;
      SizeAfter(o, MessageOf(n, n));
      assert Overfills(o, MessageOf(n, n));
    }
    forall d | Overfills(o, d) ensures hidden > 0 && MIN_MESSAGE <= room < hidden + MAX_MESSAGE {
      SizeAfter(o, d);
    }
  }

  ghost predicate Outgrown(limit: int, ds: seq<Delivery>) {
    && (forall i :: 0 <= i < |ds| ==> Possible(ds[i]) && Message(ds[i]))
    && |Run(Fresh(limit), ds).current| > 1
    && Size(Run(Fresh(limit), ds).current) > limit
  }

  ghost predicate FilledTo(limit: int, ds: seq<Delivery>, n: int) {
    && (forall i :: 0 <= i < |ds| ==> Possible(ds[i]) && Message(ds[i]))
    && var o := Run(Fresh(limit), ds); o.limit == limit && o.isOpen && o.total == n && |o.current| > 0
  }

  lemma FillNext(limit: int, ds: seq<Delivery>, n: int, d: Delivery)
    requires limit >= 0 && FilledTo(limit, ds, n) && Possible(d) && Message(d) && d.passes
    requires !MustRotate(Run(Fresh(limit), ds), d)
    ensures FilledTo(limit, ds + [d], n + d.written) && |Run(Fresh(limit), ds + [d]).current| > 1
    ensures Run(Fresh(limit), ds + [d]) == Step(Run(Fresh(limit), ds), d)
  {
    RunNext(Fresh(limit), ds, d, Step(Run(Fresh(limit), ds), d));
  }

  /** Complete messages fill a file up to every size within the limit. */
  lemma {:induction false} Fill(limit: int, n: nat) returns (ds: seq<Delivery>)
    requires MIN_MESSAGE <= n <= limit
    ensures FilledTo(limit, ds, n)
    decreases n
  {
    if n <= MAX_MESSAGE {
      var d := MessageOf(n, n);
      ds := [d];
      assert [] + [d] == [d];
      RunNext(Fresh(limit), [], d, Step(Fresh(limit), d));
    } else {
      var m := MAX_MESSAGE - MIN_MESSAGE;
      var front := Fill(limit, n - m);
      FillNext(limit, front, n - m, MessageOf(m, m));
      ds := front + [MessageOf(m, m)];
    }
  }

  /** For every limit there is a run in which a failed write makes a file outgrow it. */
  lemma FailureExceedsLimit(limit: int)
    requires limit >= MIN_LIMIT
    ensures exists ds: seq<Delivery> :: Outgrown(limit, ds)
  {
    var n := limit - MIN_MESSAGE;
    var full := Fill(limit, n);
    var bad := MessageOf(MIN_MESSAGE, -1);
    FillNext(limit, full, n, bad);
    var ds := full + [bad];
    var o := Run(Fresh(limit), ds);
    RunBounded(limit, ds);
    assert Failures(o.current) > 0;
    OverfillsIff(o);
    var d :| Overfills(o, d);
    FillNext(limit, ds, n - 1, d);
    assert Outgrown(limit, ds + [d]);
  }

  lemma RunNext(o: Output, ds: seq<Delivery>, d: Delivery, s: Output)
    requires (forall i :: 0 <= i < |ds| ==> Possible(ds[i])) && Possible(d)
    requires s == Step(Run(o, ds), d)
    ensures Run(o, ds + [d]) == s
  {
    assert (ds + [d])[..|ds|] == ds;
  }
}
