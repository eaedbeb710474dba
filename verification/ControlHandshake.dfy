/**
 * The request/answer handshake of the control library: the thread that sends a request and
 * the listener thread share a mutex, a condition variable and one result cell. Every
 * interleaving is a run of Next; the log is the history of the run.
 */
module ControlHandshake {
  import opened Entities

  const NO_ANSWER := -1

  datatype Thread = SendingThread | ListeningThread

  /** The request an incoming message answers; None for any other message of the daemon. */
  type Source = Option<nat>

  /** Where the sending thread stands in dlt_control_send_message. */
  datatype Sender =
    | Idle
    | Entering
    | Holding
    | Cleared
    | Asked
    | SendFailed
    | Waiting
    | Woken(signalled: bool)
    | Awake(signalled: bool)
    | Leaving(failed: bool, signalled: bool)

  /** Where the listener stands in dlt_control_callback. */
  datatype Listener =
    | Listening
    | Arrived(source: Source)
    | Analyzing(source: Source)
    | Stored
    | Signalled

  datatype Event =
    | Refused(request: nat)
    | Reset(request: nat)
    | RequestSent(request: nat)
    | RequestLost(request: nat)
    | WaitStarted(request: nat)
    | Produced(source: Source, value: int)
    | SignalSent
    | Returned(request: nat, value: int, failed: bool, signalled: bool)

  datatype State = State(
    sender: Sender,
    listener: Listener,
    owner: Option<Thread>,
    cell: int,
    request: nat,
    unanswered: set<nat>,
    log: seq<Event>,
    resetAt: nat)

  datatype Action =
    | Call(prepared: bool)
    | Acquire
    | Clear
    | Send(ok: bool)
    | Wait
    | Wake
    | Release
    | Return
    | Receive(source: Source)
    | ListenerAcquire
    | Analyze(value: int)
    | Signal
    | ListenerRelease

  const Start := State(Idle, Listening, None, NO_ANSWER, 0, {}, [], 0)

  /** Wake needs no signal: a timeout and a spurious wakeup are possible at any time. */
  predicate Enabled(s: State, a: Action) {
    match a
    case Call(_) => s.sender.Idle?
    case Acquire => (s.sender.Entering? || s.sender.Woken?) && s.owner.None?
    case Clear => s.sender.Holding?
    case Send(_) => s.sender.Cleared?
    case Wait => s.sender.Asked?
    case Wake => s.sender.Waiting?
    case Release => s.sender.SendFailed? || s.sender.Awake?
    case Return => s.sender.Leaving?
    case Receive(source) => s.listener.Listening? && (source.Some? ==> source.value in s.unanswered)
    case ListenerAcquire => s.listener.Arrived? && s.owner.None?
    case Analyze(_) => s.listener.Analyzing?
    case Signal => s.listener.Stored?
    case ListenerRelease => s.listener.Signalled?
  }

  function Next(s: State, a: Action): State
    requires Enabled(s, a)
  {
    match a
    case Call(prepared) =>
      if prepared then s.(sender := Entering, request := s.request + 1)
      else s.(request := s.request + 1, log := s.log + [Refused(s.request + 1)])
    case Acquire =>
      s.(owner := Some(SendingThread), sender := if s.sender.Entering? then Holding else Awake(s.sender.signalled))
    case Clear =>
      s.(sender := Cleared, cell := NO_ANSWER, log := s.log + [Reset(s.request)], resetAt := |s.log|)
    case Send(ok) =>
      if ok then s.(sender := Asked, unanswered := s.unanswered + {s.request}, log := s.log + [RequestSent(s.request)])
      else s.(sender := SendFailed, log := s.log + [RequestLost(s.request)])
    case Wait => s.(sender := Waiting, owner := None, log := s.log + [WaitStarted(s.request)])
    case Wake => s.(sender := Woken(false))
    case Release =>
      s.(owner := None, sender := if s.sender.SendFailed? then Leaving(true, false) else Leaving(false, s.sender.signalled))
    case Return =>
      var value := if s.sender.failed then NO_ANSWER else s.cell;
      s.(sender := Idle, log := s.log + [Returned(s.request, value, s.sender.failed, s.sender.signalled)])
    case Receive(source) =>
      s.(listener := Arrived(source), unanswered := if source.Some? then s.unanswered - {source.value} else s.unanswered)
    case ListenerAcquire => s.(owner := Some(ListeningThread), listener := Analyzing(s.listener.source))
    case Analyze(value) =>
      s.(cell := value, listener := Stored, log := s.log + [Produced(s.listener.source, value)])
    case Signal =>
      s.(listener := Signalled, sender := if s.sender.Waiting? then Woken(true) else s.sender, log := s.log + [SignalSent])
    case ListenerRelease => s.(owner := None, listener := Listening)
  }

  /** The state after the actions, None when one of them is not enabled. */
  function Run(s: State, actions: seq<Action>): Option<State>
    decreases |actions|
  {
    if |actions| == 0 then Some(s)
    else if !Enabled(s, actions[0]) then None
    else Run(Next(s, actions[0]), actions[1..])
  }

  // ------------------------------------------------------------------- the history

  /** The event that produced the value the cell got last between r and i, if any. */
  ghost function Latest(log: seq<Event>, r: nat, i: nat): Option<Event>
    requires r <= i <= |log|
    ensures Latest(log, r, i).Some? ==> Latest(log, r, i).value.Produced?
    decreases i
  {
    if i == r then None
    else if log[i - 1].Produced? then Some(log[i - 1])
    else Latest(log, r, i - 1)
  }

  ghost function ValueOf(e: Option<Event>): int
    requires e.Some? ==> e.value.Produced?
  {
    if e.Some? then e.value.value else NO_ANSWER
  }

  ghost predicate NoReset(log: seq<Event>, from: nat, to: nat) {
    forall j :: from <= j < to && j < |log| ==> !log[j].Reset?
  }

  /** The reset, delivery and start of the wait follow each other with nothing in between. */
  ghost predicate Opening(log: seq<Event>, r: nat, k: nat) {
    r + 3 <= |log| && log[r] == Reset(k) && log[r + 1] == RequestSent(k) && log[r + 2] == WaitStarted(k)
  }

  /**
   * The return at i belongs to the reset at r, the last one before it. After a failed send
   * the value is -1; otherwise it is the value produced last since the reset, -1 if there
   * was none, and there was one if the wait was ended by a signal.
   */
  ghost predicate Exchange(log: seq<Event>, r: nat, i: nat)
    requires r < i < |log| && log[i].Returned?
  {
    var k := log[i].request;
    && NoReset(log, r + 1, i)
    && (if log[i].failed then
          r + 1 < i && log[r] == Reset(k) && log[r + 1] == RequestLost(k) && log[i].value == NO_ANSWER
        else
          && r + 3 <= i && Opening(log, r, k)
          && log[i].value == ValueOf(Latest(log, r + 3, i))
          && (log[i].signalled ==> Latest(log, r + 3, i).Some?))
  }

  ghost predicate Answered(log: seq<Event>, i: nat)
    requires i < |log|
  {
    log[i].Returned? ==> exists r: nat :: r < i && Exchange(log, r, i)
  }

  /** A wait starts right after the request was sent, which followed right on the reset. */
  ghost predicate Ordered(log: seq<Event>, i: nat)
    requires i < |log|
  {
    log[i].WaitStarted? ==> i >= 2 && Opening(log, i - 2, log[i].request)
  }

  ghost predicate History(log: seq<Event>) {
    forall i {:trigger Answered(log, i)} {:trigger Ordered(log, i)} ::
      0 <= i < |log| ==> Answered(log, i) && Ordered(log, i)
  }

  /** What is known of the log while a request is under way. */
  ghost predicate Progress(s: State) {
    var n := |s.log|;
    match s.sender
    case Idle => true
    case Entering => true
    case Holding => true
    case Cleared => s.cell == NO_ANSWER && n > 0 && s.resetAt == n - 1 && s.log[n - 1] == Reset(s.request)
    case Asked => s.cell == NO_ANSWER && n > 1 && s.resetAt == n - 2 && s.log[n - 2] == Reset(s.request) && s.log[n - 1] == RequestSent(s.request)
    case SendFailed => n > 1 && s.resetAt == n - 2 && s.log[n - 2] == Reset(s.request) && s.log[n - 1] == RequestLost(s.request)
    case Waiting => Underway(s, false)
    case Woken(signalled) => Underway(s, signalled)
    case Awake(signalled) => Underway(s, signalled)
    case Leaving(failed, signalled) =>
      if failed then
        && s.resetAt + 1 < n && NoReset(s.log, s.resetAt + 1, n) && s.log[s.resetAt] == Reset(s.request)
        && s.log[s.resetAt + 1] == RequestLost(s.request)
      else Underway(s, signalled)
  }

  ghost predicate Underway(s: State, signalled: bool) {
    && Opening(s.log, s.resetAt, s.request)
    && NoReset(s.log, s.resetAt + 1, |s.log|)
    && s.cell == ValueOf(Latest(s.log, s.resetAt + 3, |s.log|))
    && (signalled ==> Latest(s.log, s.resetAt + 3, |s.log|).Some?)
  }

  predicate SenderHolds(p: Sender) {
    p.Holding? || p.Cleared? || p.Asked? || p.SendFailed? || p.Awake?
  }

  predicate ListenerHolds(p: Listener) {
    p.Analyzing? || p.Stored? || p.Signalled?
  }

  /** Only requests that were sent can be answered. */
  ghost predicate Known(s: State, k: nat) {
    if s.sender.Entering? || s.sender.Holding? || s.sender.Cleared? then k < s.request else k <= s.request
  }

  ghost predicate AnswersKnown(s: State) {
    && (forall k :: k in s.unanswered ==> Known(s, k))
    && ((s.listener.Arrived? || s.listener.Analyzing?) && s.listener.source.Some? ==> Known(s, s.listener.source.value))
  }

  ghost predicate Inv(s: State) {
    && AnswersKnown(s)
    && (s.owner == Some(SendingThread) <==> SenderHolds(s.sender))
    && (s.owner == Some(ListeningThread) <==> ListenerHolds(s.listener))
    && Progress(s)
    && (s.sender.Waiting? && s.listener.Stored? ==> Latest(s.log, s.resetAt + 3, |s.log|).Some?)
    && History(s.log)
  }

  // ------------------------------------------------------------------------ proofs

  lemma {:induction false} LatestOfPrefix(log: seq<Event>, more: seq<Event>, r: nat, i: nat)
    requires r <= i <= |log|
    ensures Latest(log + more, r, i) == Latest(log, r, i)
    decreases i
  {
    if i > r {
      LatestOfPrefix(log, more, r, i - 1);
    }
  }

  lemma ExchangeStays(log: seq<Event>, e: Event, r: nat, i: nat)
    requires r < i < |log| && log[i].Returned? && Exchange(log, r, i)
    ensures Exchange(log + [e], r, i)
  {
    if !log[i].failed {
      LatestOfPrefix(log, [e], r + 3, i);
    }
  }

  lemma HistoryGrows(log: seq<Event>, e: Event)
    requires History(log) && Answered(log + [e], |log|) && Ordered(log + [e], |log|)
    ensures History(log + [e])
  {
    var next := log + [e];
    forall i | 0 <= i < |next|
      ensures Answered(next, i) && Ordered(next, i)
    {
      if i < |log| {
        assert next[i] == log[i];
        assert Answered(log, i) && Ordered(log, i);
        if log[i].Returned? {
          var r: nat :| r < i && Exchange(log, r, i);
          ExchangeStays(log, e, r, i);
        }
      }
    }
  }

  /** An event of the listener while the sender waits or leaves. */
  lemma UnderwayGrows(s: State, t: State, e: Event, signalled: bool)
    requires Underway(s, signalled) && !e.Reset? && !e.Produced?
    requires t.log == s.log + [e] && t.cell == s.cell && t.request == s.request && t.resetAt == s.resetAt
    ensures Underway(t, signalled)
  {
    LatestOfPrefix(s.log, [e], s.resetAt + 3, |s.log|);
  }

  lemma UnderwayProduces(s: State, t: State, source: Source, value: int, signalled: bool)
    requires Underway(s, signalled)
    requires t.log == s.log + [Produced(source, value)] && t.cell == value && t.request == s.request && t.resetAt == s.resetAt
    ensures Underway(t, true)
  {
  }

  lemma InvStart()
    ensures Inv(Start)
  {
  }

  lemma ReturnStep(s: State)
    requires Inv(s) && Enabled(s, Return)
    ensures Inv(Next(s, Return))
  {
    var t := Next(s, Return);
    var r, i := s.resetAt, |s.log|;
    var e := t.log[i];
    if !s.sender.failed {
      LatestOfPrefix(s.log, [e], r + 3, i);
    }
    assert Exchange(t.log, r, i);
    HistoryGrows(s.log, e);
  }

  /** The steps of the sender that leave a trace in the log. */
  predicate Recorded(a: Action) {
    a.Clear? || a.Send? || a.Wait? || (a.Call? && !a.prepared)
  }

  lemma RecordedStep(s: State, a: Action)
    requires Inv(s) && Enabled(s, a) && Recorded(a)
    ensures Inv(Next(s, a))
  {
    HistoryGrows(s.log, Next(s, a).log[|s.log|]);
  }

  lemma SilentStep(s: State, a: Action)
    requires Inv(s) && Enabled(s, a) && Next(s, a).log == s.log
    ensures Inv(Next(s, a))
  {
  }

  lemma ListenerStep(s: State, a: Action)
    requires Inv(s) && Enabled(s, a) && (a.Analyze? || a.Signal?)
    ensures Inv(Next(s, a))
  {
    var t := Next(s, a);
    var e := t.log[|s.log|];
    HistoryGrows(s.log, e);
    if s.sender.Waiting? || s.sender.Woken? || (s.sender.Leaving? && !s.sender.failed) {
      var signalled := if s.sender.Waiting? then a.Signal? else s.sender.signalled;
      if a.Analyze? {
        UnderwayProduces(s, t, s.listener.source, a.value, signalled);
      } else {
        UnderwayGrows(s, t, e, signalled);
      }
    }
  }

  lemma StepKeepsInv(s: State, a: Action)
    requires Inv(s) && Enabled(s, a)
    ensures Inv(Next(s, a))
  {
    if a.Analyze? || a.Signal? {
      ListenerStep(s, a);
    } else if a.Return? {
      ReturnStep(s);
    } else if Recorded(a) {
      RecordedStep(s, a);
    } else {
      SilentStep(s, a);
    }
  }

  lemma {:induction false} RunKeepsInv(s: State, actions: seq<Action>)
    requires Inv(s) && Run(s, actions).Some?
    ensures Inv(Run(s, actions).value)
    decreases |actions|
  {
    if |actions| > 0 {
      StepKeepsInv(s, actions[0]);
      RunKeepsInv(Next(s, actions[0]), actions[1..]);
    }
  }

  // ---------------------------------------------------------------------- theorems

  /**
   * In every interleaving: each return belongs to the last reset before it and gives the
   * value stored last since then, or -1 when the send failed or nothing was stored.
   */
  lemma ReturnsLatestAnswer(actions: seq<Action>, i: nat)
    requires Run(Start, actions).Some? && i < |Run(Start, actions).value.log|
    requires Run(Start, actions).value.log[i].Returned?
    ensures var log := Run(Start, actions).value.log;
            exists r: nat :: r < i && Exchange(log, r, i)
  {
    InvStart();
    RunKeepsInv(Start, actions);
    assert Answered(Run(Start, actions).value.log, i);
  }

  lemma {:induction false} LatestIsProduced(log: seq<Event>, r: nat, i: nat)
    requires r <= i <= |log| && Latest(log, r, i).Some?
    ensures exists j: nat :: r <= j < i && log[j] == Latest(log, r, i).value
    decreases i
  {
    if log[i - 1].Produced? {
      assert log[i - 1] == Latest(log, r, i).value;
    } else {
      LatestIsProduced(log, r, i - 1);
    }
  }

  /** A returned value is -1 or one the analyzer produced after the reset of that request. */
  lemma ReturnsOnlyWhatWasProduced(actions: seq<Action>, i: nat)
    requires Run(Start, actions).Some? && i < |Run(Start, actions).value.log|
    requires Run(Start, actions).value.log[i].Returned?
    ensures var log := Run(Start, actions).value.log;
            || log[i].value == NO_ANSWER
            || exists r: nat, j: nat :: r < j < i && log[r] == Reset(log[i].request) && log[j].Produced? && log[j].value == log[i].value
  {
    var log := Run(Start, actions).value.log;
    ReturnsLatestAnswer(actions, i);
    var r: nat :| r < i && Exchange(log, r, i);
    if log[i].value != NO_ANSWER {
      LatestIsProduced(log, r + 3, i);
      var j: nat :| r + 3 <= j < i && log[j] == Latest(log, r + 3, i).value;
      assert log[r] == Reset(log[i].request) && log[j].Produced?;
    }
  }

  /** No value is stored and no signal sent between the reset and the start of the wait. */
  lemma NoSignalBeforeWait(actions: seq<Action>, w: nat)
    requires Run(Start, actions).Some? && w < |Run(Start, actions).value.log|
    requires Run(Start, actions).value.log[w].WaitStarted?
    ensures var log := Run(Start, actions).value.log;
            w >= 2 && log[w - 2] == Reset(log[w].request) && log[w - 1] == RequestSent(log[w].request)
  {
    InvStart();
    RunKeepsInv(Start, actions);
    assert Ordered(Run(Start, actions).value.log, w);
  }

  // ---------------------------------------------------------------------- no deadlock

  /** A step that brings the request closer to its return: the lock owner first. */
  function Helpful(s: State): Action {
    if s.listener.Analyzing? then Analyze(0)
    else if s.listener.Stored? then Signal
    else if s.listener.Signalled? then ListenerRelease
    else
      match s.sender
      case Idle => Call(true)
      case Entering => Acquire
      case Holding => Clear
      case Cleared => Send(true)
      case Asked => Wait
      case SendFailed => Release
      case Waiting => Wake
      case Woken(_) => Acquire
      case Awake(_) => Release
      case Leaving(_, _) => Return
  }

  function Distance(s: State): nat {
    (match s.listener case Listening => 0 case Arrived(_) => 0 case Analyzing(_) => 3 case Stored => 2 case Signalled => 1) +
    (match s.sender case Idle => 0 case Entering => 9 case Holding => 8 case Cleared => 7 case Asked => 6 case SendFailed => 2
     case Waiting => 5 case Woken(_) => 4 case Awake(_) => 3 case Leaving(_, _) => 1)
  }

  /** From every reachable state a request under way can be brought to its return. */
  lemma RequestCanReturn(s: State) returns (actions: seq<Action>)
    requires Inv(s)
    ensures Run(s, actions).Some? && Run(s, actions).value.sender.Idle?
    decreases Distance(s)
  {
    if s.sender.Idle? {
      actions := [];
    } else {
      var a := Helpful(s);
      assert s.owner.None? || s.owner.value == SendingThread || s.owner.value == ListeningThread;
      StepKeepsInv(s, a);
      var rest := RequestCanReturn(Next(s, a));
      actions := [a] + rest;
      assert actions[1..] == rest;
    }
  }

  // ---------------------------------------------------------------------- whose answer

  /** The run is about one request, and the daemon sends nothing but answers. */
  predicate OneRequest(actions: seq<Action>) {
    forall i :: 0 <= i < |actions| ==> !actions[i].Call? && actions[i] != Receive(None)
  }

  ghost predicate OwnAnswersOnly(log: seq<Event>, from: nat, k: nat) {
    forall j :: from <= j < |log| && log[j].Produced? ==> log[j].source == Some(k)
  }

  /** No answer to another request can still arrive. */
  ghost predicate NothingPending(s: State, k: nat) {
    && s.unanswered <= {k}
    && (s.listener.Arrived? || s.listener.Analyzing? ==> s.listener.source == Some(k))
  }

  lemma {:induction false} OwnAnswerRun(s: State, actions: seq<Action>, from: nat)
    requires NothingPending(s, s.request) && OneRequest(actions) && Run(s, actions).Some?
    requires from <= |s.log| && OwnAnswersOnly(s.log, from, s.request)
    ensures OwnAnswersOnly(Run(s, actions).value.log, from, s.request)
    decreases |actions|
  {
    if |actions| > 0 {
      assert !actions[0].Call? && actions[0] != Receive(None);
      assert OneRequest(actions[1..]);
      OwnAnswerRun(Next(s, actions[0]), actions[1..], from);
    }
  }

  lemma RunOfOne(s: State, a: Action, rest: seq<Action>)
    requires Enabled(s, a)
    ensures Run(s, [a] + rest) == Run(Next(s, a), rest)
  {
    assert ([a] + rest)[1..] == rest;
  }

  /** From the reset to the wait. */
  function AskThen(rest: seq<Action>): seq<Action> {
    [Clear] + ([Send(true)] + ([Wait] + rest))
  }

  /** From an arrived message to the return of its value. */
  function AnswerThenReturn(v: int): seq<Action> {
    [ListenerAcquire] + ([Analyze(v)] + ([Signal] + ([ListenerRelease] + ([Acquire] + ([Release] + ([Return] + []))))))
  }

  /** The whole exchange of a request that is answered by a message for request j. */
  function ForeignAnswer(j: nat, arrived: bool, v: int): seq<Action> {
    AskThen(if arrived then AnswerThenReturn(v) else [Receive(Some(j))] + AnswerThenReturn(v))
  }

  lemma ForeignAnswerIsOneRequest(j: nat, arrived: bool, v: int)
    ensures OneRequest(ForeignAnswer(j, arrived, v))
  {
  }

  lemma AskAndWait(s: State, rest: seq<Action>) returns (t: State)
    requires s.sender.Holding?
    ensures t == s.(sender := Waiting, owner := None, cell := NO_ANSWER, unanswered := s.unanswered + {s.request},
                    log := s.log + [Reset(s.request), RequestSent(s.request), WaitStarted(s.request)], resetAt := |s.log|)
    ensures Run(s, AskThen(rest)) == Run(t, rest)
  {
    var s1 := Next(s, Clear);
    var s2 := Next(s1, Send(true));
    t := Next(s2, Wait);
    RunOfOne(s2, Wait, rest);
    RunOfOne(s1, Send(true), [Wait] + rest);
    RunOfOne(s, Clear, [Send(true)] + ([Wait] + rest));
  }

  lemma AnswerAndReturn(s: State, j: nat, v: int)
    requires s.listener == Arrived(Some(j)) && s.sender == Waiting && s.owner.None?
    ensures Run(s, AnswerThenReturn(v)).Some?
    ensures Run(s, AnswerThenReturn(v)).value.log == s.log + [Produced(Some(j), v), SignalSent, Returned(s.request, v, false, true)]
  {
    var s1 := Next(s, ListenerAcquire);
    var s2 := Next(s1, Analyze(v));
    var s3 := Next(s2, Signal);
    var s4 := Next(s3, ListenerRelease);
    var s5 := Next(s4, Acquire);
    var s6 := Next(s5, Release);
    RunOfOne(s6, Return, []);
    RunOfOne(s5, Release, [Return] + []);
    RunOfOne(s4, Acquire, [Release] + ([Return] + []));
    RunOfOne(s3, ListenerRelease, [Acquire] + ([Release] + ([Return] + [])));
    RunOfOne(s2, Signal, [ListenerRelease] + ([Acquire] + ([Release] + ([Return] + []))));
    RunOfOne(s1, Analyze(v), [Signal] + ([ListenerRelease] + ([Acquire] + ([Release] + ([Return] + [])))));
    RunOfOne(s, ListenerAcquire, [Analyze(v)] + ([Signal] + ([ListenerRelease] + ([Acquire] + ([Release] + ([Return] + []))))));
  }

  /**
   * A late answer to a request that timed out is returned to the next one: whenever an
   * answer to j is pending as request k is about to reset the cell, there is a run without
   * any other message in which the value for j is returned as the result of k.
   */
  lemma LateAnswerIsReturned(s: State, j: nat, v: int)
    requires Inv(s) && s.sender.Holding? && j != s.request
    requires s.listener == Arrived(Some(j)) || (s.listener.Listening? && j in s.unanswered)
    ensures var actions := ForeignAnswer(j, s.listener.Arrived?, v);
            && Run(s, actions).Some?
            && Run(s, actions).value.log == s.log +
                [Reset(s.request), RequestSent(s.request), WaitStarted(s.request), Produced(Some(j), v), SignalSent,
                 Returned(s.request, v, false, true)]
  {
    if s.listener.Arrived? {
      var t := AskAndWait(s, AnswerThenReturn(v));
      AnswerAndReturn(t, j, v);
    } else {
      var t := AskAndWait(s, [Receive(Some(j))] + AnswerThenReturn(v));
      RunOfOne(t, Receive(Some(j)), AnswerThenReturn(v));
      AnswerAndReturn(Next(t, Receive(Some(j))), j, v);
    }
  }

  /**
   * As long as the daemon sends nothing but answers, a request gets only its own answer if
   * and only if no answer to an earlier request is pending when it resets the cell.
   */
  lemma OwnAnswerIff(s: State)
    requires Inv(s) && s.sender.Holding? && (s.listener.Arrived? ==> s.listener.source.Some?)
    ensures NothingPending(s, s.request) <==>
            (forall actions: seq<Action> :: OneRequest(actions) && Run(s, actions).Some?
              ==> OwnAnswersOnly(Run(s, actions).value.log, |s.log|, s.request))
  {
    if NothingPending(s, s.request) {
      forall actions: seq<Action> | OneRequest(actions) && Run(s, actions).Some?
        ensures OwnAnswersOnly(Run(s, actions).value.log, |s.log|, s.request)
      {
        OwnAnswerRun(s, actions, |s.log|);
      }
    } else {
      var j: nat :| j != s.request && (s.listener == Arrived(Some(j)) || (s.listener.Listening? && j in s.unanswered));
      var actions := ForeignAnswer(j, s.listener.Arrived?, 0);
      LateAnswerIsReturned(s, j, 0);
      ForeignAnswerIsOneRequest(j, s.listener.Arrived?, 0);
      assert OneRequest(actions) && Run(s, actions).value.log[|s.log| + 3] == Produced(Some(j), 0);
    }
  }

  /** A first request that times out leaves its answer pending for the second one. */
  lemma TimeoutLeavesAnswerPending()
    ensures exists actions: seq<Action> ::
              && Run(Start, actions).Some? && Run(Start, actions).value.sender.Holding?
              && !NothingPending(Run(Start, actions).value, Run(Start, actions).value.request)
  {
    var second := [Call(true)] + ([Acquire] + []);
    var rest := [Wake] + ([Acquire] + ([Release] + ([Return] + second)));
    var actions := [Call(true)] + ([Acquire] + AskThen(rest));
    var s1 := Next(Start, Call(true));
    var s2 := Next(s1, Acquire);
    RunOfOne(Start, Call(true), [Acquire] + AskThen(rest));
    RunOfOne(s1, Acquire, AskThen(rest));
    var t := AskAndWait(s2, rest);
    var t1 := Next(t, Wake);
    var t2 := Next(t1, Acquire);
    var t3 := Next(t2, Release);
    var t4 := Next(t3, Return);
    RunOfOne(t, Wake, [Acquire] + ([Release] + ([Return] + second)));
    RunOfOne(t1, Acquire, [Release] + ([Return] + second));
    RunOfOne(t2, Release, [Return] + second);
    RunOfOne(t3, Return, second);
    RunOfOne(t4, Call(true), [Acquire] + []);
    RunOfOne(Next(t4, Call(true)), Acquire, []);
    assert 1 in t.unanswered;
    assert Run(Start, actions) == Some(Next(Next(t4, Call(true)), Acquire));
  }
}
