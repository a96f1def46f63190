/**
  The driver's close protocol: any number of threads call into one consumer, each
  call taking the lock, checking the closed flag, entering native code and
  leaving it, while Close sets the flag before it waits for the lock.
  A run is any sequence of actions; an action that is not enabled changes nothing.
 */
module HandleProtocol {
  import opened Wrappers

  datatype Call = AssignAll | Poll | Watermarks | Positions

  /** Where one thread is. `open` says whether the flag was still clear when the thread took the lock. */
  datatype Pc =
    | Outside
    | Waiting(call: Call)
    | Locked(call: Call, open: bool)
    | Checked(call: Call, open: bool)
    | Native(call: Call, open: bool)
    | Refused(call: Call)
    | CloseWaiting
    | CloseLocked
    | NativeClose
    | CloseDone

  /** What a finished call reported. A Close reports whether it was the one that set the flag. */
  datatype Report = Served(call: Call) | SaysClosed(call: Call) | Closed(first: bool)

  /** `closer` is history: the thread whose Close set the flag. */
  datatype State = State(
    threads: seq<Pc>,
    reports: seq<seq<Report>>,
    lock: Option<nat>,
    closed: bool,
    released: bool,
    nativeCloses: nat,
    closer: Option<nat>
  )

  datatype Action =
    | Begin(t: nat, call: Call)
    | TakeLock(t: nat)
    | CheckFlag(t: nat)
    | EnterNative(t: nat)
    | LeaveNative(t: nat)
    | Return(t: nat)
    | SwapFlag(t: nat)

  function Start(n: nat): State {
    State(seq(n, _ => Outside), seq(n, _ => []), None, false, false, 0, None)
  }

  function Move(s: State, t: nat, pc: Pc): State
    requires t < |s.threads|
  {
    s.(threads := s.threads[t := pc])
  }

  /** The thread releases the lock and returns to its caller. */
  function Leave(s: State, t: nat, report: Report): State
    requires t < |s.threads| && t < |s.reports|
  {
    Move(s, t, Outside).(lock := None, reports := s.reports[t := s.reports[t] + [report]])
  }

  function Step(s: State, a: Action): State {
    if !(a.t < |s.threads| && a.t < |s.reports|) then s
    else
      var t, pc := a.t, s.threads[a.t];
      match a
      case Begin(_, call) => if pc.Outside? then Move(s, t, Waiting(call)) else s
      case TakeLock(_) =>
        if s.lock.Some? then s
        else if pc.Waiting? then Move(s, t, Locked(pc.call, !s.closed)).(lock := Some(t))
        else if pc.CloseWaiting? then Move(s, t, CloseLocked).(lock := Some(t))
        else s
      case CheckFlag(_) =>
        if pc.Locked? then Move(s, t, if s.closed then Refused(pc.call) else Checked(pc.call, pc.open)) else s
      case EnterNative(_) =>
        if pc.Checked? then Move(s, t, Native(pc.call, pc.open))
        else if pc.CloseLocked? then Move(s, t, NativeClose).(nativeCloses := s.nativeCloses + 1)
        else s
      case LeaveNative(_) =>
        if pc.Native? then Move(s, t, Checked(pc.call, pc.open))
        else if pc.NativeClose? then Move(s, t, CloseDone).(released := true)
        else s
      case Return(_) =>
        if pc.Checked? then Leave(s, t, Served(pc.call))
        else if pc.Refused? then Leave(s, t, SaysClosed(pc.call))
        else if pc.CloseDone? then Leave(s, t, Closed(true))
        else s
      case SwapFlag(_) =>
        if !pc.Outside? then s
        else if s.closed then s.(reports := s.reports[t := s.reports[t] + [Closed(false)]])
        else Move(s, t, CloseWaiting).(closed := true, closer := Some(t))
  }

  function Run(s: State, actions: seq<Action>): State
    decreases |actions|
  {
    if actions == [] then s else Run(Step(s, actions[0]), actions[1..])
  }

  predicate Holding(pc: Pc) {
    pc.Locked? || pc.Checked? || pc.Native? || pc.Refused? || pc.CloseLocked? || pc.NativeClose? || pc.CloseDone?
  }

  predicate Closing(pc: Pc) {
    pc.CloseWaiting? || pc.CloseLocked? || pc.NativeClose? || pc.CloseDone?
  }

  /** What holds of thread t at pc. */
  ghost predicate ThreadOk(s: State, t: nat, pc: Pc) {
    && (Holding(pc) <==> s.lock == Some(t))
    && (Closing(pc) ==> s.closer == Some(t))
    && match pc
       case Outside => true
       case Waiting(_) => true
       case Locked(_, open) => if open then s.nativeCloses == 0 else s.closed
       case Checked(_, open) => open && s.nativeCloses == 0
       case Native(_, open) => open && s.nativeCloses == 0
       case Refused(_) => s.closed
       case CloseWaiting => s.nativeCloses == 0
       case CloseLocked => s.nativeCloses == 0
       case NativeClose => s.nativeCloses == 1 && !s.released
       case CloseDone => s.nativeCloses == 1 && s.released
  }

  ghost predicate Inv(s: State) {
    && |s.reports| == |s.threads|
    && (forall t | 0 <= t < |s.threads| :: ThreadOk(s, t, s.threads[t]))
    && (s.lock.Some? ==> s.lock.value < |s.threads|)
    && (s.closed <==> s.closer.Some?)
    && (s.closer.Some? ==> s.closer.value < |s.threads|)
    && s.nativeCloses <= (if s.closed then 1 else 0)
    && (s.released ==> s.nativeCloses == 1)
    && (s.closed && s.nativeCloses == 0 ==> s.threads[s.closer.value].CloseWaiting? || s.threads[s.closer.value].CloseLocked?)
    && (s.nativeCloses == 1 && !s.released ==> s.threads[s.closer.value].NativeClose?)
  }

  /** A step of thread t leaves every other thread's condition as it was. */
  lemma OthersKept(s: State, a: Action, u: nat)
    requires Inv(s) && a.t < |s.threads| && u < |s.threads| && u != a.t
    ensures Step(s, a).threads[u] == s.threads[u]
    ensures ThreadOk(Step(s, a), u, s.threads[u])
  {
    assert ThreadOk(s, u, s.threads[u]);
    assert ThreadOk(s, a.t, s.threads[a.t]);
  }

  lemma ActorKept(s: State, a: Action)
    requires Inv(s) && a.t < |s.threads|
    ensures ThreadOk(Step(s, a), a.t, Step(s, a).threads[a.t])
  {
    assert ThreadOk(s, a.t, s.threads[a.t]);
  }

  lemma ThreadsKept(s: State, a: Action)
    requires Inv(s) && a.t < |s.threads|
    ensures var s' := Step(s, a);
      |s'.threads| == |s.threads| && forall u | 0 <= u < |s.threads| :: ThreadOk(s', u, s'.threads[u])
  {
    hide Inv, ThreadOk;
    assert |Step(s, a).threads| == |s.threads|;
    forall u | 0 <= u < |s.threads|
      ensures ThreadOk(Step(s, a), u, Step(s, a).threads[u])
    {
      if u == a.t {
        ActorKept(s, a);
      } else {
        OthersKept(s, a, u);
      }
    }
  }

  lemma StepKeepsInv(s: State, a: Action)
    requires Inv(s)
    ensures Inv(Step(s, a))
  {
    if a.t < |s.threads| {
      assert ThreadOk(s, a.t, s.threads[a.t]);
      hide ThreadOk;
      ThreadsKept(s, a);
    }
  }

  lemma {:induction false} RunKeepsInv(s: State, actions: seq<Action>)
    requires Inv(s)
    ensures Inv(Run(s, actions))
    decreases |actions|
  {
    hide Inv, Step;
    if actions != [] {
      StepKeepsInv(s, actions[0]);
      RunKeepsInv(Step(s, actions[0]), actions[1..]);
    }
  }

  lemma StartIsInv(n: nat)
    ensures Inv(Start(n))
  {
  }

  /**
    In every state that any threads can reach: no native call runs on a handle
    whose release has begun, at most one native call runs at a time, the native
    close is entered at most once, and a call past its check took the lock
    before the flag was set.
   */
  lemma NoCallOnDeadHandle(n: nat, actions: seq<Action>)
    ensures var s := Run(Start(n), actions);
      && s.nativeCloses <= 1
      && |s.threads| == n
      && (forall t | 0 <= t < n && s.threads[t].Native? :: s.nativeCloses == 0 && !s.released && s.threads[t].open)
      && (forall t, u | 0 <= t < n && 0 <= u < n && Inside(s.threads[t]) && Inside(s.threads[u]) :: t == u)
  {
    StartIsInv(n);
    RunKeepsInv(Start(n), actions);
    RunKeepsThreads(Start(n), actions);
    var s := Run(Start(n), actions);
    forall t | 0 <= t < n
      ensures ThreadOk(s, t, s.threads[t])
    {
    }
  }

  predicate Inside(pc: Pc) {
    pc.Native? || pc.NativeClose?
  }

  lemma {:induction false} RunKeepsThreads(s: State, actions: seq<Action>)
    ensures |Run(s, actions).threads| == |s.threads|
    decreases |actions|
  {
    if actions != [] {
      RunKeepsThreads(Step(s, actions[0]), actions[1..]);
    }
  }

  /** A call that took the lock after the flag was set, and has not yet returned. */
  predicate TooLate(pc: Pc, call: Call) {
    pc == Locked(call, false) || pc == Refused(call)
  }

  lemma LateCallStep(s: State, t: nat, call: Call, a: Action)
    requires Inv(s) && t < |s.threads| && TooLate(s.threads[t], call)
    ensures var next := Step(s, a);
      && |next.threads| == |s.threads| == |next.reports|
      && if TooLate(next.threads[t], call) then next.reports[t] == s.reports[t]
         else next.reports[t] == s.reports[t] + [SaysClosed(call)]
  {
    assert ThreadOk(s, t, s.threads[t]);
  }

  lemma {:induction false} LateCallRuns(s: State, t: nat, call: Call, actions: seq<Action>)
    requires Inv(s) && t < |s.threads| && TooLate(s.threads[t], call)
    ensures var s' := Run(s, actions);
      && t < |s'.threads| && t < |s'.reports|
      && (TooLate(s'.threads[t], call) || s.reports[t] + [SaysClosed(call)] <= s'.reports[t])
    decreases |actions|
  {
    hide Step, ThreadOk;
    if actions != [] {
      var next := Step(s, actions[0]);
      StepKeepsInv(s, actions[0]);
      LateCallStep(s, t, call, actions[0]);
      if TooLate(next.threads[t], call) {
        LateCallRuns(next, t, call, actions[1..]);
      } else {
        RunKeepsReports(next, t, actions[1..]);
      }
    }
  }

  lemma {:induction false} RunKeepsReports(s: State, t: nat, actions: seq<Action>)
    requires |s.reports| == |s.threads| && t < |s.threads|
    ensures var s' := Run(s, actions);
      |s'.reports| == |s'.threads| == |s.threads| && s.reports[t] <= s'.reports[t]
    decreases |actions|
  {
    if actions != [] {
      RunKeepsReports(Step(s, actions[0]), t, actions[1..]);
    }
  }

  /**
    A call that takes the lock once the flag is set reports that the consumer is
    closed, whatever happens before and after.
   */
  lemma LateCallReportsClosed(n: nat, before: seq<Action>, t: nat, after: seq<Action>)
    requires t < |Run(Start(n), before).threads|
    requires var s := Run(Start(n), before); s.closed && s.lock.None? && s.threads[t].Waiting?
    ensures var s := Run(Start(n), before);
      var call := s.threads[t].call;
      var s' := Run(Step(s, TakeLock(t)), after);
      && t < |s.reports| && t < |s'.threads| && t < |s'.reports|
      && (TooLate(s'.threads[t], call) || s.reports[t] + [SaysClosed(call)] <= s'.reports[t])
  {
    StartIsInv(n);
    RunKeepsInv(Start(n), before);
    var s := Run(Start(n), before);
    StepKeepsInv(s, TakeLock(t));
    LateCallRuns(Step(s, TakeLock(t)), t, s.threads[t].call, after);
  }

  /** Every Close that found the flag clear has returned only after the release; one that found it set promises nothing. */
  ghost predicate FirstCloseMeansReleased(s: State) {
    forall t, i | 0 <= t < |s.reports| && 0 <= i < |s.reports[t]| && s.reports[t][i] == Closed(true) :: s.released
  }

  lemma {:induction false} FirstCloseWaits(s: State, actions: seq<Action>)
    requires Inv(s) && FirstCloseMeansReleased(s)
    ensures FirstCloseMeansReleased(Run(s, actions))
    decreases |actions|
  {
    if actions != [] {
      var a := actions[0];
      StepKeepsInv(s, a);
      if a.t < |s.threads| {
        assert ThreadOk(s, a.t, s.threads[a.t]);
      }
      FirstCloseWaits(Step(s, a), actions[1..]);
    }
  }

  /** In every run, a Close that was first to set the flag has reported only once the handle was released. */
  lemma CloseKeepsItsPromise(n: nat, actions: seq<Action>)
    ensures FirstCloseMeansReleased(Run(Start(n), actions))
  {
    StartIsInv(n);
    FirstCloseWaits(Start(n), actions);
  }

  lemma {:induction false} ReleaseLasts(s: State, actions: seq<Action>)
    requires s.released
    ensures Run(s, actions).released
    decreases |actions|
  {
    if actions != [] {
      ReleaseLasts(Step(s, actions[0]), actions[1..]);
    }
  }

  lemma ClosingStep(s: State, t: nat, a: Action)
    requires Inv(s) && t < |s.threads| && Closing(s.threads[t])
    ensures var next := Step(s, a);
      && |next.threads| == |s.threads| == |next.reports|
      && (next.released || (Closing(next.threads[t]) && next.reports[t] == s.reports[t]))
  {
    assert ThreadOk(s, t, s.threads[t]);
  }

  lemma {:induction false} ClosingRuns(s: State, t: nat, actions: seq<Action>)
    requires Inv(s) && t < |s.threads| && Closing(s.threads[t])
    ensures var s' := Run(s, actions);
      s'.released || (t < |s'.reports| && s'.reports[t] == s.reports[t])
    decreases |actions|
  {
    hide Step, ThreadOk;
    if actions != [] {
      var next := Step(s, actions[0]);
      StepKeepsInv(s, actions[0]);
      ClosingStep(s, t, actions[0]);
      if next.released {
        ReleaseLasts(next, actions[1..]);
      } else {
        ClosingRuns(next, t, actions[1..]);
      }
    }
  }

  /** Thread t calls Close; in every continuation in which it has reported anything since, the handle is released. */
  ghost predicate CloseWaits(s: State, t: nat)
    requires t < |s.reports|
  {
    forall after :: var s' := Run(Step(s, SwapFlag(t)), after);
      t < |s'.reports| && s'.reports[t] != s.reports[t] ==> s'.released
  }

  /**
    A Close, called in any state that any run reaches, waits for the release
    exactly when the flag is clear or the release is over.
   */
  lemma CloseExact(n: nat, before: seq<Action>, t: nat)
    requires t < |Run(Start(n), before).threads| && Run(Start(n), before).threads[t].Outside?
    ensures t < |Run(Start(n), before).reports|
    ensures var s := Run(Start(n), before);
      CloseWaits(s, t) <==> !s.closed || s.released
  {
    StartIsInv(n);
    RunKeepsInv(Start(n), before);
    CloseExactFrom(Run(Start(n), before), t);
  }

  lemma CloseExactFrom(s: State, t: nat)
    requires Inv(s) && t < |s.threads| && s.threads[t].Outside?
    ensures CloseWaits(s, t) <==> !s.closed || s.released
  {
    var called := Step(s, SwapFlag(t));
    StepKeepsInv(s, SwapFlag(t));
    if !s.closed || s.released {
      forall after
        ensures var s' := Run(called, after); t < |s'.reports| && s'.reports[t] != s.reports[t] ==> s'.released
      {
        if s.released {
          ReleaseLasts(called, after);
        } else {
          ClosingRuns(called, t, after);
        }
      }
    } else {
      assert Run(called, []) == called;
      assert |called.reports[t]| == |s.reports[t]| + 1;
    }
  }

  /** The action carries on with a call already made. */
  predicate Continues(a: Action) {
    a.TakeLock? || a.CheckFlag? || a.EnterNative? || a.LeaveNative? || a.Return?
  }

  /** The step that the lock's holder takes next, or else that the waiting thread t takes. */
  function NextStep(s: State, t: nat): Action
    requires t < |s.threads| && (s.lock.Some? ==> s.lock.value < |s.threads|)
  {
    var u := if s.lock.Some? then s.lock.value else t;
    match s.threads[u]
    case Locked(_, _) => CheckFlag(u)
    case Checked(_, _) => Return(u)
    case Native(_, _) => LeaveNative(u)
    case Refused(_) => Return(u)
    case CloseLocked => EnterNative(u)
    case NativeClose => LeaveNative(u)
    case CloseDone => Return(u)
    case _ => TakeLock(u)
  }

  lemma HolderMoves(s: State, t: nat)
    requires Inv(s) && t < |s.threads| && !s.threads[t].Outside?
    ensures Continues(NextStep(s, t)) && Step(s, NextStep(s, t)) != s
  {
    var u: nat := if s.lock.Some? then s.lock.value else t;
    assert ThreadOk(s, u, s.threads[u]) && ThreadOk(s, t, s.threads[t]);
    assert Step(s, NextStep(s, t)).threads[u] != s.threads[u];
  }

  /** No run gets stuck: while any thread is inside a call, some thread can carry on with the call it made. */
  lemma NeverStuck(n: nat, actions: seq<Action>, t: nat)
    requires t < |Run(Start(n), actions).threads| && !Run(Start(n), actions).threads[t].Outside?
    ensures exists a :: Continues(a) && Step(Run(Start(n), actions), a) != Run(Start(n), actions)
  {
    hide Step;
    StartIsInv(n);
    RunKeepsInv(Start(n), actions);
    HolderMoves(Run(Start(n), actions), t);
  }

  /** Thread 0 is in a native poll and thread 1, the first to close, waits for it. */
  const POLLING_WHILE_CLOSING := State(
    [Native(Poll, true), CloseWaiting, Outside], [[], [], []], Some(0), true, false, 0, Some(1))

  lemma PollingWhileClosingIsReached()
    ensures Run(Start(3), [Begin(0, Poll), TakeLock(0), CheckFlag(0), EnterNative(0), SwapFlag(1)]) == POLLING_WHILE_CLOSING
  {
    var s1 := State([Waiting(Poll), Outside, Outside], [[], [], []], None, false, false, 0, None);
    var s2 := s1.(threads := [Locked(Poll, true), Outside, Outside], lock := Some(0));
    var s3 := s2.(threads := [Checked(Poll, true), Outside, Outside]);
    var s4 := s3.(threads := [Native(Poll, true), Outside, Outside]);
    assert Step(Start(3), Begin(0, Poll)) == s1;
    assert Step(s1, TakeLock(0)) == s2;
    assert Step(s2, CheckFlag(0)) == s3;
    assert Step(s3, EnterNative(0)) == s4;
    assert Step(s4, SwapFlag(1)) == POLLING_WHILE_CLOSING;
    Unroll(Start(3), Begin(0, Poll), TakeLock(0), CheckFlag(0), EnterNative(0), SwapFlag(1));
  }

  /** A second Close returns at once from there: the poll is still running and the handle not released. */
  lemma SecondCloseReturnsEarly()
    ensures var s := Step(POLLING_WHILE_CLOSING, SwapFlag(2));
      s.reports[2] == [Closed(false)] && s.threads[0].Native? && s.threads[1].CloseWaiting? && !s.released
  {
    assert [] + [Closed(false)] == [Closed(false)];
  }

  lemma Unroll(s: State, a: Action, b: Action, c: Action, d: Action, e: Action)
    ensures Run(s, [a, b, c, d, e]) == Step(Step(Step(Step(Step(s, a), b), c), d), e)
  {
    hide Step;
    var s1 := Step(s, a);
    var s2 := Step(s1, b);
    var s3 := Step(s2, c);
    var s4 := Step(s3, d);
    assert Run(Step(s4, e), []) == Step(s4, e);
    assert [e][1..] == [] && Run(s4, [e]) == Step(s4, e);
    assert [d, e][1..] == [e] && Run(s3, [d, e]) == Run(s4, [e]);
    assert [c, d, e][1..] == [d, e] && Run(s2, [c, d, e]) == Run(s3, [d, e]);
    assert [b, c, d, e][1..] == [c, d, e] && Run(s1, [b, c, d, e]) == Run(s2, [c, d, e]);
    assert [a, b, c, d, e][1..] == [b, c, d, e];
  }

  /** A step under a lock that keeps nobody out. */
  function StepUnguarded(s: State, a: Action): State {
    Step(s.(lock := None), a)
  }

  /** Thread 0 has passed its check and thread 1 is closing, both holding what they took for the lock. */
  const PAST_THE_CHECK := State([Checked(Watermarks, true), CloseLocked], [[], []], None, true, false, 0, Some(1))

  lemma PastTheCheckIsReached()
    ensures var s := StepUnguarded(StepUnguarded(StepUnguarded(Start(2), Begin(0, Watermarks)), TakeLock(0)), CheckFlag(0));
      StepUnguarded(StepUnguarded(s, SwapFlag(1)), TakeLock(1)).(lock := None) == PAST_THE_CHECK
  {
    var s1 := State([Waiting(Watermarks), Outside], [[], []], None, false, false, 0, None);
    var s2 := s1.(threads := [Locked(Watermarks, true), Outside], lock := Some(0));
    var s3 := s1.(threads := [Checked(Watermarks, true), Outside]);
    var s4 := s3.(threads := [Checked(Watermarks, true), CloseWaiting], closed := true, closer := Some(1));
    assert StepUnguarded(Start(2), Begin(0, Watermarks)) == s1;
    assert StepUnguarded(s1, TakeLock(0)) == s2;
    assert StepUnguarded(s2, CheckFlag(0)) == s3;
    assert StepUnguarded(s3, SwapFlag(1)) == s4;
    assert StepUnguarded(s4, TakeLock(1)).(lock := None) == PAST_THE_CHECK;
  }

  /** Without mutual exclusion the check is not enough: a call that passed it runs on a released handle. */
  lemma CheckAloneIsNotEnough()
    ensures var released := StepUnguarded(StepUnguarded(PAST_THE_CHECK, EnterNative(1)), LeaveNative(1));
      var s := StepUnguarded(released, EnterNative(0));
      s.threads[0].Native? && s.released
  {
    var s1 := PAST_THE_CHECK.(threads := [Checked(Watermarks, true), NativeClose], nativeCloses := 1);
    var s2 := s1.(threads := [Checked(Watermarks, true), CloseDone], released := true);
    assert StepUnguarded(PAST_THE_CHECK, EnterNative(1)) == s1;
    assert StepUnguarded(s1, LeaveNative(1)) == s2;
  }
}
