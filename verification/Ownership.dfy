/**
  Who owns a consumer, and when. The invariant of the lifecycle's control: what
  each stage of Start implies about every binding's goroutines and consumer.
 */
module Ownership {
  import opened Wrappers
  import opened Kafka
  import opened Events
  import opened Replay
  import opened Warmup
  import opened Lifecycle

  /** The serving goroutine has closed its consumer. */
  predicate HasClosed(pc: ServePc) {
    pc.Leaving? || pc.Gone?
  }

  /** The WaitGroup counts the goroutine. */
  predicate Counted(pc: ServePc) {
    !pc.NotServing? && !pc.Gone?
  }

  /** Built when its construction succeeded, closed when asked, and no goroutine yet. */
  ghost predicate Idle<K, V>(w: Worker<K, V>, built: bool, closed: bool) {
    && w.warm.NotBegun? && w.serve.NotServing?
    && w.built == (if built then 1 else 0)
    && w.closes == (if built && closed then 1 else 0)
  }

  /** Built, warming or done warming, and not serving. */
  ghost predicate Borrowed<K, V>(w: Worker<K, V>, launched: bool, done: bool, closed: bool) {
    && (w.warm.NotBegun? <==> !launched)
    && (done ==> w.warm.Result?)
    && w.serve.NotServing?
    && w.built == 1
    && w.closes == (if closed then 1 else 0)
  }

  /** Loaded, and handed to a serving goroutine or about to be. */
  ghost predicate Loaded<K, V>(w: Worker<K, V>, handed: bool) {
    && w.warm == Result(None)
    && (w.serve.NotServing? <==> !handed)
    && w.built == 1
    && w.closes == (if HasClosed(w.serve) then 1 else 0)
  }

  /** What the stage of Start says about worker i. */
  ghost predicate Stage<K, V>(main: Main, buildErrors: seq<Option<Error>>, i: nat, w: Worker<K, V>) {
    match main
    case Unclaimed => Idle(w, false, false)
    case Building(j) => Idle(w, i < j && i < |buildErrors| && buildErrors[i].None?, false)
    case Unbuilding(j) => Idle(w, i < |buildErrors| && buildErrors[i].None?, i < j)
    case Launching(j) => Borrowed(w, i < j, false, false)
    case Joining => Borrowed(w, true, false, false)
    case Discarding(j) => Borrowed(w, true, true, i < j)
    case Handing(j) => Loaded(w, i < j)
    case Returned(BuildFailed(_)) => Idle(w, i < |buildErrors| && buildErrors[i].None?, true)
    case Returned(WarmupFailed(_)) => Borrowed(w, true, true, true)
    case Returned(Serving) => Loaded(w, true)
  }

  /** What the stage of Start says about its own variables. */
  ghost predicate Books<K, V>(s: State<K, V>) {
    var n := |s.workers|;
    match s.main
    case Unclaimed => s.buildErrors == []
    case Building(j) => j <= n && |s.buildErrors| == j
    case Unbuilding(j) => j <= n && |s.buildErrors| == n && AnyError(s.buildErrors)
    case Launching(j) => j <= n && |s.buildErrors| == n && !AnyError(s.buildErrors)
    case Joining => |s.buildErrors| == n && !AnyError(s.buildErrors)
    case Discarding(j) => j <= n && |s.buildErrors| == n && !AnyError(s.buildErrors) && SomeFailed(s.workers)
    case Handing(j) => j <= n && |s.buildErrors| == n && !AnyError(s.buildErrors)
    case Returned(BuildFailed(errors)) => errors == s.buildErrors && |errors| == n && AnyError(errors)
    case Returned(WarmupFailed(errors)) =>
      && |s.buildErrors| == n && !AnyError(s.buildErrors)
      && |errors| == n && SomeFailed(s.workers)
      && (forall i | 0 <= i < n :: s.workers[i].warm == WarmPc.Result(errors[i]))
    case Returned(Serving) => |s.buildErrors| == n && !AnyError(s.buildErrors)
  }

  ghost predicate SomeFailed<K, V>(workers: seq<Worker<K, V>>) {
    exists i :: 0 <= i < |workers| && workers[i].warm.Result? && workers[i].warm.error.Some?
  }

  ghost predicate Claimed<K, V>(s: State<K, V>) {
    && (s.started <==> !s.main.Unclaimed?)
    && |s.passed| == (if s.started then 1 else 0)
    && (s.started ==> 0 < |s.workers|)
    && (s.refused != [] && 0 < |s.workers| ==> s.started)
    && (forall i | 0 <= i < |s.refused| :: s.refused[i].1 == Refused(|s.workers|))
  }

  /** Why Start turns a call away, given the number of bindings. */
  function Refused(bindings: nat): Error {
    if bindings == 0 then NoBindings else AlreadyStarted
  }

  ghost predicate Control<K, V>(cfg: Config<K, V>, s: State<K, V>) {
    && |s.workers| == |cfg.bindings|
    && Claimed(s)
    && Books(s)
    && (forall i | 0 <= i < |s.workers| :: Stage(s.main, s.buildErrors, i, s.workers[i]))
    && (forall i: nat :: i in s.serving <==> i < |s.workers| && Counted(s.workers[i].serve))
  }

  lemma BoundIsControlled<K, V>(cfg: Config<K, V>, stores: seq<map<K, V>>)
    requires |stores| == |cfg.bindings|
    ensures Control(cfg, Bound(stores))
  {
  }

  /** Start's own step. */
  lemma AdvanceControlled<K, V>(cfg: Config<K, V>, s: State<K, V>, failure: Option<Error>)
    requires Control(cfg, s)
    ensures Control(cfg, Advance(s, failure))
  {
    hide Control;
    match s.main
    case Unclaimed =>
    case Building(j) => BuildingControlled(cfg, s, failure);
    case Unbuilding(j) => UnbuildingControlled(cfg, s, failure);
    case Launching(j) => LaunchingControlled(cfg, s, failure);
    case Joining => JoiningControlled(cfg, s, failure);
    case Discarding(j) => DiscardingControlled(cfg, s, failure);
    case Handing(j) => HandingControlled(cfg, s, failure);
    case Returned(_) =>
  }

  lemma UnbuildingControlled<K, V>(cfg: Config<K, V>, s: State<K, V>, failure: Option<Error>)
    requires Control(cfg, s) && s.main.Unbuilding?
    ensures Control(cfg, Advance(s, failure))
  {
  }

  lemma LaunchingControlled<K, V>(cfg: Config<K, V>, s: State<K, V>, failure: Option<Error>)
    requires Control(cfg, s) && s.main.Launching?
    ensures Control(cfg, Advance(s, failure))
  {
  }

  lemma DiscardingControlled<K, V>(cfg: Config<K, V>, s: State<K, V>, failure: Option<Error>)
    requires Control(cfg, s) && s.main.Discarding?
    ensures Control(cfg, Advance(s, failure))
  {
    var i :| 0 <= i < |s.workers| && s.workers[i].warm.Result? && s.workers[i].warm.error.Some?;
    assert Advance(s, failure).workers[i].warm == s.workers[i].warm;
  }

  lemma HandingControlled<K, V>(cfg: Config<K, V>, s: State<K, V>, failure: Option<Error>)
    requires Control(cfg, s) && s.main.Handing?
    ensures Control(cfg, Advance(s, failure))
  {
  }

  lemma BuildingControlled<K, V>(cfg: Config<K, V>, s: State<K, V>, failure: Option<Error>)
    requires Control(cfg, s) && s.main.Building?
    ensures Control(cfg, Advance(s, failure))
  {
  }

  lemma JoiningControlled<K, V>(cfg: Config<K, V>, s: State<K, V>, failure: Option<Error>)
    requires Control(cfg, s) && s.main.Joining?
    ensures Control(cfg, Advance(s, failure))
  {
    if AllDone(s.workers) {
      if AnyError(Results(s.workers)) {
        var i :| 0 <= i < |Results(s.workers)| && Results(s.workers)[i].Some?;
        assert s.workers[i].warm.error.Some?;
      } else {
        forall i | 0 <= i < |s.workers|
          ensures s.workers[i].warm == WarmPc.Result(None)
        {
          assert Results(s.workers)[i].None?;
        }
      }
    }
  }

  /** A warm-up goroutine never touches its consumer's ownership, and once it has its result it is over. */
  lemma WarmFrame<K, V>(
    b: Binding<K, V>, bounded: bool, ctx: Option<Error>, w: Worker<K, V>, assignment: Assignment, turn: Turn)
    ensures var w' := Warm(b, bounded, ctx, w, assignment, turn);
      && w'.built == w.built && w'.closes == w.closes && w'.serve == w.serve && w'.start == w.start
      && (w'.warm.NotBegun? <==> w.warm.NotBegun?)
      && (w.warm.NotBegun? || w.warm.Result? ==> w' == w)
  {
    hide Handle, Poll, WellFormed;
  }

  lemma WarmControlled<K, V>(cfg: Config<K, V>, s: State<K, V>, i: nat, assignment: Assignment, turn: Turn)
    requires Control(cfg, s) && i < |s.workers|
    ensures Control(cfg, Put(s, i, Warm(cfg.bindings[i], cfg.bounded, s.warmCtx, s.workers[i], assignment, turn)))
  {
    hide Warm;
    WarmFrame(cfg.bindings[i], cfg.bounded, s.warmCtx, s.workers[i], assignment, turn);
    PutControlled(cfg, s, i, Warm(cfg.bindings[i], cfg.bounded, s.warmCtx, s.workers[i], assignment, turn));
  }

  /** Replacing a worker by one that agrees on what control looks at. */
  lemma PutControlled<K, V>(cfg: Config<K, V>, s: State<K, V>, i: nat, w: Worker<K, V>)
    requires Control(cfg, s) && i < |s.workers|
    requires w.built == s.workers[i].built && w.closes == s.workers[i].closes && w.serve == s.workers[i].serve
    requires w.warm.NotBegun? <==> s.workers[i].warm.NotBegun?
    requires s.workers[i].warm.Result? ==> w.warm == s.workers[i].warm
    ensures Control(cfg, Put(s, i, w))
  {
    if SomeFailed(s.workers) {
      var k :| 0 <= k < |s.workers| && s.workers[k].warm.Result? && s.workers[k].warm.error.Some?;
      assert Put(s, i, w).workers[k].warm == s.workers[k].warm;
    }
  }

  /** A serving step moves its goroutine along the one path, and closes the consumer at one point of it. */
  lemma ServeFrame<K, V>(b: Binding<K, V>, ctx: Option<Error>, err: Option<Error>, w: Worker<K, V>, turn: Turn)
    ensures var w' := ServeWorker(b, ctx, err, w, turn);
      && w'.built == w.built && w'.warm == w.warm
      && w'.closes == w.closes + (if w.serve.Closing? then 1 else 0)
      && (w.serve.NotServing? ==> w' == w)
      && (w'.serve.NotServing? <==> w.serve.NotServing?)
      && (HasClosed(w'.serve) <==> HasClosed(w.serve) || w.serve.Closing?)
      && (Counted(w'.serve) <==> Counted(w.serve) && !w.serve.Leaving?)
  {
    hide Serve, Poll, PollWorker;
  }

  lemma ServeControlled<K, V>(cfg: Config<K, V>, s: State<K, V>, i: nat, turn: Turn)
    requires Control(cfg, s) && i < |s.workers|
    ensures Control(cfg, ServeOne(cfg, s, i, turn))
  {
    hide ServeWorker, AnyError;
    ServeFrame(cfg.bindings[i], s.ctx, s.err, s.workers[i], turn);
    assert Stage(s.main, s.buildErrors, i, s.workers[i]);
    var s' := ServeOne(cfg, s, i, turn);
    if s.workers[i].serve.NotServing? {
      assert s'.workers == s.workers;
    } else {
      assert s.main.Handing? || s.main == Returned(Serving);
    }
  }

  lemma StepControlled<K, V>(cfg: Config<K, V>, s: State<K, V>, a: Action)
    requires Control(cfg, s)
    ensures Control(cfg, Step(cfg, s, a))
  {
    hide Advance, Warm, ServeOne;
    match a
    case Claim(_) => ClaimControlled(cfg, s, a);
    case StartStep(failure) => AdvanceControlled(cfg, s, failure);
    case Cancel =>
    case Expire =>
    case WarmStep(i, assignment, turn) =>
      if i < |s.workers| {
        WarmControlled(cfg, s, i, assignment, turn);
      }
    case ServeStep(i, turn) =>
      if i < |s.workers| {
        ServeControlled(cfg, s, i, turn);
      }
  }

  lemma ClaimControlled<K, V>(cfg: Config<K, V>, s: State<K, V>, a: Action)
    requires Control(cfg, s) && a.Claim?
    ensures Control(cfg, Step(cfg, s, a))
  {
  }

  lemma {:induction false} RunControlled<K, V>(cfg: Config<K, V>, s: State<K, V>, actions: seq<Action>)
    requires Control(cfg, s)
    ensures Control(cfg, Run(cfg, s, actions))
    decreases |actions|
  {
    hide Control, Step;
    if actions != [] {
      StepControlled(cfg, s, actions[0]);
      RunControlled(cfg, Step(cfg, s, actions[0]), actions[1..]);
    }
  }

  // What follows, for every run of a loader with any stores bound to it.

  ghost predicate Reachable<K, V>(cfg: Config<K, V>, stores: seq<map<K, V>>, s: State<K, V>) {
    |stores| == |cfg.bindings| && exists actions :: s == Run(cfg, Bound(stores), actions)
  }

  lemma ReachableControlled<K, V>(cfg: Config<K, V>, stores: seq<map<K, V>>, s: State<K, V>)
    requires Reachable(cfg, stores, s)
    ensures Control(cfg, s)
  {
    hide Control, Step;
    var actions :| s == Run(cfg, Bound(stores), actions);
    BoundIsControlled(cfg, stores);
    RunControlled(cfg, Bound(stores), actions);
  }

  lemma LaunchedWhenJoining<K, V>(cfg: Config<K, V>, s: State<K, V>, i: nat)
    requires Control(cfg, s) && s.main.Joining? && i < |s.workers|
    ensures !s.workers[i].warm.NotBegun?
  {
    assert Stage(s.main, s.buildErrors, i, s.workers[i]);
  }

  lemma DiscardedAllDone<K, V>(cfg: Config<K, V>, s: State<K, V>)
    requires Control(cfg, s) && s.main.Discarding?
    ensures AllDone(s.workers)
  {
    forall i | 0 <= i < |s.workers|
      ensures s.workers[i].warm.Result?
    {
      assert Stage(s.main, s.buildErrors, i, s.workers[i]);
    }
  }

  predicate WarmRuns(pc: WarmPc) {
    !pc.NotBegun? && !pc.Result?
  }

  predicate ServeRuns(pc: ServePc) {
    !pc.NotServing? && !HasClosed(pc)
  }

  /**
    A consumer is built and closed at most once, used by at most one goroutine at
    a time, never after it was closed; and no binding serves while any warms up.
   */
  lemma OneOwner<K, V>(cfg: Config<K, V>, stores: seq<map<K, V>>, s: State<K, V>)
    requires Reachable(cfg, stores, s)
    ensures forall i | 0 <= i < |s.workers| ::
      var w := s.workers[i];
      && w.closes <= w.built <= 1
      && !(WarmRuns(w.warm) && ServeRuns(w.serve))
      && (WarmRuns(w.warm) || ServeRuns(w.serve) ==> w.built == 1 && w.closes == 0)
    ensures forall i, j | 0 <= i < |s.workers| && 0 <= j < |s.workers| && WarmRuns(s.workers[i].warm) ::
      s.workers[j].serve.NotServing?
  {
    ReachableControlled(cfg, stores, s);
    forall i | 0 <= i < |s.workers|
      ensures Stage(s.main, s.buildErrors, i, s.workers[i])
    {
    }
  }

  /** Once Start has returned and the WaitGroup is empty, every consumer that was built has been closed, once. */
  lemma ConsumersConserved<K, V>(cfg: Config<K, V>, stores: seq<map<K, V>>, s: State<K, V>)
    requires Reachable(cfg, stores, s) && s.main.Returned? && s.serving == {}
    ensures forall i | 0 <= i < |s.workers| :: s.workers[i].closes == s.workers[i].built
    ensures s.main == Returned(Serving) ==>
      forall i | 0 <= i < |s.workers| :: s.workers[i].serve.Gone? && s.workers[i].built == 1
    ensures s.main != Returned(Serving) ==> forall i | 0 <= i < |s.workers| :: s.workers[i].serve.NotServing?
  {
    ReachableControlled(cfg, stores, s);
    forall i: nat | i < |s.workers|
      ensures Stage(s.main, s.buildErrors, i, s.workers[i]) && !Counted(s.workers[i].serve)
    {
      assert i !in s.serving;
    }
  }

  /**
    Start is all or nothing. It returns nil exactly when every consumer was built
    and every warm-up succeeded, and then every binding has its serving goroutine;
    otherwise no serving goroutine exists and the errors are those of the stage
    that failed, one per failing binding and none for the others.
   */
  lemma StartIsAllOrNothing<K, V>(cfg: Config<K, V>, stores: seq<map<K, V>>, s: State<K, V>)
    requires Reachable(cfg, stores, s) && s.main.Returned?
    ensures s.main == Returned(Serving) <==>
      !AnyError(s.buildErrors) && forall i | 0 <= i < |s.workers| :: s.workers[i].warm == WarmPc.Result(None)
    ensures s.main == Returned(Serving) ==> forall i | 0 <= i < |s.workers| :: !s.workers[i].serve.NotServing?
    ensures s.main != Returned(Serving) ==>
      && (forall i | 0 <= i < |s.workers| :: s.workers[i].serve.NotServing? && s.workers[i].closes == s.workers[i].built)
      && (s.main.result.BuildFailed? ==>
        && s.main.result.errors == s.buildErrors
        && AnyError(s.main.result.errors)
        && (forall i | 0 <= i < |s.workers| :: s.workers[i].warm.NotBegun?)
        && |s.main.result.errors| == |s.workers|
        && (forall i | 0 <= i < |s.workers| :: s.main.result.errors[i].None? <==> s.workers[i].built == 1))
      && (s.main.result.WarmupFailed? ==>
        && AnyError(s.main.result.errors)
        && |s.main.result.errors| == |s.workers|
        && (forall i | 0 <= i < |s.workers| :: s.workers[i].warm == WarmPc.Result(s.main.result.errors[i])))
  {
    ReachableControlled(cfg, stores, s);
    forall i | 0 <= i < |s.workers|
      ensures Stage(s.main, s.buildErrors, i, s.workers[i])
    {
    }
    if SomeFailed(s.workers) {
      var i :| 0 <= i < |s.workers| && s.workers[i].warm.Result? && s.workers[i].warm.error.Some?;
      assert s.main.result.WarmupFailed? ==> s.main.result.errors[i].Some?;
    }
    if AnyError(s.buildErrors) {
      var i :| 0 <= i < |s.buildErrors| && s.buildErrors[i].Some?;
      assert s.main.result.BuildFailed?;
    }
  }

  /**
    Of any number of concurrent Start calls on a loader with bindings exactly one
    passes the claim, and every other is told that the loader was already
    started; without bindings every call is told so, and nothing ever starts.
   */
  lemma OneClaim<K, V>(cfg: Config<K, V>, stores: seq<map<K, V>>, actions: seq<Action>)
    requires |stores| == |cfg.bindings|
    ensures var s := Run(cfg, Bound(stores), actions);
      && |s.passed| + |s.refused| == Claims(actions)
      && |s.passed| == (if |stores| > 0 && Claims(actions) > 0 then 1 else 0)
      && (forall i | 0 <= i < |s.refused| :: s.refused[i].1 == if |stores| == 0 then NoBindings else AlreadyStarted)
      && (|stores| == 0 ==> s.main.Unclaimed?)
  {
    hide Books, Stage, Step;
    BoundIsControlled(cfg, stores);
    RunControlled(cfg, Bound(stores), actions);
    ClaimsAnswered(cfg, Bound(stores), actions);
  }

  function Claims(actions: seq<Action>): nat {
    if actions == [] then 0 else (if actions[0].Claim? then 1 else 0) + Claims(actions[1..])
  }

  lemma ClaimAnswered<K, V>(cfg: Config<K, V>, s: State<K, V>, a: Action)
    ensures var s' := Step(cfg, s, a);
      |s'.passed| + |s'.refused| == |s.passed| + |s.refused| + if a.Claim? then 1 else 0
  {
    hide Warm, ServeWorker, AnyError, AllDone;
  }

  lemma {:induction false} ClaimsAnswered<K, V>(cfg: Config<K, V>, s: State<K, V>, actions: seq<Action>)
    ensures var s' := Run(cfg, s, actions);
      |s'.passed| + |s'.refused| == |s.passed| + |s.refused| + Claims(actions)
    decreases |actions|
  {
    hide Step;
    if actions != [] {
      ClaimAnswered(cfg, s, actions[0]);
      ClaimsAnswered(cfg, Step(cfg, s, actions[0]), actions[1..]);
    }
  }

  /**
    The WaitGroup counts nothing until the handover: a wait that begins while
    Start is still reading topics returns at once, whatever is running.
   */
  lemma WaitBeforeHandover<K, V>(cfg: Config<K, V>, stores: seq<map<K, V>>, s: State<K, V>)
    requires Reachable(cfg, stores, s) && !s.main.Handing? && s.main != Returned(Serving)
    ensures s.serving == {}
  {
    ReachableControlled(cfg, stores, s);
    forall i: nat
      ensures i !in s.serving
    {
      if i < |s.workers| {
        assert Stage(s.main, s.buildErrors, i, s.workers[i]);
      }
    }
  }
}
