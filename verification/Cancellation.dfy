/**
  Giving up: once the warm-up context is done, Start returns. Every step left to
  Start and its warm-up goroutines uses up a measure over all their positions,
  and while Start has not returned one of them can take a step.
 */
module Cancellation {
  import opened Wrappers
  import opened Kafka
  import opened Events
  import opened Warmup
  import opened Lifecycle
  import opened Ownership

  /** How many steps a warm-up goroutine has left, once its context is done. */
  function WarmLeft(pc: WarmPc): nat {
    match pc
    case NotBegun => 2
    case Assigning => 1
    case Checking => 1
    case Polling => 3
    case Holding(_) => 2
    case Result(_) => 0
  }

  function Rest(n: nat, j: nat): nat {
    if j <= n then n - j else 0
  }

  /** How many steps Start has left of its own, with n bindings. */
  function MainLeft(main: Main, n: nat): nat {
    match main
    case Unclaimed => 0
    case Building(j) => Rest(n, j) + 2 * n + 4
    case Unbuilding(j) => Rest(n, j) + 1
    case Launching(j) => Rest(n, j) + n + 3
    case Joining => n + 2
    case Discarding(j) => Rest(n, j) + 1
    case Handing(j) => Rest(n, j) + 1
    case Returned(_) => 0
  }

  function AllWarmLeft<K, V>(workers: seq<Worker<K, V>>): nat {
    if workers == [] then 0 else AllWarmLeft(workers[..|workers| - 1]) + WarmLeft(workers[|workers| - 1].warm)
  }

  function Outstanding<K, V>(s: State<K, V>): nat {
    MainLeft(s.main, |s.workers|) + AllWarmLeft(s.workers)
  }

  lemma {:induction false} WarmLeftUpdate<K, V>(workers: seq<Worker<K, V>>, i: nat, w: Worker<K, V>)
    requires i < |workers|
    ensures AllWarmLeft(workers[i := w]) == AllWarmLeft(workers) - WarmLeft(workers[i].warm) + WarmLeft(w.warm)
    decreases |workers|
  {
    var init := workers[..|workers| - 1];
    if i < |init| {
      assert workers[i := w][..|workers| - 1] == init[i := w];
      WarmLeftUpdate(init, i, w);
    } else {
      assert workers[i := w][..|workers| - 1] == init;
    }
  }

  lemma {:induction false} WarmLeftBound<K, V>(workers: seq<Worker<K, V>>)
    ensures AllWarmLeft(workers) <= 3 * |workers|
    decreases |workers|
  {
    if workers != [] {
      WarmLeftBound(workers[..|workers| - 1]);
    }
  }

  /** A step of Start changes nothing, or leaves less to do. */
  lemma AdvanceLowers<K, V>(cfg: Config<K, V>, s: State<K, V>, failure: Option<Error>)
    requires Control(cfg, s)
    ensures var next := Advance(s, failure);
      && next.started == s.started && next.warmCtx == s.warmCtx
      && (next == s || Outstanding(next) < Outstanding(s))
      && (next == s ==> s.main.Unclaimed? || s.main.Returned? || (s.main.Joining? && !AllDone(s.workers)))
  {
    hide WarmLeft, AllWarmLeft, AllDone, AnyError, Stage, SomeFailed;
    var next := Advance(s, failure);
    var n := |s.workers|;
    match s.main
    case Building(j) =>
      if j < n {
        WarmLeftUpdate(s.workers, j, next.workers[j]);
      }
    case Unbuilding(j) =>
      if j < n {
        WarmLeftUpdate(s.workers, j, next.workers[j]);
      }
    case Launching(j) =>
      if j < n {
        LaunchLowers(cfg, s, j);
      }
    case Discarding(j) =>
      if j < n {
        WarmLeftUpdate(s.workers, j, next.workers[j]);
      } else {
        DiscardedAllDone(cfg, s);
      }
    case Handing(j) =>
      if j < n {
        WarmLeftUpdate(s.workers, j, next.workers[j]);
      }
    case _ =>
  }

  lemma LaunchLowers<K, V>(cfg: Config<K, V>, s: State<K, V>, j: nat)
    requires Control(cfg, s) && s.main == Launching(j) && j < |s.workers|
    ensures AllWarmLeft(s.workers[j := s.workers[j].(warm := Assigning)]) < AllWarmLeft(s.workers)
  {
    assert Stage(s.main, s.buildErrors, j, s.workers[j]);
    WarmLeftUpdate(s.workers, j, s.workers[j].(warm := Assigning));
  }

  /** A step of a warm-up goroutine whose context is done changes nothing, or leaves less to do. */
  lemma WarmLowers<K, V>(cfg: Config<K, V>, s: State<K, V>, i: nat, assignment: Assignment, turn: Turn)
    requires i < |s.workers| && i < |cfg.bindings| && s.warmCtx.Some?
    ensures var next := Put(s, i, Warm(cfg.bindings[i], cfg.bounded, s.warmCtx, s.workers[i], assignment, turn));
      && (next == s || Outstanding(next) < Outstanding(s))
      && (next == s ==> s.workers[i].warm.NotBegun? || s.workers[i].warm.Result?)
  {
    hide Handle, PollWorker, NameTimeout;
    var w := Warm(cfg.bindings[i], cfg.bounded, s.warmCtx, s.workers[i], assignment, turn);
    WarmLeftUpdate(s.workers, i, w);
    assert s.workers[i := s.workers[i]] == s.workers;
  }

  /** The step is one of Start's or of a warm-up goroutine's. */
  predicate OfStart(a: Action) {
    a.StartStep? || a.WarmStep?
  }

  /** The warm-up context is done and Start has been claimed. */
  predicate GivingUp<K, V>(s: State<K, V>) {
    s.started && s.warmCtx.Some?
  }

  lemma ServeLeaves<K, V>(cfg: Config<K, V>, s: State<K, V>, i: nat, turn: Turn)
    requires i < |s.workers| && i < |cfg.bindings|
    ensures Outstanding(ServeOne(cfg, s, i, turn)) == Outstanding(s)
  {
    hide ServeWorker, WarmLeft, AllWarmLeft;
    ServeFrame(cfg.bindings[i], s.ctx, s.err, s.workers[i], turn);
    WarmLeftUpdate(s.workers, i, ServeWorker(cfg.bindings[i], s.ctx, s.err, s.workers[i], turn));
  }

  lemma StepLowers<K, V>(cfg: Config<K, V>, s: State<K, V>, a: Action)
    requires Control(cfg, s) && GivingUp(s)
    ensures var next := Step(cfg, s, a);
      && GivingUp(next)
      && Outstanding(next) <= Outstanding(s)
      && (OfStart(a) && next != s ==> Outstanding(next) < Outstanding(s))
  {
    hide Advance, Warm, ServeWorker, AllWarmLeft, MainLeft, Books, Stage, AllDone;
    match a
    case Claim(_) =>
    case StartStep(failure) => AdvanceLowers(cfg, s, failure);
    case Cancel =>
    case Expire =>
    case WarmStep(i, assignment, turn) =>
      if i < |s.workers| {
        WarmLowers(cfg, s, i, assignment, turn);
      }
    case ServeStep(i, turn) =>
      if i < |s.workers| {
        ServeLeaves(cfg, s, i, turn);
      }
  }

  /** While Start has not returned, it or one of its goroutines can take a step. */
  lemma SomeoneMoves<K, V>(cfg: Config<K, V>, s: State<K, V>)
    requires Control(cfg, s) && GivingUp(s) && !s.main.Returned?
    ensures exists a :: OfStart(a) && Step(cfg, s, a) != s
  {
    hide Advance, Warm, ServeWorker, Books, Stage, Outstanding;
    if s.main.Joining? && !AllDone(s.workers) {
      var i: nat :| i < |s.workers| && !s.workers[i].warm.Result?;
      LaunchedWhenJoining(cfg, s, i);
      var a := WarmStep(i, Refusal(Transport), Turn([], Quiet));
      WarmLowers(cfg, s, i, a.assignment, a.turn);
      assert OfStart(a) && Step(cfg, s, a) != s;
    } else {
      AdvanceLowers(cfg, s, None);
      assert OfStart(StartStep(None)) && Step(cfg, s, StartStep(None)) != s;
    }
  }

  /** How many of the actions are steps of Start or its warm-up goroutines that change something. */
  ghost function Moves<K, V>(cfg: Config<K, V>, s: State<K, V>, actions: seq<Action>): nat
    decreases |actions|
  {
    if actions == [] then 0
    else
      var next := Step(cfg, s, actions[0]);
      (if OfStart(actions[0]) && next != s then 1 else 0) + Moves(cfg, next, actions[1..])
  }

  lemma {:induction false} RunLowers<K, V>(cfg: Config<K, V>, s: State<K, V>, actions: seq<Action>)
    requires Control(cfg, s) && GivingUp(s)
    ensures var s' := Run(cfg, s, actions);
      Control(cfg, s') && GivingUp(s') && Moves(cfg, s, actions) + Outstanding(s') <= Outstanding(s)
    decreases |actions|
  {
    hide Control, Step, Outstanding, GivingUp, OfStart;
    if actions != [] {
      StepControlled(cfg, s, actions[0]);
      StepLowers(cfg, s, actions[0]);
      RunLowers(cfg, Step(cfg, s, actions[0]), actions[1..]);
    }
  }

  /**
    Once the context is cancelled or the warm-up deadline has passed, Start
    returns: whatever else happens, it and its goroutines take at most 6n + 4
    more steps together, and until it has returned there is always one to take.
   */
  lemma CancelledStartReturns<K, V>(cfg: Config<K, V>, stores: seq<map<K, V>>, s: State<K, V>, actions: seq<Action>)
    requires Reachable(cfg, stores, s) && GivingUp(s)
    ensures Moves(cfg, s, actions) <= 6 * |stores| + 4
    ensures var s' := Run(cfg, s, actions);
      s'.main.Returned? || exists a :: OfStart(a) && Step(cfg, s', a) != s'
  {
    hide Step, Moves, Books, Stage, AllWarmLeft;
    ReachableControlled(cfg, stores, s);
    RunLowers(cfg, s, actions);
    WarmLeftBound(s.workers);
    var s' := Run(cfg, s, actions);
    if !s'.main.Returned? {
      SomeoneMoves(cfg, s');
    }
  }
}
