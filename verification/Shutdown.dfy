/**
  Stopping: once the context is cancelled or a fatal error recorded, every serving
  goroutine is gone after at most eight of its own steps, whatever the others do,
  having polled at most once more; and what they leave behind never changes again.
 */
module Shutdown {
  import opened Wrappers
  import opened Kafka
  import opened Events
  import opened Replay
  import opened Ledger
  import opened Warmup
  import opened Lifecycle
  import opened Ownership

  predicate Stopping<K, V>(s: State<K, V>) {
    s.ctx.Some? || s.err.Some?
  }

  /** How many of its own steps a goroutine still takes at most, once the loader is stopping. */
  function StepsLeft(pc: ServePc, err: Option<Error>): nat {
    match pc
    case NotServing => 0
    case CheckingErr => if err.Some? then 4 else 8
    case ServePolling => 7
    case ServeHolding(_) => 6
    case CheckingCtx => 5
    case Dying(_) => 5
    case Notifying(_) => 4
    case Marking => 3
    case Closing => 2
    case Leaving => 1
    case Gone => 0
  }

  /** How many more polls it may make. */
  function PollsLeft(pc: ServePc, err: Option<Error>): nat {
    if pc.ServePolling? || (pc.CheckingErr? && err.None?) then 1 else 0
  }

  lemma ServeWorkerStops<K, V>(
    cfg: Config<K, V>, i: nat, ctx: Option<Error>, err: Option<Error>, w: Worker<K, V>, turn: Turn)
    requires i < |cfg.bindings| && (ctx.Some? || err.Some?)
    ensures var w' := ServeWorker(cfg.bindings[i], ctx, err, w, turn);
      && StepsLeft(w'.serve, err) <= (if StepsLeft(w.serve, err) == 0 then 0 else StepsLeft(w.serve, err) - 1)
      && w'.polls + PollsLeft(w'.serve, err) <= w.polls + PollsLeft(w.serve, err)
      && |w'.reading.delivered| + PollsLeft(w'.serve, err) <= |w.reading.delivered| + PollsLeft(w.serve, err)
      && (w'.serve.NotServing? <==> w.serve.NotServing?)
  {
    hide NativePoll, Translate;
  }

  /** How many more records it may apply: one it has in hand, or one from a poll it may still make. */
  function AppliesLeft(pc: ServePc, err: Option<Error>): nat {
    if (pc.ServeHolding? && pc.ev.Received?) || PollsLeft(pc, err) > 0 then 1 else 0
  }

  lemma ServeWorkerApplies<K, V>(
    cfg: Config<K, V>, i: nat, ctx: Option<Error>, err: Option<Error>, w: Worker<K, V>, turn: Turn)
    requires i < |cfg.bindings| && (ctx.Some? || err.Some?)
    ensures var w' := ServeWorker(cfg.bindings[i], ctx, err, w, turn);
      Entered(w'.reading.ledger) + AppliesLeft(w'.serve, err) <= Entered(w.reading.ledger) + AppliesLeft(w.serve, err)
  {
    hide Enter, PollWorker;
    if w.serve.ServePolling? {
      PollEntersNothing(w, turn);
    }
    if w.serve.ServeHolding? && w.serve.ev.Received? {
      EnterCountsOne(cfg.bindings[i], w.reading.ledger, w.serve.ev.rec);
    }
  }

  lemma PollEntersNothing<K, V>(w: Worker<K, V>, turn: Turn)
    ensures PollWorker(w, turn).0.ledger == w.reading.ledger
  {
    hide NativePoll, Translate;
  }

  predicate OfServe(a: Action, i: nat) {
    a.ServeStep? && a.i == i
  }

  /** After Start has handed everything over, only serving steps change a worker. */
  lemma OnlyServing<K, V>(cfg: Config<K, V>, s: State<K, V>, a: Action, i: nat)
    requires Control(cfg, s) && s.main == Returned(Serving) && i < |s.workers|
    ensures var s' := Step(cfg, s, a);
      && s'.main == s.main && |s'.workers| == |s.workers|
      && (s.ctx.Some? ==> s'.ctx.Some?)
      && (s.err.Some? ==> s'.err == s.err)
      && s'.workers[i] == (
           if OfServe(a, i) then ServeWorker(cfg.bindings[i], s.ctx, s.err, s.workers[i], a.turn) else s.workers[i])
  {
    hide ServeWorker, Warm, Books;
    if a.WarmStep? && a.i < |s.workers| {
      assert Stage(s.main, s.buildErrors, a.i, s.workers[a.i]);
      WarmFrame(cfg.bindings[a.i], cfg.bounded, s.warmCtx, s.workers[a.i], a.assignment, a.turn);
    }
  }

  lemma ErrLowers(pc: ServePc, err: Option<Error>, err': Option<Error>)
    requires err.Some? ==> err' == err
    ensures StepsLeft(pc, err') <= StepsLeft(pc, err) && PollsLeft(pc, err') <= PollsLeft(pc, err)
    ensures AppliesLeft(pc, err') <= AppliesLeft(pc, err)
  {
  }

  /** Goroutine i's remaining steps, polls, deliveries and applications never grow, and each step of its own uses one up. */
  lemma StepStops<K, V>(cfg: Config<K, V>, s: State<K, V>, a: Action, i: nat)
    requires Control(cfg, s) && s.main == Returned(Serving) && i < |s.workers| && Stopping(s)
    ensures var s' := Step(cfg, s, a);
      var left, left' := StepsLeft(s.workers[i].serve, s.err), StepsLeft(s'.workers[i].serve, s'.err);
      && Stopping(s') && s'.main == s.main && |s'.workers| == |s.workers|
      && left' <= left
      && (OfServe(a, i) && left > 0 ==> left' < left)
      && s'.workers[i].polls + PollsLeft(s'.workers[i].serve, s'.err)
         <= s.workers[i].polls + PollsLeft(s.workers[i].serve, s.err)
      && |s'.workers[i].reading.delivered| + PollsLeft(s'.workers[i].serve, s'.err)
         <= |s.workers[i].reading.delivered| + PollsLeft(s.workers[i].serve, s.err)
      && Entered(s'.workers[i].reading.ledger) + AppliesLeft(s'.workers[i].serve, s'.err)
         <= Entered(s.workers[i].reading.ledger) + AppliesLeft(s.workers[i].serve, s.err)
  {
    hide Step, ServeWorker, Control, StepsLeft, PollsLeft, AppliesLeft, Entered;
    OnlyServing(cfg, s, a, i);
    var s' := Step(cfg, s, a);
    assert |s.workers| == |cfg.bindings| by {
      ControlledSize(cfg, s);
    }
    if OfServe(a, i) {
      ServeWorkerStops(cfg, i, s.ctx, s.err, s.workers[i], a.turn);
      ServeWorkerApplies(cfg, i, s.ctx, s.err, s.workers[i], a.turn);
    }
    ErrLowers(s'.workers[i].serve, s.err, s'.err);
  }

  lemma ControlledSize<K, V>(cfg: Config<K, V>, s: State<K, V>)
    requires Control(cfg, s)
    ensures |s.workers| == |cfg.bindings|
  {
  }

  /** How many of the actions are goroutine i's. */
  function Turns(actions: seq<Action>, i: nat): nat {
    if actions == [] then 0 else (if OfServe(actions[0], i) then 1 else 0) + Turns(actions[1..], i)
  }

  lemma {:induction false} RunStops<K, V>(cfg: Config<K, V>, s: State<K, V>, actions: seq<Action>, i: nat)
    requires Control(cfg, s) && s.main == Returned(Serving) && i < |s.workers| && Stopping(s)
    ensures var s' := Run(cfg, s, actions);
      && |s'.workers| == |s.workers| && s'.main == s.main
      && (var left, left' := StepsLeft(s.workers[i].serve, s.err), StepsLeft(s'.workers[i].serve, s'.err);
          left' == 0 || left' + Turns(actions, i) <= left)
      && s'.workers[i].polls <= s.workers[i].polls + PollsLeft(s.workers[i].serve, s.err)
      && |s'.workers[i].reading.delivered| <= |s.workers[i].reading.delivered| + PollsLeft(s.workers[i].serve, s.err)
      && Entered(s'.workers[i].reading.ledger)
         <= Entered(s.workers[i].reading.ledger) + AppliesLeft(s.workers[i].serve, s.err)
    decreases |actions|
  {
    hide Control, Step, StepsLeft, PollsLeft, AppliesLeft, Entered;
    if actions != [] {
      StepControlled(cfg, s, actions[0]);
      StepStops(cfg, s, actions[0], i);
      RunStops(cfg, Step(cfg, s, actions[0]), actions[1..], i);
    }
  }

  /**
    After the stop, no goroutine polls more than once, none is handed more than
    one further record, and none enters more than one further record in its
    ledger, though it may have had one in hand.
   */
  lemma AtMostOneMorePoll<K, V>(
    cfg: Config<K, V>, stores: seq<map<K, V>>, s: State<K, V>, actions: seq<Action>, i: nat)
    requires Reachable(cfg, stores, s) && s.main == Returned(Serving) && Stopping(s) && i < |s.workers|
    ensures var s' := Run(cfg, s, actions);
      && i < |s'.workers|
      && s'.workers[i].polls <= s.workers[i].polls + 1
      && |s'.workers[i].reading.delivered| <= |s.workers[i].reading.delivered| + 1
      && Entered(s'.workers[i].reading.ledger) <= Entered(s.workers[i].reading.ledger) + 1
  {
    hide Control, Step, Entered;
    ReachableControlled(cfg, stores, s);
    RunStops(cfg, s, actions, i);
  }

  /** Eight steps of each goroutine, in any order and among any other actions, stop the loader and close every consumer. */
  lemma ShutdownConverges<K, V>(cfg: Config<K, V>, stores: seq<map<K, V>>, s: State<K, V>, actions: seq<Action>)
    requires Reachable(cfg, stores, s) && s.main == Returned(Serving) && Stopping(s)
    requires forall i: nat | i < |s.workers| :: Turns(actions, i) >= 8
    ensures var s' := Run(cfg, s, actions);
      && s'.main == Returned(Serving) && s'.serving == {}
      && |s'.workers| == |s.workers|
      && (forall i | 0 <= i < |s'.workers| :: s'.workers[i].serve.Gone? && s'.workers[i].closes == s'.workers[i].built == 1)
  {
    hide Step, Books;
    ReachableControlled(cfg, stores, s);
    RunControlled(cfg, s, actions);
    RunKeepsShape(cfg, s, actions);
    var s' := Run(cfg, s, actions);
    forall i: nat | i < |s'.workers|
      ensures s'.workers[i].serve.Gone? && s'.workers[i].closes == s'.workers[i].built == 1
    {
      RunStops(cfg, s, actions, i);
      assert Stage(s'.main, s'.buildErrors, i, s'.workers[i]);
    }
  }

  lemma {:induction false} RunKeepsShape<K, V>(cfg: Config<K, V>, s: State<K, V>, actions: seq<Action>)
    requires s.main == Returned(Serving) && s.started
    ensures Run(cfg, s, actions).main == s.main && |Run(cfg, s, actions).workers| == |s.workers|
    decreases |actions|
  {
    hide ServeWorker, Warm;
    if actions != [] {
      RunKeepsShape(cfg, Step(cfg, s, actions[0]), actions[1..]);
    }
  }

  /** Start has returned or has nothing to start, and no goroutine of either generation is running. */
  ghost predicate AtRest<K, V>(s: State<K, V>) {
    && (s.main.Returned? || |s.workers| == 0)
    && forall i | 0 <= i < |s.workers| ::
         && (s.workers[i].warm.NotBegun? || s.workers[i].warm.Result?)
         && (s.workers[i].serve.NotServing? || s.workers[i].serve.Gone?)
  }

  ghost predicate SameOutcome<K, V>(s: State<K, V>, s': State<K, V>) {
    s'.workers == s.workers && s'.main == s.main && s'.err == s.err && s'.notified == s.notified && s'.serving == s.serving
  }

  lemma RestingStep<K, V>(cfg: Config<K, V>, s: State<K, V>, a: Action)
    requires Control(cfg, s) && AtRest(s)
    ensures SameOutcome(s, Step(cfg, s, a))
  {
    hide Books, Stage, Handle, PollWorker;
    if a.WarmStep? && a.i < |s.workers| {
      assert s.workers[a.i := s.workers[a.i]] == s.workers;
    }
    if a.ServeStep? && a.i < |s.workers| {
      assert s.workers[a.i := s.workers[a.i]] == s.workers;
    }
  }

  lemma {:induction false} RestingRun<K, V>(cfg: Config<K, V>, s: State<K, V>, actions: seq<Action>)
    requires Control(cfg, s) && AtRest(s)
    ensures SameOutcome(s, Run(cfg, s, actions))
    decreases |actions|
  {
    hide Control, Step;
    if actions != [] {
      StepControlled(cfg, s, actions[0]);
      RestingStep(cfg, s, actions[0]);
      RestingRun(cfg, Step(cfg, s, actions[0]), actions[1..]);
    }
  }

  /**
    Once Start has returned, with nil or an error, and a wait has found no serving
    goroutine left, nothing changes any more, whatever anybody does: no store is
    written, no consumer polled or closed, no error recorded, no handler called.
   */
  lemma NothingAfterTheWait<K, V>(cfg: Config<K, V>, stores: seq<map<K, V>>, s: State<K, V>, actions: seq<Action>)
    requires Reachable(cfg, stores, s) && s.main.Returned? && s.serving == {}
    ensures SameOutcome(s, Run(cfg, s, actions))
  {
    hide Step, SameOutcome;
    ReachableControlled(cfg, stores, s);
    ConsumersConserved(cfg, stores, s);
    forall i | 0 <= i < |s.workers|
      ensures s.workers[i].warm.NotBegun? || s.workers[i].warm.Result?
    {
      assert Stage(s.main, s.buildErrors, i, s.workers[i]);
    }
    RestingRun(cfg, s, actions);
  }

  /** While Start has not returned, one step of it or of a warm-up goroutine changes the outcome. */
  lemma SomethingStillMoves<K, V>(cfg: Config<K, V>, s: State<K, V>) returns (actions: seq<Action>)
    requires Control(cfg, s) && 0 < |s.workers| && !s.main.Returned?
    ensures !SameOutcome(s, Run(cfg, s, actions))
  {
    hide Step, SameOutcome, Control;
    var a := SomeMove(cfg, s);
    actions := [a];
    assert actions[1..] == [];
    assert Run(cfg, Step(cfg, s, a), []) == Step(cfg, s, a);
  }

  lemma SomeMove<K, V>(cfg: Config<K, V>, s: State<K, V>) returns (a: Action)
    requires Control(cfg, s) && 0 < |s.workers| && !s.main.Returned?
    ensures !SameOutcome(s, Step(cfg, s, a))
  {
    hide Handle, PollWorker, Books, Stage, Results, ServeOne;
    if s.main.Unclaimed? {
      a := Claim(0);
    } else if s.main.Joining? && !AllDone(s.workers) {
      var i: nat :| i < |s.workers| && !s.workers[i].warm.Result?;
      LaunchedWhenJoining(cfg, s, i);
      a := WarmStep(i, Refusal(Transport), Turn([], Quiet));
      assert Step(cfg, s, a).workers[i].warm != s.workers[i].warm;
    } else {
      if s.main.Discarding? {
        DiscardedAllDone(cfg, s);
      }
      a := StartStep(None);
    }
  }

  /**
    When a wait that has found no serving goroutine is conclusive: nothing
    changes any more, whatever anybody does, exactly when Start has returned or
    the loader has no bindings.
   */
  lemma WaitExact<K, V>(cfg: Config<K, V>, stores: seq<map<K, V>>, s: State<K, V>)
    requires Reachable(cfg, stores, s) && s.serving == {}
    ensures s.main.Returned? || |stores| == 0 <==> forall actions :: SameOutcome(s, Run(cfg, s, actions))
  {
    hide Step, SameOutcome, Books;
    ReachableControlled(cfg, stores, s);
    if s.main.Returned? || |stores| == 0 {
      forall actions
        ensures SameOutcome(s, Run(cfg, s, actions))
      {
        if |stores| == 0 {
          RestingRun(cfg, s, actions);
        } else {
          NothingAfterTheWait(cfg, stores, s, actions);
        }
      }
    } else {
      var actions := SomethingStillMoves(cfg, s);
    }
  }

  /** A loader with one binding whose Start has launched its only warm-up goroutine. */
  lemma Launched<K, V>(b: Binding<K, V>) returns (s: State<K, V>)
    ensures Reachable(Config([b], false, false), [map[]], s)
    ensures s.serving == {} && s.warmCtx.None?
    ensures s.workers == [NewWorker(map[]).(warm := Assigning, built := 1)]
  {
    hide Warm, ServeOne;
    var cfg := Config([b], false, false);
    s := Bound([map[]]);
    assert s == Run(cfg, s, []);
    s := Taken(cfg, [map[]], s, Claim(0));
    s := Taken(cfg, [map[]], s, StartStep(None));
    s := Taken(cfg, [map[]], s, StartStep(None));
    s := Taken(cfg, [map[]], s, StartStep(None));
  }

  lemma WarmTaken<K, V>(b: Binding<K, V>, s: State<K, V>, assignment: Assignment, turn: Turn)
    returns (next: State<K, V>)
    requires Reachable(Config([b], false, false), [map[]], s) && |s.workers| == 1
    ensures Reachable(Config([b], false, false), [map[]], next)
    ensures next == Put(s, 0, Warm(b, false, s.warmCtx, s.workers[0], assignment, turn))
  {
    hide Warm, Reachable, Bound;
    next := Taken(Config([b], false, false), [map[]], s, WarmStep(0, assignment, turn));
  }

  /**
    A wait that begins while Start is reading topics: the WaitGroup counts
    nothing, so the wait is over, yet a warm-up goroutine holds a record and its
    next step writes it to the store.
   */
  lemma WaitEndsWhileLoading<K, V>(b: Binding<K, V>, rec: Record, key: K, value: V)
    returns (s: State<K, V>, next: State<K, V>)
    requires EffectOf(b, rec) == Upsert(key, value)
    ensures var cfg := Config([b], false, false);
      && Reachable(cfg, [map[]], s) && s.serving == {}
      && next == Step(cfg, s, WarmStep(0, Refusal(Transport), Turn([], Quiet)))
      && |s.workers| == |next.workers| == 1
      && s.workers[0].warm == Holding(Received(rec))
      && s.workers[0].reading.ledger.table == map[]
      && next.workers[0].reading.ledger.table == map[key := value]
      && next.workers[0].reading.ledger.phase.Warmup? && next.workers[0].reading.ledger.warmupApplied == 1
  {
    hide EffectOf, Report, Clashed, Reachable;
    var p := rec.partition;
    var logs, refusal, quiet := map[p := [rec]], Refusal(Transport), Turn([], Quiet);
    s := Launched(b);
    s := WarmTaken(b, s, Partitions(logs), quiet);
    s := WarmTaken(b, s, refusal, quiet);
    assert s.workers[0].warm.Polling? && s.workers[0].reading == Assigned(logs, Opened(map[])) && s.workers[0].closes == 0;
    s := WarmTaken(b, s, refusal, Turn([], Deliver(p)));
    next := WarmTaken(b, s, refusal, quiet);
  }

  lemma Taken<K, V>(cfg: Config<K, V>, stores: seq<map<K, V>>, s: State<K, V>, a: Action)
    returns (next: State<K, V>)
    requires Reachable(cfg, stores, s)
    ensures next == Step(cfg, s, a) && Reachable(cfg, stores, next)
  {
    hide Step;
    var actions :| s == Run(cfg, Bound(stores), actions);
    next := Step(cfg, s, a);
    RunAppend(cfg, Bound(stores), actions, a);
  }

  lemma {:induction false} RunAppend<K, V>(cfg: Config<K, V>, s: State<K, V>, actions: seq<Action>, a: Action)
    ensures Run(cfg, s, actions + [a]) == Step(cfg, Run(cfg, s, actions), a)
    decreases |actions|
  {
    hide Step;
    if actions == [] {
      assert [] + [a] == [a] && [a][1..] == [];
      assert Run(cfg, Step(cfg, s, a), []) == Step(cfg, s, a);
    } else {
      assert (actions + [a])[1..] == actions[1..] + [a];
      RunAppend(cfg, Step(cfg, s, actions[0]), actions[1..], a);
    }
  }
}
