/**
  The steps of the transition system, taken one goroutine at a time, are the turns
  of the loops: what is proved of a loop over its script holds of a goroutine,
  however its steps are interleaved with others'.
 */
module Agreement {
  import opened Wrappers
  import opened Kafka
  import opened Events
  import opened Replay
  import opened Warmup
  import opened Lifecycle
  import opened Loader
  import opened Ownership
  import opened Fatal

  /**
    Three steps of a warm-up goroutine are one turn of the warm-up loop, of which
    the first step's context and the second's broker matter and nothing else.
   */
  lemma WarmTurnAgrees<K, V>(
    b: Binding<K, V>, bounded: bool, w: Worker<K, V>, ctx: seq<Option<Error>>, any: Assignment, turn: seq<Turn>)
    requires w.warm.Checking? && w.closes == 0 && |ctx| == |turn| == 3
    ensures var (l, v) := WarmLoop(b, bounded, w.reading, [Tick(ctx[0], turn[1], 0)]);
      var w1 := Warm(b, bounded, ctx[0], w, any, turn[0]);
      var w2 := Warm(b, bounded, ctx[1], w1, any, turn[1]);
      var w3 := Warm(b, bounded, ctx[2], w2, any, turn[2]);
      && w3.reading == l
      && w3.warm == (if v.Again? then Checking else WarmPc.Result(v.error))
      && w3.polls == w.polls + (if ctx[0].None? then 1 else 0)
      && (ctx[0].Some? ==> w1 == w3)
  {
    hide Handle, Poll;
    var script := [Tick(ctx[0], turn[1], 0)];
    assert script[1..] == [];
    if ctx[0].None? {
      var (polled, ev) := Poll(w.reading, turn[1]);
      var (next, v) := Handle(b, polled, ev);
      assert WarmLoop(b, bounded, next, []) == (next, Again);
    }
  }

  /**
    Four steps of a serving goroutine are one turn of the serving loop: the first
    reads the context, the second the loader's error, the third polls.
   */
  lemma ServeTurnAgrees<K, V>(
    b: Binding<K, V>, w: Worker<K, V>, ctx: seq<Option<Error>>, err: seq<Option<Error>>, turn: seq<Turn>)
    requires w.serve.CheckingCtx? && w.closes == 0 && |ctx| == |err| == |turn| == 4
    ensures var (l, o, ended) := ServeLoop(b, false, w.reading, Outcome(err[1], []), [ServeTick(ctx[0], None, turn[2], 0)]);
      var w1 := ServeWorker(b, ctx[0], err[0], w, turn[0]);
      var w2 := ServeWorker(b, ctx[1], err[1], w1, turn[1]);
      var w3 := ServeWorker(b, ctx[2], err[2], w2, turn[2]);
      var w4 := ServeWorker(b, ctx[3], err[3], w3, turn[3]);
      if ctx[0].Some? then ended && w1.serve == Marking && w1.reading == l
      else if err[1].Some? then ended && w2.serve == Marking && w2.reading == l
      else
        && w4.reading == l && w4.polls == w.polls + 1
        && (ended ==> o.err.Some? && w4.serve == Dying(o.err.value))
        && (!ended ==> w4.serve == CheckingCtx)
  {
    hide Serve, Poll;
    var script := [ServeTick(ctx[0], None, turn[2], 0)];
    assert script[1..] == [];
    if ctx[0].None? && err[1].None? {
      var (polled, ev) := Poll(w.reading, turn[2]);
      var next := Serve(b, polled, ev);
      assert ServeLoop(b, false, next, Outcome(err[1], []), []) == (next, Outcome(err[1], []), false);
    }
  }

  /** A warm-up goroutine's first step: a done context, a refusal or a missing topic ends it, otherwise it begins to read. */
  lemma AssigningExact<K, V>(
    b: Binding<K, V>, bounded: bool, ctx: Option<Error>, w: Worker<K, V>, assignment: Assignment, turn: Turn)
    requires w.warm.Assigning? && (assignment.Partitions? ==> WellFormed(assignment.logs))
    ensures var w' := Warm(b, bounded, ctx, w, assignment, turn);
      && w'.polls == w.polls && w'.reading.ledger == w.reading.ledger
      && match ctx
         case Some(error) =>
           w'.warm == WarmPc.Result(Some(if bounded && error.DeadlineExceeded? then WarmupTimeout else error))
         case None =>
           match assignment
           case Refusal(code) => w'.warm == WarmPc.Result(Some(KafkaFailure(code)))
           case Partitions(logs) =>
             if logs == map[] then w'.warm == WarmPc.Result(Some(TopicNotFound))
             else w'.warm.Checking? && w'.reading == Assigned(logs, w.reading.ledger)
  {
  }

  /** What each construction attempted by the actions returns, in order. */
  function Attempts(actions: seq<Action>): seq<Option<Error>>
    decreases |actions|
  {
    if actions == [] then []
    else if actions[0].StartStep? then [actions[0].failure] + Attempts(actions[1..])
    else Attempts(actions[1..])
  }

  /** The first n of them, or all if there are fewer. */
  function Prefix(attempts: seq<Option<Error>>, n: nat): seq<Option<Error>> {
    if |attempts| <= n then attempts else attempts[..n]
  }

  lemma StepBuilds<K, V>(cfg: Config<K, V>, s: State<K, V>, a: Action)
    requires Control(cfg, s) && s.started
    ensures var next := Step(cfg, s, a);
      && next.started && |next.workers| == |s.workers|
      && next.buildErrors ==
         if a.StartStep? && |s.buildErrors| < |s.workers| then s.buildErrors + [a.failure] else s.buildErrors
  {
    hide Warm, ServeWorker, AnyError, AllDone, Stage;
  }

  /**
    Start hears every construction out: over any run, what it keeps is what the
    first n constructions returned, in order, whatever else happens in between.
   */
  lemma {:induction false} ConstructionsHeard<K, V>(cfg: Config<K, V>, s: State<K, V>, actions: seq<Action>)
    requires Control(cfg, s) && s.started && |s.buildErrors| <= |s.workers|
    ensures |Run(cfg, s, actions).workers| == |s.workers|
    ensures Run(cfg, s, actions).buildErrors ==
            s.buildErrors + Prefix(Attempts(actions), |s.workers| - |s.buildErrors|)
    decreases |actions|
  {
    hide Control, Step;
    if actions != [] {
      StepControlled(cfg, s, actions[0]);
      StepBuilds(cfg, s, actions[0]);
      ConstructionsHeard(cfg, Step(cfg, s, actions[0]), actions[1..]);
    }
  }

  /** A consumer is built exactly when its construction did not fail, and Start's error lists exactly the failures. */
  lemma StartHearsEveryone<K, V>(cfg: Config<K, V>, stores: seq<map<K, V>>, caller: nat, actions: seq<Action>)
    requires |stores| == |cfg.bindings| > 0
    ensures var s := Run(cfg, Step(cfg, Bound(stores), Claim(caller)), actions);
      && s.buildErrors == Prefix(Attempts(actions), |stores|)
      && |s.workers| == |stores|
      && (s.main.Returned? ==>
           && |s.buildErrors| == |stores|
           && (s.main.result.BuildFailed? <==> AnyError(s.buildErrors))
           && (s.main.result.BuildFailed? ==> s.main.result.errors == s.buildErrors)
           && forall i | 0 <= i < |stores| :: s.workers[i].built == 1 <==> s.buildErrors[i].None?)
  {
    hide Warm, ServeWorker, Stage, Books, Prefix, AnyError, Run;
    BoundIsControlled(cfg, stores);
    StepControlled(cfg, Bound(stores), Claim(caller));
    var s0 := Step(cfg, Bound(stores), Claim(caller));
    ConstructionsHeard(cfg, s0, actions);
    RunControlled(cfg, s0, actions);
    if Run(cfg, s0, actions).main.Returned? {
      BuiltAsReturned(cfg, Run(cfg, s0, actions));
    }
  }

  lemma BuiltAsReturned<K, V>(cfg: Config<K, V>, s: State<K, V>)
    requires Control(cfg, s) && s.main.Returned?
    ensures |s.buildErrors| == |s.workers|
    ensures s.main.result.BuildFailed? <==> AnyError(s.buildErrors)
    ensures s.main.result.BuildFailed? ==> s.main.result.errors == s.buildErrors
    ensures forall i | 0 <= i < |s.workers| :: s.workers[i].built == 1 <==> s.buildErrors[i].None?
  {
    forall i | 0 <= i < |s.workers|
      ensures s.workers[i].built == 1 <==> s.buildErrors[i].None?
    {
      assert Stage(s.main, s.buildErrors, i, s.workers[i]);
    }
  }
}
