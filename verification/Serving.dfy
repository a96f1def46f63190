/**
  Serving goroutines stop for a reason and not without one: until the context is
  cancelled or an error recorded they go on polling.
 */
module Serving {
  import opened Wrappers
  import opened Kafka
  import opened Events
  import opened Warmup
  import opened Lifecycle
  import opened Ownership
  import opened Fatal
  import opened Shutdown
  import opened Completeness

  /** A goroutine that is on its way out, or out, has a reason. */
  ghost predicate Reasoned<K, V>(s: State<K, V>) {
    forall i | 0 <= i < |s.workers| ::
      && (Ended(s.workers[i].serve) ==> Stopping(s))
      && (s.workers[i].serve.Notifying? ==> s.err.Some?)
  }

  lemma ServeReasoned<K, V>(cfg: Config<K, V>, s: State<K, V>, i: nat, turn: Turn)
    requires Reasoned(s) && i < |s.workers| && i < |cfg.bindings|
    ensures Reasoned(ServeOne(cfg, s, i, turn))
  {
    hide PollWorker, Serve;
  }

  lemma StepReasoned<K, V>(cfg: Config<K, V>, s: State<K, V>, a: Action)
    requires Reasoned(s)
    ensures Reasoned(Step(cfg, s, a))
  {
    hide Warm, ServeOne, AnyError, AllDone;
    match a
    case WarmStep(i, assignment, turn) =>
      if i < |s.workers| && i < |cfg.bindings| {
        WarmFrame(cfg.bindings[i], cfg.bounded, s.warmCtx, s.workers[i], assignment, turn);
      }
    case ServeStep(i, turn) =>
      if i < |s.workers| && i < |cfg.bindings| {
        ServeReasoned(cfg, s, i, turn);
      }
    case _ =>
  }

  lemma {:induction false} RunReasoned<K, V>(cfg: Config<K, V>, s: State<K, V>, actions: seq<Action>)
    requires Reasoned(s)
    ensures Reasoned(Run(cfg, s, actions))
    decreases |actions|
  {
    hide Step, Reasoned;
    if actions != [] {
      StepReasoned(cfg, s, actions[0]);
      RunReasoned(cfg, Step(cfg, s, actions[0]), actions[1..]);
    }
  }

  /** In every reachable state, a serving goroutine has left its loop only if the context is cancelled or an error recorded. */
  lemma StoppedForAReason<K, V>(cfg: Config<K, V>, stores: seq<map<K, V>>, s: State<K, V>, i: nat)
    requires Reachable(cfg, stores, s) && i < |s.workers|
    requires !Stopping(s)
    ensures var pc := s.workers[i].serve;
      !pc.Marking? && !pc.Closing? && !pc.Leaving? && !pc.Gone? && !pc.Notifying?
    ensures !s.workers[i].reading.ledger.phase.Stopped?
  {
    hide Step;
    var actions :| s == Run(cfg, Bound(stores), actions);
    RunReasoned(cfg, Bound(stores), actions);
    PhasesTell(cfg, stores, s, i);
  }

  predicate Cycling(pc: ServePc) {
    pc.CheckingCtx? || pc.CheckingErr? || pc.ServePolling? || pc.ServeHolding?
  }

  /** How far a serving goroutine is from the end of its last poll. */
  function Progress(pc: ServePc): nat {
    match pc
    case CheckingCtx => 1
    case CheckingErr => 2
    case ServePolling => 3
    case _ => 0
  }

  /** One step of its own takes a goroutine one further round its loop, unless it has polled a fatal error. */
  lemma ServeProgress<K, V>(cfg: Config<K, V>, i: nat, w: Worker<K, V>, turn: Turn)
    requires i < |cfg.bindings| && Cycling(w.serve)
    ensures var w' := ServeWorker(cfg.bindings[i], None, None, w, turn);
      && (Cycling(w'.serve) ==> 4 * w'.polls + Progress(w'.serve) == 4 * w.polls + Progress(w.serve) + 1)
      && (!Cycling(w'.serve) ==> w.serve.ServeHolding? && Kills(w.serve.ev) && w'.serve == Dying(w.serve.ev.error))
  {
    hide PollWorker, Serve;
  }

  /** If nothing is stopping the loader after a step, nothing was before it. */
  lemma NotYetStopping<K, V>(cfg: Config<K, V>, s: State<K, V>, a: Action)
    requires !Stopping(Step(cfg, s, a))
    ensures !Stopping(s)
  {
    hide Step;
    StepErrSticks(cfg, s, a);
  }

  /** A goroutine that has polled a fatal error records one with its next step. */
  lemma DyingRecords<K, V>(cfg: Config<K, V>, s: State<K, V>, a: Action, i: nat)
    requires Control(cfg, s) && i < |s.workers| && s.workers[i].serve.Dying? && OfServe(a, i)
    ensures Stopping(Step(cfg, s, a))
  {
    hide ServeWorker, Books, Stage;
  }

  lemma {:induction false} RunProgress<K, V>(cfg: Config<K, V>, s: State<K, V>, actions: seq<Action>, i: nat)
    requires Control(cfg, s) && s.main == Returned(Serving) && i < |s.workers|
    requires Cycling(s.workers[i].serve) || s.workers[i].serve.Dying?
    requires !Stopping(Run(cfg, s, actions))
    ensures var s' := Run(cfg, s, actions);
      && i < |s'.workers|
      && if s.workers[i].serve.Dying? then s'.workers[i].serve.Dying?
         else if Cycling(s'.workers[i].serve) then
           4 * s'.workers[i].polls + Progress(s'.workers[i].serve)
             == 4 * s.workers[i].polls + Progress(s.workers[i].serve) + Turns(actions, i)
         else s'.workers[i].serve.Dying?
    decreases |actions|
  {
    hide Control, Step, Progress, Stopping;
    if actions != [] {
      var a := actions[0];
      var next := Step(cfg, s, a);
      StepControlled(cfg, s, a);
      assert !Stopping(next) by {
        RunNotYetStopping(cfg, next, actions[1..]);
      }
      NotYetStopping(cfg, s, a);
      StepProgress(cfg, s, a, i);
      RunProgress(cfg, next, actions[1..], i);
    }
  }

  lemma RunNotYetStopping<K, V>(cfg: Config<K, V>, s: State<K, V>, actions: seq<Action>)
    requires !Stopping(Run(cfg, s, actions))
    ensures !Stopping(s)
  {
    hide Step;
    ErrSticks(cfg, s, actions);
  }

  lemma StepProgress<K, V>(cfg: Config<K, V>, s: State<K, V>, a: Action, i: nat)
    requires Control(cfg, s) && s.main == Returned(Serving) && i < |s.workers|
    requires Cycling(s.workers[i].serve) || s.workers[i].serve.Dying?
    requires !Stopping(s) && !Stopping(Step(cfg, s, a))
    ensures var next := Step(cfg, s, a);
      && next.main == s.main && |next.workers| == |s.workers|
      && if s.workers[i].serve.Dying? then next.workers[i].serve.Dying?
         else if Cycling(next.workers[i].serve) then
           4 * next.workers[i].polls + Progress(next.workers[i].serve)
             == 4 * s.workers[i].polls + Progress(s.workers[i].serve) + (if OfServe(a, i) then 1 else 0)
         else next.workers[i].serve.Dying?
  {
    hide Step, Control, Progress, ServeWorker;
    OnlyServing(cfg, s, a, i);
    ControlledSize(cfg, s);
    if OfServe(a, i) {
      if s.workers[i].serve.Dying? {
        DyingRecords(cfg, s, a, i);
      } else {
        ServeProgress(cfg, i, s.workers[i], a.turn);
      }
    }
  }

  /**
    While the context is not cancelled and no error recorded, a serving goroutine
    goes on: over any run, every four steps of its own are one more poll, unless
    it has polled a fatal error and is about to record one.
   */
  lemma ServingGoesOn<K, V>(cfg: Config<K, V>, stores: seq<map<K, V>>, s: State<K, V>, actions: seq<Action>, i: nat)
    requires Reachable(cfg, stores, s) && s.main == Returned(Serving) && i < |s.workers|
    requires s.workers[i].serve.CheckingCtx?
    requires Run(cfg, s, actions).ctx.None? && Run(cfg, s, actions).err.None?
    ensures var s' := Run(cfg, s, actions);
      && i < |s'.workers|
      && (s'.workers[i].serve.Dying?
          || s'.workers[i].polls == s.workers[i].polls + (Turns(actions, i) + 1) / 4)
  {
    hide Step, Control;
    ReachableControlled(cfg, stores, s);
    RunProgress(cfg, s, actions, i);
  }
}
