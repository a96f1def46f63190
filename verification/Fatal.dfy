/**
  Why the loader stopped: the first fatal error wins, the handler hears of it
  once, and whoever waits learns of it.
 */
module Fatal {
  import opened Wrappers
  import opened Kafka
  import opened Events
  import opened Lifecycle
  import opened Ownership

  function Pcs<K, V>(workers: seq<Worker<K, V>>): (r: seq<ServePc>)
    ensures |r| == |workers| && forall i | 0 <= i < |r| :: r[i] == workers[i].serve
  {
    seq(|workers|, i requires 0 <= i < |workers| => workers[i].serve)
  }

  /** The goroutine has polled a fatal error and not yet tried to record it. */
  predicate Doomed(pc: ServePc) {
    pc.Dying? || (pc.ServeHolding? && Kills(pc.ev))
  }

  function DoomOf(pc: ServePc): Error
    requires Doomed(pc)
  {
    if pc.Dying? then pc.error else pc.ev.error
  }

  predicate Ended(pc: ServePc) {
    pc.Marking? || pc.Closing? || pc.Leaving? || pc.Gone?
  }

  /** What the shared variables and the goroutines' positions say about each other. */
  ghost predicate FirstWins(
    hasHandler: bool, pcs: seq<ServePc>, err: Option<Error>, winner: Option<nat>, fatalPolls: seq<Error>,
    notified: seq<Error>)
  {
    && (err.Some? <==> winner.Some?)
    && (forall i | 0 <= i < |pcs| && Doomed(pcs[i]) :: DoomOf(pcs[i]) in fatalPolls)
    && (forall i | 0 <= i < |pcs| && pcs[i].Notifying? :: winner == Some(i) && err == Some(pcs[i].error))
    && match winner
       case None => notified == [] && (fatalPolls != [] ==> exists i :: 0 <= i < |pcs| && Doomed(pcs[i]))
       case Some(i) =>
         && err.value in fatalPolls
         && i < |pcs|
         && if pcs[i].Notifying? then notified == []
            else Ended(pcs[i]) && notified == if hasHandler then [err.value] else []
  }

  ghost predicate Settled<K, V>(cfg: Config<K, V>, s: State<K, V>) {
    && |s.workers| == |cfg.bindings|
    && FirstWins(cfg.hasHandler, Pcs(s.workers), s.err, s.winner, s.fatalPolls, s.notified)
  }

  /** A goroutine that starts serving changes nothing here. */
  lemma BeginServing(
    hasHandler: bool, pcs: seq<ServePc>, err: Option<Error>, winner: Option<nat>, fatalPolls: seq<Error>,
    notified: seq<Error>, j: nat)
    requires FirstWins(hasHandler, pcs, err, winner, fatalPolls, notified)
    requires j < |pcs| && pcs[j].NotServing?
    ensures FirstWins(hasHandler, pcs[j := CheckingCtx], err, winner, fatalPolls, notified)
  {
    if winner.None? && fatalPolls != [] {
      var i :| 0 <= i < |pcs| && Doomed(pcs[i]);
      assert Doomed(pcs[j := CheckingCtx][i]);
    }
  }

  lemma AdvanceSettled<K, V>(cfg: Config<K, V>, s: State<K, V>, failure: Option<Error>)
    requires Control(cfg, s) && Settled(cfg, s)
    ensures Settled(cfg, Advance(s, failure))
  {
    hide FirstWins, Books;
    var s' := Advance(s, failure);
    if s.main.Handing? && s.main.next < |s.workers| {
      var j := s.main.next;
      assert Stage(s.main, s.buildErrors, j, s.workers[j]);
      BeginServing(cfg.hasHandler, Pcs(s.workers), s.err, s.winner, s.fatalPolls, s.notified, j);
      assert Pcs(s'.workers) == Pcs(s.workers)[j := CheckingCtx];
    } else {
      assert Pcs(s'.workers) == Pcs(s.workers);
    }
  }

  /** How a serving step moves, as far as errors are concerned. */
  lemma ServeMoves<K, V>(cfg: Config<K, V>, s: State<K, V>, i: nat, turn: Turn)
    requires i < |s.workers| && i < |cfg.bindings|
    ensures var pc, s' := s.workers[i].serve, ServeOne(cfg, s, i, turn);
      var pc' := s'.workers[i].serve;
      && |s'.workers| == |s.workers|
      && Pcs(s'.workers) == Pcs(s.workers)[i := pc']
      && (match pc
          case ServePolling => pc'.ServeHolding?
          case ServeHolding(ev) => pc' == if Kills(ev) then Dying(ev.error) else CheckingCtx
          case Dying(error) => pc' == if s.err.None? then Notifying(error) else Marking
          case Notifying(_) => pc' == Marking
          case CheckingCtx => pc'.Marking? || pc'.CheckingErr?
          case CheckingErr => pc'.Marking? || pc'.ServePolling?
          case _ => (Ended(pc) ==> Ended(pc')) && (pc.NotServing? ==> pc'.NotServing?))
  {
    hide PollWorker;
    var s' := ServeOne(cfg, s, i, turn);
    assert Pcs(s'.workers) == Pcs(s.workers)[i := s'.workers[i].serve];
  }

  lemma ServeSettled<K, V>(cfg: Config<K, V>, s: State<K, V>, i: nat, turn: Turn)
    requires Settled(cfg, s) && i < |s.workers|
    ensures Settled(cfg, ServeOne(cfg, s, i, turn))
  {
    hide ServeWorker;
    ServeMoves(cfg, s, i, turn);
    DoomRemains(cfg, s, i, turn);
  }

  /** A fatal error polled and not yet recorded still has its goroutine. */
  lemma DoomRemains<K, V>(cfg: Config<K, V>, s: State<K, V>, i: nat, turn: Turn)
    requires Settled(cfg, s) && i < |s.workers|
    ensures var s' := ServeOne(cfg, s, i, turn);
      s'.winner.None? && s'.fatalPolls != [] ==> exists k :: 0 <= k < |Pcs(s'.workers)| && Doomed(Pcs(s'.workers)[k])
  {
    hide ServeWorker;
    ServeMoves(cfg, s, i, turn);
    var s' := ServeOne(cfg, s, i, turn);
    var pcs, pcs' := Pcs(s.workers), Pcs(s'.workers);
    if s'.winner.None? && s'.fatalPolls != [] && !Doomed(pcs'[i]) {
      var k :| 0 <= k < |pcs| && Doomed(pcs[k]);
      assert k != i;
      assert Doomed(pcs'[k]);
    }
  }

  lemma StepSettled<K, V>(cfg: Config<K, V>, s: State<K, V>, a: Action)
    requires Control(cfg, s) && Settled(cfg, s)
    ensures Settled(cfg, Step(cfg, s, a))
  {
    hide Warm, ServeOne, Advance, FirstWins, Control;
    match a
    case Claim(_) =>
    case StartStep(failure) => AdvanceSettled(cfg, s, failure);
    case Cancel =>
    case Expire =>
    case WarmStep(i, assignment, turn) =>
      if i < |s.workers| {
        WarmFrame(cfg.bindings[i], cfg.bounded, s.warmCtx, s.workers[i], assignment, turn);
        assert Pcs(Step(cfg, s, a).workers) == Pcs(s.workers);
      }
    case ServeStep(i, turn) =>
      if i < |s.workers| {
        ServeSettled(cfg, s, i, turn);
      }
  }

  lemma {:induction false} RunSettled<K, V>(cfg: Config<K, V>, s: State<K, V>, actions: seq<Action>)
    requires Control(cfg, s) && Settled(cfg, s)
    ensures Settled(cfg, Run(cfg, s, actions))
    decreases |actions|
  {
    hide Control, Settled, Step;
    if actions != [] {
      StepControlled(cfg, s, actions[0]);
      StepSettled(cfg, s, actions[0]);
      RunSettled(cfg, Step(cfg, s, actions[0]), actions[1..]);
    }
  }

  lemma ReachableSettled<K, V>(cfg: Config<K, V>, stores: seq<map<K, V>>, s: State<K, V>)
    requires Reachable(cfg, stores, s)
    ensures Control(cfg, s) && Settled(cfg, s)
  {
    hide Control, Step;
    var actions :| s == Run(cfg, Bound(stores), actions);
    BoundIsControlled(cfg, stores);
    ReachableControlled(cfg, stores, s);
    assert Settled(cfg, Bound(stores));
    RunSettled(cfg, Bound(stores), actions);
  }

  /**
    Once Start has returned and the wait is over: the loader's error is unset
    exactly when no serving poll was fatal, otherwise it is one of the fatal
    errors polled; and a configured handler has finished exactly one call, with it.
   */
  lemma WaitTellsWhy<K, V>(cfg: Config<K, V>, stores: seq<map<K, V>>, s: State<K, V>)
    requires Reachable(cfg, stores, s) && s.main.Returned? && s.serving == {}
    ensures s.err.None? <==> s.fatalPolls == []
    ensures s.err.Some? ==> s.err.value in s.fatalPolls
    ensures s.notified == if s.err.Some? && cfg.hasHandler then [s.err.value] else []
  {
    hide Control, Books, Step;
    ReachableSettled(cfg, stores, s);
    ConsumersConserved(cfg, stores, s);
    forall i | 0 <= i < |s.workers|
      ensures !Doomed(s.workers[i].serve) && !s.workers[i].serve.Notifying?
    {
    }
  }

  /** In every reachable state the handler has been called at most once, and only with the recorded error. */
  lemma HandlerRunsOnce<K, V>(cfg: Config<K, V>, stores: seq<map<K, V>>, s: State<K, V>)
    requires Reachable(cfg, stores, s)
    ensures s.notified == [] || (cfg.hasHandler && s.err.Some? && s.notified == [s.err.value])
    ensures forall i, j | 0 <= i < |s.workers| && 0 <= j < |s.workers|
      && s.workers[i].serve.Notifying? && s.workers[j].serve.Notifying? :: i == j && s.notified == []
  {
    hide Control, Step;
    ReachableSettled(cfg, stores, s);
    var pcs := Pcs(s.workers);
    assert forall i | 0 <= i < |s.workers| :: pcs[i] == s.workers[i].serve;
  }

  lemma StepErrSticks<K, V>(cfg: Config<K, V>, s: State<K, V>, a: Action)
    ensures s.err.Some? ==> Step(cfg, s, a).err == s.err
    ensures s.ctx.Some? ==> Step(cfg, s, a).ctx.Some?
  {
    hide Warm, ServeWorker, AnyError, AllDone;
  }

  /** The recorded error is never replaced or cleared, and neither is a cancelled context. */
  lemma {:induction false} ErrSticks<K, V>(cfg: Config<K, V>, s: State<K, V>, actions: seq<Action>)
    ensures s.err.Some? ==> Run(cfg, s, actions).err == s.err
    ensures s.ctx.Some? ==> Run(cfg, s, actions).ctx.Some?
    decreases |actions|
  {
    hide Step;
    if actions != [] {
      StepErrSticks(cfg, s, actions[0]);
      ErrSticks(cfg, Step(cfg, s, actions[0]), actions[1..]);
    }
  }
}
