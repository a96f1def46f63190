/**
  What the stores hold, over whole runs: exactly the records the consumers
  delivered, through both generations of goroutine; and, once Start has returned
  nil, every record each topic held when it was assigned.
 */
module Completeness {
  import opened Wrappers
  import opened Kafka
  import opened Events
  import opened Replay
  import opened Ledger
  import opened Warmup
  import opened Lifecycle
  import opened Ownership

  /** The event a goroutine of this binding has polled and not yet handled, if any. */
  function EventInHand<K, V>(w: Worker<K, V>): Option<Event> {
    if w.warm.Holding? then Some(w.warm.ev)
    else if w.serve.ServeHolding? then Some(w.serve.ev)
    else None
  }

  /** The delivered records that have been handled: all of them, but for one in hand. */
  function HandledBy<K, V>(w: Worker<K, V>): seq<Record> {
    var ev := EventInHand(w);
    var delivered := w.reading.delivered;
    if ev.Some? && ev.value.Received? && delivered != [] then delivered[..|delivered| - 1] else delivered
  }

  /** What the goroutine has handled covers everything its topic held at assignment. */
  ghost predicate Covered<K, V>(w: Worker<K, V>) {
    forall p | p in w.reading.first :: w.reading.first[p] <= Project(HandledBy(w), p)
  }

  ghost predicate Served<K, V>(b: Binding<K, V>, w: Worker<K, V>, phase: Phase) {
    && Sound(b, w.start, w.reading, HandledBy(w))
    && Complete(w.reading)
    && Covered(w)
    && Reported(w.reading)
    && w.reading.ledger.phase == phase
  }

  /** The goroutine is past a successful assignment. */
  predicate HasAssigned(pc: WarmPc) {
    pc.Checking? || pc.Polling? || pc.Holding? || pc == WarmPc.Result(None)
  }

  ghost predicate WorkerSound<K, V>(b: Binding<K, V>, w: Worker<K, V>) {
    && (HasAssigned(w.warm) ==> w.reading.first != map[])
    && match w.warm
    case NotBegun => w.reading == NewWorker(w.start).reading
    case Assigning => w.reading == NewWorker(w.start).reading
    case Checking => Warming(b, w.start, w.reading, w.reading.delivered)
    case Polling => Warming(b, w.start, w.reading, w.reading.delivered)
    case Holding(ev) =>
      && Warming(b, w.start, w.reading, HandledBy(w))
      && InHand(w.reading, HandledBy(w), ev) && FromKafka(ev)
    case Result(error) =>
      if w.serve.NotServing? then Left(b, w.start, w.reading, error)
      else if w.serve.ServeHolding? then
        Served(b, w, Steady) && InHand(w.reading, HandledBy(w), w.serve.ev)
      else Served(b, w, if w.serve.Closing? || HasClosed(w.serve) then Stopped else Steady)
  }

  ghost predicate ContextError(ctx: Option<Error>) {
    ctx.Some? ==> ctx.value.Canceled? || ctx.value.DeadlineExceeded?
  }

  ghost predicate Data<K, V>(cfg: Config<K, V>, stores: seq<map<K, V>>, s: State<K, V>) {
    && |s.workers| == |cfg.bindings| == |stores|
    && ContextError(s.warmCtx)
    && (forall i | 0 <= i < |s.workers| ::
          s.workers[i].start == stores[i] && WorkerSound(cfg.bindings[i], s.workers[i]))
  }

  lemma PolledSound<K, V>(b: Binding<K, V>, w: Worker<K, V>, turn: Turn)
    requires w.warm.Polling? && w.serve.NotServing? && WorkerSound(b, w)
    ensures var (reading, ev) := PollWorker(w, turn);
      WorkerSound(b, w.(reading := reading, warm := Holding(ev), polls := w.polls + 1))
  {
    hide Warming, Poll, FromKafka;
    var (reading, ev) := PollWorker(w, turn);
    var w' := w.(reading := reading, warm := Holding(ev), polls := w.polls + 1);
    if w.closes > 0 {
      assert HandledBy(w') == w.reading.delivered;
      ClosedFromKafka();
    } else {
      PollWarms(b, w.start, w.reading, turn);
      assert HandledBy(w') == w.reading.delivered;
    }
  }

  lemma ClosedFromKafka()
    ensures FromKafka(Failure(ConsumerClosed, true))
  {
  }

  lemma HeldSound<K, V>(
    b: Binding<K, V>, bounded: bool, ctx: Option<Error>, w: Worker<K, V>, assignment: Assignment, turn: Turn)
    requires w.warm.Holding? && w.serve.NotServing? && WorkerSound(b, w)
    ensures WorkerSound(b, Warm(b, bounded, ctx, w, assignment, turn))
  {
    hide Warming, Left, Handle, InHand, FromKafka;
    HandleWarms(b, w.start, w.reading, HandledBy(w), w.warm.ev);
    var (reading, v) := Handle(b, w.reading, w.warm.ev);
    var w' := Warm(b, bounded, ctx, w, assignment, turn);
    assert w'.reading == reading && w'.serve.NotServing? && w'.start == w.start;
  }

  /** A step of a warm-up goroutine. */
  lemma WarmSound<K, V>(
    b: Binding<K, V>, bounded: bool, ctx: Option<Error>, w: Worker<K, V>, assignment: Assignment, turn: Turn)
    requires WorkerSound(b, w) && w.serve.NotServing? && ContextError(ctx)
    ensures WorkerSound(b, Warm(b, bounded, ctx, w, assignment, turn))
    ensures Warm(b, bounded, ctx, w, assignment, turn).start == w.start
  {
    hide Warming, Left, Handle, PollWorker, InHand, FromKafka;
    match w.warm
    case NotBegun =>
    case Assigning =>
      UnassignedLeaves(b, w.start);
      if assignment.Partitions? && WellFormed(assignment.logs) {
        AssignedWarms(b, assignment.logs, w.start);
      }
    case Checking =>
      if ctx.Some? {
        InterruptedLeaves(b, w.start, w.reading, NameTimeout(bounded, ctx.value));
      }
    case Polling => PolledSound(b, w, turn);
    case Holding(_) => HeldSound(b, bounded, ctx, w, assignment, turn);
    case Result(_) =>
  }

  /** A binding whose assignment fails leaves with an empty, sound reading. */
  lemma UnassignedLeaves<K, V>(b: Binding<K, V>, start: map<K, V>)
    ensures forall error: Error | !error.EmptyTopic? :: Left(b, start, NewWorker(start).reading, Some(error))
  {
  }

  lemma ServePolledSound<K, V>(b: Binding<K, V>, w: Worker<K, V>, turn: Turn)
    requires w.serve.ServePolling? && w.warm.Result? && WorkerSound(b, w)
    ensures var (reading, ev) := PollWorker(w, turn);
      WorkerSound(b, w.(reading := reading, serve := ServeHolding(ev), polls := w.polls + 1))
  {
    hide Sound, Caught, NativePoll;
    var (reading, ev) := PollWorker(w, turn);
    var w' := w.(reading := reading, serve := ServeHolding(ev), polls := w.polls + 1);
    if w.closes == 0 {
      PollSound(b, w.start, w.reading, turn);
    }
    assert HandledBy(w') == w.reading.delivered;
  }

  lemma ServeHeldSound<K, V>(b: Binding<K, V>, w: Worker<K, V>, next: ServePc)
    requires w.serve.ServeHolding? && w.warm.Result? && WorkerSound(b, w)
    requires next.Dying? || next.CheckingCtx?
    ensures WorkerSound(b, w.(reading := Serve(b, w.reading, w.serve.ev), serve := next))
  {
    hide Sound, Serve, Covered;
    ServeSound(b, w.start, w.reading, HandledBy(w), w.serve.ev);
    HandlingCovers(w, w.(reading := Serve(b, w.reading, w.serve.ev), serve := next));
  }

  /** Handling the event in hand loses nothing that was covered. */
  lemma HandlingCovers<K, V>(w: Worker<K, V>, w': Worker<K, V>)
    requires Covered(w) && w.warm.Result? && w.serve.ServeHolding? && InHand(w.reading, HandledBy(w), w.serve.ev)
    requires w'.warm.Result? && !w'.serve.ServeHolding?
    requires w'.reading.first == w.reading.first && w'.reading.delivered == w.reading.delivered
    ensures Covered(w')
  {
    hide Project;
    forall p | p in w.reading.first
      ensures w.reading.first[p] <= Project(HandledBy(w'), p)
    {
      if w.serve.ev.Received? {
        ProjectAppend(HandledBy(w), w.serve.ev.rec, p);
      }
    }
  }

  /** A step of a serving goroutine. */
  lemma ServeWorkerSound<K, V>(b: Binding<K, V>, ctx: Option<Error>, err: Option<Error>, w: Worker<K, V>, turn: Turn)
    requires WorkerSound(b, w) && w.warm == WarmPc.Result(None)
    ensures WorkerSound(b, ServeWorker(b, ctx, err, w, turn))
    ensures ServeWorker(b, ctx, err, w, turn).start == w.start
  {
    hide Sound, Complete, PollWorker, Serve, InHand, Left, Reports, Milestones;
    match w.serve
    case ServePolling => ServePolledSound(b, w, turn);
    case ServeHolding(ev) => ServeHeldSound(b, w, if Kills(ev) then Dying(ev.error) else CheckingCtx);
    case Marking => StoppedSound(b, w.start, w.reading, HandledBy(w));
    case _ =>
  }

  lemma StoppedSound<K, V>(b: Binding<K, V>, start: map<K, V>, l: Reading<K, V>, handled: seq<Record>)
    requires Sound(b, start, l, handled) && Complete(l) && l.ledger.phase.Steady?
    ensures Sound(b, start, l.(ledger := l.ledger.(phase := Stopped)), handled)
    ensures Complete(l.(ledger := l.ledger.(phase := Stopped)))
  {
    hide Tracks, Fold, Tally, FlaggedWarm, Observed, Caught;
  }

  /** The handover: a loaded reading is what serving starts from. */
  lemma HandoverSound<K, V>(b: Binding<K, V>, w: Worker<K, V>)
    requires WorkerSound(b, w) && w.warm == WarmPc.Result(None) && w.serve.NotServing?
    ensures WorkerSound(b, w.(serve := CheckingCtx))
  {
    hide Sound, Complete, Reported, Project, Fold;
    CompleteReading(b, w.start, w.reading);
  }

  lemma AdvanceData<K, V>(cfg: Config<K, V>, stores: seq<map<K, V>>, s: State<K, V>, failure: Option<Error>)
    requires Control(cfg, s) && Data(cfg, stores, s)
    ensures Data(cfg, stores, Advance(s, failure))
  {
    hide Books, Warming, Left, Served, InHand, AnyError, AllDone;
    var s' := Advance(s, failure);
    forall i | 0 <= i < |s.workers|
      ensures s'.workers[i].start == stores[i] && WorkerSound(cfg.bindings[i], s'.workers[i])
    {
      assert Stage(s.main, s.buildErrors, i, s.workers[i]);
      if s.main == Handing(i) {
        HandoverSound(cfg.bindings[i], s.workers[i]);
      }
    }
  }

  lemma StepData<K, V>(cfg: Config<K, V>, stores: seq<map<K, V>>, s: State<K, V>, a: Action)
    requires Control(cfg, s) && Data(cfg, stores, s)
    ensures Data(cfg, stores, Step(cfg, s, a))
  {
    hide Books, Warm, ServeWorker, Advance, WorkerSound;
    match a
    case Claim(_) =>
    case StartStep(failure) => AdvanceData(cfg, stores, s, failure);
    case Cancel =>
    case Expire =>
    case WarmStep(i, assignment, turn) =>
      if i < |s.workers| {
        var w := s.workers[i];
        assert Stage(s.main, s.buildErrors, i, w);
        WarmFrame(cfg.bindings[i], cfg.bounded, s.warmCtx, w, assignment, turn);
        if w.serve.NotServing? {
          WarmSound(cfg.bindings[i], cfg.bounded, s.warmCtx, w, assignment, turn);
        }
      }
    case ServeStep(i, turn) =>
      if i < |s.workers| {
        var w := s.workers[i];
        assert Stage(s.main, s.buildErrors, i, w);
        ServeFrame(cfg.bindings[i], s.ctx, s.err, w, turn);
        if !w.serve.NotServing? {
          ServeWorkerSound(cfg.bindings[i], s.ctx, s.err, w, turn);
        }
      }
  }

  lemma {:induction false} RunData<K, V>(cfg: Config<K, V>, stores: seq<map<K, V>>, s: State<K, V>, actions: seq<Action>)
    requires Control(cfg, s) && Data(cfg, stores, s)
    ensures Data(cfg, stores, Run(cfg, s, actions))
    decreases |actions|
  {
    hide Control, Data, Step;
    if actions != [] {
      StepControlled(cfg, s, actions[0]);
      StepData(cfg, stores, s, actions[0]);
      RunData(cfg, stores, Step(cfg, s, actions[0]), actions[1..]);
    }
  }

  lemma ReachableData<K, V>(cfg: Config<K, V>, stores: seq<map<K, V>>, s: State<K, V>)
    requires Reachable(cfg, stores, s)
    ensures Control(cfg, s) && Data(cfg, stores, s)
  {
    hide Control, Step;
    var actions :| s == Run(cfg, Bound(stores), actions);
    BoundIsControlled(cfg, stores);
    ReachableControlled(cfg, stores, s);
    assert Data(cfg, stores, Bound(stores));
    RunData(cfg, stores, Bound(stores), actions);
  }

  /** Every worker's reading is sound over the records it has handled. */
  lemma AlwaysSound<K, V>(b: Binding<K, V>, w: Worker<K, V>)
    requires WorkerSound(b, w) && (w.warm.Result? || w.serve.NotServing?)
    ensures Sound(b, w.start, w.reading, HandledBy(w))
  {
    hide Tracks, Fold, Tally, FlaggedWarm, Observed, Caught, Punctual, Reports, Complete;
    if w.warm.NotBegun? || w.warm.Assigning? {
      UnassignedLeaves(b, w.start);
      assert Left(b, w.start, w.reading, Some(Canceled));
    }
  }

  /**
    Lossless handover: in every reachable state, across warm-up and serving, a
    store is the fold of exactly the records its consumer has delivered, each
    once and in order, but for at most one in hand; they are, per partition, the
    beginning of its log; and every handled record is accounted for once.
   */
  lemma NothingLost<K, V>(cfg: Config<K, V>, stores: seq<map<K, V>>, s: State<K, V>, i: nat)
    requires Reachable(cfg, stores, s) && i < |s.workers|
    ensures |cfg.bindings| == |stores| == |s.workers|
    ensures var w := s.workers[i];
      var l := w.reading;
      && l.ledger.table == Fold(cfg.bindings[i], stores[i], HandledBy(w))
      && Tallied(cfg.bindings[i], l.ledger, HandledBy(w))
      && l.delivered == HandledBy(w) + Pending(w)
      && (forall p | p in l.first :: p in l.topic.logs && Project(l.delivered, p) <= l.topic.logs[p])
  {
    hide Control, Step, Fold, Tally, FlaggedWarm, Observed;
    ReachableData(cfg, stores, s);
    OneOwner(cfg, stores, s);
    var w := s.workers[i];
    SoloWorker(cfg, s, i);
    AlwaysSound(cfg.bindings[i], w);
    HandledAndPending(cfg.bindings[i], w);
    var l := w.reading;
    forall p | p in l.first
      ensures p in l.topic.logs && Project(l.delivered, p) <= l.topic.logs[p]
    {
      assert Project(l.delivered, p) == l.topic.logs[p][..l.topic.position[p]];
    }
  }

  /** The record in hand, as a sequence of none or one. */
  function Pending<K, V>(w: Worker<K, V>): seq<Record> {
    var ev := EventInHand(w);
    if ev.Some? && ev.value.Received? then [ev.value.rec] else []
  }

  lemma SoloWorker<K, V>(cfg: Config<K, V>, s: State<K, V>, i: nat)
    requires Control(cfg, s) && i < |s.workers|
    ensures s.workers[i].warm == WarmPc.Result(None) || s.workers[i].serve.NotServing?
  {
    assert Stage(s.main, s.buildErrors, i, s.workers[i]);
  }

  lemma HandledAndPending<K, V>(b: Binding<K, V>, w: Worker<K, V>)
    requires WorkerSound(b, w) && (w.warm.Result? || w.serve.NotServing?)
    ensures w.reading.delivered == HandledBy(w) + Pending(w)
  {
    hide Warming, Sound, Left, Complete, Caught;
  }

  /**
    Start returned nil: every binding, at once, has read each of its partitions
    at least as far as it reached when it was assigned, and its store is the fold
    of records that include all of those. This stays so for as long as the loader
    serves, and after.
   */
  lemma StartMeansComplete<K, V>(cfg: Config<K, V>, stores: seq<map<K, V>>, s: State<K, V>, i: nat, p: Partition)
    requires Reachable(cfg, stores, s) && s.main == Returned(Serving)
    requires i < |s.workers|
    ensures |cfg.bindings| == |stores| == |s.workers|
    ensures s.workers[i].reading.first != map[]
    ensures var w := s.workers[i];
      && (p in w.reading.first ==> w.reading.first[p] <= Project(HandledBy(w), p))
      && w.reading.ledger.table == Fold(cfg.bindings[i], stores[i], HandledBy(w))
      && (w.serve.Gone? ==> HandledBy(w) == w.reading.delivered && w.reading.ledger.phase == Stopped)
  {
    hide Step, Books, Sound, Complete, Reported, InHand, Left, Project, Fold, Tallied, HandledBy, Control, Data, Pending;
    ReachableData(cfg, stores, s);
    NothingLost(cfg, stores, s, i);
    HandedOver(cfg, stores, s, i);
    ServedCovers(cfg.bindings[i], s.workers[i]);
  }

  lemma HandedOver<K, V>(cfg: Config<K, V>, stores: seq<map<K, V>>, s: State<K, V>, i: nat)
    requires Control(cfg, s) && Data(cfg, stores, s) && s.main == Returned(Serving) && i < |s.workers|
    ensures |s.workers| == |cfg.bindings| && WorkerSound(cfg.bindings[i], s.workers[i])
    ensures s.workers[i].warm == WarmPc.Result(None) && !s.workers[i].serve.NotServing?
  {
    hide WorkerSound, Books;
    assert Stage(s.main, s.buildErrors, i, s.workers[i]);
  }

  lemma ServedCovers<K, V>(b: Binding<K, V>, w: Worker<K, V>)
    requires WorkerSound(b, w) && w.warm == WarmPc.Result(None) && !w.serve.NotServing?
    ensures Covered(w) && w.reading.first != map[]
    ensures w.serve.Gone? ==> HandledBy(w) == w.reading.delivered && w.reading.ledger.phase == Stopped
  {
    hide Sound, Complete, Covered, Reported, InHand, Left;
  }

  /**
    In every reachable state: each counter is the number of handled records of
    its kind, and there is one counter per record; the observer has heard of each
    of them once, in order, and of each key disagreement; the records applied
    during warm-up are those reported as such, all the applied ones while warm-up
    lasts; and progress has been reported at each multiple of the interval among
    them, once, and nowhere else.
   */
  lemma EveryRecordCounted<K, V>(cfg: Config<K, V>, stores: seq<map<K, V>>, s: State<K, V>, i: nat)
    requires Reachable(cfg, stores, s) && i < |s.workers|
    ensures |cfg.bindings| == |s.workers|
    ensures var b, handled, l := cfg.bindings[i], HandledBy(s.workers[i]), s.workers[i].reading.ledger;
      && l.upserts == |Places(b, handled, Upserted)|
      && l.deletes == |Places(b, handled, Deleted)|
      && l.filtered == |Places(b, handled, Filtered)|
      && l.decodeErrors == |Places(b, handled, Undecodable)|
      && Entered(l) == |handled|
      && Observed(b, l.notices, handled)
      && FlaggedWarm(l.notices) == l.warmupApplied <= l.upserts + l.deletes
      && (l.phase.Warmup? ==> l.warmupApplied == l.upserts + l.deletes)
      && Reports(l.notices) == Milestones(l.warmupApplied / LOAD_PROGRESS_EVERY)
  {
    hide Control, Step, Fold, Tally, FlaggedWarm, Observed, Places, Tracks, Complete, Milestones, Data, WorkerSound, HandledBy;
    ReachableData(cfg, stores, s);
    SoloWorker(cfg, s, i);
    WorkerIsSound(cfg, stores, s, i);
    AlwaysSound(cfg.bindings[i], s.workers[i]);
    AlwaysReported(cfg.bindings[i], s.workers[i]);
    HeadingsPartition(cfg.bindings[i], HandledBy(s.workers[i]));
    CountersExact(cfg.bindings[i], s.workers[i].start, s.workers[i].reading.ledger, HandledBy(s.workers[i]));
  }

  lemma WorkerIsSound<K, V>(cfg: Config<K, V>, stores: seq<map<K, V>>, s: State<K, V>, i: nat)
    requires Data(cfg, stores, s) && i < |s.workers|
    ensures |cfg.bindings| == |s.workers| && WorkerSound(cfg.bindings[i], s.workers[i])
  {
    hide WorkerSound;
  }

  lemma AlwaysReported<K, V>(b: Binding<K, V>, w: Worker<K, V>)
    requires WorkerSound(b, w) && (w.warm.Result? || w.serve.NotServing?)
    ensures Reported(w.reading)
  {
    hide Sound, Complete, Reports, Milestones;
    if w.warm.NotBegun? || w.warm.Assigning? {
      UnassignedLeaves(b, w.start);
      assert Left(b, w.start, w.reading, Some(Canceled));
    }
  }

  lemma {:induction false} RunFrozen<K, V>(
    cfg: Config<K, V>, stores: seq<map<K, V>>, s: State<K, V>, actions: seq<Action>, i: nat)
    requires Control(cfg, s) && Data(cfg, stores, s) && i < |s.workers|
    requires !s.workers[i].reading.ledger.phase.Warmup?
    ensures var s' := Run(cfg, s, actions);
      && |s'.workers| == |s.workers|
      && !s'.workers[i].reading.ledger.phase.Warmup?
      && s'.workers[i].reading.ledger.warmupApplied == s.workers[i].reading.ledger.warmupApplied
    decreases |actions|
  {
    hide Control, Data, Step;
    if actions != [] {
      StepControlled(cfg, s, actions[0]);
      StepData(cfg, stores, s, actions[0]);
      StepFrozen(cfg, stores, s, actions[0], i);
      RunFrozen(cfg, stores, Step(cfg, s, actions[0]), actions[1..], i);
    }
  }

  /** Once a binding has left warm-up it never returns to it, and its warm-up count never changes again. */
  lemma WarmupCountFrozen<K, V>(
    cfg: Config<K, V>, stores: seq<map<K, V>>, s: State<K, V>, actions: seq<Action>, i: nat)
    requires Reachable(cfg, stores, s) && i < |s.workers|
    requires !s.workers[i].reading.ledger.phase.Warmup?
    ensures var s' := Run(cfg, s, actions);
      && |s'.workers| == |s.workers|
      && !s'.workers[i].reading.ledger.phase.Warmup?
      && s'.workers[i].reading.ledger.warmupApplied == s.workers[i].reading.ledger.warmupApplied
  {
    hide Control, Data, Step;
    ReachableData(cfg, stores, s);
    RunFrozen(cfg, stores, s, actions, i);
  }

  lemma StepFrozen<K, V>(cfg: Config<K, V>, stores: seq<map<K, V>>, s: State<K, V>, a: Action, i: nat)
    requires Control(cfg, s) && Data(cfg, stores, s) && i < |s.workers|
    requires !s.workers[i].reading.ledger.phase.Warmup?
    ensures var s' := Step(cfg, s, a);
      && |s'.workers| == |s.workers|
      && !s'.workers[i].reading.ledger.phase.Warmup?
      && s'.workers[i].reading.ledger.warmupApplied == s.workers[i].reading.ledger.warmupApplied
  {
    hide Books, Stage, Warm, ServeWorker, WorkerSound, Advance;
    var w := s.workers[i];
    assert WorkerSound(cfg.bindings[i], w);
    LeftWarmup(cfg.bindings[i], w);
    if a.StartStep? {
      AdvanceReads(s, a.failure, i);
    }
    if a.WarmStep? && a.i == i {
      WarmFrame(cfg.bindings[i], cfg.bounded, s.warmCtx, w, a.assignment, a.turn);
    }
    if a.ServeStep? && a.i == i {
      ServeWorkerFrozen(cfg.bindings[i], s.ctx, s.err, w, a.turn);
    }
  }

  lemma AdvanceReads<K, V>(s: State<K, V>, failure: Option<Error>, i: nat)
    requires i < |s.workers|
    ensures |Advance(s, failure).workers| == |s.workers|
    ensures Advance(s, failure).workers[i].reading == s.workers[i].reading
  {
  }

  lemma LeftWarmup<K, V>(b: Binding<K, V>, w: Worker<K, V>)
    requires WorkerSound(b, w) && !w.reading.ledger.phase.Warmup?
    ensures w.warm.Result?
  {
    hide Sound, Complete, Punctual, Reported, InHand, Tally;
  }

  lemma ServeWorkerFrozen<K, V>(b: Binding<K, V>, ctx: Option<Error>, err: Option<Error>, w: Worker<K, V>, turn: Turn)
    requires WorkerSound(b, w) && w.warm.Result? && !w.reading.ledger.phase.Warmup?
    ensures var l := ServeWorker(b, ctx, err, w, turn).reading.ledger;
      !l.phase.Warmup? && l.warmupApplied == w.reading.ledger.warmupApplied
  {
    hide WorkerSound, PollWorker, Serve;
    match w.serve
    case ServePolling => PollKeepsLedger(w, turn);
    case ServeHolding(ev) => HeldFrozen(b, w);
    case _ =>
  }

  lemma PollKeepsLedger<K, V>(w: Worker<K, V>, turn: Turn)
    ensures PollWorker(w, turn).0.ledger == w.reading.ledger
  {
    hide NativePoll, Translate;
  }

  lemma HeldFrozen<K, V>(b: Binding<K, V>, w: Worker<K, V>)
    requires WorkerSound(b, w) && w.warm.Result? && w.serve.ServeHolding? && !w.reading.ledger.phase.Warmup?
    ensures var l := Serve(b, w.reading, w.serve.ev).ledger;
      !l.phase.Warmup? && l.warmupApplied == w.reading.ledger.warmupApplied
  {
    hide Sound, Complete, Covered, Reported, InHand, Left, Serve;
    ServeSound(b, w.start, w.reading, HandledBy(w), w.serve.ev);
  }

  /**
    Phases: only "stopped" means that a binding served. After a failed Start, a
    binding that loaded its topic stays "steady" although nothing serves it.
   */
  lemma PhasesTell<K, V>(cfg: Config<K, V>, stores: seq<map<K, V>>, s: State<K, V>, i: nat)
    requires Reachable(cfg, stores, s) && i < |s.workers|
    ensures s.workers[i].reading.ledger.phase.Stopped? ==>
      s.workers[i].serve.Closing? || HasClosed(s.workers[i].serve)
    ensures s.main.Returned? && s.main.result.WarmupFailed? && i < |s.main.result.errors| ==>
      && s.workers[i].serve.NotServing?
      && (s.main.result.errors[i].None? <==> s.workers[i].reading.ledger.phase.Steady?)
  {
    hide Step, Sound, Complete, Punctual, Reports, Tally, InHand;
    ReachableData(cfg, stores, s);
    assert Stage(s.main, s.buildErrors, i, s.workers[i]);
    assert WorkerSound(cfg.bindings[i], s.workers[i]);
  }
}
