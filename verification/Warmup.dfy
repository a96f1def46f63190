/**
  Reading one topic: what a binding's goroutine does with each poll, first until
  the topic has been read to its end and then while serving.
 */
module Warmup {
  import opened Wrappers
  import opened Kafka
  import opened Events
  import opened Replay
  import opened Ledger
  import opened Detection

  const LOAD_PROGRESS_EVERY := 100_000

  /**
    One binding's reading: the topic, the ledger and the loop's own variables.
    `first` and `delivered` are history: the logs as they were at assignment, and
    every record the consumer has handed over since.
   */
  datatype Reading<K, V> = Reading(
    first: Logs,
    topic: Topic,
    delivered: seq<Record>,
    remaining: set<Partition>,
    ledger: Ledger<K, V>,
    progressAt: int
  )

  function Assigned<K, V>(logs: Logs, ledger: Ledger<K, V>): Reading<K, V> {
    Reading(logs, AssignFromBeginning(logs), [], logs.Keys, ledger, LOAD_PROGRESS_EVERY)
  }

  function Poll<K, V>(l: Reading<K, V>, turn: Turn): (r: (Reading<K, V>, Event))
    ensures r.0.first == l.first && r.0.ledger == l.ledger
  {
    var (topic, raw) := NativePoll(l.topic, turn);
    (l.(topic := topic, delivered := l.delivered + Handed(raw)), Translate(raw))
  }

  function Notified<K, V>(l: Reading<K, V>, notice: Notice<K>): Reading<K, V> {
    l.(ledger := l.ledger.(notices := l.ledger.notices + [notice]))
  }

  /** Applies a record during warm-up and reports progress when it is due. */
  function Absorb<K, V>(b: Binding<K, V>, l: Reading<K, V>, rec: Record): (r: Reading<K, V>)
    ensures r == l.(ledger := r.ledger, progressAt := r.progressAt)
  {
    var next := l.(ledger := Enter(b, l.ledger, rec));
    var applied := next.ledger.warmupApplied;
    if applied >= l.progressAt then
      Notified(next, OnLoadProgress(applied)).(progressAt := applied + LOAD_PROGRESS_EVERY)
    else next
  }

  datatype Verdict = Again | Finish(error: Option<Error>)

  /** What follows the end of the topic. */
  function Conclude<K, V>(b: Binding<K, V>, l: Reading<K, V>): (Reading<K, V>, Verdict) {
    var applied := l.ledger.warmupApplied;
    if applied == 0 && !b.allowEmpty then (l, Finish(Some(EmptyTopic)))
    else (Notified(l.(ledger := l.ledger.(phase := Steady)), OnPhase(applied)), Finish(None))
  }

  /** What warm-up makes of one event. */
  function Handle<K, V>(b: Binding<K, V>, l: Reading<K, V>, ev: Event): (r: (Reading<K, V>, Verdict))
    ensures r.0.first == l.first
  {
    var heard := if ev.Failure? then Notified(l, OnKafkaError(ev.error)) else l;
    if ev.Failure? && ev.fatal then (heard, Finish(Some(ev.error)))
    else
      var absorbed := if ev.Received? then Absorb(b, heard, ev.rec) else heard;
      var next := absorbed.(remaining := Awaited(l.remaining, ev));
      if next.remaining == {} then Conclude(b, next) else (next, Again)
  }

  /** What a serving goroutine makes of an event that does not kill it. */
  function Serve<K, V>(b: Binding<K, V>, l: Reading<K, V>, ev: Event): Reading<K, V> {
    match ev
    case Received(rec) => l.(ledger := Enter(b, l.ledger, rec))
    case Failure(error, _) => Notified(l, OnKafkaError(error))
    case Eof(_) => l
    case Idle => l
  }

  /** The library's name for a warm-up deadline. */
  function NameTimeout(bounded: bool, error: Error): Error {
    if bounded && error.DeadlineExceeded? then WarmupTimeout else error
  }

  // What holds of a reading.

  /** The delivered records are a prefix of each partition, and the ledger balances over the handled ones. */
  ghost predicate Sound<K, V>(b: Binding<K, V>, start: map<K, V>, l: Reading<K, V>, handled: seq<Record>) {
    && Tracks(l.first, l.topic, l.delivered)
    && Balanced(b, start, l.ledger, handled)
  }

  /** Every partition has been read at least as far as it reached at assignment. */
  ghost predicate Complete<K, V>(l: Reading<K, V>) {
    forall p | p in l.first :: Caught(l.first, l.topic, p)
  }

  function Reports<K>(notices: seq<Notice<K>>): seq<nat> {
    if notices == [] then []
    else
      var last, rest := notices[|notices| - 1], Reports(notices[..|notices| - 1]);
      if last.OnLoadProgress? then rest + [last.applied] else rest
  }

  /** The first n multiples of the reporting interval. */
  function Milestones(n: nat): seq<nat> {
    seq(n, i => (i + 1) * LOAD_PROGRESS_EVERY)
  }

  /** Progress was reported at each multiple of the interval reached so far, once, and nowhere else. */
  ghost predicate Punctual<K, V>(l: Reading<K, V>) {
    l.progressAt == (l.ledger.warmupApplied / LOAD_PROGRESS_EVERY + 1) * LOAD_PROGRESS_EVERY && Reported(l)
  }

  ghost predicate Reported<K, V>(l: Reading<K, V>) {
    Reports(l.ledger.notices) == Milestones(l.ledger.warmupApplied / LOAD_PROGRESS_EVERY)
  }

  ghost predicate Warming<K, V>(b: Binding<K, V>, start: map<K, V>, l: Reading<K, V>, handled: seq<Record>) {
    && Sound(b, start, l, handled)
    && l.ledger.phase.Warmup?
    && l.remaining <= l.first.Keys
    && (forall p | p in l.first && p !in l.remaining :: Caught(l.first, l.topic, p))
    && Punctual(l)
  }

  /** The event in hand accounts for the one delivered record not yet handled, if there is one. */
  ghost predicate InHand<K, V>(l: Reading<K, V>, handled: seq<Record>, ev: Event) {
    && l.delivered == handled + (if ev.Received? then [ev.rec] else [])
    && (ev.Eof? ==> Caught(l.first, l.topic, ev.partition))
  }

  lemma AssignedWarms<K, V>(b: Binding<K, V>, logs: Logs, table: map<K, V>)
    requires WellFormed(logs)
    ensures Warming(b, table, Assigned(logs, Opened(table)), [])
  {
    hide Tracks;
    AssignTracks(logs);
    assert Reports<K>([]) == Milestones(0);
  }

  lemma PollSound<K, V>(b: Binding<K, V>, start: map<K, V>, l: Reading<K, V>, turn: Turn)
    requires Sound(b, start, l, l.delivered)
    ensures var (l', ev) := Poll(l, turn);
      && Sound(b, start, l', l.delivered)
      && InHand(l', l.delivered, ev)
      && (forall p | Caught(l.first, l.topic, p) :: Caught(l'.first, l'.topic, p))
  {
    hide Tracks, Balanced, NativePoll, Caught;
    PollTracks(l.first, l.topic, l.delivered, turn);
  }

  lemma PollWarms<K, V>(b: Binding<K, V>, start: map<K, V>, l: Reading<K, V>, turn: Turn)
    requires Warming(b, start, l, l.delivered)
    ensures var (l', ev) := Poll(l, turn);
      Warming(b, start, l', l.delivered) && InHand(l', l.delivered, ev) && FromKafka(ev)
  {
    hide Tracks, Balanced, NativePoll, Caught, Reports, Milestones;
    PollSound(b, start, l, turn);
  }

  lemma ReportsAppend<K>(notices: seq<Notice<K>>, n: Notice<K>)
    ensures Reports(notices + [n]) == if n.OnLoadProgress? then Reports(notices) + [n.applied] else Reports(notices)
  {
    assert (notices + [n])[..|notices|] == notices;
  }

  lemma EnterReports<K, V>(b: Binding<K, V>, l: Ledger<K, V>, rec: Record)
    ensures Reports(Enter(b, l, rec).notices) == Reports(l.notices)
  {
    var clash := KeyClash(b, rec);
    if clash.Some? {
      ReportsAppend(l.notices, OnKeyMismatch(clash.value.0, clash.value.1));
    }
    ReportsAppend(Clashed(b, l.notices, rec), Report(EffectOf(b, rec), rec, l.phase.Warmup?));
  }

  lemma AbsorbPunctual<K, V>(b: Binding<K, V>, l: Reading<K, V>, rec: Record)
    requires Punctual(l)
    ensures Punctual(Absorb(b, l, rec))
  {
    hide Reports, EffectOf, Report, Clashed, Change;
    var next := Enter(b, l.ledger, rec);
    EnterReports(b, l.ledger, rec);
    if next.warmupApplied >= l.progressAt {
      ReportsAppend(next.notices, OnLoadProgress(next.warmupApplied));
      var n := l.ledger.warmupApplied / LOAD_PROGRESS_EVERY;
      assert Milestones(n + 1) == Milestones(n) + [(n + 1) * LOAD_PROGRESS_EVERY];
    }
  }

  lemma AbsorbWarms<K, V>(b: Binding<K, V>, start: map<K, V>, l: Reading<K, V>, handled: seq<Record>, rec: Record)
    requires Warming(b, start, l, handled)
    ensures Warming(b, start, Absorb(b, l, rec), handled + [rec])
  {
    AbsorbPunctual(b, l, rec);
    EnterBalances(b, start, l.ledger, handled, rec);
    var next := Enter(b, l.ledger, rec);
    NoticeBalances(b, start, next, handled + [rec], OnLoadProgress(next.warmupApplied));
  }

  lemma NotifiedWarms<K, V>(b: Binding<K, V>, start: map<K, V>, l: Reading<K, V>, handled: seq<Record>, error: Error)
    requires Warming(b, start, l, handled)
    ensures Warming(b, start, Notified(l, OnKafkaError(error)), handled)
  {
    hide Tracks, Balanced, Caught;
    NoticeBalances(b, start, l.ledger, handled, OnKafkaError(error));
    ReportsAppend(l.ledger.notices, OnKafkaError(error));
  }

  /** How a reading may leave warm-up. */
  ghost predicate Left<K, V>(b: Binding<K, V>, start: map<K, V>, l: Reading<K, V>, error: Option<Error>) {
    && Sound(b, start, l, l.delivered)
    && (error.None? ==>
      && l.ledger.phase.Steady?
      && Complete(l)
      && (b.allowEmpty || Applied(b, l.delivered) > 0)
      && l.ledger.warmupApplied == Applied(b, l.delivered)
      && Reported(l))
    && (error.Some? ==> l.ledger.phase.Warmup? && Reported(l))
    && (error == Some(EmptyTopic) ==> Complete(l) && !b.allowEmpty && Applied(b, l.delivered) == 0)
  }

  lemma ConcludeLeaves<K, V>(b: Binding<K, V>, start: map<K, V>, l: Reading<K, V>)
    requires Warming(b, start, l, l.delivered) && l.remaining == {}
    ensures var (l', v) := Conclude(b, l);
      v.Finish? && l'.delivered == l.delivered && Left(b, start, l', v.error)
  {
    hide Tracks, Caught, Balanced, Applied, Reports, Milestones;
    var steady := l.(ledger := l.ledger.(phase := Steady));
    WarmApplied(b, start, l.ledger, l.delivered);
    NoticeBalances(b, start, steady.ledger, l.delivered, OnPhase(l.ledger.warmupApplied));
    ReportsAppend(steady.ledger.notices, OnPhase(l.ledger.warmupApplied));
  }

  /** While warm-up lasts its count is that of the applied records, and the books stay balanced when it ends. */
  lemma WarmApplied<K, V>(b: Binding<K, V>, start: map<K, V>, l: Ledger<K, V>, handled: seq<Record>)
    requires Balanced(b, start, l, handled) && l.phase.Warmup?
    ensures l.warmupApplied == Applied(b, handled)
    ensures Balanced(b, start, l.(phase := Steady), handled)
  {
    hide Fold, Tally, FlaggedWarm, Observed;
  }

  /** A context error or a fatal event leaves warm-up where it is. */
  lemma InterruptedLeaves<K, V>(b: Binding<K, V>, start: map<K, V>, l: Reading<K, V>, error: Error)
    requires Warming(b, start, l, l.delivered) && !error.EmptyTopic?
    ensures Left(b, start, l, Some(error))
  {
  }

  ghost predicate FromKafka(ev: Event) {
    ev.Failure? ==> ev.error.KafkaFailure? || ev.error.ConsumerClosed?
  }

  /** Handling an event either goes on warming, with nothing left over, or leaves warm-up soundly. */
  lemma HandleWarms<K, V>(b: Binding<K, V>, start: map<K, V>, l: Reading<K, V>, handled: seq<Record>, ev: Event)
    requires Warming(b, start, l, handled) && InHand(l, handled, ev) && FromKafka(ev)
    ensures var (l', v) := Handle(b, l, ev);
      && l'.delivered == l.delivered
      && (v.Again? ==> Warming(b, start, l', l'.delivered) && l'.remaining != {})
      && (v.Finish? ==> Left(b, start, l', v.error))
  {
    hide Tracks, Balanced, Caught, Reports, Milestones, Left, Conclude, Absorb;
    match ev
    case Failure(error, fatal) =>
      NotifiedWarms(b, start, l, handled, error);
      assert l.delivered == handled;
      if fatal {
        InterruptedLeaves(b, start, Notified(l, OnKafkaError(error)), error);
      } else if l.remaining == {} {
        ConcludeLeaves(b, start, Notified(l, OnKafkaError(error)));
      }
    case Received(rec) =>
      AbsorbWarms(b, start, l, handled, rec);
      if l.remaining == {} {
        ConcludeLeaves(b, start, Absorb(b, l, rec));
      }
    case Eof(p) =>
      assert l.delivered == handled;
      var next := l.(remaining := l.remaining - {p});
      if next.remaining == {} {
        ConcludeLeaves(b, start, next);
      }
    case Idle =>
      assert l.delivered == handled;
      if l.remaining == {} {
        ConcludeLeaves(b, start, l);
      }
  }

  /** Serving keeps a reading sound and complete, and no longer counts its records as warm-up. */
  lemma ServeSound<K, V>(b: Binding<K, V>, start: map<K, V>, l: Reading<K, V>, handled: seq<Record>, ev: Event)
    requires Sound(b, start, l, handled) && InHand(l, handled, ev) && !l.ledger.phase.Warmup?
    ensures var l' := Serve(b, l, ev);
      && Sound(b, start, l', l'.delivered)
      && l'.ledger.warmupApplied == l.ledger.warmupApplied
      && l'.ledger.phase == l.ledger.phase
      && l'.first == l.first && l'.topic == l.topic && l'.delivered == l.delivered
      && Reports(l'.ledger.notices) == Reports(l.ledger.notices)
  {
    hide Tracks, Balanced, Caught, EffectOf, KeyClash, Reports;
    match ev
    case Received(rec) =>
      EnterBalances(b, start, l.ledger, handled, rec);
      EnterReports(b, l.ledger, rec);
    case Failure(error, _) =>
      ReportsAppend(l.ledger.notices, OnKafkaError(error));
      NoticeBalances(b, start, l.ledger, handled, OnKafkaError(error));
      assert l.delivered == handled;
    case Eof(_) => assert l.delivered == handled;
    case Idle => assert l.delivered == handled;
  }

  // The loops, over a script of what the context and the broker do at each turn.

  /** One turn of a poll loop: what the context check reads, what the broker then does, and the time. */
  datatype Tick = Tick(ctx: Option<Error>, turn: Turn, now: int)

  /** The warm-up loop over a script; `Again` if the script ends before the loop does. */
  function WarmLoop<K, V>(b: Binding<K, V>, bounded: bool, l: Reading<K, V>, script: seq<Tick>): (Reading<K, V>, Verdict)
    decreases |script|
  {
    if script == [] then (l, Again)
    else if script[0].ctx.Some? then (l, Finish(Some(NameTimeout(bounded, script[0].ctx.value))))
    else
      var (polled, ev) := Poll(l, script[0].turn);
      var (next, v) := Handle(b, polled, ev);
      if v.Again? then WarmLoop(b, bounded, next, script[1..]) else (next, v)
  }

  ghost predicate ContextErrors(script: seq<Tick>) {
    forall i | 0 <= i < |script| && script[i].ctx.Some? ::
      script[i].ctx.value.Canceled? || script[i].ctx.value.DeadlineExceeded?
  }

  /** Whatever the broker and the context do, warm-up ends only as Left allows. */
  lemma {:induction false} WarmLoopLeaves<K, V>(
    b: Binding<K, V>, start: map<K, V>, bounded: bool, l: Reading<K, V>, script: seq<Tick>)
    requires Warming(b, start, l, l.delivered) && ContextErrors(script)
    ensures var (l', v) := WarmLoop(b, bounded, l, script);
      && (v.Finish? ==> Left(b, start, l', v.error))
      && (v.Again? ==> Warming(b, start, l', l'.delivered))
    decreases |script|
  {
    hide Warming, Left, Handle, Poll;
    if script != [] && script[0].ctx.Some? {
      InterruptedLeaves(b, start, l, NameTimeout(bounded, script[0].ctx.value));
    } else if script != [] {
      var (polled, ev) := Poll(l, script[0].turn);
      PollWarms(b, start, l, script[0].turn);
      HandleWarms(b, start, polled, l.delivered, ev);
      var (next, v) := Handle(b, polled, ev);
      if v.Again? {
        WarmLoopLeaves(b, start, bounded, next, script[1..]);
      }
    }
  }

  /**
    Warm-up that succeeds has read everything: against a topic that may grow at
    every turn, each partition's delivered records are a prefix of its log that
    covers what the log held at assignment, and the table is their fold.
   */
  lemma WarmupIsComplete<K, V>(
    b: Binding<K, V>, table: map<K, V>, bounded: bool, logs: Logs, script: seq<Tick>,
    l: Reading<K, V>, p: Partition)
    requires WellFormed(logs) && ContextErrors(script)
    requires WarmLoop(b, bounded, Assigned(logs, Opened(table)), script) == (l, Finish(None))
    ensures l.ledger.table == Fold(b, table, l.delivered)
    ensures p in logs ==> p in l.topic.logs && logs[p] <= Project(l.delivered, p) <= l.topic.logs[p]
  {
    hide WarmLoop, Warming, Sound, Complete, Fold, Project;
    var l0 := Assigned(logs, Opened(table));
    AssignedWarms(b, logs, table);
    assert l0.delivered == [];
    WarmLoopLeaves(b, table, bounded, l0, script);
    WarmLoopKeepsFirst(b, bounded, l0, script);
    CompleteReading(b, table, l);
  }

  lemma CompleteReading<K, V>(b: Binding<K, V>, start: map<K, V>, l: Reading<K, V>)
    requires Sound(b, start, l, l.delivered) && Complete(l)
    ensures l.ledger.table == Fold(b, start, l.delivered)
    ensures forall p | p in l.first :: p in l.topic.logs && Project(l.delivered, p) <= l.topic.logs[p]
    ensures forall p | p in l.first :: l.first[p] <= Project(l.delivered, p)
  {
    hide Fold, Tally, FlaggedWarm, Observed, Project;
    forall p | p in l.first
      ensures p in l.topic.logs && Project(l.delivered, p) <= l.topic.logs[p] && l.first[p] <= Project(l.delivered, p)
    {
      assert Caught(l.first, l.topic, p);
      assert Project(l.delivered, p) == l.topic.logs[p][..l.topic.position[p]];
    }
  }

  lemma {:induction false} WarmLoopKeepsFirst<K, V>(b: Binding<K, V>, bounded: bool, l: Reading<K, V>, script: seq<Tick>)
    ensures WarmLoop(b, bounded, l, script).0.first == l.first
    decreases |script|
  {
    if script != [] && script[0].ctx.None? {
      var (polled, ev) := Poll(l, script[0].turn);
      var (next, v) := Handle(b, polled, ev);
      if v.Again? {
        WarmLoopKeepsFirst(b, bounded, next, script[1..]);
      }
    }
  }

  /**
    A topic is reported empty exactly when it was read to its end, the binding
    does not allow empty topics, and not one delivered record was an upsert or a
    tombstone — records that were filtered or undecodable do not count.
   */
  lemma EmptyMeansNothingApplied<K, V>(b: Binding<K, V>, start: map<K, V>, l: Reading<K, V>)
    requires Warming(b, start, l, l.delivered) && l.remaining == {}
    ensures Conclude(b, l).1 == Finish(Some(EmptyTopic)) <==>
            !b.allowEmpty && forall i | 0 <= i < |l.delivered| :: !Effective(EffectOf(b, l.delivered[i]))
  {
    NothingApplied(b, l.delivered);
  }
}
