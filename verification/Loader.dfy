/**
  The loader's own code, step by step: registering bindings, claiming the start,
  building consumers, and the two poll loops with the objects they drive. What
  the context and the broker do is a script, one tick per turn of a loop.
 */
module Loader {
  import opened Wrappers
  import opened Kafka
  import opened Events
  import opened Replay
  import opened Ledger
  import opened Warmup
  import opened Lifecycle
  import opened Driver
  import Detection
  import Registration
  import Connection

  /** What happens around one turn of a serving loop; `rival` is the error of another binding that dies just before it. */
  datatype ServeTick = ServeTick(ctx: Option<Error>, rival: Option<Error>, turn: Turn, now: int)

  /** The loader's error and the fatal handler's calls. */
  datatype Outcome = Outcome(err: Option<Error>, calls: seq<Error>)

  /** The first error to be recorded stays, and the handler hears of that one. */
  function Died(o: Outcome, hasHandler: bool, error: Error): Outcome {
    if o.err.Some? then o
    else Outcome(Some(error), if hasHandler then o.calls + [error] else o.calls)
  }

  function Rival(o: Outcome, hasHandler: bool, rival: Option<Error>): Outcome {
    if rival.Some? then Died(o, hasHandler, rival.value) else o
  }

  /** The handler has heard of the recorded error and of nothing else. */
  predicate Told(o: Outcome, hasHandler: bool) {
    o.calls == if o.err.Some? && hasHandler then [o.err.value] else []
  }

  /** The serving loop over a script: the final reading and outcome, and whether the loop has ended. */
  function ServeLoop<K, V>(
    b: Binding<K, V>, hasHandler: bool, l: Reading<K, V>, o: Outcome, script: seq<ServeTick>)
    : (Reading<K, V>, Outcome, bool)
    decreases |script|
  {
    if script == [] then (l, o, false)
    else
      var tick := script[0];
      var o' := Rival(o, hasHandler, tick.rival);
      if tick.ctx.Some? || o'.err.Some? then (l, o', true)
      else
        var (polled, ev) := Poll(l, tick.turn);
        var next := Serve(b, polled, ev);
        if Kills(ev) then (next, Died(o', hasHandler, ev.error), true)
        else ServeLoop(b, hasHandler, next, o', script[1..])
  }

  /** Serving loses nothing: what it leaves is the fold of everything delivered, up to and including the last poll. */
  lemma {:induction false} ServeLoopLossless<K, V>(
    b: Binding<K, V>, start: map<K, V>, hasHandler: bool, l: Reading<K, V>, o: Outcome, script: seq<ServeTick>)
    requires Sound(b, start, l, l.delivered) && !l.ledger.phase.Warmup?
    ensures var (l', o', _) := ServeLoop(b, hasHandler, l, o, script);
      && Sound(b, start, l', l'.delivered)
      && l'.ledger.warmupApplied == l.ledger.warmupApplied
      && (o.err.Some? ==> o' == o)
      && (Told(o, hasHandler) ==> Told(o', hasHandler))
    decreases |script|
  {
    hide Sound, Poll, Serve;
    if script != [] {
      var tick := script[0];
      var o' := Rival(o, hasHandler, tick.rival);
      if tick.ctx.None? && o'.err.None? {
        var (polled, ev) := Poll(l, tick.turn);
        PollSound(b, start, l, tick.turn);
        assert polled.ledger == l.ledger;
        ServeSound(b, start, polled, l.delivered, ev);
        var next := Serve(b, polled, ev);
        if !Kills(ev) {
          ServeLoopLossless(b, start, hasHandler, next, o', script[1..]);
        }
      }
    }
  }

  class Loader<K(==), V> {
    const bounded: bool
    const hasHandler: bool

    var regs: seq<Registration.Registration<K, V>>
    var byName: map<string, Registration.Registration<K, V>>
    var started: bool
    var err: Option<Error>
    var handlerCalls: seq<Error>

    constructor (bounded: bool, hasHandler: bool)
      ensures Valid() && regs == [] && !started && err == None && handlerCalls == []
      ensures this.bounded == bounded && this.hasHandler == hasHandler
    {
      this.bounded := bounded;
      this.hasHandler := hasHandler;
      regs, byName, started := [], map[], false;
      err, handlerCalls := None, [];
    }

    /** Every binding is found under its name, and names are unique. */
    ghost predicate Valid()
      reads this
    {
      && (forall i | 0 <= i < |regs| :: regs[i].name in byName && byName[regs[i].name] == regs[i])
      && (forall name | name in byName :: byName[name] in regs && byName[name].name == name)
      && (forall i, j | 0 <= i < j < |regs| :: regs[i].name != regs[j].name)
    }

    function Result(): Outcome
      reads this
    {
      Outcome(err, handlerCalls)
    }

    /** Registers a binding; the two ways that can be wrong are panics in the original. */
    method Add(reg: Registration.Registration<K, V>) returns (panic: Option<Error>)
      requires Valid()
      modifies this`regs, this`byName
      ensures Valid()
      ensures panic == (
        if started then Some(BindAfterStart)
        else if exists i :: 0 <= i < |old(regs)| && old(regs)[i].name == reg.name then Some(DuplicateName)
        else None)
      ensures panic.None? ==> regs == old(regs) + [reg]
      ensures panic.Some? ==> regs == old(regs) && byName == old(byName)
    {
      if started {
        return Some(BindAfterStart);
      }
      if reg.name in byName {
        assert byName[reg.name] in regs;
        return Some(DuplicateName);
      }
      regs := regs + [reg];
      byName := byName[reg.name := reg];
      panic := None;
    }

    /** The locked section of Start: of any calls on a loader with bindings, the first passes and no other does. */
    method Claim() returns (r: Driver.Result<seq<Registration.Registration<K, V>>>)
      modifies this`started
      ensures r == (
        if old(started) then Err(AlreadyStarted)
        else if regs == [] then Err(NoBindings)
        else Ok(regs))
      ensures started == (old(started) || regs != [])
    {
      if started {
        return Err(AlreadyStarted);
      }
      if |regs| == 0 {
        return Err(NoBindings);
      }
      started := true;
      r := Ok(regs);
    }

    /** Closes consumers that no goroutine owns, each once. */
    method CloseAll(consumers: seq<Consumer>, refusals: seq<Option<ErrorCode>>)
      requires |refusals| == |consumers|
      requires forall i, j | 0 <= i < j < |consumers| :: consumers[i] != consumers[j]
      modifies consumers
      ensures forall c | c in consumers ::
        c.closed && c.nativeCloses == old(c.nativeCloses) + if old(c.closed) then 0 else 1
    {
      for k := 0 to |consumers|
        invariant forall i | 0 <= i < k ::
          (consumers[i].closed
          && consumers[i].nativeCloses == old(consumers[i].nativeCloses) + if old(consumers[i].closed) then 0 else 1)
        invariant forall i | k <= i < |consumers| ::
          (consumers[i].closed == old(consumers[i].closed) && consumers[i].nativeCloses == old(consumers[i].nativeCloses))
      {
        var _ := consumers[k].Close(refusals[k]);
      }
    }

    /**
      Builds one consumer per binding. Every construction failure is reported, and
      then the consumers that were built (`built`) have each been closed once.
     */
    method NewConsumers(topics: seq<Logs>, failures: seq<Option<Error>>, errorLogInterval: int)
      returns (consumers: seq<Consumer>, errors: seq<Error>, ghost built: seq<Consumer>)
      requires |failures| == |topics|
      ensures errors == Failures(failures)
      ensures fresh(built) && |built| + |errors| == |topics|
      ensures errors == [] ==>
        && consumers == built
        && (forall i | 0 <= i < |consumers| ::
              !consumers[i].closed && consumers[i].nativeCloses == 0 && consumers[i].topic.logs == topics[i])
      ensures errors != [] ==> consumers == [] && forall c | c in built :: c.closed && c.nativeCloses == 1
    {
      consumers, errors := [], [];
      for k := 0 to |topics|
        invariant errors == Failures(failures[..k])
        invariant fresh(consumers) && |consumers| + |errors| == k
        invariant forall i, j | 0 <= i < j < |consumers| :: consumers[i] != consumers[j]
        invariant forall c | c in consumers :: !c.closed && c.nativeCloses == 0
        invariant errors == [] ==> forall i | 0 <= i < k :: consumers[i].topic.logs == topics[i]
      {
        assert failures[..k + 1][..k] == failures[..k];
        if failures[k].Some? {
          errors := errors + [failures[k].value];
          continue;
        }
        var c := new Consumer(topics[k], errorLogInterval);
        consumers := consumers + [c];
      }
      assert failures[..|topics|] == failures;
      built := consumers;
      if |errors| > 0 {
        CloseAll(consumers, seq(|consumers|, _ => None));
        consumers := [];
      }
    }

    /** Tells the observer of a Kafka error, and says whether the binding must stop. */
    method Classify(reg: Registration.Registration<K, V>, ev: Event) returns (failure: Option<Error>, fatal: bool)
      modifies reg`observed
      ensures fatal == Kills(ev)
      ensures failure == if ev.Failure? then Some(ev.error) else None
      ensures reg.observed == if ev.Failure? then old(reg.observed) + [OnKafkaError(ev.error)] else old(reg.observed)
    {
      if !ev.Failure? {
        return None, false;
      }
      reg.Notify(OnKafkaError(ev.error));
      return Some(ev.error), ev.fatal;
    }

    /**
      Reads one topic to its end. The consumer is only borrowed: on no path is it
      closed here.
     */
    method WarmUpBinding(
      reg: Registration.Registration<K, V>, c: Consumer,
      ctx: Option<Error>, metadata: Metadata, refusal: Option<ErrorCode>, script: seq<Tick>)
      returns (v: Verdict, ghost l: Reading<K, V>)
      requires !c.closed
      requires metadata.Found? ==> c.topic.logs.Keys == set p | p in metadata.ids
      modifies reg, reg.store, c, c.errLog
      ensures reg.View() == l.ledger && c.topic == l.topic
      ensures c.closed == old(c.closed) && c.nativeCloses == old(c.nativeCloses)
      ensures if ctx.None? && metadata.Found? && metadata.ids != [] && refusal.None?
              then (l, v) == WarmLoop(reg.binding, bounded, Assigned(old(c.topic.logs), old(reg.View())), script)
              else v.Finish? && v.error.Some? && l.ledger == old(reg.View()) && l.topic == old(c.topic)
      ensures ctx.Some? ==> v == Finish(Some(if bounded && ctx.value.DeadlineExceeded? then WarmupTimeout else ctx.value))
      ensures ctx.None? ==>
        && (metadata.Missing? || metadata == Found([]) ==> v == Finish(Some(TopicNotFound)))
        && (metadata.Unanswered? || metadata.Faulty? ==> v == Finish(Some(KafkaFailure(metadata.code))))
        && (metadata.Found? && metadata.ids != [] && refusal.Some? ==> v == Finish(Some(KafkaFailure(refusal.value))))
    {
      hide WarmLoop;
      l := Reading(c.topic.logs, c.topic, [], {}, reg.View(), LOAD_PROGRESS_EVERY);
      var assignment := c.AssignAll(ctx, metadata, refusal);
      if assignment.Err? {
        return Finish(Some(NameTimeout(bounded, assignment.error))), l;
      }
      v, l := ReadToEnd(reg, c, assignment.value, script);
    }

    /** The warm-up poll loop, given the partitions assigned. */
    method ReadToEnd(reg: Registration.Registration<K, V>, c: Consumer, partitions: seq<Partition>, script: seq<Tick>)
      returns (v: Verdict, ghost l: Reading<K, V>)
      requires !c.closed && c.topic == AssignFromBeginning(c.topic.logs)
      requires c.topic.logs.Keys == set p | p in partitions
      modifies reg, reg.store, c, c.errLog
      ensures (l, v) == WarmLoop(reg.binding, bounded, Assigned(old(c.topic.logs), old(reg.View())), script)
      ensures reg.View() == l.ledger && c.topic == l.topic
      ensures c.closed == old(c.closed) && c.nativeCloses == old(c.nativeCloses)
    {
      hide Handle, NativePoll, Translate, Connection.Hear;
      ghost var start := Assigned(c.topic.logs, reg.View());
      var detection := new Detection.EofDetection.Begin(partitions);
      var progressAt := LOAD_PROGRESS_EVERY;
      l := start;
      var i := 0;
      while i < |script|
        invariant 0 <= i <= |script|
        invariant !c.closed && c.nativeCloses == old(c.nativeCloses) && fresh(detection)
        invariant l.ledger == reg.View() && l.topic == c.topic
        invariant l.remaining == detection.remaining && l.progressAt == progressAt
        invariant WarmLoop(reg.binding, bounded, start, script) == WarmLoop(reg.binding, bounded, l, script[i..])
      {
        var tick := script[i];
        assert script[i..][0] == tick && script[i..][1..] == script[i + 1..];
        if tick.ctx.Some? {
          return Finish(Some(NameTimeout(bounded, tick.ctx.value))), l;
        }
        var event := c.Poll(tick.turn, tick.now);
        ghost var polled := Poll(l, tick.turn).0;
        v, progressAt, l := WarmTurn(reg, detection, event, progressAt, polled);
        if v.Finish? {
          return;
        }
        i := i + 1;
      }
      v := Again;
    }

    /** One event of warm-up: classify it, apply it, report progress and ask whether the topic has been read. */
    method WarmTurn(
      reg: Registration.Registration<K, V>, detection: Detection.EofDetection, event: Event, progressAt: int,
      ghost l: Reading<K, V>)
      returns (v: Verdict, progressNext: int, ghost next: Reading<K, V>)
      requires l.ledger == reg.View() && l.remaining == detection.remaining && l.progressAt == progressAt
      modifies reg, reg.store, detection
      ensures (next, v) == Handle(reg.binding, l, event)
      ensures next.topic == l.topic && next.ledger == reg.View()
      ensures next.remaining == detection.remaining && next.progressAt == progressNext
    {
      hide Enter;
      progressNext := progressAt;
      var failure, fatal := Classify(reg, event);
      next := l.(ledger := reg.View());
      if fatal {
        return Finish(failure), progressNext, next;
      }
      if event.Received? {
        progressNext := ApplyAndReport(reg, event.rec, progressAt, next);
      }
      var done := detection.Observe(event);
      next := l.(ledger := reg.View(), progressAt := progressNext, remaining := detection.remaining);
      if done {
        var error := ReachedEnd(reg);
        next := next.(ledger := reg.View());
        return Finish(error), progressNext, next;
      }
      v := Again;
    }

    /** Applies a warm-up record, and reports progress when enough have been applied since the last report. */
    method ApplyAndReport(reg: Registration.Registration<K, V>, rec: Record, progressAt: int, ghost l: Reading<K, V>)
      returns (progressNext: int)
      requires l.ledger == reg.View() && l.progressAt == progressAt
      modifies reg, reg.store
      ensures l.(ledger := reg.View(), progressAt := progressNext) == Absorb(reg.binding, l, rec)
    {
      hide Enter;
      progressNext := progressAt;
      reg.Apply(rec);
      var applied := reg.warmupApplied;
      if applied >= progressAt {
        progressNext := applied + LOAD_PROGRESS_EVERY;
        reg.Notify(OnLoadProgress(applied));
      }
    }

    /** After the end of the topic: an empty one is a fault unless the binding allows it; otherwise the binding is steady. */
    method ReachedEnd(reg: Registration.Registration<K, V>) returns (error: Option<Error>)
      modifies reg`phase, reg`observed
      ensures var empty := reg.warmupApplied == 0 && !reg.binding.allowEmpty;
        && error == (if empty then Some(EmptyTopic) else None)
        && reg.phase == (if empty then old(reg.phase) else Steady)
        && reg.observed == (if empty then old(reg.observed) else old(reg.observed) + [OnPhase(reg.warmupApplied)])
    {
      var applied := reg.warmupApplied;
      if applied == 0 && !reg.binding.allowEmpty {
        return Some(EmptyTopic);
      }
      reg.phase := Steady;
      reg.Notify(OnPhase(applied));
      error := None;
    }

    /** Records the first fatal error and tells the application; a later one changes nothing. */
    method BindingDied(error: Error)
      modifies this`err, this`handlerCalls
      ensures Result() == Died(old(Result()), hasHandler, error)
    {
      if err.Some? {
        return;
      }
      err := Some(error);
      if hasHandler {
        handlerCalls := handlerCalls + [error];
      }
    }

    /**
      Applies live changes until the loader stops. This goroutine owns the
      consumer: it closes it exactly when it ends, and ends it with the phase stopped.
     */
    method ServeBinding(
      reg: Registration.Registration<K, V>, c: Consumer, script: seq<ServeTick>, refusal: Option<ErrorCode>,
      ghost start: Reading<K, V>)
      returns (ended: bool, ghost l: Reading<K, V>)
      requires !c.closed && start.ledger == reg.View() && start.topic == c.topic
      modifies this`err, this`handlerCalls, reg, reg.store, c, c.errLog
      ensures (l, Result(), ended) == ServeLoop(reg.binding, hasHandler, start, old(Result()), script)
      ensures c.topic == l.topic && c.closed == ended
      ensures c.nativeCloses == old(c.nativeCloses) + if ended then 1 else 0
      ensures reg.View() == if ended then l.ledger.(phase := Stopped) else l.ledger
    {
      hide Enter, NativePoll, Translate, Connection.Hear;
      l := start;
      ended := false;
      var i := 0;
      while i < |script| && !ended
        invariant 0 <= i <= |script|
        invariant !c.closed && c.nativeCloses == old(c.nativeCloses)
        invariant l.ledger == reg.View() && l.topic == c.topic
        invariant ServeLoop(reg.binding, hasHandler, start, old(Result()), script) ==
                  if ended then (l, Result(), true)
                  else ServeLoop(reg.binding, hasHandler, l, Result(), script[i..])
        decreases |script| - i, !ended
      {
        var tick := script[i];
        assert script[i..][0] == tick && script[i..][1..] == script[i + 1..];
        if tick.rival.Some? {
          BindingDied(tick.rival.value);
        }
        if tick.ctx.Some? || err.Some? {
          ended := true;
        } else {
          var event := c.Poll(tick.turn, tick.now);
          ghost var polled := Poll(l, tick.turn).0;
          ended := ServeTurn(reg, event, polled);
          l := polled.(ledger := reg.View());
          i := i + 1;
        }
      }
      if ended {
        reg.phase := Stopped;
        var _ := c.Close(refusal);
      }
    }

    /** One event of serving: a fatal one ends the binding, a record is applied. */
    method ServeTurn(reg: Registration.Registration<K, V>, event: Event, ghost l: Reading<K, V>) returns (fatal: bool)
      requires l.ledger == reg.View()
      modifies this`err, this`handlerCalls, reg, reg.store
      ensures l.(ledger := reg.View()) == Serve(reg.binding, l, event)
      ensures fatal == Kills(event)
      ensures Result() == if fatal then Died(old(Result()), hasHandler, event.error) else old(Result())
    {
      hide Enter;
      var failure: Option<Error>;
      failure, fatal := Classify(reg, event);
      if fatal {
        BindingDied(failure.value);
      } else if event.Received? {
        reg.Apply(event.rec);
      }
    }
  }

  /** The failures, in order. */
  function Failures(failures: seq<Option<Error>>): seq<Error> {
    if failures == [] then []
    else
      var last, rest := failures[|failures| - 1], Failures(failures[..|failures| - 1]);
      if last.Some? then rest + [last.value] else rest
  }

  /** Each failure is reported, after those before it. */
  lemma {:induction false} FailuresInOrder(failures: seq<Option<Error>>, i: nat)
    requires i < |failures|
    ensures |Failures(failures[..i])| + (if failures[i].Some? then 1 else 0) <= |Failures(failures)|
    ensures failures[i].Some? ==> Failures(failures)[|Failures(failures[..i])|] == failures[i].value
    decreases |failures|
  {
    var init := failures[..|failures| - 1];
    if i < |init| {
      assert init[..i] == failures[..i];
      FailuresInOrder(init, i);
    }
  }

  /** And nothing else is: there are as many reports as failures. */
  lemma {:induction false} FailuresCounted(failures: seq<Option<Error>>)
    ensures |Failures(failures)| == |set k: nat | k < |failures| && failures[k].Some?|
    decreases |failures|
  {
    if failures != [] {
      var n := |failures| - 1;
      FailuresCounted(failures[..n]);
      var before := set k: nat | k < n && failures[..n][k].Some?;
      assert (set k: nat | k < |failures| && failures[k].Some?) == if failures[n].Some? then before + {n} else before;
    }
  }
}
