/**
  When the two poll loops end, with which error, and what they have read by then:
  stated over the native events that the broker answers with, turn by turn.
 */
module LoopExits {
  import opened Wrappers
  import opened Kafka
  import opened Events
  import opened Replay
  import opened Ledger
  import opened Warmup
  import opened Lifecycle
  import opened Detection
  import opened Loader

  /** The native events of a consumer that is polled once per turn. */
  function Heard(t: Topic, turns: seq<Turn>): (r: seq<RawEvent>)
    ensures |r| == |turns|
    decreases |turns|
  {
    if turns == [] then []
    else
      var (t', raw) := NativePoll(t, turns[0]);
      [raw] + Heard(t', turns[1..])
  }

  function Turns(script: seq<Tick>): (r: seq<Turn>)
    ensures |r| == |script| && forall i | 0 <= i < |r| :: r[i] == script[i].turn
  {
    seq(|script|, i requires 0 <= i < |script| => script[i].turn)
  }

  function ServeTurns(script: seq<ServeTick>): (r: seq<Turn>)
    ensures |r| == |script| && forall i | 0 <= i < |r| :: r[i] == script[i].turn
  {
    seq(|script|, i requires 0 <= i < |script| => script[i].turn)
  }

  /** The records among the events. */
  function Messages(raws: seq<RawEvent>): seq<Record>
    decreases |raws|
  {
    if raws == [] then []
    else if raws[0].Message? then [raws[0].rec] + Messages(raws[1..])
    else Messages(raws[1..])
  }

  /** What the observer must hear of the errors among the events. */
  function Errors<K>(raws: seq<RawEvent>): seq<Notice<K>>
    decreases |raws|
  {
    if raws == [] then []
    else if raws[0].KafkaError? then [OnKafkaError(KafkaFailure(raws[0].code))] + Errors(raws[1..])
    else Errors(raws[1..])
  }

  /** The observer calls about Kafka errors and phases, in order. */
  function Asides<K>(notices: seq<Notice<K>>): seq<Notice<K>> {
    if notices == [] then []
    else
      var last, rest := notices[|notices| - 1], Asides(notices[..|notices| - 1]);
      if last.OnKafkaError? || last.OnPhase? then rest + [last] else rest
  }

  predicate FatalError(raw: RawEvent) {
    raw.KafkaError? && raw.fatal
  }

  /** Every awaited partition has reported its end by turn i. */
  ghost predicate ReadToTheEnd(awaited: set<Partition>, raws: seq<RawEvent>, i: nat)
    requires i < |raws|
  {
    forall p | p in awaited :: exists j :: 0 <= j <= i && raws[j] == PartitionEof(p)
  }

  /** Warm-up has a reason to end at turn i. */
  ghost predicate WarmEnds(awaited: set<Partition>, script: seq<Tick>, raws: seq<RawEvent>, i: nat)
    requires i < |script| == |raws|
  {
    script[i].ctx.Some? || FatalError(raws[i]) || ReadToTheEnd(awaited, raws, i)
  }

  /** How warm-up ends at turn i; `applied` is the number of records applied by then. */
  function WarmVerdict(bounded: bool, allowEmpty: bool, tick: Tick, raw: RawEvent, applied: nat): Option<Error> {
    match tick.ctx
    case Some(error) => if bounded && error.DeadlineExceeded? then Some(WarmupTimeout) else tick.ctx
    case None =>
      if FatalError(raw) then Some(KafkaFailure(raw.code))
      else if applied == 0 && !allowEmpty then Some(EmptyTopic)
      else None
  }

  // Appending to the observer's record.

  lemma AsidesAppend<K>(notices: seq<Notice<K>>, n: Notice<K>)
    ensures Asides(notices + [n]) == if n.OnKafkaError? || n.OnPhase? then Asides(notices) + [n] else Asides(notices)
  {
    assert (notices + [n])[..|notices|] == notices;
  }

  lemma EnterAsides<K, V>(b: Binding<K, V>, l: Ledger<K, V>, rec: Record)
    ensures Asides(Enter(b, l, rec).notices) == Asides(l.notices)
  {
    hide Asides, EffectOf, KeyClash, Change, Adds;
    var clash := KeyClash(b, rec);
    if clash.Some? {
      AsidesAppend(l.notices, OnKeyMismatch(clash.value.0, clash.value.1));
    }
    AsidesAppend(Clashed(b, l.notices, rec), Report(EffectOf(b, rec), rec, l.phase.Warmup?));
  }

  lemma AbsorbAsides<K, V>(b: Binding<K, V>, l: Reading<K, V>, rec: Record)
    ensures Asides(Absorb(b, l, rec).ledger.notices) == Asides(l.ledger.notices)
    ensures Absorb(b, l, rec).ledger.phase == l.ledger.phase
  {
    hide Asides, EffectOf, Clashed, Report, Change, Adds;
    EnterAsides(b, l.ledger, rec);
    var next := Enter(b, l.ledger, rec);
    AsidesAppend(next.notices, OnLoadProgress(next.warmupApplied));
  }

  /** One turn of warm-up past the context check. */
  lemma WarmTurn<K, V>(b: Binding<K, V>, l: Reading<K, V>, turn: Turn)
    ensures var (topic, raw) := NativePoll(l.topic, turn);
      var (polled, ev) := Poll(l, turn);
      var (next, v) := Handle(b, polled, ev);
      var awaited := if raw.PartitionEof? then l.remaining - {raw.partition} else l.remaining;
      && next.topic == topic
      && next.delivered == l.delivered + Messages([raw])
      && (v.Again? <==> !FatalError(raw) && awaited != {})
      && (v.Again? ==> next.remaining == awaited && next.ledger.phase == l.ledger.phase)
      && (v.Finish? ==>
           && v.error == WarmVerdict(false, b.allowEmpty, Tick(None, turn, 0), raw, next.ledger.warmupApplied)
           && next.ledger.phase == if v.error.None? then Steady else l.ledger.phase)
      && Asides(next.ledger.notices) == Asides(l.ledger.notices) + Errors([raw])
           + if v == Finish(None) then [OnPhase(next.ledger.warmupApplied)] else []
  {
    hide NativePoll, Absorb, Asides;
    var (topic, raw) := NativePoll(l.topic, turn);
    var (polled, ev) := Poll(l, turn);
    assert [raw][1..] == [];
    assert Messages([]) == [] && Errors<K>([]) == [];
    assert polled.delivered == l.delivered + Messages([raw]);
    var heard := if ev.Failure? then Notified(polled, OnKafkaError(ev.error)) else polled;
    if ev.Failure? {
      AsidesAppend(polled.ledger.notices, OnKafkaError(ev.error));
    }
    assert Asides(heard.ledger.notices) == Asides(l.ledger.notices) + Errors([raw]);
    if ev.Received? {
      AbsorbAsides(b, polled, ev.rec);
    }
    var absorbed := if ev.Received? then Absorb(b, heard, ev.rec) else heard;
    assert Asides(absorbed.ledger.notices) == Asides(heard.ledger.notices);
    AsidesAppend(absorbed.ledger.notices, OnPhase(absorbed.ledger.warmupApplied));
  }

  lemma HeardFirst(t: Topic, turns: seq<Turn>)
    requires turns != []
    ensures Heard(t, turns)[0] == NativePoll(t, turns[0]).1
    ensures Heard(t, turns)[1..] == Heard(NativePoll(t, turns[0]).0, turns[1..])
  {
  }

  lemma TakeFirst<K>(raws: seq<RawEvent>, m: nat)
    requires raws != [] && m < |raws|
    ensures Messages(raws[..m + 1]) == Messages([raws[0]]) + Messages(raws[1..][..m])
    ensures Errors<K>(raws[..m + 1]) == Errors<K>([raws[0]]) + Errors<K>(raws[1..][..m])
  {
    assert raws[..m + 1][1..] == raws[1..][..m];
    assert [raws[0]][1..] == [];
  }

  lemma TakeNone<K>(raws: seq<RawEvent>)
    ensures Messages(raws[..0]) == [] && Errors<K>(raws[..0]) == []
  {
  }

  /** The reasons to end at a later turn are those of the rest of the script, as it finds things. */
  lemma WarmEndsLater(awaited: set<Partition>, script: seq<Tick>, raws: seq<RawEvent>, i: nat)
    requires i + 1 < |script| == |raws|
    ensures var left := if raws[0].PartitionEof? then awaited - {raws[0].partition} else awaited;
      WarmEnds(awaited, script, raws, i + 1) <==> WarmEnds(left, script[1..], raws[1..], i)
  {
    var left := if raws[0].PartitionEof? then awaited - {raws[0].partition} else awaited;
    var rest := raws[1..];
    if ReadToTheEnd(awaited, raws, i + 1) {
      forall p | p in left
        ensures exists j :: 0 <= j <= i && rest[j] == PartitionEof(p)
      {
        var j :| 0 <= j <= i + 1 && raws[j] == PartitionEof(p);
        assert rest[j - 1] == PartitionEof(p);
      }
    }
    if ReadToTheEnd(left, rest, i) {
      forall p | p in awaited
        ensures exists j :: 0 <= j <= i + 1 && raws[j] == PartitionEof(p)
      {
        if p in left {
          var j :| 0 <= j <= i && rest[j] == PartitionEof(p);
          assert raws[j + 1] == PartitionEof(p);
        } else {
          assert raws[0] == PartitionEof(p);
        }
      }
    }
  }

  lemma EndsNow(awaited: set<Partition>, raws: seq<RawEvent>)
    requires raws != []
    ensures ReadToTheEnd(awaited, raws, 0) <==>
            (if raws[0].PartitionEof? then awaited - {raws[0].partition} else awaited) == {}
  {
    var left := if raws[0].PartitionEof? then awaited - {raws[0].partition} else awaited;
    if ReadToTheEnd(awaited, raws, 0) {
      forall p | p in awaited
        ensures p !in left
      {
        var j :| 0 <= j <= 0 && raws[j] == PartitionEof(p);
      }
      assert left == {};
    } else {
      var p :| p in awaited && !exists j :: 0 <= j <= 0 && raws[j] == PartitionEof(p);
      assert raws[0] != PartitionEof(p);
    }
  }

  /**
    The loop stopped at turn n, or read the whole script if n is its length: n is
    the first turn with a reason to end, and what has been delivered, announced
    and concluded is what the events up to there make it.
   */
  ghost predicate WarmExit<K, V>(
    b: Binding<K, V>, bounded: bool, l: Reading<K, V>, script: seq<Tick>, n: nat, l': Reading<K, V>, v: Verdict)
  {
    var raws := Heard(l.topic, Turns(script));
    n <= |script| &&
    var polls := if n < |script| && script[n].ctx.None? then n + 1 else n;
    && (forall i: nat | i < n :: !WarmEnds(l.remaining, script, raws, i))
    && (n < |script| ==> WarmEnds(l.remaining, script, raws, n))
    && v == (if n == |script| then Again
             else Finish(WarmVerdict(bounded, b.allowEmpty, script[n], raws[n], l'.ledger.warmupApplied)))
    && l'.delivered == l.delivered + Messages(raws[..polls])
    && l'.ledger.phase == (if v == Finish(None) then Steady else l.ledger.phase)
    && Asides(l'.ledger.notices) == Asides(l.ledger.notices) + Errors(raws[..polls])
         + if v == Finish(None) then [OnPhase(l'.ledger.warmupApplied)] else []
  }

  /**
    Warm-up, exactly. It runs until the first turn at which the context is done,
    the poll answers a fatal error, or every awaited partition has reported its
    end; in that order they decide how it ends. Until then it delivers every
    record, and tells the observer of every error, that the broker answers with;
    a success, and nothing else, makes the phase steady and is announced.
   */
  lemma {:induction false} WarmLoopExact<K, V>(b: Binding<K, V>, bounded: bool, l: Reading<K, V>, script: seq<Tick>)
    returns (n: nat)
    ensures WarmExit(b, bounded, l, script, n, WarmLoop(b, bounded, l, script).0, WarmLoop(b, bounded, l, script).1)
    decreases |script|
  {
    hide Poll, Handle, WarmExit;
    if script == [] || script[0].ctx.Some? {
      n := 0;
      UnpolledExit(b, bounded, l, script);
    } else {
      var (polled, ev) := Poll(l, script[0].turn);
      var (next, v) := Handle(b, polled, ev);
      if v.Again? {
        n := WarmLoopExact(b, bounded, next, script[1..]);
        var (l', v') := WarmLoop(b, bounded, next, script[1..]);
        LaterExit(b, bounded, l, script, n, l', v');
        n := n + 1;
      } else {
        n := 0;
        FirstExit(b, bounded, l, script);
      }
    }
  }

  lemma UnpolledExit<K, V>(b: Binding<K, V>, bounded: bool, l: Reading<K, V>, script: seq<Tick>)
    requires script == [] || script[0].ctx.Some?
    ensures WarmExit(b, bounded, l, script, 0, WarmLoop(b, bounded, l, script).0, WarmLoop(b, bounded, l, script).1)
  {
    hide Heard, Messages, Errors, Asides, ReadToTheEnd, Poll, Handle;
    TakeNone<K>(Heard(l.topic, Turns(script)));
  }

  lemma FirstExit<K, V>(b: Binding<K, V>, bounded: bool, l: Reading<K, V>, script: seq<Tick>)
    requires script != [] && script[0].ctx.None?
    requires Handle(b, Poll(l, script[0].turn).0, Poll(l, script[0].turn).1).1.Finish?
    ensures var (l', v) := Handle(b, Poll(l, script[0].turn).0, Poll(l, script[0].turn).1);
      WarmExit(b, bounded, l, script, 0, l', v)
  {
    hide Heard, Messages, Errors, Asides, ReadToTheEnd, Poll, Handle, NativePoll;
    var raws := Heard(l.topic, Turns(script));
    HeardFirst(l.topic, Turns(script));
    WarmTurn(b, l, script[0].turn);
    EndsNow(l.remaining, raws);
    assert raws[..1] == [raws[0]];
  }

  /** Putting the first turn, which gave no reason to end, before the rest. */
  lemma LaterExit<K, V>(
    b: Binding<K, V>, bounded: bool, l: Reading<K, V>, script: seq<Tick>, n: nat, l': Reading<K, V>, v: Verdict)
    requires script != [] && script[0].ctx.None?
    requires Handle(b, Poll(l, script[0].turn).0, Poll(l, script[0].turn).1).1.Again?
    requires WarmExit(b, bounded, Handle(b, Poll(l, script[0].turn).0, Poll(l, script[0].turn).1).0, script[1..], n, l', v)
    ensures WarmExit(b, bounded, l, script, n + 1, l', v)
  {
    hide Heard, Messages, Errors, Asides, ReadToTheEnd, WarmEnds, Poll, Handle, NativePoll, WarmVerdict;
    var next := Handle(b, Poll(l, script[0].turn).0, Poll(l, script[0].turn).1).0;
    var raws := Heard(l.topic, Turns(script));
    HeardFirst(l.topic, Turns(script));
    assert Turns(script)[1..] == Turns(script[1..]);
    WarmTurn(b, l, script[0].turn);
    NoReasonYet(l.remaining, script, raws);
    LaterReasons(l.remaining, script, raws, n);
    TakeFirst<K>(raws, if n < |script[1..]| && script[1..][n].ctx.None? then n + 1 else n);
  }

  lemma NoReasonYet(awaited: set<Partition>, script: seq<Tick>, raws: seq<RawEvent>)
    requires 0 < |script| == |raws| && script[0].ctx.None? && !FatalError(raws[0])
    requires (if raws[0].PartitionEof? then awaited - {raws[0].partition} else awaited) != {}
    ensures !WarmEnds(awaited, script, raws, 0)
  {
    hide ReadToTheEnd;
    EndsNow(awaited, raws);
  }

  lemma LaterReasons(awaited: set<Partition>, script: seq<Tick>, raws: seq<RawEvent>, n: nat)
    requires 0 < |script| == |raws| && n <= |script| - 1 && !WarmEnds(awaited, script, raws, 0)
    ensures var left := if raws[0].PartitionEof? then awaited - {raws[0].partition} else awaited;
      && ((forall i: nat | i < n :: !WarmEnds(left, script[1..], raws[1..], i)) ==>
            forall i: nat | i < n + 1 :: !WarmEnds(awaited, script, raws, i))
      && (n + 1 < |script| && WarmEnds(left, script[1..], raws[1..], n) ==> WarmEnds(awaited, script, raws, n + 1))
  {
    hide WarmEnds;
    var left := if raws[0].PartitionEof? then awaited - {raws[0].partition} else awaited;
    forall i: nat | i < |script| - 1
      ensures WarmEnds(awaited, script, raws, i + 1) <==> WarmEnds(left, script[1..], raws[1..], i)
    {
      WarmEndsLater(awaited, script, raws, i);
    }
    if forall i: nat | i < n :: !WarmEnds(left, script[1..], raws[1..], i) {
      forall i: nat | i < n + 1
        ensures !WarmEnds(awaited, script, raws, i)
      {
        if i > 0 {
          assert !WarmEnds(left, script[1..], raws[1..], i - 1);
        }
      }
    }
  }

  /** From assignment on, the count that decides emptiness is that of the upserts and tombstones delivered. */
  lemma AssignedExact<K, V>(b: Binding<K, V>, table: map<K, V>, bounded: bool, logs: Logs, script: seq<Tick>)
    returns (n: nat)
    requires WellFormed(logs) && ContextErrors(script)
    ensures var l := Assigned(logs, Opened(table));
      var (l', v) := WarmLoop(b, bounded, l, script);
      && WarmExit(b, bounded, l, script, n, l', v)
      && l'.ledger.warmupApplied == |Places(b, l'.delivered, Upserted)| + |Places(b, l'.delivered, Deleted)|
  {
    hide WarmLoop, WarmExit, Warming, Sound, Complete, Places, Reported, Applied;
    var l := Assigned(logs, Opened(table));
    n := WarmLoopExact(b, bounded, l, script);
    AssignedWarms(b, logs, table);
    assert l.delivered == [];
    WarmLoopLeaves(b, table, bounded, l, script);
    var (l', v) := WarmLoop(b, bounded, l, script);
    assert Sound(b, table, l', l'.delivered) && (l'.ledger.phase.Warmup? || l'.ledger.warmupApplied == Applied(b, l'.delivered)) by {
      if v.Again? {
        WarmingIsSound(b, table, l');
      }
    }
    AppliedPlaces(b, table, l');
  }

  lemma WarmingIsSound<K, V>(b: Binding<K, V>, start: map<K, V>, l: Reading<K, V>)
    requires Warming(b, start, l, l.delivered)
    ensures Sound(b, start, l, l.delivered) && l.ledger.phase.Warmup?
  {
    hide Sound, Punctual, Caught;
  }

  lemma AppliedPlaces<K, V>(b: Binding<K, V>, start: map<K, V>, l: Reading<K, V>)
    requires Sound(b, start, l, l.delivered)
    requires l.ledger.phase.Warmup? || l.ledger.warmupApplied == Applied(b, l.delivered)
    ensures l.ledger.warmupApplied == |Places(b, l.delivered, Upserted)| + |Places(b, l.delivered, Deleted)|
  {
    hide Tracks, Balanced, Tally, Places;
    if l.ledger.phase.Warmup? {
      WarmApplied(b, start, l.ledger, l.delivered);
    }
    TallyExact(b, l.delivered, Upserted);
    TallyExact(b, l.delivered, Deleted);
  }

  // Failures that are not fatal.

  function Quietened(turn: Turn): Turn {
    if turn.answer.Break? && !turn.answer.fatal then turn.(answer := Quiet) else turn
  }

  /** The script with every turn that answers a non-fatal failure made quiet. */
  function Quieten(script: seq<Tick>): (r: seq<Tick>)
    ensures |r| == |script|
  {
    seq(|script|, i requires 0 <= i < |script| => script[i].(turn := Quietened(script[i].turn)))
  }

  /** The same but for what the observer has heard. */
  function Unheard<K, V>(l: Reading<K, V>): Reading<K, V> {
    l.(ledger := l.ledger.(notices := []))
  }

  lemma EnterUnheard<K, V>(b: Binding<K, V>, l: Ledger<K, V>, k: Ledger<K, V>, rec: Record)
    requires l.(notices := []) == k.(notices := [])
    ensures Enter(b, l, rec).(notices := []) == Enter(b, k, rec).(notices := [])
  {
    hide EffectOf, Change, Clashed, Report;
  }

  lemma AbsorbUnheard<K, V>(b: Binding<K, V>, l: Reading<K, V>, k: Reading<K, V>, rec: Record)
    requires Unheard(l) == Unheard(k)
    ensures Unheard(Absorb(b, l, rec)) == Unheard(Absorb(b, k, rec))
  {
    hide Enter;
    EnterUnheard(b, l.ledger, k.ledger, rec);
  }

  lemma ConcludeUnheard<K, V>(b: Binding<K, V>, l: Reading<K, V>, k: Reading<K, V>)
    requires Unheard(l) == Unheard(k)
    ensures Unheard(Conclude(b, l).0) == Unheard(Conclude(b, k).0) && Conclude(b, l).1 == Conclude(b, k).1
  {
  }

  lemma HandleUnheard<K, V>(b: Binding<K, V>, l: Reading<K, V>, k: Reading<K, V>, ev: Event)
    requires Unheard(l) == Unheard(k)
    ensures Unheard(Handle(b, l, ev).0) == Unheard(Handle(b, k, ev).0) && Handle(b, l, ev).1 == Handle(b, k, ev).1
  {
    hide Absorb, Conclude;
    var heard := if ev.Failure? then Notified(l, OnKafkaError(ev.error)) else l;
    var heard' := if ev.Failure? then Notified(k, OnKafkaError(ev.error)) else k;
    if ev.Received? {
      AbsorbUnheard(b, heard, heard', ev.rec);
    }
    var absorbed := if ev.Received? then Absorb(b, heard, ev.rec) else heard;
    var absorbed' := if ev.Received? then Absorb(b, heard', ev.rec) else heard';
    assert Unheard(absorbed) == Unheard(absorbed');
    var left := Awaited(l.remaining, ev);
    ConcludeUnheard(b, absorbed.(remaining := left), absorbed'.(remaining := left));
  }

  lemma QuietTurn<K, V>(b: Binding<K, V>, l: Reading<K, V>, k: Reading<K, V>, turn: Turn)
    requires Unheard(l) == Unheard(k)
    ensures var (p, ev) := Poll(l, turn);
      var (q, ev') := Poll(k, Quietened(turn));
      var (next, v) := Handle(b, p, ev);
      var (next', v') := Handle(b, q, ev');
      Unheard(next) == Unheard(next') && v == v'
  {
    hide Arrive, Absorb, Handle;
    var (p, ev) := Poll(l, turn);
    var (q, ev') := Poll(k, Quietened(turn));
    assert Unheard(p) == Unheard(q);
    HandleUnheard(b, p, q, ev');
    if Quietened(turn) != turn {
      assert ev.Failure? && !ev.fatal && ev' == Idle;
      FailureIsIdle(b, p, ev);
    }
  }

  lemma FailureIsIdle<K, V>(b: Binding<K, V>, l: Reading<K, V>, ev: Event)
    requires ev.Failure? && !ev.fatal
    ensures Unheard(Handle(b, l, ev).0) == Unheard(Handle(b, l, Idle).0) && Handle(b, l, ev).1 == Handle(b, l, Idle).1
  {
  }

  /** Non-fatal failures change nothing but what the observer hears: warm-up ends as if those turns had been quiet. */
  lemma {:induction false} FailuresAreQuiet<K, V>(
    b: Binding<K, V>, bounded: bool, l: Reading<K, V>, k: Reading<K, V>, script: seq<Tick>)
    requires Unheard(l) == Unheard(k)
    ensures var (l', v) := WarmLoop(b, bounded, l, script);
      var (k', v') := WarmLoop(b, bounded, k, Quieten(script));
      v == v' && Unheard(l') == Unheard(k')
    decreases |script|
  {
    hide Poll, Handle;
    if script != [] && script[0].ctx.None? {
      assert Quieten(script)[1..] == Quieten(script[1..]);
      QuietTurn(b, l, k, script[0].turn);
      var (p, ev) := Poll(l, script[0].turn);
      var (q, ev') := Poll(k, Quietened(script[0].turn));
      if Handle(b, p, ev).1.Again? {
        FailuresAreQuiet(b, bounded, Handle(b, p, ev).0, Handle(b, q, ev').0, script[1..]);
      }
    }
  }

  // Serving.

  /** Serving has a reason to end at turn i. */
  predicate ServeEnds(script: seq<ServeTick>, raws: seq<RawEvent>, i: nat)
    requires i < |script| == |raws|
  {
    script[i].ctx.Some? || script[i].rival.Some? || FatalError(raws[i])
  }

  /** The error that turn i makes the loader record, if any. */
  function Recorded(tick: ServeTick, raw: RawEvent): Option<Error> {
    if tick.rival.Some? then tick.rival
    else if tick.ctx.None? && FatalError(raw) then Some(KafkaFailure(raw.code))
    else None
  }

  /**
    Serving stopped at turn n, or read the whole script if n is its length: n is
    the first turn with a reason to end; every record up to there was delivered
    and every error told to the observer; and the loader's error and the handler's
    calls are those of the turn that ended it.
   */
  ghost predicate ServeExit<K, V>(
    hasHandler: bool, l: Reading<K, V>, o: Outcome, script: seq<ServeTick>, n: nat,
    l': Reading<K, V>, o': Outcome, ended: bool)
  {
    var raws := Heard(l.topic, ServeTurns(script));
    n <= |script| &&
    var polls := if n < |script| && script[n].ctx.None? && script[n].rival.None? then n + 1 else n;
    var error := if n < |script| then Recorded(script[n], raws[n]) else None;
    && (ended <==> n < |script|)
    && (forall i: nat | i < n :: !ServeEnds(script, raws, i))
    && (n < |script| ==> ServeEnds(script, raws, n))
    && l'.delivered == l.delivered + Messages(raws[..polls])
    && Asides(l'.ledger.notices) == Asides(l.ledger.notices) + Errors(raws[..polls])
    && o' == match error
             case None => o
             case Some(e) => Outcome(error, if hasHandler then o.calls + [e] else o.calls)
  }

  lemma ServeTurn<K, V>(b: Binding<K, V>, l: Reading<K, V>, turn: Turn)
    ensures var (topic, raw) := NativePoll(l.topic, turn);
      var (polled, ev) := Poll(l, turn);
      var next := Serve(b, polled, ev);
      && next.topic == topic
      && next.delivered == l.delivered + Messages([raw])
      && (Kills(ev) <==> FatalError(raw))
      && (Kills(ev) ==> ev.error == KafkaFailure(raw.code))
      && Asides(next.ledger.notices) == Asides(l.ledger.notices) + Errors([raw])
  {
    hide NativePoll, Asides, Enter;
    var (topic, raw) := NativePoll(l.topic, turn);
    var (polled, ev) := Poll(l, turn);
    assert [raw][1..] == [];
    assert Messages([]) == [] && Errors<K>([]) == [];
    match ev
    case Received(rec) => EnterAsides(b, polled.ledger, rec);
    case Failure(error, _) => AsidesAppend(polled.ledger.notices, OnKafkaError(error));
    case Eof(_) =>
    case Idle =>
  }

  /**
    Serving, exactly: while no error is recorded it runs until the first turn at
    which the context is done, another binding has died, or the poll answers a
    fatal error; without any of those it reads on.
   */
  lemma {:induction false} ServeLoopExact<K, V>(
    b: Binding<K, V>, hasHandler: bool, l: Reading<K, V>, o: Outcome, script: seq<ServeTick>)
    returns (n: nat)
    requires o.err.None?
    ensures var (l', o', ended) := ServeLoop(b, hasHandler, l, o, script);
      ServeExit(hasHandler, l, o, script, n, l', o', ended)
    decreases |script|
  {
    hide Poll, Serve, ServeExit, Kills;
    if script == [] || script[0].ctx.Some? || script[0].rival.Some? {
      n := 0;
      UnpolledServeExit(b, hasHandler, l, o, script);
    } else {
      var (polled, ev) := Poll(l, script[0].turn);
      if Kills(ev) {
        n := 0;
        FirstServeExit(b, hasHandler, l, o, script);
      } else {
        var next := Serve(b, polled, ev);
        n := ServeLoopExact(b, hasHandler, next, o, script[1..]);
        var (l', o', ended) := ServeLoop(b, hasHandler, next, o, script[1..]);
        LaterServeExit(b, hasHandler, l, o, script, n, l', o', ended);
        n := n + 1;
      }
    }
  }

  /** A serving goroutine that finds an error recorded ends without another poll. */
  lemma RecordedEndsServing<K, V>(
    b: Binding<K, V>, hasHandler: bool, l: Reading<K, V>, o: Outcome, script: seq<ServeTick>)
    requires o.err.Some? && script != []
    ensures ServeLoop(b, hasHandler, l, o, script) == (l, o, true)
  {
  }

  lemma UnpolledServeExit<K, V>(
    b: Binding<K, V>, hasHandler: bool, l: Reading<K, V>, o: Outcome, script: seq<ServeTick>)
    requires o.err.None? && (script == [] || script[0].ctx.Some? || script[0].rival.Some?)
    ensures var (l', o', ended) := ServeLoop(b, hasHandler, l, o, script);
      ServeExit(hasHandler, l, o, script, 0, l', o', ended)
  {
    hide Heard, Messages, Errors, Asides, Poll, Serve;
    TakeNone<K>(Heard(l.topic, ServeTurns(script)));
  }

  lemma FirstServeExit<K, V>(
    b: Binding<K, V>, hasHandler: bool, l: Reading<K, V>, o: Outcome, script: seq<ServeTick>)
    requires o.err.None? && script != [] && script[0].ctx.None? && script[0].rival.None?
    requires Kills(Poll(l, script[0].turn).1)
    ensures var (l', o', ended) := ServeLoop(b, hasHandler, l, o, script);
      ServeExit(hasHandler, l, o, script, 0, l', o', ended)
  {
    hide Heard, Messages, Errors, Asides, Poll, Serve, NativePoll, Kills;
    var raws := Heard(l.topic, ServeTurns(script));
    HeardFirst(l.topic, ServeTurns(script));
    ServeTurn(b, l, script[0].turn);
    assert raws[..1] == [raws[0]];
  }

  lemma LaterServeExit<K, V>(
    b: Binding<K, V>, hasHandler: bool, l: Reading<K, V>, o: Outcome, script: seq<ServeTick>, n: nat,
    l': Reading<K, V>, o': Outcome, ended: bool)
    requires script != [] && script[0].ctx.None? && script[0].rival.None?
    requires !Kills(Poll(l, script[0].turn).1)
    requires var next := Serve(b, Poll(l, script[0].turn).0, Poll(l, script[0].turn).1);
      ServeExit(hasHandler, next, o, script[1..], n, l', o', ended)
    ensures ServeExit(hasHandler, l, o, script, n + 1, l', o', ended)
  {
    hide Heard, Messages, Errors, Asides, Poll, Serve, NativePoll, Kills, Recorded;
    var raws := Heard(l.topic, ServeTurns(script));
    HeardFirst(l.topic, ServeTurns(script));
    assert ServeTurns(script)[1..] == ServeTurns(script[1..]);
    ServeTurn(b, l, script[0].turn);
    forall i: nat | i < n + 1
      ensures !ServeEnds(script, raws, i)
    {
      if i > 0 {
        assert !ServeEnds(script[1..], raws[1..], i - 1);
      }
    }
    var rest := script[1..];
    TakeFirst<K>(raws, if n < |rest| && rest[n].ctx.None? && rest[n].rival.None? then n + 1 else n);
  }
}
