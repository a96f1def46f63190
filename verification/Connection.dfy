/**
  What the driver logs about its connection: one line when the broker is lost,
  one when it is back, and rationed lines in between.
 */
module Connection {
  import opened Wrappers
  import opened Kafka
  import opened Throttle

  datatype Line = Lost | StillUnreachable(suppressed: nat) | NonFatal(suppressed: nat) | FatalLine | Restored

  /** The driver's belief about the broker, and the ration of its error lines. */
  datatype Voice = Voice(connected: bool, ration: Ration)

  predicate Unreachable(code: ErrorCode) {
    code.Transport? || code.AllBrokersDown?
  }

  /** What one native event at time `now` makes the driver log. */
  function Hear(v: Voice, raw: RawEvent, now: int): (Voice, seq<Line>) {
    match raw
    case Message(_) => Answered(v)
    case PartitionEof(_) => Answered(v)
    case NoEvent => (v, [])
    case OtherEvent => (v, [])
    case KafkaError(code, fatal) =>
      if fatal then (v, [FatalLine])
      else if Unreachable(code) && v.connected then (v.(connected := false), [Lost])
      else
        var (ration, answer) := Ask(v.ration, now);
        (v.(ration := ration),
         if answer.None? then []
         else if Unreachable(code) then [StillUnreachable(answer.value)] else [NonFatal(answer.value)])
  }

  function Answered(v: Voice): (Voice, seq<Line>) {
    if v.connected then (v, []) else (Voice(true, Forget(v.ration)), [Restored])
  }

  datatype Heard = Heard(raw: RawEvent, now: int)

  /** The driver's log over a run of polls. */
  function HearAll(v: Voice, inputs: seq<Heard>): (Voice, seq<Line>) {
    if inputs == [] then (v, [])
    else
      var (v', lines) := HearAll(v, inputs[..|inputs| - 1]);
      var (v'', more) := Hear(v', inputs[|inputs| - 1].raw, inputs[|inputs| - 1].now);
      (v'', lines + more)
  }

  /** How many of the lines are of each kind. */
  datatype Census = Census(lost: nat, rationed: nat, restored: nat)

  function CountLine(c: Census, line: Line): Census {
    match line
    case Lost => c.(lost := c.lost + 1)
    case Restored => c.(restored := c.restored + 1)
    case StillUnreachable(_) => c.(rationed := c.rationed + 1)
    case NonFatal(_) => c.(rationed := c.rationed + 1)
    case FatalLine => c
  }

  function Count(lines: seq<Line>): Census {
    if lines == [] then Census(0, 0, 0) else CountLine(Count(lines[..|lines| - 1]), lines[|lines| - 1])
  }

  /** The lines that report a change of connection state. */
  function Changes(lines: seq<Line>): seq<Line> {
    if lines == [] then []
    else
      var line, rest := lines[|lines| - 1], Changes(lines[..|lines| - 1]);
      if line.Lost? || line.Restored? then rest + [line] else rest
  }

  ghost predicate Alternating(lines: seq<Line>) {
    forall i | 0 <= i < |lines| :: lines[i] == if i % 2 == 0 then Lost else Restored
  }

  lemma AppendLine(lines: seq<Line>, line: Line)
    ensures Count(lines + [line]) == CountLine(Count(lines), line)
    ensures Changes(lines + [line]) == if line.Lost? || line.Restored? then Changes(lines) + [line] else Changes(lines)
  {
    assert (lines + [line])[..|lines|] == lines;
  }

  ghost predicate Monotone(inputs: seq<Heard>) {
    forall i, j | 0 <= i <= j < |inputs| :: inputs[i].now <= inputs[j].now
  }

  /** Losses and recoveries alternate, and the belief about the broker is the last one logged. */
  ghost predicate InTurn(v: Voice, lines: seq<Line>) {
    var c := Count(lines);
    && Alternating(Changes(lines))
    && |Changes(lines)| == c.lost + c.restored
    && c.lost == c.restored + if v.connected then 0 else 1
  }

  lemma {:induction false} SpanAdds(n: nat, m: nat, every: int)
    ensures Span(n + m, every) == Span(n, every) + Span(m, every)
    decreases m
  {
    if m > 0 {
      SpanAdds(n, m - 1, every);
      assert n + m - 1 == n + (m - 1);
    }
  }

  lemma {:induction false} SpanGrows(n: nat, m: nat, every: int)
    requires every > 0 && n <= m
    ensures Span(n, every) <= Span(m, every)
    decreases m
  {
    if n < m {
      SpanGrows(n, m - 1, every);
    }
  }

  /** If n intervals take no longer than m of them and a further t, n exceeds m by at most the whole intervals in t. */
  lemma SpanFits(n: nat, m: nat, every: int, t: int, whole: nat)
    requires every > 0 && Span(n, every) <= Span(m, every) + t && t < Span(whole + 1, every)
    ensures n <= m + whole
  {
    if n > m + whole {
      SpanGrows(m + (whole + 1), n, every);
      SpanAdds(m, whole + 1, every);
    }
  }

  /**
    The rationed lines so far, for a clock that started at t0 and last showed
    `now`: at most one per interval and recovery, and one.
   */
  ghost predicate Rationed(r: Ration, c: Census, t0: int, now: int) {
    && r.every > 0
    && (match r.last
        case None => t0 <= now && Span(c.rationed, r.every) <= Span(c.restored, r.every) + now - t0
        case Some(last) =>
          t0 <= last <= now && Span(c.rationed, r.every) <= Span(c.restored, r.every) + r.every + last - t0)
  }

  ghost predicate Measured(v: Voice, lines: seq<Line>, t0: int, now: int) {
    InTurn(v, lines) && Rationed(v.ration, Count(lines), t0, now)
  }

  lemma AskRationed(r: Ration, c: Census, t0: int, now: int)
    requires Rationed(r, c, t0, now)
    ensures var (r', answer) := Ask(r, now);
      Rationed(r', if answer.None? then c else c.(rationed := c.rationed + 1), t0, now)
  {
  }

  lemma ForgetRationed(r: Ration, c: Census, t0: int, now: int)
    requires Rationed(r, c, t0, now)
    ensures Rationed(Forget(r), c.(restored := c.restored + 1), t0, now)
  {
  }

  lemma SameBelief(v: Voice, lines: seq<Line>, v': Voice)
    requires InTurn(v, lines) && v'.connected == v.connected
    ensures InTurn(v', lines)
  {
  }

  lemma LineInTurn(v: Voice, lines: seq<Line>, line: Line, v': Voice)
    requires InTurn(v, lines)
    requires line.Lost? ==> v.connected && !v'.connected
    requires line.Restored? ==> !v.connected && v'.connected
    requires !line.Lost? && !line.Restored? ==> v'.connected == v.connected
    ensures InTurn(v', lines + [line])
  {
    AppendLine(lines, line);
  }

  lemma HearInTurn(v: Voice, lines: seq<Line>, raw: RawEvent, now: int)
    requires InTurn(v, lines)
    ensures var (v', more) := Hear(v, raw, now);
      && |more| <= 1
      && InTurn(v', lines + more)
      && Count(lines + more) == if more == [] then Count(lines) else CountLine(Count(lines), more[0])
  {
    hide Ask, InTurn, Count, CountLine;
    var (v', more) := Hear(v, raw, now);
    if more == [] {
      assert lines + more == lines;
      assert InTurn(v', lines) by {
        SameBelief(v, lines, v');
      }
    } else {
      AppendLine(lines, more[0]);
      LineInTurn(v, lines, more[0], v');
      assert more == [more[0]];
    }
  }

  /** One more poll keeps the measure. */
  lemma HearMeasured(v: Voice, lines: seq<Line>, t0: int, before: int, raw: RawEvent, now: int)
    requires Measured(v, lines, t0, before) && before <= now
    ensures var (v', more) := Hear(v, raw, now);
      Measured(v', lines + more, t0, now) && v'.ration.every == v.ration.every
  {
    HearInTurn(v, lines, raw, now);
    AskRationed(v.ration, Count(lines), t0, now);
    ForgetRationed(v.ration, Count(lines), t0, now);
  }

  lemma {:induction false} HearAllMeasured(v: Voice, inputs: seq<Heard>)
    requires inputs != [] && Monotone(inputs)
    requires v == Voice(true, Ration(v.ration.every, None, 0)) && v.ration.every > 0
    ensures var (v', lines) := HearAll(v, inputs);
      Measured(v', lines, inputs[0].now, inputs[|inputs| - 1].now) && v'.ration.every == v.ration.every
    decreases |inputs|
  {
    var init, last := inputs[..|inputs| - 1], inputs[|inputs| - 1];
    if init == [] {
      assert HearAll(v, init) == (v, []);
      assert Measured(v, [], last.now, last.now);
      HearMeasured(v, [], last.now, last.now, last.raw, last.now);
    } else {
      HearAllMeasured(v, init);
      var (v', lines) := HearAll(v, init);
      HearMeasured(v', lines, inputs[0].now, init[|init| - 1].now, last.raw, last.now);
    }
  }

  /**
    Over any run of polls with a clock that never goes back: losses and
    recoveries are logged alternately, beginning with a loss, and r recoveries in
    a time that holds `whole` intervals go with at most whole + 2 (r + 1) warnings.
   */
  lemma LoggingIsBounded(every: int, inputs: seq<Heard>, whole: nat)
    requires every > 0 && inputs != [] && Monotone(inputs)
    requires inputs[|inputs| - 1].now - inputs[0].now < Span(whole + 1, every)
    ensures var lines := HearAll(Voice(true, Ration(every, None, 0)), inputs).1;
      var c := Count(lines);
      && Alternating(Changes(lines))
      && c.restored <= c.lost <= c.restored + 1
      && c.lost + c.rationed <= whole + 2 * (c.restored + 1)
  {
    hide Alternating, Changes, Count, HearAll;
    HearAllMeasured(Voice(true, Ration(every, None, 0)), inputs);
    var c := Count(HearAll(Voice(true, Ration(every, None, 0)), inputs).1);
    SpanFits(c.rationed, c.restored + 1, every, inputs[|inputs| - 1].now - inputs[0].now, whole);
  }

  // The bound is met, for every length of time and every number of recoveries:
  // losing the broker does not open the ration's window, so the very next error
  // is logged too, and then one for each interval.

  function Down(now: int): Heard {
    Heard(KafkaError(Transport, false), now)
  }

  /** At time 0, the broker is lost, fails once more and is back, r times. */
  function Outages(r: nat): (inputs: seq<Heard>)
    ensures forall i | 0 <= i < |inputs| :: inputs[i].now == 0
  {
    if r == 0 then [] else Outages(r - 1) + [Down(0)] + [Down(0)] + [Heard(PartitionEof(0), 0)]
  }

  /** And is then lost for good, failing once more at once and again after each of the intervals. */
  function Worst(r: nat, whole: nat, every: int): seq<Heard> {
    if whole == 0 then Outages(r) + [Down(0)] + [Down(0)]
    else Worst(r, whole - 1, every) + [Down(Span(whole, every))]
  }

  lemma NothingHeard(v: Voice)
    ensures HearAll(v, []) == (v, []) && Count([]) == Census(0, 0, 0)
  {
  }

  lemma {:induction false} OutagesHeard(r: nat, every: int)
    requires every > 0
    ensures var v := Voice(true, Ration(every, None, 0));
      var (v', lines) := HearAll(v, Outages(r));
      v' == v && Count(lines) == Census(r, r, r)
    decreases r
  {
    hide HearAll;
    var v := Voice(true, Ration(every, None, 0));
    if r == 0 {
      NothingHeard(v);
    } else {
      OutagesHeard(r - 1, every);
      LossHeard(v, Outages(r - 1), every);
      var inputs := Outages(r - 1) + [Down(0)] + [Down(0)];
      HearAllAppend(v, inputs, Heard(PartitionEof(0), 0));
      AppendLine(HearAll(v, inputs).1, Restored);
    }
  }

  /** Losing the broker and failing once more costs two lines, at whatever point. */
  lemma LossHeard(v: Voice, inputs: seq<Heard>, every: int)
    requires every > 0 && HearAll(v, inputs).0 == Voice(true, Ration(every, None, 0))
    ensures var lines := HearAll(v, inputs).1;
      HearAll(v, inputs + [Down(0)] + [Down(0)]) ==
      (Voice(false, Ration(every, Some(0), 0)), lines + [Lost] + [StillUnreachable(0)])
    ensures var lines := HearAll(v, inputs).1;
      Count(lines + [Lost] + [StillUnreachable(0)]) ==
      Count(lines).(lost := Count(lines).lost + 1, rationed := Count(lines).rationed + 1)
  {
    hide HearAll, Count;
    var lines := HearAll(v, inputs).1;
    HearAllAppend(v, inputs, Down(0));
    HearAllAppend(v, inputs + [Down(0)], Down(0));
    AppendLine(lines, Lost);
    AppendLine(lines + [Lost], StillUnreachable(0));
  }

  lemma {:induction false} WorstHeard(r: nat, whole: nat, every: int)
    requires every > 0
    ensures var v := Voice(true, Ration(every, None, 0));
      var (v', lines) := HearAll(v, Worst(r, whole, every));
      && v' == Voice(false, Ration(every, Some(Span(whole, every)), 0))
      && Count(lines) == Census(r + 1, r + 1 + whole, r)
    decreases whole
  {
    hide HearAll, Count, Outages;
    var v := Voice(true, Ration(every, None, 0));
    if whole == 0 {
      OutagesHeard(r, every);
      LossHeard(v, Outages(r), every);
    } else {
      WorstHeard(r, whole - 1, every);
      assert Worst(r, whole, every) == Worst(r, whole - 1, every) + [Down(Span(whole, every))];
      HearAllAppend(v, Worst(r, whole - 1, every), Down(Span(whole, every)));
      AppendLine(HearAll(v, Worst(r, whole - 1, every)).1, StillUnreachable(0));
    }
  }

  lemma {:induction false} WorstMonotone(r: nat, whole: nat, every: int)
    requires every > 0
    ensures var inputs := Worst(r, whole, every);
      && inputs != [] && Monotone(inputs)
      && inputs[0].now == 0 && inputs[|inputs| - 1].now == Span(whole, every)
    decreases whole
  {
    if whole > 0 {
      WorstMonotone(r, whole - 1, every);
    }
  }

  /** For every number of recoveries and of whole intervals some run of polls is as loud as the bound allows. */
  lemma BoundIsMet(every: int, r: nat, whole: nat)
    requires every > 0
    ensures var inputs := Worst(r, whole, every);
      var c := Count(HearAll(Voice(true, Ration(every, None, 0)), inputs).1);
      && inputs != [] && Monotone(inputs)
      && inputs[|inputs| - 1].now - inputs[0].now == Span(whole, every) < Span(whole + 1, every)
      && c.restored == r
      && c.lost + c.rationed == whole + 2 * (r + 1)
  {
    hide HearAll, Count, Worst;
    WorstHeard(r, whole, every);
    WorstMonotone(r, whole, every);
  }

  lemma HearAllAppend(v: Voice, inputs: seq<Heard>, next: Heard)
    ensures var (v', lines) := HearAll(v, inputs);
      var (v'', more) := Hear(v', next.raw, next.now);
      HearAll(v, inputs + [next]) == (v'', lines + more)
  {
    assert (inputs + [next])[..|inputs|] == inputs;
  }
}
