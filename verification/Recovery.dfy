/**
  What the driver says about its connection, line by line: stated over the run of
  native events, without its state. `i` is always the position of a poll.
 */
module Recovery {
  import opened Wrappers
  import opened Kafka
  import opened Throttle
  import opened Connection

  /** The broker answered. */
  predicate IsAnswer(raw: RawEvent) {
    raw.Message? || raw.PartitionEof?
  }

  /** librdkafka says that the broker cannot be reached, and is already retrying. */
  predicate IsOutage(raw: RawEvent) {
    raw.KafkaError? && !raw.fatal && (raw.code.Transport? || raw.code.AllBrokersDown?)
  }

  /** Some outage has not been followed by an answer before poll i. */
  ghost predicate LostBefore(inputs: seq<Heard>, i: nat)
    requires i <= |inputs|
  {
    exists j :: 0 <= j < i && IsOutage(inputs[j].raw) && forall k | j < k < i :: !IsAnswer(inputs[k].raw)
  }

  /** Poll i finds the broker lost that was not before. */
  ghost predicate Loses(inputs: seq<Heard>, i: nat)
    requires i < |inputs|
  {
    IsOutage(inputs[i].raw) && !LostBefore(inputs, i)
  }

  /** Poll i finds the broker back that was lost before. */
  ghost predicate Recovers(inputs: seq<Heard>, i: nat)
    requires i < |inputs|
  {
    IsAnswer(inputs[i].raw) && LostBefore(inputs, i)
  }

  /** Poll i answers a non-fatal error other than a loss: its line is rationed. */
  ghost predicate Rations(inputs: seq<Heard>, i: nat)
    requires i < |inputs|
  {
    inputs[i].raw.KafkaError? && !inputs[i].raw.fatal && !Loses(inputs, i)
  }

  function NewVoice(every: int): Voice {
    Voice(true, Ration(every, None, 0))
  }

  /** What the driver believes before poll i, and the lines that poll makes it log. */
  function VoiceAt(every: int, inputs: seq<Heard>, i: nat): Voice
    requires i <= |inputs|
  {
    HearAll(NewVoice(every), inputs[..i]).0
  }

  function LinesAt(every: int, inputs: seq<Heard>, i: nat): seq<Line>
    requires i < |inputs|
  {
    Hear(VoiceAt(every, inputs, i), inputs[i].raw, inputs[i].now).1
  }

  lemma OneMorePoll(every: int, inputs: seq<Heard>, i: nat)
    requires i < |inputs|
    ensures VoiceAt(every, inputs, i + 1) == Hear(VoiceAt(every, inputs, i), inputs[i].raw, inputs[i].now).0
    ensures HearAll(NewVoice(every), inputs[..i + 1]).1 == HearAll(NewVoice(every), inputs[..i]).1 + LinesAt(every, inputs, i)
  {
    hide Hear;
    assert inputs[..i + 1] == inputs[..i] + [inputs[i]];
    HearAllAppend(NewVoice(every), inputs[..i], inputs[i]);
  }

  lemma LostNext(inputs: seq<Heard>, i: nat)
    requires i < |inputs|
    ensures LostBefore(inputs, i + 1) <==> IsOutage(inputs[i].raw) || (LostBefore(inputs, i) && !IsAnswer(inputs[i].raw))
  {
    hide IsOutage, IsAnswer;
    if IsOutage(inputs[i].raw) {
      assert LostBefore(inputs, i + 1);
    } else if LostBefore(inputs, i) && !IsAnswer(inputs[i].raw) {
      var j :| 0 <= j < i && IsOutage(inputs[j].raw) && forall k | j < k < i :: !IsAnswer(inputs[k].raw);
      assert forall k | j < k < i + 1 :: !IsAnswer(inputs[k].raw);
    } else if LostBefore(inputs, i + 1) {
      var j :| 0 <= j < i + 1 && IsOutage(inputs[j].raw) && forall k | j < k < i + 1 :: !IsAnswer(inputs[k].raw);
    }
  }

  /** The driver believes the broker lost exactly when an outage has not been followed by an answer. */
  lemma {:induction false} BeliefExact(every: int, inputs: seq<Heard>, i: nat)
    requires i <= |inputs|
    ensures VoiceAt(every, inputs, i).connected <==> !LostBefore(inputs, i)
    ensures VoiceAt(every, inputs, i).ration.every == every
    decreases i
  {
    if i > 0 {
      BeliefExact(every, inputs, i - 1);
      OneMorePoll(every, inputs, i - 1);
      LostNext(inputs, i - 1);
      BeliefStep(VoiceAt(every, inputs, i - 1), inputs[i - 1].raw, inputs[i - 1].now);
    }
  }

  lemma BeliefStep(v: Voice, raw: RawEvent, now: int)
    ensures Hear(v, raw, now).0.connected <==> !IsOutage(raw) && (v.connected || IsAnswer(raw))
    ensures Hear(v, raw, now).0.ration.every == v.ration.every
  {
  }

  /** A rationed line is the only one that may be withheld. */
  lemma LineKinds(every: int, inputs: seq<Heard>, i: nat)
    requires i < |inputs|
    ensures var raw, lines := inputs[i].raw, LinesAt(every, inputs, i);
      if raw.KafkaError? && raw.fatal then lines == [FatalLine]
      else if Loses(inputs, i) then lines == [Lost]
      else if Recovers(inputs, i) then lines == [Restored]
      else if Rations(inputs, i) then
        lines == [] || (|lines| == 1 && if IsOutage(raw) then lines[0].StillUnreachable? else lines[0].NonFatal?)
      else lines == []
  {
    hide LostBefore;
    BeliefExact(every, inputs, i);
  }

  // Counting lines.

  lemma {:induction false} CountConcat(lines: seq<Line>, more: seq<Line>)
    requires |more| <= 1
    ensures Count(lines + more) == if more == [] then Count(lines) else CountLine(Count(lines), more[0])
  {
    if more == [] {
      assert lines + more == lines;
    } else {
      AppendLine(lines, more[0]);
      assert more == [more[0]];
    }
  }

  ghost function LossesBefore(inputs: seq<Heard>, i: nat): set<nat>
    requires i <= |inputs|
  {
    set j: nat | j < i && Loses(inputs, j)
  }

  ghost function RecoveriesBefore(inputs: seq<Heard>, i: nat): set<nat>
    requires i <= |inputs|
  {
    set j: nat | j < i && Recovers(inputs, j)
  }

  lemma LineCounts(every: int, inputs: seq<Heard>, i: nat)
    requires i < |inputs|
    ensures var lines := LinesAt(every, inputs, i);
      && |lines| <= 1
      && (lines == [Lost] <==> Loses(inputs, i))
      && (lines == [Restored] <==> Recovers(inputs, i))
  {
    hide Ask, LostBefore;
    BeliefExact(every, inputs, i);
  }

  lemma LossesNext(inputs: seq<Heard>, i: nat)
    requires i < |inputs|
    ensures |LossesBefore(inputs, i + 1)| == |LossesBefore(inputs, i)| + if Loses(inputs, i) then 1 else 0
  {
    hide Loses;
    var losses := LossesBefore(inputs, i);
    assert LossesBefore(inputs, i + 1) == if Loses(inputs, i) then losses + {i} else losses;
  }

  lemma RecoveriesNext(inputs: seq<Heard>, i: nat)
    requires i < |inputs|
    ensures |RecoveriesBefore(inputs, i + 1)| == |RecoveriesBefore(inputs, i)| + if Recovers(inputs, i) then 1 else 0
  {
    hide Recovers;
    var recoveries := RecoveriesBefore(inputs, i);
    assert RecoveriesBefore(inputs, i + 1) == if Recovers(inputs, i) then recoveries + {i} else recoveries;
  }

  lemma NoneBefore(inputs: seq<Heard>)
    ensures LossesBefore(inputs, 0) == {} && RecoveriesBefore(inputs, 0) == {}
  {
    hide Loses, Recovers;
  }

  lemma {:induction false} CountsBefore(every: int, inputs: seq<Heard>, i: nat)
    requires i <= |inputs|
    ensures var c := Count(HearAll(NewVoice(every), inputs[..i]).1);
      c.lost == |LossesBefore(inputs, i)| && c.restored == |RecoveriesBefore(inputs, i)|
    decreases i
  {
    hide Loses, Recovers, Hear, HearAll, Count, LinesAt, VoiceAt, LossesBefore, RecoveriesBefore;
    if i == 0 {
      NothingHeard(NewVoice(every));
      NoneBefore(inputs);
      assert inputs[..0] == [];
    } else {
      var n := i - 1;
      CountsBefore(every, inputs, n);
      OneMorePoll(every, inputs, n);
      LineCounts(every, inputs, n);
      CountConcat(HearAll(NewVoice(every), inputs[..n]).1, LinesAt(every, inputs, n));
      LossesNext(inputs, n);
      RecoveriesNext(inputs, n);
    }
  }

  /**
    Over any run of polls: at the end the driver believes the broker lost exactly
    when an outage has not been followed by an answer; it has logged one "lost"
    for each outage that was not already known, and one "restored" for each
    answer that follows an outage.
   */
  lemma RecoveryExact(every: int, inputs: seq<Heard>)
    ensures var (v, lines) := HearAll(NewVoice(every), inputs);
      && (v.connected <==> !LostBefore(inputs, |inputs|))
      && Count(lines).lost == |LossesBefore(inputs, |inputs|)|
      && Count(lines).restored == |RecoveriesBefore(inputs, |inputs|)|
  {
    hide HearAll, Count;
    assert inputs[..|inputs|] == inputs;
    BeliefExact(every, inputs, |inputs|);
    CountsBefore(every, inputs, |inputs|);
  }

  // The ration, over the run.

  /** The poll logged a rationed line. */
  ghost predicate Said(every: int, inputs: seq<Heard>, i: nat)
    requires i < |inputs|
  {
    var lines := LinesAt(every, inputs, i);
    lines != [] && (lines[0].StillUnreachable? || lines[0].NonFatal?)
  }

  /** Nothing between polls j and i logged a rationed line or found the broker back. */
  ghost predicate Unbroken(every: int, inputs: seq<Heard>, j: nat, i: nat)
    requires i <= |inputs|
  {
    forall k: nat | j < k < i :: !Said(every, inputs, k) && !Recovers(inputs, k)
  }

  /** Poll j logged the last rationed line before poll i, and no recovery has come since. */
  ghost predicate LastSaid(every: int, inputs: seq<Heard>, j: nat, i: nat)
    requires i <= |inputs|
  {
    j < i && Said(every, inputs, j) && Unbroken(every, inputs, j, i)
  }

  /** The polls before i whose lines the ration withheld, since the last rationed line or recovery. */
  ghost function Withheld(every: int, inputs: seq<Heard>, i: nat): set<nat>
    requires i <= |inputs|
  {
    set j: nat | j < i && Rations(inputs, j) && !Said(every, inputs, j) && Unbroken(every, inputs, j, i)
  }

  ghost predicate RationAt(every: int, inputs: seq<Heard>, i: nat)
    requires i <= |inputs|
  {
    var r := VoiceAt(every, inputs, i).ration;
    && r.suppressed == |Withheld(every, inputs, i)|
    && match r.last
       case None => forall j: nat | j < i :: !LastSaid(every, inputs, j, i)
       case Some(t) => exists j: nat :: j < i && LastSaid(every, inputs, j, i) && inputs[j].now == t
  }

  lemma UnbrokenNext(every: int, inputs: seq<Heard>, j: nat, i: nat)
    requires i < |inputs| && j < i
    ensures Unbroken(every, inputs, j, i + 1) <==>
            Unbroken(every, inputs, j, i) && !Said(every, inputs, i) && !Recovers(inputs, i)
  {
    hide Said, Recovers;
  }

  /** How poll i changes the ration. */
  lemma RationStep(every: int, inputs: seq<Heard>, i: nat)
    requires i < |inputs|
    ensures var r, r' := VoiceAt(every, inputs, i).ration, VoiceAt(every, inputs, i + 1).ration;
      var now := inputs[i].now;
      if Recovers(inputs, i) then r' == Ration(every, None, 0) && !Said(every, inputs, i)
      else if Rations(inputs, i) then
        && (Said(every, inputs, i) <==> r.last.None? || now - r.last.value >= every)
        && r' == (if Said(every, inputs, i) then Ration(every, Some(now), 0) else r.(suppressed := r.suppressed + 1))
        && (Said(every, inputs, i) ==>
              LinesAt(every, inputs, i) ==
              [if IsOutage(inputs[i].raw) then StillUnreachable(r.suppressed) else NonFatal(r.suppressed)])
      else r' == r && !Said(every, inputs, i)
  {
    hide LostBefore, HearAll;
    BeliefExact(every, inputs, i);
    OneMorePoll(every, inputs, i);
  }

  lemma WithheldNext(every: int, inputs: seq<Heard>, i: nat)
    requires i < |inputs|
    ensures Withheld(every, inputs, i + 1) ==
            if Said(every, inputs, i) || Recovers(inputs, i) then {}
            else if Rations(inputs, i) then Withheld(every, inputs, i) + {i}
            else Withheld(every, inputs, i)
  {
    hide Said, Recovers, Rations, Unbroken, VoiceAt, LinesAt;
    forall j: nat | j < i
      ensures Unbroken(every, inputs, j, i + 1) <==>
              Unbroken(every, inputs, j, i) && !Said(every, inputs, i) && !Recovers(inputs, i)
    {
      UnbrokenNext(every, inputs, j, i);
    }
    NothingBetween(every, inputs, i);
    RationStep(every, inputs, i);
    RecoveryIsNotRationed(inputs, i);
    var now, next := Withheld(every, inputs, i), Withheld(every, inputs, i + 1);
    if Said(every, inputs, i) || Recovers(inputs, i) {
      forall j: nat | j < i + 1
        ensures j !in next
      {
        if j < i {
          UnbrokenNext(every, inputs, j, i);
        }
      }
      assert next == {};
    } else if Rations(inputs, i) {
      assert next == now + {i};
    } else {
      assert next == now;
    }
  }

  lemma NothingBetween(every: int, inputs: seq<Heard>, i: nat)
    requires i < |inputs|
    ensures Unbroken(every, inputs, i, i + 1)
  {
  }

  lemma RecoveryIsNotRationed(inputs: seq<Heard>, i: nat)
    requires i < |inputs|
    ensures !(Recovers(inputs, i) && Rations(inputs, i))
  {
  }

  lemma {:induction false} RationHolds(every: int, inputs: seq<Heard>, i: nat)
    requires i <= |inputs|
    ensures RationAt(every, inputs, i)
    decreases i
  {
    hide HearAll, Said, Recovers, Rations, Unbroken, Withheld, LinesAt;
    if i == 0 {
      assert inputs[..0] == [];
      NothingHeard(NewVoice(every));
      assert Withheld(every, inputs, 0) == {} by {
        NoneWithheld(every, inputs);
      }
    } else {
      RationHolds(every, inputs, i - 1);
      RationNext(every, inputs, i - 1);
    }
  }

  lemma NoneWithheld(every: int, inputs: seq<Heard>)
    ensures Withheld(every, inputs, 0) == {}
  {
  }

  lemma RationNext(every: int, inputs: seq<Heard>, i: nat)
    requires i < |inputs| && RationAt(every, inputs, i)
    ensures RationAt(every, inputs, i + 1)
  {
    hide Said, Recovers, Rations, LastSaid, Withheld, VoiceAt, LinesAt, IsOutage;
    RationStep(every, inputs, i);
    WithheldNext(every, inputs, i);
    FreshWithheld(every, inputs, i);
    RecoveryIsNotRationed(inputs, i);
    var last := VoiceAt(every, inputs, i).ration.last;
    if Said(every, inputs, i) {
      LastSaidLater(every, inputs, i, i);
    } else if last.Some? && !Recovers(inputs, i) {
      var j: nat :| j < i && LastSaid(every, inputs, j, i) && inputs[j].now == last.value;
      LastSaidLater(every, inputs, j, i);
    } else {
      var next := i + 1;
      forall j: nat | j < next
        ensures !LastSaid(every, inputs, j, next)
      {
        LastSaidLater(every, inputs, j, i);
      }
    }
  }

  lemma LastSaidLater(every: int, inputs: seq<Heard>, j: nat, i: nat)
    requires i < |inputs| && j <= i
    ensures LastSaid(every, inputs, j, i + 1) <==>
            if j == i then Said(every, inputs, i)
            else LastSaid(every, inputs, j, i) && !Said(every, inputs, i) && !Recovers(inputs, i)
  {
    hide Said, Recovers, Unbroken;
    NothingBetween(every, inputs, i);
    if j < i {
      UnbrokenNext(every, inputs, j, i);
    }
  }

  lemma FreshWithheld(every: int, inputs: seq<Heard>, i: nat)
    requires i < |inputs|
    ensures i !in Withheld(every, inputs, i)
  {
  }

  lemma LastIsUnique(every: int, inputs: seq<Heard>, j: nat, k: nat, i: nat)
    requires i <= |inputs| && LastSaid(every, inputs, j, i) && LastSaid(every, inputs, k, i)
    ensures j == k
  {
    hide Said, Recovers;
  }

  /** Whether the ration lets the line of poll i through. */
  ghost predicate Due(every: int, inputs: seq<Heard>, i: nat)
    requires i < |inputs|
  {
    forall j: nat | j < i && LastSaid(every, inputs, j, i) :: inputs[i].now - inputs[j].now >= every
  }

  lemma SaidWhenDue(every: int, inputs: seq<Heard>, i: nat)
    requires i < |inputs| && Rations(inputs, i)
    ensures Said(every, inputs, i) <==> Due(every, inputs, i)
  {
    hide Said, Recovers, Rations, LastSaid, VoiceAt, LinesAt, Withheld, IsOutage;
    RationHolds(every, inputs, i);
    RationStep(every, inputs, i);
    RecoveryIsNotRationed(inputs, i);
    var last := VoiceAt(every, inputs, i).ration.last;
    if last.Some? {
      var j: nat :| j < i && LastSaid(every, inputs, j, i) && inputs[j].now == last.value;
      forall k: nat | LastSaid(every, inputs, k, i)
        ensures k == j
      {
        LastIsUnique(every, inputs, j, k, i);
      }
    }
  }

  /**
    Line by line: a fatal error, a loss and a recovery are each logged at once.
    Any other error is logged, in the words that fit its code, exactly when the
    last such line, with no recovery since, is at least `every` old or there is
    none; and it counts the lines withheld since then, or since the last recovery.
    Nothing else is logged.
   */
  lemma LineExact(every: int, inputs: seq<Heard>, i: nat)
    requires i < |inputs|
    ensures var raw, lines, n := inputs[i].raw, LinesAt(every, inputs, i), |Withheld(every, inputs, i)|;
      if raw.KafkaError? && raw.fatal then lines == [FatalLine]
      else if Loses(inputs, i) then lines == [Lost]
      else if Recovers(inputs, i) then lines == [Restored]
      else if Rations(inputs, i) && Due(every, inputs, i) then
        lines == [if IsOutage(raw) then StillUnreachable(n) else NonFatal(n)]
      else lines == []
  {
    hide Recovers, Loses, Unbroken, Withheld, VoiceAt, Due, LinesAt;
    LineKinds(every, inputs, i);
    if Rations(inputs, i) {
      RecoveryIsNotRationed(inputs, i);
      RationHolds(every, inputs, i);
      RationStep(every, inputs, i);
      SaidWhenDue(every, inputs, i);
    }
  }
}
