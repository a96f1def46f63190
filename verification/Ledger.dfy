/**
  The state of one registration as a value: the table, the counters, the phase
  and everything reported to the observer so far.
 */
module Ledger {
  import opened Wrappers
  import opened Kafka
  import opened Events
  import opened Replay

  datatype Phase = Warmup | Steady | Stopped

  datatype Notice<+K> =
    | OnUpsert(warmup: bool)
    | OnDelete(warmup: bool)
    | OnFiltered
    | OnDecodeError(raw: Bytes)
    | OnKeyMismatch(fromKey: K, fromValue: K)
    | OnLoadProgress(applied: nat)
    | OnPhase(applied: nat)
    | OnKafkaError(error: Error)

  /** What a record is counted as. */
  datatype Heading = Upserted | Deleted | Filtered | Undecodable

  datatype Ledger<K, V> = Ledger(
    phase: Phase,
    table: map<K, V>,
    upserts: nat,
    deletes: nat,
    filtered: nat,
    decodeErrors: nat,
    warmupApplied: nat,
    notices: seq<Notice<K>>
  )

  function Opened<K, V>(table: map<K, V>): Ledger<K, V> {
    Ledger(Warmup, table, 0, 0, 0, 0, 0, [])
  }

  /** How many records have been entered, whatever became of them. */
  function Entered<K, V>(l: Ledger<K, V>): nat {
    l.upserts + l.deletes + l.filtered + l.decodeErrors
  }

  /** The pair of keys that disagree, when the binding asks for that check. */
  function KeyClash<K, V>(b: Binding<K, V>, rec: Record): Option<(K, K)> {
    if b.decodeKey(rec.key).None? || b.tombstone(rec.payload) || b.decodeValue(rec.payload).None? then None
    else
      var key := b.decodeKey(rec.key).value;
      var derived := UpsertKey(b, key, b.decodeValue(rec.payload).value);
      if b.keyFromValue.Some? && b.verifyKeyAgreement && derived != key then Some((key, derived)) else None
  }

  function Clashed<K, V>(b: Binding<K, V>, notices: seq<Notice<K>>, rec: Record): seq<Notice<K>> {
    var clash := KeyClash(b, rec);
    if clash.Some? then notices + [OnKeyMismatch(clash.value.0, clash.value.1)] else notices
  }

  function HeadingOf<K, V>(e: Effect<K, V>): Heading {
    match e
    case Upsert(_, _) => Upserted
    case Delete(_) => Deleted
    case Rejected => Filtered
    case BadKey => Undecodable
    case BadValue => Undecodable
  }

  /** What the effect adds to a counter. */
  function Adds<K, V>(e: Effect<K, V>, h: Heading): nat {
    if HeadingOf(e) == h then 1 else 0
  }

  function Report<K, V>(e: Effect<K, V>, rec: Record, warm: bool): Notice<K> {
    match e
    case Upsert(_, _) => OnUpsert(warm)
    case Delete(_) => OnDelete(warm)
    case Rejected => OnFiltered
    case BadKey => OnDecodeError(rec.key)
    case BadValue => OnDecodeError(rec.payload)
  }

  /** One record entered into the ledger. */
  function Enter<K, V>(b: Binding<K, V>, l: Ledger<K, V>, rec: Record): Ledger<K, V> {
    var e := EffectOf(b, rec);
    var warm := l.phase.Warmup?;
    Ledger(
      l.phase,
      Change(l.table, e),
      l.upserts + Adds(e, Upserted),
      l.deletes + Adds(e, Deleted),
      l.filtered + Adds(e, Filtered),
      l.decodeErrors + Adds(e, Undecodable),
      if warm && Effective(e) then l.warmupApplied + 1 else l.warmupApplied,
      Clashed(b, l.notices, rec) + [Report(e, rec, warm)])
  }

  lemma EnterCountsOne<K, V>(b: Binding<K, V>, l: Ledger<K, V>, rec: Record)
    ensures Entered(Enter(b, l, rec)) == Entered(l) + 1
  {
    hide EffectOf, Change, Clashed, Report;
  }

  /** How many of the records come under the heading. */
  function Tally<K, V>(b: Binding<K, V>, recs: seq<Record>, h: Heading): nat {
    if recs == [] then 0
    else Tally(b, recs[..|recs| - 1], h) + Adds(EffectOf(b, recs[|recs| - 1]), h)
  }

  /** How many of the records are upserts or tombstones. */
  function Applied<K, V>(b: Binding<K, V>, recs: seq<Record>): nat {
    Tally(b, recs, Upserted) + Tally(b, recs, Deleted)
  }

  /** The number of upserts and deletes reported as part of the initial read. */
  function FlaggedWarm<K>(notices: seq<Notice<K>>): nat {
    if notices == [] then 0
    else
      var last := notices[|notices| - 1];
      FlaggedWarm(notices[..|notices| - 1])
      + if (last.OnUpsert? || last.OnDelete?) && last.warmup then 1 else 0
  }

  /** The counters are those of the handled records. */
  ghost predicate Tallied<K, V>(b: Binding<K, V>, l: Ledger<K, V>, handled: seq<Record>) {
    && l.upserts == Tally(b, handled, Upserted)
    && l.deletes == Tally(b, handled, Deleted)
    && l.filtered == Tally(b, handled, Filtered)
    && l.decodeErrors == Tally(b, handled, Undecodable)
  }

  // What the observer hears, in terms of the binding's own functions.

  /** The record comes under the heading. */
  predicate Falls<K, V>(b: Binding<K, V>, rec: Record, h: Heading) {
    match h
    case Upserted => Decodes(b, rec) && Admits(b, rec)
    case Deleted => b.decodeKey(rec.key).Some? && b.tombstone(rec.payload)
    case Filtered => Decodes(b, rec) && !Admits(b, rec)
    case Undecodable => b.decodeKey(rec.key).None? || (!b.tombstone(rec.payload) && b.decodeValue(rec.payload).None?)
  }

  /** The call tells the observer what became of the record. */
  predicate Announces<K, V>(b: Binding<K, V>, rec: Record, n: Notice<K>) {
    match n
    case OnUpsert(_) => Falls(b, rec, Upserted)
    case OnDelete(_) => Falls(b, rec, Deleted)
    case OnFiltered => Falls(b, rec, Filtered)
    case OnDecodeError(raw) =>
      Falls(b, rec, Undecodable) && raw == if b.decodeKey(rec.key).None? then rec.key else rec.payload
    case _ => false
  }

  predicate IsOutcome<K>(n: Notice<K>) {
    n.OnUpsert? || n.OnDelete? || n.OnFiltered? || n.OnDecodeError?
  }

  /** The calls that tell what became of a record, in order. */
  function Outcomes<K>(notices: seq<Notice<K>>): seq<Notice<K>> {
    if notices == [] then []
    else
      var last, rest := notices[|notices| - 1], Outcomes(notices[..|notices| - 1]);
      if IsOutcome(last) then rest + [last] else rest
  }

  /** The reported pairs of disagreeing keys, in order. */
  function Mismatches<K>(notices: seq<Notice<K>>): seq<(K, K)> {
    if notices == [] then []
    else
      var last, rest := notices[|notices| - 1], Mismatches(notices[..|notices| - 1]);
      if last.OnKeyMismatch? then rest + [(last.fromKey, last.fromValue)] else rest
  }

  /** The binding asks for the check, and the record's own key is not the one its value goes under. */
  predicate Disagrees<K, V>(b: Binding<K, V>, rec: Record) {
    b.verifyKeyAgreement && Decodes(b, rec) && Some(FinalKey(b, rec)) != b.decodeKey(rec.key)
  }

  /** The record's own key and the final one, for each record on which they disagree. */
  function Disagreements<K, V>(b: Binding<K, V>, recs: seq<Record>): seq<(K, K)> {
    if recs == [] then []
    else
      var last, rest := recs[|recs| - 1], Disagreements(b, recs[..|recs| - 1]);
      if Disagrees(b, last) then rest + [(b.decodeKey(last.key).value, FinalKey(b, last))] else rest
  }

  /** The observer has heard of each handled record once, in order, and of each disagreement. */
  ghost predicate Observed<K, V>(b: Binding<K, V>, notices: seq<Notice<K>>, handled: seq<Record>) {
    && |Outcomes(notices)| == |handled|
    && (forall i | 0 <= i < |handled| :: Announces(b, handled[i], Outcomes(notices)[i]))
    && Mismatches(notices) == Disagreements(b, handled)
  }

  /** The ledger is what the handled records make of the starting table. */
  ghost predicate Balanced<K, V>(b: Binding<K, V>, start: map<K, V>, l: Ledger<K, V>, handled: seq<Record>) {
    && l.table == Fold(b, start, handled)
    && Tallied(b, l, handled)
    && (l.phase.Warmup? ==> l.warmupApplied == l.upserts + l.deletes)
    && FlaggedWarm(l.notices) == l.warmupApplied <= l.upserts + l.deletes
    && Observed(b, l.notices, handled)
  }

  /** The records that come under the heading, by their positions. */
  function Places<K, V>(b: Binding<K, V>, recs: seq<Record>, h: Heading): set<nat> {
    set i: nat | i < |recs| && Falls(b, recs[i], h)
  }

  lemma AddsMeans<K, V>(b: Binding<K, V>, rec: Record, h: Heading)
    ensures Adds(EffectOf(b, rec), h) == if Falls(b, rec, h) then 1 else 0
  {
  }

  lemma {:induction false} TallyExact<K, V>(b: Binding<K, V>, recs: seq<Record>, h: Heading)
    ensures Tally(b, recs, h) == |Places(b, recs, h)|
    decreases |recs|
  {
    hide EffectOf, Falls, Adds;
    if recs != [] {
      var n := |recs| - 1;
      TallyExact(b, recs[..n], h);
      AddsMeans(b, recs[n], h);
      var before := Places(b, recs[..n], h);
      assert Places(b, recs, h) == if Falls(b, recs[n], h) then before + {n} else before;
    }
  }

  /** Each counter is the number of handled records that come under its heading. */
  lemma CountersExact<K, V>(b: Binding<K, V>, start: map<K, V>, l: Ledger<K, V>, handled: seq<Record>)
    requires Balanced(b, start, l, handled)
    ensures l.upserts == |Places(b, handled, Upserted)|
    ensures l.deletes == |Places(b, handled, Deleted)|
    ensures l.filtered == |Places(b, handled, Filtered)|
    ensures l.decodeErrors == |Places(b, handled, Undecodable)|
  {
    hide Fold, Tally, Observed, FlaggedWarm, Places;
    TallyExact(b, handled, Upserted);
    TallyExact(b, handled, Deleted);
    TallyExact(b, handled, Filtered);
    TallyExact(b, handled, Undecodable);
  }

  lemma ObservedAppend<K>(notices: seq<Notice<K>>, n: Notice<K>)
    ensures Outcomes(notices + [n]) == if IsOutcome(n) then Outcomes(notices) + [n] else Outcomes(notices)
    ensures Mismatches(notices + [n]) ==
            if n.OnKeyMismatch? then Mismatches(notices) + [(n.fromKey, n.fromValue)] else Mismatches(notices)
  {
    assert (notices + [n])[..|notices|] == notices;
  }

  lemma ClashMeans<K, V>(b: Binding<K, V>, notices: seq<Notice<K>>, rec: Record)
    ensures Clashed(b, notices, rec) ==
            if Disagrees(b, rec) then notices + [OnKeyMismatch(b.decodeKey(rec.key).value, FinalKey(b, rec))] else notices
  {
  }

  lemma ReportMeans<K, V>(b: Binding<K, V>, rec: Record, warm: bool)
    ensures IsOutcome(Report(EffectOf(b, rec), rec, warm)) && Announces(b, rec, Report(EffectOf(b, rec), rec, warm))
  {
  }

  lemma EnterObserved<K, V>(b: Binding<K, V>, l: Ledger<K, V>, handled: seq<Record>, rec: Record)
    requires Observed(b, l.notices, handled)
    ensures Observed(b, Enter(b, l, rec).notices, handled + [rec])
  {
    hide EffectOf, Outcomes, Mismatches, Announces, IsOutcome, Report, Clashed, Adds, Change;
    ClashMeans(b, l.notices, rec);
    ReportMeans(b, rec, l.phase.Warmup?);
    var report := Report(EffectOf(b, rec), rec, l.phase.Warmup?);
    if Disagrees(b, rec) {
      ObservedAppend(l.notices, OnKeyMismatch(b.decodeKey(rec.key).value, FinalKey(b, rec)));
      NoMismatchIsOutcome<K>(b.decodeKey(rec.key).value, FinalKey(b, rec));
    }
    ObservedAppend(Clashed(b, l.notices, rec), report);
    OutcomeIsNoMismatch(report);
    assert (handled + [rec])[..|handled|] == handled;
  }

  lemma NoMismatchIsOutcome<K>(x: K, y: K)
    ensures !IsOutcome(OnKeyMismatch(x, y))
  {
  }

  lemma OutcomeIsNoMismatch<K>(n: Notice<K>)
    requires IsOutcome(n)
    ensures !n.OnKeyMismatch?
  {
  }

  /** Every record comes under exactly one heading. */
  lemma {:induction false} HeadingsPartition<K, V>(b: Binding<K, V>, recs: seq<Record>)
    ensures Tally(b, recs, Upserted) + Tally(b, recs, Deleted)
            + Tally(b, recs, Filtered) + Tally(b, recs, Undecodable) == |recs|
    decreases |recs|
  {
    if recs != [] {
      HeadingsPartition(b, recs[..|recs| - 1]);
    }
  }

  lemma FlaggedAppend<K>(notices: seq<Notice<K>>, n: Notice<K>)
    ensures FlaggedWarm(notices + [n]) ==
            FlaggedWarm(notices) + if (n.OnUpsert? || n.OnDelete?) && n.warmup then 1 else 0
  {
    assert (notices + [n])[..|notices|] == notices;
  }

  lemma TallyAppend<K, V>(b: Binding<K, V>, recs: seq<Record>, rec: Record, h: Heading)
    ensures Tally(b, recs + [rec], h) == Tally(b, recs, h) + Adds(EffectOf(b, rec), h)
  {
    assert (recs + [rec])[..|recs|] == recs;
  }

  lemma {:induction false} AppliedHasSource<K, V>(b: Binding<K, V>, recs: seq<Record>) returns (i: nat)
    requires Applied(b, recs) > 0
    ensures i < |recs| && Effective(EffectOf(b, recs[i]))
    decreases |recs|
  {
    var init, last := recs[..|recs| - 1], recs[|recs| - 1];
    if Effective(EffectOf(b, last)) {
      i := |recs| - 1;
    } else {
      i := AppliedHasSource(b, init);
    }
  }

  lemma {:induction false} SourceIsApplied<K, V>(b: Binding<K, V>, recs: seq<Record>, i: nat)
    requires i < |recs| && Effective(EffectOf(b, recs[i]))
    ensures Applied(b, recs) > 0
    decreases |recs|
  {
    if i < |recs| - 1 {
      SourceIsApplied(b, recs[..|recs| - 1], i);
    }
  }

  /** Nothing counts as applied exactly when no record is an upsert or a tombstone. */
  lemma NothingApplied<K, V>(b: Binding<K, V>, recs: seq<Record>)
    ensures Applied(b, recs) == 0 <==> forall i | 0 <= i < |recs| :: !Effective(EffectOf(b, recs[i]))
  {
    if Applied(b, recs) > 0 {
      var i := AppliedHasSource(b, recs);
    }
    forall i | 0 <= i < |recs| && Effective(EffectOf(b, recs[i]))
      ensures Applied(b, recs) > 0
    {
      SourceIsApplied(b, recs, i);
    }
  }

  lemma {:induction false} EnterFlags<K, V>(b: Binding<K, V>, l: Ledger<K, V>, rec: Record)
    ensures FlaggedWarm(Enter(b, l, rec).notices) ==
            FlaggedWarm(l.notices) + if l.phase.Warmup? && Effective(EffectOf(b, rec)) then 1 else 0
  {
    var clash := KeyClash(b, rec);
    if clash.Some? {
      FlaggedAppend(l.notices, OnKeyMismatch(clash.value.0, clash.value.1));
    }
    FlaggedAppend(Clashed(b, l.notices, rec), Report(EffectOf(b, rec), rec, l.phase.Warmup?));
  }

  /** Entering a record keeps the books balanced; once warm-up is over its count is frozen. */
  lemma {:induction false} EnterBalances<K, V>(
    b: Binding<K, V>, start: map<K, V>, l: Ledger<K, V>, handled: seq<Record>, rec: Record)
    requires Balanced(b, start, l, handled)
    ensures Balanced(b, start, Enter(b, l, rec), handled + [rec])
    ensures !l.phase.Warmup? ==> Enter(b, l, rec).warmupApplied == l.warmupApplied
  {
    hide Observed, EffectOf, Change, Clashed, Report, Fold, Tally, FlaggedWarm;
    EnterObserved(b, l, handled, rec);
    FoldAppend(b, start, handled, rec);
    forall h: Heading
      ensures Tally(b, handled + [rec], h) == Tally(b, handled, h) + Adds(EffectOf(b, rec), h)
    {
      TallyAppend(b, handled, rec, h);
    }
    EnterFlags(b, l, rec);
  }

  /** A notice that concerns no single record leaves the books balanced. */
  lemma NoticeBalances<K, V>(b: Binding<K, V>, start: map<K, V>, l: Ledger<K, V>, handled: seq<Record>, n: Notice<K>)
    requires Balanced(b, start, l, handled)
    requires !IsOutcome(n) && !n.OnKeyMismatch?
    ensures Balanced(b, start, l.(notices := l.notices + [n]), handled)
  {
    hide Announces;
    ObservedAppend(l.notices, n);
    FlaggedAppend(l.notices, n);
  }
}
