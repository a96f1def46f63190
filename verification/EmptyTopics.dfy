/**
  What "empty" means to a loader: topics of one record, on both sides of the line.
 */
module EmptyTopics {
  import opened Wrappers
  import opened Kafka
  import opened Events
  import opened Replay
  import opened Ledger
  import opened Warmup
  import opened Compaction

  /** A topic that holds one record, delivers it and reports its end. */
  function OneRecordRun<K, V>(b: Binding<K, V>, rec: Record): (Reading<K, V>, Verdict) {
    var script := [
      Tick(None, Turn([], Deliver(rec.partition)), 0),
      Tick(None, Turn([], ReportEnd(rec.partition)), 0)];
    WarmLoop(b, false, Assigned(map[rec.partition := [rec]], Opened(map[])), script)
  }

  /** A binding that wants a topic accepts a single record exactly when it is an upsert or a tombstone. */
  lemma OneRecordTopic<K, V>(b: Binding<K, V>, rec: Record)
    requires !b.allowEmpty
    ensures var (l, v) := OneRecordRun(b, rec);
      && l.delivered == [rec]
      && v == if Effective(EffectOf(b, rec)) then Finish(None) else Finish(Some(EmptyTopic))
  {
    hide EffectOf, Report, Clashed, Change;
    var p := rec.partition;
    var first, second := Tick(None, Turn([], Deliver(p)), 0), Tick(None, Turn([], ReportEnd(p)), 0);
    var l0 := Assigned(map[p := [rec]], Opened<K, V>(map[]));
    var (polled, ev) := Poll(l0, first.turn);
    assert ev == Received(rec) && polled.delivered == [] + [rec] == [rec];
    var (l1, v1) := Handle(b, polled, ev);
    assert l1.remaining == {p} && v1.Again?;
    assert [first, second][1..] == [second] && [second][1..] == [];
    assert WarmLoop(b, false, l0, [first, second]) == WarmLoop(b, false, l1, [second]);
    var (polled', ev') := Poll(l1, second.turn);
    assert ev' == Eof(p);
    assert Handle(b, polled', ev').1.Finish?;
    assert WarmLoop(b, false, l1, [second]) == Handle(b, polled', ev');
  }

  /** A topic whose only record is filtered held a record, and is reported empty. */
  lemma FilteredTopicIsEmpty()
    ensures var (l, v) := OneRecordRun(POSITIVE_ONLY, Rec(1, [0]));
      l.delivered == [Rec(1, [0])] && v == Finish(Some(EmptyTopic))
  {
    hide Warmup.WarmLoop;
    assert EffectOf(POSITIVE_ONLY, Rec(1, [0])) == Rejected;
    OneRecordTopic(POSITIVE_ONLY, Rec(1, [0]));
  }

  /** A topic whose only record is a tombstone leaves an empty store, and is not. */
  lemma TombstoneTopicLoads()
    ensures var (l, v) := OneRecordRun(POSITIVE_ONLY, Rec(1, []));
      l.delivered == [Rec(1, [])] && v == Finish(None)
  {
    hide Warmup.WarmLoop;
    assert EffectOf(POSITIVE_ONLY, Rec(1, [])) == Delete(1);
    OneRecordTopic(POSITIVE_ONLY, Rec(1, []));
  }
}
