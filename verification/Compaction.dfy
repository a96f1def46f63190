/**
  What Kafka's compaction of one partition does to the replayed table. Exactly
  when it changes nothing, the hypotheses that guarantee it, and logs on which it
  does change the table.
 */
module Compaction {
  import opened Wrappers
  import opened Kafka
  import opened Replay

  /** A later record of the partition carries the same raw key. */
  ghost predicate Superseded(log: seq<Record>, i: nat)
    requires i < |log|
  {
    exists j :: i < j < |log| && log[j].key == log[i].key
  }

  /** A choice of survivors that compaction may make: it drops only superseded records. */
  ghost predicate Legal(log: seq<Record>, keep: seq<bool>) {
    && |keep| == |log|
    && forall i | 0 <= i < |log| :: !keep[i] ==> Superseded(log, i)
  }

  function Compact(log: seq<Record>, keep: seq<bool>): seq<Record>
    requires |keep| == |log|
  {
    if log == [] then []
    else
      var rest := Compact(log[..|log| - 1], keep[..|log| - 1]);
      if keep[|log| - 1] then rest + [log[|log| - 1]] else rest
  }

  /** The index of the last surviving record that speaks about k, or -1. */
  function LastKept<K, V>(b: Binding<K, V>, log: seq<Record>, keep: seq<bool>, k: K): (i: int)
    requires |keep| == |log|
    ensures -1 <= i < |log|
    ensures 0 <= i ==> keep[i] && Speaks(b, log[i], k)
    ensures forall j | i < j < |log| && keep[j] :: !Speaks(b, log[j], k)
  {
    if log == [] then -1
    else if keep[|log| - 1] && Speaks(b, log[|log| - 1], k) then |log| - 1
    else LastKept(b, log[..|log| - 1], keep[..|log| - 1], k)
  }

  lemma {:induction false} LastKeptDecides<K, V>(
    b: Binding<K, V>, table: map<K, V>, log: seq<Record>, keep: seq<bool>, k: K)
    requires |keep| == |log|
    ensures var i := LastKept(b, log, keep, k);
      Lookup(Fold(b, table, Compact(log, keep)), k) == if i < 0 then Lookup(table, k) else Says(b, log[i])
    decreases |log|
  {
    hide EffectOf;
    if log != [] {
      var init, last := log[..|log| - 1], log[|log| - 1];
      LastKeptDecides(b, table, init, keep[..|init|], k);
      if keep[|init|] {
        FoldAppend(b, table, Compact(init, keep[..|init|]), last);
        ChangeAt(b, Fold(b, table, Compact(init, keep[..|init|])), last, k);
      }
    }
  }

  /** Record i speaks about k, cannot be compacted away, and nothing later says otherwise. */
  ghost predicate Anchor<K, V>(b: Binding<K, V>, log: seq<Record>, k: K, i: nat) {
    && i < |log|
    && Speaks(b, log[i], k)
    && !Superseded(log, i)
    && forall j | i < j < |log| && Speaks(b, log[j], k) :: Says(b, log[j]) == Says(b, log[i])
  }

  /** Every key that is spoken about has an anchor. */
  ghost predicate CompactionSafe<K(!new), V>(b: Binding<K, V>, log: seq<Record>) {
    forall k | 0 <= LastWord(b, log, k) :: exists i :: Anchor(b, log, k, i)
  }

  ghost predicate Unchanged<K, V>(b: Binding<K, V>, table: map<K, V>, log: seq<Record>, keep: seq<bool>)
    requires |keep| == |log|
  {
    Fold(b, table, Compact(log, keep)) == Fold(b, table, log)
  }

  lemma SafeIsUnchanged<K(!new), V>(b: Binding<K, V>, table: map<K, V>, log: seq<Record>, keep: seq<bool>)
    requires CompactionSafe(b, log) && Legal(log, keep)
    ensures Unchanged(b, table, log, keep)
  {
    hide EffectOf, Fold, Compact;
    var compacted := Compact(log, keep);
    forall k
      ensures Lookup(Fold(b, table, compacted), k) == Lookup(Fold(b, table, log), k)
    {
      LastKeptDecides(b, table, log, keep, k);
      LastWordDecides(b, table, log, k);
      if 0 <= LastWord(b, log, k) {
        var i: nat :| Anchor(b, log, k, i);
        assert keep[i];
      }
    }
    SameLookups(Fold(b, table, compacted), Fold(b, table, log));
  }

  /** The harshest legal compaction, except that record `spared` (if any) also survives. */
  ghost function Harshest(log: seq<Record>, spared: int): (keep: seq<bool>)
    ensures Legal(log, keep)
    ensures forall i | 0 <= i < |log| :: keep[i] <==> !Superseded(log, i) || i == spared
  {
    seq(|log|, i requires 0 <= i < |log| => !Superseded(log, i) || i == spared)
  }

  /** The record sets k. */
  ghost predicate EverSet<K, V>(b: Binding<K, V>, log: seq<Record>, k: K) {
    exists i :: 0 <= i < |log| && Speaks(b, log[i], k) && Says(b, log[i]).Some?
  }

  /** Every key that is ever set has an anchor. */
  ghost predicate FreshSafe<K(!new), V>(b: Binding<K, V>, log: seq<Record>) {
    forall k | EverSet(b, log, k) :: exists i :: Anchor(b, log, k, i)
  }

  lemma FreshSafeIsUnchanged<K(!new), V>(b: Binding<K, V>, log: seq<Record>, keep: seq<bool>)
    requires FreshSafe(b, log) && Legal(log, keep)
    ensures Unchanged(b, map[], log, keep)
  {
    hide EffectOf, Fold, Compact;
    forall k
      ensures Lookup(Fold(b, map[], Compact(log, keep)), k) == Lookup(Fold(b, map[], log), k)
    {
      LastKeptDecides(b, map[], log, keep, k);
      LastWordDecides(b, map[], log, k);
      if EverSet(b, log, k) {
        var i: nat :| Anchor(b, log, k, i);
        assert keep[i];
      }
    }
    SameLookups(Fold(b, map[], Compact(log, keep)), Fold(b, map[], log));
  }

  /** A key that is set and has no anchor: some legal compaction changes its entry in a new table. */
  lemma UnanchoredIsChanged<K, V>(b: Binding<K, V>, log: seq<Record>, k: K)
    returns (keep: seq<bool>)
    requires EverSet(b, log, k) && forall i :: !Anchor(b, log, k, i)
    ensures Legal(log, keep)
    ensures Lookup(Fold(b, map[], Compact(log, keep)), k) != Lookup(Fold(b, map[], log), k)
  {
    hide EffectOf, Fold, Compact, Superseded;
    var last := LastWord(b, log, k);
    keep := Harshest(log, -1);
    var i := LastKept(b, log, keep, k);
    if i < 0 && Says(b, log[last]).None? {
      var u :| 0 <= u < |log| && Speaks(b, log[u], k) && Says(b, log[u]).Some?;
      keep := Harshest(log, u);
      assert LastKept(b, log, keep, k) == u;
    } else if 0 <= i && Says(b, log[i]) == Says(b, log[last]) {
      assert !Anchor(b, log, k, i);
      var j :| i < j < |log| && Speaks(b, log[j], k) && Says(b, log[j]) != Says(b, log[i]);
      keep := Harshest(log, j);
      assert LastKept(b, log, keep, k) == j;
    }
    LastKeptDecides(b, map[], log, keep, k);
    LastWordDecides(b, map[], log, k);
  }

  /** Read into a new store, a partition survives every compaction exactly when every key it ever sets has an anchor. */
  lemma FreshCompactionExact<K(!new), V>(b: Binding<K, V>, log: seq<Record>)
    ensures FreshSafe(b, log) <==> forall keep | Legal(log, keep) :: Unchanged(b, map[], log, keep)
  {
    hide EffectOf, Fold, Compact, Superseded, Anchor, EverSet;
    if FreshSafe(b, log) {
      forall keep | Legal(log, keep)
        ensures Unchanged(b, map[], log, keep)
      {
        FreshSafeIsUnchanged(b, log, keep);
      }
    } else {
      var k :| EverSet(b, log, k) && forall i :: !Anchor(b, log, k, i);
      var keep := UnanchoredIsChanged(b, log, k);
      assert !Unchanged(b, map[], log, keep);
    }
  }

  /** A key with no anchor: some legal compaction changes its entry, in some starting table. */
  lemma UnsafeIsChanged<K(!new), V>(b: Binding<K, V>, log: seq<Record>, k: K, v: V)
    returns (table: map<K, V>, keep: seq<bool>)
    requires 0 <= LastWord(b, log, k) && forall i :: !Anchor(b, log, k, i)
    ensures Legal(log, keep)
    ensures Lookup(Fold(b, table, Compact(log, keep)), k) != Lookup(Fold(b, table, log), k)
  {
    hide EffectOf, Fold, Compact, Superseded;
    if EverSet(b, log, k) {
      table := map[];
      keep := UnanchoredIsChanged(b, log, k);
    } else {
      table, keep := map[k := v], Harshest(log, -1);
      var i := LastKept(b, log, keep, k);
      assert 0 <= i ==> Anchor(b, log, k, i);
      LastKeptDecides(b, table, log, keep, k);
      LastWordDecides(b, table, log, k);
    }
  }

  /** Compaction is invisible, whatever it drops and whatever the table held before, exactly when every key has an anchor. */
  lemma CompactionExact<K(!new), V>(b: Binding<K, V>, log: seq<Record>, v: V)
    ensures CompactionSafe(b, log) <==>
            forall table: map<K, V>, keep | Legal(log, keep) :: Unchanged(b, table, log, keep)
  {
    if CompactionSafe(b, log) {
      forall table: map<K, V>, keep | Legal(log, keep)
        ensures Unchanged(b, table, log, keep)
      {
        SafeIsUnchanged(b, table, log, keep);
      }
    } else {
      var k :| 0 <= LastWord(b, log, k) && forall i :: !Anchor(b, log, k, i);
      var table, keep := UnsafeIsChanged(b, log, k, v);
      assert !Unchanged(b, table, log, keep);
    }
  }

  /** Whether a record is applied at all depends on its raw key alone. */
  ghost predicate RawKeyDecides<K, V>(b: Binding<K, V>, log: seq<Record>) {
    forall i, j | 0 <= i < |log| && 0 <= j < |log| && log[i].key == log[j].key ::
      Effective(EffectOf(b, log[i])) == Effective(EffectOf(b, log[j]))
  }

  /** Every upsert lands under the key its record carries. */
  ghost predicate KeysAgree<K, V>(b: Binding<K, V>, log: seq<Record>) {
    forall i | 0 <= i < |log| && EffectOf(b, log[i]).Upsert? :: b.decodeKey(log[i].key) == Some(EffectOf(b, log[i]).key)
  }

  /** The two hypotheses suffice; decodeKey need not be injective. */
  lemma FaithfulIsSafe<K(!new), V>(b: Binding<K, V>, log: seq<Record>)
    requires RawKeyDecides(b, log) && KeysAgree(b, log)
    ensures CompactionSafe(b, log)
  {
    forall k | 0 <= LastWord(b, log, k)
      ensures exists i :: Anchor(b, log, k, i)
    {
      var i := LastWord(b, log, k);
      forall j | i < j < |log|
        ensures log[j].key != log[i].key
      {
        assert !Speaks(b, log[j], k);
      }
      assert Anchor(b, log, k, i);
    }
  }

  // Each hypothesis is needed: three logs of two records with one raw key, of
  // which compaction may drop the first.

  function FirstByte(raw: Bytes): Option<int> {
    if raw.Data? && |raw.bytes| == 1 then Some(raw.bytes[0] as int) else None
  }

  /** Keys and values are single bytes; an empty or nil payload is a tombstone. */
  const BYTE_BINDING: Binding<int, int> :=
    Binding(FirstByte, FirstByte, None, false, None, (raw: Bytes) => raw == Nil || raw == Data([]), false)

  const POSITIVE_ONLY: Binding<int, int> := BYTE_BINDING.(filter := Some((k: int, v: int) => v > 0))
  const KEYED_BY_VALUE: Binding<int, int> := BYTE_BINDING.(keyFromValue := Some((v: int) => v))

  function Rec(key: Byte, payload: seq<Byte>): Record {
    Record(0, Data([key]), Data(payload))
  }

  lemma CompactedPair(r0: Record, r1: Record)
    requires r0.key == r1.key
    ensures Legal([r0, r1], [false, true]) && Compact([r0, r1], [false, true]) == [r1]
  {
    var log, keep := [r0, r1], [false, true];
    assert Superseded(log, 0) by {
      assert log[1].key == log[0].key;
    }
    assert log[..1] == [r0] && keep[..1] == [false];
    assert [r0][..0] == [] && [false][..0] == [];
    assert Compact([r0], [false]) == Compact([], []) == [];
    assert Compact(log, keep) == Compact([r0], [false]) + [r1];
  }

  lemma FoldOne<K, V>(b: Binding<K, V>, table: map<K, V>, rec: Record)
    ensures Fold(b, table, [rec]) == Change(table, EffectOf(b, rec))
  {
    hide EffectOf, Change;
    assert [rec][..0] == [];
    assert Fold(b, table, []) == table;
  }

  lemma FoldPair<K, V>(b: Binding<K, V>, r0: Record, r1: Record)
    ensures Fold(b, map[], [r0, r1]) == Change(Change(map[], EffectOf(b, r0)), EffectOf(b, r1))
  {
    hide EffectOf, Change, Fold;
    FoldOne(b, map[], r0);
    FoldAppend(b, map[], [r0], r1);
    assert [r0] + [r1] == [r0, r1];
  }

  lemma TwoRecords<K(!new), V>(b: Binding<K, V>, r0: Record, r1: Record)
    requires r0.key == r1.key
    ensures Legal([r0, r1], [false, true]) && Compact([r0, r1], [false, true]) == [r1]
    ensures Fold(b, map[], [r0, r1]) == Change(Change(map[], EffectOf(b, r0)), EffectOf(b, r1))
    ensures Fold(b, map[], [r1]) == Change(map[], EffectOf(b, r1))
  {
    hide EffectOf, Change, Fold, Compact, Legal;
    CompactedPair(r0, r1);
    FoldPair(b, r0, r1);
    FoldOne(b, map[], r1);
  }

  /** Record keys agree with entry keys, but a filtered record supersedes an entry that a restart then loses. */
  lemma FilteringLosesEntries()
    ensures var log := [Rec(1, [5]), Rec(1, [0])];
      && KeysAgree(POSITIVE_ONLY, log)
      && Legal(log, [false, true])
      && 1 in Fold(POSITIVE_ONLY, map[], log)
      && 1 !in Fold(POSITIVE_ONLY, map[], Compact(log, [false, true]))
  {
    TwoRecords(POSITIVE_ONLY, Rec(1, [5]), Rec(1, [0]));
    assert EffectOf(POSITIVE_ONLY, Rec(1, [5])) == Upsert(1, 5);
    assert EffectOf(POSITIVE_ONLY, Rec(1, [0])) == Rejected;
  }

  /** The same with a record whose payload does not decode. */
  lemma BadPayloadLosesEntries()
    ensures var log := [Rec(1, [5]), Rec(1, [5, 5])];
      && KeysAgree(BYTE_BINDING, log)
      && Legal(log, [false, true])
      && 1 in Fold(BYTE_BINDING, map[], log)
      && 1 !in Fold(BYTE_BINDING, map[], Compact(log, [false, true]))
  {
    TwoRecords(BYTE_BINDING, Rec(1, [5]), Rec(1, [5, 5]));
    assert EffectOf(BYTE_BINDING, Rec(1, [5])) == Upsert(1, 5);
    assert EffectOf(BYTE_BINDING, Rec(1, [5, 5])) == BadValue;
  }

  /** Every record is applied, but under keys of its payload's choosing: an older entry does not survive a restart. */
  lemma DerivedKeysLoseEntries()
    ensures var log := [Rec(1, [5]), Rec(1, [6])];
      && RawKeyDecides(KEYED_BY_VALUE, log)
      && Legal(log, [false, true])
      && 5 in Fold(KEYED_BY_VALUE, map[], log)
      && 5 !in Fold(KEYED_BY_VALUE, map[], Compact(log, [false, true]))
  {
    TwoRecords(KEYED_BY_VALUE, Rec(1, [5]), Rec(1, [6]));
    assert EffectOf(KEYED_BY_VALUE, Rec(1, [5])) == Upsert(5, 5);
    assert EffectOf(KEYED_BY_VALUE, Rec(1, [6])) == Upsert(6, 6);
  }

  /**
    An entry stored under a derived key survives the tombstone of its own record
    key, and is removed by a tombstone that carries the derived one.
   */
  lemma DerivedEntryRemoval()
    ensures 5 in Fold(KEYED_BY_VALUE, map[], [Rec(1, [5]), Rec(1, [])])
    ensures 5 !in Fold(KEYED_BY_VALUE, map[], [Rec(1, [5]), Rec(5, [])])
  {
    hide Fold;
    FoldPair(KEYED_BY_VALUE, Rec(1, [5]), Rec(1, []));
    FoldPair(KEYED_BY_VALUE, Rec(1, [5]), Rec(5, []));
    assert EffectOf(KEYED_BY_VALUE, Rec(1, [5])) == Upsert(5, 5);
    assert EffectOf(KEYED_BY_VALUE, Rec(1, [])) == Delete(1);
    assert EffectOf(KEYED_BY_VALUE, Rec(5, [])) == Delete(5);
  }
}
