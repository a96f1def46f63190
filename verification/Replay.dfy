/**
  The meaning of a compacted topic: folding its records into a table, and the
  closed form of that fold — the last record that speaks about a key decides it.
 */
module Replay {
  import opened Wrappers
  import opened Kafka

  /** How one topic is projected into one store. The default tombstone policy is already filled in. */
  datatype Binding<!K(==), !V> = Binding(
    decodeKey: Bytes -> Option<K>,
    decodeValue: Bytes -> Option<V>,
    keyFromValue: Option<V -> K>,
    verifyKeyAgreement: bool,
    filter: Option<(K, V) -> bool>,
    tombstone: Bytes -> bool,
    allowEmpty: bool
  )

  /** What one record amounts to under a binding. */
  datatype Effect<+K, +V> =
    | BadKey
    | Delete(key: K)
    | BadValue
    | Rejected
    | Upsert(key: K, value: V)

  function UpsertKey<K, V>(b: Binding<K, V>, key: K, value: V): K {
    if b.keyFromValue.Some? then b.keyFromValue.value(value) else key
  }

  function EffectOf<K, V>(b: Binding<K, V>, rec: Record): Effect<K, V> {
    match b.decodeKey(rec.key)
    case None => BadKey
    case Some(key) =>
      if b.tombstone(rec.payload) then Delete(key)
      else
        match b.decodeValue(rec.payload)
        case None => BadValue
        case Some(value) =>
          var target := UpsertKey(b, key, value);
          if b.filter.Some? && !b.filter.value(target, value) then Rejected else Upsert(target, value)
  }

  predicate Effective<K, V>(e: Effect<K, V>) {
    e.Delete? || e.Upsert?
  }

  function Change<K, V>(table: map<K, V>, e: Effect<K, V>): map<K, V> {
    match e
    case Delete(key) => table - {key}
    case Upsert(key, value) => table[key := value]
    case _ => table
  }

  /** The table after folding the records into it, in order. */
  function Fold<K, V>(b: Binding<K, V>, table: map<K, V>, recs: seq<Record>): map<K, V> {
    if recs == [] then table
    else Change(Fold(b, table, recs[..|recs| - 1]), EffectOf(b, recs[|recs| - 1]))
  }

  function Lookup<K, V>(table: map<K, V>, k: K): Option<V> {
    if k in table then Some(table[k]) else None
  }

  /** The record sets or removes k. */
  predicate Speaks<K, V>(b: Binding<K, V>, rec: Record, k: K) {
    var e := EffectOf(b, rec);
    Effective(e) && e.key == k
  }

  /** What a record that speaks about a key says: a value, or that there is none. */
  function Says<K, V>(b: Binding<K, V>, rec: Record): Option<V> {
    var e := EffectOf(b, rec);
    if e.Upsert? then Some(e.value) else None
  }

  /** The index of the last record that speaks about k, or -1. */
  function LastWord<K, V>(b: Binding<K, V>, recs: seq<Record>, k: K): (i: int)
    ensures -1 <= i < |recs|
    ensures 0 <= i ==> Speaks(b, recs[i], k)
    ensures forall j | i < j < |recs| :: !Speaks(b, recs[j], k)
  {
    if recs == [] then -1
    else if Speaks(b, recs[|recs| - 1], k) then |recs| - 1
    else LastWord(b, recs[..|recs| - 1], k)
  }

  lemma FoldAppend<K, V>(b: Binding<K, V>, table: map<K, V>, recs: seq<Record>, rec: Record)
    ensures Fold(b, table, recs + [rec]) == Change(Fold(b, table, recs), EffectOf(b, rec))
  {
    assert (recs + [rec])[..|recs|] == recs;
  }

  lemma {:induction false} FoldConcat<K, V>(b: Binding<K, V>, table: map<K, V>, x: seq<Record>, y: seq<Record>)
    ensures Fold(b, table, x + y) == Fold(b, Fold(b, table, x), y)
    decreases |y|
  {
    if y == [] {
      assert x + y == x;
    } else {
      var init, last := y[..|y| - 1], y[|y| - 1];
      assert x + y == (x + init) + [last];
      FoldAppend(b, table, x + init, last);
      FoldConcat(b, table, x, init);
    }
  }

  lemma ChangeAt<K, V>(b: Binding<K, V>, table: map<K, V>, rec: Record, k: K)
    ensures Lookup(Change(table, EffectOf(b, rec)), k) ==
            if Speaks(b, rec, k) then Says(b, rec) else Lookup(table, k)
  {
  }

  /** The closed form of the fold. */
  lemma {:induction false} LastWordDecides<K, V>(b: Binding<K, V>, table: map<K, V>, recs: seq<Record>, k: K)
    ensures var i := LastWord(b, recs, k);
      Lookup(Fold(b, table, recs), k) == if i < 0 then Lookup(table, k) else Says(b, recs[i])
    decreases |recs|
  {
    if recs != [] {
      var init, last := recs[..|recs| - 1], recs[|recs| - 1];
      ChangeAt(b, Fold(b, table, init), last, k);
      LastWordDecides(b, table, init, k);
    }
  }

  /** Two tables that answer every lookup alike are the same table. */
  lemma SameLookups<K(!new), V>(a: map<K, V>, b: map<K, V>)
    requires forall k :: Lookup(a, k) == Lookup(b, k)
    ensures a == b
  {
    forall k
      ensures k in a <==> k in b
      ensures k in a ==> a[k] == b[k]
    {
      assert Lookup(a, k) == Lookup(b, k);
    }
  }

  /** Replaying a log over the result of any of its prefixes changes nothing. */
  lemma ReplayIsIdempotent<K(!new), V>(b: Binding<K, V>, table: map<K, V>, recs: seq<Record>, n: nat)
    requires n <= |recs|
    ensures Fold(b, Fold(b, table, recs[..n]), recs) == Fold(b, table, recs)
  {
    var prefix := Fold(b, table, recs[..n]);
    forall k
      ensures Lookup(Fold(b, prefix, recs), k) == Lookup(Fold(b, table, recs), k)
    {
      LastWordDecides(b, prefix, recs, k);
      LastWordDecides(b, table, recs, k);
      LastWordDecides(b, table, recs[..n], k);
      var i := LastWord(b, recs[..n], k);
      assert 0 <= i ==> Speaks(b, recs[..n][i], k) && recs[..n][i] == recs[i];
    }
    SameLookups(Fold(b, prefix, recs), Fold(b, table, recs));
  }

  /** Record i is a tombstone whose own record key decodes to k, and no later record speaks about k. */
  ghost predicate Removes<K, V>(b: Binding<K, V>, recs: seq<Record>, k: K, i: nat) {
    && i < |recs|
    && b.tombstone(recs[i].payload) && b.decodeKey(recs[i].key) == Some(k)
    && forall j | i < j < |recs| :: !Speaks(b, recs[j], k)
  }

  lemma RemoverIsLastWord<K, V>(b: Binding<K, V>, recs: seq<Record>, k: K, i: nat)
    requires Removes(b, recs, k, i)
    ensures LastWord(b, recs, k) == i && Says(b, recs[i]) == None
  {
    assert Speaks(b, recs[i], k);
  }

  /**
    An entry has disappeared exactly when the last record that speaks about it is
    a tombstone whose own record key decodes to the entry's key, whatever key the
    entry was derived from.
   */
  lemma RemovalExact<K, V>(b: Binding<K, V>, table: map<K, V>, recs: seq<Record>, k: K)
    requires k in table
    ensures k !in Fold(b, table, recs) <==> exists i :: Removes(b, recs, k, i)
  {
    hide Fold;
    LastWordDecides(b, table, recs, k);
    if k !in Fold(b, table, recs) {
      assert Lookup(table, k).Some? && Lookup(Fold(b, table, recs), k).None?;
      assert Removes(b, recs, k, LastWord(b, recs, k));
    }
    forall i | Removes(b, recs, k, i)
      ensures k !in Fold(b, table, recs)
    {
      RemoverIsLastWord(b, recs, k, i);
      assert Lookup(Fold(b, table, recs), k).None?;
    }
  }

  // What an entry is, in terms of the binding's own functions: decoders, key
  // derivation, filter and tombstone policy, and nothing else.

  /** The record carries a key and a value. */
  predicate Decodes<K, V>(b: Binding<K, V>, rec: Record) {
    b.decodeKey(rec.key).Some? && !b.tombstone(rec.payload) && b.decodeValue(rec.payload).Some?
  }

  /** The key its value goes under. */
  function FinalKey<K, V>(b: Binding<K, V>, rec: Record): K
    requires Decodes(b, rec)
  {
    match b.keyFromValue
    case Some(derive) => derive(b.decodeValue(rec.payload).value)
    case None => b.decodeKey(rec.key).value
  }

  /** The filter, shown the final key and the value, lets it through. */
  predicate Admits<K, V>(b: Binding<K, V>, rec: Record)
    requires Decodes(b, rec)
  {
    b.filter.Some? ==> b.filter.value(FinalKey(b, rec), b.decodeValue(rec.payload).value)
  }

  predicate Sets<K, V>(b: Binding<K, V>, rec: Record, k: K) {
    Decodes(b, rec) && Admits(b, rec) && FinalKey(b, rec) == k
  }

  predicate Unsets<K, V>(b: Binding<K, V>, rec: Record, k: K) {
    b.tombstone(rec.payload) && b.decodeKey(rec.key) == Some(k)
  }

  lemma RecordMeans<K, V>(b: Binding<K, V>, rec: Record, k: K)
    ensures Sets(b, rec, k) <==> Speaks(b, rec, k) && Says(b, rec).Some?
    ensures Unsets(b, rec, k) <==> Speaks(b, rec, k) && Says(b, rec).None?
    ensures Sets(b, rec, k) ==> Says(b, rec) == b.decodeValue(rec.payload)
  {
  }

  /** Record i sets k to v, and no later record sets or unsets k. */
  ghost predicate SetsLast<K, V>(b: Binding<K, V>, recs: seq<Record>, k: K, v: V, i: nat) {
    && i < |recs|
    && Sets(b, recs[i], k) && b.decodeValue(recs[i].payload) == Some(v)
    && forall j | i < j < |recs| :: !Sets(b, recs[j], k) && !Unsets(b, recs[j], k)
  }

  lemma SetsLastIsLastWord<K, V>(b: Binding<K, V>, recs: seq<Record>, k: K, v: V, i: nat)
    ensures SetsLast(b, recs, k, v, i) <==>
            i < |recs| && LastWord(b, recs, k) == i && Says(b, recs[i]) == Some(v)
  {
    hide Sets, Unsets, Speaks, Says;
    forall j | 0 <= j < |recs|
      ensures Sets(b, recs[j], k) || Unsets(b, recs[j], k) <==> Speaks(b, recs[j], k)
      ensures Sets(b, recs[j], k) <==> Speaks(b, recs[j], k) && Says(b, recs[j]).Some?
      ensures Sets(b, recs[j], k) ==> Says(b, recs[j]) == b.decodeValue(recs[j].payload)
    {
      RecordMeans(b, recs[j], k);
    }
  }

  /**
    The table, exactly: k holds v when some record decodes to v, goes under k
    (by its value if the binding derives keys, by its own key otherwise), passes
    the filter under that key, and no later record sets or unsets k.
   */
  lemma TableExact<K, V>(b: Binding<K, V>, recs: seq<Record>, k: K, v: V)
    ensures Lookup(Fold(b, map[], recs), k) == Some(v) <==> exists i :: SetsLast(b, recs, k, v, i)
  {
    hide Fold, SetsLast, Says;
    LastWordDecides(b, map[], recs, k);
    forall i: nat
      ensures SetsLast(b, recs, k, v, i) <==>
              i < |recs| && LastWord(b, recs, k) == i && Says(b, recs[i]) == Some(v)
    {
      SetsLastIsLastWord(b, recs, k, v, i);
    }
    if Lookup(Fold(b, map[], recs), k) == Some(v) {
      assert SetsLast(b, recs, k, v, LastWord(b, recs, k));
    }
  }

  /** Every entry passes the binding's filter under the key it is stored under. */
  lemma EntriesPassTheFilter<K, V>(b: Binding<K, V>, recs: seq<Record>, k: K)
    requires b.filter.Some? && k in Fold(b, map[], recs)
    ensures b.filter.value(k, Fold(b, map[], recs)[k])
  {
    hide Fold;
    var v := Fold(b, map[], recs)[k];
    TableExact(b, recs, k, v);
    var i: nat :| SetsLast(b, recs, k, v, i);
  }

  /** What one more record does, whatever the table held: set, unset, or nothing. */
  lemma OneMoreRecord<K, V>(b: Binding<K, V>, table: map<K, V>, recs: seq<Record>, rec: Record)
    ensures var before, after := Fold(b, table, recs), Fold(b, table, recs + [rec]);
      if Decodes(b, rec) && Admits(b, rec) then after == before[FinalKey(b, rec) := b.decodeValue(rec.payload).value]
      else if b.decodeKey(rec.key).Some? && b.tombstone(rec.payload) then after == before - {b.decodeKey(rec.key).value}
      else after == before
  {
    hide Fold;
    FoldAppend(b, table, recs, rec);
  }
}
