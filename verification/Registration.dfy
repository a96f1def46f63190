/** One bound topic as the loader sees it: the closure that folds records into its store, and its counters. */
module Registration {
  import opened Wrappers
  import opened Kafka
  import opened Replay
  import opened Ledger
  import opened Store

  class Registration<K(==), V> {
    const name: string
    const binding: Binding<K, V>
    const store: Store<K, V>

    var phase: Phase
    var upserts: nat
    var deletes: nat
    var filtered: nat
    var decodeErrors: nat
    var warmupApplied: nat
    var observed: seq<Notice<K>>

    constructor (name: string, binding: Binding<K, V>, store: Store<K, V>)
      ensures this.name == name && this.binding == binding && this.store == store
      ensures View() == Opened(store.entries)
    {
      this.name := name;
      this.binding := binding;
      this.store := store;
      phase := Warmup;
      upserts, deletes, filtered, decodeErrors, warmupApplied := 0, 0, 0, 0, 0;
      observed := [];
    }

    function View(): Ledger<K, V>
      reads this, store
    {
      Ledger(phase, store.entries, upserts, deletes, filtered, decodeErrors, warmupApplied, observed)
    }

    method Notify(notice: Notice<K>)
      modifies this`observed
      ensures observed == old(observed) + [notice]
    {
      observed := observed + [notice];
    }

    method NoteRecord()
      modifies this`warmupApplied
      ensures warmupApplied == old(warmupApplied) + if phase.Warmup? then 1 else 0
    {
      if phase.Warmup? {
        warmupApplied := warmupApplied + 1;
      }
    }

    /** The closure that folds one record into the store. */
    method Apply(rec: Record)
      modifies this, store
      ensures View() == Enter(binding, old(View()), rec)
      ensures store.Drift() == old(store.Drift())
    {
      hide Store.Drift, Fold, Tally, FlaggedWarm, LastWord;
      var decoded := binding.decodeKey(rec.key);
      if decoded.None? {
        decodeErrors := decodeErrors + 1;
        Notify(OnDecodeError(rec.key));
        return;
      }

      if binding.tombstone(rec.payload) {
        store.Delete(decoded.value);
        deletes := deletes + 1;
        NoteRecord();
        Notify(OnDelete(phase.Warmup?));
        return;
      }

      var value := binding.decodeValue(rec.payload);
      if value.None? {
        decodeErrors := decodeErrors + 1;
        Notify(OnDecodeError(rec.payload));
        return;
      }

      ApplyUpsert(rec, decoded.value, value.value);
    }

    /** The rest of the closure, once the record is known to carry a key and a value. */
    method ApplyUpsert(rec: Record, recordKey: K, value: V)
      requires binding.decodeKey(rec.key) == Some(recordKey)
      requires !binding.tombstone(rec.payload) && binding.decodeValue(rec.payload) == Some(value)
      modifies this, store
      ensures View() == Enter(binding, old(View()), rec)
      ensures store.Drift() == old(store.Drift())
    {
      hide Store.Drift, Fold, Tally, FlaggedWarm, LastWord;
      var key := recordKey;
      if binding.keyFromValue.Some? {
        var derived := binding.keyFromValue.value(value);
        if binding.verifyKeyAgreement && derived != key {
          Notify(OnKeyMismatch(key, derived));
        }
        key := derived;
      }
      assert observed == Clashed(binding, old(observed), rec);

      if binding.filter.Some? && !binding.filter.value(key, value) {
        assert EffectOf(binding, rec) == Rejected;
        filtered := filtered + 1;
        Notify(OnFiltered);
        return;
      }

      assert EffectOf(binding, rec) == Upsert(key, value);
      store.Put(key, value);
      upserts := upserts + 1;
      NoteRecord();
      Notify(OnUpsert(phase.Warmup?));
    }
  }
}
