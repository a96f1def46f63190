/** The concurrent map behind a binding, with its separately updated size counter. */
module Store {
  import opened Wrappers

  class Store<K(==), V> {
    var entries: map<K, V>
    var size: int

    constructor ()
      ensures entries == map[] && size == 0
    {
      entries := map[];
      size := 0;
    }

    /** How far the counter is from the number of entries. */
    ghost function Drift(): int
      reads this
    {
      size - |entries|
    }

    method Get(key: K) returns (value: Option<V>)
      ensures value.Some? <==> key in entries
      ensures value.Some? ==> value.value == entries[key]
    {
      if key in entries {
        value := Some(entries[key]);
      } else {
        value := None;
      }
    }

    method Len() returns (n: int)
      ensures n == size
    {
      n := size;
    }

    /** The atomic step of Put: replaces the entry and says whether there was one. */
    method Swap(key: K, value: V) returns (loaded: bool)
      modifies this`entries
      ensures entries == old(entries)[key := value]
      ensures loaded <==> key in old(entries)
    {
      loaded := key in entries;
      entries := entries[key := value];
    }

    /** The atomic step of Delete: removes the entry and says whether there was one. */
    method LoadAndDelete(key: K) returns (loaded: bool)
      modifies this`entries
      ensures entries == old(entries) - {key}
      ensures loaded <==> key in old(entries)
    {
      loaded := key in entries;
      entries := entries - {key};
    }

    method Put(key: K, value: V)
      modifies this
      ensures entries == old(entries)[key := value]
      ensures Drift() == old(Drift())
    {
      var loaded := Swap(key, value);
      if !loaded {
        size := size + 1;
      }
      SizeAfterSet(old(entries), key, value);
    }

    method Delete(key: K)
      modifies this
      ensures entries == old(entries) - {key}
      ensures Drift() == old(Drift())
    {
      var loaded := LoadAndDelete(key);
      if loaded {
        size := size - 1;
      }
      SizeAfterRemove(old(entries), key);
    }
  }

  lemma SizeAfterSet<K, V>(m: map<K, V>, key: K, value: V)
    ensures |m[key := value]| == if key in m then |m| else |m| + 1
  {
    assert m[key := value].Keys == m.Keys + {key};
    if key in m {
      assert m.Keys + {key} == m.Keys;
    }
    assert |m[key := value]| == |m[key := value].Keys| && |m| == |m.Keys|;
  }

  lemma SizeAfterRemove<K, V>(m: map<K, V>, key: K)
    ensures |m - {key}| == if key in m then |m| - 1 else |m|
  {
    assert (m - {key}).Keys == m.Keys - {key};
    if key in m {
      assert m.Keys == (m.Keys - {key}) + {key};
    } else {
      assert m.Keys - {key} == m.Keys;
    }
    assert |m - {key}| == |(m - {key}).Keys| && |m| == |m.Keys|;
  }
}
