/**
  Walking the store while it is being written. A walk visits keys one at a time,
  in any order and none twice, and is over when it has visited every key that was
  there when it began; writers and readers take steps in between.
 */
module StoreWalks {
  import opened Wrappers
  import opened Replay
  import opened StoreRuns

  /** What a visit found, and (as history) how many map steps had happened by then. */
  datatype Glimpse<+V> = Glimpse(version: nat, value: Option<V>)

  /** `since` is the version at which the walk began, `due` the keys that were there. */
  datatype Walk<!K(==), !V> = Walk(since: nat, due: set<K>, seen: map<K, Glimpse<V>>)

  datatype Scene<!K(==), !V> = Scene(store: State<K, V>, walk: Option<Walk<K, V>>)

  datatype Move<K> =
    | Meanwhile(action: Action<K>)
    | Begin
    | Visit(key: K)

  function Advance<K, V>(c: Scene<K, V>, m: Move<K>): Scene<K, V> {
    match m
    case Meanwhile(action) => c.(store := Step(c.store, action))
    case Begin =>
      if c.walk.Some? then c else c.(walk := Some(Walk(|c.store.history|, c.store.entries.Keys, map[])))
    case Visit(key) =>
      if c.walk.None? || key in c.walk.value.seen then c
      else
        var w := c.walk.value;
        var found := Glimpse(|c.store.history|, Lookup(c.store.entries, key));
        c.(walk := Some(w.(seen := w.seen[key := found])))
  }

  function AdvanceAll<K, V>(c: Scene<K, V>, moves: seq<Move<K>>): Scene<K, V>
    decreases |moves|
  {
    if moves == [] then c else AdvanceAll(Advance(c, moves[0]), moves[1..])
  }

  predicate Over<K, V>(w: Walk<K, V>) {
    w.due <= w.seen.Keys
  }

  /** The map that Snapshot returns. */
  function Collected<K, V>(w: Walk<K, V>): map<K, V> {
    map k | k in w.seen && w.seen[k].value.Some? :: w.seen[k].value.value
  }

  /** The table after the given number of map steps. */
  function At<K, V>(history: seq<Effect<K, V>>, version: nat): map<K, V>
    requires version <= |history|
  {
    Replayed(history[..version])
  }

  ghost predicate Honest<K, V>(w: Walk<K, V>, history: seq<Effect<K, V>>) {
    && w.since <= |history|
    && w.due == At(history, w.since).Keys
    && forall k | k in w.seen ::
         && w.since <= w.seen[k].version <= |history|
         && w.seen[k].value == Lookup(At(history, w.seen[k].version), k)
  }

  ghost predicate Sound<K, V>(c: Scene<K, V>) {
    Linear(c.store) && (c.walk.Some? ==> Honest(c.walk.value, c.store.history))
  }

  /** What was seen stays true as the history grows. */
  lemma HonestGrows<K, V>(w: Walk<K, V>, history: seq<Effect<K, V>>, more: seq<Effect<K, V>>)
    requires Honest(w, history)
    ensures Honest(w, history + more)
  {
    hide Replayed;
    assert (history + more)[..w.since] == history[..w.since];
    forall k | k in w.seen
      ensures At(history + more, w.seen[k].version) == At(history, w.seen[k].version)
    {
      assert (history + more)[..w.seen[k].version] == history[..w.seen[k].version];
    }
  }

  lemma StepHistory<K, V>(s: State<K, V>, a: Action<K>) returns (more: seq<Effect<K, V>>)
    ensures Step(s, a).history == s.history + more
  {
    hide EffectOf, Change, Debit;
    more := Step(s, a).history[|s.history|..];
  }

  lemma AdvanceSound<K, V>(c: Scene<K, V>, m: Move<K>)
    requires Sound(c)
    ensures Sound(Advance(c, m))
  {
    hide Replayed, Step, Ordered;
    assert c.store.history[..|c.store.history|] == c.store.history;
    if m.Meanwhile? {
      StepLinear(c.store, m.action);
      var more := StepHistory(c.store, m.action);
      if c.walk.Some? {
        HonestGrows(c.walk.value, c.store.history, more);
      }
    }
  }

  lemma FreshSound<K, V>(s: State<K, V>)
    requires Fresh(s)
    ensures Sound(Scene(s, None))
  {
  }

  lemma {:induction false} AdvanceAllSound<K, V>(c: Scene<K, V>, moves: seq<Move<K>>)
    requires Sound(c)
    ensures Sound(AdvanceAll(c, moves))
    decreases |moves|
  {
    hide Sound, Advance;
    if moves != [] {
      AdvanceSound(c, moves[0]);
      AdvanceAllSound(Advance(c, moves[0]), moves[1..]);
    }
  }

  /**
    A snapshot taken in any run holds every key that was there throughout the
    walk and every one that a visit found, and nothing but values that the store
    held at some moment of it.
   */
  lemma SnapshotIsHonest<K, V>(s0: State<K, V>, moves: seq<Move<K>>)
    requires Fresh(s0)
    requires var c := AdvanceAll(Scene(s0, None), moves); c.walk.Some? && Over(c.walk.value)
    ensures var c := AdvanceAll(Scene(s0, None), moves);
      var (w, history) := (c.walk.value, c.store.history);
      && w.since <= |history|
      && (forall k | forall n | w.since <= n <= |history| :: k in At(history, n) :: k in Collected(w))
      && (forall k | k in Collected(w) ::
            exists n | w.since <= n <= |history| :: k in At(history, n) && At(history, n)[k] == Collected(w)[k])
      && (forall k | k in w.seen && w.seen[k].value.Some? :: k in Collected(w))
  {
    hide AdvanceAll, Replayed;
    FreshSound(s0);
    AdvanceAllSound(Scene(s0, None), moves);
  }
}
