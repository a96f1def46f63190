/**
  The store as a concurrent object. A write is two atomic steps, first the map and
  then, if the number of entries changed, the size counter; any number of writers
  interleave them, each folding its own log, and readers read in between.
  A run is any sequence of actions; an action that is not enabled changes nothing.
 */
module StoreRuns {
  import opened Wrappers
  import opened Kafka
  import opened Replay
  import opened Store

  /** One goroutine folding a log into the store. `done` counts the records whose map step is over. */
  datatype Writer<!K(==), !V> = Writer(binding: Binding<K, V>, log: seq<Record>, done: nat, owes: Debt)

  /** A counter update still to come: after an inserting Put, or after a removing Delete. */
  datatype Debt = Settled | OwesPlus | OwesMinus

  /** A Get: the key, what it returned, and (as history) how many map steps had happened. */
  datatype Answer<K, V> = Answer(version: nat, key: K, value: Option<V>)

  /** `history` lists the effects of all map steps, in the order they took place. */
  datatype State<!K(==), !V> = State(
    entries: map<K, V>,
    size: int,
    writers: seq<Writer<K, V>>,
    history: seq<Effect<K, V>>,
    answers: seq<seq<Answer<K, V>>>
  )

  datatype Action<K> =
    | Write(w: nat)
    | Count(w: nat)
    | Get(reader: nat, key: K)

  function Debit<K, V>(entries: map<K, V>, e: Effect<K, V>): Debt {
    match e
    case Upsert(key, _) => if key in entries then Settled else OwesPlus
    case Delete(key) => if key in entries then OwesMinus else Settled
    case _ => Settled
  }

  function Step<K, V>(s: State<K, V>, a: Action<K>): State<K, V> {
    match a
    case Write(i) =>
      if !(i < |s.writers| && s.writers[i].owes.Settled? && s.writers[i].done < |s.writers[i].log|) then s
      else
        var w := s.writers[i];
        var e := EffectOf(w.binding, w.log[w.done]);
        s.(entries := Change(s.entries, e),
           writers := s.writers[i := w.(done := w.done + 1, owes := Debit(s.entries, e))],
           history := s.history + [e])
    case Count(i) =>
      if !(i < |s.writers|) || s.writers[i].owes.Settled? then s
      else
        s.(size := s.size + (if s.writers[i].owes.OwesPlus? then 1 else -1),
           writers := s.writers[i := s.writers[i].(owes := Settled)])
    case Get(r, key) =>
      if !(r < |s.answers|) then s
      else s.(answers := s.answers[r := s.answers[r] + [Answer(|s.history|, key, Lookup(s.entries, key))]])
  }

  function Run<K, V>(s: State<K, V>, actions: seq<Action<K>>): State<K, V>
    decreases |actions|
  {
    if actions == [] then s else Run(Step(s, actions[0]), actions[1..])
  }

  /** A new store, the given writers with their logs still to fold, and the given number of readers. */
  ghost predicate Fresh<K, V>(s: State<K, V>) {
    && s.entries == map[] && s.size == 0 && s.history == []
    && (forall i | 0 <= i < |s.writers| :: s.writers[i].done == 0 && s.writers[i].owes.Settled?)
    && (forall r | 0 <= r < |s.answers| :: s.answers[r] == [])
  }

  function Owing<K, V>(writers: seq<Writer<K, V>>, debt: Debt): nat {
    if writers == [] then 0
    else Owing(writers[..|writers| - 1], debt) + if writers[|writers| - 1].owes == debt then 1 else 0
  }

  lemma {:induction false} OwingUpdate<K, V>(writers: seq<Writer<K, V>>, i: nat, w: Writer<K, V>, debt: Debt)
    requires i < |writers|
    ensures Owing(writers[i := w], debt) ==
            Owing(writers, debt) - (if writers[i].owes == debt then 1 else 0) + (if w.owes == debt then 1 else 0)
    decreases |writers|
  {
    var init := writers[..|writers| - 1];
    if i < |init| {
      assert writers[i := w][..|writers| - 1] == init[i := w];
      OwingUpdate(init, i, w, debt);
    } else {
      assert writers[i := w][..|writers| - 1] == init;
    }
  }

  lemma {:induction false} OwingBound<K, V>(writers: seq<Writer<K, V>>)
    ensures Owing(writers, OwesPlus) + Owing(writers, OwesMinus) <= |writers|
    ensures (forall i | 0 <= i < |writers| :: writers[i].owes.Settled?) ==>
              Owing(writers, OwesPlus) == Owing(writers, OwesMinus) == 0
    decreases |writers|
  {
    if writers != [] {
      OwingBound(writers[..|writers| - 1]);
    }
  }

  // The size counter.

  /** Entries are the counter, plus inserts not yet counted, minus removals not yet counted. */
  ghost predicate Accounted<K, V>(s: State<K, V>) {
    |s.entries| == s.size + Owing(s.writers, OwesPlus) - Owing(s.writers, OwesMinus)
  }

  lemma SizeAfterChange<K, V>(entries: map<K, V>, e: Effect<K, V>)
    ensures |Change(entries, e)| ==
            |entries| + (match Debit(entries, e) case OwesPlus => 1 case OwesMinus => -1 case Settled => 0)
  {
    match e
    case Upsert(key, value) => SizeAfterSet(entries, key, value);
    case Delete(key) => SizeAfterRemove(entries, key);
    case _ =>
  }

  lemma StepAccounted<K, V>(s: State<K, V>, a: Action<K>)
    requires Accounted(s)
    ensures Accounted(Step(s, a)) && |Step(s, a).writers| == |s.writers|
  {
    if !a.Get? && a.w < |s.writers| {
      var w := s.writers[a.w];
      var w' := Step(s, a).writers[a.w];
      OwingUpdate(s.writers, a.w, w', OwesPlus);
      OwingUpdate(s.writers, a.w, w', OwesMinus);
      if w.done < |w.log| {
        SizeAfterChange(s.entries, EffectOf(w.binding, w.log[w.done]));
      }
    }
  }

  lemma {:induction false} RunAccounted<K, V>(s: State<K, V>, actions: seq<Action<K>>)
    requires Accounted(s)
    ensures Accounted(Run(s, actions)) && |Run(s, actions).writers| == |s.writers|
    decreases |actions|
  {
    hide Accounted, Step;
    if actions != [] {
      StepAccounted(s, actions[0]);
      RunAccounted(Step(s, actions[0]), actions[1..]);
    }
  }

  /**
    Len in every run: right exactly when as many inserts as removals are
    uncounted — so whenever no writer is between its steps — and never further
    off than the number of writers.
   */
  lemma LenIsAccounted<K, V>(s0: State<K, V>, actions: seq<Action<K>>)
    requires Fresh(s0)
    ensures var s := Run(s0, actions);
      && |s.entries| == s.size + Owing(s.writers, OwesPlus) - Owing(s.writers, OwesMinus)
      && (s.size == |s.entries| <==> Owing(s.writers, OwesPlus) == Owing(s.writers, OwesMinus))
      && ((forall i | 0 <= i < |s.writers| :: s.writers[i].owes.Settled?) ==> s.size == |s.entries|)
      && |s.entries| - |s0.writers| <= s.size <= |s.entries| + |s0.writers|
  {
    OwingBound(s0.writers);
    RunAccounted(s0, actions);
    OwingBound(Run(s0, actions).writers);
  }

  // Reads.

  function Replayed<K, V>(history: seq<Effect<K, V>>): map<K, V> {
    if history == [] then map[] else Change(Replayed(history[..|history| - 1]), history[|history| - 1])
  }

  /** Every answer is that of the table at some version, and versions never go back. */
  ghost predicate Ordered<K, V>(answers: seq<Answer<K, V>>, history: seq<Effect<K, V>>) {
    && (forall i | 0 <= i < |answers| ::
          && answers[i].version <= |history|
          && answers[i].value == Lookup(Replayed(history[..answers[i].version]), answers[i].key))
    && (forall i, j | 0 <= i <= j < |answers| :: answers[i].version <= answers[j].version)
  }

  ghost predicate Linear<K, V>(s: State<K, V>) {
    && s.entries == Replayed(s.history)
    && (forall r | 0 <= r < |s.answers| :: Ordered(s.answers[r], s.history))
  }

  lemma OrderedGrows<K, V>(answers: seq<Answer<K, V>>, history: seq<Effect<K, V>>, e: Effect<K, V>)
    requires Ordered(answers, history)
    ensures Ordered(answers, history + [e])
  {
    forall i | 0 <= i < |answers|
      ensures (history + [e])[..answers[i].version] == history[..answers[i].version]
    {
    }
  }

  lemma OrderedAnswer<K, V>(answers: seq<Answer<K, V>>, history: seq<Effect<K, V>>, key: K)
    requires Ordered(answers, history)
    ensures Ordered(answers + [Answer(|history|, key, Lookup(Replayed(history), key))], history)
  {
    assert history[..|history|] == history;
  }

  lemma StepLinear<K, V>(s: State<K, V>, a: Action<K>)
    requires Linear(s)
    ensures Linear(Step(s, a)) && |Step(s, a).answers| == |s.answers|
  {
    match a
    case Write(i) =>
      if i < |s.writers| && s.writers[i].owes.Settled? && s.writers[i].done < |s.writers[i].log| {
        var w := s.writers[i];
        var e := EffectOf(w.binding, w.log[w.done]);
        assert (s.history + [e])[..|s.history|] == s.history;
        forall r | 0 <= r < |s.answers|
          ensures Ordered(s.answers[r], s.history + [e])
        {
          OrderedGrows(s.answers[r], s.history, e);
        }
      }
    case Count(_) =>
    case Get(r, key) =>
      if r < |s.answers| {
        OrderedAnswer(s.answers[r], s.history, key);
      }
  }

  lemma {:induction false} RunLinear<K, V>(s: State<K, V>, actions: seq<Action<K>>)
    requires Linear(s)
    ensures Linear(Run(s, actions)) && |Run(s, actions).answers| == |s.answers|
    decreases |actions|
  {
    hide Linear, Step;
    if actions != [] {
      StepLinear(s, actions[0]);
      RunLinear(Step(s, actions[0]), actions[1..]);
    }
  }

  /** Whoever writes: each answer is right for the table at some point, and one reader's points never go back. */
  lemma ReadsAreLinear<K, V>(s0: State<K, V>, actions: seq<Action<K>>, r: nat)
    requires Fresh(s0) && r < |s0.answers|
    ensures var s := Run(s0, actions);
      s.entries == Replayed(s.history) && r < |s.answers| && Ordered(s.answers[r], s.history)
  {
    RunLinear(s0, actions);
  }

  /** The only writer's effects, in the order of its log. */
  ghost predicate Single<K, V>(s: State<K, V>, b: Binding<K, V>, log: seq<Record>) {
    && |s.writers| == 1
    && s.writers[0].binding == b && s.writers[0].log == log
    && |s.history| == s.writers[0].done <= |log|
    && (forall i | 0 <= i < |s.history| :: s.history[i] == EffectOf(b, log[i]))
  }

  lemma {:induction false} RunSingle<K, V>(s: State<K, V>, actions: seq<Action<K>>, b: Binding<K, V>, log: seq<Record>)
    requires Single(s, b, log)
    ensures Single(Run(s, actions), b, log)
    decreases |actions|
  {
    if actions != [] {
      RunSingle(Step(s, actions[0]), actions[1..], b, log);
    }
  }

  lemma {:induction false} ReplayedIsFold<K, V>(history: seq<Effect<K, V>>, b: Binding<K, V>, log: seq<Record>)
    requires |history| <= |log| && forall i | 0 <= i < |history| :: history[i] == EffectOf(b, log[i])
    ensures Replayed(history) == Fold(b, map[], log[..|history|])
    decreases |history|
  {
    if history != [] {
      var n := |history| - 1;
      ReplayedIsFold(history[..n], b, log);
      assert log[..|history|][..n] == log[..n];
    }
  }

  lemma AnswerIsPrefix<K, V>(s: State<K, V>, b: Binding<K, V>, log: seq<Record>, answer: Answer<K, V>)
    requires Single(s, b, log) && answer.version <= |s.history|
    requires answer.value == Lookup(Replayed(s.history[..answer.version]), answer.key)
    ensures answer.version <= |log|
    ensures answer.value == Lookup(Fold(b, map[], log[..answer.version]), answer.key)
  {
    hide EffectOf, Fold, Replayed;
    ReplayedIsFold(s.history[..answer.version], b, log);
  }

  /**
    With a store of its own, a binding's readers see only tables of prefixes of
    its log, each reader's prefixes never shrinking; and Len is off by at most one.
   */
  lemma SingleWriterReads<K, V>(
    s0: State<K, V>, actions: seq<Action<K>>, b: Binding<K, V>, log: seq<Record>, r: nat, i: nat, j: nat)
    requires Fresh(s0) && |s0.writers| == 1 && s0.writers[0].binding == b && s0.writers[0].log == log
    requires r < |s0.answers|
    requires r < |Run(s0, actions).answers| && i <= j < |Run(s0, actions).answers[r]|
    ensures var s := Run(s0, actions);
      var first, second := s.answers[r][i], s.answers[r][j];
      && first.version <= second.version <= |log|
      && first.value == Lookup(Fold(b, map[], log[..first.version]), first.key)
      && second.value == Lookup(Fold(b, map[], log[..second.version]), second.key)
      && |s.entries| - 1 <= s.size <= |s.entries| + 1
  {
    hide Single, Fold, Replayed, Run, Owing;
    var s := Run(s0, actions);
    ReadsAreLinear(s0, actions, r);
    assert Single(s, b, log) by {
      FreshSingle(s0, b, log);
      RunSingle(s0, actions, b, log);
    }
    LenIsAccounted(s0, actions);
    AnswerIsPrefix(s, b, log, s.answers[r][i]);
    AnswerIsPrefix(s, b, log, s.answers[r][j]);
  }

  lemma FreshSingle<K, V>(s: State<K, V>, b: Binding<K, V>, log: seq<Record>)
    requires Fresh(s) && |s.writers| == 1 && s.writers[0].binding == b && s.writers[0].log == log
    ensures Single(s, b, log)
  {
  }

  /** Two bindings that share a store: between the steps of their writes, Len can be negative. */
  lemma LenCanBeNegative<K, V>(
    b: Binding<K, V>, key: K, value: V, put: Record, tombstone: Record, answers: seq<seq<Answer<K, V>>>)
    requires EffectOf(b, put) == Upsert(key, value) && EffectOf(b, tombstone) == Delete(key)
    ensures var s0 := State(map[], 0, [Writer(b, [put], 0, Settled), Writer(b, [tombstone], 0, Settled)], [], answers);
      Step(Step(Step(s0, Write(0)), Write(1)), Count(1)).size == -1
  {
    var w, x := Writer(b, [put], 0, Settled), Writer(b, [tombstone], 0, Settled);
    var s0 := State(map[], 0, [w, x], [], answers);
    var s1 := Step(s0, Write(0));
    assert s1.writers == [w.(done := 1, owes := OwesPlus), x] && key in s1.entries;
    var s2 := Step(s1, Write(1));
    assert s2.writers[1].owes == OwesMinus;
  }
}
