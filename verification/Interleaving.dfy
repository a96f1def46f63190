/**
  Partitions need no coordination: how the records of a topic's partitions are
  interleaved does not show in the table. Exactly when that holds, and with
  compaction, what a restart rebuilds.
 */
module Interleaving {
  import opened Wrappers
  import opened Kafka
  import opened Replay
  import opened Compaction

  /** The same records per partition, in the same order within each. */
  ghost predicate SamePartitions(s: seq<Record>, s': seq<Record>) {
    forall p :: Project(s, p) == Project(s', p)
  }

  /** What one partition alone says about k: nothing, or its last word. */
  ghost function PartitionWord<K, V>(b: Binding<K, V>, s: seq<Record>, p: Partition, k: K): Option<Option<V>> {
    var part := Project(s, p);
    var i := LastWord(b, part, k);
    if i < 0 then None else Some(Says(b, part[i]))
  }

  /** No two partitions end on different words about one key. */
  ghost predicate PartitionsAgree<K(!new), V>(b: Binding<K, V>, s: seq<Record>) {
    forall k, p, q | PartitionWord(b, s, p, k).Some? && PartitionWord(b, s, q, k).Some? ::
      PartitionWord(b, s, p, k) == PartitionWord(b, s, q, k)
  }

  /** The last word about k in any interleaving is the last word of its own partition. */
  lemma {:induction false} LastWordIsPartitionWord<K, V>(b: Binding<K, V>, s: seq<Record>, k: K)
    ensures var i := LastWord(b, s, k);
      0 <= i ==> PartitionWord(b, s, s[i].partition, k) == Some(Says(b, s[i]))
    decreases |s|
  {
    if s != [] && 0 <= LastWord(b, s, k) {
      var init, last := s[..|s| - 1], s[|s| - 1];
      var p := s[LastWord(b, s, k)].partition;
      if Speaks(b, last, k) {
        var part := Project(s, p);
        assert part[|part| - 1] == last;
        assert LastWord(b, part, k) == |part| - 1;
      } else {
        LastWordIsPartitionWord(b, init, k);
        var part, part' := Project(init, p), Project(s, p);
        assert last.partition == p ==> part'[..|part'| - 1] == part;
      }
    }
  }

  lemma PartitionWordSpeaks<K, V>(b: Binding<K, V>, s: seq<Record>, p: Partition, k: K)
    requires PartitionWord(b, s, p, k).Some?
    ensures 0 <= LastWord(b, s, k)
  {
    var part := Project(s, p);
    var i := LastWord(b, part, k);
    assert part[i] in s;
    var j :| 0 <= j < |s| && s[j] == part[i];
    assert Speaks(b, s[j], k);
  }

  lemma SamePartitionWords<K, V>(b: Binding<K, V>, s: seq<Record>, s': seq<Record>, k: K)
    requires SamePartitions(s, s')
    ensures forall p :: PartitionWord(b, s, p, k) == PartitionWord(b, s', p, k)
  {
    forall p
      ensures PartitionWord(b, s, p, k) == PartitionWord(b, s', p, k)
    {
      assert Project(s, p) == Project(s', p);
    }
  }

  lemma AgreeingInterleavings<K(!new), V>(b: Binding<K, V>, table: map<K, V>, s: seq<Record>, s': seq<Record>)
    requires PartitionsAgree(b, s) && SamePartitions(s, s')
    ensures Fold(b, table, s) == Fold(b, table, s')
  {
    forall k
      ensures Lookup(Fold(b, table, s), k) == Lookup(Fold(b, table, s'), k)
    {
      SamePartitionWords(b, s, s', k);
      LastWordDecides(b, table, s, k);
      LastWordDecides(b, table, s', k);
      LastWordIsPartitionWord(b, s, k);
      LastWordIsPartitionWord(b, s', k);
      var i, i' := LastWord(b, s, k), LastWord(b, s', k);
      if 0 <= i {
        assert PartitionWord(b, s', s[i].partition, k).Some?;
        PartitionWordSpeaks(b, s', s[i].partition, k);
      }
      if 0 <= i' {
        assert PartitionWord(b, s, s'[i'].partition, k).Some?;
        PartitionWordSpeaks(b, s, s'[i'].partition, k);
      }
    }
    SameLookups(Fold(b, table, s), Fold(b, table, s'));
  }

  /** The records outside partition p, in order. */
  ghost function Others(s: seq<Record>, p: Partition): seq<Record> {
    if s == [] then []
    else
      var rest := Others(s[..|s| - 1], p);
      if s[|s| - 1].partition == p then rest else rest + [s[|s| - 1]]
  }

  lemma {:induction false} ProjectOthers(s: seq<Record>, p: Partition, q: Partition)
    ensures Project(Others(s, p), q) == if q == p then [] else Project(s, q)
    decreases |s|
  {
    if s != [] {
      var init, last := s[..|s| - 1], s[|s| - 1];
      ProjectOthers(init, p, q);
      ProjectAppend(Others(init, p), last, q);
    }
  }

  lemma {:induction false} ProjectTwice(s: seq<Record>, p: Partition, q: Partition)
    ensures Project(Project(s, p), q) == if q == p then Project(s, p) else []
    decreases |s|
  {
    if s != [] {
      var init, last := s[..|s| - 1], s[|s| - 1];
      ProjectTwice(init, p, q);
      ProjectAppend(Project(init, p), last, q);
    }
  }

  /** An interleaving that reads partition p after all the others. */
  ghost function Delayed(s: seq<Record>, p: Partition): seq<Record> {
    Others(s, p) + Project(s, p)
  }

  lemma DelayedIsInterleaving(s: seq<Record>, p: Partition)
    ensures SamePartitions(s, Delayed(s, p))
  {
    forall q
      ensures Project(s, q) == Project(Delayed(s, p), q)
    {
      ProjectConcat(Others(s, p), Project(s, p), q);
      ProjectOthers(s, p, q);
      ProjectTwice(s, p, q);
    }
  }

  lemma DelayedDecides<K, V>(b: Binding<K, V>, table: map<K, V>, s: seq<Record>, p: Partition, k: K)
    requires PartitionWord(b, s, p, k).Some?
    ensures Lookup(Fold(b, table, Delayed(s, p)), k) == PartitionWord(b, s, p, k).value
  {
    FoldConcat(b, table, Others(s, p), Project(s, p));
    LastWordDecides(b, Fold(b, table, Others(s, p)), Project(s, p), k);
  }

  /** The interleaving is invisible exactly when the partitions agree. */
  lemma InterleavingExact<K(!new), V>(b: Binding<K, V>, table: map<K, V>, s: seq<Record>)
    ensures PartitionsAgree(b, s) <==>
            forall s' | SamePartitions(s, s') :: Fold(b, table, s') == Fold(b, table, s)
  {
    if PartitionsAgree(b, s) {
      forall s' | SamePartitions(s, s')
        ensures Fold(b, table, s') == Fold(b, table, s)
      {
        AgreeingInterleavings(b, table, s, s');
      }
    } else {
      var k, p, q :| PartitionWord(b, s, p, k).Some? && PartitionWord(b, s, q, k).Some?
                     && PartitionWord(b, s, p, k) != PartitionWord(b, s, q, k);
      DelayedIsInterleaving(s, p);
      DelayedIsInterleaving(s, q);
      DelayedDecides(b, table, s, p, k);
      DelayedDecides(b, table, s, q, k);
      assert Fold(b, table, Delayed(s, p)) != Fold(b, table, Delayed(s, q));
    }
  }

  /** Records of different partitions never speak about the same key. */
  ghost predicate KeysPartitioned<K(!new), V>(b: Binding<K, V>, s: seq<Record>) {
    forall i, j, k | 0 <= i < |s| && 0 <= j < |s| && Speaks(b, s[i], k) && Speaks(b, s[j], k) ::
      s[i].partition == s[j].partition
  }

  lemma PartitionWordSource<K, V>(b: Binding<K, V>, s: seq<Record>, p: Partition, k: K)
    returns (i: nat)
    requires PartitionWord(b, s, p, k).Some?
    ensures i < |s| && s[i].partition == p && Speaks(b, s[i], k)
  {
    var part := Project(s, p);
    assert part[LastWord(b, part, k)] in s;
    i :| i < |s| && s[i] == part[LastWord(b, part, k)];
  }

  lemma PartitionedAgree<K(!new), V>(b: Binding<K, V>, s: seq<Record>)
    requires KeysPartitioned(b, s)
    ensures PartitionsAgree(b, s)
  {
    forall k, p, q | PartitionWord(b, s, p, k).Some? && PartitionWord(b, s, q, k).Some?
      ensures p == q
    {
      var i := PartitionWordSource(b, s, p, k);
      var j := PartitionWordSource(b, s, q, k);
    }
  }

  /** A partition that speaks about k holds, on its own, what the whole topic holds for k. */
  lemma PartitionLookup<K(!new), V>(b: Binding<K, V>, s: seq<Record>, p: Partition, k: K)
    requires KeysPartitioned(b, s)
    ensures var part := Lookup(Fold(b, map[], Project(s, p)), k);
      if PartitionWord(b, s, p, k).Some? then part == Lookup(Fold(b, map[], s), k) else part == None
  {
    LastWordDecides(b, map[], Project(s, p), k);
    if PartitionWord(b, s, p, k).Some? {
      var i := PartitionWordSource(b, s, p, k);
      PartitionWordSpeaks(b, s, p, k);
      LastWordDecides(b, map[], s, k);
      LastWordIsPartitionWord(b, s, k);
    }
  }

  /** With keys partitioned, the partitions' own tables are disjoint. */
  lemma TablesDisjoint<K(!new), V>(b: Binding<K, V>, s: seq<Record>, p: Partition, q: Partition)
    requires KeysPartitioned(b, s) && p != q
    ensures Fold(b, map[], Project(s, p)).Keys !! Fold(b, map[], Project(s, q)).Keys
  {
    forall k | k in Fold(b, map[], Project(s, p))
      ensures k !in Fold(b, map[], Project(s, q))
    {
      PartitionLookup(b, s, p, k);
      PartitionLookup(b, s, q, k);
      if PartitionWord(b, s, q, k).Some? {
        var i := PartitionWordSource(b, s, p, k);
        var j := PartitionWordSource(b, s, q, k);
      }
    }
  }

  /** And the topic's table is their union, in whatever interleaving it was read. */
  lemma DisjointUnion<K(!new), V>(b: Binding<K, V>, s: seq<Record>, k: K)
    requires KeysPartitioned(b, s)
    ensures Lookup(Fold(b, map[], s), k).Some? <==> exists p :: k in Fold(b, map[], Project(s, p))
    ensures forall p | k in Fold(b, map[], Project(s, p)) ::
      Lookup(Fold(b, map[], s), k) == Lookup(Fold(b, map[], Project(s, p)), k)
  {
    forall p | k in Fold(b, map[], Project(s, p))
      ensures Lookup(Fold(b, map[], s), k) == Lookup(Fold(b, map[], Project(s, p)), k)
    {
      PartitionLookup(b, s, p, k);
    }
    if k in Fold(b, map[], s) {
      LastWordDecides(b, map[], s, k);
      LastWordIsPartitionWord(b, s, k);
      var p := s[LastWord(b, s, k)].partition;
      PartitionLookup(b, s, p, k);
      assert k in Fold(b, map[], Project(s, p));
    }
  }

  ghost predicate IsCompaction(log: seq<Record>, log': seq<Record>) {
    exists keep :: Legal(log, keep) && log' == Compact(log, keep)
  }

  /** s' reads, in some interleaving, legal compactions of the partitions s read. */
  ghost predicate ReadsCompacted(s: seq<Record>, s': seq<Record>) {
    forall p :: IsCompaction(Project(s, p), Project(s', p))
  }

  /** Every partition of s is one that compaction leaves meaning the same. */
  ghost predicate PartitionsSafe<K(!new), V>(b: Binding<K, V>, s: seq<Record>) {
    forall p :: CompactionSafe(b, Project(s, p))
  }

  /** What faithful records give: a raw key decides whether, and where, its records are applied. */
  lemma FaithfulPartitions<K(!new), V>(b: Binding<K, V>, s: seq<Record>)
    requires RawKeyDecides(b, s) && KeysAgree(b, s)
    ensures PartitionsSafe(b, s)
  {
    forall p
      ensures CompactionSafe(b, Project(s, p))
    {
      var part := Project(s, p);
      assert forall i | 0 <= i < |part| :: part[i] in s;
      FaithfulIsSafe(b, part);
    }
  }

  /** The last word of a compacted log is the last surviving word. */
  lemma {:induction false} CompactLastWord<K, V>(b: Binding<K, V>, log: seq<Record>, keep: seq<bool>, k: K)
    requires |keep| == |log|
    ensures var compacted := Compact(log, keep);
      var i, i' := LastKept(b, log, keep, k), LastWord(b, compacted, k);
      if i < 0 then i' < 0 else 0 <= i' && Says(b, compacted[i']) == Says(b, log[i])
    decreases |log|
  {
    if log != [] {
      var init, last, rest := log[..|log| - 1], log[|log| - 1], keep[..|log| - 1];
      CompactLastWord(b, init, rest, k);
      if keep[|init|] {
        assert (Compact(init, rest) + [last])[..|Compact(init, rest)|] == Compact(init, rest);
      }
    }
  }

  /** An anchored key keeps its last word through any legal compaction. */
  lemma SafeKeepsWord<K(!new), V>(b: Binding<K, V>, log: seq<Record>, keep: seq<bool>, k: K)
    requires CompactionSafe(b, log) && Legal(log, keep)
    ensures var i, i' := LastWord(b, log, k), LastKept(b, log, keep, k);
      if i < 0 then i' < 0 else 0 <= i' && Says(b, log[i']) == Says(b, log[i])
  {
    hide EffectOf, Says;
    if 0 <= LastWord(b, log, k) {
      var i: nat :| Anchor(b, log, k, i);
      assert keep[i];
    }
  }

  /** Compaction does not change what a safe partition says about any key. */
  lemma CompactedPartitionWord<K(!new), V>(b: Binding<K, V>, s: seq<Record>, s': seq<Record>, p: Partition, k: K)
    requires IsCompaction(Project(s, p), Project(s', p))
    requires CompactionSafe(b, Project(s, p))
    ensures PartitionWord(b, s', p, k) == PartitionWord(b, s, p, k)
  {
    var keep :| Legal(Project(s, p), keep) && Project(s', p) == Compact(Project(s, p), keep);
    CompactLastWord(b, Project(s, p), keep, k);
    SafeKeepsWord(b, Project(s, p), keep, k);
  }

  /**
    Reproducibility on restart: a loader that reads the topic again, after any
    compaction of any partition and in any interleaving, rebuilds the same table.
   */
  lemma RestartRebuilds<K(!new), V>(b: Binding<K, V>, table: map<K, V>, s: seq<Record>, s': seq<Record>)
    requires PartitionsSafe(b, s) && PartitionsAgree(b, s)
    requires ReadsCompacted(s, s')
    ensures Fold(b, table, s') == Fold(b, table, s)
  {
    forall k
      ensures Lookup(Fold(b, table, s'), k) == Lookup(Fold(b, table, s), k)
    {
      forall p
        ensures PartitionWord(b, s', p, k) == PartitionWord(b, s, p, k)
      {
        CompactedPartitionWord(b, s, s', p, k);
      }
      LastWordDecides(b, table, s, k);
      LastWordDecides(b, table, s', k);
      LastWordIsPartitionWord(b, s, k);
      LastWordIsPartitionWord(b, s', k);
      var i, i' := LastWord(b, s, k), LastWord(b, s', k);
      if 0 <= i {
        PartitionWordSpeaks(b, s', s[i].partition, k);
      }
      if 0 <= i' {
        PartitionWordSpeaks(b, s, s'[i'].partition, k);
      }
    }
    SameLookups(Fold(b, table, s'), Fold(b, table, s));
  }

  lemma {:induction false} OthersSource(s: seq<Record>, p: Partition, i: nat)
    requires i < |Others(s, p)|
    ensures Others(s, p)[i] in s && Others(s, p)[i].partition != p
    decreases |s|
  {
    var init := s[..|s| - 1];
    if i < |Others(init, p)| {
      OthersSource(init, p, i);
    }
  }

  lemma {:induction false} CompactAll(log: seq<Record>, keep: seq<bool>)
    requires |keep| == |log| && forall i | 0 <= i < |log| :: keep[i]
    ensures Compact(log, keep) == log
    decreases |log|
  {
    if log != [] {
      CompactAll(log[..|log| - 1], keep[..|log| - 1]);
    }
  }

  lemma {:induction false} ProjectCompact(s: seq<Record>, keep: seq<bool>, p: Partition, q: Partition)
    requires |keep| == |s| && forall i | 0 <= i < |s| :: s[i].partition == p
    ensures Project(Compact(s, keep), q) == if q == p then Compact(s, keep) else []
    decreases |s|
  {
    if s != [] {
      var init, last := s[..|s| - 1], s[|s| - 1];
      ProjectCompact(init, keep[..|init|], p, q);
      ProjectAppend(Compact(init, keep[..|init|]), last, q);
    }
  }

  /** Reading a compacted partition p after all the others, which are left as they were. */
  lemma CompactOneReads(s: seq<Record>, p: Partition, keep: seq<bool>)
    requires Legal(Project(s, p), keep)
    ensures ReadsCompacted(s, Others(s, p) + Compact(Project(s, p), keep))
  {
    var s' := Others(s, p) + Compact(Project(s, p), keep);
    forall q
      ensures IsCompaction(Project(s, q), Project(s', q))
    {
      var part := Project(s, q);
      ProjectConcat(Others(s, p), Compact(Project(s, p), keep), q);
      ProjectOthers(s, p, q);
      ProjectCompact(Project(s, p), keep, p, q);
      if q == p {
        assert Project(s', q) == Compact(part, keep);
      } else {
        var all := seq(|part|, _ => true);
        CompactAll(part, all);
        assert Legal(part, all) && Project(s', q) == Compact(part, all);
      }
    }
  }

  /**
    Over a store that may already hold entries, and with keys partitioned,
    rereading gives the same table exactly when every partition is safe.
   */
  lemma SeededRestartExact<K(!new), V>(b: Binding<K, V>, s: seq<Record>, v: V)
    requires KeysPartitioned(b, s)
    ensures PartitionsSafe(b, s) <==>
            forall table: map<K, V>, s' | ReadsCompacted(s, s') :: Fold(b, table, s') == Fold(b, table, s)
  {
    hide Fold, Project, ReadsCompacted, PartitionsAgree, Anchor;
    PartitionedAgree(b, s);
    if PartitionsSafe(b, s) {
      forall table: map<K, V>, s' | ReadsCompacted(s, s')
        ensures Fold(b, table, s') == Fold(b, table, s)
      {
        RestartRebuilds(b, table, s, s');
      }
    } else {
      var p :| !CompactionSafe(b, Project(s, p));
      var k :| 0 <= LastWord(b, Project(s, p), k) && forall i :: !Anchor(b, Project(s, p), k, i);
      var table, keep := UnsafeIsChanged(b, Project(s, p), k, v);
      CompactOneReads(s, p, keep);
      RestartDiffers(b, table, s, p, keep, k);
    }
  }

  lemma RestartDiffers<K(!new), V>(
    b: Binding<K, V>, table: map<K, V>, s: seq<Record>, p: Partition, keep: seq<bool>, k: K)
    requires KeysPartitioned(b, s) && PartitionWord(b, s, p, k).Some?
    requires |keep| == |Project(s, p)|
    requires Lookup(Fold(b, table, Compact(Project(s, p), keep)), k) != Lookup(Fold(b, table, Project(s, p)), k)
    ensures Fold(b, table, Others(s, p) + Compact(Project(s, p), keep)) != Fold(b, table, s)
  {
    var others, part := Others(s, p), Project(s, p);
    var source := PartitionWordSource(b, s, p, k);
    forall i | 0 <= i < |others|
      ensures !Speaks(b, others[i], k)
    {
      OthersSource(s, p, i);
    }
    LastWordDecides(b, table, others, k);
    FoldConcat(b, table, others, Compact(part, keep));
    LastKeptDecides(b, Fold(b, table, others), part, keep, k);
    LastKeptDecides(b, table, part, keep, k);
    LastWordDecides(b, table, part, k);
    LastWordDecides(b, table, s, k);
    PartitionWordSpeaks(b, s, p, k);
    LastWordIsPartitionWord(b, s, k);
  }

  // What exactly a restart reproduces: a new loader folds whatever compaction has
  // left, in whatever interleaving, into a new store.

  /** A later record of the partition speaks about k and cannot be compacted away. */
  ghost predicate Outlived<K, V>(b: Binding<K, V>, part: seq<Record>, k: K, i: int) {
    exists j: nat :: i < j < |part| && Speaks(b, part[j], k) && !Superseded(part, j)
  }

  /**
    A restart keeps what k looks up: a record that says otherwise is always
    outlived in its partition, and if k has an entry, some record that speaks
    about k cannot be compacted away.
   */
  ghost predicate Reproduced<K, V>(b: Binding<K, V>, s: seq<Record>, k: K) {
    var r := Lookup(Fold(b, map[], s), k);
    && (forall p, i | 0 <= i < |Project(s, p)| && Speaks(b, Project(s, p)[i], k) && Says(b, Project(s, p)[i]) != r ::
          Outlived(b, Project(s, p), k, i))
    && (r.Some? ==> exists p :: Outlived(b, Project(s, p), k, -1))
  }

  /** The last surviving word of a partition about k, when there is one, is what k looked up. */
  lemma SurvivorAgrees<K, V>(b: Binding<K, V>, s: seq<Record>, s': seq<Record>, p: Partition, k: K)
    requires Reproduced(b, s, k) && IsCompaction(Project(s, p), Project(s', p))
    ensures PartitionWord(b, s', p, k).Some? ==> PartitionWord(b, s', p, k).value == Lookup(Fold(b, map[], s), k)
    ensures Outlived(b, Project(s, p), k, -1) ==> PartitionWord(b, s', p, k).Some?
  {
    hide EffectOf, Fold, Superseded, Project;
    var part := Project(s, p);
    var keep :| Legal(part, keep) && Project(s', p) == Compact(part, keep);
    CompactLastWord(b, part, keep, k);
    var i := LastKept(b, part, keep, k);
    assert forall j: nat | j < |part| :: keep[j] || Superseded(part, j);
    if Outlived(b, part, k, -1) {
      var j: nat :| -1 < j < |part| && Speaks(b, part[j], k) && !Superseded(part, j);
      assert keep[j];
    }
  }

  lemma ReproducedLookup<K, V>(b: Binding<K, V>, s: seq<Record>, s': seq<Record>, k: K)
    requires Reproduced(b, s, k) && ReadsCompacted(s, s')
    ensures Lookup(Fold(b, map[], s'), k) == Lookup(Fold(b, map[], s), k)
  {
    hide EffectOf, Fold, Superseded, Project, IsCompaction, Outlived, PartitionWord;
    LastWordDecides(b, map[], s', k);
    LastWordIsPartitionWord(b, s', k);
    var i := LastWord(b, s', k);
    if 0 <= i {
      SurvivorAgrees(b, s, s', s'[i].partition, k);
    } else if Lookup(Fold(b, map[], s), k).Some? {
      var p :| Outlived(b, Project(s, p), k, -1);
      SurvivorAgrees(b, s, s', p, k);
      PartitionWordSpeaks(b, s', p, k);
    }
  }

  /** The first half fails: sparing the record that says otherwise, and reading its partition last, changes k's entry. */
  lemma UnoutlivedIsChanged<K, V>(b: Binding<K, V>, s: seq<Record>, p: Partition, k: K, i: nat)
    returns (s': seq<Record>)
    requires i < |Project(s, p)| && Speaks(b, Project(s, p)[i], k) && !Outlived(b, Project(s, p), k, i)
    ensures ReadsCompacted(s, s')
    ensures Lookup(Fold(b, map[], s'), k) == Says(b, Project(s, p)[i])
  {
    hide EffectOf, Fold, Project, Superseded, ReadsCompacted;
    var part := Project(s, p);
    var keep := Harshest(part, i);
    s' := Others(s, p) + Compact(part, keep);
    CompactOneReads(s, p, keep);
    assert LastKept(b, part, keep, k) == i;
    FoldConcat(b, map[], Others(s, p), Compact(part, keep));
    LastKeptDecides(b, Fold(b, map[], Others(s, p)), part, keep, k);
  }

  /** Reads the listed partitions of s in their harshest compaction, and the others as they are. */
  ghost function HarshestRead(s: seq<Record>, ps: seq<Partition>): seq<Record> {
    if ps == [] then s
    else
      var p := ps[|ps| - 1];
      Others(HarshestRead(s, ps[..|ps| - 1]), p) + Compact(Project(s, p), Harshest(Project(s, p), -1))
  }

  lemma {:induction false} ProjectHarshest(s: seq<Record>, ps: seq<Partition>, q: Partition)
    ensures Project(HarshestRead(s, ps), q) ==
            if q in ps then Compact(Project(s, q), Harshest(Project(s, q), -1)) else Project(s, q)
    decreases |ps|
  {
    hide Project, Others, Compact, Superseded;
    if ps != [] {
      var rest, p := ps[..|ps| - 1], ps[|ps| - 1];
      assert ps == rest + [p];
      var keep := Harshest(Project(s, p), -1);
      ProjectHarshest(s, rest, q);
      ProjectConcat(Others(HarshestRead(s, rest), p), Compact(Project(s, p), keep), q);
      ProjectOthers(HarshestRead(s, rest), p, q);
      ProjectCompact(Project(s, p), keep, p, q);
    }
  }

  /** The second half fails: when every record about k can be compacted away, k can lose its entry. */
  lemma UnretainedIsLost<K, V>(b: Binding<K, V>, s: seq<Record>, k: K)
    returns (s': seq<Record>)
    requires forall p :: !Outlived(b, Project(s, p), k, -1)
    ensures ReadsCompacted(s, s')
    ensures Lookup(Fold(b, map[], s'), k) == None
  {
    hide EffectOf, Fold, Project, Superseded, HarshestRead;
    var ps := seq(|s|, i requires 0 <= i < |s| => s[i].partition);
    s' := HarshestRead(s, ps);
    forall i | 0 <= i < |s|
      ensures s[i].partition in ps
    {
      assert ps[i] == s[i].partition;
    }
    forall q
      ensures IsCompaction(Project(s, q), Project(s', q)) && PartitionWord(b, s', q, k).None?
    {
      HarshestCovers(b, s, ps, q, k);
    }
    LastWordDecides(b, map[], s', k);
    LastWordIsPartitionWord(b, s', k);
  }

  lemma HarshestCovers<K, V>(b: Binding<K, V>, s: seq<Record>, ps: seq<Partition>, q: Partition, k: K)
    requires !Outlived(b, Project(s, q), k, -1)
    requires forall i | 0 <= i < |s| :: s[i].partition in ps
    ensures IsCompaction(Project(s, q), Project(HarshestRead(s, ps), q))
    ensures PartitionWord(b, HarshestRead(s, ps), q, k).None?
  {
    hide EffectOf, Superseded, HarshestRead;
    var part := Project(s, q);
    var keep := Harshest(part, -1);
    ProjectHarshest(s, ps, q);
    if part != [] {
      assert part[0] in s;
    }
    CompactLastWord(b, part, keep, k);
  }

  /**
    Reproducibility on restart, exactly: a new loader, reading any legal
    compaction of every partition in any interleaving into a new store, rebuilds
    the same table always if and only if each key is reproduced. Keys may be
    derived from payloads and partitions may share them.
   */
  lemma RestartExact<K(!new), V>(b: Binding<K, V>, s: seq<Record>)
    ensures (forall k :: Reproduced(b, s, k)) <==>
            forall s' | ReadsCompacted(s, s') :: Fold(b, map[], s') == Fold(b, map[], s)
  {
    hide EffectOf, Fold, Project, ReadsCompacted, Outlived;
    if forall k :: Reproduced(b, s, k) {
      forall s' | ReadsCompacted(s, s')
        ensures Fold(b, map[], s') == Fold(b, map[], s)
      {
        forall k
          ensures Lookup(Fold(b, map[], s'), k) == Lookup(Fold(b, map[], s), k)
        {
          ReproducedLookup(b, s, s', k);
        }
        SameLookups(Fold(b, map[], s'), Fold(b, map[], s));
      }
    } else {
      var k :| !Reproduced(b, s, k);
      var s' := UnreproducedIsChanged(b, s, k);
    }
  }

  lemma UnreproducedIsChanged<K, V>(b: Binding<K, V>, s: seq<Record>, k: K)
    returns (s': seq<Record>)
    requires !Reproduced(b, s, k)
    ensures ReadsCompacted(s, s')
    ensures Lookup(Fold(b, map[], s'), k) != Lookup(Fold(b, map[], s), k)
  {
    hide EffectOf, Fold, Project, ReadsCompacted, Outlived;
    var r := Lookup(Fold(b, map[], s), k);
    if r.Some? && forall p :: !Outlived(b, Project(s, p), k, -1) {
      s' := UnretainedIsLost(b, s, k);
    } else {
      var p, i :| 0 <= i < |Project(s, p)| && Speaks(b, Project(s, p)[i], k)
                  && Says(b, Project(s, p)[i]) != r && !Outlived(b, Project(s, p), k, i);
      s' := UnoutlivedIsChanged(b, s, p, k, i);
    }
  }
}
