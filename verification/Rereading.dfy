/**
  At-least-once delivery: a reader that may jump back in the log any number of
  times, and so apply records twice, still ends with the table of one clean read.
 */
module Rereading {
  import opened Kafka
  import opened Replay

  datatype Move = Next | JumpBack(to: nat)

  datatype Reader<K, V> = Reader(table: map<K, V>, position: nat)

  /** Applies the next record, or moves to an earlier position; anything else changes nothing. */
  function Advance<K, V>(b: Binding<K, V>, log: seq<Record>, r: Reader<K, V>, move: Move): Reader<K, V> {
    match move
    case Next =>
      if r.position < |log| then Reader(Change(r.table, EffectOf(b, log[r.position])), r.position + 1) else r
    case JumpBack(to) => if to <= r.position then r.(position := to) else r
  }

  function Read<K, V>(b: Binding<K, V>, log: seq<Record>, r: Reader<K, V>, moves: seq<Move>): Reader<K, V>
    decreases |moves|
  {
    if moves == [] then r else Read(b, log, Advance(b, log, r, moves[0]), moves[1..])
  }

  /**
    The reader's answer for k comes from record d, or from before the log when d
    is -1, and no record between d and the reader's position speaks about k.
   */
  ghost predicate Informed<K, V>(b: Binding<K, V>, start: map<K, V>, log: seq<Record>, r: Reader<K, V>, k: K, d: int) {
    && -1 <= d < |log|
    && r.position <= |log|
    && (if d < 0 then Lookup(r.table, k) == Lookup(start, k)
        else Speaks(b, log[d], k) && Lookup(r.table, k) == Says(b, log[d]))
    && forall j | d < j < r.position :: !Speaks(b, log[j], k)
  }

  lemma AdvanceKeepsInformed<K, V>(
    b: Binding<K, V>, start: map<K, V>, log: seq<Record>, r: Reader<K, V>, move: Move, k: K, d: int)
    returns (d': int)
    requires Informed(b, start, log, r, k, d)
    ensures Informed(b, start, log, Advance(b, log, r, move), k, d')
  {
    d' := d;
    if move.Next? && r.position < |log| {
      ChangeAt(b, r.table, log[r.position], k);
      if Speaks(b, log[r.position], k) {
        d' := r.position;
      }
    }
  }

  lemma {:induction false} ReadKeepsInformed<K, V>(
    b: Binding<K, V>, start: map<K, V>, log: seq<Record>, r: Reader<K, V>, moves: seq<Move>, k: K, d: int)
    returns (d': int)
    requires Informed(b, start, log, r, k, d)
    ensures Informed(b, start, log, Read(b, log, r, moves), k, d')
    decreases |moves|
  {
    d' := d;
    if moves != [] {
      d' := AdvanceKeepsInformed(b, start, log, r, moves[0], k, d);
      d' := ReadKeepsInformed(b, start, log, Advance(b, log, r, moves[0]), moves[1..], k, d');
    }
  }

  /** However often the log is re-read from an earlier point, reaching its end gives the replayed table. */
  lemma RereadingIsHarmless<K(!new), V>(b: Binding<K, V>, start: map<K, V>, log: seq<Record>, moves: seq<Move>)
    requires Read(b, log, Reader(start, 0), moves).position == |log|
    ensures Read(b, log, Reader(start, 0), moves).table == Fold(b, start, log)
  {
    var end := Read(b, log, Reader(start, 0), moves);
    forall k
      ensures Lookup(end.table, k) == Lookup(Fold(b, start, log), k)
    {
      var d := ReadKeepsInformed(b, start, log, Reader(start, 0), moves, k, -1);
      LastWordDecides(b, start, log, k);
      assert d == LastWord(b, log, k);
    }
    SameLookups(end.table, Fold(b, start, log));
  }
}
