/**
  The broker and librdkafka as the driver sees them: one topic whose partitions
  may be appended to at any moment, and a consumer that reads each of them from
  the beginning, in order.
 */
module Kafka {
  /** An int32 partition id; ids are only ever compared. */
  type Partition = int

  newtype Byte = b: int | 0 <= b < 256

  /** A Go byte slice: nil and empty are different payloads. */
  datatype Bytes = Nil | Data(bytes: seq<Byte>)

  datatype Record = Record(partition: Partition, key: Bytes, payload: Bytes)

  type Logs = map<Partition, seq<Record>>

  datatype ErrorCode = Transport | AllBrokersDown | OtherCode(code: int)

  /** What librdkafka's Poll returns. */
  datatype RawEvent =
    | Message(rec: Record)
    | PartitionEof(partition: Partition)
    | KafkaError(code: ErrorCode, fatal: bool)
    | NoEvent
    | OtherEvent

  /** A topic and the consumer's position in each of its partitions. */
  datatype Topic = Topic(logs: Logs, position: map<Partition, nat>)

  /** What the broker does during one poll: records arrive, then it answers. */
  datatype Turn = Turn(arrivals: seq<Record>, answer: Answer)

  datatype Answer =
    | Deliver(partition: Partition)
    | ReportEnd(partition: Partition)
    | Break(code: ErrorCode, fatal: bool)
    | Quiet
    | Other

  ghost predicate WellFormed(logs: Logs) {
    forall p, i | p in logs && 0 <= i < |logs[p]| :: logs[p][i].partition == p
  }

  /** Every partition assigned at its beginning. */
  function AssignFromBeginning(logs: Logs): Topic {
    Topic(logs, map p | p in logs :: 0)
  }

  /** New records land at the end of their partition; the partition set is fixed at assignment. */
  function Arrive(logs: Logs, arrivals: seq<Record>): Logs
    decreases |arrivals|
  {
    if arrivals == [] then logs
    else
      var rec := arrivals[0];
      Arrive(if rec.partition in logs then logs[rec.partition := logs[rec.partition] + [rec]] else logs, arrivals[1..])
  }

  /**
    One poll of the native handle. An end of partition is reported only when the
    position equals the partition's length at that moment.
   */
  function NativePoll(t: Topic, turn: Turn): (Topic, RawEvent) {
    var logs := Arrive(t.logs, turn.arrivals);
    var now := t.(logs := logs);
    match turn.answer
    case Deliver(p) =>
      if p in logs && p in t.position && t.position[p] < |logs[p]| then
        (Topic(logs, t.position[p := t.position[p] + 1]), Message(logs[p][t.position[p]]))
      else (now, NoEvent)
    case ReportEnd(p) =>
      if p in logs && p in t.position && t.position[p] == |logs[p]| then (now, PartitionEof(p)) else (now, NoEvent)
    case Break(code, fatal) => (now, KafkaError(code, fatal))
    case Quiet => (now, NoEvent)
    case Other => (now, OtherEvent)
  }

  /** The records of one partition, in order. */
  function Project(recs: seq<Record>, p: Partition): (r: seq<Record>)
    ensures forall i | 0 <= i < |r| :: r[i].partition == p && r[i] in recs
  {
    if recs == [] then []
    else
      var rest := Project(recs[..|recs| - 1], p);
      if recs[|recs| - 1].partition == p then rest + [recs[|recs| - 1]] else rest
  }

  lemma ProjectAppend(recs: seq<Record>, rec: Record, p: Partition)
    ensures Project(recs + [rec], p) == if rec.partition == p then Project(recs, p) + [rec] else Project(recs, p)
  {
    assert (recs + [rec])[..|recs|] == recs;
  }

  lemma {:induction false} ProjectConcat(a: seq<Record>, b: seq<Record>, p: Partition)
    ensures Project(a + b, p) == Project(a, p) + Project(b, p)
    decreases |b|
  {
    if b == [] {
      assert a + b == a;
    } else {
      var init, last := b[..|b| - 1], b[|b| - 1];
      assert a + b == (a + init) + [last];
      assert b == init + [last];
      ProjectConcat(a, init, p);
      ProjectAppend(a + init, last, p);
      ProjectAppend(init, last, p);
    }
  }

  lemma {:induction false} ArriveGrows(logs: Logs, arrivals: seq<Record>)
    requires WellFormed(logs)
    ensures WellFormed(Arrive(logs, arrivals))
    ensures Arrive(logs, arrivals).Keys == logs.Keys
    ensures forall p | p in logs :: logs[p] <= Arrive(logs, arrivals)[p]
    decreases |arrivals|
  {
    if arrivals != [] {
      var rec := arrivals[0];
      var next := if rec.partition in logs then logs[rec.partition := logs[rec.partition] + [rec]] else logs;
      assert next.Keys == logs.Keys;
      ArriveGrows(next, arrivals[1..]);
    }
  }

  /**
    What the consumer has delivered so far, measured against the logs as they
    were at assignment: per partition, exactly a prefix of the partition's log.
   */
  ghost predicate Tracks(first: Logs, t: Topic, delivered: seq<Record>) {
    && t.logs.Keys == first.Keys
    && t.position.Keys == first.Keys
    && WellFormed(t.logs)
    && (forall p | p in first :: first[p] <= t.logs[p] && t.position[p] <= |t.logs[p]|)
    && (forall p | p in first :: Project(delivered, p) == t.logs[p][..t.position[p]])
    && (forall i | 0 <= i < |delivered| :: delivered[i].partition in first)
  }

  /** The records a poll handed over: none or one. */
  function Handed(ev: RawEvent): seq<Record> {
    if ev.Message? then [ev.rec] else []
  }

  /** The partition has been read at least as far as it reached at assignment. */
  ghost predicate Caught(first: Logs, t: Topic, p: Partition) {
    p in first && p in t.position && |first[p]| <= t.position[p]
  }

  lemma ArriveTracks(first: Logs, t: Topic, delivered: seq<Record>, arrivals: seq<Record>)
    requires Tracks(first, t, delivered)
    ensures Tracks(first, t.(logs := Arrive(t.logs, arrivals)), delivered)
  {
    ArriveGrows(t.logs, arrivals);
    var logs := Arrive(t.logs, arrivals);
    forall p | p in first
      ensures first[p] <= logs[p] && t.position[p] <= |logs[p]|
      ensures Project(delivered, p) == logs[p][..t.position[p]]
    {
      assert t.logs[p] <= logs[p];
      assert t.logs[p][..t.position[p]] == logs[p][..t.position[p]];
    }
  }

  lemma DeliverProjects(t: Topic, delivered: seq<Record>, p: Partition, q: Partition)
    requires p in t.logs && p in t.position && t.position[p] < |t.logs[p]|
    requires t.logs[p][t.position[p]].partition == p
    requires q in t.logs && q in t.position && t.position[q] <= |t.logs[q]|
    requires Project(delivered, q) == t.logs[q][..t.position[q]]
    ensures Project(delivered + [t.logs[p][t.position[p]]], q) ==
            t.logs[q][..if q == p then t.position[p] + 1 else t.position[q]]
  {
    hide Project;
    ProjectAppend(delivered, t.logs[p][t.position[p]], q);
  }

  lemma DeliverTracks(first: Logs, t: Topic, delivered: seq<Record>, p: Partition)
    requires Tracks(first, t, delivered)
    requires p in first && t.position[p] < |t.logs[p]|
    ensures Tracks(first, t.(position := t.position[p := t.position[p] + 1]), delivered + [t.logs[p][t.position[p]]])
  {
    hide Project;
    var rec := t.logs[p][t.position[p]];
    assert rec.partition == p;
    var position := t.position[p := t.position[p] + 1];
    assert position.Keys == first.Keys;
    forall q | q in first
      ensures Project(delivered + [rec], q) == t.logs[q][..position[q]]
    {
      DeliverProjects(t, delivered, p, q);
    }
  }

  /** Polling delivers in partition order, never moves back, and reports an end only where there is one. */
  lemma PollTracks(first: Logs, t: Topic, delivered: seq<Record>, turn: Turn)
    requires Tracks(first, t, delivered)
    ensures var (t', ev) := NativePoll(t, turn);
      && Tracks(first, t', delivered + Handed(ev))
      && (forall p | Caught(first, t, p) :: Caught(first, t', p))
      && (ev.PartitionEof? ==> Caught(first, t', ev.partition))
  {
    hide WellFormed, Project, Arrive;
    ArriveTracks(first, t, delivered, turn.arrivals);
    var now := t.(logs := Arrive(t.logs, turn.arrivals));
    var (t', ev) := NativePoll(t, turn);
    if ev.Message? {
      DeliverTracks(first, now, delivered, turn.answer.partition);
    } else {
      assert delivered + Handed(ev) == delivered;
    }
  }

  lemma AllAtBeginning(logs: Logs, position: map<Partition, nat>)
    requires position.Keys == logs.Keys && forall p | p in position :: position[p] == 0
    ensures AssignFromBeginning(logs) == Topic(logs, position)
  {
    var start := AssignFromBeginning(logs).position;
    assert start.Keys == position.Keys;
    assert forall p | p in start :: start[p] == position[p];
    assert start == position;
  }

  lemma AssignTracks(logs: Logs)
    requires WellFormed(logs)
    ensures Tracks(logs, AssignFromBeginning(logs), [])
  {
  }
}
