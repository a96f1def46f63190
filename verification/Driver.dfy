/** The driver's consumer: one native handle, read whole and in order. */
module Driver {
  import opened Wrappers
  import opened Kafka
  import opened Events
  import opened Connection
  import Throttle

  datatype Result<+T> = Ok(value: T) | Err(error: Error)

  /** The broker's answer to a metadata request for the topic. */
  datatype Metadata =
    | Unanswered(code: ErrorCode)
    | Missing
    | Faulty(code: ErrorCode)
    | Found(ids: seq<Partition>)

  /** One entry of a position query; a negative offset is a logical one. */
  datatype Position = Position(partition: Partition, offset: int)

  class Consumer {
    var topic: Topic
    var partitions: seq<Partition>
    var closed: bool
    var connected: bool
    var nativeCloses: nat
    var lines: seq<Line>
    const errLog: Throttle.Throttle

    constructor (logs: Logs, errorLogInterval: int)
      ensures fresh(errLog) && topic == Topic(logs, map[]) && partitions == []
      ensures !closed && nativeCloses == 0 && lines == []
      ensures Belief() == Connection.Voice(true, Throttle.Ration(errorLogInterval, None, 0))
    {
      topic := Topic(logs, map[]);
      partitions := [];
      closed, connected := false, true;
      nativeCloses := 0;
      lines := [];
      errLog := new Throttle.Throttle(errorLogInterval);
    }

    /** What the consumer believes about the broker, and its ration of error lines. */
    function Belief(): Voice
      reads this, errLog
    {
      Connection.Voice(connected, errLog.View())
    }

    /** Assigns every partition the broker names, from its beginning. */
    method AssignAll(ctx: Option<Error>, metadata: Metadata, refusal: Option<ErrorCode>)
      returns (r: Result<seq<Partition>>)
      requires metadata.Found? ==> topic.logs.Keys == set p | p in metadata.ids
      modifies this`topic, this`partitions
      ensures r.Ok? <==> !closed && ctx.None? && metadata.Found? && metadata.ids != [] && refusal.None?
      ensures r.Ok? ==> r.value == metadata.ids && partitions == r.value && topic == AssignFromBeginning(old(topic.logs))
      ensures r.Err? ==> topic == old(topic) && partitions == old(partitions)
      ensures closed ==> r == Err(ConsumerClosed)
      ensures !closed && ctx.Some? ==> r == Err(ctx.value)
      ensures !closed && ctx.None? && (metadata.Missing? || metadata == Found([])) ==> r == Err(TopicNotFound)
      ensures !closed && ctx.None? && (metadata.Unanswered? || metadata.Faulty?) ==> r == Err(KafkaFailure(metadata.code))
      ensures !closed && ctx.None? && metadata.Found? && metadata.ids != [] && refusal.Some? ==>
        r == Err(KafkaFailure(refusal.value))
    {
      if closed {
        return Err(ConsumerClosed);
      }
      r := DiscoverPartitions(ctx, metadata);
      if r.Err? {
        return;
      }
      var found := r.value;
      var ids: seq<Partition> := [];
      var start: map<Partition, nat> := map[];
      for i := 0 to |found|
        invariant ids == found[..i]
        invariant start.Keys == set p | p in found[..i]
        invariant forall p | p in start :: start[p] == 0
      {
        assert found[..i + 1] == found[..i] + [found[i]];
        start := start[found[i] := 0];
        ids := ids + [found[i]];
      }
      assert found[..|found|] == found;
      if refusal.Some? {
        return Err(KafkaFailure(refusal.value));
      }
      AllAtBeginning(topic.logs, start);
      topic := topic.(position := start);
      partitions := ids;
      r := Ok(ids);
    }

    method DiscoverPartitions(ctx: Option<Error>, metadata: Metadata) returns (r: Result<seq<Partition>>)
      ensures r == (
        if ctx.Some? then Err(ctx.value)
        else
          match metadata
          case Unanswered(code) => Err(KafkaFailure(code))
          case Missing => Err(TopicNotFound)
          case Faulty(code) => Err(KafkaFailure(code))
          case Found(ids) => if ids == [] then Err(TopicNotFound) else Ok(ids))
    {
      if ctx.Some? {
        return Err(ctx.value);
      }
      match metadata
      case Unanswered(code) => return Err(KafkaFailure(code));
      case Missing => return Err(TopicNotFound);
      case Faulty(code) => return Err(KafkaFailure(code));
      case Found(listed) =>
        if |listed| == 0 {
          return Err(TopicNotFound);
        }
        var ids: seq<Partition> := [];
        for i := 0 to |listed|
          invariant ids == listed[..i]
        {
          ids := ids + [listed[i]];
        }
        assert listed[..|listed|] == listed;
        r := Ok(ids);
    }

    /** One poll of the native handle, translated and logged. */
    method Poll(turn: Turn, now: int) returns (ev: Event)
      modifies this`topic, this`connected, this`lines, errLog
      ensures old(closed) ==> ev == Failure(ConsumerClosed, true) && topic == old(topic) && lines == old(lines)
      ensures !old(closed) ==>
        var (topic', raw) := NativePoll(old(topic), turn);
        var (voice, more) := Hear(old(Belief()), raw, now);
        topic == topic' && ev == Translate(raw) && Belief() == voice && lines == old(lines) + more
    {
      if closed {
        return Failure(ConsumerClosed, true);
      }
      var (next, raw) := NativePoll(topic, turn);
      topic := next;
      match raw
      case Message(rec) =>
        NoteConnected();
        ev := Received(rec);
      case PartitionEof(p) =>
        NoteConnected();
        ev := Eof(p);
      case KafkaError(code, fatal) =>
        ev := ClassifyError(code, fatal, now);
      case NoEvent =>
        assert lines == lines + [];
        ev := Idle;
      case OtherEvent =>
        assert lines == lines + [];
        ev := Idle;
    }

    method Log(line: Line)
      modifies this`lines
      ensures lines == old(lines) + [line]
    {
      lines := lines + [line];
    }

    method ClassifyError(code: ErrorCode, fatal: bool, now: int) returns (ev: Event)
      modifies this`connected, this`lines, errLog
      ensures ev == Failure(KafkaFailure(code), fatal)
      ensures var (voice, more) := Hear(old(Belief()), KafkaError(code, fatal), now);
        Belief() == voice && lines == old(lines) + more
    {
      ev := Failure(KafkaFailure(code), fatal);
      if fatal {
        Log(FatalLine);
        return;
      }
      if code.Transport? || code.AllBrokersDown? {
        if connected {
          connected := false;
          Log(Lost);
        } else {
          var allowed, suppressed := errLog.Allow(now);
          if allowed {
            Log(StillUnreachable(suppressed));
          }
        }
      } else {
        var allowed, suppressed := errLog.Allow(now);
        if allowed {
          Log(NonFatal(suppressed));
        }
      }
    }

    method NoteConnected()
      modifies this`connected, this`lines, errLog
      ensures var (voice, more) := Answered(old(Belief()));
        Belief() == voice && lines == old(lines) + more
    {
      if !connected {
        connected := true;
        errLog.Reset();
        Log(Restored);
      }
    }

    /** The next offset per assigned partition, leaving out those with no real position yet. */
    method Positions(answer: Result<seq<Position>>) returns (r: Result<map<Partition, nat>>)
      ensures closed ==> r == Err(ConsumerClosed)
      ensures !closed && partitions == [] ==> r == Err(NotAssigned)
      ensures !closed && partitions != [] && answer.Err? ==> r == Err(answer.error)
      ensures !closed && partitions != [] && answer.Ok? ==>
        && r.Ok?
        && (forall p :: p in r.value <==> exists tp :: tp in answer.value && tp.partition == p && tp.offset >= 0)
        && (forall p | p in r.value :: Position(p, r.value[p]) in answer.value)
    {
      if closed {
        return Err(ConsumerClosed);
      }
      if |partitions| == 0 {
        return Err(NotAssigned);
      }
      if answer.Err? {
        return Err(answer.error);
      }
      var positions := answer.value;
      var out: map<Partition, nat> := map[];
      for i := 0 to |positions|
        invariant forall p :: p in out <==> exists j :: 0 <= j < i && positions[j].partition == p && positions[j].offset >= 0
        invariant forall p | p in out :: Position(p, out[p]) in positions[..i]
      {
        var tp := positions[i];
        assert positions[..i + 1] == positions[..i] + [tp];
        if tp.offset < 0 {
          continue;
        }
        out := out[tp.partition := tp.offset];
      }
      r := Ok(out);
    }

    method Watermarks(answer: Result<(int, int)>) returns (r: Result<(int, int)>)
      ensures r == if closed then Err(ConsumerClosed) else answer
    {
      if closed {
        return Err(ConsumerClosed);
      }
      r := answer;
    }

    /** Releases the native handle the first time it is called, and never again. */
    method Close(refusal: Option<ErrorCode>) returns (r: Result<()>)
      modifies this`closed, this`nativeCloses
      ensures closed
      ensures nativeCloses == old(nativeCloses) + if old(closed) then 0 else 1
      ensures r == if !old(closed) && refusal.Some? then Err(KafkaFailure(refusal.value)) else Ok(())
    {
      var was := closed;
      closed := true;
      if was {
        return Ok(());
      }
      nativeCloses := nativeCloses + 1;
      r := if refusal.Some? then Err(KafkaFailure(refusal.value)) else Ok(());
    }
  }
}
