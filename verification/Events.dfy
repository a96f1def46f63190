/** What the driver hands up from one poll, and the errors the library reports. */
module Events {
  import opened Kafka

  datatype Error =
    | Canceled
    | DeadlineExceeded
    | WarmupTimeout
    | EmptyTopic
    | ConsumerClosed
    | NotAssigned
    | TopicNotFound
    | KafkaFailure(code: ErrorCode)
    | AlreadyStarted
    | NoBindings
    | BindAfterStart
    | DuplicateName

  datatype Event =
    | Received(rec: Record)
    | Eof(partition: Partition)
    | Idle
    | Failure(error: Error, fatal: bool)

  /** The driver's reading of a native event; statistics and the like count as idle. */
  function Translate(raw: RawEvent): Event {
    match raw
    case Message(rec) => Received(rec)
    case PartitionEof(p) => Eof(p)
    case KafkaError(code, fatal) => Failure(KafkaFailure(code), fatal)
    case NoEvent => Idle
    case OtherEvent => Idle
  }
}
