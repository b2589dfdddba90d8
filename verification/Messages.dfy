/** The values a queue works on: identifiers, persisted records, in-memory messages,
    subscriber replies, configurations and counters. */
module Messages {

  datatype Option<+T> = None | Some(value: T)

  /** GUIDs are opaque; only equality and Guid.Empty matter. */
  type Guid = nat
  const EMPTY_GUID: Guid := 0

  /** Ticks. The clock is always a parameter. */
  type Time = int
  type Duration = int

  const U64_LIMIT: nat := 0x1_0000_0000_0000_0000
  const DEFAULT_MAX_OUTSTANDING: int := 5
  const PERSISTENT_MESSAGES_BUFFER_SIZE: nat := 5000
  const PERSISTENT_MESSAGES_MIN_BUFFER: nat := 1000

  datatype MessageState = Ready | OutForDelivery | DeadLetter | Drop | Shutdown

  predicate Terminal(state: MessageState) {
    state == Drop || state == DeadLetter
  }

  /** The part of a message that is serialized; everything else is marked as ignored by JSON. */
  datatype Record = Record(
    queueName: string,
    serial: nat,
    messageId: Guid,
    timestamp: Time,
    deferredCount: nat,
    deferredUntil: Option<Time>,
    deferDuration: Option<Duration>,
    typeName: string,
    body: string)

  datatype Message = Message(
    rec: Record,
    state: MessageState,
    attempts: map<Guid, nat>,
    satisfied: set<Guid>,
    consumed: set<Guid>,
    limitReached: set<Guid>)

  /** A message as its constructor or the deserializer leaves it. */
  function Fresh(rec: Record): Message {
    Message(rec, Ready, map[], {}, {}, {})
  }

  /** What a dead-letter queue keeps of a message; the deferral is not carried over. */
  function DeadLetterRecord(rec: Record, queueName: string, serial: nat): Record {
    Record(queueName, serial, rec.messageId, rec.timestamp, rec.deferredCount, None, None, rec.typeName, rec.body)
  }

  /** `Failed` is a delivery query that throws; `Unexpected` is an answer whose disposition no branch handles. */
  datatype Reply =
    | Consumed
    | NotInterested
    | NotConsumed
    | Defer(duration: Option<Duration>)
    | RequestDeadLetter
    | RequestDrop
    | Unexpected
    | Failed

  datatype ConsumptionScheme = AllSubscribersSatisfied | FirstConsumedSubscriber
  datatype DeliveryScheme = Balanced | Random
  datatype PersistenceScheme = Ephemeral | Persistent

  datatype DeadLetterConfig = DeadLetterConfig(
    maxAttempts: int,
    maxAge: Option<Duration>,
    consumption: ConsumptionScheme,
    delivery: DeliveryScheme,
    persistence: PersistenceScheme)
  {
    /** The companion queue: it has no dead-letter queue of its own. */
    function ToConfiguration(parentQueueName: string): Config {
      Config(parentQueueName + ".dlq", true, DEFAULT_MAX_OUTSTANDING, true, maxAttempts, maxAge,
             consumption, delivery, persistence, None)
    }
  }

  datatype Config = Config(
    name: string,
    asynchronous: bool,
    maxOutstanding: int,
    isDeadLetter: bool,
    maxAttempts: int,
    maxAge: Option<Duration>,
    consumption: ConsumptionScheme,
    delivery: DeliveryScheme,
    persistence: PersistenceScheme,
    dlq: Option<DeadLetterConfig>)

  datatype Statistics = Statistics(
    received: nat,
    expired: nat,
    delivered: nat,
    failed: nat,
    deferred: nat,
    explicitDrop: nat,
    explicitDeadLetter: nat)
}
