/** The capsule records that pass between the Mem0 reader, the promoter and the outbox. */
module Capsules {
  import opened Wrappers

  /** The capsule kinds the readers name; any other string is kept as it is. */
  datatype CapsuleKind = Rollup | Cycle | Promotion | Rollback | OtherKind(name: string)

  /** The metadata keys the promoter writes or reads; any other key is kept as it is. */
  datatype MetaKey =
    | Kind | SourceCapsule | SourcePromotion | Machine | Day | ImprovedCount | RolledBackCount
    | MeanDelta | LastKpi | GateExitCode
    | WindowMean | WindowStdev | WindowLatestKpi | WindowSamples | SigmaThreshold
    | OtherKey(name: string)

  /** A metadata value: one of the kind names, or any other text. */
  datatype MetaValue = Named(kind: CapsuleKind) | Text(text: string)

  type Metadata = map<MetaKey, MetaValue>

  /** Instants are nanoseconds counted from the zero time, so 0 is the zero time. */
  type Time = int

  const ZERO_TIME: Time := 0

  /** A capsule as read back from Mem0; the fields the promoter never reads are left out. */
  datatype Capsule = Capsule(
    id: string,
    kind: CapsuleKind,
    machine: string,
    day: string,
    createdAt: Time,
    metadata: Option<Metadata>,
    improved: int,
    rolledBack: int,
    meanDelta: real,
    lastKPI: real)

  const ZERO_CAPSULE := Capsule("", OtherKind(""), "", "", ZERO_TIME, None, 0, 0, 0.0, 0.0)

  /** A capsule queued for upload. */
  datatype OutboxCapsule = OutboxCapsule(
    id: string,
    userID: string,
    text: string,
    metadata: Metadata,
    createdAt: Time)

  /** Reading a missing key yields the empty string. */
  function Lookup(m: Metadata, key: MetaKey): MetaValue {
    if key in m then m[key] else Text("")
  }
}
