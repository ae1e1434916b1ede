/** The wire-level vocabulary of yascheduler: integer widths, names, and the specs that jobs and executors carry. */
module ProtocolTypes {

  type uint8 = x: int | 0 <= x < 0x100
  type uint16 = x: int | 0 <= x < 0x1_0000
  type uint32 = x: int | 0 <= x < 0x1_0000_0000
  type uint64 = x: int | 0 <= x < 0x1_0000_0000_0000_0000
  type int64 = x: int | -0x8000_0000_0000_0000 <= x < 0x8000_0000_0000_0000

  const TWO_TO_32 := 0x1_0000_0000
  const TWO_TO_64 := 0x1_0000_0000_0000_0000
  const MAX_INT64 := 0x7FFF_FFFF_FFFF_FFFF

  // A Go string or byte slice.
  type Bytes = seq<uint8>

  const UUID_SIZE := 16
  type UUIDBytes = b: Bytes | |b| == UUID_SIZE witness seq(UUID_SIZE, _ => 0)

  // Identifiers and names that the schedulers and executors compare and index by.
  datatype JobUUID = JobUUID(raw: UUIDBytes) {
    predicate IsZero() {
      forall i | 0 <= i < UUID_SIZE :: raw[i] == 0
    }
  }
  datatype ExecutorType = ExecutorType(name: Bytes)
  datatype InstanceID = InstanceID(name: Bytes)
  datatype Label = Label(name: Bytes)

  const NO_LABEL := Label([])

  type ExecutionID = nat
  type AttemptID = nat

  // No attempt carries this identifier.
  const NO_ATTEMPT: AttemptID := 0

  datatype FunctionSpec = FunctionSpec(name: Bytes, version: Bytes, inputSignature: Bytes, outputSignature: Bytes)

  datatype WireError = WireError(code: uint16, retryable: bool, message: Bytes)

  const SCHEDULE_KIND_ONE_SHOT: uint8 := 1
  const SCHEDULE_KIND_FIXED_INTERVAL: uint8 := 2

  datatype ScheduleSpec = ScheduleSpec(kind: uint8, startUnixNano: int64, intervalMillis: uint64)

  const BACKFILL_MODE_INHERIT: uint8 := 0
  const BACKFILL_MODE_ENABLED: uint8 := 1
  const BACKFILL_MODE_DISABLED: uint8 := 2

  datatype BackfillSpec = BackfillSpec(mode: uint8, maxCount: uint32, maxAgeMillis: uint64)

  const RETRY_POLICY_NONE: uint8 := 1
  const RETRY_POLICY_IMMEDIATE: uint8 := 2
  const RETRY_POLICY_FIXED: uint8 := 3
  const RETRY_POLICY_EXPONENTIAL: uint8 := 4
  const DEFAULT_MAX_RETRIES: uint32 := 3

  datatype RetrySpec = RetrySpec(
    policy: uint8, maxRetries: uint32, initialDelayMillis: uint64, maxDelayMillis: uint64, multiplierBits: uint64)

  const OVERLAP_POLICY_INHERIT: uint8 := 0
  const OVERLAP_POLICY_ALLOW: uint8 := 1
  const OVERLAP_POLICY_SKIP: uint8 := 2

  const PIN_POLICY_PREFERRED: uint8 := 1

  datatype PinSpec = PinSpec(pinned: Label, policy: uint8)

  const RESULT_MODE_DELIVER: uint8 := 1

  const ERROR_CODE_UNKNOWN_FUNCTION: uint16 := 6
  const ERROR_CODE_INCOMPATIBLE_FUNCTION: uint16 := 7

  const DEFAULT_MAX_LABELS: uint32 := 64
}
