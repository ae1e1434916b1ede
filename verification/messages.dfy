/**
 * The protocol messages: the fields each one is made of, the inverse laws of encoding and decoding, and the marshalling
 * and unmarshalling of every message type.
 */
module WireMessages {
  import opened Wrappers
  import opened ProtocolTypes
  import opened WireFormat
  import opened WireFields
  import opened WireLimits
  import opened PayloadCodec

  datatype Message =
    | Register(protocolVersion: uint8, executorType: ExecutorType, instanceID: InstanceID, capacity: uint32,
        functions: seq<FunctionSpec>, labels: seq<Label>)
    | RegisterAck(accepted: bool, heartbeatIntervalMillis: uint32, error: Option<WireError>)
    | Heartbeat(inFlight: uint32)
    | HeartbeatAck
    | ExecRequest(jobUUID: JobUUID, executionID: uint64, attemptID: uint64, attemptNumber: uint32,
        function_: FunctionSpec, args: Bytes, scheduledUnixNano: int64, timeoutMillis: uint32, deliverResult: bool)
    | ExecAccept(executionID: uint64, attemptID: uint64, accepted: bool, error: Option<WireError>)
    | ExecResult(executionID: uint64, attemptID: uint64, success: bool, hasValue: bool, result: Bytes,
        error: Option<WireError>)
    | Cancel(executionID: uint64, attemptID: uint64, reason: Bytes)
    | Fault(cause: WireError)
    | JobUpsert(jobUUID: JobUUID, jobKey: Bytes, executorType: ExecutorType, function_: FunctionSpec, args: Bytes,
        schedule: ScheduleSpec, enabled: bool, backfill: BackfillSpec, retry: RetrySpec, overlap: uint8,
        pin: PinSpec, resultMode: uint8)
    | JobUpsertAck(jobKey: Bytes, jobUUID: JobUUID, accepted: bool, error: Option<WireError>)
    | Shutdown(reason: Bytes)
    | LabelUpdate(announce: seq<Label>, withdraw: seq<Label>)
    | LabelUpdateAck(accepted: bool, activeCount: uint32, error: Option<WireError>)
    | ResultDelivery(jobUUID: JobUUID, executionID: uint64, success: bool, hasValue: bool, result: Bytes,
        error: Option<WireError>)
    | ResultDeliveryAck(jobUUID: JobUUID, accepted: bool)
    | JobDelete(jobKey: Bytes, executorType: ExecutorType)
    | JobDeleteAck(jobKey: Bytes, deleted: bool, error: Option<WireError>)

  function TypeOf(m: Message): uint8 {
    match m
    case Register(_, _, _, _, _, _) => 1
    case RegisterAck(_, _, _) => 2
    case Heartbeat(_) => 3
    case HeartbeatAck => 4
    case ExecRequest(_, _, _, _, _, _, _, _, _) => 5
    case ExecAccept(_, _, _, _) => 6
    case ExecResult(_, _, _, _, _, _) => 7
    case Cancel(_, _, _) => 8
    case Fault(_) => 9
    case JobUpsert(_, _, _, _, _, _, _, _, _, _, _, _) => 10
    case JobUpsertAck(_, _, _, _) => 11
    case Shutdown(_) => 12
    case LabelUpdate(_, _) => 13
    case LabelUpdateAck(_, _, _) => 14
    case ResultDelivery(_, _, _, _, _, _) => 15
    case ResultDeliveryAck(_, _) => 16
    case JobDelete(_, _) => 17
    case JobDeleteAck(_, _, _) => 18
  }

  const REGISTER_SCHEMA: seq<Kind> := [U8Kind, StringKind, StringKind, U32Kind, SpecsKind, LabelsKind]
  const REGISTER_ACK_SCHEMA: seq<Kind> := [BoolKind, U32Kind, OptionalErrorKind]
  const HEARTBEAT_SCHEMA: seq<Kind> := [U32Kind]
  const HEARTBEAT_ACK_SCHEMA: seq<Kind> := []
  const EXEC_REQUEST_SCHEMA: seq<Kind> := [UUIDKind, U64Kind, U64Kind, U32Kind, SpecKind, BytesKind, I64Kind,
    U32Kind, BoolKind]
  const EXEC_ACCEPT_SCHEMA: seq<Kind> := [U64Kind, U64Kind, BoolKind, OptionalErrorKind]
  const EXEC_RESULT_SCHEMA: seq<Kind> := [U64Kind, U64Kind, BoolKind, BoolKind, BytesKind, OptionalErrorKind]
  const CANCEL_SCHEMA: seq<Kind> := [U64Kind, U64Kind, StringKind]
  const FAULT_SCHEMA: seq<Kind> := [ErrorKind]
  const JOB_UPSERT_SCHEMA: seq<Kind> := [UUIDKind, StringKind, StringKind, SpecKind, BytesKind, ScheduleKind,
    BoolKind, BackfillKind, RetryKind, U8Kind, PinKind, U8Kind]
  const JOB_UPSERT_ACK_SCHEMA: seq<Kind> := [StringKind, UUIDKind, BoolKind, OptionalErrorKind]
  const SHUTDOWN_SCHEMA: seq<Kind> := [StringKind]
  const LABEL_UPDATE_SCHEMA: seq<Kind> := [LabelsKind, LabelsKind]
  const LABEL_UPDATE_ACK_SCHEMA: seq<Kind> := [BoolKind, U32Kind, OptionalErrorKind]
  const RESULT_DELIVERY_SCHEMA: seq<Kind> := [UUIDKind, U64Kind, BoolKind, BoolKind, ResultKind, OptionalErrorKind]
  const RESULT_DELIVERY_ACK_SCHEMA: seq<Kind> := [UUIDKind, BoolKind]
  const JOB_DELETE_SCHEMA: seq<Kind> := [StringKind, StringKind]
  const JOB_DELETE_ACK_SCHEMA: seq<Kind> := [StringKind, BoolKind, OptionalErrorKind]

  // The kinds of fields a message type is made of.
  function Schema(t: uint8): Option<seq<Kind>> {
    match t
    case 1 => Some(REGISTER_SCHEMA)
    case 2 => Some(REGISTER_ACK_SCHEMA)
    case 3 => Some(HEARTBEAT_SCHEMA)
    case 4 => Some(HEARTBEAT_ACK_SCHEMA)
    case 5 => Some(EXEC_REQUEST_SCHEMA)
    case 6 => Some(EXEC_ACCEPT_SCHEMA)
    case 7 => Some(EXEC_RESULT_SCHEMA)
    case 8 => Some(CANCEL_SCHEMA)
    case 9 => Some(FAULT_SCHEMA)
    case 10 => Some(JOB_UPSERT_SCHEMA)
    case 11 => Some(JOB_UPSERT_ACK_SCHEMA)
    case 12 => Some(SHUTDOWN_SCHEMA)
    case 13 => Some(LABEL_UPDATE_SCHEMA)
    case 14 => Some(LABEL_UPDATE_ACK_SCHEMA)
    case 15 => Some(RESULT_DELIVERY_SCHEMA)
    case 16 => Some(RESULT_DELIVERY_ACK_SCHEMA)
    case 17 => Some(JOB_DELETE_SCHEMA)
    case 18 => Some(JOB_DELETE_ACK_SCHEMA)
    case _ => None
  }

  function Fields(m: Message): seq<Field> {
    match m
    case Register(protocolVersion, executorType, instanceID, capacity, functions, labels) =>
      [U8(protocolVersion), Text(executorType.name), Text(instanceID.name), U32(capacity), Functions(functions),
       Labels(labels)]
    case RegisterAck(accepted, heartbeatIntervalMillis, error) =>
      [Flag(accepted), U32(heartbeatIntervalMillis), Failure(error)]
    case Heartbeat(inFlight) =>
      [U32(inFlight)]
    case HeartbeatAck => []
    case ExecRequest(jobUUID, executionID, attemptID, attemptNumber, function_, args, scheduledUnixNano,
       timeoutMillis, deliverResult) =>
      [UUID(jobUUID), U64(executionID), U64(attemptID), U32(attemptNumber), Function(function_), Blob(args),
       I64(scheduledUnixNano), U32(timeoutMillis), Flag(deliverResult)]
    case ExecAccept(executionID, attemptID, accepted, error) =>
      [U64(executionID), U64(attemptID), Flag(accepted), Failure(error)]
    case ExecResult(executionID, attemptID, success, hasValue, result, error) =>
      [U64(executionID), U64(attemptID), Flag(success), Flag(hasValue), Blob(result), Failure(error)]
    case Cancel(executionID, attemptID, reason) =>
      [U64(executionID), U64(attemptID), Text(reason)]
    case Fault(cause) =>
      [Cause(cause)]
    case JobUpsert(jobUUID, jobKey, executorType, function_, args, schedule, enabled, backfill, retry, overlap, pin,
       resultMode) =>
      [UUID(jobUUID), Text(jobKey), Text(executorType.name), Function(function_), Blob(args), Timing(schedule),
       Flag(enabled), Recovery(backfill), Retries(retry), U8(overlap), Routing(pin), U8(resultMode)]
    case JobUpsertAck(jobKey, jobUUID, accepted, error) =>
      [Text(jobKey), UUID(jobUUID), Flag(accepted), Failure(error)]
    case Shutdown(reason) =>
      [Text(reason)]
    case LabelUpdate(announce, withdraw) =>
      [Labels(announce), Labels(withdraw)]
    case LabelUpdateAck(accepted, activeCount, error) =>
      [Flag(accepted), U32(activeCount), Failure(error)]
    case ResultDelivery(jobUUID, executionID, success, hasValue, result, error) =>
      [UUID(jobUUID), U64(executionID), Flag(success), Flag(hasValue), Held(result), Failure(error)]
    case ResultDeliveryAck(jobUUID, accepted) =>
      [UUID(jobUUID), Flag(accepted)]
    case JobDelete(jobKey, executorType) =>
      [Text(jobKey), Text(executorType.name)]
    case JobDeleteAck(jobKey, deleted, error) =>
      [Text(jobKey), Flag(deleted), Failure(error)]
  }

  function BuildRegister(fs: seq<Field>): Message
    requires Kinds(fs) == REGISTER_SCHEMA
  {
    var kinds := REGISTER_SCHEMA;
    assert forall i | 0 <= i < |fs| :: fs[i].KindOf() == kinds[i];
    Register(fs[0].u8, ExecutorType(fs[1].text), InstanceID(fs[2].text), fs[3].u32, fs[4].specs, fs[5].labels)
  }

  function BuildRegisterAck(fs: seq<Field>): Message
    requires Kinds(fs) == REGISTER_ACK_SCHEMA
  {
    var kinds := REGISTER_ACK_SCHEMA;
    assert forall i | 0 <= i < |fs| :: fs[i].KindOf() == kinds[i];
    RegisterAck(fs[0].flag, fs[1].u32, fs[2].failure)
  }

  function BuildHeartbeat(fs: seq<Field>): Message
    requires Kinds(fs) == HEARTBEAT_SCHEMA
  {
    var kinds := HEARTBEAT_SCHEMA;
    assert forall i | 0 <= i < |fs| :: fs[i].KindOf() == kinds[i];
    Heartbeat(fs[0].u32)
  }

  function BuildExecRequest(fs: seq<Field>): Message
    requires Kinds(fs) == EXEC_REQUEST_SCHEMA
  {
    var kinds := EXEC_REQUEST_SCHEMA;
    assert forall i | 0 <= i < |fs| :: fs[i].KindOf() == kinds[i];
    ExecRequest(fs[0].uuid, fs[1].u64, fs[2].u64, fs[3].u32, fs[4].spec, fs[5].blob, fs[6].i64, fs[7].u32,
      fs[8].flag)
  }

  function BuildExecAccept(fs: seq<Field>): Message
    requires Kinds(fs) == EXEC_ACCEPT_SCHEMA
  {
    var kinds := EXEC_ACCEPT_SCHEMA;
    assert forall i | 0 <= i < |fs| :: fs[i].KindOf() == kinds[i];
    ExecAccept(fs[0].u64, fs[1].u64, fs[2].flag, fs[3].failure)
  }

  function BuildExecResult(fs: seq<Field>): Message
    requires Kinds(fs) == EXEC_RESULT_SCHEMA
  {
    var kinds := EXEC_RESULT_SCHEMA;
    assert forall i | 0 <= i < |fs| :: fs[i].KindOf() == kinds[i];
    ExecResult(fs[0].u64, fs[1].u64, fs[2].flag, fs[3].flag, fs[4].blob, fs[5].failure)
  }

  function BuildCancel(fs: seq<Field>): Message
    requires Kinds(fs) == CANCEL_SCHEMA
  {
    var kinds := CANCEL_SCHEMA;
    assert forall i | 0 <= i < |fs| :: fs[i].KindOf() == kinds[i];
    Cancel(fs[0].u64, fs[1].u64, fs[2].text)
  }

  function BuildFault(fs: seq<Field>): Message
    requires Kinds(fs) == FAULT_SCHEMA
  {
    var kinds := FAULT_SCHEMA;
    assert forall i | 0 <= i < |fs| :: fs[i].KindOf() == kinds[i];
    Fault(fs[0].cause)
  }

  function BuildJobUpsert(fs: seq<Field>): Message
    requires Kinds(fs) == JOB_UPSERT_SCHEMA
  {
    JobUpsertKinds(fs);
    hide Kinds;
    JobUpsert(fs[0].uuid, fs[1].text, ExecutorType(fs[2].text), fs[3].spec, fs[4].blob, fs[5].schedule, fs[6].flag,
      fs[7].backfill, fs[8].retry, fs[9].u8, fs[10].pin, fs[11].u8)
  }

  lemma JobUpsertKinds(fs: seq<Field>)
    requires Kinds(fs) == JOB_UPSERT_SCHEMA
    ensures |fs| == 12
    ensures fs[0].UUID? && fs[1].Text? && fs[2].Text? && fs[3].Function? && fs[4].Blob? && fs[5].Timing?
    ensures fs[6].Flag? && fs[7].Recovery? && fs[8].Retries? && fs[9].U8? && fs[10].Routing? && fs[11].U8?
  {
    var kinds := JOB_UPSERT_SCHEMA;
    forall i | 0 <= i < 12
      ensures fs[i].KindOf() == kinds[i]
    {
      assert Kinds(fs)[i] == kinds[i];
    }
    hide Kinds;
  }

  function BuildJobUpsertAck(fs: seq<Field>): Message
    requires Kinds(fs) == JOB_UPSERT_ACK_SCHEMA
  {
    var kinds := JOB_UPSERT_ACK_SCHEMA;
    assert forall i | 0 <= i < |fs| :: fs[i].KindOf() == kinds[i];
    JobUpsertAck(fs[0].text, fs[1].uuid, fs[2].flag, fs[3].failure)
  }

  function BuildShutdown(fs: seq<Field>): Message
    requires Kinds(fs) == SHUTDOWN_SCHEMA
  {
    var kinds := SHUTDOWN_SCHEMA;
    assert forall i | 0 <= i < |fs| :: fs[i].KindOf() == kinds[i];
    Shutdown(fs[0].text)
  }

  function BuildLabelUpdate(fs: seq<Field>): Message
    requires Kinds(fs) == LABEL_UPDATE_SCHEMA
  {
    var kinds := LABEL_UPDATE_SCHEMA;
    assert forall i | 0 <= i < |fs| :: fs[i].KindOf() == kinds[i];
    LabelUpdate(fs[0].labels, fs[1].labels)
  }

  function BuildLabelUpdateAck(fs: seq<Field>): Message
    requires Kinds(fs) == LABEL_UPDATE_ACK_SCHEMA
  {
    var kinds := LABEL_UPDATE_ACK_SCHEMA;
    assert forall i | 0 <= i < |fs| :: fs[i].KindOf() == kinds[i];
    LabelUpdateAck(fs[0].flag, fs[1].u32, fs[2].failure)
  }

  function BuildResultDelivery(fs: seq<Field>): Message
    requires Kinds(fs) == RESULT_DELIVERY_SCHEMA
  {
    var kinds := RESULT_DELIVERY_SCHEMA;
    assert forall i | 0 <= i < |fs| :: fs[i].KindOf() == kinds[i];
    ResultDelivery(fs[0].uuid, fs[1].u64, fs[2].flag, fs[3].flag, fs[4].held, fs[5].failure)
  }

  function BuildResultDeliveryAck(fs: seq<Field>): Message
    requires Kinds(fs) == RESULT_DELIVERY_ACK_SCHEMA
  {
    var kinds := RESULT_DELIVERY_ACK_SCHEMA;
    assert forall i | 0 <= i < |fs| :: fs[i].KindOf() == kinds[i];
    ResultDeliveryAck(fs[0].uuid, fs[1].flag)
  }

  function BuildJobDelete(fs: seq<Field>): Message
    requires Kinds(fs) == JOB_DELETE_SCHEMA
  {
    var kinds := JOB_DELETE_SCHEMA;
    assert forall i | 0 <= i < |fs| :: fs[i].KindOf() == kinds[i];
    JobDelete(fs[0].text, ExecutorType(fs[1].text))
  }

  function BuildJobDeleteAck(fs: seq<Field>): Message
    requires Kinds(fs) == JOB_DELETE_ACK_SCHEMA
  {
    var kinds := JOB_DELETE_ACK_SCHEMA;
    assert forall i | 0 <= i < |fs| :: fs[i].KindOf() == kinds[i];
    JobDeleteAck(fs[0].text, fs[1].flag, fs[2].failure)
  }

  // The message made of fields that match its schema.
  function Build(t: uint8, fs: seq<Field>): Message
    requires Schema(t) == Some(Kinds(fs))
  {
    match t
    case 1 => BuildRegister(fs)
    case 2 => BuildRegisterAck(fs)
    case 3 => BuildHeartbeat(fs)
    case 4 => HeartbeatAck
    case 5 => BuildExecRequest(fs)
    case 6 => BuildExecAccept(fs)
    case 7 => BuildExecResult(fs)
    case 8 => BuildCancel(fs)
    case 9 => BuildFault(fs)
    case 10 => BuildJobUpsert(fs)
    case 11 => BuildJobUpsertAck(fs)
    case 12 => BuildShutdown(fs)
    case 13 => BuildLabelUpdate(fs)
    case 14 => BuildLabelUpdateAck(fs)
    case 15 => BuildResultDelivery(fs)
    case 16 => BuildResultDeliveryAck(fs)
    case 17 => BuildJobDelete(fs)
    case 18 => BuildJobDeleteAck(fs)
  }

  function Payload(m: Message): Bytes {
    EncodeFields(Fields(m))
  }

  function Decode(t: uint8, payload: Bytes, limits: Limits): Result<Message, WireFault> {
    if Schema(t).None? then Err(UnknownMessageType)
    else
      var kinds := Schema(t).value;
      var fields :- ParseFields([], kinds, payload, limits.Normalized());
      MatchesSchema(kinds, payload, limits.Normalized());
      Ok(Build(t, fields))
  }

  lemma MatchesSchema(kinds: seq<Kind>, payload: Bytes, l: Limits)
    requires ParseFields([], kinds, payload, l).Ok?
    ensures var fields := ParseFields([], kinds, payload, l).value;
            Kinds(fields) == kinds && EncodeFields(fields) == payload && forall f | f in fields :: f.Fits(l)
  {
    FieldsCanonical([], kinds, payload, l);
    var fields := ParseFields([], kinds, payload, l).value;
    assert fields[0..] == fields;
  }

  ghost predicate Fits(m: Message, limits: Limits) {
    forall f | f in Fields(m) :: f.Fits(limits.Normalized())
  }

  lemma SchemaOfRegister(m: Message)
    requires m.Register?
    ensures Kinds(Fields(m)) == REGISTER_SCHEMA && BuildRegister(Fields(m)) == m
  {
  }

  lemma SchemaOfRegisterAck(m: Message)
    requires m.RegisterAck?
    ensures Kinds(Fields(m)) == REGISTER_ACK_SCHEMA && BuildRegisterAck(Fields(m)) == m
  {
  }

  lemma SchemaOfHeartbeat(m: Message)
    requires m.Heartbeat?
    ensures Kinds(Fields(m)) == HEARTBEAT_SCHEMA && BuildHeartbeat(Fields(m)) == m
  {
  }

  lemma SchemaOfExecRequest(m: Message)
    requires m.ExecRequest?
    ensures Kinds(Fields(m)) == EXEC_REQUEST_SCHEMA && BuildExecRequest(Fields(m)) == m
  {
  }

  lemma SchemaOfExecAccept(m: Message)
    requires m.ExecAccept?
    ensures Kinds(Fields(m)) == EXEC_ACCEPT_SCHEMA && BuildExecAccept(Fields(m)) == m
  {
  }

  lemma SchemaOfExecResult(m: Message)
    requires m.ExecResult?
    ensures Kinds(Fields(m)) == EXEC_RESULT_SCHEMA && BuildExecResult(Fields(m)) == m
  {
  }

  lemma SchemaOfCancel(m: Message)
    requires m.Cancel?
    ensures Kinds(Fields(m)) == CANCEL_SCHEMA && BuildCancel(Fields(m)) == m
  {
  }

  lemma SchemaOfFault(m: Message)
    requires m.Fault?
    ensures Kinds(Fields(m)) == FAULT_SCHEMA && BuildFault(Fields(m)) == m
  {
  }

  lemma SchemaOfJobUpsert(m: Message)
    requires m.JobUpsert?
    ensures Kinds(Fields(m)) == JOB_UPSERT_SCHEMA && BuildJobUpsert(Fields(m)) == m
  {
  }

  lemma SchemaOfJobUpsertAck(m: Message)
    requires m.JobUpsertAck?
    ensures Kinds(Fields(m)) == JOB_UPSERT_ACK_SCHEMA && BuildJobUpsertAck(Fields(m)) == m
  {
  }

  lemma SchemaOfShutdown(m: Message)
    requires m.Shutdown?
    ensures Kinds(Fields(m)) == SHUTDOWN_SCHEMA && BuildShutdown(Fields(m)) == m
  {
  }

  lemma SchemaOfLabelUpdate(m: Message)
    requires m.LabelUpdate?
    ensures Kinds(Fields(m)) == LABEL_UPDATE_SCHEMA && BuildLabelUpdate(Fields(m)) == m
  {
  }

  lemma SchemaOfLabelUpdateAck(m: Message)
    requires m.LabelUpdateAck?
    ensures Kinds(Fields(m)) == LABEL_UPDATE_ACK_SCHEMA && BuildLabelUpdateAck(Fields(m)) == m
  {
  }

  lemma SchemaOfResultDelivery(m: Message)
    requires m.ResultDelivery?
    ensures Kinds(Fields(m)) == RESULT_DELIVERY_SCHEMA && BuildResultDelivery(Fields(m)) == m
  {
  }

  lemma SchemaOfResultDeliveryAck(m: Message)
    requires m.ResultDeliveryAck?
    ensures Kinds(Fields(m)) == RESULT_DELIVERY_ACK_SCHEMA && BuildResultDeliveryAck(Fields(m)) == m
  {
  }

  lemma SchemaOfJobDelete(m: Message)
    requires m.JobDelete?
    ensures Kinds(Fields(m)) == JOB_DELETE_SCHEMA && BuildJobDelete(Fields(m)) == m
  {
  }

  lemma SchemaOfJobDeleteAck(m: Message)
    requires m.JobDeleteAck?
    ensures Kinds(Fields(m)) == JOB_DELETE_ACK_SCHEMA && BuildJobDeleteAck(Fields(m)) == m
  {
  }

  lemma SchemaOfFields(m: Message)
    ensures Schema(TypeOf(m)) == Some(Kinds(Fields(m)))
    ensures Build(TypeOf(m), Fields(m)) == m
  {
    hide Kinds, BuildRegister, BuildRegisterAck, BuildHeartbeat, BuildExecRequest, BuildExecAccept, BuildExecResult,
         BuildCancel, BuildFault, BuildJobUpsert, BuildJobUpsertAck, BuildShutdown, BuildLabelUpdate,
         BuildLabelUpdateAck, BuildResultDelivery, BuildResultDeliveryAck, BuildJobDelete, BuildJobDeleteAck;
    match m
    case Register(_, _, _, _, _, _) => SchemaOfRegister(m);
    case RegisterAck(_, _, _) => SchemaOfRegisterAck(m);
    case Heartbeat(_) => SchemaOfHeartbeat(m);
    case HeartbeatAck => assert Kinds([]) == HEARTBEAT_ACK_SCHEMA;
    case ExecRequest(_, _, _, _, _, _, _, _, _) => SchemaOfExecRequest(m);
    case ExecAccept(_, _, _, _) => SchemaOfExecAccept(m);
    case ExecResult(_, _, _, _, _, _) => SchemaOfExecResult(m);
    case Cancel(_, _, _) => SchemaOfCancel(m);
    case Fault(_) => SchemaOfFault(m);
    case JobUpsert(_, _, _, _, _, _, _, _, _, _, _, _) => SchemaOfJobUpsert(m);
    case JobUpsertAck(_, _, _, _) => SchemaOfJobUpsertAck(m);
    case Shutdown(_) => SchemaOfShutdown(m);
    case LabelUpdate(_, _) => SchemaOfLabelUpdate(m);
    case LabelUpdateAck(_, _, _) => SchemaOfLabelUpdateAck(m);
    case ResultDelivery(_, _, _, _, _, _) => SchemaOfResultDelivery(m);
    case ResultDeliveryAck(_, _) => SchemaOfResultDeliveryAck(m);
    case JobDelete(_, _) => SchemaOfJobDelete(m);
    case JobDeleteAck(_, _, _) => SchemaOfJobDeleteAck(m);
  }

  lemma RegisterFields(m: Message)
    requires m.Register?
    ensures TypeOf(m) == 1
    ensures Fields(m) == [U8(m.protocolVersion), Text(m.executorType.name), Text(m.instanceID.name), U32(m.capacity),
                      Functions(m.functions), Labels(m.labels)]
  {
  }

  lemma RegisterAckFields(m: Message)
    requires m.RegisterAck?
    ensures TypeOf(m) == 2
    ensures Fields(m) == [Flag(m.accepted), U32(m.heartbeatIntervalMillis), Failure(m.error)]
  {
  }

  lemma HeartbeatFields(m: Message)
    requires m.Heartbeat?
    ensures TypeOf(m) == 3
    ensures Fields(m) == [U32(m.inFlight)]
  {
  }

  lemma ExecRequestFields(m: Message)
    requires m.ExecRequest?
    ensures TypeOf(m) == 5
    ensures Fields(m) == [UUID(m.jobUUID), U64(m.executionID), U64(m.attemptID), U32(m.attemptNumber),
                      Function(m.function_), Blob(m.args), I64(m.scheduledUnixNano), U32(m.timeoutMillis),
                      Flag(m.deliverResult)]
  {
  }

  lemma ExecAcceptFields(m: Message)
    requires m.ExecAccept?
    ensures TypeOf(m) == 6
    ensures Fields(m) == [U64(m.executionID), U64(m.attemptID), Flag(m.accepted), Failure(m.error)]
  {
  }

  lemma ExecResultFields(m: Message)
    requires m.ExecResult?
    ensures TypeOf(m) == 7
    ensures Fields(m) == [U64(m.executionID), U64(m.attemptID), Flag(m.success), Flag(m.hasValue), Blob(m.result),
                      Failure(m.error)]
  {
  }

  lemma CancelFields(m: Message)
    requires m.Cancel?
    ensures TypeOf(m) == 8
    ensures Fields(m) == [U64(m.executionID), U64(m.attemptID), Text(m.reason)]
  {
  }

  lemma FaultFields(m: Message)
    requires m.Fault?
    ensures TypeOf(m) == 9
    ensures Fields(m) == [Cause(m.cause)]
  {
  }

  lemma JobUpsertFields(m: Message)
    requires m.JobUpsert?
    ensures TypeOf(m) == 10
    ensures Fields(m) == [UUID(m.jobUUID), Text(m.jobKey), Text(m.executorType.name), Function(m.function_),
                      Blob(m.args), Timing(m.schedule), Flag(m.enabled), Recovery(m.backfill), Retries(m.retry),
                      U8(m.overlap), Routing(m.pin), U8(m.resultMode)]
  {
  }

  lemma JobUpsertAckFields(m: Message)
    requires m.JobUpsertAck?
    ensures TypeOf(m) == 11
    ensures Fields(m) == [Text(m.jobKey), UUID(m.jobUUID), Flag(m.accepted), Failure(m.error)]
  {
  }

  lemma ShutdownFields(m: Message)
    requires m.Shutdown?
    ensures TypeOf(m) == 12
    ensures Fields(m) == [Text(m.reason)]
  {
  }

  lemma LabelUpdateFields(m: Message)
    requires m.LabelUpdate?
    ensures TypeOf(m) == 13
    ensures Fields(m) == [Labels(m.announce), Labels(m.withdraw)]
  {
  }

  lemma LabelUpdateAckFields(m: Message)
    requires m.LabelUpdateAck?
    ensures TypeOf(m) == 14
    ensures Fields(m) == [Flag(m.accepted), U32(m.activeCount), Failure(m.error)]
  {
  }

  lemma ResultDeliveryFields(m: Message)
    requires m.ResultDelivery?
    ensures TypeOf(m) == 15
    ensures Fields(m) == [UUID(m.jobUUID), U64(m.executionID), Flag(m.success), Flag(m.hasValue), Held(m.result),
                      Failure(m.error)]
  {
  }

  lemma ResultDeliveryAckFields(m: Message)
    requires m.ResultDeliveryAck?
    ensures TypeOf(m) == 16
    ensures Fields(m) == [UUID(m.jobUUID), Flag(m.accepted)]
  {
  }

  lemma JobDeleteFields(m: Message)
    requires m.JobDelete?
    ensures TypeOf(m) == 17
    ensures Fields(m) == [Text(m.jobKey), Text(m.executorType.name)]
  {
  }

  lemma JobDeleteAckFields(m: Message)
    requires m.JobDeleteAck?
    ensures TypeOf(m) == 18
    ensures Fields(m) == [Text(m.jobKey), Flag(m.deleted), Failure(m.error)]
  {
  }

  lemma FieldsOfRegister(fs: seq<Field>)
    requires Kinds(fs) == REGISTER_SCHEMA
    ensures Fields(BuildRegister(fs)) == fs && TypeOf(BuildRegister(fs)) == 1
  {
    var kinds, m := REGISTER_SCHEMA, BuildRegister(fs);
    RegisterFields(m);
    hide Fields;
    assert Kinds(fs)[0] == kinds[0] && fs[0] == U8(m.protocolVersion);
    assert Kinds(fs)[1] == kinds[1] && fs[1] == Text(m.executorType.name);
    assert Kinds(fs)[2] == kinds[2] && fs[2] == Text(m.instanceID.name);
    assert Kinds(fs)[3] == kinds[3] && fs[3] == U32(m.capacity);
    assert Kinds(fs)[4] == kinds[4] && fs[4] == Functions(m.functions);
    assert Kinds(fs)[5] == kinds[5] && fs[5] == Labels(m.labels);
  }

  lemma FieldsOfRegisterAck(fs: seq<Field>)
    requires Kinds(fs) == REGISTER_ACK_SCHEMA
    ensures Fields(BuildRegisterAck(fs)) == fs && TypeOf(BuildRegisterAck(fs)) == 2
  {
    var kinds, m := REGISTER_ACK_SCHEMA, BuildRegisterAck(fs);
    RegisterAckFields(m);
    hide Fields;
    assert Kinds(fs)[0] == kinds[0] && fs[0] == Flag(m.accepted);
    assert Kinds(fs)[1] == kinds[1] && fs[1] == U32(m.heartbeatIntervalMillis);
    assert Kinds(fs)[2] == kinds[2] && fs[2] == Failure(m.error);
  }

  lemma FieldsOfHeartbeat(fs: seq<Field>)
    requires Kinds(fs) == HEARTBEAT_SCHEMA
    ensures Fields(BuildHeartbeat(fs)) == fs && TypeOf(BuildHeartbeat(fs)) == 3
  {
    var kinds, m := HEARTBEAT_SCHEMA, BuildHeartbeat(fs);
    HeartbeatFields(m);
    hide Fields;
    assert Kinds(fs)[0] == kinds[0] && fs[0] == U32(m.inFlight);
  }

  lemma FieldsOfExecRequest(fs: seq<Field>)
    requires Kinds(fs) == EXEC_REQUEST_SCHEMA
    ensures Fields(BuildExecRequest(fs)) == fs && TypeOf(BuildExecRequest(fs)) == 5
  {
    var kinds, m := EXEC_REQUEST_SCHEMA, BuildExecRequest(fs);
    ExecRequestFields(m);
    hide Fields;
    assert Kinds(fs)[0] == kinds[0] && fs[0] == UUID(m.jobUUID);
    assert Kinds(fs)[1] == kinds[1] && fs[1] == U64(m.executionID);
    assert Kinds(fs)[2] == kinds[2] && fs[2] == U64(m.attemptID);
    assert Kinds(fs)[3] == kinds[3] && fs[3] == U32(m.attemptNumber);
    assert Kinds(fs)[4] == kinds[4] && fs[4] == Function(m.function_);
    assert Kinds(fs)[5] == kinds[5] && fs[5] == Blob(m.args);
    assert Kinds(fs)[6] == kinds[6] && fs[6] == I64(m.scheduledUnixNano);
    assert Kinds(fs)[7] == kinds[7] && fs[7] == U32(m.timeoutMillis);
    assert Kinds(fs)[8] == kinds[8] && fs[8] == Flag(m.deliverResult);
  }

  lemma FieldsOfExecAccept(fs: seq<Field>)
    requires Kinds(fs) == EXEC_ACCEPT_SCHEMA
    ensures Fields(BuildExecAccept(fs)) == fs && TypeOf(BuildExecAccept(fs)) == 6
  {
    var kinds, m := EXEC_ACCEPT_SCHEMA, BuildExecAccept(fs);
    ExecAcceptFields(m);
    hide Fields;
    assert Kinds(fs)[0] == kinds[0] && fs[0] == U64(m.executionID);
    assert Kinds(fs)[1] == kinds[1] && fs[1] == U64(m.attemptID);
    assert Kinds(fs)[2] == kinds[2] && fs[2] == Flag(m.accepted);
    assert Kinds(fs)[3] == kinds[3] && fs[3] == Failure(m.error);
  }

  lemma FieldsOfExecResult(fs: seq<Field>)
    requires Kinds(fs) == EXEC_RESULT_SCHEMA
    ensures Fields(BuildExecResult(fs)) == fs && TypeOf(BuildExecResult(fs)) == 7
  {
    var kinds, m := EXEC_RESULT_SCHEMA, BuildExecResult(fs);
    ExecResultFields(m);
    hide Fields;
    assert Kinds(fs)[0] == kinds[0] && fs[0] == U64(m.executionID);
    assert Kinds(fs)[1] == kinds[1] && fs[1] == U64(m.attemptID);
    assert Kinds(fs)[2] == kinds[2] && fs[2] == Flag(m.success);
    assert Kinds(fs)[3] == kinds[3] && fs[3] == Flag(m.hasValue);
    assert Kinds(fs)[4] == kinds[4] && fs[4] == Blob(m.result);
    assert Kinds(fs)[5] == kinds[5] && fs[5] == Failure(m.error);
  }

  lemma FieldsOfCancel(fs: seq<Field>)
    requires Kinds(fs) == CANCEL_SCHEMA
    ensures Fields(BuildCancel(fs)) == fs && TypeOf(BuildCancel(fs)) == 8
  {
    var kinds, m := CANCEL_SCHEMA, BuildCancel(fs);
    CancelFields(m);
    hide Fields;
    assert Kinds(fs)[0] == kinds[0] && fs[0] == U64(m.executionID);
    assert Kinds(fs)[1] == kinds[1] && fs[1] == U64(m.attemptID);
    assert Kinds(fs)[2] == kinds[2] && fs[2] == Text(m.reason);
  }

  lemma FieldsOfFault(fs: seq<Field>)
    requires Kinds(fs) == FAULT_SCHEMA
    ensures Fields(BuildFault(fs)) == fs && TypeOf(BuildFault(fs)) == 9
  {
    var kinds, m := FAULT_SCHEMA, BuildFault(fs);
    FaultFields(m);
    hide Fields;
    assert Kinds(fs)[0] == kinds[0] && fs[0] == Cause(m.cause);
  }

  lemma FieldsOfJobUpsert(fs: seq<Field>)
    requires Kinds(fs) == JOB_UPSERT_SCHEMA
    ensures Fields(BuildJobUpsert(fs)) == fs && TypeOf(BuildJobUpsert(fs)) == 10
  {
    var kinds, m := JOB_UPSERT_SCHEMA, BuildJobUpsert(fs);
    JobUpsertFields(m);
    hide Fields;
    assert Kinds(fs)[0] == kinds[0] && fs[0] == UUID(m.jobUUID);
    assert Kinds(fs)[1] == kinds[1] && fs[1] == Text(m.jobKey);
    assert Kinds(fs)[2] == kinds[2] && fs[2] == Text(m.executorType.name);
    assert Kinds(fs)[3] == kinds[3] && fs[3] == Function(m.function_);
    assert Kinds(fs)[4] == kinds[4] && fs[4] == Blob(m.args);
    assert Kinds(fs)[5] == kinds[5] && fs[5] == Timing(m.schedule);
    assert Kinds(fs)[6] == kinds[6] && fs[6] == Flag(m.enabled);
    assert Kinds(fs)[7] == kinds[7] && fs[7] == Recovery(m.backfill);
    assert Kinds(fs)[8] == kinds[8] && fs[8] == Retries(m.retry);
    assert Kinds(fs)[9] == kinds[9] && fs[9] == U8(m.overlap);
    assert Kinds(fs)[10] == kinds[10] && fs[10] == Routing(m.pin);
    assert Kinds(fs)[11] == kinds[11] && fs[11] == U8(m.resultMode);
  }

  lemma FieldsOfJobUpsertAck(fs: seq<Field>)
    requires Kinds(fs) == JOB_UPSERT_ACK_SCHEMA
    ensures Fields(BuildJobUpsertAck(fs)) == fs && TypeOf(BuildJobUpsertAck(fs)) == 11
  {
    var kinds, m := JOB_UPSERT_ACK_SCHEMA, BuildJobUpsertAck(fs);
    JobUpsertAckFields(m);
    hide Fields;
    assert Kinds(fs)[0] == kinds[0] && fs[0] == Text(m.jobKey);
    assert Kinds(fs)[1] == kinds[1] && fs[1] == UUID(m.jobUUID);
    assert Kinds(fs)[2] == kinds[2] && fs[2] == Flag(m.accepted);
    assert Kinds(fs)[3] == kinds[3] && fs[3] == Failure(m.error);
  }

  lemma FieldsOfShutdown(fs: seq<Field>)
    requires Kinds(fs) == SHUTDOWN_SCHEMA
    ensures Fields(BuildShutdown(fs)) == fs && TypeOf(BuildShutdown(fs)) == 12
  {
    var kinds, m := SHUTDOWN_SCHEMA, BuildShutdown(fs);
    ShutdownFields(m);
    hide Fields;
    assert Kinds(fs)[0] == kinds[0] && fs[0] == Text(m.reason);
  }

  lemma FieldsOfLabelUpdate(fs: seq<Field>)
    requires Kinds(fs) == LABEL_UPDATE_SCHEMA
    ensures Fields(BuildLabelUpdate(fs)) == fs && TypeOf(BuildLabelUpdate(fs)) == 13
  {
    var kinds, m := LABEL_UPDATE_SCHEMA, BuildLabelUpdate(fs);
    LabelUpdateFields(m);
    hide Fields;
    assert Kinds(fs)[0] == kinds[0] && fs[0] == Labels(m.announce);
    assert Kinds(fs)[1] == kinds[1] && fs[1] == Labels(m.withdraw);
  }

  lemma FieldsOfLabelUpdateAck(fs: seq<Field>)
    requires Kinds(fs) == LABEL_UPDATE_ACK_SCHEMA
    ensures Fields(BuildLabelUpdateAck(fs)) == fs && TypeOf(BuildLabelUpdateAck(fs)) == 14
  {
    var kinds, m := LABEL_UPDATE_ACK_SCHEMA, BuildLabelUpdateAck(fs);
    LabelUpdateAckFields(m);
    hide Fields;
    assert Kinds(fs)[0] == kinds[0] && fs[0] == Flag(m.accepted);
    assert Kinds(fs)[1] == kinds[1] && fs[1] == U32(m.activeCount);
    assert Kinds(fs)[2] == kinds[2] && fs[2] == Failure(m.error);
  }

  lemma FieldsOfResultDelivery(fs: seq<Field>)
    requires Kinds(fs) == RESULT_DELIVERY_SCHEMA
    ensures Fields(BuildResultDelivery(fs)) == fs && TypeOf(BuildResultDelivery(fs)) == 15
  {
    var kinds, m := RESULT_DELIVERY_SCHEMA, BuildResultDelivery(fs);
    ResultDeliveryFields(m);
    hide Fields;
    assert Kinds(fs)[0] == kinds[0] && fs[0] == UUID(m.jobUUID);
    assert Kinds(fs)[1] == kinds[1] && fs[1] == U64(m.executionID);
    assert Kinds(fs)[2] == kinds[2] && fs[2] == Flag(m.success);
    assert Kinds(fs)[3] == kinds[3] && fs[3] == Flag(m.hasValue);
    assert Kinds(fs)[4] == kinds[4] && fs[4] == Held(m.result);
    assert Kinds(fs)[5] == kinds[5] && fs[5] == Failure(m.error);
  }

  lemma FieldsOfResultDeliveryAck(fs: seq<Field>)
    requires Kinds(fs) == RESULT_DELIVERY_ACK_SCHEMA
    ensures Fields(BuildResultDeliveryAck(fs)) == fs && TypeOf(BuildResultDeliveryAck(fs)) == 16
  {
    var kinds, m := RESULT_DELIVERY_ACK_SCHEMA, BuildResultDeliveryAck(fs);
    ResultDeliveryAckFields(m);
    hide Fields;
    assert Kinds(fs)[0] == kinds[0] && fs[0] == UUID(m.jobUUID);
    assert Kinds(fs)[1] == kinds[1] && fs[1] == Flag(m.accepted);
  }

  lemma FieldsOfJobDelete(fs: seq<Field>)
    requires Kinds(fs) == JOB_DELETE_SCHEMA
    ensures Fields(BuildJobDelete(fs)) == fs && TypeOf(BuildJobDelete(fs)) == 17
  {
    var kinds, m := JOB_DELETE_SCHEMA, BuildJobDelete(fs);
    JobDeleteFields(m);
    hide Fields;
    assert Kinds(fs)[0] == kinds[0] && fs[0] == Text(m.jobKey);
    assert Kinds(fs)[1] == kinds[1] && fs[1] == Text(m.executorType.name);
  }

  lemma FieldsOfJobDeleteAck(fs: seq<Field>)
    requires Kinds(fs) == JOB_DELETE_ACK_SCHEMA
    ensures Fields(BuildJobDeleteAck(fs)) == fs && TypeOf(BuildJobDeleteAck(fs)) == 18
  {
    var kinds, m := JOB_DELETE_ACK_SCHEMA, BuildJobDeleteAck(fs);
    JobDeleteAckFields(m);
    hide Fields;
    assert Kinds(fs)[0] == kinds[0] && fs[0] == Text(m.jobKey);
    assert Kinds(fs)[1] == kinds[1] && fs[1] == Flag(m.deleted);
    assert Kinds(fs)[2] == kinds[2] && fs[2] == Failure(m.error);
  }

  lemma FieldsOfBuilt(t: uint8, fs: seq<Field>)
    requires Schema(t) == Some(Kinds(fs))
    ensures TypeOf(Build(t, fs)) == t && Fields(Build(t, fs)) == fs
  {
    hide Kinds, BuildRegister, BuildRegisterAck, BuildHeartbeat, BuildExecRequest, BuildExecAccept, BuildExecResult,
         BuildCancel, BuildFault, BuildJobUpsert, BuildJobUpsertAck, BuildShutdown, BuildLabelUpdate,
         BuildLabelUpdateAck, BuildResultDelivery, BuildResultDeliveryAck, BuildJobDelete, BuildJobDeleteAck;
    hide Fields;
    match t
    case 1 => FieldsOfRegister(fs);
    case 2 => FieldsOfRegisterAck(fs);
    case 3 => FieldsOfHeartbeat(fs);
    case 4 => NoFields(fs);
    case 5 => FieldsOfExecRequest(fs);
    case 6 => FieldsOfExecAccept(fs);
    case 7 => FieldsOfExecResult(fs);
    case 8 => FieldsOfCancel(fs);
    case 9 => FieldsOfFault(fs);
    case 10 => FieldsOfJobUpsert(fs);
    case 11 => FieldsOfJobUpsertAck(fs);
    case 12 => FieldsOfShutdown(fs);
    case 13 => FieldsOfLabelUpdate(fs);
    case 14 => FieldsOfLabelUpdateAck(fs);
    case 15 => FieldsOfResultDelivery(fs);
    case 16 => FieldsOfResultDeliveryAck(fs);
    case 17 => FieldsOfJobDelete(fs);
    case 18 => FieldsOfJobDeleteAck(fs);
  }

  lemma NoFields(fs: seq<Field>)
    requires Kinds(fs) == HEARTBEAT_ACK_SCHEMA
    ensures fs == [] && Fields(HeartbeatAck) == []
  {
  }

  // Decoding undoes encoding for exactly the messages whose fields fit the limits.
  lemma DecodeEncode(m: Message, limits: Limits)
    ensures Decode(TypeOf(m), Payload(m), limits) == Ok(m) <==> Fits(m, limits)
  {
    hide ParseFields, EncodeFields, Fields, Build, Schema, Field.Fits;
    SchemaOfFields(m);
    var kinds := Schema(TypeOf(m)).value;
    if Fits(m, limits) {
      FieldsRoundTrip([], Fields(m), limits.Normalized());
      assert [] + Fields(m) == Fields(m);
    }
    if Decode(TypeOf(m), Payload(m), limits) == Ok(m) {
      MatchesSchema(kinds, Payload(m), limits.Normalized());
      FieldsOfBuilt(TypeOf(m), ParseFields([], kinds, Payload(m), limits.Normalized()).value);
    }
  }

  // Whatever decodes re-encodes to the same bytes, so no message has two encodings.
  lemma EncodeDecode(t: uint8, payload: Bytes, limits: Limits)
    requires Decode(t, payload, limits).Ok?
    ensures var m := Decode(t, payload, limits).value;
            TypeOf(m) == t && Payload(m) == payload && Fits(m, limits)
  {
    hide ParseFields, EncodeFields, Fields, Build, Schema, Field.Fits;
    var kinds := Schema(t).value;
    MatchesSchema(kinds, payload, limits.Normalized());
    FieldsOfBuilt(t, ParseFields([], kinds, payload, limits.Normalized()).value);
  }

  // What of a message is limited and how, in the order in which it is read: text, bytes, results held for delivery,
  // functions, labels, and the messages of errors.
  ghost function Limited(m: Message): seq<Field> {
    if m.Register? then [Text(m.executorType.name), Text(m.instanceID.name), Functions(m.functions), Labels(m.labels)]
    else if m.RegisterAck? || m.ExecAccept? || m.LabelUpdateAck? then [Failure(m.error)]
    else if m.ExecRequest? then [Function(m.function_), Blob(m.args)]
    else if m.ExecResult? then [Blob(m.result), Failure(m.error)]
    else if m.Cancel? || m.Shutdown? then [Text(m.reason)]
    else if m.Fault? then [Cause(m.cause)]
    else if m.JobUpsert? then
      [Text(m.jobKey), Text(m.executorType.name), Function(m.function_), Blob(m.args), Routing(m.pin)]
    else if m.JobUpsertAck? || m.JobDeleteAck? then [Text(m.jobKey), Failure(m.error)]
    else if m.LabelUpdate? then [Labels(m.announce), Labels(m.withdraw)]
    else if m.ResultDelivery? then [Held(m.result), Failure(m.error)]
    else if m.JobDelete? then [Text(m.jobKey), Text(m.executorType.name)]
    else []
  }

  // These are the fields of the message that a limit concerns.
  lemma LimitedAreBounded(m: Message)
    ensures BoundedOf(Fields(m)) == Limited(m)
  {
    hide Fields, Limited, BoundedOf;
    if m.Register? {
      RegisterLimited(m);
    } else if m.RegisterAck? {
      RegisterAckLimited(m);
    } else if m.Heartbeat? {
      HeartbeatLimited(m);
    } else if m.ExecRequest? {
      ExecRequestLimited(m);
    } else if m.ExecAccept? {
      ExecAcceptLimited(m);
    } else if m.ExecResult? {
      ExecResultLimited(m);
    } else if m.Cancel? {
      CancelLimited(m);
    } else if m.Fault? {
      FaultLimited(m);
    } else if m.JobUpsert? {
      JobUpsertLimited(m);
    } else if m.JobUpsertAck? {
      JobUpsertAckLimited(m);
    } else if m.Shutdown? {
      ShutdownLimited(m);
    } else if m.LabelUpdate? {
      LabelUpdateLimited(m);
    } else if m.LabelUpdateAck? {
      LabelUpdateAckLimited(m);
    } else if m.ResultDelivery? {
      ResultDeliveryLimited(m);
    } else if m.ResultDeliveryAck? {
      ResultDeliveryAckLimited(m);
    } else if m.JobDelete? {
      JobDeleteLimited(m);
    } else if m.JobDeleteAck? {
      JobDeleteAckLimited(m);
    } else {
      NothingLimited();
    }
  }

  lemma NothingLimited()
    ensures BoundedOf(Fields(HeartbeatAck)) == Limited(HeartbeatAck)
  {
  }

  lemma RegisterLimited(m: Message)
    requires m.Register?
    ensures BoundedOf(Fields(m)) == Limited(m)
  {
    hide BoundedOf;
    BoundedSix(U8(m.protocolVersion), Text(m.executorType.name), Text(m.instanceID.name), U32(m.capacity),
               Functions(m.functions), Labels(m.labels));
  }

  lemma RegisterAckLimited(m: Message)
    requires m.RegisterAck?
    ensures BoundedOf(Fields(m)) == Limited(m)
  {
    hide BoundedOf;
    BoundedThree(Flag(m.accepted), U32(m.heartbeatIntervalMillis), Failure(m.error));
  }

  lemma HeartbeatLimited(m: Message)
    requires m.Heartbeat?
    ensures BoundedOf(Fields(m)) == Limited(m)
  {
    hide BoundedOf;
    BoundedOne(U32(m.inFlight));
  }

  lemma ExecRequestLimited(m: Message)
    requires m.ExecRequest?
    ensures BoundedOf(Fields(m)) == Limited(m)
  {
    hide BoundedOf;
    var a := [UUID(m.jobUUID), U64(m.executionID), U64(m.attemptID), U32(m.attemptNumber), Function(m.function_),
             Blob(m.args)];
    var b := [I64(m.scheduledUnixNano), U32(m.timeoutMillis), Flag(m.deliverResult)];
    assert Fields(m) == a + b;
    hide Fields;
    BoundedSix(a[0], a[1], a[2], a[3], a[4], a[5]);
    BoundedThree(b[0], b[1], b[2]);
    BoundedJoin(a, b);
  }

  lemma ExecAcceptLimited(m: Message)
    requires m.ExecAccept?
    ensures BoundedOf(Fields(m)) == Limited(m)
  {
    hide BoundedOf;
    BoundedFour(U64(m.executionID), U64(m.attemptID), Flag(m.accepted), Failure(m.error));
  }

  lemma ExecResultLimited(m: Message)
    requires m.ExecResult?
    ensures BoundedOf(Fields(m)) == Limited(m)
  {
    hide BoundedOf;
    BoundedSix(U64(m.executionID), U64(m.attemptID), Flag(m.success), Flag(m.hasValue), Blob(m.result),
               Failure(m.error));
  }

  lemma CancelLimited(m: Message)
    requires m.Cancel?
    ensures BoundedOf(Fields(m)) == Limited(m)
  {
    hide BoundedOf;
    BoundedThree(U64(m.executionID), U64(m.attemptID), Text(m.reason));
  }

  lemma FaultLimited(m: Message)
    requires m.Fault?
    ensures BoundedOf(Fields(m)) == Limited(m)
  {
    hide BoundedOf;
    BoundedOne(Cause(m.cause));
  }

  lemma JobUpsertLimited(m: Message)
    requires m.JobUpsert?
    ensures BoundedOf(Fields(m)) == Limited(m)
  {
    hide BoundedOf;
    var a := [UUID(m.jobUUID), Text(m.jobKey), Text(m.executorType.name), Function(m.function_), Blob(m.args),
             Timing(m.schedule)];
    var b := [Flag(m.enabled), Recovery(m.backfill), Retries(m.retry), U8(m.overlap), Routing(m.pin), U8(m.resultMode)];
    assert Fields(m) == a + b;
    hide Fields;
    BoundedSix(a[0], a[1], a[2], a[3], a[4], a[5]);
    BoundedSix(b[0], b[1], b[2], b[3], b[4], b[5]);
    BoundedJoin(a, b);
  }

  lemma JobUpsertAckLimited(m: Message)
    requires m.JobUpsertAck?
    ensures BoundedOf(Fields(m)) == Limited(m)
  {
    hide BoundedOf;
    BoundedFour(Text(m.jobKey), UUID(m.jobUUID), Flag(m.accepted), Failure(m.error));
  }

  lemma ShutdownLimited(m: Message)
    requires m.Shutdown?
    ensures BoundedOf(Fields(m)) == Limited(m)
  {
    hide BoundedOf;
    BoundedOne(Text(m.reason));
  }

  lemma LabelUpdateLimited(m: Message)
    requires m.LabelUpdate?
    ensures BoundedOf(Fields(m)) == Limited(m)
  {
    hide BoundedOf;
    BoundedTwo(Labels(m.announce), Labels(m.withdraw));
  }

  lemma LabelUpdateAckLimited(m: Message)
    requires m.LabelUpdateAck?
    ensures BoundedOf(Fields(m)) == Limited(m)
  {
    hide BoundedOf;
    BoundedThree(Flag(m.accepted), U32(m.activeCount), Failure(m.error));
  }

  lemma ResultDeliveryLimited(m: Message)
    requires m.ResultDelivery?
    ensures BoundedOf(Fields(m)) == Limited(m)
  {
    hide BoundedOf;
    BoundedSix(UUID(m.jobUUID), U64(m.executionID), Flag(m.success), Flag(m.hasValue), Held(m.result),
               Failure(m.error));
  }

  lemma ResultDeliveryAckLimited(m: Message)
    requires m.ResultDeliveryAck?
    ensures BoundedOf(Fields(m)) == Limited(m)
  {
    hide BoundedOf;
    BoundedTwo(UUID(m.jobUUID), Flag(m.accepted));
  }

  lemma JobDeleteLimited(m: Message)
    requires m.JobDelete?
    ensures BoundedOf(Fields(m)) == Limited(m)
  {
    hide BoundedOf;
    BoundedTwo(Text(m.jobKey), Text(m.executorType.name));
  }

  lemma JobDeleteAckLimited(m: Message)
    requires m.JobDeleteAck?
    ensures BoundedOf(Fields(m)) == Limited(m)
  {
    hide BoundedOf;
    BoundedThree(Text(m.jobKey), Flag(m.deleted), Failure(m.error));
  }

  // Every length in the message is one that 32 bits hold.
  ghost predicate AllCountable(m: Message) {
    forall f | f in Limited(m) :: Countable(f)
  }

  ghost predicate AllWithin(m: Message, limits: Limits) {
    forall f | f in Limited(m) :: Within(f, limits)
  }

  lemma FitsIffAllWithin(m: Message, limits: Limits)
    ensures Fits(m, limits) <==> AllWithin(m, limits)
  {
    LimitedAreBounded(m);
    VerdictOfBounded(Fields(m), limits);
    hide Fields, Limited, Within, Field.Fits;
    forall f | f in Fields(m) ensures f.Fits(limits.Normalized()) <==> Within(f, limits) {
      FitsIffWithin(f, limits);
    }
  }

  // What decoding says of an encoded message and the bytes that follow it.
  ghost function Answer(m: Message, extra: Bytes, limits: Limits): Result<Message, WireFault> {
    match Verdict(Limited(m), limits)
    case None => if extra == [] then Ok(m) else Err(TrailingBytes)
    case Some(fault) => Err(fault)
  }

  // An encoded message is read back if all its fields are within the limits and nothing follows them; otherwise the
  // first that is not says why it is refused.
  lemma MessageAnswered(m: Message, extra: Bytes, limits: Limits)
    requires AllCountable(m)
    ensures Decode(TypeOf(m), Payload(m) + extra, limits) == Answer(m, extra, limits)
  {
    hide ParseFields, EncodeFields, Fields, Limited, Build, Schema;
    SchemaOfFields(m);
    LimitedAreBounded(m);
    VerdictOfBounded(Fields(m), limits);
    FieldsJudged([], Fields(m), extra, limits);
    assert [] + Fields(m) == Fields(m);
  }

  // What decoding comes to, in terms of the limits as they are stated.
  ghost predicate Judged(t: uint8, payload: Bytes, limits: Limits, r: Result<Message, WireFault>) {
    && (t == 0 || t > 18 ==> r == Err(UnknownMessageType))
    && (r.Ok? ==> TypeOf(r.value) == t && Payload(r.value) == payload && AllWithin(r.value, limits))
    && (forall m | TypeOf(m) == t && Payload(m) == payload :: r == Ok(m) <==> AllWithin(m, limits))
    && (forall m, extra | TypeOf(m) == t && Payload(m) + extra == payload && AllCountable(m) ::
          r == Answer(m, extra, limits))
  }

  lemma DecodeIsJudged(t: uint8, payload: Bytes, limits: Limits)
    ensures Judged(t, payload, limits, Decode(t, payload, limits))
  {
    if t == 0 || t > 18 {
      assert Schema(t).None?;
    }
    hide Payload, Fits, AllWithin, AllCountable, TypeOf, Fields, Answer, Schema, Build;
    assert t == 0 || t > 18 ==> Decode(t, payload, limits) == Err(UnknownMessageType);
    hide Decode;
    var r := Decode(t, payload, limits);
    if r.Ok? {
      EncodeDecode(t, payload, limits);
      FitsIffAllWithin(r.value, limits);
    }
    forall m | TypeOf(m) == t && Payload(m) == payload ensures r == Ok(m) <==> AllWithin(m, limits) {
      DecodeEncode(m, limits);
      FitsIffAllWithin(m, limits);
    }
    forall m, extra | TypeOf(m) == t && Payload(m) + extra == payload && AllCountable(m)
      ensures r == Answer(m, extra, limits)
    {
      MessageAnswered(m, extra, limits);
    }
  }

  method MarshalPayload(m: Message) returns (payload: Bytes)
    ensures payload == Payload(m)
  {
    match m
    case Register(_, _, _, _, _, _) => payload := MarshalRegister(m);
    case RegisterAck(_, _, _) => payload := MarshalRegisterAck(m);
    case Heartbeat(_) => payload := MarshalHeartbeat(m);
    case HeartbeatAck => payload := [];
    case ExecRequest(_, _, _, _, _, _, _, _, _) => payload := MarshalExecRequest(m);
    case ExecAccept(_, _, _, _) => payload := MarshalExecAccept(m);
    case ExecResult(_, _, _, _, _, _) => payload := MarshalExecResult(m);
    case Cancel(_, _, _) => payload := MarshalCancel(m);
    case Fault(_) => payload := MarshalFault(m);
    case JobUpsert(_, _, _, _, _, _, _, _, _, _, _, _) => payload := MarshalJobUpsert(m);
    case JobUpsertAck(_, _, _, _) => payload := MarshalJobUpsertAck(m);
    case Shutdown(_) => payload := MarshalShutdown(m);
    case LabelUpdate(_, _) => payload := MarshalLabelUpdate(m);
    case LabelUpdateAck(_, _, _) => payload := MarshalLabelUpdateAck(m);
    case ResultDelivery(_, _, _, _, _, _) => payload := MarshalResultDelivery(m);
    case ResultDeliveryAck(_, _) => payload := MarshalResultDeliveryAck(m);
    case JobDelete(_, _) => payload := MarshalJobDelete(m);
    case JobDeleteAck(_, _, _) => payload := MarshalJobDeleteAck(m);
  }

  method MarshalRegister(m: Message) returns (payload: Bytes)
    requires m.Register?
    ensures payload == Payload(m)
  {
    hide EncodeFields;
    var w := new PayloadWriter();
    w.WriteUint8(m.protocolVersion);
    w.WriteString(m.executorType.name);
    w.WriteString(m.instanceID.name);
    w.WriteUint32(m.capacity);
    w.WriteFunctions(m.functions);
    w.WriteLabels(m.labels);
    assert w.written == Fields(m);
    return w.buf;
  }

  method MarshalRegisterAck(m: Message) returns (payload: Bytes)
    requires m.RegisterAck?
    ensures payload == Payload(m)
  {
    hide EncodeFields;
    var w := new PayloadWriter();
    w.WriteBool(m.accepted);
    w.WriteUint32(m.heartbeatIntervalMillis);
    w.WriteOptionalWireError(m.error);
    assert w.written == Fields(m);
    return w.buf;
  }

  method MarshalHeartbeat(m: Message) returns (payload: Bytes)
    requires m.Heartbeat?
    ensures payload == Payload(m)
  {
    hide EncodeFields;
    var w := new PayloadWriter();
    w.WriteUint32(m.inFlight);
    assert w.written == Fields(m);
    return w.buf;
  }

  method MarshalExecRequest(m: Message) returns (payload: Bytes)
    requires m.ExecRequest?
    ensures payload == Payload(m)
  {
    hide EncodeFields;
    var w := new PayloadWriter();
    w.WriteUUID(m.jobUUID);
    w.WriteUint64(m.executionID);
    w.WriteUint64(m.attemptID);
    w.WriteUint32(m.attemptNumber);
    w.WriteFunctionSpec(m.function_);
    w.WriteBytes(m.args, false);
    w.WriteInt64(m.scheduledUnixNano);
    w.WriteUint32(m.timeoutMillis);
    w.WriteBool(m.deliverResult);
    assert w.written == Fields(m);
    return w.buf;
  }

  method MarshalExecAccept(m: Message) returns (payload: Bytes)
    requires m.ExecAccept?
    ensures payload == Payload(m)
  {
    hide EncodeFields;
    var w := new PayloadWriter();
    w.WriteUint64(m.executionID);
    w.WriteUint64(m.attemptID);
    w.WriteBool(m.accepted);
    w.WriteOptionalWireError(m.error);
    assert w.written == Fields(m);
    return w.buf;
  }

  method MarshalExecResult(m: Message) returns (payload: Bytes)
    requires m.ExecResult?
    ensures payload == Payload(m)
  {
    hide EncodeFields;
    var w := new PayloadWriter();
    w.WriteUint64(m.executionID);
    w.WriteUint64(m.attemptID);
    w.WriteBool(m.success);
    w.WriteBool(m.hasValue);
    w.WriteBytes(m.result, false);
    w.WriteOptionalWireError(m.error);
    assert w.written == Fields(m);
    return w.buf;
  }

  method MarshalCancel(m: Message) returns (payload: Bytes)
    requires m.Cancel?
    ensures payload == Payload(m)
  {
    hide EncodeFields;
    var w := new PayloadWriter();
    w.WriteUint64(m.executionID);
    w.WriteUint64(m.attemptID);
    w.WriteString(m.reason);
    assert w.written == Fields(m);
    return w.buf;
  }

  method MarshalFault(m: Message) returns (payload: Bytes)
    requires m.Fault?
    ensures payload == Payload(m)
  {
    hide EncodeFields;
    var w := new PayloadWriter();
    w.WriteWireError(m.cause);
    assert w.written == Fields(m);
    return w.buf;
  }

  method MarshalJobUpsert(m: Message) returns (payload: Bytes)
    requires m.JobUpsert?
    ensures payload == Payload(m)
  {
    hide EncodeFields, Fields;
    var w := new PayloadWriter();
    w.WriteUUID(m.jobUUID);
    w.WriteString(m.jobKey);
    w.WriteString(m.executorType.name);
    w.WriteFunctionSpec(m.function_);
    w.WriteBytes(m.args, false);
    w.WriteScheduleSpec(m.schedule);
    w.WriteBool(m.enabled);
    w.WriteBackfillSpec(m.backfill);
    w.WriteRetrySpec(m.retry);
    w.WriteUint8(m.overlap);
    w.WritePinSpec(m.pin);
    w.WriteUint8(m.resultMode);
    JobUpsertFields(m);
    assert w.written == Fields(m);
    return w.buf;
  }

  method MarshalJobUpsertAck(m: Message) returns (payload: Bytes)
    requires m.JobUpsertAck?
    ensures payload == Payload(m)
  {
    hide EncodeFields;
    var w := new PayloadWriter();
    w.WriteString(m.jobKey);
    w.WriteUUID(m.jobUUID);
    w.WriteBool(m.accepted);
    w.WriteOptionalWireError(m.error);
    assert w.written == Fields(m);
    return w.buf;
  }

  method MarshalShutdown(m: Message) returns (payload: Bytes)
    requires m.Shutdown?
    ensures payload == Payload(m)
  {
    hide EncodeFields;
    var w := new PayloadWriter();
    w.WriteString(m.reason);
    assert w.written == Fields(m);
    return w.buf;
  }

  method MarshalLabelUpdate(m: Message) returns (payload: Bytes)
    requires m.LabelUpdate?
    ensures payload == Payload(m)
  {
    hide EncodeFields;
    var w := new PayloadWriter();
    w.WriteLabels(m.announce);
    w.WriteLabels(m.withdraw);
    assert w.written == Fields(m);
    return w.buf;
  }

  method MarshalLabelUpdateAck(m: Message) returns (payload: Bytes)
    requires m.LabelUpdateAck?
    ensures payload == Payload(m)
  {
    hide EncodeFields;
    var w := new PayloadWriter();
    w.WriteBool(m.accepted);
    w.WriteUint32(m.activeCount);
    w.WriteOptionalWireError(m.error);
    assert w.written == Fields(m);
    return w.buf;
  }

  method MarshalResultDelivery(m: Message) returns (payload: Bytes)
    requires m.ResultDelivery?
    ensures payload == Payload(m)
  {
    hide EncodeFields;
    var w := new PayloadWriter();
    w.WriteUUID(m.jobUUID);
    w.WriteUint64(m.executionID);
    w.WriteBool(m.success);
    w.WriteBool(m.hasValue);
    w.WriteBytes(m.result, true);
    w.WriteOptionalWireError(m.error);
    assert w.written == Fields(m);
    return w.buf;
  }

  method MarshalResultDeliveryAck(m: Message) returns (payload: Bytes)
    requires m.ResultDeliveryAck?
    ensures payload == Payload(m)
  {
    hide EncodeFields;
    var w := new PayloadWriter();
    w.WriteUUID(m.jobUUID);
    w.WriteBool(m.accepted);
    assert w.written == Fields(m);
    return w.buf;
  }

  method MarshalJobDelete(m: Message) returns (payload: Bytes)
    requires m.JobDelete?
    ensures payload == Payload(m)
  {
    hide EncodeFields;
    var w := new PayloadWriter();
    w.WriteString(m.jobKey);
    w.WriteString(m.executorType.name);
    assert w.written == Fields(m);
    return w.buf;
  }

  method MarshalJobDeleteAck(m: Message) returns (payload: Bytes)
    requires m.JobDeleteAck?
    ensures payload == Payload(m)
  {
    hide EncodeFields;
    var w := new PayloadWriter();
    w.WriteString(m.jobKey);
    w.WriteBool(m.deleted);
    w.WriteOptionalWireError(m.error);
    assert w.written == Fields(m);
    return w.buf;
  }

  // An unmarshalled message consists of the fields that the payload parses to.
  ghost predicate Unmarshalled(t: uint8, outcome: Result<seq<Field>, WireFault>, r: Result<Message, WireFault>) {
    match outcome
    case Ok(fs) => r.Ok? && TypeOf(r.value) == t && Fields(r.value) == fs
    case Err(e) => r == Err(e)
  }

  method DecodeMessage(t: uint8, payload: Bytes, limits: Limits) returns (r: Result<Message, WireFault>)
    ensures r == Decode(t, payload, limits)
    ensures Judged(t, payload, limits, r)
  {
    hide ParseFields, Build, Unmarshalled, Judged;
    DecodeIsJudged(t, payload, limits);
    if Schema(t).None? {
      return Err(UnknownMessageType);
    }
    var reader := new PayloadReader(payload, limits, Schema(t).value);
    match t {
      case 1 => r := UnmarshalRegister(reader);
      case 2 => r := UnmarshalRegisterAck(reader);
      case 3 => r := UnmarshalHeartbeat(reader);
      case 4 => r := UnmarshalHeartbeatAck(reader);
      case 5 => r := UnmarshalExecRequest(reader);
      case 6 => r := UnmarshalExecAccept(reader);
      case 7 => r := UnmarshalExecResult(reader);
      case 8 => r := UnmarshalCancel(reader);
      case 9 => r := UnmarshalFault(reader);
      case 10 => r := UnmarshalJobUpsert(reader);
      case 11 => r := UnmarshalJobUpsertAck(reader);
      case 12 => r := UnmarshalShutdown(reader);
      case 13 => r := UnmarshalLabelUpdate(reader);
      case 14 => r := UnmarshalLabelUpdateAck(reader);
      case 15 => r := UnmarshalResultDelivery(reader);
      case 16 => r := UnmarshalResultDeliveryAck(reader);
      case 17 => r := UnmarshalJobDelete(reader);
      case 18 => r := UnmarshalJobDeleteAck(reader);
    }
    UnmarshalledIsDecoded(t, payload, limits, reader.Outcome(), r);
  }

  lemma UnmarshalledIsDecoded(t: uint8, payload: Bytes, limits: Limits, outcome: Result<seq<Field>, WireFault>,
                              r: Result<Message, WireFault>)
    requires Schema(t).Some? && outcome == ParseFields([], Schema(t).value, payload, limits.Normalized())
    requires Unmarshalled(t, outcome, r)
    ensures r == Decode(t, payload, limits)
  {
    hide ParseFields, Build, Fields;
    if outcome.Ok? {
      MatchesSchema(Schema(t).value, payload, limits.Normalized());
      SchemaOfFields(r.value);
    }
  }

  method DecodeExecutionRef(r: PayloadReader) returns (v: Result<(uint64, uint64), WireFault>)
    requires r.Valid() && |r.read| + 1 < |r.schema| && r.schema[|r.read|] == r.schema[|r.read| + 1] == U64Kind
    modifies r`off, r`read
    ensures v.Ok? ==> r.Valid() && r.read == old(r.read) + [U64(v.value.0), U64(v.value.1)]
    ensures v.Err? ==> r.Outcome() == Err(v.error)
  {
    hide ParseFields, PayloadReader.Valid, PayloadReader.Outcome;
    var executionID :- r.ReadUint64();
    var attemptID :- r.ReadUint64();
    return Ok((executionID, attemptID));
  }

  method DecodeExecIdentity(r: PayloadReader) returns (v: Result<(JobUUID, uint64, uint64, uint32), WireFault>)
    requires r.Valid() && |r.read| == 0 && r.schema == EXEC_REQUEST_SCHEMA
    modifies r`off, r`read
    ensures v.Ok? ==> r.Valid() && r.read == old(r.read) + [UUID(v.value.0), U64(v.value.1), U64(v.value.2),
            U32(v.value.3)]
    ensures v.Err? ==> r.Outcome() == Err(v.error)
  {
    hide ParseFields, PayloadReader.Valid, PayloadReader.Outcome;
    var jobUUID :- r.ReadUUID();
    var ref :- DecodeExecutionRef(r);
    var attemptNumber :- r.ReadUint32();
    return Ok((jobUUID, ref.0, ref.1, attemptNumber));
  }

  method DecodeExecCall(r: PayloadReader) returns (v: Result<(FunctionSpec, Bytes), WireFault>)
    requires r.Valid() && |r.read| == 4 && r.schema == EXEC_REQUEST_SCHEMA
    modifies r`off, r`read
    ensures v.Ok? ==> r.Valid() && r.read == old(r.read) + [Function(v.value.0), Blob(v.value.1)]
    ensures v.Err? ==> r.Outcome() == Err(v.error)
  {
    hide ParseFields, PayloadReader.Valid, PayloadReader.Outcome;
    var spec :- r.ReadFunctionSpec();
    var args :- r.ReadBytes();
    return Ok((spec, args));
  }

  method DecodeExecWork(r: PayloadReader) returns (v: Result<(FunctionSpec, Bytes, int64, uint32, bool), WireFault>)
    requires r.Valid() && |r.read| == 4 && r.schema == EXEC_REQUEST_SCHEMA
    modifies r`off, r`read
    ensures v.Ok? ==> r.Valid() && r.read == old(r.read) + [Function(v.value.0), Blob(v.value.1), I64(v.value.2),
            U32(v.value.3), Flag(v.value.4)]
    ensures v.Err? ==> r.Outcome() == Err(v.error)
  {
    hide ParseFields, PayloadReader.Valid, PayloadReader.Outcome;
    var work :- DecodeExecCall(r);
    var scheduledUnixNano :- r.ReadInt64();
    var timeoutMillis :- r.ReadUint32();
    var deliverResult :- r.ReadBool();
    return Ok((work.0, work.1, scheduledUnixNano, timeoutMillis, deliverResult));
  }

  method DecodeJobScope(r: PayloadReader) returns (v: Result<(JobUUID, Bytes, Bytes), WireFault>)
    requires r.Valid() && |r.read| == 0 && r.schema == JOB_UPSERT_SCHEMA
    modifies r`off, r`read
    ensures v.Ok? ==> r.Valid() && r.read == old(r.read) + [UUID(v.value.0), Text(v.value.1), Text(v.value.2)]
    ensures v.Err? ==> r.Outcome() == Err(v.error)
  {
    hide ParseFields, PayloadReader.Valid, PayloadReader.Outcome;
    var jobUUID :- r.ReadUUID();
    var jobKey :- r.ReadString();
    var executorType :- r.ReadString();
    return Ok((jobUUID, jobKey, executorType));
  }

  method DecodeJobIdentity(r: PayloadReader) returns (v: Result<(JobUUID, Bytes, Bytes, FunctionSpec,
          Bytes), WireFault>)
    requires r.Valid() && |r.read| == 0 && r.schema == JOB_UPSERT_SCHEMA
    modifies r`off, r`read
    ensures v.Ok? ==> r.Valid() && r.read == old(r.read) + [UUID(v.value.0), Text(v.value.1), Text(v.value.2),
            Function(v.value.3), Blob(v.value.4)]
    ensures v.Err? ==> r.Outcome() == Err(v.error)
  {
    hide ParseFields, PayloadReader.Valid, PayloadReader.Outcome;
    var id :- DecodeJobScope(r);
    var spec :- r.ReadFunctionSpec();
    var args :- r.ReadBytes();
    return Ok((id.0, id.1, id.2, spec, args));
  }

  method DecodeJobTiming(r: PayloadReader) returns (v: Result<(ScheduleSpec, bool, BackfillSpec,
          RetrySpec), WireFault>)
    requires r.Valid() && |r.read| == 5 && r.schema == JOB_UPSERT_SCHEMA
    modifies r`off, r`read
    ensures v.Ok? ==> r.Valid() && r.read == old(r.read) + [Timing(v.value.0), Flag(v.value.1), Recovery(v.value.2),
            Retries(v.value.3)]
    ensures v.Err? ==> r.Outcome() == Err(v.error)
  {
    hide ParseFields, PayloadReader.Valid, PayloadReader.Outcome;
    var schedule :- r.ReadScheduleSpec();
    var enabled :- r.ReadBool();
    var backfill :- r.ReadBackfillSpec();
    var retry :- r.ReadRetrySpec();
    return Ok((schedule, enabled, backfill, retry));
  }

  method DecodeJobRouting(r: PayloadReader) returns (v: Result<(uint8, PinSpec, uint8), WireFault>)
    requires r.Valid() && |r.read| == 9 && r.schema == JOB_UPSERT_SCHEMA
    modifies r`off, r`read
    ensures v.Ok? ==> r.Valid() && r.read == old(r.read) + [U8(v.value.0), Routing(v.value.1), U8(v.value.2)]
    ensures v.Err? ==> r.Outcome() == Err(v.error)
  {
    hide ParseFields, PayloadReader.Valid, PayloadReader.Outcome;
    var overlap :- r.ReadUint8();
    var pin :- r.ReadPinSpec();
    var resultMode :- r.ReadUint8();
    return Ok((overlap, pin, resultMode));
  }

  method DecodeRegisterIdentity(r: PayloadReader) returns (v: Result<(uint8, Bytes, Bytes), WireFault>)
    requires r.Valid() && |r.read| == 0 && r.schema == REGISTER_SCHEMA
    modifies r`off, r`read
    ensures v.Ok? ==> r.Valid() && r.read == old(r.read) + [U8(v.value.0), Text(v.value.1), Text(v.value.2)]
    ensures v.Err? ==> r.Outcome() == Err(v.error)
  {
    hide ParseFields, PayloadReader.Valid, PayloadReader.Outcome;
    var protocolVersion :- r.ReadUint8();
    var executorType :- r.ReadString();
    var instanceID :- r.ReadString();
    return Ok((protocolVersion, executorType, instanceID));
  }

  method UnmarshalRegister(r: PayloadReader) returns (m: Result<Message, WireFault>)
    requires r.Valid() && r.read == [] && r.schema == REGISTER_SCHEMA
    modifies r`off, r`read
    ensures Unmarshalled(1, r.Outcome(), m)
  {
    hide ParseFields, PayloadReader.Valid, PayloadReader.Outcome;
    var id :- DecodeRegisterIdentity(r);
    var capacity :- r.ReadUint32();
    var functions :- r.ReadFunctions();
    var labels :- r.ReadLabels();
    var _ :- r.Finish();
    m := Ok(Register(id.0, ExecutorType(id.1), InstanceID(id.2), capacity, functions, labels));
    assert r.read == Fields(m.value);
  }

  method UnmarshalRegisterAck(r: PayloadReader) returns (m: Result<Message, WireFault>)
    requires r.Valid() && r.read == [] && r.schema == REGISTER_ACK_SCHEMA
    modifies r`off, r`read
    ensures Unmarshalled(2, r.Outcome(), m)
  {
    hide ParseFields, PayloadReader.Valid, PayloadReader.Outcome;
    var accepted :- r.ReadBool();
    var heartbeatIntervalMillis :- r.ReadUint32();
    var error :- r.ReadOptionalWireError();
    var _ :- r.Finish();
    m := Ok(RegisterAck(accepted, heartbeatIntervalMillis, error));
    assert r.read == Fields(m.value);
  }

  method UnmarshalHeartbeat(r: PayloadReader) returns (m: Result<Message, WireFault>)
    requires r.Valid() && r.read == [] && r.schema == HEARTBEAT_SCHEMA
    modifies r`off, r`read
    ensures Unmarshalled(3, r.Outcome(), m)
  {
    hide ParseFields, PayloadReader.Valid, PayloadReader.Outcome;
    var inFlight :- r.ReadUint32();
    var _ :- r.Finish();
    m := Ok(Heartbeat(inFlight));
    assert r.read == Fields(m.value);
  }

  method UnmarshalHeartbeatAck(r: PayloadReader) returns (m: Result<Message, WireFault>)
    requires r.Valid() && r.read == [] && r.schema == HEARTBEAT_ACK_SCHEMA
    modifies r`off, r`read
    ensures Unmarshalled(4, r.Outcome(), m)
  {
    hide ParseFields, PayloadReader.Valid, PayloadReader.Outcome;
    var _ :- r.Finish();
    m := Ok(HeartbeatAck);
  }

  method UnmarshalExecRequest(r: PayloadReader) returns (m: Result<Message, WireFault>)
    requires r.Valid() && r.read == [] && r.schema == EXEC_REQUEST_SCHEMA
    modifies r`off, r`read
    ensures Unmarshalled(5, r.Outcome(), m)
  {
    hide ParseFields, PayloadReader.Valid, Fields, TypeOf;
    var identity :- DecodeExecIdentity(r);
    var work :- DecodeExecWork(r);
    var _ :- r.Finish();
    m := Ok(ExecRequest(identity.0, identity.1, identity.2, identity.3, work.0, work.1, work.2, work.3, work.4));
    ExecRequestFields(m.value);
    assert r.read == Fields(m.value);
  }

  method UnmarshalExecAccept(r: PayloadReader) returns (m: Result<Message, WireFault>)
    requires r.Valid() && r.read == [] && r.schema == EXEC_ACCEPT_SCHEMA
    modifies r`off, r`read
    ensures Unmarshalled(6, r.Outcome(), m)
  {
    hide ParseFields, PayloadReader.Valid, PayloadReader.Outcome;
    var ref :- DecodeExecutionRef(r);
    var accepted :- r.ReadBool();
    var error :- r.ReadOptionalWireError();
    var _ :- r.Finish();
    m := Ok(ExecAccept(ref.0, ref.1, accepted, error));
    assert r.read == Fields(m.value);
  }

  method DecodeExecOutcome(r: PayloadReader) returns (v: Result<(bool, bool, Bytes), WireFault>)
    requires r.Valid() && |r.read| == 2 && r.schema == EXEC_RESULT_SCHEMA
    modifies r`off, r`read
    ensures v.Ok? ==> r.Valid() && r.read == old(r.read) + [Flag(v.value.0), Flag(v.value.1), Blob(v.value.2)]
    ensures v.Err? ==> r.Outcome() == Err(v.error)
  {
    hide ParseFields, PayloadReader.Valid, PayloadReader.Outcome;
    var success :- r.ReadBool();
    var hasValue :- r.ReadBool();
    var result :- r.ReadBytes();
    return Ok((success, hasValue, result));
  }

  method UnmarshalExecResult(r: PayloadReader) returns (m: Result<Message, WireFault>)
    requires r.Valid() && r.read == [] && r.schema == EXEC_RESULT_SCHEMA
    modifies r`off, r`read
    ensures Unmarshalled(7, r.Outcome(), m)
  {
    hide ParseFields, PayloadReader.Valid, PayloadReader.Outcome;
    var ref :- DecodeExecutionRef(r);
    var outcome :- DecodeExecOutcome(r);
    var error :- r.ReadOptionalWireError();
    var _ :- r.Finish();
    m := Ok(ExecResult(ref.0, ref.1, outcome.0, outcome.1, outcome.2, error));
    assert r.read == Fields(m.value);
  }

  method UnmarshalCancel(r: PayloadReader) returns (m: Result<Message, WireFault>)
    requires r.Valid() && r.read == [] && r.schema == CANCEL_SCHEMA
    modifies r`off, r`read
    ensures Unmarshalled(8, r.Outcome(), m)
  {
    hide ParseFields, PayloadReader.Valid, PayloadReader.Outcome;
    var ref :- DecodeExecutionRef(r);
    var reason :- r.ReadString();
    var _ :- r.Finish();
    m := Ok(Cancel(ref.0, ref.1, reason));
    assert r.read == Fields(m.value);
  }

  method UnmarshalFault(r: PayloadReader) returns (m: Result<Message, WireFault>)
    requires r.Valid() && r.read == [] && r.schema == FAULT_SCHEMA
    modifies r`off, r`read
    ensures Unmarshalled(9, r.Outcome(), m)
  {
    hide ParseFields, PayloadReader.Valid, PayloadReader.Outcome;
    var cause :- r.ReadWireError();
    var _ :- r.Finish();
    m := Ok(Fault(cause));
    assert r.read == Fields(m.value);
  }

  method UnmarshalJobUpsert(r: PayloadReader) returns (m: Result<Message, WireFault>)
    requires r.Valid() && r.read == [] && r.schema == JOB_UPSERT_SCHEMA
    modifies r`off, r`read
    ensures Unmarshalled(10, r.Outcome(), m)
  {
    hide ParseFields, PayloadReader.Valid, Fields, TypeOf;
    var identity :- DecodeJobIdentity(r);
    var timing :- DecodeJobTiming(r);
    var routing :- DecodeJobRouting(r);
    var _ :- r.Finish();
    m := Ok(JobUpsert(identity.0, identity.1, ExecutorType(identity.2), identity.3, identity.4, timing.0, timing.1,
      timing.2, timing.3, routing.0, routing.1, routing.2));
    JobUpsertFields(m.value);
    assert r.read == Fields(m.value);
  }

  method UnmarshalJobUpsertAck(r: PayloadReader) returns (m: Result<Message, WireFault>)
    requires r.Valid() && r.read == [] && r.schema == JOB_UPSERT_ACK_SCHEMA
    modifies r`off, r`read
    ensures Unmarshalled(11, r.Outcome(), m)
  {
    hide ParseFields, PayloadReader.Valid, PayloadReader.Outcome;
    var jobKey :- r.ReadString();
    var jobUUID :- r.ReadUUID();
    var accepted :- r.ReadBool();
    var error :- r.ReadOptionalWireError();
    var _ :- r.Finish();
    m := Ok(JobUpsertAck(jobKey, jobUUID, accepted, error));
    assert r.read == Fields(m.value);
  }

  method UnmarshalShutdown(r: PayloadReader) returns (m: Result<Message, WireFault>)
    requires r.Valid() && r.read == [] && r.schema == SHUTDOWN_SCHEMA
    modifies r`off, r`read
    ensures Unmarshalled(12, r.Outcome(), m)
  {
    hide ParseFields, PayloadReader.Valid, PayloadReader.Outcome;
    var reason :- r.ReadString();
    var _ :- r.Finish();
    m := Ok(Shutdown(reason));
    assert r.read == Fields(m.value);
  }

  method UnmarshalLabelUpdate(r: PayloadReader) returns (m: Result<Message, WireFault>)
    requires r.Valid() && r.read == [] && r.schema == LABEL_UPDATE_SCHEMA
    modifies r`off, r`read
    ensures Unmarshalled(13, r.Outcome(), m)
  {
    hide ParseFields, PayloadReader.Valid, PayloadReader.Outcome;
    var announce :- r.ReadLabels();
    var withdraw :- r.ReadLabels();
    var _ :- r.Finish();
    m := Ok(LabelUpdate(announce, withdraw));
    assert r.read == Fields(m.value);
  }

  method UnmarshalLabelUpdateAck(r: PayloadReader) returns (m: Result<Message, WireFault>)
    requires r.Valid() && r.read == [] && r.schema == LABEL_UPDATE_ACK_SCHEMA
    modifies r`off, r`read
    ensures Unmarshalled(14, r.Outcome(), m)
  {
    hide ParseFields, PayloadReader.Valid, PayloadReader.Outcome;
    var accepted :- r.ReadBool();
    var activeCount :- r.ReadUint32();
    var error :- r.ReadOptionalWireError();
    var _ :- r.Finish();
    m := Ok(LabelUpdateAck(accepted, activeCount, error));
    assert r.read == Fields(m.value);
  }

  method DecodeDeliveryIdentity(r: PayloadReader) returns (v: Result<(JobUUID, uint64, bool), WireFault>)
    requires r.Valid() && |r.read| == 0 && r.schema == RESULT_DELIVERY_SCHEMA
    modifies r`off, r`read
    ensures v.Ok? ==> r.Valid() && r.read == old(r.read) + [UUID(v.value.0), U64(v.value.1), Flag(v.value.2)]
    ensures v.Err? ==> r.Outcome() == Err(v.error)
  {
    hide ParseFields, PayloadReader.Valid, PayloadReader.Outcome;
    var jobUUID :- r.ReadUUID();
    var executionID :- r.ReadUint64();
    var success :- r.ReadBool();
    return Ok((jobUUID, executionID, success));
  }

  method UnmarshalResultDelivery(r: PayloadReader) returns (m: Result<Message, WireFault>)
    requires r.Valid() && r.read == [] && r.schema == RESULT_DELIVERY_SCHEMA
    modifies r`off, r`read
    ensures Unmarshalled(15, r.Outcome(), m)
  {
    hide ParseFields, PayloadReader.Valid, PayloadReader.Outcome;
    var id :- DecodeDeliveryIdentity(r);
    var hasValue :- r.ReadBool();
    var result :- r.ReadResultBytes();
    var error :- r.ReadOptionalWireError();
    var _ :- r.Finish();
    m := Ok(ResultDelivery(id.0, id.1, id.2, hasValue, result, error));
    assert r.read == Fields(m.value);
  }

  method UnmarshalResultDeliveryAck(r: PayloadReader) returns (m: Result<Message, WireFault>)
    requires r.Valid() && r.read == [] && r.schema == RESULT_DELIVERY_ACK_SCHEMA
    modifies r`off, r`read
    ensures Unmarshalled(16, r.Outcome(), m)
  {
    hide ParseFields, PayloadReader.Valid, PayloadReader.Outcome;
    var jobUUID :- r.ReadUUID();
    var accepted :- r.ReadBool();
    var _ :- r.Finish();
    m := Ok(ResultDeliveryAck(jobUUID, accepted));
    assert r.read == Fields(m.value);
  }

  method UnmarshalJobDelete(r: PayloadReader) returns (m: Result<Message, WireFault>)
    requires r.Valid() && r.read == [] && r.schema == JOB_DELETE_SCHEMA
    modifies r`off, r`read
    ensures Unmarshalled(17, r.Outcome(), m)
  {
    hide ParseFields, PayloadReader.Valid, PayloadReader.Outcome;
    var jobKey :- r.ReadString();
    var executorType :- r.ReadString();
    var _ :- r.Finish();
    m := Ok(JobDelete(jobKey, ExecutorType(executorType)));
    assert r.read == Fields(m.value);
  }

  method UnmarshalJobDeleteAck(r: PayloadReader) returns (m: Result<Message, WireFault>)
    requires r.Valid() && r.read == [] && r.schema == JOB_DELETE_ACK_SCHEMA
    modifies r`off, r`read
    ensures Unmarshalled(18, r.Outcome(), m)
  {
    hide ParseFields, PayloadReader.Valid, PayloadReader.Outcome;
    var jobKey :- r.ReadString();
    var deleted :- r.ReadBool();
    var error :- r.ReadOptionalWireError();
    var _ :- r.Finish();
    m := Ok(JobDeleteAck(jobKey, deleted, error));
    assert r.read == Fields(m.value);
  }
}
