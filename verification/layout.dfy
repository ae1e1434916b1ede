/**
 * The bytes on the wire, written out: every number, string, list and message as octets in order. It shares nothing with
 * the writers and readers, and is proved to be what they write.
 */
module WireLayout {
  import opened Wrappers
  import opened ProtocolTypes
  import opened WireFormat
  import opened WireFields
  import opened WireMessages

  // Numbers have their most significant octet first.
  ghost function Two(v: uint16): Bytes {
    [v / 0x100, v % 0x100]
  }

  ghost function Four(v: uint32): Bytes {
    [v / 0x100_0000, v / 0x1_0000 % 0x100, v / 0x100 % 0x100, v % 0x100]
  }

  ghost function Eight(v: uint64): Bytes {
    Four(v / 0x1_0000_0000) + Four(v % 0x1_0000_0000)
  }

  ghost function Complement(v: int64): Bytes {
    Eight(if v < 0 then v + 0x1_0000_0000_0000_0000 else v)
  }

  ghost function Yes(b: bool): Bytes {
    if b then [1] else [0]
  }

  // The length, kept to 32 bits, in front.
  ghost function Counted(s: Bytes): Bytes {
    Four(|s| % 0x1_0000_0000) + s
  }

  ghost function SpecBytes(f: FunctionSpec): Bytes {
    Counted(f.name) + Counted(f.version) + Counted(f.inputSignature) + Counted(f.outputSignature)
  }

  ghost function ErrorBytes(e: WireError): Bytes {
    Two(e.code) + Yes(e.retryable) + Counted(e.message)
  }

  ghost function OptionalErrorBytes(e: Option<WireError>): Bytes {
    match e
    case None => [0]
    case Some(error) => [1] + ErrorBytes(error)
  }

  ghost function ScheduleBytes(v: ScheduleSpec): Bytes {
    [v.kind] + Complement(v.startUnixNano) + Eight(v.intervalMillis)
  }

  ghost function BackfillBytes(v: BackfillSpec): Bytes {
    [v.mode] + Four(v.maxCount) + Eight(v.maxAgeMillis)
  }

  ghost function RetryBytes(v: RetrySpec): Bytes {
    [v.policy] + Four(v.maxRetries) + Eight(v.initialDelayMillis) + Eight(v.maxDelayMillis) + Eight(v.multiplierBits)
  }

  ghost function PinBytes(v: PinSpec): Bytes {
    Counted(v.pinned.name) + [v.policy]
  }

  ghost function SpecsBytes(fs: seq<FunctionSpec>): Bytes {
    if fs == [] then [] else SpecBytes(fs[0]) + SpecsBytes(fs[1..])
  }

  ghost function LabelsBytes(ls: seq<Label>): Bytes {
    if ls == [] then [] else Counted(ls[0].name) + LabelsBytes(ls[1..])
  }

  // The number of elements, kept to 32 bits, in front.
  ghost function FunctionList(fs: seq<FunctionSpec>): Bytes {
    Four(|fs| % 0x1_0000_0000) + SpecsBytes(fs)
  }

  ghost function LabelList(ls: seq<Label>): Bytes {
    Four(|ls| % 0x1_0000_0000) + LabelsBytes(ls)
  }

  // The number a message type goes by.
  ghost function Code(m: Message): uint8 {
    if m.Register? then 1
    else if m.RegisterAck? then 2
    else if m.Heartbeat? then 3
    else if m.HeartbeatAck? then 4
    else if m.ExecRequest? then 5
    else if m.ExecAccept? then 6
    else if m.ExecResult? then 7
    else if m.Cancel? then 8
    else if m.Fault? then 9
    else if m.JobUpsert? then 10
    else if m.JobUpsertAck? then 11
    else if m.Shutdown? then 12
    else if m.LabelUpdate? then 13
    else if m.LabelUpdateAck? then 14
    else if m.ResultDelivery? then 15
    else if m.ResultDeliveryAck? then 16
    else if m.JobDelete? then 17
    else 18
  }

  // The octets of a message.
  ghost function Wire(m: Message): Bytes {
    if m.HeartbeatAck? then []
    else if m.Register? then
      ([m.protocolVersion] + Counted(m.executorType.name) + Counted(m.instanceID.name)) +
      (Four(m.capacity) + FunctionList(m.functions) + LabelList(m.labels))
    else if m.RegisterAck? then
      Yes(m.accepted) + Four(m.heartbeatIntervalMillis) + OptionalErrorBytes(m.error)
    else if m.Heartbeat? then
      Four(m.inFlight)
    else if m.ExecRequest? then
      (m.jobUUID.raw + Eight(m.executionID) + Eight(m.attemptID)) +
      (Four(m.attemptNumber) + SpecBytes(m.function_) + Counted(m.args)) +
      (Complement(m.scheduledUnixNano) + Four(m.timeoutMillis) + Yes(m.deliverResult))
    else if m.ExecAccept? then
      Eight(m.executionID) + Eight(m.attemptID) + Yes(m.accepted) + OptionalErrorBytes(m.error)
    else if m.ExecResult? then
      (Eight(m.executionID) + Eight(m.attemptID) + Yes(m.success)) +
      (Yes(m.hasValue) + Counted(m.result) + OptionalErrorBytes(m.error))
    else if m.Cancel? then
      Eight(m.executionID) + Eight(m.attemptID) + Counted(m.reason)
    else if m.Fault? then
      ErrorBytes(m.cause)
    else if m.JobUpsert? then
      (m.jobUUID.raw + Counted(m.jobKey) + Counted(m.executorType.name) + SpecBytes(m.function_)) +
      (Counted(m.args) + ScheduleBytes(m.schedule) + Yes(m.enabled) + BackfillBytes(m.backfill)) +
      (RetryBytes(m.retry) + [m.overlap] + PinBytes(m.pin) + [m.resultMode])
    else if m.JobUpsertAck? then
      Counted(m.jobKey) + m.jobUUID.raw + Yes(m.accepted) + OptionalErrorBytes(m.error)
    else if m.Shutdown? then
      Counted(m.reason)
    else if m.LabelUpdate? then
      LabelList(m.announce) + LabelList(m.withdraw)
    else if m.LabelUpdateAck? then
      Yes(m.accepted) + Four(m.activeCount) + OptionalErrorBytes(m.error)
    else if m.ResultDelivery? then
      (m.jobUUID.raw + Eight(m.executionID) + Yes(m.success)) +
      (Yes(m.hasValue) + Counted(m.result) + OptionalErrorBytes(m.error))
    else if m.ResultDeliveryAck? then
      m.jobUUID.raw + Yes(m.accepted)
    else if m.JobDelete? then
      Counted(m.jobKey) + Counted(m.executorType.name)
    else
      Counted(m.jobKey) + Yes(m.deleted) + OptionalErrorBytes(m.error)
  }

  lemma NumberAppend(b: Bytes, x: uint8)
    ensures Number(b + [x]) == Number(b) * 0x100 + x
  {
    assert (b + [x])[..|b|] == b;
  }

  lemma NumberOfFour(b: Bytes, w: uint8, x: uint8, y: uint8, z: uint8)
    ensures Number(b + [w, x, y, z]) == Number(b) * 0x1_0000_0000 + w * 0x100_0000 + x * 0x1_0000 + y * 0x100 + z
  {
    assert b + [w, x, y, z] == b + [w] + [x] + [y] + [z];
    NumberAppend(b, w);
    NumberAppend(b + [w], x);
    NumberAppend(b + [w] + [x], y);
    NumberAppend(b + [w] + [x] + [y], z);
  }

  // Big-endian numbers are these octets.
  lemma TwoIs(v: uint16)
    ensures BigEndian(v, 2) == Two(v)
  {
    NumberAppend([], v / 0x100);
    NumberAppend([v / 0x100], v % 0x100);
    assert [] + [v / 0x100] == [v / 0x100] && [v / 0x100] + [v % 0x100] == Two(v);
    BigEndianOfNumber(Two(v));
  }

  lemma NumberOfDigits(b: Bytes, v: uint32)
    ensures Number(b + Four(v)) == Number(b) * 0x1_0000_0000 + v
  {
    hide Number;
    var w, x, y, z := v / 0x100_0000, v / 0x1_0000 % 0x100, v / 0x100 % 0x100, v % 0x100;
    NumberOfFour(b, w, x, y, z);
    DigitsAddUp(v);
  }

  lemma DigitsAddUp(v: uint32)
    ensures v == v / 0x100_0000 * 0x100_0000 + v / 0x1_0000 % 0x100 * 0x1_0000 + v / 0x100 % 0x100 * 0x100 + v % 0x100
  {
    var a, b := v / 0x100, v / 0x1_0000;
    assert a / 0x100 == b && b / 0x100 == v / 0x100_0000;
  }

  lemma FourIs(v: uint32)
    ensures BigEndian(v, 4) == Four(v)
  {
    hide BigEndian, Number;
    NumberOfDigits([], v);
    assert [] + Four(v) == Four(v);
    assert Number([]) == 0 by { NumberOfNone(); }
    BigEndianOfNumber(Four(v));
  }

  lemma NumberOfNone()
    ensures Number([]) == 0
  {
  }

  lemma EightIs(v: uint64)
    ensures BigEndian(v, 8) == Eight(v)
  {
    hide BigEndian, Number, Four;
    NumberOfDigits([], v / 0x1_0000_0000);
    NumberOfDigits(Four(v / 0x1_0000_0000), v % 0x1_0000_0000);
    NumberOfNone();
    assert [] + Four(v / 0x1_0000_0000) == Four(v / 0x1_0000_0000);
    assert |Eight(v)| == 8 by { EightOctets(v); }
    BigEndianOfNumber(Eight(v));
  }

  lemma EightOctets(v: uint64)
    ensures |Eight(v)| == 8
  {
  }

  lemma SizedIs(s: Bytes)
    ensures Sized(s) == Counted(s)
  {
    FourIs(|s| % TWO_TO_32);
  }

  lemma SpecIs(f: FunctionSpec)
    ensures Spec(f) == SpecBytes(f)
  {
    hide Sized, Counted;
    SizedIs(f.name);
    SizedIs(f.version);
    SizedIs(f.inputSignature);
    SizedIs(f.outputSignature);
  }

  lemma ErrorIs(e: WireError)
    ensures Error(e) == ErrorBytes(e)
  {
    hide Sized, Counted, BigEndian, Two;
    TwoIs(e.code);
    SizedIs(e.message);
  }

  lemma {:induction false} SpecsAre(fs: seq<FunctionSpec>)
    ensures Concatenated(fs, Spec) == SpecsBytes(fs)
  {
    if fs != [] {
      hide Spec, SpecBytes;
      assert fs == [fs[0]] + fs[1..];
      ConcatenatedFirst(fs[0], fs[1..], Spec);
      SpecIs(fs[0]);
      SpecsAre(fs[1..]);
    }
  }

  lemma {:induction false} LabelsAre(ls: seq<Label>)
    ensures Concatenated(ls, Tag) == LabelsBytes(ls)
  {
    if ls != [] {
      assert Tag(ls[0]) == Counted(ls[0].name) by { SizedIs(ls[0].name); }
      hide Tag, Counted;
      assert ls == [ls[0]] + ls[1..];
      ConcatenatedFirst(ls[0], ls[1..], Tag);
      LabelsAre(ls[1..]);
    }
  }

  // The octets of a field.
  ghost function Octets(f: Field): Bytes {
    match f
    case U8(v) => [v]
    case U32(v) => Four(v)
    case U64(v) => Eight(v)
    case I64(v) => Complement(v)
    case Flag(v) => Yes(v)
    case Text(v) => Counted(v)
    case Blob(v) => Counted(v)
    case Held(v) => Counted(v)
    case UUID(v) => v.raw
    case Function(v) => SpecBytes(v)
    case Functions(v) => FunctionList(v)
    case Labels(v) => LabelList(v)
    case Cause(v) => ErrorBytes(v)
    case Failure(v) => OptionalErrorBytes(v)
    case Timing(v) => ScheduleBytes(v)
    case Recovery(v) => BackfillBytes(v)
    case Retries(v) => RetryBytes(v)
    case Routing(v) => PinBytes(v)
  }

  // Every kind of field is written as these octets.
  lemma FieldIs(f: Field)
    ensures f.Encode() == Octets(f)
  {
    hide BigEndian, Four, Eight, Sized, Counted, Spec, SpecBytes, Error, ErrorBytes, Concatenated, SpecsBytes,
         LabelsBytes;
    match f
    case U32(v) => FourIs(v);
    case U64(v) => EightIs(v);
    case I64(v) => EightIs(Signed(v));
    case Text(v) => SizedIs(v);
    case Blob(v) => SizedIs(v);
    case Held(v) => SizedIs(v);
    case Function(v) => SpecIs(v);
    case Functions(v) =>
      FourIs(|v| % TWO_TO_32);
      SpecsAre(v);
    case Labels(v) =>
      FourIs(|v| % TWO_TO_32);
      LabelsAre(v);
    case Cause(v) => ErrorIs(v);
    case Failure(v) => if v.Some? { ErrorIs(v.value); }
    case Timing(v) =>
      EightIs(Signed(v.startUnixNano));
      EightIs(v.intervalMillis);
    case Recovery(v) =>
      FourIs(v.maxCount);
      EightIs(v.maxAgeMillis);
    case Retries(v) =>
      FourIs(v.maxRetries);
      EightIs(v.initialDelayMillis);
      EightIs(v.maxDelayMillis);
      EightIs(v.multiplierBits);
    case Routing(v) => SizedIs(v.pinned.name);
    case _ =>
  }

  lemma OneField(a: Field)
    ensures EncodeFields([a]) == Octets(a)
  {
    hide Field.Encode, Octets;
    FieldIs(a);
    assert [a][..0] == [] && EncodeFields([]) == [];
  }

  lemma TwoFields(a: Field, b: Field)
    ensures EncodeFields([a, b]) == Octets(a) + Octets(b)
  {
    hide EncodeFields, Octets;
    OneField(a);
    OneField(b);
    FieldsJoin([a], [b]);
    assert [a] + [b] == [a, b];
  }

  lemma ThreeFields(a: Field, b: Field, c: Field)
    ensures EncodeFields([a, b, c]) == Octets(a) + Octets(b) + Octets(c)
  {
    hide EncodeFields, Octets;
    TwoFields(a, b);
    OneField(c);
    FieldsJoin([a, b], [c]);
    assert [a, b] + [c] == [a, b, c];
  }

  lemma FourFields(a: Field, b: Field, c: Field, d: Field)
    ensures EncodeFields([a, b, c, d]) == Octets(a) + Octets(b) + Octets(c) + Octets(d)
  {
    hide EncodeFields, Octets;
    ThreeFields(a, b, c);
    OneField(d);
    FieldsJoin([a, b, c], [d]);
    assert [a, b, c] + [d] == [a, b, c, d];
  }

  lemma FieldsJoin(a: seq<Field>, b: seq<Field>)
    ensures EncodeFields(a + b) == EncodeFields(a) + EncodeFields(b)
  {
    ConcatenatedAppend(a, b, EncodeField);
  }

  lemma RegisterBytes(m: Message)
    requires m.Register?
    ensures Payload(m) == Wire(m)
  {
    hide EncodeFields, Fields, TypeOf;
    RegisterFields(m);
    ThreeFields(U8(m.protocolVersion), Text(m.executorType.name), Text(m.instanceID.name));
    ThreeFields(U32(m.capacity), Functions(m.functions), Labels(m.labels));
    var a, b := [U8(m.protocolVersion), Text(m.executorType.name), Text(m.instanceID.name)], [U32(m.capacity),
      Functions(m.functions), Labels(m.labels)];
    FieldsJoin(a, b);
    assert Fields(m) == a + b;
  }

  lemma RegisterAckBytes(m: Message)
    requires m.RegisterAck?
    ensures Payload(m) == Wire(m)
  {
    hide EncodeFields, Fields, TypeOf;
    RegisterAckFields(m);
    ThreeFields(Flag(m.accepted), U32(m.heartbeatIntervalMillis), Failure(m.error));
  }

  lemma HeartbeatBytes(m: Message)
    requires m.Heartbeat?
    ensures Payload(m) == Wire(m)
  {
    hide EncodeFields, Fields, TypeOf;
    HeartbeatFields(m);
    OneField(U32(m.inFlight));
  }

  lemma ExecRequestBytes(m: Message)
    requires m.ExecRequest?
    ensures Payload(m) == Wire(m)
  {
    hide EncodeFields, Fields, TypeOf;
    ExecRequestFields(m);
    ThreeFields(UUID(m.jobUUID), U64(m.executionID), U64(m.attemptID));
    ThreeFields(U32(m.attemptNumber), Function(m.function_), Blob(m.args));
    ThreeFields(I64(m.scheduledUnixNano), U32(m.timeoutMillis), Flag(m.deliverResult));
    var a := [UUID(m.jobUUID), U64(m.executionID), U64(m.attemptID)];
    var b := [U32(m.attemptNumber), Function(m.function_), Blob(m.args)];
    var c := [I64(m.scheduledUnixNano), U32(m.timeoutMillis), Flag(m.deliverResult)];
    FieldsJoin(a, b);
    FieldsJoin(a + b, c);
    assert Fields(m) == a + b + c;
  }

  lemma ExecAcceptBytes(m: Message)
    requires m.ExecAccept?
    ensures Payload(m) == Wire(m)
  {
    hide EncodeFields, Fields, TypeOf;
    ExecAcceptFields(m);
    FourFields(U64(m.executionID), U64(m.attemptID), Flag(m.accepted), Failure(m.error));
  }

  lemma ExecResultBytes(m: Message)
    requires m.ExecResult?
    ensures Payload(m) == Wire(m)
  {
    hide EncodeFields, Fields, TypeOf;
    ExecResultFields(m);
    ThreeFields(U64(m.executionID), U64(m.attemptID), Flag(m.success));
    ThreeFields(Flag(m.hasValue), Blob(m.result), Failure(m.error));
    var a, b := [U64(m.executionID), U64(m.attemptID), Flag(m.success)], [Flag(m.hasValue), Blob(m.result),
      Failure(m.error)];
    FieldsJoin(a, b);
    assert Fields(m) == a + b;
  }

  lemma CancelBytes(m: Message)
    requires m.Cancel?
    ensures Payload(m) == Wire(m)
  {
    hide EncodeFields, Fields, TypeOf;
    CancelFields(m);
    ThreeFields(U64(m.executionID), U64(m.attemptID), Text(m.reason));
  }

  lemma FaultBytes(m: Message)
    requires m.Fault?
    ensures Payload(m) == Wire(m)
  {
    hide EncodeFields, Fields, TypeOf;
    FaultFields(m);
    OneField(Cause(m.cause));
  }

  lemma JobUpsertParts(m: Message)
    requires m.JobUpsert?
    ensures EncodeFields([UUID(m.jobUUID), Text(m.jobKey), Text(m.executorType.name), Function(m.function_)]) ==
            m.jobUUID.raw + Counted(m.jobKey) + Counted(m.executorType.name) + SpecBytes(m.function_)
    ensures EncodeFields([Blob(m.args), Timing(m.schedule), Flag(m.enabled), Recovery(m.backfill)]) ==
            Counted(m.args) + ScheduleBytes(m.schedule) + Yes(m.enabled) + BackfillBytes(m.backfill)
    ensures EncodeFields([Retries(m.retry), U8(m.overlap), Routing(m.pin), U8(m.resultMode)]) ==
            RetryBytes(m.retry) + [m.overlap] + PinBytes(m.pin) + [m.resultMode]
  {
    hide EncodeFields;
    FourFields(UUID(m.jobUUID), Text(m.jobKey), Text(m.executorType.name), Function(m.function_));
    FourFields(Blob(m.args), Timing(m.schedule), Flag(m.enabled), Recovery(m.backfill));
    FourFields(Retries(m.retry), U8(m.overlap), Routing(m.pin), U8(m.resultMode));
  }

  lemma JobUpsertJoins(m: Message)
    requires m.JobUpsert?
    ensures Payload(m) ==
            EncodeFields([UUID(m.jobUUID), Text(m.jobKey), Text(m.executorType.name), Function(m.function_)]) +
            EncodeFields([Blob(m.args), Timing(m.schedule), Flag(m.enabled), Recovery(m.backfill)]) +
            EncodeFields([Retries(m.retry), U8(m.overlap), Routing(m.pin), U8(m.resultMode)])
  {
    hide EncodeFields, Fields, TypeOf;
    JobUpsertFields(m);
    var a := [UUID(m.jobUUID), Text(m.jobKey), Text(m.executorType.name), Function(m.function_)];
    var b := [Blob(m.args), Timing(m.schedule), Flag(m.enabled), Recovery(m.backfill)];
    var c := [Retries(m.retry), U8(m.overlap), Routing(m.pin), U8(m.resultMode)];
    FieldsJoin(a, b);
    FieldsJoin(a + b, c);
    assert Fields(m) == a + b + c;
  }

  lemma JobUpsertBytes(m: Message)
    requires m.JobUpsert?
    ensures Payload(m) == Wire(m)
  {
    hide Payload, EncodeFields, Counted, SpecBytes, ScheduleBytes, Yes, BackfillBytes, RetryBytes, PinBytes;
    JobUpsertParts(m);
    JobUpsertJoins(m);
  }

  lemma JobUpsertAckBytes(m: Message)
    requires m.JobUpsertAck?
    ensures Payload(m) == Wire(m)
  {
    hide EncodeFields, Fields, TypeOf;
    JobUpsertAckFields(m);
    FourFields(Text(m.jobKey), UUID(m.jobUUID), Flag(m.accepted), Failure(m.error));
  }

  lemma ShutdownBytes(m: Message)
    requires m.Shutdown?
    ensures Payload(m) == Wire(m)
  {
    hide EncodeFields, Fields, TypeOf;
    ShutdownFields(m);
    OneField(Text(m.reason));
  }

  lemma LabelUpdateBytes(m: Message)
    requires m.LabelUpdate?
    ensures Payload(m) == Wire(m)
  {
    hide EncodeFields, Fields, TypeOf;
    LabelUpdateFields(m);
    TwoFields(Labels(m.announce), Labels(m.withdraw));
  }

  lemma LabelUpdateAckBytes(m: Message)
    requires m.LabelUpdateAck?
    ensures Payload(m) == Wire(m)
  {
    hide EncodeFields, Fields, TypeOf;
    LabelUpdateAckFields(m);
    ThreeFields(Flag(m.accepted), U32(m.activeCount), Failure(m.error));
  }

  lemma ResultDeliveryBytes(m: Message)
    requires m.ResultDelivery?
    ensures Payload(m) == Wire(m)
  {
    hide EncodeFields, Fields, TypeOf;
    ResultDeliveryFields(m);
    ThreeFields(UUID(m.jobUUID), U64(m.executionID), Flag(m.success));
    ThreeFields(Flag(m.hasValue), Held(m.result), Failure(m.error));
    var a, b := [UUID(m.jobUUID), U64(m.executionID), Flag(m.success)], [Flag(m.hasValue), Held(m.result),
      Failure(m.error)];
    FieldsJoin(a, b);
    assert Fields(m) == a + b;
  }

  lemma ResultDeliveryAckBytes(m: Message)
    requires m.ResultDeliveryAck?
    ensures Payload(m) == Wire(m)
  {
    hide EncodeFields, Fields, TypeOf;
    ResultDeliveryAckFields(m);
    TwoFields(UUID(m.jobUUID), Flag(m.accepted));
  }

  lemma JobDeleteBytes(m: Message)
    requires m.JobDelete?
    ensures Payload(m) == Wire(m)
  {
    hide EncodeFields, Fields, TypeOf;
    JobDeleteFields(m);
    TwoFields(Text(m.jobKey), Text(m.executorType.name));
  }

  lemma JobDeleteAckBytes(m: Message)
    requires m.JobDeleteAck?
    ensures Payload(m) == Wire(m)
  {
    hide EncodeFields, Fields, TypeOf;
    JobDeleteAckFields(m);
    ThreeFields(Text(m.jobKey), Flag(m.deleted), Failure(m.error));
  }

  lemma TypeIsCode(m: Message)
    ensures TypeOf(m) == Code(m)
  {
  }

  // Every message is written as its octets, under its number.
  lemma PayloadIsWire(m: Message)
    ensures TypeOf(m) == Code(m) && Payload(m) == Wire(m)
  {
    TypeIsCode(m);
    hide TypeOf, Code;
    hide Payload, Wire;
    if m.HeartbeatAck? {
      NothingSent();
    } else if m.Register? {
      RegisterBytes(m);
    } else if m.RegisterAck? {
      RegisterAckBytes(m);
    } else if m.Heartbeat? {
      HeartbeatBytes(m);
    } else if m.ExecRequest? {
      ExecRequestBytes(m);
    } else if m.ExecAccept? {
      ExecAcceptBytes(m);
    } else if m.ExecResult? {
      ExecResultBytes(m);
    } else if m.Cancel? {
      CancelBytes(m);
    } else if m.Fault? {
      FaultBytes(m);
    } else if m.JobUpsert? {
      JobUpsertBytes(m);
    } else if m.JobUpsertAck? {
      JobUpsertAckBytes(m);
    } else if m.Shutdown? {
      ShutdownBytes(m);
    } else if m.LabelUpdate? {
      LabelUpdateBytes(m);
    } else if m.LabelUpdateAck? {
      LabelUpdateAckBytes(m);
    } else if m.ResultDelivery? {
      ResultDeliveryBytes(m);
    } else if m.ResultDeliveryAck? {
      ResultDeliveryAckBytes(m);
    } else if m.JobDelete? {
      JobDeleteBytes(m);
    } else if m.JobDeleteAck? {
      JobDeleteAckBytes(m);
    }
  }

  lemma NothingSent()
    ensures Payload(HeartbeatAck) == Wire(HeartbeatAck)
  {
  }
}
