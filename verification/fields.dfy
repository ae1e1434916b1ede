/**
 * The fields messages are made of: one grammar rule per kind, and the inverse laws for sequences of fields.
 */
module WireFields {
  import opened Wrappers
  import opened ProtocolTypes
  import opened WireFormat

  function Spec(f: FunctionSpec): Bytes {
    Sized(f.name) + Sized(f.version) + Sized(f.inputSignature) + Sized(f.outputSignature)
  }

  function ParseString(buf: Bytes, l: Limits): Parse<Bytes> {
    ParseSized(buf, l.maxStringLen, StringTooLong)
  }

  function ParseSpec(buf: Bytes, l: Limits): Parse<FunctionSpec> {
    var name :- ParseString(buf, l);
    var version :- ParseString(name.rest, l);
    var input :- ParseString(version.rest, l);
    var output :- ParseString(input.rest, l);
    Ok(Parsed(FunctionSpec(name.value, version.value, input.value, output.value), output.rest))
  }

  function SpecFits(f: FunctionSpec, l: Limits): bool {
    && |f.name| <= l.maxStringLen && |f.version| <= l.maxStringLen
    && |f.inputSignature| <= l.maxStringLen && |f.outputSignature| <= l.maxStringLen
  }

  lemma SpecRoundTrip(f: FunctionSpec, l: Limits, rest: Bytes)
    requires SpecFits(f, l)
    ensures ParseSpec(Spec(f) + rest, l) == Ok(Parsed(f, rest))
  {
    hide Sized, ParseSized;
    var r3 := Sized(f.outputSignature) + rest;
    var r2 := Sized(f.inputSignature) + r3;
    var r1 := Sized(f.version) + r2;
    assert Spec(f) + rest == Sized(f.name) + r1;
    SizedRoundTrip(f.name, l.maxStringLen, StringTooLong, r1);
    SizedRoundTrip(f.version, l.maxStringLen, StringTooLong, r2);
    SizedRoundTrip(f.inputSignature, l.maxStringLen, StringTooLong, r3);
    SizedRoundTrip(f.outputSignature, l.maxStringLen, StringTooLong, rest);
  }

  lemma SpecCanonical(buf: Bytes, l: Limits)
    requires ParseSpec(buf, l).Ok?
    ensures var p := ParseSpec(buf, l).value;
            buf == Spec(p.value) + p.rest && SpecFits(p.value, l)
  {
    hide Sized, ParseSized;
    var name := ParseString(buf, l).value;
    var version := ParseString(name.rest, l).value;
    var input := ParseString(version.rest, l).value;
    SizedCanonical(buf, l.maxStringLen, StringTooLong);
    SizedCanonical(name.rest, l.maxStringLen, StringTooLong);
    SizedCanonical(version.rest, l.maxStringLen, StringTooLong);
    SizedCanonical(input.rest, l.maxStringLen, StringTooLong);
    var p := ParseSpec(buf, l).value;
    assert buf == Sized(p.value.name) + (Sized(p.value.version) + (Sized(p.value.inputSignature) +
                  (Sized(p.value.outputSignature) + p.rest)));
  }

  function SpecParser(l: Limits): Bytes -> Parse<FunctionSpec> {
    (buf: Bytes) => ParseSpec(buf, l)
  }

  function SpecFitter(l: Limits): FunctionSpec -> bool {
    (f: FunctionSpec) => SpecFits(f, l)
  }

  function Tag(t: Label): Bytes {
    Sized(t.name)
  }

  function ParseLabel(buf: Bytes, l: Limits): Parse<Label> {
    var name :- ParseSized(buf, l.maxLabelLen, LabelTooLong);
    Ok(Parsed(Label(name.value), name.rest))
  }

  function LabelParser(l: Limits): Bytes -> Parse<Label> {
    (buf: Bytes) => ParseLabel(buf, l)
  }

  function LabelFitter(l: Limits): Label -> bool {
    (t: Label) => |t.name| <= l.maxLabelLen
  }

  lemma SpecsRoundTrip(l: Limits)
    ensures RoundTrips(Spec, SpecParser(l), SpecFitter(l))
  {
    hide ParseSpec, Spec, SpecFits;
    forall f, rest | SpecFitter(l)(f) ensures SpecParser(l)(Spec(f) + rest) == Ok(Parsed(f, rest)) {
      SpecRoundTrip(f, l, rest);
    }
    forall buf | SpecParser(l)(buf).Ok?
      ensures var p := SpecParser(l)(buf).value; SpecFitter(l)(p.value) && buf == Spec(p.value) + p.rest
    {
      SpecCanonical(buf, l);
    }
  }

  lemma LabelsRoundTrip(l: Limits)
    ensures RoundTrips(Tag, LabelParser(l), LabelFitter(l))
  {
    hide Sized, ParseSized;
    forall t, rest | LabelFitter(l)(t) ensures LabelParser(l)(Tag(t) + rest) == Ok(Parsed(t, rest)) {
      SizedRoundTrip(t.name, l.maxLabelLen, LabelTooLong, rest);
    }
    forall buf | LabelParser(l)(buf).Ok?
      ensures var p := LabelParser(l)(buf).value; LabelFitter(l)(p.value) && buf == Tag(p.value) + p.rest
    {
      SizedCanonical(buf, l.maxLabelLen, LabelTooLong);
    }
  }

  // A list after its count. The count is checked against the limit and then against the bytes that are left.
  function Listed<T>(values: seq<T>, enc: T -> Bytes): Bytes {
    BigEndian(|values| % TWO_TO_32, 4) + Concatenated(values, enc)
  }

  function ParseListed<T>(buf: Bytes, max: uint32, fault: WireFault, minSize: nat,
                          one: Bytes -> Parse<T>): Parse<seq<T>>
    requires minSize > 0
  {
    var count :- ParseNumber(buf, 4);
    if count.value > max then Err(fault)
    else if count.value > |count.rest| / minSize then Err(ShortBuffer)
    else ParseMany([], count.value, count.rest, one)
  }

  lemma ListedRoundTrip<T(!new)>(values: seq<T>, max: uint32, fault: WireFault, minSize: nat, rest: Bytes,
                                 enc: T -> Bytes, one: Bytes -> Parse<T>, fits: T -> bool)
    requires minSize > 0 && RoundTrips(enc, one, fits) && (forall v | v in values :: fits(v) && |enc(v)| >= minSize)
    requires |values| <= max
    ensures ParseListed(Listed(values, enc) + rest, max, fault, minSize, one) == Ok(Parsed(values, rest))
  {
    Widths();
    var tail := Concatenated(values, enc) + rest;
    assert Listed(values, enc) + rest == BigEndian(|values|, 4) + tail;
    NumberRoundTrip(|values|, 4, tail);
    ConcatenatedSize(values, enc, minSize);
    QuotientAtLeast(|values|, minSize, |tail|);
    ManyRoundTrip([], values, rest, enc, one, fits);
    assert [] + values == values;
  }

  lemma QuotientAtLeast(k: nat, d: nat, x: nat)
    requires d > 0 && k * d <= x
    ensures k <= x / d
  {
    var q := x / d;
    assert x == d * q + x % d;
    assert x < (q + 1) * d;
    assert k <= q || (k - (q + 1)) * d >= 0;
  }

  lemma ListedCanonical<T(!new)>(buf: Bytes, max: uint32, fault: WireFault, minSize: nat,
                                 enc: T -> Bytes, one: Bytes -> Parse<T>, fits: T -> bool)
    requires minSize > 0 && RoundTrips(enc, one, fits) && ParseListed(buf, max, fault, minSize, one).Ok?
    ensures var p := ParseListed(buf, max, fault, minSize, one).value;
            && buf == Listed(p.value, enc) + p.rest
            && |p.value| <= max && forall v | v in p.value :: fits(v)
  {
    hide BigEndian, ParseNumber, ParseMany, Concatenated, RoundTrips;
    Widths();
    NumberCanonical(buf, 4);
    var count := ParseNumber(buf, 4).value;
    ManyCanonical([], count.value, count.rest, enc, one, fits);
    var p := ParseListed(buf, max, fault, minSize, one).value;
    assert p.value[0..] == p.value;
    assert buf == BigEndian(|p.value|, 4) + (Concatenated(p.value, enc) + p.rest);
  }

  function Error(e: WireError): Bytes {
    BigEndian(e.code, 2) + Bool(e.retryable) + Sized(e.message)
  }

  function ParseError(buf: Bytes, l: Limits): Parse<WireError> {
    Widths();
    var code :- ParseNumber(buf, 2);
    var retryable :- ParseBool(code.rest);
    var message :- ParseString(retryable.rest, l);
    Ok(Parsed(WireError(code.value, retryable.value, message.value), message.rest))
  }

  lemma ErrorRoundTrip(e: WireError, l: Limits, rest: Bytes)
    requires |e.message| <= l.maxStringLen
    ensures ParseError(Error(e) + rest, l) == Ok(Parsed(e, rest))
  {
    hide Sized, ParseSized, Bool, ParseBool;
    Widths();
    var r2 := Sized(e.message) + rest;
    var r1 := Bool(e.retryable) + r2;
    assert Error(e) + rest == BigEndian(e.code, 2) + r1;
    NumberRoundTrip(e.code, 2, r1);
    BoolRoundTrip(e.retryable, r2);
    SizedRoundTrip(e.message, l.maxStringLen, StringTooLong, rest);
  }

  lemma ErrorCanonical(buf: Bytes, l: Limits)
    requires ParseError(buf, l).Ok?
    ensures var p := ParseError(buf, l).value; buf == Error(p.value) + p.rest && |p.value.message| <= l.maxStringLen
  {
    hide Sized, ParseSized, Bool, ParseBool;
    var code := ParseNumber(buf, 2).value;
    var retryable := ParseBool(code.rest).value;
    NumberCanonical(buf, 2);
    BoolCanonical(code.rest);
    SizedCanonical(retryable.rest, l.maxStringLen, StringTooLong);
    var p := ParseError(buf, l).value;
    assert buf == BigEndian(p.value.code, 2) + (Bool(p.value.retryable) + (Sized(p.value.message) + p.rest));
  }

  function ParseU8(buf: Bytes): Parse<uint8> {
    Widths();
    var v :- ParseNumber(buf, 1);
    Ok(Parsed(v.value, v.rest))
  }

  function ParseU32(buf: Bytes): Parse<uint32> {
    Widths();
    var v :- ParseNumber(buf, 4);
    Ok(Parsed(v.value, v.rest))
  }

  function ParseU64(buf: Bytes): Parse<uint64> {
    Widths();
    var v :- ParseNumber(buf, 8);
    Ok(Parsed(v.value, v.rest))
  }

  function ParseI64(buf: Bytes): Parse<int64> {
    var v :- ParseU64(buf);
    Ok(Parsed(Unsigned(v.value), v.rest))
  }

  function Schedule(v: ScheduleSpec): Bytes {
    [v.kind] + BigEndian(Signed(v.startUnixNano), 8) + BigEndian(v.intervalMillis, 8)
  }

  function ParseSchedule(buf: Bytes): Parse<ScheduleSpec> {
    var kind :- ParseU8(buf);
    var start :- ParseI64(kind.rest);
    var interval :- ParseU64(start.rest);
    Ok(Parsed(ScheduleSpec(kind.value, start.value, interval.value), interval.rest))
  }

  function Backfill(v: BackfillSpec): Bytes {
    [v.mode] + BigEndian(v.maxCount, 4) + BigEndian(v.maxAgeMillis, 8)
  }

  function ParseBackfill(buf: Bytes): Parse<BackfillSpec> {
    var mode :- ParseU8(buf);
    var count :- ParseU32(mode.rest);
    var age :- ParseU64(count.rest);
    Ok(Parsed(BackfillSpec(mode.value, count.value, age.value), age.rest))
  }

  function Retry(v: RetrySpec): Bytes {
    [v.policy] + BigEndian(v.maxRetries, 4) + BigEndian(v.initialDelayMillis, 8) + BigEndian(v.maxDelayMillis, 8) +
    BigEndian(v.multiplierBits, 8)
  }

  function ParseRetry(buf: Bytes): Parse<RetrySpec> {
    var policy :- ParseU8(buf);
    var retries :- ParseU32(policy.rest);
    var initial :- ParseU64(retries.rest);
    var max :- ParseU64(initial.rest);
    var multiplier :- ParseU64(max.rest);
    Ok(Parsed(RetrySpec(policy.value, retries.value, initial.value, max.value, multiplier.value), multiplier.rest))
  }

  function Pin(v: PinSpec): Bytes {
    Tag(v.pinned) + [v.policy]
  }

  function ParsePin(buf: Bytes, l: Limits): Parse<PinSpec> {
    var pinned :- ParseLabel(buf, l);
    var policy :- ParseU8(pinned.rest);
    Ok(Parsed(PinSpec(pinned.value, policy.value), policy.rest))
  }

  lemma ByteIsNumber(v: uint8)
    ensures BigEndian(v, 1) == [v]
  {
    assert BigEndian(v, 1) == BigEndian(v / 0x100, 0) + [v];
  }

  lemma NumbersRoundTrip(rest: Bytes)
    ensures forall v: uint8 :: ParseU8([v] + rest) == Ok(Parsed(v, rest))
    ensures forall v: uint32 :: ParseU32(BigEndian(v, 4) + rest) == Ok(Parsed(v, rest))
    ensures forall v: uint64 :: ParseU64(BigEndian(v, 8) + rest) == Ok(Parsed(v, rest))
    ensures forall v: int64 :: ParseI64(BigEndian(Signed(v), 8) + rest) == Ok(Parsed(v, rest))
  {
    hide BigEndian, ParseNumber;
    Widths();
    forall v: uint8 ensures ParseU8([v] + rest) == Ok(Parsed(v, rest)) {
      ByteIsNumber(v);
      NumberRoundTrip(v, 1, rest);
    }
    forall v: uint32 ensures ParseU32(BigEndian(v, 4) + rest) == Ok(Parsed(v, rest)) {
      NumberRoundTrip(v, 4, rest);
    }
    forall v: uint64 ensures ParseU64(BigEndian(v, 8) + rest) == Ok(Parsed(v, rest)) {
      NumberRoundTrip(v, 8, rest);
    }
    forall v: int64 ensures ParseI64(BigEndian(Signed(v), 8) + rest) == Ok(Parsed(v, rest)) {
      NumberRoundTrip(Signed(v), 8, rest);
    }
  }

  lemma NumbersCanonical(buf: Bytes)
    ensures ParseU8(buf).Ok? ==> buf == [ParseU8(buf).value.value] + ParseU8(buf).value.rest
    ensures ParseU32(buf).Ok? ==> buf == BigEndian(ParseU32(buf).value.value, 4) + ParseU32(buf).value.rest
    ensures ParseU64(buf).Ok? ==> buf == BigEndian(ParseU64(buf).value.value, 8) + ParseU64(buf).value.rest
    ensures ParseI64(buf).Ok? ==> buf == BigEndian(Signed(ParseI64(buf).value.value), 8) + ParseI64(buf).value.rest
  {
    hide BigEndian, ParseNumber;
    if ParseU8(buf).Ok? {
      NumberCanonical(buf, 1);
      ByteIsNumber(ParseU8(buf).value.value);
    }
    if ParseU32(buf).Ok? { NumberCanonical(buf, 4); }
    if ParseU64(buf).Ok? { NumberCanonical(buf, 8); }
  }

  lemma ScheduleRoundTrip(v: ScheduleSpec, rest: Bytes)
    ensures ParseSchedule(Schedule(v) + rest) == Ok(Parsed(v, rest))
  {
    hide BigEndian, ParseU8, ParseI64, ParseU64, Signed;
    var r2 := BigEndian(v.intervalMillis, 8) + rest;
    var r1 := BigEndian(Signed(v.startUnixNano), 8) + r2;
    assert Schedule(v) + rest == [v.kind] + r1;
    NumbersRoundTrip(r1);
    NumbersRoundTrip(r2);
    NumbersRoundTrip(rest);
  }

  lemma ScheduleCanonical(buf: Bytes)
    requires ParseSchedule(buf).Ok?
    ensures buf == Schedule(ParseSchedule(buf).value.value) + ParseSchedule(buf).value.rest
  {
    hide BigEndian, ParseU8, ParseI64, ParseU64, Signed;
    var kind := ParseU8(buf).value;
    var start := ParseI64(kind.rest).value;
    NumbersCanonical(buf);
    NumbersCanonical(kind.rest);
    NumbersCanonical(start.rest);
    var p := ParseSchedule(buf).value;
    assert buf == [p.value.kind] + (BigEndian(Signed(p.value.startUnixNano), 8) +
                  (BigEndian(p.value.intervalMillis, 8) + p.rest));
  }

  lemma BackfillRoundTrip(v: BackfillSpec, rest: Bytes)
    ensures ParseBackfill(Backfill(v) + rest) == Ok(Parsed(v, rest))
  {
    hide BigEndian, ParseU8, ParseU32, ParseU64;
    var r2 := BigEndian(v.maxAgeMillis, 8) + rest;
    var r1 := BigEndian(v.maxCount, 4) + r2;
    assert Backfill(v) + rest == [v.mode] + r1;
    NumbersRoundTrip(r1);
    NumbersRoundTrip(r2);
    NumbersRoundTrip(rest);
  }

  lemma BackfillCanonical(buf: Bytes)
    requires ParseBackfill(buf).Ok?
    ensures buf == Backfill(ParseBackfill(buf).value.value) + ParseBackfill(buf).value.rest
  {
    hide BigEndian, ParseU8, ParseU32, ParseU64;
    var mode := ParseU8(buf).value;
    var count := ParseU32(mode.rest).value;
    NumbersCanonical(buf);
    NumbersCanonical(mode.rest);
    NumbersCanonical(count.rest);
    var p := ParseBackfill(buf).value;
    assert buf == [p.value.mode] + (BigEndian(p.value.maxCount, 4) + (BigEndian(p.value.maxAgeMillis, 8) + p.rest));
  }

  lemma RetryRoundTrip(v: RetrySpec, rest: Bytes)
    ensures ParseRetry(Retry(v) + rest) == Ok(Parsed(v, rest))
  {
    hide BigEndian, ParseU8, ParseU32, ParseU64;
    var r4 := BigEndian(v.multiplierBits, 8) + rest;
    var r3 := BigEndian(v.maxDelayMillis, 8) + r4;
    var r2 := BigEndian(v.initialDelayMillis, 8) + r3;
    var r1 := BigEndian(v.maxRetries, 4) + r2;
    assert Retry(v) + rest == [v.policy] + r1;
    NumbersRoundTrip(r1);
    NumbersRoundTrip(r2);
    NumbersRoundTrip(r3);
    NumbersRoundTrip(r4);
    NumbersRoundTrip(rest);
  }

  lemma RetryCanonical(buf: Bytes)
    requires ParseRetry(buf).Ok?
    ensures buf == Retry(ParseRetry(buf).value.value) + ParseRetry(buf).value.rest
  {
    hide BigEndian, ParseU8, ParseU32, ParseU64;
    var policy := ParseU8(buf).value;
    var retries := ParseU32(policy.rest).value;
    var initial := ParseU64(retries.rest).value;
    var max := ParseU64(initial.rest).value;
    NumbersCanonical(buf);
    NumbersCanonical(policy.rest);
    NumbersCanonical(retries.rest);
    NumbersCanonical(initial.rest);
    NumbersCanonical(max.rest);
    var p := ParseRetry(buf).value;
    assert buf == [p.value.policy] + (BigEndian(p.value.maxRetries, 4) + (BigEndian(p.value.initialDelayMillis, 8) +
                  (BigEndian(p.value.maxDelayMillis, 8) + (BigEndian(p.value.multiplierBits, 8) + p.rest))));
  }

  lemma PinRoundTrip(v: PinSpec, l: Limits, rest: Bytes)
    requires |v.pinned.name| <= l.maxLabelLen
    ensures ParsePin(Pin(v) + rest, l) == Ok(Parsed(v, rest))
  {
    hide Sized, ParseSized, ParseU8;
    assert Pin(v) + rest == Tag(v.pinned) + ([v.policy] + rest);
    SizedRoundTrip(v.pinned.name, l.maxLabelLen, LabelTooLong, [v.policy] + rest);
    NumbersRoundTrip(rest);
  }

  lemma PinCanonical(buf: Bytes, l: Limits)
    requires ParsePin(buf, l).Ok?
    ensures var p := ParsePin(buf, l).value; buf == Pin(p.value) + p.rest && |p.value.pinned.name| <= l.maxLabelLen
  {
    hide Sized, ParseSized, ParseU8;
    SizedCanonical(buf, l.maxLabelLen, LabelTooLong);
    NumbersCanonical(ParseLabel(buf, l).value.rest);
    var p := ParsePin(buf, l).value;
    assert buf == Tag(p.value.pinned) + ([p.value.policy] + p.rest);
  }

  function OptionalError(e: Option<WireError>): Bytes {
    if e.None? then Bool(false) else Bool(true) + Error(e.value)
  }

  function ParseOptionalError(buf: Bytes, l: Limits): Parse<Option<WireError>> {
    var present :- ParseBool(buf);
    if !present.value then Ok(Parsed(None, present.rest))
    else
      var e :- ParseError(present.rest, l);
      Ok(Parsed(Some(e.value), e.rest))
  }

  datatype Kind =
    | U8Kind | U32Kind | U64Kind | I64Kind | BoolKind | StringKind | BytesKind | ResultKind | UUIDKind | SpecKind
    | SpecsKind | LabelsKind | ErrorKind | OptionalErrorKind | ScheduleKind | BackfillKind | RetryKind | PinKind

  datatype Field =
    | U8(u8: uint8) | U32(u32: uint32) | U64(u64: uint64) | I64(i64: int64) | Flag(flag: bool) | Text(text: Bytes)
    | Blob(blob: Bytes) | Held(held: Bytes) | UUID(uuid: JobUUID)
    | Function(spec: FunctionSpec) | Functions(specs: seq<FunctionSpec>) | Labels(labels: seq<Label>)
    | Cause(cause: WireError) | Failure(failure: Option<WireError>) | Timing(schedule: ScheduleSpec)
    | Recovery(backfill: BackfillSpec) | Retries(retry: RetrySpec) | Routing(pin: PinSpec)
  {
    function KindOf(): Kind {
      match this
      case U8(_) => U8Kind
      case U32(_) => U32Kind
      case U64(_) => U64Kind
      case I64(_) => I64Kind
      case Flag(_) => BoolKind
      case Text(_) => StringKind
      case Blob(_) => BytesKind
      case Held(_) => ResultKind
      case UUID(_) => UUIDKind
      case Function(_) => SpecKind
      case Functions(_) => SpecsKind
      case Labels(_) => LabelsKind
      case Cause(_) => ErrorKind
      case Failure(_) => OptionalErrorKind
      case Timing(_) => ScheduleKind
      case Recovery(_) => BackfillKind
      case Retries(_) => RetryKind
      case Routing(_) => PinKind
    }

    function Encode(): Bytes {
      match this
      case U8(v) => [v]
      case U32(v) => BigEndian(v, 4)
      case U64(v) => BigEndian(v, 8)
      case I64(v) => BigEndian(Signed(v), 8)
      case Flag(v) => Bool(v)
      case Text(v) => Sized(v)
      case Blob(v) => Sized(v)
      case Held(v) => Sized(v)
      case UUID(v) => v.raw
      case Function(v) => Spec(v)
      case Functions(v) => Listed(v, Spec)
      case Labels(v) => Listed(v, Tag)
      case Cause(v) => Error(v)
      case Failure(v) => OptionalError(v)
      case Timing(v) => Schedule(v)
      case Recovery(v) => Backfill(v)
      case Retries(v) => Retry(v)
      case Routing(v) => Pin(v)
    }

    // What the limits ask of a field before a reader accepts it.
    predicate Fits(l: Limits) {
      match this
      case U8(_) => true
      case U32(_) => true
      case U64(_) => true
      case I64(_) => true
      case Flag(_) => true
      case Text(v) => |v| <= l.maxStringLen
      case Blob(v) => |v| <= l.maxBytesLen
      case Held(v) => |v| <= l.maxResultBytes
      case UUID(_) => true
      case Function(v) => SpecFits(v, l)
      case Functions(v) => |v| <= l.maxFunctions && forall f | f in v :: SpecFits(f, l)
      case Labels(v) => |v| <= l.maxLabels && forall t | t in v :: |t.name| <= l.maxLabelLen
      case Cause(v) => |v.message| <= l.maxStringLen
      case Failure(v) => v.Some? ==> |v.value.message| <= l.maxStringLen
      case Timing(_) => true
      case Recovery(_) => true
      case Retries(_) => true
      case Routing(v) => |v.pinned.name| <= l.maxLabelLen
    }
  }

  // A parsed value as a field.
  function As<T>(p: Parse<T>, field: T -> Field): Parse<Field> {
    if p.Err? then Err(p.error) else Ok(Parsed(field(p.value.value), p.value.rest))
  }

  function ParseField(k: Kind, buf: Bytes, l: Limits): Parse<Field> {
    match k
    case U8Kind => As(ParseU8(buf), (v: uint8) => U8(v))
    case U32Kind => As(ParseU32(buf), (v: uint32) => U32(v))
    case U64Kind => As(ParseU64(buf), (v: uint64) => U64(v))
    case I64Kind => As(ParseI64(buf), (v: int64) => I64(v))
    case BoolKind => As(ParseBool(buf), (v: bool) => Flag(v))
    case StringKind => As(ParseString(buf, l), (v: Bytes) => Text(v))
    case BytesKind => As(ParseSized(buf, l.maxBytesLen, BytesTooLong), (v: Bytes) => Blob(v))
    case ResultKind => As(ParseSized(buf, l.maxResultBytes, ResultTooLarge), (v: Bytes) => Held(v))
    case UUIDKind => As(ParseUUID(buf), (v: JobUUID) => UUID(v))
    case SpecKind => As(ParseSpec(buf, l), (v: FunctionSpec) => Function(v))
    case SpecsKind =>
      As(ParseListed(buf, l.maxFunctions, TooManyFunctions, MIN_FUNCTION_SPEC_SIZE, SpecParser(l)),
         (v: seq<FunctionSpec>) => Functions(v))
    case LabelsKind =>
      As(ParseListed(buf, l.maxLabels, TooManyLabels, MIN_LABEL_SIZE, LabelParser(l)), (v: seq<Label>) => Labels(v))
    case ErrorKind => As(ParseError(buf, l), (v: WireError) => Cause(v))
    case OptionalErrorKind => As(ParseOptionalError(buf, l), (v: Option<WireError>) => Failure(v))
    case ScheduleKind => As(ParseSchedule(buf), (v: ScheduleSpec) => Timing(v))
    case BackfillKind => As(ParseBackfill(buf), (v: BackfillSpec) => Recovery(v))
    case RetryKind => As(ParseRetry(buf), (v: RetrySpec) => Retries(v))
    case PinKind => As(ParsePin(buf, l), (v: PinSpec) => Routing(v))
  }

  // A field that fits is read back, whatever follows it.
  lemma FieldRoundTrip(f: Field, l: Limits, rest: Bytes)
    requires f.Fits(l)
    ensures ParseField(f.KindOf(), f.Encode() + rest, l) == Ok(Parsed(f, rest))
  {
    hide BigEndian, ParseNumber, Sized, ParseSized, Bool, ParseBool, ParseSpec, Spec, ParseError, Error,
         ParseListed, Listed;
    hide ParseSchedule, Schedule, ParseBackfill, Backfill, ParseRetry, Retry, ParsePin, Pin;
    NumbersRoundTrip(rest);
    match f
    case U8(v) =>
    case U32(v) =>
    case U64(v) =>
    case I64(v) =>
    case Flag(v) => BoolRoundTrip(v, rest);
    case Text(v) => SizedRoundTrip(v, l.maxStringLen, StringTooLong, rest);
    case Blob(v) => SizedRoundTrip(v, l.maxBytesLen, BytesTooLong, rest);
    case Held(v) => SizedRoundTrip(v, l.maxResultBytes, ResultTooLarge, rest);
    case UUID(v) => assert (v.raw + rest)[..UUID_SIZE] == v.raw && (v.raw + rest)[UUID_SIZE..] == rest;
    case Function(v) => SpecRoundTrip(v, l, rest);
    case Functions(v) => FunctionsRoundTrip(v, l, rest);
    case Labels(v) => LabelListRoundTrip(v, l, rest);
    case Cause(v) => ErrorRoundTrip(v, l, rest);
    case Failure(v) => OptionalErrorRoundTrip(v, l, rest);
    case Timing(v) => ScheduleRoundTrip(v, rest);
    case Recovery(v) => BackfillRoundTrip(v, rest);
    case Retries(v) => RetryRoundTrip(v, rest);
    case Routing(v) => PinRoundTrip(v, l, rest);
  }

  lemma FunctionsRoundTrip(v: seq<FunctionSpec>, l: Limits, rest: Bytes)
    requires |v| <= l.maxFunctions && forall f | f in v :: SpecFits(f, l)
    ensures ParseListed(Listed(v, Spec) + rest, l.maxFunctions, TooManyFunctions, MIN_FUNCTION_SPEC_SIZE,
                        SpecParser(l)) ==
            Ok(Parsed(v, rest))
  {
    SpecsRoundTrip(l);
    assert forall f | f in v :: SpecFitter(l)(f) && |Spec(f)| >= MIN_FUNCTION_SPEC_SIZE;
    hide ParseListed, Listed;
    ListedRoundTrip(v, l.maxFunctions, TooManyFunctions, MIN_FUNCTION_SPEC_SIZE, rest, Spec, SpecParser(l),
                    SpecFitter(l));
  }

  lemma LabelListRoundTrip(v: seq<Label>, l: Limits, rest: Bytes)
    requires |v| <= l.maxLabels && forall t | t in v :: |t.name| <= l.maxLabelLen
    ensures ParseListed(Listed(v, Tag) + rest, l.maxLabels, TooManyLabels, MIN_LABEL_SIZE, LabelParser(l)) ==
            Ok(Parsed(v, rest))
  {
    LabelsRoundTrip(l);
    assert forall t | t in v :: LabelFitter(l)(t) && |Tag(t)| >= MIN_LABEL_SIZE;
    hide ParseListed, Listed;
    ListedRoundTrip(v, l.maxLabels, TooManyLabels, MIN_LABEL_SIZE, rest, Tag, LabelParser(l), LabelFitter(l));
  }

  lemma OptionalErrorRoundTrip(e: Option<WireError>, l: Limits, rest: Bytes)
    requires e.Some? ==> |e.value.message| <= l.maxStringLen
    ensures ParseOptionalError(OptionalError(e) + rest, l) == Ok(Parsed(e, rest))
  {
    hide Bool, ParseBool, Error, ParseError;
    if e.None? {
      BoolRoundTrip(false, rest);
    } else {
      BoolRoundTrip(true, Error(e.value) + rest);
      ErrorRoundTrip(e.value, l, rest);
      assert OptionalError(e) + rest == Bool(true) + (Error(e.value) + rest);
    }
  }

  // What a reader accepts is exactly the encoding of what it returns.
  lemma FieldCanonical(k: Kind, buf: Bytes, l: Limits)
    requires ParseField(k, buf, l).Ok?
    ensures var p := ParseField(k, buf, l).value;
            p.value.KindOf() == k && buf == p.value.Encode() + p.rest && p.value.Fits(l)
  {
    hide BigEndian, ParseNumber, Sized, ParseSized, Bool, ParseBool, ParseSpec, Spec, ParseError, Error,
         ParseListed, Listed;
    hide ParseSchedule, Schedule, ParseBackfill, Backfill, ParseRetry, Retry, ParsePin, Pin;
    if k.U8Kind? || k.U32Kind? || k.U64Kind? || k.I64Kind? || k.UUIDKind? {
      NumberFieldCanonical(k, buf, l);
      return;
    }
    match k
    case BoolKind => BoolCanonical(buf);
    case StringKind => SizedCanonical(buf, l.maxStringLen, StringTooLong);
    case BytesKind => SizedCanonical(buf, l.maxBytesLen, BytesTooLong);
    case ResultKind => SizedCanonical(buf, l.maxResultBytes, ResultTooLarge);
    case SpecKind => SpecCanonical(buf, l);
    case SpecsKind => FunctionsCanonical(buf, l);
    case LabelsKind => LabelListCanonical(buf, l);
    case ErrorKind => ErrorCanonical(buf, l);
    case OptionalErrorKind => OptionalErrorCanonical(buf, l);
    case ScheduleKind => ScheduleCanonical(buf);
    case BackfillKind => BackfillCanonical(buf);
    case RetryKind => RetryCanonical(buf);
    case PinKind => PinCanonical(buf, l);
    case _ =>
  }

  lemma NumberFieldCanonical(k: Kind, buf: Bytes, l: Limits)
    requires ParseField(k, buf, l).Ok? && (k.U8Kind? || k.U32Kind? || k.U64Kind? || k.I64Kind? || k.UUIDKind?)
    ensures var p := ParseField(k, buf, l).value;
            p.value.KindOf() == k && buf == p.value.Encode() + p.rest && p.value.Fits(l)
  {
    hide BigEndian, ParseNumber;
    NumbersCanonical(buf);
  }

  lemma FunctionsCanonical(buf: Bytes, l: Limits)
    requires ParseListed(buf, l.maxFunctions, TooManyFunctions, MIN_FUNCTION_SPEC_SIZE, SpecParser(l)).Ok?
    ensures var p := ParseListed(buf, l.maxFunctions, TooManyFunctions, MIN_FUNCTION_SPEC_SIZE, SpecParser(l)).value;
            && buf == Listed(p.value, Spec) + p.rest
            && |p.value| <= l.maxFunctions && forall f | f in p.value :: SpecFits(f, l)
  {
    hide ParseListed, Listed;
    SpecsRoundTrip(l);
    ListedCanonical(buf, l.maxFunctions, TooManyFunctions, MIN_FUNCTION_SPEC_SIZE, Spec, SpecParser(l), SpecFitter(l));
    var parsed := ParseListed(buf, l.maxFunctions, TooManyFunctions, MIN_FUNCTION_SPEC_SIZE, SpecParser(l));
    FittersAgree(parsed.value.value, l);
  }

  lemma LabelListCanonical(buf: Bytes, l: Limits)
    requires ParseListed(buf, l.maxLabels, TooManyLabels, MIN_LABEL_SIZE, LabelParser(l)).Ok?
    ensures var p := ParseListed(buf, l.maxLabels, TooManyLabels, MIN_LABEL_SIZE, LabelParser(l)).value;
            && buf == Listed(p.value, Tag) + p.rest
            && |p.value| <= l.maxLabels && forall t | t in p.value :: |t.name| <= l.maxLabelLen
  {
    hide ParseListed, Listed;
    LabelsRoundTrip(l);
    ListedCanonical(buf, l.maxLabels, TooManyLabels, MIN_LABEL_SIZE, Tag, LabelParser(l), LabelFitter(l));
    LabelFittersAgree(ParseListed(buf, l.maxLabels, TooManyLabels, MIN_LABEL_SIZE, LabelParser(l)).value.value, l);
  }

  lemma FittersAgree(v: seq<FunctionSpec>, l: Limits)
    requires forall f | f in v :: SpecFitter(l)(f)
    ensures forall f | f in v :: SpecFits(f, l)
  {
    assert forall f | f in v :: SpecFitter(l)(f) == SpecFits(f, l);
  }

  lemma LabelFittersAgree(v: seq<Label>, l: Limits)
    requires forall t | t in v :: LabelFitter(l)(t)
    ensures forall t | t in v :: |t.name| <= l.maxLabelLen
  {
    assert forall t | t in v :: LabelFitter(l)(t) == (|t.name| <= l.maxLabelLen);
  }

  lemma OptionalErrorCanonical(buf: Bytes, l: Limits)
    requires ParseOptionalError(buf, l).Ok?
    ensures var p := ParseOptionalError(buf, l).value;
            && buf == OptionalError(p.value) + p.rest
            && (p.value.Some? ==> |p.value.value.message| <= l.maxStringLen)
  {
    hide Bool, ParseBool, Error, ParseError;
    BoolCanonical(buf);
    var present := ParseBool(buf).value;
    if present.value {
      ErrorCanonical(present.rest, l);
      var p := ParseOptionalError(buf, l).value;
      assert Bool(true) + (Error(p.value.value) + p.rest) == OptionalError(p.value) + p.rest;
    }
  }

  function EncodeField(f: Field): Bytes {
    f.Encode()
  }

  function EncodeFields(fields: seq<Field>): Bytes {
    Concatenated(fields, EncodeField)
  }

  // The fields still due after the ones already read, with nothing left over.
  function ParseFields(read: seq<Field>, due: seq<Kind>, buf: Bytes, l: Limits): Result<seq<Field>, WireFault>
    decreases |due|
  {
    if due == [] then (if buf == [] then Ok(read) else Err(TrailingBytes))
    else
      var f :- ParseField(due[0], buf, l);
      ParseFields(read + [f.value], due[1..], f.rest, l)
  }

  function Kinds(fields: seq<Field>): (kinds: seq<Kind>)
    ensures |kinds| == |fields| && forall i | 0 <= i < |fields| :: kinds[i] == fields[i].KindOf()
  {
    seq(|fields|, i requires 0 <= i < |fields| => fields[i].KindOf())
  }

  lemma {:induction false} FieldsRoundTrip(read: seq<Field>, fields: seq<Field>, l: Limits)
    requires forall f | f in fields :: f.Fits(l)
    ensures ParseFields(read, Kinds(fields), EncodeFields(fields), l) == Ok(read + fields)
    decreases |fields|
  {
    hide ParseField, Field.Encode, Field.Fits, Field.KindOf;
    if fields == [] {
      assert read + fields == read;
    } else {
      var f, more := fields[0], fields[1..];
      assert fields == [f] + more;
      ConcatenatedFirst(f, more, EncodeField);
      FieldRoundTrip(f, l, EncodeFields(more));
      assert Kinds(fields)[1..] == Kinds(more);
      FieldsRoundTrip(read + [f], more, l);
      assert read + fields == read + [f] + more;
    }
  }

  lemma {:induction false} FieldsCanonical(read: seq<Field>, due: seq<Kind>, buf: Bytes, l: Limits)
    requires ParseFields(read, due, buf, l).Ok?
    ensures var all := ParseFields(read, due, buf, l).value;
            && |all| == |read| + |due| && all[..|read|] == read
            && Kinds(all[|read|..]) == due && EncodeFields(all[|read|..]) == buf
            && (forall f | f in all[|read|..] :: f.Fits(l))
    decreases |due|
  {
    hide ParseField, Field.Encode, Field.Fits, Field.KindOf;
    var all := ParseFields(read, due, buf, l).value;
    if due == [] {
      assert all[|read|..] == [];
    } else {
      FieldCanonical(due[0], buf, l);
      var f := ParseField(due[0], buf, l).value;
      FieldsCanonical(read + [f.value], due[1..], f.rest, l);
      var more := all[|read| + 1..];
      assert all[..|read| + 1] == read + [f.value];
      assert all[..|read|] == all[..|read| + 1][..|read|] == read;
      assert all[|read|..] == [f.value] + more;
      ConcatenatedFirst(f.value, more, EncodeField);
      assert Kinds([f.value] + more) == [due[0]] + due[1..] == due;
    }
  }
}
