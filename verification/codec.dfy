/**
 * The payload writer and reader: a growing buffer and an advancing offset, proved against the field grammar.
 */
module PayloadCodec {
  import opened Wrappers
  import opened ProtocolTypes
  import opened WireFormat
  import opened WireFields

  // Writes never fail. `written` lists the fields the buffer encodes.
  class PayloadWriter {
    var buf: Bytes
    ghost var written: seq<Field>

    ghost predicate Valid()
      reads this
    {
      buf == EncodeFields(written)
    }

    constructor ()
      ensures Valid() && written == []
    {
      buf, written := [], [];
    }

    method Append(b: Bytes)
      modifies this`buf
      ensures buf == old(buf) + b
    {
      buf := buf + b;
    }

    method AppendSized(s: Bytes)
      modifies this`buf
      ensures buf == old(buf) + Sized(s)
    {
      Append(BigEndian(|s| % TWO_TO_32, 4));
      Append(s);
    }

    method AppendBool(v: bool)
      modifies this`buf
      ensures buf == old(buf) + Bool(v)
    {
      if v {
        Append([1]);
      } else {
        Append([0]);
      }
    }

    method AppendFunctionSpec(f: FunctionSpec)
      modifies this`buf
      ensures buf == old(buf) + Spec(f)
    {
      hide Sized;
      AppendSized(f.name);
      AppendSized(f.version);
      AppendSized(f.inputSignature);
      AppendSized(f.outputSignature);
    }

    method AppendWireError(e: WireError)
      modifies this`buf
      ensures buf == old(buf) + Error(e)
    {
      hide Sized, BigEndian, Bool;
      Append(BigEndian(e.code, 2));
      AppendBool(e.retryable);
      AppendSized(e.message);
    }

    ghost method Record(before: Bytes, f: Field)
      requires before == EncodeFields(written) && buf == before + f.Encode()
      modifies this`written
      ensures Valid() && written == old(written) + [f]
    {
      assert (written + [f])[..|written|] == written;
      written := written + [f];
    }

    method WriteUint8(v: uint8)
      requires Valid()
      modifies this
      ensures Valid() && written == old(written) + [U8(v)]
    {
      Append([v]);
      Record(old(buf), U8(v));
    }

    method WriteUint32(v: uint32)
      requires Valid()
      modifies this
      ensures Valid() && written == old(written) + [U32(v)]
    {
      Append(BigEndian(v, 4));
      Record(old(buf), U32(v));
    }

    method WriteUint64(v: uint64)
      requires Valid()
      modifies this
      ensures Valid() && written == old(written) + [U64(v)]
    {
      Append(BigEndian(v, 8));
      Record(old(buf), U64(v));
    }

    method WriteInt64(v: int64)
      requires Valid()
      modifies this
      ensures Valid() && written == old(written) + [I64(v)]
    {
      Append(BigEndian(Signed(v), 8));
      Record(old(buf), I64(v));
    }

    method WriteBool(v: bool)
      requires Valid()
      modifies this
      ensures Valid() && written == old(written) + [Flag(v)]
    {
      AppendBool(v);
      Record(old(buf), Flag(v));
    }

    method WriteString(v: Bytes)
      requires Valid()
      modifies this
      ensures Valid() && written == old(written) + [Text(v)]
    {
      AppendSized(v);
      Record(old(buf), Text(v));
    }

    // A byte field. Held results are written the same way and only read under another limit.
    method WriteBytes(v: Bytes, ghost held: bool)
      requires Valid()
      modifies this
      ensures Valid() && written == old(written) + [if held then Held(v) else Blob(v)]
    {
      AppendSized(v);
      Record(old(buf), if held then Held(v) else Blob(v));
    }

    method WriteUUID(v: JobUUID)
      requires Valid()
      modifies this
      ensures Valid() && written == old(written) + [UUID(v)]
    {
      Append(v.raw);
      Record(old(buf), UUID(v));
    }

    method WriteScheduleSpec(v: ScheduleSpec)
      requires Valid()
      modifies this
      ensures Valid() && written == old(written) + [Timing(v)]
    {
      hide BigEndian, Signed;
      Append([v.kind]);
      Append(BigEndian(Signed(v.startUnixNano), 8));
      Append(BigEndian(v.intervalMillis, 8));
      Record(old(buf), Timing(v));
    }

    method WriteBackfillSpec(v: BackfillSpec)
      requires Valid()
      modifies this
      ensures Valid() && written == old(written) + [Recovery(v)]
    {
      hide BigEndian;
      Append([v.mode]);
      Append(BigEndian(v.maxCount, 4));
      Append(BigEndian(v.maxAgeMillis, 8));
      Record(old(buf), Recovery(v));
    }

    method WriteRetrySpec(v: RetrySpec)
      requires Valid()
      modifies this
      ensures Valid() && written == old(written) + [Retries(v)]
    {
      hide BigEndian;
      Append([v.policy]);
      Append(BigEndian(v.maxRetries, 4));
      Append(BigEndian(v.initialDelayMillis, 8));
      Append(BigEndian(v.maxDelayMillis, 8));
      Append(BigEndian(v.multiplierBits, 8));
      Record(old(buf), Retries(v));
    }

    method WritePinSpec(v: PinSpec)
      requires Valid()
      modifies this
      ensures Valid() && written == old(written) + [Routing(v)]
    {
      hide Sized;
      AppendSized(v.pinned.name);
      Append([v.policy]);
      Record(old(buf), Routing(v));
    }

    method WriteFunctionSpec(f: FunctionSpec)
      requires Valid()
      modifies this
      ensures Valid() && written == old(written) + [Function(f)]
    {
      AppendFunctionSpec(f);
      Record(old(buf), Function(f));
    }

    method WriteFunctions(functions: seq<FunctionSpec>)
      requires Valid()
      modifies this
      ensures Valid() && written == old(written) + [Functions(functions)]
    {
      hide Spec, BigEndian;
      var count := |functions| % TWO_TO_32;
      Append(BigEndian(count, 4));
      for i := 0 to |functions|
        invariant written == old(written)
        invariant buf == old(buf) + (BigEndian(count, 4) + Concatenated(functions[..i], Spec))
      {
        assert functions[..i + 1][..i] == functions[..i];
        AppendFunctionSpec(functions[i]);
      }
      assert functions[..|functions|] == functions;
      Record(old(buf), Functions(functions));
    }

    method WriteLabels(labels: seq<Label>)
      requires Valid()
      modifies this
      ensures Valid() && written == old(written) + [Labels(labels)]
    {
      hide Sized, BigEndian;
      var count := |labels| % TWO_TO_32;
      Append(BigEndian(count, 4));
      for i := 0 to |labels|
        invariant written == old(written)
        invariant buf == old(buf) + (BigEndian(count, 4) + Concatenated(labels[..i], Tag))
      {
        assert labels[..i + 1][..i] == labels[..i];
        AppendSized(labels[i].name);
      }
      assert labels[..|labels|] == labels;
      Record(old(buf), Labels(labels));
    }

    method WriteWireError(e: WireError)
      requires Valid()
      modifies this
      ensures Valid() && written == old(written) + [Cause(e)]
    {
      AppendWireError(e);
      Record(old(buf), Cause(e));
    }

    method WriteOptionalWireError(e: Option<WireError>)
      requires Valid()
      modifies this
      ensures Valid() && written == old(written) + [Failure(e)]
    {
      hide Bool, Error;
      if e.None? {
        AppendBool(false);
      } else {
        AppendBool(true);
        AppendWireError(e.value);
      }
      Record(old(buf), Failure(e));
    }
  }

  // An outcome agrees with what the grammar parses off the bytes before, and leaves what it leaves.
  ghost predicate Agrees<T>(p: Parse<T>, r: Result<T, WireFault>, rest: Bytes) {
    match r
    case Ok(v) => p == Ok(Parsed(v, rest))
    case Err(e) => p == Err(e)
  }

  // Reads fields of a schema off the front of a payload. `read` lists the ones read so far.
  class PayloadReader {
    const buf: Bytes
    const limits: Limits
    var off: nat
    ghost const schema: seq<Kind>
    ghost var read: seq<Field>

    // What parsing the whole payload comes to.
    ghost function Outcome(): Result<seq<Field>, WireFault> {
      ParseFields([], schema, buf, limits)
    }

    ghost predicate Valid()
      reads this
    {
      off <= |buf| && |read| <= |schema| && Outcome() == ParseFields(read, schema[|read|..], buf[off..], limits)
    }

    // The next field due is of this kind.
    ghost predicate Due(k: Kind)
      reads this`read
    {
      |read| < |schema| && schema[|read|] == k
    }

    function Rest(): Bytes
      reads this`off
      requires off <= |buf|
    {
      buf[off..]
    }

    constructor (payload: Bytes, limits: Limits, ghost schema: seq<Kind>)
      ensures Valid() && buf == payload && this.limits == limits.Normalized() && this.schema == schema
      ensures read == []
    {
      buf, this.limits, off := payload, limits.Normalized(), 0;
      this.schema, read := schema, [];
      new;
      assert payload[0..] == payload && schema[0..] == schema;
    }

    method TakeBytes(n: nat) returns (r: Result<Bytes, WireFault>)
      requires off <= |buf|
      modifies this`off
      ensures off <= |buf| && Agrees(Take(old(Rest()), n), r, Rest())
    {
      if |buf| - off < n {
        return Err(ShortBuffer);
      }
      var chunk := buf[off..off + n];
      assert chunk == buf[off..][..n] && buf[off + n..] == buf[off..][n..];
      off := off + n;
      return Ok(chunk);
    }

    method TakeNumber(n: nat) returns (r: Result<nat, WireFault>)
      requires off <= |buf|
      modifies this`off
      ensures off <= |buf| && Agrees(ParseNumber(old(Rest()), n), r, Rest())
      ensures r.Ok? ==> r.value < Power256(n)
    {
      hide Take;
      var chunk :- TakeBytes(n);
      BigEndianOfNumber(chunk);
      TakeSize(old(Rest()), n);
      return Ok(Number(chunk));
    }

    method TakeBool() returns (r: Result<bool, WireFault>)
      requires off <= |buf|
      modifies this`off
      ensures off <= |buf| && Agrees(ParseBool(old(Rest())), r, Rest())
    {
      hide ParseNumber;
      var v :- TakeNumber(1);
      if v == 0 {
        return Ok(false);
      }
      if v == 1 {
        return Ok(true);
      }
      return Err(InvalidBool);
    }

    method TakeSized(max: uint32, fault: WireFault) returns (r: Result<Bytes, WireFault>)
      requires off <= |buf|
      modifies this`off
      ensures off <= |buf| && Agrees(ParseSized(old(Rest()), max, fault), r, Rest())
    {
      hide ParseNumber, Take;
      var length :- TakeNumber(4);
      if length > max {
        return Err(fault);
      }
      r := TakeBytes(length);
    }

    method TakeFunctionSpec() returns (r: Result<FunctionSpec, WireFault>)
      requires off <= |buf|
      modifies this`off
      ensures off <= |buf| && Agrees(ParseSpec(old(Rest()), limits), r, Rest())
    {
      hide ParseSized;
      var name :- TakeSized(limits.maxStringLen, StringTooLong);
      var version :- TakeSized(limits.maxStringLen, StringTooLong);
      var input :- TakeSized(limits.maxStringLen, StringTooLong);
      var output :- TakeSized(limits.maxStringLen, StringTooLong);
      return Ok(FunctionSpec(name, version, input, output));
    }

    method TakeLabel() returns (r: Result<Label, WireFault>)
      requires off <= |buf|
      modifies this`off
      ensures off <= |buf| && Agrees(ParseLabel(old(Rest()), limits), r, Rest())
    {
      hide ParseSized;
      var name :- TakeSized(limits.maxLabelLen, LabelTooLong);
      return Ok(Label(name));
    }

    // The declared count is refused before any element is read if the limit or the bytes left cannot justify it.
    method TakeCount(max: uint32, fault: WireFault, minSize: nat) returns (r: Result<nat, WireFault>)
      requires off <= |buf| && minSize > 0
      modifies this`off
      ensures off <= |buf|
      ensures match r
              case Ok(n) =>
                ParseNumber(old(Rest()), 4) == Ok(Parsed(n, Rest())) && n <= max && n <= |Rest()| / minSize
              case Err(e) =>
                forall one: Bytes -> Parse<FunctionSpec> :: ParseListed(old(Rest()), max, fault, minSize, one) == Err(e)
      ensures r.Err? ==>
                forall one: Bytes -> Parse<Label> :: ParseListed(old(Rest()), max, fault, minSize, one) == Err(r.error)
      ensures var rest := old(Rest());
              if |rest| < 4 then r == Err(ShortBuffer)
              else
                r == if Number(rest[..4]) > max then Err(fault)
                     else if Number(rest[..4]) > (|rest| - 4) / minSize then Err(ShortBuffer)
                     else Ok(Number(rest[..4]))
    {
      hide Number, BigEndian;
      var count :- TakeNumber(4);
      if count > max {
        return Err(fault);
      }
      if count > |Rest()| / minSize {
        return Err(ShortBuffer);
      }
      return Ok(count);
    }

    method TakeFunctions() returns (r: Result<seq<FunctionSpec>, WireFault>)
      requires off <= |buf|
      modifies this`off
      ensures off <= |buf|
      ensures Agrees(ParseListed(old(Rest()), limits.maxFunctions, TooManyFunctions, MIN_FUNCTION_SPEC_SIZE,
                                 SpecParser(limits)), r, Rest())
    {
      hide ParseNumber, ParseSpec;
      var count :- TakeCount(limits.maxFunctions, TooManyFunctions, MIN_FUNCTION_SPEC_SIZE);
      var functions := [];
      ghost var list := Rest();
      for i := 0 to count
        invariant off <= |buf| && |functions| == i
        invariant ParseMany([], count, list, SpecParser(limits)) ==
                  ParseMany(functions, count - i, Rest(), SpecParser(limits))
      {
        var f :- TakeFunctionSpec();
        functions := functions + [f];
      }
      return Ok(functions);
    }

    method TakeLabels() returns (r: Result<seq<Label>, WireFault>)
      requires off <= |buf|
      modifies this`off
      ensures off <= |buf|
      ensures Agrees(ParseListed(old(Rest()), limits.maxLabels, TooManyLabels, MIN_LABEL_SIZE, LabelParser(limits)),
                     r, Rest())
    {
      hide ParseNumber, ParseLabel;
      var count :- TakeCount(limits.maxLabels, TooManyLabels, MIN_LABEL_SIZE);
      var labels := [];
      ghost var list := Rest();
      for i := 0 to count
        invariant off <= |buf| && |labels| == i
        invariant ParseMany([], count, list, LabelParser(limits)) ==
                  ParseMany(labels, count - i, Rest(), LabelParser(limits))
      {
        var l :- TakeLabel();
        labels := labels + [l];
      }
      return Ok(labels);
    }

    method TakeWireError() returns (r: Result<WireError, WireFault>)
      requires off <= |buf|
      modifies this`off
      ensures off <= |buf| && Agrees(ParseError(old(Rest()), limits), r, Rest())
    {
      hide ParseNumber, ParseBool, ParseSized;
      Widths();
      var code :- TakeNumber(2);
      var retryable :- TakeBool();
      var message :- TakeSized(limits.maxStringLen, StringTooLong);
      return Ok(WireError(code, retryable, message));
    }

    method TakeOptionalWireError() returns (r: Result<Option<WireError>, WireFault>)
      requires off <= |buf|
      modifies this`off
      ensures off <= |buf| && Agrees(ParseOptionalError(old(Rest()), limits), r, Rest())
    {
      hide ParseBool, ParseError;
      var present :- TakeBool();
      if !present {
        return Ok(None);
      }
      var e :- TakeWireError();
      return Ok(Some(e));
    }

    method TakeUint8() returns (r: Result<uint8, WireFault>)
      requires off <= |buf|
      modifies this`off
      ensures off <= |buf| && Agrees(ParseU8(old(Rest())), r, Rest())
    {
      hide ParseNumber;
      Widths();
      var v :- TakeNumber(1);
      return Ok(v);
    }

    method TakeUint32() returns (r: Result<uint32, WireFault>)
      requires off <= |buf|
      modifies this`off
      ensures off <= |buf| && Agrees(ParseU32(old(Rest())), r, Rest())
    {
      hide ParseNumber;
      Widths();
      var v :- TakeNumber(4);
      return Ok(v);
    }

    method TakeUint64() returns (r: Result<uint64, WireFault>)
      requires off <= |buf|
      modifies this`off
      ensures off <= |buf| && Agrees(ParseU64(old(Rest())), r, Rest())
    {
      hide ParseNumber;
      Widths();
      var v :- TakeNumber(8);
      return Ok(v);
    }

    method TakeInt64() returns (r: Result<int64, WireFault>)
      requires off <= |buf|
      modifies this`off
      ensures off <= |buf| && Agrees(ParseI64(old(Rest())), r, Rest())
    {
      hide ParseU64;
      var v :- TakeUint64();
      return Ok(Unsigned(v));
    }

    method TakeScheduleSpec() returns (r: Result<ScheduleSpec, WireFault>)
      requires off <= |buf|
      modifies this`off
      ensures off <= |buf| && Agrees(ParseSchedule(old(Rest())), r, Rest())
    {
      hide ParseU8, ParseI64, ParseU64;
      var kind :- TakeUint8();
      var start :- TakeInt64();
      var interval :- TakeUint64();
      return Ok(ScheduleSpec(kind, start, interval));
    }

    method TakeBackfillSpec() returns (r: Result<BackfillSpec, WireFault>)
      requires off <= |buf|
      modifies this`off
      ensures off <= |buf| && Agrees(ParseBackfill(old(Rest())), r, Rest())
    {
      hide ParseU8, ParseU32, ParseU64;
      var mode :- TakeUint8();
      var maxCount :- TakeUint32();
      var maxAgeMillis :- TakeUint64();
      return Ok(BackfillSpec(mode, maxCount, maxAgeMillis));
    }

    method TakeRetrySpec() returns (r: Result<RetrySpec, WireFault>)
      requires off <= |buf|
      modifies this`off
      ensures off <= |buf| && Agrees(ParseRetry(old(Rest())), r, Rest())
    {
      hide ParseU8, ParseU32, ParseU64;
      var policy :- TakeUint8();
      var maxRetries :- TakeUint32();
      var initialDelayMillis :- TakeUint64();
      var maxDelayMillis :- TakeUint64();
      var multiplierBits :- TakeUint64();
      return Ok(RetrySpec(policy, maxRetries, initialDelayMillis, maxDelayMillis, multiplierBits));
    }

    method TakePinSpec() returns (r: Result<PinSpec, WireFault>)
      requires off <= |buf|
      modifies this`off
      ensures off <= |buf| && Agrees(ParsePin(old(Rest()), limits), r, Rest())
    {
      hide ParseLabel, ParseU8;
      var pinned :- TakeLabel();
      var policy :- TakeUint8();
      return Ok(PinSpec(pinned, policy));
    }

    // Moves one field from due to read, or settles the outcome when the field does not parse.
    ghost method Record(before: Bytes, r: Result<Field, WireFault>)
      requires off <= |buf| && |read| < |schema|
      requires Outcome() == ParseFields(read, schema[|read|..], before, limits)
      requires Agrees(ParseField(schema[|read|], before, limits), r, Rest())
      modifies this`read
      ensures r.Ok? ==> Valid() && read == old(read) + [r.value]
      ensures r.Err? ==> Outcome() == Err(r.error)
    {
      assert schema[|read|..][1..] == schema[|read| + 1..];
      if r.Ok? {
        read := read + [r.value];
      }
    }

    method ReadUint8() returns (r: Result<uint8, WireFault>)
      requires Valid() && Due(U8Kind)
      modifies this`off, this`read
      ensures r.Ok? ==> Valid() && read == old(read) + [U8(r.value)]
      ensures r.Err? ==> Outcome() == Err(r.error)
    {
      hide ParseU8, ParseFields;
      r := TakeUint8();
      Record(old(Rest()), if r.Ok? then Ok(U8(r.value)) else Err(r.error));
    }

    method ReadUint32() returns (r: Result<uint32, WireFault>)
      requires Valid() && Due(U32Kind)
      modifies this`off, this`read
      ensures r.Ok? ==> Valid() && read == old(read) + [U32(r.value)]
      ensures r.Err? ==> Outcome() == Err(r.error)
    {
      hide ParseU32, ParseFields;
      r := TakeUint32();
      Record(old(Rest()), if r.Ok? then Ok(U32(r.value)) else Err(r.error));
    }

    method ReadUint64() returns (r: Result<uint64, WireFault>)
      requires Valid() && Due(U64Kind)
      modifies this`off, this`read
      ensures r.Ok? ==> Valid() && read == old(read) + [U64(r.value)]
      ensures r.Err? ==> Outcome() == Err(r.error)
    {
      hide ParseU64, ParseFields;
      r := TakeUint64();
      Record(old(Rest()), if r.Ok? then Ok(U64(r.value)) else Err(r.error));
    }

    method ReadInt64() returns (r: Result<int64, WireFault>)
      requires Valid() && Due(I64Kind)
      modifies this`off, this`read
      ensures r.Ok? ==> Valid() && read == old(read) + [I64(r.value)]
      ensures r.Err? ==> Outcome() == Err(r.error)
    {
      hide ParseI64, ParseFields;
      r := TakeInt64();
      Record(old(Rest()), if r.Ok? then Ok(I64(r.value)) else Err(r.error));
    }

    method ReadBool() returns (r: Result<bool, WireFault>)
      requires Valid() && Due(BoolKind)
      modifies this`off, this`read
      ensures r.Ok? ==> Valid() && read == old(read) + [Flag(r.value)]
      ensures r.Err? ==> Outcome() == Err(r.error)
    {
      hide ParseBool, ParseFields;
      r := TakeBool();
      Record(old(Rest()), if r.Ok? then Ok(Flag(r.value)) else Err(r.error));
    }

    method ReadString() returns (r: Result<Bytes, WireFault>)
      requires Valid() && Due(StringKind)
      modifies this`off, this`read
      ensures r.Ok? ==> Valid() && read == old(read) + [Text(r.value)]
      ensures r.Err? ==> Outcome() == Err(r.error)
    {
      hide ParseSized, ParseFields;
      r := TakeSized(limits.maxStringLen, StringTooLong);
      Record(old(Rest()), if r.Ok? then Ok(Text(r.value)) else Err(r.error));
    }

    method ReadBytes() returns (r: Result<Bytes, WireFault>)
      requires Valid() && Due(BytesKind)
      modifies this`off, this`read
      ensures r.Ok? ==> Valid() && read == old(read) + [Blob(r.value)]
      ensures r.Err? ==> Outcome() == Err(r.error)
    {
      hide ParseSized, ParseFields;
      r := TakeSized(limits.maxBytesLen, BytesTooLong);
      Record(old(Rest()), if r.Ok? then Ok(Blob(r.value)) else Err(r.error));
    }

    method ReadResultBytes() returns (r: Result<Bytes, WireFault>)
      requires Valid() && Due(ResultKind)
      modifies this`off, this`read
      ensures r.Ok? ==> Valid() && read == old(read) + [Held(r.value)]
      ensures r.Err? ==> Outcome() == Err(r.error)
    {
      hide ParseSized, ParseFields;
      r := TakeSized(limits.maxResultBytes, ResultTooLarge);
      Record(old(Rest()), if r.Ok? then Ok(Held(r.value)) else Err(r.error));
    }

    method ReadUUID() returns (r: Result<JobUUID, WireFault>)
      requires Valid() && Due(UUIDKind)
      modifies this`off, this`read
      ensures r.Ok? ==> Valid() && read == old(read) + [UUID(r.value)]
      ensures r.Err? ==> Outcome() == Err(r.error)
    {
      hide ParseFields;
      if |buf| - off < UUID_SIZE {
        r := Err(ShortUUID);
      } else {
        var chunk := TakeBytes(UUID_SIZE);
        r := Ok(JobUUID(chunk.value));
      }
      Record(old(Rest()), if r.Ok? then Ok(UUID(r.value)) else Err(r.error));
    }

    method ReadFunctionSpec() returns (r: Result<FunctionSpec, WireFault>)
      requires Valid() && Due(SpecKind)
      modifies this`off, this`read
      ensures r.Ok? ==> Valid() && read == old(read) + [Function(r.value)]
      ensures r.Err? ==> Outcome() == Err(r.error)
    {
      hide ParseSpec, ParseFields;
      r := TakeFunctionSpec();
      Record(old(Rest()), if r.Ok? then Ok(Function(r.value)) else Err(r.error));
    }

    method ReadFunctions() returns (r: Result<seq<FunctionSpec>, WireFault>)
      requires Valid() && Due(SpecsKind)
      modifies this`off, this`read
      ensures r.Ok? ==> Valid() && read == old(read) + [Functions(r.value)]
      ensures r.Err? ==> Outcome() == Err(r.error)
    {
      hide ParseListed, ParseFields;
      r := TakeFunctions();
      Record(old(Rest()), if r.Ok? then Ok(Functions(r.value)) else Err(r.error));
    }

    method ReadLabels() returns (r: Result<seq<Label>, WireFault>)
      requires Valid() && Due(LabelsKind)
      modifies this`off, this`read
      ensures r.Ok? ==> Valid() && read == old(read) + [Labels(r.value)]
      ensures r.Err? ==> Outcome() == Err(r.error)
    {
      hide ParseListed, ParseFields;
      r := TakeLabels();
      Record(old(Rest()), if r.Ok? then Ok(Labels(r.value)) else Err(r.error));
    }

    method ReadWireError() returns (r: Result<WireError, WireFault>)
      requires Valid() && Due(ErrorKind)
      modifies this`off, this`read
      ensures r.Ok? ==> Valid() && read == old(read) + [Cause(r.value)]
      ensures r.Err? ==> Outcome() == Err(r.error)
    {
      hide ParseError, ParseFields;
      r := TakeWireError();
      Record(old(Rest()), if r.Ok? then Ok(Cause(r.value)) else Err(r.error));
    }

    method ReadOptionalWireError() returns (r: Result<Option<WireError>, WireFault>)
      requires Valid() && Due(OptionalErrorKind)
      modifies this`off, this`read
      ensures r.Ok? ==> Valid() && read == old(read) + [Failure(r.value)]
      ensures r.Err? ==> Outcome() == Err(r.error)
    {
      hide ParseOptionalError, ParseFields;
      r := TakeOptionalWireError();
      Record(old(Rest()), if r.Ok? then Ok(Failure(r.value)) else Err(r.error));
    }

    method ReadScheduleSpec() returns (r: Result<ScheduleSpec, WireFault>)
      requires Valid() && Due(ScheduleKind)
      modifies this`off, this`read
      ensures r.Ok? ==> Valid() && read == old(read) + [Timing(r.value)]
      ensures r.Err? ==> Outcome() == Err(r.error)
    {
      hide ParseSchedule, ParseFields;
      r := TakeScheduleSpec();
      Record(old(Rest()), if r.Ok? then Ok(Timing(r.value)) else Err(r.error));
    }

    method ReadBackfillSpec() returns (r: Result<BackfillSpec, WireFault>)
      requires Valid() && Due(BackfillKind)
      modifies this`off, this`read
      ensures r.Ok? ==> Valid() && read == old(read) + [Recovery(r.value)]
      ensures r.Err? ==> Outcome() == Err(r.error)
    {
      hide ParseBackfill, ParseFields;
      r := TakeBackfillSpec();
      Record(old(Rest()), if r.Ok? then Ok(Recovery(r.value)) else Err(r.error));
    }

    method ReadRetrySpec() returns (r: Result<RetrySpec, WireFault>)
      requires Valid() && Due(RetryKind)
      modifies this`off, this`read
      ensures r.Ok? ==> Valid() && read == old(read) + [Retries(r.value)]
      ensures r.Err? ==> Outcome() == Err(r.error)
    {
      hide ParseRetry, ParseFields;
      r := TakeRetrySpec();
      Record(old(Rest()), if r.Ok? then Ok(Retries(r.value)) else Err(r.error));
    }

    method ReadPinSpec() returns (r: Result<PinSpec, WireFault>)
      requires Valid() && Due(PinKind)
      modifies this`off, this`read
      ensures r.Ok? ==> Valid() && read == old(read) + [Routing(r.value)]
      ensures r.Err? ==> Outcome() == Err(r.error)
    {
      hide ParsePin, ParseFields;
      r := TakePinSpec();
      Record(old(Rest()), if r.Ok? then Ok(Routing(r.value)) else Err(r.error));
    }

    // Nothing may follow the last field.
    method Finish() returns (r: Result<(), WireFault>)
      requires Valid() && |read| == |schema|
      ensures r.Ok? ==> Outcome() == Ok(read)
      ensures r.Err? ==> Outcome() == Err(r.error)
    {
      if |buf| - off != 0 {
        return Err(TrailingBytes);
      }
      return Ok(());
    }
  }

  lemma TakeSize(buf: Bytes, n: nat)
    ensures Take(buf, n).Ok? ==> |Take(buf, n).value.value| == n
  {
  }
}
