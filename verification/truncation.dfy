/**
 * Payloads cut short: no proper part of an encoded message decodes, and the fault says that bytes are missing.
 */
module WireTruncation {
  import opened Wrappers
  import opened ProtocolTypes
  import opened WireFormat
  import opened WireFields
  import opened WireMessages

  // A cut through two pieces is a cut through the first, or through the second after all of the first.
  lemma Cut(a: Bytes, b: Bytes, n: nat)
    requires n <= |a + b|
    ensures n < |a| ==> (a + b)[..n] == a[..n]
    ensures n >= |a| ==> (a + b)[..n] == a + b[..n - |a|]
  {
  }

  // A cut in front of the end of a number leaves too little, and any later one leaves the number.
  lemma NumberCut(v: nat, width: nat, tail: Bytes, n: nat)
    requires v < Power256(width) && n <= |BigEndian(v, width) + tail|
    ensures var cut := (BigEndian(v, width) + tail)[..n];
            && (n < width ==> ParseNumber(cut, width) == Err(ShortBuffer))
            && (n >= width ==> ParseNumber(cut, width) == Ok(Parsed(v, tail[..n - width])))
  {
    hide BigEndian, Number;
    Cut(BigEndian(v, width), tail, n);
    if n >= width {
      NumberRoundTrip(v, width, tail[..n - width]);
    }
  }

  lemma SizedCut(s: Bytes, max: uint32, fault: WireFault, n: nat)
    requires |s| <= max && n < |Sized(s)|
    ensures ParseSized(Sized(s)[..n], max, fault) == Err(ShortBuffer)
  {
    hide BigEndian, ParseNumber;
    Widths();
    NumberCut(|s|, 4, s, n);
  }

  // After a piece that is read back, the rest is what decides.
  lemma StringThen(s: Bytes, l: Limits, rest: Bytes)
    requires |s| <= l.maxStringLen
    ensures ParseString(Sized(s) + rest, l) == Ok(Parsed(s, rest))
  {
    SizedRoundTrip(s, l.maxStringLen, StringTooLong, rest);
  }

  lemma SpecCut(f: FunctionSpec, l: Limits, n: nat)
    requires SpecFits(f, l) && n < |Spec(f)|
    ensures ParseSpec(Spec(f)[..n], l) == Err(ShortBuffer)
  {
    hide Sized, ParseSized;
    var a, b, c, d := Sized(f.name), Sized(f.version), Sized(f.inputSignature), Sized(f.outputSignature);
    assert Spec(f) == a + (b + (c + d));
    Cut(a, b + (c + d), n);
    if n < |a| {
      SizedCut(f.name, l.maxStringLen, StringTooLong, n);
      return;
    }
    var i := n - |a|;
    StringThen(f.name, l, (b + (c + d))[..i]);
    Cut(b, c + d, i);
    if i < |b| {
      SizedCut(f.version, l.maxStringLen, StringTooLong, i);
      return;
    }
    var j := i - |b|;
    StringThen(f.version, l, (c + d)[..j]);
    Cut(c, d, j);
    if j < |c| {
      SizedCut(f.inputSignature, l.maxStringLen, StringTooLong, j);
    } else {
      StringThen(f.inputSignature, l, d[..j - |c|]);
      SizedCut(f.outputSignature, l.maxStringLen, StringTooLong, j - |c|);
    }
  }

  lemma ErrorCut(e: WireError, l: Limits, n: nat)
    requires |e.message| <= l.maxStringLen && n < |Error(e)|
    ensures ParseError(Error(e)[..n], l) == Err(ShortBuffer)
  {
    Widths();
    var a, b, c := BigEndian(e.code, 2), Bool(e.retryable), Sized(e.message);
    assert Error(e) == a + (b + c);
    hide Sized, ParseSized, BigEndian, Number;
    Cut(a, b + c, n);
    if n >= 2 {
      NumberRoundTrip(e.code, 2, (b + c)[..n - 2]);
      Cut(b, c, n - 2);
      if n >= 3 {
        BoolRoundTrip(e.retryable, c[..n - 3]);
        SizedCut(e.message, l.maxStringLen, StringTooLong, n - 3);
      }
    }
  }

  lemma OptionalErrorCut(e: Option<WireError>, l: Limits, n: nat)
    requires (e.Some? ==> |e.value.message| <= l.maxStringLen) && n < |OptionalError(e)|
    ensures ParseOptionalError(OptionalError(e)[..n], l) == Err(ShortBuffer)
  {
    hide Error, ParseError;
    if e.Some? {
      Cut(Bool(true), Error(e.value), n);
      if n >= 1 {
        BoolRoundTrip(true, Error(e.value)[..n - 1]);
        ErrorCut(e.value, l, n - 1);
      }
    }
  }

  lemma PinCut(v: PinSpec, l: Limits, n: nat)
    requires |v.pinned.name| <= l.maxLabelLen && n < |Pin(v)|
    ensures ParsePin(Pin(v)[..n], l) == Err(ShortBuffer)
  {
    hide Sized, ParseSized;
    var a := Sized(v.pinned.name);
    Cut(a, [v.policy], n);
    if n < |a| {
      SizedCut(v.pinned.name, l.maxLabelLen, LabelTooLong, n);
    } else {
      SizedRoundTrip(v.pinned.name, l.maxLabelLen, LabelTooLong, []);
      assert [v.policy][..n - |a|] == [];
    }
  }

  lemma ScheduleCut(v: ScheduleSpec, n: nat)
    requires n < |Schedule(v)|
    ensures ParseSchedule(Schedule(v)[..n]) == Err(ShortBuffer)
  {
    hide BigEndian, Number;
    var b, c := BigEndian(Signed(v.startUnixNano), 8), BigEndian(v.intervalMillis, 8);
    assert Schedule(v) == [v.kind] + (b + c);
    Cut([v.kind], b + c, n);
    if n >= 1 {
      NumbersRoundTrip((b + c)[..n - 1]);
      Cut(b, c, n - 1);
      if n >= 9 {
        NumbersRoundTrip(c[..n - 9]);
      }
    }
  }

  lemma BackfillCut(v: BackfillSpec, n: nat)
    requires n < |Backfill(v)|
    ensures ParseBackfill(Backfill(v)[..n]) == Err(ShortBuffer)
  {
    hide BigEndian, Number;
    var b, c := BigEndian(v.maxCount, 4), BigEndian(v.maxAgeMillis, 8);
    assert Backfill(v) == [v.mode] + (b + c);
    Cut([v.mode], b + c, n);
    if n >= 1 {
      NumbersRoundTrip((b + c)[..n - 1]);
      Cut(b, c, n - 1);
      if n >= 5 {
        NumbersRoundTrip(c[..n - 5]);
      }
    }
  }

  lemma DelaysCut(v: RetrySpec, n: nat)
    requires n < 24
    ensures var d := BigEndian(v.initialDelayMillis, 8) +
                     (BigEndian(v.maxDelayMillis, 8) + BigEndian(v.multiplierBits, 8));
            var initial := ParseU64(d[..n]);
            && (n < 8 ==> initial == Err(ShortBuffer))
            && (n >= 8 ==> initial.Ok?)
            && (n >= 8 ==>
                  var max := ParseU64(initial.value.rest);
                  && (n < 16 ==> max == Err(ShortBuffer))
                  && (n >= 16 ==> max.Ok? && ParseU64(max.value.rest) == Err(ShortBuffer)))
  {
    hide BigEndian, Number;
    var a, b, c := BigEndian(v.initialDelayMillis, 8), BigEndian(v.maxDelayMillis, 8), BigEndian(v.multiplierBits, 8);
    Cut(a, b + c, n);
    if n >= 8 {
      NumbersRoundTrip((b + c)[..n - 8]);
      Cut(b, c, n - 8);
      if n >= 16 {
        NumbersRoundTrip(c[..n - 16]);
      }
    }
  }

  lemma RetryCut(v: RetrySpec, n: nat)
    requires n < |Retry(v)|
    ensures ParseRetry(Retry(v)[..n]) == Err(ShortBuffer)
  {
    hide BigEndian, Number;
    var b := BigEndian(v.maxRetries, 4);
    var d := BigEndian(v.initialDelayMillis, 8) + (BigEndian(v.maxDelayMillis, 8) + BigEndian(v.multiplierBits, 8));
    assert Retry(v) == [v.policy] + (b + d);
    Cut([v.policy], b + d, n);
    if n >= 1 {
      NumbersRoundTrip((b + d)[..n - 1]);
      Cut(b, d, n - 1);
      if n >= 5 {
        NumbersRoundTrip(d[..n - 5]);
        DelaysCut(v, n - 5);
      }
    }
  }

  // Elements are read back, and a part of one is refused.
  ghost predicate Cuts<T(!new)>(enc: T -> Bytes, one: Bytes -> Parse<T>, fits: T -> bool) {
    && (forall v, rest | fits(v) :: one(enc(v) + rest) == Ok(Parsed(v, rest)))
    && (forall v, n: nat | fits(v) && n < |enc(v)| :: one(enc(v)[..n]) == Err(ShortBuffer))
  }

  lemma {:induction false} ManyCut<T(!new)>(read: seq<T>, values: seq<T>, n: nat, enc: T -> Bytes,
                                            one: Bytes -> Parse<T>, fits: T -> bool)
    requires Cuts(enc, one, fits) && (forall v | v in values :: fits(v)) && n < |Concatenated(values, enc)|
    ensures ParseMany(read, |values|, Concatenated(values, enc)[..n], one) == Err(ShortBuffer)
    decreases |values|
  {
    var v, more := values[0], values[1..];
    assert values == [v] + more;
    ConcatenatedFirst(v, more, enc);
    Cut(enc(v), Concatenated(more, enc), n);
    if n >= |enc(v)| {
      ManyCut(read + [v], more, n - |enc(v)|, enc, one, fits);
    }
  }

  lemma ListedCut<T(!new)>(values: seq<T>, max: uint32, fault: WireFault, minSize: nat, n: nat, enc: T -> Bytes,
                           one: Bytes -> Parse<T>, fits: T -> bool)
    requires minSize > 0 && Cuts(enc, one, fits) && (forall v | v in values :: fits(v)) && |values| <= max
    requires n < |Listed(values, enc)|
    ensures ParseListed(Listed(values, enc)[..n], max, fault, minSize, one) == Err(ShortBuffer)
  {
    Widths();
    var tail := Concatenated(values, enc);
    hide BigEndian, ParseNumber;
    NumberCut(|values|, 4, tail, n);
    if n >= 4 {
      ManyCut([], values, n - 4, enc, one, fits);
    }
  }

  lemma FunctionsCut(v: seq<FunctionSpec>, l: Limits, n: nat)
    requires |v| <= l.maxFunctions && (forall f | f in v :: SpecFits(f, l)) && n < |Listed(v, Spec)|
    ensures ParseListed(Listed(v, Spec)[..n], l.maxFunctions, TooManyFunctions, MIN_FUNCTION_SPEC_SIZE,
                        SpecParser(l)) ==
            Err(ShortBuffer)
  {
    assert forall f | f in v :: SpecFitter(l)(f);
    hide Spec, ParseSpec, ParseListed, Listed;
    forall f, rest | SpecFitter(l)(f) ensures SpecParser(l)(Spec(f) + rest) == Ok(Parsed(f, rest)) {
      SpecRoundTrip(f, l, rest);
    }
    forall f, k: nat | SpecFitter(l)(f) && k < |Spec(f)| ensures SpecParser(l)(Spec(f)[..k]) == Err(ShortBuffer) {
      SpecCut(f, l, k);
    }
    ListedCut(v, l.maxFunctions, TooManyFunctions, MIN_FUNCTION_SPEC_SIZE, n, Spec, SpecParser(l), SpecFitter(l));
  }

  lemma LabelsCut(v: seq<Label>, l: Limits, n: nat)
    requires |v| <= l.maxLabels && (forall t | t in v :: |t.name| <= l.maxLabelLen) && n < |Listed(v, Tag)|
    ensures ParseListed(Listed(v, Tag)[..n], l.maxLabels, TooManyLabels, MIN_LABEL_SIZE, LabelParser(l)) ==
            Err(ShortBuffer)
  {
    assert forall t | t in v :: LabelFitter(l)(t);
    hide Sized, ParseSized, ParseListed, Listed;
    forall t, rest | LabelFitter(l)(t) ensures LabelParser(l)(Tag(t) + rest) == Ok(Parsed(t, rest)) {
      SizedRoundTrip(t.name, l.maxLabelLen, LabelTooLong, rest);
    }
    forall t, k: nat | LabelFitter(l)(t) && k < |Tag(t)| ensures LabelParser(l)(Tag(t)[..k]) == Err(ShortBuffer) {
      SizedCut(t.name, l.maxLabelLen, LabelTooLong, k);
    }
    ListedCut(v, l.maxLabels, TooManyLabels, MIN_LABEL_SIZE, n, Tag, LabelParser(l), LabelFitter(l));
  }

  // The fault of a field that ends too early.
  ghost function Missing(f: Field): WireFault {
    if f.UUID? then ShortUUID else ShortBuffer
  }

  // A part of a field is refused.
  lemma FieldCut(f: Field, l: Limits, n: nat)
    requires f.Fits(l) && n < |f.Encode()|
    ensures ParseField(f.KindOf(), f.Encode()[..n], l) == Err(Missing(f))
  {
    hide BigEndian, Number, Sized, ParseSized, ParseSpec, Spec, ParseError, Error, ParseListed, Listed;
    hide ParseSchedule, Schedule, ParseBackfill, Backfill, ParseRetry, Retry, ParsePin, Pin, ParseOptionalError,
         OptionalError;
    match f
    case Text(v) => SizedCut(v, l.maxStringLen, StringTooLong, n);
    case Blob(v) => SizedCut(v, l.maxBytesLen, BytesTooLong, n);
    case Held(v) => SizedCut(v, l.maxResultBytes, ResultTooLarge, n);
    case Function(v) => SpecCut(v, l, n);
    case Functions(v) => FunctionsCut(v, l, n);
    case Labels(v) => LabelsCut(v, l, n);
    case Cause(v) => ErrorCut(v, l, n);
    case Failure(v) => OptionalErrorCut(v, l, n);
    case Timing(v) => ScheduleCut(v, n);
    case Recovery(v) => BackfillCut(v, n);
    case Retries(v) => RetryCut(v, n);
    case Routing(v) => PinCut(v, l, n);
    case _ =>
  }

  lemma {:induction false} FieldsCut(read: seq<Field>, fields: seq<Field>, n: nat, l: Limits)
    requires (forall f | f in fields :: f.Fits(l)) && n < |EncodeFields(fields)|
    ensures exists f :: f in fields &&
                        ParseFields(read, Kinds(fields), EncodeFields(fields)[..n], l) == Err(Missing(f))
    decreases |fields|
  {
    hide ParseField, Field.Encode, Field.Fits, Field.KindOf, Missing;
    var f, more := fields[0], fields[1..];
    assert fields == [f] + more;
    ConcatenatedFirst(f, more, EncodeField);
    Cut(f.Encode(), EncodeFields(more), n);
    assert Kinds(fields)[1..] == Kinds(more);
    if n < |f.Encode()| {
      FieldCut(f, l, n);
    } else {
      var m := n - |f.Encode()|;
      FieldRoundTrip(f, l, EncodeFields(more)[..m]);
      FieldsCut(read + [f], more, m, l);
      var g :| g in more && ParseFields(read + [f], Kinds(more), EncodeFields(more)[..m], l) == Err(Missing(g));
      assert g in fields;
    }
  }

  // No proper part of an encoded message decodes: a part is refused because bytes are missing.
  lemma PartIsRefused(m: Message, limits: Limits, n: nat)
    requires AllWithin(m, limits) && n < |Payload(m)|
    ensures Decode(TypeOf(m), Payload(m)[..n], limits) in {Err(ShortBuffer), Err(ShortUUID)}
  {
    hide ParseFields, EncodeFields, Fields, Build, Schema, AllWithin, Field.Fits;
    FitsIffAllWithin(m, limits);
    SchemaOfFields(m);
    FieldsCut([], Fields(m), n, limits.Normalized());
  }
}
