/**
 * What the limits mean: which sizes a reader accepts, what an unset limit stands for, and which fault refuses a field
 * that is too large.
 */
module WireLimits {
  import opened Wrappers
  import opened ProtocolTypes
  import opened WireFormat
  import opened WireFields

  // A limit as it is stated, or this one when it is left at zero.
  ghost function Applying(stated: uint32, unset: uint32): uint32 {
    if stated == 0 then unset else stated
  }

  ghost predicate ShortText(s: Bytes, limits: Limits) {
    |s| <= Applying(limits.maxStringLen, 4_096)
  }

  ghost predicate ShortSpec(f: FunctionSpec, limits: Limits) {
    && ShortText(f.name, limits) && ShortText(f.version, limits)
    && ShortText(f.inputSignature, limits) && ShortText(f.outputSignature, limits)
  }

  ghost predicate ShortLabel(t: Label, limits: Limits) {
    |t.name| <= Applying(limits.maxLabelLen, 128)
  }

  // The field is within every limit that concerns it.
  ghost predicate Within(f: Field, limits: Limits) {
    match f
    case Text(v) => ShortText(v, limits)
    case Blob(v) => |v| <= Applying(limits.maxBytesLen, 524_288)
    case Held(v) => |v| <= Applying(limits.maxResultBytes, 65_536)
    case Function(v) => ShortSpec(v, limits)
    case Functions(v) => |v| <= Applying(limits.maxFunctions, 1_024) && forall f | f in v :: ShortSpec(f, limits)
    case Labels(v) => |v| <= Applying(limits.maxLabels, 64) && forall t | t in v :: ShortLabel(t, limits)
    case Cause(v) => ShortText(v.message, limits)
    case Failure(v) => v.Some? ==> ShortText(v.value.message, limits)
    case Routing(v) => ShortLabel(v.pinned, limits)
    case _ => true
  }

  // The fault that refuses a field. A list is refused for its count before any of its elements is looked at.
  ghost function FaultOf(f: Field, limits: Limits): WireFault
    requires !Within(f, limits)
  {
    match f
    case Blob(_) => BytesTooLong
    case Held(_) => ResultTooLarge
    case Functions(v) => if |v| > Applying(limits.maxFunctions, 1_024) then TooManyFunctions else StringTooLong
    case Labels(v) => if |v| > Applying(limits.maxLabels, 64) then TooManyLabels else LabelTooLong
    case Routing(_) => LabelTooLong
    case _ => StringTooLong
  }

  // What a reader says of fields in this order: the first that is too large decides.
  ghost function Verdict(fields: seq<Field>, limits: Limits): Option<WireFault> {
    if fields == [] then None
    else if Within(fields[0], limits) then Verdict(fields[1..], limits)
    else Some(FaultOf(fields[0], limits))
  }

  // A limit concerns the field.
  ghost predicate Bounded(f: Field) {
    f.Text? || f.Blob? || f.Held? || f.Function? || f.Functions? || f.Labels? || f.Cause? || f.Failure? || f.Routing?
  }

  ghost function BoundedOf(fields: seq<Field>): seq<Field> {
    if fields == [] then [] else IfBounded(fields[0]) + BoundedOf(fields[1..])
  }

  ghost function IfBounded(f: Field): seq<Field> {
    if Bounded(f) then [f] else []
  }

  lemma {:induction false} BoundedJoin(a: seq<Field>, b: seq<Field>)
    ensures BoundedOf(a + b) == BoundedOf(a) + BoundedOf(b)
  {
    if a == [] {
      assert a + b == b;
    } else {
      BoundedJoin(a[1..], b);
      assert (a + b)[1..] == a[1..] + b;
    }
  }

  lemma BoundedOne(a: Field)
    ensures BoundedOf([a]) == IfBounded(a)
  {
    assert [a][1..] == [];
  }

  lemma BoundedTwo(a: Field, b: Field)
    ensures BoundedOf([a, b]) == IfBounded(a) + IfBounded(b)
  {
    assert [a, b] == [a] + [b];
    BoundedJoin([a], [b]);
    BoundedOne(a);
    BoundedOne(b);
  }

  lemma BoundedThree(a: Field, b: Field, c: Field)
    ensures BoundedOf([a, b, c]) == IfBounded(a) + IfBounded(b) + IfBounded(c)
  {
    assert [a, b, c] == [a, b] + [c];
    BoundedJoin([a, b], [c]);
    BoundedTwo(a, b);
    BoundedOne(c);
  }

  lemma BoundedFour(a: Field, b: Field, c: Field, d: Field)
    ensures BoundedOf([a, b, c, d]) == IfBounded(a) + IfBounded(b) + IfBounded(c) + IfBounded(d)
  {
    assert [a, b, c, d] == [a, b, c] + [d];
    BoundedJoin([a, b, c], [d]);
    BoundedThree(a, b, c);
    BoundedOne(d);
  }

  lemma BoundedSix(a: Field, b: Field, c: Field, d: Field, e: Field, f: Field)
    ensures BoundedOf([a, b, c, d, e, f]) ==
            IfBounded(a) + IfBounded(b) + IfBounded(c) + IfBounded(d) + IfBounded(e) + IfBounded(f)
  {
    assert [a, b, c, d, e, f] == [a, b, c, d] + [e, f];
    BoundedJoin([a, b, c, d], [e, f]);
    BoundedFour(a, b, c, d);
    BoundedTwo(e, f);
  }

  // Only the fields that a limit concerns matter to what a reader says.
  lemma {:induction false} VerdictOfBounded(fields: seq<Field>, limits: Limits)
    ensures Verdict(BoundedOf(fields), limits) == Verdict(fields, limits)
    ensures (forall f | f in fields :: Within(f, limits)) <==> forall f | f in BoundedOf(fields) :: Within(f, limits)
    ensures (forall f | f in fields :: Countable(f)) <==> forall f | f in BoundedOf(fields) :: Countable(f)
  {
    if fields != [] {
      hide FaultOf;
      var f, more := fields[0], fields[1..];
      VerdictOfBounded(more, limits);
      assert fields == [f] + more;
      assert !Bounded(f) ==> Within(f, limits) && Countable(f);
      hide Bounded, Within, Countable;
      if Bounded(f) {
        assert BoundedOf(fields) == [f] + BoundedOf(more);
        assert BoundedOf(fields)[1..] == BoundedOf(more);
      } else {
        assert BoundedOf(fields) == BoundedOf(more);
      }
    }
  }

  ghost predicate Counts(s: Bytes) {
    |s| < TWO_TO_32
  }

  ghost predicate SpecCounts(f: FunctionSpec) {
    Counts(f.name) && Counts(f.version) && Counts(f.inputSignature) && Counts(f.outputSignature)
  }

  // Every length in the field is one that 32 bits hold.
  ghost predicate Countable(f: Field) {
    match f
    case Text(v) => Counts(v)
    case Blob(v) => Counts(v)
    case Held(v) => Counts(v)
    case Function(v) => SpecCounts(v)
    case Functions(v) => |v| < TWO_TO_32 && forall f | f in v :: SpecCounts(f)
    case Labels(v) => |v| < TWO_TO_32 && forall t | t in v :: Counts(t.name)
    case Cause(v) => Counts(v.message)
    case Failure(v) => v.Some? ==> Counts(v.value.message)
    case Routing(v) => Counts(v.pinned.name)
    case _ => true
  }

  // A field fits the limits a reader applies exactly when it is within the limits as they are stated.
  lemma FitsIffWithin(f: Field, limits: Limits)
    ensures f.Fits(limits.Normalized()) <==> Within(f, limits)
  {
  }

  lemma SizedRefused(s: Bytes, max: uint32, fault: WireFault, rest: Bytes)
    requires max < |s| < TWO_TO_32
    ensures ParseSized(Sized(s) + rest, max, fault) == Err(fault)
  {
    Widths();
    NumberRoundTrip(|s|, 4, s + rest);
    assert Sized(s) + rest == BigEndian(|s|, 4) + (s + rest);
  }

  // A string that may be too long in front of others.
  lemma SizedJudged(s: Bytes, max: uint32, fault: WireFault, rest: Bytes)
    requires Counts(s)
    ensures ParseSized(Sized(s) + rest, max, fault) == if |s| <= max then Ok(Parsed(s, rest)) else Err(fault)
  {
    if |s| <= max {
      SizedRoundTrip(s, max, fault, rest);
    } else {
      SizedRefused(s, max, fault, rest);
    }
  }

  lemma SpecRefused(f: FunctionSpec, l: Limits, rest: Bytes)
    requires SpecCounts(f) && !SpecFits(f, l)
    ensures ParseSpec(Spec(f) + rest, l) == Err(StringTooLong)
  {
    hide Sized, ParseSized;
    var r3 := Sized(f.outputSignature) + rest;
    var r2 := Sized(f.inputSignature) + r3;
    var r1 := Sized(f.version) + r2;
    assert Spec(f) + rest == Sized(f.name) + r1;
    SizedJudged(f.name, l.maxStringLen, StringTooLong, r1);
    SizedJudged(f.version, l.maxStringLen, StringTooLong, r2);
    SizedJudged(f.inputSignature, l.maxStringLen, StringTooLong, r3);
    SizedJudged(f.outputSignature, l.maxStringLen, StringTooLong, rest);
  }

  lemma ErrorRefused(e: WireError, l: Limits, rest: Bytes)
    requires Counts(e.message) && |e.message| > l.maxStringLen
    ensures ParseError(Error(e) + rest, l) == Err(StringTooLong)
  {
    hide Sized, ParseSized, Bool, ParseBool;
    Widths();
    var r2 := Sized(e.message) + rest;
    var r1 := Bool(e.retryable) + r2;
    assert Error(e) + rest == BigEndian(e.code, 2) + r1;
    NumberRoundTrip(e.code, 2, r1);
    BoolRoundTrip(e.retryable, r2);
    SizedRefused(e.message, l.maxStringLen, StringTooLong, rest);
  }

  lemma OptionalErrorRefused(e: WireError, l: Limits, rest: Bytes)
    requires Counts(e.message) && |e.message| > l.maxStringLen
    ensures ParseOptionalError(OptionalError(Some(e)) + rest, l) == Err(StringTooLong)
  {
    hide Bool, ParseBool, Error, ParseError;
    BoolRoundTrip(true, Error(e) + rest);
    ErrorRefused(e, l, rest);
    assert OptionalError(Some(e)) + rest == Bool(true) + (Error(e) + rest);
  }

  lemma PinRefused(v: PinSpec, l: Limits, rest: Bytes)
    requires Counts(v.pinned.name) && |v.pinned.name| > l.maxLabelLen
    ensures ParsePin(Pin(v) + rest, l) == Err(LabelTooLong)
  {
    hide Sized, ParseSized;
    SizedRefused(v.pinned.name, l.maxLabelLen, LabelTooLong, [v.policy] + rest);
    assert Pin(v) + rest == Sized(v.pinned.name) + ([v.policy] + rest);
  }

  // Whatever fits is read back, and what does not fit is refused with one fault.
  ghost predicate Judges<T(!new)>(enc: T -> Bytes, one: Bytes -> Parse<T>, fits: T -> bool, counts: T -> bool,
                                  fault: WireFault)
  {
    && (forall v, rest | fits(v) :: one(enc(v) + rest) == Ok(Parsed(v, rest)))
    && (forall v, rest | counts(v) && !fits(v) :: one(enc(v) + rest) == Err(fault))
  }

  lemma {:induction false} ManyRefused<T(!new)>(read: seq<T>, values: seq<T>, rest: Bytes, enc: T -> Bytes,
                                                one: Bytes -> Parse<T>, fits: T -> bool, counts: T -> bool,
                                                fault: WireFault)
    requires Judges(enc, one, fits, counts, fault)
    requires (forall v | v in values :: counts(v)) && exists v | v in values :: !fits(v)
    ensures ParseMany(read, |values|, Concatenated(values, enc) + rest, one) == Err(fault)
    decreases |values|
  {
    var v, more := values[0], values[1..];
    assert values == [v] + more;
    ConcatenatedFirst(v, more, enc);
    assert Concatenated(values, enc) + rest == enc(v) + (Concatenated(more, enc) + rest);
    if fits(v) {
      ManyRefused(read + [v], more, rest, enc, one, fits, counts, fault);
    }
  }

  lemma ListedTooMany<T(!new)>(values: seq<T>, max: uint32, fault: WireFault, minSize: nat, rest: Bytes,
                               enc: T -> Bytes, one: Bytes -> Parse<T>)
    requires minSize > 0 && max < |values| < TWO_TO_32
    ensures ParseListed(Listed(values, enc) + rest, max, fault, minSize, one) == Err(fault)
  {
    Widths();
    var tail := Concatenated(values, enc) + rest;
    assert Listed(values, enc) + rest == BigEndian(|values|, 4) + tail;
    NumberRoundTrip(|values|, 4, tail);
  }

  lemma ListedRefused<T(!new)>(values: seq<T>, max: uint32, count: WireFault, minSize: nat, rest: Bytes,
                               enc: T -> Bytes, one: Bytes -> Parse<T>, fits: T -> bool, counts: T -> bool,
                               fault: WireFault)
    requires minSize > 0 && Judges(enc, one, fits, counts, fault) && |values| <= max
    requires forall v | v in values :: counts(v) && |enc(v)| >= minSize
    requires exists v | v in values :: !fits(v)
    ensures ParseListed(Listed(values, enc) + rest, max, count, minSize, one) == Err(fault)
  {
    Widths();
    var tail := Concatenated(values, enc) + rest;
    assert Listed(values, enc) + rest == BigEndian(|values|, 4) + tail;
    NumberRoundTrip(|values|, 4, tail);
    ConcatenatedSize(values, enc, minSize);
    QuotientAtLeast(|values|, minSize, |tail|);
    ManyRefused([], values, rest, enc, one, fits, counts, fault);
  }

  lemma FunctionsRefused(v: seq<FunctionSpec>, l: Limits, rest: Bytes)
    requires |v| <= l.maxFunctions && (forall f | f in v :: SpecCounts(f)) && exists f | f in v :: !SpecFits(f, l)
    ensures ParseListed(Listed(v, Spec) + rest, l.maxFunctions, TooManyFunctions, MIN_FUNCTION_SPEC_SIZE,
                        SpecParser(l)) ==
            Err(StringTooLong)
  {
    var counts := (f: FunctionSpec) => |f.name| < TWO_TO_32 && |f.version| < TWO_TO_32
                                       && |f.inputSignature| < TWO_TO_32 && |f.outputSignature| < TWO_TO_32;
    assert forall f | f in v :: counts(f) && |Spec(f)| >= MIN_FUNCTION_SPEC_SIZE;
    var long :| long in v && !SpecFits(long, l);
    assert !SpecFitter(l)(long);
    hide Spec, ParseSpec, ParseListed, Listed;
    forall f, rest | SpecFitter(l)(f) ensures SpecParser(l)(Spec(f) + rest) == Ok(Parsed(f, rest)) {
      SpecRoundTrip(f, l, rest);
    }
    forall f, rest | counts(f) && !SpecFitter(l)(f) ensures SpecParser(l)(Spec(f) + rest) == Err(StringTooLong) {
      SpecRefused(f, l, rest);
    }
    ListedRefused(v, l.maxFunctions, TooManyFunctions, MIN_FUNCTION_SPEC_SIZE, rest, Spec, SpecParser(l),
                  SpecFitter(l), counts, StringTooLong);
  }

  lemma LabelsRefused(v: seq<Label>, l: Limits, rest: Bytes)
    requires |v| <= l.maxLabels && forall t | t in v :: Counts(t.name)
    requires exists t | t in v :: |t.name| > l.maxLabelLen
    ensures ParseListed(Listed(v, Tag) + rest, l.maxLabels, TooManyLabels, MIN_LABEL_SIZE, LabelParser(l)) ==
            Err(LabelTooLong)
  {
    var counts := (t: Label) => |t.name| < TWO_TO_32;
    assert forall t | t in v :: counts(t) && |Tag(t)| >= MIN_LABEL_SIZE;
    var long :| long in v && |long.name| > l.maxLabelLen;
    assert !LabelFitter(l)(long);
    hide Sized, ParseSized, ParseListed, Listed;
    forall t, rest | LabelFitter(l)(t) ensures LabelParser(l)(Tag(t) + rest) == Ok(Parsed(t, rest)) {
      SizedRoundTrip(t.name, l.maxLabelLen, LabelTooLong, rest);
    }
    forall t, rest | counts(t) && !LabelFitter(l)(t) ensures LabelParser(l)(Tag(t) + rest) == Err(LabelTooLong) {
      SizedRefused(t.name, l.maxLabelLen, LabelTooLong, rest);
    }
    ListedRefused(v, l.maxLabels, TooManyLabels, MIN_LABEL_SIZE, rest, Tag, LabelParser(l), LabelFitter(l), counts,
                  LabelTooLong);
  }

  // A count of more elements than the bytes that follow can hold is refused, at 16 bytes a function and 4 a label.
  lemma CountIsGuarded(buf: Bytes, limits: Limits)
    requires |buf| >= 4
    ensures var p := ParseField(SpecsKind, buf, limits.Normalized());
            if Number(buf[..4]) > Applying(limits.maxFunctions, 1_024) then p == Err(TooManyFunctions)
            else Number(buf[..4]) > (|buf| - 4) / 16 ==> p == Err(ShortBuffer)
    ensures var p := ParseField(LabelsKind, buf, limits.Normalized());
            if Number(buf[..4]) > Applying(limits.maxLabels, 64) then p == Err(TooManyLabels)
            else Number(buf[..4]) > (|buf| - 4) / 4 ==> p == Err(ShortBuffer)
  {
    hide Number, BigEndian;
  }

  // A field that is too large is refused with its fault, whatever follows it.
  lemma FieldRefused(f: Field, limits: Limits, rest: Bytes)
    requires Countable(f) && !Within(f, limits)
    ensures ParseField(f.KindOf(), f.Encode() + rest, limits.Normalized()) == Err(FaultOf(f, limits))
  {
    hide BigEndian, ParseNumber, Sized, ParseSized, Bool, ParseBool, ParseSpec, Spec, ParseError, Error,
         ParseListed, Listed;
    hide ParsePin, Pin, ParseOptionalError, OptionalError;
    var l := limits.Normalized();
    match f
    case Text(v) => SizedRefused(v, l.maxStringLen, StringTooLong, rest);
    case Blob(v) => SizedRefused(v, l.maxBytesLen, BytesTooLong, rest);
    case Held(v) => SizedRefused(v, l.maxResultBytes, ResultTooLarge, rest);
    case Function(v) => SpecRefused(v, l, rest);
    case Functions(v) => TooLargeFunctions(v, limits, rest);
    case Labels(v) => TooLargeLabels(v, limits, rest);
    case Cause(v) => ErrorRefused(v, l, rest);
    case Failure(v) => OptionalErrorRefused(v.value, l, rest);
    case Routing(v) => PinRefused(v, l, rest);
    case _ =>
  }

  lemma TooLargeFunctions(v: seq<FunctionSpec>, limits: Limits, rest: Bytes)
    requires Countable(Functions(v)) && !Within(Functions(v), limits)
    ensures var l := limits.Normalized();
            ParseListed(Listed(v, Spec) + rest, l.maxFunctions, TooManyFunctions, MIN_FUNCTION_SPEC_SIZE,
                        SpecParser(l)) ==
            Err(FaultOf(Functions(v), limits))
  {
    var l := limits.Normalized();
    hide ParseListed, Listed;
    if |v| > l.maxFunctions {
      ListedTooMany(v, l.maxFunctions, TooManyFunctions, MIN_FUNCTION_SPEC_SIZE, rest, Spec, SpecParser(l));
    } else {
      FunctionsRefused(v, l, rest);
    }
  }

  lemma TooLargeLabels(v: seq<Label>, limits: Limits, rest: Bytes)
    requires Countable(Labels(v)) && !Within(Labels(v), limits)
    ensures var l := limits.Normalized();
            ParseListed(Listed(v, Tag) + rest, l.maxLabels, TooManyLabels, MIN_LABEL_SIZE, LabelParser(l)) ==
            Err(FaultOf(Labels(v), limits))
  {
    var l := limits.Normalized();
    hide ParseListed, Listed;
    if |v| > l.maxLabels {
      ListedTooMany(v, l.maxLabels, TooManyLabels, MIN_LABEL_SIZE, rest, Tag, LabelParser(l));
    } else {
      LabelsRefused(v, l, rest);
    }
  }

  // Fields that are all within the limits are read back if nothing follows them; otherwise the first that is not says
  // why they are refused.
  lemma {:induction false} FieldsJudged(read: seq<Field>, fields: seq<Field>, rest: Bytes, limits: Limits)
    requires forall f | f in fields :: Countable(f)
    ensures ParseFields(read, Kinds(fields), EncodeFields(fields) + rest, limits.Normalized()) ==
            match Verdict(fields, limits)
            case None => if rest == [] then Ok(read + fields) else Err(TrailingBytes)
            case Some(fault) => Err(fault)
    decreases |fields|
  {
    hide ParseField, Field.Encode, Field.Fits, Field.KindOf, Within, Countable;
    if fields == [] {
      assert read + fields == read && EncodeFields(fields) + rest == rest;
    } else {
      var f, more := fields[0], fields[1..];
      assert fields == [f] + more;
      ConcatenatedFirst(f, more, EncodeField);
      assert EncodeFields(fields) + rest == f.Encode() + (EncodeFields(more) + rest);
      if Within(f, limits) {
        FitsIffWithin(f, limits);
        FieldRoundTrip(f, limits.Normalized(), EncodeFields(more) + rest);
        assert Kinds(fields)[1..] == Kinds(more);
        FieldsJudged(read + [f], more, rest, limits);
        assert read + fields == read + [f] + more;
      } else {
        FieldRefused(f, limits, EncodeFields(more) + rest);
      }
    }
  }
}
