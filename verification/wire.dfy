/**
 * The wire format as a pure grammar: how each kind of field is written, how it is parsed under limits, and the proof
 * that the two are inverse in both directions.
 */
module WireFormat {
  import opened Wrappers
  import opened ProtocolTypes

  datatype WireFault =
    | ShortBuffer | ShortUUID | InvalidBool | StringTooLong | BytesTooLong | ResultTooLarge | LabelTooLong
    | TooManyFunctions | TooManyLabels | TrailingBytes | UnknownMessageType
    | BadMagic | UnsupportedVersion | ReservedFlags | FrameTooLarge | UnexpectedEnd

  const DEFAULT_MAX_FRAME_SIZE: uint32 := 0x10_0000
  const DEFAULT_MAX_STRING_LEN: uint32 := 0x1000
  const DEFAULT_MAX_BYTES_LEN: uint32 := 0x8_0000
  const DEFAULT_MAX_FUNCTIONS: uint32 := 0x400
  const DEFAULT_MAX_LABEL_LEN: uint32 := 0x80
  const DEFAULT_MAX_RESULT_BYTES: uint32 := 0x1_0000
  const MIN_FUNCTION_SPEC_SIZE := 16
  const MIN_LABEL_SIZE := 4

  datatype Limits = Limits(
    maxFrameSize: uint32, maxStringLen: uint32, maxBytesLen: uint32, maxFunctions: uint32, maxLabelLen: uint32,
    maxLabels: uint32, maxResultBytes: uint32)
  {
    function Normalized(): Limits {
      Limits(if maxFrameSize == 0 then DEFAULT_MAX_FRAME_SIZE else maxFrameSize,
             if maxStringLen == 0 then DEFAULT_MAX_STRING_LEN else maxStringLen,
             if maxBytesLen == 0 then DEFAULT_MAX_BYTES_LEN else maxBytesLen,
             if maxFunctions == 0 then DEFAULT_MAX_FUNCTIONS else maxFunctions,
             if maxLabelLen == 0 then DEFAULT_MAX_LABEL_LEN else maxLabelLen,
             if maxLabels == 0 then DEFAULT_MAX_LABELS else maxLabels,
             if maxResultBytes == 0 then DEFAULT_MAX_RESULT_BYTES else maxResultBytes)
    }
  }

  // A value read off the front of some bytes, and what follows it.
  datatype Parsed<+T> = Parsed(value: T, rest: Bytes)

  type Parse<+T> = Result<Parsed<T>, WireFault>

  // The low `n` bytes of a number, most significant first.
  function BigEndian(v: nat, n: nat): (b: Bytes)
    ensures |b| == n
  {
    if n == 0 then [] else BigEndian(v / 0x100, n - 1) + [v % 0x100]
  }

  function Number(b: Bytes): nat {
    if b == [] then 0 else Number(b[..|b| - 1]) * 0x100 + b[|b| - 1]
  }

  function Power256(n: nat): nat {
    if n == 0 then 1 else 0x100 * Power256(n - 1)
  }

  lemma {:induction false} NumberOfBigEndian(v: nat, n: nat)
    ensures v < Power256(n) ==> Number(BigEndian(v, n)) == v
  {
    if n > 0 {
      NumberOfBigEndian(v / 0x100, n - 1);
    }
  }

  lemma {:induction false} BigEndianOfNumber(b: Bytes)
    ensures Number(b) < Power256(|b|) && BigEndian(Number(b), |b|) == b
  {
    if b != [] {
      BigEndianOfNumber(b[..|b| - 1]);
      assert b == b[..|b| - 1] + [b[|b| - 1]];
    }
  }

  function Take(buf: Bytes, n: nat): Parse<Bytes> {
    if |buf| < n then Err(ShortBuffer) else Ok(Parsed(buf[..n], buf[n..]))
  }

  function ParseNumber(buf: Bytes, n: nat): (p: Parse<nat>)
    ensures p.Ok? ==> p.value.value < Power256(n)
  {
    var taken :- Take(buf, n);
    BigEndianOfNumber(taken.value);
    Ok(Parsed(Number(taken.value), taken.rest))
  }

  lemma NumberRoundTrip(v: nat, n: nat, rest: Bytes)
    requires v < Power256(n)
    ensures ParseNumber(BigEndian(v, n) + rest, n) == Ok(Parsed(v, rest))
  {
    NumberOfBigEndian(v, n);
    assert (BigEndian(v, n) + rest)[..n] == BigEndian(v, n);
  }

  lemma NumberCanonical(buf: Bytes, n: nat)
    requires ParseNumber(buf, n).Ok?
    ensures buf == BigEndian(ParseNumber(buf, n).value.value, n) + ParseNumber(buf, n).value.rest
  {
    BigEndianOfNumber(buf[..n]);
  }

  lemma Widths()
    ensures Power256(1) == 0x100 && Power256(2) == 0x1_0000
    ensures Power256(4) == TWO_TO_32 && Power256(8) == TWO_TO_64
  {
    assert Power256(3) == 0x100_0000;
    assert Power256(5) == 0x100_0000_0000;
    assert Power256(6) == 0x1_0000_0000_0000;
    assert Power256(7) == 0x100_0000_0000_0000;
  }

  // A length, kept to 32 bits, and that many bytes.
  function Sized(s: Bytes): Bytes {
    BigEndian(|s| % TWO_TO_32, 4) + s
  }

  function ParseSized(buf: Bytes, max: uint32, fault: WireFault): Parse<Bytes> {
    var length :- ParseNumber(buf, 4);
    if length.value > max then Err(fault) else Take(length.rest, length.value)
  }

  lemma SizedRoundTrip(s: Bytes, max: uint32, fault: WireFault, rest: Bytes)
    requires |s| <= max
    ensures ParseSized(Sized(s) + rest, max, fault) == Ok(Parsed(s, rest))
  {
    Widths();
    NumberRoundTrip(|s|, 4, s + rest);
    assert Sized(s) + rest == BigEndian(|s|, 4) + (s + rest);
    assert (s + rest)[..|s|] == s && (s + rest)[|s|..] == rest;
  }

  lemma SizedCanonical(buf: Bytes, max: uint32, fault: WireFault)
    requires ParseSized(buf, max, fault).Ok?
    ensures var p := ParseSized(buf, max, fault).value;
            buf == Sized(p.value) + p.rest && |p.value| <= max
  {
    hide BigEndian, ParseNumber;
    NumberCanonical(buf, 4);
    var p, length := ParseSized(buf, max, fault).value, ParseNumber(buf, 4).value;
    assert length.rest == p.value + p.rest && |p.value| == length.value;
    Regroup(BigEndian(length.value, 4), p.value, p.rest);
  }

  lemma Regroup(a: Bytes, b: Bytes, c: Bytes)
    ensures a + (b + c) == a + b + c
  {
  }

  function Bool(b: bool): Bytes {
    [if b then 1 else 0]
  }

  function ParseBool(buf: Bytes): Parse<bool> {
    var v :- ParseNumber(buf, 1);
    if v.value == 0 then Ok(Parsed(false, v.rest))
    else if v.value == 1 then Ok(Parsed(true, v.rest))
    else Err(InvalidBool)
  }

  lemma BoolRoundTrip(b: bool, rest: Bytes)
    ensures ParseBool(Bool(b) + rest) == Ok(Parsed(b, rest))
  {
    Widths();
    var v := if b then 1 else 0;
    assert BigEndian(v, 1) == BigEndian(0, 0) + [v] == Bool(b);
    NumberRoundTrip(v, 1, rest);
  }

  lemma BoolCanonical(buf: Bytes)
    requires ParseBool(buf).Ok?
    ensures buf == Bool(ParseBool(buf).value.value) + ParseBool(buf).value.rest
  {
    NumberCanonical(buf, 1);
    var v := ParseNumber(buf, 1).value.value;
    assert BigEndian(v, 1) == BigEndian(v / 0x100, 0) + [v % 0x100];
  }

  // Two's complement.
  function Signed(v: int64): uint64 {
    if v < 0 then v + TWO_TO_64 else v
  }

  function Unsigned(v: uint64): int64 {
    if v > MAX_INT64 then v - TWO_TO_64 else v
  }

  function ParseUUID(buf: Bytes): Parse<JobUUID> {
    if |buf| < UUID_SIZE then Err(ShortUUID) else Ok(Parsed(JobUUID(buf[..UUID_SIZE]), buf[UUID_SIZE..]))
  }

  // A list of values after its count.
  function Concatenated<T>(values: seq<T>, enc: T -> Bytes): Bytes {
    if values == [] then [] else Concatenated(values[..|values| - 1], enc) + enc(values[|values| - 1])
  }

  // `n` more values after the ones already read.
  function ParseMany<T>(read: seq<T>, n: nat, buf: Bytes, one: Bytes -> Parse<T>): Parse<seq<T>>
    decreases n
  {
    if n == 0 then Ok(Parsed(read, buf))
    else
      var v :- one(buf);
      ParseMany(read + [v.value], n - 1, v.rest, one)
  }

  ghost predicate RoundTrips<T(!new)>(enc: T -> Bytes, one: Bytes -> Parse<T>, fits: T -> bool) {
    && (forall v, rest | fits(v) :: one(enc(v) + rest) == Ok(Parsed(v, rest)))
    && (forall buf | one(buf).Ok? ::
        fits(one(buf).value.value) && buf == enc(one(buf).value.value) + one(buf).value.rest)
  }

  lemma {:induction false} ConcatenatedAppend<T>(a: seq<T>, b: seq<T>, enc: T -> Bytes)
    ensures Concatenated(a + b, enc) == Concatenated(a, enc) + Concatenated(b, enc)
  {
    if b == [] {
      assert a + b == a;
    } else {
      assert (a + b)[..|a + b| - 1] == a + b[..|b| - 1];
      ConcatenatedAppend(a, b[..|b| - 1], enc);
    }
  }

  lemma ConcatenatedFirst<T>(v: T, values: seq<T>, enc: T -> Bytes)
    ensures Concatenated([v] + values, enc) == enc(v) + Concatenated(values, enc)
  {
    ConcatenatedAppend([v], values, enc);
    assert Concatenated([v], enc) == Concatenated([], enc) + enc(v) by { assert [v][..0] == []; }
  }

  lemma {:induction false} ManyRoundTrip<T(!new)>(read: seq<T>, values: seq<T>, rest: Bytes, enc: T -> Bytes,
                                                  one: Bytes -> Parse<T>, fits: T -> bool)
    requires RoundTrips(enc, one, fits) && forall v | v in values :: fits(v)
    ensures ParseMany(read, |values|, Concatenated(values, enc) + rest, one) == Ok(Parsed(read + values, rest))
    decreases |values|
  {
    if values == [] {
      assert read + values == read && Concatenated(values, enc) + rest == rest;
    } else {
      var v, more := values[0], values[1..];
      assert values == [v] + more;
      ConcatenatedFirst(v, more, enc);
      assert Concatenated(values, enc) + rest == enc(v) + (Concatenated(more, enc) + rest);
      ManyRoundTrip(read + [v], more, rest, enc, one, fits);
      assert read + values == read + [v] + more;
    }
  }

  lemma {:induction false} ManyCanonical<T(!new)>(read: seq<T>, n: nat, buf: Bytes, enc: T -> Bytes,
                                                  one: Bytes -> Parse<T>, fits: T -> bool)
    requires RoundTrips(enc, one, fits) && ParseMany(read, n, buf, one).Ok?
    ensures var p := ParseMany(read, n, buf, one).value;
            && |p.value| == |read| + n && p.value[..|read|] == read
            && (forall v | v in p.value[|read|..] :: fits(v))
            && buf == Concatenated(p.value[|read|..], enc) + p.rest
    decreases n
  {
    if n > 0 {
      var v := one(buf).value;
      ManyCanonical(read + [v.value], n - 1, v.rest, enc, one, fits);
      var p := ParseMany(read, n, buf, one).value;
      var more := p.value[|read| + 1..];
      assert p.value[..|read| + 1] == read + [v.value];
      assert p.value[..|read|] == p.value[..|read| + 1][..|read|] == read;
      assert p.value[|read|..] == [v.value] + more;
      ConcatenatedFirst(v.value, more, enc);
    } else {
      assert read[|read|..] == [];
    }
  }

  lemma {:induction false} ConcatenatedSize<T>(values: seq<T>, enc: T -> Bytes, size: nat)
    requires forall v | v in values :: |enc(v)| >= size
    ensures |Concatenated(values, enc)| >= |values| * size
  {
    if values != [] {
      ConcatenatedSize(values[..|values| - 1], enc, size);
      assert values[|values| - 1] in values;
      assert |values| * size == (|values| - 1) * size + size;
    }
  }
}
