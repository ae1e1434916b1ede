/**
 * The Markdown dialect as tokens: styled text is a sequence of runes, and its source form a sequence of delimiters,
 * escaped runes and plain runes.
 */
module MarkdownText {
  import opened Wrappers
  import opened ProtocolTypes

  predicate Continuation(b: uint8) {
    0x80 <= b < 0xC0
  }

  // One code point in UTF-8: table 3-7 of the Unicode standard, version 15.0.
  predicate ValidRune(b: Bytes) {
    || (|b| == 1 && b[0] < 0x80)
    || (|b| == 2 && 0xC2 <= b[0] < 0xE0 && Continuation(b[1]))
    || (|b| == 3 && 0xE0 <= b[0] < 0xF0 && Continuation(b[1]) && Continuation(b[2])
        && (b[0] == 0xE0 ==> b[1] >= 0xA0) && (b[0] == 0xED ==> b[1] < 0xA0))
    || (|b| == 4 && 0xF0 <= b[0] < 0xF5 && Continuation(b[1]) && Continuation(b[2]) && Continuation(b[3])
        && (b[0] == 0xF0 ==> b[1] >= 0x90) && (b[0] == 0xF4 ==> b[1] < 0x90))
  }

  type Rune = b: Bytes | ValidRune(b) witness [0x41]

  // How many bytes the rune at the front of some text takes.
  function RuneSize(text: Bytes): (n: nat)
    requires text != []
    ensures 1 <= n <= 4
  {
    if text[0] < 0x80 then 1 else if text[0] < 0xE0 then 2 else if text[0] < 0xF0 then 3 else 4
  }

  // The UTF-16 code units of a rune that takes so many bytes.
  function UnitsOfSize(size: nat): (units: nat)
    ensures units > 0
  {
    if size == 4 then 2 else 1
  }

  function Flat(runes: seq<Rune>): Bytes {
    if runes == [] then [] else runes[0] + Flat(runes[1..])
  }

  // The UTF-16 length of some text.
  function Units(runes: seq<Rune>): nat {
    if runes == [] then 0 else Units(runes[..|runes| - 1]) + UnitsOfSize(|runes[|runes| - 1]|)
  }

  lemma {:induction false} FlatAppend(a: seq<Rune>, b: seq<Rune>)
    ensures Flat(a + b) == Flat(a) + Flat(b)
  {
    if a == [] {
      assert a + b == b;
    } else {
      assert (a + b)[1..] == a[1..] + b;
      FlatAppend(a[1..], b);
    }
  }

  lemma FlatOne(r: Rune)
    ensures Flat([r]) == r
  {
    assert [r][1..] == [];
  }

  lemma FlatFirst(r: Rune, more: seq<Rune>)
    ensures Flat([r] + more) == r + Flat(more)
    ensures Flat([r] + more) != [] && RuneSize(Flat([r] + more)) == |r|
    ensures Flat([r] + more)[..|r|] == r && Flat([r] + more)[|r|..] == Flat(more)
  {
    assert ([r] + more)[1..] == more;
  }

  lemma RuneBetween(before: Bytes, r: Rune, after: Bytes, text: Bytes)
    requires text == before + (r + after)
    ensures text == before + r + after && text[|before|..] == r + after && |before| < |text|
  {
  }

  lemma UnitsNext(runes: seq<Rune>, r: Rune)
    ensures Units(runes + [r]) == Units(runes) + UnitsOfSize(|r|)
  {
    assert (runes + [r])[..|runes|] == runes;
  }

  // Later positions are strictly further along.
  lemma {:induction false} UnitsMonotone(runes: seq<Rune>, i: nat, j: nat)
    requires i <= j <= |runes|
    ensures Units(runes[..i]) <= Units(runes[..j])
    ensures i < j ==> Units(runes[..i]) < Units(runes[..j])
  {
    if i < j {
      assert runes[..j][..j - 1] == runes[..j - 1];
      UnitsMonotone(runes, i, j - 1);
    }
  }

  datatype Style = Bold | Italic | Underline | Strike | Spoiler | Quote | Code

  const BACKTICK: uint8 := 0x60
  const ESCAPE: uint8 := 0x5C
  const PRE_DELIMITER: Bytes := [BACKTICK, BACKTICK, BACKTICK]
  const LINK_START: Bytes := [0x5B]
  const LINK_MIDDLE: Bytes := [0x5D, 0x28]
  const LINK_END: Bytes := [0x29]
  const LARGEST_DELIMITER := 3

  function Mark(style: Style): Bytes {
    match style
    case Bold => [0x2A, 0x2A]
    case Italic => [0x5F, 0x5F]
    case Underline => [0x2B, 0x2B]
    case Strike => [0x7E, 0x7E]
    case Spoiler => [0x7C, 0x7C]
    case Quote => [0x26, 0x26]
    case Code => [BACKTICK]
  }

  const STYLES: set<Style> := {Bold, Italic, Underline, Strike, Spoiler, Quote, Code}

  lemma AllStyles(s: Style)
    ensures s in STYLES
  {
  }

  function StyleOf(mark: Bytes): Option<Style> {
    if mark == [0x2A, 0x2A] then Some(Bold)
    else if mark == [0x5F, 0x5F] then Some(Italic)
    else if mark == [0x2B, 0x2B] then Some(Underline)
    else if mark == [0x7E, 0x7E] then Some(Strike)
    else if mark == [0x7C, 0x7C] then Some(Spoiler)
    else if mark == [0x26, 0x26] then Some(Quote)
    else if mark == [BACKTICK] then Some(Code)
    else None
  }

  // Every character of a delimiter, and the escape itself.
  predicate Special(b: uint8) {
    b in {0x2A, 0x5F, 0x2B, 0x7E, 0x7C, 0x26, BACKTICK, 0x5B, 0x5D, 0x28, 0x29, ESCAPE}
  }

  predicate SpecialRune(r: Bytes) {
    |r| == 1 && Special(r[0])
  }

  predicate IsDelimiter(d: Bytes) {
    StyleOf(d).Some? || d == PRE_DELIMITER || d == LINK_START || d == LINK_MIDDLE || d == LINK_END
  }

  function Prefix(text: Bytes, n: nat): Bytes {
    if |text| < n then text else text[..n]
  }

  // The longest delimiter at the front of some text, if there is one.
  function DelimiterAt(text: Bytes, size: nat): Option<Bytes> {
    if size == 0 then None
    else if IsDelimiter(Prefix(text, size)) then Some(Prefix(text, size))
    else DelimiterAt(text, size - 1)
  }

  datatype Token = Delim(style: Style) | Escaped(rune: Rune) | Plain(rune: Rune)

  function TokenBytes(t: Token): (b: Bytes)
    ensures b != []
  {
    match t
    case Delim(style) => Mark(style)
    case Escaped(r) => [ESCAPE] + r
    case Plain(r) => r
  }

  function Render(tokens: seq<Token>): Bytes {
    if tokens == [] then [] else TokenBytes(tokens[0]) + Render(tokens[1..])
  }

  lemma {:induction false} RenderAppend(a: seq<Token>, b: seq<Token>)
    ensures Render(a + b) == Render(a) + Render(b)
  {
    if a == [] {
      assert a + b == b;
    } else {
      assert (a + b)[1..] == a[1..] + b;
      RenderAppend(a[1..], b);
    }
  }

  lemma RenderNext(tokens: seq<Token>, t: Token)
    ensures Render(tokens + [t]) == Render(tokens) + TokenBytes(t)
  {
    RenderAppend(tokens, [t]);
    assert [t][1..] == [];
  }

  // Code marks since the last rune.
  function CodesInGap(tokens: seq<Token>): nat {
    if tokens == [] then 0
    else
      var last := tokens[|tokens| - 1];
      if !last.Delim? then 0
      else CodesInGap(tokens[..|tokens| - 1]) + if last.style == Code then 1 else 0
  }

  // Plain runes are not special, and no three code marks meet, which would read as another delimiter.
  predicate Lexable(tokens: seq<Token>) {
    tokens != [] ==>
      && Lexable(tokens[..|tokens| - 1])
      && CodesInGap(tokens) <= 2
      && (tokens[|tokens| - 1].Plain? ==> !SpecialRune(tokens[|tokens| - 1].rune))
  }

  lemma {:induction false} LexablePrefix(tokens: seq<Token>, n: nat)
    requires Lexable(tokens) && n <= |tokens|
    ensures Lexable(tokens[..n])
  {
    if n == |tokens| {
      assert tokens[..n] == tokens;
    } else {
      assert tokens[..|tokens| - 1][..n] == tokens[..n];
      LexablePrefix(tokens[..|tokens| - 1], n);
    }
  }

  lemma CodesNext(tokens: seq<Token>, n: nat)
    requires n < |tokens| && tokens[n] == Delim(Code)
    ensures CodesInGap(tokens[..n + 1]) == CodesInGap(tokens[..n]) + 1
  {
    assert tokens[..n + 1][..n] == tokens[..n];
  }

  lemma CodesAdd(tokens: seq<Token>, i: nat)
    requires i + 2 < |tokens|
    ensures tokens[i] == tokens[i + 1] == tokens[i + 2] == Delim(Code) ==> CodesInGap(tokens[..i + 3]) >= 3
  {
    if tokens[i] == tokens[i + 1] == tokens[i + 2] == Delim(Code) {
      CodesNext(tokens, i);
      CodesNext(tokens, i + 1);
      CodesNext(tokens, i + 2);
    }
  }

  lemma LexableAt(tokens: seq<Token>, i: nat)
    requires Lexable(tokens) && i < |tokens|
    ensures tokens[i].Plain? ==> !SpecialRune(tokens[i].rune)
    ensures i + 2 < |tokens| ==> !(tokens[i] == tokens[i + 1] == tokens[i + 2] == Delim(Code))
  {
    LexablePrefix(tokens, i + 1);
    assert tokens[..i + 1][i] == tokens[i];
    if i + 2 < |tokens| {
      LexablePrefix(tokens, i + 3);
      CodesAdd(tokens, i);
    }
  }

  // Only a code mark starts with a backtick.
  lemma BacktickIsCode(t: Token)
    requires TokenBytes(t)[0] == BACKTICK && (t.Plain? ==> !SpecialRune(t.rune))
    ensures t == Delim(Code)
  {
  }

  // At the front of a delimiter token the longest match is that delimiter.
  lemma DelimiterIsFound(tokens: seq<Token>, j: nat)
    requires Lexable(tokens) && j < |tokens| && tokens[j].Delim?
    ensures DelimiterAt(Render(tokens[j..]), LARGEST_DELIMITER) == Some(Mark(tokens[j].style))
  {
    var rest := Render(tokens[j..]);
    var more := Render(tokens[j + 1..]);
    assert tokens[j..][1..] == tokens[j + 1..];
    assert rest == Mark(tokens[j].style) + more;
    if tokens[j].style == Code {
      LexableAt(tokens, j);
      if |rest| >= 3 && rest[1] == BACKTICK && rest[2] == BACKTICK {
        assert more[0] == BACKTICK && more[1] == BACKTICK;
        FirstByte(tokens, j + 1);
        LexableAt(tokens, j + 1);
        BacktickIsCode(tokens[j + 1]);
        assert tokens[j + 1..][1..] == tokens[j + 2..];
        assert more == [BACKTICK] + Render(tokens[j + 2..]);
        FirstByte(tokens, j + 2);
        LexableAt(tokens, j + 2);
        BacktickIsCode(tokens[j + 2]);
      }
    }
    FoundMark(tokens[j].style, more);
  }

  lemma FirstByte(tokens: seq<Token>, j: nat)
    requires j <= |tokens| && Render(tokens[j..]) != []
    ensures j < |tokens| && Render(tokens[j..])[0] == TokenBytes(tokens[j])[0]
  {
    if j < |tokens| {
      assert tokens[j..][1..] == tokens[j + 1..];
    }
  }

  lemma FoundMark(style: Style, more: Bytes)
    requires style == Code && |more| >= 2 ==> !(more[0] == more[1] == BACKTICK)
    ensures DelimiterAt(Mark(style) + more, LARGEST_DELIMITER) == Some(Mark(style))
  {
    MarkIsDelimiter(style);
    if style == Code {
      FindsBacktick(more);
    } else {
      FindsPair(Mark(style), more);
    }
  }

  lemma FindsPair(d: Bytes, more: Bytes)
    requires |d| == 2 && IsDelimiter(d) && d[0] != BACKTICK
    ensures DelimiterAt(d + more, LARGEST_DELIMITER) == Some(d)
  {
    hide IsDelimiter;
    assert Prefix(d + more, 2) == d;
    assert DelimiterAt(d + more, 2) == Some(d);
    if more == [] {
      assert Prefix(d + more, 3) == d;
    } else {
      ThreeBytes(d[0], d[1], more[0]);
      assert Prefix(d + more, 3) == [d[0], d[1], more[0]];
    }
  }

  lemma FindsBacktick(more: Bytes)
    requires |more| >= 2 ==> !(more[0] == more[1] == BACKTICK)
    ensures DelimiterAt([BACKTICK] + more, LARGEST_DELIMITER) == Some([BACKTICK])
  {
    var text, d := [BACKTICK] + more, [BACKTICK];
    assert IsDelimiter(d);
    hide IsDelimiter;
    assert Prefix(text, 1) == d;
    assert DelimiterAt(text, 1) == Some(d);
    if more == [] {
      assert Prefix(text, 3) == Prefix(text, 2) == d;
    } else {
      BacktickAnd(more[0]);
      assert Prefix(text, 2) == [BACKTICK, more[0]];
      assert DelimiterAt(text, 2) == Some(d);
      if |more| == 1 {
        assert Prefix(text, 3) == [BACKTICK, more[0]];
      } else {
        ThreeBytes(BACKTICK, more[0], more[1]);
        assert Prefix(text, 3) == [BACKTICK, more[0], more[1]];
      }
    }
  }

  lemma ThreeBytes(a: uint8, b: uint8, c: uint8)
    ensures IsDelimiter([a, b, c]) <==> a == b == c == BACKTICK
  {
    var d := [a, b, c];
    assert |d| == 3 && d[0] == a && d[1] == b && d[2] == c;
  }

  lemma BacktickAnd(b: uint8)
    ensures !IsDelimiter([BACKTICK, b])
  {
    var d := [BACKTICK, b];
    assert |d| == 2 && d[0] == BACKTICK;
  }

  lemma MarkIsDelimiter(style: Style)
    ensures IsDelimiter(Mark(style)) && StyleOf(Mark(style)) == Some(style)
    ensures |Mark(style)| == if style == Code then 1 else 2
    ensures style != Code ==> Mark(style)[0] == Mark(style)[1] != BACKTICK
    ensures style == Code ==> Mark(style)[0] == BACKTICK
  {
  }

  // In front of a plain rune there is no delimiter.
  lemma NoDelimiterAt(text: Bytes, size: nat)
    requires text != [] && !Special(text[0]) && size <= LARGEST_DELIMITER
    ensures DelimiterAt(text, size) == None
  {
    if size > 0 {
      assert Prefix(text, size)[0] == text[0];
      NoDelimiterAt(text, size - 1);
    }
  }

  // A stretch of runes in one style.
  datatype Span = Span(style: Style, from: nat, to: nat)

  // What reading some tokens comes to: the runes, where the open styles began, and the finished spans.
  datatype Reading = Reading(runes: seq<Rune>, open: map<Style, nat>, spans: seq<Span>)

  function Read(r: Reading, t: Token): Reading {
    match t
    case Delim(style) =>
      if style in r.open then
        r.(open := r.open - {style}, spans := r.spans + [Span(style, r.open[style], |r.runes|)])
      else r.(open := r.open[style := |r.runes|])
    case Escaped(rune) => r.(runes := r.runes + [rune])
    case Plain(rune) => r.(runes := r.runes + [rune])
  }

  function Replay(tokens: seq<Token>): Reading {
    if tokens == [] then Reading([], map[], [])
    else Read(Replay(tokens[..|tokens| - 1]), tokens[|tokens| - 1])
  }

  lemma ReplayNext(tokens: seq<Token>, t: Token)
    ensures Replay(tokens + [t]) == Read(Replay(tokens), t)
  {
    assert (tokens + [t])[..|tokens|] == tokens;
  }

  // A length or a position, in bytes and in UTF-16 code units.
  datatype MultiSize = MultiSize(utf8: nat, utf16: nat) {
    function Add(other: MultiSize): MultiSize {
      MultiSize(utf8 + other.utf8, utf16 + other.utf16)
    }
  }

  // For each style, the position at which it began or, when writing, ends.
  type DelimiterStack = map<Style, Option<MultiSize>>

  ghost predicate Cleared(stack: DelimiterStack) {
    forall s: Style :: s in stack && stack[s] == None
  }

  // An entity as Telegram states it, in UTF-16 code units.
  datatype Entity = Entity(style: Style, offset: nat, length: nat)

  function EntityOf(runes: seq<Rune>, s: Span): Entity
    requires s.from <= s.to <= |runes|
  {
    UnitsMonotone(runes, s.from, s.to);
    Entity(s.style, Units(runes[..s.from]), Units(runes[..s.to]) - Units(runes[..s.from]))
  }

  predicate Within(runes: seq<Rune>, spans: seq<Span>) {
    forall s | s in spans :: s.from < s.to <= |runes|
  }

  function EntitiesOf(runes: seq<Rune>, spans: seq<Span>): (entities: seq<Entity>)
    requires Within(runes, spans)
    ensures |entities| == |spans| && forall i | 0 <= i < |spans| :: entities[i] == EntityOf(runes, spans[i])
  {
    seq(|spans|, i requires 0 <= i < |spans| => EntityOf(runes, spans[i]))
  }
}
