/**
 * The source form of styled text written out in bytes: which runes are escaped, which delimiter a style has, and how
 * positions are counted. It shares nothing with the encoder, and is proved to be what the encoder writes and reads.
 */
module MarkdownSource {
  import opened Wrappers
  import opened ProtocolTypes
  import opened MarkdownText
  import opened MarkdownWriting

  // The characters * _ + ~ | & ` [ ] ( ) and the backslash.
  ghost predicate Reserved(r: Rune) {
    |r| == 1 && r[0] in {0x2A, 0x5F, 0x2B, 0x7E, 0x7C, 0x26, 0x60, 0x5B, 0x5D, 0x28, 0x29, 0x5C}
  }

  // Text with a backslash in front of every reserved character.
  ghost function Source(runes: seq<Rune>): Bytes {
    if runes == [] then []
    else (if Reserved(runes[0]) then [0x5C] + runes[0] else runes[0]) + Source(runes[1..])
  }

  // ** for bold, __ for italic, ++ for underline, ~~ for strike, || for spoiler, && for quote, ` for code.
  ghost function Delimiter(style: Style): Bytes {
    if style == Bold then [0x2A, 0x2A]
    else if style == Italic then [0x5F, 0x5F]
    else if style == Underline then [0x2B, 0x2B]
    else if style == Strike then [0x7E, 0x7E]
    else if style == Spoiler then [0x7C, 0x7C]
    else if style == Quote then [0x26, 0x26]
    else [0x60]
  }

  // The length of some text in UTF-16: a rune beyond the basic plane is a surrogate pair.
  ghost function Length16(runes: seq<Rune>): nat {
    if runes == [] then 0 else (if runes[0][0] >= 0xF0 then 2 else 1) + Length16(runes[1..])
  }

  // The source form of text with one entity in it.
  ghost function OneStyled(before: seq<Rune>, style: Style, inside: seq<Rune>, after: seq<Rune>): Bytes {
    Source(before) + Delimiter(style) + Source(inside) + Delimiter(style) + Source(after)
  }

  lemma {:induction false} UnitsAppend(a: seq<Rune>, b: seq<Rune>)
    ensures Units(a + b) == Units(a) + Units(b)
  {
    if b == [] {
      assert a + b == a;
    } else {
      assert (a + b)[..|a + b| - 1] == a + b[..|b| - 1];
      UnitsAppend(a, b[..|b| - 1]);
    }
  }

  // Positions are counted in UTF-16 code units.
  lemma {:induction false} UnitsAreLength16(runes: seq<Rune>)
    ensures Units(runes) == Length16(runes)
  {
    if runes != [] {
      UnitsAreLength16(runes[1..]);
      assert runes == [runes[0]] + runes[1..];
      UnitsAppend([runes[0]], runes[1..]);
      assert [runes[0]][..0] == [];
    }
  }

  lemma {:induction false} EscapingIsSource(runes: seq<Rune>)
    ensures Render(Escaping(runes)) == Source(runes)
  {
    if runes != [] {
      EscapingIsSource(runes[1..]);
      assert Escaping(runes)[1..] == Escaping(runes[1..]);
    }
  }

  function OneStyledTokens(before: seq<Rune>, style: Style, inside: seq<Rune>, after: seq<Rune>): seq<Token> {
    Escaping(before) + [Delim(style)] + Escaping(inside) + [Delim(style)] + Escaping(after)
  }

  lemma OneStyledRenders(before: seq<Rune>, style: Style, inside: seq<Rune>, after: seq<Rune>)
    ensures Render(OneStyledTokens(before, style, inside, after)) == OneStyled(before, style, inside, after)
  {
    var begun := Escaping(before) + [Delim(style)];
    EscapingIsSource(before);
    EscapingIsSource(inside);
    EscapingIsSource(after);
    assert Mark(style) == Delimiter(style);
    hide Source, Delimiter, Mark, Escaping;
    RenderNext(Escaping(before), Delim(style));
    RenderAppend(begun, Escaping(inside));
    RenderNext(begun + Escaping(inside), Delim(style));
    RenderAppend(begun + Escaping(inside) + [Delim(style)], Escaping(after));
  }

  // Reading on past text in which no style begins or ends.
  lemma {:induction false} ReplayEscaping(tokens: seq<Token>, runes: seq<Rune>)
    ensures Replay(tokens + Escaping(runes)) == Replay(tokens).(runes := Replay(tokens).runes + runes)
  {
    if runes == [] {
      assert tokens + Escaping(runes) == tokens && Replay(tokens).runes + runes == Replay(tokens).runes;
    } else {
      var n := |runes| - 1;
      ReplayEscaping(tokens, runes[..n]);
      var last := Escaping(runes)[n];
      assert tokens + Escaping(runes) == tokens + Escaping(runes[..n]) + [last];
      ReplayNext(tokens + Escaping(runes[..n]), last);
      assert Replay(tokens).runes + runes == Replay(tokens).runes + runes[..n] + [runes[n]];
    }
  }

  lemma OneStyledReplays(before: seq<Rune>, style: Style, inside: seq<Rune>, after: seq<Rune>)
    ensures Replay(OneStyledTokens(before, style, inside, after)) ==
            Reading(before + inside + after, map[], [Span(style, |before|, |before| + |inside|)])
  {
    hide Replay, Escaping;
    var begun := Escaping(before) + [Delim(style)];
    assert [] + Escaping(before) == Escaping(before);
    ReplayNone();
    ReplayEscaping([], before);
    assert [] + before == before;
    ReplayNext(Escaping(before), Delim(style));
    ReplayEscaping(begun, inside);
    ReplayNext(begun + Escaping(inside), Delim(style));
    ReplayEscaping(begun + Escaping(inside) + [Delim(style)], after);
    assert map[style := |before|] - {style} == map[];
  }

  lemma ReplayNone()
    ensures Replay([]) == Reading([], map[], [])
  {
  }

  lemma {:induction false} LexableEscaping(tokens: seq<Token>, runes: seq<Rune>)
    requires Lexable(tokens)
    ensures Lexable(tokens + Escaping(runes))
    ensures runes != [] ==> CodesInGap(tokens + Escaping(runes)) == 0
    ensures runes == [] ==> CodesInGap(tokens + Escaping(runes)) == CodesInGap(tokens)
  {
    if runes == [] {
      assert tokens + Escaping(runes) == tokens;
    } else {
      var n := |runes| - 1;
      LexableEscaping(tokens, runes[..n]);
      var all := tokens + Escaping(runes);
      assert all[..|all| - 1] == tokens + Escaping(runes[..n]);
    }
  }

  lemma LexableDelim(tokens: seq<Token>, style: Style)
    requires Lexable(tokens) && CodesInGap(tokens) <= 1
    ensures Lexable(tokens + [Delim(style)]) && CodesInGap(tokens + [Delim(style)]) <= CodesInGap(tokens) + 1
  {
    assert (tokens + [Delim(style)])[..|tokens|] == tokens;
  }

  lemma OneStyledLexable(before: seq<Rune>, style: Style, inside: seq<Rune>, after: seq<Rune>)
    ensures Lexable(OneStyledTokens(before, style, inside, after))
  {
    hide Escaping;
    var begun := Escaping(before) + [Delim(style)];
    assert [] + Escaping(before) == Escaping(before);
    LexableEscaping([], before);
    hide Lexable, CodesInGap;
    LexableDelim(Escaping(before), style);
    LexableEscaping(begun, inside);
    LexableDelim(begun + Escaping(inside), style);
    LexableEscaping(begun + Escaping(inside) + [Delim(style)], after);
  }

  // The last token of some source form, and what was read before it.
  lemma LastRead(tokens: seq<Token>)
    requires tokens != [] && Lexable(tokens) && EscapesOnlySpecial(tokens)
    ensures var last := tokens[|tokens| - 1];
            && tokens == tokens[..|tokens| - 1] + [last]
            && Lexable(tokens[..|tokens| - 1]) && EscapesOnlySpecial(tokens[..|tokens| - 1])
            && Replay(tokens) == Read(Replay(tokens[..|tokens| - 1]), last)
            && (!last.Delim? ==> (last.Escaped? <==> SpecialRune(last.rune)))
  {
    hide Read, Replay, SpecialRune, CodesInGap;
    var n := |tokens| - 1;
    assert tokens == tokens[..n] + [tokens[n]];
    ReplayNext(tokens[..n], tokens[n]);
    assert tokens[n] in tokens && forall t | t in tokens[..n] :: t in tokens;
  }

  lemma EscapingLast(runes: seq<Rune>, t: Token)
    requires !t.Delim? && (t.Escaped? <==> SpecialRune(t.rune))
    ensures Escaping(runes + [t.rune]) == Escaping(runes) + [t]
  {
  }

  lemma NoneEscaped()
    ensures Escaping([]) == []
  {
  }

  lemma NeitherOpen(style: Style, from: nat)
    ensures Replay([]).open != map[style := from]
  {
    assert style in map[style := from] && style !in Replay([]).open;
  }

  // While one style is open and nothing is finished, one mark was read.
  lemma {:induction false} OneMark(tokens: seq<Token>, style: Style, from: nat)
    requires Replay(tokens).open == map[style := from] && Replay(tokens).spans == []
    requires Lexable(tokens) && EscapesOnlySpecial(tokens)
    ensures var runes := Replay(tokens).runes;
            && from <= |runes|
            && tokens == Escaping(runes[..from]) + [Delim(style)] + Escaping(runes[from..])
  {
    hide Replay, Lexable, EscapesOnlySpecial, SpecialRune, Escaping;
    NeitherOpen(style, from);
    LastRead(tokens);
    var n := |tokens| - 1;
    var r, last := Replay(tokens[..n]), tokens[n];
    if last.Delim? {
      OpenedLast(r.open, last.style, |r.runes|, style, from);
      NoMarks(tokens[..n]);
      NoneEscaped();
      assert r.runes[..from] == r.runes && r.runes[from..] == [];
    } else {
      OneMark(tokens[..n], style, from);
      OnPast(r.runes, last.rune, from);
      EscapingLast(r.runes[from..], last);
    }
  }

  lemma OnPast(runes: seq<Rune>, rune: Rune, at: nat)
    requires at <= |runes|
    ensures (runes + [rune])[..at] == runes[..at] && (runes + [rune])[at..] == runes[at..] + [rune]
  {
  }

  lemma OpenedLast(open: map<Style, nat>, begun: Style, at: nat, style: Style, from: nat)
    requires begun !in open && open[begun := at] == map[style := from]
    ensures open == map[] && begun == style && at == from
  {
    var grown := open[begun := at];
    assert begun in grown && grown[begun] == at;
    assert forall s | s in open :: s in grown;
  }

  // Once a single entity is read and nothing is open, two marks were read.
  lemma {:induction false} TwoMarks(tokens: seq<Token>, s: Span)
    requires Replay(tokens).open == map[] && Replay(tokens).spans == [s]
    requires Lexable(tokens) && EscapesOnlySpecial(tokens)
    ensures var runes := Replay(tokens).runes;
            && s.from <= s.to <= |runes|
            && tokens == OneStyledTokens(runes[..s.from], s.style, runes[s.from..s.to], runes[s.to..])
  {
    hide Replay, Lexable, EscapesOnlySpecial, SpecialRune, Escaping;
    ReplayNone();
    LastRead(tokens);
    var n := |tokens| - 1;
    var r, last := Replay(tokens[..n]), tokens[n];
    if last.Delim? {
      OpenedIsOpen(r, last.style);
      ClosedLast(r.open, last.style, r.spans, s, |r.runes|);
      OneMark(tokens[..n], s.style, s.from);
      NoneEscaped();
      assert r.runes[..s.to] == r.runes && r.runes[s.to..] == [];
      assert tokens[..n] + [last] + [] == tokens[..n] + [last];
    } else {
      TwoMarks(tokens[..n], s);
      OnPast(r.runes, last.rune, s.from);
      OnPast(r.runes, last.rune, s.to);
      assert (r.runes + [last.rune])[s.from..s.to] == r.runes[s.from..s.to];
      EscapingLast(r.runes[s.to..], last);
    }
  }

  lemma OpenedIsOpen(r: Reading, style: Style)
    ensures style !in r.open ==> Read(r, Delim(style)).open != map[]
  {
    assert style !in r.open ==> style in Read(r, Delim(style)).open;
  }

  lemma ClosedLast(open: map<Style, nat>, closed: Style, spans: seq<Span>, s: Span, at: nat)
    requires closed in open && open - {closed} == map[]
    requires spans + [Span(closed, open[closed], at)] == [s]
    ensures spans == [] && s == Span(closed, open[closed], at) && open == map[closed := open[closed]]
  {
    assert |spans| == 0 && [Span(closed, open[closed], at)] == [s];
    assert forall t | t in open && t != closed :: t in open - {closed};
  }

  // A source form is read in one way only.
  lemma {:induction false} OneReading(a: seq<Token>, b: seq<Token>, j: nat)
    requires Lexable(a) && Lexable(b) && j <= |a| && j <= |b| && Render(a[j..]) == Render(b[j..])
    ensures a[j..] == b[j..]
    decreases |a| - j
  {
    if j == |a| || j == |b| {
      Nothing(a, j);
      Nothing(b, j);
    } else {
      hide Lexable, Render;
      SameToken(a, b, j);
      OneReading(a, b, j + 1);
      assert a[j..] == [a[j]] + a[j + 1..];
      assert b[j..] == [b[j]] + b[j + 1..];
    }
  }

  lemma Nothing(tokens: seq<Token>, j: nat)
    requires j <= |tokens|
    ensures Render(tokens[j..]) == [] <==> j == |tokens|
  {
    if j < |tokens| {
      FirstByte(tokens, j);
      assert tokens[j..] != [] && TokenBytes(tokens[j]) != [];
    }
  }

  lemma SameToken(a: seq<Token>, b: seq<Token>, j: nat)
    requires Lexable(a) && Lexable(b) && j < |a| && j < |b| && Render(a[j..]) == Render(b[j..])
    ensures a[j] == b[j] && Render(a[j + 1..]) == Render(b[j + 1..])
  {
    hide Lexable, DelimiterAt, TokenBytes, Render, ValidRune;
    var text := Render(a[j..]);
    FrontOf(a, j);
    FrontOf(b, j);
    TokenAtFront(a[j], b[j], Render(a[j + 1..]), Render(b[j + 1..]), text);
    assert text[|TokenBytes(a[j])|..] == Render(a[j + 1..]);
    assert text[|TokenBytes(b[j])|..] == Render(b[j + 1..]);
  }

  // The kind of a token and the bytes it stands for tell which token it is.
  lemma TokenAtFront(a: Token, b: Token, moreA: Bytes, moreB: Bytes, text: Bytes)
    requires text == TokenBytes(a) + moreA == TokenBytes(b) + moreB
    requires Tells(a, text) && Tells(b, text)
    ensures a == b
  {
    if a.Delim? {
      MarkIsDelimiter(a.style);
      MarkIsDelimiter(b.style);
    } else if a.Escaped? {
      assert text[1..] == a.rune + moreA == b.rune + moreB;
      SameRune(a.rune, moreA, b.rune, moreB, text[1..]);
    } else {
      SameRune(a.rune, moreA, b.rune, moreB, text);
    }
  }

  // What the reader sees at a token.
  ghost predicate Tells(t: Token, text: Bytes) {
    && text != [] && (text[0] == ESCAPE <==> t.Escaped?)
    && (t.Delim? ==> DelimiterAt(text, LARGEST_DELIMITER) == Some(Mark(t.style)))
    && (t.Plain? ==> DelimiterAt(text, LARGEST_DELIMITER) == None)
  }

  lemma FrontOf(tokens: seq<Token>, j: nat)
    requires Lexable(tokens) && j < |tokens|
    ensures var text := Render(tokens[j..]);
            text == TokenBytes(tokens[j]) + Render(tokens[j + 1..]) && Tells(tokens[j], text)
  {
    hide Lexable, DelimiterAt;
    assert tokens[j..][1..] == tokens[j + 1..];
    LexableAt(tokens, j);
    if tokens[j].Delim? {
      MarkIsDelimiter(tokens[j].style);
      DelimiterIsFound(tokens, j);
      NoMarkEscapes(tokens[j].style);
    } else if tokens[j].Plain? {
      NoDelimiterAt(Render(tokens[j..]), LARGEST_DELIMITER);
    }
  }

  lemma NoMarkEscapes(style: Style)
    ensures Mark(style) != [] && Mark(style)[0] != ESCAPE
  {
  }

  lemma SameRune(a: Rune, moreA: Bytes, b: Rune, moreB: Bytes, text: Bytes)
    requires text == a + moreA == b + moreB
    ensures a == b
  {
    assert a[0] == text[0] == b[0];
    SameSize(a, b);
    hide ValidRune;
    assert a == text[..|a|] && b == text[..|b|];
  }

  lemma SameSize(a: Rune, b: Rune)
    requires a[0] == b[0]
    ensures |a| == |b|
  {
  }

  // What writing some text comes to without an entity and with a single one.
  ghost predicate WritesOne(runes: seq<Rune>, given: seq<Entity>, out: Bytes) {
    && (given == [] ==> out == Source(runes))
    && (forall before, style, inside, after |
          runes == before + inside + after && given == [Entity(style, Length16(before), Length16(inside))] ::
          out == OneStyled(before, style, inside, after))
  }

  lemma WritingOne(runes: seq<Rune>, spans: seq<Span>, given: seq<Entity>, tokens: seq<Token>)
    requires Formatted(runes, spans) && given == EntitiesOf(runes, spans)
    requires Lexable(tokens) && EscapesOnlySpecial(tokens)
    requires Replay(tokens).runes == runes && Replay(tokens).open == map[]
    requires multiset(Replay(tokens).spans) == multiset(spans)
    ensures WritesOne(runes, given, Render(tokens))
  {
    hide Source, Length16, Lexable, EscapesOnlySpecial, Replay, Render, Escaping, OneStyled, OneStyledTokens, Units;
    if given == [] {
      assert Replay(tokens).spans == [] by { EmptyBag(Replay(tokens).spans, spans); }
      NoMarks(tokens);
      EscapingIsSource(runes);
    }
    forall before, style, inside, after |
      runes == before + inside + after && given == [Entity(style, Length16(before), Length16(inside))]
      ensures Render(tokens) == OneStyled(before, style, inside, after)
    {
      var s := spans[0];
      assert spans == [s] && s in spans && given[0] == EntityOf(runes, s);
      SingleBag(Replay(tokens).spans, s);
      TwoMarks(tokens, s);
      SpanOf(before, inside, after, s);
      OneStyledRenders(before, style, inside, after);
    }
  }

  lemma EmptyBag<T>(a: seq<T>, b: seq<T>)
    requires multiset(a) == multiset(b) && b == []
    ensures a == []
  {
    assert |multiset(a)| == |a|;
  }

  lemma SingleBag<T>(a: seq<T>, x: T)
    requires multiset(a) == multiset([x])
    ensures a == [x]
  {
    assert |multiset(a)| == |a| == 1;
    assert a[0] in multiset(a);
  }

  // The span that an entity states.
  lemma SpanOf(before: seq<Rune>, inside: seq<Rune>, after: seq<Rune>, s: Span)
    requires var runes := before + inside + after;
             && s.from <= s.to <= |runes|
             && EntityOf(runes, s) == Entity(s.style, Length16(before), Length16(inside))
    ensures var runes := before + inside + after;
            runes[..s.from] == before && runes[s.from..s.to] == inside && runes[s.to..] == after
  {
    hide Units, Length16;
    var runes := before + inside + after;
    UnitsAreLength16(before);
    UnitsAreLength16(inside);
    UnitsAppend(before, inside);
    assert runes[..|before|] == before && runes[..|before + inside|] == before + inside;
    PlaceIs(runes, s.from, |before|);
    PlaceIs(runes, s.to, |before + inside|);
  }

  lemma PlaceIs(runes: seq<Rune>, i: nat, j: nat)
    requires i <= |runes| && j <= |runes| && Units(runes[..i]) == Units(runes[..j])
    ensures i == j
  {
    if i <= j {
      UnitsMonotone(runes, i, j);
    } else {
      UnitsMonotone(runes, j, i);
    }
  }

  // What reading the source form of some text without an entity or with a single one comes to.
  ghost predicate ReadsOne(source: Bytes, parsed: Bytes, found: seq<Entity>) {
    && (forall runes | source == Source(runes) :: parsed == Flat(runes) && found == [])
    && (forall before, style, inside, after | source == OneStyled(before, style, inside, after) ::
          && parsed == Flat(before + inside + after)
          && found == [Entity(style, Length16(before), Length16(inside))])
  }

  lemma ReadingOne(tokens: seq<Token>, parsed: Bytes, found: seq<Entity>)
    requires Lexable(tokens)
    requires var r := Replay(tokens);
             && parsed == Flat(r.runes) && |found| == |r.spans|
             && (forall i | 0 <= i < |r.spans| ::
                   && r.spans[i].from <= r.spans[i].to <= |r.runes|
                   && found[i] == EntityOf(r.runes, r.spans[i]))
    ensures ReadsOne(Render(tokens), parsed, found)
  {
    hide Source, Length16, Lexable, Replay, Render, Escaping, OneStyled, OneStyledTokens, Units, Flat;
    forall runes | Render(tokens) == Source(runes) ensures parsed == Flat(runes) && found == [] {
      EscapingIsSource(runes);
      ReplayNone();
      NoneLexable();
      assert [] + Escaping(runes) == Escaping(runes) && [] + runes == runes;
      LexableEscaping([], runes);
      SameSource(tokens, Escaping(runes));
      ReplayEscaping([], runes);
    }
    forall before, style, inside, after | Render(tokens) == OneStyled(before, style, inside, after)
      ensures parsed == Flat(before + inside + after)
      ensures found == [Entity(style, Length16(before), Length16(inside))]
    {
      OneStyledRenders(before, style, inside, after);
      OneStyledLexable(before, style, inside, after);
      SameSource(tokens, OneStyledTokens(before, style, inside, after));
      OneStyledReplays(before, style, inside, after);
      EntityAt(before, inside, after, style);
    }
  }

  lemma NoneLexable()
    ensures Lexable([])
  {
  }

  lemma SameSource(a: seq<Token>, b: seq<Token>)
    requires Lexable(a) && Lexable(b) && Render(a) == Render(b)
    ensures a == b
  {
    assert a[0..] == a && b[0..] == b;
    OneReading(a, b, 0);
  }

  lemma EntityAt(before: seq<Rune>, inside: seq<Rune>, after: seq<Rune>, style: Style)
    ensures EntityOf(before + inside + after, Span(style, |before|, |before| + |inside|)) ==
            Entity(style, Length16(before), Length16(inside))
  {
    hide Units, Length16;
    var runes := before + inside + after;
    UnitsAreLength16(before);
    UnitsAreLength16(inside);
    UnitsAppend(before, inside);
    assert runes[..|before|] == before && runes[..|before| + |inside|] == before + inside;
  }
}
