/**
 * Writing styled text in place: how a round changes the text, the position in it, what was put in so far, the stack of
 * ends and the entities still to begin.
 */
module MarkdownDrafts {
  import opened Wrappers
  import opened ProtocolTypes
  import opened MarkdownText
  import opened MarkdownWriting

  // How far writing has come: the tokens written, the runes done, the spans begun and those not begun.
  datatype Draft = Draft(tokens: seq<Token>, done: nat, active: seq<Span>, rest: seq<Span>)

  // The text is the written tokens and then the runes to come; what was put in is told apart from the runes.
  ghost predicate Placed(runes: seq<Rune>, tokens: seq<Token>, i: nat, text: Bytes, index: MultiSize,
                         offset: MultiSize)
  {
    && i <= |runes|
    && text == Render(tokens) + Flat(runes[i..]) && index.utf8 == |Render(tokens)|
    && index.utf16 == offset.utf16 + Units(runes[..i])
  }

  ghost predicate Drafting(runes: seq<Rune>, spans: seq<Span>, d: Draft, text: Bytes, index: MultiSize,
                           offset: MultiSize, stack: DelimiterStack, entities: seq<Entity>)
  {
    && Progress(runes, spans, d.tokens, d.done, d.active, d.rest)
    && Placed(runes, d.tokens, d.done, text, index, offset)
    && EndsAre(runes, d.active, stack)
    && Within(runes, d.rest) && entities == EntitiesOf(runes, d.rest)
  }

  lemma DraftFacts(runes: seq<Rune>, spans: seq<Span>, d: Draft, text: Bytes, index: MultiSize, offset: MultiSize,
                   stack: DelimiterStack, entities: seq<Entity>)
    requires Drafting(runes, spans, d, text, index, offset, stack, entities)
    ensures offset.utf16 <= index.utf16 && forall s: Style :: s in stack
  {
  }

  // A delimiter is ASCII, so it takes as many bytes as code units.
  function MarkSize(style: Style): MultiSize {
    MultiSize(|Mark(style)|, |Mark(style)|)
  }

  lemma PlacedMark(runes: seq<Rune>, tokens: seq<Token>, i: nat, text: Bytes, index: MultiSize, offset: MultiSize,
                   style: Style)
    requires Placed(runes, tokens, i, text, index, offset)
    ensures index.utf8 <= |text|
    ensures Placed(runes, tokens + [Delim(style)], i, text[..index.utf8] + Mark(style) + text[index.utf8..],
                   index.Add(MarkSize(style)), offset.Add(MarkSize(style)))
  {
    hide Render, Flat, Units, Mark;
    PutIn(tokens, Delim(style), Mark(style), text, Flat(runes[i..]), Flat(runes[i..]));
  }

  lemma PlacedPlain(runes: seq<Rune>, tokens: seq<Token>, i: nat, text: Bytes, index: MultiSize, offset: MultiSize)
    requires Placed(runes, tokens, i, text, index, offset) && i < |runes|
    ensures index.utf8 < |text|
    ensures RuneSize(text[index.utf8..]) == |runes[i]| && Prefix(text[index.utf8..], |runes[i]|) == runes[i]
    ensures Placed(runes, tokens + [Plain(runes[i])], i + 1, text,
                   index.Add(MultiSize(|runes[i]|, UnitsOfSize(|runes[i]|))), offset)
  {
    RuneAt(runes, i);
    hide Render, Units, Flat, RuneSize, Prefix, UnitsOfSize;
    RenderNext(tokens, Plain(runes[i]));
    RuneBetween(Render(tokens), runes[i], Flat(runes[i + 1..]), text);
  }

  lemma PlacedEscaped(runes: seq<Rune>, tokens: seq<Token>, i: nat, text: Bytes, index: MultiSize, offset: MultiSize)
    requires Placed(runes, tokens, i, text, index, offset) && i < |runes|
    ensures index.utf8 <= |text|
    ensures Placed(runes, tokens + [Escaped(runes[i])], i + 1, text[..index.utf8] + [ESCAPE] + text[index.utf8..],
                   index.Add(MultiSize(1, 1)).Add(MultiSize(|runes[i]|, UnitsOfSize(|runes[i]|))),
                   offset.Add(MultiSize(1, 1)))
  {
    RuneAt(runes, i);
    hide Render, Units, Flat, RuneSize, Prefix, UnitsOfSize;
    var r, after := runes[i], Flat(runes[i + 1..]);
    assert [ESCAPE] + (r + after) == [ESCAPE] + r + after;
    PutIn(tokens, Escaped(r), [ESCAPE], text, Flat(runes[i..]), after);
  }

  // Ending a style that ends here, and what it means that one does not.
  lemma Closing(runes: seq<Rune>, spans: seq<Span>, d: Draft, text: Bytes, index: MultiSize, offset: MultiSize,
                stack: DelimiterStack, entities: seq<Entity>, style: Style)
    returns (next: Draft)
    requires Drafting(runes, spans, d, text, index, offset, stack, entities)
    requires style in stack && stack[style].Some? && index.utf16 - offset.utf16 >= stack[style].value.utf16
    requires style == Code ==> CodesInGap(d.tokens) <= 1
    ensures index.utf8 <= |text|
    ensures Drafting(runes, spans, next, text[..index.utf8] + Mark(style) + text[index.utf8..],
                     index.Add(MarkSize(style)), offset.Add(MarkSize(style)), stack[style := None], entities)
    ensures next.done == d.done && next.rest == d.rest
    ensures CodesInGap(next.tokens) == CodesInGap(d.tokens) + if style == Code then 1 else 0
    ensures forall a :: a in next.active <==> a in d.active && a.style != style
  {
    hide Lexable, Replay, OpenAre, Apart, SortedByStart, Units, Mark, Flat, Render, EscapesOnlySpecial;
    var k := EndingIndex(runes, d.active, stack, style, d.done);
    LexableNext(d.tokens, Delim(style));
    CloseStep(runes, spans, d.tokens, d.done, d.active, d.rest, k);
    PlacedMark(runes, d.tokens, d.done, text, index, offset, style);
    EndsWithout(runes, d.active, stack, k);
    next := Draft(d.tokens + [Delim(style)], d.done, Without(d.active, k), d.rest);
  }

  lemma NotClosing(runes: seq<Rune>, spans: seq<Span>, d: Draft, text: Bytes, index: MultiSize, offset: MultiSize,
                   stack: DelimiterStack, entities: seq<Entity>, style: Style)
    requires Drafting(runes, spans, d, text, index, offset, stack, entities) && style in stack
    requires stack[style].Some? ==> index.utf16 - offset.utf16 < stack[style].value.utf16
    ensures forall a | a in d.active && a.style == style :: a.to > d.done
  {
    hide Lexable, Replay, OpenAre, StylesDiffer, Apart, SortedByStart, Flat, Render, EscapesOnlySpecial;
    forall a | a in d.active && a.style == style ensures a.to > d.done {
      UnitsMonotone(runes, d.done, a.to);
    }
  }

  // The next entity starts here exactly when the next span does.
  lemma StartsHere(runes: seq<Rune>, spans: seq<Span>, d: Draft, text: Bytes, index: MultiSize, offset: MultiSize,
                   stack: DelimiterStack, entities: seq<Entity>)
    requires Drafting(runes, spans, d, text, index, offset, stack, entities)
    ensures entities == [] ==> d.rest == []
    ensures entities != [] ==>
              && d.rest != [] && d.done <= d.rest[0].from < d.rest[0].to <= |runes|
              && (entities[0].offset == index.utf16 - offset.utf16 <==> d.rest[0].from == d.done)
              && entities[0].style == d.rest[0].style
              && entities[0].length + Units(runes[..d.rest[0].from]) == Units(runes[..d.rest[0].to])
  {
    hide Lexable, Replay, OpenAre, StylesDiffer, Apart, SortedByStart, Flat, Render, EscapesOnlySpecial;
    if entities != [] {
      var x := d.rest[0];
      UnitsMonotone(runes, d.done, x.from);
      UnitsMonotone(runes, x.from, x.to);
    }
  }

  lemma NoneStarts(d: Draft)
    requires SortedByStart(d.rest) && (d.rest != [] ==> d.rest[0].from > d.done)
    ensures forall s | s in d.rest :: s.from > d.done
  {
  }

  lemma Opening(runes: seq<Rune>, spans: seq<Span>, d: Draft, text: Bytes, index: MultiSize, offset: MultiSize,
                stack: DelimiterStack, entities: seq<Entity>)
    returns (next: Draft)
    requires Drafting(runes, spans, d, text, index, offset, stack, entities)
    requires entities != [] && entities[0].offset == index.utf16 - offset.utf16
    requires forall a | a in d.active :: a.to > d.done
    requires Code !in Replay(d.tokens).open ==> CodesInGap(d.tokens) <= 1
    ensures index.utf8 <= |text|
    ensures var style, end := entities[0].style, MultiSize(0, index.utf16 - offset.utf16 + entities[0].length);
            Drafting(runes, spans, next, text[..index.utf8] + Mark(style) + text[index.utf8..],
                     index.Add(MarkSize(style)), offset.Add(MarkSize(style)), stack[style := Some(end)], entities[1..])
    ensures next.done == d.done
    ensures Code !in Replay(next.tokens).open ==> CodesInGap(next.tokens) <= 1
    ensures forall a | a in next.active :: a.to > d.done
  {
    hide Lexable, Replay, OpenAre, StylesDiffer, Apart, SortedByStart, Units, Mark, Flat, Render, EscapesOnlySpecial;
    StartsHere(runes, spans, d, text, index, offset, stack, entities);
    var x, more := d.rest[0], d.rest[1..];
    assert d.rest == [x] + more;
    OpenStep(runes, spans, d.tokens, d.done, d.active, x, more);
    PlacedMark(runes, d.tokens, d.done, text, index, offset, x.style);
    assert x in d.rest;
    NoneAlike(d.active, x, more, d.done);
    EndsAlso(runes, d.active, stack, x, MultiSize(0, index.utf16 - offset.utf16 + entities[0].length));
    LexableNext(d.tokens, Delim(x.style));
    OpenedNext(d.tokens, x.style);
    next := Draft(d.tokens + [Delim(x.style)], d.done, d.active + [x], more);
    EntitiesTail(runes, x, more);
  }

  lemma OpenedNext(tokens: seq<Token>, style: Style)
    requires style !in Replay(tokens).open
    ensures forall s: Style :: s in Replay(tokens + [Delim(style)]).open <==> s in Replay(tokens).open || s == style
  {
    ReplayNext(tokens, Delim(style));
  }

  lemma EntitiesTail(runes: seq<Rune>, x: Span, more: seq<Span>)
    requires Within(runes, [x] + more)
    ensures Within(runes, more) && EntitiesOf(runes, [x] + more)[1..] == EntitiesOf(runes, more)
  {
    assert forall s | s in more :: s in [x] + more;
  }

  // Writing the next rune, escaped or not.
  lemma Writes(runes: seq<Rune>, spans: seq<Span>, d: Draft, text: Bytes, index: MultiSize, offset: MultiSize,
               stack: DelimiterStack, entities: seq<Entity>)
    returns (next: Draft)
    requires Drafting(runes, spans, d, text, index, offset, stack, entities) && d.done < |runes|
    requires (forall a | a in d.active :: a.to > d.done) && (d.rest != [] ==> d.rest[0].from > d.done)
    ensures index.utf8 < |text| && offset.utf16 <= index.utf16
    ensures next.done == d.done + 1 && CodesInGap(next.tokens) == 0
    ensures var size := RuneSize(text[index.utf8..]);
            var step := MultiSize(size, UnitsOfSize(size));
            if SpecialRune(Prefix(text[index.utf8..], size)) then
              Drafting(runes, spans, next, text[..index.utf8] + [ESCAPE] + text[index.utf8..],
                       index.Add(MultiSize(1, 1)).Add(step), offset.Add(MultiSize(1, 1)), stack, entities)
            else
              Drafting(runes, spans, next, text, index.Add(step), offset, stack, entities)
  {
    hide Lexable, Replay, OpenAre, StylesDiffer, Apart, Units, Flat, Render, EscapesOnlySpecial, CodesInGap, RuneSize,
         Prefix, SpecialRune, UnitsOfSize, EndsAre;
    NoneStarts(d);
    PlacedPlain(runes, d.tokens, d.done, text, index, offset);
    var r := runes[d.done];
    var t := if SpecialRune(r) then Escaped(r) else Plain(r);
    RuneStep(runes, spans, d.tokens, d.done, d.active, d.rest, t);
    if SpecialRune(r) {
      PlacedEscaped(runes, d.tokens, d.done, text, index, offset);
    }
    next := Draft(d.tokens + [t], d.done + 1, d.active, d.rest);
  }

  lemma Starting(runes: seq<Rune>, spans: seq<Span>, order: seq<Span>, stack: DelimiterStack, entities: seq<Entity>)
    requires Formatted(runes, spans) && SortedByStart(order) && multiset(order) == multiset(spans)
    requires Within(runes, order) && entities == EntitiesOf(runes, order) && Cleared(stack)
    ensures Drafting(runes, spans, Draft([], 0, [], order), Flat(runes), MultiSize(0, 0), MultiSize(0, 0), stack,
                     entities)
  {
    hide Progress, Lexable, Replay, Apart, Flat;
    StartWriting(runes, spans, order);
    assert runes[..0] == [] && runes[0..] == runes;
    assert Render([]) + Flat(runes) == Flat(runes);
  }

  // While runes are to come the position is inside the text, and only then.
  lemma MoreToCome(runes: seq<Rune>, spans: seq<Span>, d: Draft, text: Bytes, index: MultiSize, offset: MultiSize,
                   stack: DelimiterStack, entities: seq<Entity>)
    requires Drafting(runes, spans, d, text, index, offset, stack, entities)
    ensures d.done <= |runes| && (index.utf8 < |text| <==> d.done < |runes|)
    ensures d.done == |runes| ==> text == Render(d.tokens) && d.rest == []
  {
    hide Lexable, Replay, OpenAre, StylesDiffer, Apart, SortedByStart, Units, Render, EscapesOnlySpecial, EndsAre;
    if d.done < |runes| {
      RuneAt(runes, d.done);
    } else {
      SomeMember(d.rest);
    }
  }

  // What is still open at the end of the text.
  ghost predicate Ending(runes: seq<Rune>, spans: seq<Span>, tokens: seq<Token>, active: seq<Span>,
                         stack: DelimiterStack, unseen: set<Style>)
  {
    && Progress(runes, spans, tokens, |runes|, active, [])
    && (forall a | a in active :: a.style in unseen && a.to == |runes|)
    && (forall s: Style :: s in stack)
    && (forall s | s in unseen :: stack[s].Some? <==> exists a :: a in active && a.style == s)
    && CodesInGap(tokens) <= if Code in unseen then 0 else 1
  }

  lemma AtEnd(runes: seq<Rune>, spans: seq<Span>, d: Draft, text: Bytes, index: MultiSize, offset: MultiSize,
              stack: DelimiterStack, entities: seq<Entity>)
    requires Drafting(runes, spans, d, text, index, offset, stack, entities)
    requires d.done == |runes| && CodesInGap(d.tokens) == 0
    ensures Ending(runes, spans, d.tokens, d.active, stack, STYLES)
  {
    hide Lexable, Replay, OpenAre, StylesDiffer, Apart, SortedByStart, Units, Render, EscapesOnlySpecial, Flat;
    MoreToCome(runes, spans, d, text, index, offset, stack, entities);
    forall s: Style ensures s in STYLES {
      AllStyles(s);
    }
    assert d.rest == [];
  }

  lemma EndsOpen(runes: seq<Rune>, spans: seq<Span>, tokens: seq<Token>, active: seq<Span>, stack: DelimiterStack,
                 unseen: set<Style>, style: Style)
    returns (active': seq<Span>)
    requires Ending(runes, spans, tokens, active, stack, unseen) && style in unseen && stack[style].Some?
    ensures Ending(runes, spans, tokens + [Delim(style)], active', stack, unseen - {style})
  {
    hide Lexable, Replay, OpenAre, Apart, SortedByStart, Units, EscapesOnlySpecial;
    var a :| a in active && a.style == style;
    var k :| 0 <= k < |active| && active[k] == a;
    LexableNext(tokens, Delim(style));
    hide CodesInGap;
    CloseStep(runes, spans, tokens, |runes|, active, [], k);
    DifferWithout(active, k);
    hide StylesDiffer, Without, Progress;
    active' := Without(active, k);
    forall s | s in unseen - {style} ensures stack[s].Some? <==> exists b :: b in active' && b.style == s {
      if stack[s].Some? {
        var b :| b in active && b.style == s;
        assert b in active';
      }
    }
  }

  lemma EndsClosed(runes: seq<Rune>, spans: seq<Span>, tokens: seq<Token>, active: seq<Span>, stack: DelimiterStack,
                   unseen: set<Style>, style: Style)
    requires Ending(runes, spans, tokens, active, stack, unseen) && style in unseen && stack[style].None?
    ensures Ending(runes, spans, tokens, active, stack, unseen - {style})
  {
    hide Progress, CodesInGap;
  }

  lemma AllEnded(runes: seq<Rune>, spans: seq<Span>, tokens: seq<Token>, active: seq<Span>, stack: DelimiterStack)
    requires Ending(runes, spans, tokens, active, stack, {})
    ensures Lexable(tokens) && EscapesOnlySpecial(tokens)
    ensures Replay(tokens).runes == runes && Replay(tokens).open == map[]
    ensures multiset(Replay(tokens).spans) == multiset(spans)
    ensures spans == [] ==> tokens == Escaping(runes)
  {
    hide Lexable, Replay, OpenAre, Apart, SortedByStart, Units, EscapesOnlySpecial, CodesInGap, StylesDiffer;
    SomeMember(active);
    assert active == [];
    Written(runes, spans, tokens);
  }

  lemma SomeMember(spans: seq<Span>)
    ensures spans != [] ==> exists s :: s in spans
  {
    if spans != [] {
      assert spans[0] in spans;
    }
  }

  // Two orders of the same spans state the same entities.
  lemma {:induction false} SameEntities(runes: seq<Rune>, a: seq<Span>, b: seq<Span>)
    requires multiset(a) == multiset(b) && Within(runes, a)
    ensures Within(runes, b) && multiset(EntitiesOf(runes, a)) == multiset(EntitiesOf(runes, b))
    decreases |a|
  {
    SameMembers(a, b);
    if a == [] {
      assert b == [];
    } else {
      hide Within, EntitiesOf, EntityOf, Without;
      var k := FirstIn(a, b);
      EntitiesWithout(runes, a, 0);
      EntitiesWithout(runes, b, k);
      SameEntities(runes, Without(a, 0), Without(b, k));
    }
  }

  lemma SameMembers(a: seq<Span>, b: seq<Span>)
    requires multiset(a) == multiset(b)
    ensures |a| == |b|
    ensures forall runes | Within(runes, a) :: Within(runes, b)
  {
    assert |multiset(a)| == |a| && |multiset(b)| == |b|;
    forall s | s in b ensures s in a {
      assert s in multiset(b);
    }
  }

  lemma FirstIn(a: seq<Span>, b: seq<Span>) returns (k: nat)
    requires multiset(a) == multiset(b) && a != []
    ensures k < |b| && b[k] == a[0] && multiset(Without(a, 0)) == multiset(Without(b, k))
    ensures |Without(a, 0)| < |a|
  {
    assert a[0] in multiset(b);
    k :| 0 <= k < |b| && b[k] == a[0];
    WithoutIs(a, 0);
    WithoutIs(b, k);
    hide Without;
    assert multiset(Without(a, 0)) == multiset(a) - multiset{a[0]};
    assert multiset(Without(b, k)) == multiset(b) - multiset{a[0]};
  }

  lemma EntitiesWithout(runes: seq<Rune>, spans: seq<Span>, k: nat)
    requires Within(runes, spans) && k < |spans|
    ensures Within(runes, Without(spans, k)) && spans[k].from <= spans[k].to <= |runes|
    ensures multiset(EntitiesOf(runes, spans)) ==
            multiset(EntitiesOf(runes, Without(spans, k))) + multiset{EntityOf(runes, spans[k])}
  {
    assert spans == spans[..k] + [spans[k]] + spans[k + 1..];
    EntitiesSplit(runes, spans[..k], spans[k], spans[k + 1..]);
  }

  lemma EntitiesSplit(runes: seq<Rune>, a: seq<Span>, x: Span, b: seq<Span>)
    requires Within(runes, a + [x] + b)
    ensures x.from <= x.to <= |runes| && Within(runes, a + b)
    ensures multiset(EntitiesOf(runes, a + [x] + b)) == multiset(EntitiesOf(runes, a + b)) +
        multiset{EntityOf(runes, x)}
  {
    assert x in a + [x] + b;
    WithoutOne(a, x, b);
    EntitiesInserted(runes, a, x, b);
    hide EntityOf;
    var fewer := EntitiesOf(runes, a + b);
    assert fewer == fewer[..|a|] + fewer[|a|..];
  }

  // Where an entity goes: behind every entity that does not start later.
  method PlaceFor(sorted: seq<Entity>, entity: Entity, ghost runes: seq<Rune>, ghost order: seq<Span>,
                  ghost spans: seq<Span>, ghost n: nat)
    returns (p: nat)
    requires Within(runes, spans) && n < |spans| && entity == EntitiesOf(runes, spans)[n]
    requires Within(runes, order) && SortedByStart(order) && sorted == EntitiesOf(runes, order)
    ensures p <= |order| && spans[n].from < spans[n].to <= |runes| && entity == EntityOf(runes, spans[n])
    ensures forall s | s in order[..p] :: s.from <= spans[n].from
    ensures forall s | s in order[p..] :: spans[n].from <= s.from
  {
    hide Units, SortedByStart;
    assert spans[n] in spans;
    p := |sorted|;
    while p > 0 && sorted[p - 1].offset > entity.offset
      invariant p <= |sorted|
      invariant forall s | s in order[p..] :: spans[n].from <= s.from
    {
      p := p - 1;
      assert order[p] in order;
      UnitsMonotoneBy(runes, order[p].from, spans[n].from);
    }
    if p > 0 {
      assert order[p - 1] in order;
      UnitsMonotoneBy(runes, spans[n].from, order[p - 1].from);
      EarlierInOrder(order, p);
    }
  }

  lemma EarlierInOrder(order: seq<Span>, p: nat)
    requires SortedByStart(order) && 0 < p <= |order|
    ensures forall s | s in order[..p] :: s.from <= order[p - 1].from
  {
  }

  lemma UnitsMonotoneBy(runes: seq<Rune>, i: nat, j: nat)
    requires i <= |runes| && j <= |runes|
    ensures i < j <==> Units(runes[..i]) < Units(runes[..j])
  {
    if i <= j {
      UnitsMonotone(runes, i, j);
    } else {
      UnitsMonotone(runes, j, i);
    }
  }

  lemma InsertedInOrder(runes: seq<Rune>, order: seq<Span>, p: nat, x: Span)
    requires p <= |order| && SortedByStart(order) && Within(runes, order) && x.from < x.to <= |runes|
    requires (forall s | s in order[..p] :: s.from <= x.from) && (forall s | s in order[p..] :: x.from <= s.from)
    ensures var grown := order[..p] + [x] + order[p..];
            && SortedByStart(grown) && Within(runes, grown) && multiset(grown) == multiset(order) + multiset{x}
            && EntitiesOf(runes, grown) ==
               EntitiesOf(runes, order)[..p] + [EntityOf(runes, x)] + EntitiesOf(runes, order)[p..]
  {
    assert order == order[..p] + order[p..];
    WithoutOne(order[..p], x, order[p..]);
    SortedInserted(order[..p], x, order[p..]);
    EntitiesInserted(runes, order[..p], x, order[p..]);
  }

  lemma SortedInserted(a: seq<Span>, x: Span, b: seq<Span>)
    requires SortedByStart(a + b)
    requires (forall s | s in a :: s.from <= x.from) && (forall s | s in b :: x.from <= s.from)
    ensures SortedByStart(a + [x] + b)
  {
    var all, was := a + [x] + b, a + b;
    forall i, j | 0 <= i < j < |all| ensures all[i].from <= all[j].from {
      if i == |a| {
        assert all[j] == b[j - |a| - 1] && b[j - |a| - 1] in b;
      } else if j == |a| {
        assert all[i] == a[i] && a[i] in a;
      } else {
        assert all[i] == was[if i < |a| then i else i - 1] && all[j] == was[if j < |a| then j else j - 1];
      }
    }
  }

  lemma EntitiesInserted(runes: seq<Rune>, a: seq<Span>, x: Span, b: seq<Span>)
    requires Within(runes, a + b) && x.from < x.to <= |runes|
    ensures Within(runes, a + [x] + b)
    ensures var was := EntitiesOf(runes, a + b);
            EntitiesOf(runes, a + [x] + b) == was[..|a|] + [EntityOf(runes, x)] + was[|a|..]
  {
    forall s | s in a + [x] + b ensures s.from < s.to <= |runes| {
      assert s == x || s in a + b;
    }
  }
}
