/**
 * The Markdown encoder and decoder of Telegram messages: text edited in place while a byte position and a UTF-16 offset
 * are tracked together.
 *
 * Links, custom emoji and pre blocks are not part of this model.
 */
module MarkdownCodec {
  import opened Wrappers
  import opened ProtocolTypes
  import opened MarkdownText
  import opened MarkdownDrafts
  import opened MarkdownSource
  import opened MarkdownWriting

  // How far a parse has come: the position is past the runes read, the stack knows where each open style began, and
  // the entities state the finished spans.
  ghost predicate Reads(r: Reading, index: MultiSize, stack: DelimiterStack, entities: seq<Entity>) {
    && index == MultiSize(|Flat(r.runes)|, Units(r.runes))
    && (forall s: Style :: s in stack && (stack[s].Some? <==> s in r.open))
    && (forall s | s in r.open :: r.open[s] <= |r.runes| && stack[s].value.utf16 == Units(r.runes[..r.open[s]]))
    && |entities| == |r.spans|
    && (forall i | 0 <= i < |r.spans| ::
          && r.spans[i].from <= r.spans[i].to <= |r.runes|
          && entities[i] == EntityOf(r.runes, r.spans[i]))
  }

  lemma ReadsRune(r: Reading, index: MultiSize, stack: DelimiterStack, entities: seq<Entity>, t: Token)
    requires Reads(r, index, stack, entities) && !t.Delim?
    ensures Reads(Read(r, t), index.Add(MultiSize(|t.rune|, UnitsOfSize(|t.rune|))), stack, entities)
    ensures Flat(Read(r, t).runes) == Flat(r.runes) + t.rune
  {
    hide Flat, Units;
    var runes := r.runes + [t.rune];
    FlatAppend(r.runes, [t.rune]);
    FlatOne(t.rune);
    UnitsNext(r.runes, t.rune);
    forall k | 0 <= k <= |r.runes| ensures runes[..k] == r.runes[..k] {
    }
  }

  lemma ReadsOpening(r: Reading, index: MultiSize, stack: DelimiterStack, entities: seq<Entity>, style: Style)
    requires Reads(r, index, stack, entities) && stack[style].None?
    ensures Reads(Read(r, Delim(style)), index, stack[style := Some(index)], entities)
  {
    hide Flat, Units;
    assert r.runes[..|r.runes|] == r.runes;
  }

  lemma ReadsClosing(r: Reading, index: MultiSize, stack: DelimiterStack, entities: seq<Entity>, style: Style)
    requires Reads(r, index, stack, entities) && stack[style].Some?
    ensures stack[style].value.utf16 <= index.utf16
    ensures Reads(Read(r, Delim(style)), index, stack[style := None],
                  entities + [Entity(style, stack[style].value.utf16, index.utf16 - stack[style].value.utf16)])
  {
    hide Flat, Units;
    assert r.runes[..|r.runes|] == r.runes;
    UnitsMonotone(r.runes, r.open[style], |r.runes|);
  }

  class MarkdownEncoding {
    var entities: seq<Entity>
    var text: Bytes
    var delimiterStack: DelimiterStack

    // Between calls nothing is open.
    ghost predicate Valid()
      reads this
    {
      Cleared(delimiterStack)
    }

    constructor ()
      ensures Valid()
    {
      entities, text := [], [];
      delimiterStack := map s: Style | s in STYLES :: None;
      new;
      forall s: Style ensures s in delimiterStack {
        AllStyles(s);
      }
    }

    method InsertStringAt(position: nat, s: Bytes)
      requires position <= |text|
      modifies this`text
      ensures text == old(text)[..position] + s + old(text)[position..]
    {
      text := text[..position] + s + text[position..];
    }

    method RemoveAt(position: nat, size: nat)
      requires position + size <= |text|
      modifies this`text
      ensures text == old(text)[..position] + old(text)[position + size..]
    {
      text := text[..position] + text[position + size..];
    }

    method InitDelimiterStack()
      modifies this`delimiterStack
      ensures Cleared(delimiterStack)
    {
      delimiterStack := map s: Style | s in STYLES :: None;
      forall s: Style ensures s in delimiterStack {
        AllStyles(s);
      }
    }

    method Reset()
      modifies this
      ensures Valid() && text == [] && entities == []
    {
      entities := [];
      text := [];
      InitDelimiterStack();
    }

    // Tries the sizes from the largest delimiter down.
    method FindDelimiter(index: nat) returns (found: Option<Bytes>)
      requires index < |text|
      ensures found == DelimiterAt(text[index..], LARGEST_DELIMITER)
    {
      var size := LARGEST_DELIMITER;
      while size > 0
        invariant 0 <= size <= LARGEST_DELIMITER
        invariant DelimiterAt(text[index..], LARGEST_DELIMITER) == DelimiterAt(text[index..], size)
      {
        var end := if index + size < |text| then index + size else |text|;
        var possibly := text[index..end];
        assert possibly == Prefix(text[index..], size);
        if IsDelimiter(possibly) {
          return Some(possibly);
        }
        size := size - 1;
      }
      return None;
    }

    // A delimiter opens its style, or closes it and yields the entity.
    method Toggle(style: Style, index: MultiSize, ghost r: Reading)
      requires Reads(r, index, delimiterStack, entities)
      modifies this`delimiterStack, this`entities
      ensures Reads(Read(r, Delim(style)), index, delimiterStack, entities)
    {
      hide Reads, Read;
      StackComplete(r, index, delimiterStack, entities, style);
      if delimiterStack[style].None? {
        ReadsOpening(r, index, delimiterStack, entities, style);
        delimiterStack := delimiterStack[style := Some(index)];
      } else {
        ReadsClosing(r, index, delimiterStack, entities, style);
        var start := delimiterStack[style].value;
        entities := entities + [Entity(style, start.utf16, index.utf16 - start.utf16)];
        delimiterStack := delimiterStack[style := None];
      }
    }

    // Reads the source form back: the text without its marks, and one entity per finished span in closing order.
    method Parse(source: Bytes, ghost tokens: seq<Token>) returns (parsed: Bytes, found: seq<Entity>)
      requires Valid() && source == Render(tokens) && Lexable(tokens)
      modifies this
      ensures Valid()
      ensures var r := Replay(tokens);
              && parsed == Flat(r.runes) && |found| == |r.spans|
              && (forall i | 0 <= i < |r.spans| ::
                    && r.spans[i].from <= r.spans[i].to <= |r.runes|
                    && found[i] == EntityOf(r.runes, r.spans[i]))
      ensures ReadsOne(source, parsed, found)
    {
      text, entities := source, [];
      var index := MultiSize(0, 0);
      var isEscaped := false;
      ghost var j := 0;
      assert tokens[..0] == [] && tokens[0..] == tokens;
      while index.utf8 < |text|
        invariant Parsing(tokens, j, isEscaped, text, index, delimiterStack, entities)
        decreases |tokens| - j, if isEscaped then 0 else 1
      {
        hide Parsing, Lexable;
        index, isEscaped, j := Step(index, isEscaped, tokens, j);
      }
      Finished(tokens, j, isEscaped, text, index, delimiterStack, entities);
      parsed, found := text, entities;
      ReadingOne(tokens, parsed, found);
      hide ReadsOne, Replay, Lexable, Render;
      Reset();
    }

    // One round: a rune after an escape, an escape, a delimiter, or a plain rune.
    method Step(index: MultiSize, isEscaped: bool, ghost tokens: seq<Token>, ghost j: nat)
      returns (index': MultiSize, isEscaped': bool, ghost j': nat)
      requires Parsing(tokens, j, isEscaped, text, index, delimiterStack, entities) && Lexable(tokens)
      requires index.utf8 < |text|
      modifies this
      ensures Parsing(tokens, j', isEscaped', text, index', delimiterStack, entities)
      ensures j < |tokens| && if j' == j then !isEscaped && isEscaped' else j' == j + 1
    {
      hide Parsing, Lexable, DelimiterAt, RuneSize, UnitsOfSize, Replay, Render, Reads, Mark, StyleOf, Remaining;
      Front(tokens, j, isEscaped, text, index, delimiterStack, entities);
      if isEscaped {
        AfterEscape(tokens, j, text, index, delimiterStack, entities);
        var size := RuneSize(text[index.utf8..]);
        return index.Add(MultiSize(size, UnitsOfSize(size))), false, j + 1;
      }
      if text[index.utf8] == ESCAPE {
        AtEscape(tokens, j, text, index, delimiterStack, entities);
        RemoveAt(index.utf8, 1);
        return index, true, j;
      }
      var delimiter := FindDelimiter(index.utf8);
      if delimiter.Some? && StyleOf(delimiter.value).Some? {
        ghost var stackWas, entitiesWas := delimiterStack, entities;
        AtDelimiter(tokens, j, text, index, stackWas, entitiesWas);
        Toggle(StyleOf(delimiter.value).value, index, Replay(tokens[..j]));
        RemoveAt(index.utf8, |delimiter.value|);
        return index, false, j + 1;
      }
      AtPlain(tokens, j, text, index, delimiterStack, entities);
      var size := RuneSize(text[index.utf8..]);
      return index.Add(MultiSize(size, UnitsOfSize(size))), false, j + 1;
    }

    method InsertDelimiterAt(position: nat, style: Style)
      requires position <= |text|
      modifies this`text
      ensures text == old(text)[..position] + Mark(style) + old(text)[position..]
    {
      text := text[..position] + Mark(style) + text[position..];
    }

    method CloseIfEnding(style: Style, index: MultiSize, offset: MultiSize, ghost runes: seq<Rune>,
                         ghost spans: seq<Span>, ghost d: Draft)
      returns (index': MultiSize, offset': MultiSize, ghost d': Draft)
      requires Drafting(runes, spans, d, text, index, offset, delimiterStack, entities)
      requires style == Code ==> CodesInGap(d.tokens) <= 1
      modifies this`text, this`delimiterStack
      ensures Drafting(runes, spans, d', text, index', offset', delimiterStack, entities)
      ensures d'.done == d.done && d'.rest == d.rest
      ensures CodesInGap(d'.tokens) <= CodesInGap(d.tokens) + if style == Code then 1 else 0
      ensures forall a | a in d'.active :: a in d.active && (a.style == style ==> a.to > d.done)
    {
      hide Drafting, CodesInGap, Mark, MarkSize;
      DraftFacts(runes, spans, d, text, index, offset, delimiterStack, entities);
      if delimiterStack[style].Some? && index.utf16 - offset.utf16 >= delimiterStack[style].value.utf16 {
        d' := Closing(runes, spans, d, text, index, offset, delimiterStack, entities, style);
        delimiterStack := delimiterStack[style := None];
        InsertDelimiterAt(index.utf8, style);
        return index.Add(MarkSize(style)), offset.Add(MarkSize(style)), d';
      }
      NotClosing(runes, spans, d, text, index, offset, delimiterStack, entities, style);
      return index, offset, d;
    }

    // Ends every style that ends here, in whatever order the styles come.
    method CloseEnding(index: MultiSize, offset: MultiSize, ghost runes: seq<Rune>, ghost spans: seq<Span>,
                       ghost d: Draft)
      returns (index': MultiSize, offset': MultiSize, ghost d': Draft)
      requires Drafting(runes, spans, d, text, index, offset, delimiterStack, entities)
      requires CodesInGap(d.tokens) == 0
      modifies this`text, this`delimiterStack
      ensures Drafting(runes, spans, d', text, index', offset', delimiterStack, entities)
      ensures d'.done == d.done && d'.rest == d.rest && CodesInGap(d'.tokens) <= 1
      ensures forall a | a in d'.active :: a.to > d.done
    {
      hide Drafting, CodesInGap;
      index', offset', d' := index, offset, d;
      var unseen := STYLES;
      forall s: Style ensures s in unseen {
        AllStyles(s);
      }
      while unseen != {}
        invariant Drafting(runes, spans, d', text, index', offset', delimiterStack, entities)
        invariant d'.done == d.done && d'.rest == d.rest
        invariant CodesInGap(d'.tokens) <= if Code in unseen then 0 else 1
        invariant forall a | a in d'.active :: a.style in unseen || a.to > d.done
      {
        var style :| style in unseen;
        unseen := unseen - {style};
        index', offset', d' := CloseIfEnding(style, index', offset', runes, spans, d');
      }
    }

    // Begins every entity that starts here.
    method OpenStarting(index: MultiSize, offset: MultiSize, ghost runes: seq<Rune>, ghost spans: seq<Span>,
                        ghost d: Draft)
      returns (index': MultiSize, offset': MultiSize, ghost d': Draft)
      requires Drafting(runes, spans, d, text, index, offset, delimiterStack, entities)
      requires CodesInGap(d.tokens) <= 1 && forall a | a in d.active :: a.to > d.done
      modifies this`text, this`delimiterStack, this`entities
      ensures Drafting(runes, spans, d', text, index', offset', delimiterStack, entities)
      ensures d'.done == d.done && forall a | a in d'.active :: a.to > d.done
      ensures d'.rest != [] ==> d'.rest[0].from > d.done
    {
      hide Drafting, CodesInGap;
      index', offset', d' := index, offset, d;
      StartsHere(runes, spans, d', text, index', offset', delimiterStack, entities);
      while entities != []
        invariant Drafting(runes, spans, d', text, index', offset', delimiterStack, entities)
        invariant d'.done == d.done && forall a | a in d'.active :: a.to > d.done
        invariant Code !in Replay(d'.tokens).open ==> CodesInGap(d'.tokens) <= 1
        invariant entities == [] ==> d'.rest == []
      {
        var entity := entities[0];
        StartsHere(runes, spans, d', text, index', offset', delimiterStack, entities);
        DraftFacts(runes, spans, d', text, index', offset', delimiterStack, entities);
        if entity.offset != index'.utf16 - offset'.utf16 {
          break;
        }
        d' := Opening(runes, spans, d', text, index', offset', delimiterStack, entities);
        var end := MultiSize(0, index'.utf16 - offset'.utf16 + entity.length);
        entities := entities[1..];
        InsertDelimiterAt(index'.utf8, entity.style);
        offset' := offset'.Add(MarkSize(entity.style));
        index' := index'.Add(MarkSize(entity.style));
        delimiterStack := delimiterStack[entity.style := Some(end)];
        StartsHere(runes, spans, d', text, index', offset', delimiterStack, entities);
      }
    }

    // Writes the rune at the position, with an escape in front of a special one.
    method WriteRune(index: MultiSize, offset: MultiSize, ghost runes: seq<Rune>, ghost spans: seq<Span>,
                     ghost d: Draft)
      returns (index': MultiSize, offset': MultiSize, ghost d': Draft)
      requires Drafting(runes, spans, d, text, index, offset, delimiterStack, entities) && d.done < |runes|
      requires (forall a | a in d.active :: a.to > d.done) && (d.rest != [] ==> d.rest[0].from > d.done)
      modifies this`text
      ensures Drafting(runes, spans, d', text, index', offset', delimiterStack, entities)
      ensures d'.done == d.done + 1 && CodesInGap(d'.tokens) == 0
    {
      d' := Writes(runes, spans, d, text, index, offset, delimiterStack, entities);
      hide Drafting, CodesInGap, RuneSize, UnitsOfSize, Prefix;
      index', offset' := index, offset;
      var size := RuneSize(text[index.utf8..]);
      if SpecialRune(Prefix(text[index.utf8..], size)) {
        InsertStringAt(index.utf8, [ESCAPE]);
        offset' := offset'.Add(MultiSize(1, 1));
        index' := index'.Add(MultiSize(1, 1));
      }
      index' := index'.Add(MultiSize(size, UnitsOfSize(size)));
    }

    // Appends the marks still open, in whatever order the styles come.
    method CloseRemaining(ghost runes: seq<Rune>, ghost spans: seq<Span>, ghost d: Draft)
      returns (ghost tokens: seq<Token>)
      requires Ending(runes, spans, d.tokens, d.active, delimiterStack, STYLES) && text == Render(d.tokens)
      modifies this`text
      ensures text == Render(tokens) && Lexable(tokens) && EscapesOnlySpecial(tokens)
      ensures Replay(tokens).runes == runes && Replay(tokens).open == map[]
      ensures multiset(Replay(tokens).spans) == multiset(spans)
      ensures spans == [] ==> tokens == Escaping(runes)
    {
      hide Render, Lexable, Replay, EscapesOnlySpecial, Escaping;
      tokens := d.tokens;
      ghost var active := d.active;
      var unseen := STYLES;
      while unseen != {}
        invariant Ending(runes, spans, tokens, active, delimiterStack, unseen) && text == Render(tokens)
      {
        var style :| style in unseen;
        if delimiterStack[style].Some? {
          active := EndsOpen(runes, spans, tokens, active, delimiterStack, unseen, style);
          RenderNext(tokens, Delim(style));
          text := text + Mark(style);
          tokens := tokens + [Delim(style)];
        } else {
          EndsClosed(runes, spans, tokens, active, delimiterStack, unseen, style);
        }
        unseen := unseen - {style};
      }
      AllEnded(runes, spans, tokens, active, delimiterStack);
    }

    // Sorts by offset; which of two entities at one offset comes first is left open.
    method SortByOffset(ghost runes: seq<Rune>, ghost spans: seq<Span>) returns (ghost order: seq<Span>)
      requires Within(runes, spans) && entities == EntitiesOf(runes, spans)
      modifies this`entities
      ensures multiset(order) == multiset(spans) && SortedByStart(order)
      ensures Within(runes, order) && entities == EntitiesOf(runes, order)
    {
      var sorted := [];
      order := [];
      for n := 0 to |entities|
        invariant entities == old(entities)
        invariant multiset(order) == multiset(spans[..n]) && SortedByStart(order)
        invariant Within(runes, order) && sorted == EntitiesOf(runes, order)
      {
        hide Within, SortedByStart, EntitiesOf;
        var p := PlaceFor(sorted, entities[n], runes, order, spans, n);
        InsertedInOrder(runes, order, p, spans[n]);
        assert spans[..n + 1] == spans[..n] + [spans[n]];
        sorted := sorted[..p] + [entities[n]] + sorted[p..];
        order := order[..p] + [spans[n]] + order[p..];
      }
      assert spans[..|spans|] == spans;
      entities := sorted;
    }

    // Writes styled text: every special rune escaped, the marks of every entity where it starts and ends.
    method Unparse(source: Bytes, given: seq<Entity>, ghost runes: seq<Rune>, ghost spans: seq<Span>)
      returns (out: Bytes, ghost tokens: seq<Token>)
      requires Valid() && source == Flat(runes) && Formatted(runes, spans) && given == EntitiesOf(runes, spans)
      modifies this
      ensures Valid() && out == Render(tokens) && Lexable(tokens) && EscapesOnlySpecial(tokens)
      ensures Replay(tokens).runes == runes && Replay(tokens).open == map[]
      ensures multiset(Replay(tokens).spans) == multiset(spans)
      ensures spans == [] ==> tokens == Escaping(runes)
      ensures WritesOne(runes, given, out)
    {
      text, entities := source, given;
      ghost var order := SortByOffset(runes, spans);
      InitDelimiterStack();
      Starting(runes, spans, order, delimiterStack, entities);
      hide Drafting, Formatted, Flat, Render, Lexable, Replay, EscapesOnlySpecial, Escaping, EntitiesOf, Within,
           SortedByStart;
      var offset, index := MultiSize(0, 0), MultiSize(0, 0);
      ghost var d := Draft([], 0, [], order);
      MoreToCome(runes, spans, d, text, index, offset, delimiterStack, entities);
      while index.utf8 < |text|
        invariant Drafting(runes, spans, d, text, index, offset, delimiterStack, entities)
        invariant d.done <= |runes| && (index.utf8 < |text| <==> d.done < |runes|)
        invariant CodesInGap(d.tokens) == 0
        decreases |runes| - d.done
      {
        hide CodesInGap;
        index, offset, d := CloseEnding(index, offset, runes, spans, d);
        index, offset, d := OpenStarting(index, offset, runes, spans, d);
        index, offset, d := WriteRune(index, offset, runes, spans, d);
        MoreToCome(runes, spans, d, text, index, offset, delimiterStack, entities);
      }
      MoreToCome(runes, spans, d, text, index, offset, delimiterStack, entities);
      AtEnd(runes, spans, d, text, index, offset, delimiterStack, entities);
      tokens := CloseRemaining(runes, spans, d);
      out := text;
      hide WritesOne;
      WritingOne(runes, spans, given, tokens);
      Reset();
    }

    // What is written is read back: the same text and the same entities.
    method UnparseThenParse(source: Bytes, given: seq<Entity>, ghost runes: seq<Rune>, ghost spans: seq<Span>)
      returns (parsed: Bytes, found: seq<Entity>)
      requires Valid() && source == Flat(runes) && Formatted(runes, spans) && given == EntitiesOf(runes, spans)
      modifies this
      ensures Valid() && parsed == source && multiset(found) == multiset(given)
    {
      var out; ghost var tokens;
      out, tokens := Unparse(source, given, runes, spans);
      hide ReadsOne, WritesOne, Flat, Replay, Render, Lexable, EscapesOnlySpecial, Escaping;
      parsed, found := Parse(out, tokens);
      ghost var read := Replay(tokens).spans;
      SameEntities(runes, spans, read);
      assert found == EntitiesOf(runes, read);
    }
  }

  // The source is read up to token `j`, whose escape is already taken off when `escaped` holds.
  ghost predicate Parsing(tokens: seq<Token>, j: nat, escaped: bool, text: Bytes, index: MultiSize,
                          stack: DelimiterStack, entities: seq<Entity>)
  {
    && j <= |tokens| && (escaped ==> j < |tokens| && tokens[j].Escaped?)
    && Reads(Replay(tokens[..j]), index, stack, entities)
    && text == Flat(Replay(tokens[..j]).runes) + Remaining(tokens, j, escaped)
  }

  // The source from a token on, with its escape already taken off if it has one.
  function Remaining(tokens: seq<Token>, j: nat, escaped: bool): Bytes
    requires j <= |tokens| && (escaped ==> j < |tokens| && tokens[j].Escaped?)
  {
    if escaped then tokens[j].rune + Render(tokens[j + 1..]) else Render(tokens[j..])
  }

  lemma RemainingNext(tokens: seq<Token>, j: nat)
    requires j < |tokens|
    ensures Remaining(tokens, j, false) == TokenBytes(tokens[j]) + Remaining(tokens, j + 1, false)
    ensures Replay(tokens[..j + 1]) == Read(Replay(tokens[..j]), tokens[j])
  {
    assert tokens[j..][1..] == tokens[j + 1..];
    assert tokens[..j + 1][..j] == tokens[..j];
  }

  // At the position stands the first byte of the current token.
  lemma Front(tokens: seq<Token>, j: nat, escaped: bool, text: Bytes, index: MultiSize, stack: DelimiterStack,
              entities: seq<Entity>)
    requires Parsing(tokens, j, escaped, text, index, stack, entities) && Lexable(tokens) && index.utf8 < |text|
    ensures j < |tokens|
    ensures !escaped ==>
              && (text[index.utf8] == ESCAPE <==> tokens[j].Escaped?)
              && DelimiterAt(text[index.utf8..], LARGEST_DELIMITER) ==
                 match tokens[j]
                 case Delim(style) => Some(Mark(style))
                 case Plain(_) => None
                 case Escaped(_) => DelimiterAt(text[index.utf8..], LARGEST_DELIMITER)
    ensures !escaped && tokens[j].Delim? ==> StyleOf(Mark(tokens[j].style)) == Some(tokens[j].style)
  {
    hide Lexable, DelimiterAt, Replay, Flat, Units;
    var rest := Remaining(tokens, j, escaped);
    assert text[index.utf8..] == rest;
    if !escaped {
      FirstByte(tokens, j);
      LexableAt(tokens, j);
      FrontByte(tokens[j]);
      if tokens[j].Delim? {
        DelimiterIsFound(tokens, j);
        MarkIsDelimiter(tokens[j].style);
      } else if tokens[j].Plain? {
        NoDelimiterAt(rest, LARGEST_DELIMITER);
      }
    }
  }

  lemma FrontByte(t: Token)
    requires t.Plain? ==> !SpecialRune(t.rune)
    ensures TokenBytes(t)[0] == ESCAPE <==> t.Escaped?
    ensures t.Plain? ==> !Special(TokenBytes(t)[0])
  {
  }

  lemma AfterEscape(tokens: seq<Token>, j: nat, text: Bytes, index: MultiSize, stack: DelimiterStack,
                    entities: seq<Entity>)
    requires Parsing(tokens, j, true, text, index, stack, entities)
    ensures index.utf8 < |text|
    ensures var size := RuneSize(text[index.utf8..]);
            Parsing(tokens, j + 1, false, text, index.Add(MultiSize(size, UnitsOfSize(size))), stack, entities)
  {
    hide Replay, Flat, Units, Reads, Read, Render, RuneSize, UnitsOfSize;
    var r := Replay(tokens[..j]);
    PositionIs(r, index, stack, entities);
    RemainingNext(tokens, j);
    RuneAtFront(tokens[j].rune, Render(tokens[j + 1..]));
    RuneBetween(Flat(r.runes), tokens[j].rune, Render(tokens[j + 1..]), text);
    ReadsRune(r, index, stack, entities, tokens[j]);
  }

  lemma RuneAtFront(rune: Rune, more: Bytes)
    ensures RuneSize(rune + more) == |rune|
  {
  }

  lemma AtEscape(tokens: seq<Token>, j: nat, text: Bytes, index: MultiSize, stack: DelimiterStack,
                 entities: seq<Entity>)
    requires Parsing(tokens, j, false, text, index, stack, entities) && j < |tokens| && tokens[j].Escaped?
    ensures index.utf8 + 1 <= |text|
    ensures Parsing(tokens, j, true, text[..index.utf8] + text[index.utf8 + 1..], index, stack, entities)
  {
    hide Replay, Flat, Units, Reads, Render;
    var r := Replay(tokens[..j]);
    PositionIs(r, index, stack, entities);
    RemainingNext(tokens, j);
    assert text == Flat(r.runes) + [ESCAPE] + (tokens[j].rune + Render(tokens[j + 1..]));
  }

  lemma AtDelimiter(tokens: seq<Token>, j: nat, text: Bytes, index: MultiSize, stack: DelimiterStack,
                    entities: seq<Entity>)
    requires Parsing(tokens, j, false, text, index, stack, entities) && j < |tokens| && tokens[j].Delim?
    ensures Reads(Replay(tokens[..j]), index, stack, entities)
    ensures var size := |Mark(tokens[j].style)|;
            && index.utf8 + size <= |text|
            && forall stack', entities' | Reads(Read(Replay(tokens[..j]), tokens[j]), index, stack', entities') ::
                 Parsing(tokens, j + 1, false, text[..index.utf8] + text[index.utf8 + size..], index, stack', entities')
  {
    hide Replay, Flat, Units, Reads, Render, Mark;
    var r, mark := Replay(tokens[..j]), Mark(tokens[j].style);
    PositionIs(r, index, stack, entities);
    RemainingNext(tokens, j);
    assert text == Flat(r.runes) + mark + Remaining(tokens, j + 1, false);
    assert text[..index.utf8] + text[index.utf8 + |mark|..] == Flat(r.runes) + Remaining(tokens, j + 1, false);
  }

  lemma AtPlain(tokens: seq<Token>, j: nat, text: Bytes, index: MultiSize, stack: DelimiterStack,
                entities: seq<Entity>)
    requires Parsing(tokens, j, false, text, index, stack, entities) && j < |tokens| && tokens[j].Plain?
    ensures index.utf8 < |text|
    ensures var size := RuneSize(text[index.utf8..]);
            Parsing(tokens, j + 1, false, text, index.Add(MultiSize(size, UnitsOfSize(size))), stack, entities)
  {
    hide Replay, Flat, Units, Reads, Read, Render, RuneSize, UnitsOfSize;
    var r := Replay(tokens[..j]);
    PositionIs(r, index, stack, entities);
    RemainingNext(tokens, j);
    RuneAtFront(tokens[j].rune, Render(tokens[j + 1..]));
    RuneBetween(Flat(r.runes), tokens[j].rune, Render(tokens[j + 1..]), text);
    ReadsRune(r, index, stack, entities, tokens[j]);
  }

  lemma StackComplete(r: Reading, index: MultiSize, stack: DelimiterStack, entities: seq<Entity>, style: Style)
    requires Reads(r, index, stack, entities)
    ensures style in stack
  {
  }

  lemma PositionIs(r: Reading, index: MultiSize, stack: DelimiterStack, entities: seq<Entity>)
    requires Reads(r, index, stack, entities)
    ensures index.utf8 == |Flat(r.runes)|
  {
  }

  lemma Finished(tokens: seq<Token>, j: nat, escaped: bool, text: Bytes, index: MultiSize, stack: DelimiterStack,
                 entities: seq<Entity>)
    requires Parsing(tokens, j, escaped, text, index, stack, entities) && index.utf8 >= |text|
    ensures text == Flat(Replay(tokens).runes) && Reads(Replay(tokens), index, stack, entities)
  {
    hide Replay, Flat, Units;
    assert Remaining(tokens, j, escaped) == [];
    assert j < |tokens| ==> TokenBytes(tokens[j]) != [];
    if j < |tokens| {
      RemainingNext(tokens, j);
    }
    assert tokens[..|tokens|] == tokens;
  }
}
