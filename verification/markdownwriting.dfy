/**
 * How styled text is written: the delimiters between two runes, the closing ones first, and what that leaves to write.
 */
module MarkdownWriting {
  import opened Wrappers
  import opened ProtocolTypes
  import opened MarkdownText

  // Spans of one style do not overlap.
  ghost predicate Apart(spans: seq<Span>) {
    forall i, j | 0 <= i < j < |spans| && spans[i].style == spans[j].style ::
      spans[i].to <= spans[j].from || spans[j].to <= spans[i].from
  }

  // Styled text that has a source form.
  ghost predicate Formatted(runes: seq<Rune>, spans: seq<Span>) {
    Within(runes, spans) && Apart(spans)
  }

  ghost predicate SortedByStart(spans: seq<Span>) {
    forall i, j | 0 <= i < j < |spans| :: spans[i].from <= spans[j].from
  }

  ghost predicate StylesDiffer(active: seq<Span>) {
    forall i, j | 0 <= i < j < |active| :: active[i].style != active[j].style
  }

  ghost predicate OpenAre(open: map<Style, nat>, active: seq<Span>) {
    && (forall s | s in active :: s.style in open && open[s.style] == s.from)
    && (forall style | style in open :: exists s :: s in active && s.style == style)
  }

  // Only special runes are escaped.
  predicate EscapesOnlySpecial(tokens: seq<Token>) {
    forall t | t in tokens :: t.Escaped? ==> SpecialRune(t.rune)
  }

  lemma EscapesNext(tokens: seq<Token>, t: Token)
    requires EscapesOnlySpecial(tokens) && (t.Escaped? ==> SpecialRune(t.rune))
    ensures EscapesOnlySpecial(tokens + [t])
  {
  }

  // The first `i` runes are written with these tokens; `active` are the spans begun and not ended, `rest` those not
  // begun.
  ghost predicate Progress(runes: seq<Rune>, spans: seq<Span>, tokens: seq<Token>, i: nat, active: seq<Span>,
                           rest: seq<Span>)
  {
    && i <= |runes| && Lexable(tokens) && EscapesOnlySpecial(tokens)
    && Replay(tokens).runes == runes[..i]
    && OpenAre(Replay(tokens).open, active)
    && StylesDiffer(active) && SortedByStart(rest) && Apart(active + rest)
    && multiset(spans) == multiset(Replay(tokens).spans) + multiset(active) + multiset(rest)
    && (forall s | s in active :: s.from <= i <= s.to && s.from < s.to <= |runes|)
    && (forall s | s in rest :: i <= s.from < s.to <= |runes|)
  }

  function Without(spans: seq<Span>, k: nat): seq<Span>
    requires k < |spans|
  {
    spans[..k] + spans[k + 1..]
  }

  lemma WithoutOne(a: seq<Span>, x: Span, b: seq<Span>)
    ensures multiset(a + [x] + b) == multiset(a + b) + multiset{x}
    ensures forall s | s in a + b :: s in a + [x] + b
  {
  }

  lemma WithoutIs(spans: seq<Span>, k: nat)
    requires k < |spans|
    ensures multiset(spans) == multiset(Without(spans, k)) + multiset{spans[k]}
    ensures forall s | s in Without(spans, k) :: s in spans
  {
    assert spans == spans[..k] + [spans[k]] + spans[k + 1..];
    WithoutOne(spans[..k], spans[k], spans[k + 1..]);
  }

  lemma ApartWithout(active: seq<Span>, rest: seq<Span>, k: nat)
    requires k < |active| && Apart(active + rest)
    ensures Apart(Without(active, k) + rest)
  {
    var all, fewer := active + rest, Without(active, k) + rest;
    assert forall j | 0 <= j < |fewer| :: fewer[j] == all[if j < k then j else j + 1];
  }

  lemma OpenWithout(open: map<Style, nat>, active: seq<Span>, k: nat)
    requires OpenAre(open, active) && StylesDiffer(active) && k < |active|
    ensures OpenAre(open - {active[k].style}, Without(active, k)) && StylesDiffer(Without(active, k))
  {
    DifferWithout(active, k);
    hide Without, StylesDiffer;
    forall style | style in open && style != active[k].style
      ensures exists s :: s in Without(active, k) && s.style == style
    {
      var s :| s in active && s.style == style;
      assert s in Without(active, k);
    }
  }

  lemma DifferWithout(active: seq<Span>, k: nat)
    requires StylesDiffer(active) && k < |active|
    ensures StylesDiffer(Without(active, k))
    ensures forall s :: s in Without(active, k) <==> s in active && s.style != active[k].style
  {
    assert active == active[..k] + [active[k]] + active[k + 1..];
    DifferMiddle(active[..k], active[k], active[k + 1..]);
  }

  lemma DifferMiddle(a: seq<Span>, x: Span, b: seq<Span>)
    requires StylesDiffer(a + [x] + b)
    ensures StylesDiffer(a + b)
    ensures forall s :: s in a + b <==> s in a + [x] + b && s.style != x.style
  {
    var all, fewer := a + [x] + b, a + b;
    assert all[|a|] == x;
    assert forall j | 0 <= j < |a| :: all[j] == a[j] == fewer[j];
    forall j | 0 <= j < |b| ensures b[j] == all[|a| + 1 + j] == fewer[|a| + j] && b[j].style != x.style {
    }
    forall s | s in all && s.style != x.style ensures s in fewer {
    }
  }

  lemma LexableNext(tokens: seq<Token>, t: Token)
    requires Lexable(tokens)
    requires t == Delim(Code) ==> CodesInGap(tokens) <= 1
    requires t.Plain? ==> !SpecialRune(t.rune)
    ensures Lexable(tokens + [t])
    ensures CodesInGap(tokens + [t]) ==
            if !t.Delim? then 0 else CodesInGap(tokens) + if t.style == Code then 1 else 0
  {
    assert (tokens + [t])[..|tokens|] == tokens;
    if tokens != [] {
      assert CodesInGap(tokens) <= 2;
    }
  }

  // Ending a span whose end is here.
  lemma CloseStep(runes: seq<Rune>, spans: seq<Span>, tokens: seq<Token>, i: nat, active: seq<Span>, rest: seq<Span>,
                  k: nat)
    requires Progress(runes, spans, tokens, i, active, rest)
    requires k < |active| && active[k].to == i
    requires active[k].style == Code ==> CodesInGap(tokens) <= 1
    ensures Progress(runes, spans, tokens + [Delim(active[k].style)], i, Without(active, k), rest)
  {
    hide Lexable, EscapesOnlySpecial, Replay, OpenAre, StylesDiffer, Apart;
    var r, t := Replay(tokens), Delim(active[k].style);
    assert active[k].style in r.open && r.open[active[k].style] == active[k].from by { OpenHas(r.open, active, k); }
    ReplayNext(tokens, t);
    LexableNext(tokens, t);
    EscapesNext(tokens, t);
    WithoutIs(active, k);
    ApartWithout(active, rest, k);
    OpenWithout(r.open, active, k);
    assert |runes[..i]| == i;
  }

  lemma OpenHas(open: map<Style, nat>, active: seq<Span>, k: nat)
    requires OpenAre(open, active) && k < |active|
    ensures active[k].style in open && open[active[k].style] == active[k].from
  {
  }

  // Beginning the next span, whose start is here.
  lemma OpenStep(runes: seq<Rune>, spans: seq<Span>, tokens: seq<Token>, i: nat, active: seq<Span>, x: Span,
                 more: seq<Span>)
    requires Progress(runes, spans, tokens, i, active, [x] + more)
    requires x.from == i && forall s | s in active :: s.to > i
    requires x.style == Code && Code !in Replay(tokens).open ==> CodesInGap(tokens) <= 1
    ensures x.style !in Replay(tokens).open
    ensures Progress(runes, spans, tokens + [Delim(x.style)], i, active + [x], more)
  {
    hide Lexable, EscapesOnlySpecial, Replay, OpenAre, StylesDiffer, Apart, SortedByStart;
    var r, t := Replay(tokens), Delim(x.style);
    assert x in [x] + more;
    NoneAlike(active, x, more, i);
    OpenAlso(r.open, active, x, i);
    ReplayNext(tokens, t);
    LexableNext(tokens, t);
    EscapesNext(tokens, t);
    SortedTail(x, more);
    MovedOver(active, x, more);
    BegunOrNot(active, x, more);
  }

  lemma BegunOrNot(active: seq<Span>, x: Span, more: seq<Span>)
    ensures forall s | s in active + [x] :: s in active || s == x
    ensures forall s | s in more :: s in [x] + more
  {
  }

  lemma MovedOver(active: seq<Span>, x: Span, more: seq<Span>)
    ensures active + [x] + more == active + ([x] + more)
    ensures multiset(active + [x]) + multiset(more) == multiset(active) + multiset([x] + more)
  {
  }

  lemma SortedTail(x: Span, more: seq<Span>)
    requires SortedByStart([x] + more)
    ensures SortedByStart(more)
  {
    var all := [x] + more;
    assert forall i | 0 <= i < |more| :: more[i] == all[i + 1];
  }

  lemma NoneAlike(active: seq<Span>, x: Span, more: seq<Span>, i: nat)
    requires Apart(active + ([x] + more)) && x.from == i < x.to
    requires forall s | s in active :: s.from <= i < s.to
    ensures forall s | s in active :: s.style != x.style
  {
    var all := active + ([x] + more);
    assert all[|active|] == x;
    forall k | 0 <= k < |active| ensures active[k].style != x.style {
      assert all[k] == active[k] && active[k] in active;
    }
  }

  lemma OpenAlso(open: map<Style, nat>, active: seq<Span>, s: Span, i: nat)
    requires OpenAre(open, active) && StylesDiffer(active) && s.from == i
    requires forall a | a in active :: a.style != s.style
    ensures s.style !in open
    ensures OpenAre(open[s.style := i], active + [s]) && StylesDiffer(active + [s])
  {
    var more, grown := active + [s], open[s.style := i];
    assert s in more;
    forall style | style in grown ensures exists a :: a in more && a.style == style {
      if style != s.style {
        var a :| a in active && a.style == style;
        assert a in more;
      }
    }
    forall j | 0 <= j < |active| ensures active[j] in active && more[j] == active[j] {
    }
  }

  // Writing the next rune, once nothing more ends or begins in front of it.
  lemma RuneStep(runes: seq<Rune>, spans: seq<Span>, tokens: seq<Token>, i: nat, active: seq<Span>, rest: seq<Span>,
                 t: Token)
    requires Progress(runes, spans, tokens, i, active, rest) && i < |runes|
    requires (forall s | s in active :: s.to > i) && (forall s | s in rest :: s.from > i)
    requires !t.Delim? && t.rune == runes[i] && (t.Escaped? <==> SpecialRune(t.rune))
    ensures Progress(runes, spans, tokens + [t], i + 1, active, rest) && CodesInGap(tokens + [t]) == 0
  {
    hide Lexable, EscapesOnlySpecial, Replay, OpenAre, StylesDiffer, Apart;
    ReplayNext(tokens, t);
    LexableNext(tokens, t);
    EscapesNext(tokens, t);
    assert runes[..i + 1] == runes[..i] + [runes[i]];
  }

  lemma StartWriting(runes: seq<Rune>, spans: seq<Span>, order: seq<Span>)
    requires Formatted(runes, spans) && SortedByStart(order) && multiset(order) == multiset(spans)
    ensures Progress(runes, spans, [], 0, [], order)
  {
    ApartShuffled(spans, order);
    assert [] + order == order;
    forall s | s in order ensures s in spans {
      assert s in multiset(order);
    }
    assert runes[..0] == [];
  }

  // Keeping apart does not depend on the order.
  lemma ApartShuffled(spans: seq<Span>, order: seq<Span>)
    requires Apart(spans) && multiset(order) == multiset(spans) && forall s | s in spans :: s.from < s.to
    ensures Apart(order)
  {
    forall i, j | 0 <= i < j < |order| && order[i].style == order[j].style
      ensures order[i].to <= order[j].from || order[j].to <= order[i].from
    {
      var a, b := order[i], order[j];
      TwoOf(order, i, j);
      assert a in multiset(spans) && b in multiset(spans);
      NoTwins(spans, a);
      var p :| 0 <= p < |spans| && spans[p] == a;
      var q :| 0 <= q < |spans| && spans[q] == b;
    }
  }

  lemma NoTwins(spans: seq<Span>, a: Span)
    requires Apart(spans) && forall s | s in spans :: s.from < s.to
    ensures multiset(spans)[a] <= 1
  {
    if multiset(spans)[a] >= 2 {
      assert a in multiset(spans);
      var p :| 0 <= p < |spans| && spans[p] == a;
      var q := SecondOf(spans, p);
    }
  }

  lemma TwoOf(s: seq<Span>, i: nat, j: nat)
    requires i < j < |s|
    ensures s[i] in multiset(s) && s[j] in multiset(s)
    ensures s[i] == s[j] ==> multiset(s)[s[i]] >= 2
  {
    assert s == s[..i] + [s[i]] + s[i + 1..j] + [s[j]] + s[j + 1..];
    assert multiset(s) ==
           multiset(s[..i]) + multiset{s[i]} + multiset(s[i + 1..j]) + multiset{s[j]} + multiset(s[j + 1..]);
  }

  lemma SecondOf(s: seq<Span>, p: nat) returns (q: nat)
    requires p < |s| && multiset(s)[s[p]] >= 2
    ensures q < |s| && q != p && s[q] == s[p]
  {
    assert s == s[..p] + [s[p]] + s[p + 1..];
    var others := s[..p] + s[p + 1..];
    assert multiset(s) == multiset(others) + multiset{s[p]};
    assert s[p] in multiset(others);
    var k :| 0 <= k < |others| && others[k] == s[p];
    q := if k < p then k else k + 1;
  }

  // A piece put in at the position between the written tokens and the text still to come.
  lemma PutIn(tokens: seq<Token>, t: Token, piece: Bytes, text: Bytes, after: Bytes, after': Bytes)
    requires text == Render(tokens) + after && piece + after == TokenBytes(t) + after'
    ensures text[..|Render(tokens)|] + piece + text[|Render(tokens)|..] == Render(tokens + [t]) + after'
    ensures |Render(tokens + [t])| == |Render(tokens)| + |TokenBytes(t)|
  {
    RenderNext(tokens, t);
    hide Render, TokenBytes;
    var before := Render(tokens);
    assert text[..|before|] == before && text[|before|..] == after;
    assert before + piece + after == before + (piece + after);
    assert before + TokenBytes(t) + after' == before + (TokenBytes(t) + after');
  }

  // The rune at a position.
  lemma RuneAt(runes: seq<Rune>, i: nat)
    requires i < |runes|
    ensures var coming := Flat(runes[i..]);
            && coming != [] && RuneSize(coming) == |runes[i]| && Prefix(coming, |runes[i]|) == runes[i]
            && coming == runes[i] + Flat(runes[i + 1..])
    ensures Units(runes[..i + 1]) == Units(runes[..i]) + UnitsOfSize(|runes[i]|)
  {
    assert runes[i..] == [runes[i]] + runes[i + 1..];
    FlatFirst(runes[i], runes[i + 1..]);
    assert runes[..i + 1] == runes[..i] + [runes[i]];
    UnitsNext(runes[..i], runes[i]);
  }

  // The stack knows where each begun style ends.
  ghost predicate EndsAre(runes: seq<Rune>, active: seq<Span>, stack: map<Style, Option<MultiSize>>) {
    && (forall s: Style :: s in stack)
    && (forall a | a in active ::
          a.to <= |runes| && stack[a.style].Some? && stack[a.style].value.utf16 == Units(runes[..a.to]))
    && (forall s: Style | stack[s].Some? :: exists a :: a in active && a.style == s)
  }

  // The span on the stack under a style, and whether it ends here.
  lemma EndingIndex(runes: seq<Rune>, active: seq<Span>, stack: map<Style, Option<MultiSize>>, style: Style, i: nat)
    returns (k: nat)
    requires EndsAre(runes, active, stack) && i <= |runes| && stack[style].Some?
    requires forall a | a in active :: i <= a.to
    ensures k < |active| && active[k].style == style
    ensures Units(runes[..i]) >= stack[style].value.utf16 <==> active[k].to == i
  {
    var a :| a in active && a.style == style;
    k :| 0 <= k < |active| && active[k] == a;
    UnitsMonotone(runes, i, a.to);
  }

  lemma EndsWithout(runes: seq<Rune>, active: seq<Span>, stack: map<Style, Option<MultiSize>>, k: nat)
    requires EndsAre(runes, active, stack) && StylesDiffer(active) && k < |active|
    ensures EndsAre(runes, Without(active, k), stack[active[k].style := None])
    ensures forall s :: s in Without(active, k) <==> s in active && s.style != active[k].style
  {
    DifferWithout(active, k);
    hide Without, StylesDiffer, Units;
    var fewer, left := Without(active, k), stack[active[k].style := None];
    forall s: Style | left[s].Some? ensures exists a :: a in fewer && a.style == s {
      var a :| a in active && a.style == s;
      assert a in fewer;
    }
  }

  lemma EndsAlso(runes: seq<Rune>, active: seq<Span>, stack: map<Style, Option<MultiSize>>, x: Span, end: MultiSize)
    requires EndsAre(runes, active, stack) && x.to <= |runes| && end.utf16 == Units(runes[..x.to])
    requires forall a | a in active :: a.style != x.style
    ensures EndsAre(runes, active + [x], stack[x.style := Some(end)])
  {
    hide Units;
    var more, grown := active + [x], stack[x.style := Some(end)];
    assert x in more;
    forall s: Style | grown[s].Some? ensures exists a :: a in more && a.style == s {
      if s != x.style {
        var a :| a in active && a.style == s;
        assert a in more;
      }
    }
  }

  // How text without entities is written.
  function Escaping(runes: seq<Rune>): seq<Token> {
    seq(|runes|, i requires 0 <= i < |runes| => if SpecialRune(runes[i]) then Escaped(runes[i]) else Plain(runes[i]))
  }

  // A reading in which no style ever opened saw no delimiter.
  lemma {:induction false} NoMarks(tokens: seq<Token>)
    requires Replay(tokens).open == map[] && Replay(tokens).spans == []
    requires Lexable(tokens) && EscapesOnlySpecial(tokens)
    ensures tokens == Escaping(Replay(tokens).runes)
  {
    if tokens != [] {
      var n := |tokens| - 1;
      assert tokens == tokens[..n] + [tokens[n]];
      NoMarks(tokens[..n]);
    }
  }

  // Once all is written, reading the tokens gives the text and the spans back.
  lemma Written(runes: seq<Rune>, spans: seq<Span>, tokens: seq<Token>)
    requires Progress(runes, spans, tokens, |runes|, [], [])
    ensures Replay(tokens).runes == runes && Replay(tokens).open == map[]
    ensures multiset(Replay(tokens).spans) == multiset(spans)
    ensures spans == [] ==> tokens == Escaping(runes)
  {
    assert runes[..|runes|] == runes;
    assert multiset(Replay(tokens).spans) == multiset(spans);
    if spans == [] {
      assert |multiset(Replay(tokens).spans)| == 0;
      NoMarks(tokens);
    }
  }
}
