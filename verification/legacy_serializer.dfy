/** Writing a component tree as a legacy-format string.

    The tree is walked depth first. Every node resolves its style against
    the one it inherits; format codes are written only in front of
    non-empty content, and only to move from the style last written to the
    style that content needs. A colour change writes the colour code
    followed by every decoration in force (a colour code clears
    decorations); a change to no colour writes the reset code followed by
    the decorations; turning a decoration off, which no code does by
    itself, is done the same way. Otherwise only the decorations that are
    new are written. */
module LegacySerializer {
  import opened Optional
  import opened Colours
  import opened Styles
  import opened Text
  import opened LegacyCodes
  import opened LegacyLexer
  import opened LegacyDeserializer

  /** The colour a colour is written as. A named colour is written as itself.
      With hex colours enabled an RGB colour is written as itself too, unless
      its value is exactly a named colour's; without them it is downsampled
      to the nearest named colour. */
  function Wire(c: TextColour, hex: bool): (w: TextColour)
    ensures w.Rgb? ==> hex && Canonical(w)
    ensures hex ==> ValueOf(w) == ValueOf(c)
    ensures !hex ==> w.Named? && forall m :: DistanceSquared(ValueOf(c), Value(w.name)) <= DistanceSquared(ValueOf(c), Value(m))
  {
    match c
    case Named(n) =>
      NearestOfNamed(n);
      c
    case Rgb(v) => if hex then ColourOf(v) else Named(Nearest(v))
  }

  /** A colour that is written as itself. */
  predicate Faithful(c: TextColour, hex: bool) {
    c.Named? || (hex && Canonical(c))
  }

  lemma WireFaithful(c: TextColour, hex: bool)
    ensures Wire(c, hex) == c <==> Faithful(c, hex)
  {
    if c.Rgb? && hex && Canonical(c) {
      ColourOfValue(c);
    }
  }

  /** A resolved style with its colour as it is written. */
  function WireStyle(e: Effective, hex: bool): Effective {
    Effective(if e.colour.Some? then Some(Wire(e.colour.value, hex)) else None, e.decorations)
  }

  function WireGlyphs(gs: seq<Glyph>, hex: bool): (ws: seq<Glyph>)
    ensures |ws| == |gs|
    ensures forall i :: 0 <= i < |gs| ==> ws[i] == Glyph(gs[i].ch, WireStyle(gs[i].style, hex))
  {
    seq(|gs|, i requires 0 <= i < |gs| => Glyph(gs[i].ch, WireStyle(gs[i].style, hex)))
  }

  /** One decoration code for each decoration of `ds`, in the order of `order`. */
  function DecorationTokens(ds: set<Decoration>, order: seq<Decoration>): (toks: seq<Token>)
    ensures forall i :: 0 <= i < |toks| ==> toks[i].Decorate? && toks[i].decoration in ds
    decreases |order|
  {
    if |order| == 0 then []
    else (if order[0] in ds then [Decorate(order[0])] else []) + DecorationTokens(ds, order[1..])
  }

  /** Decoration codes turn on exactly the decorations listed, and show nothing. */
  lemma {:induction false} FinalDecorationTokens(ds: set<Decoration>, order: seq<Decoration>, st: Effective)
    ensures Final(DecorationTokens(ds, order), st)
         == Effective(st.colour, st.decorations + (set d | d in ds && d in order))
    ensures Interp(DecorationTokens(ds, order), st) == []
    decreases |order|
  {
    var toks := DecorationTokens(ds, order);
    InterpCodes(toks, st);
    if |order| > 0 {
      var head := if order[0] in ds then [Decorate(order[0])] else [];
      var st' := Final(head, st);
      FinalDecorationTokens(ds, order[1..], st');
      InterpAppend(head, DecorationTokens(ds, order[1..]), st);
      assert Final(head, st) == Effective(st.colour, st.decorations + (set d | d in ds && d == order[0]));
      assert (set d | d in ds && d in order) == (set d | d in ds && d == order[0]) + (set d | d in ds && d in order[1..]);
    } else {
      assert (set d | d in ds && d in order) == {};
    }
  }

  /** Decoration codes for `ds` in declaration order turn on exactly `ds`. */
  lemma DecorationCodesMeaning(ds: set<Decoration>, st: Effective)
    ensures Final(DecorationTokens(ds, Decorations), st) == Effective(st.colour, st.decorations + ds)
    ensures Interp(DecorationTokens(ds, Decorations), st) == []
  {
    FinalDecorationTokens(ds, Decorations, st);
    forall d | d in ds ensures d in Decorations {
      AllDecorationsListed(d);
    }
    assert (set d | d in ds && d in Decorations) == ds;
  }

  /** A colour (or reset) code followed by decoration codes sets exactly that style. */
  lemma FullFormatMeaning(code: Token, ds: set<Decoration>, st: Effective)
    requires code.SetColour? || code.Reset?
    ensures Final([code] + DecorationTokens(ds, Decorations), st) == Effective(Apply(Plain, code).colour, ds)
    ensures Interp([code] + DecorationTokens(ds, Decorations), st) == []
  {
    var decorations := DecorationTokens(ds, Decorations);
    DecorationCodesMeaning(ds, Apply(st, code));
    InterpAppend([code], decorations, st);
    assert {} + ds == ds;
  }

  /** The codes written before content in style `e` when the style last
      written is `last`: a colour (or reset) code and every decoration when
      the colour changes or a decoration is turned off, otherwise just the
      new decorations. */
  function Transition(e: Effective, last: Effective, hex: bool): (toks: seq<Token>)
    ensures e == last ==> toks == []
    ensures forall i :: 0 <= i < |toks| ==> !toks[i].Char?
  {
    DecorationTokensNone(Decorations);
    if e.colour != last.colour || !(last.decorations <= e.decorations) then
      [if e.colour.Some? then SetColour(Wire(e.colour.value, hex)) else Reset]
        + DecorationTokens(e.decorations, Decorations)
    else
      DecorationTokens(e.decorations - last.decorations, Decorations)
  }

  /** The codes moving from the style last written to `e` show nothing and
      leave exactly `e` (with its colour as written) in force; nothing is
      written when the style does not change, a colour change starts with
      the new colour's code, and every code after the first is a decoration
      of `e` (only a new one when no colour code is needed). */
  lemma TransitionMeaning(e: Effective, last: Effective, hex: bool)
    ensures var toks := Transition(e, last, hex);
      && (e == last ==> toks == [])
      && (e.colour != last.colour ==>
            |toks| > 0 && toks[0] == if e.colour.Some? then SetColour(Wire(e.colour.value, hex)) else Reset)
      && (forall i :: 0 < i < |toks| ==> toks[i].Decorate? && toks[i].decoration in e.decorations)
      && (e.colour == last.colour && last.decorations <= e.decorations ==>
            forall i :: 0 <= i < |toks| ==> toks[i].Decorate? && toks[i].decoration in e.decorations - last.decorations)
      && Interp(toks, WireStyle(last, hex)) == []
      && Final(toks, WireStyle(last, hex)) == WireStyle(e, hex)
  {
    if e.colour != last.colour || !(last.decorations <= e.decorations) {
      var code := if e.colour.Some? then SetColour(Wire(e.colour.value, hex)) else Reset;
      FullFormatMeaning(code, e.decorations, WireStyle(last, hex));
    } else {
      var ds := e.decorations - last.decorations;
      DecorationCodesMeaning(ds, WireStyle(last, hex));
      assert last.decorations + ds == e.decorations;
      if e == last {
        assert ds == {};
        DecorationTokensNone(Decorations);
      }
    }
  }

  /** The tokens written for a subtree, and the style last written after them. */
  datatype Emission = Emission(tokens: seq<Token>, last: Effective)

  /** The codes and text written for content shown in style `e`: nothing at
      all for empty content. */
  function EmitContent(content: string, e: Effective, last: Effective, hex: bool): seq<Token> {
    if content == [] then [] else Transition(e, last, hex) + Chars(content)
  }

  /** Writes node `n`, which inherits `parent`, after output whose last
      written style is `last`. */
  function EmitNode(n: TextNode, parent: Effective, last: Effective, hex: bool): Emission
    decreases n
  {
    var e := Merge(parent, n.style);
    var rest := EmitChildren(n.children, e, if n.content == [] then last else e, hex);
    Emission(EmitContent(n.content, e, last, hex) + rest.tokens, rest.last)
  }

  function EmitChildren(ns: seq<TextNode>, parent: Effective, last: Effective, hex: bool): Emission
    decreases ns
  {
    if |ns| == 0 then Emission([], last)
    else
      var first := EmitNode(ns[0], parent, last, hex);
      var rest := EmitChildren(ns[1..], parent, first.last, hex);
      Emission(first.tokens + rest.tokens, rest.last)
  }

  /** Writes a tree with escape character `esc`. `hex` enables hex colours;
      `repeated` chooses the repeated-character form for them over `#rrggbb`. */
  function Serialize(n: TextNode, esc: char, hex: bool, repeated: bool): (s: string)
    ensures s == [] <==> Render(n, Plain) == []
  {
    EmitNodeLazy(n, Plain, Plain, hex);
    PrintEmpty(EmitNode(n, Plain, Plain, hex).tokens, esc, repeated);
    Print(EmitNode(n, Plain, Plain, hex).tokens, esc, repeated)
  }

  lemma WireGlyphsAppend(a: seq<Glyph>, b: seq<Glyph>, hex: bool)
    ensures WireGlyphs(a + b, hex) == WireGlyphs(a, hex) + WireGlyphs(b, hex)
  {
  }

  lemma WirePaint(s: string, e: Effective, hex: bool)
    ensures WireGlyphs(Paint(s, e), hex) == Paint(s, WireStyle(e, hex))
  {
  }

  /** What the written codes and text mean is what the subtree shows, with
      colours as they are written; and the style the codes leave behind is the
      last style written. */
  lemma EmitContentMeaning(content: string, e: Effective, last: Effective, hex: bool)
    ensures Interp(EmitContent(content, e, last, hex), WireStyle(last, hex)) == Paint(content, WireStyle(e, hex))
    ensures Final(EmitContent(content, e, last, hex), WireStyle(last, hex))
         == WireStyle(if content == [] then last else e, hex)
  {
    if content != [] {
      TransitionMeaning(e, last, hex);
      InterpAppend(Transition(e, last, hex), Chars(content), WireStyle(last, hex));
      InterpChars(content, WireStyle(e, hex));
    }
  }

  lemma {:induction false} EmitNodeMeaning(n: TextNode, parent: Effective, last: Effective, hex: bool)
    ensures
      var r := EmitNode(n, parent, last, hex);
      && Interp(r.tokens, WireStyle(last, hex)) == WireGlyphs(Render(n, parent), hex)
      && Final(r.tokens, WireStyle(last, hex)) == WireStyle(r.last, hex)
    decreases n
  {
    var e := Merge(parent, n.style);
    var st := WireStyle(last, hex);
    var head := EmitContent(n.content, e, last, hex);
    var rest := EmitChildren(n.children, e, if n.content == [] then last else e, hex);
    EmitContentMeaning(n.content, e, last, hex);
    EmitChildrenMeaning(n.children, e, if n.content == [] then last else e, hex);
    InterpAppend(head, rest.tokens, st);
    WirePaint(n.content, e, hex);
    WireGlyphsAppend(Paint(n.content, e), RenderAll(n.children, e), hex);
    assert Render(n, parent) == Paint(n.content, e) + RenderAll(n.children, e);
    assert EmitNode(n, parent, last, hex) == Emission(head + rest.tokens, rest.last);
  }

  lemma {:induction false} EmitChildrenMeaning(ns: seq<TextNode>, parent: Effective, last: Effective, hex: bool)
    ensures
      var r := EmitChildren(ns, parent, last, hex);
      && Interp(r.tokens, WireStyle(last, hex)) == WireGlyphs(RenderAll(ns, parent), hex)
      && Final(r.tokens, WireStyle(last, hex)) == WireStyle(r.last, hex)
    decreases ns
  {
    if |ns| > 0 {
      var first := EmitNode(ns[0], parent, last, hex);
      EmitNodeMeaning(ns[0], parent, last, hex);
      EmitChildrenMeaning(ns[1..], parent, first.last, hex);
      var rest := EmitChildren(ns[1..], parent, first.last, hex);
      InterpAppend(first.tokens, rest.tokens, WireStyle(last, hex));
      WireGlyphsAppend(Render(ns[0], parent), RenderAll(ns[1..], parent), hex);
    }
  }

  /** Every token written for a tree whose text avoids the escape character
      reads back as itself. */
  lemma EmitContentPrintable(content: string, e: Effective, last: Effective, hex: bool, esc: char)
    requires esc !in content
    ensures AllPrintable(EmitContent(content, e, last, hex), esc, hex)
  {
    if content != [] {
      var codes := Transition(e, last, hex);
      TransitionMeaning(e, last, hex);
      var toks := codes + Chars(content);
      forall i | 0 <= i < |toks| ensures Printable(toks[i], esc, hex) {
        if i >= |codes| {
          assert toks[i] == Char(content[i - |codes|]);
        } else if i == 0 && toks[0].SetColour? {
          assert toks[0].colour == Wire(e.colour.value, hex);
        }
      }
    }
  }

  lemma {:induction false} EmitNodePrintable(n: TextNode, parent: Effective, last: Effective, hex: bool, esc: char)
    requires Avoids(n, esc)
    ensures AllPrintable(EmitNode(n, parent, last, hex).tokens, esc, hex)
    decreases n
  {
    var e := Merge(parent, n.style);
    var last1 := if n.content == [] then last else e;
    assert esc !in n.content;
    EmitContentPrintable(n.content, e, last, hex, esc);
    EmitChildrenPrintable(n.children, e, last1, hex, esc);
    AllPrintableAppend(EmitContent(n.content, e, last, hex), EmitChildren(n.children, e, last1, hex).tokens, esc, hex);
  }

  lemma {:induction false} EmitChildrenPrintable(ns: seq<TextNode>, parent: Effective, last: Effective, hex: bool, esc: char)
    requires forall i :: 0 <= i < |ns| ==> Avoids(ns[i], esc)
    ensures AllPrintable(EmitChildren(ns, parent, last, hex).tokens, esc, hex)
    decreases ns
  {
    if |ns| > 0 {
      var first := EmitNode(ns[0], parent, last, hex);
      EmitNodePrintable(ns[0], parent, last, hex, esc);
      EmitChildrenPrintable(ns[1..], parent, first.last, hex, esc);
      AllPrintableAppend(first.tokens, EmitChildren(ns[1..], parent, first.last, hex).tokens, esc, hex);
    }
  }

  /** Codes are written only in front of text: nothing is written for a
      subtree that shows nothing, and what is written ends with text. */
  lemma {:induction false} EmitNodeLazy(n: TextNode, parent: Effective, last: Effective, hex: bool)
    ensures
      var r := EmitNode(n, parent, last, hex);
      && (r.tokens == [] <==> Render(n, parent) == [])
      && (r.tokens == [] ==> r.last == last)
      && (r.tokens != [] ==> r.tokens[|r.tokens| - 1].Char?)
    decreases n
  {
    var e := Merge(parent, n.style);
    var last1 := if n.content == [] then last else e;
    var head := EmitContent(n.content, e, last, hex);
    var rest := EmitChildren(n.children, e, last1, hex);
    EmitChildrenLazy(n.children, e, last1, hex);
    NodeStep(n, parent, e, last, hex, head, rest);
    assert Render(n, parent) == Paint(n.content, e) + RenderAll(n.children, e);
    ContentEnds(n.content, e, last, hex);
    EndsAppend(head, rest.tokens);
  }

  /** Content writes nothing exactly when it is empty, and otherwise ends with its last character. */
  lemma ContentEnds(content: string, e: Effective, last: Effective, hex: bool)
    ensures
      var h := EmitContent(content, e, last, hex);
      && (h == [] <==> content == [])
      && (h != [] ==> h[|h| - 1].Char?)
  {
    if content != [] {
      var h := EmitContent(content, e, last, hex);
      var codes := Transition(e, last, hex);
      assert h == codes + Chars(content);
      assert h[|h| - 1] == Chars(content)[|content| - 1];
    }
  }

  /** Two outputs one after the other are empty only when both are, and end as the second does unless it is empty. */
  lemma EndsAppend(a: seq<Token>, b: seq<Token>)
    ensures a + b == [] <==> a == [] && b == []
    ensures b == [] ==> a + b == a
    ensures b != [] ==> (a + b)[|a + b| - 1] == b[|b| - 1]
  {
  }

  lemma {:induction false} EmitChildrenLazy(ns: seq<TextNode>, parent: Effective, last: Effective, hex: bool)
    ensures
      var r := EmitChildren(ns, parent, last, hex);
      && (r.tokens == [] <==> RenderAll(ns, parent) == [])
      && (r.tokens == [] ==> r.last == last)
      && (r.tokens != [] ==> r.tokens[|r.tokens| - 1].Char?)
    decreases ns
  {
    if |ns| > 0 {
      var first := EmitNode(ns[0], parent, last, hex);
      var rest := EmitChildren(ns[1..], parent, first.last, hex);
      EmitNodeLazy(ns[0], parent, last, hex);
      EmitChildrenLazy(ns[1..], parent, first.last, hex);
      ChildrenStep(ns, parent, last, hex, first, rest);
      assert RenderAll(ns, parent) == Render(ns[0], parent) + RenderAll(ns[1..], parent);
      EndsAppend(first.tokens, rest.tokens);
    }
  }

  lemma {:induction false} DecorationTokensNone(order: seq<Decoration>)
    ensures DecorationTokens({}, order) == []
    decreases |order|
  {
    if |order| > 0 {
      DecorationTokensNone(order[1..]);
    }
  }

  /** A single decoration is written as its one code. */
  lemma DecorationTokensOne(d: Decoration)
    ensures DecorationTokens({d}, Decorations) == [Decorate(d)]
  {
    match d
    case Obfuscated =>
    case Bold =>
    case Strikethrough =>
    case Underlined =>
    case Italic =>
  }

  /** One step of writing a node: its content's codes and text, then its children. */
  lemma NodeStep(n: TextNode, parent: Effective, e: Effective, last: Effective, hex: bool, head: seq<Token>, rest: Emission)
    requires e == Merge(parent, n.style)
    requires head == EmitContent(n.content, e, last, hex)
    requires rest == EmitChildren(n.children, e, if n.content == [] then last else e, hex)
    ensures EmitNode(n, parent, last, hex) == Emission(head + rest.tokens, rest.last)
  {
  }

  /** One step of writing a list of siblings: the first, then the others after it. */
  lemma ChildrenStep(ns: seq<TextNode>, parent: Effective, last: Effective, hex: bool, first: Emission, rest: Emission)
    requires |ns| > 0
    requires first == EmitNode(ns[0], parent, last, hex)
    requires rest == EmitChildren(ns[1..], parent, first.last, hex)
    ensures EmitChildren(ns, parent, last, hex) == Emission(first.tokens + rest.tokens, rest.last)
  {
  }

  /** Writing a node, then more output `k`: its content, then its children, then `k`. */
  lemma NodeThen(n: TextNode, parent: Effective, e: Effective, last: Effective, hex: bool, k: seq<Token>)
    requires e == Merge(parent, n.style)
    ensures
      var rest := EmitChildren(n.children, e, if n.content == [] then last else e, hex);
      && EmitNode(n, parent, last, hex).tokens + k == EmitContent(n.content, e, last, hex) + (rest.tokens + k)
      && EmitNode(n, parent, last, hex).last == rest.last
  {
    var rest := EmitChildren(n.children, e, if n.content == [] then last else e, hex);
    var head := EmitContent(n.content, e, last, hex);
    NodeStep(n, parent, e, last, hex, head, rest);
    TokensAssoc(head, rest.tokens, k);
  }

  /** Writing a node with content, then more output `k`: the codes that
      reach its style, its text, its children, then `k`. */
  lemma ContentThen(n: TextNode, parent: Effective, e: Effective, last: Effective, hex: bool, codes: seq<Token>, k: seq<Token>)
    requires n.content != [] && e == Merge(parent, n.style) && codes == Transition(e, last, hex)
    ensures EmitNode(n, parent, last, hex).tokens + k
         == codes + (Chars(n.content) + (EmitChildren(n.children, e, e, hex).tokens + k))
    ensures EmitNode(n, parent, last, hex).last == EmitChildren(n.children, e, e, hex).last
  {
    var rest := EmitChildren(n.children, e, e, hex);
    NodeThen(n, parent, e, last, hex, k);
    ContentStep(n.content, e, last, hex, codes);
    TokensAssoc(codes, Chars(n.content), rest.tokens + k);
  }

  /** Writing a node without content, then more output `k`: its children, then `k`. */
  lemma EmptyThen(n: TextNode, parent: Effective, e: Effective, last: Effective, hex: bool, k: seq<Token>)
    requires n.content == [] && e == Merge(parent, n.style)
    ensures EmitNode(n, parent, last, hex).tokens + k == EmitChildren(n.children, e, last, hex).tokens + k
    ensures EmitNode(n, parent, last, hex).last == EmitChildren(n.children, e, last, hex).last
  {
    NodeThen(n, parent, e, last, hex, k);
  }

  /** Writing siblings, then more output `k`: the first, then the others, then `k`. */
  lemma ChildrenThen(ns: seq<TextNode>, parent: Effective, last: Effective, hex: bool, k: seq<Token>)
    requires |ns| > 0
    ensures
      var first := EmitNode(ns[0], parent, last, hex);
      var rest := EmitChildren(ns[1..], parent, first.last, hex);
      && EmitChildren(ns, parent, last, hex).tokens + k == first.tokens + (rest.tokens + k)
      && EmitChildren(ns, parent, last, hex).last == rest.last
  {
    var first := EmitNode(ns[0], parent, last, hex);
    var rest := EmitChildren(ns[1..], parent, first.last, hex);
    ChildrenStep(ns, parent, last, hex, first, rest);
    TokensAssoc(first.tokens, rest.tokens, k);
  }

  lemma TokensAssoc(a: seq<Token>, b: seq<Token>, c: seq<Token>)
    ensures (a + b) + c == a + (b + c)
  {
  }

  /** Non-empty content is written as the codes that reach its style, then its text. */
  lemma ContentStep(content: string, e: Effective, last: Effective, hex: bool, codes: seq<Token>)
    requires content != []
    requires codes == Transition(e, last, hex)
    ensures EmitContent(content, e, last, hex) == codes + Chars(content)
  {
  }
}
