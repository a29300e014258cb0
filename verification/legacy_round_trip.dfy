/** Writing a tree in the legacy format and reading it back: what is shown
    survives, with colours as the format can carry them. */
module LegacyRoundTrip {
  import opened Optional
  import opened Colours
  import opened Styles
  import opened Text
  import opened LegacyCodes
  import opened LegacyLexer
  import opened LegacyDeserializer
  import opened LegacySerializer

  /** Reading back a written tree shows the same characters in the same
      styles, except that each colour is the one it was written as. */
  lemma RoundTrip(n: TextNode, esc: char, hex: bool, repeated: bool)
    requires Avoids(n, esc)
    ensures Render(Deserialize(Serialize(n, esc, hex, repeated), esc, hex), Plain)
         == WireGlyphs(Render(n, Plain), hex)
  {
    var toks := EmitNode(n, Plain, Plain, hex).tokens;
    EmitNodePrintable(n, Plain, Plain, hex, esc);
    LexPrint(toks, esc, hex, repeated);
    DeserializeMeaning(Serialize(n, esc, hex, repeated), esc, hex);
    EmitNodeMeaning(n, Plain, Plain, hex);
    assert WireStyle(Plain, hex) == Plain;
  }

  /** Every colour a node sets is one the format writes as itself. */
  predicate FaithfulTree(n: TextNode, hex: bool)
    decreases n
  {
    && (n.style.colour.Some? ==> Faithful(n.style.colour.value, hex))
    && forall i :: 0 <= i < |n.children| ==> FaithfulTree(n.children[i], hex)
  }

  predicate FaithfulStyle(e: Effective, hex: bool) {
    e.colour.Some? ==> Faithful(e.colour.value, hex)
  }

  predicate FaithfulGlyphs(gs: seq<Glyph>, hex: bool) {
    forall i :: 0 <= i < |gs| ==> FaithfulStyle(gs[i].style, hex)
  }

  lemma FaithfulGlyphsAppend(a: seq<Glyph>, b: seq<Glyph>, hex: bool)
    requires FaithfulGlyphs(a, hex) && FaithfulGlyphs(b, hex)
    ensures FaithfulGlyphs(a + b, hex)
  {
    forall i | 0 <= i < |a + b| ensures FaithfulStyle((a + b)[i].style, hex) {
      if i >= |a| {
        assert (a + b)[i] == b[i - |a|];
      }
    }
  }

  lemma {:induction false} RenderFaithful(n: TextNode, parent: Effective, hex: bool)
    requires FaithfulTree(n, hex) && FaithfulStyle(parent, hex)
    ensures FaithfulGlyphs(Render(n, parent), hex)
    decreases n
  {
    var e := Merge(parent, n.style);
    RenderAllFaithful(n.children, e, hex);
    FaithfulGlyphsAppend(Paint(n.content, e), RenderAll(n.children, e), hex);
  }

  lemma {:induction false} RenderAllFaithful(ns: seq<TextNode>, parent: Effective, hex: bool)
    requires forall i :: 0 <= i < |ns| ==> FaithfulTree(ns[i], hex)
    requires FaithfulStyle(parent, hex)
    ensures FaithfulGlyphs(RenderAll(ns, parent), hex)
    decreases ns
  {
    if |ns| > 0 {
      RenderFaithful(ns[0], parent, hex);
      RenderAllFaithful(ns[1..], parent, hex);
      FaithfulGlyphsAppend(Render(ns[0], parent), RenderAll(ns[1..], parent), hex);
    }
  }

  /** When every colour of the tree is one the format carries exactly (a
      named colour, or with hex colours enabled an RGB value that is not a
      named colour's), reading back what was written shows exactly what the
      tree shows. */
  lemma RoundTripFaithful(n: TextNode, esc: char, hex: bool, repeated: bool)
    requires Avoids(n, esc) && FaithfulTree(n, hex)
    ensures Render(Deserialize(Serialize(n, esc, hex, repeated), esc, hex), Plain) == Render(n, Plain)
  {
    RoundTrip(n, esc, hex, repeated);
    var gs := Render(n, Plain);
    RenderFaithful(n, Plain, hex);
    forall i | 0 <= i < |gs| ensures WireGlyphs(gs, hex)[i] == gs[i] {
      var c := gs[i].style.colour;
      if c.Some? {
        WireFaithful(c.value, hex);
      }
    }
  }
}
