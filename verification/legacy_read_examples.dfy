/** Worked examples of reading the legacy format: particular strings and
    the trees they read as. Each case is proved step by step from the
    general lemmas of the lexer and the deserializer, for any texts free of
    the escape character, and then for the texts of the case.
    In string literals the section sign is written as its escape `\U{00A7}`. */
module LegacyReadExamples {
  import opened Optional
  import opened Colours
  import opened Styles
  import opened Text
  import opened LegacyCodes
  import opened LegacyLexer
  import opened LegacyDeserializer
  import opened LegacyExampleFacts

  /** Text with no escape character in it, so that it reads as itself. */
  predicate PlainText(x: string, esc: char) {
    esc !in x && x != []
  }

  /** Plain text reads as one unstyled component. */
  lemma SimpleFrom()
    ensures Deserialize("foo", SectionSign, false) == Text.Of("foo")
  {
    DeserializePlainText("foo", SectionSign, false);
  }

  lemma FromColourLexed(c1: Token, p1: string, c2: Token, p2: string, x3: string, c4: Token, p4: string, x5: string)
    requires Printable(c1, '&', false) && p1 == PrintToken(c1, '&', false) && Printable(c2, '&', false) && p2 == PrintToken(c2, '&', false) && '&' !in x3 && Printable(c4, '&', false) && p4 == PrintToken(c4, '&', false) && '&' !in x5
    ensures Lex(p1 + (p2 + (x3 + (p4 + (x5)))), '&', false)
         == [c1] + ([c2] + (Chars(x3) + ([c4] + (Chars(x5) + []))))
  {
    var s4 := x5;
    var s3 := p4 + (x5);
    var s2 := x3 + (p4 + (x5));
    var s1 := p2 + (x3 + (p4 + (x5)));
    assert x5 + [] == x5;
    LexText(x5, [], '&', false);
    LexToken(c4, s4, '&', false, false);
    LexText(x3, s3, '&', false);
    LexToken(c2, s2, '&', false, false);
    LexToken(c1, s1, '&', false, false);
    assert Lex([], '&', false) == [];
  }

  lemma FromColourRuns(c1: Token, st1: Effective, c2: Token, st2: Effective, x3: string, c4: Token, st4: Effective, x5: string)
    requires !c1.Char? && Apply(Plain, c1) == st1 && !c2.Char? && Apply(st1, c2) == st2 && x3 != [] && !c4.Char? && Apply(st2, c4) == st4 && x5 != []
    ensures Split([c1] + ([c2] + (Chars(x3) + ([c4] + (Chars(x5) + [])))), [])
         == Parsed([], [Run(x3, st2), Run(x5, st4)])
  {
    SplitCode(c1, [c2] + (Chars(x3) + ([c4] + (Chars(x5) + []))), []);
    FromColourRunsFrom1(st1, c2, st2, x3, c4, st4, x5);
  }

  lemma FromColourRunsFrom1(st1: Effective, c2: Token, st2: Effective, x3: string, c4: Token, st4: Effective, x5: string)
    requires !c2.Char? && Apply(st1, c2) == st2 && x3 != [] && !c4.Char? && Apply(st2, c4) == st4 && x5 != []
    ensures Runs([c2] + (Chars(x3) + ([c4] + (Chars(x5) + []))), st1, []) == [Run(x3, st2), Run(x5, st4)]
  {
    RunsCode(c2, Chars(x3) + ([c4] + (Chars(x5) + [])), st1, []);
    FromColourRunsFrom2(st2, x3, c4, st4, x5);
  }

  lemma FromColourRunsFrom2(st2: Effective, x3: string, c4: Token, st4: Effective, x5: string)
    requires x3 != [] && !c4.Char? && Apply(st2, c4) == st4 && x5 != []
    ensures Runs(Chars(x3) + ([c4] + (Chars(x5) + [])), st2, []) == [Run(x3, st2), Run(x5, st4)]
  {
    RunsText(x3, [c4] + (Chars(x5) + []), st2, []);
    assert [] + x3 == x3;
    FromColourRunsFrom3(st2, x3, c4, st4, x5);
  }

  lemma FromColourRunsFrom3(st2: Effective, x3: string, c4: Token, st4: Effective, x5: string)
    requires x3 != [] && !c4.Char? && Apply(st2, c4) == st4 && x5 != []
    ensures Runs([c4] + (Chars(x5) + []), st2, x3) == [Run(x3, st2), Run(x5, st4)]
  {
    RunsCode(c4, Chars(x5) + [], st2, x3);
    FromColourRunsFrom4(st4, x5);
  }

  lemma FromColourRunsFrom4(st4: Effective, x5: string)
    requires x5 != []
    ensures Runs(Chars(x5) + [], st4, []) == [Run(x5, st4)]
  {
    RunsText(x5, [], st4, []);
    assert [] + x5 == x5;
    assert Runs([], st4, x5) == [Run(x5, st4)];
  }

  lemma FromColourRead(c1: Token, c2: Token, x3: string, c4: Token, x5: string)
    requires PrintableCode(c1, '&', false) && PrintableCode(c2, '&', false) && PlainText(x3, '&') && PrintableCode(c4, '&', false) && PlainText(x5, '&')
    ensures Deserialize(PrintToken(c1, '&', false) + (PrintToken(c2, '&', false) + (x3 + (PrintToken(c4, '&', false) + (x5)))), '&', false)
         == TextNode([], Empty, [TextNode(x3, Explicit(Apply(Apply(Plain, c1), c2)), []), TextNode(x5, Explicit(Apply(Apply(Apply(Plain, c1), c2), c4)), [])])
  {
    var p1 := PrintToken(c1, '&', false);
    var st1 := Apply(Plain, c1);
    var p2 := PrintToken(c2, '&', false);
    var st2 := Apply(st1, c2);
    var p4 := PrintToken(c4, '&', false);
    var st4 := Apply(st2, c4);
    FromColourLexed(c1, p1, c2, p2, x3, c4, p4, x5);
    FromColourRuns(c1, st1, c2, st2, x3, c4, st4, x5);
    assert [Run(x5, st4)][1..] == [];
    assert [Run(x3, st2), Run(x5, st4)][1..] == [Run(x5, st4)];
  }

  /** Each colour code closes the text before it; a decoration code adds to the colour in force. */
  lemma FromColour()
    ensures Deserialize("&a" + ("&l" + ("foo" + ("&9" + ("bar")))), '&', false)
         == TextNode("", Empty, [TextNode("foo", Style(Some(Named(Green)), map[Bold := true]), []), TextNode("bar", Style(Some(Named(Blue)), map[]), [])])
  {
    assert PlainText("foo", '&');
    assert PlainText("bar", '&');
    PrintedGreenAmpersand();
    ApplyGreenAfterPlain();
    PrintedBoldAmpersand();
    ApplyBoldAfterGreen();
    PrintedBlueAmpersand();
    ApplyBlueAfterGreenBold();
    ExplicitGreenBold();
    ExplicitBlue();
    FromColourRead(SetColour(Named(Green)), Decorate(Bold), "foo", SetColour(Named(Blue)), "bar");
  }

  lemma FromColourOverrideLexed(c1: Token, p1: string, c2: Token, p2: string, x3: string)
    requires Printable(c1, '&', false) && p1 == PrintToken(c1, '&', false) && Printable(c2, '&', false) && p2 == PrintToken(c2, '&', false) && '&' !in x3
    ensures Lex(p1 + (p2 + (x3)), '&', false)
         == [c1] + ([c2] + (Chars(x3) + []))
  {
    var s2 := x3;
    var s1 := p2 + (x3);
    assert x3 + [] == x3;
    LexText(x3, [], '&', false);
    LexToken(c2, s2, '&', false, false);
    LexToken(c1, s1, '&', false, false);
    assert Lex([], '&', false) == [];
  }

  lemma FromColourOverrideRuns(c1: Token, st1: Effective, c2: Token, st2: Effective, x3: string)
    requires !c1.Char? && Apply(Plain, c1) == st1 && !c2.Char? && Apply(st1, c2) == st2 && x3 != []
    ensures Split([c1] + ([c2] + (Chars(x3) + [])), [])
         == Parsed([], [Run(x3, st2)])
  {
    SplitCode(c1, [c2] + (Chars(x3) + []), []);
    FromColourOverrideRunsFrom1(st1, c2, st2, x3);
  }

  lemma FromColourOverrideRunsFrom1(st1: Effective, c2: Token, st2: Effective, x3: string)
    requires !c2.Char? && Apply(st1, c2) == st2 && x3 != []
    ensures Runs([c2] + (Chars(x3) + []), st1, []) == [Run(x3, st2)]
  {
    RunsCode(c2, Chars(x3) + [], st1, []);
    FromColourRunsFrom4(st2, x3);
  }

  lemma FromColourOverrideRead(c1: Token, c2: Token, x3: string)
    requires PrintableCode(c1, '&', false) && PrintableCode(c2, '&', false) && PlainText(x3, '&')
    ensures Deserialize(PrintToken(c1, '&', false) + (PrintToken(c2, '&', false) + (x3)), '&', false)
         == TextNode(x3, Explicit(Apply(Apply(Plain, c1), c2)), [])
  {
    var p1 := PrintToken(c1, '&', false);
    var st1 := Apply(Plain, c1);
    var p2 := PrintToken(c2, '&', false);
    var st2 := Apply(st1, c2);
    FromColourOverrideLexed(c1, p1, c2, p2, x3);
    FromColourOverrideRuns(c1, st1, c2, st2, x3);
  }

  /** A colour code right after another replaces it; one styled stretch is returned alone. */
  lemma FromColourOverride()
    ensures Deserialize("&a" + ("&9" + ("foo")), '&', false)
         == TextNode("foo", Style(Some(Named(Blue)), map[]), [])
  {
    assert PlainText("foo", '&');
    PrintedGreenAmpersand();
    ApplyGreenAfterPlain();
    PrintedBlueAmpersand();
    ApplyBlueAfterGreen();
    ExplicitBlue();
    FromColourOverrideRead(SetColour(Named(Green)), SetColour(Named(Blue)), "foo");
  }

  lemma ResetOverrideLexed(c1: Token, p1: string, c2: Token, p2: string, x3: string, c4: Token, p4: string, c5: Token, p5: string, x6: string)
    requires Printable(c1, '&', false) && p1 == PrintToken(c1, '&', false) && Printable(c2, '&', false) && p2 == PrintToken(c2, '&', false) && '&' !in x3 && Printable(c4, '&', false) && p4 == PrintToken(c4, '&', false) && Printable(c5, '&', false) && p5 == PrintToken(c5, '&', false) && '&' !in x6
    ensures Lex(p1 + (p2 + (x3 + (p4 + (p5 + (x6))))), '&', false)
         == [c1] + ([c2] + (Chars(x3) + ([c4] + ([c5] + (Chars(x6) + [])))))
  {
    var s5 := x6;
    var s4 := p5 + (x6);
    var s3 := p4 + (p5 + (x6));
    var s2 := x3 + (p4 + (p5 + (x6)));
    var s1 := p2 + (x3 + (p4 + (p5 + (x6))));
    assert x6 + [] == x6;
    LexText(x6, [], '&', false);
    LexToken(c5, s5, '&', false, false);
    LexToken(c4, s4, '&', false, false);
    LexText(x3, s3, '&', false);
    LexToken(c2, s2, '&', false, false);
    LexToken(c1, s1, '&', false, false);
    assert Lex([], '&', false) == [];
  }

  lemma ResetOverrideRuns(c1: Token, st1: Effective, c2: Token, st2: Effective, x3: string, c4: Token, st4: Effective, c5: Token, st5: Effective, x6: string)
    requires !c1.Char? && Apply(Plain, c1) == st1 && !c2.Char? && Apply(st1, c2) == st2 && x3 != [] && !c4.Char? && Apply(st2, c4) == st4 && !c5.Char? && Apply(st4, c5) == st5 && x6 != []
    ensures Split([c1] + ([c2] + (Chars(x3) + ([c4] + ([c5] + (Chars(x6) + []))))), [])
         == Parsed([], [Run(x3, st2), Run(x6, st5)])
  {
    SplitCode(c1, [c2] + (Chars(x3) + ([c4] + ([c5] + (Chars(x6) + [])))), []);
    ResetOverrideRunsFrom1(st1, c2, st2, x3, c4, st4, c5, st5, x6);
  }

  lemma ResetOverrideRunsFrom1(st1: Effective, c2: Token, st2: Effective, x3: string, c4: Token, st4: Effective, c5: Token, st5: Effective, x6: string)
    requires !c2.Char? && Apply(st1, c2) == st2 && x3 != [] && !c4.Char? && Apply(st2, c4) == st4 && !c5.Char? && Apply(st4, c5) == st5 && x6 != []
    ensures Runs([c2] + (Chars(x3) + ([c4] + ([c5] + (Chars(x6) + [])))), st1, []) == [Run(x3, st2), Run(x6, st5)]
  {
    RunsCode(c2, Chars(x3) + ([c4] + ([c5] + (Chars(x6) + []))), st1, []);
    ResetOverrideRunsFrom2(st2, x3, c4, st4, c5, st5, x6);
  }

  lemma ResetOverrideRunsFrom2(st2: Effective, x3: string, c4: Token, st4: Effective, c5: Token, st5: Effective, x6: string)
    requires x3 != [] && !c4.Char? && Apply(st2, c4) == st4 && !c5.Char? && Apply(st4, c5) == st5 && x6 != []
    ensures Runs(Chars(x3) + ([c4] + ([c5] + (Chars(x6) + []))), st2, []) == [Run(x3, st2), Run(x6, st5)]
  {
    RunsText(x3, [c4] + ([c5] + (Chars(x6) + [])), st2, []);
    assert [] + x3 == x3;
    ResetOverrideRunsFrom3(st2, x3, c4, st4, c5, st5, x6);
  }

  lemma ResetOverrideRunsFrom3(st2: Effective, x3: string, c4: Token, st4: Effective, c5: Token, st5: Effective, x6: string)
    requires x3 != [] && !c4.Char? && Apply(st2, c4) == st4 && !c5.Char? && Apply(st4, c5) == st5 && x6 != []
    ensures Runs([c4] + ([c5] + (Chars(x6) + [])), st2, x3) == [Run(x3, st2), Run(x6, st5)]
  {
    RunsCode(c4, [c5] + (Chars(x6) + []), st2, x3);
    FromColourOverrideRunsFrom1(st4, c5, st5, x6);
  }

  lemma ResetOverrideRead(c1: Token, c2: Token, x3: string, c4: Token, c5: Token, x6: string)
    requires PrintableCode(c1, '&', false) && PrintableCode(c2, '&', false) && PlainText(x3, '&') && PrintableCode(c4, '&', false) && PrintableCode(c5, '&', false) && PlainText(x6, '&')
    ensures Deserialize(PrintToken(c1, '&', false) + (PrintToken(c2, '&', false) + (x3 + (PrintToken(c4, '&', false) + (PrintToken(c5, '&', false) + (x6))))), '&', false)
         == TextNode([], Empty, [TextNode(x3, Explicit(Apply(Apply(Plain, c1), c2)), []), TextNode(x6, Explicit(Apply(Apply(Apply(Apply(Plain, c1), c2), c4), c5)), [])])
  {
    var p1 := PrintToken(c1, '&', false);
    var st1 := Apply(Plain, c1);
    var p2 := PrintToken(c2, '&', false);
    var st2 := Apply(st1, c2);
    var p4 := PrintToken(c4, '&', false);
    var st4 := Apply(st2, c4);
    var p5 := PrintToken(c5, '&', false);
    var st5 := Apply(st4, c5);
    ResetOverrideLexed(c1, p1, c2, p2, x3, c4, p4, c5, p5, x6);
    ResetOverrideRuns(c1, st1, c2, st2, x3, c4, st4, c5, st5, x6);
    assert [Run(x6, st5)][1..] == [];
    assert [Run(x3, st2), Run(x6, st5)][1..] == [Run(x6, st5)];
  }

  /** The reset code clears the bold of the stretch before it. */
  lemma ResetOverride()
    ensures Deserialize("&a" + ("&l" + ("foo" + ("&r" + ("&8" + ("bar"))))), '&', false)
         == TextNode("", Empty, [TextNode("foo", Style(Some(Named(Green)), map[Bold := true]), []), TextNode("bar", Style(Some(Named(DarkGray)), map[]), [])])
  {
    assert PlainText("foo", '&');
    assert PlainText("bar", '&');
    PrintedGreenAmpersand();
    ApplyGreenAfterPlain();
    PrintedBoldAmpersand();
    ApplyBoldAfterGreen();
    PrintedResetAmpersand();
    ApplyResetAfterGreenBold();
    PrintedDarkGrayAmpersand();
    ApplyDarkGrayAfterPlain();
    ExplicitGreenBold();
    ExplicitDarkGray();
    ResetOverrideRead(SetColour(Named(Green)), Decorate(Bold), "foo", Reset, SetColour(Named(DarkGray)), "bar");
  }

  lemma FromHexLexed(c1: Token, p1: string, x2: string, c3: Token, p3: string, c4: Token, p4: string, x5: string, c6: Token, p6: string, x7: string)
    requires Printable(c1, '&', true) && p1 == PrintToken(c1, '&', false) && '&' !in x2 && Printable(c3, '&', true) && p3 == PrintToken(c3, '&', false) && Printable(c4, '&', true) && p4 == PrintToken(c4, '&', false) && '&' !in x5 && Printable(c6, '&', true) && p6 == PrintToken(c6, '&', false) && '&' !in x7
    ensures Lex(p1 + (x2 + (p3 + (p4 + (x5 + (p6 + (x7)))))), '&', true)
         == [c1] + (Chars(x2) + ([c3] + ([c4] + (Chars(x5) + ([c6] + (Chars(x7) + []))))))
  {
    var s6 := x7;
    var s5 := p6 + (x7);
    var s4 := x5 + (p6 + (x7));
    var s3 := p4 + (x5 + (p6 + (x7)));
    var s2 := p3 + (p4 + (x5 + (p6 + (x7))));
    var s1 := x2 + (p3 + (p4 + (x5 + (p6 + (x7)))));
    assert x7 + [] == x7;
    LexText(x7, [], '&', true);
    LexToken(c6, s6, '&', true, false);
    LexText(x5, s5, '&', true);
    LexToken(c4, s4, '&', true, false);
    LexToken(c3, s3, '&', true, false);
    LexText(x2, s2, '&', true);
    LexToken(c1, s1, '&', true, false);
    assert Lex([], '&', true) == [];
  }

  lemma FromHexRuns(c1: Token, st1: Effective, x2: string, c3: Token, st3: Effective, c4: Token, st4: Effective, x5: string, c6: Token, st6: Effective, x7: string)
    requires !c1.Char? && Apply(Plain, c1) == st1 && x2 != [] && !c3.Char? && Apply(st1, c3) == st3 && !c4.Char? && Apply(st3, c4) == st4 && x5 != [] && !c6.Char? && Apply(st4, c6) == st6 && x7 != []
    ensures Split([c1] + (Chars(x2) + ([c3] + ([c4] + (Chars(x5) + ([c6] + (Chars(x7) + [])))))), [])
         == Parsed([], [Run(x2, st1), Run(x5, st4), Run(x7, st6)])
  {
    SplitCode(c1, Chars(x2) + ([c3] + ([c4] + (Chars(x5) + ([c6] + (Chars(x7) + []))))), []);
    FromHexRunsFrom1(st1, x2, c3, st3, c4, st4, x5, c6, st6, x7);
  }

  lemma FromHexRunsFrom1(st1: Effective, x2: string, c3: Token, st3: Effective, c4: Token, st4: Effective, x5: string, c6: Token, st6: Effective, x7: string)
    requires x2 != [] && !c3.Char? && Apply(st1, c3) == st3 && !c4.Char? && Apply(st3, c4) == st4 && x5 != [] && !c6.Char? && Apply(st4, c6) == st6 && x7 != []
    ensures Runs(Chars(x2) + ([c3] + ([c4] + (Chars(x5) + ([c6] + (Chars(x7) + []))))), st1, []) == [Run(x2, st1), Run(x5, st4), Run(x7, st6)]
  {
    RunsText(x2, [c3] + ([c4] + (Chars(x5) + ([c6] + (Chars(x7) + [])))), st1, []);
    assert [] + x2 == x2;
    FromHexRunsFrom2(st1, x2, c3, st3, c4, st4, x5, c6, st6, x7);
  }

  lemma FromHexRunsFrom2(st1: Effective, x2: string, c3: Token, st3: Effective, c4: Token, st4: Effective, x5: string, c6: Token, st6: Effective, x7: string)
    requires x2 != [] && !c3.Char? && Apply(st1, c3) == st3 && !c4.Char? && Apply(st3, c4) == st4 && x5 != [] && !c6.Char? && Apply(st4, c6) == st6 && x7 != []
    ensures Runs([c3] + ([c4] + (Chars(x5) + ([c6] + (Chars(x7) + [])))), st1, x2) == [Run(x2, st1), Run(x5, st4), Run(x7, st6)]
  {
    RunsCode(c3, [c4] + (Chars(x5) + ([c6] + (Chars(x7) + []))), st1, x2);
    FromColourRunsFrom1(st3, c4, st4, x5, c6, st6, x7);
  }

  lemma FromHexRead(c1: Token, x2: string, c3: Token, c4: Token, x5: string, c6: Token, x7: string)
    requires PrintableCode(c1, '&', true) && PlainText(x2, '&') && PrintableCode(c3, '&', true) && PrintableCode(c4, '&', true) && PlainText(x5, '&') && PrintableCode(c6, '&', true) && PlainText(x7, '&')
    ensures Deserialize(PrintToken(c1, '&', false) + (x2 + (PrintToken(c3, '&', false) + (PrintToken(c4, '&', false) + (x5 + (PrintToken(c6, '&', false) + (x7)))))), '&', true)
         == TextNode([], Empty, [TextNode(x2, Explicit(Apply(Plain, c1)), []), TextNode(x5, Explicit(Apply(Apply(Apply(Plain, c1), c3), c4)), []), TextNode(x7, Explicit(Apply(Apply(Apply(Apply(Plain, c1), c3), c4), c6)), [])])
  {
    var p1 := PrintToken(c1, '&', false);
    var st1 := Apply(Plain, c1);
    var p3 := PrintToken(c3, '&', false);
    var st3 := Apply(st1, c3);
    var p4 := PrintToken(c4, '&', false);
    var st4 := Apply(st3, c4);
    var p6 := PrintToken(c6, '&', false);
    var st6 := Apply(st4, c6);
    FromHexLexed(c1, p1, x2, c3, p3, c4, p4, x5, c6, p6, x7);
    FromHexRuns(c1, st1, x2, c3, st3, c4, st4, x5, c6, st6, x7);
    assert [Run(x7, st6)][1..] == [];
    assert [Run(x5, st4), Run(x7, st6)][1..] == [Run(x7, st6)];
    assert [Run(x2, st1), Run(x5, st4), Run(x7, st6)][1..] == [Run(x5, st4), Run(x7, st6)];
  }

  /** Compact hex colours are read when hex colours are enabled; a decoration code after one adds to it. */
  lemma FromHex()
    ensures Deserialize("&#ffb6c1" + ("pretty" + ("&#ff69b4" + ("&l" + ("in" + ("&#ffc0cb" + ("pink")))))), '&', true)
         == TextNode("", Empty, [TextNode("pretty", Style(Some(Rgb(0xffb6c1)), map[]), []), TextNode("in", Style(Some(Rgb(0xff69b4)), map[Bold := true]), []), TextNode("pink", Style(Some(Rgb(0xffc0cb)), map[]), [])])
  {
    assert PlainText("pretty", '&');
    assert PlainText("in", '&');
    assert PlainText("pink", '&');
    PrintedRgbffb6c1AmpersandHex();
    ApplyRgbffb6c1AfterPlain();
    PrintedRgbff69b4AmpersandHex();
    ApplyRgbff69b4AfterRgbffb6c1();
    PrintedBoldAmpersandHex();
    ApplyBoldAfterRgbff69b4();
    PrintedRgbffc0cbAmpersandHex();
    ApplyRgbffc0cbAfterRgbff69b4Bold();
    ExplicitRgbffb6c1();
    ExplicitRgbff69b4Bold();
    ExplicitRgbffc0cb();
    FromHexRead(SetColour(Rgb(0xffb6c1)), "pretty", SetColour(Rgb(0xff69b4)), Decorate(Bold), "in", SetColour(Rgb(0xffc0cb)), "pink");
  }

  lemma FromHexRepeatedLexed(c1: Token, p1: string, x2: string)
    requires Printable(c1, SectionSign, true) && p1 == PrintToken(c1, SectionSign, true) && SectionSign !in x2
    ensures Lex(p1 + (x2), SectionSign, true)
         == [c1] + (Chars(x2) + [])
  {
    var s1 := x2;
    assert x2 + [] == x2;
    LexText(x2, [], SectionSign, true);
    LexToken(c1, s1, SectionSign, true, true);
    assert Lex([], SectionSign, true) == [];
  }

  lemma FromHexRepeatedRuns(c1: Token, st1: Effective, x2: string)
    requires !c1.Char? && Apply(Plain, c1) == st1 && x2 != []
    ensures Split([c1] + (Chars(x2) + []), [])
         == Parsed([], [Run(x2, st1)])
  {
    SplitCode(c1, Chars(x2) + [], []);
    FromColourRunsFrom4(st1, x2);
  }

  lemma FromHexRepeatedRead(c1: Token, x2: string)
    requires PrintableCode(c1, SectionSign, true) && PlainText(x2, SectionSign)
    ensures Deserialize(PrintToken(c1, SectionSign, true) + (x2), SectionSign, true)
         == TextNode(x2, Explicit(Apply(Plain, c1)), [])
  {
    var p1 := PrintToken(c1, SectionSign, true);
    var st1 := Apply(Plain, c1);
    FromHexRepeatedLexed(c1, p1, x2);
    FromHexRepeatedRuns(c1, st1, x2);
  }

  /** The repeated-character hex form is read as one colour. */
  lemma FromHexRepeated()
    ensures Deserialize("\U{00A7}x\U{00A7}f\U{00A7}f\U{00A7}e\U{00A7}f\U{00A7}d\U{00A7}5" + ("Kittens!"), SectionSign, true)
         == TextNode("Kittens!", Style(Some(Rgb(0xffefd5)), map[]), [])
  {
    assert PlainText("Kittens!", SectionSign);
    PrintedRgbffefd5SectionHexRepeated();
    ApplyRgbffefd5AfterPlain();
    ExplicitRgbffefd5();
    FromHexRepeatedRead(SetColour(Rgb(0xffefd5)), "Kittens!");
  }

  lemma FromHexRepeatedMixedLexed(c1: Token, p1: string, x2: string, c3: Token, p3: string, x4: string)
    requires Printable(c1, SectionSign, true) && p1 == PrintToken(c1, SectionSign, true) && SectionSign !in x2 && Printable(c3, SectionSign, true) && p3 == PrintToken(c3, SectionSign, true) && SectionSign !in x4
    ensures Lex(p1 + (x2 + (p3 + (x4))), SectionSign, true)
         == [c1] + (Chars(x2) + ([c3] + (Chars(x4) + [])))
  {
    var s3 := x4;
    var s2 := p3 + (x4);
    var s1 := x2 + (p3 + (x4));
    assert x4 + [] == x4;
    LexText(x4, [], SectionSign, true);
    LexToken(c3, s3, SectionSign, true, true);
    LexText(x2, s2, SectionSign, true);
    LexToken(c1, s1, SectionSign, true, true);
    assert Lex([], SectionSign, true) == [];
  }

  lemma FromHexRepeatedMixedRuns(c1: Token, st1: Effective, x2: string, c3: Token, st3: Effective, x4: string)
    requires !c1.Char? && Apply(Plain, c1) == st1 && x2 != [] && !c3.Char? && Apply(st1, c3) == st3 && x4 != []
    ensures Split([c1] + (Chars(x2) + ([c3] + (Chars(x4) + []))), [])
         == Parsed([], [Run(x2, st1), Run(x4, st3)])
  {
    SplitCode(c1, Chars(x2) + ([c3] + (Chars(x4) + [])), []);
    FromColourRunsFrom2(st1, x2, c3, st3, x4);
  }

  lemma FromHexRepeatedMixedRead(c1: Token, x2: string, c3: Token, x4: string)
    requires PrintableCode(c1, SectionSign, true) && PlainText(x2, SectionSign) && PrintableCode(c3, SectionSign, true) && PlainText(x4, SectionSign)
    ensures Deserialize(PrintToken(c1, SectionSign, true) + (x2 + (PrintToken(c3, SectionSign, true) + (x4))), SectionSign, true)
         == TextNode([], Empty, [TextNode(x2, Explicit(Apply(Plain, c1)), []), TextNode(x4, Explicit(Apply(Apply(Plain, c1), c3)), [])])
  {
    var p1 := PrintToken(c1, SectionSign, true);
    var st1 := Apply(Plain, c1);
    var p3 := PrintToken(c3, SectionSign, true);
    var st3 := Apply(st1, c3);
    FromHexRepeatedMixedLexed(c1, p1, x2, c3, p3, x4);
    FromHexRepeatedMixedRuns(c1, st1, x2, c3, st3, x4);
    assert [Run(x4, st3)][1..] == [];
    assert [Run(x2, st1), Run(x4, st3)][1..] == [Run(x4, st3)];
  }

  /** A named colour code and a repeated-character hex colour in one string. */
  lemma FromHexRepeatedMixed()
    ensures Deserialize("\U{00A7}c" + ("Hugs and " + ("\U{00A7}x\U{00A7}f\U{00A7}f\U{00A7}e\U{00A7}f\U{00A7}d\U{00A7}5" + ("Kittens!"))), SectionSign, true)
         == TextNode("", Empty, [TextNode("Hugs and ", Style(Some(Named(Red)), map[]), []), TextNode("Kittens!", Style(Some(Rgb(0xffefd5)), map[]), [])])
  {
    assert PlainText("Hugs and ", SectionSign);
    assert PlainText("Kittens!", SectionSign);
    PrintedRedSectionHexRepeated();
    ApplyRedAfterPlain();
    PrintedRgbffefd5SectionHexRepeated();
    ApplyRgbffefd5AfterRed();
    ExplicitRed();
    ExplicitRgbffefd5();
    FromHexRepeatedMixedRead(SetColour(Named(Red)), "Hugs and ", SetColour(Rgb(0xffefd5)), "Kittens!");
  }

  lemma FromHexRepeatedLookaheadLexed(c1: Token, p1: string, x2: string, c3: Token, p3: string, c4: Token, p4: string, c5: Token, p5: string, c6: Token, p6: string, c7: Token, p7: string, c8: Token, p8: string, x9: string)
    requires Printable(c1, SectionSign, true) && p1 == PrintToken(c1, SectionSign, false) && SectionSign !in x2 && Printable(c3, SectionSign, true) && p3 == PrintToken(c3, SectionSign, false) && Printable(c4, SectionSign, true) && p4 == PrintToken(c4, SectionSign, false) && Printable(c5, SectionSign, true) && p5 == PrintToken(c5, SectionSign, false) && Printable(c6, SectionSign, true) && p6 == PrintToken(c6, SectionSign, false) && Printable(c7, SectionSign, true) && p7 == PrintToken(c7, SectionSign, false) && Printable(c8, SectionSign, true) && p8 == PrintToken(c8, SectionSign, false) && SectionSign !in x9
    ensures Lex(p1 + (x2 + (p3 + (p4 + (p5 + (p6 + (p7 + (p8 + (x9)))))))), SectionSign, true)
         == [c1] + (Chars(x2) + ([c3] + ([c4] + ([c5] + ([c6] + ([c7] + ([c8] + (Chars(x9) + []))))))))
  {
    var s8 := x9;
    var s7 := p8 + (x9);
    var s6 := p7 + (p8 + (x9));
    var s5 := p6 + (p7 + (p8 + (x9)));
    var s4 := p5 + (p6 + (p7 + (p8 + (x9))));
    var s3 := p4 + (p5 + (p6 + (p7 + (p8 + (x9)))));
    var s2 := p3 + (p4 + (p5 + (p6 + (p7 + (p8 + (x9))))));
    var s1 := x2 + (p3 + (p4 + (p5 + (p6 + (p7 + (p8 + (x9)))))));
    assert x9 + [] == x9;
    LexText(x9, [], SectionSign, true);
    LexToken(c8, s8, SectionSign, true, false);
    LexToken(c7, s7, SectionSign, true, false);
    LexToken(c6, s6, SectionSign, true, false);
    LexToken(c5, s5, SectionSign, true, false);
    LexToken(c4, s4, SectionSign, true, false);
    LexToken(c3, s3, SectionSign, true, false);
    LexText(x2, s2, SectionSign, true);
    LexToken(c1, s1, SectionSign, true, false);
    assert Lex([], SectionSign, true) == [];
  }

  lemma FromHexRepeatedLookaheadRuns(c1: Token, st1: Effective, x2: string, c3: Token, st3: Effective, c4: Token, st4: Effective, c5: Token, st5: Effective, c6: Token, st6: Effective, c7: Token, st7: Effective, c8: Token, st8: Effective, x9: string)
    requires !c1.Char? && Apply(Plain, c1) == st1 && x2 != [] && !c3.Char? && Apply(st1, c3) == st3 && !c4.Char? && Apply(st3, c4) == st4 && !c5.Char? && Apply(st4, c5) == st5 && !c6.Char? && Apply(st5, c6) == st6 && !c7.Char? && Apply(st6, c7) == st7 && !c8.Char? && Apply(st7, c8) == st8 && x9 != []
    ensures Split([c1] + (Chars(x2) + ([c3] + ([c4] + ([c5] + ([c6] + ([c7] + ([c8] + (Chars(x9) + [])))))))), [])
         == Parsed([], [Run(x2, st1), Run(x9, st8)])
  {
    SplitCode(c1, Chars(x2) + ([c3] + ([c4] + ([c5] + ([c6] + ([c7] + ([c8] + (Chars(x9) + []))))))), []);
    FromHexRepeatedLookaheadRunsFrom1(st1, x2, c3, st3, c4, st4, c5, st5, c6, st6, c7, st7, c8, st8, x9);
  }

  lemma FromHexRepeatedLookaheadRunsFrom1(st1: Effective, x2: string, c3: Token, st3: Effective, c4: Token, st4: Effective, c5: Token, st5: Effective, c6: Token, st6: Effective, c7: Token, st7: Effective, c8: Token, st8: Effective, x9: string)
    requires x2 != [] && !c3.Char? && Apply(st1, c3) == st3 && !c4.Char? && Apply(st3, c4) == st4 && !c5.Char? && Apply(st4, c5) == st5 && !c6.Char? && Apply(st5, c6) == st6 && !c7.Char? && Apply(st6, c7) == st7 && !c8.Char? && Apply(st7, c8) == st8 && x9 != []
    ensures Runs(Chars(x2) + ([c3] + ([c4] + ([c5] + ([c6] + ([c7] + ([c8] + (Chars(x9) + []))))))), st1, []) == [Run(x2, st1), Run(x9, st8)]
  {
    RunsText(x2, [c3] + ([c4] + ([c5] + ([c6] + ([c7] + ([c8] + (Chars(x9) + [])))))), st1, []);
    assert [] + x2 == x2;
    FromHexRepeatedLookaheadRunsFrom2(st1, x2, c3, st3, c4, st4, c5, st5, c6, st6, c7, st7, c8, st8, x9);
  }

  lemma FromHexRepeatedLookaheadRunsFrom2(st1: Effective, x2: string, c3: Token, st3: Effective, c4: Token, st4: Effective, c5: Token, st5: Effective, c6: Token, st6: Effective, c7: Token, st7: Effective, c8: Token, st8: Effective, x9: string)
    requires x2 != [] && !c3.Char? && Apply(st1, c3) == st3 && !c4.Char? && Apply(st3, c4) == st4 && !c5.Char? && Apply(st4, c5) == st5 && !c6.Char? && Apply(st5, c6) == st6 && !c7.Char? && Apply(st6, c7) == st7 && !c8.Char? && Apply(st7, c8) == st8 && x9 != []
    ensures Runs([c3] + ([c4] + ([c5] + ([c6] + ([c7] + ([c8] + (Chars(x9) + [])))))), st1, x2) == [Run(x2, st1), Run(x9, st8)]
  {
    RunsCode(c3, [c4] + ([c5] + ([c6] + ([c7] + ([c8] + (Chars(x9) + []))))), st1, x2);
    FromHexRepeatedLookaheadRunsFrom3(st3, c4, st4, c5, st5, c6, st6, c7, st7, c8, st8, x9);
  }

  lemma FromHexRepeatedLookaheadRunsFrom3(st3: Effective, c4: Token, st4: Effective, c5: Token, st5: Effective, c6: Token, st6: Effective, c7: Token, st7: Effective, c8: Token, st8: Effective, x9: string)
    requires !c4.Char? && Apply(st3, c4) == st4 && !c5.Char? && Apply(st4, c5) == st5 && !c6.Char? && Apply(st5, c6) == st6 && !c7.Char? && Apply(st6, c7) == st7 && !c8.Char? && Apply(st7, c8) == st8 && x9 != []
    ensures Runs([c4] + ([c5] + ([c6] + ([c7] + ([c8] + (Chars(x9) + []))))), st3, []) == [Run(x9, st8)]
  {
    RunsCode(c4, [c5] + ([c6] + ([c7] + ([c8] + (Chars(x9) + [])))), st3, []);
    FromHexRepeatedLookaheadRunsFrom4(st4, c5, st5, c6, st6, c7, st7, c8, st8, x9);
  }

  lemma FromHexRepeatedLookaheadRunsFrom4(st4: Effective, c5: Token, st5: Effective, c6: Token, st6: Effective, c7: Token, st7: Effective, c8: Token, st8: Effective, x9: string)
    requires !c5.Char? && Apply(st4, c5) == st5 && !c6.Char? && Apply(st5, c6) == st6 && !c7.Char? && Apply(st6, c7) == st7 && !c8.Char? && Apply(st7, c8) == st8 && x9 != []
    ensures Runs([c5] + ([c6] + ([c7] + ([c8] + (Chars(x9) + [])))), st4, []) == [Run(x9, st8)]
  {
    RunsCode(c5, [c6] + ([c7] + ([c8] + (Chars(x9) + []))), st4, []);
    FromHexRepeatedLookaheadRunsFrom5(st5, c6, st6, c7, st7, c8, st8, x9);
  }

  lemma FromHexRepeatedLookaheadRunsFrom5(st5: Effective, c6: Token, st6: Effective, c7: Token, st7: Effective, c8: Token, st8: Effective, x9: string)
    requires !c6.Char? && Apply(st5, c6) == st6 && !c7.Char? && Apply(st6, c7) == st7 && !c8.Char? && Apply(st7, c8) == st8 && x9 != []
    ensures Runs([c6] + ([c7] + ([c8] + (Chars(x9) + []))), st5, []) == [Run(x9, st8)]
  {
    RunsCode(c6, [c7] + ([c8] + (Chars(x9) + [])), st5, []);
    FromHexRepeatedLookaheadRunsFrom6(st6, c7, st7, c8, st8, x9);
  }

  lemma FromHexRepeatedLookaheadRunsFrom6(st6: Effective, c7: Token, st7: Effective, c8: Token, st8: Effective, x9: string)
    requires !c7.Char? && Apply(st6, c7) == st7 && !c8.Char? && Apply(st7, c8) == st8 && x9 != []
    ensures Runs([c7] + ([c8] + (Chars(x9) + [])), st6, []) == [Run(x9, st8)]
  {
    RunsCode(c7, [c8] + (Chars(x9) + []), st6, []);
    FromColourOverrideRunsFrom1(st7, c8, st8, x9);
  }

  lemma FromHexRepeatedLookaheadRead(c1: Token, x2: string, c3: Token, c4: Token, c5: Token, c6: Token, c7: Token, c8: Token, x9: string)
    requires PrintableCode(c1, SectionSign, true) && PlainText(x2, SectionSign) && PrintableCode(c3, SectionSign, true) && PrintableCode(c4, SectionSign, true) && PrintableCode(c5, SectionSign, true) && PrintableCode(c6, SectionSign, true) && PrintableCode(c7, SectionSign, true) && PrintableCode(c8, SectionSign, true) && PlainText(x9, SectionSign)
    ensures Deserialize(PrintToken(c1, SectionSign, false) + (x2 + (PrintToken(c3, SectionSign, false) + (PrintToken(c4, SectionSign, false) + (PrintToken(c5, SectionSign, false) + (PrintToken(c6, SectionSign, false) + (PrintToken(c7, SectionSign, false) + (PrintToken(c8, SectionSign, false) + (x9)))))))), SectionSign, true)
         == TextNode([], Empty, [TextNode(x2, Explicit(Apply(Plain, c1)), []), TextNode(x9, Explicit(Apply(Apply(Apply(Apply(Apply(Apply(Apply(Plain, c1), c3), c4), c5), c6), c7), c8)), [])])
  {
    var p1 := PrintToken(c1, SectionSign, false);
    var st1 := Apply(Plain, c1);
    var p3 := PrintToken(c3, SectionSign, false);
    var st3 := Apply(st1, c3);
    var p4 := PrintToken(c4, SectionSign, false);
    var st4 := Apply(st3, c4);
    var p5 := PrintToken(c5, SectionSign, false);
    var st5 := Apply(st4, c5);
    var p6 := PrintToken(c6, SectionSign, false);
    var st6 := Apply(st5, c6);
    var p7 := PrintToken(c7, SectionSign, false);
    var st7 := Apply(st6, c7);
    var p8 := PrintToken(c8, SectionSign, false);
    var st8 := Apply(st7, c8);
    FromHexRepeatedLookaheadLexed(c1, p1, x2, c3, p3, c4, p4, c5, p5, c6, p6, c7, p7, c8, p8, x9);
    FromHexRepeatedLookaheadRuns(c1, st1, x2, c3, st3, c4, st4, c5, st5, c6, st6, c7, st7, c8, st8, x9);
    assert [Run(x9, st8)][1..] == [];
    assert [Run(x2, st1), Run(x9, st8)][1..] == [Run(x9, st8)];
  }

  /** Without the `x` introducer the pairs are six colour codes, and the last one wins. */
  lemma FromHexRepeatedLookahead()
    ensures Deserialize("\U{00A7}c" + ("Hugs and " + ("\U{00A7}f" + ("\U{00A7}f" + ("\U{00A7}e" + ("\U{00A7}f" + ("\U{00A7}d" + ("\U{00A7}5" + ("Kittens!")))))))), SectionSign, true)
         == TextNode("", Empty, [TextNode("Hugs and ", Style(Some(Named(Red)), map[]), []), TextNode("Kittens!", Style(Some(Named(DarkPurple)), map[]), [])])
  {
    assert PlainText("Hugs and ", SectionSign);
    assert PlainText("Kittens!", SectionSign);
    PrintedRedSectionHex();
    ApplyRedAfterPlain();
    PrintedWhiteSectionHex();
    ApplyWhiteAfterRed();
    ApplyWhiteAfterWhite();
    PrintedYellowSectionHex();
    ApplyYellowAfterWhite();
    ApplyWhiteAfterYellow();
    PrintedLightPurpleSectionHex();
    ApplyLightPurpleAfterWhite();
    PrintedDarkPurpleSectionHex();
    ApplyDarkPurpleAfterLightPurple();
    ExplicitRed();
    ExplicitDarkPurple();
    FromHexRepeatedLookaheadRead(SetColour(Named(Red)), "Hugs and ", SetColour(Named(White)), SetColour(Named(White)), SetColour(Named(Yellow)), SetColour(Named(White)), SetColour(Named(LightPurple)), SetColour(Named(DarkPurple)), "Kittens!");
  }

  lemma FromHexRepeatedMultipleLexed(x1: string, c2: Token, p2: string, x3: string, c4: Token, p4: string, x5: string)
    requires SectionSign !in x1 && Printable(c2, SectionSign, true) && p2 == PrintToken(c2, SectionSign, true) && SectionSign !in x3 && Printable(c4, SectionSign, true) && p4 == PrintToken(c4, SectionSign, true) && SectionSign !in x5
    ensures Lex(x1 + (p2 + (x3 + (p4 + (x5)))), SectionSign, true)
         == Chars(x1) + ([c2] + (Chars(x3) + ([c4] + (Chars(x5) + []))))
  {
    var s4 := x5;
    var s3 := p4 + (x5);
    var s2 := x3 + (p4 + (x5));
    var s1 := p2 + (x3 + (p4 + (x5)));
    assert x5 + [] == x5;
    LexText(x5, [], SectionSign, true);
    LexToken(c4, s4, SectionSign, true, true);
    LexText(x3, s3, SectionSign, true);
    LexToken(c2, s2, SectionSign, true, true);
    LexText(x1, s1, SectionSign, true);
    assert Lex([], SectionSign, true) == [];
  }

  lemma FromHexRepeatedMultipleRuns(x1: string, c2: Token, st2: Effective, x3: string, c4: Token, st4: Effective, x5: string)
    requires x1 != [] && !c2.Char? && Apply(Plain, c2) == st2 && x3 != [] && !c4.Char? && Apply(st2, c4) == st4 && x5 != []
    ensures Split(Chars(x1) + ([c2] + (Chars(x3) + ([c4] + (Chars(x5) + [])))), [])
         == Parsed(x1, [Run(x3, st2), Run(x5, st4)])
  {
    SplitText(x1, [c2] + (Chars(x3) + ([c4] + (Chars(x5) + []))), []);
    assert [] + x1 == x1;
    SplitCode(c2, Chars(x3) + ([c4] + (Chars(x5) + [])), x1);
    FromColourRunsFrom2(st2, x3, c4, st4, x5);
  }

  lemma FromHexRepeatedMultipleRead(x1: string, c2: Token, x3: string, c4: Token, x5: string)
    requires PlainText(x1, SectionSign) && PrintableCode(c2, SectionSign, true) && PlainText(x3, SectionSign) && PrintableCode(c4, SectionSign, true) && PlainText(x5, SectionSign)
    ensures Deserialize(x1 + (PrintToken(c2, SectionSign, true) + (x3 + (PrintToken(c4, SectionSign, true) + (x5)))), SectionSign, true)
         == TextNode(x1, Empty, [TextNode(x3, Explicit(Apply(Plain, c2)), []), TextNode(x5, Explicit(Apply(Apply(Plain, c2), c4)), [])])
  {
    var p2 := PrintToken(c2, SectionSign, true);
    var st2 := Apply(Plain, c2);
    var p4 := PrintToken(c4, SectionSign, true);
    var st4 := Apply(st2, c4);
    FromHexRepeatedMultipleLexed(x1, c2, p2, x3, c4, p4, x5);
    FromHexRepeatedMultipleRuns(x1, c2, st2, x3, c4, st4, x5);
    assert [Run(x5, st4)][1..] == [];
    assert [Run(x3, st2), Run(x5, st4)][1..] == [Run(x5, st4)];
  }

  /** Text before the first code becomes the root's content; two repeated-character colours follow. */
  lemma FromHexRepeatedMultiple()
    ensures Deserialize("Happy with " + ("\U{00A7}x\U{00A7}6\U{00A7}b\U{00A7}4\U{00A7}6\U{00A7}6\U{00A7}8" + ("Lavender and " + ("\U{00A7}x\U{00A7}f\U{00A7}f\U{00A7}e\U{00A7}f\U{00A7}d\U{00A7}5" + ("Cyan!")))), SectionSign, true)
         == TextNode("Happy with ", Empty, [TextNode("Lavender and ", Style(Some(Rgb(0x6b4668)), map[]), []), TextNode("Cyan!", Style(Some(Rgb(0xffefd5)), map[]), [])])
  {
    assert PlainText("Happy with ", SectionSign);
    assert PlainText("Lavender and ", SectionSign);
    assert PlainText("Cyan!", SectionSign);
    PrintedRgb6b4668SectionHexRepeated();
    ApplyRgb6b4668AfterPlain();
    PrintedRgbffefd5SectionHexRepeated();
    ApplyRgbffefd5AfterRgb6b4668();
    ExplicitRgb6b4668();
    ExplicitRgbffefd5();
    FromHexRepeatedMultipleRead("Happy with ", SetColour(Rgb(0x6b4668)), "Lavender and ", SetColour(Rgb(0xffefd5)), "Cyan!");
  }

  lemma HangingRestLexed(c1: Token, p1: string, x2: string)
    requires Printable(c1, SectionSign, true) && p1 == PrintToken(c1, SectionSign, false) && SectionSign !in x2
    ensures Lex(p1 + (x2), SectionSign, true)
         == [c1] + (Chars(x2) + [])
  {
    var s1 := x2;
    assert x2 + [] == x2;
    LexText(x2, [], SectionSign, true);
    LexToken(c1, s1, SectionSign, true, false);
    assert Lex([], SectionSign, true) == [];
  }

  /** The introducer is dropped: `x` text follows the first pair, not an escape. */
  lemma HangingDropped(x: string)
    requires SectionSign !in x && x != []
    ensures Lex("\U{00A7}x" + ("\U{00A7}e" + x), SectionSign, true) == Lex("\U{00A7}e" + x, SectionSign, true)
  {
    var rest := "\U{00A7}e" + x;
    assert "\U{00A7}x" == [SectionSign, RepeatedHexIntroducer];
    if |rest| >= 12 {
      var t := rest[..12];
      var h := Odd(t);
      assert t[2] == x[0] && x[0] != SectionSign;
      assert Interleave(SectionSign, h) == [SectionSign, h[0]] + Interleave(SectionSign, h[1..]);
      assert Interleave(SectionSign, h)[2] == SectionSign;
    }
    DroppedIntroducer(rest, SectionSign);
  }

  lemma HangingRead(c: Token, x: string)
    requires PrintableCode(c, SectionSign, true) && PrintToken(c, SectionSign, false) == "\U{00A7}e" && PlainText(x, SectionSign)
    ensures Deserialize("\U{00A7}x" + ("\U{00A7}e" + x), SectionSign, true)
         == TextNode(x, Explicit(Apply(Plain, c)), [])
  {
    HangingDropped(x);
    HangingRestLexed(c, "\U{00A7}e", x);
    FromHexRepeatedRuns(c, Apply(Plain, c), x);
  }

  /** Yellow is written `§e` and read back as a lone colour. */
  lemma HangingYellow()
    ensures PrintableCode(SetColour(Named(Yellow)), SectionSign, true)
    ensures PrintToken(SetColour(Named(Yellow)), SectionSign, false) == "\U{00A7}e"
    ensures Explicit(Apply(Plain, SetColour(Named(Yellow)))) == Style(Some(Named(Yellow)), map[])
  {
    assert PrintToken(SetColour(Named(Yellow)), SectionSign, false) == "\U{00A7}e";
    assert Apply(Plain, SetColour(Named(Yellow))) == Effective(Some(Named(Yellow)), {});
    ExplicitNone(Some(Named(Yellow)));
  }

  /** An `x` introducer that is not followed by six escape-and-digit pairs
      is dropped, and the code after it still applies. */
  lemma FromHexRepeatedHanging()
    ensures Deserialize("\U{00A7}x" + ("\U{00A7}e" + "Kittens!"), SectionSign, true)
         == TextNode("Kittens!", Style(Some(Named(Yellow)), map[]), [])
  {
    assert PlainText("Kittens!", SectionSign);
    HangingYellow();
    HangingRead(SetColour(Named(Yellow)), "Kittens!");
  }

  lemma StackedFormattingLexed(c1: Token, p1: string, c2: Token, p2: string, c3: Token, p3: string, c4: Token, p4: string, x5: string, c6: Token, p6: string, c7: Token, p7: string, x8: string, c9: Token, p9: string, c10: Token, p10: string, x11: string)
    requires Printable(c1, SectionSign, false) && p1 == PrintToken(c1, SectionSign, false) && Printable(c2, SectionSign, false) && p2 == PrintToken(c2, SectionSign, false) && Printable(c3, SectionSign, false) && p3 == PrintToken(c3, SectionSign, false) && Printable(c4, SectionSign, false) && p4 == PrintToken(c4, SectionSign, false) && SectionSign !in x5 && Printable(c6, SectionSign, false) && p6 == PrintToken(c6, SectionSign, false) && Printable(c7, SectionSign, false) && p7 == PrintToken(c7, SectionSign, false) && SectionSign !in x8 && Printable(c9, SectionSign, false) && p9 == PrintToken(c9, SectionSign, false) && Printable(c10, SectionSign, false) && p10 == PrintToken(c10, SectionSign, false) && SectionSign !in x11
    ensures Lex(p1 + (p2 + (p3 + (p4 + (x5 + (p6 + (p7 + (x8 + (p9 + (p10 + (x11)))))))))), SectionSign, false)
         == [c1] + ([c2] + ([c3] + ([c4] + (Chars(x5) + ([c6] + ([c7] + (Chars(x8) + ([c9] + ([c10] + (Chars(x11) + []))))))))))
  {
    var s10 := x11;
    var s9 := p10 + (x11);
    var s8 := p9 + (p10 + (x11));
    var s7 := x8 + (p9 + (p10 + (x11)));
    var s6 := p7 + (x8 + (p9 + (p10 + (x11))));
    var s5 := p6 + (p7 + (x8 + (p9 + (p10 + (x11)))));
    var s4 := x5 + (p6 + (p7 + (x8 + (p9 + (p10 + (x11))))));
    var s3 := p4 + (x5 + (p6 + (p7 + (x8 + (p9 + (p10 + (x11)))))));
    var s2 := p3 + (p4 + (x5 + (p6 + (p7 + (x8 + (p9 + (p10 + (x11))))))));
    var s1 := p2 + (p3 + (p4 + (x5 + (p6 + (p7 + (x8 + (p9 + (p10 + (x11)))))))));
    assert x11 + [] == x11;
    LexText(x11, [], SectionSign, false);
    LexToken(c10, s10, SectionSign, false, false);
    LexToken(c9, s9, SectionSign, false, false);
    LexText(x8, s8, SectionSign, false);
    LexToken(c7, s7, SectionSign, false, false);
    LexToken(c6, s6, SectionSign, false, false);
    LexText(x5, s5, SectionSign, false);
    LexToken(c4, s4, SectionSign, false, false);
    LexToken(c3, s3, SectionSign, false, false);
    LexToken(c2, s2, SectionSign, false, false);
    LexToken(c1, s1, SectionSign, false, false);
    assert Lex([], SectionSign, false) == [];
  }

  lemma StackedFormattingRuns(c1: Token, st1: Effective, c2: Token, st2: Effective, c3: Token, st3: Effective, c4: Token, st4: Effective, x5: string, c6: Token, st6: Effective, c7: Token, st7: Effective, x8: string, c9: Token, st9: Effective, c10: Token, st10: Effective, x11: string)
    requires !c1.Char? && Apply(Plain, c1) == st1 && !c2.Char? && Apply(st1, c2) == st2 && !c3.Char? && Apply(st2, c3) == st3 && !c4.Char? && Apply(st3, c4) == st4 && x5 != [] && !c6.Char? && Apply(st4, c6) == st6 && !c7.Char? && Apply(st6, c7) == st7 && x8 != [] && !c9.Char? && Apply(st7, c9) == st9 && !c10.Char? && Apply(st9, c10) == st10 && x11 != []
    ensures Split([c1] + ([c2] + ([c3] + ([c4] + (Chars(x5) + ([c6] + ([c7] + (Chars(x8) + ([c9] + ([c10] + (Chars(x11) + [])))))))))), [])
         == Parsed([], [Run(x5, st4), Run(x8, st7), Run(x11, st10)])
  {
    SplitCode(c1, [c2] + ([c3] + ([c4] + (Chars(x5) + ([c6] + ([c7] + (Chars(x8) + ([c9] + ([c10] + (Chars(x11) + []))))))))), []);
    StackedFormattingRunsFrom1(st1, c2, st2, c3, st3, c4, st4, x5, c6, st6, c7, st7, x8, c9, st9, c10, st10, x11);
  }

  lemma StackedFormattingRunsFrom1(st1: Effective, c2: Token, st2: Effective, c3: Token, st3: Effective, c4: Token, st4: Effective, x5: string, c6: Token, st6: Effective, c7: Token, st7: Effective, x8: string, c9: Token, st9: Effective, c10: Token, st10: Effective, x11: string)
    requires !c2.Char? && Apply(st1, c2) == st2 && !c3.Char? && Apply(st2, c3) == st3 && !c4.Char? && Apply(st3, c4) == st4 && x5 != [] && !c6.Char? && Apply(st4, c6) == st6 && !c7.Char? && Apply(st6, c7) == st7 && x8 != [] && !c9.Char? && Apply(st7, c9) == st9 && !c10.Char? && Apply(st9, c10) == st10 && x11 != []
    ensures Runs([c2] + ([c3] + ([c4] + (Chars(x5) + ([c6] + ([c7] + (Chars(x8) + ([c9] + ([c10] + (Chars(x11) + []))))))))), st1, []) == [Run(x5, st4), Run(x8, st7), Run(x11, st10)]
  {
    RunsCode(c2, [c3] + ([c4] + (Chars(x5) + ([c6] + ([c7] + (Chars(x8) + ([c9] + ([c10] + (Chars(x11) + [])))))))), st1, []);
    StackedFormattingRunsFrom2(st2, c3, st3, c4, st4, x5, c6, st6, c7, st7, x8, c9, st9, c10, st10, x11);
  }

  lemma StackedFormattingRunsFrom2(st2: Effective, c3: Token, st3: Effective, c4: Token, st4: Effective, x5: string, c6: Token, st6: Effective, c7: Token, st7: Effective, x8: string, c9: Token, st9: Effective, c10: Token, st10: Effective, x11: string)
    requires !c3.Char? && Apply(st2, c3) == st3 && !c4.Char? && Apply(st3, c4) == st4 && x5 != [] && !c6.Char? && Apply(st4, c6) == st6 && !c7.Char? && Apply(st6, c7) == st7 && x8 != [] && !c9.Char? && Apply(st7, c9) == st9 && !c10.Char? && Apply(st9, c10) == st10 && x11 != []
    ensures Runs([c3] + ([c4] + (Chars(x5) + ([c6] + ([c7] + (Chars(x8) + ([c9] + ([c10] + (Chars(x11) + [])))))))), st2, []) == [Run(x5, st4), Run(x8, st7), Run(x11, st10)]
  {
    RunsCode(c3, [c4] + (Chars(x5) + ([c6] + ([c7] + (Chars(x8) + ([c9] + ([c10] + (Chars(x11) + []))))))), st2, []);
    StackedFormattingRunsFrom3(st3, c4, st4, x5, c6, st6, c7, st7, x8, c9, st9, c10, st10, x11);
  }

  lemma StackedFormattingRunsFrom3(st3: Effective, c4: Token, st4: Effective, x5: string, c6: Token, st6: Effective, c7: Token, st7: Effective, x8: string, c9: Token, st9: Effective, c10: Token, st10: Effective, x11: string)
    requires !c4.Char? && Apply(st3, c4) == st4 && x5 != [] && !c6.Char? && Apply(st4, c6) == st6 && !c7.Char? && Apply(st6, c7) == st7 && x8 != [] && !c9.Char? && Apply(st7, c9) == st9 && !c10.Char? && Apply(st9, c10) == st10 && x11 != []
    ensures Runs([c4] + (Chars(x5) + ([c6] + ([c7] + (Chars(x8) + ([c9] + ([c10] + (Chars(x11) + []))))))), st3, []) == [Run(x5, st4), Run(x8, st7), Run(x11, st10)]
  {
    RunsCode(c4, Chars(x5) + ([c6] + ([c7] + (Chars(x8) + ([c9] + ([c10] + (Chars(x11) + [])))))), st3, []);
    StackedFormattingRunsFrom4(st4, x5, c6, st6, c7, st7, x8, c9, st9, c10, st10, x11);
  }

  lemma StackedFormattingRunsFrom4(st4: Effective, x5: string, c6: Token, st6: Effective, c7: Token, st7: Effective, x8: string, c9: Token, st9: Effective, c10: Token, st10: Effective, x11: string)
    requires x5 != [] && !c6.Char? && Apply(st4, c6) == st6 && !c7.Char? && Apply(st6, c7) == st7 && x8 != [] && !c9.Char? && Apply(st7, c9) == st9 && !c10.Char? && Apply(st9, c10) == st10 && x11 != []
    ensures Runs(Chars(x5) + ([c6] + ([c7] + (Chars(x8) + ([c9] + ([c10] + (Chars(x11) + [])))))), st4, []) == [Run(x5, st4), Run(x8, st7), Run(x11, st10)]
  {
    RunsText(x5, [c6] + ([c7] + (Chars(x8) + ([c9] + ([c10] + (Chars(x11) + []))))), st4, []);
    assert [] + x5 == x5;
    StackedFormattingRunsFrom5(st4, x5, c6, st6, c7, st7, x8, c9, st9, c10, st10, x11);
  }

  lemma StackedFormattingRunsFrom5(st4: Effective, x5: string, c6: Token, st6: Effective, c7: Token, st7: Effective, x8: string, c9: Token, st9: Effective, c10: Token, st10: Effective, x11: string)
    requires x5 != [] && !c6.Char? && Apply(st4, c6) == st6 && !c7.Char? && Apply(st6, c7) == st7 && x8 != [] && !c9.Char? && Apply(st7, c9) == st9 && !c10.Char? && Apply(st9, c10) == st10 && x11 != []
    ensures Runs([c6] + ([c7] + (Chars(x8) + ([c9] + ([c10] + (Chars(x11) + []))))), st4, x5) == [Run(x5, st4), Run(x8, st7), Run(x11, st10)]
  {
    RunsCode(c6, [c7] + (Chars(x8) + ([c9] + ([c10] + (Chars(x11) + [])))), st4, x5);
    ResetOverrideRunsFrom1(st6, c7, st7, x8, c9, st9, c10, st10, x11);
  }

  lemma StackedFormattingRead(c1: Token, c2: Token, c3: Token, c4: Token, x5: string, c6: Token, c7: Token, x8: string, c9: Token, c10: Token, x11: string)
    requires PrintableCode(c1, SectionSign, false) && PrintableCode(c2, SectionSign, false) && PrintableCode(c3, SectionSign, false) && PrintableCode(c4, SectionSign, false) && PlainText(x5, SectionSign) && PrintableCode(c6, SectionSign, false) && PrintableCode(c7, SectionSign, false) && PlainText(x8, SectionSign) && PrintableCode(c9, SectionSign, false) && PrintableCode(c10, SectionSign, false) && PlainText(x11, SectionSign)
    ensures Deserialize(PrintToken(c1, SectionSign, false) + (PrintToken(c2, SectionSign, false) + (PrintToken(c3, SectionSign, false) + (PrintToken(c4, SectionSign, false) + (x5 + (PrintToken(c6, SectionSign, false) + (PrintToken(c7, SectionSign, false) + (x8 + (PrintToken(c9, SectionSign, false) + (PrintToken(c10, SectionSign, false) + (x11)))))))))), SectionSign, false)
         == TextNode([], Empty, [TextNode(x5, Explicit(Apply(Apply(Apply(Apply(Plain, c1), c2), c3), c4)), []), TextNode(x8, Explicit(Apply(Apply(Apply(Apply(Apply(Apply(Plain, c1), c2), c3), c4), c6), c7)), []), TextNode(x11, Explicit(Apply(Apply(Apply(Apply(Apply(Apply(Apply(Apply(Plain, c1), c2), c3), c4), c6), c7), c9), c10)), [])])
  {
    var p1 := PrintToken(c1, SectionSign, false);
    var st1 := Apply(Plain, c1);
    var p2 := PrintToken(c2, SectionSign, false);
    var st2 := Apply(st1, c2);
    var p3 := PrintToken(c3, SectionSign, false);
    var st3 := Apply(st2, c3);
    var p4 := PrintToken(c4, SectionSign, false);
    var st4 := Apply(st3, c4);
    var p6 := PrintToken(c6, SectionSign, false);
    var st6 := Apply(st4, c6);
    var p7 := PrintToken(c7, SectionSign, false);
    var st7 := Apply(st6, c7);
    var p9 := PrintToken(c9, SectionSign, false);
    var st9 := Apply(st7, c9);
    var p10 := PrintToken(c10, SectionSign, false);
    var st10 := Apply(st9, c10);
    StackedFormattingLexed(c1, p1, c2, p2, c3, p3, c4, p4, x5, c6, p6, c7, p7, x8, c9, p9, c10, p10, x11);
    StackedFormattingRuns(c1, st1, c2, st2, c3, st3, c4, st4, x5, c6, st6, c7, st7, x8, c9, st9, c10, st10, x11);
    assert [Run(x11, st10)][1..] == [];
    assert [Run(x8, st7), Run(x11, st10)][1..] == [Run(x11, st10)];
    assert [Run(x5, st4), Run(x8, st7), Run(x11, st10)][1..] == [Run(x8, st7), Run(x11, st10)];
  }

  /** Repeated resets, and a decoration code after each colour code. */
  lemma StackedFormatting()
    ensures Deserialize("\U{00A7}r" + ("\U{00A7}r" + ("\U{00A7}c" + ("\U{00A7}k" + ("||" + ("\U{00A7}e" + ("\U{00A7}l" + ("Profile" + ("\U{00A7}c" + ("\U{00A7}k" + ("||")))))))))), SectionSign, false)
         == TextNode("", Empty, [TextNode("||", Style(Some(Named(Red)), map[Obfuscated := true]), []), TextNode("Profile", Style(Some(Named(Yellow)), map[Bold := true]), []), TextNode("||", Style(Some(Named(Red)), map[Obfuscated := true]), [])])
  {
    assert PlainText("||", SectionSign);
    assert PlainText("Profile", SectionSign);
    assert PlainText("||", SectionSign);
    PrintedResetSection();
    ApplyResetAfterPlain();
    PrintedRedSection();
    ApplyRedAfterPlain();
    PrintedObfuscatedSection();
    ApplyObfuscatedAfterRed();
    PrintedYellowSection();
    ApplyYellowAfterRedObfuscated();
    PrintedBoldSection();
    ApplyBoldAfterYellow();
    ApplyRedAfterYellowBold();
    ExplicitRedObfuscated();
    ExplicitYellowBold();
    StackedFormattingRead(Reset, Reset, SetColour(Named(Red)), Decorate(Obfuscated), "||", SetColour(Named(Yellow)), Decorate(Bold), "Profile", SetColour(Named(Red)), Decorate(Obfuscated), "||");
  }

  lemma ResetClearsColourLexed(c1: Token, p1: string, c2: Token, p2: string, x3: string)
    requires Printable(c1, SectionSign, false) && p1 == PrintToken(c1, SectionSign, false) && Printable(c2, SectionSign, false) && p2 == PrintToken(c2, SectionSign, false) && SectionSign !in x3
    ensures Lex(p1 + (p2 + (x3)), SectionSign, false)
         == [c1] + ([c2] + (Chars(x3) + []))
  {
    var s2 := x3;
    var s1 := p2 + (x3);
    assert x3 + [] == x3;
    LexText(x3, [], SectionSign, false);
    LexToken(c2, s2, SectionSign, false, false);
    LexToken(c1, s1, SectionSign, false, false);
    assert Lex([], SectionSign, false) == [];
  }

  lemma ResetClearsColourRead(c1: Token, c2: Token, x3: string)
    requires PrintableCode(c1, SectionSign, false) && PrintableCode(c2, SectionSign, false) && PlainText(x3, SectionSign)
    ensures Deserialize(PrintToken(c1, SectionSign, false) + (PrintToken(c2, SectionSign, false) + (x3)), SectionSign, false)
         == TextNode(x3, Explicit(Apply(Apply(Plain, c1), c2)), [])
  {
    var p1 := PrintToken(c1, SectionSign, false);
    var st1 := Apply(Plain, c1);
    var p2 := PrintToken(c2, SectionSign, false);
    var st2 := Apply(st1, c2);
    ResetClearsColourLexed(c1, p1, c2, p2, x3);
    FromColourOverrideRuns(c1, st1, c2, st2, x3);
  }

  /** A reset right after a colour code leaves the text unstyled. */
  lemma ResetClearsColour()
    ensures Deserialize("\U{00A7}c" + ("\U{00A7}r" + ("Cleared")), SectionSign, false)
         == Text.Of("Cleared")
  {
    assert PlainText("Cleared", SectionSign);
    PrintedRedSection();
    ApplyRedAfterPlain();
    PrintedResetSection();
    ApplyResetAfterRed();
    ExplicitPlain();
    ResetClearsColourRead(SetColour(Named(Red)), Reset, "Cleared");
  }
}
