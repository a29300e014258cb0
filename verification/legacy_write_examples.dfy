/** Worked examples of writing the legacy format: particular trees and the
    strings they are written as. Each case is proved for any non-empty
    texts from how each node is written after the style last written, and
    then for the texts of the case.
    In string literals the section sign is written as its escape `\U{00A7}`. */
module LegacyWriteExamples {
  import opened Optional
  import opened Colours
  import opened Styles
  import opened Text
  import opened LegacyCodes
  import opened LegacyLexer
  import opened LegacySerializer
  import opened LegacyExampleFacts

  lemma CompoundTokens(n0: TextNode, n1: TextNode, n2: TextNode, n3: TextNode, e0: Effective, e1: Effective, e2: Effective, e3: Effective, codes1: seq<Token>, codes2: seq<Token>, codes3: seq<Token>, k: seq<Token>)
    requires n0.content != [] && n0.children == [n1, n2, n3] && n1.content != [] && n1.children == [] && n2.content != [] && n2.children == [] && n3.content != [] && n3.children == []
    requires Merge(Plain, n0.style) == e0 && Merge(e0, n1.style) == e1 && Merge(e0, n2.style) == e2 && Merge(e0, n3.style) == e3
    requires Transition(e0, Plain, false) == [] && Transition(e1, e0, false) == codes1 && Transition(e2, e1, false) == codes2 && Transition(e3, e2, false) == codes3
    ensures EmitNode(n0, Plain, Plain, false).tokens + k == Chars(n0.content) + (codes1 + (Chars(n1.content) + (codes2 + (Chars(n2.content) + (codes3 + (Chars(n3.content) + k))))))
  {
    ContentNodeThen0(n3, e0, e2, false, e3, codes3, k);
    ContentNodeThen0(n2, e0, e1, false, e2, codes2, codes3 + (Chars(n3.content) + k));
    ContentNodeThen0(n1, e0, e0, false, e1, codes1, codes2 + (Chars(n2.content) + (codes3 + (Chars(n3.content) + k))));
    ContentNodeThen3(n0, Plain, Plain, false, e0, [], n1, n2, n3, codes1 + (Chars(n1.content) + (codes2 + (Chars(n2.content) + (codes3 + (Chars(n3.content) + k))))), codes2 + (Chars(n2.content) + (codes3 + (Chars(n3.content) + k))), codes3 + (Chars(n3.content) + k), e1, e2, e3, k);
  }

  lemma CompoundPrinted(x0: string, codes1: seq<Token>, p1: string, x1: string, codes2: seq<Token>, p2: string, x2: string, codes3: seq<Token>, p3: string, x3: string)
    requires p1 == Print(codes1, '&', false) && p2 == Print(codes2, '&', false) && p3 == Print(codes3, '&', false)
    ensures Print(Chars(x0) + (codes1 + (Chars(x1) + (codes2 + (Chars(x2) + (codes3 + (Chars(x3) + [])))))), '&', false) == x0 + (p1 + (x1 + (p2 + (x2 + (p3 + (x3))))))
  {
    var t6 := Chars(x3) + [];
    var t5 := codes3 + (Chars(x3) + []);
    var t4 := Chars(x2) + (codes3 + (Chars(x3) + []));
    var t3 := codes2 + (Chars(x2) + (codes3 + (Chars(x3) + [])));
    var t2 := Chars(x1) + (codes2 + (Chars(x2) + (codes3 + (Chars(x3) + []))));
    var t1 := codes1 + (Chars(x1) + (codes2 + (Chars(x2) + (codes3 + (Chars(x3) + [])))));
    assert Print([], '&', false) == [] && x3 + [] == x3;
    PrintAppend(Chars(x3), [], '&', false);
    PrintChars(x3, '&', false);
    PrintAppend(codes3, t6, '&', false);
    PrintAppend(Chars(x2), t5, '&', false);
    PrintChars(x2, '&', false);
    PrintAppend(codes2, t4, '&', false);
    PrintAppend(Chars(x1), t3, '&', false);
    PrintChars(x1, '&', false);
    PrintAppend(codes1, t2, '&', false);
    PrintAppend(Chars(x0), t1, '&', false);
    PrintChars(x0, '&', false);
  }

  lemma CompoundWritten(n0: TextNode, n1: TextNode, n2: TextNode, n3: TextNode, e0: Effective, e1: Effective, e2: Effective, e3: Effective, codes1: seq<Token>, codes2: seq<Token>, codes3: seq<Token>, p1: string, p2: string, p3: string)
    requires n0.content != [] && n0.children == [n1, n2, n3] && n1.content != [] && n1.children == [] && n2.content != [] && n2.children == [] && n3.content != [] && n3.children == []
    requires Merge(Plain, n0.style) == e0 && Merge(e0, n1.style) == e1 && Merge(e0, n2.style) == e2 && Merge(e0, n3.style) == e3
    requires Transition(e0, Plain, false) == [] && Transition(e1, e0, false) == codes1 && Transition(e2, e1, false) == codes2 && Transition(e3, e2, false) == codes3
    requires p1 == Print(codes1, '&', false) && p2 == Print(codes2, '&', false) && p3 == Print(codes3, '&', false)
    ensures Serialize(n0, '&', false, false) == n0.content + (p1 + (n1.content + (p2 + (n2.content + (p3 + (n3.content))))))
  {
    CompoundTokens(n0, n1, n2, n3, e0, e1, e2, e3, codes1, codes2, codes3, []);
    assert EmitNode(n0, Plain, Plain, false).tokens == Chars(n0.content) + (codes1 + (Chars(n1.content) + (codes2 + (Chars(n2.content) + (codes3 + (Chars(n3.content) + []))))));
    CompoundPrinted(n0.content, codes1, p1, n1.content, codes2, p2, n2.content, codes3, p3, n3.content);
  }

  /** Switching from a colour back to no colour writes the reset code. */
  lemma Compound()
    ensures Serialize(TextNode("hi there ", Empty, [TextNode("this bit is green ", Style(Some(Named(Green)), map[]), []), Text.Of("this isn't "), TextNode("and woa, this is again", Style(Some(Named(Green)), map[]), [])]), '&', false, false)
         == "hi there " + ("&a" + ("this bit is green " + ("&r" + ("this isn't " + ("&a" + ("and woa, this is again"))))))
  {
    MergeUnsetUnderPlain();
    TransitionPlainToPlain();
    MergeGreenUnderPlain();
    TransitionPlainToGreen();
    TransitionGreenToPlain();
    PrintGreenAmpersand();
    PrintResetAmpersand();
    CompoundWritten(TextNode("hi there ", Empty, [TextNode("this bit is green ", Style(Some(Named(Green)), map[]), []), Text.Of("this isn't "), TextNode("and woa, this is again", Style(Some(Named(Green)), map[]), [])]), TextNode("this bit is green ", Style(Some(Named(Green)), map[]), []), Text.Of("this isn't "), TextNode("and woa, this is again", Style(Some(Named(Green)), map[]), []), Plain, Effective(Some(Named(Green)), {}), Plain, Effective(Some(Named(Green)), {}), [SetColour(Named(Green))], [Reset], [SetColour(Named(Green))], "&a", "&r", "&a");
  }

  lemma ToLegacyBoldTokens(n0: TextNode, n1: TextNode, n2: TextNode, n3: TextNode, e0: Effective, e1: Effective, e2: Effective, e3: Effective, codes0: seq<Token>, codes1: seq<Token>, codes2: seq<Token>, codes3: seq<Token>, k: seq<Token>)
    requires n0.content != [] && n0.children == [n1, n2, n3] && n1.content != [] && n1.children == [] && n2.content != [] && n2.children == [] && n3.content != [] && n3.children == []
    requires Merge(Plain, n0.style) == e0 && Merge(e0, n1.style) == e1 && Merge(e0, n2.style) == e2 && Merge(e0, n3.style) == e3
    requires Transition(e0, Plain, false) == codes0 && Transition(e1, e0, false) == codes1 && Transition(e2, e1, false) == codes2 && Transition(e3, e2, false) == codes3
    ensures EmitNode(n0, Plain, Plain, false).tokens + k == codes0 + (Chars(n0.content) + (codes1 + (Chars(n1.content) + (codes2 + (Chars(n2.content) + (codes3 + (Chars(n3.content) + k)))))))
  {
    ContentNodeThen0(n3, e0, e2, false, e3, codes3, k);
    ContentNodeThen0(n2, e0, e1, false, e2, codes2, codes3 + (Chars(n3.content) + k));
    ContentNodeThen0(n1, e0, e0, false, e1, codes1, codes2 + (Chars(n2.content) + (codes3 + (Chars(n3.content) + k))));
    ContentNodeThen3(n0, Plain, Plain, false, e0, codes0, n1, n2, n3, codes1 + (Chars(n1.content) + (codes2 + (Chars(n2.content) + (codes3 + (Chars(n3.content) + k))))), codes2 + (Chars(n2.content) + (codes3 + (Chars(n3.content) + k))), codes3 + (Chars(n3.content) + k), e1, e2, e3, k);
  }

  lemma ToLegacyBoldPrinted(codes0: seq<Token>, p0: string, x0: string, codes1: seq<Token>, p1: string, x1: string, codes2: seq<Token>, p2: string, x2: string, codes3: seq<Token>, p3: string, x3: string)
    requires p0 == Print(codes0, SectionSign, false) && p1 == Print(codes1, SectionSign, false) && p2 == Print(codes2, SectionSign, false) && p3 == Print(codes3, SectionSign, false)
    ensures Print(codes0 + (Chars(x0) + (codes1 + (Chars(x1) + (codes2 + (Chars(x2) + (codes3 + (Chars(x3) + []))))))), SectionSign, false) == p0 + (x0 + (p1 + (x1 + (p2 + (x2 + (p3 + (x3)))))))
  {
    var t7 := Chars(x3) + [];
    var t6 := codes3 + (Chars(x3) + []);
    var t5 := Chars(x2) + (codes3 + (Chars(x3) + []));
    var t4 := codes2 + (Chars(x2) + (codes3 + (Chars(x3) + [])));
    var t3 := Chars(x1) + (codes2 + (Chars(x2) + (codes3 + (Chars(x3) + []))));
    var t2 := codes1 + (Chars(x1) + (codes2 + (Chars(x2) + (codes3 + (Chars(x3) + [])))));
    var t1 := Chars(x0) + (codes1 + (Chars(x1) + (codes2 + (Chars(x2) + (codes3 + (Chars(x3) + []))))));
    assert Print([], SectionSign, false) == [] && x3 + [] == x3;
    PrintAppend(Chars(x3), [], SectionSign, false);
    PrintChars(x3, SectionSign, false);
    PrintAppend(codes3, t7, SectionSign, false);
    PrintAppend(Chars(x2), t6, SectionSign, false);
    PrintChars(x2, SectionSign, false);
    PrintAppend(codes2, t5, SectionSign, false);
    PrintAppend(Chars(x1), t4, SectionSign, false);
    PrintChars(x1, SectionSign, false);
    PrintAppend(codes1, t3, SectionSign, false);
    PrintAppend(Chars(x0), t2, SectionSign, false);
    PrintChars(x0, SectionSign, false);
    PrintAppend(codes0, t1, SectionSign, false);
  }

  lemma ToLegacyBoldWritten(n0: TextNode, n1: TextNode, n2: TextNode, n3: TextNode, e0: Effective, e1: Effective, e2: Effective, e3: Effective, codes0: seq<Token>, codes1: seq<Token>, codes2: seq<Token>, codes3: seq<Token>, p0: string, p1: string, p2: string, p3: string)
    requires n0.content != [] && n0.children == [n1, n2, n3] && n1.content != [] && n1.children == [] && n2.content != [] && n2.children == [] && n3.content != [] && n3.children == []
    requires Merge(Plain, n0.style) == e0 && Merge(e0, n1.style) == e1 && Merge(e0, n2.style) == e2 && Merge(e0, n3.style) == e3
    requires Transition(e0, Plain, false) == codes0 && Transition(e1, e0, false) == codes1 && Transition(e2, e1, false) == codes2 && Transition(e3, e2, false) == codes3
    requires p0 == Print(codes0, SectionSign, false) && p1 == Print(codes1, SectionSign, false) && p2 == Print(codes2, SectionSign, false) && p3 == Print(codes3, SectionSign, false)
    ensures Serialize(n0, SectionSign, false, false) == p0 + (n0.content + (p1 + (n1.content + (p2 + (n2.content + (p3 + (n3.content)))))))
  {
    ToLegacyBoldTokens(n0, n1, n2, n3, e0, e1, e2, e3, codes0, codes1, codes2, codes3, []);
    assert EmitNode(n0, Plain, Plain, false).tokens == codes0 + (Chars(n0.content) + (codes1 + (Chars(n1.content) + (codes2 + (Chars(n2.content) + (codes3 + (Chars(n3.content) + [])))))));
    ToLegacyBoldPrinted(codes0, p0, n0.content, codes1, p1, n1.content, codes2, p2, n2.content, codes3, p3, n3.content);
  }

  /** Bold is added on its own, dropped by a colour code, written again after a colour code, and restored after a reset. */
  lemma ToLegacyBold()
    ensures Serialize(TextNode("hi", Style(None, map[Bold := true]), [TextNode("foo", Style(Some(Named(Green)), map[Bold := false]), []), TextNode("bar", Style(Some(Named(Blue)), map[]), []), Text.Of("baz")]), SectionSign, false, false)
         == "\U{00A7}l" + ("hi" + ("\U{00A7}a" + ("foo" + ("\U{00A7}9\U{00A7}l" + ("bar" + ("\U{00A7}r\U{00A7}l" + ("baz")))))))
  {
    MergeBoldUnderPlain();
    TransitionPlainToNoColourBold();
    MergeGreenNotBoldUnderNoColourBold();
    TransitionNoColourBoldToGreen();
    MergeBlueUnderNoColourBold();
    TransitionGreenToBlueBold();
    MergeUnsetUnderNoColourBold();
    TransitionBlueBoldToNoColourBold();
    PrintBoldSection();
    PrintGreenSection();
    PrintBlueBoldSection();
    PrintResetBoldSection();
    ToLegacyBoldWritten(TextNode("hi", Style(None, map[Bold := true]), [TextNode("foo", Style(Some(Named(Green)), map[Bold := false]), []), TextNode("bar", Style(Some(Named(Blue)), map[]), []), Text.Of("baz")]), TextNode("foo", Style(Some(Named(Green)), map[Bold := false]), []), TextNode("bar", Style(Some(Named(Blue)), map[]), []), Text.Of("baz"), Effective(None, {Bold}), Effective(Some(Named(Green)), {}), Effective(Some(Named(Blue)), {Bold}), Effective(None, {Bold}), [Decorate(Bold)], [SetColour(Named(Green))], [SetColour(Named(Blue)), Decorate(Bold)], [Reset, Decorate(Bold)], "\U{00A7}l", "\U{00A7}a", "\U{00A7}9\U{00A7}l", "\U{00A7}r\U{00A7}l");
  }

  lemma ToLegacyInheritedTokens(n0: TextNode, n1: TextNode, n2: TextNode, n3: TextNode, e0: Effective, e1: Effective, e2: Effective, e3: Effective, codes1: seq<Token>, codes2: seq<Token>, codes3: seq<Token>, k: seq<Token>)
    requires n0.content == [] && n0.children == [n1] && n1.content != [] && n1.children == [n2, n3] && n2.content != [] && n2.children == [] && n3.content != [] && n3.children == []
    requires Merge(Plain, n0.style) == e0 && Merge(e0, n1.style) == e1 && Merge(e1, n2.style) == e2 && Merge(e1, n3.style) == e3
    requires Transition(e1, Plain, false) == codes1 && Transition(e2, e1, false) == codes2 && Transition(e3, e2, false) == codes3
    ensures EmitNode(n0, Plain, Plain, false).tokens + k == codes1 + (Chars(n1.content) + (codes2 + (Chars(n2.content) + (codes3 + (Chars(n3.content) + k)))))
  {
    ContentNodeThen0(n3, e1, e2, false, e3, codes3, k);
    ContentNodeThen0(n2, e1, e1, false, e2, codes2, codes3 + (Chars(n3.content) + k));
    ContentNodeThen2(n1, e0, Plain, false, e1, codes1, n2, n3, codes2 + (Chars(n2.content) + (codes3 + (Chars(n3.content) + k))), codes3 + (Chars(n3.content) + k), e2, e3, k);
    EmptyNodeThen1(n0, Plain, Plain, false, e0, n1, codes1 + (Chars(n1.content) + (codes2 + (Chars(n2.content) + (codes3 + (Chars(n3.content) + k))))), e3, k);
  }

  lemma ToLegacyInheritedPrinted(codes1: seq<Token>, p1: string, x1: string, codes2: seq<Token>, p2: string, x2: string, codes3: seq<Token>, p3: string, x3: string)
    requires p1 == Print(codes1, SectionSign, false) && p2 == Print(codes2, SectionSign, false) && p3 == Print(codes3, SectionSign, false)
    ensures Print(codes1 + (Chars(x1) + (codes2 + (Chars(x2) + (codes3 + (Chars(x3) + []))))), SectionSign, false) == p1 + (x1 + (p2 + (x2 + (p3 + (x3)))))
  {
    var t5 := Chars(x3) + [];
    var t4 := codes3 + (Chars(x3) + []);
    var t3 := Chars(x2) + (codes3 + (Chars(x3) + []));
    var t2 := codes2 + (Chars(x2) + (codes3 + (Chars(x3) + [])));
    var t1 := Chars(x1) + (codes2 + (Chars(x2) + (codes3 + (Chars(x3) + []))));
    assert Print([], SectionSign, false) == [] && x3 + [] == x3;
    PrintAppend(Chars(x3), [], SectionSign, false);
    PrintChars(x3, SectionSign, false);
    PrintAppend(codes3, t5, SectionSign, false);
    PrintAppend(Chars(x2), t4, SectionSign, false);
    PrintChars(x2, SectionSign, false);
    PrintAppend(codes2, t3, SectionSign, false);
    PrintAppend(Chars(x1), t2, SectionSign, false);
    PrintChars(x1, SectionSign, false);
    PrintAppend(codes1, t1, SectionSign, false);
  }

  lemma ToLegacyInheritedWritten(n0: TextNode, n1: TextNode, n2: TextNode, n3: TextNode, e0: Effective, e1: Effective, e2: Effective, e3: Effective, codes1: seq<Token>, codes2: seq<Token>, codes3: seq<Token>, p1: string, p2: string, p3: string)
    requires n0.content == [] && n0.children == [n1] && n1.content != [] && n1.children == [n2, n3] && n2.content != [] && n2.children == [] && n3.content != [] && n3.children == []
    requires Merge(Plain, n0.style) == e0 && Merge(e0, n1.style) == e1 && Merge(e1, n2.style) == e2 && Merge(e1, n3.style) == e3
    requires Transition(e1, Plain, false) == codes1 && Transition(e2, e1, false) == codes2 && Transition(e3, e2, false) == codes3
    requires p1 == Print(codes1, SectionSign, false) && p2 == Print(codes2, SectionSign, false) && p3 == Print(codes3, SectionSign, false)
    ensures Serialize(n0, SectionSign, false, false) == p1 + (n1.content + (p2 + (n2.content + (p3 + (n3.content)))))
  {
    ToLegacyInheritedTokens(n0, n1, n2, n3, e0, e1, e2, e3, codes1, codes2, codes3, []);
    assert EmitNode(n0, Plain, Plain, false).tokens == codes1 + (Chars(n1.content) + (codes2 + (Chars(n2.content) + (codes3 + (Chars(n3.content) + [])))));
    ToLegacyInheritedPrinted(codes1, p1, n1.content, codes2, p2, n2.content, codes3, p3, n3.content);
  }

  /** Empty content writes nothing; an inherited colour is written again after a nested change. */
  lemma ToLegacyInherited()
    ensures Serialize(TextNode("", Style(Some(Named(Yellow)), map[]), [TextNode("Hello ", Empty, [TextNode("world", Style(Some(Named(Green)), map[]), []), Text.Of("!")])]), SectionSign, false, false)
         == "\U{00A7}e" + ("Hello " + ("\U{00A7}a" + ("world" + ("\U{00A7}e" + ("!")))))
  {
    MergeYellowUnderPlain();
    MergeUnsetUnderYellow();
    TransitionPlainToYellow();
    MergeGreenUnderYellow();
    TransitionYellowToGreen();
    TransitionGreenToYellow();
    PrintYellowSection();
    PrintGreenSection();
    ToLegacyInheritedWritten(TextNode("", Style(Some(Named(Yellow)), map[]), [TextNode("Hello ", Empty, [TextNode("world", Style(Some(Named(Green)), map[]), []), Text.Of("!")])]), TextNode("Hello ", Empty, [TextNode("world", Style(Some(Named(Green)), map[]), []), Text.Of("!")]), TextNode("world", Style(Some(Named(Green)), map[]), []), Text.Of("!"), Effective(Some(Named(Yellow)), {}), Effective(Some(Named(Yellow)), {}), Effective(Some(Named(Green)), {}), Effective(Some(Named(Yellow)), {}), [SetColour(Named(Yellow))], [SetColour(Named(Green))], [SetColour(Named(Yellow))], "\U{00A7}e", "\U{00A7}a", "\U{00A7}e");
  }

  lemma ToLegacyInheritedBoldTokens(n0: TextNode, n1: TextNode, n2: TextNode, n3: TextNode, n4: TextNode, e0: Effective, e1: Effective, e2: Effective, e3: Effective, e4: Effective, codes2: seq<Token>, codes3: seq<Token>, codes4: seq<Token>, k: seq<Token>)
    requires n0.content == [] && n0.children == [n1] && n1.content == [] && n1.children == [n2] && n2.content != [] && n2.children == [n3, n4] && n3.content != [] && n3.children == [] && n4.content != [] && n4.children == []
    requires Merge(Plain, n0.style) == e0 && Merge(e0, n1.style) == e1 && Merge(e1, n2.style) == e2 && Merge(e2, n3.style) == e3 && Merge(e2, n4.style) == e4
    requires Transition(e2, Plain, false) == codes2 && Transition(e3, e2, false) == codes3 && Transition(e4, e3, false) == codes4
    ensures EmitNode(n0, Plain, Plain, false).tokens + k == codes2 + (Chars(n2.content) + (codes3 + (Chars(n3.content) + (codes4 + (Chars(n4.content) + k)))))
  {
    ContentNodeThen0(n4, e2, e3, false, e4, codes4, k);
    ContentNodeThen0(n3, e2, e2, false, e3, codes3, codes4 + (Chars(n4.content) + k));
    ContentNodeThen2(n2, e1, Plain, false, e2, codes2, n3, n4, codes3 + (Chars(n3.content) + (codes4 + (Chars(n4.content) + k))), codes4 + (Chars(n4.content) + k), e3, e4, k);
    EmptyNodeThen1(n1, e0, Plain, false, e1, n2, codes2 + (Chars(n2.content) + (codes3 + (Chars(n3.content) + (codes4 + (Chars(n4.content) + k))))), e4, k);
    EmptyNodeThen1(n0, Plain, Plain, false, e0, n1, codes2 + (Chars(n2.content) + (codes3 + (Chars(n3.content) + (codes4 + (Chars(n4.content) + k))))), e4, k);
  }

  lemma ToLegacyInheritedBoldWritten(n0: TextNode, n1: TextNode, n2: TextNode, n3: TextNode, n4: TextNode, e0: Effective, e1: Effective, e2: Effective, e3: Effective, e4: Effective, codes2: seq<Token>, codes3: seq<Token>, codes4: seq<Token>, p2: string, p3: string, p4: string)
    requires n0.content == [] && n0.children == [n1] && n1.content == [] && n1.children == [n2] && n2.content != [] && n2.children == [n3, n4] && n3.content != [] && n3.children == [] && n4.content != [] && n4.children == []
    requires Merge(Plain, n0.style) == e0 && Merge(e0, n1.style) == e1 && Merge(e1, n2.style) == e2 && Merge(e2, n3.style) == e3 && Merge(e2, n4.style) == e4
    requires Transition(e2, Plain, false) == codes2 && Transition(e3, e2, false) == codes3 && Transition(e4, e3, false) == codes4
    requires p2 == Print(codes2, SectionSign, false) && p3 == Print(codes3, SectionSign, false) && p4 == Print(codes4, SectionSign, false)
    ensures Serialize(n0, SectionSign, false, false) == p2 + (n2.content + (p3 + (n3.content + (p4 + (n4.content)))))
  {
    ToLegacyInheritedBoldTokens(n0, n1, n2, n3, n4, e0, e1, e2, e3, e4, codes2, codes3, codes4, []);
    assert EmitNode(n0, Plain, Plain, false).tokens == codes2 + (Chars(n2.content) + (codes3 + (Chars(n3.content) + (codes4 + (Chars(n4.content) + [])))));
    ToLegacyInheritedPrinted(codes2, p2, n2.content, codes3, p3, n3.content, codes4, p4, n4.content);
  }

  /** An inherited decoration is written after every colour code. */
  lemma ToLegacyInheritedBold()
    ensures Serialize(TextNode("", Style(None, map[Bold := true]), [TextNode("", Style(Some(Named(Yellow)), map[]), [TextNode("Hello ", Empty, [TextNode("world", Style(Some(Named(Green)), map[]), []), Text.Of("!")])])]), SectionSign, false, false)
         == "\U{00A7}e\U{00A7}l" + ("Hello " + ("\U{00A7}a\U{00A7}l" + ("world" + ("\U{00A7}e\U{00A7}l" + ("!")))))
  {
    MergeBoldUnderPlain();
    MergeYellowUnderNoColourBold();
    MergeUnsetUnderYellowBold();
    TransitionPlainToYellowBold();
    MergeGreenUnderYellowBold();
    TransitionYellowBoldToGreenBold();
    TransitionGreenBoldToYellowBold();
    PrintYellowBoldSection();
    PrintGreenBoldSection();
    ToLegacyInheritedBoldWritten(TextNode("", Style(None, map[Bold := true]), [TextNode("", Style(Some(Named(Yellow)), map[]), [TextNode("Hello ", Empty, [TextNode("world", Style(Some(Named(Green)), map[]), []), Text.Of("!")])])]), TextNode("", Style(Some(Named(Yellow)), map[]), [TextNode("Hello ", Empty, [TextNode("world", Style(Some(Named(Green)), map[]), []), Text.Of("!")])]), TextNode("Hello ", Empty, [TextNode("world", Style(Some(Named(Green)), map[]), []), Text.Of("!")]), TextNode("world", Style(Some(Named(Green)), map[]), []), Text.Of("!"), Effective(None, {Bold}), Effective(Some(Named(Yellow)), {Bold}), Effective(Some(Named(Yellow)), {Bold}), Effective(Some(Named(Green)), {Bold}), Effective(Some(Named(Yellow)), {Bold}), [SetColour(Named(Yellow)), Decorate(Bold)], [SetColour(Named(Green)), Decorate(Bold)], [SetColour(Named(Yellow)), Decorate(Bold)], "\U{00A7}e\U{00A7}l", "\U{00A7}a\U{00A7}l", "\U{00A7}e\U{00A7}l");
  }

  lemma ToLegacyHexTokens(n0: TextNode, e0: Effective, codes0: seq<Token>, k: seq<Token>)
    requires n0.content != [] && n0.children == []
    requires Merge(Plain, n0.style) == e0
    requires Transition(e0, Plain, true) == codes0
    ensures EmitNode(n0, Plain, Plain, true).tokens + k == codes0 + (Chars(n0.content) + k)
  {
    ContentNodeThen0(n0, Plain, Plain, true, e0, codes0, k);
  }

  lemma ToLegacyHexPrinted(codes0: seq<Token>, p0: string, x0: string)
    requires p0 == Print(codes0, SectionSign, false)
    ensures Print(codes0 + (Chars(x0) + []), SectionSign, false) == p0 + (x0)
  {
    var t1 := Chars(x0) + [];
    assert Print([], SectionSign, false) == [] && x0 + [] == x0;
    PrintAppend(Chars(x0), [], SectionSign, false);
    PrintChars(x0, SectionSign, false);
    PrintAppend(codes0, t1, SectionSign, false);
  }

  lemma ToLegacyHexWritten(n0: TextNode, e0: Effective, codes0: seq<Token>, p0: string)
    requires n0.content != [] && n0.children == []
    requires Merge(Plain, n0.style) == e0
    requires Transition(e0, Plain, true) == codes0
    requires p0 == Print(codes0, SectionSign, false)
    ensures Serialize(n0, SectionSign, true, false) == p0 + (n0.content)
  {
    ToLegacyHexTokens(n0, e0, codes0, []);
    assert EmitNode(n0, Plain, Plain, true).tokens == codes0 + (Chars(n0.content) + []);
    ToLegacyHexPrinted(codes0, p0, n0.content);
  }

  /** With hex colours enabled an RGB colour is written in the compact hex form. */
  lemma ToLegacyHex()
    ensures Serialize(TextNode("Kittens!", Style(Some(Rgb(0xffefd5)), map[]), []), SectionSign, true, false)
         == "\U{00A7}#ffefd5" + ("Kittens!")
  {
    MergeRgbffefd5UnderPlain();
    TransitionPlainToRgbffefd5Hex();
    PrintRgbffefd5Section();
    ToLegacyHexWritten(TextNode("Kittens!", Style(Some(Rgb(0xffefd5)), map[]), []), Effective(Some(Rgb(0xffefd5)), {}), [SetColour(Rgb(0xffefd5))], "\U{00A7}#ffefd5");
  }

  lemma ToLegacyDownsampledTokens(n0: TextNode, e0: Effective, codes0: seq<Token>, k: seq<Token>)
    requires n0.content != [] && n0.children == []
    requires Merge(Plain, n0.style) == e0
    requires Transition(e0, Plain, false) == codes0
    ensures EmitNode(n0, Plain, Plain, false).tokens + k == codes0 + (Chars(n0.content) + k)
  {
    ContentNodeThen0(n0, Plain, Plain, false, e0, codes0, k);
  }

  lemma ToLegacyDownsampledWritten(n0: TextNode, e0: Effective, codes0: seq<Token>, p0: string)
    requires n0.content != [] && n0.children == []
    requires Merge(Plain, n0.style) == e0
    requires Transition(e0, Plain, false) == codes0
    requires p0 == Print(codes0, SectionSign, false)
    ensures Serialize(n0, SectionSign, false, false) == p0 + (n0.content)
  {
    ToLegacyDownsampledTokens(n0, e0, codes0, []);
    assert EmitNode(n0, Plain, Plain, false).tokens == codes0 + (Chars(n0.content) + []);
    ToLegacyHexPrinted(codes0, p0, n0.content);
  }

  /** Without hex colours an RGB colour is written as the nearest named colour. */
  lemma ToLegacyDownsampled()
    ensures Serialize(TextNode("purr", Style(Some(Rgb(0xff0000)), map[]), []), SectionSign, false, false)
         == "\U{00A7}4" + ("purr")
  {
    MergeRgbff0000UnderPlain();
    TransitionPlainToRgbff0000();
    PrintDarkRedSection();
    ToLegacyDownsampledWritten(TextNode("purr", Style(Some(Rgb(0xff0000)), map[]), []), Effective(Some(Rgb(0xff0000)), {}), [SetColour(Named(DarkRed))], "\U{00A7}4");
  }

  lemma ToLegacyHexRepeatedPrinted(codes0: seq<Token>, p0: string, x0: string)
    requires p0 == Print(codes0, SectionSign, true)
    ensures Print(codes0 + (Chars(x0) + []), SectionSign, true) == p0 + (x0)
  {
    var t1 := Chars(x0) + [];
    assert Print([], SectionSign, true) == [] && x0 + [] == x0;
    PrintAppend(Chars(x0), [], SectionSign, true);
    PrintChars(x0, SectionSign, true);
    PrintAppend(codes0, t1, SectionSign, true);
  }

  lemma ToLegacyHexRepeatedWritten(n0: TextNode, e0: Effective, codes0: seq<Token>, p0: string)
    requires n0.content != [] && n0.children == []
    requires Merge(Plain, n0.style) == e0
    requires Transition(e0, Plain, true) == codes0
    requires p0 == Print(codes0, SectionSign, true)
    ensures Serialize(n0, SectionSign, true, true) == p0 + (n0.content)
  {
    ToLegacyHexTokens(n0, e0, codes0, []);
    assert EmitNode(n0, Plain, Plain, true).tokens == codes0 + (Chars(n0.content) + []);
    ToLegacyHexRepeatedPrinted(codes0, p0, n0.content);
  }

  /** The repeated-character hex form, when chosen. */
  lemma ToLegacyHexRepeated()
    ensures Serialize(TextNode("Kittens!", Style(Some(Rgb(0xffefd5)), map[]), []), SectionSign, true, true)
         == "\U{00A7}x\U{00A7}f\U{00A7}f\U{00A7}e\U{00A7}f\U{00A7}d\U{00A7}5" + ("Kittens!")
  {
    MergeRgbffefd5UnderPlain();
    TransitionPlainToRgbffefd5Hex();
    PrintRgbffefd5SectionRepeated();
    ToLegacyHexRepeatedWritten(TextNode("Kittens!", Style(Some(Rgb(0xffefd5)), map[]), []), Effective(Some(Rgb(0xffefd5)), {}), [SetColour(Rgb(0xffefd5))], "\U{00A7}x\U{00A7}f\U{00A7}f\U{00A7}e\U{00A7}f\U{00A7}d\U{00A7}5");
  }

  /** A child written after `l` and followed by `b`, then its later
      siblings written after it and followed by `k`: together they write `a`
      followed by `k`. */
  lemma SiblingsThen(c: TextNode, cs: seq<TextNode>, e: Effective, l: Effective, hex: bool, k: seq<Token>, a: seq<Token>, b: seq<Token>, lc: Effective, lf: Effective)
    requires EmitNode(c, e, l, hex).tokens + b == a && EmitNode(c, e, l, hex).last == lc
    requires EmitChildren(cs, e, lc, hex).tokens + k == b && EmitChildren(cs, e, lc, hex).last == lf
    ensures EmitChildren([c] + cs, e, l, hex).tokens + k == a && EmitChildren([c] + cs, e, l, hex).last == lf
  {
    assert ([c] + cs)[0] == c && ([c] + cs)[1..] == cs;
    ChildrenThen([c] + cs, e, l, hex, k);
  }

  /** A node with content and 0 children, written after `l`: its codes, its content, then what its children write. */
  lemma ContentNodeThen0(n: TextNode, p: Effective, l: Effective, hex: bool, e: Effective, codes: seq<Token>, k: seq<Token>)
    requires n.content != [] && n.children == [] && e == Merge(p, n.style) && codes == Transition(e, l, hex)
    ensures EmitNode(n, p, l, hex).tokens + k == codes + (Chars(n.content) + k)
    ensures EmitNode(n, p, l, hex).last == e
  {
    assert EmitChildren([], e, e, hex) == Emission([], e);
    ContentThen(n, p, e, l, hex, codes, k);
  }

  /** A node with content and 2 children, written after `l`: its codes, its content, then what its children write. */
  lemma ContentNodeThen2(n: TextNode, p: Effective, l: Effective, hex: bool, e: Effective, codes: seq<Token>, c1: TextNode, c2: TextNode, a1: seq<Token>, a2: seq<Token>, l1: Effective, l2: Effective, k: seq<Token>)
    requires n.content != [] && n.children == [c1, c2] && e == Merge(p, n.style) && codes == Transition(e, l, hex)
    requires EmitNode(c1, e, e, hex).tokens + a2 == a1 && EmitNode(c1, e, e, hex).last == l1
    requires EmitNode(c2, e, l1, hex).tokens + k == a2 && EmitNode(c2, e, l1, hex).last == l2
    ensures EmitNode(n, p, l, hex).tokens + k == codes + (Chars(n.content) + a1)
    ensures EmitNode(n, p, l, hex).last == l2
  {
    assert EmitChildren([], e, l2, hex) == Emission([], l2);
    SiblingsThen(c2, [], e, l1, hex, k, a2, k, l2, l2);
    assert [c2] + [] == [c2];
    SiblingsThen(c1, [c2], e, e, hex, k, a1, a2, l1, l2);
    assert [c1] + [c2] == [c1, c2];
    ContentThen(n, p, e, l, hex, codes, k);
  }

  /** A node with content and 3 children, written after `l`: its codes, its content, then what its children write. */
  lemma ContentNodeThen3(n: TextNode, p: Effective, l: Effective, hex: bool, e: Effective, codes: seq<Token>, c1: TextNode, c2: TextNode, c3: TextNode, a1: seq<Token>, a2: seq<Token>, a3: seq<Token>, l1: Effective, l2: Effective, l3: Effective, k: seq<Token>)
    requires n.content != [] && n.children == [c1, c2, c3] && e == Merge(p, n.style) && codes == Transition(e, l, hex)
    requires EmitNode(c1, e, e, hex).tokens + a2 == a1 && EmitNode(c1, e, e, hex).last == l1
    requires EmitNode(c2, e, l1, hex).tokens + a3 == a2 && EmitNode(c2, e, l1, hex).last == l2
    requires EmitNode(c3, e, l2, hex).tokens + k == a3 && EmitNode(c3, e, l2, hex).last == l3
    ensures EmitNode(n, p, l, hex).tokens + k == codes + (Chars(n.content) + a1)
    ensures EmitNode(n, p, l, hex).last == l3
  {
    assert EmitChildren([], e, l3, hex) == Emission([], l3);
    SiblingsThen(c3, [], e, l2, hex, k, a3, k, l3, l3);
    assert [c3] + [] == [c3];
    SiblingsThen(c2, [c3], e, l1, hex, k, a2, a3, l2, l3);
    assert [c2] + [c3] == [c2, c3];
    SiblingsThen(c1, [c2, c3], e, e, hex, k, a1, a2, l1, l3);
    assert [c1] + [c2, c3] == [c1, c2, c3];
    ContentThen(n, p, e, l, hex, codes, k);
  }

  /** A node without content and 1 child: it writes what its children write, the first after `l`. */
  lemma EmptyNodeThen1(n: TextNode, p: Effective, l: Effective, hex: bool, e: Effective, c1: TextNode, a1: seq<Token>, l1: Effective, k: seq<Token>)
    requires n.content == [] && n.children == [c1] && e == Merge(p, n.style)
    requires EmitNode(c1, e, l, hex).tokens + k == a1 && EmitNode(c1, e, l, hex).last == l1
    ensures EmitNode(n, p, l, hex).tokens + k == a1
    ensures EmitNode(n, p, l, hex).last == l1
  {
    assert EmitChildren([], e, l1, hex) == Emission([], l1);
    SiblingsThen(c1, [], e, l, hex, k, a1, k, l1, l1);
    assert [c1] + [] == [c1];
    EmptyThen(n, p, e, l, hex, k);
  }
}
