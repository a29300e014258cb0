/** Reading a legacy-format string into a component tree.

    The string is read left to right (`Lex`). Text before the first format
    code becomes the root's own content. After that, every stretch of text
    between codes becomes one child, carrying the whole style in force at
    that point as its own explicit style. A lone styled stretch with no
    leading text is returned by itself rather than under an empty root. */
module LegacyDeserializer {
  import opened Optional
  import opened Colours
  import opened Styles
  import opened Text
  import opened LegacyCodes
  import opened LegacyLexer

  /** A stretch of text and the style it is shown in. */
  datatype Run = Run(text: string, style: Effective)

  /** The characters a sequence of runs shows. */
  function Glyphs(rs: seq<Run>): seq<Glyph>
    decreases |rs|
  {
    if |rs| == 0 then [] else Paint(rs[0].text, rs[0].style) + Glyphs(rs[1..])
  }

  lemma {:induction false} GlyphsAppend(a: seq<Run>, b: seq<Run>)
    ensures Glyphs(a + b) == Glyphs(a) + Glyphs(b)
    decreases |a|
  {
    if |a| > 0 {
      assert (a + b)[1..] == a[1..] + b;
      GlyphsAppend(a[1..], b);
    } else {
      assert a + b == b;
    }
  }

  /** The pending text as a run, unless there is none. */
  function Flush(text: string, st: Effective): seq<Run> {
    if |text| == 0 then [] else [Run(text, st)]
  }

  /** The runs of the tokens that follow a format code: `text` is the text
      gathered so far in the running style `st`. A format code closes the
      pending run, even when it does not change the style. */
  function Runs(toks: seq<Token>, st: Effective, text: string): (rs: seq<Run>)
    ensures forall i :: 0 <= i < |rs| ==> |rs[i].text| > 0
    decreases |toks|
  {
    if |toks| == 0 then Flush(text, st)
    else if toks[0].Char? then Runs(toks[1..], st, text + [toks[0].c])
    else Flush(text, st) + Runs(toks[1..], Apply(st, toks[0]), [])
  }

  /** The runs show exactly what the tokens mean. */
  lemma {:induction false} RunsMeaning(toks: seq<Token>, st: Effective, text: string)
    ensures Glyphs(Runs(toks, st, text)) == Paint(text, st) + Interp(toks, st)
    decreases |toks|
  {
    if |toks| == 0 {
    } else if toks[0].Char? {
      RunsMeaning(toks[1..], st, text + [toks[0].c]);
      PaintAppend(text, [toks[0].c], st);
    } else {
      GlyphsAppend(Flush(text, st), Runs(toks[1..], Apply(st, toks[0]), []));
      RunsMeaning(toks[1..], Apply(st, toks[0]), []);
    }
  }

  /** The text before the first format code, and the runs after it. */
  datatype Parsed = Parsed(leading: string, runs: seq<Run>)

  function Split(toks: seq<Token>, text: string): (p: Parsed)
    ensures forall i :: 0 <= i < |p.runs| ==> |p.runs[i].text| > 0
    decreases |toks|
  {
    if |toks| == 0 then Parsed(text, [])
    else if toks[0].Char? then Split(toks[1..], text + [toks[0].c])
    else Parsed(text, Runs(toks[1..], Apply(Plain, toks[0]), []))
  }

  lemma {:induction false} SplitMeaning(toks: seq<Token>, text: string)
    ensures
      var p := Split(toks, text);
      Paint(p.leading, Plain) + Glyphs(p.runs) == Paint(text, Plain) + Interp(toks, Plain)
    decreases |toks|
  {
    if |toks| > 0 {
      if toks[0].Char? {
        SplitMeaning(toks[1..], text + [toks[0].c]);
        PaintAppend(text, [toks[0].c], Plain);
      } else {
        RunsMeaning(toks[1..], Apply(Plain, toks[0]), []);
      }
    }
  }

  /** A run as a component: its text, its whole style set explicitly, no children. */
  function RunNode(r: Run): TextNode {
    TextNode(r.text, Explicit(r.style), [])
  }

  function RunNodes(rs: seq<Run>): (ns: seq<TextNode>)
    ensures |ns| == |rs|
    ensures forall i :: 0 <= i < |rs| ==> ns[i] == RunNode(rs[i])
    decreases |rs|
  {
    if |rs| == 0 then [] else [RunNode(rs[0])] + RunNodes(rs[1..])
  }

  lemma {:induction false} RenderRunNodes(rs: seq<Run>)
    ensures RenderAll(RunNodes(rs), Plain) == Glyphs(rs)
    decreases |rs|
  {
    if |rs| > 0 {
      assert RunNodes(rs)[1..] == RunNodes(rs[1..]);
      RenderRunNodes(rs[1..]);
      assert RenderAll([], Merge(Plain, Explicit(rs[0].style))) == [];
    }
  }

  /** The component tree for the leading text and the runs. */
  function Assemble(p: Parsed): TextNode {
    if p.leading == [] && |p.runs| == 1 then RunNode(p.runs[0])
    else TextNode(p.leading, Empty, RunNodes(p.runs))
  }

  /** Reads a legacy-format string that uses escape character `esc`; `hex`
      says whether hex colour codes are recognised. */
  function Deserialize(s: string, esc: char, hex: bool): (n: TextNode)
    ensures |n.children| > 0 ==> n.style == Empty
    ensures forall i :: 0 <= i < |n.children| ==> n.children[i].children == [] && n.children[i].content != []
  {
    Assemble(Split(Lex(s, esc, hex), []))
  }

  /** The tree shows exactly what the string's tokens mean, from a plain start. */
  lemma DeserializeMeaning(s: string, esc: char, hex: bool)
    ensures Render(Deserialize(s, esc, hex), Plain) == Interp(Lex(s, esc, hex), Plain)
  {
    var p := Split(Lex(s, esc, hex), []);
    SplitMeaning(Lex(s, esc, hex), []);
    assert Paint([], Plain) == [];
    if p.leading == [] && |p.runs| == 1 {
      var r := p.runs[0];
      assert p.runs[1..] == [];
      assert Glyphs(p.runs) == Paint(r.text, r.style);
      assert Merge(Plain, Explicit(r.style)) == r.style;
      assert Render(RunNode(r), Plain) == Paint(r.text, r.style) + RenderAll([], r.style);
      assert Deserialize(s, esc, hex) == RunNode(r);
      assert Paint(p.leading, Plain) + Glyphs(p.runs) == Glyphs(p.runs);
      assert Paint([], Plain) + Interp(Lex(s, esc, hex), Plain) == Interp(Lex(s, esc, hex), Plain);
    } else {
      RenderRunNodes(p.runs);
      assert Merge(Plain, Empty) == Plain;
    }
  }

  /** Text without the escape character reads as one unstyled component with that content. */
  lemma {:induction false} DeserializePlainText(s: string, esc: char, hex: bool)
    requires esc !in s
    ensures Deserialize(s, esc, hex) == Text.Of(s)
  {
    SplitChars(s, []);
  }

  lemma {:induction false} SplitChars(s: string, text: string)
    ensures Split(Chars(s), text) == Parsed(text + s, [])
    decreases |s|
  {
    if |s| > 0 {
      assert Chars(s)[1..] == Chars(s[1..]);
      SplitChars(s[1..], text + [s[0]]);
      assert text + [s[0]] + s[1..] == text + s;
    } else {
      assert text + s == text;
    }
  }

  /** An escape character before a character that starts no code, followed
      by text without the escape character, reads as one unstyled component
      showing all of it. */
  lemma DeserializeUnknownCode(c: char, t: string, esc: char, hex: bool)
    requires c != esc && ByCode(c).None? && DecorationByCode(c).None? && c != ResetCode
    requires !(hex && (c == HexIntroducer || c == RepeatedHexIntroducer))
    requires esc !in t
    ensures Deserialize([esc, c] + t, esc, hex) == Text.Of([esc, c] + t)
  {
    UnknownCode(c, t, esc, hex);
    assert Lex([esc, c] + t, esc, hex) == Chars([esc, c] + t);
    SplitChars([esc, c] + t, []);
    assert [] + ([esc, c] + t) == [esc, c] + t;
  }

  /** `z` is no code: the section sign before it is shown as it is. */
  lemma UnknownCodeExample()
    ensures Deserialize([SectionSign, 'z'] + "foo", SectionSign, true) == Text.Of([SectionSign, 'z'] + "foo")
  {
    DeserializeUnknownCode('z', "foo", SectionSign, true);
  }

  /** Literal text extends the pending run. */
  lemma {:induction false} RunsText(t: string, rest: seq<Token>, st: Effective, text: string)
    ensures Runs(Chars(t) + rest, st, text) == Runs(rest, st, text + t)
    decreases |t|
  {
    if |t| > 0 {
      assert (Chars(t) + rest)[1..] == Chars(t[1..]) + rest;
      RunsText(t[1..], rest, st, text + [t[0]]);
      assert text + [t[0]] + t[1..] == text + t;
    } else {
      assert Chars(t) + rest == rest;
      assert text + t == text;
    }
  }

  /** Literal text before the first code extends the leading text. */
  lemma {:induction false} SplitText(t: string, rest: seq<Token>, text: string)
    ensures Split(Chars(t) + rest, text) == Split(rest, text + t)
    decreases |t|
  {
    if |t| > 0 {
      assert (Chars(t) + rest)[1..] == Chars(t[1..]) + rest;
      SplitText(t[1..], rest, text + [t[0]]);
      assert text + [t[0]] + t[1..] == text + t;
    } else {
      assert Chars(t) + rest == rest;
      assert text + t == text;
    }
  }

  /** A format code closes the pending run and updates the running style. */
  lemma RunsCode(t: Token, rest: seq<Token>, st: Effective, text: string)
    requires !t.Char?
    ensures Runs([t] + rest, st, text) == Flush(text, st) + Runs(rest, Apply(st, t), [])
  {
    assert ([t] + rest)[1..] == rest;
  }

  /** The first format code ends the leading text. */
  lemma SplitCode(t: Token, rest: seq<Token>, text: string)
    requires !t.Char?
    ensures Split([t] + rest, text) == Parsed(text, Runs(rest, Apply(Plain, t), []))
  {
    assert ([t] + rest)[1..] == rest;
  }

  /** A string whose tokens are known reads as the tree of those tokens. */
  lemma DeserializeTokens(s: string, toks: seq<Token>, esc: char, hex: bool, repeated: bool)
    requires AllPrintable(toks, esc, hex) && Print(toks, esc, repeated) == s
    ensures Deserialize(s, esc, hex) == Assemble(Split(toks, []))
  {
    LexPrint(toks, esc, hex, repeated);
  }

  /** Leading text, then a format code: the text is the root's own content,
      the root sets no style, and its children show what follows the code,
      starting from the style that code sets. */
  lemma DeserializeLeadingText(t: string, c: Token, w: string, esc: char, hex: bool, repeated: bool)
    requires esc !in t && t != []
    requires !c.Char? && Printable(c, esc, hex)
    ensures
      var n := Deserialize(t + (PrintToken(c, esc, repeated) + w), esc, hex);
      && n.content == t && n.style == Empty
      && RenderAll(n.children, Plain) == Interp(Lex(w, esc, hex), Apply(Plain, c))
  {
    var u := PrintToken(c, esc, repeated) + w;
    LexText(t, u, esc, hex);
    LexToken(c, w, esc, hex, repeated);
    SplitText(t, [c] + Lex(w, esc, hex), []);
    assert [] + t == t;
    SplitCode(c, Lex(w, esc, hex), t);
    var rs := Runs(Lex(w, esc, hex), Apply(Plain, c), []);
    RenderRunNodes(rs);
    RunsMeaning(Lex(w, esc, hex), Apply(Plain, c), []);
    assert Paint([], Apply(Plain, c)) == [];
  }

  /** Format codes only: no token is literal text. */
  predicate AllCodes(toks: seq<Token>) {
    forall i :: 0 <= i < |toks| ==> !toks[i].Char?
  }

  /** Codes with no text between them close no run but the pending one. */
  lemma {:induction false} RunsCodes(cs: seq<Token>, rest: seq<Token>, st: Effective, text: string)
    requires AllCodes(cs)
    ensures Runs(cs + rest, st, text) == (if cs == [] then Runs(rest, st, text)
                                          else Flush(text, st) + Runs(rest, Final(cs, st), []))
    decreases |cs|
  {
    if cs != [] {
      assert (cs + rest)[1..] == cs[1..] + rest;
      RunsCodes(cs[1..], rest, Apply(st, cs[0]), []);
      if cs[1..] == [] {
        assert Final(cs[1..], Apply(st, cs[0])) == Apply(st, cs[0]);
      }
    } else {
      assert cs + rest == rest;
    }
  }

  /** The tokens of a lone run: leading codes, text, trailing codes. */
  lemma LoneRunSplit(cs: seq<Token>, x: string, ds: seq<Token>)
    requires cs != [] && AllCodes(cs) && AllCodes(ds) && x != []
    ensures Split(cs + (Chars(x) + ds), []) == Parsed([], [Run(x, Final(cs, Plain))])
  {
    var st := Apply(Plain, cs[0]);
    var fin := Final(cs, Plain);
    assert cs + (Chars(x) + ds) == [cs[0]] + (cs[1..] + (Chars(x) + ds));
    SplitCode(cs[0], cs[1..] + (Chars(x) + ds), []);
    RunsCodes(cs[1..], Chars(x) + ds, st, []);
    assert Final(cs[1..], st) == fin;
    assert Runs(cs[1..] + (Chars(x) + ds), st, []) == Runs(Chars(x) + ds, fin, []);
    RunsText(x, ds, fin, []);
    assert [] + x == x;
    RunsCodes(ds, [], fin, x);
    assert ds + [] == ds;
    assert Runs(ds, fin, x) == [Run(x, fin)];
  }

  /** Codes, then one stretch of text, then possibly more codes: the result is
      that text alone in the style the leading codes set, with no root around
      it. */
  lemma DeserializeLoneRun(cs: seq<Token>, x: string, ds: seq<Token>, esc: char, hex: bool, repeated: bool)
    requires cs != [] && AllCodes(cs) && AllPrintable(cs, esc, hex)
    requires AllCodes(ds) && AllPrintable(ds, esc, hex)
    requires esc !in x && x != []
    ensures Deserialize(Print(cs, esc, repeated) + x + Print(ds, esc, repeated), esc, hex)
         == TextNode(x, Explicit(Final(cs, Plain)), [])
  {
    var toks := cs + (Chars(x) + ds);
    var s := Print(cs, esc, repeated) + x + Print(ds, esc, repeated);
    WrittenText(x, ds, esc, hex, repeated);
    AllPrintableAppend(cs, Chars(x) + ds, esc, hex);
    PrintAppend(cs, Chars(x) + ds, esc, repeated);
    assert Print(toks, esc, repeated) == s;
    DeserializeTokens(s, toks, esc, hex, repeated);
    LoneRunSplit(cs, x, ds);
  }
}
