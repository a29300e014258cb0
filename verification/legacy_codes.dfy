/** The instructions a legacy-format string carries, and what they mean: a
    running style that each format code updates, and literal characters
    shown in the running style. */
module LegacyCodes {
  import opened Optional
  import opened Colours
  import opened Styles
  import opened Text

  /** One unit of a legacy-format string: a literal character or a format code. */
  datatype Token =
    | Char(c: char)
    | SetColour(colour: TextColour)
    | Decorate(decoration: Decoration)
    | Reset

  /** How a token changes the running style. A colour code starts afresh with
      that colour and no decorations; a decoration code adds one decoration;
      the reset code clears colour and decorations; text changes nothing. */
  function Apply(st: Effective, t: Token): (r: Effective)
    ensures t.Char? ==> r == st
    ensures r.colour != st.colour ==> t.SetColour? || t.Reset?
    ensures !(st.decorations <= r.decorations) ==> t.SetColour? || t.Reset?
    ensures t.SetColour? || t.Reset? ==> r.decorations == {}
    ensures t.Decorate? ==> r.decorations == st.decorations + {t.decoration}
  {
    match t
    case Char(_) => st
    case SetColour(c) => Effective(Some(c), {})
    case Decorate(d) => Effective(st.colour, st.decorations + {d})
    case Reset => Plain
  }

  /** The characters a token sequence displays when it starts in style `st`. */
  function Interp(toks: seq<Token>, st: Effective): seq<Glyph>
    decreases |toks|
  {
    if |toks| == 0 then []
    else if toks[0].Char? then [Glyph(toks[0].c, st)] + Interp(toks[1..], st)
    else Interp(toks[1..], Apply(st, toks[0]))
  }

  /** The running style after a token sequence that starts in style `st`. */
  function Final(toks: seq<Token>, st: Effective): Effective
    decreases |toks|
  {
    if |toks| == 0 then st else Final(toks[1..], Apply(st, toks[0]))
  }

  /** Interpreting a concatenation interprets the second part from the style
      the first part leaves behind. */
  lemma {:induction false} InterpAppend(a: seq<Token>, b: seq<Token>, st: Effective)
    ensures Interp(a + b, st) == Interp(a, st) + Interp(b, Final(a, st))
    ensures Final(a + b, st) == Final(b, Final(a, st))
    decreases |a|
  {
    if |a| > 0 {
      assert (a + b)[1..] == a[1..] + b;
      InterpAppend(a[1..], b, Apply(st, a[0]));
    } else {
      assert a + b == b;
    }
  }

  /** After a colour code or a reset, nothing from before it shows: the text
      that follows looks the same whatever came earlier. */
  lemma {:induction false} ClearingCodeIsolates(a: seq<Token>, t: Token, b: seq<Token>, st: Effective)
    requires t.SetColour? || t.Reset?
    ensures Interp(a + [t] + b, st) == Interp(a, st) + Interp(b, Apply(Plain, t))
  {
    InterpAppend(a, [t] + b, st);
    assert a + [t] + b == a + ([t] + b);
    assert ([t] + b)[1..] == b;
  }

  /** Literal text as tokens. */
  function Chars(s: string): (toks: seq<Token>)
    ensures |toks| == |s|
    ensures forall i :: 0 <= i < |s| ==> toks[i] == Char(s[i])
  {
    if |s| == 0 then [] else [Char(s[0])] + Chars(s[1..])
  }

  /** Literal text shows its characters in the running style and leaves the style alone. */
  lemma {:induction false} InterpChars(s: string, st: Effective)
    ensures Interp(Chars(s), st) == Paint(s, st)
    ensures Final(Chars(s), st) == st
  {
    if |s| > 0 {
      assert Chars(s)[1..] == Chars(s[1..]);
      InterpChars(s[1..], st);
    }
  }

  /** A sequence of format codes only: it shows nothing. */
  lemma {:induction false} InterpCodes(toks: seq<Token>, st: Effective)
    requires forall i :: 0 <= i < |toks| ==> !toks[i].Char?
    ensures Interp(toks, st) == []
    decreases |toks|
  {
    if |toks| > 0 {
      InterpCodes(toks[1..], Apply(st, toks[0]));
    }
  }
}
