/** Reading and writing legacy-format strings as token sequences.

    A format code is the escape character followed by one code character:
    a colour code (`0`-`9`, `a`-`f`), a decoration code (`k`-`o`) or the
    reset code `r`. When hex colours are enabled two more forms are read:
    the compact `#rrggbb` form, and the repeated-character form `x`
    followed by six pairs of the escape character and one hex digit. */
module LegacyLexer {
  import opened Optional
  import opened Colours
  import opened Styles
  import opened LegacyCodes
  import Hex

  /** The default escape character, the section sign. */
  const SectionSign: char := '§'
  const ResetCode: char := 'r'
  const HexIntroducer: char := '#'
  const RepeatedHexIntroducer: char := 'x'

  /** The six lower-case hex digits of a colour value. */
  function Hex6(v: Rgb24): (s: string)
    ensures |s| == 6 && Hex.AllHexDigits(s)
    ensures Hex.Parse(s) == v
  {
    assert Hex.Pow16(6) == 0x100_0000;
    Hex.ParseDigits(v, 6);
    Hex.Digits(v, 6)
  }

  /** Each character of `h` preceded by the escape character. */
  function Interleave(esc: char, h: string): (t: string)
    ensures |t| == 2 * |h|
  {
    if |h| == 0 then [] else [esc, h[0]] + Interleave(esc, h[1..])
  }

  /** The characters at odd positions of `t`. */
  function Odd(t: string): (h: string)
    ensures |h| == |t| / 2
  {
    if |t| < 2 then [] else [t[1]] + Odd(t[2..])
  }

  lemma {:induction false} OddInterleave(esc: char, h: string)
    ensures Odd(Interleave(esc, h)) == h
  {
    if |h| > 0 {
      assert Interleave(esc, h)[2..] == Interleave(esc, h[1..]);
      OddInterleave(esc, h[1..]);
    }
  }

  /** The six escape-and-digit pairs of a repeated-character hex colour. */
  predicate IsRepeatedHex(t: string, esc: char) {
    |t| == 12 && Interleave(esc, Odd(t)) == t && Hex.AllHexDigits(Odd(t))
  }

  /** One step of the scanner: the token at the head of `s` (none when the
      head is dropped) and how many characters it takes. */
  datatype Lexeme = Lexeme(token: Option<Token>, width: nat)

  /** Classifies the head of a non-empty string. An escape character that
      starts no known code is literal text; an incomplete compact hex colour
      leaves its escape character literal; an `x` introducer that six
      escape-and-digit pairs do not follow is dropped, and the pairs that
      are there are read afterwards as ordinary codes. */
  function Scan(s: string, esc: char, hex: bool): (l: Lexeme)
    requires |s| > 0
    ensures 1 <= l.width <= |s|
    ensures s[0] != esc ==> l == Lexeme(Some(Char(s[0])), 1)
    ensures l.token.Some? && l.token.value.Char? ==> l.width == 1 && l.token.value.c == s[0]
    ensures l.token.Some? && !l.token.value.Char? ==> s[0] == esc && l.width >= 2
    ensures l.token.None? ==> hex && |s| >= 2 && s[..2] == [esc, RepeatedHexIntroducer] && l.width == 2
  {
    if s[0] != esc || |s| < 2 then Lexeme(Some(Char(s[0])), 1)
    else
      var c := s[1];
      match ByCode(c)
      case Some(n) => Lexeme(Some(SetColour(Named(n))), 2)
      case None =>
        match DecorationByCode(c)
        case Some(d) => Lexeme(Some(Decorate(d)), 2)
        case None =>
          if c == ResetCode then Lexeme(Some(Reset), 2)
          else if hex && c == HexIntroducer && |s| >= 8 && Hex.AllHexDigits(s[2..8]) then
            assert Hex.Pow16(6) == 0x100_0000;
            Lexeme(Some(SetColour(ColourOf(Hex.Parse(s[2..8])))), 8)
          else if hex && c == RepeatedHexIntroducer then
            if |s| >= 14 && IsRepeatedHex(s[2..14], esc) then
              assert Hex.Pow16(6) == 0x100_0000;
              Lexeme(Some(SetColour(ColourOf(Hex.Parse(Odd(s[2..14]))))), 14)
            else Lexeme(None, 2)
          else Lexeme(Some(Char(esc)), 1)
  }

  /** The tolerant cases of `Scan`: a lone character is literal text, and so
      is an escape character before a character that starts no code,
      including a `#` that six hex digits do not follow. */
  lemma ScanFallback(s: string, esc: char, hex: bool)
    requires |s| > 0
    ensures |s| == 1 ==> Scan(s, esc, hex) == Lexeme(Some(Char(s[0])), 1)
    ensures && s[0] == esc && |s| >= 2
            && ByCode(s[1]).None? && DecorationByCode(s[1]).None? && s[1] != ResetCode
            && !(hex && s[1] == RepeatedHexIntroducer)
            && !(hex && s[1] == HexIntroducer && |s| >= 8 && Hex.AllHexDigits(s[2..8]))
            ==> Scan(s, esc, hex) == Lexeme(Some(Char(esc)), 1)
  {
  }

  /** A legacy-format string as the tokens it carries, read left to right. */
  function Lex(s: string, esc: char, hex: bool): (toks: seq<Token>)
    ensures esc !in s ==> toks == Chars(s)
    decreases |s|
  {
    if |s| == 0 then []
    else
      var l := Scan(s, esc, hex);
      (if l.token.Some? then [l.token.value] else []) + Lex(s[l.width..], esc, hex)
  }

  /** How a token is written. */
  function PrintToken(t: Token, esc: char, repeated: bool): string {
    match t
    case Char(c) => [c]
    case SetColour(Named(n)) => [esc, Code(n)]
    case SetColour(Rgb(v)) =>
      if repeated then [esc, RepeatedHexIntroducer] + Interleave(esc, Hex6(v))
      else [esc, HexIntroducer] + Hex6(v)
    case Decorate(d) => [esc, DecorationCode(d)]
    case Reset => [esc, ResetCode]
  }

  function Print(toks: seq<Token>, esc: char, repeated: bool): string
    decreases |toks|
  {
    if |toks| == 0 then [] else PrintToken(toks[0], esc, repeated) + Print(toks[1..], esc, repeated)
  }

  /** Only the empty token sequence is written as the empty string. */
  lemma {:induction false} PrintEmpty(toks: seq<Token>, esc: char, repeated: bool)
    ensures Print(toks, esc, repeated) == [] <==> toks == []
  {
    if |toks| > 0 {
      assert |PrintToken(toks[0], esc, repeated)| > 0;
    }
  }

  /** A token that reads back as itself: literal text is not the escape
      character, and an RGB colour is only written when hex colours are
      enabled and it is not one of the named colours. */
  predicate Printable(t: Token, esc: char, hex: bool) {
    && (t.Char? ==> t.c != esc)
    && (t.SetColour? && t.colour.Rgb? ==> hex && Canonical(t.colour))
  }

  predicate AllPrintable(toks: seq<Token>, esc: char, hex: bool) {
    forall i :: 0 <= i < |toks| ==> Printable(toks[i], esc, hex)
  }

  lemma AllPrintableAppend(a: seq<Token>, b: seq<Token>, esc: char, hex: bool)
    requires AllPrintable(a, esc, hex) && AllPrintable(b, esc, hex)
    ensures AllPrintable(a + b, esc, hex)
  {
    forall i | 0 <= i < |a + b| ensures Printable((a + b)[i], esc, hex) {
      if i >= |a| {
        assert (a + b)[i] == b[i - |a|];
      }
    }
  }

  /** A written token is read back whole, whatever follows it. */
  lemma ScanPrinted(t: Token, rest: string, esc: char, hex: bool, repeated: bool)
    requires Printable(t, esc, hex)
    ensures
      var s := PrintToken(t, esc, repeated) + rest;
      |PrintToken(t, esc, repeated)| <= |s| && Scan(s, esc, hex) == Lexeme(Some(t), |PrintToken(t, esc, repeated)|)
  {
    var p := PrintToken(t, esc, repeated);
    var s := p + rest;
    match t
    case Char(c) =>
    case SetColour(Named(n)) =>
      assert s[1] == Code(n);
    case SetColour(Rgb(v)) =>
      assert ByCode(s[1]).None? && DecorationByCode(s[1]).None?;
      if repeated {
        assert s[2..14] == Interleave(esc, Hex6(v));
        OddInterleave(esc, Hex6(v));
      } else {
        assert s[2..8] == Hex6(v);
      }
      ColourOfValue(Rgb(v));
    case Decorate(d) =>
      assert ByCode(s[1]).None?;
      assert s[1] == DecorationCode(d);
    case Reset =>
      assert ByCode(s[1]).None? && DecorationByCode(s[1]).None?;
  }

  /** Writing printable tokens and reading the result gives the tokens back. */
  lemma {:induction false} LexPrint(toks: seq<Token>, esc: char, hex: bool, repeated: bool)
    requires AllPrintable(toks, esc, hex)
    ensures Lex(Print(toks, esc, repeated), esc, hex) == toks
    decreases |toks|
  {
    if |toks| > 0 {
      var p := PrintToken(toks[0], esc, repeated);
      var rest := Print(toks[1..], esc, repeated);
      ScanPrinted(toks[0], rest, esc, hex, repeated);
      assert (p + rest)[|p|..] == rest;
      LexPrint(toks[1..], esc, hex, repeated);
    }
  }

  /** Text without the escape character reads as literal text, whatever follows it. */
  lemma {:induction false} LexText(t: string, rest: string, esc: char, hex: bool)
    requires esc !in t
    ensures Lex(t + rest, esc, hex) == Chars(t) + Lex(rest, esc, hex)
    decreases |t|
  {
    if |t| > 0 {
      var s := t + rest;
      assert s[0] == t[0] && t[0] != esc;
      assert Scan(s, esc, hex) == Lexeme(Some(Char(t[0])), 1);
      assert s[1..] == t[1..] + rest;
      assert Lex(s, esc, hex) == [Char(t[0])] + Lex(s[1..], esc, hex);
      LexText(t[1..], rest, esc, hex);
      assert Chars(t) == [Char(t[0])] + Chars(t[1..]);
    } else {
      assert t + rest == rest;
    }
  }

  /** A written token reads back as itself, whatever follows it. */
  lemma LexToken(t: Token, rest: string, esc: char, hex: bool, repeated: bool)
    requires Printable(t, esc, hex)
    ensures Lex(PrintToken(t, esc, repeated) + rest, esc, hex) == [t] + Lex(rest, esc, hex)
  {
    var p := PrintToken(t, esc, repeated);
    ScanPrinted(t, rest, esc, hex, repeated);
    assert (p + rest)[|p|..] == rest;
  }

  lemma {:induction false} PrintAppend(a: seq<Token>, b: seq<Token>, esc: char, repeated: bool)
    ensures Print(a + b, esc, repeated) == Print(a, esc, repeated) + Print(b, esc, repeated)
    decreases |a|
  {
    if |a| > 0 {
      var head := PrintToken(a[0], esc, repeated);
      assert (a + b)[0] == a[0];
      assert (a + b)[1..] == a[1..] + b;
      PrintAppend(a[1..], b, esc, repeated);
      calc {
        Print(a + b, esc, repeated);
        head + Print(a[1..] + b, esc, repeated);
        head + (Print(a[1..], esc, repeated) + Print(b, esc, repeated));
        (head + Print(a[1..], esc, repeated)) + Print(b, esc, repeated);
      }
    } else {
      assert a + b == b;
    }
  }

  /** Literal text is written as itself. */
  lemma {:induction false} PrintChars(s: string, esc: char, repeated: bool)
    ensures Print(Chars(s), esc, repeated) == s
    decreases |s|
  {
    if |s| > 0 {
      assert Chars(s)[1..] == Chars(s[1..]);
      PrintChars(s[1..], esc, repeated);
    }
  }

  /** Writing a printable token in front of printable tokens. */
  lemma WrittenCode(t: Token, rest: seq<Token>, esc: char, hex: bool, repeated: bool)
    requires Printable(t, esc, hex) && AllPrintable(rest, esc, hex)
    ensures AllPrintable([t] + rest, esc, hex)
    ensures Print([t] + rest, esc, repeated) == PrintToken(t, esc, repeated) + Print(rest, esc, repeated)
  {
    AllPrintableAppend([t], rest, esc, hex);
    assert ([t] + rest)[1..] == rest;
  }

  /** Writing literal text without the escape character in front of printable tokens. */
  lemma WrittenText(text: string, rest: seq<Token>, esc: char, hex: bool, repeated: bool)
    requires esc !in text && AllPrintable(rest, esc, hex)
    ensures AllPrintable(Chars(text) + rest, esc, hex)
    ensures Print(Chars(text) + rest, esc, repeated) == text + Print(rest, esc, repeated)
  {
    AllPrintableAppend(Chars(text), rest, esc, hex);
    PrintAppend(Chars(text), rest, esc, repeated);
    PrintChars(text, esc, repeated);
  }

  /** An escape character before a character that starts no code is literal
      text, and so is that character. */
  lemma UnknownCode(c: char, rest: string, esc: char, hex: bool)
    requires c != esc && ByCode(c).None? && DecorationByCode(c).None? && c != ResetCode
    requires !(hex && (c == HexIntroducer || c == RepeatedHexIntroducer))
    ensures Lex([esc, c] + rest, esc, hex) == [Char(esc), Char(c)] + Lex(rest, esc, hex)
  {
    var s := [esc, c] + rest;
    assert s[1] == c;
    ScanFallback(s, esc, hex);
    assert Scan(s, esc, hex) == Lexeme(Some(Char(esc)), 1);
    assert s[1..] == [c] + rest;
    assert Scan(s[1..], esc, hex) == Lexeme(Some(Char(c)), 1);
    assert s[1..][1..] == rest;
  }

  /** A head read as literal text is one token of the result. */
  lemma LexLiteralHead(s: string, esc: char, hex: bool)
    requires |s| > 0 && Scan(s, esc, hex) == Lexeme(Some(Char(s[0])), 1)
    ensures Lex(s, esc, hex) == [Char(s[0])] + Lex(s[1..], esc, hex)
  {
  }

  /** A head other than the escape character is one token of the result. */
  lemma LexNonEscapeHead(s: string, esc: char, hex: bool)
    requires |s| > 0 && s[0] != esc
    ensures Lex(s, esc, hex) == [Char(s[0])] + Lex(s[1..], esc, hex)
  {
    LexLiteralHead(s, esc, hex);
  }

  /** Whether six hex digits start `rest`. */
  predicate SixHexDigits(rest: string) {
    |rest| >= 6 && Hex.AllHexDigits(rest[..6])
  }

  /** An escape character before a `#` that six hex digits do not follow is
      literal text. */
  lemma EscapeBeforeIncompleteHex(s: string, esc: char)
    requires |s| >= 2 && s[0] == esc && s[1] == HexIntroducer
    requires !(|s| >= 8 && Hex.AllHexDigits(s[2..8]))
    ensures Scan(s, esc, true) == Lexeme(Some(Char(esc)), 1)
  {
    assert ByCode(s[1]).None? && DecorationByCode(s[1]).None?;
    ScanFallback(s, esc, true);
  }

  /** A literal head followed by a character other than the escape character
      is two tokens of the result. */
  lemma LexTwoLiterals(s: string, esc: char, hex: bool)
    requires |s| >= 2 && Scan(s, esc, hex) == Lexeme(Some(Char(s[0])), 1) && s[1] != esc
    ensures Lex(s, esc, hex) == [Char(s[0]), Char(s[1])] + Lex(s[2..], esc, hex)
  {
    LexLiteralHead(s, esc, hex);
    var t := s[1..];
    assert t[0] == s[1] && t[1..] == s[2..];
    LexNonEscapeHead(t, esc, hex);
    var toks := Lex(s[2..], esc, hex);
    assert [Char(s[0])] + ([Char(s[1])] + toks) == [Char(s[0]), Char(s[1])] + toks;
  }

  /** With hex colours enabled, an escape character and a `#` that six hex
      digits do not follow are both literal text. */
  lemma IncompleteHexAt(s: string, esc: char)
    requires |s| >= 2 && s[0] == esc && s[1] == HexIntroducer && esc != HexIntroducer
    requires !(|s| >= 8 && Hex.AllHexDigits(s[2..8]))
    ensures Lex(s, esc, true) == [Char(esc), Char(HexIntroducer)] + Lex(s[2..], esc, true)
  {
    EscapeBeforeIncompleteHex(s, esc);
    LexTwoLiterals(s, esc, true);
  }

  /** Six hex digits do not follow the `#` of `[esc, '#'] + rest` exactly when
      they do not start `rest`. */
  lemma SixHexDigitsAfter(rest: string, esc: char)
    requires !SixHexDigits(rest)
    ensures !(|[esc, HexIntroducer] + rest| >= 8 && Hex.AllHexDigits(([esc, HexIntroducer] + rest)[2..8]))
  {
    var s := [esc, HexIntroducer] + rest;
    if |s| >= 8 {
      assert s[2..8] == rest[..6];
    }
  }

  /** With hex colours enabled, a `#` introducer that six hex digits do not
      follow leaves the escape character and the `#` literal. */
  lemma IncompleteHex(rest: string, esc: char)
    requires esc != HexIntroducer && !SixHexDigits(rest)
    ensures Lex([esc, HexIntroducer] + rest, esc, true) == [Char(esc), Char(HexIntroducer)] + Lex(rest, esc, true)
  {
    var s := [esc, HexIntroducer] + rest;
    SixHexDigitsAfter(rest, esc);
    assert s[0] == esc && s[1] == HexIntroducer && s[2..] == rest;
    IncompleteHexAt(s, esc);
  }

  /** With hex colours enabled, an `x` introducer that six escape-and-digit
      pairs do not follow is dropped, and what follows it is read as usual. */
  lemma DroppedIntroducer(rest: string, esc: char)
    requires !(|rest| >= 12 && IsRepeatedHex(rest[..12], esc))
    ensures Lex([esc, RepeatedHexIntroducer] + rest, esc, true) == Lex(rest, esc, true)
  {
    var s := [esc, RepeatedHexIntroducer] + rest;
    assert s[1] == RepeatedHexIntroducer;
    assert ByCode(s[1]).None? && DecorationByCode(s[1]).None?;
    assert |s| >= 14 ==> s[2..14] == rest[..12];
    assert Scan(s, esc, true) == Lexeme(None, 2);
    assert s[2..] == rest;
  }
}
