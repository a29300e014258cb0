/** The scalar forms of a text colour in a configuration file: a named colour
    is stored as its lower-case name, any other colour as `#rrggbb`; reading
    accepts a name, a `#` followed by six hex digits, or an integer. */
module ColourScalars {
  import opened Optional
  import opened Colours
  import Hex

  /** A scalar as a configuration node holds it. */
  datatype Scalar = Text(text: string) | Integer(number: int)

  /** Why a scalar is not a colour. */
  datatype ColourError =
    | UnknownName(name: string)      // text without `#` that names no colour
    | MalformedHex(text: string)     // text after `#` that is not six hex digits

  const HexPrefix: char := '#'

  /** The text stored for a colour. */
  function WriteColour(c: TextColour): (s: string)
    ensures c.Named? ==> s == Name(c.name)
    ensures c.Rgb? ==> |s| == 7 && s[0] == HexPrefix
                       && Hex.AllLowerHexDigits(s[1..]) && Hex.Parse(s[1..]) == c.value
  {
    match c
    case Named(n) => Name(n)
    case Rgb(v) =>
      Pow16Six();
      Hex.ParseDigits(v, 6);
      assert ([HexPrefix] + Hex.Digits(v, 6))[1..] == Hex.Digits(v, 6);
      [HexPrefix] + Hex.Digits(v, 6)
  }

  /** Whether `s` is `#` followed by exactly six hex digits of either case. */
  predicate HexForm(s: string) {
    |s| == 7 && s[0] == HexPrefix && Hex.AllHexDigits(s[1..])
  }

  /** The colour a scalar denotes. An integer keeps its low 24 bits; a value
      that is exactly a palette colour's reads as that named colour. */
  function ReadColour(x: Scalar): (r: Result<TextColour, ColourError>)
    ensures r.Ok? ==> Canonical(r.value)
    ensures x.Integer? ==> r.Ok? && ValueOf(r.value) == x.number % 0x100_0000
    ensures x.Text? && HexForm(x.text) ==> r.Ok? && ValueOf(r.value) == Hex.Parse(x.text[1..])
    ensures x.Text? && x.text != [] && x.text[0] == HexPrefix && !HexForm(x.text)
            ==> r == Err(MalformedHex(x.text))
    ensures x.Text? && (x.text == [] || x.text[0] != HexPrefix)
            ==> (r.Ok? <==> exists n :: Name(n) == x.text)
    ensures x.Text? && (x.text == [] || x.text[0] != HexPrefix)
            ==> forall n :: r == Ok(Named(n)) <==> Name(n) == x.text
  {
    match x
    case Integer(i) => Ok(ColourOf(i % 0x100_0000))
    case Text(s) =>
      if s != [] && s[0] == HexPrefix then
        if HexForm(s) then
          Pow16Six();
          Ok(ColourOf(Hex.Parse(s[1..])))
        else Err(MalformedHex(s))
      else
        match ByName(s)
        case Some(n) => Ok(Named(n))
        case None => Err(UnknownName(s))
  }

  lemma Pow16Six()
    ensures Hex.Pow16(6) == 0x100_0000
  {
  }

  /** No colour name is empty or starts with `#`. */
  lemma NameNotHex(n: NamedColour)
    ensures Name(n) != [] && Name(n)[0] != HexPrefix
  {
  }

  /** Reading the text written for a canonical colour gives the colour back. */
  lemma ReadWritten(c: TextColour)
    requires Canonical(c)
    ensures ReadColour(Text(WriteColour(c))) == Ok(c)
  {
    match c
    case Named(n) =>
      NameNotHex(n);
    case Rgb(v) =>
      var s := WriteColour(c);
      assert HexForm(s);
      ColourOfValue(c);
  }

  /** Writing what was read gives the same text exactly when the text was
      already in the stored form: a name, or lower-case hex digits of a value
      that no named colour has. */
  lemma WriteRead(s: string, c: TextColour)
    requires ReadColour(Text(s)) == Ok(c)
    ensures WriteColour(c) == s
            <==> s[0] != HexPrefix
                 || (Hex.AllLowerHexDigits(s[1..]) && ByExactRgb(Hex.Parse(s[1..])).None?)
  {
    if s[0] == HexPrefix {
      var v := Hex.Parse(s[1..]);
      assert ValueOf(c) == v;
      if ByExactRgb(v).None? {
        assert c == Rgb(v);
        var w := WriteColour(c);
        if Hex.AllLowerHexDigits(s[1..]) {
          Hex.DigitsParse(s[1..]);
          assert w[1..] == Hex.Digits(v, 6);
          assert w == [w[0]] + w[1..] && s == [s[0]] + s[1..];
        } else {
          assert w[1..] != s[1..];
        }
      } else {
        NameNotHex(c.name);
      }
    } else {
      assert c.Named?;
    }
  }

  /** An integer reads as the colour its six-digit hex text reads as. */
  lemma IntegerAsHex(i: int)
    ensures ReadColour(Integer(i)) == ReadColour(Text([HexPrefix] + Hex.Digits(i % 0x100_0000, 6)))
  {
    var v := i % 0x100_0000;
    Pow16Six();
    Hex.ParseDigits(v, 6);
    var s := [HexPrefix] + Hex.Digits(v, 6);
    assert s[1..] == Hex.Digits(v, 6);
    assert HexForm(s);
  }

  /** A named colour is stored as its lower-case name. */
  lemma WriteAqua()
    ensures WriteColour(Named(Aqua)) == "aqua"
  {
  }

  /** A lower-case name reads as the named colour. */
  lemma ReadDarkPurple()
    ensures ReadColour(Text("dark_purple")) == Ok(Named(DarkPurple))
  {
  }

  lemma Parseadface()
    ensures HexForm("#adface") && Hex.AllLowerHexDigits("#adface"[1..]) && Hex.Parse("#adface"[1..]) == 0xadface
  {
    assert "#adface"[1..] == "adface";
    assert Hex.Parse("a") == 0xa;
    assert "ad"[..1] == "a";
    assert Hex.Parse("ad") == 0xad;
    assert "adf"[..2] == "ad";
    assert Hex.Parse("adf") == 0xadf;
    assert "adfa"[..3] == "adf";
    assert Hex.Parse("adfa") == 0xadfa;
    assert "adfac"[..4] == "adfa";
    assert Hex.Parse("adfac") == 0xadfac;
    assert "adface"[..5] == "adfac";
    assert Hex.Parse("adface") == 0xadface;
  }

  /** `#adface` reads as that RGB colour, which no named colour has. */
  lemma ReadAdface()
    ensures ReadColour(Text("#adface")) == Ok(Rgb(0xadface))
  {
    Parseadface();
  }

  /** An integer reads as the RGB colour with that value. */
  lemma ReadInteger()
    ensures ReadColour(Integer(0x2468AC)) == Ok(Rgb(0x2468AC))
  {
  }

  lemma Parse123456()
    ensures HexForm("#123456") && Hex.AllLowerHexDigits("#123456"[1..]) && Hex.Parse("#123456"[1..]) == 0x123456
  {
    assert "#123456"[1..] == "123456";
    assert Hex.Parse("1") == 0x1;
    assert "12"[..1] == "1";
    assert Hex.Parse("12") == 0x12;
    assert "123"[..2] == "12";
    assert Hex.Parse("123") == 0x123;
    assert "1234"[..3] == "123";
    assert Hex.Parse("1234") == 0x1234;
    assert "12345"[..4] == "1234";
    assert Hex.Parse("12345") == 0x12345;
    assert "123456"[..5] == "12345";
    assert Hex.Parse("123456") == 0x123456;
  }

  /** A colour that is not named is stored as `#` and six lower-case digits:
      `#123456` is already in stored form, so it is written back unchanged. */
  lemma Write123456()
    ensures WriteColour(Rgb(0x123456)) == "#123456"
  {
    Parse123456();
    assert ReadColour(Text("#123456")) == Ok(Rgb(0x123456));
    WriteRead("#123456", Rgb(0x123456));
  }
}
