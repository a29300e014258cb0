/** Text colours: the sixteen named legacy colours, arbitrary 24-bit colours,
    and the registry lookups between them (by code, by name, by exact value,
    and nearest match). */
module Colours {
  import opened Optional

  /** A 24-bit RGB value, `0xRRGGBB`. */
  type Rgb24 = v: int | 0 <= v < 0x100_0000

  /** The sixteen named colours, in declaration order (the order that breaks
      ties in nearest-colour matching). */
  datatype NamedColour =
    | Black | DarkBlue | DarkGreen | DarkAqua | DarkRed | DarkPurple | Gold | Gray
    | DarkGray | Blue | Green | Aqua | Red | LightPurple | Yellow | White

  const Palette: seq<NamedColour> :=
    [Black, DarkBlue, DarkGreen, DarkAqua, DarkRed, DarkPurple, Gold, Gray,
     DarkGray, Blue, Green, Aqua, Red, LightPurple, Yellow, White]

  /** A colour as a component carries it: one of the palette, or any other RGB value. */
  datatype TextColour = Named(name: NamedColour) | Rgb(value: Rgb24)

  /** The position of a named colour in declaration order. */
  function Index(n: NamedColour): (i: nat)
    ensures i < |Palette| && Palette[i] == n
  {
    match n
    case Black => 0
    case DarkBlue => 1
    case DarkGreen => 2
    case DarkAqua => 3
    case DarkRed => 4
    case DarkPurple => 5
    case Gold => 6
    case Gray => 7
    case DarkGray => 8
    case Blue => 9
    case Green => 10
    case Aqua => 11
    case Red => 12
    case LightPurple => 13
    case Yellow => 14
    case White => 15
  }

  /** The canonical RGB value of a named colour. */
  function Value(n: NamedColour): Rgb24 {
    match n
    case Black => 0x000000
    case DarkBlue => 0x0000aa
    case DarkGreen => 0x00aa00
    case DarkAqua => 0x00aaaa
    case DarkRed => 0xaa0000
    case DarkPurple => 0xaa00aa
    case Gold => 0xffaa00
    case Gray => 0xaaaaaa
    case DarkGray => 0x555555
    case Blue => 0x5555ff
    case Green => 0x55ff55
    case Aqua => 0x55ffff
    case Red => 0xff5555
    case LightPurple => 0xff55ff
    case Yellow => 0xffff55
    case White => 0xffffff
  }

  /** The legacy format code character of a named colour. */
  function Code(n: NamedColour): char {
    match n
    case Black => '0'
    case DarkBlue => '1'
    case DarkGreen => '2'
    case DarkAqua => '3'
    case DarkRed => '4'
    case DarkPurple => '5'
    case Gold => '6'
    case Gray => '7'
    case DarkGray => '8'
    case Blue => '9'
    case Green => 'a'
    case Aqua => 'b'
    case Red => 'c'
    case LightPurple => 'd'
    case Yellow => 'e'
    case White => 'f'
  }

  /** The lower-case name of a named colour. */
  function Name(n: NamedColour): string {
    match n
    case Black => "black"
    case DarkBlue => "dark_blue"
    case DarkGreen => "dark_green"
    case DarkAqua => "dark_aqua"
    case DarkRed => "dark_red"
    case DarkPurple => "dark_purple"
    case Gold => "gold"
    case Gray => "gray"
    case DarkGray => "dark_gray"
    case Blue => "blue"
    case Green => "green"
    case Aqua => "aqua"
    case Red => "red"
    case LightPurple => "light_purple"
    case Yellow => "yellow"
    case White => "white"
  }

  /** The named colour a legacy code character stands for, if any. */
  function ByCode(c: char): (r: Option<NamedColour>)
    ensures forall n :: r == Some(n) <==> Code(n) == c
  {
    match c
    case '0' => Some(Black)
    case '1' => Some(DarkBlue)
    case '2' => Some(DarkGreen)
    case '3' => Some(DarkAqua)
    case '4' => Some(DarkRed)
    case '5' => Some(DarkPurple)
    case '6' => Some(Gold)
    case '7' => Some(Gray)
    case '8' => Some(DarkGray)
    case '9' => Some(Blue)
    case 'a' => Some(Green)
    case 'b' => Some(Aqua)
    case 'c' => Some(Red)
    case 'd' => Some(LightPurple)
    case 'e' => Some(Yellow)
    case 'f' => Some(White)
    case _ => None
  }

  /** The named colour with exactly this name, if any (names are case sensitive). */
  function ByName(s: string): (r: Option<NamedColour>)
    ensures forall n :: r == Some(n) <==> Name(n) == s
  {
    if s == "black" then Some(Black)
    else if s == "dark_blue" then Some(DarkBlue)
    else if s == "dark_green" then Some(DarkGreen)
    else if s == "dark_aqua" then Some(DarkAqua)
    else if s == "dark_red" then Some(DarkRed)
    else if s == "dark_purple" then Some(DarkPurple)
    else if s == "gold" then Some(Gold)
    else if s == "gray" then Some(Gray)
    else if s == "dark_gray" then Some(DarkGray)
    else if s == "blue" then Some(Blue)
    else if s == "green" then Some(Green)
    else if s == "aqua" then Some(Aqua)
    else if s == "red" then Some(Red)
    else if s == "light_purple" then Some(LightPurple)
    else if s == "yellow" then Some(Yellow)
    else if s == "white" then Some(White)
    else None
  }

  /** The named colour whose canonical value is exactly `v`, if any. */
  function ByExactRgb(v: Rgb24): (r: Option<NamedColour>)
    ensures forall n :: r == Some(n) <==> Value(n) == v
  {
    if v == 0x000000 then Some(Black)
    else if v == 0x0000aa then Some(DarkBlue)
    else if v == 0x00aa00 then Some(DarkGreen)
    else if v == 0x00aaaa then Some(DarkAqua)
    else if v == 0xaa0000 then Some(DarkRed)
    else if v == 0xaa00aa then Some(DarkPurple)
    else if v == 0xffaa00 then Some(Gold)
    else if v == 0xaaaaaa then Some(Gray)
    else if v == 0x555555 then Some(DarkGray)
    else if v == 0x5555ff then Some(Blue)
    else if v == 0x55ff55 then Some(Green)
    else if v == 0x55ffff then Some(Aqua)
    else if v == 0xff5555 then Some(Red)
    else if v == 0xff55ff then Some(LightPurple)
    else if v == 0xffff55 then Some(Yellow)
    else if v == 0xffffff then Some(White)
    else None
  }

  /** The RGB value of any text colour. */
  function ValueOf(c: TextColour): Rgb24 {
    match c
    case Named(n) => Value(n)
    case Rgb(v) => v
  }

  /** A colour is canonical when an RGB colour never duplicates a named one. */
  predicate Canonical(c: TextColour) {
    c.Rgb? ==> ByExactRgb(c.value).None?
  }

  /** The colour for an RGB value: the named colour when the value is exactly
      one of the palette's, an RGB colour otherwise. */
  function ColourOf(v: Rgb24): (c: TextColour)
    ensures ValueOf(c) == v
    ensures Canonical(c)
    ensures c.Named? <==> ByExactRgb(v).Some?
  {
    match ByExactRgb(v)
    case Some(n) => Named(n)
    case None => Rgb(v)
  }

  /** ColourOf inverts ValueOf on canonical colours. */
  lemma ColourOfValue(c: TextColour)
    requires Canonical(c)
    ensures ColourOf(ValueOf(c)) == c
  {
    if c.Named? {
      assert ByExactRgb(Value(c.name)) == Some(c.name);
    }
  }

  function BlueOf(v: Rgb24): int { v % 0x100 }
  function GreenOf(v: Rgb24): int { (v / 0x100) % 0x100 }
  function RedOf(v: Rgb24): int { (v / 0x100) / 0x100 }

  /** Squared Euclidean distance between two colours in RGB space. */
  function DistanceSquared(a: Rgb24, b: Rgb24): nat {
    var dr := RedOf(a) - RedOf(b);
    var dg := GreenOf(a) - GreenOf(b);
    var db := BlueOf(a) - BlueOf(b);
    dr * dr + dg * dg + db * db
  }

  /** Only a colour itself is at distance zero from it. */
  lemma DistanceZero(a: Rgb24, b: Rgb24)
    requires DistanceSquared(a, b) == 0
    ensures a == b
  {
    var dr := RedOf(a) - RedOf(b);
    var dg := GreenOf(a) - GreenOf(b);
    var db := BlueOf(a) - BlueOf(b);
    assert dr * dr >= 0 && dg * dg >= 0 && db * db >= 0;
    assert dr * dr == 0 && dg * dg == 0 && db * db == 0;
    assert dr == 0 && dg == 0 && db == 0;
    assert a == (RedOf(a) * 0x100 + GreenOf(a)) * 0x100 + BlueOf(a);
    assert b == (RedOf(b) * 0x100 + GreenOf(b)) * 0x100 + BlueOf(b);
  }

  /** The index, within `cs`, of the first colour nearest to `v`. */
  function FirstNearest(v: Rgb24, cs: seq<NamedColour>): (i: nat)
    requires |cs| > 0
    ensures i < |cs|
    ensures forall j :: 0 <= j < |cs| ==> DistanceSquared(v, Value(cs[i])) <= DistanceSquared(v, Value(cs[j]))
    ensures forall j :: 0 <= j < i ==> DistanceSquared(v, Value(cs[i])) < DistanceSquared(v, Value(cs[j]))
  {
    if |cs| == 1 then 0
    else
      var k := FirstNearest(v, cs[1..]) + 1;
      if DistanceSquared(v, Value(cs[0])) <= DistanceSquared(v, Value(cs[k])) then 0 else k
  }

  /** Downsampling: the named colour nearest to `v`, the earliest declared one on a tie. */
  function Nearest(v: Rgb24): (n: NamedColour)
    ensures forall m :: DistanceSquared(v, Value(n)) <= DistanceSquared(v, Value(m))
    ensures forall m :: Index(m) < Index(n) ==> DistanceSquared(v, Value(n)) < DistanceSquared(v, Value(m))
  {
    var i := FirstNearest(v, Palette);
    var n := Palette[i];
    assert Index(n) == i by {
      assert Palette[Index(n)] == n;
    }
    forall m ensures DistanceSquared(v, Value(n)) <= DistanceSquared(v, Value(m)) {
      assert Palette[Index(m)] == m;
    }
    forall m | Index(m) < i ensures DistanceSquared(v, Value(n)) < DistanceSquared(v, Value(m)) {
      assert Palette[Index(m)] == m;
    }
    n
  }

  /** A value that is exactly a named colour's downsamples to that colour. */
  lemma NearestOfNamed(n: NamedColour)
    ensures Nearest(Value(n)) == n
  {
    var r := Nearest(Value(n));
    assert DistanceSquared(Value(n), Value(n)) == 0;
    assert DistanceSquared(Value(n), Value(r)) == 0;
    DistanceZero(Value(n), Value(r));
    assert ByExactRgb(Value(n)) == Some(r);
  }

  /** A named colour strictly nearer to `v` than every other one is the one chosen. */
  lemma NearestUnique(v: Rgb24, n: NamedColour)
    requires forall m :: m == n || DistanceSquared(v, Value(n)) < DistanceSquared(v, Value(m))
    ensures Nearest(v) == n
  {
    var r := Nearest(v);
    assert DistanceSquared(v, Value(r)) <= DistanceSquared(v, Value(n));
  }
}
