/** Decorations and styles. A component's `Style` holds only what the
    component sets explicitly; an `Effective` style is what applies after
    inheriting every unset field from the ancestors. */
module Styles {
  import opened Optional
  import opened Colours

  datatype Decoration = Obfuscated | Bold | Strikethrough | Underlined | Italic

  /** Every decoration, in declaration order: the order in which decoration
      codes are written. */
  const Decorations: seq<Decoration> := [Obfuscated, Bold, Strikethrough, Underlined, Italic]

  lemma AllDecorationsListed(d: Decoration)
    ensures d in Decorations
  {
  }

  /** The legacy format code character of a decoration. */
  function DecorationCode(d: Decoration): char {
    match d
    case Obfuscated => 'k'
    case Bold => 'l'
    case Strikethrough => 'm'
    case Underlined => 'n'
    case Italic => 'o'
  }

  /** The decoration a legacy code character stands for, if any. */
  function DecorationByCode(c: char): (r: Option<Decoration>)
    ensures forall d :: r == Some(d) <==> DecorationCode(d) == c
  {
    match c
    case 'k' => Some(Obfuscated)
    case 'l' => Some(Bold)
    case 'm' => Some(Strikethrough)
    case 'n' => Some(Underlined)
    case 'o' => Some(Italic)
    case _ => None
  }

  /** The explicitly set part of a component's style. A decoration absent from
      the map is not set (it inherits); present, it is set to true or false. */
  datatype Style = Style(colour: Option<TextColour>, decorations: map<Decoration, bool>)

  /** The style that sets nothing. */
  const Empty: Style := Style(None, map[])

  /** A fully resolved style: a colour or none, and the decorations that are on. */
  datatype Effective = Effective(colour: Option<TextColour>, decorations: set<Decoration>)

  /** No colour and no decorations: what the root of a tree inherits. */
  const Plain: Effective := Effective(None, {})

  /** Resolves a component's style against the style it inherits: every field
      the component sets wins, every other field is inherited. */
  function Merge(parent: Effective, s: Style): (e: Effective)
    ensures e.colour == if s.colour.Some? then s.colour else parent.colour
    ensures forall d :: d in e.decorations <==> if d in s.decorations then s.decorations[d] else d in parent.decorations
  {
    var off := set d | d in s.decorations && !s.decorations[d];
    var on := set d | d in s.decorations && s.decorations[d];
    Effective(if s.colour.Some? then s.colour else parent.colour, parent.decorations - off + on)
  }

  /** The style that sets exactly what `e` resolves to: its colour (if any)
      and each of its decorations to true. */
  function Explicit(e: Effective): (s: Style)
    ensures Merge(Plain, s) == e
  {
    Style(e.colour, map d | d in e.decorations :: true)
  }

  /** A style with a colour and some decorations set to true. */
  function Of(c: TextColour, ds: set<Decoration>): Style {
    Explicit(Effective(Some(c), ds))
  }

  /** A resolved style with one decoration is written with just that decoration set. */
  lemma ExplicitOne(c: Option<TextColour>, d: Decoration)
    ensures Explicit(Effective(c, {d})) == Style(c, map[d := true])
  {
    assert Explicit(Effective(c, {d})).decorations.Keys == {d};
  }

  /** A resolved style without decorations is written with none set. */
  lemma ExplicitNone(c: Option<TextColour>)
    ensures Explicit(Effective(c, {})) == Style(c, map[])
  {
    assert Explicit(Effective(c, {})).decorations.Keys == {};
  }
}
