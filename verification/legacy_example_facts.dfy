/** Facts about particular colours, styles and codes used by the worked
    examples: hex digits, printed codes, nearest colours, merged styles and
    the codes written between two styles.
    In string literals the section sign is written as its escape `\U{00A7}`. */
module LegacyExampleFacts {
  import opened Optional
  import opened Colours
  import opened Styles
  import opened LegacyCodes
  import opened LegacyLexer
  import opened LegacySerializer
  import Hex

  /** A format code, as opposed to a character, that can be written. */
  predicate PrintableCode(t: Token, esc: char, hex: bool) {
    !t.Char? && Printable(t, esc, hex)
  }

  lemma Distanceff0000Black()
    ensures DistanceSquared(0xff0000, Value(Black)) == 65025
  {
    assert Value(Black) == 0x000000;
    assert 0x000000 / 0x100 == 0x0000 && 0x000000 % 0x100 == 0x00;
    assert 0x0000 / 0x100 == 0x00 && 0x0000 % 0x100 == 0x00;
    assert RedOf(0x000000) == 0x00 && GreenOf(0x000000) == 0x00 && BlueOf(0x000000) == 0x00;
    assert 0xff0000 / 0x100 == 0xff00 && 0xff0000 % 0x100 == 0x00;
    assert 0xff00 / 0x100 == 0xff && 0xff00 % 0x100 == 0x00;
    assert RedOf(0xff0000) == 0xff && GreenOf(0xff0000) == 0x00 && BlueOf(0xff0000) == 0x00;
  }

  lemma Distanceff0000DarkBlue()
    ensures DistanceSquared(0xff0000, Value(DarkBlue)) == 93925
  {
    assert Value(DarkBlue) == 0x0000aa;
    assert 0x0000aa / 0x100 == 0x0000 && 0x0000aa % 0x100 == 0xaa;
    assert 0x0000 / 0x100 == 0x00 && 0x0000 % 0x100 == 0x00;
    assert RedOf(0x0000aa) == 0x00 && GreenOf(0x0000aa) == 0x00 && BlueOf(0x0000aa) == 0xaa;
    assert 0xff0000 / 0x100 == 0xff00 && 0xff0000 % 0x100 == 0x00;
    assert 0xff00 / 0x100 == 0xff && 0xff00 % 0x100 == 0x00;
    assert RedOf(0xff0000) == 0xff && GreenOf(0xff0000) == 0x00 && BlueOf(0xff0000) == 0x00;
  }

  lemma Distanceff0000DarkGreen()
    ensures DistanceSquared(0xff0000, Value(DarkGreen)) == 93925
  {
    assert Value(DarkGreen) == 0x00aa00;
    assert 0x00aa00 / 0x100 == 0x00aa && 0x00aa00 % 0x100 == 0x00;
    assert 0x00aa / 0x100 == 0x00 && 0x00aa % 0x100 == 0xaa;
    assert RedOf(0x00aa00) == 0x00 && GreenOf(0x00aa00) == 0xaa && BlueOf(0x00aa00) == 0x00;
    assert 0xff0000 / 0x100 == 0xff00 && 0xff0000 % 0x100 == 0x00;
    assert 0xff00 / 0x100 == 0xff && 0xff00 % 0x100 == 0x00;
    assert RedOf(0xff0000) == 0xff && GreenOf(0xff0000) == 0x00 && BlueOf(0xff0000) == 0x00;
  }

  lemma Distanceff0000DarkAqua()
    ensures DistanceSquared(0xff0000, Value(DarkAqua)) == 122825
  {
    assert Value(DarkAqua) == 0x00aaaa;
    assert 0x00aaaa / 0x100 == 0x00aa && 0x00aaaa % 0x100 == 0xaa;
    assert 0x00aa / 0x100 == 0x00 && 0x00aa % 0x100 == 0xaa;
    assert RedOf(0x00aaaa) == 0x00 && GreenOf(0x00aaaa) == 0xaa && BlueOf(0x00aaaa) == 0xaa;
    assert 0xff0000 / 0x100 == 0xff00 && 0xff0000 % 0x100 == 0x00;
    assert 0xff00 / 0x100 == 0xff && 0xff00 % 0x100 == 0x00;
    assert RedOf(0xff0000) == 0xff && GreenOf(0xff0000) == 0x00 && BlueOf(0xff0000) == 0x00;
  }

  lemma Distanceff0000DarkRed()
    ensures DistanceSquared(0xff0000, Value(DarkRed)) == 7225
  {
    assert Value(DarkRed) == 0xaa0000;
    assert 0xaa0000 / 0x100 == 0xaa00 && 0xaa0000 % 0x100 == 0x00;
    assert 0xaa00 / 0x100 == 0xaa && 0xaa00 % 0x100 == 0x00;
    assert RedOf(0xaa0000) == 0xaa && GreenOf(0xaa0000) == 0x00 && BlueOf(0xaa0000) == 0x00;
    assert 0xff0000 / 0x100 == 0xff00 && 0xff0000 % 0x100 == 0x00;
    assert 0xff00 / 0x100 == 0xff && 0xff00 % 0x100 == 0x00;
    assert RedOf(0xff0000) == 0xff && GreenOf(0xff0000) == 0x00 && BlueOf(0xff0000) == 0x00;
  }

  lemma Distanceff0000DarkPurple()
    ensures DistanceSquared(0xff0000, Value(DarkPurple)) == 36125
  {
    assert Value(DarkPurple) == 0xaa00aa;
    assert 0xaa00aa / 0x100 == 0xaa00 && 0xaa00aa % 0x100 == 0xaa;
    assert 0xaa00 / 0x100 == 0xaa && 0xaa00 % 0x100 == 0x00;
    assert RedOf(0xaa00aa) == 0xaa && GreenOf(0xaa00aa) == 0x00 && BlueOf(0xaa00aa) == 0xaa;
    assert 0xff0000 / 0x100 == 0xff00 && 0xff0000 % 0x100 == 0x00;
    assert 0xff00 / 0x100 == 0xff && 0xff00 % 0x100 == 0x00;
    assert RedOf(0xff0000) == 0xff && GreenOf(0xff0000) == 0x00 && BlueOf(0xff0000) == 0x00;
  }

  lemma Distanceff0000Gold()
    ensures DistanceSquared(0xff0000, Value(Gold)) == 28900
  {
    assert Value(Gold) == 0xffaa00;
    assert 0xffaa00 / 0x100 == 0xffaa && 0xffaa00 % 0x100 == 0x00;
    assert 0xffaa / 0x100 == 0xff && 0xffaa % 0x100 == 0xaa;
    assert RedOf(0xffaa00) == 0xff && GreenOf(0xffaa00) == 0xaa && BlueOf(0xffaa00) == 0x00;
    assert 0xff0000 / 0x100 == 0xff00 && 0xff0000 % 0x100 == 0x00;
    assert 0xff00 / 0x100 == 0xff && 0xff00 % 0x100 == 0x00;
    assert RedOf(0xff0000) == 0xff && GreenOf(0xff0000) == 0x00 && BlueOf(0xff0000) == 0x00;
  }

  lemma Distanceff0000Gray()
    ensures DistanceSquared(0xff0000, Value(Gray)) == 65025
  {
    assert Value(Gray) == 0xaaaaaa;
    assert 0xaaaaaa / 0x100 == 0xaaaa && 0xaaaaaa % 0x100 == 0xaa;
    assert 0xaaaa / 0x100 == 0xaa && 0xaaaa % 0x100 == 0xaa;
    assert RedOf(0xaaaaaa) == 0xaa && GreenOf(0xaaaaaa) == 0xaa && BlueOf(0xaaaaaa) == 0xaa;
    assert 0xff0000 / 0x100 == 0xff00 && 0xff0000 % 0x100 == 0x00;
    assert 0xff00 / 0x100 == 0xff && 0xff00 % 0x100 == 0x00;
    assert RedOf(0xff0000) == 0xff && GreenOf(0xff0000) == 0x00 && BlueOf(0xff0000) == 0x00;
  }

  lemma Distanceff0000DarkGray()
    ensures DistanceSquared(0xff0000, Value(DarkGray)) == 43350
  {
    assert Value(DarkGray) == 0x555555;
    assert 0x555555 / 0x100 == 0x5555 && 0x555555 % 0x100 == 0x55;
    assert 0x5555 / 0x100 == 0x55 && 0x5555 % 0x100 == 0x55;
    assert RedOf(0x555555) == 0x55 && GreenOf(0x555555) == 0x55 && BlueOf(0x555555) == 0x55;
    assert 0xff0000 / 0x100 == 0xff00 && 0xff0000 % 0x100 == 0x00;
    assert 0xff00 / 0x100 == 0xff && 0xff00 % 0x100 == 0x00;
    assert RedOf(0xff0000) == 0xff && GreenOf(0xff0000) == 0x00 && BlueOf(0xff0000) == 0x00;
  }

  lemma Distanceff0000Blue()
    ensures DistanceSquared(0xff0000, Value(Blue)) == 101150
  {
    assert Value(Blue) == 0x5555ff;
    assert 0x5555ff / 0x100 == 0x5555 && 0x5555ff % 0x100 == 0xff;
    assert 0x5555 / 0x100 == 0x55 && 0x5555 % 0x100 == 0x55;
    assert RedOf(0x5555ff) == 0x55 && GreenOf(0x5555ff) == 0x55 && BlueOf(0x5555ff) == 0xff;
    assert 0xff0000 / 0x100 == 0xff00 && 0xff0000 % 0x100 == 0x00;
    assert 0xff00 / 0x100 == 0xff && 0xff00 % 0x100 == 0x00;
    assert RedOf(0xff0000) == 0xff && GreenOf(0xff0000) == 0x00 && BlueOf(0xff0000) == 0x00;
  }

  lemma Distanceff0000Green()
    ensures DistanceSquared(0xff0000, Value(Green)) == 101150
  {
    assert Value(Green) == 0x55ff55;
    assert 0x55ff55 / 0x100 == 0x55ff && 0x55ff55 % 0x100 == 0x55;
    assert 0x55ff / 0x100 == 0x55 && 0x55ff % 0x100 == 0xff;
    assert RedOf(0x55ff55) == 0x55 && GreenOf(0x55ff55) == 0xff && BlueOf(0x55ff55) == 0x55;
    assert 0xff0000 / 0x100 == 0xff00 && 0xff0000 % 0x100 == 0x00;
    assert 0xff00 / 0x100 == 0xff && 0xff00 % 0x100 == 0x00;
    assert RedOf(0xff0000) == 0xff && GreenOf(0xff0000) == 0x00 && BlueOf(0xff0000) == 0x00;
  }

  lemma Distanceff0000Aqua()
    ensures DistanceSquared(0xff0000, Value(Aqua)) == 158950
  {
    assert Value(Aqua) == 0x55ffff;
    assert 0x55ffff / 0x100 == 0x55ff && 0x55ffff % 0x100 == 0xff;
    assert 0x55ff / 0x100 == 0x55 && 0x55ff % 0x100 == 0xff;
    assert RedOf(0x55ffff) == 0x55 && GreenOf(0x55ffff) == 0xff && BlueOf(0x55ffff) == 0xff;
    assert 0xff0000 / 0x100 == 0xff00 && 0xff0000 % 0x100 == 0x00;
    assert 0xff00 / 0x100 == 0xff && 0xff00 % 0x100 == 0x00;
    assert RedOf(0xff0000) == 0xff && GreenOf(0xff0000) == 0x00 && BlueOf(0xff0000) == 0x00;
  }

  lemma Distanceff0000Red()
    ensures DistanceSquared(0xff0000, Value(Red)) == 14450
  {
    assert Value(Red) == 0xff5555;
    assert 0xff5555 / 0x100 == 0xff55 && 0xff5555 % 0x100 == 0x55;
    assert 0xff55 / 0x100 == 0xff && 0xff55 % 0x100 == 0x55;
    assert RedOf(0xff5555) == 0xff && GreenOf(0xff5555) == 0x55 && BlueOf(0xff5555) == 0x55;
    assert 0xff0000 / 0x100 == 0xff00 && 0xff0000 % 0x100 == 0x00;
    assert 0xff00 / 0x100 == 0xff && 0xff00 % 0x100 == 0x00;
    assert RedOf(0xff0000) == 0xff && GreenOf(0xff0000) == 0x00 && BlueOf(0xff0000) == 0x00;
  }

  lemma Distanceff0000LightPurple()
    ensures DistanceSquared(0xff0000, Value(LightPurple)) == 72250
  {
    assert Value(LightPurple) == 0xff55ff;
    assert 0xff55ff / 0x100 == 0xff55 && 0xff55ff % 0x100 == 0xff;
    assert 0xff55 / 0x100 == 0xff && 0xff55 % 0x100 == 0x55;
    assert RedOf(0xff55ff) == 0xff && GreenOf(0xff55ff) == 0x55 && BlueOf(0xff55ff) == 0xff;
    assert 0xff0000 / 0x100 == 0xff00 && 0xff0000 % 0x100 == 0x00;
    assert 0xff00 / 0x100 == 0xff && 0xff00 % 0x100 == 0x00;
    assert RedOf(0xff0000) == 0xff && GreenOf(0xff0000) == 0x00 && BlueOf(0xff0000) == 0x00;
  }

  lemma Distanceff0000Yellow()
    ensures DistanceSquared(0xff0000, Value(Yellow)) == 72250
  {
    assert Value(Yellow) == 0xffff55;
    assert 0xffff55 / 0x100 == 0xffff && 0xffff55 % 0x100 == 0x55;
    assert 0xffff / 0x100 == 0xff && 0xffff % 0x100 == 0xff;
    assert RedOf(0xffff55) == 0xff && GreenOf(0xffff55) == 0xff && BlueOf(0xffff55) == 0x55;
    assert 0xff0000 / 0x100 == 0xff00 && 0xff0000 % 0x100 == 0x00;
    assert 0xff00 / 0x100 == 0xff && 0xff00 % 0x100 == 0x00;
    assert RedOf(0xff0000) == 0xff && GreenOf(0xff0000) == 0x00 && BlueOf(0xff0000) == 0x00;
  }

  lemma Distanceff0000White()
    ensures DistanceSquared(0xff0000, Value(White)) == 130050
  {
    assert Value(White) == 0xffffff;
    assert 0xffffff / 0x100 == 0xffff && 0xffffff % 0x100 == 0xff;
    assert 0xffff / 0x100 == 0xff && 0xffff % 0x100 == 0xff;
    assert RedOf(0xffffff) == 0xff && GreenOf(0xffffff) == 0xff && BlueOf(0xffffff) == 0xff;
    assert 0xff0000 / 0x100 == 0xff00 && 0xff0000 % 0x100 == 0x00;
    assert 0xff00 / 0x100 == 0xff && 0xff00 % 0x100 == 0x00;
    assert RedOf(0xff0000) == 0xff && GreenOf(0xff0000) == 0x00 && BlueOf(0xff0000) == 0x00;
  }

  /** Pure red is nearer to dark red than to red, so it is downsampled to dark red. */
  lemma Nearestff0000()
    ensures Nearest(0xff0000) == DarkRed
  {
    forall m ensures m == DarkRed || DistanceSquared(0xff0000, Value(DarkRed)) < DistanceSquared(0xff0000, Value(m)) {
      Distanceff0000DarkRed();
      match m
        case Black => Distanceff0000Black();
        case DarkBlue => Distanceff0000DarkBlue();
        case DarkGreen => Distanceff0000DarkGreen();
        case DarkAqua => Distanceff0000DarkAqua();
        case DarkRed => Distanceff0000DarkRed();
        case DarkPurple => Distanceff0000DarkPurple();
        case Gold => Distanceff0000Gold();
        case Gray => Distanceff0000Gray();
        case DarkGray => Distanceff0000DarkGray();
        case Blue => Distanceff0000Blue();
        case Green => Distanceff0000Green();
        case Aqua => Distanceff0000Aqua();
        case Red => Distanceff0000Red();
        case LightPurple => Distanceff0000LightPurple();
        case Yellow => Distanceff0000Yellow();
        case White => Distanceff0000White();
    }
    NearestUnique(0xff0000, DarkRed);
  }

  lemma Hexffb6c1()
    ensures Hex6(0xffb6c1) == "ffb6c1"
  {
    assert Hex.Digits(0xf, 1) == "f";
    assert Hex.Digits(0xff, 2) == "ff";
    assert Hex.Digits(0xffb, 3) == "ffb";
    assert Hex.Digits(0xffb6, 4) == "ffb6";
    assert Hex.Digits(0xffb6c, 5) == "ffb6c";
    assert Hex.Digits(0xffb6c1, 6) == "ffb6c1";
  }

  lemma Codeffb6c1Amp()
    ensures Printable(SetColour(Rgb(0xffb6c1)), '&', true)
    ensures PrintToken(SetColour(Rgb(0xffb6c1)), '&', false) == "&#ffb6c1"
  {
    Hexffb6c1();
    assert Canonical(Rgb(0xffb6c1));
  }

  lemma Hexff69b4()
    ensures Hex6(0xff69b4) == "ff69b4"
  {
    assert Hex.Digits(0xf, 1) == "f";
    assert Hex.Digits(0xff, 2) == "ff";
    assert Hex.Digits(0xff6, 3) == "ff6";
    assert Hex.Digits(0xff69, 4) == "ff69";
    assert Hex.Digits(0xff69b, 5) == "ff69b";
    assert Hex.Digits(0xff69b4, 6) == "ff69b4";
  }

  lemma Codeff69b4Amp()
    ensures Printable(SetColour(Rgb(0xff69b4)), '&', true)
    ensures PrintToken(SetColour(Rgb(0xff69b4)), '&', false) == "&#ff69b4"
  {
    Hexff69b4();
    assert Canonical(Rgb(0xff69b4));
  }

  lemma Hexffc0cb()
    ensures Hex6(0xffc0cb) == "ffc0cb"
  {
    assert Hex.Digits(0xf, 1) == "f";
    assert Hex.Digits(0xff, 2) == "ff";
    assert Hex.Digits(0xffc, 3) == "ffc";
    assert Hex.Digits(0xffc0, 4) == "ffc0";
    assert Hex.Digits(0xffc0c, 5) == "ffc0c";
    assert Hex.Digits(0xffc0cb, 6) == "ffc0cb";
  }

  lemma Codeffc0cbAmp()
    ensures Printable(SetColour(Rgb(0xffc0cb)), '&', true)
    ensures PrintToken(SetColour(Rgb(0xffc0cb)), '&', false) == "&#ffc0cb"
  {
    Hexffc0cb();
    assert Canonical(Rgb(0xffc0cb));
  }

  lemma Hexffefd5()
    ensures Hex6(0xffefd5) == "ffefd5"
  {
    assert Hex.Digits(0xf, 1) == "f";
    assert Hex.Digits(0xff, 2) == "ff";
    assert Hex.Digits(0xffe, 3) == "ffe";
    assert Hex.Digits(0xffef, 4) == "ffef";
    assert Hex.Digits(0xffefd, 5) == "ffefd";
    assert Hex.Digits(0xffefd5, 6) == "ffefd5";
  }

  lemma Codeffefd5SectionRepeated()
    ensures Printable(SetColour(Rgb(0xffefd5)), SectionSign, true)
    ensures PrintToken(SetColour(Rgb(0xffefd5)), SectionSign, true) == "\U{00A7}x\U{00A7}f\U{00A7}f\U{00A7}e\U{00A7}f\U{00A7}d\U{00A7}5"
  {
    Hexffefd5();
    assert Interleave(SectionSign, "5") == "\U{00A7}5";
    assert Interleave(SectionSign, "d5") == "\U{00A7}d\U{00A7}5";
    assert Interleave(SectionSign, "fd5") == "\U{00A7}f\U{00A7}d\U{00A7}5";
    assert Interleave(SectionSign, "efd5") == "\U{00A7}e\U{00A7}f\U{00A7}d\U{00A7}5";
    assert Interleave(SectionSign, "fefd5") == "\U{00A7}f\U{00A7}e\U{00A7}f\U{00A7}d\U{00A7}5";
    assert Interleave(SectionSign, "ffefd5") == "\U{00A7}f\U{00A7}f\U{00A7}e\U{00A7}f\U{00A7}d\U{00A7}5";
    assert Canonical(Rgb(0xffefd5));
  }

  lemma Hex6b4668()
    ensures Hex6(0x6b4668) == "6b4668"
  {
    assert Hex.Digits(0x6, 1) == "6";
    assert Hex.Digits(0x6b, 2) == "6b";
    assert Hex.Digits(0x6b4, 3) == "6b4";
    assert Hex.Digits(0x6b46, 4) == "6b46";
    assert Hex.Digits(0x6b466, 5) == "6b466";
    assert Hex.Digits(0x6b4668, 6) == "6b4668";
  }

  lemma Code6b4668SectionRepeated()
    ensures Printable(SetColour(Rgb(0x6b4668)), SectionSign, true)
    ensures PrintToken(SetColour(Rgb(0x6b4668)), SectionSign, true) == "\U{00A7}x\U{00A7}6\U{00A7}b\U{00A7}4\U{00A7}6\U{00A7}6\U{00A7}8"
  {
    Hex6b4668();
    assert Interleave(SectionSign, "8") == "\U{00A7}8";
    assert Interleave(SectionSign, "68") == "\U{00A7}6\U{00A7}8";
    assert Interleave(SectionSign, "668") == "\U{00A7}6\U{00A7}6\U{00A7}8";
    assert Interleave(SectionSign, "4668") == "\U{00A7}4\U{00A7}6\U{00A7}6\U{00A7}8";
    assert Interleave(SectionSign, "b4668") == "\U{00A7}b\U{00A7}4\U{00A7}6\U{00A7}6\U{00A7}8";
    assert Interleave(SectionSign, "6b4668") == "\U{00A7}6\U{00A7}b\U{00A7}4\U{00A7}6\U{00A7}6\U{00A7}8";
    assert Canonical(Rgb(0x6b4668));
  }

  lemma Codeffefd5Section()
    ensures Printable(SetColour(Rgb(0xffefd5)), SectionSign, true)
    ensures PrintToken(SetColour(Rgb(0xffefd5)), SectionSign, false) == "\U{00A7}#ffefd5"
  {
    Hexffefd5();
    assert Canonical(Rgb(0xffefd5));
  }

  lemma MergeUnsetUnderPlain()
    ensures Merge(Plain, Empty) == Plain
  {
  }

  lemma MergeGreenUnderPlain()
    ensures Merge(Plain, Style(Some(Named(Green)), map[])) == Effective(Some(Named(Green)), {})
  {
  }

  lemma MergeBoldUnderPlain()
    ensures Merge(Plain, Style(None, map[Bold := true])) == Effective(None, {Bold})
  {
  }

  lemma MergeGreenNotBoldUnderNoColourBold()
    ensures Merge(Effective(None, {Bold}), Style(Some(Named(Green)), map[Bold := false])) == Effective(Some(Named(Green)), {})
  {
  }

  lemma MergeBlueUnderNoColourBold()
    ensures Merge(Effective(None, {Bold}), Style(Some(Named(Blue)), map[])) == Effective(Some(Named(Blue)), {Bold})
  {
  }

  lemma MergeUnsetUnderNoColourBold()
    ensures Merge(Effective(None, {Bold}), Empty) == Effective(None, {Bold})
  {
  }

  lemma MergeYellowUnderPlain()
    ensures Merge(Plain, Style(Some(Named(Yellow)), map[])) == Effective(Some(Named(Yellow)), {})
  {
  }

  lemma MergeUnsetUnderYellow()
    ensures Merge(Effective(Some(Named(Yellow)), {}), Empty) == Effective(Some(Named(Yellow)), {})
  {
  }

  lemma MergeGreenUnderYellow()
    ensures Merge(Effective(Some(Named(Yellow)), {}), Style(Some(Named(Green)), map[])) == Effective(Some(Named(Green)), {})
  {
  }

  lemma MergeYellowUnderNoColourBold()
    ensures Merge(Effective(None, {Bold}), Style(Some(Named(Yellow)), map[])) == Effective(Some(Named(Yellow)), {Bold})
  {
  }

  lemma MergeUnsetUnderYellowBold()
    ensures Merge(Effective(Some(Named(Yellow)), {Bold}), Empty) == Effective(Some(Named(Yellow)), {Bold})
  {
  }

  lemma MergeGreenUnderYellowBold()
    ensures Merge(Effective(Some(Named(Yellow)), {Bold}), Style(Some(Named(Green)), map[])) == Effective(Some(Named(Green)), {Bold})
  {
  }

  lemma MergeRgbffefd5UnderPlain()
    ensures Merge(Plain, Style(Some(Rgb(0xffefd5)), map[])) == Effective(Some(Rgb(0xffefd5)), {})
  {
  }

  lemma MergeRgbff0000UnderPlain()
    ensures Merge(Plain, Style(Some(Rgb(0xff0000)), map[])) == Effective(Some(Rgb(0xff0000)), {})
  {
  }

  lemma TransitionPlainToPlain()
    ensures Transition(Plain, Plain, false) == []
  {
    DecorationTokensNone(Decorations);
  }

  lemma TransitionPlainToGreen()
    ensures Transition(Effective(Some(Named(Green)), {}), Plain, false) == [SetColour(Named(Green))]
  {
    DecorationTokensNone(Decorations);
  }

  lemma TransitionGreenToPlain()
    ensures Transition(Plain, Effective(Some(Named(Green)), {}), false) == [Reset]
  {
    DecorationTokensNone(Decorations);
  }

  lemma TransitionPlainToNoColourBold()
    ensures Transition(Effective(None, {Bold}), Plain, false) == [Decorate(Bold)]
  {
    DecorationTokensNone(Decorations);
    assert {Bold} - {} == {Bold};
    DecorationTokensOne(Bold);
  }

  lemma TransitionNoColourBoldToGreen()
    ensures Transition(Effective(Some(Named(Green)), {}), Effective(None, {Bold}), false) == [SetColour(Named(Green))]
  {
    DecorationTokensNone(Decorations);
  }

  lemma TransitionGreenToBlueBold()
    ensures Transition(Effective(Some(Named(Blue)), {Bold}), Effective(Some(Named(Green)), {}), false) == [SetColour(Named(Blue)), Decorate(Bold)]
  {
    DecorationTokensNone(Decorations);
    DecorationTokensOne(Bold);
  }

  lemma TransitionBlueBoldToNoColourBold()
    ensures Transition(Effective(None, {Bold}), Effective(Some(Named(Blue)), {Bold}), false) == [Reset, Decorate(Bold)]
  {
    DecorationTokensNone(Decorations);
    DecorationTokensOne(Bold);
  }

  lemma TransitionPlainToYellow()
    ensures Transition(Effective(Some(Named(Yellow)), {}), Plain, false) == [SetColour(Named(Yellow))]
  {
    DecorationTokensNone(Decorations);
  }

  lemma TransitionYellowToGreen()
    ensures Transition(Effective(Some(Named(Green)), {}), Effective(Some(Named(Yellow)), {}), false) == [SetColour(Named(Green))]
  {
    DecorationTokensNone(Decorations);
  }

  lemma TransitionGreenToYellow()
    ensures Transition(Effective(Some(Named(Yellow)), {}), Effective(Some(Named(Green)), {}), false) == [SetColour(Named(Yellow))]
  {
    DecorationTokensNone(Decorations);
  }

  lemma TransitionPlainToYellowBold()
    ensures Transition(Effective(Some(Named(Yellow)), {Bold}), Plain, false) == [SetColour(Named(Yellow)), Decorate(Bold)]
  {
    DecorationTokensNone(Decorations);
    DecorationTokensOne(Bold);
  }

  lemma TransitionYellowBoldToGreenBold()
    ensures Transition(Effective(Some(Named(Green)), {Bold}), Effective(Some(Named(Yellow)), {Bold}), false) == [SetColour(Named(Green)), Decorate(Bold)]
  {
    DecorationTokensNone(Decorations);
    DecorationTokensOne(Bold);
  }

  lemma TransitionGreenBoldToYellowBold()
    ensures Transition(Effective(Some(Named(Yellow)), {Bold}), Effective(Some(Named(Green)), {Bold}), false) == [SetColour(Named(Yellow)), Decorate(Bold)]
  {
    DecorationTokensNone(Decorations);
    DecorationTokensOne(Bold);
  }

  lemma TransitionPlainToRgbffefd5Hex()
    ensures Transition(Effective(Some(Rgb(0xffefd5)), {}), Plain, true) == [SetColour(Rgb(0xffefd5))]
  {
    DecorationTokensNone(Decorations);
  }

  lemma TransitionPlainToRgbff0000()
    ensures Transition(Effective(Some(Rgb(0xff0000)), {}), Plain, false) == [SetColour(Named(DarkRed))]
  {
    Nearestff0000();
    DecorationTokensNone(Decorations);
  }

  lemma PrintGreenAmpersand()
    ensures Print([SetColour(Named(Green))], '&', false) == "&a"
  {
    assert PrintToken(SetColour(Named(Green)), '&', false) == "&a";
  }

  lemma PrintResetAmpersand()
    ensures Print([Reset], '&', false) == "&r"
  {
    assert PrintToken(Reset, '&', false) == "&r";
  }

  lemma PrintBoldSection()
    ensures Print([Decorate(Bold)], SectionSign, false) == "\U{00A7}l"
  {
    assert PrintToken(Decorate(Bold), SectionSign, false) == "\U{00A7}l";
  }

  lemma PrintGreenSection()
    ensures Print([SetColour(Named(Green))], SectionSign, false) == "\U{00A7}a"
  {
    assert PrintToken(SetColour(Named(Green)), SectionSign, false) == "\U{00A7}a";
  }

  lemma PrintBlueBoldSection()
    ensures Print([SetColour(Named(Blue)), Decorate(Bold)], SectionSign, false) == "\U{00A7}9\U{00A7}l"
  {
    assert PrintToken(SetColour(Named(Blue)), SectionSign, false) == "\U{00A7}9";
    assert PrintToken(Decorate(Bold), SectionSign, false) == "\U{00A7}l";
  }

  lemma PrintResetBoldSection()
    ensures Print([Reset, Decorate(Bold)], SectionSign, false) == "\U{00A7}r\U{00A7}l"
  {
    assert PrintToken(Reset, SectionSign, false) == "\U{00A7}r";
    assert PrintToken(Decorate(Bold), SectionSign, false) == "\U{00A7}l";
  }

  lemma PrintYellowSection()
    ensures Print([SetColour(Named(Yellow))], SectionSign, false) == "\U{00A7}e"
  {
    assert PrintToken(SetColour(Named(Yellow)), SectionSign, false) == "\U{00A7}e";
  }

  lemma PrintYellowBoldSection()
    ensures Print([SetColour(Named(Yellow)), Decorate(Bold)], SectionSign, false) == "\U{00A7}e\U{00A7}l"
  {
    assert PrintToken(SetColour(Named(Yellow)), SectionSign, false) == "\U{00A7}e";
    assert PrintToken(Decorate(Bold), SectionSign, false) == "\U{00A7}l";
  }

  lemma PrintGreenBoldSection()
    ensures Print([SetColour(Named(Green)), Decorate(Bold)], SectionSign, false) == "\U{00A7}a\U{00A7}l"
  {
    assert PrintToken(SetColour(Named(Green)), SectionSign, false) == "\U{00A7}a";
    assert PrintToken(Decorate(Bold), SectionSign, false) == "\U{00A7}l";
  }

  lemma PrintRgbffefd5Section()
    ensures Print([SetColour(Rgb(0xffefd5))], SectionSign, false) == "\U{00A7}#ffefd5"
  {
    Codeffefd5Section();
  }

  lemma PrintDarkRedSection()
    ensures Print([SetColour(Named(DarkRed))], SectionSign, false) == "\U{00A7}4"
  {
    assert PrintToken(SetColour(Named(DarkRed)), SectionSign, false) == "\U{00A7}4";
  }

  lemma PrintRgbffefd5SectionRepeated()
    ensures Print([SetColour(Rgb(0xffefd5))], SectionSign, true) == "\U{00A7}x\U{00A7}f\U{00A7}f\U{00A7}e\U{00A7}f\U{00A7}d\U{00A7}5"
  {
    Codeffefd5SectionRepeated();
  }

  lemma PrintedGreenAmpersand()
    ensures PrintableCode(SetColour(Named(Green)), '&', false) && PrintToken(SetColour(Named(Green)), '&', false) == "&a"
  {
    assert PrintToken(SetColour(Named(Green)), '&', false) == "&a";
  }

  lemma PrintedBoldAmpersand()
    ensures PrintableCode(Decorate(Bold), '&', false) && PrintToken(Decorate(Bold), '&', false) == "&l"
  {
    assert PrintToken(Decorate(Bold), '&', false) == "&l";
  }

  lemma PrintedBlueAmpersand()
    ensures PrintableCode(SetColour(Named(Blue)), '&', false) && PrintToken(SetColour(Named(Blue)), '&', false) == "&9"
  {
    assert PrintToken(SetColour(Named(Blue)), '&', false) == "&9";
  }

  lemma PrintedResetAmpersand()
    ensures PrintableCode(Reset, '&', false) && PrintToken(Reset, '&', false) == "&r"
  {
    assert PrintToken(Reset, '&', false) == "&r";
  }

  lemma PrintedDarkGrayAmpersand()
    ensures PrintableCode(SetColour(Named(DarkGray)), '&', false) && PrintToken(SetColour(Named(DarkGray)), '&', false) == "&8"
  {
    assert PrintToken(SetColour(Named(DarkGray)), '&', false) == "&8";
  }

  lemma PrintedRgbffb6c1AmpersandHex()
    ensures PrintableCode(SetColour(Rgb(0xffb6c1)), '&', true) && PrintToken(SetColour(Rgb(0xffb6c1)), '&', false) == "&#ffb6c1"
  {
    Codeffb6c1Amp();
  }

  lemma PrintedRgbff69b4AmpersandHex()
    ensures PrintableCode(SetColour(Rgb(0xff69b4)), '&', true) && PrintToken(SetColour(Rgb(0xff69b4)), '&', false) == "&#ff69b4"
  {
    Codeff69b4Amp();
  }

  lemma PrintedBoldAmpersandHex()
    ensures PrintableCode(Decorate(Bold), '&', true) && PrintToken(Decorate(Bold), '&', false) == "&l"
  {
    assert PrintToken(Decorate(Bold), '&', false) == "&l";
  }

  lemma PrintedRgbffc0cbAmpersandHex()
    ensures PrintableCode(SetColour(Rgb(0xffc0cb)), '&', true) && PrintToken(SetColour(Rgb(0xffc0cb)), '&', false) == "&#ffc0cb"
  {
    Codeffc0cbAmp();
  }

  lemma PrintedRgbffefd5SectionHexRepeated()
    ensures PrintableCode(SetColour(Rgb(0xffefd5)), SectionSign, true) && PrintToken(SetColour(Rgb(0xffefd5)), SectionSign, true) == "\U{00A7}x\U{00A7}f\U{00A7}f\U{00A7}e\U{00A7}f\U{00A7}d\U{00A7}5"
  {
    Codeffefd5SectionRepeated();
  }

  lemma PrintedRedSectionHexRepeated()
    ensures PrintableCode(SetColour(Named(Red)), SectionSign, true) && PrintToken(SetColour(Named(Red)), SectionSign, true) == "\U{00A7}c"
  {
    assert PrintToken(SetColour(Named(Red)), SectionSign, true) == "\U{00A7}c";
  }

  lemma PrintedRedSectionHex()
    ensures PrintableCode(SetColour(Named(Red)), SectionSign, true) && PrintToken(SetColour(Named(Red)), SectionSign, false) == "\U{00A7}c"
  {
    assert PrintToken(SetColour(Named(Red)), SectionSign, false) == "\U{00A7}c";
  }

  lemma PrintedWhiteSectionHex()
    ensures PrintableCode(SetColour(Named(White)), SectionSign, true) && PrintToken(SetColour(Named(White)), SectionSign, false) == "\U{00A7}f"
  {
    assert PrintToken(SetColour(Named(White)), SectionSign, false) == "\U{00A7}f";
  }

  lemma PrintedYellowSectionHex()
    ensures PrintableCode(SetColour(Named(Yellow)), SectionSign, true) && PrintToken(SetColour(Named(Yellow)), SectionSign, false) == "\U{00A7}e"
  {
    assert PrintToken(SetColour(Named(Yellow)), SectionSign, false) == "\U{00A7}e";
  }

  lemma PrintedLightPurpleSectionHex()
    ensures PrintableCode(SetColour(Named(LightPurple)), SectionSign, true) && PrintToken(SetColour(Named(LightPurple)), SectionSign, false) == "\U{00A7}d"
  {
    assert PrintToken(SetColour(Named(LightPurple)), SectionSign, false) == "\U{00A7}d";
  }

  lemma PrintedDarkPurpleSectionHex()
    ensures PrintableCode(SetColour(Named(DarkPurple)), SectionSign, true) && PrintToken(SetColour(Named(DarkPurple)), SectionSign, false) == "\U{00A7}5"
  {
    assert PrintToken(SetColour(Named(DarkPurple)), SectionSign, false) == "\U{00A7}5";
  }

  lemma PrintedRgb6b4668SectionHexRepeated()
    ensures PrintableCode(SetColour(Rgb(0x6b4668)), SectionSign, true) && PrintToken(SetColour(Rgb(0x6b4668)), SectionSign, true) == "\U{00A7}x\U{00A7}6\U{00A7}b\U{00A7}4\U{00A7}6\U{00A7}6\U{00A7}8"
  {
    Code6b4668SectionRepeated();
  }

  lemma PrintedResetSection()
    ensures PrintableCode(Reset, SectionSign, false) && PrintToken(Reset, SectionSign, false) == "\U{00A7}r"
  {
    assert PrintToken(Reset, SectionSign, false) == "\U{00A7}r";
  }

  lemma PrintedRedSection()
    ensures PrintableCode(SetColour(Named(Red)), SectionSign, false) && PrintToken(SetColour(Named(Red)), SectionSign, false) == "\U{00A7}c"
  {
    assert PrintToken(SetColour(Named(Red)), SectionSign, false) == "\U{00A7}c";
  }

  lemma PrintedObfuscatedSection()
    ensures PrintableCode(Decorate(Obfuscated), SectionSign, false) && PrintToken(Decorate(Obfuscated), SectionSign, false) == "\U{00A7}k"
  {
    assert PrintToken(Decorate(Obfuscated), SectionSign, false) == "\U{00A7}k";
  }

  lemma PrintedYellowSection()
    ensures PrintableCode(SetColour(Named(Yellow)), SectionSign, false) && PrintToken(SetColour(Named(Yellow)), SectionSign, false) == "\U{00A7}e"
  {
    assert PrintToken(SetColour(Named(Yellow)), SectionSign, false) == "\U{00A7}e";
  }

  lemma PrintedBoldSection()
    ensures PrintableCode(Decorate(Bold), SectionSign, false) && PrintToken(Decorate(Bold), SectionSign, false) == "\U{00A7}l"
  {
    assert PrintToken(Decorate(Bold), SectionSign, false) == "\U{00A7}l";
  }

  lemma ApplyGreenAfterPlain()
    ensures Apply(Plain, SetColour(Named(Green))) == Effective(Some(Named(Green)), {})
  {
  }

  lemma ApplyBoldAfterGreen()
    ensures Apply(Effective(Some(Named(Green)), {}), Decorate(Bold)) == Effective(Some(Named(Green)), {Bold})
  {
  }

  lemma ApplyBlueAfterGreenBold()
    ensures Apply(Effective(Some(Named(Green)), {Bold}), SetColour(Named(Blue))) == Effective(Some(Named(Blue)), {})
  {
  }

  lemma ApplyBlueAfterGreen()
    ensures Apply(Effective(Some(Named(Green)), {}), SetColour(Named(Blue))) == Effective(Some(Named(Blue)), {})
  {
  }

  lemma ApplyResetAfterGreenBold()
    ensures Apply(Effective(Some(Named(Green)), {Bold}), Reset) == Plain
  {
  }

  lemma ApplyDarkGrayAfterPlain()
    ensures Apply(Plain, SetColour(Named(DarkGray))) == Effective(Some(Named(DarkGray)), {})
  {
  }

  lemma ApplyRgbffb6c1AfterPlain()
    ensures Apply(Plain, SetColour(Rgb(0xffb6c1))) == Effective(Some(Rgb(0xffb6c1)), {})
  {
  }

  lemma ApplyRgbff69b4AfterRgbffb6c1()
    ensures Apply(Effective(Some(Rgb(0xffb6c1)), {}), SetColour(Rgb(0xff69b4))) == Effective(Some(Rgb(0xff69b4)), {})
  {
  }

  lemma ApplyBoldAfterRgbff69b4()
    ensures Apply(Effective(Some(Rgb(0xff69b4)), {}), Decorate(Bold)) == Effective(Some(Rgb(0xff69b4)), {Bold})
  {
  }

  lemma ApplyRgbffc0cbAfterRgbff69b4Bold()
    ensures Apply(Effective(Some(Rgb(0xff69b4)), {Bold}), SetColour(Rgb(0xffc0cb))) == Effective(Some(Rgb(0xffc0cb)), {})
  {
  }

  lemma ApplyRgbffefd5AfterPlain()
    ensures Apply(Plain, SetColour(Rgb(0xffefd5))) == Effective(Some(Rgb(0xffefd5)), {})
  {
  }

  lemma ApplyRedAfterPlain()
    ensures Apply(Plain, SetColour(Named(Red))) == Effective(Some(Named(Red)), {})
  {
  }

  lemma ApplyRgbffefd5AfterRed()
    ensures Apply(Effective(Some(Named(Red)), {}), SetColour(Rgb(0xffefd5))) == Effective(Some(Rgb(0xffefd5)), {})
  {
  }

  lemma ApplyWhiteAfterRed()
    ensures Apply(Effective(Some(Named(Red)), {}), SetColour(Named(White))) == Effective(Some(Named(White)), {})
  {
  }

  lemma ApplyWhiteAfterWhite()
    ensures Apply(Effective(Some(Named(White)), {}), SetColour(Named(White))) == Effective(Some(Named(White)), {})
  {
  }

  lemma ApplyYellowAfterWhite()
    ensures Apply(Effective(Some(Named(White)), {}), SetColour(Named(Yellow))) == Effective(Some(Named(Yellow)), {})
  {
  }

  lemma ApplyWhiteAfterYellow()
    ensures Apply(Effective(Some(Named(Yellow)), {}), SetColour(Named(White))) == Effective(Some(Named(White)), {})
  {
  }

  lemma ApplyLightPurpleAfterWhite()
    ensures Apply(Effective(Some(Named(White)), {}), SetColour(Named(LightPurple))) == Effective(Some(Named(LightPurple)), {})
  {
  }

  lemma ApplyDarkPurpleAfterLightPurple()
    ensures Apply(Effective(Some(Named(LightPurple)), {}), SetColour(Named(DarkPurple))) == Effective(Some(Named(DarkPurple)), {})
  {
  }

  lemma ApplyRgb6b4668AfterPlain()
    ensures Apply(Plain, SetColour(Rgb(0x6b4668))) == Effective(Some(Rgb(0x6b4668)), {})
  {
  }

  lemma ApplyRgbffefd5AfterRgb6b4668()
    ensures Apply(Effective(Some(Rgb(0x6b4668)), {}), SetColour(Rgb(0xffefd5))) == Effective(Some(Rgb(0xffefd5)), {})
  {
  }

  lemma ApplyResetAfterPlain()
    ensures Apply(Plain, Reset) == Plain
  {
  }

  lemma ApplyObfuscatedAfterRed()
    ensures Apply(Effective(Some(Named(Red)), {}), Decorate(Obfuscated)) == Effective(Some(Named(Red)), {Obfuscated})
  {
  }

  lemma ApplyYellowAfterRedObfuscated()
    ensures Apply(Effective(Some(Named(Red)), {Obfuscated}), SetColour(Named(Yellow))) == Effective(Some(Named(Yellow)), {})
  {
  }

  lemma ApplyBoldAfterYellow()
    ensures Apply(Effective(Some(Named(Yellow)), {}), Decorate(Bold)) == Effective(Some(Named(Yellow)), {Bold})
  {
  }

  lemma ApplyRedAfterYellowBold()
    ensures Apply(Effective(Some(Named(Yellow)), {Bold}), SetColour(Named(Red))) == Effective(Some(Named(Red)), {})
  {
  }

  lemma ApplyResetAfterRed()
    ensures Apply(Effective(Some(Named(Red)), {}), Reset) == Plain
  {
  }

  lemma ExplicitGreenBold()
    ensures Explicit(Effective(Some(Named(Green)), {Bold})) == Style(Some(Named(Green)), map[Bold := true])
  {
    ExplicitOne(Some(Named(Green)), Bold);
  }

  lemma ExplicitBlue()
    ensures Explicit(Effective(Some(Named(Blue)), {})) == Style(Some(Named(Blue)), map[])
  {
    ExplicitNone(Some(Named(Blue)));
  }

  lemma ExplicitDarkGray()
    ensures Explicit(Effective(Some(Named(DarkGray)), {})) == Style(Some(Named(DarkGray)), map[])
  {
    ExplicitNone(Some(Named(DarkGray)));
  }

  lemma ExplicitRgbffb6c1()
    ensures Explicit(Effective(Some(Rgb(0xffb6c1)), {})) == Style(Some(Rgb(0xffb6c1)), map[])
  {
    ExplicitNone(Some(Rgb(0xffb6c1)));
  }

  lemma ExplicitRgbff69b4Bold()
    ensures Explicit(Effective(Some(Rgb(0xff69b4)), {Bold})) == Style(Some(Rgb(0xff69b4)), map[Bold := true])
  {
    ExplicitOne(Some(Rgb(0xff69b4)), Bold);
  }

  lemma ExplicitRgbffc0cb()
    ensures Explicit(Effective(Some(Rgb(0xffc0cb)), {})) == Style(Some(Rgb(0xffc0cb)), map[])
  {
    ExplicitNone(Some(Rgb(0xffc0cb)));
  }

  lemma ExplicitRgbffefd5()
    ensures Explicit(Effective(Some(Rgb(0xffefd5)), {})) == Style(Some(Rgb(0xffefd5)), map[])
  {
    ExplicitNone(Some(Rgb(0xffefd5)));
  }

  lemma ExplicitRed()
    ensures Explicit(Effective(Some(Named(Red)), {})) == Style(Some(Named(Red)), map[])
  {
    ExplicitNone(Some(Named(Red)));
  }

  lemma ExplicitDarkPurple()
    ensures Explicit(Effective(Some(Named(DarkPurple)), {})) == Style(Some(Named(DarkPurple)), map[])
  {
    ExplicitNone(Some(Named(DarkPurple)));
  }

  lemma ExplicitRgb6b4668()
    ensures Explicit(Effective(Some(Rgb(0x6b4668)), {})) == Style(Some(Rgb(0x6b4668)), map[])
  {
    ExplicitNone(Some(Rgb(0x6b4668)));
  }

  lemma ExplicitRedObfuscated()
    ensures Explicit(Effective(Some(Named(Red)), {Obfuscated})) == Style(Some(Named(Red)), map[Obfuscated := true])
  {
    ExplicitOne(Some(Named(Red)), Obfuscated);
  }

  lemma ExplicitYellowBold()
    ensures Explicit(Effective(Some(Named(Yellow)), {Bold})) == Style(Some(Named(Yellow)), map[Bold := true])
  {
    ExplicitOne(Some(Named(Yellow)), Bold);
  }

  lemma ExplicitPlain()
    ensures Explicit(Plain) == Empty
  {
    ExplicitNone(None);
  }
}
