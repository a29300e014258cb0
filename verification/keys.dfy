/** Namespaced keys such as `minecraft:test/valid.wav`: parsing the text form
    `namespace:value`, with the `minecraft` namespace when none is given, and
    rejecting characters a namespace or value may not hold. */
module Keys {
  import opened Optional

  /** A key: a namespace and a value within it. */
  datatype Key = Key(namespace: string, value: string)

  /** Why a text is not a key. */
  datatype KeyError =
    | InvalidNamespace(namespace: string)
    | InvalidValue(value: string)

  const Separator: char := ':'
  const DefaultNamespace: string := "minecraft"

  /** Characters allowed in a namespace: lower-case letters, digits, `_`, `-` and `.`. */
  predicate NamespaceChar(c: char) {
    c == '_' || c == '-' || ('a' <= c <= 'z') || ('0' <= c <= '9') || c == '.'
  }

  /** Characters allowed in a value: those of a namespace, and `/`. */
  predicate ValueChar(c: char) {
    NamespaceChar(c) || c == '/'
  }

  predicate ValidNamespace(s: string) {
    forall i :: 0 <= i < |s| ==> NamespaceChar(s[i])
  }

  predicate ValidValue(s: string) {
    forall i :: 0 <= i < |s| ==> ValueChar(s[i])
  }

  predicate ValidKey(k: Key) {
    ValidNamespace(k.namespace) && ValidValue(k.value)
  }

  /** The position of the first `c` in `s`, if any. */
  function IndexOf(s: string, c: char): (r: Option<nat>)
    ensures r.None? <==> c !in s
    ensures r.Some? ==> r.value < |s| && s[r.value] == c && c !in s[..r.value]
  {
    if s == [] then None
    else if s[0] == c then Some(0)
    else
      match IndexOf(s[1..], c)
      case None => None
      case Some(i) =>
        assert s[..i + 1] == [s[0]] + s[1..][..i];
        Some(i + 1)
  }

  /** The default namespace is a valid one. */
  lemma MinecraftValid()
    ensures ValidNamespace(DefaultNamespace)
  {
    assert forall i :: 0 <= i < |DefaultNamespace| ==> NamespaceChar(DefaultNamespace[i]);
  }

  /** A key from its two parts, checked namespace first. */
  function MakeKey(namespace: string, value: string): (r: Result<Key, KeyError>)
    ensures r.Ok? <==> ValidNamespace(namespace) && ValidValue(value)
    ensures r.Ok? ==> r.value == Key(namespace, value)
    ensures !ValidNamespace(namespace) ==> r == Err(InvalidNamespace(namespace))
    ensures ValidNamespace(namespace) && !ValidValue(value) ==> r == Err(InvalidValue(value))
  {
    if !ValidNamespace(namespace) then Err(InvalidNamespace(namespace))
    else if !ValidValue(value) then Err(InvalidValue(value))
    else Ok(Key(namespace, value))
  }

  /** A key from its text form. The first `:` separates the namespace from
      the value; when there is none, or it is the first character, the
      namespace is `minecraft` and the value is what follows it. A text
      parses exactly when it is well formed, and then gives a valid key. */
  function ParseKey(s: string): (r: Result<Key, KeyError>)
    ensures r.Ok? <==> WellFormed(s)
    ensures r.Ok? ==> ValidKey(r.value)
  {
    MinecraftValid();
    match IndexOf(s, Separator)
    case None =>
      UnqualifiedValidity(s);
      MakeKey(DefaultNamespace, s)
    case Some(i) =>
      QualifiedValidity(s, i);
      MakeKey(if i >= 1 then s[..i] else DefaultNamespace, s[i + 1..])
  }

  /** The text form of a key. */
  function WriteKey(k: Key): (s: string)
    ensures |s| == |k.namespace| + 1 + |k.value|
    ensures s[|k.namespace|] == Separator
    ensures s[..|k.namespace|] == k.namespace && s[|k.namespace| + 1..] == k.value
  {
    k.namespace + [Separator] + k.value
  }

  /** No valid namespace or value holds the separator. */
  lemma SeparatorInvalid(s: string)
    requires ValidNamespace(s) || ValidValue(s)
    ensures Separator !in s
  {
    forall i | 0 <= i < |s| ensures s[i] != Separator {
      assert ValueChar(s[i]);
    }
  }

  /** A text parses exactly when every character but a separator may be in
      a value, and no separator or `/` comes before a separator: there is at
      most one separator, and the namespace before it has no `/`. */
  predicate WellFormed(s: string) {
    && (forall i :: 0 <= i < |s| && s[i] != Separator ==> ValueChar(s[i]))
    && (forall i, j :: 0 <= i < j < |s| && s[j] == Separator ==> s[i] != Separator && s[i] != '/')
  }

  /** Text without a separator is well formed exactly when it is a valid value. */
  lemma UnqualifiedValidity(s: string)
    requires Separator !in s
    ensures WellFormed(s) <==> ValidValue(s)
  {
  }

  /** Text split at its first separator is well formed exactly when the
      part before it is a valid namespace and the part after it a valid value. */
  lemma QualifiedValidity(s: string, c: nat)
    requires c < |s| && s[c] == Separator && Separator !in s[..c]
    ensures WellFormed(s) <==> ValidNamespace(s[..c]) && ValidValue(s[c + 1..])
  {
    var ns, v := s[..c], s[c + 1..];
    if WellFormed(s) {
      forall i | 0 <= i < |ns| ensures NamespaceChar(ns[i]) {
        assert s[i] != Separator && s[i] != '/';
      }
      forall i | 0 <= i < |v| ensures ValueChar(v[i]) {
        assert s[c + 1 + i] != Separator;
      }
    }
    if ValidNamespace(ns) && ValidValue(v) {
      forall i | 0 <= i < |s| && s[i] != Separator ensures ValueChar(s[i]) {
        if i < c { assert s[i] == ns[i]; } else { assert s[i] == v[i - c - 1]; }
      }
      forall i, j | 0 <= i < j < |s| && s[j] == Separator ensures s[i] != Separator && s[i] != '/' {
        assert s[i] == ns[i];
      }
    }
  }

  /** Reading the text form of a valid key gives the key back, except that
      an empty namespace reads as `minecraft`. */
  lemma ParseWritten(k: Key)
    requires ValidKey(k)
    ensures k.namespace != [] ==> ParseKey(WriteKey(k)) == Ok(k)
    ensures k.namespace == [] ==> ParseKey(WriteKey(k)) == Ok(Key(DefaultNamespace, k.value))
  {
    var s := WriteKey(k);
    var n := |k.namespace|;
    SeparatorInvalid(k.namespace);
    assert s[..n] == k.namespace;
    assert IndexOf(s, Separator) == Some(n);
    MinecraftValid();
  }

  /** Writing a parsed key gives the text back when it named its namespace,
      and `minecraft:` followed by the value otherwise. */
  lemma WriteParsed(s: string, k: Key)
    requires ParseKey(s) == Ok(k)
    ensures Separator in s && s[0] != Separator ==> WriteKey(k) == s
    ensures Separator !in s ==> WriteKey(k) == DefaultNamespace + [Separator] + s
    ensures s != [] && s[0] == Separator ==> WriteKey(k) == DefaultNamespace + s
  {
    match IndexOf(s, Separator)
    case None =>
      MinecraftValid();
    case Some(i) =>
      if i >= 1 {
        WriteQualified(s, i, k);
      } else {
        WriteLeading(s, k);
      }
  }

  lemma WriteQualified(s: string, i: nat, k: Key)
    requires IndexOf(s, Separator) == Some(i) && i >= 1 && ParseKey(s) == Ok(k)
    ensures WriteKey(k) == s
  {
    assert k == Key(s[..i], s[i + 1..]);
    assert s == s[..i] + [Separator] + s[i + 1..];
  }

  lemma WriteLeading(s: string, k: Key)
    requires IndexOf(s, Separator) == Some(0) && ParseKey(s) == Ok(k)
    ensures WriteKey(k) == DefaultNamespace + s
  {
    var v := s[1..];
    assert ParseKey(s) == MakeKey(DefaultNamespace, v);
    assert k == Key(DefaultNamespace, v);
    assert s == [Separator] + v;
    assert WriteKey(k) == DefaultNamespace + ([Separator] + v);
  }

  /** The first separator found is the one after a namespace without one. */
  lemma SplitAt(ns: string, v: string)
    requires Separator !in ns
    ensures IndexOf(ns + [Separator] + v, Separator) == Some(|ns|)
  {
    var s := ns + [Separator] + v;
    assert s[..|ns|] == ns && s[|ns|] == Separator;
  }

  /** Text without a separator is a value in the `minecraft` namespace. */
  lemma ParseUnqualified(v: string)
    requires Separator !in v
    ensures ParseKey(v) == MakeKey(DefaultNamespace, v)
  {
  }

  /** Text with a separator after a non-empty namespace splits there. */
  lemma ParseSplit(ns: string, v: string)
    requires ns != [] && Separator !in ns
    ensures ParseKey(ns + ":" + v) == MakeKey(ns, v)
  {
    assert ns + ":" + v == ns + [Separator] + v;
    SplitAt(ns, v);
    assert (ns + [Separator] + v)[..|ns|] == ns;
    assert (ns + [Separator] + v)[|ns| + 1..] == v;
  }

  /** An upper-case namespace is rejected. */
  lemma UpperCaseNamespace()
    ensures ParseKey("MineCRaft" + ":" + "test/namespace-invalid.gif") == Err(InvalidNamespace("MineCRaft"))
  {
    assert Separator !in "MineCRaft";
    ParseSplit("MineCRaft", "test/namespace-invalid.gif");
    assert !NamespaceChar("MineCRaft"[0]);
  }

  lemma SpaceInvalid()
    ensures !ValidValue("test path invalid.gif")
  {
    assert !ValueChar("test path invalid.gif"[4]);
  }

  /** A space in the value is rejected. */
  lemma SpaceInValue()
    ensures ParseKey("minecraft" + ":" + "test path invalid.gif") == Err(InvalidValue("test path invalid.gif"))
  {
    assert Separator !in "minecraft";
    ParseSplit("minecraft", "test path invalid.gif");
    MinecraftValid();
    SpaceInvalid();
  }

  lemma ValidWavValid()
    ensures ValidValue("test/valid.wav") && Separator !in "test/valid.wav"
  {
    assert forall i :: 0 <= i < |"test/valid.wav"| ==> ValueChar("test/valid.wav"[i]);
  }

  /** Naming the `minecraft` namespace is the same as naming none; `/` and
      `.` are allowed in a value. */
  lemma ExplicitDefaultNamespace()
    ensures ParseKey("minecraft" + ":" + "test/valid.wav") == Ok(Key(DefaultNamespace, "test/valid.wav"))
    ensures ParseKey("test/valid.wav") == Ok(Key(DefaultNamespace, "test/valid.wav"))
  {
    assert Separator !in "minecraft";
    MinecraftValid();
    ValidWavValid();
    ParseSplit("minecraft", "test/valid.wav");
    ParseUnqualified("test/valid.wav");
  }

  lemma AdventureMeowValid()
    ensures ValidNamespace("adventure") && ValidValue("meow")
  {
    assert forall i :: 0 <= i < |"adventure"| ==> NamespaceChar("adventure"[i]);
    assert forall i :: 0 <= i < |"meow"| ==> ValueChar("meow"[i]);
  }

  /** Any other namespace is split off at the separator. */
  lemma CustomNamespace()
    ensures ParseKey("adventure" + ":" + "meow") == Ok(Key("adventure", "meow"))
  {
    assert Separator !in "adventure";
    ParseSplit("adventure", "meow");
    AdventureMeowValid();
  }
}
