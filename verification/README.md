# Legacy text format and scalar text forms, modelled in Dafny

This project models two parts of the adventure text library.

1. **The legacy-format transducer.** It converts between a tree of text components and a flat string. In that string, format codes set colour and decoration state: an escape character (`§` by default, often `&`) followed by one code character.
   - Colour codes are `0`-`9` and `a`-`f`. Decoration codes are `k`-`o`. The reset code is `r`.
   - With hex colours enabled there are two more forms. The compact form is `§#rrggbb`. The repeated-character form is `§x` followed by six pairs of the escape character and a hex digit.
   - Reading (`LegacyDeserializer.Deserialize`) lexes the string into tokens (`LegacyLexer.Lex`). It keeps a running style in which a colour code clears the decorations and a reset clears everything (`LegacyCodes.Apply`).
   - Malformed input never fails. An escape character that starts no code, or an incomplete compact hex colour, is read as literal text. An `x` introducer that six pairs do not follow is dropped (`LegacyLexer.ScanFallback`).
   - Text before the first code becomes the root's content. Every later stretch of text becomes a child that carries its whole style.
   - Writing (`LegacySerializer.Serialize`) walks the tree. It writes codes only in front of non-empty text, and only to move from the style last written to the style that text needs.
   - Without hex colours, an RGB colour is downsampled to the nearest of the sixteen named colours (`Colours.Nearest`).
2. **Scalar text forms used by the configuration binding.**
   - A colour is stored as its lower-case name or as `#rrggbb`. It is read from a name, a `#` string or an integer (`ColourScalars`).
   - A key is read from `namespace:value`. The namespace defaults to `minecraft` and invalid characters are rejected (`Keys`).

The behaviour is pinned down by the repository's test classes, and every module follows them. The implementation classes (`LegacyComponentSerializerImpl`, `TextColorSerializer`, `KeySerializer`, `Key`, `TextColor`, `NamedTextColor`) are not part of this model.

Modules:

- `Optional`: option and result types.
- `Hex`: `%06x` digit strings and hex parsing.
- `Colours`: the palette, the lookups by code, name and exact value, and the nearest colour.
- `Styles`: explicit and resolved styles, and `Merge`.
- `Text`: component trees, and `Render`, which gives the styled characters a tree shows.
- `LegacyCodes`: tokens and their meaning.
- `LegacyLexer`: scanning and printing tokens.
- `LegacyDeserializer` and `LegacySerializer`: reading and writing.
- `LegacyRoundTrip`: writing a tree and reading it back.
- `LegacyReadExamples`, `LegacyWriteExamples` and `LegacyExampleFacts`: the test cases.
- `ColourScalars` and `Keys`: the scalar text forms.

Each test case is proved in two steps. A general lemma covers any texts free of the escape character and any tokens. A literal lemma then applies it to the test's own strings. Example strings are written as concatenations of their codes and texts: `"&a" + ("&l" + ("foo" + ...))` is the test's `"&a&lfoo..."`.

## Model

| member | source | states |
|---|---|---|
| LegacyReadExamples.SimpleFrom | text-serializer-legacy/src/test/java/net/kyori/adventure/text/serializer/legacy/LegacyComponentSerializerTest.java:37-40 | `foo` reads as one unstyled component with content `foo` |
| LegacyDeserializer.DeserializePlainText | text-serializer-legacy/src/test/java/net/kyori/adventure/text/serializer/legacy/LegacyComponentSerializerTest.java:37-40 | any text without the escape character reads as one unstyled component with exactly that content, for every escape character and hex setting |
| LegacyLexer.Lex | text-serializer-legacy/src/test/java/net/kyori/adventure/text/serializer/legacy/LegacyComponentSerializerTest.java:37-40 | a string without the escape character lexes to its characters as literal text |
| LegacyReadExamples.FromColour | text-serializer-legacy/src/test/java/net/kyori/adventure/text/serializer/legacy/LegacyComponentSerializerTest.java:43-50 | `&a&lfoo&9bar` reads as an empty root with `foo` green and bold, then `bar` blue and not bold |
| LegacyReadExamples.FromColourRead | text-serializer-legacy/src/test/java/net/kyori/adventure/text/serializer/legacy/LegacyComponentSerializerTest.java:43-50 | for any two codes, a text, a code and a text, each text becomes a child styled by the codes before it, applied in order |
| LegacyDeserializer.Deserialize | text-serializer-legacy/src/test/java/net/kyori/adventure/text/serializer/legacy/LegacyComponentSerializerTest.java:43-50 | a read tree is flat: every child is a leaf with non-empty text, and a root with children sets no style |
| LegacyDeserializer.DeserializeLeadingText | text-serializer-legacy/src/test/java/net/kyori/adventure/text/serializer/legacy/LegacyComponentSerializerTest.java:194-201 | for any text without the escape character followed by a format code and anything else, the text is the root's own content, the root sets no style, and its children show what follows the code, starting from the style the code sets |
| LegacyDeserializer.DeserializeLoneRun | text-serializer-legacy/src/test/java/net/kyori/adventure/text/serializer/legacy/LegacyComponentSerializerTest.java:53-57 | for any non-empty format codes, then one text without the escape character, then any codes, the result is that text alone in the style the leading codes set, with no root around it |
| LegacyDeserializer.DeserializeUnknownCode | text-serializer-legacy/src/test/java/net/kyori/adventure/text/serializer/legacy/LegacyComponentSerializerTest.java:203-207 | a string that is an escape character, a character that starts no code, and text without the escape character reads as one unstyled component showing the whole string, escape character included |
| LegacyDeserializer.DeserializeMeaning | text-serializer-legacy/src/test/java/net/kyori/adventure/text/serializer/legacy/LegacyComponentSerializerTest.java:43-67 | the read tree shows exactly the characters the string's codes and text mean, each in the running style at that point |
| LegacyReadExamples.FromColourOverride | text-serializer-legacy/src/test/java/net/kyori/adventure/text/serializer/legacy/LegacyComponentSerializerTest.java:53-57 | in `&a&9foo` the second colour wins, and the lone styled stretch is returned without an empty root |
| LegacyReadExamples.ResetOverride | text-serializer-legacy/src/test/java/net/kyori/adventure/text/serializer/legacy/LegacyComponentSerializerTest.java:60-67 | in `&a&lfoo&r&8bar`, `foo` is green and bold and `bar` is dark grey without bold |
| LegacyCodes.Apply | text-serializer-legacy/src/test/java/net/kyori/adventure/text/serializer/legacy/LegacyComponentSerializerTest.java:43-67 | text leaves the running style alone; only a colour code or a reset changes the colour or removes decorations, and both clear every decoration; a decoration code adds its decoration |
| Colours.ByCode | text-serializer-legacy/src/test/java/net/kyori/adventure/text/serializer/legacy/LegacyComponentSerializerTest.java:43-67 | a code character stands for a named colour exactly when it is that colour's code |
| LegacyCodes.ClearingCodeIsolates | text-serializer-legacy/src/test/java/net/kyori/adventure/text/serializer/legacy/LegacyComponentSerializerTest.java:60-67 | after a colour code or a reset, the text that follows shows the same whatever codes came before |
| LegacyWriteExamples.Compound | text-serializer-legacy/src/test/java/net/kyori/adventure/text/serializer/legacy/LegacyComponentSerializerTest.java:70-83 | the compound tree is written `hi there &athis bit is green &rthis isn't &aand woa, this is again`; an unstyled child after a green one gets the reset code |
| LegacyWriteExamples.CompoundWritten | text-serializer-legacy/src/test/java/net/kyori/adventure/text/serializer/legacy/LegacyComponentSerializerTest.java:70-83 | for any root text and three child texts in this tree shape, the output is the texts with the codes between the children's resolved styles |
| LegacyWriteExamples.ToLegacyBold | text-serializer-legacy/src/test/java/net/kyori/adventure/text/serializer/legacy/LegacyComponentSerializerTest.java:86-100 | the bold tree with green, blue and plain children is written as `hi`, `foo`, `bar` and `baz`, preceded by the codes `l`; `a`; `9` (blue) and `l`; `r` and `l`, each after the section sign |
| LegacySerializer.Transition | text-serializer-legacy/src/test/java/net/kyori/adventure/text/serializer/legacy/LegacyComponentSerializerTest.java:86-139 | only format codes are written between two stretches of text, and none when the style does not change |
| LegacySerializer.TransitionMeaning | text-serializer-legacy/src/test/java/net/kyori/adventure/text/serializer/legacy/LegacyComponentSerializerTest.java:86-139 | the codes between two styles show nothing and leave exactly the new style, colour as written. Nothing is written for an unchanged style. A colour change starts with the new colour's code or a reset. Every later code is one of the new style's decorations, and only new ones when no colour code is needed |
| Styles.Merge | text-serializer-legacy/src/test/java/net/kyori/adventure/text/serializer/legacy/LegacyComponentSerializerTest.java:102-139 | a child's resolved colour is its own when it sets one and its parent's otherwise; a decoration is on when the child turns it on, or the parent has it and the child leaves it unset |
| LegacyWriteExamples.ToLegacyInherited | text-serializer-legacy/src/test/java/net/kyori/adventure/text/serializer/legacy/LegacyComponentSerializerTest.java:102-117 | the yellow tree is written `§eHello §aworld§e!`: the empty root writes nothing, and the inherited yellow is written again after the green child |
| LegacySerializer.EmitNodeLazy | text-serializer-legacy/src/test/java/net/kyori/adventure/text/serializer/legacy/LegacyComponentSerializerTest.java:102-117 | a subtree writes nothing exactly when it shows nothing; then the last written style is unchanged, and otherwise the output ends with text |
| LegacyWriteExamples.ToLegacyInheritedBold | text-serializer-legacy/src/test/java/net/kyori/adventure/text/serializer/legacy/LegacyComponentSerializerTest.java:119-139 | the bold-then-yellow tree is written `§e§lHello §a§lworld§e§l!`: inherited bold is written after every colour code |
| LegacySerializer.EmitNodeMeaning | text-serializer-legacy/src/test/java/net/kyori/adventure/text/serializer/legacy/LegacyComponentSerializerTest.java:70-139 | the tokens written for a subtree mean exactly what it shows, each colour as written, and leave the last written style in force |
| LegacySerializer.Serialize | text-serializer-legacy/src/test/java/net/kyori/adventure/text/serializer/legacy/LegacyComponentSerializerTest.java:102-139 | a tree is written as the empty string exactly when it shows no characters |
| LegacyWriteExamples.ToLegacyHex | text-serializer-legacy/src/test/java/net/kyori/adventure/text/serializer/legacy/LegacyComponentSerializerTest.java:143-146 | with hex colours, `Kittens!` in `0xffefd5` is written `§#ffefd5Kittens!` |
| LegacySerializer.Wire | text-serializer-legacy/src/test/java/net/kyori/adventure/text/serializer/legacy/LegacyComponentSerializerTest.java:143-152 | with hex colours a colour keeps its value and is written as RGB only when no named colour has it. Without hex colours it becomes a named colour at least as near as every other |
| LegacySerializer.WireFaithful | text-serializer-legacy/src/test/java/net/kyori/adventure/text/serializer/legacy/LegacyComponentSerializerTest.java:143-152 | a colour is written as itself exactly when it is named, or hex colours are enabled and it is an RGB value no named colour has |
| LegacyWriteExamples.ToLegacyDownsampled | text-serializer-legacy/src/test/java/net/kyori/adventure/text/serializer/legacy/LegacyComponentSerializerTest.java:148-152 | without hex colours, `purr` in `0xff0000` is written as code `4` (dark red) followed by `purr` |
| LegacyExampleFacts.Nearestff0000 | text-serializer-legacy/src/test/java/net/kyori/adventure/text/serializer/legacy/LegacyComponentSerializerTest.java:148-152 | the named colour nearest to `0xff0000` is dark red (code `4`) |
| Colours.Nearest | text-serializer-legacy/src/test/java/net/kyori/adventure/text/serializer/legacy/LegacyComponentSerializerTest.java:148-152 | the result is at the least squared RGB distance of all sixteen colours, and strictly nearer than every colour declared before it |
| Colours.NearestOfNamed | text-serializer-legacy/src/test/java/net/kyori/adventure/text/serializer/legacy/LegacyComponentSerializerTest.java:148-152 | a value that is exactly a named colour's downsamples to that colour |
| Colours.NearestUnique | text-serializer-legacy/src/test/java/net/kyori/adventure/text/serializer/legacy/LegacyComponentSerializerTest.java:148-152 | a colour strictly nearer than every other one is the nearest |
| LegacyReadExamples.FromHex | text-serializer-legacy/src/test/java/net/kyori/adventure/text/serializer/legacy/LegacyComponentSerializerTest.java:155-162 | with `&` and hex colours, `&#ffb6c1pretty&#ff69b4&lin&#ffc0cbpink` reads as three children in the three RGB colours, the middle one bold |
| LegacyWriteExamples.ToLegacyHexRepeated | text-serializer-legacy/src/test/java/net/kyori/adventure/text/serializer/legacy/LegacyComponentSerializerTest.java:165-168 | with the repeated-character form chosen, `0xffefd5` is written as the section sign and `x`, then the section sign before each of the digits `ffefd5` |
| LegacyReadExamples.FromHexRepeated | text-serializer-legacy/src/test/java/net/kyori/adventure/text/serializer/legacy/LegacyComponentSerializerTest.java:170-174 | the repeated-character form of `0xffefd5` followed by `Kittens!` reads as `Kittens!` in `0xffefd5`, without the repeated form being chosen for writing |
| LegacyLexer.LexPrint | text-serializer-legacy/src/test/java/net/kyori/adventure/text/serializer/legacy/LegacyComponentSerializerTest.java:143-174 | printed tokens lex back to the same tokens, in either hex form, when text avoids the escape character and RGB colours are canonical with hex enabled |
| LegacyRoundTrip.RoundTrip | text-serializer-legacy/src/test/java/net/kyori/adventure/text/serializer/legacy/LegacyComponentSerializerTest.java:143-174 | reading back a written tree shows the same characters in the same styles, each colour as it is written |
| LegacyRoundTrip.RoundTripFaithful | text-serializer-legacy/src/test/java/net/kyori/adventure/text/serializer/legacy/LegacyComponentSerializerTest.java:143-174 | when every colour of the tree is written as itself, reading back shows exactly what the tree shows |
| LegacyReadExamples.FromHexRepeatedMixed | text-serializer-legacy/src/test/java/net/kyori/adventure/text/serializer/legacy/LegacyComponentSerializerTest.java:176-183 | `§cHugs and `, then the repeated-character form of `0xffefd5`, then `Kittens!` reads as red `Hugs and ` then `Kittens!` in `0xffefd5` |
| LegacyReadExamples.FromHexRepeatedLookahead | text-serializer-legacy/src/test/java/net/kyori/adventure/text/serializer/legacy/LegacyComponentSerializerTest.java:185-192 | without `§x`, the section sign before each of the digits `ffefd5` gives six colour codes and `Kittens!` is dark purple |
| LegacyReadExamples.FromHexRepeatedMultiple | text-serializer-legacy/src/test/java/net/kyori/adventure/text/serializer/legacy/LegacyComponentSerializerTest.java:194-201 | `Happy with ` is the root's content, followed by children in `0x6b4668` and `0xffefd5` |
| LegacyLexer.Scan | text-serializer-legacy/src/test/java/net/kyori/adventure/text/serializer/legacy/LegacyComponentSerializerTest.java:170-207 | a non-escape character is one character of text. A code starts with the escape character and takes at least two characters. A head is dropped only when hex is on and it is the escape character and `x`; the literal cases are stated by `LegacyLexer.ScanFallback` |
| LegacyLexer.DroppedIntroducer | text-serializer-legacy/src/test/java/net/kyori/adventure/text/serializer/legacy/LegacyComponentSerializerTest.java:203-207 | when six escape-and-digit pairs do not follow `§x`, the introducer is dropped and the rest is read as if it were not there |
| LegacyLexer.ScanFallback | text-serializer-legacy/src/test/java/net/kyori/adventure/text/serializer/legacy/LegacyComponentSerializerTest.java:203-207 | malformed input never fails: a lone character is literal text, and an escape character before a character that starts no code (no colour, decoration or reset, and not a hex introducer that is on and complete) is read as one literal character |
| LegacyLexer.UnknownCode | text-serializer-legacy/src/test/java/net/kyori/adventure/text/serializer/legacy/LegacyComponentSerializerTest.java:203-207 | an escape character before a character that starts no code yields both characters as literal text, and the rest of the string is read as usual |
| LegacyLexer.IncompleteHex | text-serializer-legacy/src/test/java/net/kyori/adventure/text/serializer/legacy/LegacyComponentSerializerTest.java:203-207 | with hex colours on, an escape character and a `#` that six hex digits do not follow both stay literal text, and the rest is read as usual |
| LegacyReadExamples.HangingRead | text-serializer-legacy/src/test/java/net/kyori/adventure/text/serializer/legacy/LegacyComponentSerializerTest.java:203-207 | for any text, `§x§e` followed by it reads as that text in the style of the code written `§e` |
| LegacyReadExamples.FromHexRepeatedHanging | text-serializer-legacy/src/test/java/net/kyori/adventure/text/serializer/legacy/LegacyComponentSerializerTest.java:203-207 | `§x§eKittens!` reads as yellow `Kittens!` |
| LegacyReadExamples.StackedFormatting | text-serializer-legacy/src/test/java/net/kyori/adventure/text/serializer/legacy/LegacyComponentSerializerTest.java:209-219 | `§r§r§c§k` + bars + `§e§lProfile§c§k` + bars reads as the bars red and obfuscated, `Profile` yellow and bold, the bars red and obfuscated |
| LegacyReadExamples.ResetClearsColour | text-serializer-legacy/src/test/java/net/kyori/adventure/text/serializer/legacy/LegacyComponentSerializerTest.java:221-226 | `§c§rCleared` reads as plain `Cleared` |
| ColourScalars.WriteColour | serializer-configurate3/src/test/java/net/kyori/adventure/serializer/configurate3/ScalarSerializersTest.java:42-64 | a named colour is stored as its name. Any other colour is stored as `#` and six lower-case hex digits whose value is the colour's |
| ColourScalars.ReadColour | serializer-configurate3/src/test/java/net/kyori/adventure/serializer/configurate3/ScalarSerializersTest.java:42-64 | an integer reads as the colour of its low 24 bits. `#` and six hex digits reads as their value. Any other `#` text is malformed. Other text reads exactly when it names a colour. Every result is canonical |
| ColourScalars.ReadWritten | serializer-configurate3/src/test/java/net/kyori/adventure/serializer/configurate3/ScalarSerializersTest.java:42-64 | the stored text of a canonical colour reads back as that colour |
| ColourScalars.WriteRead | serializer-configurate3/src/test/java/net/kyori/adventure/serializer/configurate3/ScalarSerializersTest.java:42-64 | storing a colour read from text gives that text back exactly when it is a name, or lower-case hex of a value no named colour has |
| ColourScalars.IntegerAsHex | serializer-configurate3/src/test/java/net/kyori/adventure/serializer/configurate3/ScalarSerializersTest.java:52-60 | an integer reads as the same colour as the `#` text of its low 24 bits |
| Colours.ByExactRgb | serializer-configurate3/src/test/java/net/kyori/adventure/serializer/configurate3/ScalarSerializersTest.java:52-63 | a value gives a named colour exactly when it is that colour's value |
| Colours.ColourOf | serializer-configurate3/src/test/java/net/kyori/adventure/serializer/configurate3/ScalarSerializersTest.java:52-60 | the colour of a value has that value, is canonical, and is named exactly when some named colour has the value |
| Colours.ColourOfValue | serializer-configurate3/src/test/java/net/kyori/adventure/serializer/configurate3/ScalarSerializersTest.java:52-60 | the colour of a canonical colour's value is that colour |
| ColourScalars.WriteAqua | serializer-configurate3/src/test/java/net/kyori/adventure/serializer/configurate3/ScalarSerializersTest.java:45-46 | aqua is stored as `aqua` |
| Colours.ByName | serializer-configurate3/src/test/java/net/kyori/adventure/serializer/configurate3/ScalarSerializersTest.java:48-49 | a text gives a named colour exactly when it is that colour's name |
| ColourScalars.ReadDarkPurple | serializer-configurate3/src/test/java/net/kyori/adventure/serializer/configurate3/ScalarSerializersTest.java:48-49 | `dark_purple` reads as dark purple |
| ColourScalars.ReadAdface | serializer-configurate3/src/test/java/net/kyori/adventure/serializer/configurate3/ScalarSerializersTest.java:55-56 | `#adface` reads as RGB `0xadface` |
| ColourScalars.ReadInteger | serializer-configurate3/src/test/java/net/kyori/adventure/serializer/configurate3/ScalarSerializersTest.java:59-60 | the integer `0x2468AC` reads as RGB `0x2468AC` |
| ColourScalars.Write123456 | serializer-configurate3/src/test/java/net/kyori/adventure/serializer/configurate3/ScalarSerializersTest.java:62-63 | RGB `0x123456` is stored as `#123456` |
| Keys.MakeKey | serializer-configurate3/src/test/java/net/kyori/adventure/serializer/configurate3/ScalarSerializersTest.java:67-76 | a key is made exactly when the namespace and value characters are allowed. A bad namespace is reported before a bad value |
| Keys.ParseKey | serializer-configurate3/src/test/java/net/kyori/adventure/serializer/configurate3/ScalarSerializersTest.java:67-76 | a text parses exactly when every non-separator character may be in a value and no separator or `/` comes before a separator. The key parsed is valid |
| Keys.ParseWritten | serializer-configurate3/src/test/java/net/kyori/adventure/serializer/configurate3/ScalarSerializersTest.java:67-82 | the text form of a valid key parses back to the key, except that an empty namespace reads as `minecraft` |
| Keys.WriteParsed | serializer-configurate3/src/test/java/net/kyori/adventure/serializer/configurate3/ScalarSerializersTest.java:67-82 | writing a parsed key gives its text back when the text names its namespace, and otherwise `minecraft:` before the value |
| Keys.ParseUnqualified | serializer-configurate3/src/test/java/net/kyori/adventure/serializer/configurate3/ScalarSerializersTest.java:75 | text without a separator is a value in the `minecraft` namespace |
| Keys.ParseSplit | serializer-configurate3/src/test/java/net/kyori/adventure/serializer/configurate3/ScalarSerializersTest.java:81 | text with a separator after a non-empty namespace splits there |
| Keys.UpperCaseNamespace | serializer-configurate3/src/test/java/net/kyori/adventure/serializer/configurate3/ScalarSerializersTest.java:69-71 | `MineCRaft:test/namespace-invalid.gif` fails on its namespace |
| Keys.SpaceInValue | serializer-configurate3/src/test/java/net/kyori/adventure/serializer/configurate3/ScalarSerializersTest.java:72-74 | `minecraft:test path invalid.gif` fails on its value |
| Keys.ExplicitDefaultNamespace | serializer-configurate3/src/test/java/net/kyori/adventure/serializer/configurate3/ScalarSerializersTest.java:75 | `minecraft:test/valid.wav` and `test/valid.wav` both read as the key `minecraft`, `test/valid.wav` |
| Keys.CustomNamespace | serializer-configurate3/src/test/java/net/kyori/adventure/serializer/configurate3/ScalarSerializersTest.java:81 | `adventure:meow` reads as namespace `adventure`, value `meow` |

## Left out

- Non-text components (translatable, score, selector, NBT), hover and click events, and the builder API. None of them appears in the legacy format. A tree here has only text content.
- The format policy is not validated when it is built. The model reads and writes with any escape character, and the written form reads back whatever the escape character is.
- The serializer's extra reset before a decoration is switched off is written the same way as a colour change: a colour or reset code followed by every decoration in force. No test distinguishes other ways of doing this.
- `LegacyComponentSerializerImpl` reads right to left and nests decoration stacks. That code is not part of this model. The model reads left to right into a flat list of runs, which gives the trees the tests expect.
- The configuration library's node get/set plumbing, type tokens, serializer registration and I/O. A scalar is a value: text or an integer.
- Keys.ParseKey: a key is read from text only. An integer scalar, which the binding would turn into its decimal text, is not modelled.
- ColourScalars.ReadColour: hex text is read only as `#` and exactly six digits of either case. Other lengths and signs, which an integer parser might accept, read as malformed.
- ColourScalars.ReadColour: an integer keeps its low 24 bits, as a Java `int` masked with `0xffffff` would. A wider integer is reduced the same way (the value modulo 2^24).
- The JSON tree and binary tag formats, and their Gson and NBT adapters: other wire formats, not the legacy one.
