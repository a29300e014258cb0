/** Text components: a tree of content strings, each node with its explicit
    style and ordered children. A tree means the sequence of characters it
    displays, each with the style it resolves to (`Render`). */
module Text {
  import opened Styles

  datatype TextNode = TextNode(content: string, style: Style, children: seq<TextNode>)

  /** A plain component with no style and no children. */
  function Of(content: string): TextNode {
    TextNode(content, Empty, [])
  }

  /** One displayed character with the style it is shown in. */
  datatype Glyph = Glyph(ch: char, style: Effective)

  /** Every character of `s`, in order, shown in style `e`. */
  function Paint(s: string, e: Effective): (gs: seq<Glyph>)
    ensures |gs| == |s|
    ensures forall i :: 0 <= i < |s| ==> gs[i] == Glyph(s[i], e)
  {
    if |s| == 0 then [] else [Glyph(s[0], e)] + Paint(s[1..], e)
  }

  lemma PaintAppend(a: string, b: string, e: Effective)
    ensures Paint(a + b, e) == Paint(a, e) + Paint(b, e)
  {
  }

  /** What a node displays when it inherits `parent`: its own content in its
      resolved style, then its children in order, each inheriting that style. */
  function Render(n: TextNode, parent: Effective): seq<Glyph>
    decreases n
  {
    var e := Merge(parent, n.style);
    Paint(n.content, e) + RenderAll(n.children, e)
  }

  function RenderAll(ns: seq<TextNode>, parent: Effective): seq<Glyph>
    decreases ns
  {
    if |ns| == 0 then [] else Render(ns[0], parent) + RenderAll(ns[1..], parent)
  }

  /** No content anywhere in the tree contains the character `c`. */
  predicate Avoids(n: TextNode, c: char)
    decreases n
  {
    c !in n.content && forall i :: 0 <= i < |n.children| ==> Avoids(n.children[i], c)
  }

  /** Every content in the tree is empty. */
  predicate Blank(n: TextNode)
    decreases n
  {
    n.content == [] && forall i :: 0 <= i < |n.children| ==> Blank(n.children[i])
  }
}
