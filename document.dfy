/**
 * The editor's content as the formatting code sees it: a sequence of inline
 * nodes (text, styled spans, anchors, lists with their items), and the text
 * a fragment flattens to (its `textContent`).
 */
module Document {

  /** One inline style declaration, such as `fontWeight: bold`. */
  datatype StyleProp = StyleProp(property: string, value: string)

  datatype Node =
    | Text(data: string)
    | Span(style: seq<StyleProp>, children: seq<Node>)
    | Anchor(href: string, target: string, rel: string, children: seq<Node>)
    | ListBlock(ordered: bool, items: seq<Node>)
    | ListItem(children: seq<Node>)

  /** The concatenated text of a fragment, in document order. */
  function TextOf(ns: seq<Node>): string
    decreases ns
  {
    if ns == [] then [] else NodeText(ns[0]) + TextOf(ns[1..])
  }

  /** The concatenated text under one node. */
  function NodeText(n: Node): string
    decreases n
  {
    match n
    case Text(data) => data
    case Span(_, children) => TextOf(children)
    case Anchor(_, _, _, children) => TextOf(children)
    case ListBlock(_, items) => TextOf(items)
    case ListItem(children) => TextOf(children)
  }

  /** Flattening distributes over concatenation of fragments. */
  lemma {:induction false} TextOfAppend(a: seq<Node>, b: seq<Node>)
    ensures TextOf(a + b) == TextOf(a) + TextOf(b)
  {
    if a == [] {
      assert a + b == b;
    } else {
      assert (a + b)[1..] == a[1..] + b;
      TextOfAppend(a[1..], b);
    }
  }

  /** A one-node fragment flattens to that node's text. */
  lemma TextOfSingle(n: Node)
    ensures TextOf([n]) == NodeText(n)
  {
    assert [n][1..] == [];
  }

  /** Cutting a fragment into three consecutive pieces and flattening each loses and adds no text. */
  lemma TextOfSplit(ns: seq<Node>, i: nat, j: nat)
    requires i <= j <= |ns|
    ensures TextOf(ns) == TextOf(ns[..i]) + TextOf(ns[i..j]) + TextOf(ns[j..])
  {
    var left, mid, right := ns[..i], ns[i..j], ns[j..];
    assert ns[..j] == left + mid;
    assert ns == ns[..j] + right;
    TextOfAppend(ns[..j], right);
    TextOfAppend(left, mid);
  }

  /** How many wrappers enclose the deepest text of a node. */
  function Depth(n: Node): nat
    decreases n
  {
    match n
    case Text(_) => 0
    case Span(_, children) => 1 + MaxDepth(children)
    case Anchor(_, _, _, children) => 1 + MaxDepth(children)
    case ListBlock(_, items) => 1 + MaxDepth(items)
    case ListItem(children) => 1 + MaxDepth(children)
  }

  function MaxDepth(ns: seq<Node>): nat
    decreases ns
  {
    if ns == [] then 0
    else var d := Depth(ns[0]); var rest := MaxDepth(ns[1..]); if d < rest then rest else d
  }

  /**
   * A range boundary inside a text node: the DOM splits the text node in two
   * at the offset before extracting, so that the range starts or ends
   * between nodes. The split keeps the text and the surrounding nodes.
   * This is the node-level part of the range only: when `insertNode` later
   * splits a text node at the collapsed range, the DOM can leave one more,
   * empty, text node behind, which this model does not produce. An empty
   * text node adds nothing to `TextOf`, so the text is the same either way,
   * but node counts and indices here are up to such empty nodes.
   */
  function SplitText(ns: seq<Node>, i: nat, offset: nat): (r: seq<Node>)
    requires i < |ns| && ns[i].Text? && offset <= |ns[i].data|
    ensures |r| == |ns| + 1
    ensures r[..i] == ns[..i] && r[i + 2..] == ns[i + 1..]
    ensures r[i] == Text(ns[i].data[..offset]) && r[i + 1] == Text(ns[i].data[offset..])
    ensures TextOf(r) == TextOf(ns)
  {
    var r := ns[..i] + [Text(ns[i].data[..offset]), Text(ns[i].data[offset..])] + ns[i + 1..];
    calc {
      TextOf(r);
      { TextOfAppend(ns[..i] + [Text(ns[i].data[..offset]), Text(ns[i].data[offset..])], ns[i + 1..]);
        TextOfAppend(ns[..i], [Text(ns[i].data[..offset]), Text(ns[i].data[offset..])]); }
      TextOf(ns[..i]) + TextOf([Text(ns[i].data[..offset]), Text(ns[i].data[offset..])]) + TextOf(ns[i + 1..]);
      { TextOfSingle(Text(ns[i].data[offset..]));
        TextOfSingle(ns[i]);
        assert [Text(ns[i].data[..offset]), Text(ns[i].data[offset..])][1..] == [Text(ns[i].data[offset..])];
        assert ns[i].data == ns[i].data[..offset] + ns[i].data[offset..]; }
      TextOf(ns[..i]) + TextOf([ns[i]]) + TextOf(ns[i + 1..]);
      { TextOfSplit(ns, i, i + 1); assert ns[i..i + 1] == [ns[i]]; }
      TextOf(ns);
    }
    r
  }
}
