/**
 * Rich text (compiler/src/text.rs): a `Text` is a list of `TextNode`s,
 * and each node serialises to JSON as serde writes it: plain text as a
 * bare string, a paragraph, italic or bold run as a one-entry map keyed
 * `"p"`, `"i"` or `"b"`, and an anchor as the map `{"a": …, "href": …}`.
 *
 * `Deserialize` reads that shape back, and the round trip shows that the
 * shapes of different texts never coincide.
 */
module Texts {
  import opened Common

  /** `TextNode`. */
  datatype TextNode =
    | Plain(text: string)
    | Paragraph(children: seq<TextNode>)
    | Italic(children: seq<TextNode>)
    | Bold(children: seq<TextNode>)
    | Anchor(href: string, children: seq<TextNode>)

  /** The serialised form of a node. */
  function Serialize(node: TextNode): (j: Json)
    decreases node, 2
  {
    match node
    case Plain(s) => JString(s)
    case Paragraph(p) => JObject([("p", SerializeAll(p))])
    case Italic(i) => JObject([("i", SerializeAll(i))])
    case Bold(b) => JObject([("b", SerializeAll(b))])
    case Anchor(href, a) => JObject([("a", SerializeAll(a)), ("href", JString(href))])
  }

  /** The serialised form of a list of nodes: an array, in order. */
  function SerializeAll(nodes: seq<TextNode>): (j: Json)
    ensures j.JArray? && |j.items| == |nodes|
    decreases nodes, 1
  {
    JArray(SerializeEach(nodes))
  }

  function SerializeEach(nodes: seq<TextNode>): (r: seq<Json>)
    ensures |r| == |nodes|
    decreases nodes, 0
  {
    if nodes == [] then [] else [Serialize(nodes[0])] + SerializeEach(nodes[1..])
  }

  /** Reads a serialised node back; `None` for any other shape. */
  function Deserialize(j: Json): (r: Option<TextNode>)
    decreases j, 1
  {
    match j
    case JString(s) => Some(Plain(s))
    case JObject(entries) =>
      if |entries| == 1 && entries[0].1.JArray? then
        var children := DeserializeAll(entries[0].1.items);
        if children.None? then None
        else if entries[0].0 == "p" then Some(Paragraph(children.value))
        else if entries[0].0 == "i" then Some(Italic(children.value))
        else if entries[0].0 == "b" then Some(Bold(children.value))
        else None
      else if |entries| == 2 && entries[0].0 == "a" && entries[0].1.JArray? && entries[1].0 == "href" && entries[1].1.JString? then
        var children := DeserializeAll(entries[0].1.items);
        if children.None? then None else Some(Anchor(entries[1].1.text, children.value))
      else None
    case _ => None
  }

  /** Reads every item back, if every one is a serialised node. */
  function DeserializeAll(items: seq<Json>): (r: Option<seq<TextNode>>)
    ensures r.Some? ==> |r.value| == |items|
    decreases items, 0
  {
    if items == [] then Some([])
    else
      var head := Deserialize(items[0]);
      var rest := DeserializeAll(items[1..]);
      if head.None? || rest.None? then None else Some([head.value] + rest.value)
  }

  /** Serialising a node and reading it back gives the node. */
  lemma {:induction false} RoundTrip(node: TextNode)
    ensures Deserialize(Serialize(node)) == Some(node)
    decreases node, 2
  {
    match node
    case Plain(_) =>
    case Paragraph(p) => RoundTripAll(p);
    case Italic(i) => RoundTripAll(i);
    case Bold(b) => RoundTripAll(b);
    case Anchor(_, a) => RoundTripAll(a);
  }

  lemma {:induction false} RoundTripAll(nodes: seq<TextNode>)
    ensures DeserializeAll(SerializeEach(nodes)) == Some(nodes)
    decreases nodes, 0
  {
    if nodes != [] {
      RoundTrip(nodes[0]);
      RoundTripAll(nodes[1..]);
      assert SerializeEach(nodes)[1..] == SerializeEach(nodes[1..]);
      assert [nodes[0]] + nodes[1..] == nodes;
    }
  }

  /** Two nodes with the same serialised form are the same node. */
  lemma SerializeInjective(a: TextNode, b: TextNode)
    requires Serialize(a) == Serialize(b)
    ensures a == b
  {
    RoundTrip(a);
    RoundTrip(b);
  }
}
