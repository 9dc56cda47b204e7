/**
 * `NameElement` (compiler/src/element/name.rs): the name of a quality,
 * storylet, location or value. A scalar is the name as written; a sequence
 * stands for its first item, and more than one item is reported; a mapping
 * is no name, and a non-empty one is reported.
 */
module ElementName {
  import opened Common
  import opened YamlValue
  import opened Attributions
  import opened Problems
  import opened ElementBase

  datatype NameElement = NameElement(attribution: Attribution, name: string)

  const SingleNameMessage: string := "Expected a single name"
  const NameMessage: string := "Expected a name"

  /**
   * `from_node`: a scalar is the name verbatim (not trimmed) with no problem;
   * only Fatal problems are reported, and none exactly for a well-formed name.
   */
  function NameFromNode(node: Node, attribution: Attribution): (r: Built<NameElement>)
    ensures node.value.Scalar? ==> r == Built(NameElement(attribution, node.value.text), [])
    ensures AllFatal(r.problems)
    ensures r.problems == [] <==> SingleValued(node)
    ensures r.element.attribution.source == attribution.source
  {
    match node.value
    case Scalar(name) => Built(NameElement(attribution, name), [])
    case Sequence(items) =>
      if items == [] then Built(NameElement(attribution, ""), [])
      else
        var reported := if |items| > 1 then [NewFatal(SingleNameMessage, attribution)] else [];
        var first := NameFromNode(items[0], AtIndex(attribution, 0, items[0].startMark, items[0].endMark));
        Built(first.element, reported + first.problems)
    case Mapping(entries) =>
      Built(NameElement(attribution, ""), if entries != [] then [NewFatal(NameMessage, attribution)] else [])
  }

  /** A one-item sequence names exactly what its item names, one index deeper. */
  lemma SingleItemName(node: Node, attribution: Attribution)
    requires node.value.Sequence? && |node.value.items| == 1
    ensures var item := node.value.items[0];
      NameFromNode(node, attribution) == NameFromNode(item, AtIndex(attribution, 0, item.startMark, item.endMark))
  {
    var item := node.value.items[0];
    assert [] + NameFromNode(item, AtIndex(attribution, 0, item.startMark, item.endMark)).problems
        == NameFromNode(item, AtIndex(attribution, 0, item.startMark, item.endMark)).problems;
  }
}
