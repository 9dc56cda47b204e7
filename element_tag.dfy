/**
 * `TagElement` (compiler/src/element/tag.rs): a style tag. A scalar is the
 * tag trimmed and lower-cased; a sequence stands for its first item, and
 * more than one item is reported; a mapping is no tag, and a non-empty one
 * is reported.
 */
module ElementTag {
  import opened Common
  import opened YamlValue
  import opened Attributions
  import opened Problems
  import opened ElementBase

  datatype TagElement = TagElement(attribution: Attribution, name: string)

  const SingleTagMessage: string := "Expected a single tag"
  const TagMessage: string := "Expected a tag"

  /**
   * `from_node`: a scalar is the tag trimmed and lower-cased, with no problem;
   * only Fatal problems are reported, and none exactly for a well-formed tag.
   */
  function TagFromNode(node: Node, attribution: Attribution): (r: Built<TagElement>)
    ensures node.value.Scalar? ==> r == Built(TagElement(attribution, Lowercase(Trim(node.value.text))), [])
    ensures AllFatal(r.problems)
    ensures r.problems == [] <==> SingleValued(node)
    ensures r.element.attribution.source == attribution.source
  {
    match node.value
    case Scalar(name) => Built(TagElement(attribution, Lowercase(Trim(name))), [])
    case Sequence(items) =>
      if items == [] then Built(TagElement(attribution, ""), [])
      else
        var reported := if |items| > 1 then [NewFatal(SingleTagMessage, attribution)] else [];
        var first := TagFromNode(items[0], AtIndex(attribution, 0, items[0].startMark, items[0].endMark));
        Built(first.element, reported + first.problems)
    case Mapping(entries) =>
      Built(TagElement(attribution, ""), if entries != [] then [NewFatal(TagMessage, attribution)] else [])
  }

  /** A one-item sequence gives exactly its item's tag, one index deeper. */
  lemma SingleItemTag(node: Node, attribution: Attribution)
    requires node.value.Sequence? && |node.value.items| == 1
    ensures var item := node.value.items[0];
      TagFromNode(node, attribution) == TagFromNode(item, AtIndex(attribution, 0, item.startMark, item.endMark))
  {
    var item := node.value.items[0];
    assert [] + TagFromNode(item, AtIndex(attribution, 0, item.startMark, item.endMark)).problems
        == TagFromNode(item, AtIndex(attribution, 0, item.startMark, item.endMark)).problems;
  }
}
