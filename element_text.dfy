/**
 * `TextElement` (compiler/src/element/text.rs): a scalar gives the text verbatim; a sequence or a
 * mapping is reported as Fatal and gives "".
 */
module ElementText {
  import opened Common
  import opened YamlValue
  import opened Attributions
  import opened Problems
  import opened ElementBase

  datatype TextElement = TextElement(attribution: Attribution, source: string)

  const TextSequenceMessage: string := "Expected text, but found a sequence instead"
  const TextMappingMessage: string := "Expected text, but found a mapping instead"

  /** `from_node`: the attribution is kept; at most one problem, and none exactly for a scalar. */
  function TextFromNode(node: Node, attribution: Attribution): (r: Built<TextElement>)
    ensures r.element.attribution == attribution
    ensures r.problems == [] <==> node.value.Scalar?
    ensures node.value.Scalar? ==> r.element.source == node.value.text
    ensures node.value.Sequence? ==> r.element.source == "" && r.problems == [NewFatal(TextSequenceMessage, attribution)]
    ensures node.value.Mapping? ==> r.element.source == "" && r.problems == [NewFatal(TextMappingMessage, attribution)]
  {
    match node.value
    case Scalar(text) => Built(TextElement(attribution, text), [])
    case Sequence(_) => Built(TextElement(attribution, ""), [NewFatal(TextSequenceMessage, attribution)])
    case Mapping(_) => Built(TextElement(attribution, ""), [NewFatal(TextMappingMessage, attribution)])
  }
}
