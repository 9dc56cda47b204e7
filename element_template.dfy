/**
 * `TextTemplateElement` (compiler/src/element/template.rs): a scalar gives the text template verbatim; a sequence or a
 * mapping is reported as Fatal and gives "".
 */
module ElementTemplate {
  import opened Common
  import opened YamlValue
  import opened Attributions
  import opened Problems
  import opened ElementBase

  datatype TextTemplateElement = TextTemplateElement(attribution: Attribution, source: string)

  const TemplateSequenceMessage: string := "Expected a text template, but found a sequence instead"
  const TemplateMappingMessage: string := "Expected a text template, but found a mapping instead"

  /** `from_node`: the attribution is kept; at most one problem, and none exactly for a scalar. */
  function TemplateFromNode(node: Node, attribution: Attribution): (r: Built<TextTemplateElement>)
    ensures r.element.attribution == attribution
    ensures r.problems == [] <==> node.value.Scalar?
    ensures node.value.Scalar? ==> r.element.source == node.value.text
    ensures node.value.Sequence? ==> r.element.source == "" && r.problems == [NewFatal(TemplateSequenceMessage, attribution)]
    ensures node.value.Mapping? ==> r.element.source == "" && r.problems == [NewFatal(TemplateMappingMessage, attribution)]
  {
    match node.value
    case Scalar(text) => Built(TextTemplateElement(attribution, text), [])
    case Sequence(_) => Built(TextTemplateElement(attribution, ""), [NewFatal(TemplateSequenceMessage, attribution)])
    case Mapping(_) => Built(TextTemplateElement(attribution, ""), [NewFatal(TemplateMappingMessage, attribution)])
  }
}
