/**
 * `ExpressionElement` (compiler/src/element/expression.rs): a scalar gives the expression verbatim; a sequence or a
 * mapping is reported as Fatal and gives "no".
 */
module ElementExpression {
  import opened Common
  import opened YamlValue
  import opened Attributions
  import opened Problems
  import opened ElementBase

  datatype ExpressionElement = ExpressionElement(attribution: Attribution, source: string)

  const ExpressionSequenceMessage: string := "Expected an expression, but found a sequence instead"
  const ExpressionMappingMessage: string := "Expected an expression, but found a mapping instead"

  /** `from_node`: the attribution is kept; at most one problem, and none exactly for a scalar. */
  function ExpressionFromNode(node: Node, attribution: Attribution): (r: Built<ExpressionElement>)
    ensures r.element.attribution == attribution
    ensures r.problems == [] <==> node.value.Scalar?
    ensures node.value.Scalar? ==> r.element.source == node.value.text
    ensures node.value.Sequence? ==> r.element.source == "no" && r.problems == [NewFatal(ExpressionSequenceMessage, attribution)]
    ensures node.value.Mapping? ==> r.element.source == "no" && r.problems == [NewFatal(ExpressionMappingMessage, attribution)]
  {
    match node.value
    case Scalar(text) => Built(ExpressionElement(attribution, text), [])
    case Sequence(_) => Built(ExpressionElement(attribution, "no"), [NewFatal(ExpressionSequenceMessage, attribution)])
    case Mapping(_) => Built(ExpressionElement(attribution, "no"), [NewFatal(ExpressionMappingMessage, attribution)])
  }
}
