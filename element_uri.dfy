/**
 * `UriElement` (compiler/src/element/uri.rs): a scalar gives the URI trimmed; a sequence or a
 * mapping is reported as Fatal and gives "".
 */
module ElementUri {
  import opened Common
  import opened YamlValue
  import opened Attributions
  import opened Problems
  import opened ElementBase

  datatype UriElement = UriElement(attribution: Attribution, uri: string)

  const UriSequenceMessage: string := "Expected a URI, but found a sequence instead"
  const UriMappingMessage: string := "Expected a URI, but found a mapping instead"

  /** `from_node`: the attribution is kept; at most one problem, and none exactly for a scalar. */
  function UriFromNode(node: Node, attribution: Attribution): (r: Built<UriElement>)
    ensures r.element.attribution == attribution
    ensures r.problems == [] <==> node.value.Scalar?
    ensures node.value.Scalar? ==> r.element.uri == Trim(node.value.text)
    ensures node.value.Sequence? ==> r.element.uri == "" && r.problems == [NewFatal(UriSequenceMessage, attribution)]
    ensures node.value.Mapping? ==> r.element.uri == "" && r.problems == [NewFatal(UriMappingMessage, attribution)]
  {
    match node.value
    case Scalar(text) => Built(UriElement(attribution, Trim(text)), [])
    case Sequence(_) => Built(UriElement(attribution, ""), [NewFatal(UriSequenceMessage, attribution)])
    case Mapping(_) => Built(UriElement(attribution, ""), [NewFatal(UriMappingMessage, attribution)])
  }
}
