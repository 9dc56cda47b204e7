/**
 * `VersionElement` and `MetaElement` (compiler/src/element/meta.rs): the
 * content version a document declares, and the metadata block (title,
 * description, credits) of a world.
 */
module ElementMeta {
  import opened Common
  import opened YamlValue
  import opened Attributions
  import opened Problems
  import opened ElementBase
  import opened ElementText
  import opened ElementList

  datatype VersionElement = VersionElement(attribution: Attribution, version: string)

  datatype MetaElement = MetaElement(
    attribution: Attribution,
    title: Option<TextElement>,
    description: Option<TextElement>,
    credits: Option<ListElement<TextElement>>)

  const SingleVersionMessage: string := "Expected a single version"
  const VersionMappingMessage: string := "Expected a version, but found a mapping instead"
  const MetaMessage: string := "Expected a metadata block"
  const SingleMetaMessage: string := "Expected a single metadata block"

  /** A version node read without a problem: a scalar, or nested one-item sequences ending in one or in nothing. */
  predicate PlainVersion(node: Node)
  {
    match node.value
    case Scalar(_) => true
    case Sequence(items) => |items| == 0 || (|items| == 1 && PlainVersion(items[0]))
    case Mapping(_) => false
  }

  /**
   * `VersionElement::from_node`: a scalar is the trimmed version; a sequence
   * stands for its first item (more than one is reported); a mapping is
   * reported and is the empty version. Only Fatal problems are reported.
   */
  function VersionFromNode(node: Node, attribution: Attribution): (r: Built<VersionElement>)
    ensures node.value.Scalar? ==> r == Built(VersionElement(attribution, Trim(node.value.text)), [])
    ensures node.value.Mapping? ==> r == Built(VersionElement(attribution, ""), [NewFatal(VersionMappingMessage, attribution)])
    ensures node.value.Sequence? && |node.value.items| > 1 ==> r.problems != [] && r.problems[0] == NewFatal(SingleVersionMessage, attribution)
    ensures AllFatal(r.problems)
    ensures r.problems == [] <==> PlainVersion(node)
  {
    match node.value
    case Scalar(text) => Built(VersionElement(attribution, Trim(text)), [])
    case Sequence(items) =>
      if items == [] then Built(VersionElement(attribution, ""), [])
      else
        var reported := if |items| > 1 then [NewFatal(SingleVersionMessage, attribution)] else [];
        var first := VersionFromNode(items[0], AtIndex(attribution, 0, items[0].startMark, items[0].endMark));
        AllFatalAppend(reported, first.problems);
        Built(first.element, reported + first.problems)
    case Mapping(_) => Built(VersionElement(attribution, ""), [NewFatal(VersionMappingMessage, attribution)])
  }

  /** A metadata block with nothing in it. */
  function EmptyMeta(attribution: Attribution): MetaElement
  {
    MetaElement(attribution, None, None, None)
  }

  /** The credits: a list of texts. */
  function CreditsFromNode(node: Node, attribution: Attribution): Built<ListElement<TextElement>>
  {
    ListFromNode(node, attribution, TextFromNode)
  }

  /**
   * `MetaElement::from_node`: a mapping reads `title`, `description` and
   * `credits`; a scalar is an empty block, reported unless blank; an empty
   * sequence is an empty block; any other sequence, even of one item, is
   * reported and stands for its first item.
   */
  function MetaFromNode(node: Node, attribution: Attribution): (r: Built<MetaElement>)
    ensures node.value.Mapping? ==>
      var m := node.value.entries;
      r.element.attribution == attribution
      && ReadsKey(m, attribution, "title", TextFromNode, r.element.title)
      && ReadsKey(m, attribution, "description", TextFromNode, r.element.description)
      && ReadsKey(m, attribution, "credits", CreditsFromNode, r.element.credits)
    ensures node.value.Scalar? ==>
      r.element == EmptyMeta(attribution) && (r.problems == [] <==> IsBlank(node.value.text))
    ensures node.value.Sequence? && node.value.items == [] ==> r == Built(EmptyMeta(attribution), [])
    ensures node.value.Sequence? && node.value.items != [] ==> r.problems != [] && r.problems[0] == NewFatal(SingleMetaMessage, attribution)
  {
    match node.value
    case Scalar(text) =>
      TrimBlank(text);
      Built(EmptyMeta(attribution), if !IsBlank(text) then [NewFatal(MetaMessage, attribution)] else [])
    case Sequence(items) =>
      if items == [] then Built(EmptyMeta(attribution), [])
      else
        var first := MetaFromNode(items[0], AtIndex(attribution, 0, items[0].startMark, items[0].endMark));
        Built(first.element, [NewFatal(SingleMetaMessage, attribution)] + first.problems)
    case Mapping(m) =>
      var title := FromKey(m, attribution, "title", TextFromNode);
      var description := FromKey(m, attribution, "description", TextFromNode);
      var credits := FromKey(m, attribution, "credits", CreditsFromNode);
      Built(MetaElement(attribution, title.element, description.element, credits.element),
            title.problems + description.problems + credits.problems)
  }

  /** A one-item sequence of metadata is reported even though it holds a single block. */
  lemma SingleItemMetaReported(node: Node, attribution: Attribution)
    requires node.value.Sequence? && |node.value.items| == 1
    ensures MetaFromNode(node, attribution).problems != []
  {
  }
}
