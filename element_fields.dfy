/**
 * Composite element kinds that several records share
 * (compiler/src/element/quality.rs, compiler/src/element/storylet.rs):
 * style tags, conditional icons, and conditional name lists.
 */
module ElementFields {
  import opened YamlValue
  import opened Attributions
  import opened ElementBase
  import opened ElementName
  import opened ElementTag
  import opened ElementUri
  import opened ElementList
  import opened ElementConditional

  /** `style`: a list of tags. */
  function StylesFromNode(node: Node, attribution: Attribution): Built<ListElement<TagElement>>
  {
    ListFromNode(node, attribution, TagFromNode)
  }

  /** One icon, possibly guarded by conditions. */
  function ConditionalUriFromNode(node: Node, attribution: Attribution): Built<ConditionalElement<UriElement>>
  {
    ConditionalFromNode(node, attribution, UriFromNode)
  }

  /** `icon`: a list of conditional icons. */
  function IconsFromNode(node: Node, attribution: Attribution): Built<ListElement<ConditionalElement<UriElement>>>
  {
    ListFromNode(node, attribution, ConditionalUriFromNode)
  }

  /** A list of names. */
  function NamesFromNode(node: Node, attribution: Attribution): Built<ListElement<NameElement>>
  {
    ListFromNode(node, attribution, NameFromNode)
  }

  /** A list of names, possibly guarded by conditions. */
  function ConditionalNamesFromNode(node: Node, attribution: Attribution): Built<ConditionalElement<ListElement<NameElement>>>
  {
    ConditionalFromNode(node, attribution, NamesFromNode)
  }

  /** `push` and `shift`: a list of conditional name lists. */
  function NameListsFromNode(node: Node, attribution: Attribution): Built<ListElement<ConditionalElement<ListElement<NameElement>>>>
  {
    ListFromNode(node, attribution, ConditionalNamesFromNode)
  }

  /** One name, possibly guarded by conditions. */
  function ConditionalNameFromNode(node: Node, attribution: Attribution): Built<ConditionalElement<NameElement>>
  {
    ConditionalFromNode(node, attribution, NameFromNode)
  }

  /** `go`: a list of conditional names. */
  function GoFromNode(node: Node, attribution: Attribution): Built<ListElement<ConditionalElement<NameElement>>>
  {
    ListFromNode(node, attribution, ConditionalNameFromNode)
  }
}
