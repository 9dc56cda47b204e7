/**
 * `LocationElement` (compiler/src/element/location.rs): a location, with
 * its labels and the storylets that can only happen there.
 */
module ElementLocation {
  import opened Common
  import opened YamlValue
  import opened Attributions
  import opened Problems
  import opened ElementBase
  import opened ElementName
  import opened ElementTemplate
  import opened ElementNamed
  import opened ElementStorylet

  datatype LocationElement = LocationElement(
    attribution: Attribution,
    name: Option<NameElement>,
    labelText: Option<TextTemplateElement>,
    description: Option<TextTemplateElement>,
    body: Option<TextTemplateElement>,
    storylets: Option<NamedCollectionElement<StoryletElement>>)

  /** The message for a non-blank scalar, which says "storylet" as the source does. */
  const LocationMessage: string := "Expected a storylet"
  const SingleLocationMessage: string := "Expected a single storylet"

  function EmptyLocation(attribution: Attribution, name: Option<NameElement>): LocationElement
  {
    LocationElement(attribution, name, None, None, None, None)
  }

  /** `storylets`: a named collection of storylets. */
  function StoryletsFromNode(node: Node, attribution: Attribution): Built<NamedCollectionElement<StoryletElement>>
  {
    NamedFromNode(node, attribution, StoryletFromNamedNode)
  }

  /**
   * `LocationElement::from_named_node`: a mapping reads `name` (overriding
   * the name passed in), `label`, `description`, `body` and `storylets`; a
   * scalar is a bare location, reported unless blank; a sequence stands for
   * its first item at the same attribution.
   */
  function LocationFromNamedNode(node: Node, name: Option<NameElement>, attribution: Attribution): (r: Built<LocationElement>)
    ensures node.value.Mapping? ==>
      var m := node.value.entries;
      r.element.attribution == attribution
      && NameOverrides(m, attribution, name, r.element.name)
      && ReadsKey(m, attribution, "label", TemplateFromNode, r.element.labelText)
      && ReadsKey(m, attribution, "description", TemplateFromNode, r.element.description)
      && ReadsKey(m, attribution, "body", TemplateFromNode, r.element.body)
      && ReadsKey(m, attribution, "storylets", StoryletsFromNode, r.element.storylets)
    ensures node.value.Scalar? ==>
      r.element == EmptyLocation(attribution, name) && (r.problems == [] <==> IsBlank(node.value.text))
    ensures node.value.Sequence? && node.value.items == [] ==> r == Built(EmptyLocation(attribution, name), [])
    ensures node.value.Sequence? && |node.value.items| > 1 ==>
      r.problems != [] && r.problems[0] == NewFatal(SingleLocationMessage, attribution)
  {
    match node.value
    case Scalar(text) =>
      TrimBlank(text);
      Built(EmptyLocation(attribution, name), if !IsBlank(text) then [NewFatal(LocationMessage, attribution)] else [])
    case Sequence(items) =>
      if items == [] then Built(EmptyLocation(attribution, name), [])
      else
        var reported := if |items| > 1 then [NewFatal(SingleLocationMessage, attribution)] else [];
        var first := LocationFromNamedNode(items[0], name, attribution);
        Built(first.element, reported + first.problems)
    case Mapping(m) =>
      var own := FromKey(m, attribution, "name", NameFromNode);
      var labelText := FromKey(m, attribution, "label", TemplateFromNode);
      var description := FromKey(m, attribution, "description", TemplateFromNode);
      var body := FromKey(m, attribution, "body", TemplateFromNode);
      var storylets := FromKey(m, attribution, "storylets", StoryletsFromNode);
      Built(LocationElement(attribution, if own.element.Some? then own.element else name,
                            labelText.element, description.element, body.element, storylets.element),
            own.problems + labelText.problems + description.problems + body.problems + storylets.problems)
  }

  /** A one-item sequence is its item at the same attribution, with the same name. */
  lemma SingleItemLocation(node: Node, name: Option<NameElement>, attribution: Attribution)
    requires node.value.Sequence? && |node.value.items| == 1
    ensures LocationFromNamedNode(node, name, attribution) == LocationFromNamedNode(node.value.items[0], name, attribution)
  {
    var first := LocationFromNamedNode(node.value.items[0], name, attribution);
    assert [] + first.problems == first.problems;
  }
}
