/**
 * `QualityElement` and `QualityValueElement` (compiler/src/element/quality.rs):
 * a quality of the world state and the named values it can take.
 */
module ElementQuality {
  import opened Common
  import opened YamlValue
  import opened Attributions
  import opened Problems
  import opened ElementBase
  import opened ElementName
  import opened ElementLogical
  import opened ElementTemplate
  import opened ElementTag
  import opened ElementUri
  import opened ElementList
  import opened ElementConditional
  import opened ElementNamed
  import opened ElementFields

  datatype QualityValueElement = QualityValueElement(
    attribution: Attribution,
    name: Option<NameElement>,
    labelText: Option<TextTemplateElement>,
    description: Option<TextTemplateElement>,
    style: Option<ListElement<TagElement>>,
    icon: Option<ListElement<ConditionalElement<UriElement>>>)

  datatype QualityElement = QualityElement(
    attribution: Attribution,
    name: Option<NameElement>,
    hidden: Option<LogicalValueElement>,
    labelText: Option<TextTemplateElement>,
    singularLabel: Option<TextTemplateElement>,
    pluralLabel: Option<TextTemplateElement>,
    description: Option<TextTemplateElement>,
    style: Option<ListElement<TagElement>>,
    icon: Option<ListElement<ConditionalElement<UriElement>>>,
    values: Option<NamedCollectionElement<QualityValueElement>>,
    exclusive: Option<LogicalValueElement>)

  const QualityValueMessage: string := "Expected a quality value"
  const SingleQualityValueMessage: string := "Expected a single quality value"
  const QualityMessage: string := "Expected a quality"
  const SingleQualityMessage: string := "Expected a single quality"

  function EmptyQualityValue(attribution: Attribution, name: Option<NameElement>): QualityValueElement
  {
    QualityValueElement(attribution, name, None, None, None, None)
  }

  /**
   * `QualityValueElement::from_named_node`: a mapping reads `name` (which
   * overrides the name passed in), `label`, `description`, `style` and
   * `icon`; a scalar is a bare value, reported unless empty (it is not
   * trimmed); a sequence stands for its first item, keeping the name.
   */
  function QualityValueFromNamedNode(node: Node, name: Option<NameElement>, attribution: Attribution): (r: Built<QualityValueElement>)
    ensures node.value.Mapping? ==>
      var m := node.value.entries;
      r.element.attribution == attribution
      && NameOverrides(m, attribution, name, r.element.name)
      && ReadsKey(m, attribution, "label", TemplateFromNode, r.element.labelText)
      && ReadsKey(m, attribution, "description", TemplateFromNode, r.element.description)
      && ReadsKey(m, attribution, "style", StylesFromNode, r.element.style)
      && ReadsKey(m, attribution, "icon", IconsFromNode, r.element.icon)
    ensures node.value.Scalar? ==>
      r.element == EmptyQualityValue(attribution, name) && (r.problems == [] <==> node.value.text == "")
    ensures node.value.Sequence? && node.value.items == [] ==> r == Built(EmptyQualityValue(attribution, name), [])
    ensures node.value.Sequence? && |node.value.items| > 1 ==>
      r.problems != [] && r.problems[0] == NewFatal(SingleQualityValueMessage, attribution)
  {
    match node.value
    case Scalar(text) =>
      Built(EmptyQualityValue(attribution, name), if text != "" then [NewFatal(QualityValueMessage, attribution)] else [])
    case Sequence(items) =>
      if items == [] then Built(EmptyQualityValue(attribution, name), [])
      else
        var reported := if |items| > 1 then [NewFatal(SingleQualityValueMessage, attribution)] else [];
        var first := QualityValueFromNamedNode(items[0], name, AtIndex(attribution, 0, items[0].startMark, items[0].endMark));
        Built(first.element, reported + first.problems)
    case Mapping(m) =>
      var own := FromKey(m, attribution, "name", NameFromNode);
      var labelText := FromKey(m, attribution, "label", TemplateFromNode);
      var description := FromKey(m, attribution, "description", TemplateFromNode);
      var style := FromKey(m, attribution, "style", StylesFromNode);
      var icon := FromKey(m, attribution, "icon", IconsFromNode);
      Built(QualityValueElement(attribution, if own.element.Some? then own.element else name,
                                labelText.element, description.element, style.element, icon.element),
            own.problems + labelText.problems + description.problems + style.problems + icon.problems)
  }

  /** `values`: a named collection of quality values. */
  function QualityValuesFromNode(node: Node, attribution: Attribution): Built<NamedCollectionElement<QualityValueElement>>
  {
    NamedFromNode(node, attribution, QualityValueFromNamedNode)
  }

  function EmptyQuality(attribution: Attribution, name: Option<NameElement>): QualityElement
  {
    QualityElement(attribution, name, None, None, None, None, None, None, None, None, None)
  }

  /**
   * The mapping branch of `QualityElement::from_named_node`: `name`
   * (overriding the name passed in), `hidden`, the labels, `description`,
   * `values`, `style`, `exclusive` and `icon`, each read by `from_key`.
   */
  function QualityFromMapping(m: seq<Entry>, name: Option<NameElement>, attribution: Attribution): (r: Built<QualityElement>)
    ensures r.element.attribution == attribution
    ensures NameOverrides(m, attribution, name, r.element.name)
    ensures ReadsKey(m, attribution, "hidden", LogicalFromNode, r.element.hidden)
    ensures ReadsKey(m, attribution, "label", TemplateFromNode, r.element.labelText)
    ensures ReadsKey(m, attribution, "singularLabel", TemplateFromNode, r.element.singularLabel)
    ensures ReadsKey(m, attribution, "pluralLabel", TemplateFromNode, r.element.pluralLabel)
    ensures ReadsKey(m, attribution, "description", TemplateFromNode, r.element.description)
    ensures ReadsKey(m, attribution, "values", QualityValuesFromNode, r.element.values)
    ensures ReadsKey(m, attribution, "style", StylesFromNode, r.element.style)
    ensures ReadsKey(m, attribution, "exclusive", LogicalFromNode, r.element.exclusive)
    ensures ReadsKey(m, attribution, "icon", IconsFromNode, r.element.icon)
  {
    var own := FromKey(m, attribution, "name", NameFromNode);
    var hidden := FromKey(m, attribution, "hidden", LogicalFromNode);
    var labelText := FromKey(m, attribution, "label", TemplateFromNode);
    var singularLabel := FromKey(m, attribution, "singularLabel", TemplateFromNode);
    var pluralLabel := FromKey(m, attribution, "pluralLabel", TemplateFromNode);
    var description := FromKey(m, attribution, "description", TemplateFromNode);
    var values := FromKey(m, attribution, "values", QualityValuesFromNode);
    var style := FromKey(m, attribution, "style", StylesFromNode);
    var exclusive := FromKey(m, attribution, "exclusive", LogicalFromNode);
    var icon := FromKey(m, attribution, "icon", IconsFromNode);
    Built(QualityElement(attribution, if own.element.Some? then own.element else name, hidden.element,
                         labelText.element, singularLabel.element, pluralLabel.element, description.element,
                         style.element, icon.element, values.element, exclusive.element),
          own.problems + hidden.problems + labelText.problems + singularLabel.problems + pluralLabel.problems
          + description.problems + values.problems + style.problems + exclusive.problems + icon.problems)
  }

  /**
   * `QualityElement::from_named_node`: a mapping is read field by field; a
   * scalar is a bare quality, reported unless empty (it is not trimmed); a
   * sequence stands for its first item, keeping the name.
   */
  function QualityFromNamedNode(node: Node, name: Option<NameElement>, attribution: Attribution): (r: Built<QualityElement>)
    ensures node.value.Mapping? ==> r == QualityFromMapping(node.value.entries, name, attribution)
    ensures node.value.Scalar? ==>
      r.element == EmptyQuality(attribution, name) && (r.problems == [] <==> node.value.text == "")
    ensures node.value.Sequence? && node.value.items == [] ==> r == Built(EmptyQuality(attribution, name), [])
    ensures node.value.Sequence? && |node.value.items| > 1 ==>
      r.problems != [] && r.problems[0] == NewFatal(SingleQualityMessage, attribution)
  {
    match node.value
    case Scalar(text) =>
      Built(EmptyQuality(attribution, name), if text != "" then [NewFatal(QualityMessage, attribution)] else [])
    case Sequence(items) =>
      if items == [] then Built(EmptyQuality(attribution, name), [])
      else
        var reported := if |items| > 1 then [NewFatal(SingleQualityMessage, attribution)] else [];
        var first := QualityFromNamedNode(items[0], name, AtIndex(attribution, 0, items[0].startMark, items[0].endMark));
        Built(first.element, reported + first.problems)
    case Mapping(m) => QualityFromMapping(m, name, attribution)
  }

  /** A one-item sequence is its item, one index deeper, with the same name. */
  lemma SingleItemQuality(node: Node, name: Option<NameElement>, attribution: Attribution)
    requires node.value.Sequence? && |node.value.items| == 1
    ensures var item := node.value.items[0];
      QualityFromNamedNode(node, name, attribution)
        == QualityFromNamedNode(item, name, AtIndex(attribution, 0, item.startMark, item.endMark))
  {
    var item := node.value.items[0];
    var first := QualityFromNamedNode(item, name, AtIndex(attribution, 0, item.startMark, item.endMark));
    assert [] + first.problems == first.problems;
  }

  /** A whitespace-only scalar is not blank to a quality: it is reported. */
  lemma WhitespaceQualityReported(node: Node, name: Option<NameElement>, attribution: Attribution)
    requires node.value == Scalar(" ")
    ensures QualityFromNamedNode(node, name, attribution).problems == [NewFatal(QualityMessage, attribution)]
  {
  }
}
