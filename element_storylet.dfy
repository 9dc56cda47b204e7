/**
 * `StoryletElement` and its parts (compiler/src/element/storylet.rs): a
 * storylet with its conditions, texts and effects; the choices it offers
 * (`ChooseElement`, `ChoiceGroupElement`, `ChoiceElement`); and the
 * assignments it makes (`AssignElement`, `AssignmentElement`).
 */
module ElementStorylet {
  import opened Common
  import opened YamlValue
  import opened Attributions
  import opened Problems
  import opened ElementBase
  import opened ElementName
  import opened ElementLogical
  import opened ElementTemplate
  import opened ElementExpression
  import opened ElementUri
  import opened ElementList
  import opened ElementConditional
  import opened ElementNamed
  import opened ElementFields

  datatype AssignmentElement = AssignmentElement(
    attribution: Attribution,
    setQuality: Option<NameElement>,
    unsetQuality: Option<NameElement>,
    increaseQuality: Option<NameElement>,
    decreaseQuality: Option<NameElement>,
    incrementQuality: Option<NameElement>,
    decrementQuality: Option<NameElement>,
    toValue: Option<ExpressionElement>,
    byAmount: Option<ExpressionElement>)

  datatype AssignElement = AssignElement(
    attribution: Attribution,
    description: Option<TextTemplateElement>,
    assignments: ListElement<ConditionalElement<AssignmentElement>>)

  datatype ChoiceElement = ChoiceElement(
    attribution: Attribution,
    labelText: Option<TextTemplateElement>,
    description: Option<TextTemplateElement>,
    icon: Option<ListElement<ConditionalElement<UriElement>>>,
    body: Option<TextTemplateElement>,
    push: Option<ListElement<ConditionalElement<ListElement<NameElement>>>>,
    shift: Option<ListElement<ConditionalElement<ListElement<NameElement>>>>,
    go: Option<ListElement<ConditionalElement<NameElement>>>,
    assign: Option<ListElement<AssignElement>>)

  datatype ChoiceGroupElement = ChoiceGroupElement(
    attribution: Attribution,
    limit: Option<ExpressionElement>,
    shuffle: Option<ExpressionElement>,
    choices: ListElement<ConditionalElement<ChoiceElement>>)

  datatype ChooseElement = ChooseElement(
    attribution: Attribution,
    prompt: Option<TextTemplateElement>,
    groups: ListElement<ChoiceGroupElement>)

  datatype StoryletElement = StoryletElement(
    attribution: Attribution,
    name: Option<NameElement>,
    when: Option<ExpressionElement>,
    ifCondition: Option<ExpressionElement>,
    unless: Option<ExpressionElement>,
    repeatable: Option<LogicalValueElement>,
    labelText: Option<TextTemplateElement>,
    description: Option<TextTemplateElement>,
    icon: Option<ListElement<ConditionalElement<UriElement>>>,
    body: Option<TextTemplateElement>,
    push: Option<ListElement<ConditionalElement<ListElement<NameElement>>>>,
    shift: Option<ListElement<ConditionalElement<ListElement<NameElement>>>>,
    go: Option<ListElement<ConditionalElement<NameElement>>>,
    choose: Option<ChooseElement>,
    assign: Option<ListElement<AssignElement>>)

  const StoryletMessage: string := "Expected a storylet"
  const SingleStoryletMessage: string := "Expected a single storylet"
  const ChoiceMessage: string := "Expected a choice"
  const SingleChoiceMessage: string := "Expected a single choice"
  const SingleAssignmentMessage: string := "Expected a single assignment"

  // ---------------------------------------------------------------------
  // Assignments

  function EmptyAssignment(attribution: Attribution): AssignmentElement
  {
    AssignmentElement(attribution, None, None, None, None, None, None, None, None)
  }

  /**
   * The mapping branch of `AssignmentElement::from_node`: the operation keys
   * `set`, `unset`, `increase`, `decrease`, `increment` and `decrement` name
   * qualities, and `to` and `by` are expressions.
   */
  function AssignmentFromMapping(m: seq<Entry>, attribution: Attribution): (r: Built<AssignmentElement>)
    ensures r.element.attribution == attribution
    ensures ReadsKey(m, attribution, "set", NameFromNode, r.element.setQuality)
    ensures ReadsKey(m, attribution, "unset", NameFromNode, r.element.unsetQuality)
    ensures ReadsKey(m, attribution, "increase", NameFromNode, r.element.increaseQuality)
    ensures ReadsKey(m, attribution, "decrease", NameFromNode, r.element.decreaseQuality)
    ensures ReadsKey(m, attribution, "increment", NameFromNode, r.element.incrementQuality)
    ensures ReadsKey(m, attribution, "decrement", NameFromNode, r.element.decrementQuality)
    ensures ReadsKey(m, attribution, "to", ExpressionFromNode, r.element.toValue)
    ensures ReadsKey(m, attribution, "by", ExpressionFromNode, r.element.byAmount)
  {
    var setQuality := FromKey(m, attribution, "set", NameFromNode);
    var unsetQuality := FromKey(m, attribution, "unset", NameFromNode);
    var increaseQuality := FromKey(m, attribution, "increase", NameFromNode);
    var decreaseQuality := FromKey(m, attribution, "decrease", NameFromNode);
    var incrementQuality := FromKey(m, attribution, "increment", NameFromNode);
    var decrementQuality := FromKey(m, attribution, "decrement", NameFromNode);
    var toValue := FromKey(m, attribution, "to", ExpressionFromNode);
    var byAmount := FromKey(m, attribution, "by", ExpressionFromNode);
    Built(AssignmentElement(attribution, setQuality.element, unsetQuality.element, increaseQuality.element, decreaseQuality.element,
                            incrementQuality.element, decrementQuality.element, toValue.element, byAmount.element),
          setQuality.problems + unsetQuality.problems + increaseQuality.problems + decreaseQuality.problems
          + incrementQuality.problems + decrementQuality.problems + toValue.problems + byAmount.problems)
  }

  /**
   * `AssignmentElement::from_node`: a scalar sets the quality it names; an
   * empty sequence does nothing; a longer sequence is reported and stands
   * for its first item at the same attribution; a mapping is read key by key.
   */
  function AssignmentFromNode(node: Node, attribution: Attribution): (r: Built<AssignmentElement>)
    ensures node.value.Scalar? ==>
      var name := NameFromNode(node, attribution);
      r == Built(EmptyAssignment(attribution).(setQuality := Some(name.element)), name.problems)
    ensures node.value.Sequence? && node.value.items == [] ==> r == Built(EmptyAssignment(attribution), [])
    ensures node.value.Sequence? && |node.value.items| > 1 ==>
      r.problems != [] && r.problems[0] == NewFatal(SingleAssignmentMessage, attribution)
    ensures node.value.Mapping? ==> r == AssignmentFromMapping(node.value.entries, attribution)
  {
    match node.value
    case Scalar(_) =>
      var name := NameFromNode(node, attribution);
      Built(EmptyAssignment(attribution).(setQuality := Some(name.element)), name.problems)
    case Sequence(items) =>
      if items == [] then Built(EmptyAssignment(attribution), [])
      else
        var reported := if |items| > 1 then [NewFatal(SingleAssignmentMessage, attribution)] else [];
        var first := AssignmentFromNode(items[0], attribution);
        Built(first.element, reported + first.problems)
    case Mapping(m) => AssignmentFromMapping(m, attribution)
  }

  /** A bare quality name is the assignment `set: name`, with no other operation. */
  lemma ScalarAssignmentSets(node: Node, attribution: Attribution)
    requires node.value.Scalar?
    ensures var r := AssignmentFromNode(node, attribution).element;
      r.setQuality == Some(NameElement(attribution, node.value.text))
      && r.unsetQuality.None? && r.increaseQuality.None? && r.decreaseQuality.None? && r.incrementQuality.None? && r.decrementQuality.None?
      && r.toValue.None? && r.byAmount.None?
  {
  }

  /** One assignment, possibly guarded by conditions. */
  function ConditionalAssignmentFromNode(node: Node, attribution: Attribution): Built<ConditionalElement<AssignmentElement>>
  {
    ConditionalFromNode(node, attribution, AssignmentFromNode)
  }

  /** A list of conditional assignments. */
  function AssignmentsFromNode(node: Node, attribution: Attribution): Built<ListElement<ConditionalElement<AssignmentElement>>>
  {
    ListFromNode(node, attribution, ConditionalAssignmentFromNode)
  }

  /**
   * `AssignElement::from_node`: a scalar is a list of one conditional
   * assignment; a sequence is a list of them; a mapping reads `description`
   * and takes its assignments from `assignments` or, without that key, from
   * the mapping itself.
   */
  function AssignFromNode(node: Node, attribution: Attribution): (r: Built<AssignElement>)
    ensures r.element.attribution == attribution
    ensures node.value.Scalar? ==>
      var one := ConditionalAssignmentFromNode(node, attribution);
      r == Built(AssignElement(attribution, None, One(attribution, one.element)), one.problems)
    ensures node.value.Sequence? ==>
      r.element.description.None? && r.element.assignments == AssignmentsFromNode(node, attribution).element
    ensures node.value.Mapping? ==>
      var m := node.value.entries;
      ReadsKey(m, attribution, "description", TemplateFromNode, r.element.description)
      && (Lookup(m, "assignments").Some? ==>
            ReadsKey(m, attribution, "assignments", AssignmentsFromNode, Some(r.element.assignments)))
      && (Lookup(m, "assignments").None? ==> r.element.assignments == AssignmentsFromNode(node, attribution).element)
  {
    match node.value
    case Scalar(_) =>
      var one := ConditionalAssignmentFromNode(node, attribution);
      Built(AssignElement(attribution, None, One(attribution, one.element)), one.problems)
    case Sequence(_) =>
      var all := AssignmentsFromNode(node, attribution);
      Built(AssignElement(attribution, None, all.element), all.problems)
    case Mapping(m) =>
      var description := FromKey(m, attribution, "description", TemplateFromNode);
      var assignments := FromKey(m, attribution, "assignments", AssignmentsFromNode);
      if assignments.element.Some? then
        Built(AssignElement(attribution, description.element, assignments.element.value),
              description.problems + assignments.problems)
      else
        var whole := AssignmentsFromNode(node, attribution);
        Built(AssignElement(attribution, description.element, whole.element), description.problems + whole.problems)
  }

  /** `assign`: a list of assign blocks. */
  function AssignsFromNode(node: Node, attribution: Attribution): Built<ListElement<AssignElement>>
  {
    ListFromNode(node, attribution, AssignFromNode)
  }

  // ---------------------------------------------------------------------
  // Choices

  function EmptyChoice(attribution: Attribution): ChoiceElement
  {
    ChoiceElement(attribution, None, None, None, None, None, None, None, None)
  }

  /**
   * The mapping branch of `ChoiceElement::from_node`: `label`,
   * `description`, `icon`, `body`, `push`, `shift`, `go` and `assign`.
   */
  function ChoiceFromMapping(m: seq<Entry>, attribution: Attribution): (r: Built<ChoiceElement>)
    ensures r.element.attribution == attribution
    ensures ReadsKey(m, attribution, "label", TemplateFromNode, r.element.labelText)
    ensures ReadsKey(m, attribution, "description", TemplateFromNode, r.element.description)
    ensures ReadsKey(m, attribution, "icon", IconsFromNode, r.element.icon)
    ensures ReadsKey(m, attribution, "body", TemplateFromNode, r.element.body)
    ensures ReadsKey(m, attribution, "push", NameListsFromNode, r.element.push)
    ensures ReadsKey(m, attribution, "shift", NameListsFromNode, r.element.shift)
    ensures ReadsKey(m, attribution, "go", GoFromNode, r.element.go)
    ensures ReadsKey(m, attribution, "assign", AssignsFromNode, r.element.assign)
  {
    var labelText := FromKey(m, attribution, "label", TemplateFromNode);
    var description := FromKey(m, attribution, "description", TemplateFromNode);
    var icon := FromKey(m, attribution, "icon", IconsFromNode);
    var body := FromKey(m, attribution, "body", TemplateFromNode);
    var push := FromKey(m, attribution, "push", NameListsFromNode);
    var shift := FromKey(m, attribution, "shift", NameListsFromNode);
    var go := FromKey(m, attribution, "go", GoFromNode);
    var assign := FromKey(m, attribution, "assign", AssignsFromNode);
    Built(ChoiceElement(attribution, labelText.element, description.element, icon.element, body.element,
                        push.element, shift.element, go.element, assign.element),
          labelText.problems + description.problems + icon.problems + body.problems
          + push.problems + shift.problems + go.problems + assign.problems)
  }

  /**
   * `ChoiceElement::from_node`: a mapping is read key by key; a scalar is an
   * empty choice, reported unless blank; a sequence stands for its first
   * item at the same attribution, and more than one item is reported.
   */
  function ChoiceFromNode(node: Node, attribution: Attribution): (r: Built<ChoiceElement>)
    ensures node.value.Mapping? ==> r == ChoiceFromMapping(node.value.entries, attribution)
    ensures node.value.Scalar? ==>
      r.element == EmptyChoice(attribution) && (r.problems == [] <==> IsBlank(node.value.text))
    ensures node.value.Sequence? && node.value.items == [] ==> r == Built(EmptyChoice(attribution), [])
    ensures node.value.Sequence? && |node.value.items| > 1 ==>
      r.problems != [] && r.problems[0] == NewFatal(SingleChoiceMessage, attribution)
  {
    match node.value
    case Scalar(text) =>
      TrimBlank(text);
      Built(EmptyChoice(attribution), if !IsBlank(text) then [NewFatal(ChoiceMessage, attribution)] else [])
    case Sequence(items) =>
      if items == [] then Built(EmptyChoice(attribution), [])
      else
        var reported := if |items| > 1 then [NewFatal(SingleChoiceMessage, attribution)] else [];
        var first := ChoiceFromNode(items[0], attribution);
        Built(first.element, reported + first.problems)
    case Mapping(m) => ChoiceFromMapping(m, attribution)
  }

  /** One choice, possibly guarded by conditions. */
  function ConditionalChoiceFromNode(node: Node, attribution: Attribution): Built<ConditionalElement<ChoiceElement>>
  {
    ConditionalFromNode(node, attribution, ChoiceFromNode)
  }

  /** A list of conditional choices. */
  function ChoicesFromNode(node: Node, attribution: Attribution): Built<ListElement<ConditionalElement<ChoiceElement>>>
  {
    ListFromNode(node, attribution, ConditionalChoiceFromNode)
  }

  /**
   * `ChoiceGroupElement::from_node`: a mapping reads `limit` and `shuffle`
   * and takes its choices from `choices` or, without that key, from the
   * mapping itself; any other node is the list of choices, with no limit
   * and no shuffle.
   */
  function ChoiceGroupFromNode(node: Node, attribution: Attribution): (r: Built<ChoiceGroupElement>)
    ensures r.element.attribution == attribution
    ensures node.value.Mapping? ==>
      var m := node.value.entries;
      ReadsKey(m, attribution, "limit", ExpressionFromNode, r.element.limit)
      && ReadsKey(m, attribution, "shuffle", ExpressionFromNode, r.element.shuffle)
      && (Lookup(m, "choices").Some? ==> ReadsKey(m, attribution, "choices", ChoicesFromNode, Some(r.element.choices)))
      && (Lookup(m, "choices").None? ==> r.element.choices == ChoicesFromNode(node, attribution).element)
    ensures !node.value.Mapping? ==>
      var all := ChoicesFromNode(node, attribution);
      r == Built(ChoiceGroupElement(attribution, None, None, all.element), all.problems)
  {
    match node.value
    case Mapping(m) =>
      var limit := FromKey(m, attribution, "limit", ExpressionFromNode);
      var shuffle := FromKey(m, attribution, "shuffle", ExpressionFromNode);
      var choices := FromKey(m, attribution, "choices", ChoicesFromNode);
      if choices.element.Some? then
        Built(ChoiceGroupElement(attribution, limit.element, shuffle.element, choices.element.value),
              limit.problems + shuffle.problems + choices.problems)
      else
        var whole := ChoicesFromNode(node, attribution);
        Built(ChoiceGroupElement(attribution, limit.element, shuffle.element, whole.element),
              limit.problems + shuffle.problems + whole.problems)
    case _ =>
      var all := ChoicesFromNode(node, attribution);
      Built(ChoiceGroupElement(attribution, None, None, all.element), all.problems)
  }

  /** A list of choice groups. */
  function GroupsFromNode(node: Node, attribution: Attribution): Built<ListElement<ChoiceGroupElement>>
  {
    ListFromNode(node, attribution, ChoiceGroupFromNode)
  }

  /**
   * `ChooseElement::from_node`: a mapping reads `prompt` and takes its
   * groups from `groups` or, without that key, from the mapping itself; any
   * other node is the list of groups, with no prompt.
   */
  function ChooseFromNode(node: Node, attribution: Attribution): (r: Built<ChooseElement>)
    ensures r.element.attribution == attribution
    ensures node.value.Mapping? ==>
      var m := node.value.entries;
      ReadsKey(m, attribution, "prompt", TemplateFromNode, r.element.prompt)
      && (Lookup(m, "groups").Some? ==> ReadsKey(m, attribution, "groups", GroupsFromNode, Some(r.element.groups)))
      && (Lookup(m, "groups").None? ==> r.element.groups == GroupsFromNode(node, attribution).element)
    ensures !node.value.Mapping? ==>
      var all := GroupsFromNode(node, attribution);
      r == Built(ChooseElement(attribution, None, all.element), all.problems)
  {
    match node.value
    case Mapping(m) =>
      var prompt := FromKey(m, attribution, "prompt", TemplateFromNode);
      var groups := FromKey(m, attribution, "groups", GroupsFromNode);
      if groups.element.Some? then
        Built(ChooseElement(attribution, prompt.element, groups.element.value), prompt.problems + groups.problems)
      else
        var whole := GroupsFromNode(node, attribution);
        Built(ChooseElement(attribution, prompt.element, whole.element), prompt.problems + whole.problems)
    case _ =>
      var all := GroupsFromNode(node, attribution);
      Built(ChooseElement(attribution, None, all.element), all.problems)
  }

  // ---------------------------------------------------------------------
  // Storylets

  function EmptyStorylet(attribution: Attribution, name: Option<NameElement>): StoryletElement
  {
    StoryletElement(attribution, name, None, None, None, None, None, None, None, None, None, None, None, None, None)
  }

  /**
   * The mapping branch of `StoryletElement::from_named_node`: `name`
   * (overriding the name passed in), the conditions `when`, `if` and
   * `unless`, `repeatable`, the texts, `icon` and the effects.
   */
  function StoryletFromMapping(m: seq<Entry>, name: Option<NameElement>, attribution: Attribution): (r: Built<StoryletElement>)
    ensures r.element.attribution == attribution
    ensures NameOverrides(m, attribution, name, r.element.name)
    ensures ReadsKey(m, attribution, "when", ExpressionFromNode, r.element.when)
    ensures ReadsKey(m, attribution, "if", ExpressionFromNode, r.element.ifCondition)
    ensures ReadsKey(m, attribution, "unless", ExpressionFromNode, r.element.unless)
    ensures ReadsKey(m, attribution, "repeatable", LogicalFromNode, r.element.repeatable)
    ensures ReadsKey(m, attribution, "label", TemplateFromNode, r.element.labelText)
    ensures ReadsKey(m, attribution, "description", TemplateFromNode, r.element.description)
    ensures ReadsKey(m, attribution, "icon", IconsFromNode, r.element.icon)
    ensures ReadsKey(m, attribution, "body", TemplateFromNode, r.element.body)
    ensures ReadsKey(m, attribution, "push", NameListsFromNode, r.element.push)
    ensures ReadsKey(m, attribution, "shift", NameListsFromNode, r.element.shift)
    ensures ReadsKey(m, attribution, "go", GoFromNode, r.element.go)
    ensures ReadsKey(m, attribution, "choose", ChooseFromNode, r.element.choose)
    ensures ReadsKey(m, attribution, "assign", AssignsFromNode, r.element.assign)
  {
    var own := FromKey(m, attribution, "name", NameFromNode);
    var when := FromKey(m, attribution, "when", ExpressionFromNode);
    var ifCondition := FromKey(m, attribution, "if", ExpressionFromNode);
    var unless := FromKey(m, attribution, "unless", ExpressionFromNode);
    var repeatable := FromKey(m, attribution, "repeatable", LogicalFromNode);
    var labelText := FromKey(m, attribution, "label", TemplateFromNode);
    var description := FromKey(m, attribution, "description", TemplateFromNode);
    var icon := FromKey(m, attribution, "icon", IconsFromNode);
    var body := FromKey(m, attribution, "body", TemplateFromNode);
    var push := FromKey(m, attribution, "push", NameListsFromNode);
    var shift := FromKey(m, attribution, "shift", NameListsFromNode);
    var go := FromKey(m, attribution, "go", GoFromNode);
    var choose := FromKey(m, attribution, "choose", ChooseFromNode);
    var assign := FromKey(m, attribution, "assign", AssignsFromNode);
    Built(StoryletElement(attribution, if own.element.Some? then own.element else name,
                          when.element, ifCondition.element, unless.element, repeatable.element,
                          labelText.element, description.element, icon.element, body.element,
                          push.element, shift.element, go.element, choose.element, assign.element),
          own.problems + when.problems + ifCondition.problems + unless.problems + repeatable.problems
          + labelText.problems + description.problems + icon.problems + body.problems
          + push.problems + shift.problems + go.problems + choose.problems + assign.problems)
  }

  /**
   * `StoryletElement::from_named_node`: a mapping is read key by key; a
   * scalar is a bare storylet, reported unless blank; a sequence stands for
   * its first item at the same attribution, and more than one is reported.
   */
  function StoryletFromNamedNode(node: Node, name: Option<NameElement>, attribution: Attribution): (r: Built<StoryletElement>)
    ensures node.value.Mapping? ==> r == StoryletFromMapping(node.value.entries, name, attribution)
    ensures node.value.Scalar? ==>
      r.element == EmptyStorylet(attribution, name) && (r.problems == [] <==> IsBlank(node.value.text))
    ensures node.value.Sequence? && node.value.items == [] ==> r == Built(EmptyStorylet(attribution, name), [])
    ensures node.value.Sequence? && |node.value.items| > 1 ==>
      r.problems != [] && r.problems[0] == NewFatal(SingleStoryletMessage, attribution)
  {
    match node.value
    case Mapping(m) => StoryletFromMapping(m, name, attribution)
    case Scalar(text) =>
      TrimBlank(text);
      Built(EmptyStorylet(attribution, name), if !IsBlank(text) then [NewFatal(StoryletMessage, attribution)] else [])
    case Sequence(items) =>
      if items == [] then Built(EmptyStorylet(attribution, name), [])
      else
        var reported := if |items| > 1 then [NewFatal(SingleStoryletMessage, attribution)] else [];
        var first := StoryletFromNamedNode(items[0], name, attribution);
        Built(first.element, reported + first.problems)
  }

  /** A one-item sequence is its item at the same attribution, with the same name. */
  lemma SingleItemStorylet(node: Node, name: Option<NameElement>, attribution: Attribution)
    requires node.value.Sequence? && |node.value.items| == 1
    ensures StoryletFromNamedNode(node, name, attribution) == StoryletFromNamedNode(node.value.items[0], name, attribution)
  {
    var first := StoryletFromNamedNode(node.value.items[0], name, attribution);
    assert [] + first.problems == first.problems;
  }
}
