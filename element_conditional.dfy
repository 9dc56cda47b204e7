/**
 * `ConditionalElement<E>` (compiler/src/element/conditional.rs): an element
 * guarded by optional `when`, `if` and `unless` expressions. A mapping
 * carries the conditions; its `then` key holds the element, or, without that
 * key, the mapping itself is the element.
 */
module ElementConditional {
  import opened Common
  import opened YamlValue
  import opened Attributions
  import opened Problems
  import opened ElementBase
  import opened ElementExpression

  datatype ConditionalElement<E> = ConditionalElement(
    attribution: Attribution,
    when: Option<ExpressionElement>,
    ifCondition: Option<ExpressionElement>,
    unless: Option<ExpressionElement>,
    thenElement: E)

  /** The three conditions are all absent. */
  predicate Unconditional<E>(c: ConditionalElement<E>)
  {
    c.when.None? && c.ifCondition.None? && c.unless.None?
  }

  /** The expression under `key`, as `from_key` reads it. */
  function Condition(mapping: seq<Entry>, attribution: Attribution, key: string): Built<Option<ExpressionElement>>
  {
    FromKey(mapping, attribution, key, ExpressionFromNode)
  }

  /**
   * `from_node`: in a mapping each condition is present exactly when its key
   * is, and the element is read from `then` when that key is present and from
   * the whole node otherwise; any other node has no condition and is the
   * element. Problems come in reading order: when, if, unless, then the element's.
   */
  function ConditionalFromNode<E>(node: Node, attribution: Attribution, build: Builder<E>): (r: Built<ConditionalElement<E>>)
    ensures r.element.attribution == attribution
    ensures node.value.Mapping? ==>
      (r.element.when.Some? <==> Lookup(node.value.entries, "when").Some?)
      && (r.element.ifCondition.Some? <==> Lookup(node.value.entries, "if").Some?)
      && (r.element.unless.Some? <==> Lookup(node.value.entries, "unless").Some?)
    ensures node.value.Mapping? && Lookup(node.value.entries, "then").Some? ==>
      var n := Lookup(node.value.entries, "then").value;
      r.element.thenElement == build(n, AtKey(attribution, "then", n.startMark, n.endMark)).element
    ensures node.value.Mapping? && Lookup(node.value.entries, "then").None? ==>
      r.element.thenElement == build(node, attribution).element
    ensures !node.value.Mapping? ==>
      Unconditional(r.element) && r.element.thenElement == build(node, attribution).element
      && r.problems == build(node, attribution).problems
  {
    match node.value
    case Mapping(entries) =>
      var when := Condition(entries, attribution, "when");
      var ifCondition := Condition(entries, attribution, "if");
      var unless := Condition(entries, attribution, "unless");
      var conditions := when.problems + ifCondition.problems + unless.problems;
      var thenKey := FromKey(entries, attribution, "then", build);
      if thenKey.element.Some? then
        Built(ConditionalElement(attribution, when.element, ifCondition.element, unless.element, thenKey.element.value),
              conditions + thenKey.problems)
      else
        var whole := build(node, attribution);
        Built(ConditionalElement(attribution, when.element, ifCondition.element, unless.element, whole.element),
              conditions + whole.problems)
    case _ =>
      var whole := build(node, attribution);
      Built(ConditionalElement(attribution, None, None, None, whole.element), whole.problems)
  }

  /** `always`: the element with no condition. */
  function Always<E>(attribution: Attribution, element: E): (r: ConditionalElement<E>)
    ensures r.attribution == attribution && Unconditional(r) && r.thenElement == element
  {
    ConditionalElement(attribution, None, None, None, element)
  }

  /** A node that is not a mapping is read as `always` of its element. */
  lemma NonMappingIsAlways<E>(node: Node, attribution: Attribution, build: Builder<E>)
    requires !node.value.Mapping?
    ensures ConditionalFromNode(node, attribution, build)
         == Built(Always(attribution, build(node, attribution).element), build(node, attribution).problems)
  {
  }
}
