/**
 * `ListElement<E>` (compiler/src/element/list.rs): a list of elements of one
 * kind. A sequence gives one element per item; any other node is read as a
 * list of one element built from the node itself.
 */
module ElementList {
  import opened Common
  import opened YamlValue
  import opened Attributions
  import opened Problems
  import opened ElementBase

  datatype ListElement<E> = ListElement(attribution: Attribution, elements: seq<E>)

  /**
   * `from_node`: the list keeps `attribution`; a sequence yields one element
   * per item, item `i` built at index `i`, and reports the items' problems in
   * order; any other node yields exactly the element built from the node.
   */
  function ListFromNode<E>(node: Node, attribution: Attribution, build: Builder<E>): (r: Built<ListElement<E>>)
    ensures r.element.attribution == attribution
    ensures node.value.Sequence? ==>
      |r.element.elements| == |node.value.items|
      && (forall i :: 0 <= i < |node.value.items| ==>
            r.element.elements[i] == build(node.value.items[i], ItemAttribution(attribution, node.value.items, i)).element)
    ensures !node.value.Sequence? ==>
      r.element.elements == [build(node, attribution).element] && r.problems == build(node, attribution).problems
  {
    match node.value
    case Sequence(items) =>
      var built := BuildSequence(items, attribution, build);
      Built(ListElement(attribution, built.element), built.problems)
    case _ =>
      var one := build(node, attribution);
      Built(ListElement(attribution, [one.element]), one.problems)
  }

  /** A list reports only Fatal problems when its element kind does. */
  lemma ListFatal<E>(node: Node, attribution: Attribution, build: Builder<E>)
    requires forall n: Node, a: Attribution :: AllFatal(build(n, a).problems)
    ensures AllFatal(ListFromNode(node, attribution, build).problems)
  {
    if node.value.Sequence? {
      BuildSequenceFatal(node.value.items, attribution, build);
    } else {
      assert AllFatal(build(node, attribution).problems);
    }
  }

  /** `one`: the list holding exactly `element`. */
  function One<E>(attribution: Attribution, element: E): (r: ListElement<E>)
    ensures r.attribution == attribution && |r.elements| == 1 && r.elements[0] == element
  {
    ListElement(attribution, [element])
  }

  /** `one_or_none`: the list holding the element if there is one, else empty. */
  function OneOrNone<E>(attribution: Attribution, element: Option<E>): (r: ListElement<E>)
    ensures r.attribution == attribution
    ensures r.elements == [] <==> element.None?
    ensures element.Some? ==> r == One(attribution, element.value)
  {
    match element
    case Some(e) => One(attribution, e)
    case None => ListElement(attribution, [])
  }

  /** A non-sequence node is read as `one` of the element built from it. */
  lemma NonSequenceIsOne<E>(node: Node, attribution: Attribution, build: Builder<E>)
    requires !node.value.Sequence?
    ensures ListFromNode(node, attribution, build).element == One(attribution, build(node, attribution).element)
  {
  }
}
