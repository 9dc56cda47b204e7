/**
 * What every element kind shares (compiler/src/element/element.rs): building
 * an element from a YAML node at an attribution. Building never stops at a
 * problem; the problems a build reports are returned beside the element, in
 * the order the source appends them to its problem list.
 */
module ElementBase {
  import opened Common
  import opened YamlValue
  import opened Attributions
  import opened Problems

  /** An element together with the problems reported while building it. */
  datatype Built<E> = Built(element: E, problems: seq<Problem>)

  /** `Element::from_node` of one element kind. */
  type Builder<E> = (Node, Attribution) -> Built<E>

  /** Every problem in the list is Fatal. */
  predicate AllFatal(problems: seq<Problem>)
  {
    forall i :: 0 <= i < |problems| ==> problems[i].level == Fatal
  }

  lemma AllFatalAppend(a: seq<Problem>, b: seq<Problem>)
    ensures AllFatal(a + b) <==> AllFatal(a) && AllFatal(b)
  {
    assert forall i :: 0 <= i < |a| ==> a[i] == (a + b)[i];
    assert forall i :: 0 <= i < |b| ==> b[i] == (a + b)[|a| + i];
  }

  /**
   * A node that the item-0 element kinds (name, tag) read without a problem:
   * a scalar, an empty sequence or mapping, or a one-item sequence whose item
   * is such a node.
   */
  predicate SingleValued(node: Node)
  {
    match node.value
    case Scalar(_) => true
    case Sequence(items) => |items| == 0 || (|items| == 1 && SingleValued(items[0]))
    case Mapping(entries) => entries == []
  }

  /**
   * `BTreeMap::get` with the str-tagged scalar `key`: the value of the entry
   * whose key compares Equal to it, if any.
   */
  function Lookup(mapping: seq<Entry>, key: string): (r: Option<Node>)
    ensures r.None? <==> forall j :: 0 <= j < |mapping| ==> CompareNodes(mapping[j].key, StringNode(key)) != Equal
    ensures r.Some? ==> exists j :: 0 <= j < |mapping| && CompareNodes(mapping[j].key, StringNode(key)) == Equal
                                  && r.value == mapping[j].value
  {
    match FindKey(mapping, StringNode(key))
    case Some(i) => Some(mapping[i].value)
    case None => None
  }

  /**
   * The field `field` holds what `from_key` reads under `key`: nothing when
   * the key is absent, otherwise the element built from the key's value at
   * `.key` under `attribution`.
   */
  ghost predicate ReadsKey<E>(mapping: seq<Entry>, attribution: Attribution, key: string, build: Builder<E>, field: Option<E>)
  {
    match Lookup(mapping, key)
    case None => field.None?
    case Some(node) => field == Some(build(node, AtKey(attribution, key, node.startMark, node.endMark)).element)
  }

  /**
   * `from_key`: nothing when the key is absent; otherwise the element built
   * from the key's value, at the key's attribution under `attribution`.
   */
  function FromKey<E>(mapping: seq<Entry>, attribution: Attribution, key: string, build: Builder<E>): (r: Built<Option<E>>)
    ensures Lookup(mapping, key).None? <==> r.element.None?
    ensures Lookup(mapping, key).None? ==> r.problems == []
    ensures Lookup(mapping, key).Some? ==>
      var node := Lookup(mapping, key).value;
      var b := build(node, AtKey(attribution, key, node.startMark, node.endMark));
      r.element == Some(b.element) && r.problems == b.problems
    ensures ReadsKey(mapping, attribution, key, build, r.element)
  {
    match Lookup(mapping, key)
    case None => Built(None, [])
    case Some(node) =>
      var b := build(node, AtKey(attribution, key, node.startMark, node.endMark));
      Built(Some(b.element), b.problems)
  }

  /** The attribution of item `i` of a sequence. */
  function ItemAttribution(attribution: Attribution, nodes: seq<Node>, i: nat): Attribution
    requires i < |nodes|
  {
    AtIndex(attribution, i, nodes[i].startMark, nodes[i].endMark)
  }

  /**
   * `from_sequence`: one element per node, in order, item `i` at index `i`
   * under `attribution`; the problems of the items one after the other.
   */
  function BuildSequence<E>(nodes: seq<Node>, attribution: Attribution, build: Builder<E>): (r: Built<seq<E>>)
    ensures |r.element| == |nodes|
    ensures forall i :: 0 <= i < |nodes| ==> r.element[i] == build(nodes[i], ItemAttribution(attribution, nodes, i)).element
    decreases |nodes|
  {
    if nodes == [] then Built([], [])
    else
      var init := BuildSequence(nodes[..|nodes| - 1], attribution, build);
      var last := build(nodes[|nodes| - 1], ItemAttribution(attribution, nodes, |nodes| - 1));
      assert forall i :: 0 <= i < |nodes| - 1 ==>
        ItemAttribution(attribution, nodes[..|nodes| - 1], i) == ItemAttribution(attribution, nodes, i);
      Built(init.element + [last.element], init.problems + last.problems)
  }

  /** Building a sequence reports only Fatal problems when every item does. */
  lemma {:induction false} BuildSequenceFatal<E>(nodes: seq<Node>, attribution: Attribution, build: Builder<E>)
    requires forall n: Node, a: Attribution :: AllFatal(build(n, a).problems)
    ensures AllFatal(BuildSequence(nodes, attribution, build).problems)
    decreases |nodes|
  {
    if nodes != [] {
      BuildSequenceFatal(nodes[..|nodes| - 1], attribution, build);
      var init := BuildSequence(nodes[..|nodes| - 1], attribution, build);
      var last := build(nodes[|nodes| - 1], ItemAttribution(attribution, nodes, |nodes| - 1));
      assert AllFatal(init.problems) && AllFatal(last.problems);
      assert BuildSequence(nodes, attribution, build).problems == init.problems + last.problems;
    }
  }

  /** `from_sequence` as the source writes it: a loop pushing one element per node. */
  method FromSequence<E>(nodes: seq<Node>, attribution: Attribution, build: Builder<E>) returns (r: Built<seq<E>>)
    ensures r == BuildSequence(nodes, attribution, build)
  {
    var elements: seq<E> := [];
    var problems: seq<Problem> := [];
    var i := 0;
    while i < |nodes|
      invariant 0 <= i <= |nodes|
      invariant Built(elements, problems) == BuildSequence(nodes[..i], attribution, build)
    {
      var b := build(nodes[i], ItemAttribution(attribution, nodes, i));
      assert nodes[..i + 1][..i] == nodes[..i];
      assert ItemAttribution(attribution, nodes[..i + 1], i) == ItemAttribution(attribution, nodes, i);
      elements := elements + [b.element];
      problems := problems + b.problems;
      i := i + 1;
    }
    assert nodes[..i] == nodes;
    r := Built(elements, problems);
  }
}
