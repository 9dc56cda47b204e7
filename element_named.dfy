/**
 * `NamedCollectionElement<E>` (compiler/src/element/named.rs): a collection
 * of named elements (qualities, values, locations, storylets). In a mapping
 * each key names the element built from its value; a sequence is a list of
 * elements that name themselves; a scalar is a single element.
 */
module ElementNamed {
  import opened Common
  import opened YamlValue
  import opened Attributions
  import opened Problems
  import opened ElementBase
  import opened ElementName

  datatype NamedCollectionElement<E> = NamedCollectionElement(attribution: Attribution, elements: seq<E>)

  /** `NamedElement::from_named_node` of one element kind. */
  type NamedBuilder<E> = (Node, Option<NameElement>, Attribution) -> Built<E>

  /** `from_node` of a named element kind: `from_named_node` with no name. */
  function Unnamed<E>(build: NamedBuilder<E>): Builder<E>
  {
    (node: Node, attribution: Attribution) => build(node, None, attribution)
  }

  /** The name a mapping gives: its own `name` key if present, else the one passed in. */
  ghost predicate NameOverrides(mapping: seq<Entry>, attribution: Attribution, passed: Option<NameElement>, name: Option<NameElement>)
  {
    if Lookup(mapping, "name").Some? then ReadsKey(mapping, attribution, "name", NameFromNode, name)
    else name == passed
  }

  /** The name read from the key of `entry`, the `i`-th entry, at index `i` under `attribution`. */
  function EntryName(entry: Entry, attribution: Attribution, i: nat): Built<NameElement>
  {
    NameFromNode(entry.key, AtIndex(attribution, i, entry.key.startMark, entry.key.endMark))
  }

  /**
   * The element of `entry`, the `i`-th entry: its value built with the
   * key's name, at that name under `attribution`; the key's problems come
   * before the value's.
   */
  function EntryElement<E>(entry: Entry, attribution: Attribution, build: NamedBuilder<E>, i: nat): Built<E>
  {
    var name := EntryName(entry, attribution, i);
    var value := entry.value;
    var element := build(value, Some(name.element), AtKey(attribution, name.element.name, value.startMark, value.endMark));
    Built(element.element, name.problems + element.problems)
  }

  /** The mapping loop: one element per entry, in the mapping's key order. */
  function BuildEntries<E>(entries: seq<Entry>, attribution: Attribution, build: NamedBuilder<E>): (r: Built<seq<E>>)
    ensures |r.element| == |entries|
    decreases |entries|
  {
    if entries == [] then Built([], [])
    else
      var n := |entries| - 1;
      var init := BuildEntries(entries[..n], attribution, build);
      var last := EntryElement(entries[n], attribution, build, n);
      Built(init.element + [last.element], init.problems + last.problems)
  }

  /** Element `i` of the mapping loop is the element of entry `i`. */
  lemma {:induction false} BuildEntriesElements<E>(entries: seq<Entry>, attribution: Attribution, build: NamedBuilder<E>)
    ensures forall i :: 0 <= i < |entries| ==>
      BuildEntries(entries, attribution, build).element[i] == EntryElement(entries[i], attribution, build, i).element
    decreases |entries|
  {
    if entries != [] {
      var n := |entries| - 1;
      BuildEntriesElements(entries[..n], attribution, build);
      var init := BuildEntries(entries[..n], attribution, build);
      forall i | 0 <= i < |entries|
        ensures BuildEntries(entries, attribution, build).element[i] == EntryElement(entries[i], attribution, build, i).element
      {
        if i < n {
          assert entries[..n][i] == entries[i];
          assert BuildEntries(entries, attribution, build).element[i] == init.element[i];
        }
      }
    }
  }

  /** One more entry adds its element and, after the earlier ones, its problems. */
  lemma EntriesStep<E>(entries: seq<Entry>, attribution: Attribution, build: NamedBuilder<E>, i: nat)
    requires i < |entries|
    ensures var before := BuildEntries(entries[..i], attribution, build);
      var entry := EntryElement(entries[i], attribution, build, i);
      BuildEntries(entries[..i + 1], attribution, build) == Built(before.element + [entry.element], before.problems + entry.problems)
  {
    assert entries[..i + 1][..i] == entries[..i];
  }

  /** The mapping branch of `from_node` as the source writes it: a counting loop over the entries. */
  method FromMapping<E>(entries: seq<Entry>, attribution: Attribution, build: NamedBuilder<E>) returns (r: Built<seq<E>>)
    ensures r == BuildEntries(entries, attribution, build)
  {
    var elements: seq<E> := [];
    var problems: seq<Problem> := [];
    var i := 0;
    while i < |entries|
      invariant 0 <= i <= |entries|
      invariant Built(elements, problems) == BuildEntries(entries[..i], attribution, build)
    {
      var keyAttribution := AtIndex(attribution, i, entries[i].key.startMark, entries[i].key.endMark);
      var name := NameFromNode(entries[i].key, keyAttribution);
      var valueAttribution := AtKey(attribution, name.element.name, entries[i].value.startMark, entries[i].value.endMark);
      var element := build(entries[i].value, Some(name.element), valueAttribution);
      EntriesStep(entries, attribution, build, i);
      assert EntryElement(entries[i], attribution, build, i) == Built(element.element, name.problems + element.problems);
      elements := elements + [element.element];
      problems := problems + (name.problems + element.problems);
      i := i + 1;
    }
    assert entries[..i] == entries;
    r := Built(elements, problems);
  }

  /**
   * `from_node`: a sequence is read item by item with no name, a mapping
   * entry by entry with the key's name, and a scalar as a single element.
   */
  function NamedFromNode<E>(node: Node, attribution: Attribution, build: NamedBuilder<E>): (r: Built<NamedCollectionElement<E>>)
    ensures r.element.attribution == attribution
    ensures node.value.Sequence? ==>
      |r.element.elements| == |node.value.items|
      && forall i :: 0 <= i < |node.value.items| ==>
           r.element.elements[i] == build(node.value.items[i], None, ItemAttribution(attribution, node.value.items, i)).element
    ensures node.value.Mapping? ==>
      |r.element.elements| == |node.value.entries|
      && forall i :: 0 <= i < |node.value.entries| ==>
           r.element.elements[i] == EntryElement(node.value.entries[i], attribution, build, i).element
    ensures node.value.Scalar? ==> r == Built(NamedCollectionElement(attribution, [build(node, None, attribution).element]),
                                              build(node, None, attribution).problems)
  {
    match node.value
    case Sequence(items) =>
      var built := BuildSequence(items, attribution, Unnamed(build));
      Built(NamedCollectionElement(attribution, built.element), built.problems)
    case Mapping(entries) =>
      BuildEntriesElements(entries, attribution, build);
      var built := BuildEntries(entries, attribution, build);
      Built(NamedCollectionElement(attribution, built.element), built.problems)
    case Scalar(_) =>
      var one := build(node, None, attribution);
      Built(NamedCollectionElement(attribution, [one.element]), one.problems)
  }

  /**
   * A scalar key names its element verbatim, and the element is built at
   * `.key` under the collection: `{river: ...}` builds the value at ".river"
   * with the name "river".
   */
  lemma ScalarKeyNamesElement<E>(entries: seq<Entry>, attribution: Attribution, build: NamedBuilder<E>, i: nat)
    requires i < |entries| && entries[i].key.value.Scalar?
    ensures var key := entries[i].key; var value := entries[i].value;
      var name := NameElement(AtIndex(attribution, i, key.startMark, key.endMark), key.value.text);
      EntryElement(entries[i], attribution, build, i)
        == Built(build(value, Some(name), AtKey(attribution, key.value.text, value.startMark, value.endMark)).element,
                 build(value, Some(name), AtKey(attribution, key.value.text, value.startMark, value.endMark)).problems)
  {
  }
}
