/**
 * `ElementTree` (compiler/src/element.rs): the elements of every document of
 * every source, merged into one tree: metadata, the content version, and
 * the locations, qualities and storylets in the order they were read.
 */
module ElementTrees {
  import opened Common
  import opened YamlValue
  import opened YamlDocument
  import opened Attributions
  import opened Problems
  import opened ElementBase
  import opened ElementNamed
  import opened ElementMeta
  import opened ElementQuality
  import opened ElementLocation
  import opened ElementStorylet

  datatype ElementTree = ElementTree(
    meta: Option<MetaElement>,
    version: Option<VersionElement>,
    locations: seq<LocationElement>,
    qualities: seq<QualityElement>,
    storylets: seq<StoryletElement>)

  /** A content source: its path and the YAML documents read from it. */
  datatype Source = Source(path: string, documents: seq<Document>)

  const RootMessage: string := "Expected document root to be a mapping"
  const SupportedVersion: string := "0.1"
  const VersionMessage: string :=
    "This version of the Worldtree compiler is only compatible with content version 0.1. Please upgrade your content"
  const MetaTwiceMessage: string := "Metadata must only be defined in a single document"
  const MetaTwiceContext: string := "Did you intend to include only one of these?"
  const MissingVersionMessage: string :=
    "At least one content source must specify a content version. Did you mean to include a version?"

  const EmptyTree: ElementTree := ElementTree(None, None, [], [], [])

  function LocationsFromNode(node: Node, attribution: Attribution): Built<NamedCollectionElement<LocationElement>>
  {
    NamedFromNode(node, attribution, LocationFromNamedNode)
  }

  function QualitiesFromNode(node: Node, attribution: Attribution): Built<NamedCollectionElement<QualityElement>>
  {
    NamedFromNode(node, attribution, QualityFromNamedNode)
  }

  /**
   * The elements of the collection under `key`, or none when the key is
   * absent.
   */
  ghost predicate ReadsCollection<E>(mapping: seq<Entry>, attribution: Attribution, key: string,
                                     build: Builder<NamedCollectionElement<E>>, elements: seq<E>)
  {
    match Lookup(mapping, key)
    case None => elements == []
    case Some(node) => elements == build(node, AtKey(attribution, key, node.startMark, node.endMark)).element.elements
  }

  /** The elements of the collection under `key`, `[]` when it is absent. */
  function CollectionFromKey<E>(mapping: seq<Entry>, attribution: Attribution, key: string,
                                build: Builder<NamedCollectionElement<E>>): (r: Built<seq<E>>)
    ensures ReadsCollection(mapping, attribution, key, build, r.element)
    ensures Lookup(mapping, key).None? ==> r.problems == []
  {
    var collection := FromKey(mapping, attribution, key, build);
    if collection.element.Some? then Built(collection.element.value.elements, collection.problems)
    else Built([], collection.problems)
  }

  /** The problem a declared version other than "0.1" adds. */
  function VersionProblems(version: Option<VersionElement>): (r: seq<Problem>)
    ensures r == [] <==> version.None? || version.value.version == SupportedVersion
    ensures r != [] ==> r == [NewFatal(VersionMessage, version.value.attribution)]
  {
    if version.Some? && version.value.version != SupportedVersion then
      [NewFatal(VersionMessage, version.value.attribution)]
    else []
  }

  /**
   * The mapping branch of `from_node`: the `locations`, `qualities` and
   * `storylets` collections, then `meta` and `version`; a version other than
   * "0.1" ends the problems with one Fatal problem at the version.
   */
  function TreeFromMapping(m: seq<Entry>, attribution: Attribution): Built<ElementTree>
  {
    var locations := CollectionFromKey(m, attribution, "locations", LocationsFromNode);
    var qualities := CollectionFromKey(m, attribution, "qualities", QualitiesFromNode);
    var storylets := CollectionFromKey(m, attribution, "storylets", StoryletsFromNode);
    var meta := FromKey(m, attribution, "meta", MetaFromNode);
    var version := FromKey(m, attribution, "version", VersionFromNode);
    var read := locations.problems + qualities.problems + storylets.problems + meta.problems + version.problems;
    Built(ElementTree(meta.element, version.element, locations.element, qualities.element, storylets.element),
          read + VersionProblems(version.element))
  }

  /** What the mapping branch reads, and the version check that ends it. */
  lemma TreeFromMappingFields(m: seq<Entry>, attribution: Attribution)
    ensures var r := TreeFromMapping(m, attribution);
      ReadsCollection(m, attribution, "locations", LocationsFromNode, r.element.locations)
      && ReadsCollection(m, attribution, "qualities", QualitiesFromNode, r.element.qualities)
      && ReadsCollection(m, attribution, "storylets", StoryletsFromNode, r.element.storylets)
      && ReadsKey(m, attribution, "meta", MetaFromNode, r.element.meta)
      && ReadsKey(m, attribution, "version", VersionFromNode, r.element.version)
      && IsSuffix(VersionProblems(r.element.version), r.problems)
  {
  }

  /**
   * The roots `from_node` reads without indexing past the end: a sequence
   * root reads the end mark of its second item, so a non-empty sequence
   * needs at least two items, and its first item is read the same way.
   */
  predicate ReadableRoot(node: Node)
  {
    match node.value
    case Sequence(items) => items == [] || (|items| >= 2 && ReadableRoot(items[0]))
    case _ => true
  }

  /**
   * `ElementTree::from_node`: a mapping is read key by key; a scalar is an
   * empty tree, reported unless empty; an empty sequence is an empty tree; a
   * longer sequence is reported and stands for its first item, at index 0
   * spanning the first two items.
   */
  function TreeFromNode(node: Node, attribution: Attribution): (r: Built<ElementTree>)
    requires ReadableRoot(node)
    ensures node.value.Mapping? ==> r == TreeFromMapping(node.value.entries, attribution)
    ensures node.value.Scalar? ==>
      r.element == EmptyTree
      && r.problems == (if node.value.text == "" then [] else [NewFatal(RootMessage, attribution)])
    ensures node.value.Sequence? && node.value.items == [] ==> r == Built(EmptyTree, [])
    ensures node.value.Sequence? && node.value.items != [] ==>
      r.problems != [] && r.problems[0] == NewFatal(RootMessage, attribution)
  {
    match node.value
    case Scalar(text) => Built(EmptyTree, if text != "" then [NewFatal(RootMessage, attribution)] else [])
    case Sequence(items) =>
      if items == [] then Built(EmptyTree, [])
      else
        var first := TreeFromNode(items[0], AtIndex(attribution, 0, items[0].startMark, items[1].endMark));
        Built(first.element, [NewFatal(RootMessage, attribution)] + first.problems)
    case Mapping(m) => TreeFromMapping(m, attribution)
  }

  /** A one-item sequence root is exactly what the source cannot read. */
  lemma OneItemRootUnreadable(node: Node)
    requires node.value.Sequence? && |node.value.items| == 1
    ensures !ReadableRoot(node)
  {
  }

  /**
   * `merge`: the collections of `first` then `second`; the first version and
   * the first metadata block win, and metadata in both adds one Fatal
   * problem at the first block with the second as context.
   */
  function Merge(first: ElementTree, second: ElementTree): (r: Built<ElementTree>)
    ensures r.element.locations == first.locations + second.locations
    ensures r.element.qualities == first.qualities + second.qualities
    ensures r.element.storylets == first.storylets + second.storylets
    ensures r.element.meta == (if first.meta.Some? then first.meta else second.meta)
    ensures r.element.version == (if first.version.Some? then first.version else second.version)
    ensures r.problems != [] <==> first.meta.Some? && second.meta.Some?
    ensures r.problems != [] ==>
      r.problems == [WithContext(NewFatal(MetaTwiceMessage, first.meta.value.attribution), MetaTwiceContext,
                                 second.meta.value.attribution)]
  {
    var problems :=
      if first.meta.Some? && second.meta.Some? then
        [WithContext(NewFatal(MetaTwiceMessage, first.meta.value.attribution), MetaTwiceContext, second.meta.value.attribution)]
      else [];
    Built(ElementTree(if first.meta.Some? then first.meta else second.meta,
                      if first.version.Some? then first.version else second.version,
                      first.locations + second.locations,
                      first.qualities + second.qualities,
                      first.storylets + second.storylets),
          problems)
  }

  /** The empty tree is a unit of `merge` on both sides. */
  lemma MergeEmpty(tree: ElementTree)
    ensures Merge(EmptyTree, tree) == Built(tree, [])
    ensures Merge(tree, EmptyTree) == Built(tree, [])
  {
    assert [] + tree.locations == tree.locations && tree.locations + [] == tree.locations;
    assert [] + tree.qualities == tree.qualities && tree.qualities + [] == tree.qualities;
    assert [] + tree.storylets == tree.storylets && tree.storylets + [] == tree.storylets;
  }

  /** Merging is associative in the tree it builds (the problems are not). */
  lemma MergeAssociative(a: ElementTree, b: ElementTree, c: ElementTree)
    ensures Merge(Merge(a, b).element, c).element == Merge(a, Merge(b, c).element).element
  {
    assert (a.locations + b.locations) + c.locations == a.locations + (b.locations + c.locations);
    assert (a.qualities + b.qualities) + c.qualities == a.qualities + (b.qualities + c.qualities);
    assert (a.storylets + b.storylets) + c.storylets == a.storylets + (b.storylets + c.storylets);
  }

  // ---------------------------------------------------------------------
  // Documents and sources
  //
  // The folds below take the root reader as a parameter, instantiated with
  // `TreeFromNode`, so that what is proved about a fold does not depend on
  // how a single root is read.

  /** A reader of document roots: `from_node`, defined on every readable root. */
  type RootReader = (Node, Attribution) --> Built<ElementTree>

  ghost predicate ReadsEveryRoot(read: RootReader)
  {
    forall node: Node, attribution: Attribution :: ReadableRoot(node) ==> read.requires(node, attribution)
  }

  /** `from_node` reads every readable root. */
  lemma TreeFromNodeReadsEveryRoot()
    ensures ReadsEveryRoot(TreeFromNode)
  {
  }

  /** Every document root the source's documents can be read from. */
  predicate ReadableDocuments(documents: seq<Document>)
  {
    forall i :: 0 <= i < |documents| ==> documents[i].root.Some? ==> ReadableRoot(documents[i].root.value)
  }

  /** The attribution of the root of document `i`: no path for a lone document, `[i]` among several. */
  function DocumentAttribution(source: string, documents: seq<Document>, i: nat, root: Node): (r: Attribution)
    requires i < |documents|
    ensures r.source == source && r.startMark == root.startMark && r.endMark == root.endMark
    ensures r.path == (if |documents| == 1 then PathText([]) else PathText([IndexSegment(i)]))
  {
    if |documents| == 1 then New(source, root.startMark, root.endMark)
    else NewAtIndex(source, i, root.startMark, root.endMark)
  }

  /** The tree of document `i` alone, `None` when it has no root. */
  function DocumentTree(source: string, documents: seq<Document>, i: nat, read: RootReader): Option<Built<ElementTree>>
    requires i < |documents| && ReadableDocuments(documents) && ReadsEveryRoot(read)
  {
    var document := documents[i];
    if document.root.None? then None
    else Some(read(document.root.value, DocumentAttribution(source, documents, i, document.root.value)))
  }

  /** The tree of the first `n` documents: each rooted one merged after those before it. */
  function DocumentsSpec(source: string, documents: seq<Document>, n: nat, read: RootReader): (r: Built<ElementTree>)
    requires n <= |documents| && ReadableDocuments(documents) && ReadsEveryRoot(read)
  {
    if n == 0 then Built(EmptyTree, [])
    else
      var before := DocumentsSpec(source, documents, n - 1, read);
      match DocumentTree(source, documents, n - 1, read)
      case None => before
      case Some(tree) =>
        var merged := Merge(before.element, tree.element);
        Built(merged.element, before.problems + tree.problems + merged.problems)
  }

  /** A document without a root adds nothing. */
  lemma RootlessDocumentSkipped(source: string, documents: seq<Document>, n: nat, read: RootReader)
    requires n < |documents| && ReadableDocuments(documents) && ReadsEveryRoot(read) && documents[n].root.None?
    ensures DocumentsSpec(source, documents, n + 1, read) == DocumentsSpec(source, documents, n, read)
  {
  }

  /** The locations each rooted document among the first `n` declares, concatenated. */
  function DocumentLocations(source: string, documents: seq<Document>, n: nat, read: RootReader): seq<LocationElement>
    requires n <= |documents| && ReadableDocuments(documents) && ReadsEveryRoot(read)
  {
    if n == 0 then []
    else
      DocumentLocations(source, documents, n - 1, read)
      + match DocumentTree(source, documents, n - 1, read)
        case None => []
        case Some(tree) => tree.element.locations
  }

  /** The locations of the documents are those of each document, in document order. */
  lemma {:induction false} DocumentLocationsInOrder(source: string, documents: seq<Document>, n: nat, read: RootReader)
    requires n <= |documents| && ReadableDocuments(documents) && ReadsEveryRoot(read)
    ensures DocumentsSpec(source, documents, n, read).element.locations == DocumentLocations(source, documents, n, read)
  {
    if n > 0 {
      DocumentLocationsInOrder(source, documents, n - 1, read);
      DocumentLocationsStep(source, documents, n, read);
    }
  }

  lemma DocumentLocationsStep(source: string, documents: seq<Document>, n: nat, read: RootReader)
    requires 0 < n <= |documents| && ReadableDocuments(documents) && ReadsEveryRoot(read)
    requires DocumentsSpec(source, documents, n - 1, read).element.locations == DocumentLocations(source, documents, n - 1, read)
    ensures DocumentsSpec(source, documents, n, read).element.locations == DocumentLocations(source, documents, n, read)
  {
  }

  /**
   * `from_documents` as the source writes it: a loop merging each rooted
   * document into the tree, each root read by `read` (`TreeFromNode`).
   */
  method FromDocuments(source: string, documents: seq<Document>, read: RootReader) returns (r: Built<ElementTree>)
    requires ReadableDocuments(documents) && ReadsEveryRoot(read)
    ensures r == DocumentsSpec(source, documents, |documents|, read)
  {
    var tree := EmptyTree;
    var problems: seq<Problem> := [];
    for i := 0 to |documents|
      invariant Built(tree, problems) == DocumentsSpec(source, documents, i, read)
    {
      var document := documents[i];
      if document.root.Some? {
        var node := document.root.value;
        var attribution := if |documents| == 1 then New(source, node.startMark, node.endMark)
                           else NewAtIndex(source, i, node.startMark, node.endMark);
        var rooted := read(node, attribution);
        assert DocumentTree(source, documents, i, read) == Some(rooted);
        problems := problems + rooted.problems;
        var merged := Merge(tree, rooted.element);
        tree := merged.element;
        problems := problems + merged.problems;
      }
    }
    r := Built(tree, problems);
  }

  /** Every document of every source can be read. */
  predicate ReadableSources(sources: seq<Source>)
  {
    forall i :: 0 <= i < |sources| ==> ReadableDocuments(sources[i].documents)
  }

  /** The tree of the first `n` sources, each merged after those before it. */
  function SourcesSpec(sources: seq<Source>, n: nat, read: RootReader): (r: Built<ElementTree>)
    requires n <= |sources| && ReadableSources(sources) && ReadsEveryRoot(read)
  {
    if n == 0 then Built(EmptyTree, [])
    else
      var before := SourcesSpec(sources, n - 1, read);
      var source := sources[n - 1];
      var tree := DocumentsSpec(source.path, source.documents, |source.documents|, read);
      var merged := Merge(before.element, tree.element);
      Built(merged.element, before.problems + tree.problems + merged.problems)
  }

  /** The problem a missing content version adds, at the start of the last source. */
  function MissingVersionProblems(sources: seq<Source>, tree: ElementTree): (r: seq<Problem>)
    ensures r == [] <==> sources == [] || tree.version.Some?
    ensures r != [] ==> r == [NewFatal(MissingVersionMessage, New(sources[|sources| - 1].path, Mark(0, 0), Mark(0, 0)))]
  {
    if sources != [] && tree.version.None? then
      [NewFatal(MissingVersionMessage, New(sources[|sources| - 1].path, Mark(0, 0), Mark(0, 0)))]
    else []
  }

  /**
   * `from_sources`: the merged tree of every source; with at least one
   * source and no version anywhere, one Fatal problem at the last source
   * ends the problems.
   */
  function SourcesTree(sources: seq<Source>, read: RootReader): (r: Built<ElementTree>)
    requires ReadableSources(sources) && ReadsEveryRoot(read)
    ensures r.element == SourcesSpec(sources, |sources|, read).element
    ensures IsSuffix(MissingVersionProblems(sources, r.element), r.problems)
  {
    var tree := SourcesSpec(sources, |sources|, read);
    Built(tree.element, tree.problems + MissingVersionProblems(sources, tree.element))
  }

  /** No source at all gives the empty tree and no problem. */
  lemma NoSources(read: RootReader)
    requires ReadsEveryRoot(read)
    ensures SourcesTree([], read) == Built(EmptyTree, [])
  {
  }

  /**
   * `from_sources` as the source writes it: a loop merging each source's
   * documents, then the version check; roots are read by `read`, which is
   * `TreeFromNode` (see `TreeFromNodeReadsEveryRoot`).
   */
  method FromSources(sources: seq<Source>, read: RootReader) returns (r: Built<ElementTree>)
    requires ReadableSources(sources) && ReadsEveryRoot(read)
    ensures r == SourcesTree(sources, read)
  {
    var tree := EmptyTree;
    var problems: seq<Problem> := [];
    for i := 0 to |sources|
      invariant Built(tree, problems) == SourcesSpec(sources, i, read)
    {
      var documents := FromDocuments(sources[i].path, sources[i].documents, read);
      problems := problems + documents.problems;
      var merged := Merge(tree, documents.element);
      tree := merged.element;
      problems := problems + merged.problems;
    }
    if |sources| > 0 && tree.version.None? {
      problems := problems + [NewFatal(MissingVersionMessage, New(sources[|sources| - 1].path, Mark(0, 0), Mark(0, 0)))];
    }
    r := Built(tree, problems);
  }
}
