/**
 * Building one YAML document's tree from events (compiler/src/yaml/document.rs
 * and the parsing half of compiler/src/yaml/node.rs). A document context holds
 * the document's tag directives and its anchors; nodes are parsed recursively
 * from the events, scalars directly, sequences and mappings by loops that run
 * until their end event. Every scalar, sequence and mapping without a tag is
 * given the failsafe schema's tag for its kind (compiler/src/yaml/schema.rs).
 *
 * Each method is proved against a function over the event list and a
 * `Cursor` (the position in the events and the anchors defined so far).
 */
module YamlDocument {
  import opened Common
  import opened YamlValue
  import opened YamlPath
  import opened YamlEvent

  datatype Document = Document(root: Option<Node>, startMark: Mark, endMark: Mark)

  /** The directives split as `DocumentParsingContext::new` splits them. */
  datatype Directives = Directives(primary: Option<TagDirective>, others: seq<TagDirective>)

  datatype Cursor = Cursor(position: nat, anchors: map<string, Node>)

  // ---------------------------------------------------------------------
  // Directives

  /** The last "!" directive is primary; every other directive is kept, in order. */
  function Partition(ds: seq<TagDirective>): (r: Directives)
    decreases |ds|
  {
    if ds == [] then Directives(None, [])
    else
      var before := Partition(ds[..|ds| - 1]);
      var last := ds[|ds| - 1];
      if last.handle == "!" then Directives(Some(last), before.others)
      else Directives(before.primary, before.others + [last])
  }

  /** The directives whose handle is not "!", read from the front. */
  function NonPrimary(ds: seq<TagDirective>): seq<TagDirective>
  {
    if ds == [] then []
    else (if ds[0].handle == "!" then [] else [ds[0]]) + NonPrimary(ds[1..])
  }

  lemma {:induction false} NonPrimaryAppend(ds: seq<TagDirective>, d: TagDirective)
    ensures NonPrimary(ds + [d]) == NonPrimary(ds) + (if d.handle == "!" then [] else [d])
    decreases |ds|
  {
    if ds != [] {
      assert (ds + [d])[1..] == ds[1..] + [d];
      NonPrimaryAppend(ds[1..], d);
    } else {
      assert NonPrimary([d]) == (if d.handle == "!" then [] else [d]) + NonPrimary([]);
    }
  }

  /** The non-primary directives are exactly the non-"!" ones, in their order. */
  lemma {:induction false} PartitionKeepsOthers(ds: seq<TagDirective>)
    ensures Partition(ds).others == NonPrimary(ds)
    decreases |ds|
  {
    if ds != [] {
      var init := ds[..|ds| - 1];
      PartitionKeepsOthers(init);
      NonPrimaryAppend(init, ds[|ds| - 1]);
      assert init + [ds[|ds| - 1]] == ds;
    }
  }

  /** There is no primary directive exactly when no handle is "!". */
  lemma {:induction false} PartitionWithoutPrimary(ds: seq<TagDirective>)
    ensures Partition(ds).primary.None? <==> forall j :: 0 <= j < |ds| ==> ds[j].handle != "!"
    decreases |ds|
  {
    if ds != [] {
      var init := ds[..|ds| - 1];
      PartitionWithoutPrimary(init);
      assert forall j :: 0 <= j < |init| ==> ds[j] == init[j];
    }
  }

  /** The primary directive is the last "!" directive: no "!" directive follows it. */
  lemma {:induction false} PartitionPrimaryIsLast(ds: seq<TagDirective>)
    requires Partition(ds).primary.Some?
    ensures exists k :: (0 <= k < |ds| && ds[k] == Partition(ds).primary.value && ds[k].handle == "!"
                         && forall j :: k < j < |ds| ==> ds[j].handle != "!")
    decreases |ds|
  {
    var init := ds[..|ds| - 1];
    var last := |ds| - 1;
    if ds[last].handle == "!" {
      assert ds[last] == Partition(ds).primary.value;
    } else {
      PartitionPrimaryIsLast(init);
      var k :| 0 <= k < |init| && init[k] == Partition(init).primary.value && init[k].handle == "!"
        && forall j :: k < j < |init| ==> init[j].handle != "!";
      assert ds[k] == init[k];
      assert forall j :: k < j < |ds| ==> ds[j].handle != "!" by {
        assert forall j :: k < j < |init| ==> ds[j] == init[j];
      }
    }
  }

  // ---------------------------------------------------------------------
  // Tags

  /** The first non-primary directive whose handle starts the tag. */
  function FirstHandle(others: seq<TagDirective>, tag: string): (r: Option<TagDirective>)
    ensures r.Some? ==> r.value in others && IsPrefix(r.value.handle, tag)
    ensures r.None? ==> forall j :: 0 <= j < |others| ==> !IsPrefix(others[j].handle, tag)
  {
    if others == [] then None
    else if IsPrefix(others[0].handle, tag) then Some(others[0])
    else FirstHandle(others[1..], tag)
  }

  const CoreTagPrefix: string := "tag:yaml.org,2002:"

  // The messages of the errors the tree builder reports.
  const ExpectedNode: string := "Expected a node"
  const UndefinedAnchor: string := "Undefined anchor"
  const DuplicateKey: string := "Mapping contains duplicate key"
  const AlreadyDefined: string := "Already defined"
  const ExpectedDocumentEnd: string := "Expected end of document"

  /**
   * `resolve_tag`: a verbatim "!<x>" is x; a tag starting with a non-primary
   * handle is that directive's prefix and the rest; "!!x" is the core
   * schema's x; with a primary directive, a tag is its prefix and the tag
   * without its leading character; otherwise the tag is kept. The source
   * slices bytes, and panics where a slice falls inside a character.
   */
  function ResolveTag(d: Directives, tag: string): (r: Outcome<string>)
  {
    if IsPrefix("!<", tag) then
      if |tag| >= 3 && Utf8Len(tag[|tag| - 1]) == 1 then Ok(tag[2..|tag| - 1]) else Panic
    else
      match FirstHandle(d.others, tag)
      case Some(directive) => Ok(directive.prefix + tag[|directive.handle|..])
      case None =>
        if IsPrefix("!!", tag) then Ok(CoreTagPrefix + tag[2..])
        else if d.primary.Some? then
          if |tag| >= 1 && Utf8Len(tag[0]) == 1 then Ok(d.primary.value.prefix + tag[1..]) else Panic
        else Ok(tag)
  }

  /** A verbatim tag resolves to its contents, whatever the directives. */
  lemma VerbatimTag(d: Directives, x: string)
    ensures ResolveTag(d, "!<" + x + ">") == Ok(x)
  {
    var tag := "!<" + x + ">";
    assert tag[..2] == "!<";
    assert tag[2..|tag| - 1] == x;
  }

  /** "!!x" is "tag:yaml.org,2002:x" unless a non-primary handle starts it. */
  lemma SecondaryTag(d: Directives, x: string)
    requires FirstHandle(d.others, "!!" + x).None?
    ensures ResolveTag(d, "!!" + x) == Ok(CoreTagPrefix + x)
  {
    var tag := "!!" + x;
    assert tag[..2] == "!!";
    assert tag[2..] == x;
  }

  /** A non-primary directive is tried before "!!": a "!!" directive overrides the core schema prefix. */
  lemma DirectiveBeforeSecondary(primary: Option<TagDirective>, prefix: string, rest: seq<TagDirective>, x: string)
    ensures ResolveTag(Directives(primary, [TagDirective("!!", prefix)] + rest), "!!" + x) == Ok(prefix + x)
  {
    var tag := "!!" + x;
    assert tag[..2] == "!!";
    assert tag[2..] == x;
  }

  /** Under a primary directive, "!x" is its prefix followed by x. */
  lemma PrimaryTag(d: Directives, x: string)
    requires d.primary.Some?
    requires FirstHandle(d.others, "!" + x).None?
    requires x == [] || (x[0] != '!' && x[0] != '<')
    ensures ResolveTag(d, "!" + x) == Ok(d.primary.value.prefix + x)
  {
    var tag := "!" + x;
    assert tag[1..] == x;
    if |tag| >= 2 {
      assert tag[..2] != "!<" && tag[..2] != "!!";
    }
  }

  /** With no directive that applies, a tag other than "!<…>" and "!!…" is kept as it is. */
  lemma UnknownTagKept(d: Directives, tag: string)
    requires d.primary.None?
    requires FirstHandle(d.others, tag).None?
    requires !IsPrefix("!<", tag) && !IsPrefix("!!", tag)
    ensures ResolveTag(d, tag) == Ok(tag)
  {
  }

  // ---------------------------------------------------------------------
  // Node parsing, as functions of the events

  /** The failsafe schema: an untagged value gets the tag of its kind and is kept as it is; the path is not consulted. */
  function FailsafeResolve(path: seq<PathElement>, value: Value): (r: (string, Value))
    ensures r.0 == DefaultTag(value) && r.1 == value
  {
    match value
    case Scalar(_) => (StrTag, value)
    case Sequence(_) => (SeqTag, value)
    case Mapping(_) => (MapTag, value)
  }

  /** `resolve`: the schema decides untagged nodes, `resolve_tag` tagged ones. */
  function ResolveNode(d: Directives, path: seq<PathElement>, tag: Option<string>, value: Value,
                       startMark: Mark, endMark: Mark): (r: Parsed<Node>)
    ensures r.Success? ==> r.value.value == value && r.value.startMark == startMark && r.value.endMark == endMark
    ensures r.Success? && tag.None? ==> r.value.tag == DefaultTag(value)
    ensures tag.None? ==> r.Success?
    ensures tag.Some? ==> (r.Success? <==> ResolveTag(d, tag.value).Ok?)
    ensures r.Success? && tag.Some? ==> ResolveTag(d, tag.value) == Ok(r.value.tag)
  {
    match tag
    case None =>
      var resolved := FailsafeResolve(path, value);
      Success(Node(resolved.0, resolved.1, startMark, endMark))
    case Some(t) =>
      match ResolveTag(d, t)
      case Panic => Failure(Panicked)
      case Ok(resolved) => Success(Node(resolved, value, startMark, endMark))
  }

  /** `define_anchor` after a node with an anchor; nothing without one. */
  function Define(c: Cursor, anchor: Option<string>, node: Node): (r: Cursor)
    ensures r.position == c.position
    ensures anchor.Some? ==> r.anchors == c.anchors[anchor.value := node]
    ensures anchor.None? ==> r == c
  {
    if anchor.Some? then c.(anchors := c.anchors[anchor.value := node]) else c
  }

  /** The anchor a node event defines, if any. */
  function AnchorOf(data: EventData): Option<string>
  {
    match data
    case ScalarEvent(anchor, _, _) => anchor
    case SequenceStart(anchor, _) => anchor
    case MappingStart(anchor, _) => anchor
    case _ => None
  }

  /** The tag a node event carries, if any. */
  function TagOf(data: EventData): Option<string>
  {
    match data
    case ScalarEvent(_, tag, _) => tag
    case SequenceStart(_, tag) => tag
    case MappingStart(_, tag) => tag
    case _ => None
  }

  predicate StartsNode(data: EventData)
  {
    data.ScalarEvent? || data.SequenceStart? || data.MappingStart? || data.Alias?
  }

  /**
   * `NodeParsingContext::parse` of the already consumed event `event`. An
   * alias is the node last defined under its anchor; an anchored node is
   * defined under its anchor once it is complete; any event that does not
   * start a node is "Expected a node".
   */
  function NodeSpec(d: Directives, events: seq<Event>, path: seq<PathElement>, event: Event, c: Cursor): (r: Parsed<(Node, Cursor)>)
    requires c.position <= |events|
    ensures r.Success? ==> c.position <= r.value.1.position <= |events|
    ensures !StartsNode(event.data) ==> r == Failure(Problem(ExpectedNode, event.startMark))
    ensures event.data.Alias? ==>
      r == if event.data.alias in c.anchors then Success((c.anchors[event.data.alias], c))
           else Failure(Problem(UndefinedAnchor, event.startMark))
    ensures r.Success? && AnchorOf(event.data).Some? ==>
      AnchorOf(event.data).value in r.value.1.anchors && r.value.1.anchors[AnchorOf(event.data).value] == r.value.0
    decreases |events| - c.position, 2
  {
    match event.data
    case ScalarEvent(anchor, tag, text) =>
      var node :- ResolveNode(d, path, tag, Scalar(text), event.startMark, event.endMark);
      Success((node, Define(c, anchor, node)))
    case SequenceStart(anchor, tag) =>
      var parsed :- SequenceSpec(d, events, path, tag, event.startMark, [], c);
      Success((parsed.0, Define(parsed.1, anchor, parsed.0)))
    case MappingStart(anchor, tag) =>
      var parsed :- MappingSpec(d, events, path, tag, event.startMark, [], c);
      Success((parsed.0, Define(parsed.1, anchor, parsed.0)))
    case Alias(anchor) =>
      if anchor in c.anchors then Success((c.anchors[anchor], c))
      else Failure(Problem(UndefinedAnchor, event.startMark))
    case _ => Failure(Problem(ExpectedNode, event.startMark))
  }

  /** `parse_sequence` once `items` are parsed: items up to the sequence end, each at its index in the path. */
  function SequenceSpec(d: Directives, events: seq<Event>, path: seq<PathElement>, tag: Option<string>,
                        startMark: Mark, items: seq<Node>, c: Cursor): (r: Parsed<(Node, Cursor)>)
    requires c.position <= |events|
    ensures r.Success? ==> c.position < r.value.1.position <= |events|
    ensures r.Success? ==> r.value.0.value.Sequence? && IsPrefix(items, r.value.0.value.items)
    decreases |events| - c.position, 1
  {
    var event :- NextSpec(events, c.position);
    var next := c.(position := c.position + 1);
    if event.data.SequenceEnd? then
      var node :- ResolveNode(d, path, tag, Sequence(items), startMark, event.endMark);
      Success((node, next))
    else
      var item :- NodeSpec(d, events, path + [Index(|items|)], event, next);
      SequenceSpec(d, events, path, tag, startMark, items + [item.0], item.1)
  }

  /** `parse_mapping` once `entries` are parsed: entries up to the mapping end. */
  function MappingSpec(d: Directives, events: seq<Event>, path: seq<PathElement>, tag: Option<string>,
                       startMark: Mark, entries: seq<Entry>, c: Cursor): (r: Parsed<(Node, Cursor)>)
    requires c.position <= |events|
    ensures r.Success? ==> c.position < r.value.1.position <= |events|
    ensures r.Success? ==> r.value.0.value.Mapping? && |entries| <= |r.value.0.value.entries|
    decreases |events| - c.position, 1
  {
    var keyEvent :- NextSpec(events, c.position);
    MappingRound(d, events, path, tag, startMark, entries, keyEvent, c.(position := c.position + 1))
  }

  /** One round of `parse_mapping` after its key event: the mapping end, or an entry and the rounds after it. */
  function MappingRound(d: Directives, events: seq<Event>, path: seq<PathElement>, tag: Option<string>,
                        startMark: Mark, entries: seq<Entry>, keyEvent: Event, next: Cursor): (r: Parsed<(Node, Cursor)>)
    requires 0 < next.position <= |events|
    ensures r.Success? ==> next.position <= r.value.1.position <= |events|
    ensures r.Success? ==> r.value.0.value.Mapping? && |entries| <= |r.value.0.value.entries|
    decreases |events| - next.position + 1, 0
  {
    if keyEvent.data.MappingEnd? then
      var node :- ResolveNode(d, path, tag, Mapping(entries), startMark, keyEvent.endMark);
      Success((node, next))
    else
      var entry :- EntrySpec(d, events, path, entries, keyEvent, next);
      MappingSpec(d, events, path, tag, startMark, Insert(entries, entry.0), entry.1)
  }

  lemma MappingStarts(d: Directives, events: seq<Event>, path: seq<PathElement>, tag: Option<string>,
                      startMark: Mark, entries: seq<Entry>, c: Cursor, keyEvent: Event)
    requires c.position < |events| && events[c.position] == keyEvent
    ensures MappingSpec(d, events, path, tag, startMark, entries, c)
         == MappingRound(d, events, path, tag, startMark, entries, keyEvent, c.(position := c.position + 1))
  {
  }

  /**
   * One round of `parse_mapping` after its key event: the key, which must
   * not compare Equal to a key already in the mapping, then the value, at
   * that key in the path.
   */
  function EntrySpec(d: Directives, events: seq<Event>, path: seq<PathElement>, entries: seq<Entry>,
                     keyEvent: Event, c: Cursor): (r: Parsed<(Entry, Cursor)>)
    requires c.position <= |events|
    ensures r.Success? ==> c.position < r.value.1.position <= |events|
    decreases |events| - c.position, 3
  {
    var key :- NodeSpec(d, events, path, keyEvent, c);
    match FindKey(entries, key.0)
    case Some(i) =>
      Failure(DatasetError(DuplicateKey, key.0.startMark, Some(AlreadyDefined), Some(entries[i].key.startMark)))
    case None =>
      var valueEvent :- NextSpec(events, key.1.position);
      var value :- NodeSpec(d, events, path + [Key(key.0)], valueEvent, key.1.(position := key.1.position + 1));
      Success((Entry(key.0, value.0), value.1))
  }

  /** An entry that parses has a key that compares Equal to no key already in the mapping. */
  lemma EntryKeyIsNew(d: Directives, events: seq<Event>, path: seq<PathElement>, entries: seq<Entry>,
                      keyEvent: Event, c: Cursor)
    requires c.position <= |events|
    requires EntrySpec(d, events, path, entries, keyEvent, c).Success?
    ensures forall j :: 0 <= j < |entries| ==>
      CompareNodes(entries[j].key, EntrySpec(d, events, path, entries, keyEvent, c).value.0.key) != Equal
  {
    var key := NodeSpec(d, events, path, keyEvent, c).value.0;
    assert EntrySpec(d, events, path, entries, keyEvent, c).value.0.key == key;
    assert FindKey(entries, key).None?;
  }

  /**
   * A key that compares Equal to a key already in the mapping is "Mapping
   * contains duplicate key" at the new key, with "Already defined" at the
   * first such earlier key as the context.
   */
  lemma DuplicateKeyFails(d: Directives, events: seq<Event>, path: seq<PathElement>, entries: seq<Entry>,
                          keyEvent: Event, c: Cursor, key: Node, after: Cursor, j: nat)
    requires c.position <= |events|
    requires NodeSpec(d, events, path, keyEvent, c) == Success((key, after))
    requires j < |entries| && CompareNodes(entries[j].key, key) == Equal
    ensures var r := EntrySpec(d, events, path, entries, keyEvent, c);
      r.Failure? && r.error.DatasetError? && r.error.problem == DuplicateKey && r.error.problemMark == key.startMark
      && r.error.context == Some(AlreadyDefined)
      && exists i :: 0 <= i <= j && CompareNodes(entries[i].key, key) == Equal
                     && r.error.contextMark == Some(entries[i].key.startMark)
  {
    var i := FindKey(entries, key).value;
    assert 0 <= i <= j && CompareNodes(entries[i].key, key) == Equal;
  }

  /**
   * The entries of every mapping the parser builds are in strictly increasing
   * key order, as a `BTreeMap` keeps them: no two keys compare Equal.
   */
  lemma {:induction false} MappingSpecSorted(d: Directives, events: seq<Event>, path: seq<PathElement>,
                                             tag: Option<string>, startMark: Mark, entries: seq<Entry>, c: Cursor)
    requires c.position <= |events|
    requires SortedEntries(entries)
    ensures var r := MappingSpec(d, events, path, tag, startMark, entries, c);
      r.Success? ==> SortedEntries(r.value.0.value.entries)
    decreases |events| - c.position
  {
    if c.position < |events| {
      var keyEvent := events[c.position];
      var next := c.(position := c.position + 1);
      MappingStarts(d, events, path, tag, startMark, entries, c, keyEvent);
      if !keyEvent.data.MappingEnd? {
        var e := EntrySpec(d, events, path, entries, keyEvent, next);
        if e.Success? {
          EntryKeyIsNew(d, events, path, entries, keyEvent, next);
          var key := e.value.0.key;
          assert FindKey(entries, key).None?;
          InsertKeepsOrder(entries, e.value.0);
          MappingSpecSorted(d, events, path, tag, startMark, Insert(entries, e.value.0), e.value.1);
        }
      }
    }
  }

  /** `DocumentParsingContext::parse`: an empty document, or one root node followed by the document end. */
  function DocumentSpec(d: Directives, events: seq<Event>, startMark: Mark, c: Cursor): (r: Parsed<(Document, Cursor)>)
    requires c.position <= |events|
    ensures r.Success? ==> c.position < r.value.1.position <= |events|
    ensures r.Success? ==> r.value.0.startMark == startMark
  {
    var event :- NextSpec(events, c.position);
    var next := c.(position := c.position + 1);
    if event.data.DocumentEnd? then Success((Document(None, startMark, event.endMark), next))
    else
      var root :- NodeSpec(d, events, [], event, next);
      var last :- NextSpec(events, root.1.position);
      if last.data.DocumentEnd? then
        Success((Document(Some(root.0), startMark, last.endMark), root.1.(position := root.1.position + 1)))
      else Failure(Problem(ExpectedDocumentEnd, last.startMark))
  }

  /** A document end straight after the document start is an empty document. */
  lemma EmptyDocument(d: Directives, events: seq<Event>, startMark: Mark, c: Cursor)
    requires c.position < |events| && events[c.position].data.DocumentEnd?
    ensures DocumentSpec(d, events, startMark, c)
         == Success((Document(None, startMark, events[c.position].endMark), c.(position := c.position + 1)))
  {
  }

  /** A root node followed by anything but the document end is "Expected end of document" at that event. */
  lemma MissingDocumentEnd(d: Directives, events: seq<Event>, startMark: Mark, c: Cursor, root: Node, after: Cursor)
    requires c.position < |events| && !events[c.position].data.DocumentEnd?
    requires NodeSpec(d, events, [], events[c.position], c.(position := c.position + 1)) == Success((root, after))
    requires after.position < |events| && !events[after.position].data.DocumentEnd?
    ensures DocumentSpec(d, events, startMark, c) == Failure(Problem(ExpectedDocumentEnd, events[after.position].startMark))
  {
  }

  /** The node part of a spec result. */
  function NodeOf(s: Parsed<(Node, Cursor)>): (r: Parsed<Node>)
    ensures r.Success? <==> s.Success?
  {
    match s
    case Success(parsed) => Success(parsed.0)
    case Failure(e) => Failure(e)
  }

  // ---------------------------------------------------------------------
  // The document parsing context

  class DocumentContext {
    const stream: EventStream
    const directives: Directives
    var anchors: map<string, Node>

    /** `new`: split the directives; no anchors yet. */
    constructor(stream: EventStream, tagDirectives: seq<TagDirective>)
      ensures this.stream == stream
      ensures directives == Partition(tagDirectives)
      ensures anchors == map[]
    {
      var primary: Option<TagDirective> := None;
      var others: seq<TagDirective> := [];
      var i := 0;
      while i < |tagDirectives|
        invariant 0 <= i <= |tagDirectives|
        invariant Directives(primary, others) == Partition(tagDirectives[..i])
      {
        assert tagDirectives[..i + 1][..i] == tagDirectives[..i];
        if tagDirectives[i].handle == "!" {
          primary := Some(tagDirectives[i]);
        } else {
          others := others + [tagDirectives[i]];
        }
        i := i + 1;
      }
      assert tagDirectives[..i] == tagDirectives;
      this.stream := stream;
      directives := Directives(primary, others);
      anchors := map[];
    }

    function State(): Cursor
      reads this, stream
    {
      Cursor(stream.position, anchors)
    }

    /** `resolve_alias`: the node last defined under the anchor, if any. */
    method ResolveAlias(anchor: string) returns (r: Option<Node>)
      ensures r.Some? <==> anchor in anchors
      ensures r.Some? ==> r.value == anchors[anchor]
    {
      if anchor in anchors {
        r := Some(anchors[anchor]);
      } else {
        r := None;
      }
    }

    /** `define_anchor`: the anchor now names the node, replacing any earlier one. */
    method DefineAnchor(anchor: string, node: Node)
      modifies this
      ensures anchors == old(anchors)[anchor := node]
    {
      anchors := anchors[anchor := node];
    }

    method ParseNode(path: seq<PathElement>, event: Event) returns (r: Parsed<Node>)
      requires stream.position <= |stream.events|
      modifies this, stream
      ensures r == NodeOf(NodeSpec(directives, stream.events, path, event, old(State())))
      ensures r.Success? ==> State() == NodeSpec(directives, stream.events, path, event, old(State())).value.1
      decreases |stream.events| - stream.position, 2
    {
      ghost var start := State();
      match event.data
      case ScalarEvent(anchor, tag, text) =>
        r := ResolveNode(directives, path, tag, Scalar(text), event.startMark, event.endMark);
        if r.Success? && anchor.Some? {
          DefineAnchor(anchor.value, r.value);
        }
      case SequenceStart(anchor, tag) =>
        r := ParseSequence(path, tag, event.startMark);
        if r.Success? && anchor.Some? {
          DefineAnchor(anchor.value, r.value);
        }
      case MappingStart(anchor, tag) =>
        r := ParseMapping(path, tag, event.startMark);
        if r.Success? && anchor.Some? {
          DefineAnchor(anchor.value, r.value);
        }
      case Alias(anchor) =>
        var node := ResolveAlias(anchor);
        if node.Some? {
          r := Success(node.value);
        } else {
          r := Failure(Problem(UndefinedAnchor, event.startMark));
        }
      case _ =>
        r := Failure(Problem(ExpectedNode, event.startMark));
    }

    method ParseSequence(path: seq<PathElement>, tag: Option<string>, startMark: Mark) returns (r: Parsed<Node>)
      requires stream.position <= |stream.events|
      modifies this, stream
      ensures r == NodeOf(SequenceSpec(directives, stream.events, path, tag, startMark, [], old(State())))
      ensures r.Success? ==> State() == SequenceSpec(directives, stream.events, path, tag, startMark, [], old(State())).value.1
      decreases |stream.events| - stream.position, 1
    {
      ghost var start := State();
      var items: seq<Node> := [];
      while true
        invariant start.position <= stream.position <= |stream.events|
        invariant SequenceSpec(directives, stream.events, path, tag, startMark, [], start)
               == SequenceSpec(directives, stream.events, path, tag, startMark, items, State())
        decreases |stream.events| - stream.position
      {
        ghost var here := State();
        var event := stream.Next();
        if event.Failure? {
          return Failure(event.error);
        }
        if event.value.data.SequenceEnd? {
          r := ResolveNode(directives, path, tag, Sequence(items), startMark, event.value.endMark);
          return;
        }
        var item := ParseNode(path + [Index(|items|)], event.value);
        if item.Failure? {
          return Failure(item.error);
        }
        items := items + [item.value];
      }
    }

    method ParseMapping(path: seq<PathElement>, tag: Option<string>, startMark: Mark) returns (r: Parsed<Node>)
      requires stream.position <= |stream.events|
      modifies this, stream
      ensures r == NodeOf(MappingSpec(directives, stream.events, path, tag, startMark, [], old(State())))
      ensures r.Success? ==> State() == MappingSpec(directives, stream.events, path, tag, startMark, [], old(State())).value.1
      decreases |stream.events| - stream.position, 1
    {
      ghost var start := State();
      var entries: seq<Entry> := [];
      while true
        invariant start.position <= stream.position <= |stream.events|
        invariant MappingSpec(directives, stream.events, path, tag, startMark, [], start)
               == MappingSpec(directives, stream.events, path, tag, startMark, entries, State())
        decreases |stream.events| - stream.position
      {
        ghost var here := State();
        var keyEvent := stream.Next();
        if keyEvent.Failure? {
          return Failure(keyEvent.error);
        }
        ghost var next := State();
        assert next == here.(position := here.position + 1);
        MappingStarts(directives, stream.events, path, tag, startMark, entries, here, keyEvent.value);
        if keyEvent.value.data.MappingEnd? {
          r := ResolveNode(directives, path, tag, Mapping(entries), startMark, keyEvent.value.endMark);
          return;
        }
        var entry := ParseEntry(path, entries, keyEvent.value);
        if entry.Failure? {
          return Failure(entry.error);
        }
        entries := Insert(entries, entry.value);
      }
    }

    /** The body of `parse_mapping`'s loop after the key event. */
    method ParseEntry(path: seq<PathElement>, entries: seq<Entry>, keyEvent: Event) returns (r: Parsed<Entry>)
      requires stream.position <= |stream.events|
      modifies this, stream
      ensures var s := EntrySpec(directives, stream.events, path, entries, keyEvent, old(State()));
        (r.Success? <==> s.Success?) && (r.Success? ==> r.value == s.value.0 && State() == s.value.1)
        && (r.Failure? ==> r.error == s.error)
      decreases |stream.events| - stream.position, 3
    {
      ghost var start := State();
      ghost var keySpec := NodeSpec(directives, stream.events, path, keyEvent, start);
      var key := ParseNode(path, keyEvent);
      if key.Failure? {
        return Failure(key.error);
      }
      assert keySpec.Success? && key.value == keySpec.value.0 && State() == keySpec.value.1;
      var existing := FindKey(entries, key.value);
      if existing.Some? {
        return Failure(DatasetError(DuplicateKey, key.value.startMark,
                                    Some(AlreadyDefined), Some(entries[existing.value].key.startMark)));
      }
      var valueEvent := stream.Next();
      if valueEvent.Failure? {
        return Failure(valueEvent.error);
      }
      var value := ParseNode(path + [Key(key.value)], valueEvent.value);
      if value.Failure? {
        return Failure(value.error);
      }
      r := Success(Entry(key.value, value.value));
    }

    /** `parse`: the document that starts at `startMark`. */
    method Parse(startMark: Mark) returns (r: Parsed<Document>)
      requires stream.position <= |stream.events|
      modifies this, stream
      ensures var s := DocumentSpec(directives, stream.events, startMark, old(State()));
        (r.Success? <==> s.Success?) && (r.Success? ==> r.value == s.value.0 && stream.position == s.value.1.position)
        && (r.Failure? ==> r.error == s.error)
    {
      var event := stream.Next();
      if event.Failure? {
        return Failure(event.error);
      }
      if event.value.data.DocumentEnd? {
        return Success(Document(None, startMark, event.value.endMark));
      }
      var root := ParseNode([], event.value);
      if root.Failure? {
        return Failure(root.error);
      }
      var last := stream.Next();
      if last.Failure? {
        return Failure(last.error);
      }
      if last.value.data.DocumentEnd? {
        r := Success(Document(Some(root.value), startMark, last.value.endMark));
      } else {
        r := Failure(Problem(ExpectedDocumentEnd, last.value.startMark));
      }
    }
  }
}
