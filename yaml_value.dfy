/**
 * The YAML value tree (compiler/src/yaml/value.rs and the value half of
 * compiler/src/yaml/node.rs): a node is a tag, a value and two marks; a value
 * is a scalar string, a sequence of nodes or a mapping. The source keeps a
 * mapping in a `BTreeMap<Node, Node>`; here it is the list of its entries in
 * the map's own key order, which is the order `Display`, `cmp` and iteration
 * see. Equality, order and display look at tags and values and never at marks.
 */
module YamlValue {
  import opened Common

  const StrTag: string := "tag:yaml.org,2002:str"
  const SeqTag: string := "tag:yaml.org,2002:seq"
  const MapTag: string := "tag:yaml.org,2002:map"

  datatype Node = Node(tag: string, value: Value, startMark: Mark, endMark: Mark)

  datatype Value =
    | Scalar(text: string)
    | Sequence(items: seq<Node>)
    | Mapping(entries: seq<Entry>)

  datatype Entry = Entry(key: Node, value: Node)

  datatype Ordering = Less | Equal | Greater

  function Flip(o: Ordering): Ordering
  {
    match o
    case Less => Greater
    case Equal => Equal
    case Greater => Less
  }

  // ---------------------------------------------------------------------
  // Accessors

  function AsScalar(v: Value): (r: Option<string>)
    ensures r.Some? <==> v.Scalar?
    ensures r.Some? ==> r.value == v.text
  {
    if v.Scalar? then Some(v.text) else None
  }

  function AsSequence(v: Value): (r: Option<seq<Node>>)
    ensures r.Some? <==> v.Sequence?
    ensures r.Some? ==> r.value == v.items
  {
    if v.Sequence? then Some(v.items) else None
  }

  function AsMapping(v: Value): (r: Option<seq<Entry>>)
    ensures r.Some? <==> v.Mapping?
    ensures r.Some? ==> r.value == v.entries
  {
    if v.Mapping? then Some(v.entries) else None
  }

  /** `Node::string`: a `str`-tagged scalar at the default marks, the form mapping keys are looked up by. */
  function StringNode(s: string): (n: Node)
    ensures n.value == Scalar(s) && n.tag == DefaultTag(n.value)
    ensures n.startMark == DefaultMark && n.endMark == DefaultMark
  {
    Node(StrTag, Scalar(s), DefaultMark, DefaultMark)
  }

  /** The tag the failsafe schema gives each kind of value. */
  function DefaultTag(v: Value): string
  {
    match v
    case Scalar(_) => StrTag
    case Sequence(_) => SeqTag
    case Mapping(_) => MapTag
  }

  // ---------------------------------------------------------------------
  // Marks do not matter: Strip replaces every mark by the default one

  function Strip(n: Node): (r: Node)
    decreases n, 1
  {
    Node(n.tag, StripValue(n.value), DefaultMark, DefaultMark)
  }

  function StripValue(v: Value): (r: Value)
    decreases v, 0
  {
    match v
    case Scalar(s) => Scalar(s)
    case Sequence(xs) => Sequence(StripNodes(xs))
    case Mapping(es) => Mapping(StripEntries(es))
  }

  function StripNodes(xs: seq<Node>): (r: seq<Node>)
    ensures |r| == |xs|
    decreases xs
  {
    if xs == [] then [] else [Strip(xs[0])] + StripNodes(xs[1..])
  }

  function StripEntries(es: seq<Entry>): (r: seq<Entry>)
    ensures |r| == |es|
    decreases es
  {
    if es == [] then [] else [StripEntry(es[0])] + StripEntries(es[1..])
  }

  function StripEntry(e: Entry): Entry
    decreases e
  {
    Entry(Strip(e.key), Strip(e.value))
  }

  // ---------------------------------------------------------------------
  // Equality (`PartialEq`): tag and value, never the marks

  predicate SameNode(a: Node, b: Node)
    decreases a, 1
  {
    a.tag == b.tag && SameValue(a.value, b.value)
  }

  predicate SameValue(u: Value, v: Value)
    decreases u, 0
  {
    match u
    case Scalar(s) => v.Scalar? && s == v.text
    case Sequence(xs) => v.Sequence? && SameNodes(xs, v.items)
    case Mapping(es) => v.Mapping? && SameEntries(es, v.entries)
  }

  predicate SameNodes(xs: seq<Node>, ys: seq<Node>)
    decreases xs
  {
    if xs == [] then ys == []
    else ys != [] && SameNode(xs[0], ys[0]) && SameNodes(xs[1..], ys[1..])
  }

  predicate SameEntries(es: seq<Entry>, fs: seq<Entry>)
    decreases es
  {
    if es == [] then fs == []
    else fs != [] && SameEntry(es[0], fs[0]) && SameEntries(es[1..], fs[1..])
  }

  predicate SameEntry(e: Entry, f: Entry)
    decreases e
  {
    SameNode(e.key, f.key) && SameNode(e.value, f.value)
  }

  // ---------------------------------------------------------------------
  // Order (`Ord`): tag first, then value; Scalar > Sequence > Mapping

  /** Strings compare lexicographically by character, which is the byte order of their UTF-8 encodings. */
  function CompareStrings(a: string, b: string): (r: Ordering)
    ensures r == Equal <==> a == b
  {
    if a == [] then (if b == [] then Equal else Less)
    else if b == [] then Greater
    else if a[0] < b[0] then Less
    else if a[0] > b[0] then Greater
    else
      assert a == [a[0]] + a[1..] && b == [b[0]] + b[1..];
      CompareStrings(a[1..], b[1..])
  }

  lemma {:induction false} CompareStringsFlip(a: string, b: string)
    ensures CompareStrings(b, a) == Flip(CompareStrings(a, b))
  {
    if a != [] && b != [] && a[0] == b[0] {
      CompareStringsFlip(a[1..], b[1..]);
    }
  }

  function CompareNodes(a: Node, b: Node): (r: Ordering)
    decreases a, 1
  {
    var byTag := CompareStrings(a.tag, b.tag);
    if byTag != Equal then byTag else CompareValues(a.value, b.value)
  }

  function CompareValues(u: Value, v: Value): (r: Ordering)
    ensures KindRank(u) > KindRank(v) ==> r == Greater
    ensures KindRank(u) < KindRank(v) ==> r == Less
    decreases u, 0
  {
    match u
    case Scalar(s) => if v.Scalar? then CompareStrings(s, v.text) else Greater
    case Sequence(xs) =>
      if v.Scalar? then Less
      else if v.Sequence? then CompareNodeLists(xs, v.items)
      else Greater
    case Mapping(es) => if v.Mapping? then CompareEntryLists(es, v.entries) else Less
  }

  /** `Vec<Node>` order: lexicographic, a proper prefix first. */
  function CompareNodeLists(xs: seq<Node>, ys: seq<Node>): (r: Ordering)
    decreases xs
  {
    if xs == [] then (if ys == [] then Equal else Less)
    else if ys == [] then Greater
    else
      var first := CompareNodes(xs[0], ys[0]);
      if first != Equal then first else CompareNodeLists(xs[1..], ys[1..])
  }

  /** `BTreeMap<Node, Node>` order: lexicographic over the (key, value) pairs in key order. */
  function CompareEntryLists(es: seq<Entry>, fs: seq<Entry>): (r: Ordering)
    decreases es
  {
    if es == [] then (if fs == [] then Equal else Less)
    else if fs == [] then Greater
    else
      var first := CompareEntries(es[0], fs[0]);
      if first != Equal then first else CompareEntryLists(es[1..], fs[1..])
  }

  /** A (key, value) pair: key first, then value. */
  function CompareEntries(e: Entry, f: Entry): (r: Ordering)
    decreases e
  {
    var byKey := CompareNodes(e.key, f.key);
    if byKey != Equal then byKey else CompareNodes(e.value, f.value)
  }

  /** The rank of each kind of value in the order between kinds: scalars above sequences above mappings. */
  function KindRank(v: Value): nat
  {
    match v
    case Scalar(_) => 2
    case Sequence(_) => 1
    case Mapping(_) => 0
  }

  // ---------------------------------------------------------------------
  // Properties of equality and order

  /** Equality is exactly "equal once the marks are forgotten". */
  lemma {:induction false} SameNodeIsStrippedEquality(a: Node, b: Node)
    ensures SameNode(a, b) <==> Strip(a) == Strip(b)
    decreases a, 1
  {
    SameValueIsStrippedEquality(a.value, b.value);
  }

  lemma {:induction false} SameValueIsStrippedEquality(u: Value, v: Value)
    ensures SameValue(u, v) <==> StripValue(u) == StripValue(v)
    decreases u, 0
  {
    match u
    case Scalar(_) =>
    case Sequence(xs) =>
      if v.Sequence? {
        SameNodesIsStrippedEquality(xs, v.items);
      }
    case Mapping(es) =>
      if v.Mapping? {
        SameEntriesIsStrippedEquality(es, v.entries);
      }
  }

  lemma {:induction false} SameNodesIsStrippedEquality(xs: seq<Node>, ys: seq<Node>)
    ensures SameNodes(xs, ys) <==> StripNodes(xs) == StripNodes(ys)
    decreases xs
  {
    if xs != [] && ys != [] {
      SameNodeIsStrippedEquality(xs[0], ys[0]);
      SameNodesIsStrippedEquality(xs[1..], ys[1..]);
      var sx, sy := StripNodes(xs), StripNodes(ys);
      assert sx == [Strip(xs[0])] + StripNodes(xs[1..]);
      assert sy == [Strip(ys[0])] + StripNodes(ys[1..]);
      if sx == sy {
        assert sx[0] == sy[0];
        assert sx[1..] == sy[1..];
      }
    }
  }

  lemma {:induction false} SameEntriesIsStrippedEquality(es: seq<Entry>, fs: seq<Entry>)
    ensures SameEntries(es, fs) <==> StripEntries(es) == StripEntries(fs)
    decreases es
  {
    if es != [] && fs != [] {
      SameEntryIsStrippedEquality(es[0], fs[0]);
      SameEntriesIsStrippedEquality(es[1..], fs[1..]);
      var se, sf := StripEntries(es), StripEntries(fs);
      assert se == [StripEntry(es[0])] + StripEntries(es[1..]);
      assert sf == [StripEntry(fs[0])] + StripEntries(fs[1..]);
      if se == sf {
        assert se[0] == sf[0];
        assert se[1..] == sf[1..];
      }
    }
  }

  lemma {:induction false} SameEntryIsStrippedEquality(e: Entry, f: Entry)
    ensures SameEntry(e, f) <==> StripEntry(e) == StripEntry(f)
    decreases e
  {
    SameNodeIsStrippedEquality(e.key, f.key);
    SameNodeIsStrippedEquality(e.value, f.value);
  }

  /** The order agrees with equality: two nodes compare Equal exactly when they are equal. */
  lemma {:induction false} CompareEqualIsSame(a: Node, b: Node)
    ensures CompareNodes(a, b) == Equal <==> SameNode(a, b)
    decreases a, 1
  {
    CompareValuesEqualIsSame(a.value, b.value);
  }

  lemma {:induction false} CompareValuesEqualIsSame(u: Value, v: Value)
    ensures CompareValues(u, v) == Equal <==> SameValue(u, v)
    decreases u, 0
  {
    match u
    case Scalar(_) =>
    case Sequence(xs) =>
      if v.Sequence? {
        CompareNodeListsEqualIsSame(xs, v.items);
      }
    case Mapping(es) =>
      if v.Mapping? {
        CompareEntryListsEqualIsSame(es, v.entries);
      }
  }

  lemma {:induction false} CompareNodeListsEqualIsSame(xs: seq<Node>, ys: seq<Node>)
    ensures CompareNodeLists(xs, ys) == Equal <==> SameNodes(xs, ys)
    decreases xs
  {
    if xs != [] && ys != [] {
      CompareEqualIsSame(xs[0], ys[0]);
      CompareNodeListsEqualIsSame(xs[1..], ys[1..]);
    }
  }

  lemma {:induction false} CompareEntryListsEqualIsSame(es: seq<Entry>, fs: seq<Entry>)
    ensures CompareEntryLists(es, fs) == Equal <==> SameEntries(es, fs)
    decreases es
  {
    if es != [] && fs != [] {
      CompareEntriesEqualIsSame(es[0], fs[0]);
      CompareEntryListsEqualIsSame(es[1..], fs[1..]);
    }
  }

  lemma {:induction false} CompareEntriesEqualIsSame(e: Entry, f: Entry)
    ensures CompareEntries(e, f) == Equal <==> SameEntry(e, f)
    decreases e
  {
    CompareEqualIsSame(e.key, f.key);
    CompareEqualIsSame(e.value, f.value);
  }

  /** The order is antisymmetric: swapping the operands flips the answer. */
  lemma {:induction false} CompareNodesFlip(a: Node, b: Node)
    ensures CompareNodes(b, a) == Flip(CompareNodes(a, b))
    decreases a, 1
  {
    CompareStringsFlip(a.tag, b.tag);
    CompareValuesFlip(a.value, b.value);
  }

  lemma {:induction false} CompareValuesFlip(u: Value, v: Value)
    ensures CompareValues(v, u) == Flip(CompareValues(u, v))
    decreases u, 0
  {
    match u
    case Scalar(s) =>
      if v.Scalar? {
        CompareStringsFlip(s, v.text);
      }
    case Sequence(xs) =>
      if v.Sequence? {
        CompareNodeListsFlip(xs, v.items);
      }
    case Mapping(es) =>
      if v.Mapping? {
        CompareEntryListsFlip(es, v.entries);
      }
  }

  lemma {:induction false} CompareNodeListsFlip(xs: seq<Node>, ys: seq<Node>)
    ensures CompareNodeLists(ys, xs) == Flip(CompareNodeLists(xs, ys))
    decreases xs
  {
    if xs != [] && ys != [] {
      CompareNodesFlip(xs[0], ys[0]);
      CompareNodeListsFlip(xs[1..], ys[1..]);
    }
  }

  lemma {:induction false} CompareEntryListsFlip(es: seq<Entry>, fs: seq<Entry>)
    ensures CompareEntryLists(fs, es) == Flip(CompareEntryLists(es, fs))
    decreases es
  {
    if es != [] && fs != [] {
      CompareEntriesFlip(es[0], fs[0]);
      CompareEntryListsFlip(es[1..], fs[1..]);
    }
  }

  lemma {:induction false} CompareEntriesFlip(e: Entry, f: Entry)
    ensures CompareEntries(f, e) == Flip(CompareEntries(e, f))
    decreases e
  {
    CompareNodesFlip(e.key, f.key);
    CompareNodesFlip(e.value, f.value);
  }

  /** Two steps up the order in a row: Equal when both are, Less otherwise. */
  function Compose(first: Ordering, second: Ordering): Ordering
  {
    if first == Equal && second == Equal then Equal else Less
  }

  /** Strings are ordered transitively. */
  lemma {:induction false} CompareStringsTrans(a: string, b: string, c: string)
    requires CompareStrings(a, b) != Greater && CompareStrings(b, c) != Greater
    ensures CompareStrings(a, c) == Compose(CompareStrings(a, b), CompareStrings(b, c))
  {
    if a != [] && b != [] && c != [] && a[0] == b[0] == c[0] {
      CompareStringsTrans(a[1..], b[1..], c[1..]);
    }
  }

  /**
   * The node order is transitive: `a <= b <= c` gives `a <= c`, strictly
   * when either step is strict, so `Less` followed by `Less` is `Less`.
   */
  lemma {:induction false} CompareNodesTrans(a: Node, b: Node, c: Node)
    requires CompareNodes(a, b) != Greater && CompareNodes(b, c) != Greater
    ensures CompareNodes(a, c) == Compose(CompareNodes(a, b), CompareNodes(b, c))
    decreases a, 1
  {
    CompareStringsTrans(a.tag, b.tag, c.tag);
    if CompareStrings(a.tag, b.tag) == Equal && CompareStrings(b.tag, c.tag) == Equal {
      CompareValuesTrans(a.value, b.value, c.value);
    }
  }

  lemma {:induction false} CompareValuesTrans(u: Value, v: Value, w: Value)
    requires CompareValues(u, v) != Greater && CompareValues(v, w) != Greater
    ensures CompareValues(u, w) == Compose(CompareValues(u, v), CompareValues(v, w))
    decreases u, 0
  {
    match u
    case Scalar(s) =>
      if v.Scalar? && w.Scalar? {
        CompareStringsTrans(s, v.text, w.text);
      }
    case Sequence(xs) =>
      if v.Sequence? && w.Sequence? {
        CompareNodeListsTrans(xs, v.items, w.items);
      }
    case Mapping(es) =>
      if v.Mapping? && w.Mapping? {
        CompareEntryListsTrans(es, v.entries, w.entries);
      }
  }

  lemma {:induction false} CompareNodeListsTrans(xs: seq<Node>, ys: seq<Node>, zs: seq<Node>)
    requires CompareNodeLists(xs, ys) != Greater && CompareNodeLists(ys, zs) != Greater
    ensures CompareNodeLists(xs, zs) == Compose(CompareNodeLists(xs, ys), CompareNodeLists(ys, zs))
    decreases xs
  {
    if xs != [] && ys != [] && zs != [] {
      CompareNodesTrans(xs[0], ys[0], zs[0]);
      if CompareNodes(xs[0], ys[0]) == Equal && CompareNodes(ys[0], zs[0]) == Equal {
        CompareNodeListsTrans(xs[1..], ys[1..], zs[1..]);
      }
    }
  }

  lemma {:induction false} CompareEntryListsTrans(es: seq<Entry>, fs: seq<Entry>, gs: seq<Entry>)
    requires CompareEntryLists(es, fs) != Greater && CompareEntryLists(fs, gs) != Greater
    ensures CompareEntryLists(es, gs) == Compose(CompareEntryLists(es, fs), CompareEntryLists(fs, gs))
    decreases es
  {
    if es != [] && fs != [] && gs != [] {
      CompareEntriesTrans(es[0], fs[0], gs[0]);
      if CompareEntries(es[0], fs[0]) == Equal && CompareEntries(fs[0], gs[0]) == Equal {
        CompareEntryListsTrans(es[1..], fs[1..], gs[1..]);
      }
    }
  }

  lemma {:induction false} CompareEntriesTrans(e: Entry, f: Entry, g: Entry)
    requires CompareEntries(e, f) != Greater && CompareEntries(f, g) != Greater
    ensures CompareEntries(e, g) == Compose(CompareEntries(e, f), CompareEntries(f, g))
    decreases e
  {
    CompareNodesTrans(e.key, f.key, g.key);
    if CompareNodes(e.key, f.key) == Equal && CompareNodes(f.key, g.key) == Equal {
      CompareNodesTrans(e.value, f.value, g.value);
    }
  }

  /** The order ignores marks: a node compares with another as their mark-free copies do. */
  lemma {:induction false} CompareIgnoresMarks(a: Node, b: Node)
    ensures CompareNodes(Strip(a), Strip(b)) == CompareNodes(a, b)
    decreases a, 1
  {
    CompareValuesIgnoresMarks(a.value, b.value);
  }

  lemma {:induction false} CompareValuesIgnoresMarks(u: Value, v: Value)
    ensures CompareValues(StripValue(u), StripValue(v)) == CompareValues(u, v)
    decreases u, 0
  {
    match u
    case Scalar(_) =>
    case Sequence(xs) =>
      if v.Sequence? {
        CompareNodeListsIgnoresMarks(xs, v.items);
      }
    case Mapping(es) =>
      if v.Mapping? {
        CompareEntryListsIgnoresMarks(es, v.entries);
      }
  }

  lemma {:induction false} CompareNodeListsIgnoresMarks(xs: seq<Node>, ys: seq<Node>)
    ensures CompareNodeLists(StripNodes(xs), StripNodes(ys)) == CompareNodeLists(xs, ys)
    decreases xs
  {
    if xs != [] && ys != [] {
      CompareIgnoresMarks(xs[0], ys[0]);
      CompareNodeListsIgnoresMarks(xs[1..], ys[1..]);
      var sx, sy := StripNodes(xs), StripNodes(ys);
      assert sx[0] == Strip(xs[0]) && sx[1..] == StripNodes(xs[1..]);
      assert sy[0] == Strip(ys[0]) && sy[1..] == StripNodes(ys[1..]);
    }
  }

  lemma {:induction false} CompareEntryListsIgnoresMarks(es: seq<Entry>, fs: seq<Entry>)
    ensures CompareEntryLists(StripEntries(es), StripEntries(fs)) == CompareEntryLists(es, fs)
    decreases es
  {
    if es != [] && fs != [] {
      CompareEntriesIgnoresMarks(es[0], fs[0]);
      CompareEntryListsIgnoresMarks(es[1..], fs[1..]);
      var se, sf := StripEntries(es), StripEntries(fs);
      assert se[0] == StripEntry(es[0]) && se[1..] == StripEntries(es[1..]);
      assert sf[0] == StripEntry(fs[0]) && sf[1..] == StripEntries(fs[1..]);
    }
  }

  lemma {:induction false} CompareEntriesIgnoresMarks(e: Entry, f: Entry)
    ensures CompareEntries(StripEntry(e), StripEntry(f)) == CompareEntries(e, f)
    decreases e
  {
    CompareIgnoresMarks(e.key, f.key);
    CompareIgnoresMarks(e.value, f.value);
  }

  // ---------------------------------------------------------------------
  // The mapping as a BTreeMap: lookup and insertion in key order

  /** Consecutive keys are strictly increasing, the order a `BTreeMap` keeps its entries in. */
  predicate SortedEntries(es: seq<Entry>)
  {
    forall i :: 0 < i < |es| ==> CompareNodes(es[i - 1].key, es[i].key) == Less
  }

  /** `get`/`get_key_value`: the position of the entry whose key compares Equal to `key`. */
  function FindKey(es: seq<Entry>, key: Node): (r: Option<nat>)
    ensures r.Some? ==> r.value < |es| && CompareNodes(es[r.value].key, key) == Equal
    ensures r.Some? ==> forall j :: 0 <= j < r.value ==> CompareNodes(es[j].key, key) != Equal
    ensures r.None? ==> forall j :: 0 <= j < |es| ==> CompareNodes(es[j].key, key) != Equal
    decreases |es|
  {
    if es == [] then None
    else if CompareNodes(es[0].key, key) == Equal then Some(0)
    else
      match FindKey(es[1..], key)
      case None => None
      case Some(i) => Some(i + 1)
  }

  /** Where `insert` puts a new key: before the first key above it. */
  function InsertionPoint(es: seq<Entry>, key: Node): (i: nat)
    ensures i <= |es|
    ensures forall j :: 0 <= j < i ==> CompareNodes(key, es[j].key) != Less
    ensures i < |es| ==> CompareNodes(key, es[i].key) == Less
    decreases |es|
  {
    if es == [] || CompareNodes(key, es[0].key) == Less then 0
    else 1 + InsertionPoint(es[1..], key)
  }

  /** `insert` of a key that is not in the mapping yet. */
  function Insert(es: seq<Entry>, e: Entry): (r: seq<Entry>)
    ensures |r| == |es| + 1
    ensures multiset(r) == multiset(es) + multiset{e}
  {
    var i := InsertionPoint(es, e.key);
    assert es == es[..i] + es[i..];
    es[..i] + [e] + es[i..]
  }

  /** Inserting a key no entry compares Equal to keeps the entries in key order. */
  lemma InsertKeepsOrder(es: seq<Entry>, e: Entry)
    requires SortedEntries(es)
    requires FindKey(es, e.key).None?
    ensures SortedEntries(Insert(es, e))
  {
    var i := InsertionPoint(es, e.key);
    var r := Insert(es, e);
    assert r == es[..i] + [e] + es[i..];
    if 0 < i {
      CompareNodesFlip(e.key, es[i - 1].key);
      assert CompareNodes(es[i - 1].key, e.key) == Less;
    }
    forall k | 0 < k < |r|
      ensures CompareNodes(r[k - 1].key, r[k].key) == Less
    {
      if k < i {
        assert r[k - 1] == es[k - 1] && r[k] == es[k];
      } else if k == i {
        assert r[k - 1] == es[i - 1] && r[k] == e;
      } else if k == i + 1 {
        assert r[k - 1] == e && r[k] == es[i];
      } else {
        assert r[k - 1] == es[k - 2] && r[k] == es[k - 1];
      }
    }
  }

  /** Every mapping inside a node keeps its entries in key order. */
  predicate Ordered(n: Node)
    decreases n, 1
  {
    OrderedValue(n.value)
  }

  predicate OrderedValue(v: Value)
    decreases v, 0
  {
    match v
    case Scalar(_) => true
    case Sequence(xs) => forall i | 0 <= i < |xs| :: Ordered(xs[i])
    case Mapping(es) =>
      SortedEntries(es) && forall i | 0 <= i < |es| :: Ordered(es[i].key) && Ordered(es[i].value)
  }

  // ---------------------------------------------------------------------
  // Display

  /** A node shows its tag as "!<tag> " only when it is not the default tag for its kind. */
  function NodeText(n: Node): (r: string)
    ensures n.tag == DefaultTag(n.value) ==> r == ValueText(n.value)
    ensures n.tag != DefaultTag(n.value) ==> r == "!<" + n.tag + "> " + ValueText(n.value)
    decreases n, 1
  {
    var prefix := if n.tag != DefaultTag(n.value) then "!<" + n.tag + "> " else "";
    prefix + ValueText(n.value)
  }

  /**
   * A scalar shows raw; a sequence as "[a, b]"; a mapping as "{k = v, ...]",
   * opening with a brace and closing with a bracket as the source writes it.
   */
  function ValueText(v: Value): (r: string)
    ensures v.Scalar? ==> r == v.text
    ensures v.Sequence? ==> |r| >= 2 && r[0] == '[' && r[|r| - 1] == ']'
    ensures v.Mapping? ==> |r| >= 2 && r[0] == '{' && r[|r| - 1] == ']'
    decreases v, 0
  {
    match v
    case Scalar(s) => s
    case Sequence(xs) => "[" + NodeListText(xs) + "]"
    case Mapping(es) => "{" + EntryListText(es) + "]"
  }

  /** The items separated by ", ". */
  function NodeListText(xs: seq<Node>): string
    decreases xs
  {
    if xs == [] then ""
    else if |xs| == 1 then NodeText(xs[0])
    else NodeText(xs[0]) + ", " + NodeListText(xs[1..])
  }

  /** The entries as "k = v", separated by ", ". */
  function EntryListText(es: seq<Entry>): string
    decreases es
  {
    if es == [] then ""
    else if |es| == 1 then EntryText(es[0])
    else EntryText(es[0]) + ", " + EntryListText(es[1..])
  }

  function EntryText(e: Entry): string
    decreases e
  {
    NodeText(e.key) + " = " + NodeText(e.value)
  }

  /** Display ignores marks. */
  lemma {:induction false} NodeTextIgnoresMarks(n: Node)
    ensures NodeText(Strip(n)) == NodeText(n)
    decreases n, 1
  {
    ValueTextIgnoresMarks(n.value);
    assert DefaultTag(StripValue(n.value)) == DefaultTag(n.value);
  }

  lemma {:induction false} ValueTextIgnoresMarks(v: Value)
    ensures ValueText(StripValue(v)) == ValueText(v)
    decreases v, 0
  {
    match v
    case Scalar(_) =>
    case Sequence(xs) => NodeListTextIgnoresMarks(xs);
    case Mapping(es) => EntryListTextIgnoresMarks(es);
  }

  lemma {:induction false} NodeListTextIgnoresMarks(xs: seq<Node>)
    ensures NodeListText(StripNodes(xs)) == NodeListText(xs)
    decreases xs
  {
    if xs != [] {
      var sx := StripNodes(xs);
      assert sx[0] == Strip(xs[0]) && sx[1..] == StripNodes(xs[1..]);
      NodeTextIgnoresMarks(xs[0]);
      NodeListTextIgnoresMarks(xs[1..]);
    }
  }

  lemma {:induction false} EntryListTextIgnoresMarks(es: seq<Entry>)
    ensures EntryListText(StripEntries(es)) == EntryListText(es)
    decreases es
  {
    if es != [] {
      var se := StripEntries(es);
      assert se[0] == StripEntry(es[0]) && se[1..] == StripEntries(es[1..]);
      EntryTextIgnoresMarks(es[0]);
      EntryListTextIgnoresMarks(es[1..]);
    }
  }

  lemma {:induction false} EntryTextIgnoresMarks(e: Entry)
    ensures EntryText(StripEntry(e)) == EntryText(e)
    decreases e
  {
    NodeTextIgnoresMarks(e.key);
    NodeTextIgnoresMarks(e.value);
  }
}
