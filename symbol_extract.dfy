/**
 * `SymbolList::extract` (compiler/src/symbol.rs) over the element tree:
 * it gathers every declared name, in order, and hands them to
 * `SymbolNames` to keep the first of each; and `require` against the
 * extracted list.
 */
module SymbolExtract {
  import opened Common
  import opened Attributions
  import opened Problems
  import opened Symbols
  import opened SymbolNames
  import opened ElementName
  import opened ElementNamed
  import opened ElementQuality
  import opened ElementLocation
  import opened ElementStorylet
  import opened ElementTrees

  // ---------------------------------------------------------------------
  // The declared names, in the order `extract` visits them

  function NameOf(name: Option<NameElement>): seq<NameElement>
  {
    if name.Some? then [name.value] else []
  }

  /** The names of a list of quality values. */
  function ValueNames(values: seq<QualityValueElement>): seq<NameElement>
  {
    if values == [] then [] else ValueNames(values[..|values| - 1]) + NameOf(values[|values| - 1].name)
  }

  /** A quality's name, then those of its values. */
  function QualityNames(quality: QualityElement): seq<NameElement>
  {
    NameOf(quality.name) + (if quality.values.Some? then ValueNames(quality.values.value.elements) else [])
  }

  function QualitiesNames(qualities: seq<QualityElement>): seq<NameElement>
  {
    if qualities == [] then [] else QualitiesNames(qualities[..|qualities| - 1]) + QualityNames(qualities[|qualities| - 1])
  }

  function StoryletNames(storylets: seq<StoryletElement>): seq<NameElement>
  {
    if storylets == [] then [] else StoryletNames(storylets[..|storylets| - 1]) + NameOf(storylets[|storylets| - 1].name)
  }

  /** A location's name, then those of the storylets it holds. */
  function LocationNames(location: LocationElement): seq<NameElement>
  {
    NameOf(location.name) + (if location.storylets.Some? then StoryletNames(location.storylets.value.elements) else [])
  }

  function LocationsNames(locations: seq<LocationElement>): seq<NameElement>
  {
    if locations == [] then [] else LocationsNames(locations[..|locations| - 1]) + LocationNames(locations[|locations| - 1])
  }

  /** Every name the tree declares: qualities and their values, storylets, then locations and their storylets. */
  function DeclaredNames(tree: ElementTree): seq<NameElement>
  {
    QualitiesNames(tree.qualities) + StoryletNames(tree.storylets) + LocationsNames(tree.locations)
  }

  lemma ValueNamesStep(values: seq<QualityValueElement>, j: nat)
    requires j < |values|
    ensures ValueNames(values[..j + 1]) == ValueNames(values[..j]) + NameOf(values[j].name)
  {
    assert values[..j + 1][..j] == values[..j];
  }

  lemma QualitiesNamesStep(qualities: seq<QualityElement>, i: nat)
    requires i < |qualities|
    ensures QualitiesNames(qualities[..i + 1]) == QualitiesNames(qualities[..i]) + QualityNames(qualities[i])
  {
    assert qualities[..i + 1][..i] == qualities[..i];
  }

  lemma StoryletNamesStep(storylets: seq<StoryletElement>, j: nat)
    requires j < |storylets|
    ensures StoryletNames(storylets[..j + 1]) == StoryletNames(storylets[..j]) + NameOf(storylets[j].name)
  {
    assert storylets[..j + 1][..j] == storylets[..j];
  }

  lemma LocationsNamesStep(locations: seq<LocationElement>, i: nat)
    requires i < |locations|
    ensures LocationsNames(locations[..i + 1]) == LocationsNames(locations[..i]) + LocationNames(locations[i])
  {
    assert locations[..i + 1][..i] == locations[..i];
  }

  // ---------------------------------------------------------------------
  // `extract`

  /** The list and problems `extract` produces. */
  function ExtractSpec(tree: ElementTree, problems: seq<Problem>): (r: (seq<string>, seq<Problem>))
  {
    var d := DistinctSpec(Declarations(DeclaredNames(tree)), problems);
    (SortDescending(d.symbols), d.problems)
  }

  /**
   * `extract` yields a valid list (normalised, strictly descending, so
   * without duplicates) holding exactly the normal forms of the declared
   * names, and adds one Fatal per name declared again.
   */
  lemma ExtractValid(tree: ElementTree, problems: seq<Problem>)
    ensures var names := DeclaredNames(tree);
      var r := ExtractSpec(tree, problems);
      ValidSymbols(r.0)
      && (forall s :: s in r.0 <==> exists k :: 0 <= k < |names| && Normalize(names[k].name) == s)
      && |r.1| == |problems| + |names| - |r.0|
  {
    KeptNamesValid(DeclaredNames(tree), problems);
  }

  /** The names kept from any list of declared names, sorted descending. */
  lemma KeptNamesValid(names: seq<NameElement>, problems: seq<Problem>)
    ensures var d := DistinctSpec(Declarations(names), problems);
      var sorted := SortDescending(d.symbols);
      ValidSymbols(sorted)
      && (forall s :: s in sorted <==> exists k :: 0 <= k < |names| && Normalize(names[k].name) == s)
      && |d.problems| == |problems| + |names| - |sorted|
  {
    KeptNamesSorted(names, problems);
    KeptNamesDeclared(names, problems);
    var d := DistinctSpec(Declarations(names), problems);
    assert |SortDescending(d.symbols)| == |multiset(d.symbols)| == |d.symbols|;
  }

  lemma KeptNamesSorted(names: seq<NameElement>, problems: seq<Problem>)
    ensures ValidSymbols(SortDescending(DistinctSpec(Declarations(names), problems).symbols))
  {
    var declarations := Declarations(names);
    var d := DistinctSpec(declarations, problems);
    DistinctKeepsFirst(declarations, problems);
    forall i | 0 <= i < |d.symbols| ensures IsNormalized(d.symbols[i]) {
      DeclarationsNormalized(names, d.symbols[i]);
    }
    BuiltValid(SymbolListBuilder(d.symbols));
  }

  lemma KeptNamesDeclared(names: seq<NameElement>, problems: seq<Problem>)
    ensures var sorted := SortDescending(DistinctSpec(Declarations(names), problems).symbols);
      forall s :: s in sorted <==> exists k :: 0 <= k < |names| && Normalize(names[k].name) == s
  {
    var declarations := Declarations(names);
    var d := DistinctSpec(declarations, problems);
    DistinctKeepsFirst(declarations, problems);
    forall s ensures s in SortDescending(d.symbols) <==> exists k :: 0 <= k < |names| && Normalize(names[k].name) == s {
      assert s in multiset(SortDescending(d.symbols)) <==> s in multiset(d.symbols);
      DeclaresName(names, s);
    }
  }

  /** `extract` over a tree: gathers the names, keeps the first of each, sorts descending. */
  method Extract(tree: ElementTree, problems0: seq<Problem>) returns (list: SymbolList, problems: seq<Problem>)
    ensures fresh(list)
    ensures (list.symbols, problems) == ExtractSpec(tree, problems0)
  {
    var names := GatherNames(tree);
    var symbols;
    symbols, problems := KeepFirst(names, problems0);
    list := new SymbolList.FromSorted(SortDescending(symbols));
  }

  /** The loops of `extract` that gather the declared names. */
  method GatherNames(tree: ElementTree) returns (names: seq<NameElement>)
    ensures names == DeclaredNames(tree)
  {
    names := GatherQualities(tree.qualities);
    names := AppendStoryletNames(names, tree.storylets);
    names := GatherLocations(names, tree.locations);
  }

  method GatherQualities(qualities: seq<QualityElement>) returns (names: seq<NameElement>)
    ensures names == QualitiesNames(qualities)
  {
    names := [];
    for i := 0 to |qualities|
      invariant names == QualitiesNames(qualities[..i])
    {
      QualitiesNamesStep(qualities, i);
      var more := QualityNamesOf(qualities[i]);
      names := names + more;
    }
    assert qualities[..|qualities|] == qualities;
  }

  method QualityNamesOf(quality: QualityElement) returns (names: seq<NameElement>)
    ensures names == QualityNames(quality)
  {
    names := NameOf(quality.name);
    if quality.values.Some? {
      names := AppendValueNames(names, quality.values.value.elements);
    }
  }

  method AppendValueNames(names0: seq<NameElement>, values: seq<QualityValueElement>) returns (names: seq<NameElement>)
    ensures names == names0 + ValueNames(values)
  {
    names := names0;
    for j := 0 to |values|
      invariant names == names0 + ValueNames(values[..j])
    {
      ValueNamesStep(values, j);
      names := names + NameOf(values[j].name);
    }
    assert values[..|values|] == values;
  }

  method AppendStoryletNames(names0: seq<NameElement>, storylets: seq<StoryletElement>) returns (names: seq<NameElement>)
    ensures names == names0 + StoryletNames(storylets)
  {
    names := names0;
    for j := 0 to |storylets|
      invariant names == names0 + StoryletNames(storylets[..j])
    {
      StoryletNamesStep(storylets, j);
      names := names + NameOf(storylets[j].name);
    }
    assert storylets[..|storylets|] == storylets;
  }

  method GatherLocations(names0: seq<NameElement>, locations: seq<LocationElement>) returns (names: seq<NameElement>)
    ensures names == names0 + LocationsNames(locations)
  {
    names := names0;
    for i := 0 to |locations|
      invariant names == names0 + LocationsNames(locations[..i])
    {
      LocationsNamesStep(locations, i);
      var more := LocationNamesOf(locations[i]);
      assert names + more == names0 + (LocationsNames(locations[..i]) + more);
      names := names + more;
    }
    assert locations[..|locations|] == locations;
  }

  method LocationNamesOf(location: LocationElement) returns (names: seq<NameElement>)
    ensures names == LocationNames(location)
  {
    names := NameOf(location.name);
    if location.storylets.Some? {
      names := AppendStoryletNames(names, location.storylets.value.elements);
    }
  }

  // ---------------------------------------------------------------------
  // `require`

  /** Any name the tree declares, however spaced or cased, is found in the extracted list. */
  lemma RequireDeclared(tree: ElementTree, problems: seq<Problem>, name: NameElement, k: nat)
    requires k < |DeclaredNames(tree)| && Normalize(name.name) == Normalize(DeclaredNames(tree)[k].name)
    ensures Require(ExtractSpec(tree, problems).0, name, []).1 == []
  {
    ExtractValid(tree, problems);
    assert 0 <= k < |DeclaredNames(tree)| && Normalize(DeclaredNames(tree)[k].name) == Normalize(name.name);
  }
}
