/**
 * The name checks of the symbol table (compiler/src/symbol.rs) that work
 * on name elements: the loop of `SymbolList::extract` that keys each name
 * by its normal form, keeps the first and reports every repeat, and
 * `require`, which checks a reference against the list.
 */
module SymbolNames {
  import opened Common
  import opened Attributions
  import opened Problems
  import opened Symbols
  import opened ElementName

  const DuplicateMessage: string := "All names must be unique, but this one isn't"
  const DuplicateContext: string := "Already defined here"
  const RequireMessage: string := "Expected the name of an existing quality, location, or storylet"

  // ---------------------------------------------------------------------
  // Keeping the first of each name

  /** A declared name as `extract` keys it: its normal form, and where it was declared. */
  datatype Declaration = Declaration(symbol: string, attribution: Attribution)

  function Declarations(names: seq<NameElement>): (r: seq<Declaration>)
    ensures |r| == |names|
  {
    if names == [] then []
    else Declarations(names[..|names| - 1]) + [Declaration(Normalize(names[|names| - 1].name), names[|names| - 1].attribution)]
  }

  lemma {:induction false} DeclarationsAt(names: seq<NameElement>, k: nat)
    requires k < |names|
    ensures Declarations(names)[k] == Declaration(Normalize(names[k].name), names[k].attribution)
  {
    if k < |names| - 1 {
      DeclarationsAt(names[..|names| - 1], k);
    }
  }

  /** The symbols kept so far, where each was first declared, and the problems. */
  datatype Distinct = Distinct(symbols: seq<string>, seen: map<string, Attribution>, problems: seq<Problem>)

  /** One round of the loop: a symbol seen before adds one Fatal pointing at its first declaration. */
  function Keep(d: Distinct, declaration: Declaration): (r: Distinct)
  {
    if declaration.symbol in d.seen then
      var p := WithContext(NewFatal(DuplicateMessage, declaration.attribution), DuplicateContext, d.seen[declaration.symbol]);
      Distinct(d.symbols, d.seen, d.problems + [p])
    else
      Distinct(d.symbols + [declaration.symbol], d.seen[declaration.symbol := declaration.attribution], d.problems)
  }

  /** The loop over the gathered names, from the problems found before it. */
  function DistinctSpec(declarations: seq<Declaration>, problems: seq<Problem>): (r: Distinct)
    ensures |r.problems| + |r.symbols| == |problems| + |declarations|
    ensures |problems| <= |r.problems| && r.problems[..|problems|] == problems
    ensures forall k :: |problems| <= k < |r.problems| ==> r.problems[k].level == Fatal
  {
    if declarations == [] then Distinct([], map[], problems)
    else
      var d := DistinctSpec(declarations[..|declarations| - 1], problems);
      var r := Keep(d, declarations[|declarations| - 1]);
      assert r.problems[..|problems|] == d.problems[..|problems|];
      r
  }

  lemma DistinctStep(declarations: seq<Declaration>, k: nat, problems: seq<Problem>)
    requires k < |declarations|
    ensures DistinctSpec(declarations[..k + 1], problems) == Keep(DistinctSpec(declarations[..k], problems), declarations[k])
  {
    assert declarations[..k + 1][..k] == declarations[..k];
  }

  /** Where this symbol is first declared, if anywhere. */
  function FirstDeclaration(declarations: seq<Declaration>, symbol: string): Option<Attribution>
  {
    if declarations == [] then None
    else
      var earlier := FirstDeclaration(declarations[..|declarations| - 1], symbol);
      var last := declarations[|declarations| - 1];
      if earlier.Some? then earlier
      else if last.symbol == symbol then Some(last.attribution)
      else None
  }

  /** Some declaration has this symbol. */
  predicate Declares(declarations: seq<Declaration>, symbol: string)
  {
    exists k :: 0 <= k < |declarations| && declarations[k].symbol == symbol
  }

  /** Declaring one more name declares its symbol and those declared before. */
  lemma DeclaresSnoc(declarations: seq<Declaration>, symbol: string)
    requires declarations != []
    ensures var prefix := declarations[..|declarations| - 1];
      Declares(declarations, symbol) <==> Declares(prefix, symbol) || declarations[|declarations| - 1].symbol == symbol
  {
    var prefix := declarations[..|declarations| - 1];
    if Declares(declarations, symbol) {
      var k :| 0 <= k < |declarations| && declarations[k].symbol == symbol;
      if k < |prefix| { assert prefix[k] == declarations[k]; }
    }
    if Declares(prefix, symbol) {
      var k :| 0 <= k < |prefix| && prefix[k].symbol == symbol;
      assert declarations[k] == prefix[k];
    }
  }

  /** A symbol is declared exactly when it has a first declaration. */
  lemma {:induction false} DeclaredFirst(declarations: seq<Declaration>, symbol: string)
    ensures Declares(declarations, symbol) <==> FirstDeclaration(declarations, symbol).Some?
  {
    if declarations != [] {
      DeclaredFirst(declarations[..|declarations| - 1], symbol);
      DeclaresSnoc(declarations, symbol);
    }
  }

  /**
   * The kept symbols are the distinct symbols declared, each kept once
   * and remembered at its first declaration.
   */
  lemma {:induction false} DistinctKeepsFirst(declarations: seq<Declaration>, problems: seq<Problem>)
    ensures var d := DistinctSpec(declarations, problems);
      NoDuplicates(d.symbols)
      && (forall s :: s in d.symbols <==> Declares(declarations, s))
      && (forall s :: s in d.seen <==> Declares(declarations, s))
      && (forall s :: s in d.seen ==> Some(d.seen[s]) == FirstDeclaration(declarations, s))
  {
    if declarations != [] {
      var prefix := declarations[..|declarations| - 1];
      DistinctKeepsFirst(prefix, problems);
      forall s ensures Declares(declarations, s) <==> Declares(prefix, s) || declarations[|declarations| - 1].symbol == s {
        DeclaresSnoc(declarations, s);
      }
      forall s ensures Declares(prefix, s) <==> FirstDeclaration(prefix, s).Some? {
        DeclaredFirst(prefix, s);
      }
    }
  }

  /** Every symbol of a declaration list built from names is a normal form. */
  lemma {:induction false} DeclarationsNormalized(names: seq<NameElement>, s: string)
    requires Declares(Declarations(names), s)
    ensures IsNormalized(s)
  {
    var k :| 0 <= k < |names| && Declarations(names)[k].symbol == s;
    DeclarationsAt(names, k);
  }

  /** A symbol is declared by the names exactly when one of them normalises to it. */
  lemma DeclaresName(names: seq<NameElement>, s: string)
    ensures Declares(Declarations(names), s) <==> exists k :: 0 <= k < |names| && Normalize(names[k].name) == s
  {
    if Declares(Declarations(names), s) {
      var k :| 0 <= k < |names| && Declarations(names)[k].symbol == s;
      DeclarationsAt(names, k);
    }
    if exists k :: 0 <= k < |names| && Normalize(names[k].name) == s {
      var k :| 0 <= k < |names| && Normalize(names[k].name) == s;
      DeclarationsAt(names, k);
    }
  }

  /** A name declared again gets a Fatal whose context is where that name was first declared. */
  lemma DuplicateReported(declarations: seq<Declaration>, problems: seq<Problem>)
    requires declarations != []
    requires Declares(declarations[..|declarations| - 1], declarations[|declarations| - 1].symbol)
    ensures var before := DistinctSpec(declarations[..|declarations| - 1], problems);
      var last := declarations[|declarations| - 1];
      var first := FirstDeclaration(declarations[..|declarations| - 1], last.symbol);
      first.Some?
      && DistinctSpec(declarations, problems).symbols == before.symbols
      && DistinctSpec(declarations, problems).problems == before.problems
         + [Problem(Fatal, DuplicateMessage, last.attribution, Some(Context(DuplicateContext, first.value)))]
  {
    DistinctKeepsFirst(declarations[..|declarations| - 1], problems);
    DeclaredFirst(declarations[..|declarations| - 1], declarations[|declarations| - 1].symbol);
  }

  /** The loop of `extract` that keys each name by its normal form and reports repeats. */
  method KeepFirst(names: seq<NameElement>, problems0: seq<Problem>) returns (symbols: seq<string>, problems: seq<Problem>)
    ensures var d := DistinctSpec(Declarations(names), problems0);
      symbols == d.symbols && problems == d.problems
  {
    ghost var declarations := Declarations(names);
    symbols := [];
    var seen: map<string, Attribution> := map[];
    problems := problems0;
    for k := 0 to |names|
      invariant Distinct(symbols, seen, problems) == DistinctSpec(declarations[..k], problems0)
    {
      DistinctStep(declarations, k, problems0);
      DeclarationsAt(names, k);
      var name := names[k];
      var n := Normalize(name.name);
      if n in seen {
        problems := problems + [WithContext(NewFatal(DuplicateMessage, name.attribution), DuplicateContext, seen[n])];
      } else {
        symbols := symbols + [n];
        seen := seen[n := name.attribution];
      }
    }
    assert declarations[..|names|] == declarations;
  }

  // ---------------------------------------------------------------------
  // `require`

  /**
   * `require`: the normal form of the name, always, and one Fatal at the
   * name exactly when the list does not hold it.
   */
  function Require(symbols: seq<string>, name: NameElement, problems: seq<Problem>): (r: (string, seq<Problem>))
    ensures r.0 == Normalize(name.name)
    ensures |problems| <= |r.1| && r.1[..|problems|] == problems
    ensures |r.1| == |problems| + 1 <==> Normalize(name.name) !in symbols
    ensures |r.1| == |problems| <==> Normalize(name.name) in symbols
    ensures |r.1| > |problems| ==> r.1[|problems|] == NewFatal(RequireMessage, name.attribution)
  {
    var n := Normalize(name.name);
    if n !in symbols then (n, problems + [NewFatal(RequireMessage, name.attribution)]) else (n, problems)
  }

}
