/**
 * The symbol table (compiler/src/symbol.rs): the normalised names of every
 * quality, value, storylet and location, kept in descending order so that
 * the first symbol `starts_with` finds is the longest one.
 */
module Symbols {
  import opened Common

  // ---------------------------------------------------------------------
  // Normalisation

  /** Each maximal run of whitespace becomes a single space. */
  function Collapse(s: string): (r: string)
    ensures |r| <= |s|
    ensures forall i :: 0 <= i < |r| && IsWhitespace(r[i]) ==> r[i] == ' '
    ensures forall i :: 0 <= i < |r| - 1 ==> !(r[i] == ' ' && r[i + 1] == ' ')
    ensures r == [] <==> s == []
    ensures r != [] ==> (r[0] == ' ' <==> IsWhitespace(s[0]))
    ensures r != [] ==> (r[|r| - 1] == ' ' <==> IsWhitespace(s[|s| - 1]))
    decreases |s|
  {
    if s == [] then []
    else if IsWhitespace(s[0]) then
      var rest := TrimStart(s[1..]);
      var tail := Collapse(rest);
      assert rest == [] ==> IsWhitespace(s[|s| - 1]) by {
        if rest == [] && |s| > 1 { assert IsWhitespace(s[1..][|s| - 2]); }
      }
      assert rest != [] ==> rest[|rest| - 1] == s[|s| - 1];
      [' '] + tail
    else
      var tail := Collapse(s[1..]);
      assert tail != [] ==> s[1..][|s| - 2] == s[|s| - 1];
      [s[0]] + tail
  }

  /** The name as the symbol table stores it: trimmed, collapsed, lower-cased. */
  function Normalize(s: string): (r: string)
    ensures IsNormalized(r)
  {
    var t := Trim(s);
    var c := Collapse(t);
    LowercaseNormalized(c);
    Lowercase(c)
  }

  /** Lower-casing never turns a character into or out of whitespace, and is idempotent. */
  lemma ToLowerKeepsSpacing(c: char)
    ensures IsWhitespace(ToLower(c)) <==> IsWhitespace(c)
    ensures ToLower(c) == ' ' <==> c == ' '
    ensures ToLower(ToLower(c)) == ToLower(c)
  {
  }

  /** Lower-casing a collapsed, trimmed text gives a normalised name. */
  lemma LowercaseNormalized(c: string)
    requires forall i :: 0 <= i < |c| && IsWhitespace(c[i]) ==> c[i] == ' '
    requires forall i :: 0 <= i < |c| - 1 ==> !(c[i] == ' ' && c[i + 1] == ' ')
    requires c == [] || (c[0] != ' ' && c[|c| - 1] != ' ')
    ensures IsNormalized(Lowercase(c))
  {
    var r := Lowercase(c);
    forall i | 0 <= i < |r|
      ensures (IsWhitespace(r[i]) ==> r[i] == ' ') && (r[i] == ' ' <==> c[i] == ' ')
      ensures ToLower(r[i]) == r[i]
    {
      ToLowerKeepsSpacing(c[i]);
    }
    assert r == [] || (r[0] != ' ' && r[|r| - 1] != ' ');
    assert forall i :: 0 <= i < |r| - 1 ==> !(r[i] == ' ' && r[i + 1] == ' ');
    assert IsCollapsed(r);
  }

  /**
   * A normalised name: its only whitespace is single inner spaces, and
   * lower-casing leaves it unchanged.
   */
  predicate IsNormalized(s: string)
  {
    IsCollapsed(s) && forall i :: 0 <= i < |s| ==> ToLower(s[i]) == s[i]
  }

  /** Trimmed, and its only whitespace is single spaces. */
  predicate IsCollapsed(s: string)
  {
    (forall i :: 0 <= i < |s| && IsWhitespace(s[i]) ==> s[i] == ' ')
    && (s == [] || (s[0] != ' ' && s[|s| - 1] != ' '))
    && (forall i :: 0 <= i < |s| - 1 ==> !(s[i] == ' ' && s[i + 1] == ' '))
  }

  lemma CollapsedSuffix(s: string, k: nat)
    requires IsCollapsed(s) && k < |s| && s[k] != ' '
    ensures IsCollapsed(s[k..])
  {
  }

  lemma CollapseKeeps(s: string)
    requires s != [] && !IsWhitespace(s[0])
    ensures Collapse(s) == [s[0]] + Collapse(s[1..])
  {
  }

  lemma CollapseSpace(s: string)
    requires |s| > 1 && s[0] == ' ' && !IsWhitespace(s[1])
    ensures Collapse(s) == [' '] + Collapse(s[1..])
  {
    assert TrimStart(s[1..]) == s[1..];
  }

  lemma {:induction false} CollapseNormalized(s: string)
    requires IsCollapsed(s)
    ensures Collapse(s) == s
    decreases |s|
  {
    if s != [] {
      assert !IsWhitespace(s[0]);
      CollapseKeeps(s);
      if |s| == 1 {
        assert s[1..] == [];
      } else if s[1] == ' ' {
        CollapseNormalizedSpace(s);
        assert s == [s[0]] + s[1..];
      } else {
        CollapsedSuffix(s, 1);
        CollapseNormalized(s[1..]);
        assert s == [s[0]] + s[1..];
      }
    }
  }

  lemma {:induction false} CollapseNormalizedSpace(s: string)
    requires IsCollapsed(s) && |s| > 1 && s[1] == ' '
    ensures Collapse(s[1..]) == s[1..]
    decreases |s|, 0
  {
    // The space is followed by a non-space character.
    assert |s| > 2 && s[2] != ' ';
    CollapsedSuffix(s, 2);
    CollapseNormalized(s[2..]);
    var t := s[1..];
    assert t[1..] == s[2..];
    CollapseSpace(t);
    assert t == [' '] + t[1..];
  }

  /** A collapsed name only needs lower-casing. */
  lemma NormalizeCollapsed(s: string)
    requires IsCollapsed(s)
    ensures Normalize(s) == Lowercase(s)
  {
    assert Trim(s) == s by {
      assert TrimStart(s) == s;
      assert TrimEnd(s) == s;
    }
    CollapseNormalized(s);
  }

  /** Normalising a normalised name changes nothing. */
  lemma NormalizeIdempotent(s: string)
    ensures Normalize(Normalize(s)) == Normalize(s)
  {
    var n := Normalize(s);
    NormalizeCollapsed(n);
    assert Lowercase(n) == n;
  }

  // ---------------------------------------------------------------------
  // Descending order

  /** Rust's `Ord` on `String`: lexicographic by code point. */
  predicate LexLess(a: string, b: string)
    decreases |a|
  {
    |b| > 0 && (|a| == 0 || a[0] < b[0] || (a[0] == b[0] && LexLess(a[1..], b[1..])))
  }

  lemma LexLessIrreflexive(a: string)
    ensures !LexLess(a, a)
  {
  }

  lemma LexLessTransitive(a: string, b: string, c: string)
    requires LexLess(a, b) && LexLess(b, c)
    ensures LexLess(a, c)
  {
  }

  lemma LexLessTotal(a: string, b: string)
    requires a != b
    ensures LexLess(a, b) || LexLess(b, a)
  {
    if |a| > 0 && |b| > 0 && a[0] == b[0] {
      assert a == [a[0]] + a[1..] && b == [b[0]] + b[1..];
      LexLessTotal(a[1..], b[1..]);
    }
  }

  /** A proper prefix sorts before the string it begins. */
  lemma PrefixLexLess(a: string, b: string)
    requires |a| < |b| && b[..|a|] == a
    ensures LexLess(a, b)
  {
    if |a| > 0 {
      assert b[1..][..|a| - 1] == a[1..];
      PrefixLexLess(a[1..], b[1..]);
    }
  }

  predicate StrictlyDescending(s: seq<string>)
  {
    forall i, j :: 0 <= i < j < |s| ==> LexLess(s[j], s[i])
  }

  /** Insert `x` in front of the first element it is greater than. */
  function InsertDescending(s: seq<string>, x: string): (r: seq<string>)
    ensures multiset(r) == multiset(s) + multiset{x}
  {
    if s == [] then [x]
    else if LexLess(s[0], x) then [x] + s
    else
      assert s == [s[0]] + s[1..];
      [s[0]] + InsertDescending(s[1..], x)
  }

  lemma {:induction false} InsertDescendingSorted(s: seq<string>, x: string)
    requires StrictlyDescending(s) && x !in s
    ensures StrictlyDescending(InsertDescending(s, x))
  {
    if s != [] {
      if LexLess(s[0], x) {
        forall j | 1 <= j < |s| + 1 ensures LexLess(([x] + s)[j], x) {
          if j > 1 { LexLessTransitive(s[j - 1], s[0], x); }
        }
      } else {
        LexLessTotal(s[0], x);
        InsertDescendingSorted(s[1..], x);
        var r := InsertDescending(s[1..], x);
        assert multiset(r) == multiset(s[1..]) + multiset{x};
        forall j | 0 <= j < |r| ensures LexLess(r[j], s[0]) {
          assert r[j] in multiset(r);
          if r[j] != x {
            assert r[j] in multiset(s[1..]);
            var k :| 0 <= k < |s[1..]| && s[1..][k] == r[j];
            assert s[k + 1] == r[j];
          }
        }
      }
    }
  }

  /** `sort_unstable` followed by `reverse`: the elements in descending order. */
  function SortDescending(s: seq<string>): (r: seq<string>)
    ensures multiset(r) == multiset(s)
  {
    if s == [] then []
    else
      assert s == s[..|s| - 1] + [s[|s| - 1]];
      InsertDescending(SortDescending(s[..|s| - 1]), s[|s| - 1])
  }

  predicate NoDuplicates(s: seq<string>)
  {
    forall i, j :: 0 <= i < j < |s| ==> s[i] != s[j]
  }

  lemma {:induction false} SortDescendingSorted(s: seq<string>)
    requires NoDuplicates(s)
    ensures StrictlyDescending(SortDescending(s))
  {
    if s != [] {
      var init := s[..|s| - 1];
      SortDescendingSorted(init);
      var sorted := SortDescending(init);
      assert forall k :: 0 <= k < |init| ==> init[k] == s[k];
      assert s[|s| - 1] !in init;
      assert s[|s| - 1] !in multiset(sorted);
      InsertDescendingSorted(sorted, s[|s| - 1]);
    }
  }

  lemma MultisetTail(a: seq<string>)
    requires a != []
    ensures multiset(a[1..]) == multiset(a) - multiset{a[0]}
  {
    assert a == [a[0]] + a[1..];
  }

  /** The head of a strictly descending list is greater than every later element. */
  lemma HeadGreatest(a: seq<string>, x: string)
    requires StrictlyDescending(a) && x in a && x != a[0]
    ensures LexLess(x, a[0])
  {
  }

  lemma SameHead(a: seq<string>, b: seq<string>)
    requires StrictlyDescending(a) && StrictlyDescending(b)
    requires a != [] && multiset(a) == multiset(b)
    ensures b != [] && a[0] == b[0]
  {
    assert a[0] in multiset(b);
    assert b[0] in multiset(a);
    if a[0] != b[0] {
      HeadGreatest(a, b[0]);
      HeadGreatest(b, a[0]);
      LexLessTransitive(a[0], b[0], a[0]);
      LexLessIrreflexive(a[0]);
    }
  }

  /** Two strictly descending lists with the same elements are the same list. */
  lemma {:induction false} DescendingUnique(a: seq<string>, b: seq<string>)
    requires StrictlyDescending(a) && StrictlyDescending(b)
    requires multiset(a) == multiset(b)
    ensures a == b
    decreases |a|
  {
    if a == [] {
      assert |multiset(b)| == 0;
    } else {
      SameHead(a, b);
      MultisetTail(a);
      MultisetTail(b);
      DescendingUnique(a[1..], b[1..]);
      assert a == [a[0]] + a[1..] && b == [b[0]] + b[1..];
    }
  }

  // ---------------------------------------------------------------------
  // Matching a symbol at the start of a source text

  function ConsumeOne(r: Option<nat>): Option<nat>
  {
    if r.Some? then Some(r.value + 1) else None
  }

  /**
   * The inner loop of `starts_with` reading `symbol` against `source`: the
   * number of source characters consumed when the symbol matches, None
   * otherwise. `whitespace` records that whitespace was read since the last
   * matched character. A source whitespace run stands for the symbol's
   * single space, source letters are compared after ASCII lower-casing, and
   * the match ends as soon as the symbol is used up.
   */
  function MatchFrom(source: string, symbol: string, whitespace: bool): (r: Option<nat>)
    ensures r.Some? ==> r.value <= |source|
    decreases |source|
  {
    if source == [] then
      if symbol == [] then Some(0) else None
    else if IsWhitespace(source[0]) then
      ConsumeOne(MatchFrom(source[1..], symbol, true))
    else if symbol == [] then Some(0)
    else
      var c := ToAsciiLower(source[0]);
      if whitespace then
        if !IsWhitespace(symbol[0]) then None
        else if |symbol| == 1 then Some(0)
        else if c == symbol[1] then ConsumeOne(MatchFrom(source[1..], symbol[2..], false))
        else if |symbol| == 2 then Some(0)
        else None
      else if c == symbol[0] then ConsumeOne(MatchFrom(source[1..], symbol[1..], false))
      else None
  }

  /** The first symbol, in list order, that matches; with the characters it consumes. */
  function FirstMatch(symbols: seq<string>, source: string): (r: Option<(nat, string)>)
    ensures r.Some? ==> r.value.0 <= |source| && r.value.1 in symbols
    ensures r.Some? ==> MatchFrom(source, r.value.1, false) == Some(r.value.0)
  {
    if symbols == [] then None
    else
      match MatchFrom(source, symbols[0], false)
      case Some(k) => Some((k, symbols[0]))
      case None => FirstMatch(symbols[1..], source)
  }

  /** Nothing matches exactly when no symbol of the list matches. */
  lemma {:induction false} FirstMatchNone(symbols: seq<string>, source: string)
    ensures FirstMatch(symbols, source).None? <==>
      forall i :: 0 <= i < |symbols| ==> MatchFrom(source, symbols[i], false).None?
  {
    if symbols != [] {
      FirstMatchNone(symbols[1..], source);
      assert forall i :: 1 <= i < |symbols| ==> symbols[i] == symbols[1..][i - 1];
    }
  }

  /** What `starts_with` returns: bytes consumed and the canonical symbol. */
  function StartsWithSpec(symbols: seq<string>, source: string): Option<(nat, string)>
  {
    match FirstMatch(symbols, source)
    case None => None
    case Some((k, symbol)) => Some((Utf8Length(source[..k]), symbol))
  }

  /** The first match comes from the earliest matching index. */
  lemma {:induction false} FirstMatchIsEarliest(symbols: seq<string>, source: string, i: nat)
    requires i < |symbols| && MatchFrom(source, symbols[i], false).Some?
    ensures FirstMatch(symbols, source).Some?
    ensures exists j :: (0 <= j <= i && FirstMatch(symbols, source).value.1 == symbols[j]
      && forall k :: 0 <= k < j ==> MatchFrom(source, symbols[k], false).None?)
  {
    if MatchFrom(source, symbols[0], false).Some? {
      assert FirstMatch(symbols, source).value.1 == symbols[0];
    } else {
      assert symbols[1..][i - 1] == symbols[i];
      FirstMatchIsEarliest(symbols[1..], source, i - 1);
      var j :| 0 <= j <= i - 1 && FirstMatch(symbols[1..], source).value.1 == symbols[1..][j]
        && forall k :: 0 <= k < j ==> MatchFrom(source, symbols[1..][k], false).None?;
      forall k | 0 <= k < j + 1 ensures MatchFrom(source, symbols[k], false).None? {
        if k > 0 { assert symbols[k] == symbols[1..][k - 1]; }
      }
    }
  }

  /**
   * Longest match: in a descending list, a symbol that extends the winner
   * comes earlier, so when it also matches it is the one returned.
   */
  lemma LongerSymbolWins(symbols: seq<string>, source: string, longer: string)
    requires StrictlyDescending(symbols) && NoDuplicates(symbols)
    requires longer in symbols && MatchFrom(source, longer, false).Some?
    requires FirstMatch(symbols, source).Some?
    ensures var winner := FirstMatch(symbols, source).value.1;
      !(|winner| < |longer| && longer[..|winner|] == winner)
  {
    var winner := FirstMatch(symbols, source).value.1;
    var i :| 0 <= i < |symbols| && symbols[i] == longer;
    FirstMatchIsEarliest(symbols, source, i);
    var j :| 0 <= j <= i && winner == symbols[j]
      && forall k :: 0 <= k < j ==> MatchFrom(source, symbols[k], false).None?;
    if |winner| < |longer| && longer[..|winner|] == winner {
      PrefixLexLess(winner, longer);
      if j == i {
        LexLessIrreflexive(winner);
      } else {
        LexLessTransitive(symbols[j], symbols[i], symbols[j]);
        LexLessIrreflexive(symbols[j]);
      }
    }
  }

  /**
   * Reading a normalised symbol's text from position `i` to `k`, followed by
   * anything, consumes exactly those characters and leaves the rest of the
   * symbol to be matched against what follows.
   */
  lemma {:induction false} MatchThrough(symbol: string, i: nat, k: nat, rest: string)
    requires IsNormalized(symbol) && i <= k <= |symbol|
    requires i < k ==> symbol[i] != ' ' && symbol[k - 1] != ' '
    ensures MatchFrom(symbol[i..k] + rest, symbol[i..], false)
      == AddTo(k - i, MatchFrom(rest, symbol[k..], false))
    decreases k - i
  {
    var s := symbol[i..k] + rest;
    var t := symbol[i..];
    if i == k {
      assert s == rest && t == symbol[k..];
    } else {
      assert s[0] == symbol[i] && t[0] == symbol[i];
      assert !IsWhitespace(s[0]);
      assert ToAsciiLower(s[0]) == s[0] by {
        assert ToLower(symbol[i]) == symbol[i];
      }
      assert MatchFrom(s, t, false) == ConsumeOne(MatchFrom(s[1..], t[1..], false));
      if i + 1 == k {
        assert s[1..] == rest && t[1..] == symbol[k..];
      } else if symbol[i + 1] != ' ' {
        assert s[1..] == symbol[i + 1..k] + rest && t[1..] == symbol[i + 1..];
        MatchThrough(symbol, i + 1, k, rest);
      } else {
        // A single inner space, then a non-space character.
        assert i + 2 < k && symbol[i + 2] != ' ';
        var s2 := symbol[i + 2..k] + rest;
        var t2 := symbol[i + 2..];
        assert s[1..][0] == ' ' && s[1..][1..] == s2;
        assert t[1..][0] == ' ' && t[1..][2..] == t2[1..] && t[1..][1] == t2[0];
        assert s2[0] == symbol[i + 2] && t2[0] == symbol[i + 2];
        assert !IsWhitespace(s2[0]) && ToAsciiLower(s2[0]) == s2[0] by {
          assert ToLower(symbol[i + 2]) == symbol[i + 2];
        }
        MatchThrough(symbol, i + 2, k, rest);
        assert MatchFrom(s2, t2, false) == ConsumeOne(MatchFrom(s2[1..], t2[1..], false));
        assert MatchFrom(s[1..], t[1..], false) == ConsumeOne(MatchFrom(s2, t[1..], true));
        assert MatchFrom(s2, t[1..], true) == ConsumeOne(MatchFrom(s2[1..], t2[1..], false));
      }
    }
  }

  /** The length of the leading whitespace run of `s`. */
  function LeadingWhitespace(s: string): (n: nat)
    ensures n <= |s|
    ensures forall i :: 0 <= i < n ==> IsWhitespace(s[i])
    ensures n < |s| ==> !IsWhitespace(s[n])
  {
    if s != [] && IsWhitespace(s[0]) then 1 + LeadingWhitespace(s[1..]) else 0
  }

  /** Once the symbol is used up, only the whitespace that follows is consumed. */
  lemma {:induction false} MatchEmptySymbol(source: string, w: bool)
    ensures MatchFrom(source, [], w) == Some(LeadingWhitespace(source))
    decreases |source|
  {
    if source != [] && IsWhitespace(source[0]) {
      MatchEmptySymbol(source[1..], true);
    }
  }

  /**
   * A normalised symbol matches its own text followed by anything, and the
   * consumed length includes the whitespace read past the symbol.
   */
  lemma {:induction false} SymbolMatchesPrefix(symbol: string, rest: string)
    requires IsNormalized(symbol)
    ensures MatchFrom(symbol + rest, symbol, false) == Some(|symbol| + LeadingWhitespace(rest))
  {
    assert symbol[0..|symbol|] == symbol && symbol[0..] == symbol && symbol[|symbol|..] == [];
    MatchThrough(symbol, 0, |symbol|, rest);
    MatchEmptySymbol(rest, false);
  }

  /** A normalised symbol is not matched by a proper prefix of its own text. */
  lemma {:induction false} SymbolNotMatchedByPrefix(symbol: string, k: nat)
    requires IsNormalized(symbol) && 0 < k < |symbol| && symbol[k - 1] != ' '
    ensures MatchFrom(symbol[..k], symbol, false).None?
  {
    MatchThrough(symbol, 0, k, []);
    assert symbol[0..k] + [] == symbol[..k] && symbol[0..] == symbol;
  }

  /** A run of source whitespace, of any length and kind, matches one symbol space. */
  lemma {:induction false} WhitespaceRunMatchesSpace(run: string, rest: string, t: string, w: bool)
    requires run != [] && forall i :: 0 <= i < |run| ==> IsWhitespace(run[i])
    requires rest != [] && !IsWhitespace(rest[0]) && t != [] && ToAsciiLower(rest[0]) == t[0]
    ensures MatchFrom(run + rest, [' '] + t, w) == AddTo(|run| + 1, MatchFrom(rest[1..], t[1..], false))
    decreases |run|
  {
    var s := run + rest;
    assert s[0] == run[0] && s[1..] == run[1..] + rest;
    if |run| == 1 {
      assert s[1..] == rest;
      assert ([' '] + t)[1] == t[0] && ([' '] + t)[2..] == t[1..];
    } else {
      WhitespaceRunMatchesSpace(run[1..], rest, t, true);
    }
  }

  /** Matching only looks at ASCII case-folded source characters. */
  lemma {:induction false} MatchIgnoresAsciiCase(s1: string, s2: string, symbol: string, w: bool)
    requires AsciiLowercase(s1) == AsciiLowercase(s2)
    ensures MatchFrom(s1, symbol, w) == MatchFrom(s2, symbol, w)
    decreases |s1|
  {
    assert |s1| == |s2|;
    if s1 != [] {
      assert ToAsciiLower(s1[0]) == ToAsciiLower(s2[0]);
      assert IsWhitespace(s1[0]) <==> IsWhitespace(s2[0]);
      assert AsciiLowercase(s1[1..]) == AsciiLowercase(s2[1..]) by {
        assert AsciiLowercase(s1)[1..] == AsciiLowercase(s1[1..]);
        assert AsciiLowercase(s2)[1..] == AsciiLowercase(s2[1..]);
      }
      if symbol != [] && |symbol| >= 2 {
        MatchIgnoresAsciiCase(s1[1..], s2[1..], symbol[2..], false);
      }
      if symbol != [] {
        MatchIgnoresAsciiCase(s1[1..], s2[1..], symbol[1..], false);
      }
      MatchIgnoresAsciiCase(s1[1..], s2[1..], symbol, true);
    }
  }

  // ---------------------------------------------------------------------
  // The symbol list

  /** A list as every constructor leaves it: normalised names in strictly descending order. */
  predicate ValidSymbols(symbols: seq<string>)
  {
    StrictlyDescending(symbols) && forall i :: 0 <= i < |symbols| ==> IsNormalized(symbols[i])
  }

  /** The list after `push`: the normalised name joins it unless already present. */
  function Pushed(symbols: seq<string>, name: string): seq<string>
  {
    var n := Normalize(name);
    if n in symbols then symbols else SortDescending(symbols + [n])
  }

  lemma StrictlyDescendingNoDuplicates(s: seq<string>)
    requires StrictlyDescending(s)
    ensures NoDuplicates(s)
  {
    forall i, j | 0 <= i < j < |s| ensures s[i] != s[j] {
      if s[i] == s[j] { LexLessIrreflexive(s[i]); }
    }
  }

  /** `push` keeps the list valid and adds exactly the normalised name. */
  lemma PushedValid(symbols: seq<string>, name: string)
    requires ValidSymbols(symbols)
    ensures ValidSymbols(Pushed(symbols, name))
    ensures multiset(Pushed(symbols, name)) == multiset(symbols)
      + (if Normalize(name) in symbols then multiset{} else multiset{Normalize(name)})
  {
    var n := Normalize(name);
    if n !in symbols {
      var s := symbols + [n];
      StrictlyDescendingNoDuplicates(symbols);
      assert NoDuplicates(s);
      SortDescendingSorted(s);
      var r := SortDescending(s);
      forall i | 0 <= i < |r| ensures IsNormalized(r[i]) {
        assert r[i] in multiset(s);
        var k :| 0 <= k < |s| && s[k] == r[i];
      }
    }
  }

  /** Pushing a name makes `contains` true for it, and pushing it again changes nothing. */
  lemma PushedContains(symbols: seq<string>, name: string)
    ensures Normalize(name) in Pushed(symbols, name)
    ensures Pushed(Pushed(symbols, name), name) == Pushed(symbols, name)
  {
    var n := Normalize(name);
    if n !in symbols {
      assert n in multiset(Pushed(symbols, name));
    }
  }

  /** Sorting an already descending list gives it back: the insertion order is irrelevant. */
  lemma SortKeepsDescending(s: seq<string>)
    requires StrictlyDescending(s)
    ensures SortDescending(s) == s
  {
    StrictlyDescendingNoDuplicates(s);
    SortDescendingSorted(s);
    DescendingUnique(SortDescending(s), s);
  }

  class SymbolList {
    var symbols: seq<string>

    /** `SymbolList::new`. */
    constructor ()
      ensures symbols == []
    {
      symbols := [];
    }

    /** A list holding exactly the given, already sorted, symbols (what `build` produces). */
    constructor FromSorted(sorted: seq<string>)
      ensures symbols == sorted
    {
      symbols := sorted;
    }

    method Push(name: string)
      modifies this
      ensures symbols == Pushed(old(symbols), name)
    {
      var n := Normalize(name);
      if n !in symbols {
        symbols := SortDescending(symbols + [n]);
      }
    }

    /** `contains`: whether the name's normal form is in the list. */
    function Contains(name: string): (r: bool)
      reads this
      ensures r <==> exists i :: 0 <= i < |symbols| && symbols[i] == Normalize(name)
    {
      Normalize(name) in symbols
    }

    /**
     * `starts_with`: try each symbol in order, reading the source while the
     * symbol keeps matching; returns the UTF-8 bytes consumed and the symbol.
     */
    method StartsWith(source: string) returns (r: Option<(nat, string)>)
      ensures r == StartsWithSpec(symbols, source)
    {
      var i := 0;
      while i < |symbols|
        invariant 0 <= i <= |symbols|
        invariant FirstMatch(symbols, source) == FirstMatch(symbols[i..], source)
      {
        var length := MatchSymbol(source, symbols[i]);
        if length.Some? {
          r := Some((length.value, symbols[i]));
          FirstMatchHere(symbols, source, i);
          return;
        }
        FirstMatchSkip(symbols, source, i);
        i := i + 1;
      }
      r := None;
    }
  }

  /** One symbol against the start of `source`: the bytes matched, if it matches. */
  method MatchSymbol(source: string, symbol: string) returns (r: Option<nat>)
    ensures MatchFrom(source, symbol, false).None? ==> r.None?
    ensures MatchFrom(source, symbol, false).Some? ==>
      r == Some(Utf8Length(source[..MatchFrom(source, symbol, false).value]))
  {
    var si, ti := 0, 0;
    var whitespace := false;
    var length := 0;
    var matched := true;
    ghost var total := MatchFrom(source, symbol, false);
    while si < |source|
      invariant 0 <= si <= |source| && 0 <= ti <= |symbol|
      invariant length == Utf8Length(source[..si])
      invariant total == AddTo(si, MatchFrom(source[si..], symbol[ti..], whitespace))
    {
      MatchFromAt(source, symbol, whitespace, si, ti);
      var c := source[si];
      if IsWhitespace(c) {
        whitespace := true;
        length := length + Utf8Len(c);
        Utf8PrefixStep(source, si);
        AddToConsumed(si, MatchFrom(source[si + 1..], symbol[ti..], true));
        si := si + 1;
        assert total == AddTo(si, MatchFrom(source[si..], symbol[ti..], whitespace));
        continue;
      }
      var lower := ToAsciiLower(c);
      if ti < |symbol| {
        var sc := symbol[ti];
        ti := ti + 1;
        if whitespace {
          whitespace := false;
          if IsWhitespace(sc) {
            if ti < |symbol| {
              var sc2 := symbol[ti];
              ti := ti + 1;
              if lower == sc2 {
                length := length + Utf8Len(c);
                Utf8PrefixStep(source, si);
                AddToConsumed(si, MatchFrom(source[si + 1..], symbol[ti..], false));
                si := si + 1;
                assert total == AddTo(si, MatchFrom(source[si..], symbol[ti..], whitespace));
              } else {
                // A mismatch after a space leaves `matched` set.
                break;
              }
            } else {
              return Some(length);
            }
          } else {
            matched := false;
            break;
          }
        } else if lower == sc {
          length := length + Utf8Len(c);
          Utf8PrefixStep(source, si);
          AddToConsumed(si, MatchFrom(source[si + 1..], symbol[ti..], false));
          si := si + 1;
          assert total == AddTo(si, MatchFrom(source[si..], symbol[ti..], whitespace));
        } else {
          matched := false;
          break;
        }
      } else {
        return Some(length);
      }
    }
    if ti == |symbol| && matched {
      return Some(length);
    }
    return None;
  }

  /** One step of `MatchFrom` at positions `si` and `ti`. */
  lemma MatchFromAt(source: string, symbol: string, whitespace: bool, si: nat, ti: nat)
    requires si < |source| && ti <= |symbol|
    ensures IsWhitespace(source[si]) ==>
      MatchFrom(source[si..], symbol[ti..], whitespace) == ConsumeOne(MatchFrom(source[si + 1..], symbol[ti..], true))
    ensures !IsWhitespace(source[si]) && ti == |symbol| ==>
      MatchFrom(source[si..], symbol[ti..], whitespace) == Some(0)
    ensures !IsWhitespace(source[si]) && ti < |symbol| && whitespace && !IsWhitespace(symbol[ti]) ==>
      MatchFrom(source[si..], symbol[ti..], whitespace).None?
    ensures !IsWhitespace(source[si]) && ti + 1 == |symbol| && whitespace && IsWhitespace(symbol[ti]) ==>
      MatchFrom(source[si..], symbol[ti..], whitespace) == Some(0)
    ensures !IsWhitespace(source[si]) && ti + 1 < |symbol| && whitespace && IsWhitespace(symbol[ti]) ==>
      MatchFrom(source[si..], symbol[ti..], whitespace) ==
        if ToAsciiLower(source[si]) == symbol[ti + 1] then ConsumeOne(MatchFrom(source[si + 1..], symbol[ti + 2..], false))
        else if ti + 2 == |symbol| then Some(0)
        else None
    ensures !IsWhitespace(source[si]) && ti < |symbol| && !whitespace ==>
      MatchFrom(source[si..], symbol[ti..], whitespace) ==
        if ToAsciiLower(source[si]) == symbol[ti] then ConsumeOne(MatchFrom(source[si + 1..], symbol[ti + 1..], false))
        else None
  {
    assert source[si..][0] == source[si] && source[si..][1..] == source[si + 1..];
    if ti < |symbol| {
      assert symbol[ti..][0] == symbol[ti] && symbol[ti..][1..] == symbol[ti + 1..];
      if ti + 1 < |symbol| {
        assert symbol[ti..][1] == symbol[ti + 1] && symbol[ti..][2..] == symbol[ti + 2..];
      }
    }
  }

  function AddTo(k: nat, r: Option<nat>): Option<nat>
  {
    if r.Some? then Some(k + r.value) else None
  }

  lemma AddToConsumed(k: nat, r: Option<nat>)
    ensures AddTo(k, ConsumeOne(r)) == AddTo(k + 1, r)
  {
  }

  lemma FirstMatchHere(symbols: seq<string>, source: string, i: nat)
    requires i < |symbols| && MatchFrom(source, symbols[i], false).Some?
    ensures FirstMatch(symbols[i..], source) == Some((MatchFrom(source, symbols[i], false).value, symbols[i]))
  {
    assert symbols[i..][0] == symbols[i];
  }

  lemma FirstMatchSkip(symbols: seq<string>, source: string, i: nat)
    requires i < |symbols| && MatchFrom(source, symbols[i], false).None?
    ensures FirstMatch(symbols[i..], source) == FirstMatch(symbols[i + 1..], source)
  {
    assert symbols[i..][0] == symbols[i];
    assert symbols[i..][1..] == symbols[i + 1..];
  }

  /** `SymbolListBuilder`: names are collected without duplicates and sorted once by `build`. */
  datatype SymbolListBuilder = SymbolListBuilder(symbols: seq<string>)
  {
    function Push(name: string): (r: SymbolListBuilder)
      ensures Normalize(name) in r.symbols
      ensures NoDuplicates(symbols) ==> NoDuplicates(r.symbols)
      ensures multiset(r.symbols) == multiset(symbols)
        + (if Normalize(name) in symbols then multiset{} else multiset{Normalize(name)})
    {
      var n := Normalize(name);
      if n in symbols then this else SymbolListBuilder(symbols + [n])
    }

    method Build() returns (list: SymbolList)
      ensures fresh(list) && list.symbols == SortDescending(symbols)
    {
      list := new SymbolList.FromSorted(SortDescending(symbols));
    }
  }

  /** Every name a builder holds is normalised, and `build` yields a valid list. */
  lemma BuiltValid(b: SymbolListBuilder)
    requires NoDuplicates(b.symbols)
    requires forall i :: 0 <= i < |b.symbols| ==> IsNormalized(b.symbols[i])
    ensures ValidSymbols(SortDescending(b.symbols))
  {
    SortDescendingSorted(b.symbols);
    var r := SortDescending(b.symbols);
    forall i | 0 <= i < |r| ensures IsNormalized(r[i]) {
      assert r[i] in multiset(b.symbols);
      var k :| 0 <= k < |b.symbols| && b.symbols[k] == r[i];
    }
  }

  // ---------------------------------------------------------------------
  // The examples of compiler/src/symbol.rs's tests

  lemma AsciiUtf8Length(s: string)
    requires IsAscii(s)
    ensures Utf8Length(s) == |s|
  {
    EncodeAscii(s);
  }

  lemma RiverNamesNormalized(short: string, long: string)
    requires short == "a river" && long == "a river in space"
    ensures IsNormalized(short) && IsNormalized(long)
  {
  }

  /** Built from "a river" and "a river in space", the longer name comes first. */
  lemma RiverList(short: string, long: string)
    requires short == "a river" && long == "a river in space"
    ensures SortDescending([short, long]) == [long, short]
  {
    assert long[..|short|] == short;
    PrefixLexLess(short, long);
    assert [short, long][..1] == [short] && [short][..0] == [];
  }

  /** "a riv" matches neither symbol. */
  lemma PartialNameMatchesNothing(short: string, long: string, partial: string)
    requires short == "a river" && long == "a river in space" && partial == "a riv"
    ensures StartsWithSpec([long, short], partial) == None
  {
    RiverNamesNormalized(short, long);
    SymbolNotMatchedByPrefix(long, 5);
    SymbolNotMatchedByPrefix(short, 5);
    assert long[..5] == partial && short[..5] == partial;
    assert forall i :: 0 <= i < 2 ==> [long, short][i] in {long, short};
  }

  /** "a river" matches the shorter symbol, consuming 7 bytes. */
  lemma ExactShortName(short: string, long: string)
    requires short == "a river" && long == "a river in space"
    ensures StartsWithSpec([long, short], short) == Some((7, short))
  {
    RiverNamesNormalized(short, long);
    SymbolNotMatchedByPrefix(long, 7);
    assert long[..7] == short;
    SymbolMatchesPrefix(short, []);
    assert short + [] == short;
    AsciiPrefixLength(short, 7);
    assert short[..7] == short;
    assert MatchFrom(short, long, false).None? && MatchFrom(short, short, false) == Some(7);
    assert [long, short][1..] == [short];
    assert FirstMatch([short], short) == Some((7, short));
    assert FirstMatch([long, short], short) == Some((7, short));
  }

  /** "a river in space" matches the longer symbol, consuming 16 bytes. */
  lemma ExactLongName(short: string, long: string)
    requires short == "a river" && long == "a river in space"
    ensures StartsWithSpec([long, short], long) == Some((16, long))
  {
    LongMatchesItself(short, long);
    AsciiPrefixLength(long, 16);
  }

  lemma LongMatchesItself(short: string, long: string)
    requires short == "a river" && long == "a river in space"
    ensures MatchFrom(long, long, false) == Some(16)
  {
    RiverNamesNormalized(short, long);
    SymbolMatchesPrefix(long, []);
    assert long + [] == long;
  }

  lemma AsciiPrefixLength(s: string, k: nat)
    requires IsAscii(s) && k <= |s|
    ensures Utf8Length(s[..k]) == k
  {
    AsciiUtf8Length(s[..k]);
  }

  lemma TimeMissesSpace(short: string, long: string, source: string)
    requires short == "a river" && long == "a river in space" && source == "a river in time"
    ensures MatchFrom(source, long, false) == None
  {
    RiverNamesNormalized(short, long);
    MatchThrough(long, 0, 10, " time");
    assert long[0..10] + " time" == source;
    assert long[0..] == long;
    assert long[10..] == " space";
    assert MatchFrom(" time", " space", false) == None;
  }

  lemma TimeHitsRiver(short: string, long: string, source: string)
    requires short == "a river" && long == "a river in space" && source == "a river in time"
    ensures MatchFrom(source, short, false) == Some(8)
  {
    RiverNamesNormalized(short, long);
    var rest := " in time";
    SymbolMatchesPrefix(short, rest);
    assert short + rest == source;
    assert LeadingWhitespace(rest) == 1;
  }

  /**
   * "a river in time" falls back to "a river", and the 8 bytes consumed
   * include the space read past it.
   */
  lemma ShorterNameWins(short: string, long: string, source: string)
    requires short == "a river" && long == "a river in space" && source == "a river in time"
    ensures StartsWithSpec([long, short], source) == Some((8, short))
  {
    TimeMissesSpace(short, long, source);
    TimeHitsRiver(short, long, source);
    AsciiPrefixLength(source, 8);
    assert [long, short][1..] == [short];
    assert FirstMatch([short], source) == Some((8, short));
    assert FirstMatch([long, short], source) == Some((8, short));
  }

  lemma CapitalNameCollapsed(s: string)
    requires s == "A river"
    ensures IsCollapsed(s) && Lowercase(s) == "a river"
  {
    var r := Lowercase(s);
    assert r[0] == 'a' && r[1] == ' ' && r[2] == 'r' && r[3] == 'i' && r[4] == 'v' && r[5] == 'e' && r[6] == 'r';
  }

  /** Source letters are compared case-insensitively: "a River" finds "a river". */
  lemma CaseInsensitiveName(symbol: string, source: string)
    requires symbol == "a river" && source == "a River"
    ensures StartsWithSpec([symbol], source) == Some((7, symbol))
  {
    CapitalSourceMatches(symbol, source);
    assert IsAscii(source);
    AsciiPrefixLength(source, 7);
  }

  /** The name "A river" is stored as "a river". */
  lemma CapitalNameNormalizes(name: string)
    requires name == "A river"
    ensures Normalize(name) == "a river"
  {
    CapitalNameCollapsed(name);
    NormalizeCollapsed(name);
  }

  lemma CapitalSourceMatches(symbol: string, source: string)
    requires symbol == "a river" && source == "a River"
    ensures MatchFrom(source, symbol, false) == Some(7)
  {
    RiverNamesNormalized(symbol, "a river in space");
    SymbolMatchesPrefix(symbol, []);
    assert symbol + [] == symbol;
    assert forall i :: 0 <= i < 7 ==> AsciiLowercase(source)[i] == AsciiLowercase(symbol)[i];
    MatchIgnoresAsciiCase(source, symbol, symbol, false);
  }

  /** Lengths are UTF-8 bytes: "résumé" is six characters but eight bytes. */
  lemma CountsUtf8Bytes()
    ensures StartsWithSpec(["r\U{E9}sum\U{E9}"], "r\U{E9}sum\U{E9}") == Some((8, "r\U{E9}sum\U{E9}"))
  {
    var name := "r\U{E9}sum\U{E9}";
    assert IsNormalized(name) && Utf8Length(name) == 8;
    SymbolMatchesPrefix(name, []);
    assert name + [] == name && name[..6] == name;
  }
}
