/**
 * The expression lexer: a cursor over the remaining source text with the
 * line and column of its first char. `advance` scans one token without
 * moving the cursor; `next`, `match_operator` and `next_operator` move it.
 *
 * Offsets are counted in chars; the source slices the same text at byte
 * offsets, and a char offset `k` of `s` is the byte offset
 * `Utf8Length(s[..k])`. Columns are counted in UTF-8 bytes, as in the source.
 */
module ExpressionLexer {
  import opened Common
  import opened ExpressionTokens
  import opened Symbols

  /** The cursor: the text not yet consumed and the mark of its first char. */
  datatype LexState = LexState(source: string, mark: Mark)

  /** What one scan finds: chars consumed, the token if any, and the mark after it. */
  datatype Advanced = Advanced(consumed: nat, token: Option<ExpressionToken>, after: Mark)

  /** What a cursor-moving call returns: the token if any and the new cursor. */
  datatype Stepped = Stepped(token: Option<MarkedToken<ExpressionToken>>, state: LexState)

  // ---------------------------------------------------------------------
  // Marks

  /** The mark after reading `c`: a newline starts the next line at column 0. */
  function Step(m: Mark, c: char): (r: Mark)
    ensures c == '\n' ==> r == Mark(m.line + 1, 0)
    ensures c != '\n' ==> r.line == m.line && r.column > m.column
  {
    if c == '\n' then Mark(m.line + 1, 0) else Mark(m.line, m.column + Utf8Len(c))
  }

  /** The mark after reading all of `s`. */
  function MarkAfter(m: Mark, s: string): Mark
    decreases |s|
  {
    if s == [] then m else MarkAfter(Step(m, s[0]), s[1..])
  }

  function CountNewlines(s: string): nat
  {
    if s == [] then 0 else (if s[0] == '\n' then 1 else 0) + CountNewlines(s[1..])
  }

  /** Reading `a + b` is reading `a`, then `b`. */
  lemma {:induction false} MarkAfterAppend(m: Mark, a: string, b: string)
    ensures MarkAfter(m, a + b) == MarkAfter(MarkAfter(m, a), b)
    decreases |a|
  {
    if a != [] {
      assert (a + b)[0] == a[0];
      assert (a + b)[1..] == a[1..] + b;
      MarkAfterAppend(Step(m, a[0]), a[1..], b);
    } else {
      assert a + b == b;
    }
  }

  /**
   * Each newline adds one line; with no newline the column grows by the
   * byte length of the text.
   */
  lemma {:induction false} MarkAfterCounts(m: Mark, s: string)
    ensures MarkAfter(m, s).line == m.line + CountNewlines(s)
    ensures CountNewlines(s) == 0 ==> MarkAfter(m, s).column == m.column + Utf8Length(s)
    decreases |s|
  {
    if s != [] {
      MarkAfterCounts(Step(m, s[0]), s[1..]);
    }
  }

  // ---------------------------------------------------------------------
  // Runs and words

  datatype CharClass = Digits | Alphanumerics | EqualsSigns

  predicate InClass(c: char, cls: CharClass)
  {
    match cls
    case Digits => IsAsciiDigit(c)
    case Alphanumerics => IsAlphanumeric(c)
    case EqualsSigns => c == '='
  }

  /** The length of the longest run of `class` chars starting at `i`. */
  function Run(s: string, i: nat, cls: CharClass): (n: nat)
    requires i <= |s|
    ensures i + n <= |s|
    decreases |s| - i
  {
    if i < |s| && InClass(s[i], cls) then 1 + Run(s, i + 1, cls) else 0
  }

  /** `Run` is the longest run: every char in it is in the class, and the next one is not. */
  lemma {:induction false} RunIsMaximal(s: string, i: nat, cls: CharClass)
    requires i <= |s|
    ensures forall k :: i <= k < i + Run(s, i, cls) ==> InClass(s[k], cls)
    ensures i + Run(s, i, cls) == |s| || !InClass(s[i + Run(s, i, cls)], cls)
    decreases |s| - i
  {
    if i < |s| && InClass(s[i], cls) {
      RunIsMaximal(s, i + 1, cls);
    }
  }

  /** Trimming an alphanumeric run leaves it unchanged. */
  lemma TrimRun(s: string, i: nat)
    requires i <= |s|
    ensures Trim(s[i..i + Run(s, i, Alphanumerics)]) == s[i..i + Run(s, i, Alphanumerics)]
  {
    var n := Run(s, i, Alphanumerics);
    RunIsMaximal(s, i, Alphanumerics);
    if n > 0 {
      assert InClass(s[i], Alphanumerics) && InClass(s[i + n - 1], Alphanumerics);
      AlphanumericNotWhitespace(s[i]);
      AlphanumericNotWhitespace(s[i + n - 1]);
    }
    TrimUnchanged(s[i..i + n]);
  }

  lemma AlphanumericNotWhitespace(c: char)
    requires IsAlphanumeric(c)
    ensures !IsWhitespace(c)
  {
  }

  lemma TrimUnchanged(s: string)
    requires s == [] || (!IsWhitespace(s[0]) && !IsWhitespace(s[|s| - 1]))
    ensures Trim(s) == s
  {
    assert TrimStart(s) == s;
  }

  /** The token a lower-cased word lexes to. */
  function Keyword(word: string): ExpressionToken
  {
    if word in ["no", "false", "never"] then Atom(LogicalLiteral(false))
    // The affirmative words lex to `false` as well.
    else if word in ["yes", "true", "always"] then Atom(LogicalLiteral(false))
    else if word == "and" then Operator(And)
    else if word == "or" then Operator(Or)
    else if word == "not" then Operator(Not)
    else if word == "between" then Operator(Between)
    else if word == "maximum" then Operator(Maximum)
    else if word == "minimum" then Operator(Minimum)
    else if word in ["any", "either", "one", "among"] then Operator(Either)
    else if word == "random" then Operator(Random)
    else if word == "is" then Operator(Is)
    else if word == "in" then Operator(In)
    else if word == "of" then Operator(Of)
    else if word == "then" then Operator(Then)
    else if word in ["else", "otherwise"] then Operator(Else)
    else if word == "end" then Operator(End)
    else if word in ["when", "if"] then Operator(When)
    else if word == "unless" then Operator(Unless)
    else if word in ["max", "greater", "greatest"] then Operator(Maximum)
    else if word in ["min", "lesser", "least"] then Operator(Minimum)
    else UnrecognizedToken
  }

  /** A punctuation token starting at `i`: the chars it takes and the token. */
  function Punctuation(s: string, i: nat): (r: (nat, ExpressionToken))
    requires i < |s|
    ensures 1 <= r.0 && i + r.0 <= |s|
  {
    var c := s[i];
    var followedByEquals := i + 1 < |s| && s[i + 1] == '=';
    if c == '(' then (1, Operator(OpenParen))
    else if c == ')' then (1, Operator(CloseParen))
    else if c == ',' then (1, Operator(Comma))
    else if c == '+' then (1, Operator(Plus))
    else if c == '-' then (1, Operator(Minus))
    else if c == '*' then (1, Operator(Multiply))
    else if c == '/' then (1, Operator(Divide))
    else if c == '!' then
      if followedByEquals then (2 + Run(s, i + 2, EqualsSigns), Operator(NotEqual)) else (1, Operator(Not))
    else if c == '>' then
      if followedByEquals then (2 + Run(s, i + 2, EqualsSigns), Operator(GreaterThanOrEqual))
      else (1, Operator(GreaterThan))
    else if c == '<' then
      if followedByEquals then (2 + Run(s, i + 2, EqualsSigns), Operator(LessThanOrEqual))
      else (1, Operator(LessThan))
    else if c == '=' then (1 + Run(s, i + 1, EqualsSigns), Operator(Equal))
    else (1, UnrecognizedToken)
  }

  predicate IsReference(t: Option<ExpressionToken>)
  {
    t.Some? && t.value.Atom? && t.value.atom.Reference?
  }

  predicate AllWhitespace(s: string, i: nat)
    requires i <= |s|
  {
    forall k :: i <= k < |s| ==> IsWhitespace(s[k])
  }

  // ---------------------------------------------------------------------
  // Scanning

  /** A numeral: a run of ASCII digits, aborting when its value needs more than 32 bits. */
  function ScanNumeral(s: string, i: nat, m: Mark): (r: Outcome<Advanced>)
    requires i < |s| && IsAsciiDigit(s[i])
    ensures r.Ok? ==> i < r.value.consumed <= |s| && r.value.token.Some?
    ensures r.Ok? ==> r.value.token.value.Atom? && r.value.token.value.atom.NumericLiteral?
  {
    var n := Run(s, i, Digits);
    match ParseU32(s[i..i + n])
    case None => Panic
    // Digits are ASCII, one byte each.
    case Some(number) => Ok(Advanced(i + n, Some(Atom(NumericLiteral(number))), Mark(m.line, m.column + n)))
  }

  /**
   * At an alphanumeric char: the longest symbol matching here, else a word
   * looked up among the keywords.
   */
  function ScanWord(symbols: seq<string>, s: string, i: nat, m: Mark): (r: Advanced)
    requires i < |s|
    ensures i <= r.consumed <= |s| && r.token.Some?
    ensures !IsReference(r.token) ==> i < r.consumed || !IsAlphanumeric(s[i])
  {
    match FirstMatch(symbols, s[i..])
    // The end mark is taken after all of the remaining text, not after the match.
    case Some((k, symbol)) => Advanced(i + k, Some(Atom(Reference(symbol))), MarkAfter(m, s[i..]))
    case None =>
      var n := Run(s, i, Alphanumerics);
      var run := s[i..i + n];
      // The source trims the run before lower-casing it; an alphanumeric run
      // has no whitespace to trim (see `TrimRun`).
      Advanced(i + n, Some(Keyword(Lowercase(run))), Mark(m.line, m.column + Utf8Length(run)))
  }

  function ScanPunctuation(s: string, i: nat, m: Mark): (r: Advanced)
    requires i < |s|
    ensures i < r.consumed <= |s| && r.token.Some?
  {
    var (n, token) := Punctuation(s, i);
    Advanced(i + n, Some(token), Mark(m.line, m.column + Utf8Len(s[i])))
  }

  /** One token starting at a char that is not whitespace. */
  function ScanToken(symbols: seq<string>, s: string, i: nat, m: Mark): (r: Outcome<Advanced>)
    requires i < |s| && !IsWhitespace(s[i])
    ensures r.Ok? ==> i <= r.value.consumed <= |s| && r.value.token.Some?
    ensures r.Ok? && !IsReference(r.value.token) ==> r.value.consumed > i
  {
    if IsAsciiDigit(s[i]) then ScanNumeral(s, i, m)
    else if IsAlphanumeric(s[i]) then Ok(ScanWord(symbols, s, i, m))
    else Ok(ScanPunctuation(s, i, m))
  }

  /** `advance` from char `i` of `s` with mark `m`: skip whitespace, then scan one token. */
  function ScanFrom(symbols: seq<string>, s: string, i: nat, m: Mark): (r: Outcome<Advanced>)
    requires i <= |s|
    ensures r.Ok? ==> i <= r.value.consumed <= |s|
    ensures r.Ok? ==> (r.value.token.None? <==> AllWhitespace(s, i))
    ensures r.Ok? && r.value.token.None? ==> r.value.consumed == |s| && r.value.after == MarkAfter(m, s[i..])
    ensures r.Ok? && r.value.token.Some? && !IsReference(r.value.token) ==> r.value.consumed > i
    decreases |s| - i
  {
    if i == |s| then Ok(Advanced(i, None, m))
    else if IsWhitespace(s[i]) then
      var r := ScanFrom(symbols, s, i + 1, Step(m, s[i]));
      assert s[i..][1..] == s[i + 1..];
      r
    else ScanToken(symbols, s, i, m)
  }

  function AdvanceSpec(symbols: seq<string>, st: LexState): Outcome<Advanced>
  {
    ScanFrom(symbols, st.source, 0, st.mark)
  }

  /** The cursor after taking `consumed` chars, ending at `after`. */
  function Moved(st: LexState, a: Advanced): LexState
    requires a.consumed <= |st.source|
  {
    LexState(st.source[a.consumed..], a.after)
  }

  /** `next`: always moves the cursor, even past trailing whitespace. */
  function NextSpec(symbols: seq<string>, st: LexState): (r: Outcome<Stepped>)
    ensures r.Ok? ==> IsSuffix(r.value.state.source, st.source)
    ensures r.Ok? && r.value.token.Some? ==> r.value.token.value.startMark == st.mark
    ensures r.Ok? && r.value.token.Some? && !r.value.token.value.token.Atom? ==>
      |r.value.state.source| < |st.source|
  {
    var a :- AdvanceSpec(symbols, st);
    var token := if a.token.Some? then Some(MarkedToken(a.token.value, st.mark, a.after)) else None;
    Ok(Stepped(token, Moved(st, a)))
  }

  /** `peek`: the token `next` would return; the cursor is not part of the result. */
  function PeekSpec(symbols: seq<string>, st: LexState): Outcome<Option<MarkedToken<ExpressionToken>>>
  {
    var a :- AdvanceSpec(symbols, st);
    Ok(if a.token.Some? then Some(MarkedToken(a.token.value, st.mark, a.after)) else None)
  }

  /**
   * `next_operator`: takes the next token only when it is an operator
   * binding at least as tightly as `outer`; otherwise the cursor stays put.
   */
  function NextOperatorSpec(symbols: seq<string>, st: LexState, outer: ExpressionOperator): (r: Outcome<Stepped>)
    ensures r.Ok? && r.value.token.None? ==> r.value.state == st
    ensures r.Ok? && r.value.token.Some? ==>
      r.value.token.value.token.Operator? && AtLeast(r.value.token.value.token.operator, outer)
      && NextSpec(symbols, st) == r
  {
    var a :- AdvanceSpec(symbols, st);
    if a.token.Some? && a.token.value.Operator? && AtLeast(a.token.value.operator, outer) then
      Ok(Stepped(Some(MarkedToken(a.token.value, st.mark, a.after)), Moved(st, a)))
    else
      Ok(Stepped(None, st))
  }

  /** `match_operator`: takes the next token only when it is exactly `operator`. */
  function MatchOperatorSpec(symbols: seq<string>, st: LexState, operator: ExpressionOperator): (r: Outcome<Stepped>)
    ensures r.Ok? && r.value.token.None? ==> r.value.state == st
    ensures r.Ok? && r.value.token.Some? ==>
      r.value.token.value.token == Operator(operator) && NextSpec(symbols, st) == r
  {
    var a :- AdvanceSpec(symbols, st);
    if a.token == Some(Operator(operator)) then
      Ok(Stepped(Some(MarkedToken(a.token.value, st.mark, a.after)), Moved(st, a)))
    else
      Ok(Stepped(None, st))
  }

  // ---------------------------------------------------------------------
  // Properties

  /** `peek` returns what `next` would, and `next` panics exactly when `peek` does. */
  lemma PeekIsNext(symbols: seq<string>, st: LexState)
    ensures PeekSpec(symbols, st).Panic? <==> NextSpec(symbols, st).Panic?
    ensures PeekSpec(symbols, st).Ok? ==> PeekSpec(symbols, st).value == NextSpec(symbols, st).value.token
  {
  }

  /** With only whitespace left, `next` returns nothing and moves to the end. */
  lemma {:induction false} NextAtEnd(symbols: seq<string>, st: LexState)
    requires AllWhitespace(st.source, 0)
    ensures NextSpec(symbols, st) == Ok(Stepped(None, LexState([], MarkAfter(st.mark, st.source))))
  {
    var r := ScanFrom(symbols, st.source, 0, st.mark);
    NoPanicOnWhitespace(symbols, st.source, 0, st.mark);
    assert st.source[0..] == st.source;
  }

  lemma {:induction false} NoPanicOnWhitespace(symbols: seq<string>, s: string, i: nat, m: Mark)
    requires i <= |s| && AllWhitespace(s, i)
    ensures ScanFrom(symbols, s, i, m).Ok?
    decreases |s| - i
  {
    if i < |s| {
      NoPanicOnWhitespace(symbols, s, i + 1, Step(m, s[i]));
    }
  }

  /** Lexing never produces a true literal: the affirmative words lex to false. */
  lemma {:induction false} NeverTrue(symbols: seq<string>, s: string, i: nat, m: Mark)
    requires i <= |s|
    ensures ScanFrom(symbols, s, i, m).Ok? ==> ScanFrom(symbols, s, i, m).value.token != Some(Atom(LogicalLiteral(true)))
    decreases |s| - i
  {
    if i < |s| && IsWhitespace(s[i]) {
      NeverTrue(symbols, s, i + 1, Step(m, s[i]));
    } else if i < |s| && !IsAsciiDigit(s[i]) && IsAlphanumeric(s[i]) {
      WordNeverTrue(symbols, s, i, m);
    }
  }

  lemma WordNeverTrue(symbols: seq<string>, s: string, i: nat, m: Mark)
    requires i < |s|
    ensures ScanWord(symbols, s, i, m).token != Some(Atom(LogicalLiteral(true)))
  {
    ScanWordToken(symbols, s, i, m);
    if FirstMatch(symbols, s[i..]).None? {
      KeywordNeverTrue(Lowercase(s[i..i + Run(s, i, Alphanumerics)]));
    }
  }

  /** What a word scan yields: the matched symbol's reference, else the keyword. */
  lemma ScanWordToken(symbols: seq<string>, s: string, i: nat, m: Mark)
    requires i < |s|
    ensures FirstMatch(symbols, s[i..]).Some? ==>
      ScanWord(symbols, s, i, m) == Advanced(i + FirstMatch(symbols, s[i..]).value.0,
        Some(Atom(Reference(FirstMatch(symbols, s[i..]).value.1))), MarkAfter(m, s[i..]))
    ensures FirstMatch(symbols, s[i..]).None? ==>
      ScanWord(symbols, s, i, m) == Advanced(i + Run(s, i, Alphanumerics),
        Some(Keyword(Lowercase(s[i..i + Run(s, i, Alphanumerics)]))),
        Mark(m.line, m.column + Utf8Length(s[i..i + Run(s, i, Alphanumerics)])))
  {
  }

  lemma KeywordNeverTrue(word: string)
    ensures Keyword(word) != Atom(LogicalLiteral(true))
  {
  }

  lemma TruthWords()
    ensures Keyword("yes") == Keyword("true") == Keyword("always") == Atom(LogicalLiteral(false))
    ensures Keyword("no") == Keyword("false") == Keyword("never") == Atom(LogicalLiteral(false))
  {
  }

  /** The operators some word lexes to. */
  predicate IsKeywordOperator(o: ExpressionOperator)
  {
    !IsPunctuation(o) && !o.To? && !o.From?
  }

  /** Each keyword operator's own spelling lexes back to it. */
  lemma KeywordOfDisplay(o: ExpressionOperator)
    requires IsKeywordOperator(o)
    ensures Keyword(Display(o)) == Operator(o)
  {
  }

  /** "to" and "from" are no keywords, so `To` and `From` are never lexed. */
  lemma {:induction false} NeverToOrFrom(symbols: seq<string>, s: string, i: nat, m: Mark)
    requires i <= |s|
    ensures ScanFrom(symbols, s, i, m).Ok? ==>
      ScanFrom(symbols, s, i, m).value.token !in {Some(Operator(To)), Some(Operator(From))}
    decreases |s| - i
  {
    if i < |s| && IsWhitespace(s[i]) {
      NeverToOrFrom(symbols, s, i + 1, Step(m, s[i]));
    } else if i < |s| && !IsAsciiDigit(s[i]) && IsAlphanumeric(s[i]) {
      WordNeverToOrFrom(symbols, s, i, m);
    }
  }

  lemma WordNeverToOrFrom(symbols: seq<string>, s: string, i: nat, m: Mark)
    requires i < |s|
    ensures ScanWord(symbols, s, i, m).token != Some(Operator(To))
    ensures ScanWord(symbols, s, i, m).token != Some(Operator(From))
  {
    ScanWordToken(symbols, s, i, m);
    if FirstMatch(symbols, s[i..]).None? {
      KeywordNeverToOrFrom(Lowercase(s[i..i + Run(s, i, Alphanumerics)]));
    }
  }

  lemma KeywordNeverToOrFrom(word: string)
    ensures Keyword(word) != Operator(To) && Keyword(word) != Operator(From)
  {
  }

  /** Each punctuation operator's own spelling lexes back to it, taking all of it. */
  lemma PunctuationOfDisplay(o: ExpressionOperator)
    requires IsPunctuation(o)
    ensures Punctuation(Display(o), 0) == (|Display(o)|, Operator(o))
  {
  }

  /** "!=", ">=", "<=" and "=" swallow any further '='. */
  lemma EqualsAbsorbed(c: char, tail: nat)
    requires c in "!<>="
    ensures var s := [c] + (if c == '=' then [] else ['=']) + seq(tail, _ => '=');
      Punctuation(s, 0).0 == |s|
  {
    var s := [c] + (if c == '=' then [] else ['=']) + seq(tail, _ => '=');
    var start := if c == '=' then 1 else 2;
    assert forall k :: start <= k < |s| ==> s[k] == '=';
    RunToEnd(s, start, EqualsSigns);
  }

  lemma {:induction false} RunToEnd(s: string, i: nat, cls: CharClass)
    requires i <= |s| && forall k :: i <= k < |s| ==> InClass(s[k], cls)
    ensures Run(s, i, cls) == |s| - i
    decreases |s| - i
  {
    if i < |s| {
      RunToEnd(s, i + 1, cls);
    }
  }

  /** A numeral below 2^32 lexes to its value; one at or above 2^32 aborts. */
  lemma NumeralRoundTrip(symbols: seq<string>, n: nat, m: Mark)
    ensures var r := AdvanceSpec(symbols, LexState(NatToString(n), m));
      (n < U32Limit ==> r == Ok(Advanced(|NatToString(n)|, Some(Atom(NumericLiteral(n))), Mark(m.line, m.column + |NatToString(n)|))))
      && (n >= U32Limit ==> r.Panic?)
  {
    var s := NatToString(n);
    RunToEnd(s, 0, Digits);
    assert s[0..|s|] == s;
    DecimalValueOfNatToString(n);
  }

  /** `next` on a numeral below 2^32 returns its literal and consumes the whole numeral. */
  lemma NumeralNext(symbols: seq<string>, n: nat, m: Mark)
    requires n < U32Limit
    ensures var after := Mark(m.line, m.column + |NatToString(n)|);
      NextSpec(symbols, LexState(NatToString(n), m))
      == Ok(Stepped(Some(MarkedToken(Atom(NumericLiteral(n)), m, after)), LexState([], after)))
  {
    var s := NatToString(n);
    NumeralRoundTrip(symbols, n, m);
    assert s[|s|..] == [];
  }

  /**
   * A symbol match ends the token after the symbol, but its end mark is the
   * mark after the whole remaining text.
   */
  lemma SymbolEndMark(symbols: seq<string>, st: LexState, k: nat, symbol: string)
    requires st.source != [] && !IsWhitespace(st.source[0]) && !IsAsciiDigit(st.source[0])
    requires IsAlphanumeric(st.source[0]) && FirstMatch(symbols, st.source) == Some((k, symbol))
    ensures AdvanceSpec(symbols, st) == Ok(Advanced(k, Some(Atom(Reference(symbol))), MarkAfter(st.mark, st.source)))
  {
    assert st.source[0..] == st.source;
  }

  /** "a" followed by a newline and "b": the token "a" already ends on the next line. */
  lemma SymbolEndMarkExample(symbols: seq<string>, source: string)
    requires symbols == ["a"] && source == "a\nb"
    ensures AdvanceSpec(symbols, LexState(source, Mark(0, 0))) ==
      Ok(Advanced(2, Some(Atom(Reference("a"))), Mark(1, 1)))
  {
    assert source[1..] == "\nb" && source[1..][1..] == "b";
    assert MatchFrom("b", "", true) == Some(0);
    assert MatchFrom(source, "a", false) == Some(2);
    SymbolEndMark(symbols, LexState(source, Mark(0, 0)), 2, "a");
    assert MarkAfter(Mark(1, 0), "b") == Mark(1, 1) by {
      assert "b"[1..] == [];
    }
  }

  // ---------------------------------------------------------------------
  // The cursor

  /** The lexer: a cursor over `source`, consulting the symbol table `table`. */
  class ExpressionLex {
    const table: SymbolList
    var source: string
    var line: nat
    var column: nat

    function State(): LexState
      reads this
    {
      LexState(source, Mark(line, column))
    }

    /** `ExpressionLexer::lex`: a cursor at line 0, column 0. */
    constructor Lex(table: SymbolList, source: string)
      ensures this.table == table && State() == LexState(source, DefaultMark)
    {
      this.table := table;
      this.source := source;
      line := 0;
      column := 0;
    }

    /** `ExpressionLexer::lex_at_mark`: a cursor whose first char is at `mark`. */
    constructor LexAtMark(table: SymbolList, source: string, mark: Mark)
      ensures this.table == table && State() == LexState(source, mark)
    {
      this.table := table;
      this.source := source;
      line := mark.line;
      column := mark.column;
    }

    function CurrentMark(): (m: Mark)
      reads this
      ensures m == State().mark
    {
      Mark(line, column)
    }

    /** `advance`: scan one token without moving the cursor. */
    method Advance() returns (r: Outcome<Advanced>)
      ensures r == AdvanceSpec(table.symbols, State())
    {
      var i := 0;
      var m := Mark(line, column);
      while i < |source|
        invariant i <= |source|
        invariant ScanFrom(table.symbols, source, i, m) == AdvanceSpec(table.symbols, State())
        decreases |source| - i
      {
        var c := source[i];
        if IsWhitespace(c) {
          m := if c == '\n' then Mark(m.line + 1, 0) else Mark(m.line, m.column + Utf8Len(c));
          i := i + 1;
          continue;
        }
        if IsAsciiDigit(c) {
          r := ScanNumeralAt(source, i, m);
        } else if IsAlphanumeric(c) {
          var a := ScanWordAt(table, source, i, m);
          r := Ok(a);
        } else {
          var a := ScanPunctuationAt(source, i, m);
          r := Ok(a);
        }
        return;
      }
      return Ok(Advanced(i, None, m));
    }

    /** `next`: scan one token and move past it (or past the trailing whitespace). */
    method Next() returns (r: Outcome<Option<MarkedToken<ExpressionToken>>>)
      modifies this
      ensures NextSpec(table.symbols, old(State())).Panic? ==> r.Panic? && State() == old(State())
      ensures NextSpec(table.symbols, old(State())).Ok? ==>
        r == Ok(NextSpec(table.symbols, old(State())).value.token)
        && State() == NextSpec(table.symbols, old(State())).value.state
    {
      var a :- Advance();
      var startMark := Mark(line, column);
      source := source[a.consumed..];
      line, column := a.after.line, a.after.column;
      r := Ok(if a.token.Some? then Some(MarkedToken(a.token.value, startMark, a.after)) else None);
    }

    /** `peek`: the token `next` would return; the cursor stays put. */
    method Peek() returns (r: Outcome<Option<MarkedToken<ExpressionToken>>>)
      ensures r == PeekSpec(table.symbols, State())
    {
      var a :- Advance();
      r := Ok(if a.token.Some? then Some(MarkedToken(a.token.value, Mark(line, column), a.after)) else None);
    }

    /** `next_operator`: move past the next token only if it is an operator ranked at least `outer`. */
    method NextOperator(outer: ExpressionOperator) returns (r: Outcome<Option<MarkedToken<ExpressionToken>>>)
      modifies this
      ensures NextOperatorSpec(table.symbols, old(State()), outer).Panic? ==> r.Panic? && State() == old(State())
      ensures NextOperatorSpec(table.symbols, old(State()), outer).Ok? ==>
        r == Ok(NextOperatorSpec(table.symbols, old(State()), outer).value.token)
        && State() == NextOperatorSpec(table.symbols, old(State()), outer).value.state
    {
      var a :- Advance();
      if a.token.Some? && a.token.value.Operator? && AtLeast(a.token.value.operator, outer) {
        var startMark := Mark(line, column);
        source := source[a.consumed..];
        line, column := a.after.line, a.after.column;
        return Ok(Some(MarkedToken(a.token.value, startMark, a.after)));
      }
      return Ok(None);
    }

    /** `match_operator`: move past the next token only if it is exactly `operator`. */
    method MatchOperator(operator: ExpressionOperator) returns (r: Outcome<Option<MarkedToken<ExpressionToken>>>)
      modifies this
      ensures MatchOperatorSpec(table.symbols, old(State()), operator).Panic? ==> r.Panic? && State() == old(State())
      ensures MatchOperatorSpec(table.symbols, old(State()), operator).Ok? ==>
        r == Ok(MatchOperatorSpec(table.symbols, old(State()), operator).value.token)
        && State() == MatchOperatorSpec(table.symbols, old(State()), operator).value.state
    {
      var a :- Advance();
      if a.token == Some(Operator(operator)) {
        var startMark := Mark(line, column);
        source := source[a.consumed..];
        line, column := a.after.line, a.after.column;
        return Ok(Some(MarkedToken(a.token.value, startMark, a.after)));
      }
      return Ok(None);
    }
  }

  /** The symbol-or-word branch of `advance`. */
  method ScanWordAt(table: SymbolList, source: string, i: nat, m: Mark) returns (a: Advanced)
    requires i < |source|
    ensures a == ScanWord(table.symbols, source, i, m)
  {
    ScanWordToken(table.symbols, source, i, m);
    var found := table.StartsWith(source[i..]);
    if found.Some? {
      a := ReferenceAt(source, i, m, found.value.0, found.value.1, FirstMatch(table.symbols, source[i..]).value.0);
    } else {
      a := KeywordAt(source, i, m);
    }
  }

  /** A matched symbol taking `bytes` bytes (`k` chars) of the text from `i`. */
  method ReferenceAt(source: string, i: nat, m: Mark, bytes: nat, symbol: string, ghost k: nat) returns (a: Advanced)
    requires i + k <= |source| && bytes == Utf8Length(source[i..][..k])
    ensures a == Advanced(i + k, Some(Atom(Reference(symbol))), MarkAfter(m, source[i..]))
  {
    var chars := CharIndex(source[i..], bytes, k);
    var after := MarkAfterRest(m, source[i..]);
    return Advanced(i + chars, Some(Atom(Reference(symbol))), after);
  }

  /** A word that is no symbol: the alphanumeric run from `i`, read as a keyword. */
  method KeywordAt(source: string, i: nat, m: Mark) returns (a: Advanced)
    requires i < |source|
    ensures a == Advanced(i + Run(source, i, Alphanumerics), Some(Keyword(Lowercase(source[i..i + Run(source, i, Alphanumerics)]))),
      Mark(m.line, m.column + Utf8Length(source[i..i + Run(source, i, Alphanumerics)])))
  {
    var n := RunLength(source, i, Alphanumerics);
    var run := source[i..i + n];
    return Advanced(i + n, Some(Keyword(Lowercase(run))), Mark(m.line, m.column + Utf8Length(run)));
  }

  /** The numeral branch of `advance`. */
  method ScanNumeralAt(s: string, i: nat, m: Mark) returns (r: Outcome<Advanced>)
    requires i < |s| && IsAsciiDigit(s[i])
    ensures r == ScanNumeral(s, i, m)
  {
    var n := RunLength(s, i, Digits);
    var number := ParseU32(s[i..i + n]);
    if number.None? {
      return Panic;
    }
    return Ok(Advanced(i + n, Some(Atom(NumericLiteral(number.value))), Mark(m.line, m.column + n)));
  }

  /** The punctuation branch of `advance`. */
  method ScanPunctuationAt(s: string, i: nat, m: Mark) returns (a: Advanced)
    requires i < |s|
    ensures a == ScanPunctuation(s, i, m)
  {
    var c := s[i];
    var n := 1;
    var token: ExpressionToken;
    if c == '(' {
      token := Operator(OpenParen);
    } else if c == ')' {
      token := Operator(CloseParen);
    } else if c == ',' {
      token := Operator(Comma);
    } else if c == '+' {
      token := Operator(Plus);
    } else if c == '-' {
      token := Operator(Minus);
    } else if c == '*' {
      token := Operator(Multiply);
    } else if c == '/' {
      token := Operator(Divide);
    } else if c == '!' || c == '>' || c == '<' {
      if i + 1 < |s| && s[i + 1] == '=' {
        var more := RunLength(s, i + 2, EqualsSigns);
        n := 2 + more;
        token := if c == '!' then Operator(NotEqual)
          else if c == '>' then Operator(GreaterThanOrEqual) else Operator(LessThanOrEqual);
      } else {
        token := if c == '!' then Operator(Not) else if c == '>' then Operator(GreaterThan) else Operator(LessThan);
      }
    } else if c == '=' {
      var more := RunLength(s, i + 1, EqualsSigns);
      n := 1 + more;
      token := Operator(Equal);
    } else {
      token := UnrecognizedToken;
    }
    return Advanced(i + n, Some(token), Mark(m.line, m.column + Utf8Len(c)));
  }

  /** The scanning loop for one run of a char class. */
  method RunLength(s: string, i: nat, cls: CharClass) returns (n: nat)
    requires i <= |s|
    ensures n == Run(s, i, cls)
  {
    n := 0;
    while i + n < |s| && InClass(s[i + n], cls)
      invariant i + n <= |s|
      invariant Run(s, i, cls) == n + Run(s, i + n, cls)
      decreases |s| - i - n
    {
      n := n + 1;
    }
  }

  /** The mark after the whole of `s`, char by char. */
  method MarkAfterRest(m: Mark, s: string) returns (after: Mark)
    ensures after == MarkAfter(m, s)
  {
    after := m;
    var k := 0;
    while k < |s|
      invariant k <= |s|
      invariant MarkAfter(m, s) == MarkAfter(after, s[k..])
    {
      assert s[k..][1..] == s[k + 1..];
      after := if s[k] == '\n' then Mark(after.line + 1, 0) else Mark(after.line, after.column + Utf8Len(s[k]));
      k := k + 1;
    }
  }

  /** The char index at byte offset `bytes` of `s`, given that one exists (`k`). */
  method CharIndex(s: string, bytes: nat, ghost k: nat) returns (index: nat)
    requires k <= |s| && bytes == Utf8Length(s[..k])
    ensures index == k
  {
    index := 0;
    var b := 0;
    while b < bytes
      invariant index <= k && b == Utf8Length(s[..index])
      decreases k - index
    {
      Utf8PrefixStep(s, index);
      b := b + Utf8Len(s[index]);
      index := index + 1;
    }
    if index < k {
      Utf8PrefixMonotone(s, index, k);
    }
  }
}
