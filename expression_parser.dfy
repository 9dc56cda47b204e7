/**
 * The expression parser: precedence climbing over the expression lexer,
 * with the operator declaration order as the binding rank. Errors never
 * abort a parse: they are appended to a shared problem list, and the parse
 * resumes at the next token.
 *
 * Each parsing routine has a specification function over the lexer cursor
 * (`LexState`) and the problem list, and a method of the class `Parse`
 * proved against it. A `Panic` is the lexer's numeral overflow.
 */
module ExpressionParser {
  import opened Common
  import opened Attributions
  import opened Problems
  import opened ExpressionTokens
  import opened ExpressionLexer
  import opened Symbols

  datatype ExpressionParse =
    | AtomParse(atom: ExpressionAtom)
    | Operation(operator: ExpressionOperator, operands: seq<ExpressionParse>)

  datatype TagParse = WhenTag(condition: ExpressionParse) | ElseTag(otherwise: Option<ExpressionParse>) | EndTag

  datatype ExpressionParsingResult = ExpressionParsingResult(parse: Option<ExpressionParse>, problems: seq<Problem>)

  datatype TagParsingResult = TagParsingResult(parse: Option<TagParse>, problems: seq<Problem>)

  /**
   * A parse in progress: the parse if any, the cursor after it and the
   * problem list so far. For an infix step, `parse == None` means the
   * operator loop stops.
   */
  datatype Parsed = Parsed(parse: Option<ExpressionParse>, state: LexState, problems: seq<Problem>)

  /** Every operation the parser builds has at least one operand. */
  predicate WellFormed(e: ExpressionParse)
  {
    match e
    case AtomParse(_) => true
    case Operation(_, operands) => |operands| >= 1 && forall i :: 0 <= i < |operands| ==> WellFormed(operands[i])
  }

  /**
   * What every parsing routine guarantees: it only consumes input, only
   * appends fatal problems, and builds well-formed operations.
   */
  predicate Follows(st: LexState, problems: seq<Problem>, p: Parsed)
  {
    IsSuffix(p.state.source, st.source) && AddsFatals(problems, p.problems)
    && (p.parse.Some? ==> WellFormed(p.parse.value))
  }

  lemma SuffixTrans(a: string, b: string, c: string)
    requires IsSuffix(b, a) && IsSuffix(c, b)
    ensures IsSuffix(c, a)
  {
    assert a[|a| - |c|..] == a[|a| - |b|..][|b| - |c|..];
  }

  /** `Follows` composes: a routine run after another extends the first one's guarantee. */
  lemma FollowsTrans(st: LexState, problems: seq<Problem>, mid: Parsed, p: Parsed)
    requires Follows(st, problems, mid) && Follows(mid.state, mid.problems, p)
    ensures Follows(st, problems, p)
  {
    SuffixTrans(st.source, mid.state.source, p.state.source);
    AddsFatalsTrans(problems, mid.problems, p.problems);
  }

  // ---------------------------------------------------------------------
  // Building operations

  predicate IsComparisonInfix(o: ExpressionOperator)
  {
    o.Equal? || o.NotEqual? || o.GreaterThan? || o.GreaterThanOrEqual? || o.LessThan? || o.LessThanOrEqual?
  }

  predicate IsChaining(o: ExpressionOperator)
  {
    IsArithmetic(o) || o.And? || o.Or?
  }

  /**
   * `left o right` for a chaining operator: a right operand that is the
   * same operation takes `left` as its first operand, so chains flatten.
   */
  function Chain(o: ExpressionOperator, left: ExpressionParse, right: ExpressionParse): (r: ExpressionParse)
    requires WellFormed(left) && WellFormed(right)
    ensures WellFormed(r) && r.Operation? && r.operator == o && r.operands[0] == left
    ensures right.Operation? && right.operator == o ==> r.operands == [left] + right.operands
    ensures !(right.Operation? && right.operator == o) ==> r.operands == [left, right]
  {
    if right.Operation? && right.operator == o then Operation(o, [left] + right.operands)
    else Operation(o, [left, right])
  }

  /**
   * `left, right` when the comma is followed by an atom: an operation on
   * the right takes `left` as its first operand; an atom pairs with `left`
   * under And.
   */
  function CommaJoin(left: ExpressionParse, right: ExpressionParse): (r: ExpressionParse)
    requires WellFormed(left) && WellFormed(right)
    ensures WellFormed(r) && r.Operation? && r.operands[0] == left
    ensures right.Operation? ==> r == Operation(right.operator, [left] + right.operands)
    ensures right.AtomParse? ==> r == Operation(And, [left, right])
  {
    if right.Operation? then Operation(right.operator, [left] + right.operands)
    else Operation(And, [left, right])
  }

  /** The phrasal prefixes that relabel the operation they govern. */
  predicate IsRelabelling(o: ExpressionOperator)
  {
    o.Either? || o.Random? || o.Maximum? || o.Minimum? || o.Between?
  }

  /** The operators a relabelling prefix takes over. */
  predicate Absorbs(prefix: ExpressionOperator, o: ExpressionOperator)
  {
    o.And? || o.Or? || ((prefix.Maximum? || prefix.Minimum?) && (o.Either? || o.Between?))
  }

  /** The label a relabelling prefix gives: `random` gives `Either`, as written. */
  function RelabelTarget(prefix: ExpressionOperator): ExpressionOperator
  {
    if prefix.Random? then Either else prefix
  }

  function Relabel(prefix: ExpressionOperator, e: ExpressionParse): (r: ExpressionParse)
    requires IsRelabelling(prefix) && WellFormed(e)
    ensures WellFormed(r)
    ensures e.AtomParse? ==> r == e
    ensures e.Operation? ==> r.Operation? && r.operands == e.operands
    ensures r.Operation? ==> !r.operator.And? && !r.operator.Or?
    ensures r.Operation? && (prefix.Maximum? || prefix.Minimum?) ==> !r.operator.Either? && !r.operator.Between?
  {
    if e.Operation? && Absorbs(prefix, e.operator) then Operation(RelabelTarget(prefix), e.operands) else e
  }

  // ---------------------------------------------------------------------
  // Specification

  /**
   * `parse_right(outer)`: one operand and then every infix operator ranked
   * at least `outer`.
   */
  function ParseRightSpec(symbols: seq<string>, att: Attribution, st: LexState, outer: ExpressionOperator,
                          problems: seq<Problem>): (r: Outcome<Parsed>)
    ensures r.Ok? ==> Follows(st, problems, r.value)
    decreases |st.source|, 2
  {
    var n :- NextSpec(symbols, st);
    if n.token.None? then Ok(Parsed(None, n.state, problems))
    else
      var t := n.token.value;
      var leftAtt := AtMarks(att, t.startMark, t.endMark);
      match t.token
      case Atom(a) =>
        var r := ContinueSpec(symbols, att, outer, Parsed(Some(AtomParse(a)), n.state, problems));
        if r.Ok? then FollowsTrans(st, problems, Parsed(None, n.state, problems), r.value); r else r
      case UnrecognizedToken =>
        var fatal := NewFatal("Unrecognized token", leftAtt);
        FatalAdded(problems, fatal);
        var p :- ParseRightSpec(symbols, att, n.state, outer, problems + [fatal]);
        FollowsTrans(st, problems, Parsed(None, n.state, problems + [fatal]), p);
        var r := ContinueSpec(symbols, att, outer, p);
        if r.Ok? then FollowsTrans(st, problems, p, r.value); r else r
      case Operator(op) =>
        var p :- PrefixSpec(symbols, att, outer, op, leftAtt, n.state, problems);
        FollowsTrans(st, problems, Parsed(None, n.state, problems), p);
        if op.Of? || op.From? || op.Comma? then Ok(p)
        else
          var r := ContinueSpec(symbols, att, outer, p);
          if r.Ok? then FollowsTrans(st, problems, p, r.value); r else r
  }

  /** What follows an operand: nothing if there is none, else the operator loop. */
  function ContinueSpec(symbols: seq<string>, att: Attribution, outer: ExpressionOperator, p: Parsed): (r: Outcome<Parsed>)
    requires p.parse.Some? ==> WellFormed(p.parse.value)
    ensures r.Ok? ==> Follows(p.state, p.problems, r.value)
    decreases |p.state.source|, 1
  {
    if p.parse.None? then Ok(p) else InfixSpec(symbols, att, outer, p.parse.value, p.state, p.problems)
  }

  /** The operand begun by prefix operator `op`, whose token sits at `leftAtt`. */
  function PrefixSpec(symbols: seq<string>, att: Attribution, outer: ExpressionOperator, op: ExpressionOperator,
                      leftAtt: Attribution, st: LexState, problems: seq<Problem>): (r: Outcome<Parsed>)
    ensures r.Ok? ==> Follows(st, problems, r.value)
    decreases |st.source|, 5
  {
    if op.OpenParen? then GroupSpec(symbols, att, leftAtt, st, problems)
    else if op.Of? || op.From? || op.Comma? then ParseRightSpec(symbols, att, st, outer, problems)
    else if op.When? then ParseRightSpec(symbols, att, st, When, problems)
    else UnarySpec(symbols, att, outer, op, leftAtt, st, problems)
  }

  /** A prefix that takes one operand of its own: `in`, a wrapping prefix, or no valid prefix at all. */
  function UnarySpec(symbols: seq<string>, att: Attribution, outer: ExpressionOperator, op: ExpressionOperator,
                     leftAtt: Attribution, st: LexState, problems: seq<Problem>): (r: Outcome<Parsed>)
    ensures r.Ok? ==> Follows(st, problems, r.value)
    decreases |st.source|, 4
  {
    if IsWrapping(op) then WrapSpec(symbols, att, st, op, problems)
    else if op.In? then LocationSpec(symbols, att, st, problems)
    else InvalidPrefixSpec(symbols, att, outer, leftAtt, st, problems)
  }

  /** The prefixes that wrap their operand: `not` and `unless` negate it, the phrasal ones relabel it. */
  predicate IsWrapping(op: ExpressionOperator)
  {
    op.Not? || op.Unless? || IsRelabelling(op)
  }

  function Wrapped(op: ExpressionOperator, e: ExpressionParse): (r: ExpressionParse)
    requires IsWrapping(op) && WellFormed(e)
    ensures WellFormed(r)
  {
    if IsRelabelling(op) then Relabel(op, e) else Operation(Not, [e])
  }

  /** A wrapping prefix: its operand, parsed at the prefix's own rank, then wrapped. */
  function WrapSpec(symbols: seq<string>, att: Attribution, st: LexState, op: ExpressionOperator,
                    problems: seq<Problem>): (r: Outcome<Parsed>)
    requires IsWrapping(op)
    ensures r.Ok? ==> Follows(st, problems, r.value)
    decreases |st.source|, 3
  {
    var p :- ParseRightSpec(symbols, att, st, op, problems);
    Ok(p.(parse := if p.parse.Some? then Some(Wrapped(op, p.parse.value)) else None))
  }

  /** An operator that is no prefix: one fatal problem at it, then the operand is parsed as usual. */
  function InvalidPrefixSpec(symbols: seq<string>, att: Attribution, outer: ExpressionOperator, leftAtt: Attribution,
                             st: LexState, problems: seq<Problem>): (r: Outcome<Parsed>)
    ensures r.Ok? ==> Follows(st, problems, r.value)
    decreases |st.source|, 3
  {
    var fatal := NewFatal("Not a valid prefix operator", leftAtt);
    FatalAdded(problems, fatal);
    var r :- ParseRightSpec(symbols, att, st, outer, problems + [fatal]);
    FollowsTrans(st, problems, Parsed(None, st, problems + [fatal]), r);
    Ok(r)
  }

  /** `( inner )`: a missing `)` adds a fatal problem at the `(` but keeps the inner parse. */
  function GroupSpec(symbols: seq<string>, att: Attribution, leftAtt: Attribution, st: LexState,
                     problems: seq<Problem>): (r: Outcome<Parsed>)
    ensures r.Ok? ==> Follows(st, problems, r.value)
    decreases |st.source|, 3
  {
    var inner :- ParseRightSpec(symbols, att, st, OpenParen, problems);
    if inner.parse.None? then Ok(inner)
    else
      var close :- MatchOperatorSpec(symbols, inner.state, CloseParen);
      var fatal := NewFatal("Expected a closing paren", leftAtt);
      FatalAdded(inner.problems, fatal);
      var r := Parsed(inner.parse, close.state,
                      if close.token.None? then inner.problems + [fatal] else inner.problems);
      FollowsTrans(st, problems, inner, r);
      Ok(r)
  }

  /** `in` applied to one bare reference. */
  predicate IsLocationTest(e: ExpressionParse)
  {
    e.Operation? && e.operator == In && |e.operands| == 1 && e.operands[0].AtomParse? && e.operands[0].atom.Reference?
  }

  /** `in place`: anything but a bare reference adds a fatal problem and gives no parse. */
  function LocationSpec(symbols: seq<string>, att: Attribution, st: LexState, problems: seq<Problem>): (r: Outcome<Parsed>)
    ensures r.Ok? ==> Follows(st, problems, r.value)
    ensures r.Ok? && r.value.parse.Some? ==> IsLocationTest(r.value.parse.value)
    decreases |st.source|, 3
  {
    var p :- ParseRightSpec(symbols, att, st, In, problems);
    if p.parse.Some? && p.parse.value.AtomParse? && p.parse.value.atom.Reference? then
      Ok(p.(parse := Some(Operation(In, [p.parse.value]))))
    else
      var fatal := NewFatal("Expected a reference to a location", att);
      FatalAdded(p.problems, fatal);
      FollowsTrans(st, problems, p, Parsed(None, p.state, p.problems + [fatal]));
      Ok(Parsed(None, p.state, p.problems + [fatal]))
  }

  /** The operator loop: fold every infix operator ranked at least `outer` into `left`. */
  function InfixSpec(symbols: seq<string>, att: Attribution, outer: ExpressionOperator, left: ExpressionParse,
                     st: LexState, problems: seq<Problem>): (r: Outcome<Parsed>)
    requires WellFormed(left)
    ensures r.Ok? ==> Follows(st, problems, r.value) && r.value.parse.Some?
    decreases |st.source|, 0
  {
    var n :- NextOperatorSpec(symbols, st, outer);
    if n.token.None? then Ok(Parsed(Some(left), st, problems))
    else
      var t := n.token.value;
      var step :- InfixStepSpec(symbols, att, left, t.token.operator, AtMarks(att, t.startMark, t.endMark),
                                n.state, problems);
      FollowsTrans(st, problems, Parsed(None, n.state, problems), step);
      if step.parse.None? then Ok(Parsed(Some(left), step.state, step.problems))
      else
        var r := InfixSpec(symbols, att, outer, step.parse.value, step.state, step.problems);
        if r.Ok? then FollowsTrans(st, problems, step, r.value); r else r
  }

  /** The operation `left o right` an infix operator builds; `to` builds `between`. */
  function Combined(o: ExpressionOperator, left: ExpressionParse, right: ExpressionParse): (r: ExpressionParse)
    requires WellFormed(left) && WellFormed(right)
    ensures WellFormed(r)
  {
    if IsChaining(o) then Chain(o, left, right)
    else if o.Comma? then CommaJoin(left, right)
    else if o.To? then Operation(Between, [left, right])
    else Operation(o, [left, right])
  }

  /** An infix operator's right operand, parsed at the operator's own rank and combined with `left`. */
  function BinarySpec(symbols: seq<string>, att: Attribution, left: ExpressionParse, o: ExpressionOperator,
                      st: LexState, problems: seq<Problem>): (r: Outcome<Parsed>)
    requires WellFormed(left)
    ensures r.Ok? ==> Follows(st, problems, r.value)
    decreases |st.source|, 3
  {
    var p :- ParseRightSpec(symbols, att, st, o, problems);
    Ok(p.(parse := if p.parse.Some? then Some(Combined(o, left, p.parse.value)) else None))
  }

  /**
   * One pass of the operator loop after taking infix operator `o` (at
   * `rightAtt`): the new left operand, or `None` to stop the loop.
   */
  function InfixStepSpec(symbols: seq<string>, att: Attribution, left: ExpressionParse, o: ExpressionOperator,
                         rightAtt: Attribution, st: LexState, problems: seq<Problem>): (r: Outcome<Parsed>)
    requires WellFormed(left)
    ensures r.Ok? ==> Follows(st, problems, r.value)
    decreases |st.source|, 4
  {
    if IsComparisonInfix(o) || IsChaining(o) || o.To? then BinarySpec(symbols, att, left, o, st, problems)
    else if o.Comma? then
      var next :- PeekSpec(symbols, st);
      if next.None? then Ok(Parsed(None, st, problems))
      else if next.value.token.Atom? then BinarySpec(symbols, att, left, Comma, st, problems)
      else Ok(Parsed(Some(left), st, problems))
    else if o.Then? then ThenSpec(symbols, att, left, rightAtt, st, problems)
    else
      var fatal := NewFatal("Not a valid infix operator", rightAtt);
      FatalAdded(problems, fatal);
      Ok(Parsed(None, st, problems + [fatal]))
  }

  /**
   * The `[,] else [,]` between the branches of `then`: each part is taken
   * when present, and a missing `else` adds a fatal problem at `rightAtt`.
   */
  /** The optional commas around `else`, and whether the `else` itself was there. */
  function ElseKeywordSpec(symbols: seq<string>, st: LexState): (r: Outcome<(bool, LexState)>)
    ensures r.Ok? ==> IsSuffix(r.value.1.source, st.source)
  {
    var comma :- MatchOperatorSpec(symbols, st, Comma);
    var otherwise :- MatchOperatorSpec(symbols, comma.state, Else);
    var comma' :- MatchOperatorSpec(symbols, otherwise.state, Comma);
    SuffixTrans(st.source, comma.state.source, otherwise.state.source);
    SuffixTrans(st.source, otherwise.state.source, comma'.state.source);
    Ok((otherwise.token.Some?, comma'.state))
  }

  /** `[,] else [,]` between the two branches; a missing `else` is reported and skipped. */
  function ElseSpec(symbols: seq<string>, rightAtt: Attribution, st: LexState, problems: seq<Problem>): (r: Outcome<Parsed>)
    ensures r.Ok? ==> Follows(st, problems, r.value) && r.value.parse.None?
  {
    var keyword :- ElseKeywordSpec(symbols, st);
    var fatal := NewFatal("Expected `else` here", rightAtt);
    FatalAdded(problems, fatal);
    Ok(Parsed(None, keyword.1, if keyword.0 then problems else problems + [fatal]))
  }

  /** The operation `condition then consequent else alternative`. */
  function Conditional(condition: ExpressionParse, consequent: ExpressionParse, alternative: ExpressionParse): (r: ExpressionParse)
    requires WellFormed(condition) && WellFormed(consequent) && WellFormed(alternative)
    ensures WellFormed(r) && r.Operation? && r.operator == Then && |r.operands| == 3
  {
    Operation(Then, [condition, consequent, alternative])
  }

  /** `left then middle [,] else [,] right`. */
  function ThenSpec(symbols: seq<string>, att: Attribution, left: ExpressionParse, rightAtt: Attribution,
                    st: LexState, problems: seq<Problem>): (r: Outcome<Parsed>)
    requires WellFormed(left)
    ensures r.Ok? ==> Follows(st, problems, r.value)
    decreases |st.source|, 3
  {
    var middle :- ParseRightSpec(symbols, att, st, Then, problems);
    if middle.parse.None? then Ok(middle)
    else
      var skipped :- ElseSpec(symbols, rightAtt, middle.state, middle.problems);
      FollowsTrans(st, problems, middle, skipped);
      var right :- ParseRightSpec(symbols, att, skipped.state, Then, skipped.problems);
      FollowsTrans(st, problems, skipped, right);
      Ok(right.(parse := if right.parse.Some? then Some(Conditional(left, middle.parse.value, right.parse.value)) else None))
  }

  // ---------------------------------------------------------------------
  // The parser

  /** The result `r` and the final cursor and problems agree with `spec`. */
  predicate Realizes(spec: Outcome<Parsed>, r: Outcome<Option<ExpressionParse>>, st: LexState, problems: seq<Problem>)
  {
    (spec.Panic? ==> r.Panic?)
    && (spec.Ok? ==> r == Ok(spec.value.parse) && st == spec.value.state && problems == spec.value.problems)
  }

  /** `Parse`: the problem list shared by one run of the parser. */
  class Parse {
    var problems: seq<Problem>

    constructor ()
      ensures problems == []
    {
      problems := [];
    }

    /** `parse_right`. */
    method ParseRight(lex: ExpressionLex, att: Attribution, outer: ExpressionOperator)
      returns (r: Outcome<Option<ExpressionParse>>)
      modifies this, lex
      ensures Realizes(ParseRightSpec(lex.table.symbols, att, old(lex.State()), outer, old(problems)), r, lex.State(), problems)
      decreases |lex.source|, 3
    {
      ghost var st0 := lex.State();
      var next :- lex.Next();
      if next.None? {
        return Ok(None);
      }
      r := Operand(lex, att, outer, next.value, st0);
    }

    /** `parse_right` after taking its first token `t` from the cursor `st0`. */
    method Operand(lex: ExpressionLex, att: Attribution, outer: ExpressionOperator, t: MarkedToken<ExpressionToken>,
                   ghost st0: LexState) returns (r: Outcome<Option<ExpressionParse>>)
      requires NextSpec(lex.table.symbols, st0) == Ok(Stepped(Some(t), lex.State()))
      modifies this, lex
      ensures Realizes(ParseRightSpec(lex.table.symbols, att, st0, outer, old(problems)), r, lex.State(), problems)
      decreases |st0.source|, 2
    {
      var leftAtt := AtMarks(att, t.startMark, t.endMark);
      match t.token {
        case Atom(a) =>
          assert ParseRightSpec(lex.table.symbols, att, st0, outer, problems)
            == ContinueSpec(lex.table.symbols, att, outer, Parsed(Some(AtomParse(a)), lex.State(), problems));
          r := Climb(lex, att, outer, AtomParse(a));
        case UnrecognizedToken =>
          r := Unrecognized(lex, att, outer, t, st0);
        case Operator(op) =>
          r := Prefixed(lex, att, outer, t, st0);
      }
    }

    /** `parse_right` after an unrecognized first token: one fatal problem, then parse on. */
    method Unrecognized(lex: ExpressionLex, att: Attribution, outer: ExpressionOperator, t: MarkedToken<ExpressionToken>,
                        ghost st0: LexState) returns (r: Outcome<Option<ExpressionParse>>)
      requires NextSpec(lex.table.symbols, st0) == Ok(Stepped(Some(t), lex.State())) && t.token.UnrecognizedToken?
      modifies this, lex
      ensures Realizes(ParseRightSpec(lex.table.symbols, att, st0, outer, old(problems)), r, lex.State(), problems)
      decreases |st0.source|, 1
    {
      ghost var symbols := lex.table.symbols;
      ghost var problems0 := problems;
      problems := problems + [NewFatal("Unrecognized token", AtMarks(att, t.startMark, t.endMark))];
      ghost var st1 := lex.State();
      ghost var problems1 := problems;
      var p :- ParseRight(lex, att, outer);
      ghost var inner := ParseRightSpec(symbols, att, st1, outer, problems1);
      assert inner.Ok? && inner.value == Parsed(p, lex.State(), problems);
      assert ParseRightSpec(symbols, att, st0, outer, problems0) == ContinueSpec(symbols, att, outer, inner.value);
      if p.None? {
        return Ok(None);
      }
      r := Climb(lex, att, outer, p.value);
    }

    /** `parse_right` after a prefix operator as first token. */
    method Prefixed(lex: ExpressionLex, att: Attribution, outer: ExpressionOperator, t: MarkedToken<ExpressionToken>,
                    ghost st0: LexState) returns (r: Outcome<Option<ExpressionParse>>)
      requires NextSpec(lex.table.symbols, st0) == Ok(Stepped(Some(t), lex.State())) && t.token.Operator?
      modifies this, lex
      ensures Realizes(ParseRightSpec(lex.table.symbols, att, st0, outer, old(problems)), r, lex.State(), problems)
      decreases |st0.source|, 1
    {
      ghost var symbols := lex.table.symbols;
      ghost var problems0 := problems;
      ghost var st1 := lex.State();
      var op := t.token.operator;
      var leftAtt := AtMarks(att, t.startMark, t.endMark);
      var p :- Prefix(lex, att, outer, op, leftAtt);
      ghost var pre := PrefixSpec(symbols, att, outer, op, leftAtt, st1, problems0);
      assert pre.Ok? && pre.value == Parsed(p, lex.State(), problems);
      if op.Of? || op.From? || op.Comma? {
        assert ParseRightSpec(symbols, att, st0, outer, problems0) == pre;
        return Ok(p);
      }
      assert ParseRightSpec(symbols, att, st0, outer, problems0) == ContinueSpec(symbols, att, outer, pre.value);
      if p.None? {
        return Ok(None);
      }
      r := Climb(lex, att, outer, p.value);
    }

    /** The prefix-operator branch of `parse_right`. */
    method Prefix(lex: ExpressionLex, att: Attribution, outer: ExpressionOperator, op: ExpressionOperator,
                  leftAtt: Attribution) returns (r: Outcome<Option<ExpressionParse>>)
      modifies this, lex
      ensures Realizes(PrefixSpec(lex.table.symbols, att, outer, op, leftAtt, old(lex.State()), old(problems)),
                       r, lex.State(), problems)
      decreases |lex.source|, 6
    {
      PrefixCases(lex.table.symbols, att, outer, op, leftAtt, lex.State(), problems);
      ghost var symbols := lex.table.symbols;
      if op.OpenParen? {
        r := Group(lex, att, leftAtt);
      } else if op.Of? || op.From? || op.Comma? {
        r := ParseRight(lex, att, outer);
      } else if op.When? {
        r := ParseRight(lex, att, When);
      } else {
        r := Unary(lex, att, outer, op, leftAtt);
      }
      assert lex.table.symbols == symbols;
    }

    /** The prefixes that take a single operand of their own: `in`, the wrapping ones and the invalid ones. */
    method Unary(lex: ExpressionLex, att: Attribution, outer: ExpressionOperator, op: ExpressionOperator,
                 leftAtt: Attribution) returns (r: Outcome<Option<ExpressionParse>>)
      modifies this, lex
      ensures Realizes(UnarySpec(lex.table.symbols, att, outer, op, leftAtt, old(lex.State()), old(problems)),
                       r, lex.State(), problems)
      decreases |lex.source|, 5
    {
      UnaryCases(lex.table.symbols, att, outer, op, leftAtt, lex.State(), problems);
      ghost var symbols := lex.table.symbols;
      if IsWrapping(op) {
        r := Wrap(lex, att, op);
      } else if op.In? {
        r := Location(lex, att);
      } else {
        r := InvalidPrefix(lex, att, outer, leftAtt);
      }
      assert lex.table.symbols == symbols;
    }

    /** A wrapping prefix: `not`, `unless` or a relabelling one. */
    method Wrap(lex: ExpressionLex, att: Attribution, op: ExpressionOperator) returns (r: Outcome<Option<ExpressionParse>>)
      requires IsWrapping(op)
      modifies this, lex
      ensures Realizes(WrapSpec(lex.table.symbols, att, old(lex.State()), op, old(problems)), r, lex.State(), problems)
      decreases |lex.source|, 4
    {
      var p :- ParseRight(lex, att, op);
      return Ok(if p.Some? then Some(Wrapped(op, p.value)) else None);
    }

    /** An operator that is no prefix. */
    method InvalidPrefix(lex: ExpressionLex, att: Attribution, outer: ExpressionOperator, leftAtt: Attribution)
      returns (r: Outcome<Option<ExpressionParse>>)
      modifies this, lex
      ensures Realizes(InvalidPrefixSpec(lex.table.symbols, att, outer, leftAtt, old(lex.State()), old(problems)),
                       r, lex.State(), problems)
      decreases |lex.source|, 4
    {
      problems := problems + [NewFatal("Not a valid prefix operator", leftAtt)];
      r := ParseRight(lex, att, outer);
    }

    /** `( inner )`: a missing `)` adds a fatal problem at the `(` but keeps the inner parse. */
    method Group(lex: ExpressionLex, att: Attribution, leftAtt: Attribution) returns (r: Outcome<Option<ExpressionParse>>)
      modifies this, lex
      ensures Realizes(GroupSpec(lex.table.symbols, att, leftAtt, old(lex.State()), old(problems)),
                       r, lex.State(), problems)
      decreases |lex.source|, 4
    {
      ghost var symbols := lex.table.symbols;
      ghost var st0 := lex.State();
      ghost var problems0 := problems;
      var inner :- ParseRight(lex, att, OpenParen);
      ghost var i := ParseRightSpec(symbols, att, st0, OpenParen, problems0);
      assert i.Ok? && i.value == Parsed(inner, lex.State(), problems);
      if inner.None? {
        return Ok(None);
      }
      ghost var st1 := lex.State();
      var close :- lex.MatchOperator(CloseParen);
      ghost var c := MatchOperatorSpec(symbols, st1, CloseParen);
      assert c.Ok? && c.value == Stepped(close, lex.State());
      if close.None? {
        problems := problems + [NewFatal("Expected a closing paren", leftAtt)];
      }
      return Ok(inner);
    }

    /** `in place`: anything but a bare reference adds a fatal problem and gives no parse. */
    method Location(lex: ExpressionLex, att: Attribution) returns (r: Outcome<Option<ExpressionParse>>)
      modifies this, lex
      ensures Realizes(LocationSpec(lex.table.symbols, att, old(lex.State()), old(problems)),
                       r, lex.State(), problems)
      decreases |lex.source|, 4
    {
      ghost var symbols := lex.table.symbols;
      ghost var st0 := lex.State();
      ghost var problems0 := problems;
      var p :- ParseRight(lex, att, In);
      ghost var i := ParseRightSpec(symbols, att, st0, In, problems0);
      assert i.Ok? && i.value == Parsed(p, lex.State(), problems);
      if p.Some? && p.value.AtomParse? && p.value.atom.Reference? {
        return Ok(Some(Operation(In, [p.value])));
      }
      problems := problems + [NewFatal("Expected a reference to a location", att)];
      return Ok(None);
    }

    /** The operator loop of `parse_right`. */
    method Climb(lex: ExpressionLex, att: Attribution, outer: ExpressionOperator, left: ExpressionParse)
      returns (r: Outcome<Option<ExpressionParse>>)
      requires WellFormed(left)
      modifies this, lex
      ensures Realizes(InfixSpec(lex.table.symbols, att, outer, left, old(lex.State()), old(problems)),
                       r, lex.State(), problems)
      decreases |lex.source|, 1
    {
      ghost var goal := InfixSpec(lex.table.symbols, att, outer, left, lex.State(), problems);
      var current := left;
      while true
        invariant WellFormed(current)
        invariant InfixSpec(lex.table.symbols, att, outer, current, lex.State(), problems) == goal
        invariant |lex.source| <= old(|lex.source|)
        decreases |lex.source|
      {
        var operatorToken :- lex.NextOperator(outer);
        if operatorToken.None? {
          return Ok(Some(current));
        }
        var t := operatorToken.value;
        var step :- InfixStep(lex, att, current, t.token.operator, AtMarks(att, t.startMark, t.endMark));
        if step.None? {
          return Ok(Some(current));
        }
        current := step.value;
      }
    }

    /** One pass of the operator loop: the new left operand, or `None` to stop. */
    method InfixStep(lex: ExpressionLex, att: Attribution, left: ExpressionParse, o: ExpressionOperator,
                     rightAtt: Attribution) returns (r: Outcome<Option<ExpressionParse>>)
      requires WellFormed(left)
      modifies this, lex
      ensures Realizes(InfixStepSpec(lex.table.symbols, att, left, o, rightAtt, old(lex.State()), old(problems)),
                       r, lex.State(), problems)
      decreases |lex.source|, 5
    {
      if IsComparisonInfix(o) || IsChaining(o) || o.To? {
        r := Binary(lex, att, left, o);
      } else if o.Comma? {
        var next :- lex.Peek();
        if next.None? {
          return Ok(None);
        } else if next.value.token.Atom? {
          r := Binary(lex, att, left, Comma);
          return;
        }
        return Ok(Some(left));
      } else if o.Then? {
        r := ThenBranch(lex, att, left, rightAtt);
      } else {
        problems := problems + [NewFatal("Not a valid infix operator", rightAtt)];
        return Ok(None);
      }
    }

    /** An infix operator's right operand, combined with `left`. */
    method Binary(lex: ExpressionLex, att: Attribution, left: ExpressionParse, o: ExpressionOperator)
      returns (r: Outcome<Option<ExpressionParse>>)
      requires WellFormed(left)
      modifies this, lex
      ensures Realizes(BinarySpec(lex.table.symbols, att, left, o, old(lex.State()), old(problems)), r, lex.State(), problems)
      decreases |lex.source|, 4
    {
      var p :- ParseRight(lex, att, o);
      return Ok(if p.Some? then Some(Combined(o, left, p.value)) else None);
    }

    /** The `then` branch of the operator loop. */
    method ThenBranch(lex: ExpressionLex, att: Attribution, left: ExpressionParse, rightAtt: Attribution)
      returns (r: Outcome<Option<ExpressionParse>>)
      requires WellFormed(left)
      modifies this, lex
      ensures Realizes(ThenSpec(lex.table.symbols, att, left, rightAtt, old(lex.State()), old(problems)),
                       r, lex.State(), problems)
      decreases |lex.source|, 4
    {
      var middle :- ParseRight(lex, att, Then);
      if middle.None? {
        return Ok(None);
      }
      var skipped :- SkipElse(lex, rightAtt);
      var right :- ParseRight(lex, att, Then);
      return Ok(if right.Some? then Some(Conditional(left, middle.value, right.value)) else None);
    }

    /** The `[,] else [,]` between the branches of `then`. */
    method SkipElse(lex: ExpressionLex, rightAtt: Attribution) returns (r: Outcome<Option<ExpressionParse>>)
      modifies this, lex
      ensures Realizes(ElseSpec(lex.table.symbols, rightAtt, old(lex.State()), old(problems)), r, lex.State(), problems)
    {
      var comma :- lex.MatchOperator(Comma);
      var otherwise :- lex.MatchOperator(Else);
      if otherwise.None? {
        problems := problems + [NewFatal("Expected `else` here", rightAtt)];
      }
      comma :- lex.MatchOperator(Comma);
      return Ok(None);
    }
  }

  // ---------------------------------------------------------------------
  // Entry points

  /** `parse_expression`: `parse_right` with the loosest rank and a fresh problem list. */
  function ExpressionSpec(symbols: seq<string>, att: Attribution, st: LexState): (r: Outcome<Parsed>)
    ensures r.Ok? ==> Follows(st, [], r.value)
    ensures r.Ok? ==> forall i :: 0 <= i < |r.value.problems| ==> r.value.problems[i].level == Fatal
  {
    ParseRightSpec(symbols, att, st, OpenParen, [])
  }

  /** `parse_tag`: nothing on blank input, `end`, `else` with an optional condition, or a condition. */
  function TagSpec(symbols: seq<string>, att: Attribution, st: LexState): (r: Outcome<(TagParsingResult, LexState)>)
    ensures r.Ok? && r.value.0.parse.Some? && r.value.0.parse.value.WhenTag? ==> WellFormed(r.value.0.parse.value.condition)
    ensures r.Ok? && r.value.0.parse == Some(EndTag) ==> r.value.0.problems == [] && r.value.1 == st
  {
    var peek :- PeekSpec(symbols, st);
    if peek.None? then Ok((TagParsingResult(None, []), st))
    else if peek.value.token == Operator(End) then Ok((TagParsingResult(Some(EndTag), []), st))
    else if peek.value.token == Operator(Else) then
      var n :- NextSpec(symbols, st);
      var e :- ExpressionSpec(symbols, att, n.state);
      Ok((TagParsingResult(Some(ElseTag(e.parse)), e.problems), e.state))
    else
      var e :- ExpressionSpec(symbols, att, st);
      Ok((TagParsingResult(if e.parse.Some? then Some(WhenTag(e.parse.value)) else None, e.problems), e.state))
  }

  /** `ExpressionParser::parse_expression`. */
  method ParseExpression(lex: ExpressionLex, att: Attribution) returns (r: Outcome<ExpressionParsingResult>)
    modifies lex
    ensures ExpressionSpec(lex.table.symbols, att, old(lex.State())).Panic? ==> r.Panic?
    ensures ExpressionSpec(lex.table.symbols, att, old(lex.State())).Ok? ==>
      var spec := ExpressionSpec(lex.table.symbols, att, old(lex.State())).value;
      r == Ok(ExpressionParsingResult(spec.parse, spec.problems)) && lex.State() == spec.state
  {
    var parse := new Parse();
    var e :- parse.ParseRight(lex, att, OpenParen);
    return Ok(ExpressionParsingResult(e, parse.problems));
  }

  /** `ExpressionParser::parse_tag`. */
  method ParseTag(lex: ExpressionLex, att: Attribution) returns (r: Outcome<TagParsingResult>)
    modifies lex
    ensures TagSpec(lex.table.symbols, att, old(lex.State())).Panic? ==> r.Panic?
    ensures TagSpec(lex.table.symbols, att, old(lex.State())).Ok? ==>
      r == Ok(TagSpec(lex.table.symbols, att, old(lex.State())).value.0)
      && lex.State() == TagSpec(lex.table.symbols, att, old(lex.State())).value.1
  {
    var peek :- lex.Peek();
    if peek.None? {
      return Ok(TagParsingResult(None, []));
    } else if peek.value.token == Operator(End) {
      return Ok(TagParsingResult(Some(EndTag), []));
    } else if peek.value.token == Operator(Else) {
      var skipped := lex.Next();
      assert skipped.Ok?;
      var e :- ParseExpression(lex, att);
      return Ok(TagParsingResult(Some(ElseTag(e.parse)), e.problems));
    }
    var e :- ParseExpression(lex, att);
    return Ok(TagParsingResult(if e.parse.Some? then Some(WhenTag(e.parse.value)) else None, e.problems));
  }

  /** `ExpressionParser::parse`: parse a whole source text from line 0, column 0. */
  method ParseSource(table: SymbolList, source: string, att: Attribution) returns (r: Outcome<ExpressionParsingResult>)
    ensures ExpressionSpec(table.symbols, att, LexState(source, DefaultMark)).Panic? ==> r.Panic?
    ensures ExpressionSpec(table.symbols, att, LexState(source, DefaultMark)).Ok? ==>
      var spec := ExpressionSpec(table.symbols, att, LexState(source, DefaultMark)).value;
      r == Ok(ExpressionParsingResult(spec.parse, spec.problems))
  {
    var lex := new ExpressionLex.Lex(table, source);
    r := ParseExpression(lex, att);
  }

  // ---------------------------------------------------------------------
  // Properties

  /** Blank input parses to nothing, adds no problem and leaves the cursor at the end. */
  lemma BlankParsesToNothing(symbols: seq<string>, att: Attribution, st: LexState, outer: ExpressionOperator,
                             problems: seq<Problem>)
    requires AllWhitespace(st.source, 0)
    ensures ParseRightSpec(symbols, att, st, outer, problems)
      == Ok(Parsed(None, LexState([], MarkAfter(st.mark, st.source)), problems))
  {
    NextAtEnd(symbols, st);
  }

  /** A blank tag parses to nothing, with no problem. */
  lemma BlankTag(symbols: seq<string>, att: Attribution, st: LexState)
    requires AllWhitespace(st.source, 0)
    ensures TagSpec(symbols, att, st) == Ok((TagParsingResult(None, []), st))
  {
    NextAtEnd(symbols, st);
    PeekIsNext(symbols, st);
  }

  /** A tag whose first token is `end` is the end tag, with no problem, and the cursor stays where it was. */
  lemma TagEnd(symbols: seq<string>, att: Attribution, st: LexState, t: MarkedToken<ExpressionToken>, st': LexState)
    requires NextSpec(symbols, st) == Ok(Stepped(Some(t), st')) && t.token == Operator(End)
    ensures TagSpec(symbols, att, st) == Ok((TagParsingResult(Some(EndTag), []), st))
  {
    PeekIsNext(symbols, st);
  }

  /**
   * A tag whose first token is `else` is an else tag whose condition is
   * the expression parsed from the rest, with that expression's problems.
   */
  lemma TagElse(symbols: seq<string>, att: Attribution, st: LexState, t: MarkedToken<ExpressionToken>, st': LexState)
    requires NextSpec(symbols, st) == Ok(Stepped(Some(t), st')) && t.token == Operator(Else)
    ensures TagSpec(symbols, att, st).Panic? <==> ExpressionSpec(symbols, att, st').Panic?
    ensures ExpressionSpec(symbols, att, st').Ok? ==>
      var e := ExpressionSpec(symbols, att, st').value;
      TagSpec(symbols, att, st) == Ok((TagParsingResult(Some(ElseTag(e.parse)), e.problems), e.state))
  {
    PeekIsNext(symbols, st);
  }

  /**
   * Any other first token starts a condition: the tag is a when tag
   * exactly when the whole tag parses to an expression, which becomes its
   * condition, and it never is an else or end tag.
   */
  lemma TagWhen(symbols: seq<string>, att: Attribution, st: LexState, t: MarkedToken<ExpressionToken>, st': LexState)
    requires NextSpec(symbols, st) == Ok(Stepped(Some(t), st')) && t.token != Operator(End) && t.token != Operator(Else)
    ensures TagSpec(symbols, att, st).Panic? <==> ExpressionSpec(symbols, att, st).Panic?
    ensures ExpressionSpec(symbols, att, st).Ok? ==>
      var e := ExpressionSpec(symbols, att, st).value;
      var r := TagSpec(symbols, att, st).value.0;
      (r.parse.Some? <==> e.parse.Some?)
      && (e.parse.Some? ==> r.parse == Some(WhenTag(e.parse.value)))
      && r.problems == e.problems && TagSpec(symbols, att, st).value.1 == e.state
  {
    PeekIsNext(symbols, st);
  }

  /** The word `end`, when no symbol matches it, is read as the end tag. */
  lemma EndWordTag(symbols: seq<string>, att: Attribution, m: Mark)
    requires FirstMatch(symbols, "end") == None
    ensures TagSpec(symbols, att, LexState("end", m)) == Ok((TagParsingResult(Some(EndTag), []), LexState("end", m)))
  {
    var after := Mark(m.line, m.column + Utf8Length("end"));
    EndWordNext(symbols, m, after);
    TagEnd(symbols, att, LexState("end", m), MarkedToken(Operator(End), m, after), LexState([], after));
  }

  /** `next` on the word `end` takes the `End` operator and leaves nothing. */
  lemma EndWordNext(symbols: seq<string>, m: Mark, after: Mark)
    requires FirstMatch(symbols, "end") == None && after == Mark(m.line, m.column + Utf8Length("end"))
    ensures NextSpec(symbols, LexState("end", m)) == Ok(Stepped(Some(MarkedToken(Operator(End), m, after)), LexState([], after)))
  {
    var s := "end";
    EndWordScan(symbols, m);
    assert s[3..] == [];
  }

  /** The word `end`, when no symbol matches it, scans as the `End` operator over all three chars. */
  lemma EndWordScan(symbols: seq<string>, m: Mark)
    requires FirstMatch(symbols, "end") == None
    ensures ScanFrom(symbols, "end", 0, m) == Ok(Advanced(3, Some(Operator(End)), Mark(m.line, m.column + Utf8Length("end"))))
  {
    var s := "end";
    assert s[0..] == s;
    WordOfThree(s);
    assert Lowercase(s) == "end";
    assert Keyword("end") == Operator(End);
    ScanWordToken(symbols, s, 0, m);
  }

  /** A run of three ASCII letters with nothing after them is one word. */
  lemma WordOfThree(s: string)
    requires |s| == 3 && forall k :: 0 <= k < 3 ==> 'a' <= s[k] <= 'z'
    ensures Run(s, 0, Alphanumerics) == 3 && s[0..3] == s
  {
    assert Run(s, 2, Alphanumerics) == 1;
  }

  /** A numeral below 2^32 parses to its value, with no problem. */
  lemma NumeralParses(symbols: seq<string>, att: Attribution, n: nat, m: Mark)
    requires n < U32Limit
    ensures var after := Mark(m.line, m.column + |NatToString(n)|);
      ExpressionSpec(symbols, att, LexState(NatToString(n), m))
      == Ok(Parsed(Some(AtomParse(NumericLiteral(n))), LexState([], after), []))
  {
    NumeralOperand(symbols, att, n, m, OpenParen, []);
  }

  /** A numeral alone is an operand whatever the surrounding rank. */
  lemma NumeralOperand(symbols: seq<string>, att: Attribution, n: nat, m: Mark, outer: ExpressionOperator, problems: seq<Problem>)
    requires n < U32Limit
    ensures var after := Mark(m.line, m.column + |NatToString(n)|);
      ParseRightSpec(symbols, att, LexState(NatToString(n), m), outer, problems)
      == Ok(Parsed(Some(AtomParse(NumericLiteral(n))), LexState([], after), problems))
  {
    var s := NatToString(n);
    NumeralNext(symbols, n, m);
    var after := Mark(m.line, m.column + |s|);
    var a := AtomParse(NumericLiteral(n));
    InfixAtEnd(symbols, att, outer, a, after, problems);
    AtomFirst(symbols, att, LexState(s, m), outer, problems, NumericLiteral(n), after, LexState([], after));
  }

  /** An operand that starts with an atom continues with the operator loop after it. */
  lemma AtomFirst(symbols: seq<string>, att: Attribution, st: LexState, outer: ExpressionOperator, problems: seq<Problem>,
                  a: ExpressionAtom, after: Mark, st': LexState)
    requires NextSpec(symbols, st) == Ok(Stepped(Some(MarkedToken(Atom(a), st.mark, after)), st'))
    ensures ParseRightSpec(symbols, att, st, outer, problems)
            == ContinueSpec(symbols, att, outer, Parsed(Some(AtomParse(a)), st', problems))
  {
  }

  /** `PrefixSpec` case by case. */
  lemma PrefixCases(symbols: seq<string>, att: Attribution, outer: ExpressionOperator, op: ExpressionOperator,
                    leftAtt: Attribution, st: LexState, problems: seq<Problem>)
    ensures PrefixSpec(symbols, att, outer, op, leftAtt, st, problems)
            == if op.OpenParen? then GroupSpec(symbols, att, leftAtt, st, problems)
               else if op.Of? || op.From? || op.Comma? then ParseRightSpec(symbols, att, st, outer, problems)
               else if op.When? then ParseRightSpec(symbols, att, st, When, problems)
               else UnarySpec(symbols, att, outer, op, leftAtt, st, problems)
  {
  }

  /** `UnarySpec` case by case. */
  lemma UnaryCases(symbols: seq<string>, att: Attribution, outer: ExpressionOperator, op: ExpressionOperator,
                   leftAtt: Attribution, st: LexState, problems: seq<Problem>)
    ensures UnarySpec(symbols, att, outer, op, leftAtt, st, problems)
            == if IsWrapping(op) then WrapSpec(symbols, att, st, op, problems)
               else if op.In? then LocationSpec(symbols, att, st, problems)
               else InvalidPrefixSpec(symbols, att, outer, leftAtt, st, problems)
  {
  }

  /** At the end of the input the operator loop returns its operand unchanged. */
  lemma InfixAtEnd(symbols: seq<string>, att: Attribution, outer: ExpressionOperator, left: ExpressionParse, m: Mark,
                   problems: seq<Problem>)
    requires WellFormed(left)
    ensures InfixSpec(symbols, att, outer, left, LexState([], m), problems) == Ok(Parsed(Some(left), LexState([], m), problems))
  {
    AtEnd(symbols, m, outer);
  }

  /** At the end of the input no operator is taken. */
  lemma AtEnd(symbols: seq<string>, m: Mark, outer: ExpressionOperator)
    ensures NextOperatorSpec(symbols, LexState([], m), outer) == Ok(Stepped(None, LexState([], m)))
  {
  }

  /** One digit not followed by another is a numeric token of one column. */
  lemma DigitToken(symbols: seq<string>, s: string, m: Mark)
    requires |s| >= 1 && IsAsciiDigit(s[0]) && (|s| == 1 || !IsAsciiDigit(s[1]))
    ensures var after := Mark(m.line, m.column + 1);
      NextSpec(symbols, LexState(s, m))
      == Ok(Stepped(Some(MarkedToken(Atom(NumericLiteral(DigitValue(s[0]))), m, after)), LexState(s[1..], after)))
  {
    var d := s[0];
    assert !IsWhitespace(d);
    assert Run(s, 0, Digits) == 1 by {
      assert Run(s, 1, Digits) == 0;
    }
    var run := s[0..1];
    assert run == [d] && AllDigits(run) && run[0] != '+';
    assert DecimalValue(run) == DigitValue(d) by {
      assert run[..0] == [];
    }
    assert ParseU32(run) == Some(DigitValue(d));
    assert ScanFrom(symbols, s, 0, m) == ScanNumeral(s, 0, m);
  }

  /** The one-char operators `+ - * / ( ) ,`. */
  predicate IsOneChar(o: ExpressionOperator)
  {
    IsArithmetic(o) || o.OpenParen? || o.CloseParen? || o.Comma?
  }

  /** The one char that spells a one-char operator. */
  function Spelling(o: ExpressionOperator): (c: char)
    requires IsOneChar(o)
    ensures Display(o) == [c]
  {
    match o
    case Plus => '+'
    case Minus => '-'
    case Multiply => '*'
    case Divide => '/'
    case OpenParen => '('
    case CloseParen => ')'
    case Comma => ','
  }

  /** A one-char operator is taken by `next_operator` exactly when it ranks at least `outer`. */
  lemma OperatorToken(symbols: seq<string>, s: string, m: Mark, o: ExpressionOperator, outer: ExpressionOperator)
    requires IsOneChar(o) && |s| >= 1 && s[0] == Spelling(o)
    ensures var after := Mark(m.line, m.column + 1);
      NextOperatorSpec(symbols, LexState(s, m), outer)
      == if AtLeast(o, outer) then Ok(Stepped(Some(MarkedToken(Operator(o), m, after)), LexState(s[1..], after)))
         else Ok(Stepped(None, LexState(s, m)))
  {
    OneCharPunctuation(s, o);
    assert AdvanceSpec(symbols, LexState(s, m)) == Ok(Advanced(1, Some(Operator(o)), Mark(m.line, m.column + 1)));
  }

  lemma OneCharPunctuation(s: string, o: ExpressionOperator)
    requires IsOneChar(o) && |s| >= 1 && s[0] == Spelling(o)
    ensures !IsWhitespace(s[0]) && !IsAsciiDigit(s[0]) && !IsAlphanumeric(s[0]) && Utf8Len(s[0]) == 1
    ensures Punctuation(s, 0) == (1, Operator(o))
  {
    match o
    case Plus => assert s[0] == '+';
    case Minus => assert s[0] == '-';
    case Multiply => assert s[0] == '*';
    case Divide => assert s[0] == '/';
    case OpenParen => assert s[0] == '(';
    case CloseParen => assert s[0] == ')';
    case Comma => assert s[0] == ',';
  }

  /** An atom as first token: the operator loop takes over with the atom as left operand. */
  lemma OperandStep(symbols: seq<string>, att: Attribution, st: LexState, outer: ExpressionOperator,
                    problems: seq<Problem>, atom: ExpressionAtom, t: MarkedToken<ExpressionToken>, st': LexState)
    requires t.token == Atom(atom) && NextSpec(symbols, st) == Ok(Stepped(Some(t), st'))
    ensures ParseRightSpec(symbols, att, st, outer, problems) == InfixSpec(symbols, att, outer, AtomParse(atom), st', problems)
  {
  }

  /** The loop stops when `next_operator` takes nothing. */
  lemma InfixStop(symbols: seq<string>, att: Attribution, outer: ExpressionOperator, left: ExpressionParse,
                  st: LexState, problems: seq<Problem>)
    requires WellFormed(left) && NextOperatorSpec(symbols, st, outer) == Ok(Stepped(None, st))
    ensures InfixSpec(symbols, att, outer, left, st, problems) == Ok(Parsed(Some(left), st, problems))
  {
  }

  /** The loop goes on with the operation a chaining operator builds. */
  lemma ChainStep(symbols: seq<string>, att: Attribution, outer: ExpressionOperator, left: ExpressionParse,
                  st: LexState, problems: seq<Problem>, t: MarkedToken<ExpressionToken>, st': LexState, right: Parsed)
    requires WellFormed(left) && t.token.Operator? && IsChaining(t.token.operator)
    requires NextOperatorSpec(symbols, st, outer) == Ok(Stepped(Some(t), st'))
    requires ParseRightSpec(symbols, att, st', t.token.operator, problems) == Ok(right) && right.parse.Some?
    ensures InfixSpec(symbols, att, outer, left, st, problems)
      == InfixSpec(symbols, att, outer, Chain(t.token.operator, left, right.parse.value), right.state, right.problems)
  {
    var o := t.token.operator;
    var step := InfixStepSpec(symbols, att, left, o, AtMarks(att, t.startMark, t.endMark), st', problems);
    assert step == BinarySpec(symbols, att, left, o, st', problems);
    assert BinarySpec(symbols, att, left, o, st', problems)
      == Ok(Parsed(Some(Chain(o, left, right.parse.value)), right.state, right.problems));
    var n := NextOperatorSpec(symbols, st, outer);
    assert n.Ok? && n.value.token == Some(t) && n.value.state == st';
    assert InfixSpec(symbols, att, outer, left, st, problems)
      == InfixSpec(symbols, att, outer, step.value.parse.value, step.value.state, step.value.problems);
  }

  /** One digit at the end of the input parses to its value. */
  lemma LastDigit(symbols: seq<string>, att: Attribution, s: string, m: Mark, outer: ExpressionOperator,
                  problems: seq<Problem>)
    requires |s| == 1 && IsAsciiDigit(s[0])
    ensures ParseRightSpec(symbols, att, LexState(s, m), outer, problems)
      == Ok(Parsed(Some(AtomParse(NumericLiteral(DigitValue(s[0])))), LexState([], Mark(m.line, m.column + 1)), problems))
  {
    var after := Mark(m.line, m.column + 1);
    DigitToken(symbols, s, m);
    OperandStep(symbols, att, LexState(s, m), outer, problems, NumericLiteral(DigitValue(s[0])),
                MarkedToken(Atom(NumericLiteral(DigitValue(s[0]))), m, after), LexState(s[1..], after));
    AtEnd(symbols, after, outer);
    assert s[1..] == [];
    InfixStop(symbols, att, outer, AtomParse(NumericLiteral(DigitValue(s[0]))), LexState([], after), problems);
  }

  /** `d o rest`: a digit then a chaining operator, whose right operand parses to `right`. */
  lemma DigitThenChain(symbols: seq<string>, att: Attribution, s: string, m: Mark, outer: ExpressionOperator,
                       o: ExpressionOperator, right: Parsed)
    requires |s| >= 2 && IsAsciiDigit(s[0]) && IsOneChar(o) && IsChaining(o) && s[1] == Spelling(o) && AtLeast(o, outer)
    requires ParseRightSpec(symbols, att, LexState(s[2..], Mark(m.line, m.column + 2)), o, []) == Ok(right)
    requires right.parse.Some?
    ensures ParseRightSpec(symbols, att, LexState(s, m), outer, [])
      == InfixSpec(symbols, att, outer, Chain(o, AtomParse(NumericLiteral(DigitValue(s[0]))), right.parse.value),
                   right.state, right.problems)
  {
    var d := AtomParse(NumericLiteral(DigitValue(s[0])));
    var m1, m2 := Mark(m.line, m.column + 1), Mark(m.line, m.column + 2);
    OneCharPunctuation(s[1..], o);
    DigitToken(symbols, s, m);
    OperandStep(symbols, att, LexState(s, m), outer, [], NumericLiteral(DigitValue(s[0])),
                MarkedToken(Atom(NumericLiteral(DigitValue(s[0]))), m, m1), LexState(s[1..], m1));
    OperatorToken(symbols, s[1..], m1, o, outer);
    assert s[1..][1..] == s[2..];
    ChainStep(symbols, att, outer, d, LexState(s[1..], m1), [], MarkedToken(Operator(o), m1, m2), LexState(s[2..], m2), right);
  }

  /** `d o e` at the end of the input, with `o` a chaining operator. */
  lemma DigitChainDigit(symbols: seq<string>, att: Attribution, s: string, m: Mark, outer: ExpressionOperator,
                        o: ExpressionOperator)
    requires |s| == 3 && IsAsciiDigit(s[0]) && IsAsciiDigit(s[2]) && IsOneChar(o) && IsChaining(o)
    requires s[1] == Spelling(o) && AtLeast(o, outer)
    ensures ParseRightSpec(symbols, att, LexState(s, m), outer, [])
      == Ok(Parsed(Some(Operation(o, [AtomParse(NumericLiteral(DigitValue(s[0]))), AtomParse(NumericLiteral(DigitValue(s[2])))])),
                   LexState([], Mark(m.line, m.column + 3)), []))
  {
    var end := LexState([], Mark(m.line, m.column + 3));
    var e := AtomParse(NumericLiteral(DigitValue(s[2])));
    assert s[2..] == [s[2]];
    LastDigit(symbols, att, s[2..], Mark(m.line, m.column + 2), o, []);
    DigitThenChain(symbols, att, s, m, outer, o, Parsed(Some(e), end, []));
    AtEnd(symbols, end.mark, outer);
    InfixStop(symbols, att, outer, Chain(o, AtomParse(NumericLiteral(DigitValue(s[0]))), e), end, []);
  }

  /**
   * `d o e p f` with `p` ranked at least `o`: the right operand of `o` is
   * the whole of `e p f`.
   */
  lemma RightNests(symbols: seq<string>, att: Attribution, s: string, o: ExpressionOperator, p: ExpressionOperator)
    requires |s| == 5 && IsAsciiDigit(s[0]) && IsAsciiDigit(s[2]) && IsAsciiDigit(s[4])
    requires IsOneChar(o) && IsChaining(o) && s[1] == Spelling(o) && AtLeast(o, OpenParen)
    requires IsOneChar(p) && IsChaining(p) && s[3] == Spelling(p) && AtLeast(p, o)
    ensures ExpressionSpec(symbols, att, LexState(s, Mark(0, 0)))
      == Ok(Parsed(Some(Chain(o, AtomParse(NumericLiteral(DigitValue(s[0]))),
                              Operation(p, [AtomParse(NumericLiteral(DigitValue(s[2]))), AtomParse(NumericLiteral(DigitValue(s[4])))]))),
                   LexState([], Mark(0, 5)), []))
  {
    var d := AtomParse(NumericLiteral(DigitValue(s[0])));
    var end := LexState([], Mark(0, 5));
    var right := Operation(p, [AtomParse(NumericLiteral(DigitValue(s[2]))), AtomParse(NumericLiteral(DigitValue(s[4])))]);
    assert s[2..][0] == s[2] && s[2..][1] == s[3] && s[2..][2] == s[4];
    DigitChainDigit(symbols, att, s[2..], Mark(0, 2), o, p);
    assert s[2..][3..] == [];
    DigitThenChain(symbols, att, s, Mark(0, 0), OpenParen, o, Parsed(Some(right), end, []));
    AtEnd(symbols, end.mark, OpenParen);
    InfixStop(symbols, att, OpenParen, Chain(o, d, right), end, []);
  }

  /** `1+2*4`: the tighter operator on the right nests inside the looser one. */
  lemma TighterOnTheRight(symbols: seq<string>, att: Attribution, s: string)
    requires s == "1+2*4"
    ensures ExpressionSpec(symbols, att, LexState(s, Mark(0, 0)))
      == Ok(Parsed(Some(Operation(Plus, [AtomParse(NumericLiteral(1)),
                                         Operation(Multiply, [AtomParse(NumericLiteral(2)), AtomParse(NumericLiteral(4))])])),
                   LexState([], Mark(0, 5)), []))
  {
    RightNests(symbols, att, s, Plus, Multiply);
  }

  /** `1+2+4`: a chain of one operator flattens into one operation. */
  lemma ChainFlattens(symbols: seq<string>, att: Attribution, s: string)
    requires s == "1+2+4"
    ensures ExpressionSpec(symbols, att, LexState(s, Mark(0, 0)))
      == Ok(Parsed(Some(Operation(Plus, [AtomParse(NumericLiteral(1)), AtomParse(NumericLiteral(2)),
                                         AtomParse(NumericLiteral(4))])),
                   LexState([], Mark(0, 5)), []))
  {
    RightNests(symbols, att, s, Plus, Plus);
    // The right operand 2+4 takes 1 as its first operand.
    ChainOfSame(Plus, AtomParse(NumericLiteral(1)), AtomParse(NumericLiteral(2)), AtomParse(NumericLiteral(4)));
  }

  lemma ChainOfSame(o: ExpressionOperator, a: ExpressionParse, b: ExpressionParse, c: ExpressionParse)
    requires WellFormed(a) && WellFormed(b) && WellFormed(c)
    ensures Chain(o, a, Operation(o, [b, c])) == Operation(o, [a, b, c])
  {
    assert [a] + [b, c] == [a, b, c];
  }

  /**
   * `d o e p …` at the outermost rank, with `p` an arithmetic operator
   * ranked below `o`: the operand of `o` stops at `e` and the loop outside
   * goes on from `p` with `d o e` as left operand.
   */
  lemma LooserFollows(symbols: seq<string>, att: Attribution, s: string, m: Mark, outer: ExpressionOperator,
                      o: ExpressionOperator, p: ExpressionOperator)
    requires |s| >= 4 && IsAsciiDigit(s[0]) && IsAsciiDigit(s[2]) && IsOneChar(o) && IsChaining(o)
    requires s[1] == Spelling(o) && AtLeast(o, outer) && IsOneChar(p) && s[3] == Spelling(p) && !AtLeast(p, o)
    requires IsArithmetic(p) && outer == OpenParen
    ensures ParseRightSpec(symbols, att, LexState(s, m), outer, [])
      == InfixSpec(symbols, att, outer,
                   Operation(o, [AtomParse(NumericLiteral(DigitValue(s[0]))), AtomParse(NumericLiteral(DigitValue(s[2])))]),
                   LexState(s[3..], Mark(m.line, m.column + 3)), [])
  {
    var e := AtomParse(NumericLiteral(DigitValue(s[2])));
    var m2, m3 := Mark(m.line, m.column + 2), Mark(m.line, m.column + 3);
    var rest := LexState(s[3..], m3);
    assert s[2..][1..] == s[3..];
    DigitToken(symbols, s[2..], m2);
    OperandStep(symbols, att, LexState(s[2..], m2), o, [], NumericLiteral(DigitValue(s[2])),
                MarkedToken(Atom(NumericLiteral(DigitValue(s[2]))), m2, m3), rest);
    OperatorToken(symbols, s[3..], m3, p, o);
    InfixStop(symbols, att, o, e, rest, []);
    DigitThenChain(symbols, att, s, m, outer, o, Parsed(Some(e), rest, []));
  }

  /** After a left operand, an outermost chaining operator and one digit end the expression as one more chain link. */
  lemma ChainedLastDigit(symbols: seq<string>, att: Attribution, t: string, m: Mark, left: ExpressionParse, p: ExpressionOperator)
    requires WellFormed(left) && |t| == 2 && IsOneChar(p) && IsChaining(p) && t[0] == Spelling(p) && IsAsciiDigit(t[1])
    requires AtLeast(p, OpenParen)
    ensures InfixSpec(symbols, att, OpenParen, left, LexState(t, m), [])
      == Ok(Parsed(Some(Chain(p, left, AtomParse(NumericLiteral(DigitValue(t[1]))))), LexState([], Mark(m.line, m.column + 2)), []))
  {
    var digit := AtomParse(NumericLiteral(DigitValue(t[1])));
    var after := Mark(m.line, m.column + 1);
    var end := LexState([], Mark(m.line, m.column + 2));
    LastDigit(symbols, att, t[1..], after, p, []);
    OperatorToken(symbols, t, m, p, OpenParen);
    ChainStep(symbols, att, OpenParen, left, LexState(t, m), [], MarkedToken(Operator(p), m, after),
              LexState(t[1..], after), Parsed(Some(digit), end, []));
    AtEnd(symbols, end.mark, OpenParen);
    InfixStop(symbols, att, OpenParen, Chain(p, left, digit), end, []);
  }

  /**
   * `d o e p f` with `p` ranked below `o`: `d o e` becomes the left operand
   * of `p`.
   */
  lemma LeftNests(symbols: seq<string>, att: Attribution, s: string, o: ExpressionOperator, p: ExpressionOperator)
    requires |s| == 5 && IsAsciiDigit(s[0]) && IsAsciiDigit(s[2]) && IsAsciiDigit(s[4])
    requires IsArithmetic(o) && IsArithmetic(p) && s[1] == Spelling(o) && s[3] == Spelling(p) && !AtLeast(p, o)
    ensures ExpressionSpec(symbols, att, LexState(s, Mark(0, 0)))
      == Ok(Parsed(Some(Chain(p, Operation(o, [AtomParse(NumericLiteral(DigitValue(s[0]))), AtomParse(NumericLiteral(DigitValue(s[2])))]),
                              AtomParse(NumericLiteral(DigitValue(s[4]))))),
                   LexState([], Mark(0, 5)), []))
  {
    var left := Operation(o, [AtomParse(NumericLiteral(DigitValue(s[0]))), AtomParse(NumericLiteral(DigitValue(s[2])))]);
    LooserFollows(symbols, att, s, Mark(0, 0), OpenParen, o, p);
    // The outer loop then takes `p` with `d o e` on its left.
    assert s[3..][0] == s[3] && s[3..][1] == s[4];
    ChainedLastDigit(symbols, att, s[3..], Mark(0, 3), left, p);
  }

  /** `1*2+4`: a looser operator on the right ends the tighter one's operand. */
  lemma LooserOnTheRight(symbols: seq<string>, att: Attribution, s: string)
    requires s == "1*2+4"
    ensures ExpressionSpec(symbols, att, LexState(s, Mark(0, 0)))
      == Ok(Parsed(Some(Operation(Plus, [Operation(Multiply, [AtomParse(NumericLiteral(1)), AtomParse(NumericLiteral(2))]),
                                         AtomParse(NumericLiteral(4))])),
                   LexState([], Mark(0, 5)), []))
  {
    LeftNests(symbols, att, s, Multiply, Plus);
  }

}
