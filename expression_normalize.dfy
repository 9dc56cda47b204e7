/**
 * `normalize_expression`: constant folding over a parsed expression.
 *
 * Each operand is normalised in turn, left to right, and folded into a
 * running constant or kept; a literal that decides the whole operation
 * returns at once, before the operands after it are normalised. The
 * arithmetic is `u32` arithmetic, and an overflow or underflow aborts, as
 * checked arithmetic does: that abort is `Panic`.
 */
module ExpressionNormalizer {
  import opened Common
  import opened ExpressionTokens
  import opened ExpressionParser

  function NumberParse(n: nat): ExpressionParse
  {
    AtomParse(NumericLiteral(n))
  }

  function TruthParse(b: bool): ExpressionParse
  {
    AtomParse(LogicalLiteral(b))
  }

  /** The truth of a literal operand: a number is true when it is positive. Not a literal: `None`. */
  function LiteralTruth(p: ExpressionParse): (t: Option<bool>)
    ensures t.Some? <==> p.AtomParse? && !p.atom.Reference?
  {
    match p
    case AtomParse(NumericLiteral(n)) => Some(n > 0)
    case AtomParse(LogicalLiteral(b)) => Some(b)
    case _ => None
  }

  /** The operators the normaliser folds; every other operation only has its operands normalised. */
  predicate IsFolding(o: ExpressionOperator)
  {
    o.Not? || o.And? || o.Or? || IsArithmetic(o) || o.Maximum? || o.Minimum?
  }

  /** The operator a folded operation comes back with: `Minimum` is rebuilt as `Maximum`, as written. */
  function RebuiltAs(o: ExpressionOperator): ExpressionOperator
  {
    if o == Minimum then Maximum else o
  }

  /** True when no operand is a literal. */
  predicate NoLiterals(operands: seq<ExpressionParse>)
  {
    forall k :: 0 <= k < |operands| ==> LiteralTruth(operands[k]).None?
  }

  function Normalize(e: ExpressionParse): (r: Outcome<ExpressionParse>)
    ensures e.AtomParse? ==> r == Ok(e)
    ensures r.Ok? && e.Operation? && r.value.Operation? ==> r.value.operator == RebuiltAs(e.operator)
    ensures e.Operation? && e.operator == Not && |e.operands| == 0 ==> r.Panic?
    ensures e.Operation? && e.operator == Not && |e.operands| > 0 && LiteralTruth(e.operands[0]).Some?
            ==> r == Ok(TruthParse(!LiteralTruth(e.operands[0]).value))
    ensures r.Ok? && e.Operation? && (e.operator == And || e.operator == Or)
            ==> r.value == TruthParse(e.operator == Or) || (r.value.Operation? && NoLiterals(r.value.operands))
    ensures r.Ok? && e.Operation? && !IsFolding(e.operator)
            ==> r.value.Operation? && |r.value.operands| == |e.operands|
    decreases e, 1
  {
    match e
    case AtomParse(_) => Ok(e)
    case Operation(o, operands) =>
      if o == Not then
        if |operands| == 0 then Panic
        else
          var operand :- Normalize(operands[0]);
          var t := LiteralTruth(operand);
          Ok(if t.Some? then TruthParse(!t.value) else Operation(Not, [operand]))
      else if o == And || o == Or then JunctionFold(e, 0, [])
      else if o == Plus then PlusFold(e, 0, 0, [])
      else if o == Multiply then MultiplyFold(e, 0, 1, [])
      else if o == Minus then MinusFold(e, 0, None, [])
      else if o == Divide then DivideFold(e, 0, None, [])
      else if o == Maximum then MaximumFold(e, 0, 0, [])
      else if o == Minimum then MinimumFold(e, 0, None, [])
      else OperandsFold(e, 0, [])
  }

  /**
   * `and` and `or` from operand `i` on, with the kept operands in `result`:
   * a literal of the absorbing truth (false for `and`, true for `or`) decides
   * the operation, any other literal is dropped.
   */
  function JunctionFold(e: ExpressionParse, i: nat, result: seq<ExpressionParse>): (r: Outcome<ExpressionParse>)
    requires e.Operation? && (e.operator == And || e.operator == Or) && i <= |e.operands|
    ensures r.Ok? ==> r.value == TruthParse(e.operator == Or)
                      || (r.value.Operation? && r.value.operator == e.operator
                          && |result| <= |r.value.operands| && r.value.operands[..|result|] == result
                          && NoLiterals(r.value.operands[|result|..]))
    decreases e, 0, |e.operands| - i
  {
    if i == |e.operands| then Ok(Operation(e.operator, result))
    else
      var operand :- Normalize(e.operands[i]);
      var t := LiteralTruth(operand);
      if t == Some(e.operator == Or) then Ok(TruthParse(e.operator == Or))
      else
        var p :- JunctionFold(e, i + 1, if t.Some? then result else result + [operand]);
        assert t.None? && p.Operation? ==> p.operands[|result|..] == [operand] + p.operands[|result| + 1..];
        Ok(p)
  }

  /**
   * `+`: literals add up into `constant`; when it ends positive a literal is
   * pushed, and the literal pushed is 0, as written.
   */
  function PlusFold(e: ExpressionParse, i: nat, constant: nat, result: seq<ExpressionParse>): (r: Outcome<ExpressionParse>)
    requires e.Operation? && e.operator == Plus && i <= |e.operands|
    ensures r.Ok? && r.value.Operation? ==> r.value.operator == Plus
    decreases e, 0, |e.operands| - i
  {
    if i == |e.operands| then
      var result' := if constant > 0 then result + [NumberParse(0)] else result;
      Ok(if result' == [] then NumberParse(0) else Operation(Plus, result'))
    else
      var operand :- Normalize(e.operands[i]);
      match operand
      case AtomParse(NumericLiteral(n)) =>
        if constant + n >= U32Limit then Panic else PlusFold(e, i + 1, constant + n, result)
      case AtomParse(LogicalLiteral(b)) =>
        if !b then PlusFold(e, i + 1, constant, result)
        else if constant + 1 >= U32Limit then Panic
        else PlusFold(e, i + 1, constant + 1, result)
      case _ => PlusFold(e, i + 1, constant, result + [operand])
  }

  /**
   * `*`: a zero or false operand makes the whole product 0; other literals
   * multiply into `constant`; when it ends above 1 a literal 0 is pushed,
   * as written.
   */
  function MultiplyFold(e: ExpressionParse, i: nat, constant: nat, result: seq<ExpressionParse>): (r: Outcome<ExpressionParse>)
    requires e.Operation? && e.operator == Multiply && i <= |e.operands|
    ensures r.Ok? && r.value.Operation? ==> r.value.operator == Multiply
    decreases e, 0, |e.operands| - i
  {
    if i == |e.operands| then
      var result' := if constant > 1 then result + [NumberParse(0)] else result;
      Ok(if result' == [] then NumberParse(1) else Operation(Multiply, result'))
    else
      var operand :- Normalize(e.operands[i]);
      match operand
      case AtomParse(NumericLiteral(n)) =>
        if n == 0 then Ok(NumberParse(0))
        else if constant * n >= U32Limit then Panic
        else MultiplyFold(e, i + 1, constant * n, result)
      case AtomParse(LogicalLiteral(b)) =>
        if !b then Ok(NumberParse(0)) else MultiplyFold(e, i + 1, constant, result)
      case _ => MultiplyFold(e, i + 1, constant, result + [operand])
  }

  /** The constant pending before an operand that is not a literal, flushed into `result`. */
  function Flush(constant: Option<nat>, result: seq<ExpressionParse>): seq<ExpressionParse>
  {
    if constant.Some? then result + [NumberParse(constant.value)] else result
  }

  /** The end of `-` and `/`: a pending constant is the whole value if nothing else was kept. */
  function Close(o: ExpressionOperator, constant: Option<nat>, result: seq<ExpressionParse>): (r: ExpressionParse)
    ensures r.Operation? ==> r.operator == o
  {
    if constant.Some? && result == [] then NumberParse(constant.value)
    else Operation(o, Flush(constant, result))
  }

  /**
   * `-`: a run of literals subtracts into `constant`, which is pushed before
   * the next operand that is not a literal. `true` counts as 1 once a
   * constant is pending, `false` starts one at 0.
   */
  function MinusFold(e: ExpressionParse, i: nat, constant: Option<nat>, result: seq<ExpressionParse>): (r: Outcome<ExpressionParse>)
    requires e.Operation? && e.operator == Minus && i <= |e.operands|
    ensures r.Ok? && r.value.Operation? ==> r.value.operator == Minus
    decreases e, 0, |e.operands| - i
  {
    if i == |e.operands| then Ok(Close(Minus, constant, result))
    else
      var operand :- Normalize(e.operands[i]);
      match operand
      case AtomParse(NumericLiteral(n)) =>
        if constant.None? then MinusFold(e, i + 1, Some(n), result)
        else if n > constant.value then Panic
        else MinusFold(e, i + 1, Some(constant.value - n), result)
      case AtomParse(LogicalLiteral(b)) =>
        if b then
          if constant.None? then MinusFold(e, i + 1, constant, result)
          else if constant.value == 0 then Panic
          else MinusFold(e, i + 1, Some(constant.value - 1), result)
        else MinusFold(e, i + 1, if constant.None? then Some(0) else constant, result)
      case _ => MinusFold(e, i + 1, None, Flush(constant, result) + [operand])
  }

  /**
   * `/`: a zero or false operand makes the whole quotient 0; a run of
   * literals divides into `constant`, with `true` starting one at 1.
   */
  function DivideFold(e: ExpressionParse, i: nat, constant: Option<nat>, result: seq<ExpressionParse>): (r: Outcome<ExpressionParse>)
    requires e.Operation? && e.operator == Divide && i <= |e.operands|
    ensures r.Ok? && r.value.Operation? ==> r.value.operator == Divide
    decreases e, 0, |e.operands| - i
  {
    if i == |e.operands| then Ok(Close(Divide, constant, result))
    else
      var operand :- Normalize(e.operands[i]);
      match operand
      case AtomParse(NumericLiteral(n)) =>
        if n == 0 then Ok(NumberParse(0))
        else DivideFold(e, i + 1, Some(if constant.None? then n else constant.value / n), result)
      case AtomParse(LogicalLiteral(b)) =>
        if !b then Ok(NumberParse(0))
        else DivideFold(e, i + 1, if constant.None? then Some(1) else constant, result)
      case _ => DivideFold(e, i + 1, None, Flush(constant, result) + [operand])
  }

  /** `maximum`: the literals fold into their maximum, pushed last when positive. */
  function MaximumFold(e: ExpressionParse, i: nat, constant: nat, result: seq<ExpressionParse>): (r: Outcome<ExpressionParse>)
    requires e.Operation? && e.operator == Maximum && i <= |e.operands|
    ensures r.Ok? && r.value.Operation? ==> r.value.operator == Maximum
    decreases e, 0, |e.operands| - i
  {
    if i == |e.operands| then
      Ok(if result == [] then NumberParse(constant)
         else Operation(Maximum, if constant > 0 then result + [NumberParse(constant)] else result))
    else
      var operand :- Normalize(e.operands[i]);
      match operand
      case AtomParse(NumericLiteral(n)) => MaximumFold(e, i + 1, if n > constant then n else constant, result)
      case AtomParse(LogicalLiteral(b)) => MaximumFold(e, i + 1, if b && constant < 1 then 1 else constant, result)
      case _ => MaximumFold(e, i + 1, constant, result + [operand])
  }

  /**
   * `minimum`: a zero or false operand makes the whole minimum 0; the other
   * literals fold into their minimum. With an operand left over, the
   * operation is rebuilt as `maximum`, as written.
   */
  function MinimumFold(e: ExpressionParse, i: nat, constant: Option<nat>, result: seq<ExpressionParse>): (r: Outcome<ExpressionParse>)
    requires e.Operation? && e.operator == Minimum && i <= |e.operands|
    ensures r.Ok? && r.value.Operation? ==> r.value.operator == Maximum
    decreases e, 0, |e.operands| - i
  {
    if i == |e.operands| then
      Ok(if result == [] then NumberParse(if constant.Some? then constant.value else 0)
         else Operation(Maximum, Flush(constant, result)))
    else
      var operand :- Normalize(e.operands[i]);
      match operand
      case AtomParse(NumericLiteral(n)) =>
        if n == 0 then Ok(NumberParse(0))
        else MinimumFold(e, i + 1, if constant.None? || n < constant.value then Some(n) else constant, result)
      case AtomParse(LogicalLiteral(b)) =>
        if !b then Ok(NumberParse(0))
        else MinimumFold(e, i + 1, if constant.None? || constant.value > 1 then Some(1) else constant, result)
      case _ => MinimumFold(e, i + 1, constant, result + [operand])
  }

  /** Any other operation: every operand normalised, in order. */
  function OperandsFold(e: ExpressionParse, i: nat, result: seq<ExpressionParse>): (r: Outcome<ExpressionParse>)
    requires e.Operation? && i <= |e.operands|
    ensures r.Ok? ==> r.value.Operation? && r.value.operator == e.operator
                      && |r.value.operands| == |result| + |e.operands| - i
    decreases e, 0, |e.operands| - i
  {
    if i == |e.operands| then Ok(Operation(e.operator, result))
    else
      var operand :- Normalize(e.operands[i]);
      OperandsFold(e, i + 1, result + [operand])
  }

  // ---------------------------------------------------------------------
  // The logical fragment keeps its truth

  /** Literals, references, `and`, `or`, and `not` of one operand. */
  predicate Logical(e: ExpressionParse)
  {
    match e
    case AtomParse(_) => true
    case Operation(o, operands) =>
      (o == And || o == Or || (o == Not && |operands| == 1))
      && forall p :: p in operands ==> Logical(p)
  }

  /**
   * The truth of a logical expression when each quality has the value
   * `state` gives it, and 0 when it has none: a value is true when positive.
   */
  function Truth(e: ExpressionParse, state: map<string, nat>): bool
    requires Logical(e)
  {
    match e
    case AtomParse(a) =>
      (match a
       case LogicalLiteral(b) => b
       case NumericLiteral(n) => n > 0
       case Reference(name) => name in state && state[name] > 0)
    case Operation(o, operands) =>
      if o == Not then !Truth(operands[0], state)
      else if o == And then forall p :: p in operands ==> Truth(p, state)
      else exists p :: p in operands && Truth(p, state)
  }

  /** Normalising an expression of the logical fragment never aborts, and keeps its truth in every state. */
  lemma {:induction false} NormalizeKeepsTruth(e: ExpressionParse, state: map<string, nat>)
    requires Logical(e)
    ensures Normalize(e).Ok? && Logical(Normalize(e).value)
    ensures Truth(Normalize(e).value, state) == Truth(e, state)
    decreases e, 1
  {
    match e
    case AtomParse(_) =>
    case Operation(o, operands) =>
      if o == Not {
        assert operands[0] in operands;
        NormalizeKeepsTruth(operands[0], state);
      } else {
        JunctionKeepsTruth(e, 0, [], state);
        assert [] + operands[0..] == operands;
      }
  }

  /** `JunctionFold` from operand `i` has the truth of the kept operands joined with the rest. */
  lemma {:induction false} JunctionKeepsTruth(e: ExpressionParse, i: nat, result: seq<ExpressionParse>, state: map<string, nat>)
    requires e.Operation? && (e.operator == And || e.operator == Or) && i <= |e.operands| && Logical(e)
    requires forall p :: p in result ==> Logical(p)
    ensures Logical(Operation(e.operator, result + e.operands[i..]))
    ensures JunctionFold(e, i, result).Ok? && Logical(JunctionFold(e, i, result).value)
    ensures Truth(JunctionFold(e, i, result).value, state) == Truth(Operation(e.operator, result + e.operands[i..]), state)
    decreases e, 0, |e.operands| - i
  {
    assert forall p :: p in e.operands[i..] ==> p in e.operands;
    if i == |e.operands| {
      assert result + e.operands[i..] == result;
    } else {
      var o, x, rest := e.operator, e.operands[i], e.operands[i + 1..];
      assert e.operands[i..] == [x] + rest;
      assert result + e.operands[i..] == result + [x] + rest;
      assert x in e.operands;
      assert forall p :: p in rest ==> p in e.operands;
      NormalizeKeepsTruth(x, state);
      var y := Normalize(x).value;
      var t := LiteralTruth(y);
      JunctionFoldStep(e, i, result);
      JoinTruth(o, result, x, rest, state);
      if t.Some? {
        LiteralTruthIsTruth(y, state);
        if t != Some(o == Or) {
          JunctionKeepsTruth(e, i + 1, result, state);
        }
      } else {
        JunctionKeepsTruth(e, i + 1, result + [y], state);
        JoinTruth(o, result, y, rest, state);
      }
    }
  }

  /** One step of `JunctionFold` over an operand that normalises. */
  lemma JunctionFoldStep(e: ExpressionParse, i: nat, result: seq<ExpressionParse>)
    requires e.Operation? && (e.operator == And || e.operator == Or) && i < |e.operands|
    requires Normalize(e.operands[i]).Ok?
    ensures var y := Normalize(e.operands[i]).value;
            var t := LiteralTruth(y);
            JunctionFold(e, i, result)
            == if t == Some(e.operator == Or) then Ok(TruthParse(e.operator == Or))
               else JunctionFold(e, i + 1, if t.Some? then result else result + [y])
  {
  }

  /** A literal's truth is its `LiteralTruth`. */
  lemma LiteralTruthIsTruth(y: ExpressionParse, state: map<string, nat>)
    requires LiteralTruth(y).Some?
    ensures Logical(y) && Truth(y, state) == LiteralTruth(y).value
  {
  }

  /** The truth of `and`/`or` with `x` among its operands is that of `x` joined with the rest. */
  lemma JoinTruth(o: ExpressionOperator, pre: seq<ExpressionParse>, x: ExpressionParse, rest: seq<ExpressionParse>, state: map<string, nat>)
    requires o == And || o == Or
    requires Logical(x) && (forall p :: p in pre ==> Logical(p)) && (forall p :: p in rest ==> Logical(p))
    ensures Logical(Operation(o, pre + [x] + rest)) && Logical(Operation(o, pre + rest))
    ensures Truth(Operation(o, pre + [x] + rest), state)
            == if o == And then Truth(x, state) && Truth(Operation(o, pre + rest), state)
               else Truth(x, state) || Truth(Operation(o, pre + rest), state)
  {
    var all, others := pre + [x] + rest, pre + rest;
    assert forall p :: p in all ==> p == x || p in others;
    assert forall p :: p in others ==> p in all;
    assert x in all;
  }

  /** An operand normalising to the absorbing literal decides `and` (false) or `or` (true), unless an abort comes first. */
  lemma JunctionAbsorbs(e: ExpressionParse, j: nat)
    requires e.Operation? && (e.operator == And || e.operator == Or) && j < |e.operands|
    requires Normalize(e.operands[j]).Ok? && LiteralTruth(Normalize(e.operands[j]).value) == Some(e.operator == Or)
    ensures Normalize(e).Ok? ==> Normalize(e).value == TruthParse(e.operator == Or)
  {
    JunctionFoldAbsorbs(e, 0, [], j);
  }

  lemma {:induction false} JunctionFoldAbsorbs(e: ExpressionParse, i: nat, result: seq<ExpressionParse>, j: nat)
    requires e.Operation? && (e.operator == And || e.operator == Or) && i <= j < |e.operands|
    requires Normalize(e.operands[j]).Ok? && LiteralTruth(Normalize(e.operands[j]).value) == Some(e.operator == Or)
    ensures JunctionFold(e, i, result).Ok? ==> JunctionFold(e, i, result).value == TruthParse(e.operator == Or)
    decreases j - i
  {
    if i < j {
      var operand := Normalize(e.operands[i]);
      if operand.Ok? {
        var t := LiteralTruth(operand.value);
        JunctionFoldAbsorbs(e, i + 1, if t.Some? then result else result + [operand.value], j);
      }
    }
  }

  // ---------------------------------------------------------------------
  // Multiplication by zero

  /** A product with an operand normalising to 0 or false is 0, unless an abort comes first. */
  lemma MultiplyByZero(e: ExpressionParse, j: nat)
    requires e.Operation? && e.operator == Multiply && j < |e.operands|
    requires Normalize(e.operands[j]) == Ok(NumberParse(0)) || Normalize(e.operands[j]) == Ok(TruthParse(false))
    ensures Normalize(e).Ok? ==> Normalize(e).value == NumberParse(0)
  {
    MultiplyFoldByZero(e, 0, 1, [], j);
  }

  lemma {:induction false} MultiplyFoldByZero(e: ExpressionParse, i: nat, constant: nat, result: seq<ExpressionParse>, j: nat)
    requires e.Operation? && e.operator == Multiply && i <= j < |e.operands|
    requires Normalize(e.operands[j]) == Ok(NumberParse(0)) || Normalize(e.operands[j]) == Ok(TruthParse(false))
    ensures MultiplyFold(e, i, constant, result).Ok? ==> MultiplyFold(e, i, constant, result).value == NumberParse(0)
    decreases j - i
  {
    if i < j {
      var operand := Normalize(e.operands[i]);
      if operand.Ok? {
        match operand.value
        case AtomParse(NumericLiteral(n)) =>
          if n != 0 && constant * n < U32Limit {
            MultiplyFoldByZero(e, i + 1, constant * n, result, j);
          }
        case AtomParse(LogicalLiteral(b)) =>
          MultiplyFoldByZero(e, i + 1, constant, result, j);
        case _ =>
          MultiplyFoldByZero(e, i + 1, constant, result + [operand.value], j);
      }
    }
  }

  // ---------------------------------------------------------------------
  // Operations over numeric literals only

  function Literals(ns: seq<nat>): (ps: seq<ExpressionParse>)
    ensures |ps| == |ns| && forall k :: 0 <= k < |ns| ==> ps[k] == NumberParse(ns[k])
  {
    seq(|ns|, k requires 0 <= k < |ns| => NumberParse(ns[k]))
  }

  function Larger(a: nat, b: nat): nat
  {
    if a < b then b else a
  }

  /** The largest of `ns`, and 0 for none. */
  function Largest(ns: seq<nat>): (m: nat)
    ensures forall k :: 0 <= k < |ns| ==> ns[k] <= m
    ensures |ns| > 0 ==> m in ns
  {
    if ns == [] then 0 else Larger(ns[0], Largest(ns[1..]))
  }

  /** The smallest of a non-empty `ns`. */
  function Smallest(ns: seq<nat>): (m: nat)
    requires |ns| > 0
    ensures forall k :: 0 <= k < |ns| ==> m <= ns[k]
    ensures m in ns
  {
    if |ns| == 1 then ns[0]
    else var rest := Smallest(ns[1..]); if ns[0] <= rest then ns[0] else rest
  }

  function Sum(ns: seq<nat>): nat
  {
    if ns == [] then 0 else ns[0] + Sum(ns[1..])
  }

  /** `m` less each of `ns` in turn; `None` as soon as a step would go below 0. */
  function Difference(m: nat, ns: seq<nat>): (r: Option<nat>)
    ensures r.Some? ==> r.value + Sum(ns) == m
    ensures r.None? <==> Sum(ns) > m
  {
    if ns == [] then Some(m)
    else if ns[0] > m then None
    else Difference(m - ns[0], ns[1..])
  }

  /** `m` divided, rounding down, by each of `ns` in turn. */
  function Quotient(m: nat, ns: seq<nat>): nat
    requires 0 !in ns
    decreases |ns|
  {
    if ns == [] then m else Quotient(m / ns[0], ns[1..])
  }

  /** `maximum` over literals is their largest value, and 0 for none. */
  lemma MaximumOfLiterals(ns: seq<nat>)
    ensures Normalize(Operation(Maximum, Literals(ns))) == Ok(NumberParse(Largest(ns)))
  {
    MaximumFoldLiterals(Operation(Maximum, Literals(ns)), ns, 0, 0);
    assert ns[0..] == ns;
  }

  lemma {:induction false} MaximumFoldLiterals(e: ExpressionParse, ns: seq<nat>, i: nat, constant: nat)
    requires e == Operation(Maximum, Literals(ns)) && i <= |ns|
    ensures MaximumFold(e, i, constant, []) == Ok(NumberParse(Larger(constant, Largest(ns[i..]))))
    decreases |ns| - i
  {
    if i < |ns| {
      assert ns[i..][1..] == ns[i + 1..];
      MaximumFoldLiterals(e, ns, i + 1, Larger(constant, ns[i]));
    }
  }

  /** `minimum` over literals is 0 if one of them is 0, and otherwise their smallest value. */
  lemma MinimumOfLiterals(ns: seq<nat>)
    requires |ns| > 0
    ensures Normalize(Operation(Minimum, Literals(ns))) == Ok(NumberParse(if 0 in ns then 0 else Smallest(ns)))
  {
    var e := Operation(Minimum, Literals(ns));
    NormalizeMinimum(e);
    MinimumFoldLiterals(e, ns, 0, None);
    assert ns[0..] == ns;
  }

  lemma NormalizeMinimum(e: ExpressionParse)
    requires e.Operation? && e.operator == Minimum
    ensures Normalize(e) == MinimumFold(e, 0, None, [])
  {
  }

  /** The value `minimum` folds literals `ns` into, after `constant`. */
  function MinimumOf(constant: Option<nat>, ns: seq<nat>): nat
  {
    if 0 in ns then 0
    else if ns == [] then (if constant.Some? then constant.value else 0)
    else if constant.None? then Smallest(ns)
    else Smallest([constant.value] + ns)
  }

  /** One nonzero literal folded into the constant leaves the value unchanged. */
  lemma MinimumOfStep(constant: Option<nat>, ns: seq<nat>)
    requires ns != [] && ns[0] != 0
    ensures MinimumOf(constant, ns)
      == MinimumOf(if constant.None? || ns[0] < constant.value then Some(ns[0]) else constant, ns[1..])
  {
    var rest := ns[1..];
    assert ns == [ns[0]] + rest;
    assert 0 in ns <==> 0 in rest;
    if 0 !in rest && rest != [] {
      if constant.Some? {
        MinOfThree(constant.value, ns[0], rest);
      }
    } else if 0 !in rest && constant.Some? {
      assert [constant.value] + ns == [constant.value, ns[0]];
    }
  }

  /** `minimum` reads literal `i` of `ns` as the number `ns[i]`. */
  lemma MinimumFoldStep(e: ExpressionParse, ns: seq<nat>, i: nat, constant: Option<nat>)
    requires e == Operation(Minimum, Literals(ns)) && i < |ns|
    ensures MinimumFold(e, i, constant, []) ==
      if ns[i] == 0 then Ok(NumberParse(0))
      else MinimumFold(e, i + 1, if constant.None? || ns[i] < constant.value then Some(ns[i]) else constant, [])
  {
    assert e.operands[i] == NumberParse(ns[i]);
  }

  lemma {:induction false} MinimumFoldLiterals(e: ExpressionParse, ns: seq<nat>, i: nat, constant: Option<nat>)
    requires e == Operation(Minimum, Literals(ns)) && i <= |ns|
    ensures MinimumFold(e, i, constant, []) == Ok(NumberParse(MinimumOf(constant, ns[i..])))
    decreases |ns| - i
  {
    if i < |ns| {
      MinimumFoldStep(e, ns, i, constant);
      assert ns[i..][0] == ns[i] && ns[i..][1..] == ns[i + 1..];
      if ns[i] != 0 {
        MinimumOfStep(constant, ns[i..]);
        MinimumFoldLiterals(e, ns, i + 1, if constant.None? || ns[i] < constant.value then Some(ns[i]) else constant);
      }
    }
  }

  /** Folding `a` and `b` into one leading value does not change the smallest. */
  lemma MinOfThree(a: nat, b: nat, rest: seq<nat>)
    requires rest != []
    ensures Smallest([a] + ([b] + rest)) == Smallest([if b < a then b else a] + rest)
  {
    assert ([a] + ([b] + rest))[1..] == [b] + rest;
    assert ([b] + rest)[1..] == rest;
    assert ([if b < a then b else a] + rest)[1..] == rest;
  }

  /**
   * `+` over literals folds their sum, but the literal pushed for it is 0:
   * a positive sum leaves `+` of the single operand 0.
   */
  lemma PlusOfLiterals(ns: seq<nat>)
    requires Sum(ns) < U32Limit
    ensures Normalize(Operation(Plus, Literals(ns)))
      == Ok(if Sum(ns) > 0 then Operation(Plus, [NumberParse(0)]) else NumberParse(0))
  {
    PlusFoldLiterals(Operation(Plus, Literals(ns)), ns, 0, 0);
    assert ns[0..] == ns;
  }

  lemma {:induction false} PlusFoldLiterals(e: ExpressionParse, ns: seq<nat>, i: nat, constant: nat)
    requires e == Operation(Plus, Literals(ns)) && i <= |ns| && constant + Sum(ns[i..]) < U32Limit
    ensures PlusFold(e, i, constant, [])
      == Ok(if constant + Sum(ns[i..]) > 0 then Operation(Plus, [NumberParse(0)]) else NumberParse(0))
    decreases |ns| - i
  {
    if i < |ns| {
      assert ns[i..][1..] == ns[i + 1..];
      PlusFoldLiterals(e, ns, i + 1, constant + ns[i]);
    } else {
      assert ns[i..] == [] && Sum(ns[i..]) == 0;
      assert [] + [NumberParse(0)] == [NumberParse(0)];
    }
  }

  /** `-` over literals is the first less the others, and aborts when that goes below 0. */
  lemma MinusOfLiterals(m: nat, ns: seq<nat>)
    ensures Normalize(Operation(Minus, Literals([m] + ns)))
      == (if Difference(m, ns).Some? then Ok(NumberParse(Difference(m, ns).value)) else Panic)
  {
    var e := Operation(Minus, Literals([m] + ns));
    MinusFoldLiterals(e, [m] + ns, 1, m);
    assert ([m] + ns)[1..] == ns;
  }

  lemma {:induction false} MinusFoldLiterals(e: ExpressionParse, ns: seq<nat>, i: nat, constant: nat)
    requires e == Operation(Minus, Literals(ns)) && i <= |ns|
    ensures MinusFold(e, i, Some(constant), [])
      == (if Difference(constant, ns[i..]).Some? then Ok(NumberParse(Difference(constant, ns[i..]).value)) else Panic)
    decreases |ns| - i
  {
    if i < |ns| {
      assert ns[i..][1..] == ns[i + 1..];
      if ns[i] <= constant {
        MinusFoldLiterals(e, ns, i + 1, constant - ns[i]);
      }
    }
  }

  /** `/` over literals is 0 if one of them is 0, and otherwise the first divided by each of the others. */
  lemma DivideOfLiterals(m: nat, ns: seq<nat>)
    requires m > 0 && 0 !in ns
    ensures Normalize(Operation(Divide, Literals([m] + ns))) == Ok(NumberParse(Quotient(m, ns)))
  {
    var e := Operation(Divide, Literals([m] + ns));
    DivideFoldLiterals(e, [m] + ns, 1, m);
    assert ([m] + ns)[1..] == ns;
  }

  /** A zero literal makes a quotient 0, wherever it stands. */
  lemma DivideByZeroLiteral(ns: seq<nat>)
    requires 0 in ns
    ensures Normalize(Operation(Divide, Literals(ns))) == Ok(NumberParse(0))
  {
    var e := Operation(Divide, Literals(ns));
    var j :| 0 <= j < |ns| && ns[j] == 0;
    DivideFoldByZero(e, ns, 0, None, j);
  }

  lemma {:induction false} DivideFoldLiterals(e: ExpressionParse, ns: seq<nat>, i: nat, constant: nat)
    requires e == Operation(Divide, Literals(ns)) && i <= |ns| && 0 !in ns[i..]
    ensures DivideFold(e, i, Some(constant), []) == Ok(NumberParse(Quotient(constant, ns[i..])))
    decreases |ns| - i
  {
    if i < |ns| {
      assert ns[i..][1..] == ns[i + 1..];
      DivideFoldLiterals(e, ns, i + 1, constant / ns[i]);
    }
  }

  lemma {:induction false} DivideFoldByZero(e: ExpressionParse, ns: seq<nat>, i: nat, constant: Option<nat>, j: nat)
    requires e == Operation(Divide, Literals(ns)) && i <= j < |ns| && ns[j] == 0
    ensures DivideFold(e, i, constant, []) == Ok(NumberParse(0))
    decreases j - i
  {
    if i < j && ns[i] != 0 {
      DivideFoldByZero(e, ns, i + 1, Some(if constant.None? then ns[i] else constant.value / ns[i]), j);
    }
  }

  // ---------------------------------------------------------------------
  // Examples

  /** `minimum` with a reference is rebuilt as `maximum`: the bound it expresses is lost. */
  lemma MinimumRebuiltAsMaximum(name: string)
    ensures Normalize(Operation(Minimum, [AtomParse(Reference(name)), NumberParse(3)]))
      == Ok(Operation(Maximum, [AtomParse(Reference(name)), NumberParse(3)]))
  {
    var x := AtomParse(Reference(name));
    var e := Operation(Minimum, [x, NumberParse(3)]);
    assert Normalize(e) == MinimumFold(e, 0, None, []);
    assert [] + [x] == [x];
    assert MinimumFold(e, 0, None, []) == MinimumFold(e, 1, None, [x]);
    assert MinimumFold(e, 1, None, [x]) == MinimumFold(e, 2, Some(3), [x]);
    assert Flush(Some(3), [x]) == [x, NumberParse(3)];
  }

  /** `x + 2` keeps `x` and a literal 0 in place of 2. */
  lemma PlusConstantPushedAsZero(name: string)
    ensures Normalize(Operation(Plus, [AtomParse(Reference(name)), NumberParse(2)]))
      == Ok(Operation(Plus, [AtomParse(Reference(name)), NumberParse(0)]))
  {
    var x := AtomParse(Reference(name));
    var e := Operation(Plus, [x, NumberParse(2)]);
    assert Normalize(e) == PlusFold(e, 0, 0, []);
    assert [] + [x] == [x];
    assert PlusFold(e, 0, 0, []) == PlusFold(e, 1, 0, [x]);
    assert PlusFold(e, 1, 0, [x]) == PlusFold(e, 2, 2, [x]);
    assert [x] + [NumberParse(0)] == [x, NumberParse(0)];
  }
}
