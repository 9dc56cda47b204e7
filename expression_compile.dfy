/**
 * The expression compiler: a parsed expression becomes a word sequence of
 * stack-machine bytecode. References are interned in the shared string
 * table, and unsupported shapes are reported as fatal problems and
 * compiled as the constant 0.
 *
 * `CompileSpec` says what `compile_inner` emits, as a function of the
 * string table and the problem list before the call; the class `Compile`
 * holds the shared table and the problem list and is proved against it.
 */
module ExpressionCompile {
  import opened Common
  import opened Attributions
  import opened Problems
  import opened StringTables
  import opened ExpressionTokens
  import opened ExpressionParser

  const PUSH: nat := 0
  const NOT: nat := 1
  const AND: nat := 2
  const OR: nat := 3
  const ADD: nat := 4
  const SUBTRACT: nat := 5
  const MULTIPLY: nat := 6
  const DIVIDE: nat := 7
  const BRANCH: nat := 8
  const JUMP: nat := 9
  const PUSH_VALUE_OF: nat := 11
  const IN_LOCATION: nat := 12
  const EQ: nat := 14
  const NEQ: nat := 15
  const GT: nat := 16
  const GTE: nat := 17
  const LT: nat := 18
  const LTE: nat := 19
  const MAX: nat := 20
  const MIN: nat := 21
  const RAND: nat := 22

  datatype TypeHint = Logical | Numeric

  /** What one compilation step leaves behind: the words, the string table and the problem list. */
  datatype Emitted = Emitted(code: seq<nat>, table: TableState, problems: seq<Problem>)

  /** Rust's `as u32` on a `usize`: the low 32 bits. */
  function AsU32(n: nat): (w: nat)
    ensures w < U32Limit && (n < U32Limit ==> w == n)
  {
    n % U32Limit
  }

  /** `k` copies of `word`; none when `k` is not positive, as for the empty range `1..0`. */
  function Repeat(word: nat, k: int): (r: seq<nat>)
    ensures |r| == (if k <= 0 then 0 else k) && forall j :: 0 <= j < |r| ==> r[j] == word
  {
    if k <= 0 then [] else seq(k, _ => word)
  }

  // ---------------------------------------------------------------------
  // Instruction layout

  /** The number of words an instruction takes, opcode included; 0 for a word that is no opcode. */
  function Width(opcode: nat): nat
  {
    if opcode in {PUSH, BRANCH, JUMP, RAND} then 2
    else if opcode in {PUSH_VALUE_OF, IN_LOCATION} then 3
    else if opcode in {NOT, AND, OR, ADD, SUBTRACT, MULTIPLY, DIVIDE, EQ, NEQ, GT, GTE, LT, LTE, MAX, MIN} then 1
    else 0
  }

  /** `code` is a sequence of whole instructions: each opcode is followed by exactly its operand words. */
  predicate Instructions(code: seq<nat>)
    decreases |code|
  {
    code == [] || (0 < Width(code[0]) <= |code| && Instructions(code[Width(code[0])..]))
  }

  lemma {:induction false} InstructionsConcat(a: seq<nat>, b: seq<nat>)
    ensures Instructions(a) && Instructions(b) ==> Instructions(a + b)
    decreases |a|
  {
    if a != [] && Instructions(a) && Instructions(b) {
      var w := Width(a[0]);
      assert (a + b)[w..] == a[w..] + b;
      InstructionsConcat(a[w..], b);
    } else if a == [] {
      assert a + b == b;
    }
  }

  /** An opcode of width 2 and its operand word are one whole instruction. */
  lemma TwoWordInstruction(opcode: nat, operand: nat)
    requires Width(opcode) == 2
    ensures Instructions([opcode, operand])
  {
    assert [opcode, operand][2..] == [];
  }

  lemma {:induction false} RepeatInstructions(word: nat, k: int)
    requires Width(word) == 1
    ensures Instructions(Repeat(word, k))
    decreases k
  {
    if k > 0 {
      assert Repeat(word, k)[1..] == Repeat(word, k - 1);
      RepeatInstructions(word, k - 1);
    }
  }

  lemma RepeatOneMore(word: nat, k: int)
    requires k >= 0
    ensures Repeat(word, k + 1) == Repeat(word, k) + [word]
  {
  }

  /** `for _ in from..to { code.push(word) }`: one copy of `word` per step of the range. */
  method PushCopies(code: seq<nat>, word: nat, from: nat, to: nat) returns (r: seq<nat>)
    ensures r == code + Repeat(word, to - from)
  {
    r := code;
    var k := from;
    while k < to
      invariant from <= k && (from <= to ==> k <= to) && (to < from ==> k == from)
      invariant r == code + Repeat(word, k - from)
    {
      RepeatOneMore(word, k - from);
      r := r + [word];
      k := k + 1;
    }
    if to < from {
      assert Repeat(word, to - from) == [] == Repeat(word, k - from);
    }
  }

  /** Every word fits in 32 bits. */
  predicate Words(code: seq<nat>)
  {
    forall j :: 0 <= j < |code| ==> code[j] < U32Limit
  }

  /** Every numeric literal fits in 32 bits, as the lexer guarantees. */
  predicate LiteralsFit(e: ExpressionParse)
  {
    match e
    case AtomParse(a) => a.NumericLiteral? ==> a.number < U32Limit
    case Operation(_, operands) => forall p :: p in operands ==> LiteralsFit(p)
  }

  lemma PutKeepsValidity(t: TableState, s: string)
    ensures Valid(t) ==> Valid(PutSpec(t, s).0)
  {
    if Valid(t) {
      PutKeepsValid(t, s);
    }
  }

  /** What every compilation step does to the string table: it only adds, and it keeps the table valid. */
  predicate TableKept(t: TableState, t': TableState)
  {
    Extends(t, t') && (Valid(t) ==> Valid(t'))
  }

  lemma TableKeptTrans(t1: TableState, t2: TableState, t3: TableState)
    requires TableKept(t1, t2) && TableKept(t2, t3)
    ensures TableKept(t1, t3)
  {
    ExtendsTrans(t1, t2, t3);
  }

  // ---------------------------------------------------------------------
  // What `compile_inner` emits

  /** An interned reference: `opcode` and the address of `name` in the table. */
  function ReferenceSpec(opcode: nat, name: string, t: TableState, problems: seq<Problem>): (r: Emitted)
    requires Width(opcode) == 3
    ensures TableKept(t, r.table) && r.problems == problems
    ensures Instructions(r.code) && Words(r.code) && |r.code| == 3 && r.code[0] == opcode
  {
    var (t', a) := PutSpec(t, name);
    PutExtends(t, name);
    PutKeepsValidity(t, name);
    assert [opcode, AsU32(a.start), AsU32(a.end)][3..] == [];
    Emitted([opcode, AsU32(a.start), AsU32(a.end)], t', problems)
  }

  /** A fatal problem and the constant 0 in place of the operation. */
  function Unsupported(message: string, att: Attribution, t: TableState, problems: seq<Problem>): (r: Emitted)
    ensures AddsFatals(problems, r.problems) && r.code == [PUSH, 0] && r.table == t
    ensures r.problems == problems + [NewFatal(message, att)]
  {
    FatalAdded(problems, NewFatal(message, att));
    Emitted([PUSH, 0], t, problems + [NewFatal(message, att)])
  }

  function CompileSpec(att: Attribution, e: ExpressionParse, hint: TypeHint, t: TableState, problems: seq<Problem>): (r: Emitted)
    ensures AddsFatals(problems, r.problems)
    decreases e, 2
  {
    match e
    case AtomParse(a) => AtomSpec(a, t, problems)
    case Operation(o, operands) =>
      if o == Then then ThenCodeSpec(att, e, hint, t, problems)
      else if o == In then InSpec(att, e, t, problems)
      else if o == Random then RandomSpec(att, e, t, problems)
      else if RepeatedOpcode(o).Some? then RepeatedSpec(att, e, t, problems)
      else Unsupported("Unimplemented operation", att, t, problems)
  }

  /** A literal is pushed as its value (1 or 0 for a truth); a reference as the address of its name. */
  function AtomSpec(a: ExpressionAtom, t: TableState, problems: seq<Problem>): (r: Emitted)
    ensures r.problems == problems
  {
    match a
    case NumericLiteral(n) => Emitted([PUSH, n], t, problems)
    case LogicalLiteral(b) => Emitted([PUSH, if b then 1 else 0], t, problems)
    case Reference(name) => ReferenceSpec(PUSH_VALUE_OF, name, t, problems)
  }

  /** `in`: the location tests, joined by one fewer `OR` than there are operands. */
  function InSpec(att: Attribution, e: ExpressionParse, t: TableState, problems: seq<Problem>): (r: Emitted)
    requires e.Operation? && e.operator == In
    ensures AddsFatals(problems, r.problems)
    decreases e, 1
  {
    var r := LocationsSpec(att, e, 0, Emitted([], t, problems));
    r.(code := Joined(r.code, OR, |e.operands| - 1))
  }

  /** `random`: the operands, then `RAND` and the operand count. */
  function RandomSpec(att: Attribution, e: ExpressionParse, t: TableState, problems: seq<Problem>): (r: Emitted)
    requires e.Operation? && e.operator == Random
    ensures AddsFatals(problems, r.problems)
    decreases e, 1
  {
    var r := OperandsSpec(att, e, Numeric, false, [], 0, Emitted([], t, problems));
    r.(code := r.code + [RAND, AsU32(|e.operands|)])
  }

  /** An operator of `RepeatedOpcode`: its operands, then copies of its opcode. */
  function RepeatedSpec(att: Attribution, e: ExpressionParse, t: TableState, problems: seq<Problem>): (r: Emitted)
    requires e.Operation? && RepeatedOpcode(e.operator).Some?
    ensures AddsFatals(problems, r.problems)
    decreases e, 1
  {
    var spec := RepeatedOpcode(e.operator).value;
    var suffix := NotSuffix(e.operator);
    var r := OperandsSpec(att, e, spec.1, spec.2, suffix, 0, Emitted([], t, problems));
    r.(code := Joined(r.code, spec.0, if spec.3 then |e.operands| - 1 else |e.operands|))
  }

  /** `not` follows each of its operands with `NOT`; no other operator has a suffix. */
  function NotSuffix(o: ExpressionOperator): (r: seq<nat>)
    ensures Instructions(r) && Words(r)
    ensures r == [] || r == [NOT]
  {
    if o == Not then assert [NOT][1..] == []; [NOT] else []
  }

  /**
   * The operators compiled as "every operand, then copies of one opcode":
   * the opcode, the hint the operands are compiled with, whether they are
   * compiled last to first, and whether `n` operands are followed by
   * `n - 1` copies rather than `n`.
   */
  function RepeatedOpcode(o: ExpressionOperator): (r: Option<(nat, TypeHint, bool, bool)>)
    ensures r.Some? ==> Width(r.value.0) == 1
  {
    match o
    case Not => Some((AND, Logical, false, true))
    case And => Some((AND, Logical, false, true))
    case Or => Some((OR, Logical, false, true))
    case Plus => Some((ADD, Numeric, false, true))
    case Multiply => Some((MULTIPLY, Numeric, false, true))
    case Minus => Some((SUBTRACT, Numeric, true, true))
    case Divide => Some((DIVIDE, Numeric, true, true))
    case Maximum => Some((MAX, Numeric, false, true))
    case Minimum => Some((MIN, Numeric, false, true))
    case Equal => Some((EQ, Numeric, false, false))
    case NotEqual => Some((NEQ, Numeric, false, false))
    case GreaterThan => Some((GT, Numeric, true, false))
    case GreaterThanOrEqual => Some((GTE, Numeric, true, false))
    case LessThan => Some((LT, Numeric, true, false))
    case LessThanOrEqual => Some((LTE, Numeric, true, false))
    case _ => None
  }

  /** `code` followed by `count` copies of a one-word opcode. */
  function Joined(code: seq<nat>, opcode: nat, count: int): (r: seq<nat>)
    requires Width(opcode) == 1
    ensures Instructions(code) ==> Instructions(r)
    ensures Words(code) ==> Words(r)
  {
    RepeatInstructions(opcode, count);
    InstructionsConcat(code, Repeat(opcode, count));
    code + Repeat(opcode, count)
  }

  /**
   * The operands of `e` from the `i`-th on (counted from the last when
   * `reverse`), each compiled with `hint` and followed by `suffix`, after
   * what `st` already holds.
   */
  function OperandsSpec(att: Attribution, e: ExpressionParse, hint: TypeHint, reverse: bool, suffix: seq<nat>,
                        i: nat, st: Emitted): (r: Emitted)
    requires e.Operation? && i <= |e.operands|
    ensures AddsFatals(st.problems, r.problems)
    decreases e, 0, |e.operands| - i
  {
    if i == |e.operands| then st
    else
      var next := OperandStep(att, e, hint, reverse, suffix, i, st);
      var r := OperandsSpec(att, e, hint, reverse, suffix, i + 1, next);
      AddsFatalsTrans(st.problems, next.problems, r.problems);
      r
  }

  /** The operand picked at step `j` of `OperandsSpec`. */
  function Picked(e: ExpressionParse, reverse: bool, j: nat): (p: ExpressionParse)
    requires e.Operation? && j < |e.operands|
    ensures p in e.operands
  {
    if reverse then e.operands[|e.operands| - 1 - j] else e.operands[j]
  }

  /** One step of `OperandsSpec`: the picked operand's code and then `suffix`. */
  function OperandStep(att: Attribution, e: ExpressionParse, hint: TypeHint, reverse: bool, suffix: seq<nat>,
                       i: nat, st: Emitted): (next: Emitted)
    requires e.Operation? && i < |e.operands|
    ensures AddsFatals(st.problems, next.problems)
    decreases e, 0, 0
  {
    var c := CompileSpec(att, Picked(e, reverse, i), hint, st.table, st.problems);
    Emitted(st.code + c.code + suffix, c.table, c.problems)
  }

  /** `in`: each reference operand is a location test; any other operand is reported and skipped. */
  function LocationsSpec(att: Attribution, e: ExpressionParse, i: nat, st: Emitted): (r: Emitted)
    requires e.Operation? && i <= |e.operands|
    ensures AddsFatals(st.problems, r.problems)
    decreases |e.operands| - i
  {
    if i == |e.operands| then st
    else
      var next := LocationStep(att, e.operands[i], st);
      var r := LocationsSpec(att, e, i + 1, next);
      AddsFatalsTrans(st.problems, next.problems, r.problems);
      r
  }

  /** One step of `LocationsSpec`; it reports a problem exactly when the operand is no reference. */
  function LocationStep(att: Attribution, operand: ExpressionParse, st: Emitted): (next: Emitted)
    ensures AddsFatals(st.problems, next.problems)
    ensures next.problems == st.problems <==> operand.AtomParse? && operand.atom.Reference?
  {
    if operand.AtomParse? && operand.atom.Reference? then
      var c := ReferenceSpec(IN_LOCATION, operand.atom.name, st.table, st.problems);
      Emitted(st.code + c.code, c.table, c.problems)
    else
      var c := Unsupported("Expected a location reference", att, st.table, st.problems);
      Emitted(st.code, c.table, c.problems)
  }

  /**
   * The layout of a conditional: the condition, `BRANCH` with the length of
   * the consequent plus 2, the consequent, `JUMP` with the length of the
   * alternative plus 2, the alternative.
   */
  function Conditional(condition: seq<nat>, consequent: seq<nat>, alternative: seq<nat>): (r: seq<nat>)
    ensures Instructions(condition) && Instructions(consequent) && Instructions(alternative) ==> Instructions(r)
    ensures Words(condition) && Words(consequent) && Words(alternative) ==> Words(r)
    ensures |r| == |condition| + |consequent| + |alternative| + 4
  {
    var jumpOver := [BRANCH, AsU32(|consequent| + 2)];
    var jump := [JUMP, AsU32(|alternative| + 2)];
    TwoWordInstruction(BRANCH, AsU32(|consequent| + 2));
    TwoWordInstruction(JUMP, AsU32(|alternative| + 2));
    InstructionsConcat(condition, jumpOver);
    InstructionsConcat(condition + jumpOver, consequent);
    InstructionsConcat(condition + jumpOver + consequent, jump);
    InstructionsConcat(condition + jumpOver + consequent + jump, alternative);
    condition + jumpOver + consequent + jump + alternative
  }

  /**
   * `then` with three operands: the condition, `BRANCH` over the
   * consequent and the `JUMP`, the consequent, `JUMP` with the
   * alternative's length plus 2, the alternative. Any other arity is
   * reported and compiled as 0.
   */
  function ThenCodeSpec(att: Attribution, e: ExpressionParse, hint: TypeHint, t: TableState, problems: seq<Problem>): (r: Emitted)
    requires e.Operation? && e.operator == Then
    ensures AddsFatals(problems, r.problems)
    decreases e, 1
  {
    if |e.operands| != 3 then Unsupported("Expected 3 expressions", att, t, problems)
    else
      assert e.operands[0] in e.operands && e.operands[1] in e.operands && e.operands[2] in e.operands;
      var condition := CompileSpec(att, e.operands[0], Logical, t, problems);
      var branch := CompileSpec(att, e.operands[1], hint, condition.table, condition.problems);
      var fallback := CompileSpec(att, e.operands[2], hint, branch.table, branch.problems);
      AddsFatalsTrans(problems, condition.problems, branch.problems);
      AddsFatalsTrans(problems, branch.problems, fallback.problems);
      Emitted(Conditional(condition.code, branch.code, fallback.code), fallback.table, fallback.problems)
  }

  // ---------------------------------------------------------------------
  // Properties of the compiled code

  /**
   * The compiled code is a sequence of whole instructions, and when every
   * literal fits in 32 bits so does every word.
   */
  lemma {:induction false} CompiledLayout(att: Attribution, e: ExpressionParse, hint: TypeHint, t: TableState, problems: seq<Problem>)
    ensures Instructions(CompileSpec(att, e, hint, t, problems).code)
    ensures LiteralsFit(e) ==> Words(CompileSpec(att, e, hint, t, problems).code)
    decreases e, 2
  {
    var st := Emitted([], t, problems);
    match e
    case AtomParse(a) =>
      match a {
        case NumericLiteral(n) => TwoWordInstruction(PUSH, n);
        case LogicalLiteral(b) => TwoWordInstruction(PUSH, if b then 1 else 0);
        case Reference(_) =>
      }
    case Operation(o, operands) =>
      if o == Then {
        ThenLayout(att, e, hint, t, problems);
      } else if o == In {
        LocationsLayout(att, e, 0, st);
      } else if o == Random {
        RandomLayout(att, e, t, problems);
      } else if RepeatedOpcode(o).Some? {
        var spec := RepeatedOpcode(o).value;
        OperandsLayout(att, e, spec.1, spec.2, NotSuffix(o), 0, st);
      } else {
        TwoWordInstruction(PUSH, 0);
      }
  }

  lemma {:induction false} RandomLayout(att: Attribution, e: ExpressionParse, t: TableState, problems: seq<Problem>)
    requires e.Operation? && e.operator == Random
    ensures Instructions(RandomSpec(att, e, t, problems).code)
    ensures LiteralsFit(e) ==> Words(RandomSpec(att, e, t, problems).code)
    decreases e, 1
  {
    var st := Emitted([], t, problems);
    OperandsLayout(att, e, Numeric, false, [], 0, st);
    var r := OperandsSpec(att, e, Numeric, false, [], 0, st);
    TwoWordInstruction(RAND, AsU32(|e.operands|));
    InstructionsConcat(r.code, [RAND, AsU32(|e.operands|)]);
  }

  lemma {:induction false} ThenLayout(att: Attribution, e: ExpressionParse, hint: TypeHint, t: TableState, problems: seq<Problem>)
    requires e.Operation? && e.operator == Then
    ensures Instructions(ThenCodeSpec(att, e, hint, t, problems).code)
    ensures LiteralsFit(e) ==> Words(ThenCodeSpec(att, e, hint, t, problems).code)
    decreases e, 1
  {
    if |e.operands| != 3 {
      TwoWordInstruction(PUSH, 0);
    } else {
      assert e.operands[0] in e.operands && e.operands[1] in e.operands && e.operands[2] in e.operands;
      var condition := CompileSpec(att, e.operands[0], Logical, t, problems);
      var branch := CompileSpec(att, e.operands[1], hint, condition.table, condition.problems);
      CompiledLayout(att, e.operands[0], Logical, t, problems);
      CompiledLayout(att, e.operands[1], hint, condition.table, condition.problems);
      CompiledLayout(att, e.operands[2], hint, branch.table, branch.problems);
    }
  }

  lemma {:induction false} OperandsLayout(att: Attribution, e: ExpressionParse, hint: TypeHint, reverse: bool, suffix: seq<nat>,
                                          i: nat, st: Emitted)
    requires e.Operation? && i <= |e.operands|
    ensures Instructions(st.code) && Instructions(suffix)
            ==> Instructions(OperandsSpec(att, e, hint, reverse, suffix, i, st).code)
    ensures LiteralsFit(e) && Words(st.code) && Words(suffix)
            ==> Words(OperandsSpec(att, e, hint, reverse, suffix, i, st).code)
    decreases e, 0, |e.operands| - i
  {
    if i < |e.operands| {
      var next := OperandStep(att, e, hint, reverse, suffix, i, st);
      assert OperandsSpec(att, e, hint, reverse, suffix, i, st) == OperandsSpec(att, e, hint, reverse, suffix, i + 1, next);
      OperandStepLayout(att, e, hint, reverse, suffix, i, st);
      OperandsLayout(att, e, hint, reverse, suffix, i + 1, next);
    }
  }

  lemma {:induction false} OperandStepLayout(att: Attribution, e: ExpressionParse, hint: TypeHint, reverse: bool, suffix: seq<nat>,
                                             i: nat, st: Emitted)
    requires e.Operation? && i < |e.operands|
    ensures Instructions(st.code) && Instructions(suffix)
            ==> Instructions(OperandStep(att, e, hint, reverse, suffix, i, st).code)
    ensures LiteralsFit(e) && Words(st.code) && Words(suffix)
            ==> Words(OperandStep(att, e, hint, reverse, suffix, i, st).code)
    decreases e, 0, 0
  {
    var c := CompileSpec(att, Picked(e, reverse, i), hint, st.table, st.problems);
    CompiledLayout(att, Picked(e, reverse, i), hint, st.table, st.problems);
    InstructionsConcat(st.code, c.code);
    InstructionsConcat(st.code + c.code, suffix);
  }

  lemma {:induction false} LocationsLayout(att: Attribution, e: ExpressionParse, i: nat, st: Emitted)
    requires e.Operation? && i <= |e.operands|
    ensures Instructions(st.code) ==> Instructions(LocationsSpec(att, e, i, st).code)
    ensures Words(st.code) ==> Words(LocationsSpec(att, e, i, st).code)
    decreases |e.operands| - i
  {
    if i < |e.operands| {
      var next := LocationStep(att, e.operands[i], st);
      LocationStepLayout(att, e.operands[i], st);
      LocationsLayout(att, e, i + 1, next);
    }
  }

  lemma LocationStepLayout(att: Attribution, operand: ExpressionParse, st: Emitted)
    ensures Instructions(st.code) ==> Instructions(LocationStep(att, operand, st).code)
    ensures Words(st.code) ==> Words(LocationStep(att, operand, st).code)
  {
    if operand.AtomParse? && operand.atom.Reference? {
      var c := ReferenceSpec(IN_LOCATION, operand.atom.name, st.table, st.problems);
      InstructionsConcat(st.code, c.code);
    }
  }

  /**
   * Compilation only adds to the string table (every address handed out
   * before is kept) and keeps every cached address spelling its string.
   */
  lemma {:induction false} CompiledTable(att: Attribution, e: ExpressionParse, hint: TypeHint, t: TableState, problems: seq<Problem>)
    ensures TableKept(t, CompileSpec(att, e, hint, t, problems).table)
    decreases e, 2
  {
    var st := Emitted([], t, problems);
    match e
    case AtomParse(a) =>
    case Operation(o, operands) =>
      if o == Then {
        ThenTable(att, e, hint, t, problems);
      } else if o == In {
        LocationsTable(att, e, 0, st);
      } else if o == Random {
        OperandsTable(att, e, Numeric, false, [], 0, st);
      } else if RepeatedOpcode(o).Some? {
        var spec := RepeatedOpcode(o).value;
        OperandsTable(att, e, spec.1, spec.2, NotSuffix(o), 0, st);
      }
  }

  lemma {:induction false} ThenTable(att: Attribution, e: ExpressionParse, hint: TypeHint, t: TableState, problems: seq<Problem>)
    requires e.Operation? && e.operator == Then
    ensures TableKept(t, ThenCodeSpec(att, e, hint, t, problems).table)
    decreases e, 1
  {
    if |e.operands| == 3 {
      assert e.operands[0] in e.operands && e.operands[1] in e.operands && e.operands[2] in e.operands;
      var condition := CompileSpec(att, e.operands[0], Logical, t, problems);
      var branch := CompileSpec(att, e.operands[1], hint, condition.table, condition.problems);
      var fallback := CompileSpec(att, e.operands[2], hint, branch.table, branch.problems);
      CompiledTable(att, e.operands[0], Logical, t, problems);
      CompiledTable(att, e.operands[1], hint, condition.table, condition.problems);
      CompiledTable(att, e.operands[2], hint, branch.table, branch.problems);
      TableKeptTrans(t, condition.table, branch.table);
      TableKeptTrans(t, branch.table, fallback.table);
    }
  }

  lemma {:induction false} OperandsTable(att: Attribution, e: ExpressionParse, hint: TypeHint, reverse: bool, suffix: seq<nat>,
                                         i: nat, st: Emitted)
    requires e.Operation? && i <= |e.operands|
    ensures TableKept(st.table, OperandsSpec(att, e, hint, reverse, suffix, i, st).table)
    decreases e, 0, |e.operands| - i
  {
    if i < |e.operands| {
      var next := OperandStep(att, e, hint, reverse, suffix, i, st);
      var r := OperandsSpec(att, e, hint, reverse, suffix, i + 1, next);
      assert OperandsSpec(att, e, hint, reverse, suffix, i, st) == r;
      OperandStepTable(att, e, hint, reverse, suffix, i, st);
      OperandsTable(att, e, hint, reverse, suffix, i + 1, next);
      TableKeptTrans(st.table, next.table, r.table);
    }
  }

  lemma {:induction false} OperandStepTable(att: Attribution, e: ExpressionParse, hint: TypeHint, reverse: bool, suffix: seq<nat>,
                                            i: nat, st: Emitted)
    requires e.Operation? && i < |e.operands|
    ensures TableKept(st.table, OperandStep(att, e, hint, reverse, suffix, i, st).table)
    decreases e, 0, 0
  {
    CompiledTable(att, Picked(e, reverse, i), hint, st.table, st.problems);
  }

  lemma LocationStepTable(att: Attribution, operand: ExpressionParse, st: Emitted)
    ensures TableKept(st.table, LocationStep(att, operand, st).table)
  {
    if operand.AtomParse? && operand.atom.Reference? {
      var c := ReferenceSpec(IN_LOCATION, operand.atom.name, st.table, st.problems);
    }
  }

  lemma {:induction false} LocationsTable(att: Attribution, e: ExpressionParse, i: nat, st: Emitted)
    requires e.Operation? && i <= |e.operands|
    ensures TableKept(st.table, LocationsSpec(att, e, i, st).table)
    decreases |e.operands| - i
  {
    if i < |e.operands| {
      var next := LocationStep(att, e.operands[i], st);
      var r := LocationsSpec(att, e, i + 1, next);
      assert LocationsSpec(att, e, i, st) == r;
      LocationStepTable(att, e.operands[i], st);
      LocationsTable(att, e, i + 1, next);
      TableKeptTrans(st.table, next.table, r.table);
    }
  }

  /**
   * The type hint only reaches the consequent and the alternative of a
   * `then`, and nothing the compiler emits depends on it: an expression
   * compiles to the same code and state either way.
   */
  lemma {:induction false} HintIrrelevant(att: Attribution, e: ExpressionParse, t: TableState, problems: seq<Problem>)
    ensures CompileSpec(att, e, Logical, t, problems) == CompileSpec(att, e, Numeric, t, problems)
    decreases e
  {
    if e.Operation? && e.operator == Then && |e.operands| == 3 {
      assert e.operands[0] in e.operands && e.operands[1] in e.operands && e.operands[2] in e.operands;
      var condition := CompileSpec(att, e.operands[0], Logical, t, problems);
      HintIrrelevant(att, e.operands[1], condition.table, condition.problems);
      var branch := CompileSpec(att, e.operands[1], Logical, condition.table, condition.problems);
      HintIrrelevant(att, e.operands[2], branch.table, branch.problems);
    }
  }

  /**
   * The shapes the compiler accepts without a problem: every operator is
   * one it implements, every `then` has three operands, and every operand
   * of `in` is a reference.
   */
  predicate Supported(e: ExpressionParse)
  {
    match e
    case AtomParse(_) => true
    case Operation(o, operands) =>
      (o == Then || o == In || o == Random || RepeatedOpcode(o).Some?)
      && (o == Then ==> |operands| == 3)
      && (o == In ==> forall j :: 0 <= j < |operands| ==> operands[j].AtomParse? && operands[j].atom.Reference?)
      && (forall j :: 0 <= j < |operands| ==> Supported(operands[j]))
  }

  /** A step that adds only fatal problems added none exactly when the list kept its length. */
  lemma NoneAdded(before: seq<Problem>, after: seq<Problem>)
    requires AddsFatals(before, after)
    ensures after == before <==> |after| == |before|
  {
    if |after| == |before| {
      assert after == after[..|before|];
    }
  }

  /** Compilation reports no problem exactly when the expression is `Supported`. */
  lemma {:induction false} CleanExactlyWhenSupported(att: Attribution, e: ExpressionParse, hint: TypeHint, t: TableState, problems: seq<Problem>)
    ensures CompileSpec(att, e, hint, t, problems).problems == problems <==> Supported(e)
    decreases e, 2
  {
    match e
    case AtomParse(_) =>
    case Operation(o, operands) =>
      if o == Then {
        ThenClean(att, e, hint, t, problems);
      } else if o == In {
        InClean(att, e, hint, t, problems);
      } else if o == Random {
        RandomClean(att, e, hint, t, problems);
      } else if RepeatedOpcode(o).Some? {
        RepeatedClean(att, e, hint, t, problems);
      } else {
        UnimplementedClean(att, e, hint, t, problems);
      }
  }

  lemma UnimplementedClean(att: Attribution, e: ExpressionParse, hint: TypeHint, t: TableState, problems: seq<Problem>)
    requires e.Operation? && e.operator != Then && e.operator != In && e.operator != Random && RepeatedOpcode(e.operator).None?
    ensures CompileSpec(att, e, hint, t, problems).problems != problems && !Supported(e)
  {
    assert |CompileSpec(att, e, hint, t, problems).problems| == |problems| + 1;
  }

  lemma {:induction false} InClean(att: Attribution, e: ExpressionParse, hint: TypeHint, t: TableState, problems: seq<Problem>)
    requires e.Operation? && e.operator == In
    ensures CompileSpec(att, e, hint, t, problems).problems == problems <==> Supported(e)
    decreases e, 1
  {
    assert CompileSpec(att, e, hint, t, problems).problems == LocationsSpec(att, e, 0, Emitted([], t, problems)).problems;
    LocationsClean(att, e, 0, Emitted([], t, problems));
    ReferencesSupported(e);
  }

  lemma {:induction false} RandomClean(att: Attribution, e: ExpressionParse, hint: TypeHint, t: TableState, problems: seq<Problem>)
    requires e.Operation? && e.operator == Random
    ensures CompileSpec(att, e, hint, t, problems).problems == problems <==> Supported(e)
    decreases e, 1
  {
    assert CompileSpec(att, e, hint, t, problems) == RandomSpec(att, e, t, problems);
    OperandsClean(att, e, Numeric, false, [], 0, Emitted([], t, problems));
    ForwardAll(e);
  }

  lemma {:induction false} RepeatedClean(att: Attribution, e: ExpressionParse, hint: TypeHint, t: TableState, problems: seq<Problem>)
    requires e.Operation? && RepeatedOpcode(e.operator).Some?
    ensures CompileSpec(att, e, hint, t, problems).problems == problems <==> Supported(e)
    decreases e, 1
  {
    assert e.operator != Then && e.operator != In && e.operator != Random;
    assert CompileSpec(att, e, hint, t, problems) == RepeatedSpec(att, e, t, problems);
    var spec := RepeatedOpcode(e.operator).value;
    OperandsClean(att, e, spec.1, spec.2, NotSuffix(e.operator), 0, Emitted([], t, problems));
    if spec.2 { ReversedAll(e); } else { ForwardAll(e); }
  }

  /** An `in` is `Supported` exactly when every operand is a reference. */
  lemma ReferencesSupported(e: ExpressionParse)
    requires e.Operation? && e.operator == In
    ensures Supported(e) <==> forall j :: 0 <= j < |e.operands| ==> e.operands[j].AtomParse? && e.operands[j].atom.Reference?
  {
  }

  /** Every operand, counted from the last, is every operand. */
  lemma ReversedAll(e: ExpressionParse)
    requires e.Operation?
    ensures (forall j :: 0 <= j < |e.operands| ==> Supported(Picked(e, true, j)))
            <==> (forall j :: 0 <= j < |e.operands| ==> Supported(e.operands[j]))
  {
    var n := |e.operands|;
    if forall j :: 0 <= j < n ==> Supported(Picked(e, true, j)) {
      forall j | 0 <= j < n ensures Supported(e.operands[j]) {
        assert e.operands[j] == Picked(e, true, n - 1 - j);
      }
    }
    if forall j :: 0 <= j < n ==> Supported(e.operands[j]) {
      forall j | 0 <= j < n ensures Supported(Picked(e, true, j)) {
        assert Picked(e, true, j) == e.operands[n - 1 - j];
      }
    }
  }

  /** Every operand, counted from the first, is every operand. */
  lemma ForwardAll(e: ExpressionParse)
    requires e.Operation?
    ensures (forall j :: 0 <= j < |e.operands| ==> Supported(Picked(e, false, j)))
            <==> (forall j :: 0 <= j < |e.operands| ==> Supported(e.operands[j]))
  {
    assert forall j :: 0 <= j < |e.operands| ==> Picked(e, false, j) == e.operands[j];
  }

  lemma {:induction false} ThenClean(att: Attribution, e: ExpressionParse, hint: TypeHint, t: TableState, problems: seq<Problem>)
    requires e.Operation? && e.operator == Then
    ensures CompileSpec(att, e, hint, t, problems).problems == problems <==> Supported(e)
    decreases e, 1
  {
    assert CompileSpec(att, e, hint, t, problems) == ThenCodeSpec(att, e, hint, t, problems);
    if |e.operands| == 3 {
      ThreeClean(att, e, hint, t, problems);
      ThreeSupported(e);
    } else {
      assert |ThenCodeSpec(att, e, hint, t, problems).problems| == |problems| + 1;
    }
  }

  lemma {:induction false} ThreeClean(att: Attribution, e: ExpressionParse, hint: TypeHint, t: TableState, problems: seq<Problem>)
    requires e.Operation? && e.operator == Then && |e.operands| == 3
    ensures ThenCodeSpec(att, e, hint, t, problems).problems == problems
            <==> Supported(e.operands[0]) && Supported(e.operands[1]) && Supported(e.operands[2])
    decreases e, 0
  {
    assert e.operands[0] in e.operands && e.operands[1] in e.operands && e.operands[2] in e.operands;
    var condition := CompileSpec(att, e.operands[0], Logical, t, problems);
    var branch := CompileSpec(att, e.operands[1], hint, condition.table, condition.problems);
    var fallback := CompileSpec(att, e.operands[2], hint, branch.table, branch.problems);
    CleanExactlyWhenSupported(att, e.operands[0], Logical, t, problems);
    CleanExactlyWhenSupported(att, e.operands[1], hint, condition.table, condition.problems);
    CleanExactlyWhenSupported(att, e.operands[2], hint, branch.table, branch.problems);
    NoneAdded(problems, condition.problems);
    NoneAdded(condition.problems, branch.problems);
    NoneAdded(branch.problems, fallback.problems);
    assert ThenCodeSpec(att, e, hint, t, problems).problems == fallback.problems;
  }

  lemma ThreeSupported(e: ExpressionParse)
    requires e.Operation? && |e.operands| == 3
    ensures (forall j :: 0 <= j < |e.operands| ==> Supported(e.operands[j]))
            <==> Supported(e.operands[0]) && Supported(e.operands[1]) && Supported(e.operands[2])
  {
  }

  lemma {:induction false} OperandsClean(att: Attribution, e: ExpressionParse, hint: TypeHint, reverse: bool, suffix: seq<nat>,
                                         i: nat, st: Emitted)
    requires e.Operation? && i <= |e.operands|
    ensures OperandsSpec(att, e, hint, reverse, suffix, i, st).problems == st.problems
            <==> forall j :: i <= j < |e.operands| ==> Supported(Picked(e, reverse, j))
    decreases e, 0, |e.operands| - i
  {
    if i < |e.operands| {
      var next := OperandStep(att, e, hint, reverse, suffix, i, st);
      var r := OperandsSpec(att, e, hint, reverse, suffix, i + 1, next);
      assert OperandsSpec(att, e, hint, reverse, suffix, i, st) == r;
      OperandStepClean(att, e, hint, reverse, suffix, i, st);
      OperandsClean(att, e, hint, reverse, suffix, i + 1, next);
      NoneAdded(st.problems, next.problems);
      NoneAdded(next.problems, r.problems);
      NoneAdded(st.problems, r.problems);
    }
  }

  lemma {:induction false} OperandStepClean(att: Attribution, e: ExpressionParse, hint: TypeHint, reverse: bool, suffix: seq<nat>,
                                            i: nat, st: Emitted)
    requires e.Operation? && i < |e.operands|
    ensures OperandStep(att, e, hint, reverse, suffix, i, st).problems == st.problems <==> Supported(Picked(e, reverse, i))
    decreases e, 0, 0
  {
    CleanExactlyWhenSupported(att, Picked(e, reverse, i), hint, st.table, st.problems);
  }

  lemma {:induction false} LocationsClean(att: Attribution, e: ExpressionParse, i: nat, st: Emitted)
    requires e.Operation? && i <= |e.operands|
    ensures LocationsSpec(att, e, i, st).problems == st.problems
            <==> forall j :: i <= j < |e.operands| ==> e.operands[j].AtomParse? && e.operands[j].atom.Reference?
    decreases |e.operands| - i
  {
    if i < |e.operands| {
      var next := LocationStep(att, e.operands[i], st);
      var r := LocationsSpec(att, e, i + 1, next);
      assert LocationsSpec(att, e, i, st) == r;
      LocationsClean(att, e, i + 1, next);
      NoneAdded(st.problems, next.problems);
      NoneAdded(next.problems, r.problems);
      NoneAdded(st.problems, r.problems);
      if r.problems == st.problems {
        assert |next.problems| == |st.problems|;
      }
    }
  }

  /** `5 - 3`: the operands are pushed last first, then one `SUBTRACT`. */
  lemma MinusPushesLastFirst(att: Attribution, t: TableState, problems: seq<Problem>)
    ensures CompileSpec(att, Operation(Minus, [AtomParse(NumericLiteral(5)), AtomParse(NumericLiteral(3))]), Numeric, t, problems).code
            == [PUSH, 3, PUSH, 5, SUBTRACT]
  {
    var e := Operation(Minus, [AtomParse(NumericLiteral(5)), AtomParse(NumericLiteral(3))]);
    var st := Emitted([], t, problems);
    var first := OperandStep(att, e, Numeric, true, [], 0, st);
    assert first.code == [PUSH, 3];
    var second := OperandStep(att, e, Numeric, true, [], 1, first);
    assert second.code == [PUSH, 3, PUSH, 5];
    assert OperandsSpec(att, e, Numeric, true, [], 0, st) == OperandsSpec(att, e, Numeric, true, [], 2, second);
    assert Repeat(SUBTRACT, 1) == [SUBTRACT];
  }

  /**
   * `true then 1 else 2`: the condition, `BRANCH` 4 over the consequent and
   * its `JUMP`, the consequent, `JUMP` 4, the alternative.
   */
  lemma ThenLayoutExample(att: Attribution, t: TableState, problems: seq<Problem>)
    ensures CompileSpec(att, Operation(Then, [AtomParse(LogicalLiteral(true)), AtomParse(NumericLiteral(1)), AtomParse(NumericLiteral(2))]), Numeric, t, problems).code
            == [PUSH, 1, BRANCH, 4, PUSH, 1, JUMP, 4, PUSH, 2]
  {
  }

  // ---------------------------------------------------------------------
  // The compiler state

  /**
   * One compilation: the attribution every problem is reported at, the
   * string table shared with the rest of the build, and the problems
   * reported so far.
   */
  class Compile {
    const attribution: Attribution
    const strings: StringTable
    var problems: seq<Problem>

    constructor (attribution: Attribution, strings: StringTable)
      ensures this.attribution == attribution && this.strings == strings && problems == []
    {
      this.attribution := attribution;
      this.strings := strings;
      problems := [];
    }

    /** What the call leaves behind, given the code it returns. */
    function Now(code: seq<nat>): Emitted
      reads this, strings
    {
      Emitted(code, strings.State(), problems)
    }

    /** `compile_logical`: the whole expression, compiled as a truth. */
    method CompileLogical(parse: ExpressionParse) returns (code: seq<nat>)
      modifies this, strings
      ensures Now(code) == CompileSpec(attribution, parse, Logical, old(strings.State()), old(problems))
    {
      code := CompileInner(parse, Logical);
    }

    /** `compile_numeric`: the whole expression, compiled as a number. */
    method CompileNumeric(parse: ExpressionParse) returns (code: seq<nat>)
      modifies this, strings
      ensures Now(code) == CompileSpec(attribution, parse, Numeric, old(strings.State()), old(problems))
    {
      code := CompileInner(parse, Numeric);
    }

    method CompileInner(parse: ExpressionParse, hint: TypeHint) returns (code: seq<nat>)
      modifies this, strings
      ensures Now(code) == CompileSpec(attribution, parse, hint, old(strings.State()), old(problems))
      decreases parse, 2
    {
      match parse {
        case AtomParse(atom) =>
          match atom {
            case NumericLiteral(n) => code := [PUSH, n];
            case LogicalLiteral(b) => code := if b then [PUSH, 1] else [PUSH, 0];
            case Reference(name) =>
              var address := strings.Put(name);
              code := [PUSH_VALUE_OF, AsU32(address.start), AsU32(address.end)];
          }
        case Operation(o, operands) =>
          if o == Then {
            code := CompileThen(parse, hint);
          } else if o == In {
            code := CompileIn(parse);
          } else if o == Random {
            code := CompileOperands(parse, Numeric, false, []);
            code := code + [RAND, AsU32(|operands|)];
          } else if RepeatedOpcode(o).Some? {
            code := CompileRepeated(parse);
          } else {
            problems := problems + [NewFatal("Unimplemented operation", attribution)];
            code := [PUSH, 0];
          }
      }
    }

    method CompileThen(parse: ExpressionParse, hint: TypeHint) returns (code: seq<nat>)
      requires parse.Operation? && parse.operator == Then
      modifies this, strings
      ensures Now(code) == ThenCodeSpec(attribution, parse, hint, old(strings.State()), old(problems))
      decreases parse, 1
    {
      if |parse.operands| == 3 {
        assert parse.operands[0] in parse.operands && parse.operands[1] in parse.operands && parse.operands[2] in parse.operands;
        var condition := CompileInner(parse.operands[0], Logical);
        var branch := CompileInner(parse.operands[1], hint);
        var fallback := CompileInner(parse.operands[2], hint);
        code := condition + [BRANCH, AsU32(|branch| + 2)] + branch + [JUMP, AsU32(|fallback| + 2)] + fallback;
      } else {
        problems := problems + [NewFatal("Expected 3 expressions", attribution)];
        code := [PUSH, 0];
      }
    }

    /** Every operand, then as many copies of the operator's opcode as the operator calls for. */
    method CompileRepeated(parse: ExpressionParse) returns (code: seq<nat>)
      requires parse.Operation? && RepeatedOpcode(parse.operator).Some?
      modifies this, strings
      ensures Now(code) == RepeatedSpec(attribution, parse, old(strings.State()), old(problems))
      decreases parse, 1
    {
      var spec := RepeatedOpcode(parse.operator).value;
      code := CompileOperands(parse, spec.1, spec.2, NotSuffix(parse.operator));
      code := PushCopies(code, spec.0, if spec.3 then 1 else 0, |parse.operands|);
    }

    /**
     * The operands of `parse`, each compiled with `hint` and followed by
     * `suffix`, first to last or last to first.
     */
    method CompileOperands(parse: ExpressionParse, hint: TypeHint, reverse: bool, suffix: seq<nat>) returns (code: seq<nat>)
      requires parse.Operation?
      modifies this, strings
      ensures Now(code) == OperandsSpec(attribution, parse, hint, reverse, suffix, 0, Emitted([], old(strings.State()), old(problems)))
      decreases parse, 0
    {
      ghost var goal := OperandsSpec(attribution, parse, hint, reverse, suffix, 0, Emitted([], strings.State(), problems));
      code := [];
      var i := 0;
      while i < |parse.operands|
        invariant i <= |parse.operands|
        invariant OperandsSpec(attribution, parse, hint, reverse, suffix, i, Now(code)) == goal
      {
        var operand := if reverse then parse.operands[|parse.operands| - 1 - i] else parse.operands[i];
        assert operand in parse.operands;
        var c := CompileInner(operand, hint);
        code := code + c + suffix;
        i := i + 1;
      }
    }

    /** `in`: a location test for each reference operand, a problem for any other, then the `OR`s. */
    method CompileIn(parse: ExpressionParse) returns (code: seq<nat>)
      requires parse.Operation? && parse.operator == In
      modifies this, strings
      ensures Now(code) == InSpec(attribution, parse, old(strings.State()), old(problems))
      decreases parse, 1
    {
      code := CompileLocations(parse);
      code := PushCopies(code, OR, 1, |parse.operands|);
    }

    method CompileLocations(parse: ExpressionParse) returns (code: seq<nat>)
      requires parse.Operation?
      modifies this, strings
      ensures Now(code) == LocationsSpec(attribution, parse, 0, Emitted([], old(strings.State()), old(problems)))
    {
      ghost var goal := LocationsSpec(attribution, parse, 0, Emitted([], strings.State(), problems));
      code := [];
      var i := 0;
      while i < |parse.operands|
        invariant i <= |parse.operands|
        invariant LocationsSpec(attribution, parse, i, Now(code)) == goal
      {
        var operand := parse.operands[i];
        if operand.AtomParse? && operand.atom.Reference? {
          var address := strings.Put(operand.atom.name);
          code := code + [IN_LOCATION, AsU32(address.start), AsU32(address.end)];
        } else {
          problems := problems + [NewFatal("Expected a location reference", attribution)];
        }
        i := i + 1;
      }
    }
  }
}
