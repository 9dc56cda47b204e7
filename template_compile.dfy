/**
 * The template compiler (compiler/src/template/compile.rs): the nodes of a
 * parsed template become bytecode words. Texts and hrefs are interned in
 * the shared string table; Italic, Bold and Anchor bracket their children
 * with a push and a pop; a Branch is its condition compiled as a truth
 * (with the expression compiler) followed by `BRANCH` and the branch code.
 *
 * `NodesSpec`/`NodeSpec` say what `compile_template` emits as a function of
 * the string table and the problem list before the call; the method
 * `CompileTemplate` is proved against them.
 */
module TemplateCompile {
  import opened Common
  import opened Attributions
  import opened Problems
  import opened StringTables
  import opened ExpressionTokens
  import opened ExpressionParser
  import opened ExpressionCompile
  import TemplateParse

  const STRING_PUSH: nat := 100
  const ITALIC_PUSH: nat := 101
  const ITALIC_POP: nat := 102
  const BOLD_PUSH: nat := 103
  const BOLD_POP: nat := 104
  const ANCHOR_PUSH: nat := 105
  const ANCHOR_POP: nat := 106
  const PARAGRAPH_PUSH: nat := 107

  /** An interned string: its start and end address, as 32-bit words. */
  function Interned(s: string, t: TableState): (r: (seq<nat>, TableState))
    ensures |r.0| == 2 && Words(r.0) && r.1 == PutSpec(t, s).0
  {
    var (t', a) := PutSpec(t, s);
    ([AsU32(a.start), AsU32(a.end)], t')
  }

  /**
   * A branch: the condition's code, `BRANCH` with the length of what
   * follows up to the else side, the then-code, and with an else side a
   * `JUMP` over it. The `JUMP` skips the else side's own length, where the
   * expression compiler's `JUMP` skips its alternative's length plus 2.
   */
  function BranchLayout(condition: seq<nat>, consequent: seq<nat>, alternative: Option<seq<nat>>): (r: seq<nat>)
    ensures alternative.None? ==> |r| == |condition| + 2 + |consequent|
    ensures alternative.Some? ==> |r| == |condition| + 4 + |consequent| + |alternative.value|
  {
    if alternative.Some? then
      condition + [BRANCH, AsU32(|consequent| + 2)] + consequent + [JUMP, AsU32(|alternative.value|)] + alternative.value
    else condition + [BRANCH, AsU32(|consequent|)] + consequent
  }

  /** What `compile_template` emits for the nodes from `i` on, `st` holding what the earlier nodes left. */
  function NodesSpec(att: Attribution, nodes: seq<TemplateParse.TemplateParseNode>, i: nat, st: Emitted): (r: Emitted)
    requires i <= |nodes|
    ensures AddsFatals(st.problems, r.problems)
    decreases nodes, |nodes| - i
  {
    if i == |nodes| then st
    else
      var node := NodeSpec(att, nodes[i], st.table, st.problems);
      var rest := NodesSpec(att, nodes, i + 1, Emitted(st.code + node.code, node.table, node.problems));
      AddsFatalsTrans(st.problems, node.problems, rest.problems);
      rest
  }

  /** `compile_template` on a whole list, from an empty result. */
  function TemplateSpec(att: Attribution, nodes: seq<TemplateParse.TemplateParseNode>, t: TableState, problems: seq<Problem>): (r: Emitted)
    ensures AddsFatals(problems, r.problems)
    decreases nodes, |nodes| + 1
  {
    NodesSpec(att, nodes, 0, Emitted([], t, problems))
  }

  /** The words of one node. */
  function NodeSpec(att: Attribution, node: TemplateParse.TemplateParseNode, t: TableState, problems: seq<Problem>): (r: Emitted)
    ensures AddsFatals(problems, r.problems)
    decreases node, 0
  {
    match node
    case Text(s) =>
      var (address, t') := Interned(s, t);
      Emitted([STRING_PUSH] + address, t', problems)
    case Paragraph =>
      Emitted([PARAGRAPH_PUSH], t, problems)
    case Italic(children) =>
      var inner := TemplateSpec(att, children, t, problems);
      Emitted([ITALIC_PUSH] + inner.code + [ITALIC_POP], inner.table, inner.problems)
    case Bold(children) =>
      var inner := TemplateSpec(att, children, t, problems);
      Emitted([BOLD_PUSH] + inner.code + [BOLD_POP], inner.table, inner.problems)
    case Anchor(href, children) =>
      var inner := TemplateSpec(att, children, t, problems);
      var (address, t') := Interned(href, inner.table);
      Emitted([ANCHOR_PUSH] + inner.code + [ANCHOR_POP] + address, t', inner.problems)
    case Branch(condition, value, otherwise) =>
      var c := CompileSpec(att, condition, Logical, t, []);
      FatalsAdded(problems, c.problems);
      var consequent := TemplateSpec(att, value, c.table, problems + c.problems);
      AddsFatalsTrans(problems, problems + c.problems, consequent.problems);
      match otherwise
      case NoElse =>
        Emitted(BranchLayout(c.code, consequent.code, None), consequent.table, consequent.problems)
      case ElseNodes(alternativeNodes) =>
        var alternative := TemplateSpec(att, alternativeNodes, consequent.table, consequent.problems);
        AddsFatalsTrans(problems, consequent.problems, alternative.problems);
        Emitted(BranchLayout(c.code, consequent.code, Some(alternative.code)), alternative.table, alternative.problems)
  }

  // ---------------------------------------------------------------------
  // The conditions a template holds

  /** The branch conditions of the nodes from `i` on, in the order they are compiled. */
  function ConditionsFrom(nodes: seq<TemplateParse.TemplateParseNode>, i: nat): seq<ExpressionParse>
    requires i <= |nodes|
    decreases nodes, |nodes| - i
  {
    if i == |nodes| then [] else NodeConditions(nodes[i]) + ConditionsFrom(nodes, i + 1)
  }

  /** The branch conditions of one node. */
  function NodeConditions(node: TemplateParse.TemplateParseNode): seq<ExpressionParse>
    decreases node, 0
  {
    match node
    case Text(_) => []
    case Paragraph => []
    case Italic(children) => ConditionsFrom(children, 0)
    case Bold(children) => ConditionsFrom(children, 0)
    case Anchor(_, children) => ConditionsFrom(children, 0)
    case Branch(condition, value, otherwise) =>
      match otherwise
      case NoElse => [condition] + ConditionsFrom(value, 0)
      case ElseNodes(alternative) => [condition] + ConditionsFrom(value, 0) + ConditionsFrom(alternative, 0)
  }

  predicate AllSupported(conditions: seq<ExpressionParse>)
  {
    forall k :: 0 <= k < |conditions| ==> Supported(conditions[k])
  }

  predicate AllFit(conditions: seq<ExpressionParse>)
  {
    forall k :: 0 <= k < |conditions| ==> LiteralsFit(conditions[k])
  }

  lemma AllSplit(a: seq<ExpressionParse>, b: seq<ExpressionParse>)
    ensures AllSupported(a + b) <==> AllSupported(a) && AllSupported(b)
    ensures AllFit(a + b) <==> AllFit(a) && AllFit(b)
  {
    assert forall k :: 0 <= k < |a| ==> (a + b)[k] == a[k];
    assert forall k :: 0 <= k < |b| ==> (a + b)[|a| + k] == b[k];
  }

  // ---------------------------------------------------------------------
  // Instruction layout

  /** The number of words a template instruction takes; the `ANCHOR_POP` carries the href's address. */
  function TemplateWidth(opcode: nat): nat
  {
    if opcode == STRING_PUSH || opcode == ANCHOR_POP then 3
    else if opcode in {ITALIC_PUSH, ITALIC_POP, BOLD_PUSH, BOLD_POP, ANCHOR_PUSH, PARAGRAPH_PUSH} then 1
    else Width(opcode)
  }

  /** `code` is a sequence of whole template or expression instructions. */
  predicate TemplateInstructions(code: seq<nat>)
    decreases |code|
  {
    code == [] || (0 < TemplateWidth(code[0]) <= |code| && TemplateInstructions(code[TemplateWidth(code[0])..]))
  }

  lemma {:induction false} TemplateInstructionsConcat(a: seq<nat>, b: seq<nat>)
    ensures TemplateInstructions(a) && TemplateInstructions(b) ==> TemplateInstructions(a + b)
    decreases |a|
  {
    if a != [] && TemplateInstructions(a) && TemplateInstructions(b) {
      var w := TemplateWidth(a[0]);
      assert (a + b)[w..] == a[w..] + b;
      TemplateInstructionsConcat(a[w..], b);
    } else if a == [] {
      assert a + b == b;
    }
  }

  /** Expression code is template code: the template opcodes are none of the expression's. */
  lemma {:induction false} ExpressionInstructions(code: seq<nat>)
    requires Instructions(code)
    ensures TemplateInstructions(code)
    decreases |code|
  {
    if code != [] {
      ExpressionInstructions(code[Width(code[0])..]);
    }
  }

  lemma WordsConcat(a: seq<nat>, b: seq<nat>)
    requires Words(a) && Words(b)
    ensures Words(a + b)
  {
    assert forall j :: 0 <= j < |b| ==> (a + b)[|a| + j] == b[j];
  }

  lemma {:induction false} BranchLayoutInstructions(condition: seq<nat>, consequent: seq<nat>, alternative: Option<seq<nat>>)
    requires Instructions(condition) && TemplateInstructions(consequent)
    requires alternative.Some? ==> TemplateInstructions(alternative.value)
    ensures TemplateInstructions(BranchLayout(condition, consequent, alternative))
    ensures Words(condition) && Words(consequent) && (alternative.Some? ==> Words(alternative.value))
            ==> Words(BranchLayout(condition, consequent, alternative))
  {
    ExpressionInstructions(condition);
    var n := if alternative.Some? then |consequent| + 2 else |consequent|;
    var branch := [BRANCH, AsU32(n)];
    assert branch[2..] == [];
    assert TemplateInstructions(branch);
    TemplateInstructionsConcat(condition, branch);
    TemplateInstructionsConcat(condition + branch, consequent);
    if Words(condition) && Words(consequent) {
      WordsConcat(condition, branch);
      WordsConcat(condition + branch, consequent);
    }
    if alternative.Some? {
      var jump := [JUMP, AsU32(|alternative.value|)];
      assert jump[2..] == [];
      assert TemplateInstructions(jump);
      TemplateInstructionsConcat(condition + branch + consequent, jump);
      TemplateInstructionsConcat(condition + branch + consequent + jump, alternative.value);
      if Words(condition) && Words(consequent) && Words(alternative.value) {
        WordsConcat(condition + branch + consequent, jump);
        WordsConcat(condition + branch + consequent + jump, alternative.value);
      }
    }
  }

  /**
   * The code for the nodes from `i` on is a sequence of whole
   * instructions, and when every condition's literals fit in 32 bits so
   * does every word.
   */
  lemma {:induction false} NodesLayout(att: Attribution, nodes: seq<TemplateParse.TemplateParseNode>, i: nat, st: Emitted)
    requires i <= |nodes| && TemplateInstructions(st.code)
    ensures TemplateInstructions(NodesSpec(att, nodes, i, st).code)
    ensures Words(st.code) && AllFit(ConditionsFrom(nodes, i)) ==> Words(NodesSpec(att, nodes, i, st).code)
    decreases nodes, |nodes| - i
  {
    if i < |nodes| {
      var node := NodeSpec(att, nodes[i], st.table, st.problems);
      var conditions := NodeConditions(nodes[i]);
      var rest := ConditionsFrom(nodes, i + 1);
      assert ConditionsFrom(nodes, i) == conditions + rest;
      AllSplit(conditions, rest);
      NodeLayout(att, nodes[i], st.table, st.problems);
      TemplateInstructionsConcat(st.code, node.code);
      if Words(st.code) && AllFit(conditions) {
        WordsConcat(st.code, node.code);
      }
      NodesLayout(att, nodes, i + 1, Emitted(st.code + node.code, node.table, node.problems));
    }
  }

  lemma {:induction false} NodeLayout(att: Attribution, node: TemplateParse.TemplateParseNode, t: TableState, problems: seq<Problem>)
    ensures TemplateInstructions(NodeSpec(att, node, t, problems).code)
    ensures AllFit(NodeConditions(node)) ==> Words(NodeSpec(att, node, t, problems).code)
    decreases node, 1
  {
    var r := NodeSpec(att, node, t, problems);
    match node
    case Text(s) =>
      assert r.code[3..] == [];
    case Paragraph =>
      assert r.code[1..] == [];
    case Italic(children) =>
      NodesLayout(att, children, 0, Emitted([], t, problems));
      Bracketed(ITALIC_PUSH, TemplateSpec(att, children, t, problems).code, [ITALIC_POP]);
    case Bold(children) =>
      NodesLayout(att, children, 0, Emitted([], t, problems));
      Bracketed(BOLD_PUSH, TemplateSpec(att, children, t, problems).code, [BOLD_POP]);
    case Anchor(href, children) =>
      NodesLayout(att, children, 0, Emitted([], t, problems));
      var inner := TemplateSpec(att, children, t, problems);
      var address := Interned(href, inner.table).0;
      Bracketed(ANCHOR_PUSH, inner.code, [ANCHOR_POP] + address);
      assert [ANCHOR_PUSH] + inner.code + [ANCHOR_POP] + address == [ANCHOR_PUSH] + inner.code + ([ANCHOR_POP] + address);
    case Branch(_, _, _) =>
      BranchNodeLayout(att, node, t, problems);
  }

  lemma {:induction false} BranchNodeLayout(att: Attribution, node: TemplateParse.TemplateParseNode, t: TableState, problems: seq<Problem>)
    requires node.Branch?
    ensures TemplateInstructions(NodeSpec(att, node, t, problems).code)
    ensures AllFit(NodeConditions(node)) ==> Words(NodeSpec(att, node, t, problems).code)
    decreases node, 0
  {
    var c := CompileSpec(att, node.condition, Logical, t, []);
    CompiledLayout(att, node.condition, Logical, t, []);
    var consequent := TemplateSpec(att, node.value, c.table, problems + c.problems);
    NodesLayout(att, node.value, 0, Emitted([], c.table, problems + c.problems));
    var inValue := ConditionsFrom(node.value, 0);
    assert [node.condition][0] == node.condition;
    match node.next
    case NoElse =>
      AllSplit([node.condition], inValue);
      BranchLayoutInstructions(c.code, consequent.code, None);
    case ElseNodes(alternativeNodes) =>
      NodesLayout(att, alternativeNodes, 0, Emitted([], consequent.table, consequent.problems));
      var alternative := TemplateSpec(att, alternativeNodes, consequent.table, consequent.problems);
      AllSplit([node.condition], inValue);
      AllSplit([node.condition] + inValue, ConditionsFrom(alternativeNodes, 0));
      BranchLayoutInstructions(c.code, consequent.code, Some(alternative.code));
  }

  /** A one-word push, whole instructions, and a closing instruction. */
  lemma Bracketed(push: nat, inner: seq<nat>, pop: seq<nat>)
    requires TemplateWidth(push) == 1 && TemplateInstructions(inner)
    requires |pop| > 0 && |pop| == TemplateWidth(pop[0]) && Words(pop) && push < U32Limit
    ensures TemplateInstructions([push] + inner + pop)
    ensures Words(inner) ==> Words([push] + inner + pop)
  {
    assert ([push] + inner + pop)[1..] == inner + pop;
    assert pop[|pop|..] == [];
    assert TemplateInstructions(pop);
    TemplateInstructionsConcat(inner, pop);
    if Words(inner) {
      WordsConcat([push], inner);
      WordsConcat([push] + inner, pop);
    }
  }

  // ---------------------------------------------------------------------
  // Problems and the string table

  /** The nodes from `i` on add no problem exactly when every condition among them compiles cleanly. */
  lemma {:induction false} NodesClean(att: Attribution, nodes: seq<TemplateParse.TemplateParseNode>, i: nat, st: Emitted)
    requires i <= |nodes|
    ensures NodesSpec(att, nodes, i, st).problems == st.problems <==> AllSupported(ConditionsFrom(nodes, i))
    decreases nodes, |nodes| - i
  {
    if i < |nodes| {
      var node := NodeSpec(att, nodes[i], st.table, st.problems);
      var next := Emitted(st.code + node.code, node.table, node.problems);
      var r := NodesSpec(att, nodes, i + 1, next);
      var conditions := NodeConditions(nodes[i]);
      var rest := ConditionsFrom(nodes, i + 1);
      assert ConditionsFrom(nodes, i) == conditions + rest;
      AllSplit(conditions, rest);
      NodeClean(att, nodes[i], st.table, st.problems);
      NodesClean(att, nodes, i + 1, next);
      NoneAdded(st.problems, node.problems);
      NoneAdded(node.problems, r.problems);
      NoneAdded(st.problems, r.problems);
    }
  }

  lemma {:induction false} NodeClean(att: Attribution, node: TemplateParse.TemplateParseNode, t: TableState, problems: seq<Problem>)
    ensures NodeSpec(att, node, t, problems).problems == problems <==> AllSupported(NodeConditions(node))
    decreases node, 1
  {
    match node
    case Text(_) =>
    case Paragraph =>
    case Italic(children) =>
      NodesClean(att, children, 0, Emitted([], t, problems));
    case Bold(children) =>
      NodesClean(att, children, 0, Emitted([], t, problems));
    case Anchor(_, children) =>
      NodesClean(att, children, 0, Emitted([], t, problems));
    case Branch(_, _, _) =>
      BranchNodeClean(att, node, t, problems);
  }

  lemma {:induction false} BranchNodeClean(att: Attribution, node: TemplateParse.TemplateParseNode, t: TableState, problems: seq<Problem>)
    requires node.Branch?
    ensures NodeSpec(att, node, t, problems).problems == problems <==> AllSupported(NodeConditions(node))
    decreases node, 0
  {
    var c := CompileSpec(att, node.condition, Logical, t, []);
    CleanExactlyWhenSupported(att, node.condition, Logical, t, []);
    var before := problems + c.problems;
    var consequent := TemplateSpec(att, node.value, c.table, before);
    NodesClean(att, node.value, 0, Emitted([], c.table, before));
    NoneAdded(before, consequent.problems);
    var inValue := ConditionsFrom(node.value, 0);
    assert [node.condition][0] == node.condition;
    AllSplit([node.condition], inValue);
    match node.next
    case NoElse =>
    case ElseNodes(alternativeNodes) =>
      NodesClean(att, alternativeNodes, 0, Emitted([], consequent.table, consequent.problems));
      var alternative := TemplateSpec(att, alternativeNodes, consequent.table, consequent.problems);
      NoneAdded(consequent.problems, alternative.problems);
      AllSplit([node.condition] + inValue, ConditionsFrom(alternativeNodes, 0));
  }

  /** The nodes from `i` on only add to the string table and keep it valid. */
  lemma {:induction false} NodesTable(att: Attribution, nodes: seq<TemplateParse.TemplateParseNode>, i: nat, st: Emitted)
    requires i <= |nodes|
    ensures TableKept(st.table, NodesSpec(att, nodes, i, st).table)
    decreases nodes, |nodes| - i
  {
    if i < |nodes| {
      var node := NodeSpec(att, nodes[i], st.table, st.problems);
      var next := Emitted(st.code + node.code, node.table, node.problems);
      NodeTable(att, nodes[i], st.table, st.problems);
      NodesTable(att, nodes, i + 1, next);
      TableKeptTrans(st.table, node.table, NodesSpec(att, nodes, i + 1, next).table);
    }
  }

  lemma {:induction false} NodeTable(att: Attribution, node: TemplateParse.TemplateParseNode, t: TableState, problems: seq<Problem>)
    ensures TableKept(t, NodeSpec(att, node, t, problems).table)
    decreases node, 0
  {
    match node
    case Text(s) =>
      PutExtends(t, s);
      PutKeepsValidity(t, s);
    case Paragraph =>
    case Italic(children) =>
      NodesTable(att, children, 0, Emitted([], t, problems));
    case Bold(children) =>
      NodesTable(att, children, 0, Emitted([], t, problems));
    case Anchor(href, children) =>
      NodesTable(att, children, 0, Emitted([], t, problems));
      var inner := TemplateSpec(att, children, t, problems);
      PutExtends(inner.table, href);
      PutKeepsValidity(inner.table, href);
      TableKeptTrans(t, inner.table, PutSpec(inner.table, href).0);
    case Branch(condition, value, otherwise) =>
      var c := CompileSpec(att, condition, Logical, t, []);
      CompiledTable(att, condition, Logical, t, []);
      var consequent := TemplateSpec(att, value, c.table, problems + c.problems);
      NodesTable(att, value, 0, Emitted([], c.table, problems + c.problems));
      TableKeptTrans(t, c.table, consequent.table);
      match otherwise
      case NoElse =>
      case ElseNodes(alternativeNodes) =>
        NodesTable(att, alternativeNodes, 0, Emitted([], consequent.table, consequent.problems));
        var alternative := TemplateSpec(att, alternativeNodes, consequent.table, consequent.problems);
        TableKeptTrans(t, consequent.table, alternative.table);
  }

  // ---------------------------------------------------------------------
  // The output is the nodes' outputs in order

  /** The words emitted before the nodes from `i` on are kept in front of theirs. */
  lemma {:induction false} NodesAccumulate(att: Attribution, nodes: seq<TemplateParse.TemplateParseNode>, i: nat, st: Emitted)
    requires i <= |nodes|
    ensures var fromEmpty := NodesSpec(att, nodes, i, Emitted([], st.table, st.problems));
      NodesSpec(att, nodes, i, st) == Emitted(st.code + fromEmpty.code, fromEmpty.table, fromEmpty.problems)
    decreases |nodes| - i
  {
    if i == |nodes| {
      assert st.code + [] == st.code;
    } else {
      var node := NodeSpec(att, nodes[i], st.table, st.problems);
      NodesAccumulate(att, nodes, i + 1, Emitted(st.code + node.code, node.table, node.problems));
      NodesAccumulate(att, nodes, i + 1, Emitted([] + node.code, node.table, node.problems));
      assert [] + node.code == node.code;
    }
  }

  lemma {:induction false} NodesShift(att: Attribution, a: seq<TemplateParse.TemplateParseNode>, b: seq<TemplateParse.TemplateParseNode>, j: nat, st: Emitted)
    requires j <= |b|
    ensures NodesSpec(att, a + b, |a| + j, st) == NodesSpec(att, b, j, st)
    decreases |b| - j
  {
    if j < |b| {
      assert (a + b)[|a| + j] == b[j];
      var node := NodeSpec(att, b[j], st.table, st.problems);
      NodesShift(att, a, b, j + 1, Emitted(st.code + node.code, node.table, node.problems));
    }
  }

  lemma {:induction false} NodesSplit(att: Attribution, a: seq<TemplateParse.TemplateParseNode>, b: seq<TemplateParse.TemplateParseNode>, i: nat, st: Emitted)
    requires i <= |a|
    ensures NodesSpec(att, a + b, i, st) == NodesSpec(att, b, 0, NodesSpec(att, a, i, st))
    decreases |a| - i
  {
    if i == |a| {
      NodesShift(att, a, b, 0, st);
    } else {
      assert (a + b)[i] == a[i];
      var node := NodeSpec(att, a[i], st.table, st.problems);
      NodesSplit(att, a, b, i + 1, Emitted(st.code + node.code, node.table, node.problems));
    }
  }

  /**
   * Compiling two lists one after the other is compiling their
   * concatenation: the words are those of the first list followed by those
   * of the second, which starts from the table and problems the first left.
   */
  lemma TemplateConcat(att: Attribution, a: seq<TemplateParse.TemplateParseNode>, b: seq<TemplateParse.TemplateParseNode>,
                       t: TableState, problems: seq<Problem>)
    ensures var first := TemplateSpec(att, a, t, problems);
      var second := TemplateSpec(att, b, first.table, first.problems);
      TemplateSpec(att, a + b, t, problems) == Emitted(first.code + second.code, second.table, second.problems)
  {
    var first := TemplateSpec(att, a, t, problems);
    NodesSplit(att, a, b, 0, Emitted([], t, problems));
    NodesAccumulate(att, b, 0, first);
  }

  /** The compiled template is whole instructions, and 32-bit words when every condition's literals fit. */
  lemma TemplateLayout(att: Attribution, nodes: seq<TemplateParse.TemplateParseNode>, t: TableState, problems: seq<Problem>)
    ensures TemplateInstructions(TemplateSpec(att, nodes, t, problems).code)
    ensures AllFit(ConditionsFrom(nodes, 0)) ==> Words(TemplateSpec(att, nodes, t, problems).code)
  {
    NodesLayout(att, nodes, 0, Emitted([], t, problems));
  }

  /** The compiled template reports no problem exactly when every branch condition is one the expression compiler supports. */
  lemma TemplateClean(att: Attribution, nodes: seq<TemplateParse.TemplateParseNode>, t: TableState, problems: seq<Problem>)
    ensures TemplateSpec(att, nodes, t, problems).problems == problems <==> AllSupported(ConditionsFrom(nodes, 0))
  {
    NodesClean(att, nodes, 0, Emitted([], t, problems));
  }

  /** Compiling a template only adds to the string table and keeps it valid. */
  lemma TemplateTable(att: Attribution, nodes: seq<TemplateParse.TemplateParseNode>, t: TableState, problems: seq<Problem>)
    ensures TableKept(t, TemplateSpec(att, nodes, t, problems).table)
  {
    NodesTable(att, nodes, 0, Emitted([], t, problems));
  }

  // ---------------------------------------------------------------------
  // Two branches worked through

  /** `{true}` then a blank line and `{end}`: `BRANCH` skips the one word of the then-code. */
  lemma BranchWithoutElse(att: Attribution, t: TableState, problems: seq<Problem>)
    ensures TemplateSpec(att, [TemplateParse.Branch(AtomParse(LogicalLiteral(true)), [TemplateParse.Paragraph], TemplateParse.NoElse)], t, problems).code
            == [PUSH, 1, BRANCH, 1, PARAGRAPH_PUSH]
  {
    var inner := [TemplateParse.Paragraph];
    assert TemplateSpec(att, inner, t, problems).code == [PARAGRAPH_PUSH];
  }

  /**
   * With an else side of one word: `BRANCH` skips the then-code and the
   * `JUMP`, and the `JUMP` skips 1 word, the else side's own length.
   */
  lemma BranchWithElse(att: Attribution, t: TableState, problems: seq<Problem>)
    ensures TemplateSpec(att, [TemplateParse.Branch(AtomParse(LogicalLiteral(true)), [TemplateParse.Paragraph],
                                                    TemplateParse.ElseNodes([TemplateParse.Paragraph]))], t, problems).code
            == [PUSH, 1, BRANCH, 3, PARAGRAPH_PUSH, JUMP, 1, PARAGRAPH_PUSH]
  {
    var inner := [TemplateParse.Paragraph];
    assert TemplateSpec(att, inner, t, problems).code == [PARAGRAPH_PUSH];
  }

  // ---------------------------------------------------------------------
  // The compiler

  /** `compile_template`: each node's words in turn, appended to a fresh list. */
  method CompileTemplate(nodes: seq<TemplateParse.TemplateParseNode>, attribution: Attribution, strings: StringTable, problems0: seq<Problem>)
    returns (code: seq<nat>, problems: seq<Problem>)
    modifies strings
    ensures Emitted(code, strings.State(), problems) == TemplateSpec(attribution, nodes, old(strings.State()), problems0)
    decreases nodes, |nodes| + 1
  {
    ghost var goal := TemplateSpec(attribution, nodes, strings.State(), problems0);
    code, problems := [], problems0;
    var i := 0;
    while i < |nodes|
      invariant i <= |nodes|
      invariant NodesSpec(attribution, nodes, i, Emitted(code, strings.State(), problems)) == goal
    {
      var c: seq<nat>;
      c, problems := CompileNode(nodes[i], attribution, strings, problems);
      code := code + c;
      i := i + 1;
    }
  }

  /** The body of `compile_template`'s loop: the words of one node. */
  method CompileNode(node: TemplateParse.TemplateParseNode, attribution: Attribution, strings: StringTable, problems0: seq<Problem>)
    returns (code: seq<nat>, problems: seq<Problem>)
    modifies strings
    ensures Emitted(code, strings.State(), problems) == NodeSpec(attribution, node, old(strings.State()), problems0)
    decreases node, 0
  {
    problems := problems0;
    if node.Text? {
      var address := strings.Put(node.text);
      code := [STRING_PUSH, AsU32(address.start), AsU32(address.end)];
    } else if node.Italic? {
      var inner;
      inner, problems := CompileTemplate(node.children, attribution, strings, problems);
      code := [ITALIC_PUSH] + inner + [ITALIC_POP];
    } else if node.Bold? {
      var inner;
      inner, problems := CompileTemplate(node.children, attribution, strings, problems);
      code := [BOLD_PUSH] + inner + [BOLD_POP];
    } else if node.Anchor? {
      var inner;
      inner, problems := CompileTemplate(node.children, attribution, strings, problems);
      var address := strings.Put(node.href);
      code := [ANCHOR_PUSH] + inner + [ANCHOR_POP, AsU32(address.start), AsU32(address.end)];
    } else if node.Branch? {
      var compiler := new Compile(attribution, strings);
      var condition := compiler.CompileLogical(node.condition);
      problems := problems + compiler.problems;
      var consequent;
      consequent, problems := CompileTemplate(node.value, attribution, strings, problems);
      if node.next.ElseNodes? {
        consequent := consequent + [JUMP];
        var alternative;
        alternative, problems := CompileTemplate(node.next.nodes, attribution, strings, problems);
        consequent := consequent + [AsU32(|alternative|)];
        code := condition + [BRANCH, AsU32(|consequent|)] + consequent + alternative;
      } else {
        code := condition + [BRANCH, AsU32(|consequent|)] + consequent;
      }
    } else {
      code := [PARAGRAPH_PUSH];
    }
  }
}
