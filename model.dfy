/**
 * The model builder (compiler/src/model.rs): from an element tree to the
 * `Model` the engine reads. Names are extracted first, so that every
 * expression and template is parsed against the complete symbol list;
 * then the metadata, qualities, top-level storylets and locations (with
 * the storylets they hold) are built in that order, and every problem is
 * appended to one list.
 *
 * Each builder is a specification function that threads the problem
 * list and yields `Made(value, problems)`. The three parsers it calls
 * are the fields of `Parsers`, and `Pipeline` instantiates them with the
 * expression, template and text parsers of this project. The loops of
 * the source (the fold over a conditional list, the style tags, the
 * qualities, the locations) are methods of the class `Parse`, whose
 * `problems` field is the list they append to, proved against those
 * functions.
 */
module Models {
  import opened Common
  import opened Attributions
  import opened Problems
  import opened ElementName
  import opened ElementExpression
  import opened ElementTemplate
  import opened ElementText
  import opened ElementUri
  import opened ElementTag
  import opened ElementLogical
  import opened ElementList
  import opened ElementConditional
  import opened ElementNamed
  import opened ElementMeta
  import opened ElementQuality
  import opened ElementLocation
  import opened ElementStorylet
  import opened ElementTrees
  import Tokens = ExpressionTokens
  import Lexer = ExpressionLexer
  import EP = ExpressionParser
  import TP = TemplateParse
  import TxP = TextParse
  import Texts
  import Symbols
  import SymbolNames
  import SymbolExtract

  type Expression = EP.ExpressionParse
  type Template = seq<TP.TemplateParseNode>
  type Text = seq<Texts.TextNode>

  const LastMessage: string := "Last option must be unconditional, but one or more conditions were provided. Did you mean to include another element?"
  const AssignmentMessage: string := "No assignment subject or operator found"
  const ChoiceLabelMessage: string := "Every choice must have a label, but this one does not. Did you mean to include a label?"
  const UnlabeledText: string := "Unlabeled"
  const StoryletNameMessage: string := "Every storylet must have a name, but this one does not. Did you mean to include a name?"
  const ValueNameMessage: string := "Every defined quality value must have a name, but this value doesn't have one. Did you mean to include a name?"
  const StyleMessage: string := "Unrecognized style tag"
  const QualityNameMessage: string := "Every quality must have a name, but this quality doesn't have one. Did you mean to include a name?"
  const LocationNameMessage: string := "Every location must have a name, but this location doesn't. Did you mean to include a name?"

  // ---------------------------------------------------------------------
  // The model

  /** A value chosen by the first condition that holds, ending in an unconditional one. */
  datatype Conditional<T> =
    | Always(value: T)
    | Conditionally(condition: Expression, value: T, next: Conditional<T>)

  datatype AssignmentOperation = Set | Unset | Increment | Decrement

  datatype Assignment = Assignment(condition: Option<Expression>, subject: string, operation: AssignmentOperation, operand: Expression)

  datatype AssignmentGroup = AssignmentGroup(assignments: seq<Assignment>, description: Option<Template>)

  datatype Choice = Choice(
    condition: Option<Expression>,
    labelText: Template,
    description: Option<Template>,
    icon: Option<Conditional<string>>,
    body: Option<Template>,
    navigation: Option<Conditional<string>>,
    assignments: Option<seq<AssignmentGroup>>)

  datatype ChoiceGroup = ChoiceGroup(limit: Option<Expression>, shuffle: Option<Expression>, choices: seq<Choice>)

  datatype Choices = Choices(prompt: Option<Template>, groups: seq<ChoiceGroup>)

  datatype Storylet = Storylet(
    name: string,
    condition: Option<Expression>,
    labelText: Option<Template>,
    description: Option<Template>,
    icon: Option<Conditional<string>>,
    body: Option<Template>,
    navigation: Option<Conditional<string>>,
    assignments: Option<seq<AssignmentGroup>>,
    choices: Option<Choices>)

  datatype QualityStyle = QualityStyle(currency: bool, personal: bool, plural: bool, possessive: bool, uncounted: bool)

  datatype QualityValue = QualityValue(name: string, labelText: Option<Template>, description: Option<Template>, icon: Option<Conditional<string>>)

  datatype Quality = Quality(
    name: string,
    labelText: Option<Template>,
    singularLabel: Option<Template>,
    pluralLabel: Option<Template>,
    description: Option<Template>,
    icon: Option<Conditional<string>>,
    hidden: bool,
    style: Option<QualityStyle>,
    values: Option<seq<QualityValue>>,
    exclusive: bool)

  datatype Location = Location(name: string, labelText: Template, description: Option<Template>, body: Option<Template>)

  datatype Meta = Meta(title: Option<Text>, description: Option<Text>, credits: seq<Text>)

  datatype Model = Model(meta: Meta, qualities: seq<Quality>, locations: seq<Location>, storylets: seq<Storylet>)

  datatype ModelParsingResult = ModelParsingResult(model: Model, problems: seq<Problem>)

  /** What a builder yields: its value and the problem list after it. */
  datatype Made<T> = Made(value: T, problems: seq<Problem>)

  // ---------------------------------------------------------------------
  // The parsers the builder calls

  datatype Parsers = Parsers(
    expression: (string, Attribution) -> Outcome<EP.ExpressionParsingResult>,
    template: (string, Attribution) -> Outcome<TP.TemplateParsingResult>,
    text: string -> Outcome<TxP.TextParsingResult>)

  /** `ExpressionParser::parse` of a whole source text. */
  function ExpressionOf(symbols: seq<string>, source: string, att: Attribution): Outcome<EP.ExpressionParsingResult>
  {
    var parsed :- EP.ExpressionSpec(symbols, att, Lexer.LexState(source, DefaultMark));
    Ok(EP.ExpressionParsingResult(parsed.parse, parsed.problems))
  }

  /** The parsers `ModelParser::parse` creates over the extracted symbols. */
  function Pipeline(symbols: seq<string>): Parsers
  {
    Parsers(
      (source: string, att: Attribution) => ExpressionOf(symbols, source, att),
      (source: string, att: Attribution) => TP.ParseSpec(symbols, att, source),
      (source: string) => TxP.ParseSpec(source))
  }

  // ---------------------------------------------------------------------
  // `parse_expression`, `parse_template`, `parse_text`

  /** `parse_expression`: an absent element parses to nothing and adds no problem. */
  function ParseExpression(parsers: Parsers, element: Option<ExpressionElement>, problems: seq<Problem>): (r: Outcome<Made<Option<Expression>>>)
    ensures element.None? ==> r == Ok(Made(None, problems))
    ensures r.Ok? ==> IsPrefix(problems, r.value.problems)
  {
    if element.None? then Ok(Made(None, problems))
    else
      var result :- parsers.expression(element.value.source, element.value.attribution);
      Ok(Made(result.parse, problems + result.problems))
  }

  /** `parse_template`: an absent template, or one that parses to no node, is `None`. */
  function ParseTemplate(parsers: Parsers, element: Option<TextTemplateElement>, problems: seq<Problem>): (r: Outcome<Made<Option<Template>>>)
    ensures element.None? ==> r == Ok(Made(None, problems))
    ensures r.Ok? && r.value.value.Some? ==> r.value.value.value != []
    ensures r.Ok? ==> IsPrefix(problems, r.value.problems)
  {
    if element.None? then Ok(Made(None, problems))
    else
      var result :- parsers.template(element.value.source, element.value.attribution);
      Ok(Made(if result.parse == [] then None else Some(result.parse), problems + result.problems))
  }

  /** One text element: its text, or `None` when it parses to no node. */
  function TextOf(parsers: Parsers, element: TextElement, problems: seq<Problem>): (r: Outcome<Made<Option<Text>>>)
    ensures r.Ok? && r.value.value.Some? ==> r.value.value.value != []
    ensures r.Ok? ==> IsPrefix(problems, r.value.problems)
  {
    var result :- parsers.text(element.source);
    Ok(Made(if result.text == [] then None else Some(result.text), problems + result.problems))
  }

  /** `parse_text`. */
  function ParseText(parsers: Parsers, element: Option<TextElement>, problems: seq<Problem>): (r: Outcome<Made<Option<Text>>>)
    ensures element.None? ==> r == Ok(Made(None, problems))
    ensures element.Some? ==> r == TextOf(parsers, element.value, problems)
  {
    if element.None? then Ok(Made(None, problems)) else TextOf(parsers, element.value, problems)
  }

  // ---------------------------------------------------------------------
  // Conditions

  function Negated(e: Expression): Expression
  {
    EP.Operation(Tokens.Not, [e])
  }

  function Present(e: Option<Expression>): seq<Expression>
  {
    if e.Some? then [e.value] else []
  }

  predicate IsAnd(e: Expression)
  {
    e.Operation? && e.operator == Tokens.And
  }

  /**
   * The conditions in the order the source collects them: the contextual
   * one, then `when`, `if`, and the negation of `unless`, each when present.
   */
  function ConditionsSpec(parsers: Parsers, contextual: Option<Expression>, when: Option<ExpressionElement>, ifCondition: Option<ExpressionElement>, unless: Option<ExpressionElement>, problems: seq<Problem>): (r: Outcome<Made<seq<Expression>>>)
    ensures r.Ok? ==> IsPrefix(problems, r.value.problems)
    ensures r.Ok? && contextual.Some? ==> |r.value.value| > 0 && r.value.value[0] == contextual.value
    ensures when.None? && ifCondition.None? && unless.None? ==> r == Ok(Made(Present(contextual), problems))
  {
    var w :- ParseExpression(parsers, when, problems);
    var i :- ParseExpression(parsers, ifCondition, w.problems);
    var u :- ParseExpression(parsers, unless, i.problems);
    var parsed := Present(w.value) + Present(i.value) + (if u.value.Some? then [Negated(u.value.value)] else []);
    assert Present(contextual) + [] == Present(contextual);
    Ok(Made(Present(contextual) + parsed, u.problems))
  }

  /** One condition stands alone and several are joined by `And`. */
  function Joined(conditions: seq<Expression>): (r: Option<Expression>)
    ensures r.None? <==> conditions == []
    ensures |conditions| > 1 ==> r == Some(EP.Operation(Tokens.And, conditions))
  {
    if conditions == [] then None
    else if |conditions| == 1 then Some(conditions[0])
    else Some(EP.Operation(Tokens.And, conditions))
  }

  /** The first of the conditions `Joined` joins, when none of them is itself an `And`. */
  function FirstCondition(e: Expression): Expression
  {
    if IsAnd(e) && |e.operands| > 0 then e.operands[0] else e
  }

  /** The last of the conditions `Joined` joins, when none of them is itself an `And`. */
  function LastCondition(e: Expression): Expression
  {
    if IsAnd(e) && |e.operands| > 0 then e.operands[|e.operands| - 1] else e
  }

  /** `parse_conditional`: unlike a chain or a storylet, any condition at all is wrapped in `And`. */
  function ParseCondition(parsers: Parsers, when: Option<ExpressionElement>, ifCondition: Option<ExpressionElement>, unless: Option<ExpressionElement>, problems: seq<Problem>): (r: Outcome<Made<Option<Expression>>>)
    ensures r.Ok? && r.value.value.Some? ==> IsAnd(r.value.value.value) && |r.value.value.value.operands| > 0
    ensures when.None? && ifCondition.None? && unless.None? ==> r == Ok(Made(None, problems))
    ensures r.Ok? ==> IsPrefix(problems, r.value.problems)
  {
    var c :- ConditionsSpec(parsers, None, when, ifCondition, unless, problems);
    Ok(Made(if c.value == [] then None else Some(EP.Operation(Tokens.And, c.value)), c.problems))
  }

  // ---------------------------------------------------------------------
  // `parse_conditional_uri` and `parse_conditional_name`

  /** One round of the backward fold, with `next` the chain built from the later elements. */
  function ChainStep<E>(parsers: Parsers, attribution: Attribution, element: ConditionalElement<E>, value: (E, seq<Problem>) -> Made<string>, next: Option<Conditional<string>>, problems: seq<Problem>): (r: Outcome<Made<Conditional<string>>>)
  {
    var c :- ConditionsSpec(parsers, None, element.when, element.ifCondition, element.unless, problems);
    var condition := Joined(c.value);
    if condition.Some? && next.Some? then
      var v := value(element.thenElement, c.problems);
      Ok(Made(Conditionally(condition.value, v.value, next.value), v.problems))
    else if condition.Some? then
      var v := value(element.thenElement, c.problems + [NewFatal(LastMessage, attribution)]);
      Ok(Made(Always(v.value), v.problems))
    else
      var v := value(element.thenElement, c.problems);
      Ok(Made(Always(v.value), v.problems))
  }

  /** The fold over the first `k` elements, from the last of them back, onto `next`. */
  function ChainSpec<E>(parsers: Parsers, list: ListElement<ConditionalElement<E>>, value: (E, seq<Problem>) -> Made<string>, k: nat, next: Option<Conditional<string>>, problems: seq<Problem>): (r: Outcome<Made<Option<Conditional<string>>>>)
    requires k <= |list.elements|
    ensures k == 0 ==> r == Ok(Made(next, problems))
    ensures r.Ok? && k > 0 ==> r.value.value.Some?
    decreases k
  {
    if k == 0 then Ok(Made(next, problems))
    else
      var s :- ChainStep(parsers, list.attribution, list.elements[k - 1], value, next, problems);
      ChainSpec(parsers, list, value, k - 1, Some(s.value), s.problems)
  }

  /** The conditional a list yields: `None` exactly for an absent or empty list. */
  function ConditionalSpec<E>(parsers: Parsers, element: Option<ListElement<ConditionalElement<E>>>, value: (E, seq<Problem>) -> Made<string>, problems: seq<Problem>): (r: Outcome<Made<Option<Conditional<string>>>>)
    ensures element.None? ==> r == Ok(Made(None, problems))
    ensures r.Ok? && element.Some? ==> (r.value.value.Some? <==> |element.value.elements| > 0)
  {
    if element.None? then Ok(Made(None, problems))
    else ChainSpec(parsers, element.value, value, |element.value.elements|, None, problems)
  }

  /** A URI is taken as written. */
  function UriValue(uri: UriElement, problems: seq<Problem>): Made<string>
  {
    Made(uri.uri, problems)
  }

  /** A name is normalised and required to be declared. */
  function RequiredName(symbols: seq<string>, name: NameElement, problems: seq<Problem>): (r: Made<string>)
    ensures r.value == Symbols.Normalize(name.name)
    ensures IsPrefix(problems, r.problems)
  {
    var required := SymbolNames.Require(symbols, name, problems);
    Made(required.0, required.1)
  }

  function ParseConditionalUri(parsers: Parsers, element: Option<ListElement<ConditionalElement<UriElement>>>, problems: seq<Problem>): (r: Outcome<Made<Option<Conditional<string>>>>)
  {
    ConditionalSpec(parsers, element, UriValue, problems)
  }

  function NameValue(symbols: seq<string>): (NameElement, seq<Problem>) -> Made<string>
  {
    (name: NameElement, problems: seq<Problem>) => RequiredName(symbols, name, problems)
  }

  function ParseConditionalName(parsers: Parsers, symbols: seq<string>, element: Option<ListElement<ConditionalElement<NameElement>>>, problems: seq<Problem>): (r: Outcome<Made<Option<Conditional<string>>>>)
  {
    ConditionalSpec(parsers, element, NameValue(symbols), problems)
  }

  /**
   * An element without conditions becomes `Always` and discards what was
   * built from the elements after it: the fold from it on does not depend
   * on that chain.
   */
  lemma UnconditionalCuts<E>(parsers: Parsers, list: ListElement<ConditionalElement<E>>, value: (E, seq<Problem>) -> Made<string>, i: nat, a: Option<Conditional<string>>, b: Option<Conditional<string>>, problems: seq<Problem>)
    requires i < |list.elements| && Unconditional(list.elements[i])
    ensures ChainSpec(parsers, list, value, i + 1, a, problems) == ChainSpec(parsers, list, value, i + 1, b, problems)
  {
    var step := ChainStep(parsers, list.attribution, list.elements[i], value, a, problems);
    assert step == ChainStep(parsers, list.attribution, list.elements[i], value, b, problems);
  }

  /** A last element with a condition adds a Fatal at the list and is taken as `Always`. */
  lemma ConditionalLastReported<E>(parsers: Parsers, list: ListElement<ConditionalElement<E>>, value: (E, seq<Problem>) -> Made<string>, problems: seq<Problem>)
    requires |list.elements| > 0
    requires var last := list.elements[|list.elements| - 1];
      var c := ConditionsSpec(parsers, None, last.when, last.ifCondition, last.unless, problems);
      c.Ok? && c.value.value != []
    ensures var last := list.elements[|list.elements| - 1];
      var c := ConditionsSpec(parsers, None, last.when, last.ifCondition, last.unless, problems);
      var v := value(last.thenElement, c.value.problems + [NewFatal(LastMessage, list.attribution)]);
      ChainSpec(parsers, list, value, |list.elements|, None, problems)
        == ChainSpec(parsers, list, value, |list.elements| - 1, Some(Always(v.value)), v.problems)
  {
  }

  /**
   * The fold builds the chain in list order: a conditional URI followed by
   * an unconditional one is "the first if its condition holds, else the
   * second".
   */
  lemma TwoOptions(parsers: Parsers, list: ListElement<ConditionalElement<UriElement>>, condition: Expression, problems: seq<Problem>)
    requires |list.elements| == 2 && Unconditional(list.elements[1])
    requires var first := list.elements[0];
      first.ifCondition.None? && first.unless.None? && first.when.Some?
      && parsers.expression(first.when.value.source, first.when.value.attribution) == Ok(EP.ExpressionParsingResult(Some(condition), []))
    ensures ParseConditionalUri(parsers, Some(list), problems)
      == Ok(Made(Some(Conditionally(condition, list.elements[0].thenElement.uri, Always(list.elements[1].thenElement.uri))), problems))
  {
    var first := list.elements[0];
    var c := ConditionsSpec(parsers, None, first.when, first.ifCondition, first.unless, problems);
    assert problems + [] == problems;
    var one: seq<Expression> := [condition];
    assert one + [] + [] == one && [] + one == one;
    var last := Always(list.elements[1].thenElement.uri);
    assert ChainStep(parsers, list.attribution, list.elements[1], UriValue, None, problems) == Ok(Made(last, problems));
    assert c == Ok(Made([condition], problems));
    assert ChainStep(parsers, list.attribution, first, UriValue, Some(last), problems)
      == Ok(Made(Conditionally(condition, first.thenElement.uri, last), problems));
  }

  // ---------------------------------------------------------------------
  // `map(..).flatten().collect()`

  /**
   * Applies `f` to `elements[i..]` in order, threading the problem list,
   * and appends to `acc` the values it yields, dropping the `None`s.
   */
  function Collect<E, T>(f: (E, seq<Problem>) -> Outcome<Made<Option<T>>>, elements: seq<E>, i: nat, acc: seq<T>, problems: seq<Problem>): (r: Outcome<Made<seq<T>>>)
    requires i <= |elements|
    ensures r.Ok? ==> IsPrefix(acc, r.value.value) && |r.value.value| <= |acc| + |elements| - i
    decreases |elements| - i
  {
    if i == |elements| then Ok(Made(acc, problems))
    else
      var m :- f(elements[i], problems);
      Collect(f, elements, i + 1, if m.value.Some? then acc + [m.value.value] else acc, m.problems)
  }

  /** How many elements of `s` satisfy `keep`. */
  function CountKept<E>(keep: E -> bool, s: seq<E>): (n: nat)
    ensures n <= |s|
  {
    if s == [] then 0 else (if keep(s[0]) then 1 else 0) + CountKept(keep, s[1..])
  }

  /** When `f` yields a value exactly for the elements `keep` accepts, those are the ones collected. */
  lemma {:induction false} CollectCount<E, T>(f: (E, seq<Problem>) -> Outcome<Made<Option<T>>>, keep: E -> bool, elements: seq<E>, i: nat, acc: seq<T>, problems: seq<Problem>)
    requires i <= |elements|
    requires forall e, p :: f(e, p).Ok? ==> (f(e, p).value.value.Some? <==> keep(e))
    ensures var r := Collect(f, elements, i, acc, problems);
      r.Ok? ==> |r.value.value| == |acc| + CountKept(keep, elements[i..])
    decreases |elements| - i
  {
    if i < |elements| {
      var m := f(elements[i], problems);
      if m.Ok? {
        CollectCount(f, keep, elements, i + 1, if m.value.value.Some? then acc + [m.value.value.value] else acc, m.value.problems);
        assert elements[i..][1..] == elements[i + 1..];
      }
    }
  }

  /** When `f` always yields a value, every element is collected. */
  lemma {:induction false} CollectTotal<E, T>(f: (E, seq<Problem>) -> Outcome<Made<Option<T>>>, elements: seq<E>, i: nat, acc: seq<T>, problems: seq<Problem>)
    requires i <= |elements|
    requires forall e, p :: f(e, p).Ok? ==> f(e, p).value.value.Some?
    ensures var r := Collect(f, elements, i, acc, problems);
      r.Ok? ==> |r.value.value| == |acc| + |elements| - i
    decreases |elements| - i
  {
    if i < |elements| {
      var m := f(elements[i], problems);
      if m.Ok? {
        CollectTotal(f, elements, i + 1, acc + [m.value.value.value], m.value.problems);
      }
    }
  }

  /** When every value `f` yields satisfies `holds`, so does everything collected. */
  lemma {:induction false} CollectAll<E, T>(f: (E, seq<Problem>) -> Outcome<Made<Option<T>>>, holds: T -> bool, elements: seq<E>, i: nat, acc: seq<T>, problems: seq<Problem>)
    requires i <= |elements|
    requires forall e, p :: f(e, p).Ok? && f(e, p).value.value.Some? ==> holds(f(e, p).value.value.value)
    requires forall k :: 0 <= k < |acc| ==> holds(acc[k])
    ensures var r := Collect(f, elements, i, acc, problems);
      r.Ok? ==> forall k :: 0 <= k < |r.value.value| ==> holds(r.value.value[k])
    decreases |elements| - i
  {
    if i < |elements| {
      var m := f(elements[i], problems);
      if m.Ok? {
        var next := if m.value.value.Some? then acc + [m.value.value.value] else acc;
        assert forall k :: 0 <= k < |next| ==> holds(next[k]) by {
          forall k | 0 <= k < |next| ensures holds(next[k]) {
            if k < |acc| { assert next[k] == acc[k]; }
          }
        }
        CollectAll(f, holds, elements, i + 1, next, m.value.problems);
        var r := Collect(f, elements, i + 1, next, m.value.problems);
        assert Collect(f, elements, i, acc, problems) == r;
        if r.Ok? {
          assert forall k :: 0 <= k < |r.value.value| ==> holds(r.value.value[k]);
        }
      }
    }
  }

  /** When `f` never adds a problem, neither does the whole collection. */
  lemma {:induction false} CollectQuiet<E, T>(f: (E, seq<Problem>) -> Outcome<Made<Option<T>>>, elements: seq<E>, i: nat, acc: seq<T>, problems: seq<Problem>)
    requires i <= |elements|
    requires forall e, p :: f(e, p).Ok? ==> f(e, p).value.problems == p
    ensures var r := Collect(f, elements, i, acc, problems);
      r.Ok? ==> r.value.problems == problems
    decreases |elements| - i
  {
    if i < |elements| {
      var m := f(elements[i], problems);
      if m.Ok? {
        CollectQuiet(f, elements, i + 1, if m.value.value.Some? then acc + [m.value.value.value] else acc, m.value.problems);
      }
    }
  }

  // ---------------------------------------------------------------------
  // `parse_assignments`

  function Literal(n: nat): Expression
  {
    EP.AtomParse(Tokens.NumericLiteral(n))
  }

  function OrDefault(e: Option<Expression>, n: nat): Expression
  {
    if e.Some? then e.value else Literal(n)
  }

  /** The six operation keys of an assignment. */
  datatype AssignmentKey = SetKey | UnsetKey | IncreaseKey | DecreaseKey | IncrementKey | DecrementKey | NoKey

  /** The first operation key present, in the order set, unset, increase, decrease, increment, decrement. */
  function KeyOf(a: AssignmentElement): AssignmentKey
  {
    if a.setQuality.Some? then SetKey
    else if a.unsetQuality.Some? then UnsetKey
    else if a.increaseQuality.Some? then IncreaseKey
    else if a.decreaseQuality.Some? then DecreaseKey
    else if a.incrementQuality.Some? then IncrementKey
    else if a.decrementQuality.Some? then DecrementKey
    else NoKey
  }

  /** The quality named under that first key. */
  function KeyName(a: AssignmentElement): NameElement
    requires KeyOf(a) != NoKey
  {
    match KeyOf(a)
    case SetKey => a.setQuality.value
    case UnsetKey => a.unsetQuality.value
    case IncreaseKey => a.increaseQuality.value
    case DecreaseKey => a.decreaseQuality.value
    case IncrementKey => a.incrementQuality.value
    case DecrementKey => a.decrementQuality.value
  }

  /** What the first key present allows the built assignment to be. */
  predicate Yields(a: AssignmentElement, x: Assignment)
    requires KeyOf(a) != NoKey
  {
    match KeyOf(a)
    case SetKey => x.operation == Set && (a.toValue.None? ==> x.operand == Literal(1))
    case UnsetKey => x.operation == Unset && (a.toValue.None? ==> x.operand == Literal(0))
    case IncreaseKey =>
      (x.operation == Set && a.toValue.Some?) || (x.operation == Increment && (a.byAmount.None? ==> x.operand == Literal(1)))
    case DecreaseKey =>
      (x.operation == Unset && a.toValue.Some?) || (x.operation == Decrement && (a.byAmount.None? ==> x.operand == Literal(1)))
    case IncrementKey => x.operation == Increment && (a.byAmount.None? ==> x.operand == Literal(1))
    case DecrementKey => x.operation == Decrement && (a.byAmount.None? ==> x.operand == Literal(1))
  }

  lemma PrefixTransitive<T>(a: seq<T>, b: seq<T>, c: seq<T>)
    requires IsPrefix(a, b) && IsPrefix(b, c)
    ensures IsPrefix(a, c)
  {
    assert c[..|a|] == c[..|b|][..|a|];
  }

  /** `set` and `unset`: the quality is required, and the operand is `to`, defaulting to `n`. */
  function Assigned(parsers: Parsers, symbols: seq<string>, condition: Option<Expression>, name: NameElement, operation: AssignmentOperation, n: nat, to: Option<ExpressionElement>, problems: seq<Problem>): (r: Outcome<Made<Option<Assignment>>>)
    ensures r.Ok? ==> IsPrefix(problems, r.value.problems) && r.value.value.Some?
    ensures r.Ok? ==> var x := r.value.value.value;
      x.condition == condition && x.subject == Symbols.Normalize(name.name) && x.operation == operation
      && (to.None? ==> x.operand == Literal(n))
  {
    var subject := SymbolNames.Require(symbols, name, problems);
    var operand :- ParseExpression(parsers, to, subject.1);
    PrefixTransitive(problems, subject.1, operand.problems);
    Ok(Made(Some(Assignment(condition, subject.0, operation, OrDefault(operand.value, n))), operand.problems))
  }

  /** `increment` and `decrement`: the quality is only normalised, and the operand is `by`, defaulting to 1. */
  function Stepped(parsers: Parsers, condition: Option<Expression>, name: NameElement, operation: AssignmentOperation, amount: Option<ExpressionElement>, problems: seq<Problem>): (r: Outcome<Made<Option<Assignment>>>)
    ensures r.Ok? ==> IsPrefix(problems, r.value.problems) && r.value.value.Some?
    ensures r.Ok? ==> var x := r.value.value.value;
      x.condition == condition && x.subject == Symbols.Normalize(name.name) && x.operation == operation
      && (amount.None? ==> x.operand == Literal(1))
  {
    var operand :- ParseExpression(parsers, amount, problems);
    Ok(Made(Some(Assignment(condition, Symbols.Normalize(name.name), operation, OrDefault(operand.value, 1))), operand.problems))
  }

  /**
   * `increase` and `decrease`: the quality is required; a `to` that parses
   * makes it `toOperation` to that value, and otherwise it steps by `by`.
   */
  function Changed(parsers: Parsers, symbols: seq<string>, condition: Option<Expression>, name: NameElement, toOperation: AssignmentOperation, stepOperation: AssignmentOperation, to: Option<ExpressionElement>, amount: Option<ExpressionElement>, problems: seq<Problem>): (r: Outcome<Made<Option<Assignment>>>)
    ensures r.Ok? ==> IsPrefix(problems, r.value.problems) && r.value.value.Some?
    ensures r.Ok? ==> var x := r.value.value.value;
      x.condition == condition && x.subject == Symbols.Normalize(name.name)
      && ((x.operation == toOperation && to.Some?) || (x.operation == stepOperation && (amount.None? ==> x.operand == Literal(1))))
  {
    var subject := SymbolNames.Require(symbols, name, problems);
    var target :- ParseExpression(parsers, to, subject.1);
    PrefixTransitive(problems, subject.1, target.problems);
    if target.value.Some? then
      Ok(Made(Some(Assignment(condition, subject.0, toOperation, target.value.value)), target.problems))
    else
      var operand :- ParseExpression(parsers, amount, target.problems);
      PrefixTransitive(problems, target.problems, operand.problems);
      Ok(Made(Some(Assignment(condition, subject.0, stepOperation, OrDefault(operand.value, 1))), operand.problems))
  }

  /**
   * One assignment: only the first key present counts, as `Yields` says;
   * with no key the assignment is dropped with a Fatal at it.
   */
  function AssignmentSpec(parsers: Parsers, symbols: seq<string>, element: ConditionalElement<AssignmentElement>, problems: seq<Problem>): (r: Outcome<Made<Option<Assignment>>>)
    ensures r.Ok? ==> IsPrefix(problems, r.value.problems)
    ensures r.Ok? ==> (r.value.value.None? <==> KeyOf(element.thenElement) == NoKey)
    ensures r.Ok? && KeyOf(element.thenElement) == NoKey ==>
      |r.value.problems| > 0 && r.value.problems[|r.value.problems| - 1] == NewFatal(AssignmentMessage, element.thenElement.attribution)
    ensures r.Ok? && r.value.value.Some? ==>
      var x := r.value.value.value;
      x.subject == Symbols.Normalize(KeyName(element.thenElement).name)
      && (x.condition.Some? ==> IsAnd(x.condition.value))
      && Yields(element.thenElement, x)
  {
    var condition :- ParseCondition(parsers, element.when, element.ifCondition, element.unless, problems);
    var a := element.thenElement;
    var r := match KeyOf(a)
      case SetKey => Assigned(parsers, symbols, condition.value, KeyName(a), Set, 1, a.toValue, condition.problems)
      case UnsetKey => Assigned(parsers, symbols, condition.value, KeyName(a), Unset, 0, a.toValue, condition.problems)
      case IncreaseKey => Changed(parsers, symbols, condition.value, KeyName(a), Set, Increment, a.toValue, a.byAmount, condition.problems)
      case DecreaseKey => Changed(parsers, symbols, condition.value, KeyName(a), Unset, Decrement, a.toValue, a.byAmount, condition.problems)
      case IncrementKey => Stepped(parsers, condition.value, KeyName(a), Increment, a.byAmount, condition.problems)
      case DecrementKey => Stepped(parsers, condition.value, KeyName(a), Decrement, a.byAmount, condition.problems)
      case NoKey => Ok(Made(None, condition.problems + [NewFatal(AssignmentMessage, a.attribution)]));
    if r.Ok? then PrefixTransitive(problems, condition.problems, r.value.problems); r else r
  }

  function AssignmentStep(parsers: Parsers, symbols: seq<string>): (ConditionalElement<AssignmentElement>, seq<Problem>) -> Outcome<Made<Option<Assignment>>>
  {
    (element: ConditionalElement<AssignmentElement>, problems: seq<Problem>) => AssignmentSpec(parsers, symbols, element, problems)
  }

  /** One group: its description first, then its assignments. */
  function AssignGroupSpec(parsers: Parsers, symbols: seq<string>, group: AssignElement, problems: seq<Problem>): (r: Outcome<Made<Option<AssignmentGroup>>>)
    ensures r.Ok? ==> r.value.value.Some?
  {
    var description :- ParseTemplate(parsers, group.description, problems);
    var assignments :- Collect(AssignmentStep(parsers, symbols), group.assignments.elements, 0, [], description.problems);
    Ok(Made(Some(AssignmentGroup(assignments.value, description.value)), assignments.problems))
  }

  /** Exactly the assignments with an operation key are kept, in order. */
  lemma AssignmentsKept(parsers: Parsers, symbols: seq<string>, group: AssignElement, problems: seq<Problem>)
    ensures var r := AssignGroupSpec(parsers, symbols, group, problems);
      r.Ok? ==> |r.value.value.value.assignments| == CountKept((e: ConditionalElement<AssignmentElement>) => KeyOf(e.thenElement) != NoKey, group.assignments.elements)
  {
    var description := ParseTemplate(parsers, group.description, problems);
    if description.Ok? {
      var elements := group.assignments.elements;
      CollectCount(AssignmentStep(parsers, symbols), (e: ConditionalElement<AssignmentElement>) => KeyOf(e.thenElement) != NoKey, elements, 0, [], description.value.problems);
      assert elements[0..] == elements;
    }
  }

  function AssignGroupStep(parsers: Parsers, symbols: seq<string>): (AssignElement, seq<Problem>) -> Outcome<Made<Option<AssignmentGroup>>>
  {
    (group: AssignElement, problems: seq<Problem>) => AssignGroupSpec(parsers, symbols, group, problems)
  }

  /** `parse_assignments`: `None` for an absent list or one with no group. */
  function ParseAssignments(parsers: Parsers, symbols: seq<string>, element: Option<ListElement<AssignElement>>, problems: seq<Problem>): (r: Outcome<Made<Option<seq<AssignmentGroup>>>>)
    ensures element.None? ==> r == Ok(Made(None, problems))
    ensures r.Ok? && element.Some? ==> (r.value.value.Some? <==> |element.value.elements| > 0)
  {
    if element.None? then Ok(Made(None, problems))
    else
      CollectTotal(AssignGroupStep(parsers, symbols), element.value.elements, 0, [], problems);
      var groups :- Collect(AssignGroupStep(parsers, symbols), element.value.elements, 0, [], problems);
      Ok(Made(if groups.value == [] then None else Some(groups.value), groups.problems))
  }

  // ---------------------------------------------------------------------
  // Choices

  /** A choice's label: a missing one, or one that parses to nothing, adds a Fatal and reads "Unlabeled". */
  function ChoiceLabel(parsers: Parsers, choice: ChoiceElement, problems: seq<Problem>): (r: Outcome<Made<Template>>)
    ensures r.Ok? ==> r.value.value != [] && IsPrefix(problems, r.value.problems)
    ensures choice.labelText.None? ==> r == Ok(Made([TP.Text(UnlabeledText)], problems + [NewFatal(ChoiceLabelMessage, choice.attribution)]))
  {
    var caption :- ParseTemplate(parsers, choice.labelText, problems);
    if caption.value.Some? then Ok(Made(caption.value.value, caption.problems))
    else Ok(Made([TP.Text(UnlabeledText)], caption.problems + [NewFatal(ChoiceLabelMessage, choice.attribution)]))
  }

  /** One choice: its condition (always `And`-wrapped), label, description, icon, body, navigation and assignments. */
  function ChoiceSpec(parsers: Parsers, symbols: seq<string>, element: ConditionalElement<ChoiceElement>, problems: seq<Problem>): (r: Outcome<Made<Option<Choice>>>)
    ensures r.Ok? ==> r.value.value.Some? && r.value.value.value.labelText != []
    ensures r.Ok? && r.value.value.value.condition.Some? ==> IsAnd(r.value.value.value.condition.value)
  {
    var condition :- ParseCondition(parsers, element.when, element.ifCondition, element.unless, problems);
    var choice := element.thenElement;
    var caption :- ChoiceLabel(parsers, choice, condition.problems);
    var description :- ParseTemplate(parsers, choice.description, caption.problems);
    var icon :- ParseConditionalUri(parsers, choice.icon, description.problems);
    var body :- ParseTemplate(parsers, choice.body, icon.problems);
    var navigation :- ParseConditionalName(parsers, symbols, choice.go, body.problems);
    var assignments :- ParseAssignments(parsers, symbols, choice.assign, navigation.problems);
    Ok(Made(Some(Choice(condition.value, caption.value, description.value, icon.value, body.value, navigation.value, assignments.value)), assignments.problems))
  }

  function ChoiceStep(parsers: Parsers, symbols: seq<string>): (ConditionalElement<ChoiceElement>, seq<Problem>) -> Outcome<Made<Option<Choice>>>
  {
    (element: ConditionalElement<ChoiceElement>, problems: seq<Problem>) => ChoiceSpec(parsers, symbols, element, problems)
  }

  /** One group: its limit and shuffle expressions, then its choices. */
  function ChoiceGroupSpec(parsers: Parsers, symbols: seq<string>, group: ChoiceGroupElement, problems: seq<Problem>): (r: Outcome<Made<Option<ChoiceGroup>>>)
    ensures r.Ok? ==> r.value.value.Some?
  {
    var limit :- ParseExpression(parsers, group.limit, problems);
    var shuffle :- ParseExpression(parsers, group.shuffle, limit.problems);
    var choices :- Collect(ChoiceStep(parsers, symbols), group.choices.elements, 0, [], shuffle.problems);
    Ok(Made(Some(ChoiceGroup(limit.value, shuffle.value, choices.value)), choices.problems))
  }

  /** Every choice is kept, labelled, in order: a choice is never dropped. */
  lemma EveryChoiceKept(parsers: Parsers, symbols: seq<string>, group: ChoiceGroupElement, problems: seq<Problem>)
    ensures var r := ChoiceGroupSpec(parsers, symbols, group, problems);
      r.Ok? ==> var choices := r.value.value.value.choices;
        |choices| == |group.choices.elements| && forall k :: 0 <= k < |choices| ==> choices[k].labelText != []
  {
    var limit := ParseExpression(parsers, group.limit, problems);
    if limit.Ok? {
      var shuffle := ParseExpression(parsers, group.shuffle, limit.value.problems);
      if shuffle.Ok? {
        CollectTotal(ChoiceStep(parsers, symbols), group.choices.elements, 0, [], shuffle.value.problems);
        CollectAll(ChoiceStep(parsers, symbols), (c: Choice) => c.labelText != [], group.choices.elements, 0, [], shuffle.value.problems);
      }
    }
  }

  function ChoiceGroupStep(parsers: Parsers, symbols: seq<string>): (ChoiceGroupElement, seq<Problem>) -> Outcome<Made<Option<ChoiceGroup>>>
  {
    (group: ChoiceGroupElement, problems: seq<Problem>) => ChoiceGroupSpec(parsers, symbols, group, problems)
  }

  /** A storylet's `choose` block: the prompt, then every group. */
  function ParseChoose(parsers: Parsers, symbols: seq<string>, choose: Option<ChooseElement>, problems: seq<Problem>): (r: Outcome<Made<Option<Choices>>>)
    ensures choose.None? ==> r == Ok(Made(None, problems))
    ensures r.Ok? && choose.Some? ==> r.value.value.Some? && |r.value.value.value.groups| == |choose.value.groups.elements|
  {
    if choose.None? then Ok(Made(None, problems))
    else
      var prompt :- ParseTemplate(parsers, choose.value.prompt, problems);
      CollectTotal(ChoiceGroupStep(parsers, symbols), choose.value.groups.elements, 0, [], prompt.problems);
      var groups :- Collect(ChoiceGroupStep(parsers, symbols), choose.value.groups.elements, 0, [], prompt.problems);
      Ok(Made(Some(Choices(prompt.value, groups.value)), groups.problems))
  }

  // ---------------------------------------------------------------------
  // `parse_storylet`

  /** An optional flag, false when absent. */
  function Flag(element: Option<LogicalValueElement>): bool
  {
    element.Some? && element.value.value
  }

  /** The condition a non-repeatable storylet adds: it has not been visited. */
  function Unvisited(name: string): Expression
  {
    Negated(EP.AtomParse(Tokens.Reference(name)))
  }

  /**
   * A storylet's condition: the contextual one, `when`, `if`, the negated
   * `unless`, and for a storylet that is not repeatable `Unvisited(name)`;
   * one stands alone and several are joined by `And`.
   */
  function StoryletCondition(parsers: Parsers, storylet: StoryletElement, name: string, contextual: Option<Expression>, problems: seq<Problem>): (r: Outcome<Made<Option<Expression>>>)
    ensures r.Ok? ==> IsPrefix(problems, r.value.problems)
    ensures r.Ok? && contextual.Some? && !IsAnd(contextual.value) ==>
      r.value.value.Some? && FirstCondition(r.value.value.value) == contextual.value
    ensures r.Ok? && !Flag(storylet.repeatable) ==>
      r.value.value.Some? && LastCondition(r.value.value.value) == Unvisited(name)
    ensures r.Ok? && r.value.value.None? ==> contextual.None? && Flag(storylet.repeatable)
  {
    var c :- ConditionsSpec(parsers, contextual, storylet.when, storylet.ifCondition, storylet.unless, problems);
    Ok(Made(Joined(if Flag(storylet.repeatable) then c.value else c.value + [Unvisited(name)]), c.problems))
  }

  /** `parse_storylet`: a storylet without a name is dropped with a Fatal. */
  function StoryletSpec(parsers: Parsers, symbols: seq<string>, storylet: StoryletElement, contextual: Option<Expression>, problems: seq<Problem>): (r: Outcome<Made<Option<Storylet>>>)
    ensures r.Ok? ==> (r.value.value.Some? <==> storylet.name.Some?)
    ensures storylet.name.None? ==> r == Ok(Made(None, problems + [NewFatal(StoryletNameMessage, storylet.attribution)]))
    ensures r.Ok? && r.value.value.Some? ==>
      var s := r.value.value.value;
      s.name == storylet.name.value.name
      && (contextual.Some? && !IsAnd(contextual.value) ==> s.condition.Some? && FirstCondition(s.condition.value) == contextual.value)
      && (!Flag(storylet.repeatable) ==> s.condition.Some? && LastCondition(s.condition.value) == Unvisited(s.name))
  {
    if storylet.name.None? then Ok(Made(None, problems + [NewFatal(StoryletNameMessage, storylet.attribution)]))
    else
      var name := storylet.name.value.name;
      var condition :- StoryletCondition(parsers, storylet, name, contextual, problems);
      var caption :- ParseTemplate(parsers, storylet.labelText, condition.problems);
      var description :- ParseTemplate(parsers, storylet.description, caption.problems);
      var icon :- ParseConditionalUri(parsers, storylet.icon, description.problems);
      var body :- ParseTemplate(parsers, storylet.body, icon.problems);
      var navigation :- ParseConditionalName(parsers, symbols, storylet.go, body.problems);
      var assignments :- ParseAssignments(parsers, symbols, storylet.assign, navigation.problems);
      var choices :- ParseChoose(parsers, symbols, storylet.choose, assignments.problems);
      Ok(Made(Some(Storylet(name, condition.value, caption.value, description.value, icon.value, body.value, navigation.value, assignments.value, choices.value)), choices.problems))
  }

  function StoryletStep(parsers: Parsers, symbols: seq<string>, contextual: Option<Expression>): (StoryletElement, seq<Problem>) -> Outcome<Made<Option<Storylet>>>
  {
    (storylet: StoryletElement, problems: seq<Problem>) => StoryletSpec(parsers, symbols, storylet, contextual, problems)
  }

  // ---------------------------------------------------------------------
  // Qualities

  const NoStyle: QualityStyle := QualityStyle(false, false, false, false, false)

  predicate IsStyleTag(tag: string)
  {
    tag == "currency" || tag == "personal" || tag == "plural" || tag == "possessive" || tag == "uncounted"
  }

  /** The style block with the flag `tag` names set; a fresh block has only that flag. */
  function Styled(block: Option<QualityStyle>, tag: string): QualityStyle
  {
    var b := if block.Some? then block.value else NoStyle;
    if tag == "currency" then b.(currency := true)
    else if tag == "personal" then b.(personal := true)
    else if tag == "plural" then b.(plural := true)
    else if tag == "possessive" then b.(possessive := true)
    else b.(uncounted := true)
  }

  /** One style tag: a known one sets its flag, any other adds a Fatal at the tag. */
  function StyleStep(m: Made<Option<QualityStyle>>, tag: TagElement): Made<Option<QualityStyle>>
  {
    if IsStyleTag(tag.name) then Made(Some(Styled(m.value, tag.name)), m.problems)
    else Made(m.value, m.problems + [NewFatal(StyleMessage, tag.attribution)])
  }

  /** The style loop over a list of tags. */
  function StyleSpec(tags: seq<TagElement>, problems: seq<Problem>): Made<Option<QualityStyle>>
  {
    if tags == [] then Made(None, problems) else StyleStep(StyleSpec(tags[..|tags| - 1], problems), tags[|tags| - 1])
  }

  function StyleOf(style: Option<ListElement<TagElement>>, problems: seq<Problem>): Made<Option<QualityStyle>>
  {
    if style.None? then Made(None, problems) else StyleSpec(style.value.elements, problems)
  }

  predicate HasTag(tags: seq<TagElement>, tag: string)
  {
    exists k :: 0 <= k < |tags| && tags[k].name == tag
  }

  predicate HasStyleTag(tags: seq<TagElement>)
  {
    exists k :: 0 <= k < |tags| && IsStyleTag(tags[k].name)
  }

  function Unrecognised(tags: seq<TagElement>): nat
  {
    if tags == [] then 0 else Unrecognised(tags[..|tags| - 1]) + (if IsStyleTag(tags[|tags| - 1].name) then 0 else 1)
  }

  lemma HasTagSnoc(tags: seq<TagElement>, tag: string)
    requires tags != []
    ensures HasTag(tags, tag) <==> HasTag(tags[..|tags| - 1], tag) || tags[|tags| - 1].name == tag
    ensures HasStyleTag(tags) <==> HasStyleTag(tags[..|tags| - 1]) || IsStyleTag(tags[|tags| - 1].name)
  {
    var init := tags[..|tags| - 1];
    assert forall k :: 0 <= k < |init| ==> init[k] == tags[k];
  }

  /**
   * The style block exists exactly when some tag is known, each flag is
   * set exactly when its tag appears, and there is one problem per
   * unknown tag.
   */
  lemma {:induction false} StyleFlags(tags: seq<TagElement>, problems: seq<Problem>)
    ensures var r := StyleSpec(tags, problems);
      (r.value.Some? <==> HasStyleTag(tags))
      && (r.value.Some? ==>
        (r.value.value.currency <==> HasTag(tags, "currency"))
        && (r.value.value.personal <==> HasTag(tags, "personal"))
        && (r.value.value.plural <==> HasTag(tags, "plural"))
        && (r.value.value.possessive <==> HasTag(tags, "possessive"))
        && (r.value.value.uncounted <==> HasTag(tags, "uncounted")))
      && IsPrefix(problems, r.problems) && |r.problems| == |problems| + Unrecognised(tags)
  {
    if tags != [] {
      var init := tags[..|tags| - 1];
      StyleFlags(init, problems);
      HasTagSnoc(tags, "currency");
      HasTagSnoc(tags, "personal");
      HasTagSnoc(tags, "plural");
      HasTagSnoc(tags, "possessive");
      HasTagSnoc(tags, "uncounted");
      var before := StyleSpec(init, problems);
      if before.value.None? {
        assert !HasTag(init, "currency") && !HasTag(init, "personal") && !HasTag(init, "plural") && !HasTag(init, "possessive") && !HasTag(init, "uncounted") by {
          if exists k :: 0 <= k < |init| && IsStyleTag(init[k].name) { }
          forall k | 0 <= k < |init| ensures !IsStyleTag(init[k].name) { }
        }
      }
    }
  }

  /** One quality value: dropped with a Fatal when unnamed, and only its name for a hidden quality. */
  function ValueSpec(parsers: Parsers, hidden: bool, value: QualityValueElement, problems: seq<Problem>): (r: Outcome<Made<Option<QualityValue>>>)
    ensures r.Ok? ==> (r.value.value.Some? <==> value.name.Some?)
    ensures value.name.None? ==> r == Ok(Made(None, problems + [NewFatal(ValueNameMessage, value.attribution)]))
    ensures value.name.Some? && hidden ==> r == Ok(Made(Some(QualityValue(value.name.value.name, None, None, None)), problems))
    ensures r.Ok? && r.value.value.Some? ==> r.value.value.value.name == value.name.value.name
  {
    if value.name.None? then Ok(Made(None, problems + [NewFatal(ValueNameMessage, value.attribution)]))
    else if hidden then Ok(Made(Some(QualityValue(value.name.value.name, None, None, None)), problems))
    else
      var caption :- ParseTemplate(parsers, value.labelText, problems);
      var description :- ParseTemplate(parsers, value.description, caption.problems);
      var icon :- ParseConditionalUri(parsers, value.icon, description.problems);
      Ok(Made(Some(QualityValue(value.name.value.name, caption.value, description.value, icon.value)), icon.problems))
  }

  function ValueStep(parsers: Parsers, hidden: bool): (QualityValueElement, seq<Problem>) -> Outcome<Made<Option<QualityValue>>>
  {
    (value: QualityValueElement, problems: seq<Problem>) => ValueSpec(parsers, hidden, value, problems)
  }

  /** A quality's values: `None` when absent or when none is kept. */
  function ValuesSpec(parsers: Parsers, hidden: bool, values: Option<NamedCollectionElement<QualityValueElement>>, problems: seq<Problem>): (r: Outcome<Made<Option<seq<QualityValue>>>>)
    ensures values.None? ==> r == Ok(Made(None, problems))
    ensures r.Ok? && r.value.value.Some? ==> r.value.value.value != []
  {
    if values.None? then Ok(Made(None, problems))
    else
      var kept :- Collect(ValueStep(parsers, hidden), values.value.elements, 0, [], problems);
      Ok(Made(if kept.value == [] then None else Some(kept.value), kept.problems))
  }

  /** The values kept are exactly the named ones. */
  lemma NamedValuesKept(parsers: Parsers, hidden: bool, values: NamedCollectionElement<QualityValueElement>, problems: seq<Problem>)
    ensures var r := ValuesSpec(parsers, hidden, Some(values), problems);
      r.Ok? ==> |if r.value.value.Some? then r.value.value.value else []| == CountKept((v: QualityValueElement) => v.name.Some?, values.elements)
  {
    CollectCount(ValueStep(parsers, hidden), (v: QualityValueElement) => v.name.Some?, values.elements, 0, [], problems);
    assert values.elements[0..] == values.elements;
  }

  /**
   * One quality: dropped with a Fatal when unnamed. Its values come first;
   * a hidden quality stops there, and any other has its labels,
   * description, style and icon parsed.
   */
  function QualitySpec(parsers: Parsers, quality: QualityElement, problems: seq<Problem>): (r: Outcome<Made<Option<Quality>>>)
    ensures r.Ok? ==> (r.value.value.Some? <==> quality.name.Some?)
    ensures quality.name.None? ==> r == Ok(Made(None, problems + [NewFatal(QualityNameMessage, quality.attribution)]))
    ensures r.Ok? && r.value.value.Some? ==>
      var q := r.value.value.value;
      q.name == quality.name.value.name && q.hidden == Flag(quality.hidden) && q.exclusive == Flag(quality.exclusive)
  {
    if quality.name.None? then Ok(Made(None, problems + [NewFatal(QualityNameMessage, quality.attribution)]))
    else
      var name := quality.name.value.name;
      var hidden := Flag(quality.hidden);
      var exclusive := Flag(quality.exclusive);
      var values :- ValuesSpec(parsers, hidden, quality.values, problems);
      if hidden then
        Ok(Made(Some(Quality(name, None, None, None, None, None, true, None, values.value, exclusive)), values.problems))
      else
        var caption :- ParseTemplate(parsers, quality.labelText, values.problems);
        var singular :- ParseTemplate(parsers, quality.singularLabel, caption.problems);
        var plural :- ParseTemplate(parsers, quality.pluralLabel, singular.problems);
        var description :- ParseTemplate(parsers, quality.description, plural.problems);
        var style := StyleOf(quality.style, description.problems);
        var icon :- ParseConditionalUri(parsers, quality.icon, style.problems);
        Ok(Made(Some(Quality(name, caption.value, singular.value, plural.value, description.value, icon.value, false, style.value, values.value, exclusive)), icon.problems))
  }

  /** A value with nothing but its name. */
  predicate Bare(value: QualityValue)
  {
    value.labelText.None? && value.description.None? && value.icon.None?
  }

  /** A hidden quality has no label, description, icon or style, and its values keep only their names. */
  lemma HiddenQuality(parsers: Parsers, quality: QualityElement, problems: seq<Problem>)
    requires quality.name.Some? && Flag(quality.hidden)
    ensures var r := QualitySpec(parsers, quality, problems);
      r.Ok? ==>
        var q := r.value.value.value;
        q.labelText.None? && q.singularLabel.None? && q.pluralLabel.None? && q.description.None?
        && q.icon.None? && q.style.None?
        && (q.values.Some? ==> forall k :: 0 <= k < |q.values.value| ==> Bare(q.values.value[k]))
  {
    if quality.values.Some? {
      CollectAll(ValueStep(parsers, true), Bare, quality.values.value.elements, 0, [], problems);
    }
  }

  function QualityStep(parsers: Parsers): (QualityElement, seq<Problem>) -> Outcome<Made<Option<Quality>>>
  {
    (quality: QualityElement, problems: seq<Problem>) => QualitySpec(parsers, quality, problems)
  }

  // ---------------------------------------------------------------------
  // Locations

  /** The contextual condition of a location's storylets: the player is in it. */
  function Within(name: string): Expression
  {
    EP.Operation(Tokens.In, [EP.AtomParse(Tokens.Reference(name))])
  }

  /** A location's label: its name as plain text when missing or empty. */
  function LocationLabel(parsers: Parsers, name: string, labelText: Option<TextTemplateElement>, problems: seq<Problem>): (r: Outcome<Made<Template>>)
    ensures r.Ok? ==> r.value.value != []
    ensures labelText.None? ==> r == Ok(Made([TP.Text(name)], problems))
  {
    var caption :- ParseTemplate(parsers, labelText, problems);
    Ok(Made(if caption.value.Some? then caption.value.value else [TP.Text(name)], caption.problems))
  }

  /** The storylets a location holds, each with `Within(name)` as its contextual condition. */
  function LocalStorylets(parsers: Parsers, symbols: seq<string>, name: string, storylets: Option<NamedCollectionElement<StoryletElement>>, problems: seq<Problem>): (r: Outcome<Made<seq<Storylet>>>)
  {
    if storylets.None? then Ok(Made([], problems))
    else Collect(StoryletStep(parsers, symbols, Some(Within(name))), storylets.value.elements, 0, [], problems)
  }

  /** One location, and the storylets it holds: dropped with a Fatal when unnamed. */
  function LocationSpec(parsers: Parsers, symbols: seq<string>, location: LocationElement, problems: seq<Problem>): (r: Outcome<Made<(Option<Location>, seq<Storylet>)>>)
    ensures r.Ok? ==> (r.value.value.0.Some? <==> location.name.Some?)
    ensures location.name.None? ==> r == Ok(Made((None, []), problems + [NewFatal(LocationNameMessage, location.attribution)]))
    ensures r.Ok? && r.value.value.0.Some? ==>
      r.value.value.0.value.name == location.name.value.name && r.value.value.0.value.labelText != []
  {
    if location.name.None? then Ok(Made((None, []), problems + [NewFatal(LocationNameMessage, location.attribution)]))
    else
      var name := location.name.value.name;
      var caption :- LocationLabel(parsers, name, location.labelText, problems);
      var description :- ParseTemplate(parsers, location.description, caption.problems);
      var body :- ParseTemplate(parsers, location.body, description.problems);
      var local :- LocalStorylets(parsers, symbols, name, location.storylets, body.problems);
      Ok(Made((Some(Location(name, caption.value, description.value, body.value)), local.value), local.problems))
  }

  /** Every storylet a location holds has being in that location as its first condition. */
  lemma LocalStoryletsWithin(parsers: Parsers, symbols: seq<string>, location: LocationElement, problems: seq<Problem>)
    requires location.name.Some?
    ensures var r := LocationSpec(parsers, symbols, location, problems);
      r.Ok? ==> forall k :: 0 <= k < |r.value.value.1| ==>
        r.value.value.1[k].condition.Some? && FirstCondition(r.value.value.1[k].condition.value) == Within(location.name.value.name)
  {
    var name := location.name.value.name;
    var caption := LocationLabel(parsers, name, location.labelText, problems);
    if caption.Ok? && location.storylets.Some? {
      var description := ParseTemplate(parsers, location.description, caption.value.problems);
      if description.Ok? {
        var body := ParseTemplate(parsers, location.body, description.value.problems);
        if body.Ok? {
          CollectAll(StoryletStep(parsers, symbols, Some(Within(name))),
            (s: Storylet) => s.condition.Some? && FirstCondition(s.condition.value) == Within(name),
            location.storylets.value.elements, 0, [], body.value.problems);
        }
      }
    }
  }

  /**
   * The locations loop over `locations[i..]`: named locations are appended
   * to `acc`, and the storylets each holds to `storylets`.
   */
  function LocationsSpec(parsers: Parsers, symbols: seq<string>, locations: seq<LocationElement>, i: nat, acc: seq<Location>, storylets: seq<Storylet>, problems: seq<Problem>): (r: Outcome<Made<(seq<Location>, seq<Storylet>)>>)
    requires i <= |locations|
    ensures r.Ok? ==> IsPrefix(acc, r.value.value.0) && IsPrefix(storylets, r.value.value.1)
    decreases |locations| - i
  {
    if i == |locations| then Ok(Made((acc, storylets), problems))
    else
      var located :- LocationSpec(parsers, symbols, locations[i], problems);
      var r := LocationsSpec(parsers, symbols, locations, i + 1, if located.value.0.Some? then acc + [located.value.0.value] else acc, storylets + located.value.1, located.problems);
      if r.Ok? then
        PrefixTransitive(acc, if located.value.0.Some? then acc + [located.value.0.value] else acc, r.value.value.0);
        PrefixTransitive(storylets, storylets + located.value.1, r.value.value.1);
        r
      else r
  }

  /** Exactly the named locations are kept. */
  lemma {:induction false} NamedLocationsKept(parsers: Parsers, symbols: seq<string>, locations: seq<LocationElement>, i: nat, acc: seq<Location>, storylets: seq<Storylet>, problems: seq<Problem>)
    requires i <= |locations|
    ensures var r := LocationsSpec(parsers, symbols, locations, i, acc, storylets, problems);
      r.Ok? ==> |r.value.value.0| == |acc| + CountKept((l: LocationElement) => l.name.Some?, locations[i..])
    decreases |locations| - i
  {
    if i < |locations| {
      var located := LocationSpec(parsers, symbols, locations[i], problems);
      if located.Ok? {
        var l := located.value;
        NamedLocationsKept(parsers, symbols, locations, i + 1, if l.value.0.Some? then acc + [l.value.0.value] else acc, storylets + l.value.1, l.problems);
        assert locations[i..][1..] == locations[i + 1..];
      }
    }
  }

  // ---------------------------------------------------------------------
  // Metadata

  function CreditStep(parsers: Parsers): (TextElement, seq<Problem>) -> Outcome<Made<Option<Text>>>
  {
    (credit: TextElement, problems: seq<Problem>) => TextOf(parsers, credit, problems)
  }

  /** The metadata block: title, description, and the credits that are not empty. */
  function MetaSpec(parsers: Parsers, meta: Option<MetaElement>, problems: seq<Problem>): (r: Outcome<Made<Meta>>)
    ensures meta.None? ==> r == Ok(Made(Meta(None, None, []), problems))
  {
    if meta.None? then Ok(Made(Meta(None, None, []), problems))
    else
      var title :- ParseText(parsers, meta.value.title, problems);
      var description :- ParseText(parsers, meta.value.description, title.problems);
      var credits :- if meta.value.credits.None? then Ok(Made([], description.problems))
        else Collect(CreditStep(parsers), meta.value.credits.value.elements, 0, [], description.problems);
      Ok(Made(Meta(title.value, description.value, credits.value), credits.problems))
  }

  /** The text parser of this project never reports a problem and never yields an empty text. */
  lemma PipelineTextKept(symbols: seq<string>, element: TextElement, problems: seq<Problem>)
    ensures var r := TextOf(Pipeline(symbols), element, problems);
      r.Ok? ==> r.value.value.Some? && r.value.problems == problems
  {
    assert problems + [] == problems;
  }

  /** With that parser, every text of the metadata is kept and the block adds no problem. */
  lemma EveryCreditKept(symbols: seq<string>, meta: MetaElement, problems: seq<Problem>)
    ensures var r := MetaSpec(Pipeline(symbols), Some(meta), problems);
      r.Ok? ==>
        r.value.problems == problems
        && (meta.title.Some? ==> r.value.value.title.Some?)
        && (meta.description.Some? ==> r.value.value.description.Some?)
        && |r.value.value.credits| == (if meta.credits.Some? then |meta.credits.value.elements| else 0)
  {
    var parsers := Pipeline(symbols);
    forall e, p | CreditStep(parsers)(e, p).Ok?
      ensures CreditStep(parsers)(e, p).value.value.Some? && CreditStep(parsers)(e, p).value.problems == p
    {
      PipelineTextKept(symbols, e, p);
    }
    if meta.title.Some? {
      PipelineTextKept(symbols, meta.title.value, problems);
    }
    if meta.description.Some? {
      PipelineTextKept(symbols, meta.description.value, problems);
    }
    if meta.credits.Some? {
      CollectTotal(CreditStep(parsers), meta.credits.value.elements, 0, [], problems);
      CollectQuiet(CreditStep(parsers), meta.credits.value.elements, 0, [], problems);
    }
  }

  // ---------------------------------------------------------------------
  // `parse_model` and `ModelParser::parse`

  /** `parse_model`: metadata, qualities, top-level storylets, then locations and the storylets they hold. */
  function BuildSpec(parsers: Parsers, symbols: seq<string>, tree: ElementTree, problems: seq<Problem>): (r: Outcome<ModelParsingResult>)
  {
    var meta :- MetaSpec(parsers, tree.meta, problems);
    var qualities :- Collect(QualityStep(parsers), tree.qualities, 0, [], meta.problems);
    var storylets :- Collect(StoryletStep(parsers, symbols, None), tree.storylets, 0, [], qualities.problems);
    var located :- LocationsSpec(parsers, symbols, tree.locations, 0, [], storylets.value, storylets.problems);
    Ok(ModelParsingResult(Model(meta.value, qualities.value, located.value.0, located.value.1), located.problems))
  }

  /** `ModelParser::parse`: the symbols are extracted from the whole tree before anything is parsed. */
  function ModelSpec(tree: ElementTree): Outcome<ModelParsingResult>
  {
    var extracted := SymbolExtract.ExtractSpec(tree, []);
    BuildSpec(Pipeline(extracted.0), extracted.0, tree, extracted.1)
  }

  lemma NamedQualitiesKept(parsers: Parsers, qualities: seq<QualityElement>, problems: seq<Problem>)
    ensures var r := Collect(QualityStep(parsers), qualities, 0, [], problems);
      r.Ok? ==> |r.value.value| == CountKept((q: QualityElement) => q.name.Some?, qualities)
  {
    CollectCount(QualityStep(parsers), (q: QualityElement) => q.name.Some?, qualities, 0, [], problems);
    assert qualities[0..] == qualities;
  }

  lemma NamedStoryletsKept(parsers: Parsers, symbols: seq<string>, contextual: Option<Expression>, storylets: seq<StoryletElement>, problems: seq<Problem>)
    ensures var r := Collect(StoryletStep(parsers, symbols, contextual), storylets, 0, [], problems);
      r.Ok? ==> |r.value.value| == CountKept((s: StoryletElement) => s.name.Some?, storylets)
  {
    CollectCount(StoryletStep(parsers, symbols, contextual), (s: StoryletElement) => s.name.Some?, storylets, 0, [], problems);
    assert storylets[0..] == storylets;
  }

  /**
   * The model keeps exactly the named qualities and locations, and its
   * storylets begin with the named top-level ones.
   */
  lemma NamedEntitiesKept(parsers: Parsers, symbols: seq<string>, tree: ElementTree, problems: seq<Problem>)
    ensures var r := BuildSpec(parsers, symbols, tree, problems);
      r.Ok? ==>
        |r.value.model.qualities| == CountKept((q: QualityElement) => q.name.Some?, tree.qualities)
        && |r.value.model.locations| == CountKept((l: LocationElement) => l.name.Some?, tree.locations)
        && |r.value.model.storylets| >= CountKept((s: StoryletElement) => s.name.Some?, tree.storylets)
  {
    var meta := MetaSpec(parsers, tree.meta, problems);
    if meta.Ok? {
      NamedQualitiesKept(parsers, tree.qualities, meta.value.problems);
      var qualities := Collect(QualityStep(parsers), tree.qualities, 0, [], meta.value.problems);
      if qualities.Ok? {
        NamedStoryletsKept(parsers, symbols, None, tree.storylets, qualities.value.problems);
        var storylets := Collect(StoryletStep(parsers, symbols, None), tree.storylets, 0, [], qualities.value.problems);
        if storylets.Ok? {
          NamedLocationsKept(parsers, symbols, tree.locations, 0, [], storylets.value.value, storylets.value.problems);
          assert tree.locations[0..] == tree.locations;
        }
      }
    }
  }

  // ---------------------------------------------------------------------
  // The builder's state

  /** `Parse`: the parsers, the symbol list, and the problem list every step appends to. */
  class Parse {
    const parsers: Parsers
    const symbols: seq<string>
    var problems: seq<Problem>

    constructor (symbols: seq<string>, problems: seq<Problem>)
      ensures this.parsers == Pipeline(symbols) && this.symbols == symbols && this.problems == problems
    {
      this.parsers := Pipeline(symbols);
      this.symbols := symbols;
      this.problems := problems;
    }

    /** `parse_conditional_uri` and `parse_conditional_name`: the fold from the last element back. */
    method ParseConditional<E>(element: Option<ListElement<ConditionalElement<E>>>, value: (E, seq<Problem>) -> Made<string>) returns (r: Outcome<Option<Conditional<string>>>)
      modifies this
      ensures var spec := ConditionalSpec(parsers, element, value, old(problems));
        if spec.Ok? then r == Ok(spec.value.value) && problems == spec.value.problems else r.Panic?
    {
      if element.None? {
        return Ok(None);
      }
      var list := element.value;
      var conditional: Option<Conditional<string>> := None;
      var k: nat := |list.elements|;
      while k > 0
        invariant k <= |list.elements|
        invariant ChainSpec(parsers, list, value, k, conditional, problems) == ChainSpec(parsers, list, value, |list.elements|, None, old(problems))
        decreases k
      {
        var link :- Link(list.attribution, list.elements[k - 1], value, conditional);
        conditional := Some(link);
        k := k - 1;
      }
      return Ok(conditional);
    }

    /** One round of the fold: the element's conditions, then its value. */
    method Link<E>(attribution: Attribution, item: ConditionalElement<E>, value: (E, seq<Problem>) -> Made<string>, next: Option<Conditional<string>>) returns (r: Outcome<Conditional<string>>)
      modifies this
      ensures var spec := ChainStep(parsers, attribution, item, value, next, old(problems));
        if spec.Ok? then r == Ok(spec.value.value) && problems == spec.value.problems else r.Panic?
    {
      var conditions :- ConditionsSpec(parsers, None, item.when, item.ifCondition, item.unless, problems);
      problems := conditions.problems;
      var condition := Joined(conditions.value);
      if condition.Some? && next.Some? {
        var v := value(item.thenElement, problems);
        problems := v.problems;
        return Ok(Conditionally(condition.value, v.value, next.value));
      } else if condition.Some? {
        problems := problems + [NewFatal(LastMessage, attribution)];
      }
      var v := value(item.thenElement, problems);
      problems := v.problems;
      return Ok(Always(v.value));
    }

    /** The style loop of `parse_model`. */
    method ParseStyle(style: Option<ListElement<TagElement>>) returns (block: Option<QualityStyle>)
      modifies this
      ensures Made(block, problems) == StyleOf(style, old(problems))
    {
      block := None;
      if style.None? {
        return;
      }
      var tags := style.value.elements;
      for i := 0 to |tags|
        invariant Made(block, problems) == StyleSpec(tags[..i], old(problems))
      {
        assert tags[..i + 1][..i] == tags[..i];
        var tag := tags[i];
        var b := if block.Some? then block.value else NoStyle;
        if tag.name == "currency" {
          block := Some(b.(currency := true));
        } else if tag.name == "personal" {
          block := Some(b.(personal := true));
        } else if tag.name == "plural" {
          block := Some(b.(plural := true));
        } else if tag.name == "possessive" {
          block := Some(b.(possessive := true));
        } else if tag.name == "uncounted" {
          block := Some(b.(uncounted := true));
        } else {
          problems := problems + [NewFatal(StyleMessage, tag.attribution)];
        }
      }
      assert tags[..|tags|] == tags;
    }

    /** One quality of `parse_model`. */
    method ParseQuality(quality: QualityElement) returns (r: Outcome<Option<Quality>>)
      modifies this
      ensures var spec := QualitySpec(parsers, quality, old(problems));
        if spec.Ok? then r == Ok(spec.value.value) && problems == spec.value.problems else r.Panic?
    {
      if quality.name.None? {
        problems := problems + [NewFatal(QualityNameMessage, quality.attribution)];
        return Ok(None);
      }
      var name := quality.name.value.name;
      var hidden := Flag(quality.hidden);
      var exclusive := Flag(quality.exclusive);
      var values :- ValuesSpec(parsers, hidden, quality.values, problems);
      problems := values.problems;
      if hidden {
        return Ok(Some(Quality(name, None, None, None, None, None, true, None, values.value, exclusive)));
      }
      var caption :- ParseTemplate(parsers, quality.labelText, problems);
      var singular :- ParseTemplate(parsers, quality.singularLabel, caption.problems);
      var plural :- ParseTemplate(parsers, quality.pluralLabel, singular.problems);
      var description :- ParseTemplate(parsers, quality.description, plural.problems);
      problems := description.problems;
      var style := ParseStyle(quality.style);
      var icon :- ParseConditional(quality.icon, UriValue);
      return Ok(Some(Quality(name, caption.value, singular.value, plural.value, description.value, icon, false, style, values.value, exclusive)));
    }

    /** The qualities of `parse_model`, unnamed ones dropped. */
    method ParseQualities(qualities: seq<QualityElement>) returns (r: Outcome<seq<Quality>>)
      modifies this
      ensures var spec := Collect(QualityStep(parsers), qualities, 0, [], old(problems));
        if spec.Ok? then r == Ok(spec.value.value) && problems == spec.value.problems else r.Panic?
    {
      var kept: seq<Quality> := [];
      for i := 0 to |qualities|
        invariant Collect(QualityStep(parsers), qualities, i, kept, problems) == Collect(QualityStep(parsers), qualities, 0, [], old(problems))
      {
        var quality :- ParseQuality(qualities[i]);
        if quality.Some? {
          kept := kept + [quality.value];
        }
      }
      return Ok(kept);
    }

    /** `parse_model`: the storylets list grows with each location's storylets. */
    method ParseModel(tree: ElementTree) returns (r: Outcome<ModelParsingResult>)
      modifies this
      ensures r == BuildSpec(parsers, symbols, tree, old(problems))
    {
      var meta :- MetaSpec(parsers, tree.meta, problems);
      problems := meta.problems;
      var qualities :- ParseQualities(tree.qualities);
      var top :- Collect(StoryletStep(parsers, symbols, None), tree.storylets, 0, [], problems);
      problems := top.problems;
      var located :- ParseLocations(tree.locations, top.value);
      return Ok(ModelParsingResult(Model(meta.value, qualities, located.0, located.1), problems));
    }

    /** The locations loop of `parse_model`, appending each location's storylets to `storylets0`. */
    method ParseLocations(locations: seq<LocationElement>, storylets0: seq<Storylet>) returns (r: Outcome<(seq<Location>, seq<Storylet>)>)
      modifies this
      ensures var spec := LocationsSpec(parsers, symbols, locations, 0, [], storylets0, old(problems));
        if spec.Ok? then r == Ok(spec.value.value) && problems == spec.value.problems else r.Panic?
    {
      var storylets := storylets0;
      var kept: seq<Location> := [];
      for i := 0 to |locations|
        invariant LocationsSpec(parsers, symbols, locations, i, kept, storylets, problems)
          == LocationsSpec(parsers, symbols, locations, 0, [], storylets0, old(problems))
      {
        var located :- LocationSpec(parsers, symbols, locations[i], problems);
        problems := located.problems;
        storylets := storylets + located.value.1;
        if located.value.0.Some? {
          kept := kept + [located.value.0.value];
        }
      }
      return Ok((kept, storylets));
    }
  }

  /** `ModelParser::parse`: extract the symbols from the whole tree, then build the model against them. */
  method ParseElementTree(tree: ElementTree) returns (r: Outcome<ModelParsingResult>)
    ensures r == ModelSpec(tree)
  {
    var list, problems := SymbolExtract.Extract(tree, []);
    var symbols := list.symbols;
    var parse := new Parse(symbols, problems);
    r := parse.ParseModel(tree);
  }
}
