/**
 * Tokens of the expression language: atoms, operators in their binding
 * order, the operators' surface spellings and the serialised shapes.
 */
module ExpressionTokens {
  import opened Common

  datatype ExpressionAtom =
    | LogicalLiteral(truth: bool)
    | NumericLiteral(number: nat)
    | Reference(name: string)

  /**
   * The operators, in declaration order. The derived ordering of the enum is
   * that order, and it is the binding rank the parser compares.
   */
  datatype ExpressionOperator =
    // Grouping operators
    | CloseParen | OpenParen
    // Branch operators
    | End | Else | Then
    // Phrasal operators
    | Either | Between | Minimum | Maximum | Of | Random | When | Unless | From | Comma
    // Range operator
    | To
    // Conjunction operators
    | And | Or
    // Comparison operators
    | Is | Equal | NotEqual | GreaterThan | GreaterThanOrEqual | LessThan | LessThanOrEqual
    // Arithmetic operators
    | Plus | Minus | Multiply | Divide
    // Atomic operators
    | Not | In

  datatype ExpressionToken =
    | Atom(atom: ExpressionAtom)
    | Operator(operator: ExpressionOperator)
    | UnrecognizedToken

  /** A token with the marks where it starts and ends. */
  datatype MarkedToken<T> = MarkedToken(token: T, startMark: Mark, endMark: Mark)

  /** The position of `o` in declaration order. */
  function Rank(o: ExpressionOperator): (r: nat)
    ensures r < 31
  {
    match o
    case CloseParen => 0
    case OpenParen => 1
    case End => 2
    case Else => 3
    case Then => 4
    case Either => 5
    case Between => 6
    case Minimum => 7
    case Maximum => 8
    case Of => 9
    case Random => 10
    case When => 11
    case Unless => 12
    case From => 13
    case Comma => 14
    case To => 15
    case And => 16
    case Or => 17
    case Is => 18
    case Equal => 19
    case NotEqual => 20
    case GreaterThan => 21
    case GreaterThanOrEqual => 22
    case LessThan => 23
    case LessThanOrEqual => 24
    case Plus => 25
    case Minus => 26
    case Multiply => 27
    case Divide => 28
    case Not => 29
    case In => 30
  }

  /** The derived `>=` of the operator enum. */
  predicate AtLeast(o: ExpressionOperator, outer: ExpressionOperator)
  {
    Rank(o) >= Rank(outer)
  }

  /** Distinct operators have distinct ranks, so the order is total and antisymmetric. */
  lemma RankInjective(a: ExpressionOperator, b: ExpressionOperator)
    ensures Rank(a) == Rank(b) ==> a == b
  {
  }

  lemma AtLeastTotal(a: ExpressionOperator, b: ExpressionOperator)
    ensures AtLeast(a, b) || AtLeast(b, a)
    ensures AtLeast(a, b) && AtLeast(b, a) ==> a == b
  {
    RankInjective(a, b);
  }

  predicate IsPhrasal(o: ExpressionOperator)
  {
    o.Either? || o.Between? || o.Minimum? || o.Maximum? || o.Of? || o.Random? || o.When?
    || o.Unless? || o.From? || o.Comma?
  }

  predicate IsComparison(o: ExpressionOperator)
  {
    o.Is? || o.Equal? || o.NotEqual? || o.GreaterThan? || o.GreaterThanOrEqual? || o.LessThan?
    || o.LessThanOrEqual?
  }

  predicate IsArithmetic(o: ExpressionOperator)
  {
    o.Plus? || o.Minus? || o.Multiply? || o.Divide?
  }

  /**
   * The binding chain: End < Else < Then < phrasal operators < To < And < Or
   * < comparisons < arithmetic < Not < In.
   */
  lemma RankChain()
    ensures Rank(End) < Rank(Else) < Rank(Then) < Rank(Either) && Rank(Comma) < Rank(To)
    ensures Rank(To) < Rank(And) < Rank(Or) < Rank(Is)
    ensures Rank(LessThanOrEqual) < Rank(Plus) && Rank(Divide) < Rank(Not) < Rank(In)
  {
  }

  lemma PhrasalRank(o: ExpressionOperator)
    ensures IsPhrasal(o) <==> Rank(Then) < Rank(o) < Rank(To)
  {
  }

  lemma ComparisonRank(o: ExpressionOperator)
    ensures IsComparison(o) <==> Rank(Or) < Rank(o) < Rank(Plus)
  {
  }

  lemma ArithmeticRank(o: ExpressionOperator)
    ensures IsArithmetic(o) <==> Rank(LessThanOrEqual) < Rank(o) < Rank(Not)
  {
  }

  /** The surface spelling of an operator (its `Display`). */
  function Display(o: ExpressionOperator): (s: string)
    ensures |s| >= 1
  {
    match o
    case And => "and"
    case Or => "or"
    case Not => "not"
    case OpenParen => "("
    case CloseParen => ")"
    case Equal => "="
    case NotEqual => "!="
    case GreaterThan => ">"
    case GreaterThanOrEqual => ">="
    case LessThan => "<"
    case LessThanOrEqual => "<="
    case Plus => "+"
    case Minus => "-"
    case Multiply => "*"
    case Divide => "/"
    case End => "end"
    case When => "when"
    case Then => "then"
    case Else => "else"
    case Unless => "unless"
    case Comma => ","
    case Either => "either"
    case Between => "between"
    case Of => "of"
    case From => "from"
    case To => "to"
    case Minimum => "minimum"
    case Maximum => "maximum"
    case Random => "random"
    case Is => "is"
    case In => "in"
  }

  /** The operator spelled `s`, if any: the inverse of `Display`, looked up by length first. */
  function FromDisplay(s: string): Option<ExpressionOperator>
  {
    if |s| == 1 then
      if s == "(" then Some(OpenParen)
      else if s == ")" then Some(CloseParen)
      else if s == "=" then Some(Equal)
      else if s == ">" then Some(GreaterThan)
      else if s == "<" then Some(LessThan)
      else if s == "+" then Some(Plus)
      else if s == "-" then Some(Minus)
      else if s == "*" then Some(Multiply)
      else if s == "/" then Some(Divide)
      else if s == "," then Some(Comma)
      else None
    else if |s| == 2 then
      if s == "or" then Some(Or)
      else if s == "!=" then Some(NotEqual)
      else if s == ">=" then Some(GreaterThanOrEqual)
      else if s == "<=" then Some(LessThanOrEqual)
      else if s == "of" then Some(Of)
      else if s == "to" then Some(To)
      else if s == "is" then Some(Is)
      else if s == "in" then Some(In)
      else None
    else if |s| == 3 then
      if s == "and" then Some(And)
      else if s == "not" then Some(Not)
      else if s == "end" then Some(End)
      else None
    else if |s| == 4 then
      if s == "when" then Some(When)
      else if s == "then" then Some(Then)
      else if s == "else" then Some(Else)
      else if s == "from" then Some(From)
      else None
    else if |s| == 6 then
      if s == "unless" then Some(Unless)
      else if s == "either" then Some(Either)
      else if s == "random" then Some(Random)
      else None
    else if |s| == 7 then
      if s == "between" then Some(Between)
      else if s == "minimum" then Some(Minimum)
      else if s == "maximum" then Some(Maximum)
      else None
    else None
  }

  /** Every operator is recovered from its spelling, so no two share one. */
  lemma DisplayRoundTrip(o: ExpressionOperator)
    ensures FromDisplay(Display(o)) == Some(o)
  {
    // One case at a time keeps each string comparison chain small.
    match o {
      case CloseParen =>
      case OpenParen =>
      case End =>
      case Else =>
      case Then =>
      case Either =>
      case Between =>
      case Minimum =>
      case Maximum =>
      case Of =>
      case Random =>
      case When =>
      case Unless =>
      case From =>
      case Comma =>
      case To =>
      case And =>
      case Or =>
      case Is =>
      case Equal =>
      case NotEqual =>
      case GreaterThan =>
      case GreaterThanOrEqual =>
      case LessThan =>
      case LessThanOrEqual =>
      case Plus =>
      case Minus =>
      case Multiply =>
      case Divide =>
      case Not =>
      case In =>
    }
  }

  lemma DisplayInjective(a: ExpressionOperator, b: ExpressionOperator)
    ensures Display(a) == Display(b) ==> a == b
  {
    DisplayRoundTrip(a);
    DisplayRoundTrip(b);
  }

  /** The serialised name of an operator: its variant name in camelCase. */
  function SerializedName(o: ExpressionOperator): (s: string)
    ensures |s| >= 2
  {
    match o
    case CloseParen => "closeParen"
    case OpenParen => "openParen"
    case End => "end"
    case Else => "else"
    case Then => "then"
    case Either => "either"
    case Between => "between"
    case Minimum => "minimum"
    case Maximum => "maximum"
    case Of => "of"
    case Random => "random"
    case When => "when"
    case Unless => "unless"
    case From => "from"
    case Comma => "comma"
    case To => "to"
    case And => "and"
    case Or => "or"
    case Is => "is"
    case Equal => "equal"
    case NotEqual => "notEqual"
    case GreaterThan => "greaterThan"
    case GreaterThanOrEqual => "greaterThanOrEqual"
    case LessThan => "lessThan"
    case LessThanOrEqual => "lessThanOrEqual"
    case Plus => "plus"
    case Minus => "minus"
    case Multiply => "multiply"
    case Divide => "divide"
    case Not => "not"
    case In => "in"
  }

  /** The operators spelled with punctuation rather than a word. */
  predicate IsPunctuation(o: ExpressionOperator)
  {
    o.CloseParen? || o.OpenParen? || o.Comma? || IsArithmetic(o)
    || (IsComparison(o) && !o.Is?)
  }

  /**
   * Word operators serialise as their own spelling; the punctuation
   * operators serialise under their variant names instead.
   */
  lemma SerializedNameOfWords(o: ExpressionOperator)
    ensures !IsPunctuation(o) <==> SerializedName(o) == Display(o)
  {
  }

  /** The serialised form of an atom. */
  function SerializeAtom(a: ExpressionAtom): (j: Json)
    ensures a.Reference? <==> j.JString?
    ensures a.NumericLiteral? ==> j == JNumber(a.number)
    ensures a.LogicalLiteral? ==> j.JNumber? && j.number <= 1 && (j.number == 1 <==> a.truth)
  {
    match a
    case LogicalLiteral(b) => JNumber(if b then 1 else 0)
    case NumericLiteral(n) => JNumber(n)
    case Reference(s) => JString(s)
  }

  /**
   * Reading a serialised atom back gives a numeric literal or a reference:
   * logical literals come back as the numbers 1 and 0.
   */
  function DeserializeAtom(j: Json): (r: Option<ExpressionAtom>)
  {
    match j
    case JNumber(n) => Some(NumericLiteral(n))
    case JString(s) => Some(Reference(s))
    case _ => None
  }

  lemma SerializeAtomRoundTrip(a: ExpressionAtom)
    ensures DeserializeAtom(SerializeAtom(a)) ==
      Some(if a.LogicalLiteral? then NumericLiteral(if a.truth then 1 else 0) else a)
  {
  }
}
