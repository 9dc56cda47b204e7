/**
 * `LogicalValueElement` (compiler/src/element/logical.rs): a yes/no value.
 * The scalar is trimmed and ASCII lower-cased; "yes" and "true" are true,
 * "no" and "false" are false, and anything else is reported and false.
 */
module ElementLogical {
  import opened Common
  import opened YamlValue
  import opened Attributions
  import opened Problems
  import opened ElementBase

  datatype LogicalValueElement = LogicalValueElement(attribution: Attribution, value: bool)

  const LogicalMessage: string := "Expected a logical value"
  const LogicalSequenceMessage: string := "Expected a logical value, but found a sequence instead"
  const LogicalMappingMessage: string := "Expected a logical value, but found a mapping instead"

  /** The spellings of true and of false, after trimming and ASCII lower-casing. */
  predicate IsTrueWord(s: string) { s == "yes" || s == "true" }
  predicate IsFalseWord(s: string) { s == "no" || s == "false" }

  /**
   * `from_node`: true exactly for a scalar spelling true; no problem exactly
   * for a scalar spelling true or false, otherwise one Fatal problem.
   */
  function LogicalFromNode(node: Node, attribution: Attribution): (r: Built<LogicalValueElement>)
    ensures r.element.attribution == attribution
    ensures r.element.value <==> node.value.Scalar? && IsTrueWord(AsciiLowercase(Trim(node.value.text)))
    ensures r.problems == [] <==>
      node.value.Scalar? && (IsTrueWord(AsciiLowercase(Trim(node.value.text))) || IsFalseWord(AsciiLowercase(Trim(node.value.text))))
    ensures |r.problems| <= 1 && AllFatal(r.problems)
  {
    match node.value
    case Scalar(text) =>
      var word := AsciiLowercase(Trim(text));
      if IsTrueWord(word) then Built(LogicalValueElement(attribution, true), [])
      else if IsFalseWord(word) then Built(LogicalValueElement(attribution, false), [])
      else Built(LogicalValueElement(attribution, false), [NewFatal(LogicalMessage, attribution)])
    case Sequence(_) => Built(LogicalValueElement(attribution, false), [NewFatal(LogicalSequenceMessage, attribution)])
    case Mapping(_) => Built(LogicalValueElement(attribution, false), [NewFatal(LogicalMappingMessage, attribution)])
  }

  /** Case does not matter: "TRUE" is true, "False" is false. */
  lemma CaseIgnored(node: Node, attribution: Attribution, text: string)
    requires node.value == Scalar(text) && (text == "TRUE" || text == "False")
    ensures LogicalFromNode(node, attribution) == Built(LogicalValueElement(attribution, text == "TRUE"), [])
  {
    assert !IsWhitespace(text[0]) && !IsWhitespace(text[|text| - 1]);
    assert Trim(text) == text;
    if text == "TRUE" {
      assert ToAsciiLower('T') == 't' && ToAsciiLower('R') == 'r' && ToAsciiLower('U') == 'u' && ToAsciiLower('E') == 'e';
      assert AsciiLowercase(text) == "true";
    } else {
      assert ToAsciiLower('F') == 'f' && ToAsciiLower('a') == 'a' && ToAsciiLower('l') == 'l';
      assert ToAsciiLower('s') == 's' && ToAsciiLower('e') == 'e';
      assert AsciiLowercase(text) == "false";
    }
  }
}
