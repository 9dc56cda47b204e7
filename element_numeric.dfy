/**
 * `NumericValueElement` (compiler/src/element/numeric.rs): a `u32` written
 * in decimal. A scalar that does not parse, a sequence and a mapping are
 * each reported once and give 0.
 */
module ElementNumeric {
  import opened Common
  import opened YamlValue
  import opened Attributions
  import opened Problems
  import opened ElementBase

  datatype NumericValueElement = NumericValueElement(attribution: Attribution, value: nat)

  const NumericMessage: string := "Expected a numeric value"
  const NumericSequenceMessage: string := "Expected a numeric value, but found a sequence instead"
  const NumericMappingMessage: string := "Expected a numeric value, but found a mapping instead"

  /**
   * `from_node`: the trimmed scalar's value when it parses as a `u32`, with
   * no problem; otherwise 0 and exactly one Fatal problem.
   */
  function NumericFromNode(node: Node, attribution: Attribution): (r: Built<NumericValueElement>)
    ensures r.element.attribution == attribution
    ensures r.element.value < U32Limit
    ensures r.problems == [] <==> node.value.Scalar? && ParseU32(Trim(node.value.text)).Some?
    ensures r.problems == [] ==> r.element.value == ParseU32(Trim(node.value.text)).value
    ensures r.problems != [] ==> r.element.value == 0 && |r.problems| == 1 && r.problems[0].level == Fatal
  {
    match node.value
    case Scalar(text) =>
      var parsed := ParseU32(Trim(text));
      if parsed.Some? then Built(NumericValueElement(attribution, parsed.value), [])
      else Built(NumericValueElement(attribution, 0), [NewFatal(NumericMessage, attribution)])
    case Sequence(_) => Built(NumericValueElement(attribution, 0), [NewFatal(NumericSequenceMessage, attribution)])
    case Mapping(_) => Built(NumericValueElement(attribution, 0), [NewFatal(NumericMappingMessage, attribution)])
  }

  /** Every `u32` written in decimal reads back as itself, with no problem. */
  lemma NumeralRoundTrip(n: nat, node: Node, attribution: Attribution)
    requires n < U32Limit
    requires node.value == Scalar(NatToString(n))
    ensures NumericFromNode(node, attribution) == Built(NumericValueElement(attribution, n), [])
  {
    var s := NatToString(n);
    assert TrimStart(s) == s by {
      assert !IsWhitespace(s[0]);
    }
    assert TrimEnd(s) == s by {
      assert !IsWhitespace(s[|s| - 1]);
    }
    ParseU32OfNatToString(n);
  }
}
