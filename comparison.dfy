/** The two-tier output comparator `_compare_outputs` of e2b_service.py. */
module Comparison {
  import opened Common
  import opened Json

  /**
   * Exact text equality first; otherwise both sides must parse and the parsed
   * values must be equal.  A parse failure on either side is a mismatch.
   */
  function CompareOutputs(parse: Parser, actual: string, expected: string): (r: bool)
    ensures actual == expected ==> r
    ensures actual != expected ==>
      (r <==> parse(actual).Some? && parse(expected).Some? && PyEqual(parse(actual).value, parse(expected).value))
  {
    if actual == expected then true
    else
      match (parse(actual), parse(expected))
      case (Some(a), Some(e)) => PyEqual(a, e)
      case _ => false
  }

  /** Identical texts match under every parser, even one that rejects everything. */
  lemma IdenticalNeedsNoParse(parse: Parser, s: string)
    requires forall t :: parse(t).None?
    ensures CompareOutputs(parse, s, s)
    ensures forall t :: t != s ==> !CompareOutputs(parse, t, s)
  {
  }

  /** Whatever the parser, the comparator is an equivalence relation on output texts. */
  lemma CompareIsEquivalence(parse: Parser, a: string, b: string, c: string)
    ensures CompareOutputs(parse, a, a)
    ensures CompareOutputs(parse, a, b) == CompareOutputs(parse, b, a)
    ensures CompareOutputs(parse, a, b) && CompareOutputs(parse, b, c) ==> CompareOutputs(parse, a, c)
  {
  }

  /** For outputs that parse to values without booleans, a match is identical text or structurally equal values. */
  lemma CompareWithoutBooleans(parse: Parser, actual: string, expected: string)
    requires parse(actual).Some? && parse(expected).Some?
    requires !HasBool(parse(actual).value) && !HasBool(parse(expected).value)
    ensures CompareOutputs(parse, actual, expected) <==> actual == expected || parse(actual).value == parse(expected).value
  {
    BoolFreeEquality(parse(actual).value, parse(expected).value);
  }
}
