/** Client-side form validation written as a chain of guarded early returns: the
    checks run in order and the first one that fails decides the message. */
module Validation {
  import opened Text

  /** One check of the chain and the message reported when it fails. */
  datatype Rule = Rule(passes: bool, message: string)

  /** The message of the first failing rule, in order; `None` when every rule passes. */
  function FirstFailure(rules: seq<Rule>): (r: Option<string>)
    ensures r.None? <==> forall k | 0 <= k < |rules| :: rules[k].passes
    ensures r.Some? ==> exists k | 0 <= k < |rules| ::
      !rules[k].passes && rules[k].message == r.value && forall j | 0 <= j < k :: rules[j].passes
  {
    if rules == [] then None
    else if !rules[0].passes then Some(rules[0].message)
    else FirstFailure(rules[1..])
  }

  /** The rule reported is the first failing one: a rule whose predecessors all pass
      and which fails itself decides the message, whatever follows it. */
  lemma {:induction false} FirstFailureAt(rules: seq<Rule>, k: nat)
    requires k < |rules| && !rules[k].passes
    requires forall j | 0 <= j < k :: rules[j].passes
    ensures FirstFailure(rules) == Some(rules[k].message)
  {
    if k > 0 {
      FirstFailureAt(rules[1..], k - 1);
    }
  }
}
