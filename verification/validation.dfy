/**
 * The part of Laravel's validator the form requests rely on: a rule map from field name to a list
 * of rules, checked against the request input, yielding either the validated data or the set of
 * fields that failed.
 *
 * `required` is the one implicit rule: it runs whether or not the field is present. Every other
 * rule runs only on a field that is present and not the empty string. `sometimes` skips the whole
 * field when it is absent. The validated data holds exactly the fields that have rules and were
 * submitted.
 */
module Validator {
  import opened Php

  datatype Rule =
    | Required
    | Sometimes
    | IsString
    | Max(n: nat)
    | Email
    | Unique(taken: set<string>)
    | Exists(ids: set<int>)
    | In(values: set<string>)
    | IsBoolean

  type Rules = map<string, seq<Rule>>

  datatype Validation = Passed(validated: Input) | Failed(errors: set<string>)

  /** What `required` accepts: present, not null and not the empty string. */
  predicate Filled(input: Input, key: string) {
    key in input && input[key] != Null && input[key] != Str("")
  }

  /** Whether a rule other than `required` runs on the field. */
  predicate Runs(input: Input, key: string) {
    key in input && input[key] != Str("")
  }

  /**
   * Whether a value satisfies one non-implicit rule. `max` and `unique` only look at strings; on
   * any other value the companion `string` or `email` rule of the same field decides.
   * `isEmail` is the address-format check, which this model does not open up.
   */
  predicate Holds(rule: Rule, v: Value, isEmail: string -> bool) {
    match rule
    case Required => v != Null && v != Str("")
    case Sometimes => true
    case IsString => v.Str?
    case Max(n) => !v.Str? || |v.s| <= n
    case Email => v.Str? && isEmail(v.s)
    case Unique(taken) => !v.Str? || v.s !in taken
    case Exists(ids) => v.Int? && v.i in ids
    case In(values) => v.Str? && v.s in values
    case IsBoolean => v.Bool? || v == Int(0) || v == Int(1) || v == Str("0") || v == Str("1")
  }

  predicate RulePasses(input: Input, key: string, rule: Rule, isEmail: string -> bool) {
    if rule == Required then Filled(input, key)
    else !Runs(input, key) || Holds(rule, input[key], isEmail)
  }

  predicate FieldPasses(input: Input, key: string, rules: seq<Rule>, isEmail: string -> bool) {
    (Sometimes in rules && key !in input)
    || forall i :: 0 <= i < |rules| ==> RulePasses(input, key, rules[i], isEmail)
  }

  /** `$validator->validate()` followed by `validated()`. */
  function Validate(input: Input, rules: Rules, isEmail: string -> bool): (r: Validation)
    ensures r.Passed? <==> forall key :: key in rules ==> FieldPasses(input, key, rules[key], isEmail)
    ensures r.Passed? ==> r.validated.Keys == rules.Keys * input.Keys
    ensures r.Passed? ==> forall k :: k in r.validated ==> r.validated[k] == input[k]
    ensures r.Failed? ==> r.errors != {}
    ensures r.Failed? ==> forall k :: k in r.errors <==> k in rules && !FieldPasses(input, k, rules[k], isEmail)
  {
    var errors := set key | key in rules && !FieldPasses(input, key, rules[key], isEmail);
    if errors == {} then
      assert forall key :: key in rules ==> key !in errors;
      Passed(map key | key in rules && key in input :: input[key])
    else
      Failed(errors)
  }

  /** A field with two rules passes when `sometimes` skips it or both rules pass. */
  lemma TwoRules(input: Input, key: string, a: Rule, b: Rule, isEmail: string -> bool)
    ensures FieldPasses(input, key, [a, b], isEmail) <==>
            ((a == Sometimes || b == Sometimes) && key !in input)
            || (RulePasses(input, key, a, isEmail) && RulePasses(input, key, b, isEmail))
  {
    var rules := [a, b];
    if FieldPasses(input, key, rules, isEmail) && !(Sometimes in rules && key !in input) {
      assert RulePasses(input, key, rules[0], isEmail) && RulePasses(input, key, rules[1], isEmail);
    }
    if RulePasses(input, key, a, isEmail) && RulePasses(input, key, b, isEmail) {
      assert forall i :: 0 <= i < |rules| ==> RulePasses(input, key, rules[i], isEmail);
    }
    if (a == Sometimes || b == Sometimes) && key !in input {
      assert Sometimes in rules;
    }
  }

  /** A field with three rules passes when `sometimes` skips it or all three rules pass. */
  lemma ThreeRules(input: Input, key: string, a: Rule, b: Rule, c: Rule, isEmail: string -> bool)
    ensures FieldPasses(input, key, [a, b, c], isEmail) <==>
            ((a == Sometimes || b == Sometimes || c == Sometimes) && key !in input)
            || (RulePasses(input, key, a, isEmail) && RulePasses(input, key, b, isEmail)
                && RulePasses(input, key, c, isEmail))
  {
    var rules := [a, b, c];
    if FieldPasses(input, key, rules, isEmail) && !(Sometimes in rules && key !in input) {
      assert RulePasses(input, key, rules[0], isEmail) && RulePasses(input, key, rules[1], isEmail)
             && RulePasses(input, key, rules[2], isEmail);
    }
    if RulePasses(input, key, a, isEmail) && RulePasses(input, key, b, isEmail)
       && RulePasses(input, key, c, isEmail) {
      assert forall i :: 0 <= i < |rules| ==> RulePasses(input, key, rules[i], isEmail);
    }
    if (a == Sometimes || b == Sometimes || c == Sometimes) && key !in input {
      assert Sometimes in rules;
    }
  }
}
