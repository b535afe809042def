/** Laravel's declarative validator, as far as the application's rule lists use it,
    and the donation rule list shared by the JSON API and the web form.

    Evaluation of one field follows the framework: a failed `required` stops the
    field; other rules are skipped when the field is absent, blank, or null under
    `nullable`; the remaining rules are all checked (no `bail`), in order.
 */
module Validation {
  import opened Request

  datatype Rule = Required | Nullable | IsString | Email | Numeric | Max(limit: nat) | Min(bound: real)

  /** Field name to its rule list. */
  type RuleSet = map<string, seq<Rule>>

  /** Field name to the rules it failed, for the fields that failed any. */
  type Failures = map<string, seq<Rule>>

  /** An entry of the error bag a response carries. */
  datatype ErrorMessage = RuleFailed(rule: Rule) | Text(message: string)

  type ErrorBag = map<string, seq<ErrorMessage>>

  /** The size the `max` and `min` rules compare: the number for a numeric
      field, else a string's length or an array's element count. */
  function Size(oracles: Oracles, rules: seq<Rule>, v: Value): Option<real> {
    if Numeric in rules && NumericValue(oracles, v).Some? then NumericValue(oracles, v)
    else match v
      case Str(s) => Some(|s| as real)
      case List(n) => Some(n as real)
      case _ => None
  }

  /** Whether one non-implicit rule accepts a present, non-skipped value. */
  predicate Passes(oracles: Oracles, rule: Rule, rules: seq<Rule>, v: Value) {
    match rule
    case IsString => v.Str?
    case Email => v.Str? && oracles.isEmail(v.s)
    case Numeric => NumericValue(oracles, v).Some?
    case Max(n) => Size(oracles, rules, v).None? || Size(oracles, rules, v).value <= n as real
    case Min(b) => Size(oracles, rules, v).None? || Size(oracles, rules, v).value >= b
    case _ => true
  }

  /** The rules of `todo` that reject `v`, in order. */
  function Rejecting(oracles: Oracles, todo: seq<Rule>, rules: seq<Rule>, v: Value): (failed: seq<Rule>)
    ensures forall r :: r in failed ==> r in todo && !Passes(oracles, r, rules, v)
    ensures forall r :: r in todo && !Passes(oracles, r, rules, v) ==> r in failed
    ensures failed == [] <==> forall r :: r in todo ==> Passes(oracles, r, rules, v)
  {
    if todo == [] then []
    else
      var rest := Rejecting(oracles, todo[1..], rules, v);
      if Passes(oracles, todo[0], rules, v) then rest else [todo[0]] + rest
  }

  /** The rules one field fails; `field` is None when the input lacks the field. */
  function FailedRules(oracles: Oracles, rules: seq<Rule>, field: Option<Value>): seq<Rule> {
    if Required in rules && (field.None? || !Filled(field.value)) then [Required]
    else if field.None? || (field.value.Str? && IsBlank(field.value.s)) then []
    else if Nullable in rules && field.value == Null then []
    else Rejecting(oracles, rules, rules, field.value)
  }

  /** The validator's verdict: empty when the input passes. */
  function Validate(oracles: Oracles, rules: RuleSet, input: Input): (errors: Failures)
    ensures errors.Keys <= rules.Keys
    ensures forall f :: f in errors ==> errors[f] != [] && errors[f] == FailedRules(oracles, rules[f], Get(input, f))
    ensures forall f :: f in rules && FailedRules(oracles, rules[f], Get(input, f)) != [] ==> f in errors
  {
    map f | f in rules && FailedRules(oracles, rules[f], Get(input, f)) != [] :: FailedRules(oracles, rules[f], Get(input, f))
  }

  /** The error bag a failed validation puts in the response. */
  function Messages(errors: Failures): (bag: ErrorBag)
    ensures bag.Keys == errors.Keys
    ensures forall f :: f in bag ==> |bag[f]| == |errors[f]|
  {
    map f | f in errors :: seq(|errors[f]|, i requires 0 <= i < |errors[f]| => RuleFailed(errors[f][i]))
  }

  /** The rules of DonationController::store and of the POST /donate route. */
  const DonationRules: RuleSet := map[
    "donor_name" := [Required, IsString, Max(255)],
    "donor_email" := [Required, Email, Max(255)],
    "amount" := [Required, Numeric, Min(0.01)],
    "currency" := [Nullable, IsString, Max(3)],
    "message" := [Nullable, IsString, Max(1000)]
  ]

  /** A field holding a non-blank string. */
  predicate FilledText(input: Input, f: string) {
    f in input && input[f].Str? && !IsBlank(input[f].s)
  }

  /** A required string field: present, not blank, at most `limit` characters. */
  predicate RequiredText(input: Input, f: string, limit: nat) {
    FilledText(input, f) && |input[f].s| <= limit
  }

  /** An optional string field: absent, null, blank, or a string of at most `limit` characters. */
  predicate OptionalText(input: Input, f: string, limit: nat) {
    f !in input || input[f] == Null || (input[f].Str? && (IsBlank(input[f].s) || |input[f].s| <= limit))
  }

  /** Whether a donation field satisfies its rules, stated directly. */
  predicate DonationFieldOk(oracles: Oracles, input: Input, f: string) {
    if f == "donor_name" then RequiredText(input, f, 255)
    else if f == "donor_email" then RequiredText(input, f, 255) && oracles.isEmail(input[f].s)
    else if f == "amount" then
      f in input && Filled(input[f]) && NumericValue(oracles, input[f]).Some? && NumericValue(oracles, input[f]).value >= 0.01
    else if f == "currency" then OptionalText(input, f, 3)
    else if f == "message" then OptionalText(input, f, 1000)
    else true
  }

  /** A donation input the rules accept, stated field by field. */
  predicate AcceptableDonation(oracles: Oracles, input: Input) {
    && DonationFieldOk(oracles, input, "donor_name")
    && DonationFieldOk(oracles, input, "donor_email")
    && DonationFieldOk(oracles, input, "amount")
    && DonationFieldOk(oracles, input, "currency")
    && DonationFieldOk(oracles, input, "message")
  }

  /** A donation field fails exactly when its direct statement does not hold. */
  lemma DonationFieldMeaning(oracles: Oracles, input: Input, f: string)
    requires f in DonationRules
    ensures FailedRules(oracles, DonationRules[f], Get(input, f)) == [] <==> DonationFieldOk(oracles, input, f)
  {
    var v := Get(input, f);
    if f == "donor_name" {
      RequiredTextMeaning(oracles, input, f, [Required, IsString, Max(255)], 255);
    } else if f == "donor_email" {
      RequiredTextMeaning(oracles, input, f, [Required, Email, Max(255)], 255);
    } else if f == "amount" {
      AmountMeaning(oracles, input);
    } else if f == "currency" {
      OptionalTextMeaning(oracles, input, f, 3);
    } else {
      OptionalTextMeaning(oracles, input, f, 1000);
    }
  }

  lemma RequiredTextMeaning(oracles: Oracles, input: Input, f: string, rules: seq<Rule>, limit: nat)
    requires rules == [Required, IsString, Max(limit)] || rules == [Required, Email, Max(limit)]
    ensures FailedRules(oracles, rules, Get(input, f)) == [] <==>
      RequiredText(input, f, limit) && (rules[1] == Email ==> oracles.isEmail(input[f].s))
  {
    var v := Get(input, f);
    if v.Some? && Filled(v.value) {
      var failed := Rejecting(oracles, rules, rules, v.value);
      assert rules[1] in rules && rules[2] in rules;
      if v.value.Str? {
        assert Size(oracles, rules, v.value) == Some(|v.value.s| as real);
      }
    }
  }

  lemma AmountMeaning(oracles: Oracles, input: Input)
    ensures FailedRules(oracles, DonationRules["amount"], Get(input, "amount")) == [] <==> DonationFieldOk(oracles, input, "amount")
  {
    var rules := [Required, Numeric, Min(0.01)];
    assert DonationRules["amount"] == rules;
    var v := Get(input, "amount");
    if v.Some? && Filled(v.value) {
      assert Numeric in rules && Min(0.01) in rules;
      assert !(v.value.Str? && IsBlank(v.value.s));
    }
  }

  lemma OptionalTextMeaning(oracles: Oracles, input: Input, f: string, limit: nat)
    requires f in DonationRules && DonationRules[f] == [Nullable, IsString, Max(limit)]
    ensures FailedRules(oracles, DonationRules[f], Get(input, f)) == [] <==> OptionalText(input, f, limit)
  {
    var rules := DonationRules[f];
    var v := Get(input, f);
    assert Required !in rules && Nullable in rules && IsString in rules && Max(limit) in rules;
    if v.Some? && v.value.Str? {
      assert Size(oracles, rules, v.value) == Some(|v.value.s| as real);
    }
  }

  /** The error map's keys are exactly the donation fields that break their rules. */
  lemma DonationErrorKeys(oracles: Oracles, input: Input)
    ensures forall f :: f in DonationRules ==> (f in Validate(oracles, DonationRules, input) <==> !DonationFieldOk(oracles, input, f))
  {
    forall f | f in DonationRules
      ensures f in Validate(oracles, DonationRules, input) <==> !DonationFieldOk(oracles, input, f)
    {
      DonationFieldMeaning(oracles, input, f);
    }
  }

  /** The validator accepts a donation exactly when every field is acceptable. */
  lemma DonationRulesMeaning(oracles: Oracles, input: Input)
    ensures Validate(oracles, DonationRules, input) == map[] <==> AcceptableDonation(oracles, input)
  {
    var errors := Validate(oracles, DonationRules, input);
    DonationErrorKeys(oracles, input);
    assert DonationRules.Keys == {"donor_name", "donor_email", "amount", "currency", "message"};
    if AcceptableDonation(oracles, input) {
      assert errors.Keys == {};
    }
  }

  /** The currency field is only length-checked: any string of at most three
      characters passes, whether or not the rate service knows it. */
  lemma AnyShortCurrencyPasses(oracles: Oracles, input: Input, code: string)
    requires |code| <= 3
    ensures FailedRules(oracles, DonationRules["currency"], Some(Str(code))) == []
  {
    OptionalTextMeaning(oracles, map["currency" := Str(code)], "currency", 3);
  }
}
