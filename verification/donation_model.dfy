/** The Donation model (app/Models/Donation.php): the mass-assignment
    whitelist and the `decimal:2` cast on the amount. */
module DonationModel {
  import opened Request
  import opened Decimal
  import opened Validation

  /** The model's `$fillable` list. */
  const FillableKeys: set<string> := {"donor_name", "donor_email", "amount", "currency", "message"}

  /** A stored donation row: the identifier and creation time the database
      assigns, and the attributes mass assignment let through. */
  datatype Donation = Donation(id: nat, createdAt: int, attributes: Input)

  /** Mass assignment: only whitelisted keys of the input are kept, with the values submitted. */
  function Fillable(input: Input): (attrs: Input)
    ensures attrs.Keys == input.Keys * FillableKeys
    ensures forall k :: k in attrs ==> attrs[k] == input[k]
  {
    map k | k in input && k in FillableKeys :: input[k]
  }

  /** Keys outside the whitelist, such as `id`, `created_at` or `is_admin`, never reach a row. */
  lemma UnlistedKeysDropped(input: Input)
    ensures "id" !in Fillable(input) && "created_at" !in Fillable(input) && "is_admin" !in Fillable(input)
    ensures forall k :: k in input && k !in FillableKeys ==> k !in Fillable(input)
  {
  }

  /** Filtering twice keeps what filtering once kept. */
  lemma FillableIdempotent(input: Input)
    ensures Fillable(Fillable(input)) == Fillable(input)
  {
  }

  /** The donation rules read only whitelisted fields, so the validator's verdict
      on the whole input is its verdict on what is stored. */
  lemma RulesSeeOnlyFillable(oracles: Oracles, input: Input)
    ensures Validate(oracles, DonationRules, Fillable(input)) == Validate(oracles, DonationRules, input)
  {
    var stored := Fillable(input);
    assert DonationRules.Keys == FillableKeys;
    forall f | f in DonationRules ensures Get(stored, f) == Get(input, f) {
    }
    assert Validate(oracles, DonationRules, stored).Keys == Validate(oracles, DonationRules, input).Keys;
  }

  /** What reading the amount yields under the `decimal:2` cast: the submitted
      number rounded to two fractional digits, halves away from zero. None when
      the amount is absent or not numeric (the cast would throw). */
  function AmountOf(oracles: Oracles, d: Donation): (amount: Option<real>)
    ensures amount.Some? ==> HasTwoDecimals(amount.value)
    ensures amount.Some? ==> "amount" in d.attributes && NumericValue(oracles, d.attributes["amount"]).Some?
  {
    if "amount" !in d.attributes then None
    else match NumericValue(oracles, d.attributes["amount"])
      case Some(x) => Some(Round2(x))
      case None => None
  }

  /** A donation the rules accept reads back with an amount of at least one cent,
      held with exactly two fractional digits. */
  lemma AcceptedAmountIsWholeCents(oracles: Oracles, input: Input, id: nat, createdAt: int)
    requires AcceptableDonation(oracles, input)
    ensures var amount := AmountOf(oracles, Donation(id, createdAt, Fillable(input)));
      amount.Some? && amount.value >= 0.01 && HasTwoDecimals(amount.value)
      && amount.value == Round2(NumericValue(oracles, input["amount"]).value)
  {
    FloorOfWhole(1);
    assert HasTwoDecimals(0.01);
    Round2AtLeast(0.01, NumericValue(oracles, input["amount"]).value);
  }
}
