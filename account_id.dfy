/** The `AccountId` value object: an account identifier bound to a PIN number,
    built only from a candidate string that a pluggable validation rule
    accepts. Construction either yields the frozen value or fails with one of
    two distinct errors: `InvalidAccountId` for a bad candidate and
    `InvalidValidationRule` for a defective rule. */
module AccountIds {

  /** The Python types a non-string candidate can have (the tests pass an
      int, a float, a list, a tuple, a set and a dict); `OtherObject` stands
      for anything else that is not a `str`. */
  datatype PyKind = Int | Float | List | Tuple | Set | Dict | OtherObject

  /** The raw candidate handed to the constructor. */
  datatype Candidate = Str(text: string) | NonString(kind: PyKind)

  /** What a rule's `validate` returns: a genuine boolean, or some other
      value, which Python would still call truthy or falsy. */
  datatype Output = BoolOut(verdict: bool) | NonBoolOut(truthy: bool)

  /** The object passed as `rule`: either it offers `validate` (an
      `AccountIdValidationRule`, or anything with that method), or it does
      not. A rule is stateless, so `validate` is a function of the candidate. */
  datatype ValidationRule = NotARule | Rule(validate: string -> Output)

  datatype Error = InvalidAccountId | InvalidValidationRule

  datatype Result<T> = Ok(value: T) | Err(error: Error)

  /** The PIN-number collaborator, reduced to its string form. */
  datatype PinNumber = PinNumber(text: string) {
    function ToString(): string {
      text
    }
  }

  /** The frozen value: the PIN number as a string and the accepted candidate. */
  datatype AccountId = AccountId(pinNumber: string, accountId: string) {
    /** The read-only pair `(pin_number, account_id)`. */
    function Items(): (string, string) {
      (pinNumber, accountId)
    }
  }

  /** `AccountId(pin_number, candidate, rule)`. The checks run in this order,
      each one ending construction when it fails: the candidate must be a
      string; the rule must offer `validate`; `validate(candidate)` must return
      a boolean; that boolean must be true. */
  function New(pin: PinNumber, candidate: Candidate, rule: ValidationRule): (r: Result<AccountId>)
    // success exactly when a string candidate is accepted with a genuine `True`
    ensures r.Ok? <==> candidate.Str? && rule.Rule? && rule.validate(candidate.text) == BoolOut(true)
    ensures r.Ok? ==> r.value.pinNumber == pin.ToString() && r.value.accountId == candidate.text
    ensures r.Ok? ==> r.value.Items() == (pin.ToString(), candidate.text)
    // a bad candidate: not a string, or a string the rule answers `False` for
    ensures r == Err(InvalidAccountId) <==>
      candidate.NonString? || (rule.Rule? && rule.validate(candidate.text) == BoolOut(false))
    // a bad rule, seen only once the candidate is a string
    ensures r == Err(InvalidValidationRule) <==>
      candidate.Str? && (rule.NotARule? || rule.validate(candidate.text).NonBoolOut?)
  {
    match candidate
    case NonString(_) => Err(InvalidAccountId)
    case Str(s) =>
      match rule
      case NotARule => Err(InvalidValidationRule)
      case Rule(validate) =>
        match validate(s)
        case NonBoolOut(_) => Err(InvalidValidationRule)
        case BoolOut(accepted) =>
          if accepted then Ok(AccountId(pin.ToString(), s)) else Err(InvalidAccountId)
  }

  /** A non-string candidate is refused before the rule is looked at, so the
      outcome is `InvalidAccountId` whatever rule is supplied, even a defective one. */
  lemma NonStringIgnoresRule(pin: PinNumber, kind: PyKind, rule: ValidationRule, other: ValidationRule)
    ensures New(pin, NonString(kind), rule) == Err(InvalidAccountId)
    ensures New(pin, NonString(kind), rule) == New(pin, NonString(kind), other)
  {
  }

  /** The rule is consulted once, on the candidate only: two rules that give
      the same answer for it lead to the same outcome. */
  lemma OnlyTheRulesAnswerMatters(pin: PinNumber, s: string, rule: ValidationRule, other: ValidationRule)
    requires rule.Rule? && other.Rule? && rule.validate(s) == other.validate(s)
    ensures New(pin, Str(s), rule) == New(pin, Str(s), other)
  {
  }

  /** A truthy value that is not a boolean (the string `"True"`, say) is not
      taken as acceptance: it marks the rule as defective. */
  lemma TruthyIsNotTrue(pin: PinNumber, s: string, rule: ValidationRule)
    requires rule.Rule? && rule.validate(s) == NonBoolOut(true)
    ensures New(pin, Str(s), rule) == Err(InvalidValidationRule)
  {
  }

  /** The constructor has exactly three outcomes and they exclude each other:
      the value, a rejected candidate, a defective rule. Which one it is
      depends on the candidate and the rule only, never on the PIN. */
  lemma OutcomesArePartition(pin: PinNumber, other: PinNumber, c: Candidate, rule: ValidationRule)
    ensures New(pin, c, rule).Ok? || New(pin, c, rule) == Err(InvalidAccountId)
      || New(pin, c, rule) == Err(InvalidValidationRule)
    ensures New(pin, c, rule).Ok? <==> New(other, c, rule).Ok?
    ensures New(pin, c, rule).Err? ==> New(pin, c, rule) == New(other, c, rule)
  {
  }

  /** The value keeps what it was built from: a successful construction can
      be read back as its PIN string and its candidate. */
  lemma ValueDeterminesInputs(pin: PinNumber, s: string, t: string, rule: ValidationRule)
    requires New(pin, Str(s), rule).Ok? && New(pin, Str(t), rule).Ok?
    ensures New(pin, Str(s), rule) == New(pin, Str(t), rule) ==> s == t
    ensures New(pin, Str(s), rule).value.Items().0 == pin.text
  {
  }
}
