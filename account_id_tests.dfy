/** The rules and scenarios of tests/test_account_id.py, restated as lemmas
    about the model: the default-rule allocation, non-string candidates, the
    custom four-digit rule with its two enumerations, and the three rules
    whose shape or return type is checked. */
module AccountIdScenarios {
  import opened Strings
  import opened DigitSearch
  import opened AccountIds

  /** The PIN number every scenario uses. */
  const PIN: PinNumber := PinNumber("0000-0001")

  /** `CustomAccountRule.validate`: `bool(re.search(r"\d{4}", s))`. */
  function CustomAccountRuleValidate(s: string): (r: Output)
    ensures r.BoolOut?
    ensures r.verdict <==> HasDigitRun(s)
  {
    SearchFindsExactlyDigitRuns(s);
    BoolOut(Search(s).Some?)
  }

  /** `GoodRule.validate`: accepts every candidate with a genuine `True`. */
  function GoodRuleValidate(s: string): Output {
    BoolOut(true)
  }

  /** `InvalidReturnRule.validate`: returns the string `"True"`, which is
      truthy but not a boolean. */
  function InvalidReturnRuleValidate(s: string): Output {
    NonBoolOut(true)
  }

  const CUSTOM_ACCOUNT_RULE: ValidationRule := Rule(CustomAccountRuleValidate)
  const GOOD_RULE: ValidationRule := Rule(GoodRuleValidate)
  const INVALID_RETURN_RULE: ValidationRule := Rule(InvalidReturnRuleValidate)
  /** `NotRule`: an object with no `validate` at all. */
  const NOT_RULE: ValidationRule := NotARule

  /** The custom rule accepts a candidate exactly when `\d{4}` occurs in it,
      and so construction succeeds exactly then. */
  lemma CustomRuleAcceptsExactlyDigitRuns(s: string)
    ensures CustomAccountRuleValidate(s) == BoolOut(true) <==> HasDigitRun(s)
    ensures New(PIN, Str(s), CUSTOM_ACCOUNT_RULE).Ok? <==> HasDigitRun(s)
    ensures !HasDigitRun(s) ==> New(PIN, Str(s), CUSTOM_ACCOUNT_RULE) == Err(InvalidAccountId)
  {
  }

  /** `test_allocate_account_id`: the default rule is not part of this model;
      the one thing known of it is that it accepts `"IML"`, taken here as the
      hypothesis on `default`. */
  lemma AllocateAccountId(default: ValidationRule)
    requires default.Rule? && default.validate("IML") == BoolOut(true)
    ensures New(PIN, Str("IML"), default).Ok?
    ensures New(PIN, Str("IML"), default).value.pinNumber == "0000-0001"
    ensures New(PIN, Str("IML"), default).value.accountId == "IML"
    ensures New(PIN, Str("IML"), default).value.Items() == ("0000-0001", "IML")
  {
  }

  /** `test_default_exception`: every non-string candidate fails with
      `InvalidAccountId`, under whatever rule, the default one included. */
  lemma DefaultException(kind: PyKind, rule: ValidationRule)
    ensures New(PIN, NonString(kind), rule) == Err(InvalidAccountId)
  {
    NonStringIgnoresRule(PIN, kind, rule, rule);
  }

  /** One entry of `valid_id_list`: `'{0:04d}'.format(i)` is made of digits
      only and has at least four of them, so the custom rule matches at
      position 0 and construction succeeds with that string as the id. */
  lemma {:induction false} CustomRuleAcceptsPaddedNumber(i: nat)
    ensures Search(Format04d(i)) == Some(0)
    ensures New(PIN, Str(Format04d(i)), CUSTOM_ACCOUNT_RULE) == Ok(AccountId("0000-0001", Format04d(i)))
  {
    Format04dProperties(i);
    AllDigitsMatches(Format04d(i));
  }

  /** The first loop of `test_custom_validation_rule`: all 10000 candidates
      `"0000"` to `"9999"` are four characters long, pairwise distinct, and accepted. */
  lemma ValidIdList()
    ensures forall i :: 0 <= i < 10000 ==> |Format04d(i)| == 4
    ensures forall i, j :: 0 <= i < j < 10000 ==> Format04d(i) != Format04d(j)
    ensures forall i :: 0 <= i < 10000 ==> New(PIN, Str(Format04d(i)), CUSTOM_ACCOUNT_RULE).Ok?
  {
    forall i | 0 <= i < 10000
      ensures |Format04d(i)| == 4
      ensures New(PIN, Str(Format04d(i)), CUSTOM_ACCOUNT_RULE).Ok?
    {
      Format04dProperties(i);
      CustomRuleAcceptsPaddedNumber(i);
    }
    forall i, j | 0 <= i < j < 10000
      ensures Format04d(i) != Format04d(j)
    {
      Format04dInjective(i, j);
    }
  }

  /** `ascii_letters[idx: idx + 4]`, the candidates of the second loop. */
  function LetterCandidate(idx: int): string {
    Slice(ASCII_LETTERS, idx, idx + 4)
  }

  /** One candidate of the second loop: `ascii_letters[idx:idx + 4]` has
      `min(4, 52 - idx)` characters, all letters, so it holds no digit run and
      construction fails with `InvalidAccountId`. */
  lemma {:induction false} CustomRuleRejectsLetterSlice(idx: nat)
    requires idx < |ASCII_LETTERS|
    ensures |LetterCandidate(idx)| == if idx + 4 <= 52 then 4 else 52 - idx
    ensures forall k :: 0 <= k < |LetterCandidate(idx)| ==> IsAsciiLetter(LetterCandidate(idx)[k])
    ensures NoDigits(LetterCandidate(idx))
    ensures New(PIN, Str(LetterCandidate(idx)), CUSTOM_ACCOUNT_RULE) == Err(InvalidAccountId)
  {
    AsciiLettersAreLetters();
    var t := LetterCandidate(idx);
    forall k | 0 <= k < |t| ensures !IsDigit(t[k]) {
      var j :| 0 <= j < |ASCII_LETTERS| && ASCII_LETTERS[j] == t[k];
      assert IsAsciiLetter(ASCII_LETTERS[j]);
    }
    NoDigitsNeverMatches(t);
  }

  /** The first slice and the three that run past the end of `ascii_letters`. */
  lemma LetterCandidateEnds()
    ensures LetterCandidate(0) == "abcd"
    ensures LetterCandidate(48) == "WXYZ"
    ensures LetterCandidate(49) == "XYZ"
    ensures LetterCandidate(50) == "YZ"
    ensures LetterCandidate(51) == "Z"
  {
    AsciiLettersAreLetters();
    var letters := "abcdefghijklmnopqrstuvwxyzABCDEFGHIJKLMNOPQRSTUVWXYZ";
    assert LetterCandidate(0) == letters[0..4];
    assert LetterCandidate(48) == letters[48..52];
    assert LetterCandidate(49) == letters[49..52];
    assert LetterCandidate(50) == letters[50..52];
    assert LetterCandidate(51) == letters[51..52];
  }

  /** The second loop of `test_custom_validation_rule`, over every `idx` in
      `range(len(ascii_letters))`. */
  lemma LetterSlicesRejected()
    ensures forall idx :: 0 <= idx < |ASCII_LETTERS| ==>
      New(PIN, Str(LetterCandidate(idx)), CUSTOM_ACCOUNT_RULE) == Err(InvalidAccountId)
  {
    forall idx | 0 <= idx < |ASCII_LETTERS|
      ensures New(PIN, Str(LetterCandidate(idx)), CUSTOM_ACCOUNT_RULE) == Err(InvalidAccountId)
    {
      CustomRuleRejectsLetterSlice(idx);
    }
  }

  /** `test_invalid_validation_rule_exception` on the candidate `"something"`:
      `GoodRule` gives a value and no `InvalidValidationRule`; `InvalidReturnRule`
      and `NotRule` give `InvalidValidationRule`. */
  lemma InvalidValidationRuleException()
    ensures New(PIN, Str("something"), GOOD_RULE) == Ok(AccountId("0000-0001", "something"))
    ensures New(PIN, Str("something"), INVALID_RETURN_RULE) == Err(InvalidValidationRule)
    ensures New(PIN, Str("something"), NOT_RULE) == Err(InvalidValidationRule)
  {
  }

  /** `NotRule` is refused for every string candidate, and `InvalidReturnRule`
      too, however it would have judged the candidate. */
  lemma DefectiveRulesAlwaysRefused(s: string)
    ensures New(PIN, Str(s), NOT_RULE) == Err(InvalidValidationRule)
    ensures New(PIN, Str(s), INVALID_RETURN_RULE) == Err(InvalidValidationRule)
    ensures New(PIN, Str(s), GOOD_RULE) == Ok(AccountId("0000-0001", s))
  {
  }
}
