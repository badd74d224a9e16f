# AccountId validation model (simple-atm-controller)

This project models how the ATM controller builds an `AccountId`. An
`AccountId` is an immutable value that binds an account identifier to a PIN
number. The constructor takes a PIN number, a raw candidate and a pluggable
`AccountIdValidationRule`, and there are three possible outcomes:

- the frozen value `(pin_number, account_id, items)`;
- `InvalidAccountId`, when the candidate is not a string or the rule answers `False`;
- `InvalidValidationRule`, when the rule has no `validate` or its `validate` returns something that is not a boolean.

The model also covers the rules that `tests/test_account_id.py` defines. The
main one is `CustomAccountRule`, whose `validate` is
`bool(re.search(r"\d{4}", s))`. The model proves every scenario those tests
run, as lemmas over all inputs.

Modules:

- `Strings` (strings.dfy): the parts of Python `str` the scenarios use.
  - Digit and letter character classes.
  - `s[lo:hi]` slicing, with Python's bound normalisation.
  - `string.ascii_letters`.
  - `'{0:04d}'.format(n)`, together with the decimal reading that inverts it.
- `DigitSearch` (digit_search.dfy): `re.search(r"\d{4}", s)` as a leftmost scan over start positions, proved equal to "some position starts four consecutive digits".
- `AccountIds` (account_id.dfy): the data model and the constructor `New`. The data model covers the candidate, the rule, the rule's output, the two errors, the PIN number and the value.
- `AccountIdScenarios` (account_id_tests.dfy): the test rules `CustomAccountRule`, `GoodRule`, `InvalidReturnRule` and `NotRule`, and each test case as a lemma.

The constructor checks its inputs in this order, stopping at the first failure:

1. type-check the candidate;
2. check that the rule offers `validate`;
3. check that `validate`'s result is a genuine boolean;
4. check that the boolean is true.

So a non-string candidate is refused before the rule is looked at. The tests
do not pin this order down; it is the model's choice. The value's `items` is
a member function `Items()` of the immutable datatype. What the tests see of it is unchanged: a pair equal to
`(pin_number, account_id)`.

## Model

| member | source | states |
|---|---|---|
| `AccountIds.New` | tests/test_account_id.py:13-78 | Construction succeeds exactly when the candidate is a string and the rule's `validate` returns the boolean `True`; the value then holds the PIN's string form and the candidate, and `items` is that pair. It fails with `InvalidAccountId` exactly when the candidate is not a string or `validate` returns `False`, and with `InvalidValidationRule` exactly when the candidate is a string and the rule has no `validate` or returns a non-boolean |
| `AccountIds.NonStringIgnoresRule` | tests/test_account_id.py:19-30 | A non-string candidate gives `InvalidAccountId` under every rule, defective ones included, so the outcome does not depend on the rule |
| `AccountIds.OnlyTheRulesAnswerMatters` | tests/test_account_id.py:73-78 | Two rules that give the same answer on the candidate lead to the same outcome: the rule is consulted once, on the candidate alone |
| `AccountIds.TruthyIsNotTrue` | tests/test_account_id.py:60-62 | A truthy non-boolean answer is not taken as acceptance; it gives `InvalidValidationRule` |
| `AccountIds.OutcomesArePartition` | tests/test_account_id.py:73-78 | Every construction ends in exactly one of value, `InvalidAccountId` or `InvalidValidationRule`, and which one does not depend on the PIN |
| `AccountIds.ValueDeterminesInputs` | tests/test_account_id.py:15-17 | Two successful constructions with the same PIN and rule give equal values only for equal candidates, and `items[0]` is the PIN's string |
| `DigitSearch.SearchFrom` | tests/test_account_id.py:37 | The scan returns the first start position at or after `i` where four digits follow one another, or none when no such position exists |
| `DigitSearch.Search` | tests/test_account_id.py:37 | `re.search(r"\d{4}", s)` returns the leftmost match position, with no match before it, or no match when no position matches |
| `DigitSearch.SearchFindsExactlyDigitRuns` | tests/test_account_id.py:37 | The search succeeds if and only if the string contains four consecutive decimal digits |
| `DigitSearch.AllDigitsMatches` | tests/test_account_id.py:36-37 | A string of four or more characters that are all digits matches at position 0 |
| `DigitSearch.NoDigitsNeverMatches` | tests/test_account_id.py:37 | A string with no digit never matches, and it has no run of four digits |
| `DigitSearch.ShortNeverMatches` | tests/test_account_id.py:37 | A string shorter than four characters never matches |
| `Strings.AsciiLettersAreLetters` | tests/test_account_id.py:2 | `ascii_letters` is exactly the 52-character string `a` to `z` followed by `A` to `Z`, and each of its characters is an ASCII letter |
| `Strings.Slice` | tests/test_account_id.py:47 | `s[lo:hi]` never fails. With non-negative bounds it is `s` between the two bounds after each is clamped to the length, and empty when they cross; so it equals `s[lo..hi]` inside the string and stops at the end past it. Every character it holds comes from `s` |
| `Strings.ZeroPad` | tests/test_account_id.py:39 | Padding gives `max(width, len(s))` characters: `s` at the end and `0` before it |
| `Strings.Format04dProperties` | tests/test_account_id.py:39 | `'{0:04d}'.format(n)` consists of digits only and has at least four of them, exactly four when `n < 10000`, and reads back as `n` |
| `Strings.Format04dInjective` | tests/test_account_id.py:39 | Different numbers format to different strings |
| `AccountIdScenarios.CustomAccountRuleValidate` | tests/test_account_id.py:34-37 | `CustomAccountRule.validate` returns a genuine boolean, and that boolean is true exactly when the candidate contains four consecutive digits |
| `AccountIdScenarios.CustomRuleAcceptsExactlyDigitRuns` | tests/test_account_id.py:35-41 | Under the custom rule, construction succeeds if and only if the candidate contains a four-digit run, and otherwise fails with `InvalidAccountId` |
| `AccountIdScenarios.AllocateAccountId` | tests/test_account_id.py:13-17 | Given a default rule that accepts `"IML"`, PIN `"0000-0001"` and candidate `"IML"` give a value whose `pin_number` is `"0000-0001"`, whose `account_id` is `"IML"` and whose `items` is `("0000-0001", "IML")` |
| `AccountIdScenarios.DefaultException` | tests/test_account_id.py:19-30 | Every non-string candidate (int, float, list, tuple, set, dict or any other object) makes construction fail with `InvalidAccountId` |
| `AccountIdScenarios.CustomRuleAcceptsPaddedNumber` | tests/test_account_id.py:39-41 | For every natural `i`, the custom rule matches `'{0:04d}'.format(i)` at position 0, and construction gives the value holding that string |
| `AccountIdScenarios.ValidIdList` | tests/test_account_id.py:39-41 | For `i` from 0 to 9999, the 10000 candidates `"0000"` to `"9999"` have four characters each and are pairwise distinct, and each one is accepted |
| `AccountIdScenarios.CustomRuleRejectsLetterSlice` | tests/test_account_id.py:43-52 | For `0 <= idx < 52`, `ascii_letters[idx:idx+4]` has `min(4, 52 - idx)` characters, all of them ASCII letters and none a digit, and construction fails with `InvalidAccountId` |
| `AccountIdScenarios.LetterCandidateEnds` | tests/test_account_id.py:43-47 | The first slice is `"abcd"`, and the slices at indices 48 to 51 are `"WXYZ"`, `"XYZ"`, `"YZ"` and `"Z"`, cut short at the end of the string |
| `AccountIdScenarios.LetterSlicesRejected` | tests/test_account_id.py:43-52 | Every one of the 52 letter slices is rejected with `InvalidAccountId` |
| `AccountIdScenarios.InvalidValidationRuleException` | tests/test_account_id.py:54-78 | On `"something"`, `GoodRule` gives a value and no `InvalidValidationRule`, while `InvalidReturnRule` and `NotRule` each give `InvalidValidationRule` |
| `AccountIdScenarios.DefectiveRulesAlwaysRefused` | tests/test_account_id.py:56-70 | For every string candidate, `NotRule` and `InvalidReturnRule` give `InvalidValidationRule` and `GoodRule` gives the value |

## Left out

- The implementation of `AccountId` and `AccountIdValidationRule` (simple_atm_controller/account_id.py) is not part of this model. The constructor follows what the tests assert. The order of its checks is the model's own choice, because the tests do not fix it: a non-string candidate is refused before the rule is consulted.
- The default rule's actual format is left out, because nothing shown defines it. The only fact known about it is that it accepts `"IML"`, and `AllocateAccountId` takes that as a hypothesis on the rule it is given.
- `PinNumber` parsing and formatting (simple_atm_controller/pin_number.py) is left out. A PIN is reduced to its string form.
- Regular expressions in general are left out. Only the search for `\d{4}` is modelled.
- `DigitSearch.Search`: `\d` is modelled as the ASCII digits `0` to `9`. Python 3's `\d` on `str` also matches the other Unicode decimal digits (category Nd). The tests use only ASCII characters.
- Python's dynamic typing is reduced to a few variants:
  - a non-string candidate becomes a single `NonString` variant that carries its kind;
  - an object without `validate` becomes `NotARule`;
  - a non-boolean return becomes `NonBoolOut`, which records only whether the value is truthy.
  - Float values, and the contents of the lists, sets and dicts, play no part.
- A `validate` that raises an exception, or that is called with something other than a string, is not modelled. The constructor calls the rule only on string candidates.
- `Strings.Format04dProperties` covers natural numbers only. Python renders a negative number with a sign (`'{0:04d}'.format(-5)` is `'-005'`), and the tests format only `range(10000)`.
- `Strings.Slice` models only step 1. Python slices with other steps are not used.
- The `unittest` harness is not modelled: `setUp`, the try/`assertTrue(False)` pattern and `unittest.main`. Each test case is stated as a lemma instead.
