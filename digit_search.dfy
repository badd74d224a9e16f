/** `re.search(r"\d{4}", s)`: the leftmost position at which four decimal
    digits follow one another, or no match. Only this one pattern is modelled,
    as a scan over start positions, the way a backtracking matcher tries them. */
module DigitSearch {
  import opened Strings

  /** The `{4}` of the pattern. */
  const RUN_LENGTH: nat := 4

  /** `\d{4}` matches `s` at position `i`. */
  predicate RunAt(s: string, i: int) {
    0 <= i && i + RUN_LENGTH <= |s| && forall k :: i <= k < i + RUN_LENGTH ==> IsDigit(s[k])
  }

  /** The specification of a successful search: some position matches. */
  ghost predicate HasDigitRun(s: string) {
    exists i :: RunAt(s, i)
  }

  /** Tries the start positions `i`, `i + 1`, ... in order and stops at the first match. */
  function SearchFrom(s: string, i: nat): (r: Option<nat>)
    requires i <= |s|
    ensures r.Some? ==> i <= r.value && RunAt(s, r.value)
    ensures r.Some? ==> forall j :: i <= j < r.value ==> !RunAt(s, j)
    ensures r.None? ==> forall j :: i <= j ==> !RunAt(s, j)
    decreases |s| - i
  {
    if i + RUN_LENGTH > |s| then None
    else if RunAt(s, i) then Some(i)
    else SearchFrom(s, i + 1)
  }

  /** `re.search(r"\d{4}", s)`, reduced to the start of the match. */
  function Search(s: string): (r: Option<nat>)
    ensures r.Some? ==> RunAt(s, r.value) && forall j :: 0 <= j < r.value ==> !RunAt(s, j)
    ensures r.None? ==> forall j :: !RunAt(s, j)
  {
    SearchFrom(s, 0)
  }

  /** `bool(re.search(r"\d{4}", s))` holds exactly when `s` has four consecutive digits. */
  lemma SearchFindsExactlyDigitRuns(s: string)
    ensures Search(s).Some? <==> HasDigitRun(s)
  {
    if HasDigitRun(s) {
      var i :| RunAt(s, i);
    }
  }

  /** A string of at least four characters, all digits, always matches, at position 0. */
  lemma {:induction false} AllDigitsMatches(s: string)
    requires AllDigits(s) && |s| >= RUN_LENGTH
    ensures Search(s) == Some(0)
  {
    assert RunAt(s, 0);
  }

  /** A string with no digit never matches. */
  lemma NoDigitsNeverMatches(s: string)
    requires NoDigits(s)
    ensures Search(s) == None
    ensures !HasDigitRun(s)
  {
    forall j ensures !RunAt(s, j) {
      if 0 <= j < |s| {
        assert !IsDigit(s[j]);
      }
    }
  }

  /** A string shorter than the pattern never matches, whatever it holds. */
  lemma ShortNeverMatches(s: string)
    requires |s| < RUN_LENGTH
    ensures Search(s) == None
  {
  }
}
