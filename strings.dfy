/** The pieces of Python's `str` behaviour that the account-identifier tests
    rely on: character classes, slicing with clamped bounds, the constant
    `string.ascii_letters`, and the `'{0:04d}'.format(i)` rendering of a
    natural number (with its decimal reading, the inverse of that rendering). */
module Strings {

  datatype Option<T> = None | Some(value: T)

  /** A decimal digit as `\d` matches it in the tests: `'0'` to `'9'`. */
  predicate IsDigit(c: char) {
    '0' <= c <= '9'
  }

  predicate IsAsciiLetter(c: char) {
    ('a' <= c <= 'z') || ('A' <= c <= 'Z')
  }

  predicate AllDigits(s: string) {
    forall k :: 0 <= k < |s| ==> IsDigit(s[k])
  }

  predicate NoDigits(s: string) {
    forall k :: 0 <= k < |s| ==> !IsDigit(s[k])
  }

  /** The `k`-th lower-case and upper-case ASCII letters, for `k` in `0..25`. */
  function LowerLetter(k: int): char {
    if 0 <= k < 26 then ('a' as int + k) as char else 'a'
  }

  function UpperLetter(k: int): char {
    if 0 <= k < 26 then ('A' as int + k) as char else 'A'
  }

  /** `string.ascii_lowercase`, `'a'` to `'z'` in order. */
  function AsciiLowercase(): (r: string)
    ensures |r| == 26
  {
    seq(26, LowerLetter)
  }

  /** `string.ascii_uppercase`, `'A'` to `'Z'` in order. */
  function AsciiUppercase(): (r: string)
    ensures |r| == 26
  {
    seq(26, UpperLetter)
  }

  /** `string.ascii_letters`: the lower-case letters, then the upper-case ones. */
  const ASCII_LETTERS: string := AsciiLowercase() + AsciiUppercase()

  lemma AsciiLettersAreLetters()
    ensures |ASCII_LETTERS| == 52
    ensures ASCII_LETTERS[0] == 'a' && ASCII_LETTERS[25] == 'z'
    ensures ASCII_LETTERS[26] == 'A' && ASCII_LETTERS[51] == 'Z'
    ensures forall k :: 0 <= k < |ASCII_LETTERS| ==> IsAsciiLetter(ASCII_LETTERS[k])
    ensures ASCII_LETTERS == "abcdefghijklmnopqrstuvwxyzABCDEFGHIJKLMNOPQRSTUVWXYZ"
  {
    assert AsciiLowercase() == "abcdefghijklmnopqrstuvwxyz";
    assert AsciiUppercase() == "ABCDEFGHIJKLMNOPQRSTUVWXYZ";
  }

  /** How Python normalises one bound of `s[lo:hi]`: a negative bound counts
      from the end, and the result is clamped into `0..n`. */
  function SliceBound(i: int, n: nat): (b: nat)
    ensures b <= n
    ensures 0 <= i <= n ==> b == i
    ensures i > n ==> b == n
    ensures i < 0 && i + n >= 0 ==> b == i + n
    ensures i + n < 0 ==> b == 0
  {
    if i < 0 then (if i + n < 0 then 0 else i + n)
    else if i > n then n
    else i
  }

  /** Python's `s[lo:hi]` with step 1: never fails, and is empty when the
      normalised bounds cross. */
  function Slice(s: string, lo: int, hi: int): (r: string)
    ensures |r| <= |s|
    ensures 0 <= lo <= hi <= |s| ==> r == s[lo..hi]
    // with non-negative bounds, each is clamped to the length and crossed bounds give ""
    ensures 0 <= lo && 0 <= hi ==>
              r == (var a := if lo <= |s| then lo else |s|;
                    var b := if hi <= |s| then hi else |s|;
                    if a <= b then s[a..b] else [])
    ensures 0 <= lo && hi >= lo ==> |r| == (if hi <= |s| then hi else |s|) - (if lo <= |s| then lo else |s|)
    ensures forall k :: 0 <= k < |r| ==> r[k] in s
  {
    if SliceBound(lo, |s|) <= SliceBound(hi, |s|) then s[SliceBound(lo, |s|)..SliceBound(hi, |s|)] else []
  }

  function DigitChar(d: nat): (c: char)
    requires d < 10
    ensures IsDigit(c)
  {
    "0123456789"[d]
  }

  function DigitValue(c: char): (d: nat)
    requires IsDigit(c)
    ensures d < 10
  {
    (c as int - '0' as int) as nat
  }

  lemma DigitValueOfDigitChar(d: nat)
    requires d < 10
    ensures DigitValue(DigitChar(d)) == d
  {
  }

  function Pow10(k: nat): (p: nat)
    ensures p >= 1
  {
    if k == 0 then 1 else 10 * Pow10(k - 1)
  }

  /** The shortest decimal rendering of `n`, most significant digit first (`str(n)`). */
  function Decimal(n: nat): (r: string)
    decreases n
  {
    if n < 10 then [DigitChar(n)] else Decimal(n / 10) + [DigitChar(n % 10)]
  }

  /** `s` prefixed with `'0'` characters up to `width` (the `0` flag with a width). */
  function ZeroPad(s: string, width: nat): (r: string)
    ensures |r| == if |s| >= width then |s| else width
    ensures r[|r| - |s|..] == s
    ensures forall k :: 0 <= k < |r| - |s| ==> r[k] == '0'
  {
    if |s| >= width then s else seq(width - |s|, _ => '0') + s
  }

  /** `'{0:04d}'.format(n)` for a natural number `n`. */
  function Format04d(n: nat): string {
    ZeroPad(Decimal(n), 4)
  }

  /** Reads a string of decimal digits as a number (`int(s)` on digit strings). */
  function ParseDecimal(s: string): (n: nat)
    requires AllDigits(s)
  {
    if s == [] then 0 else 10 * ParseDecimal(s[..|s| - 1]) + DigitValue(s[|s| - 1])
  }

  lemma {:induction false} DecimalDigits(n: nat)
    ensures |Decimal(n)| >= 1
    ensures AllDigits(Decimal(n))
    decreases n
  {
    if n >= 10 {
      DecimalDigits(n / 10);
    }
  }

  lemma {:induction false} DecimalLength(n: nat, k: nat)
    requires 1 <= k && n < Pow10(k)
    ensures |Decimal(n)| <= k
    decreases k
  {
    if n >= 10 {
      assert k >= 2;
      DecimalLength(n / 10, k - 1);
    }
  }

  lemma {:induction false} ParseDecimalOfDecimal(n: nat)
    ensures AllDigits(Decimal(n))
    ensures ParseDecimal(Decimal(n)) == n
    decreases n
  {
    DecimalDigits(n);
    if n < 10 {
      DigitValueOfDigitChar(n);
    } else {
      var s := Decimal(n);
      ParseDecimalOfDecimal(n / 10);
      assert s[..|s| - 1] == Decimal(n / 10);
      DigitValueOfDigitChar(n % 10);
    }
  }

  /** Leading zeros do not change the value read. */
  lemma {:induction false} ParseDecimalLeadingZeros(z: nat, s: string)
    requires AllDigits(s)
    ensures AllDigits(seq(z, _ => '0') + s)
    ensures ParseDecimal(seq(z, _ => '0') + s) == ParseDecimal(s)
    decreases |s|
  {
    var t := seq(z, _ => '0') + s;
    assert forall k :: 0 <= k < |t| ==> IsDigit(t[k]) by {
      forall k | 0 <= k < |t| ensures IsDigit(t[k]) {
        if k < z { assert t[k] == '0'; } else { assert t[k] == s[k - z]; }
      }
    }
    if s == [] {
      ParseZeros(z);
      assert t == seq(z, _ => '0');
    } else {
      var init := s[..|s| - 1];
      ParseDecimalLeadingZeros(z, init);
      assert t[..|t| - 1] == seq(z, _ => '0') + init;
    }
  }

  lemma {:induction false} ParseZeros(z: nat)
    ensures AllDigits(seq(z, _ => '0'))
    ensures ParseDecimal(seq(z, _ => '0')) == 0
    decreases z
  {
    if z > 0 {
      ParseZeros(z - 1);
      assert seq(z, _ => '0')[..z - 1] == seq(z - 1, _ => '0');
    }
  }

  /** What the tests need of `'{0:04d}'.format(i)`: only digits, exactly four
      of them below 10000, and it reads back as `i` (so distinct numbers give
      distinct strings). */
  lemma Format04dProperties(n: nat)
    ensures AllDigits(Format04d(n))
    ensures |Format04d(n)| >= 4
    ensures n < 10000 ==> |Format04d(n)| == 4
    ensures ParseDecimal(Format04d(n)) == n
  {
    var d := Decimal(n);
    ParseDecimalOfDecimal(n);
    if n < 10000 {
      assert Pow10(2) == 100 by { assert Pow10(1) == 10; }
      assert Pow10(4) == 10000 by { assert Pow10(3) == 1000; }
      DecimalLength(n, 4);
    }
    if |d| < 4 {
      ParseDecimalLeadingZeros(4 - |d|, d);
    }
  }

  lemma Format04dInjective(m: nat, n: nat)
    ensures Format04d(m) == Format04d(n) ==> m == n
  {
    Format04dProperties(m);
    Format04dProperties(n);
  }
}
