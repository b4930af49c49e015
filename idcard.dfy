/**
 * The `idCard` check registered with the evaluator: upper-case the input,
 * then check the format, the region code and the ISO 7064 MOD 11-2 check
 * character (as used by GB 11643-1999), reporting the first failure.
 */
module IdCard {
  import opened Wrappers

  const FormatError: string := "idCard format error"
  const AddressError: string := "idCard address code error"
  const VerifyError: string := "idCard verify bit error"

  // ---------------------------------------------------------------------
  // Characters
  // ---------------------------------------------------------------------

  /** `\d` of a JavaScript regular expression: an ASCII digit. */
  predicate IsDigit(c: char)
  {
    '0' <= c <= '9'
  }

  function DigitValue(c: char): (d: nat)
    requires IsDigit(c)
    ensures d <= 9
  {
    (c as int) - ('0' as int)
  }

  /** `toUpperCase` on one character, for the ASCII letters. */
  function UpperChar(c: char): (u: char)
    ensures 'a' <= c <= 'z' ==> 'A' <= u <= 'Z' && (u as int) == (c as int) - 32
    ensures !('a' <= c <= 'z') ==> u == c
  {
    if 'a' <= c <= 'z' then ((c as int) - 32) as char else c
  }

  /** `toUpperCase` on a string, character by character. */
  function ToUpper(s: string): (u: string)
    ensures |u| == |s|
    ensures forall i :: 0 <= i < |s| ==> u[i] == UpperChar(s[i])
  {
    seq(|s|, i requires 0 <= i < |s| => UpperChar(s[i]))
  }

  // ---------------------------------------------------------------------
  // The format: ^\d{6}(18|19|20)?\d{2}(0[1-9]|1[012])(0[1-9]|[12]\d|3[01])\d{3}(\d|X)$  (flag i)
  // ---------------------------------------------------------------------

  predicate DigitsAt(u: string, from: nat, to: nat)
    requires from <= to <= |u|
  {
    forall i :: from <= i < to ==> IsDigit(u[i])
  }

  /** `(18|19|20)` at positions `i` and `i + 1`. */
  predicate CenturyAt(u: string, i: nat)
    requires i + 1 < |u|
  {
    (u[i] == '1' && (u[i + 1] == '8' || u[i + 1] == '9')) || (u[i] == '2' && u[i + 1] == '0')
  }

  /** `(0[1-9]|1[012])` at positions `i` and `i + 1`. */
  predicate MonthAt(u: string, i: nat)
    requires i + 1 < |u|
  {
    (u[i] == '0' && '1' <= u[i + 1] <= '9') || (u[i] == '1' && '0' <= u[i + 1] <= '2')
  }

  /** `(0[1-9]|[12]\d|3[01])` at positions `i` and `i + 1`. */
  predicate DayAt(u: string, i: nat)
    requires i + 1 < |u|
  {
    || (u[i] == '0' && '1' <= u[i + 1] <= '9')
    || ((u[i] == '1' || u[i] == '2') && IsDigit(u[i + 1]))
    || (u[i] == '3' && (u[i + 1] == '0' || u[i + 1] == '1'))
  }

  /** `(\d|X)` at position `i`; the `i` flag also lets `x` through. */
  predicate CheckCharAt(u: string, i: nat)
    requires i < |u|
  {
    IsDigit(u[i]) || u[i] == 'X' || u[i] == 'x'
  }

  /** The pattern without the century group: exactly 16 characters. */
  predicate ShortFormat(u: string)
  {
    && |u| == 16
    && DigitsAt(u, 0, 8)
    && MonthAt(u, 8)
    && DayAt(u, 10)
    && DigitsAt(u, 12, 15)
    && CheckCharAt(u, 15)
  }

  /** The pattern with the century group: exactly 18 characters. */
  predicate LongFormat(u: string)
  {
    && |u| == 18
    && DigitsAt(u, 0, 6)
    && CenturyAt(u, 6)
    && DigitsAt(u, 8, 10)
    && MonthAt(u, 10)
    && DayAt(u, 12)
    && DigitsAt(u, 14, 17)
    && CheckCharAt(u, 17)
  }

  /** The regular expression of the format check matches `u`. */
  predicate FormatOk(u: string)
  {
    ShortFormat(u) || LongFormat(u)
  }

  // ---------------------------------------------------------------------
  // The region
  // ---------------------------------------------------------------------

  /** The keys of the `city` table: the province-level region codes. */
  const CityCodes: set<nat> := {
    11, 12, 13, 14, 15, 21, 22, 23, 31, 32, 33, 34, 35, 36, 37,
    41, 42, 43, 44, 45, 46, 50, 51, 52, 53, 54, 61, 62, 63, 64, 65,
    71, 81, 82, 91
  }

  /** `city[u.substr(0, 2)]` is defined: the first two characters spell a key of `city`. */
  predicate RegionOk(u: string)
  {
    |u| >= 2 && IsDigit(u[0]) && IsDigit(u[1]) && 10 * DigitValue(u[0]) + DigitValue(u[1]) in CityCodes
  }

  // ---------------------------------------------------------------------
  // The check character
  // ---------------------------------------------------------------------

  /** The weights of the first 17 digits. */
  const Factor: seq<nat> := [7, 9, 10, 5, 8, 4, 2, 1, 6, 3, 7, 9, 10, 5, 8, 4, 2]

  /** The check character for each residue of the weighted sum modulo 11. */
  const Parity: seq<char> := ['1', '0', 'X', '9', '8', '7', '6', '5', '4', '3', '2']

  /** The weighted sum of the first `n` digits of `u`. */
  function WeightedSum(u: string, n: nat): nat
    requires n <= 17 && n <= |u| && DigitsAt(u, 0, n)
  {
    if n == 0 then 0 else WeightedSum(u, n - 1) + DigitValue(u[n - 1]) * Factor[n - 1]
  }

  /** An 18-character identifier whose last character is the check character of its first 17 digits. */
  predicate CheckDigitOk(u: string)
  {
    |u| == 18 && DigitsAt(u, 0, 17) && Parity[WeightedSum(u, 17) % 11] == u[17]
  }

  /** The check passes `raw`: all three steps succeed on its upper-cased form. */
  predicate Accepts(raw: string)
  {
    var u := ToUpper(raw);
    FormatOk(u) && RegionOk(u) && CheckDigitOk(u)
  }

  // ---------------------------------------------------------------------
  // The check
  // ---------------------------------------------------------------------

  /**
   * The `idCard` rule: `None` when the identifier passes, otherwise the
   * message of the first step that fails. A format-valid 16-character
   * input reads past its end in the checksum loop, which makes the sum
   * NaN (the flag `nan`), so it always fails the check character.
   */
  method CheckIdCard(raw: string) returns (err: Option<string>)
    ensures var u := ToUpper(raw);
            && (err == Some(FormatError) <==> !FormatOk(u))
            && (err == Some(AddressError) <==> FormatOk(u) && !RegionOk(u))
            && (err == Some(VerifyError) <==> FormatOk(u) && RegionOk(u) && !CheckDigitOk(u))
            && (err == None <==> Accepts(raw))
  {
    var code := ToUpper(raw);
    if |code| == 0 || !FormatOk(code) {
      return Some(FormatError);
    }
    if !RegionOk(code) {
      return Some(AddressError);
    }
    var sum := 0;
    var nan := false;
    for i := 0 to 17
      invariant nan <==> !(i <= |code| && DigitsAt(code, 0, i))
      invariant !nan ==> sum == WeightedSum(code, i)
    {
      if i < |code| && IsDigit(code[i]) {
        sum := sum + DigitValue(code[i]) * Factor[i];
      } else {
        nan := true;
      }
    }
    // codeArray[17] is undefined past the end, and parity[NaN] + '' is "undefined".
    var last: Option<char> := if 17 < |code| then Some(code[17]) else None;
    if nan || last != Some(Parity[sum % 11]) {
      return Some(VerifyError);
    }
    return None;
  }
}
