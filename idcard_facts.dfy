/**
 * What the `idCard` check accepts and rejects: worked examples, the
 * ISO 7064 MOD 11-2 reading of the check character, and the errors the
 * check character is guaranteed to catch.
 */
module IdCardFacts {
  import opened IdCard

  // ---------------------------------------------------------------------
  // Worked examples
  // ---------------------------------------------------------------------

  const Sample: string := "11010519491231002X"

  /** The weighted sum of the sample's first 17 digits is 167, which is 2 modulo 11. */
  lemma SampleSum()
    ensures WeightedSum(Sample, 17) == 167
  {
    var u := Sample;
    assert WeightedSum(u, 4) == 21;
    assert WeightedSum(u, 8) == 52;
    assert WeightedSum(u, 12) == 128;
    assert WeightedSum(u, 17) == 167;
  }

  /** Upper-casing leaves a string without lower-case ASCII letters unchanged. */
  lemma UpperKeeps(s: string)
    requires forall i :: 0 <= i < |s| ==> !('a' <= s[i] <= 'z')
    ensures ToUpper(s) == s
  {
  }

  /** Upper-casing commutes with replacing one character. */
  lemma UpperAfterUpdate(s: string, k: nat, c: char)
    requires k < |s|
    ensures ToUpper(s[k := c]) == ToUpper(s)[k := UpperChar(c)]
  {
  }

  lemma SampleFormat()
    ensures LongFormat(Sample) && RegionOk(Sample)
  {
  }

  /** The sample identifier passes. */
  lemma SampleAccepted()
    ensures Accepts(Sample)
  {
    UpperKeeps(Sample);
    SampleFormat();
    SampleSum();
  }

  /** The sample identifier passes with a lower-case check character too. */
  lemma LowerCaseSampleAccepted()
    ensures Accepts(Sample[17 := 'x'])
  {
    UpperAfterUpdate(Sample, 17, 'x');
    UpperKeeps(Sample);
    assert Sample[17 := 'X'] == Sample;
    SampleAccepted();
  }

  /** The first 17 digits of the sample leave `X` as the only check character. */
  lemma SampleDigitsForceX(u: string)
    requires |u| == 18 && forall j :: 0 <= j < 17 ==> u[j] == Sample[j]
    requires CheckDigitOk(u)
    ensures u[17] == 'X'
  {
    SameDigitsSameSum(u, Sample, 17);
    SampleSum();
  }

  /** Any other last character makes the sample fail. */
  lemma SampleWrongCheckCharRejected(c: char)
    requires c != 'X' && c != 'x'
    ensures !Accepts(Sample[17 := c])
  {
    var u := ToUpper(Sample[17 := c]);
    UpperAfterUpdate(Sample, 17, c);
    UpperKeeps(Sample);
    if CheckDigitOk(u) {
      SampleDigitsForceX(u);
    }
  }

  /** A wrong digit as last character passes the format and region checks and fails the check character. */
  lemma SampleWrongCheckDigitIsVerifyError(c: char)
    requires IsDigit(c)
    ensures var u := ToUpper(Sample[17 := c]); FormatOk(u) && RegionOk(u) && !CheckDigitOk(u)
  {
    UpperAfterUpdate(Sample, 17, c);
    UpperKeeps(Sample);
    SampleFormat();
    SampleWrongCheckCharRejected(c);
  }

  /** Any other last character that is neither a digit nor `X`/`x` already fails the format. */
  lemma SampleNonDigitLastCharIsFormatError(c: char)
    requires !IsDigit(c) && c != 'X' && c != 'x'
    ensures !FormatOk(ToUpper(Sample[17 := c]))
  {
    UpperAfterUpdate(Sample, 17, c);
    UpperKeeps(Sample);
  }

  /** Upper-casing twice is upper-casing once. */
  lemma UpperIdempotent(s: string)
    ensures ToUpper(ToUpper(s)) == ToUpper(s)
  {
  }

  /** The check does not depend on the case of its input. */
  lemma CaseInsensitive(raw: string)
    ensures Accepts(raw) <==> Accepts(ToUpper(raw))
  {
    UpperIdempotent(raw);
  }

  /** A lower-case `x` as check character is as good as an upper-case one. */
  lemma CheckCharCaseInsensitive(u: string)
    requires |u| == 18
    ensures Accepts(u[17 := 'x']) <==> Accepts(u[17 := 'X'])
  {
    UpperAfterUpdate(u, 17, 'x');
    UpperAfterUpdate(u, 17, 'X');
  }

  const UnknownRegion: string := "99010519491231002X"

  lemma UnknownRegionFormat()
    ensures LongFormat(UnknownRegion) && !RegionOk(UnknownRegion)
  {
  }

  /** An unknown region code is reported after the format passes. */
  lemma UnknownRegionExample()
    ensures var u := ToUpper(UnknownRegion); FormatOk(u) && !RegionOk(u)
  {
    UpperKeeps(UnknownRegion);
    UnknownRegionFormat();
  }

  /** A well-formed 16-character identifier reaches the checksum and fails it. */
  lemma ShortIdentifierExample()
    ensures var u := ToUpper("1101054912310021"); FormatOk(u) && RegionOk(u) && !CheckDigitOk(u)
  {
    assert ToUpper("1101054912310021") == "1101054912310021";
  }

  // ---------------------------------------------------------------------
  // ISO 7064 MOD 11-2
  // ---------------------------------------------------------------------

  /** The value of a check character: a digit, or 10 for `X`. */
  function CheckValue(c: char): (v: nat)
    requires IsDigit(c) || c == 'X'
    ensures v <= 10
    ensures c == 'X' <==> v == 10
  {
    if c == 'X' then 10 else DigitValue(c)
  }

  function Pow2(n: nat): (p: nat)
    ensures p >= 1
  {
    if n == 0 then 1 else 2 * Pow2(n - 1)
  }

  /** The weights are the powers of two modulo 11, the highest first. */
  lemma FactorsArePowersOfTwo()
    ensures forall i :: 0 <= i < 17 ==> Factor[i] == Pow2(17 - i) % 11
  {
    assert Pow2(1) == 2;
    assert Pow2(2) == 4;
    assert Pow2(3) == 8;
    assert Pow2(4) == 16;
    assert Pow2(5) == 32;
    assert Pow2(6) == 64;
    assert Pow2(7) == 128;
    assert Pow2(8) == 256;
    assert Pow2(9) == 512;
    assert Pow2(10) == 1024;
    assert Pow2(11) == 2048;
    assert Pow2(12) == 4096;
    assert Pow2(13) == 8192;
    assert Pow2(14) == 16384;
    assert Pow2(15) == 32768;
    assert Pow2(16) == 65536;
    assert Pow2(17) == 131072;
  }

  /** `Parity` picks the check value that brings the weighted sum to 1 modulo 11. */
  lemma ParityCompletesSum(s: nat, c: char)
    requires IsDigit(c) || c == 'X'
    ensures Parity[s % 11] == c <==> (s + CheckValue(c)) % 11 == 1
  {
    var r := s % 11;
    assert (s + CheckValue(c)) % 11 == (r + CheckValue(c)) % 11;
    if r == 0 { } else if r == 1 { } else if r == 2 { } else if r == 3 { }
    else if r == 4 { } else if r == 5 { } else if r == 6 { } else if r == 7 { }
    else if r == 8 { } else if r == 9 { } else { }
  }

  /**
   * The check character condition is ISO 7064 MOD 11-2: the weighted sum
   * of the 17 digits plus the value of the check character is 1 modulo 11.
   */
  lemma CheckDigitIsIso7064(u: string)
    requires |u| == 18 && DigitsAt(u, 0, 17) && (IsDigit(u[17]) || u[17] == 'X')
    ensures CheckDigitOk(u) <==> (WeightedSum(u, 17) + CheckValue(u[17])) % 11 == 1
  {
    ParityCompletesSum(WeightedSum(u, 17), u[17]);
  }

  // ---------------------------------------------------------------------
  // Errors the check character catches
  // ---------------------------------------------------------------------

  /** The weighted sums of two digit strings that differ only at position `k` differ by the two terms at `k`. */
  lemma {:induction false} WeightedSumDiffersAt(u: string, v: string, k: nat, n: nat)
    requires n <= 17 && n <= |u| && n <= |v| && DigitsAt(u, 0, n) && DigitsAt(v, 0, n)
    requires k < n
    requires forall j :: 0 <= j < n && j != k ==> u[j] == v[j]
    ensures WeightedSum(u, n) - WeightedSum(v, n) == DigitValue(u[k]) * Factor[k] - DigitValue(v[k]) * Factor[k]
    decreases n
  {
    if n - 1 == k {
      SameDigitsSameSum(u, v, k);
    } else {
      WeightedSumDiffersAt(u, v, k, n - 1);
      assert u[n - 1] == v[n - 1];
    }
  }

  /** Multiplication distributes over a difference. */
  lemma Distribute(a: int, b: int, f: int)
    ensures a * f - b * f == (a - b) * f
  {
  }

  lemma {:induction false} SameDigitsSameSum(u: string, v: string, n: nat)
    requires n <= 17 && n <= |u| && n <= |v| && DigitsAt(u, 0, n) && DigitsAt(v, 0, n)
    requires forall j :: 0 <= j < n ==> u[j] == v[j]
    ensures WeightedSum(u, n) == WeightedSum(v, n)
    decreases n
  {
    if n > 0 {
      SameDigitsSameSum(u, v, n - 1);
    }
  }

  /** `Parity` gives different characters to different residues. */
  lemma ParityInjective(a: nat, b: nat)
    requires a < 11 && b < 11 && Parity[a] == Parity[b]
    ensures a == b
  {
  }

  /** No weight times a non-zero digit difference is a multiple of 11. */
  lemma NoMultipleOfEleven(d: int, f: nat)
    requires -9 <= d <= 9 && d != 0
    requires 1 <= f <= 10
    ensures (d * f) % 11 != 0
  {
    if f == 1 { } else if f == 2 { } else if f == 3 { } else if f == 4 { }
    else if f == 5 { } else if f == 6 { } else if f == 7 { } else if f == 8 { }
    else if f == 9 { } else { assert f == 10; }
  }

  /**
   * Two sums with the same residue modulo 11 that differ by a weight times
   * a digit difference differ by nothing.
   */
  lemma SameResidueSameDigit(su: int, sv: int, d: int, f: nat)
    requires su % 11 == sv % 11
    requires su - sv == d * f
    requires -9 <= d <= 9 && 1 <= f <= 10
    ensures d == 0
  {
    assert su - sv == 11 * (su / 11 - sv / 11);
    if d != 0 {
      NoMultipleOfEleven(d, f);
    }
  }

  /** Two accepted identifiers that differ in at most one of their first 17 digits are the same. */
  lemma SingleSubstitutionDetected(u: string, v: string, k: nat)
    requires CheckDigitOk(u) && CheckDigitOk(v)
    requires k < 17
    requires forall j :: 0 <= j < 18 && j != k ==> u[j] == v[j]
    ensures u == v
  {
    var su, sv := WeightedSum(u, 17), WeightedSum(v, 17);
    WeightedSumDiffersAt(u, v, k, 17);
    Distribute(DigitValue(u[k]), DigitValue(v[k]), Factor[k]);
    ParityInjective(su % 11, sv % 11);
    SameResidueSameDigit(su, sv, DigitValue(u[k]) - DigitValue(v[k]), Factor[k]);
    assert u[k] == v[k];
  }

  /** Neighbouring weights differ by a non-zero amount of at most 5. */
  lemma NeighbourWeightsDiffer(k: nat)
    requires k + 1 < 17
    ensures var e := (Factor[k] as int) - Factor[k + 1]; -5 <= e <= 5 && e != 0
  {
  }

  /** No difference of neighbouring weights times a non-zero digit difference is a multiple of 11. */
  lemma NoMultipleOfElevenSmall(d: int, e: int)
    requires -9 <= d <= 9 && d != 0
    requires -5 <= e <= 5 && e != 0
    ensures (d * e) % 11 != 0
  {
    if e == 1 { } else if e == 2 { } else if e == 3 { } else if e == 4 { } else if e == 5 { }
    else if e == -1 { } else if e == -2 { } else if e == -3 { } else if e == -4 { } else { assert e == -5; }
  }

  /** Swapping two neighbouring digits changes the weighted sum by the digit difference times the weight difference. */
  lemma TranspositionSumDiff(u: string, v: string, k: nat)
    requires |u| == 18 && |v| == 18 && DigitsAt(u, 0, 17) && DigitsAt(v, 0, 17)
    requires k + 1 < 17
    requires u[k] == v[k + 1] && u[k + 1] == v[k]
    requires forall j :: 0 <= j < 18 && j != k && j != k + 1 ==> u[j] == v[j]
    ensures WeightedSum(u, 17) - WeightedSum(v, 17)
         == (DigitValue(u[k]) - DigitValue(v[k])) * ((Factor[k] as int) - Factor[k + 1])
  {
    var w := u[k := v[k]];
    WeightedSumDiffersAt(u, w, k, 17);
    WeightedSumDiffersAt(w, v, k + 1, 17);
    var d := DigitValue(u[k]) - DigitValue(v[k]);
    Distribute(DigitValue(u[k]), DigitValue(v[k]), Factor[k]);
    Distribute(DigitValue(v[k]), DigitValue(u[k]), Factor[k + 1]);
    assert d * Factor[k] - d * Factor[k + 1] == d * ((Factor[k] as int) - Factor[k + 1]);
  }

  /** Two sums with the same residue modulo 11 that differ by a weight difference times a digit difference are equal. */
  lemma SameResidueSameSwap(su: int, sv: int, d: int, e: int)
    requires su % 11 == sv % 11
    requires su - sv == d * e
    requires -9 <= d <= 9
    requires -5 <= e <= 5 && e != 0
    ensures d == 0
  {
    assert su - sv == 11 * (su / 11 - sv / 11);
    if d != 0 {
      NoMultipleOfElevenSmall(d, e);
    }
  }

  /**
   * Two accepted identifiers, one of which swaps two neighbouring digits
   * among the first 17 of the other, are the same.
   */
  lemma AdjacentTranspositionDetected(u: string, v: string, k: nat)
    requires CheckDigitOk(u) && CheckDigitOk(v)
    requires k + 1 < 17
    requires u[k] == v[k + 1] && u[k + 1] == v[k]
    requires forall j :: 0 <= j < 18 && j != k && j != k + 1 ==> u[j] == v[j]
    ensures u == v
  {
    var su, sv := WeightedSum(u, 17), WeightedSum(v, 17);
    TranspositionSumDiff(u, v, k);
    ParityInjective(su % 11, sv % 11);
    NeighbourWeightsDiffer(k);
    SameResidueSameSwap(su, sv, DigitValue(u[k]) - DigitValue(v[k]), (Factor[k] as int) - Factor[k + 1]);
    assert u[k] == v[k];
  }

  /** Two digit check values that complete the same sum in both orders are equal. */
  lemma SwappedCheckValuesEqual(x: int, a: int, b: int)
    requires 0 <= a <= 9 && 0 <= b <= 9
    requires (x + 2 * a + b) % 11 == 1 && (x + 2 * b + a) % 11 == 1
    ensures a == b
  {
    assert (x + 2 * a + b) - (x + 2 * b + a) == 11 * ((x + 2 * a + b) / 11 - (x + 2 * b + a) / 11);
  }

  /**
   * Two accepted identifiers, one of which swaps the 17th digit with the
   * check character of the other, are the same.
   */
  lemma CheckCharTranspositionDetected(u: string, v: string)
    requires CheckDigitOk(u) && CheckDigitOk(v)
    requires u[16] == v[17] && u[17] == v[16]
    requires forall j :: 0 <= j < 16 ==> u[j] == v[j]
    ensures u == v
  {
    SameDigitsSameSum(u, v, 16);
    CheckDigitIsIso7064(u);
    CheckDigitIsIso7064(v);
    var a, b := DigitValue(u[16]), DigitValue(v[16]);
    assert WeightedSum(u, 17) == WeightedSum(u, 16) + 2 * a;
    assert WeightedSum(v, 17) == WeightedSum(v, 16) + 2 * b;
    SwappedCheckValuesEqual(WeightedSum(u, 16), a, b);
    assert u[16] == v[16];
  }
}
