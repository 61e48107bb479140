/** The modulus-10 "double-add-double" check of ISO/IEC 7812-1, Annex B, as
    the Go code computes it: on raw bytes, with no check that a byte is a
    digit. This module holds the specification both Go copies of
    `LuhnCheck` are proved against, and the properties of that
    specification. */
module Luhn {
  import opened Base

  predicate IsDigit(b: Byte) { '0' <= b <= '9' }

  /** `ordernumber[i] - '0'`: a uint8 subtraction, so it wraps modulo 256.
      Exactly the digits get a value of at most 9. */
  function DigitValue(b: Byte): (v: int)
    ensures 0 <= v < 256
    ensures v <= 9 <==> IsDigit(b)
    ensures IsDigit(b) ==> v == b as int - '0' as int
  {
    (b as int - '0' as int) % 256
  }

  /** What one byte adds to the sum: its value as-is, or doubled, with 9
      taken off when the double exceeds 9. */
  function Contribution(b: Byte, doubled: bool): (c: int)
    ensures 0 <= c
    ensures IsDigit(b) ==> c <= 9
  {
    var d := DigitValue(b);
    if doubled && 2 * d > 9 then 2 * d - 9
    else if doubled then 2 * d
    else d
  }

  /** The sum the Go loop accumulates over `s`, read right to left: the
      last byte is doubled exactly when `doubled` holds, and the flag flips
      at each step to the left. */
  function LoopSum(s: seq<Byte>, doubled: bool): int
  {
    if s == [] then 0
    else Contribution(s[|s| - 1], doubled) + LoopSum(s[..|s| - 1], !doubled)
  }

  /** The check as the Go code states it: the loop's sum, started with the
      rightmost byte not doubled, is divisible by 10. */
  predicate Accepts(s: seq<Byte>)
  {
    LoopSum(s, false) % 10 == 0
  }

  /** Whether position `i` of an `n`-byte string is doubled: its distance
      from the right end, `n - 1 - i`, is odd. */
  predicate DoubledAt(n: nat, i: nat)
  {
    (n - 1 - i) % 2 == 1
  }

  /** Reference definition, position by position: the contributions of the
      first `k` positions of `s`, each weighted by its distance from the
      right end of the whole of `s`. */
  function WeightedSum(s: seq<Byte>, k: nat): int
    requires k <= |s|
  {
    if k == 0 then 0
    else WeightedSum(s, k - 1) + Contribution(s[k - 1], DoubledAt(|s|, k - 1))
  }

  /** The right-to-left loop sum over a prefix `s[..k]`, started with the
      flag that position `k - 1` has in the whole of `s`, is the positional
      sum of that prefix. */
  lemma {:induction false} LoopSumIsWeightedSum(s: seq<Byte>, k: nat)
    requires k <= |s|
    ensures LoopSum(s[..k], (|s| - k) % 2 == 1) == WeightedSum(s, k)
  {
    if k > 0 {
      assert s[..k][..k - 1] == s[..k - 1];
      LoopSumIsWeightedSum(s, k - 1);
    }
  }

  /** The check accepts exactly when the positional weighted sum is
      divisible by 10: distance 0 and every even distance from the right
      count as-is, every odd distance is doubled. */
  lemma AcceptsIffWeightedSum(s: seq<Byte>)
    ensures Accepts(s) <==> WeightedSum(s, |s|) % 10 == 0
  {
    LoopSumIsWeightedSum(s, |s|);
    assert s[..|s|] == s;
  }

  /** Replacing the byte at `j` by `b` changes the positional sum by the
      difference of the two contributions at `j`'s weight, and nothing else. */
  lemma {:induction false} WeightedSumUpdate(s: seq<Byte>, j: nat, b: Byte, k: nat)
    requires j < |s| && k <= |s|
    ensures WeightedSum(s[j := b], k) ==
            WeightedSum(s, k) +
            (if j < k then Contribution(b, DoubledAt(|s|, j)) - Contribution(s[j], DoubledAt(|s|, j)) else 0)
  {
    if k > 0 {
      WeightedSumUpdate(s, j, b, k - 1);
    }
  }

  /** On digits, the doubling map is a permutation of 0..9, and so is the
      plain one: two different digits never contribute the same value. */
  lemma ContributionInjective(a: Byte, b: Byte, doubled: bool)
    requires IsDigit(a) && IsDigit(b) && a != b
    ensures Contribution(a, doubled) != Contribution(b, doubled)
  {
  }

  /** Single-digit error detection: changing one digit of an accepted
      string into a different digit makes it rejected, whatever the other
      bytes are. */
  lemma SingleDigitErrorDetected(s: seq<Byte>, j: nat, b: Byte)
    requires j < |s| && IsDigit(s[j]) && IsDigit(b) && b != s[j]
    requires Accepts(s)
    ensures !Accepts(s[j := b])
  {
    var w := DoubledAt(|s|, j);
    var delta := Contribution(b, w) - Contribution(s[j], w);
    ContributionInjective(b, s[j], w);
    assert -9 <= delta <= 9 && delta != 0;
    AcceptsIffWeightedSum(s);
    AcceptsIffWeightedSum(s[j := b]);
    WeightedSumUpdate(s, j, b, |s|);
    ShiftLeavesMultipleOfTen(WeightedSum(s, |s|), delta);
  }

  /** A multiple of 10 moved by a non-zero amount below 10 in size is no
      longer a multiple of 10. */
  lemma ShiftLeavesMultipleOfTen(x: int, d: int)
    requires x % 10 == 0 && -9 <= d <= 9 && d != 0
    ensures (x + d) % 10 != 0
  {
    var q := x / 10;
    assert x == 10 * q;
    if d > 0 {
      assert x + d == 10 * q + d;
    } else {
      assert x + d == 10 * (q - 1) + (10 + d);
    }
  }

  /** The empty string is accepted: its sum is 0. */
  lemma EmptyAccepted()
    ensures Accepts([])
  {
  }

  /** Bytes are not validated: ':' is not a digit, it counts as 10, and the
      one-byte string ":" is accepted. */
  lemma NonDigitAccepted()
    ensures !IsDigit(':') && Contribution(':', false) == 10
    ensures Accepts(":")
  {
  }

  /** The order numbers of the accrual worker's test fixture are accepted,
      with sums 50, 30 and 40. */
  lemma FixtureNumbersAccepted()
    ensures LoopSum("1234567897", false) == 50 && Accepts("1234567897")
    ensures LoopSum("1234532313", false) == 30 && Accepts("1234532313")
    ensures LoopSum("1234532339", false) == 40 && Accepts("1234532339")
  {
    FirstFixtureSum();
    SecondFixtureSum();
    ThirdFixtureSum();
  }

  lemma FirstFixtureSum()
    ensures LoopSum("1234567897", false) == 50
  {
    FixtureSum("1234567897", 50);
  }

  lemma SecondFixtureSum()
    ensures LoopSum("1234532313", false) == 30
  {
    FixtureSum("1234532313", 30);
  }

  lemma ThirdFixtureSum()
    ensures LoopSum("1234532339", false) == 40
  {
    FixtureSum("1234532339", 40);
  }

  /** A ten-byte string's loop sum, read off its positional sum. */
  lemma FixtureSum(s: seq<Byte>, total: int)
    requires |s| == 10
    requires WeightedSum(s, 10) == total
    ensures LoopSum(s, false) == total
  {
    LoopSumIsWeightedSum(s, 10);
    assert s[..10] == s;
  }
}
