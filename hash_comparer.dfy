// Hamming similarity between two hexadecimal perceptual hashes: each
// character is read as a 4-bit nibble (anything that is not a hex digit
// reads as 0) and the differing bits of aligned nibbles are counted.

module HashComparer {

  /** `c.to_digit(16).unwrap_or(0)`. */
  function NibbleValue(c: char): (v: nat)
    ensures v < 16
    ensures !IsHexDigit(c) ==> v == 0
  {
    if '0' <= c <= '9' then c as int - '0' as int
    else if 'a' <= c <= 'f' then c as int - 'a' as int + 10
    else if 'A' <= c <= 'F' then c as int - 'A' as int + 10
    else 0
  }

  predicate IsHexDigit(c: char)
  {
    ('0' <= c <= '9') || ('a' <= c <= 'f') || ('A' <= c <= 'F')
  }

  /** Number of one bits of a natural number. */
  function PopCount(n: nat): nat
  {
    if n == 0 then 0 else n % 2 + PopCount(n / 2)
  }

  lemma {:induction false} PopCountBound(n: nat, k: nat)
    requires n < Pow2(k)
    ensures PopCount(n) <= k
  {
    if n != 0 {
      assert k > 0;
      PopCountBound(n / 2, k - 1);
    }
  }

  function Pow2(k: nat): (r: nat)
    ensures r >= 1
  {
    if k == 0 then 1 else 2 * Pow2(k - 1)
  }

  /** Bitwise exclusive or of two nibbles. */
  function Xor4(a: nat, b: nat): (r: nat)
    requires a < 16 && b < 16
    ensures r < 16
    ensures r == 0 <==> a == b
  {
    ((a as bv8) ^ (b as bv8)) as nat
  }

  lemma Xor4Commutes(a: nat, b: nat)
    requires a < 16 && b < 16
    ensures Xor4(a, b) == Xor4(b, a)
  {
  }

  /** Bits in which two hash characters differ, between 0 and 4. */
  function NibbleDistance(c1: char, c2: char): (d: nat)
    ensures d <= 4
  {
    var x := Xor4(NibbleValue(c1), NibbleValue(c2));
    PopCountBound(x, 4);
    PopCount(x)
  }

  /** Sum of the nibble distances over the first `n` aligned characters. */
  function Differences(a: string, b: string, n: nat): nat
    requires n <= |a| && n <= |b|
  {
    if n == 0 then 0 else Differences(a, b, n - 1) + NibbleDistance(a[n - 1], b[n - 1])
  }

  /** The similarity the comparer promises: 0 when either hash is empty or
      the lengths differ, otherwise one minus the fraction of differing bits. */
  function Similarity(a: string, b: string): real
  {
    if a == [] || b == [] || |a| != |b| then 0.0
    else 1.0 - (Differences(a, b, |a|) as real) / ((4 * |a|) as real)
  }

  /** `HashComparer::calculate_similarity`. */
  method CalculateSimilarity(hash1: string, hash2: string) returns (r: real)
    ensures r == Similarity(hash1, hash2)
  {
    if hash1 == [] || hash2 == [] || |hash1| != |hash2| {
      return 0.0;
    }
    var differences := 0;
    var i := 0;
    while i < |hash1|
      invariant 0 <= i <= |hash1|
      invariant differences == Differences(hash1, hash2, i)
    {
      var v1 := NibbleValue(hash1[i]);
      var v2 := NibbleValue(hash2[i]);
      differences := differences + PopCount(Xor4(v1, v2));
      i := i + 1;
    }
    var totalBits := |hash1| * 4;
    r := 1.0 - (differences as real) / (totalBits as real);
  }

  lemma {:induction false} DifferencesBound(a: string, b: string, n: nat)
    requires n <= |a| && n <= |b|
    ensures Differences(a, b, n) <= 4 * n
  {
    if n > 0 { DifferencesBound(a, b, n - 1); }
  }

  lemma {:induction false} DifferencesSymmetric(a: string, b: string, n: nat)
    requires n <= |a| && n <= |b|
    ensures Differences(a, b, n) == Differences(b, a, n)
  {
    if n > 0 {
      DifferencesSymmetric(a, b, n - 1);
      Xor4Commutes(NibbleValue(a[n - 1]), NibbleValue(b[n - 1]));
    }
  }

  lemma {:induction false} DifferencesSelf(a: string, n: nat)
    requires n <= |a|
    ensures Differences(a, a, n) == 0
  {
    if n > 0 { DifferencesSelf(a, n - 1); }
  }

  /** Differences vanish exactly when every aligned pair reads as the same nibble. */
  lemma {:induction false} DifferencesZeroIff(a: string, b: string, n: nat)
    requires n <= |a| && n <= |b|
    ensures Differences(a, b, n) == 0 <==>
      forall i :: 0 <= i < n ==> NibbleValue(a[i]) == NibbleValue(b[i])
  {
    if n > 0 {
      DifferencesZeroIff(a, b, n - 1);
      var x := Xor4(NibbleValue(a[n - 1]), NibbleValue(b[n - 1]));
      assert x != 0 ==> PopCount(x) > 0 by {
        if x != 0 { PopCountPositive(x); }
      }
    }
  }

  lemma PopCountPositive(x: nat)
    requires x != 0
    ensures PopCount(x) > 0
  {
    if x % 2 == 0 {
      PopCountPositive(x / 2);
    }
  }

  /** The score lies between 0 and 1. */
  lemma SimilarityInRange(a: string, b: string)
    ensures 0.0 <= Similarity(a, b) <= 1.0
  {
    if !(a == [] || b == [] || |a| != |b|) {
      DifferencesBound(a, b, |a|);
      var d := Differences(a, b, |a|) as real;
      var t := (4 * |a|) as real;
      FractionInUnit(d, t);
    }
  }

  lemma FractionInUnit(d: real, t: real)
    requires 0.0 <= d <= t && t > 0.0
    ensures 0.0 <= d / t <= 1.0
  {
    assert d / t * t == d;
  }

  /** The score does not depend on argument order. */
  lemma SimilaritySymmetric(a: string, b: string)
    ensures Similarity(a, b) == Similarity(b, a)
  {
    if |a| == |b| { DifferencesSymmetric(a, b, |a|); }
  }

  /** A non-empty hash is fully similar to another of equal length exactly
      when they read as the same nibbles; in particular to itself. */
  lemma SimilarityOneIff(a: string, b: string)
    requires a != [] && |a| == |b|
    ensures Similarity(a, b) == 1.0 <==>
      forall i :: 0 <= i < |a| ==> NibbleValue(a[i]) == NibbleValue(b[i])
  {
    DifferencesZeroIff(a, b, |a|);
    FractionZeroIff(Differences(a, b, |a|) as real, (4 * |a|) as real);
  }

  lemma FractionZeroIff(d: real, t: real)
    requires t > 0.0
    ensures 1.0 - d / t == 1.0 <==> d == 0.0
  {
    assert d / t * t == d;
  }

  lemma SimilaritySelf(a: string)
    requires a != []
    ensures Similarity(a, a) == 1.0
  {
    DifferencesSelf(a, |a|);
  }

  /** Empty or misaligned hashes are never similar, at any threshold above 0. */
  lemma SimilarityZeroOnMismatch(a: string, b: string)
    requires a == [] || b == [] || |a| != |b|
    ensures Similarity(a, b) == 0.0
  {
  }

  /** After the early return the bit total is positive, so the program's
      `total_bits == 0` branch cannot be reached. */
  lemma TotalBitsPositive(a: string, b: string)
    requires !(a == [] || b == [] || |a| != |b|)
    ensures 4 * |a| > 0
  {
  }

  /** Aligned pairs that all differ by the same number of bits add up. */
  lemma {:induction false} DifferencesUniform(a: string, b: string, n: nat, d: nat)
    requires n <= |a| && n <= |b|
    requires forall i :: 0 <= i < n ==> NibbleDistance(a[i], b[i]) == d
    ensures Differences(a, b, n) == n * d
  {
    if n > 0 {
      DifferencesUniform(a, b, n - 1, d);
      assert Differences(a, b, n) == Differences(a, b, n - 1) + NibbleDistance(a[n - 1], b[n - 1]);
      MulStep(n, d);
    }
  }

  lemma MulStep(n: nat, d: nat)
    requires n > 0
    ensures (n - 1) * d + d == n * d
  {
  }

  /** n copies of one character. */
  function Repeat(c: char, n: nat): (r: string)
    ensures |r| == n
    ensures forall i :: 0 <= i < n ==> r[i] == c
  {
    if n == 0 then [] else Repeat(c, n - 1) + [c]
  }

  /** An all-'f' hash against an all-'0' hash of the same length shares no bit. */
  lemma AllOnesVersusAllZeros(n: nat)
    requires n > 0
    ensures Similarity(Repeat('f', n), Repeat('0', n)) == 0.0
  {
    var a, b := Repeat('f', n), Repeat('0', n);
    FarthestDigits();
    forall i | 0 <= i < n
      ensures NibbleDistance(a[i], b[i]) == 4
    {
      assert a[i] == 'f' && b[i] == '0';
    }
    DifferencesUniform(a, b, n, 4);
    WholeFraction((4 * n) as real);
  }

  lemma WholeFraction(t: real)
    requires t > 0.0
    ensures 1.0 - t / t == 0.0
  {
  }

  /** One flipped bit in n nibbles costs 1 / (4 n). */
  lemma OneBitOff(n: nat)
    requires n > 0
    ensures Similarity(Repeat('f', n), Repeat('f', n - 1) + "e") == 1.0 - 1.0 / ((4 * n) as real)
  {
    var a, b := Repeat('f', n), Repeat('f', n - 1) + "e";
    NeighbourDigits();
    forall i | 0 <= i < n - 1
      ensures NibbleDistance(a[i], b[i]) == 0
    {
      assert a[i] == 'f' && b[i] == 'f';
    }
    DifferencesUniform(a, b, n - 1, 0);
    assert a[n - 1] == 'f' && b[n - 1] == 'e';
    assert Differences(a, b, n) == 1;
  }

  /** 'f' and '0' differ in all four bits. */
  lemma FarthestDigits()
    ensures NibbleDistance('f', '0') == 4
  {
    assert Xor4(15, 0) == 15;
  }

  /** 'f' and 'e' differ in one bit; 'f' and 'f' in none. */
  lemma NeighbourDigits()
    ensures NibbleDistance('f', 'e') == 1
    ensures NibbleDistance('f', 'f') == 0
  {
    assert Xor4(15, 14) == 1;
  }

  /** A character that is not a hex digit compares like '0'. */
  lemma {:induction false} NonHexReadsAsZero(a: string, b: string, i: nat, c: char, n: nat)
    requires i < |a| && n <= |a| && n <= |b| && !IsHexDigit(c)
    ensures Differences(a[i := c], b, n) == Differences(a[i := '0'], b, n)
  {
    if n > 0 { NonHexReadsAsZero(a, b, i, c, n - 1); }
  }
}
