// Perceptual hashing of an already-downsampled grey-level grid: the average
// and difference bit rules, MSB-first packing of bits into lower-case hex,
// the combined "average|difference" hash, and the frame-side similarity,
// which, unlike the comparer's, rates two empty hashes as identical.
// Image decoding and Lanczos resizing are outside the model: the grids
// below are the resized images' pixels in row-major order.

module PerceptualHash {
  import opened HashComparer
  import Strings

  /** A `u8` sample or bit. */
  type Byte = x: int | 0 <= x < 256

  // ---------------------------------------------------------------------
  // Bit packing

  /** The bits of one chunk of at most four, OR-ed in MSB first: element j
      of the chunk, when it equals 1, sets bit 3 - j. */
  function ChunkPrefix(chunk: seq<Byte>, i: nat): bv8
    requires i <= |chunk| <= 4
  {
    if i == 0 then 0
    else ChunkPrefix(chunk, i - 1) | (if chunk[i - 1] == 1 then (1 as bv8) << (3 - (i - 1)) else 0)
  }

  function ChunkValue(chunk: seq<Byte>): bv8
    requires |chunk| <= 4
  {
    ChunkPrefix(chunk, |chunk|)
  }

  /** `format!("{:x}", v)` for a value below 16. */
  function HexDigit(v: bv8): (c: char)
    requires v < 16
    ensures IsHexDigit(c) && c != '|'
    ensures NibbleValue(c) == v as nat
  {
    "0123456789abcdef"[v as int]
  }

  /** The hex string of a bit vector, one digit per chunk of four. */
  function HexOf(bits: seq<Byte>): seq<char>
  {
    if bits == [] then []
    else
      var k := if |bits| < 4 then |bits| else 4;
      ChunkValueBound(bits[..k]);
      [HexDigit(ChunkValue(bits[..k]))] + HexOf(bits[k..])
  }

  lemma {:induction false} ChunkPrefixBound(chunk: seq<Byte>, i: nat)
    requires i <= |chunk| <= 4
    ensures ChunkPrefix(chunk, i) < 16
  {
    if i > 0 { ChunkPrefixBound(chunk, i - 1); }
  }

  lemma ChunkValueBound(chunk: seq<Byte>)
    requires |chunk| <= 4
    ensures ChunkValue(chunk) < 16
  {
    ChunkPrefixBound(chunk, |chunk|);
  }

  /** The packing loop over one chunk of `bits_to_hex`. */
  method PackChunk(chunk: seq<Byte>) returns (value: bv8)
    requires |chunk| <= 4
    ensures value == ChunkValue(chunk) && value < 16
  {
    value := 0;
    var i := 0;
    while i < |chunk|
      invariant 0 <= i <= |chunk|
      invariant value == ChunkPrefix(chunk, i)
    {
      if chunk[i] == 1 {
        value := value | ((1 as bv8) << (3 - i));
      }
      i := i + 1;
    }
    ChunkValueBound(chunk);
  }

  lemma HexOfStep(bits: seq<Byte>, pos: nat, k: nat)
    requires pos < |bits| && k == (if |bits| - pos < 4 then |bits| - pos else 4)
    ensures ChunkValue(bits[pos..pos + k]) < 16
    ensures HexOf(bits[pos..]) == [HexDigit(ChunkValue(bits[pos..pos + k]))] + HexOf(bits[pos + k..])
  {
    assert bits[pos..][..k] == bits[pos..pos + k];
    assert bits[pos..][k..] == bits[pos + k..];
    ChunkValueBound(bits[pos..pos + k]);
  }

  /** `bits_to_hex`. */
  method BitsToHex(bits: seq<Byte>) returns (hex: string)
    ensures hex == HexOf(bits)
  {
    hex := "";
    var pos := 0;
    while pos < |bits|
      invariant 0 <= pos <= |bits|
      invariant hex + HexOf(bits[pos..]) == HexOf(bits)
    {
      var k := if |bits| - pos < 4 then |bits| - pos else 4;
      var value := PackChunk(bits[pos..pos + k]);
      HexOfStep(bits, pos, k);
      hex := hex + [HexDigit(value)];
      pos := pos + k;
    }
  }

  /** One hex digit per started chunk of four bits. */
  lemma {:induction false} HexLength(bits: seq<Byte>)
    ensures |HexOf(bits)| == (|bits| + 3) / 4
  {
    if bits != [] {
      var k := if |bits| < 4 then |bits| else 4;
      HexLength(bits[k..]);
    }
  }

  /** Every digit of the packed form is a hex digit (never the separator '|'). */
  lemma {:induction false} HexDigitsOnly(bits: seq<Byte>)
    ensures forall i :: 0 <= i < |HexOf(bits)| ==> IsHexDigit(HexOf(bits)[i]) && HexOf(bits)[i] != '|'
  {
    if bits != [] {
      var k := if |bits| < 4 then |bits| else 4;
      HexDigitsOnly(bits[k..]);
    }
  }

  /** MSB first and left-aligned: bit 3 - j of a chunk's value is set exactly
      when element j equals 1; positions past the chunk stay clear. */
  lemma {:induction false} ChunkBit(chunk: seq<Byte>, i: nat, j: nat)
    requires i <= |chunk| <= 4 && j < 4
    ensures (ChunkPrefix(chunk, i) >> (3 - j)) & 1 == (if j < i && chunk[j] == 1 then 1 else 0)
  {
    if i > 0 {
      ChunkBit(chunk, i - 1, j);
      ChunkPrefixBound(chunk, i - 1);
    }
  }

  /** Only the value 1 sets a bit: any other byte packs like 0. */
  function Normalized(bits: seq<Byte>): (r: seq<Byte>)
    ensures |r| == |bits|
    ensures forall i :: 0 <= i < |bits| ==> r[i] == (if bits[i] == 1 then 1 else 0)
  {
    seq(|bits|, i requires 0 <= i < |bits| => if bits[i] == 1 then 1 else 0)
  }

  lemma {:induction false} ChunkPrefixNormalized(chunk: seq<Byte>, i: nat)
    requires i <= |chunk| <= 4
    ensures ChunkPrefix(Normalized(chunk), i) == ChunkPrefix(chunk, i)
  {
    if i > 0 {
      ChunkPrefixNormalized(chunk, i - 1);
      var nc := Normalized(chunk);
      assert (nc[i - 1] == 1) == (chunk[i - 1] == 1);
    }
  }

  lemma {:induction false} OnlyOneSetsABit(bits: seq<Byte>)
    ensures HexOf(Normalized(bits)) == HexOf(bits)
  {
    if bits != [] {
      var k := if |bits| < 4 then |bits| else 4;
      var nb := Normalized(bits);
      assert nb[..k] == Normalized(bits[..k]);
      assert nb[k..] == Normalized(bits[k..]);
      ChunkPrefixNormalized(bits[..k], k);
      OnlyOneSetsABit(bits[k..]);
    }
  }

  /** The program's example: ten bits pack into "acc", the short last chunk
      left-aligned. */
  lemma PackingExample()
    ensures HexOf([1, 0, 1, 0, 1, 1, 0, 0, 1, 1]) == "acc"
  {
    var bits: seq<Byte> := [1, 0, 1, 0, 1, 1, 0, 0, 1, 1];
    var c1: seq<Byte>, c2: seq<Byte>, c3: seq<Byte> := [1, 0, 1, 0], [1, 1, 0, 0], [1, 1];
    assert bits == c1 + c2 + c3;
    ExampleChunks();
    ThreeChunks(c1, c2, c3, 10, 12, 12);
    assert HexDigit(10) == 'a' && HexDigit(12) == 'c';
  }

  /** Two full chunks and a short one pack into three digits. */
  lemma ThreeChunks(c1: seq<Byte>, c2: seq<Byte>, c3: seq<Byte>, v1: bv8, v2: bv8, v3: bv8)
    requires |c1| == 4 && |c2| == 4 && 0 < |c3| < 4
    requires ChunkValue(c1) == v1 < 16 && ChunkValue(c2) == v2 < 16 && ChunkValue(c3) == v3 < 16
    ensures HexOf(c1 + c2 + c3) == [HexDigit(v1), HexDigit(v2), HexDigit(v3)]
  {
    assert c1 + c2 + c3 == c1 + (c2 + c3);
    FullChunkFirst(c1, c2 + c3);
    FullChunkFirst(c2, c3);
    ShortChunkOnly(c3);
  }

  /** A leading full chunk becomes the first digit. */
  lemma FullChunkFirst(c: seq<Byte>, rest: seq<Byte>)
    requires |c| == 4
    ensures ChunkValue(c) < 16
    ensures HexOf(c + rest) == [HexDigit(ChunkValue(c))] + HexOf(rest)
  {
    ChunkValueBound(c);
    assert (c + rest)[..4] == c && (c + rest)[4..] == rest;
  }

  /** A chunk shorter than four is the last digit. */
  lemma ShortChunkOnly(c: seq<Byte>)
    requires 0 < |c| < 4
    ensures ChunkValue(c) < 16
    ensures HexOf(c) == [HexDigit(ChunkValue(c))]
  {
    ChunkValueBound(c);
    assert c[..|c|] == c && c[|c|..] == [];
  }

  /** The program's example chunks. */
  lemma ExampleChunks()
    ensures ChunkValue([1, 0, 1, 0]) == 10
    ensures ChunkValue([1, 1, 0, 0]) == 12
    ensures ChunkValue([1, 1]) == 12
  {
    ChunkSteps([1, 0, 1, 0]);
    ChunkSteps([1, 1, 0, 0]);
    ChunkSteps([1, 1]);
  }

  /** The packing of a short chunk, spelled out prefix by prefix. */
  lemma ChunkSteps(c: seq<Byte>)
    requires |c| <= 4
    ensures ChunkValue(c) ==
      (if 0 < |c| && c[0] == 1 then 8 else 0) | (if 1 < |c| && c[1] == 1 then 4 else 0) |
      (if 2 < |c| && c[2] == 1 then 2 else 0) | (if 3 < |c| && c[3] == 1 then 1 else 0)
  {
    assert ChunkPrefix(c, 0) == 0;
    if 0 < |c| { assert ChunkPrefix(c, 1) == (if c[0] == 1 then 8 else 0); }
    if 1 < |c| { assert ChunkPrefix(c, 2) == ChunkPrefix(c, 1) | (if c[1] == 1 then 4 else 0); }
    if 2 < |c| { assert ChunkPrefix(c, 3) == ChunkPrefix(c, 2) | (if c[2] == 1 then 2 else 0); }
    if 3 < |c| { assert ChunkPrefix(c, 4) == ChunkPrefix(c, 3) | (if c[3] == 1 then 1 else 0); }
  }

  // ---------------------------------------------------------------------
  // Average hash

  function Sum(p: seq<Byte>): nat
  {
    if p == [] then 0 else Sum(p[..|p| - 1]) + p[|p| - 1]
  }

  lemma {:induction false} SumBound(p: seq<Byte>, m: nat)
    requires forall k :: 0 <= k < |p| ==> p[k] <= m
    ensures Sum(p) <= |p| * m
  {
    if p != [] { SumBound(p[..|p| - 1], m); }
  }

  /** The integer mean over an n-by-n grid; it always fits in a byte, so the
      program's `as u8` never truncates. */
  function Mean(p: seq<Byte>, n: nat): (m: Byte)
    requires n > 0 && |p| == n * n
  {
    SumBound(p, 255);
    QuotientBound(Sum(p), n * n, 255);
    Sum(p) / (n * n)
  }

  lemma QuotientBound(a: nat, b: nat, c: nat)
    requires b > 0 && a <= b * c
    ensures a / b <= c
  {
    var q := a / b;
    assert a == b * q + a % b;
    assert b * q <= b * c;
    MultiplyCancel(b, q, c);
  }

  lemma MultiplyCancel(b: nat, q: nat, c: nat)
    requires b > 0 && b * q <= b * c
    ensures q <= c
  {
    assert b * q == b * c + b * (q - c);
  }

  /** Bit k is 1 exactly when sample k is at least the mean. */
  function AverageBits(p: seq<Byte>, n: nat): (r: seq<Byte>)
    requires n > 0 && |p| == n * n
    ensures |r| == |p|
  {
    seq(|p|, k requires 0 <= k < |p| => if p[k] >= Mean(p, n) then 1 else 0)
  }

  /** The average-hash bit rule of `compute_average_hash`, on the resized grid. */
  method AverageHashBits(small: seq<Byte>, n: nat) returns (bits: seq<Byte>)
    requires n > 0 && |small| == n * n
    ensures bits == AverageBits(small, n)
  {
    var sum := 0;
    var i := 0;
    while i < |small|
      invariant 0 <= i <= |small|
      invariant sum == Sum(small[..i])
    {
      assert small[..i + 1][..i] == small[..i];
      sum := sum + small[i];
      i := i + 1;
    }
    assert small[..|small|] == small;
    var avg: Byte := Mean(small, n);
    assert avg == sum / (n * n);
    bits := [];
    i := 0;
    while i < |small|
      invariant 0 <= i <= |small|
      invariant bits == AverageBits(small, n)[..i]
    {
      bits := bits + [if small[i] >= avg then 1 else 0];
      i := i + 1;
    }
  }

  function ArgMax(p: seq<Byte>): (m: nat)
    requires p != []
    ensures m < |p| && forall k :: 0 <= k < |p| ==> p[k] <= p[m]
  {
    if |p| == 1 then 0
    else
      var m := ArgMax(p[..|p| - 1]);
      assert forall k :: 0 <= k < |p| - 1 ==> p[..|p| - 1][k] == p[k];
      if p[|p| - 1] >= p[m] then |p| - 1 else m
  }

  /** The brightest sample is never below the mean, so an average hash always
      has at least one bit set. */
  lemma AverageHashHasOneBit(p: seq<Byte>, n: nat)
    requires n > 0 && |p| == n * n
    ensures exists k :: 0 <= k < |p| && AverageBits(p, n)[k] == 1
  {
    var m := ArgMax(p);
    SumBound(p, p[m]);
    QuotientBound(Sum(p), n * n, p[m]);
    assert Mean(p, n) == Sum(p) / (n * n);
    assert AverageBits(p, n)[m] == 1;
  }

  /** `compute_perceptual_hash` reduces to the average rule on the 8-by-8 grid,
      dividing the sum by 64. */
  method PerceptualHashBits(tiny: seq<Byte>) returns (bits: seq<Byte>)
    requires |tiny| == 64
    ensures |bits| == 64
    ensures forall k :: 0 <= k < 64 ==> bits[k] == (if tiny[k] >= Sum(tiny) / 64 then 1 else 0)
  {
    bits := AverageHashBits(tiny, 8);
    assert Mean(tiny, 8) == Sum(tiny) / 64;
  }

  // ---------------------------------------------------------------------
  // Difference hash

  /** One row of n + 1 samples gives n bits: left >= right. */
  function RowBits(row: seq<Byte>, n: nat): (r: seq<Byte>)
    requires |row| == n + 1
    ensures |r| == n
  {
    seq(n, x requires 0 <= x < n => if row[x] >= row[x + 1] then 1 else 0)
  }

  /** The rows' bits concatenated, rows outer and columns inner. */
  function DifferenceBits(rows: seq<seq<Byte>>, n: nat): (r: seq<Byte>)
    requires forall y :: 0 <= y < |rows| ==> |rows[y]| == n + 1
    ensures |r| == |rows| * n
  {
    if rows == [] then []
    else DifferenceBits(rows[..|rows| - 1], n) + RowBits(rows[|rows| - 1], n)
  }

  /** The difference-hash bit rule of `compute_difference_hash`, on the grid of
      n rows of n + 1 samples. */
  method DifferenceHashBits(rows: seq<seq<Byte>>, n: nat) returns (bits: seq<Byte>)
    requires |rows| == n
    requires forall y :: 0 <= y < n ==> |rows[y]| == n + 1
    ensures bits == DifferenceBits(rows, n)
  {
    bits := [];
    var y := 0;
    while y < n
      invariant 0 <= y <= n
      invariant bits == DifferenceBits(rows[..y], n)
    {
      var x := 0;
      while x < n
        invariant 0 <= x <= n
        invariant bits == DifferenceBits(rows[..y], n) + RowBits(rows[y], n)[..x]
      {
        var left := rows[y][x];
        var right := rows[y][x + 1];
        bits := bits + [if left >= right then 1 else 0];
        x := x + 1;
      }
      assert rows[..y + 1][..y] == rows[..y];
      y := y + 1;
    }
    assert rows[..n] == rows;
  }

  /** Bit y * n + x compares sample (x, y) with its right-hand neighbour. */
  lemma {:induction false} DifferenceBitAt(rows: seq<seq<Byte>>, n: nat, y: nat, x: nat)
    requires forall j :: 0 <= j < |rows| ==> |rows[j]| == n + 1
    requires y < |rows| && x < n
    ensures y * n + x < |rows| * n
    ensures DifferenceBits(rows, n)[y * n + x] == (if rows[y][x] >= rows[y][x + 1] then 1 else 0)
  {
    var last := |rows| - 1;
    var front := rows[..last];
    assert forall j :: 0 <= j < |front| ==> front[j] == rows[j];
    var bits := DifferenceBits(front, n);
    assert |bits| == last * n;
    assert DifferenceBits(rows, n) == bits + RowBits(rows[last], n);
    if y < last {
      MulLe(y + 1, last, n);
      DifferenceBitAt(front, n, y, x);
      assert DifferenceBits(rows, n)[y * n + x] == bits[y * n + x];
    } else {
      assert y * n + x == |bits| + x;
      assert DifferenceBits(rows, n)[y * n + x] == RowBits(rows[last], n)[x];
    }
  }

  lemma MulLe(a: nat, b: nat, n: nat)
    requires a <= b
    ensures a * n <= b * n
  {
  }

  /** A grid without horizontal change hashes to all ones. */
  lemma FlatGridAllOnes(rows: seq<seq<Byte>>, n: nat, y: nat, x: nat)
    requires forall j :: 0 <= j < |rows| ==> |rows[j]| == n + 1
    requires forall j, i :: 0 <= j < |rows| && 0 <= i < n ==> rows[j][i] == rows[j][i + 1]
    requires y < |rows| && x < n
    ensures y * n + x < |rows| * n
    ensures DifferenceBits(rows, n)[y * n + x] == 1
  {
    DifferenceBitAt(rows, n, y, x);
  }

  // ---------------------------------------------------------------------
  // Hash strings

  /** `compute_average_hash` on a resized grid. */
  method AverageHash(small: seq<Byte>, n: nat) returns (hex: string)
    requires n > 0 && |small| == n * n
    ensures hex == HexOf(AverageBits(small, n))
    ensures |hex| == (n * n + 3) / 4
  {
    var bits := AverageHashBits(small, n);
    hex := BitsToHex(bits);
    HexLength(bits);
  }

  /** `compute_difference_hash` on a resized grid. */
  method DifferenceHash(rows: seq<seq<Byte>>, n: nat) returns (hex: string)
    requires |rows| == n
    requires forall y :: 0 <= y < n ==> |rows[y]| == n + 1
    ensures hex == HexOf(DifferenceBits(rows, n))
    ensures |hex| == (n * n + 3) / 4
  {
    var bits := DifferenceHashBits(rows, n);
    hex := BitsToHex(bits);
    HexLength(bits);
  }

  /** `compute_combined_hash`: the two resized grids of the same image. */
  method CombinedHash(small: seq<Byte>, rows: seq<seq<Byte>>, n: nat) returns (h: string)
    requires n > 0 && |small| == n * n && |rows| == n
    requires forall y :: 0 <= y < n ==> |rows[y]| == n + 1
    ensures Strings.Split(h, '|') == [HexOf(AverageBits(small, n)), HexOf(DifferenceBits(rows, n))]
  {
    var a := AverageHash(small, n);
    var d := DifferenceHash(rows, n);
    h := a + "|" + d;
    HexDigitsOnly(AverageBits(small, n));
    HexDigitsOnly(DifferenceBits(rows, n));
    SplitAtSeparator(a, d);
  }

  /** Joining two separator-free parts with '|' is undone by splitting on it. */
  lemma SplitAtSeparator(a: string, b: string)
    requires '|' !in a && '|' !in b
    ensures Strings.Split(a + "|" + b, '|') == [a, b]
  {
    var s := a + "|" + b;
    assert s[|a|] == '|' && s[..|a|] == a && s[|a| + 1..] == b;
    assert forall j :: 0 <= j < |a| ==> s[j] == a[j];
    var i := Strings.IndexOfChar(s, '|');
    assert i == |a|;
  }

  // ---------------------------------------------------------------------
  // Similarity, frame-side variant

  /** `PerceptualHasher::compute_similarity`: only the lengths are compared
      first, so two empty hashes are identical. */
  function FrameSimilarity(a: string, b: string): real
  {
    if |a| != |b| then 0.0
    else if |a| == 0 then 1.0
    else 1.0 - (Differences(a, b, |a|) as real) / ((4 * |a|) as real)
  }

  method ComputeSimilarity(hash1: string, hash2: string) returns (r: real)
    ensures r == FrameSimilarity(hash1, hash2)
  {
    if |hash1| != |hash2| {
      return 0.0;
    }
    var differences := 0;
    var i := 0;
    while i < |hash1|
      invariant 0 <= i <= |hash1|
      invariant differences == Differences(hash1, hash2, i)
    {
      differences := differences + PopCount(Xor4(NibbleValue(hash1[i]), NibbleValue(hash2[i])));
      i := i + 1;
    }
    var totalBits := |hash1| * 4;
    if totalBits == 0 {
      return 1.0;
    }
    r := 1.0 - (differences as real) / (totalBits as real);
  }

  /** The two similarity functions agree everywhere except on a pair of empty
      hashes, which the frame side rates 1 and the comparer rates 0. */
  lemma SimilarityVariantsDifferOnlyOnEmpty(a: string, b: string)
    ensures FrameSimilarity(a, b) != Similarity(a, b) <==> a == [] && b == []
  {
  }
}
