// Text helpers shared by the model: decimal rendering, zero padding,
// joining, ASCII trimming and case folding, substring search.
// Strings are sequences of characters; the program's strings are treated as
// ASCII, so byte length and character count coincide.

module Strings {

  /** The decimal digit character for 0 <= d < 10. */
  function DigitChar(d: nat): (c: char)
    requires d < 10
    ensures '0' <= c <= '9' && c as int - '0' as int == d
  {
    (d + '0' as int) as char
  }

  predicate IsDigit(c: char) { '0' <= c <= '9' }

  predicate AllDigits(s: string) { forall i :: 0 <= i < |s| ==> IsDigit(s[i]) }

  /** The numeric value of a run of decimal digits. */
  function DigitsValue(s: string): nat
    requires AllDigits(s)
  {
    if s == [] then 0 else 10 * DigitsValue(s[..|s| - 1]) + (s[|s| - 1] as int - '0' as int)
  }

  /** Rust's `{}` for an unsigned integer: shortest decimal rendering. */
  function NatToString(n: nat): (s: string)
    ensures |s| >= 1 && AllDigits(s) && DigitsValue(s) == n
    ensures |s| > 1 ==> s[0] != '0'
  {
    if n < 10 then [DigitChar(n)]
    else
      var prefix := NatToString(n / 10);
      var s := prefix + [DigitChar(n % 10)];
      assert s[..|s| - 1] == prefix;
      s
  }

  /** Rust's `{}` for a signed integer. */
  function IntToString(n: int): (s: string)
    ensures |s| >= 1
  {
    if n < 0 then "-" + NatToString(-n) else NatToString(n)
  }

  function Zeros(k: nat): (s: string)
    ensures |s| == k && forall i :: 0 <= i < k ==> s[i] == '0'
  {
    if k == 0 then "" else "0" + Zeros(k - 1)
  }

  /** Rust's `{:0w}` for an unsigned integer: zero-padded to at least w digits. */
  function PadNat(n: nat, w: nat): (s: string)
    ensures |s| == if |NatToString(n)| < w then w else |NatToString(n)|
    ensures AllDigits(s)
    ensures s[|s| - |NatToString(n)|..] == NatToString(n)
    ensures forall i :: 0 <= i < |s| - |NatToString(n)| ==> s[i] == '0'
  {
    var d := NatToString(n);
    var z := if |d| < w then Zeros(w - |d|) else "";
    var s := z + d;
    assert |s| - |d| == |z|;
    assert s[|s| - |d|..] == d;
    s
  }

  lemma {:induction false} ZerosValue(z: string)
    requires forall i :: 0 <= i < |z| ==> z[i] == '0'
    ensures AllDigits(z) && DigitsValue(z) == 0
  {
    if z != [] { ZerosValue(z[..|z| - 1]); }
  }

  /** Leading zeros do not change a digit string's value. */
  lemma {:induction false} LeadingZerosValue(z: string, d: string)
    requires forall i :: 0 <= i < |z| ==> z[i] == '0'
    requires AllDigits(d)
    ensures AllDigits(z + d) && DigitsValue(z + d) == DigitsValue(d)
  {
    if d == [] {
      assert z + d == z;
      ZerosValue(z);
    } else {
      assert (z + d)[..|z + d| - 1] == z + d[..|d| - 1];
      LeadingZerosValue(z, d[..|d| - 1]);
    }
  }

  /** Zero padding keeps the number recoverable. */
  lemma PadNatValue(n: nat, w: nat)
    ensures DigitsValue(PadNat(n, w)) == n
  {
    var d := NatToString(n);
    var s := PadNat(n, w);
    var z := s[..|s| - |d|];
    assert s == z + d;
    LeadingZerosValue(z, d);
  }

  lemma PadNatInjective(a: nat, b: nat, w: nat)
    requires PadNat(a, w) == PadNat(b, w)
    ensures a == b
  {
    PadNatValue(a, w);
    PadNatValue(b, w);
  }

  /** `parts.join(sep)`. */
  function Join(parts: seq<string>, sep: string): (s: string)
    ensures parts == [] ==> s == ""
    ensures |parts| == 1 ==> s == parts[0]
  {
    if parts == [] then ""
    else if |parts| == 1 then parts[0]
    else parts[0] + sep + Join(parts[1..], sep)
  }

  /** The first separator after a separator-free prefix is right after it. */
  lemma {:induction false} IndexAfterPrefix(a: string, b: string, c: char)
    requires c !in a
    ensures IndexOfChar(a + [c] + b, c) == |a|
  {
    if a != [] {
      assert (a + [c] + b)[1..] == a[1..] + [c] + b;
      IndexAfterPrefix(a[1..], b, c);
    }
  }

  /** Splitting at the first separator. */
  lemma SplitCons(a: string, b: string, c: char)
    requires c !in a
    ensures Split(a + [c] + b, c) == [a] + Split(b, c)
  {
    var s := a + [c] + b;
    assert s[|a|] == c;
    IndexAfterPrefix(a, b, c);
    assert s[..|a|] == a && s[|a| + 1..] == b;
  }

  /** Splitting undoes joining, when no part contains the separator. */
  lemma {:induction false} SplitJoin(parts: seq<string>, c: char)
    requires |parts| >= 1
    requires forall k :: 0 <= k < |parts| ==> c !in parts[k]
    ensures Split(Join(parts, [c]), c) == parts
  {
    if |parts| > 1 {
      SplitJoin(parts[1..], c);
      SplitCons(parts[0], Join(parts[1..], [c]), c);
      assert parts[0] + [c] + Join(parts[1..], [c]) == Join(parts, [c]);
    }
  }

  /** `lines()` undoes joining with newlines, for lines without newline or
      trailing carriage return and a non-empty last line. */
  lemma LinesJoin(ls: seq<string>)
    requires |ls| >= 1 && ls[|ls| - 1] != ""
    requires forall k :: 0 <= k < |ls| ==> '\n' !in ls[k] && (ls[k] == [] || ls[k][|ls[k]| - 1] != '\r')
    ensures Lines(Join(ls, "\n")) == ls
  {
    JoinNonEmpty(ls, "\n");
    SplitJoin(ls, '\n');
    var init := ls[..|ls| - 1];
    forall k | 0 <= k < |init| ensures init[k] == [] || init[k][|init[k]| - 1] != '\r' {
      assert init[k] == ls[k];
    }
    StripEachKeeps(init);
    assert init + [ls[|ls| - 1]] == ls;
  }

  /** Lines without a trailing carriage return are kept as they are. */
  lemma {:induction false} StripEachKeeps(ls: seq<string>)
    requires forall k :: 0 <= k < |ls| ==> ls[k] == [] || ls[k][|ls[k]| - 1] != '\r'
    ensures StripEach(ls) == ls
  {
    if ls != [] {
      StripEachKeeps(ls[1..]);
      assert [ls[0]] + ls[1..] == ls;
    }
  }

  /** A first line without a newline is the first element of `lines()`,
      whatever follows it. */
  lemma LinesCons(h: string, rest: string)
    requires '\n' !in h
    ensures Lines(h + "\n" + rest) == [StripCr(h)] + Lines(rest)
  {
    SplitCons(h, rest, '\n');
    var tail := Split(rest, '\n');
    PiecesCons(h, tail);
    if rest == [] {
      assert tail == [""];
    }
  }

  lemma PiecesCons(h: string, tail: seq<string>)
    requires |tail| >= 1
    ensures LinesOfPieces([h] + tail) == [StripCr(h)] + LinesOfPieces(tail)
  {
    var pieces := [h] + tail;
    var init := tail[..|tail| - 1];
    assert pieces[..|pieces| - 1] == [h] + init;
    assert ([h] + init)[1..] == init;
  }

  /** A character found in neither the parts nor the separator is not in the join. */
  lemma {:induction false} JoinAvoids(parts: seq<string>, sep: string, c: char)
    requires c !in sep
    requires forall k :: 0 <= k < |parts| ==> c !in parts[k]
    ensures c !in Join(parts, sep)
  {
    if |parts| > 1 {
      JoinAvoids(parts[1..], sep, c);
    }
  }

  /** A join ends with its last part. */
  lemma {:induction false} JoinEndsWithLast(parts: seq<string>, sep: string)
    requires |parts| >= 1
    ensures EndsWith(Join(parts, sep), parts[|parts| - 1])
  {
    if |parts| > 1 {
      JoinEndsWithLast(parts[1..], sep);
    }
  }

  /** Every part can be found in the join. */
  lemma {:induction false} JoinContainsPart(parts: seq<string>, sep: string, k: nat)
    requires k < |parts|
    ensures Contains(Join(parts, sep), parts[k])
  {
    if |parts| == 1 {
      ContainsMiddle([], parts[0], []);
      assert [] + parts[0] + [] == parts[0];
    } else if k == 0 {
      ContainsMiddle([], parts[0], sep + Join(parts[1..], sep));
      assert [] + parts[0] + (sep + Join(parts[1..], sep)) == Join(parts, sep);
    } else {
      JoinContainsPart(parts[1..], sep, k - 1);
      var rest := Join(parts[1..], sep);
      var needle := parts[k];
      var i :| 0 <= i <= |rest| && OccursAt(rest, needle, i);
      var pre := parts[0] + sep;
      assert Join(parts, sep) == pre + rest;
      assert (pre + rest)[|pre| + i..|pre| + i + |needle|] == rest[i..i + |needle|];
      assert OccursAt(pre + rest, needle, |pre| + i);
    }
  }

  lemma {:induction false} JoinNonEmpty(parts: seq<string>, sep: string)
    requires |parts| >= 1 && parts[|parts| - 1] != ""
    ensures Join(parts, sep) != ""
  {
    if |parts| > 1 {
      JoinNonEmpty(parts[1..], sep);
    }
  }

  predicate StartsWith(s: string, prefix: string)
  {
    |prefix| <= |s| && s[..|prefix|] == prefix
  }

  predicate EndsWith(s: string, suffix: string)
  {
    |suffix| <= |s| && s[|s| - |suffix|..] == suffix
  }

  /** `needle` occurs in `s` at position i. */
  predicate OccursAt(s: string, needle: string, i: int)
  {
    0 <= i && i + |needle| <= |s| && s[i..i + |needle|] == needle
  }

  /** `s.contains(needle)`. */
  predicate Contains(s: string, needle: string)
  {
    exists i :: 0 <= i <= |s| && OccursAt(s, needle, i)
  }

  /** Whatever surrounds it, a string contains itself. */
  lemma ContainsMiddle(a: string, needle: string, b: string)
    ensures Contains(a + needle + b, needle)
  {
    assert (a + needle + b)[|a|..|a| + |needle|] == needle;
    assert OccursAt(a + needle + b, needle, |a|);
  }

  /** A string ends with, and so contains, what was appended last. */
  lemma ContainsSuffix(a: string, needle: string)
    ensures EndsWith(a + needle, needle) && Contains(a + needle, needle)
  {
    assert (a + needle)[|a|..] == needle;
    assert OccursAt(a + needle, needle, |a|);
  }

  /** Appending text keeps every occurrence. */
  lemma ContainsGrow(s: string, needle: string, b: string)
    requires Contains(s, needle)
    ensures Contains(s + b, needle)
  {
    var i :| 0 <= i <= |s| && OccursAt(s, needle, i);
    assert (s + b)[i..i + |needle|] == s[i..i + |needle|];
    assert OccursAt(s + b, needle, i);
  }

  /** Prepending text keeps every occurrence, shifted. */
  lemma ContainsShift(a: string, s: string, needle: string)
    requires Contains(s, needle)
    ensures Contains(a + s, needle)
  {
    var i :| 0 <= i <= |s| && OccursAt(s, needle, i);
    assert (a + s)[|a| + i..|a| + i + |needle|] == s[i..i + |needle|];
    assert OccursAt(a + s, needle, |a| + i);
  }

  /** Both arguments of a text built as `a x b y` occur in it. */
  lemma ContainsBoth(a: string, x: string, b: string, y: string)
    ensures Contains(a + x + b + y, x) && Contains(a + x + b + y, y)
    ensures EndsWith(a + x + b + y, y)
  {
    ContainsMiddle(a, x, b);
    ContainsGrow(a + x + b, x, y);
    ContainsSuffix(a + x + b, y);
  }

  /** All three arguments of a text built as `a x b y c z` occur in it. */
  lemma ContainsAllThree(a: string, x: string, b: string, y: string, c: string, z: string)
    ensures Contains(a + x + b + y + c + z, x)
    ensures Contains(a + x + b + y + c + z, y)
    ensures Contains(a + x + b + y + c + z, z) && EndsWith(a + x + b + y + c + z, z)
  {
    ContainsBoth(a, x, b, y);
    ContainsGrow(a + x + b + y, x, c);
    ContainsGrow(a + x + b + y + c, x, z);
    ContainsMiddle(a + x + b, y, c);
    ContainsGrow(a + x + b + y + c, y, z);
    ContainsSuffix(a + x + b + y + c, z);
  }

  /** `s.find(needle)`: the first position where `needle` occurs. */
  function FindFrom(s: string, needle: string, from: nat): (r: Option<nat>)
    requires from <= |s|
    decreases |s| - from
    ensures r.Some? ==> from <= r.value && OccursAt(s, needle, r.value)
    ensures r.Some? ==> forall j :: from <= j < r.value ==> !OccursAt(s, needle, j)
    ensures r.None? ==> forall j :: from <= j ==> !OccursAt(s, needle, j)
  {
    if from + |needle| > |s| then None
    else if s[from..from + |needle|] == needle then Some(from)
    else FindFrom(s, needle, from + 1)
  }

  function Find(s: string, needle: string): (r: Option<nat>)
    ensures r.Some? ==> OccursAt(s, needle, r.value)
    ensures r.Some? ==> forall j :: 0 <= j < r.value ==> !OccursAt(s, needle, j)
    ensures r.None? <==> !Contains(s, needle)
  {
    FindFrom(s, needle, 0)
  }

  datatype Option<T> = None | Some(value: T)

  /** `s.split(sep).nth(1)` for a string containing `sep`: the text after the
      first occurrence, up to the next one. */
  function SecondPiece(s: string, sep: string): (r: string)
    requires Contains(s, sep)
  {
    var i := Find(s, sep).value;
    var rest := s[i + |sep|..];
    match Find(rest, sep)
    case Some(j) => rest[..j]
    case None => rest
  }

  /** Rust's `char::is_whitespace`, restricted to ASCII. */
  predicate IsSpace(c: char)
  {
    c == ' ' || ('\t' <= c <= '\r')
  }

  function TrimStart(s: string): (r: string)
    ensures |r| <= |s| && s[|s| - |r|..] == r
    ensures r == [] || !IsSpace(r[0])
  {
    if s != [] && IsSpace(s[0]) then TrimStart(s[1..]) else s
  }

  function TrimEnd(s: string): (r: string)
    ensures |r| <= |s| && s[..|r|] == r
    ensures r == [] || !IsSpace(r[|r| - 1])
  {
    if s != [] && IsSpace(s[|s| - 1]) then TrimEnd(s[..|s| - 1]) else s
  }

  /** `s.trim()`. */
  function Trim(s: string): (r: string)
    ensures r == [] || (!IsSpace(r[0]) && !IsSpace(r[|r| - 1]))
  {
    TrimEnd(TrimStart(s))
  }

  function LowerChar(c: char): (r: char)
    ensures 'A' <= c <= 'Z' ==> 'a' <= r <= 'z'
    ensures !('A' <= c <= 'Z') ==> r == c
  {
    if 'A' <= c <= 'Z' then (c as int + 32) as char else c
  }

  /** `s.to_lowercase()` on ASCII. */
  function Lower(s: string): (r: string)
    ensures |r| == |s| && forall i :: 0 <= i < |s| ==> r[i] == LowerChar(s[i])
  {
    if s == [] then "" else [LowerChar(s[0])] + Lower(s[1..])
  }

  /** `s.split(sep)` for a one-character separator: every piece, empty ones included. */
  function Split(s: string, sep: char): (r: seq<string>)
    ensures |r| >= 1
    ensures forall k :: 0 <= k < |r| ==> sep !in r[k]
  {
    if sep !in s then [s]
    else
      var i := IndexOfChar(s, sep);
      [s[..i]] + Split(s[i + 1..], sep)
  }

  function IndexOfChar(s: string, c: char): (i: nat)
    requires c in s
    ensures i < |s| && s[i] == c && c !in s[..i]
  {
    if s[0] == c then 0 else 1 + IndexOfChar(s[1..], c)
  }

  /** Rust's `str::lines`: split on '\n', drop one '\r' before each '\n',
      and no final empty line; a last line without '\n' keeps its '\r'. */
  function Lines(s: string): seq<string>
  {
    if s == [] then [] else LinesOfPieces(Split(s, '\n'))
  }

  /** The lines of the pieces between newlines: every piece but the last
      ended with '\n', and an empty last piece is no line. */
  function LinesOfPieces(pieces: seq<string>): seq<string>
    requires |pieces| >= 1
  {
    var last := pieces[|pieces| - 1];
    StripEach(pieces[..|pieces| - 1]) + (if last == "" then [] else [last])
  }

  function StripEach(ls: seq<string>): seq<string>
  {
    if ls == [] then [] else [StripCr(ls[0])] + StripEach(ls[1..])
  }

  function StripCr(line: string): string
  {
    if line != [] && line[|line| - 1] == '\r' then line[..|line| - 1] else line
  }

  /** `s.parse::<uN>()` for an unsigned type whose values lie below `bound`:
      an optional '+', then one or more ASCII digits, with no overflow. */
  function ParseUnsigned(s: string, bound: nat): (r: Option<nat>)
    ensures r.Some? ==> r.value < bound
    ensures r.Some? <==> (var d := if s != [] && s[0] == '+' then s[1..] else s;
                          d != [] && AllDigits(d) && DigitsValue(d) < bound)
  {
    var d := if s != [] && s[0] == '+' then s[1..] else s;
    if d != [] && AllDigits(d) && DigitsValue(d) < bound then Some(DigitsValue(d)) else None
  }

  /** Printing a number and parsing it back gives the number. */
  lemma ParseNatToString(n: nat, bound: nat)
    requires n < bound
    ensures ParseUnsigned(NatToString(n), bound) == Some(n)
  {
  }

  /** `s.split_whitespace()`: the maximal non-space runs, in order. */
  function Words(s: string): seq<string>
    decreases |s|
  {
    var t := TrimStart(s);
    if t == [] then []
    else
      var n := WordLength(t);
      [t[..n]] + Words(t[n..])
  }

  /** Every word is a non-empty run of non-space characters. */
  lemma {:induction false} WordsAreRuns(s: string)
    ensures forall k :: 0 <= k < |Words(s)| ==>
      Words(s)[k] != [] && forall i :: 0 <= i < |Words(s)[k]| ==> !IsSpace(Words(s)[k][i])
    decreases |s|
  {
    var t := TrimStart(s);
    if t != [] {
      var n := WordLength(t);
      WordsAreRuns(t[n..]);
      var r := Words(s);
      assert r == [t[..n]] + Words(t[n..]);
      forall k | 0 <= k < |r|
        ensures r[k] != [] && forall i :: 0 <= i < |r[k]| ==> !IsSpace(r[k][i])
      {
        if k > 0 {
          assert r[k] == Words(t[n..])[k - 1];
        }
      }
    }
  }

  /** Length of the leading non-space run of `t`. */
  function WordLength(t: string): (n: nat)
    ensures n <= |t|
    ensures forall i :: 0 <= i < n ==> !IsSpace(t[i])
    ensures n == |t| || IsSpace(t[n])
    ensures t != [] && !IsSpace(t[0]) ==> n >= 1
  {
    if t == [] || IsSpace(t[0]) then 0 else 1 + WordLength(t[1..])
  }
}

// Rendering of floating-point values and durations is outside the model:
// Rust's shortest round-trip `{}`, the fixed-point `{:.0}` and `{:.2}`, and
// the `{:?}` of a `Duration` are supplied by the caller as functions.
module Formatting {
  datatype Formats = Formats(
    plain: real -> string,        // `{}` of an f64
    fixed0: real -> string,       // `{:.0}` of an f64
    fixed2: real -> string,       // `{:.2}` of an f64
    duration: nat -> string       // `{:?}` of a Duration given in milliseconds
  )
}
