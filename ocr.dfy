// Text recognition on slide images: reading Tesseract's tab-separated
// output into a text and an average confidence, and the handler that turns
// an engine result into a success event and, below the threshold, a
// low-confidence event. The engine run itself (a subprocess writing a TSV
// file) is a parameter.

module Ocr {
  import opened Strings
  import opened Errors

  /** `ExtractTextCommand`. */
  datatype ExtractTextCommand = ExtractTextCommand(slideId: Id, imagePath: string, languages: seq<string>,
                                                   confidenceThreshold: real)

  /** The command's `Default`: English and a threshold of 0.6. */
  function DefaultExtractTextCommand(slideId: Id): (c: ExtractTextCommand)
    ensures c.imagePath == "" && c.languages == ["eng"] && c.confidenceThreshold == 0.6 && c.slideId == slideId
  {
    ExtractTextCommand(slideId, "", ["eng"], 0.6)
  }

  /** `OcrResult`. */
  datatype OcrResult = OcrResult(slideId: Id, text: string, confidence: real, languages: seq<string>)

  datatype TextExtracted = TextExtracted(slideId: Id, text: string, confidence: real)
  datatype OcrFailed = OcrFailed(slideId: Id, error: string)
  datatype LowConfidenceDetected = LowConfidenceDetected(slideId: Id, confidence: real, threshold: real)

  function Pow10(n: nat): (p: nat)
    ensures p >= 1
  {
    if n == 0 then 1 else 10 * Pow10(n - 1)
  }

  predicate IsMark(c: char) { c == 'e' || c == 'E' }

  /** Index of the first 'e' or 'E' of `s`, or `|s|` when it has none. */
  function ExponentMark(s: string): (i: nat)
    ensures i <= |s| && (i < |s| ==> IsMark(s[i]))
    ensures forall k | 0 <= k < i :: !IsMark(s[k])
  {
    if s == [] || IsMark(s[0]) then 0 else 1 + ExponentMark(s[1..])
  }

  /** Digits with at most one '.' among them, at least one digit in all. */
  function ParseMantissa(m: string): (r: Option<real>)
    ensures r.Some? ==> m != [] && (IsDigit(m[0]) || m[0] == '.') && r.value >= 0.0
  {
    var dot := if '.' in m then IndexOfChar(m, '.') else |m|;
    var whole := m[..dot];
    var fraction := if dot < |m| then m[dot + 1..] else "";
    if AllDigits(whole) && AllDigits(fraction) && |whole| + |fraction| >= 1 then
      assert whole == [] ==> m[0] == '.';
      assert whole != [] ==> m[0] == whole[0];
      Some(DecimalValue(whole, fraction))
    else None
  }

  /** The value of `whole.fraction`. */
  function DecimalValue(whole: string, fraction: string): (v: real)
    requires AllDigits(whole) && AllDigits(fraction)
    ensures v >= 0.0
  {
    DigitsValue(whole) as real + DigitsValue(fraction) as real / Pow10(|fraction|) as real
  }

  /** The exponent after 'e': an optional sign and at least one digit. */
  function ParseExponent(x: string): (r: Option<int>)
    ensures r.Some? ==> x != [] && (x[0] == '-' <==> r.value < 0 || (r.value == 0 && x[0] == '-'))
  {
    var digits := if x != [] && (x[0] == '+' || x[0] == '-') then x[1..] else x;
    if digits != [] && AllDigits(digits) then
      Some(if x[0] == '-' then -(DigitsValue(digits) as int) else DigitsValue(digits))
    else None
  }

  /** `v` times ten to the power `k`. */
  function Scale(v: real, k: int): (r: real)
    ensures v >= 0.0 ==> r >= 0.0
  {
    if k >= 0 then v * Pow10(k) as real else v / Pow10(-k) as real
  }

  /** An unsigned number: the mantissa scaled by the exponent, if any. */
  function ParseUnsigned(body: string): (r: Option<real>)
    ensures r.Some? ==> body != [] && (IsDigit(body[0]) || body[0] == '.') && r.value >= 0.0
  {
    var e := ExponentMark(body);
    var mantissa := ParseMantissa(body[..e]);
    var exponent := if e < |body| then ParseExponent(body[e + 1..]) else Some(0);
    if mantissa.Some? && exponent.Some? then Some(Scale(mantissa.value, exponent.value)) else None
  }

  /** `s.parse::<f64>()` on finite numbers: an optional sign, digits with an
      optional '.', at least one digit, and an optional exponent; the
      value's sign is the sign written. */
  function ParseDecimal(s: string): (r: Option<real>)
    ensures r.Some? ==> s != [] && (IsDigit(s[0]) || s[0] == '+' || s[0] == '-' || s[0] == '.')
    ensures r.Some? && s[0] != '-' ==> r.value >= 0.0
    ensures r.Some? && s[0] == '-' ==> r.value <= 0.0
  {
    if s != [] && (s[0] == '+' || s[0] == '-') then
      match ParseUnsigned(s[1..])
      case Some(v) => Some(if s[0] == '-' then -v else v)
      case None => None
    else ParseUnsigned(s)
  }

  /** Without a sign the number is the unsigned one. */
  lemma DecimalUnsigned(s: string)
    requires s != [] && s[0] != '+' && s[0] != '-'
    ensures ParseDecimal(s) == ParseUnsigned(s)
  {
  }

  /** A leading minus sign negates the unsigned number after it. */
  lemma DecimalNegated(u: string)
    ensures ParseUnsigned(u).None? ==> ParseDecimal("-" + u).None?
    ensures ParseUnsigned(u).Some? ==> ParseDecimal("-" + u) == Some(-ParseUnsigned(u).value)
  {
    var m := "-" + u;
    assert m[0] == '-' && m[1..] == u;
  }

  /** Without an exponent the number is its mantissa. */
  lemma UnsignedPlain(body: string)
    requires forall k | 0 <= k < |body| :: !IsMark(body[k])
    ensures ParseUnsigned(body) == ParseMantissa(body)
  {
    assert ExponentMark(body) == |body|;
    assert body[..|body|] == body;
    assert Pow10(0) == 1;
  }

  /** Digits alone are a mantissa of their value. */
  lemma MantissaWhole(d: string)
    requires d != [] && AllDigits(d)
    ensures ParseMantissa(d) == Some(DigitsValue(d) as real)
  {
    NoMarks(d);
    assert d[..|d|] == d;
    WholeValue(d);
  }

  lemma WholeValue(w: string)
    requires AllDigits(w)
    ensures DecimalValue(w, "") == DigitsValue(w) as real
  {
    assert DigitsValue("") == 0 && Pow10(0) == 1;
  }

  /** Whole numbers parse to their value. */
  lemma ParseWhole(d: string)
    requires d != [] && AllDigits(d)
    ensures ParseDecimal(d) == Some(DigitsValue(d) as real)
  {
    assert IsDigit(d[0]);
    DecimalUnsigned(d);
    UnsignedWhole(d);
  }

  /** A minus sign in front of a whole number negates it. */
  lemma ParseNegative(d: string)
    requires d != [] && AllDigits(d)
    ensures ParseDecimal("-" + d) == Some(-(DigitsValue(d) as real))
  {
    UnsignedWhole(d);
    DecimalNegated(d);
  }

  lemma UnsignedWhole(d: string)
    requires d != [] && AllDigits(d)
    ensures ParseUnsigned(d) == Some(DigitsValue(d) as real)
  {
    NoMarks(d);
    UnsignedPlain(d);
    MantissaWhole(d);
  }

  /** Digits, a point and more digits parse to the whole part plus the
      fraction, as Tesseract writes its confidences ("96.58"). */
  lemma ParseFraction(w: string, fr: string)
    requires AllDigits(w) && AllDigits(fr) && fr != []
    ensures ParseDecimal(w + "." + fr) == Some(DecimalValue(w, fr))
  {
    var s := w + "." + fr;
    NoMarks(w);
    NoMarks(fr);
    forall k | 0 <= k < |s| ensures !IsMark(s[k]) {
      if k < |w| { assert s[k] == w[k]; }
      else if k > |w| { assert s[k] == fr[k - |w| - 1]; }
    }
    assert s[0] == (if w == [] then '.' else w[0]);
    UnsignedPlain(s);
    MantissaFraction(w, fr);
  }

  lemma MantissaFraction(w: string, fr: string)
    requires AllDigits(w) && AllDigits(fr) && fr != []
    ensures ParseMantissa(w + "." + fr) == Some(DecimalValue(w, fr))
  {
    var s := w + "." + fr;
    NoMarks(w);
    assert s[|w|] == '.';
    IndexAfterPrefix(w, fr, '.');
    var dot := IndexOfChar(s, '.');
    assert dot == |w|;
    assert s[..dot] == w;
    assert s[dot + 1..] == fr;
    assert dot < |s|;
  }

  /** Digits, an 'e' and exponent digits scale the number by that power of ten. */
  lemma ParseScientific(d: string, x: string)
    requires d != [] && AllDigits(d) && x != [] && AllDigits(x)
    ensures ParseDecimal(d + "e" + x) == Some(Scale(DigitsValue(d) as real, DigitsValue(x)))
  {
    var s := d + "e" + x;
    assert IsDigit(d[0]) && s[0] == d[0];
    DecimalUnsigned(s);
    UnsignedScientific(d, x);
  }

  lemma UnsignedScientific(d: string, x: string)
    requires d != [] && AllDigits(d) && x != [] && AllDigits(x)
    ensures ParseUnsigned(d + "e" + x) == Some(Scale(DigitsValue(d) as real, DigitsValue(x)))
  {
    var s := d + "e" + x;
    NoMarks(d);
    forall k | 0 <= k < |d| ensures !IsMark(s[k]) {
      assert s[k] == d[k];
    }
    assert s[|d|] == 'e';
    assert ExponentMark(s) == |d|;
    assert s[..|d|] == d && s[|d| + 1..] == x;
    MantissaWhole(d);
    ExponentDigits(x);
    var v := DigitsValue(d) as real;
    assert ParseMantissa(s[..|d|]) == Some(v);
    assert ParseExponent(s[|d| + 1..]) == Some(DigitsValue(x));
  }

  lemma ExponentDigits(x: string)
    requires x != [] && AllDigits(x)
    ensures ParseExponent(x) == Some(DigitsValue(x))
  {
    assert IsDigit(x[0]);
  }

  lemma NoMarks(d: string)
    requires AllDigits(d)
    ensures '.' !in d && forall k | 0 <= k < |d| :: !IsMark(d[k])
  {
  }

  /** A recognised word and the confidence Tesseract gave it. */
  datatype Word = Word(text: string, confidence: real)

  /** One row of the TSV: it yields a word when it has at least twelve tab
      fields, field 10 is a number that is not negative, and field 11 is not
      blank once trimmed. */
  function RowWord(line: string): (r: Option<Word>)
    ensures r.Some? ==> r.value.text != "" && r.value.confidence >= 0.0
    ensures r.Some? ==> |Split(line, '\t')| >= 12 && r.value.text == Trim(Split(line, '\t')[11])
  {
    var cols := Split(line, '\t');
    if |cols| >= 12 then
      match ParseDecimal(cols[10])
      case Some(conf) =>
        if conf >= 0.0 && Trim(cols[11]) != "" then Some(Word(Trim(cols[11]), conf)) else None
      case None => None
    else None
  }

  /** The words of the rows, in row order. */
  function Recognised(rows: seq<string>): seq<Word>
  {
    if rows == [] then []
    else
      var front := Recognised(rows[..|rows| - 1]);
      match RowWord(rows[|rows| - 1])
      case Some(w) => front + [w]
      case None => front
  }

  /** The rows after the header line. */
  function Rows(content: string): seq<string>
  {
    var ls := Lines(content);
    if ls == [] then [] else ls[1..]
  }

  function Texts(ws: seq<Word>): (ts: seq<string>)
    ensures |ts| == |ws| && forall k :: 0 <= k < |ws| ==> ts[k] == ws[k].text
  {
    seq(|ws|, k requires 0 <= k < |ws| => ws[k].text)
  }

  function ConfidenceSum(ws: seq<Word>): real
  {
    if ws == [] then 0.0 else ConfidenceSum(ws[..|ws| - 1]) + ws[|ws| - 1].confidence
  }

  /** The mean confidence scaled from percent to [0, 1], or 0 with no words. */
  function Average(ws: seq<Word>): real
  {
    if |ws| > 0 then (ConfidenceSum(ws) / |ws| as real) / 100.0 else 0.0
  }

  /** What `parse_tsv` returns for `content`. */
  function TsvResult(content: string): (string, real)
  {
    var ws := Recognised(Rows(content));
    (Join(Texts(ws), " "), Average(ws))
  }

  /** `TesseractEngine::parse_tsv`: skips the header, collects the words of
      the qualifying rows and averages their confidences. */
  method ParseTsv(content: string) returns (text: string, confidence: real)
    ensures (text, confidence) == TsvResult(content)
  {
    var rows := Rows(content);
    var fullText: seq<string> := [];
    var totalConfidence := 0.0;
    var wordCount := 0;
    for i := 0 to |rows|
      invariant fullText == Texts(Recognised(rows[..i]))
      invariant totalConfidence == ConfidenceSum(Recognised(rows[..i]))
      invariant wordCount == |Recognised(rows[..i])|
    {
      RecognisedStep(rows, i);
      var cols := Split(rows[i], '\t');
      if |cols| >= 12 {
        var confStr := cols[10];
        var textStr := cols[11];
        var parsed := ParseDecimal(confStr);
        if parsed.Some? {
          var conf := parsed.value;
          if conf >= 0.0 {
            var trimmedText := Trim(textStr);
            if trimmedText != "" {
              fullText := fullText + [trimmedText];
              totalConfidence := totalConfidence + conf;
              wordCount := wordCount + 1;
            }
          }
        }
      }
    }
    assert rows[..|rows|] == rows;
    ghost var ws := Recognised(rows);
    assert fullText == Texts(ws) && totalConfidence == ConfidenceSum(ws) && wordCount == |ws|;
    confidence := if wordCount > 0 then (totalConfidence / wordCount as real) / 100.0 else 0.0;
    text := Join(fullText, " ");
    assert confidence == Average(ws);
  }

  lemma RecognisedStep(rows: seq<string>, i: nat)
    requires i < |rows|
    ensures var before := Recognised(rows[..i]);
      Recognised(rows[..i + 1]) == (match RowWord(rows[i]) case Some(w) => before + [w] case None => before)
    ensures var before := Recognised(rows[..i]);
      RowWord(rows[i]).Some? ==>
        Texts(Recognised(rows[..i + 1])) == Texts(before) + [RowWord(rows[i]).value.text] &&
        ConfidenceSum(Recognised(rows[..i + 1])) == ConfidenceSum(before) + RowWord(rows[i]).value.confidence
  {
    assert rows[..i + 1][..i] == rows[..i];
    var before := Recognised(rows[..i]);
    if RowWord(rows[i]).Some? {
      assert (before + [RowWord(rows[i]).value])[..|before|] == before;
    }
  }

  /** Every recognised word is a non-blank text with a confidence that is
      not negative, and there are no more words than rows. */
  lemma {:induction false} RecognisedWords(rows: seq<string>)
    ensures var ws := Recognised(rows);
      |ws| <= |rows| && forall k :: 0 <= k < |ws| ==> ws[k].text != "" && ws[k].confidence >= 0.0
  {
    if rows != [] {
      RecognisedWords(rows[..|rows| - 1]);
    }
  }

  /** Each row is read on its own: the words of two blocks of rows are
      the words of the first followed by those of the second. */
  lemma {:induction false} RecognisedAppend(a: seq<string>, b: seq<string>)
    ensures Recognised(a + b) == Recognised(a) + Recognised(b)
  {
    if b != [] {
      var b' := b[..|b| - 1];
      assert (a + b)[..|a + b| - 1] == a + b';
      assert (a + b)[|a + b| - 1] == b[|b| - 1];
      RecognisedAppend(a, b');
    } else {
      assert a + b == a;
    }
  }

  /** Rows that yield no word add nothing. */
  lemma {:induction false} RecognisedNone(rows: seq<string>)
    requires forall k :: 0 <= k < |rows| ==> RowWord(rows[k]).None?
    ensures Recognised(rows) == []
  {
    if rows != [] {
      RecognisedNone(rows[..|rows| - 1]);
    }
  }

  lemma RecognisedOne(row: string, w: Word)
    requires RowWord(row) == Some(w)
    ensures Recognised([row]) == [w]
  {
    assert [row][..0] == [];
  }

  /** The text is empty exactly when no row yields a word. */
  lemma TextEmptyIffNoWords(content: string)
    ensures TsvResult(content).0 == "" <==> Recognised(Rows(content)) == []
  {
    var ws := Recognised(Rows(content));
    RecognisedWords(Rows(content));
    if ws != [] {
      JoinStartsWithFirst(Texts(ws), " ");
    }
  }

  lemma {:induction false} JoinStartsWithFirst(parts: seq<string>, sep: string)
    requires |parts| >= 1
    ensures |Join(parts, sep)| >= |parts[0]|
  {
  }

  /** Confidences are sums of non-negative values, so the average is not
      negative, and it stays within [0, 1] when every word's confidence is at
      most 100. */
  lemma {:induction false} SumBounds(ws: seq<Word>)
    requires forall k :: 0 <= k < |ws| ==> 0.0 <= ws[k].confidence <= 100.0
    ensures 0.0 <= ConfidenceSum(ws) <= 100.0 * |ws| as real
  {
    if ws != [] {
      SumBounds(ws[..|ws| - 1]);
    }
  }

  lemma ConfidenceInUnitRange(content: string)
    requires forall k :: 0 <= k < |Recognised(Rows(content))| ==> Recognised(Rows(content))[k].confidence <= 100.0
    ensures 0.0 <= TsvResult(content).1 <= 1.0
  {
    var ws := Recognised(Rows(content));
    RecognisedWords(Rows(content));
    SumBounds(ws);
    if |ws| > 0 {
      MeanBound(ConfidenceSum(ws), |ws| as real);
    }
  }

  lemma MeanBound(sum: real, n: real)
    requires n > 0.0 && 0.0 <= sum <= 100.0 * n
    ensures 0.0 <= sum / n <= 100.0
  {
    var a := sum / n;
    assert a * n == sum;
    assert a > 100.0 ==> a * n > 100.0 * n;
    assert a < 0.0 ==> a * n < 0.0;
  }

  /** Only the rows matter: any header line gives the same result. */
  lemma HeaderIgnored(h1: string, h2: string, rest: string)
    requires '\n' !in h1 && '\n' !in h2
    ensures TsvResult(h1 + "\n" + rest) == TsvResult(h2 + "\n" + rest)
  {
    LinesCons(h1, rest);
    LinesCons(h2, rest);
  }

  /** A header with nothing after it gives no text and confidence 0. */
  lemma HeaderOnly(h: string)
    requires '\n' !in h
    ensures TsvResult(h) == ("", 0.0)
  {
    if h != [] {
      assert Split(h, '\n') == [h];
      assert [h][..0] == [];
      assert Lines(h) == [h];
      assert Lines(h)[1..] == [];
    }
    assert Rows(h) == [];
    assert Recognised([]) == [];
  }

  /** The sample Tesseract output: a header, four layout rows with eleven
      fields and confidence -1, and two word rows. */
  const SampleHeader: seq<string> := ["level", "page_num", "block_num", "par_num", "line_num", "word_num",
                                      "left", "top", "width", "height", "conf", "text"]
  const SampleRows: seq<seq<string>> := [
    ["1", "1", "0", "0", "0", "0", "0", "0", "1920", "1080", "-1"],
    ["2", "1", "1", "0", "0", "0", "100", "100", "200", "50", "-1"],
    ["3", "1", "1", "1", "0", "0", "100", "100", "200", "50", "-1"],
    ["4", "1", "1", "1", "1", "0", "100", "100", "200", "50", "-1"],
    ["5", "1", "1", "1", "1", "1", "100", "100", "100", "50", "90", "Hello"],
    ["5", "1", "1", "1", "1", "2", "210", "100", "90", "50", "80", "World"]]

  /** A row of tab-separated fields that contain no tab, newline or final
      carriage return can be recovered field by field from its line. */
  lemma RowLine(fields: seq<string>)
    requires |fields| >= 1 && fields[|fields| - 1] != ""
    requires forall k :: 0 <= k < |fields| ==> '\t' !in fields[k] && '\n' !in fields[k]
    requires fields[|fields| - 1][|fields[|fields| - 1]| - 1] != '\r'
    ensures var line := Join(fields, "\t");
      '\n' !in line && line != [] && line[|line| - 1] != '\r' && Split(line, '\t') == fields
  {
    var line := Join(fields, "\t");
    JoinAvoids(fields, "\t", '\n');
    JoinEndsWithLast(fields, "\t");
    SplitJoin(fields, '\t');
    var last := fields[|fields| - 1];
    assert line[|line| - 1] == last[|last| - 1];
  }

  /** A line of fields with no tabs yields a word exactly as its fields 10
      and 11 say. */
  lemma RowWordOfFields(fields: seq<string>)
    requires |fields| >= 1 && forall k :: 0 <= k < |fields| ==> '\t' !in fields[k]
    ensures RowWord(Join(fields, "\t")) ==
      if |fields| >= 12 && ParseDecimal(fields[10]).Some? && ParseDecimal(fields[10]).value >= 0.0 &&
         Trim(fields[11]) != ""
      then Some(Word(Trim(fields[11]), ParseDecimal(fields[10]).value))
      else None
  {
    SplitJoin(fields, '\t');
  }

  /** The layout rows have eleven fields and yield nothing. */
  lemma SampleLayoutRow(k: nat)
    requires k < 4
    ensures RowWord(Join(SampleRows[k], "\t")) == None
  {
    assert |SampleRows[k]| == 11;
    RowWordOfFields(SampleRows[k]);
  }

  /** A row whose field 10 is a whole number and whose field 11 is a word
      yields that word with that confidence. */
  lemma WordRow(fields: seq<string>, value: nat)
    requires |fields| >= 12 && forall k :: 0 <= k < |fields| ==> '\t' !in fields[k]
    requires fields[10] != [] && AllDigits(fields[10]) && DigitsValue(fields[10]) == value
    requires Trim(fields[11]) == fields[11] != ""
    ensures RowWord(Join(fields, "\t")) == Some(Word(fields[11], value as real))
  {
    RowWordOfFields(fields);
    ParseWhole(fields[10]);
  }

  /** Joining a header and rows with newlines and splitting them again
      gives back the rows, when no line holds a newline or ends in a carriage
      return and the last line is not empty. */
  lemma RowsOfLines(ls: seq<string>)
    requires |ls| >= 1 && ls[|ls| - 1] != ""
    requires forall k :: 0 <= k < |ls| ==> '\n' !in ls[k] && (ls[k] == [] || ls[k][|ls[k]| - 1] != '\r')
    ensures Rows(Join(ls, "\n")) == ls[1..]
  {
    LinesJoin(ls);
  }

  /** The sample's outcome: a header followed by six rows of which the
      first four (the layout rows, see `SampleLayoutRow`) yield nothing and
      the last two yield "Hello" at 90 and "World" at 80 (see `WordRow`)
      gives "Hello World" and (90 + 80) / 2 / 100 = 0.85. */
  lemma SampleTsv(header: string, layout: seq<string>, hello: string, world: string)
    requires |layout| == 4 && world != ""
    requires forall k :: 0 <= k < 4 ==> '\n' !in layout[k] && (layout[k] == [] || layout[k][|layout[k]| - 1] != '\r')
    requires '\n' !in header && (header == [] || header[|header| - 1] != '\r')
    requires '\n' !in hello && (hello == [] || hello[|hello| - 1] != '\r')
    requires '\n' !in world && world[|world| - 1] != '\r'
    requires forall k :: 0 <= k < 4 ==> RowWord(layout[k]) == None
    requires RowWord(hello) == Some(Word("Hello", 90.0)) && RowWord(world) == Some(Word("World", 80.0))
    ensures TsvResult(Join([header] + layout + [hello] + [world], "\n")) == ("Hello World", 0.85)
  {
    SampleRowsOf(header, layout, hello, world);
    SampleWordsOf(layout, hello, world, Word("Hello", 90.0), Word("World", 80.0));
    SampleAverage();
  }

  lemma SampleRowsOf(header: string, layout: seq<string>, hello: string, world: string)
    requires |layout| == 4 && world != ""
    requires forall k :: 0 <= k < 4 ==> '\n' !in layout[k] && (layout[k] == [] || layout[k][|layout[k]| - 1] != '\r')
    requires '\n' !in header && (header == [] || header[|header| - 1] != '\r')
    requires '\n' !in hello && (hello == [] || hello[|hello| - 1] != '\r')
    requires '\n' !in world && world[|world| - 1] != '\r'
    ensures Rows(Join([header] + layout + [hello] + [world], "\n")) == layout + [hello] + [world]
  {
    var ls := [header] + layout + [hello] + [world];
    assert ls[1..] == layout + [hello] + [world];
    RowsOfLines(ls);
  }

  lemma SampleWordsOf(layout: seq<string>, hello: string, world: string, hw: Word, ww: Word)
    requires forall k :: 0 <= k < |layout| ==> RowWord(layout[k]).None?
    requires RowWord(hello) == Some(hw) && RowWord(world) == Some(ww)
    ensures Recognised(layout + [hello] + [world]) == [hw, ww]
  {
    calc {
      Recognised(layout + [hello] + [world]);
    == { WordsThen(layout + [hello], world, ww); }
      Recognised(layout + [hello]) + [ww];
    == { WordsAfterNone(layout, hello, hw); }
      [hw] + [ww];
    }
  }

  lemma SampleAverage()
    ensures var ws := [Word("Hello", 90.0), Word("World", 80.0)];
      Join(Texts(ws), " ") == "Hello World" && Average(ws) == 0.85
  {
    var ws := [Word("Hello", 90.0), Word("World", 80.0)];
    assert Texts(ws) == ["Hello", "World"];
    assert ws[..1] == [Word("Hello", 90.0)];
    assert ws[..1][..0] == [];
    assert ConfidenceSum(ws) == 170.0;
  }

  /** Rows yielding nothing, then a row yielding `w`, yield just `w`. */
  lemma WordsAfterNone(p: seq<string>, x: string, w: Word)
    requires forall k :: 0 <= k < |p| ==> RowWord(p[k]).None?
    requires RowWord(x) == Some(w)
    ensures Recognised(p + [x]) == [w]
  {
    RecognisedNone(p);
    RecognisedOne(x, w);
    RecognisedAppend(p, [x]);
  }

  /** One more row yielding `w` appends `w`. */
  lemma WordsThen(p: seq<string>, x: string, w: Word)
    requires RowWord(x) == Some(w)
    ensures Recognised(p + [x]) == Recognised(p) + [w]
  {
    RecognisedOne(x, w);
    RecognisedAppend(p, [x]);
  }

  /** The sample's header alone gives no text and confidence 0. */
  lemma HeaderOnlySample()
    ensures TsvResult(Join(SampleHeader, "\t")) == ("", 0.0)
  {
    RowLine(SampleHeader);
    HeaderOnly(Join(SampleHeader, "\t"));
  }

  /** The arguments given to `tesseract`: the image, the output base, the
      languages joined with '+' after "-l" when there are any, and "tsv". */
  function TesseractArgs(cmd: ExtractTextCommand, outputBase: string): (args: seq<string>)
    ensures |args| == if cmd.languages == [] then 3 else 5
    ensures args[0] == cmd.imagePath && args[1] == outputBase && args[|args| - 1] == "tsv"
    ensures cmd.languages != [] ==> args[2] == "-l" && args[3] == Join(cmd.languages, "+")
  {
    [cmd.imagePath, outputBase] + (if cmd.languages != [] then ["-l", Join(cmd.languages, "+")] else []) + ["tsv"]
  }

  /** `TesseractEngine::extract_text` once the subprocess has run: `tsv` is
      the text of the TSV file it wrote, or the error met while starting it,
      on its exit status or while reading the file. */
  function EngineResult(cmd: ExtractTextCommand, tsv: Result<string>): (r: Result<OcrResult>)
    ensures tsv.Err? ==> r == Err(tsv.error)
    ensures tsv.Ok? ==> r.Ok? && r.value.slideId == cmd.slideId && r.value.languages == cmd.languages &&
                        (r.value.text, r.value.confidence) == TsvResult(tsv.value)
  {
    match tsv
    case Err(e) => Err(e)
    case Ok(content) =>
      var parsed := TsvResult(content);
      Ok(OcrResult(cmd.slideId, parsed.0, parsed.1, cmd.languages))
  }

  function ImageNotFoundMessage(path: string): string
  {
    "Slide image not found: " + path
  }

  /** `handle_extract_text`: a missing image fails before the engine runs,
      engine errors pass through, and a low-confidence event accompanies the
      success event exactly when the confidence is strictly below the
      command's threshold. */
  function HandleExtractText(cmd: ExtractTextCommand, imageExists: bool,
                             engine: ExtractTextCommand -> Result<OcrResult>)
    : (r: Result<(TextExtracted, Option<LowConfidenceDetected>)>)
    ensures !imageExists ==> r == Err(FileSystemError(ImageNotFoundMessage(cmd.imagePath)))
    ensures imageExists && engine(cmd).Err? ==> r == Err(engine(cmd).error)
    ensures imageExists && engine(cmd).Ok? ==>
      var res := engine(cmd).value;
      r.Ok? && r.value.0 == TextExtracted(cmd.slideId, res.text, res.confidence) &&
      (r.value.1.Some? <==> res.confidence < cmd.confidenceThreshold) &&
      (r.value.1.Some? ==> r.value.1.value == LowConfidenceDetected(cmd.slideId, res.confidence, cmd.confidenceThreshold))
  {
    if !imageExists then Err(FileSystemError(ImageNotFoundMessage(cmd.imagePath)))
    else
      match engine(cmd)
      case Err(e) => Err(e)
      case Ok(result) =>
        var lowConfidenceEvent :=
          if result.confidence < cmd.confidenceThreshold
          then Some(LowConfidenceDetected(cmd.slideId, result.confidence, cmd.confidenceThreshold))
          else None;
        Ok((TextExtracted(cmd.slideId, result.text, result.confidence), lowConfidenceEvent))
  }

  /** The image check comes first: with a missing image no engine's answer
      matters, and the message says the image was not found. */
  lemma MissingImageIgnoresEngine(cmd: ExtractTextCommand, e1: ExtractTextCommand -> Result<OcrResult>,
                                  e2: ExtractTextCommand -> Result<OcrResult>)
    ensures HandleExtractText(cmd, false, e1) == HandleExtractText(cmd, false, e2)
    ensures HandleExtractText(cmd, false, e1).Err? && HandleExtractText(cmd, false, e1).error.FileSystemError?
    ensures Contains(HandleExtractText(cmd, false, e1).error.msg, "not found")
  {
    var m := ImageNotFoundMessage(cmd.imagePath);
    assert m == "Slide image " + "not found" + (": " + cmd.imagePath);
    ContainsMiddle("Slide image ", "not found", ": " + cmd.imagePath);
  }

  /** Low confidence is not an error: any engine success gives a success
      event, and a confidence at or above the threshold gives no warning. */
  lemma ConfidenceAtThresholdIsQuiet(cmd: ExtractTextCommand, res: OcrResult)
    requires res.confidence >= cmd.confidenceThreshold
    ensures HandleExtractText(cmd, true, _ => Ok(res)) == Ok((TextExtracted(cmd.slideId, res.text, res.confidence), None))
  {
  }
}
