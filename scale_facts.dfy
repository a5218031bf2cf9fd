/** What the scale cascade yields: which pass can produce which kind of
    result, and the readings of typical annotations. */
module ScaleFacts {
  import opened Utils
  import opened Scanner
  import opened ScalePatterns
  import opened StableSort
  import opened Grouping
  import opened Vectorizer

  /** A first-pass match at the start of the page text decides. */
  lemma ArchMatchAtStart(page: Page, m: ArchMatch)
    requires ArchScaleAt(PageText(page), 0) == Some(m)
    ensures PageScale(page) == ArchOutcome(m)
  {
    var t := PageText(page);
    SearchFindsFirst(t, k => ArchScaleAt(t, k), 0);
  }

  /** Where the pieces of `SCALE: <left>" = <right>"` sit. */
  lemma ArchPieces(t: string, left: string, right: string)
    requires t == "SCALE: " + left + "\" = " + right + "\""
    ensures var b, f := 7 + |left|, 11 + |left| + |right|;
      && |t| == f + 1 && t[..7] == "SCALE: " && t[b..b + 4] == "\" = " && t[f] == '"'
      && (forall k :: 7 <= k < b ==> t[k] == left[k - 7])
      && (forall k :: b + 4 <= k < f ==> t[k] == right[k - b - 4])
      && t[7..b] == left && t[b + 4..f] == right
  {
  }

  /** The architectural pattern captures the two pieces. */
  lemma ArchPiecesMatch(t: string, left: string, right: string)
    requires |left| > 0 && forall k :: 0 <= k < |left| ==> IsLeftChar(left[k])
    requires |right| > 0 && forall k :: 0 <= k < |right| ==> IsRightChar(right[k])
    requires t == "SCALE: " + left + "\" = " + right + "\""
    ensures ArchScaleAt(t, 0) == Some(ArchMatch(left, right))
  {
    var b, f := 7 + |left|, 11 + |left| + |right|;
    ArchLeftRuns(t, left, right);
    ArchRightRuns(t, left, right);
    ArchScaleAtIs(t, 0, 7, b, b + 2, b + 4, f);
  }

  /** The runs up to the quote after the left piece. */
  lemma ArchLeftRuns(t: string, left: string, right: string)
    requires |left| > 0 && forall k :: 0 <= k < |left| ==> IsLeftChar(left[k])
    requires t == "SCALE: " + left + "\" = " + right + "\""
    ensures var b := 7 + |left|;
      && ScaleWordAt(t, 0) && SkipWhile(t, 5, IsColonOrSpace) == 7 && SkipWhile(t, 7, IsLeftChar) == b
      && b < |t| && IsFancyQuote(t[b])
  {
    var b := 7 + |left|;
    ArchPieces(t, left, right);
    assert t[0] == 'S' && t[1] == 'C' && t[2] == 'A' && t[3] == 'L' && t[4] == 'E' && t[5] == ':' && t[6] == ' ';
    assert t[b] == '"';
    SkipWhileIs(t, 5, 7, IsColonOrSpace);
    SkipWhileIs(t, 7, b, IsLeftChar);
  }

  /** The runs from the quote after the left piece to the end. */
  lemma ArchRightRuns(t: string, left: string, right: string)
    requires |right| > 0 && forall k :: 0 <= k < |right| ==> IsRightChar(right[k])
    requires t == "SCALE: " + left + "\" = " + right + "\""
    ensures var b, f := 7 + |left|, 11 + |left| + |right|;
      && SkipWhile(t, b + 1, IsSpace) == b + 2 && t[b + 2] == '='
      && SkipWhile(t, b + 3, IsSpace) == b + 4 && SkipWhile(t, b + 4, IsRightChar) == f
      && t[7..b] == left && t[b + 4..f] == right
  {
    var b, f := 7 + |left|, 11 + |left| + |right|;
    ArchPieces(t, left, right);
    assert t[b + 1] == ' ' && t[b + 2] == '=' && t[b + 3] == ' ';
    SkipWhileIs(t, b + 1, b + 2, IsSpace);
    SkipWhileIs(t, b + 3, b + 4, IsSpace);
    SkipWhileIs(t, b + 4, f, IsRightChar);
  }

  /** `a/b` is made of left-side characters, `F'-I` of right-side characters. */
  lemma ArchitecturalChars(A: string, B: string, F: string, I: string)
    requires AllDigits(A) && AllDigits(B) && AllDigits(F) && AllDigits(I)
    ensures var left, right := A + "/" + B + "", F + "'" + "-" + I + "";
      && (forall k :: 0 <= k < |left| ==> IsLeftChar(left[k]))
      && (forall k :: 0 <= k < |right| ==> IsRightChar(right[k]))
  {
    var left, right := A + "/" + B + "", F + "'" + "-" + I + "";
    assert forall k :: 0 <= k < |left| ==> left[k] == '/' || (k < |A| && left[k] == A[k]) || (k > |A| && left[k] == B[k - |A| - 1]);
    assert forall k :: 0 <= k < |right| ==>
      right[k] == '\'' || right[k] == '-' || (k < |F| && right[k] == F[k]) || (k > |F| + 1 && right[k] == I[k - |F| - 2]);
  }

  /** The annotation text regrouped into its two captured pieces. */
  lemma ArchitecturalText(A: string, B: string, F: string, I: string)
    ensures "SCALE: " + A + "/" + B + "\" = " + F + "'-" + I + "\""
      == "SCALE: " + (A + "/" + B + "") + "\" = " + (F + "'" + "-" + I + "") + "\""
  {
  }

  /** The value `a/b` reads as: the fraction, or the division by zero. */
  function FractionReading(A: string, B: string): LeftValue
    requires AllDigits(A) && AllDigits(B)
  {
    if DigitsValue(B) == 0 then LeftDivisionByZero
    else Decimal(Some(DigitsValue(A) as real / DigitsValue(B) as real))
  }

  /** The length `F'-I` reads as, in inches. */
  function FeetInchesReading(F: string, I: string): real
    requires AllDigits(F) && AllDigits(I)
  {
    12.0 * DigitsValue(F) as real + DigitsValue(I) as real
  }

  lemma FractionScale(A: string, B: string, inches: real)
    requires |A| > 0 && AllDigits(A) && |B| > 0 && AllDigits(B)
    ensures FeetScale(ParseLeft(A + "/" + B + ""), inches) == FeetScale(FractionReading(A, B), inches)
  {
    ParseLeftFraction(A, B, "");
  }

  lemma FeetInchesScale(F: string, I: string, left: LeftValue)
    requires |F| > 0 && AllDigits(F) && |I| > 0 && AllDigits(I)
    ensures FeetScale(left, ParseRight(F + "'" + "-" + I + "")) == FeetScale(left, FeetInchesReading(F, I))
  {
    ParseRightFeetInches(F, "-", I, "");
  }

  /** `a/b` against `F'-I` reads as the fraction against `12F + I` inches. */
  lemma ArchitecturalReading(A: string, B: string, F: string, I: string)
    requires |A| > 0 && AllDigits(A) && |B| > 0 && AllDigits(B)
    requires |F| > 0 && AllDigits(F) && |I| > 0 && AllDigits(I)
    ensures ArchOutcome(ArchMatch(A + "/" + B + "", F + "'" + "-" + I + ""))
      == FeetScale(FractionReading(A, B), FeetInchesReading(F, I))
  {
    var R := F + "'" + "-" + I + "";
    FractionScale(A, B, ParseRight(R));
    FeetInchesScale(F, I, FractionReading(A, B));
  }

  /** A page whose text is an architectural annotation gets the scale of that annotation. */
  lemma ArchitecturalScale(page: Page, A: string, B: string, F: string, I: string)
    requires |A| > 0 && AllDigits(A) && |B| > 0 && AllDigits(B)
    requires |F| > 0 && AllDigits(F) && |I| > 0 && AllDigits(I)
    requires PageText(page) == "SCALE: " + A + "/" + B + "\" = " + F + "'-" + I + "\""
    ensures PageScale(page) == FeetScale(FractionReading(A, B), FeetInchesReading(F, I))
  {
    var left, right := A + "/" + B + "", F + "'" + "-" + I + "";
    ArchitecturalText(A, B, F, I);
    ArchitecturalChars(A, B, F, I);
    ArchPiecesMatch(PageText(page), left, right);
    ArchMatchAtStart(page, ArchMatch(A + "/" + B + "", F + "'" + "-" + I + ""));
    ArchitecturalReading(A, B, F, I);
  }

  /** The commented example: one eighth of an inch to the foot is 1:96. */
  lemma EighthInchScale(page: Page)
    requires PageText(page) == "SCALE: 1/8\" = 1'-0\""
    ensures PageScale(page) == Found(ScaleInfo(Some(Feet), Some(96.0)))
  {
    ArchitecturalScale(page, "1", "8", "1", "0");
    EighthInchReading();
  }

  lemma EighthInchReading()
    ensures FeetScale(FractionReading("1", "8"), FeetInchesReading("1", "0")) == Found(ScaleInfo(Some(Feet), Some(96.0)))
  {
    assert DigitsValue("8") == 8 && DigitsValue("1") == 1 && DigitsValue("0") == 0;
    assert FractionReading("1", "8") == Decimal(Some(1.0 / 8.0));
    assert FeetInchesReading("1", "0") == 12.0;
  }

  // ----- the same annotation in the first pass and in the line fallback -----

  /** The first pass reads `SCALE: 1/4" = 1'-6"` as 18 inches to the quarter
      inch, 72. */
  lemma QuarterInchFirstPass(page: Page)
    requires PageText(page) == "SCALE: 1/4\" = 1'-6\""
    ensures PageScale(page) == Found(ScaleInfo(Some(Feet), Some(72.0)))
  {
    ArchitecturalScale(page, "1", "4", "1", "6");
    QuarterInchReading();
  }

  lemma QuarterInchReading()
    ensures FeetScale(FractionReading("1", "4"), FeetInchesReading("1", "6")) == Found(ScaleInfo(Some(Feet), Some(72.0)))
  {
    assert DigitsValue("4") == 4 && DigitsValue("1") == 1 && DigitsValue("6") == 6;
    assert FractionReading("1", "4") == Decimal(Some(1.0 / 4.0));
    assert FeetInchesReading("1", "6") == 18.0;
  }

  /** The characters of `SCALE: 1/4" = 1'-6"` the value pattern looks at. */
  predicate QuarterShape(t: string) {
    && |t| == 19 && t[..7] == "SCALE: "
    && t[7] == '1' && t[8] == '/' && t[9] == '4' && t[10] == '"' && t[11] == ' ' && t[12] == '='
    && t[13] == ' ' && t[14] == '1' && t[15] == '\'' && t[16] == '-' && t[17] == '6' && t[18] == '"'
  }

  /** On the same text the value pattern of the line fallback stops the feet
      at the `'`, and its optional inches group cannot start at the `-`: the
      inches are not captured. */
  lemma DashedInchesMatch()
    ensures ValueSearch("SCALE: 1/4\" = 1'-6\"") == Some((7, ValueMatch("1/4", "1", None)))
  {
    var t := "SCALE: 1/4\" = 1'-6\"";
    assert QuarterShape(t);
    QuarterValueAt(t);
    NoValueBefore(t);
    SearchFindsFirst(t, k => ValueAt(t, k), 7);
  }

  lemma QuarterValueAt(t: string)
    requires QuarterShape(t)
    ensures ValueAt(t, 7) == Some(ValueMatch("1/4", "1", None))
  {
    QuarterLeftEnd(t);
    SkipWhileIs(t, 11, 12, IsSpace);
    SkipWhileIs(t, 13, 14, IsSpace);
    SkipWhileIs(t, 14, 15, IsDigit);
    SkipWhileIs(t, 16, 16, IsDigit);
    FeetAtIs(t, 14, 15, 16, 16);
    assert t[7..10] == "1/4" && t[14..15] == "1";
  }

  lemma QuarterLeftEnd(t: string)
    requires QuarterShape(t)
    ensures ValueLeftEnd(t, 7) == Some(10)
  {
    SkipWhileIs(t, 7, 8, IsDigit);
    SkipWhileIs(t, 9, 10, IsDigit);
  }

  lemma NoValueBefore(t: string)
    requires QuarterShape(t)
    ensures forall j :: 0 <= j < 7 ==> ValueAt(t, j).None?
  {
    forall j | 0 <= j < 7
      ensures ValueAt(t, j).None?
    {
      assert t[j] == t[..7][j];
      SkipWhileIs(t, j, j, IsDigit);
    }
  }

  /** So the line fallback reads the annotation as one foot to the quarter
      inch, 48, where the first pass reads 72. */
  lemma DashedInchesDropped(words: seq<Word>)
    requires ReconstructedLine(words) == Some("SCALE: 1/4\" = 1'-6\"")
    ensures ReconstructedOutcome(words) == Found(ScaleInfo(Some(Feet), Some(48.0)))
  {
    DashedInchesMatch();
    QuarterReading();
  }

  lemma QuarterReading()
    ensures ValueOutcome(ValueMatch("1/4", "1", None)) == Found(ScaleInfo(Some(Feet), Some(48.0)))
  {
    QuarterLeft();
    assert DigitsValue("1") == 1;
    assert ValueInches(ValueMatch("1/4", "1", None)) == 12.0;
  }

  lemma QuarterLeft()
    ensures ValueLeft("1/4") == Decimal(Some(1.0 / 4.0))
  {
    assert "1/4" == "1" + "/" + "4" + "";
    ValueLeftIsParseLeft("1/4");
    ParseLeftFraction("1", "4", "");
    assert DigitsValue("4") == 4 && DigitsValue("1") == 1;
  }

  /** A zero denominator in the first pass raises instead of letting the later passes try. */
  lemma ZeroDenominatorRaises(page: Page, A: string, F: string, I: string)
    requires |A| > 0 && AllDigits(A) && |F| > 0 && AllDigits(F) && |I| > 0 && AllDigits(I)
    requires PageText(page) == "SCALE: " + A + "/0\" = " + F + "'-" + I + "\""
    ensures PageScale(page) == DivisionByZero
  {
    assert "SCALE: " + A + "/0\" = " + F + "'-" + I + "\"" == "SCALE: " + A + "/" + "0" + "\" = " + F + "'-" + I + "\"";
    ArchitecturalScale(page, A, "0", F, I);
    assert DigitsValue("0") == 0;
  }

  /** A first-pass match whose left side is not a positive number gives feet
      with no ratio: a scale, not the absence of one. */
  lemma ZeroLeftHasNoRatio(page: Page, F: string, I: string)
    requires |F| > 0 && AllDigits(F) && |I| > 0 && AllDigits(I)
    requires PageText(page) == "SCALE: 0\" = " + F + "'-" + I + "\""
    ensures PageScale(page) == Found(ScaleInfo(Some(Feet), None))
  {
    var t, right := PageText(page), F + "'" + "-" + I + "";
    assert t == "SCALE: " + "0" + "\" = " + right + "\"";
    ArchitecturalChars("0", "0", F, I);
    ArchPiecesMatch(t, "0", right);
    ArchMatchAtStart(page, ArchMatch("0", right));
    ParseLeftWhole("0");
    assert DigitsValue("0") == 0;
  }

  // ----- the order of the passes -----

  /** Which pass an outcome comes from: no scale only when every pass fails,
      a scale without units only from the `scale 1:N` pass, and a raised
      division only from an `a/0` left side in the first or the last pass. */
  lemma PageScaleSources(page: Page)
    ensures var text, r := PageText(page), PageScale(page);
      && (r.NotFound? <==> ArchSearch(text).None? && RatioSearch(text).None? && InchSearch(text).None?
                             && ReconstructedOutcome(page.words).NotFound?)
      && (r.Found? && r.info.units.None? <==> ArchSearch(text).None? && RatioSearch(text).Some?)
      && (r.DivisionByZero? <==>
            (ArchSearch(text).Some? && ParseLeft(ArchSearch(text).value.1.left).LeftDivisionByZero?)
            || (ArchSearch(text).None? && RatioSearch(text).None? && InchSearch(text).None?
                && ReconstructedOutcome(page.words).DivisionByZero?))
  {
  }

  /** The fallback gives no scale when no line holds a SCALE annotation or the
      value pattern fails on the one found, and raises only on an `a/0` value. */
  lemma ReconstructedSources(words: seq<Word>)
    ensures var line, r := ReconstructedLine(words), ReconstructedOutcome(words);
      && (r.NotFound? <==> line.None? || ValueSearch(line.value).None?)
      && (r.DivisionByZero? <==>
            line.Some? && ValueSearch(line.value).Some? && ValueLeft(ValueSearch(line.value).value.1.left).LeftDivisionByZero?)
      && (r.Found? ==> r.info.units == Some(Feet))
  {
  }

  /** No position of a text without the letter s starts a `scale` word. */
  lemma NoScaleWord(t: string)
    requires forall k :: 0 <= k < |t| ==> !IsLetterS(t[k])
    ensures ArchSearch(t).None? && RatioSearch(t).None?
  {
    assert forall k :: 0 <= k <= |t| ==> !ScaleWordAt(t, k);
  }

  /** The word `scale` in any case, ` 1` and the separator, then digits only. */
  predicate RatioShape(t: string, sep: char) {
    && |t| > 8 && ScaleWordAt(t, 0)
    && t[5] == ' ' && t[6] == '1' && t[7] == sep
    && forall k :: 8 <= k < |t| ==> IsDigit(t[k])
  }

  /** `SCALE 1:N` and `SCALE 1=N` have that shape. */
  lemma RatioText(t: string, w: string, sep: char, N: string)
    requires |w| == 5 && ScaleWordAt(w, 0) && |N| > 0 && AllDigits(N)
    requires (sep == ':' && t == w + " 1:" + N) || (sep == '=' && t == w + " 1=" + N)
    ensures RatioShape(t, sep) && t[8..] == N
  {
    assert forall k :: 0 <= k < 5 ==> t[k] == w[k];
    assert forall k :: 8 <= k < |t| ==> t[k] == N[k - 8];
  }

  /** `ArchScaleAt` fails when the runs lead to anything but `=`. */
  lemma ArchScaleAtNoEquals(s: string, i: nat, a: nat, b: nat, d: nat)
    requires ScaleWordAt(s, i)
    requires SkipWhile(s, i + 5, IsColonOrSpace) == a
    requires SkipWhile(s, a, IsLeftChar) == b
    requires SkipWhile(s, if b < |s| && IsFancyQuote(s[b]) then b + 1 else b, IsSpace) == d
    requires d < |s| && s[d] != '='
    ensures ArchScaleAt(s, i).None?
  {
  }

  /** The first pass does not match `SCALE 1:N`: a colon is not `=`. */
  lemma RatioTextNoArch(t: string)
    requires RatioShape(t, ':')
    ensures ArchSearch(t).None?
  {
    RatioTextFirstFails(t);
    assert forall k :: 0 < k <= |t| ==> !ScaleWordAt(t, k);
  }

  lemma RatioTextFirstFails(t: string)
    requires RatioShape(t, ':')
    ensures ArchScaleAt(t, 0).None?
  {
    SkipWhileIs(t, 5, 6, IsColonOrSpace);
    SkipWhileIs(t, 6, 7, IsLeftChar);
    SkipWhileIs(t, 7, 7, IsSpace);
    ArchScaleAtNoEquals(t, 0, 6, 7, 7);
  }

  /** The ratio pass reads `SCALE 1:N` as N. */
  lemma RatioTextMatch(t: string)
    requires RatioShape(t, ':')
    ensures AllDigits(t[8..]) && RatioSearch(t) == Some((0, DigitsValue(t[8..])))
  {
    SkipWhileIs(t, 5, 6, IsSpace);
    SkipWhileIs(t, 8, 8, IsSpace);
    SkipWhileIs(t, 8, |t|, IsDigit);
    assert t[8..|t|] == t[8..];
    assert RatioScaleAt(t, 0) == Some(DigitsValue(t[8..]));
    SearchFindsFirst(t, k => RatioScaleAt(t, k), 0);
  }

  /** `SCALE 1:N`, the word in any case, is the unitless ratio N, 0 included. */
  lemma RatioScale(page: Page, w: string, N: string)
    requires |w| == 5 && ScaleWordAt(w, 0) && |N| > 0 && AllDigits(N) && PageText(page) == w + " 1:" + N
    ensures PageScale(page) == Found(ScaleInfo(None, Some(DigitsValue(N) as real)))
  {
    RatioText(PageText(page), w, ':', N);
    RatioTextNoArch(PageText(page));
    RatioTextMatch(PageText(page));
  }

  /** `1" = `, digits, then a closing `'`. */
  predicate InchShape(t: string) {
    && |t| > 6 && t[0] == '1' && t[1] == '"' && t[2] == ' ' && t[3] == '=' && t[4] == ' '
    && t[|t| - 1] == '\'' && forall k :: 5 <= k < |t| - 1 ==> IsDigit(t[k])
  }

  /** `1" = N'` has that shape, and no letter s. */
  lemma InchText(t: string, N: string)
    requires |N| > 0 && AllDigits(N) && t == "1\" = " + N + "'"
    ensures InchShape(t) && t[5..|t| - 1] == N
    ensures forall k :: 0 <= k < |t| ==> !IsLetterS(t[k])
  {
    assert forall k :: 5 <= k < 5 + |N| ==> t[k] == N[k - 5];
  }

  /** The third pass reads `1" = N'` as N. */
  lemma InchTextMatch(t: string)
    requires InchShape(t)
    ensures AllDigits(t[5..|t| - 1]) && InchSearch(t) == Some((0, DigitsValue(t[5..|t| - 1])))
  {
    SkipWhileIs(t, 5, |t| - 1, IsDigit);
    assert InchToFeetAt(t, 0) == Some(DigitsValue(t[5..|t| - 1]));
    SearchFindsFirst(t, k => InchToFeetAt(t, k), 0);
  }

  /** `1" = N'` is N feet to the inch. */
  lemma InchScale(page: Page, N: string)
    requires |N| > 0 && AllDigits(N) && PageText(page) == "1\" = " + N + "'"
    ensures PageScale(page) == Found(ScaleInfo(Some(Feet), Some(DigitsValue(N) as real)))
  {
    InchText(PageText(page), N);
    NoScaleWord(PageText(page));
    InchTextMatch(PageText(page));
  }

  /** `SCALE 1=N` never reaches the ratio pass: the first pass reads it as N
      inches to the inch, in feet. */
  lemma RatioEqualsIsArchitectural(page: Page, w: string, N: string)
    requires |w| == 5 && ScaleWordAt(w, 0) && |N| > 0 && AllDigits(N) && PageText(page) == w + " 1=" + N
    ensures PageScale(page) == Found(ScaleInfo(Some(Feet), Some(DigitsValue(N) as real)))
  {
    RatioText(PageText(page), w, '=', N);
    RatioEqualsMatch(PageText(page));
    ArchMatchAtStart(page, ArchMatch("1", N));
    RatioEqualsReading(N);
  }

  lemma RatioEqualsMatch(t: string)
    requires RatioShape(t, '=')
    ensures ArchScaleAt(t, 0) == Some(ArchMatch("1", t[8..]))
  {
    SkipWhileIs(t, 5, 6, IsColonOrSpace);
    SkipWhileIs(t, 6, 7, IsLeftChar);
    SkipWhileIs(t, 7, 7, IsSpace);
    SkipWhileIs(t, 8, 8, IsSpace);
    SkipWhileIs(t, 8, |t|, IsRightChar);
    ArchScaleAtIs(t, 0, 6, 7, 7, 8, |t|);
    assert t[6..7] == "1" && t[8..|t|] == t[8..];
  }

  lemma RatioEqualsReading(N: string)
    requires |N| > 0 && AllDigits(N)
    ensures ArchOutcome(ArchMatch("1", N)) == Found(ScaleInfo(Some(Feet), Some(DigitsValue(N) as real)))
  {
    UnitLeftScale(ParseRight(N));
    InchesRightScale(N, Decimal(Some(1.0)));
  }

  lemma UnitLeftScale(inches: real)
    ensures FeetScale(ParseLeft("1"), inches) == Found(ScaleInfo(Some(Feet), Some(inches)))
  {
    ParseLeftWhole("1");
    assert DigitsValue("1") == 1;
  }

  lemma InchesRightScale(N: string, left: LeftValue)
    requires |N| > 0 && AllDigits(N)
    ensures FeetScale(left, ParseRight(N)) == FeetScale(left, DigitsValue(N) as real)
  {
    ParseRightInches(N);
  }

  /** A right side that reads as negative inches (`ParseRightNegative` shows
      `-N` does) gives a negative ratio whenever the left side is positive:
      nothing checks the sign of the right side. */
  lemma NegativeRightGivesNegativeRatio(m: ArchMatch)
    requires ParseLeft(m.left).Decimal? && ParseLeft(m.left).value.Some? && ParseLeft(m.left).value.value > 0.0
    requires ParseRight(m.right) < 0.0
    ensures ArchOutcome(m).Found? && ArchOutcome(m).info.ratio.Some? && ArchOutcome(m).info.ratio.value < 0.0
  {
    var v := ParseLeft(m.left).value.value;
    assert ArchOutcome(m).info.ratio.value == ParseRight(m.right) / v;
  }

  /** A left side of 1 makes the ratio the right side's inches. */
  lemma UnitLeftOutcome(right: string, inches: real)
    requires ParseRight(right) == inches
    ensures ArchOutcome(ArchMatch("1", right)) == Found(ScaleInfo(Some(Feet), Some(inches)))
  {
    UnitLeftScale(inches);
  }

  /** `scale 1:50` is the unitless ratio 50. */
  lemma OneToFiftyScenario(page: Page)
    requires PageText(page) == "scale 1:50"
    ensures PageScale(page) == Found(ScaleInfo(None, Some(50.0)))
  {
    assert "scale 1:50" == "scale" + " 1:" + "50";
    assert ScaleWordAt("scale", 0) && AllDigits("50");
    FiftyValue();
    RatioScale(page, "scale", "50");
  }

  lemma FiftyValue()
    ensures DigitsValue("50") == 50
  {
    assert "50"[..1] == "5" && "5"[..0] == "";
    assert DigitsValue("5") == 5;
  }

  // ----- pages without a scale -----

  predicate NoLetterS(s: string) {
    forall k :: 0 <= k < |s| ==> !IsLetterS(s[k])
  }

  /** A line without the letter s holds no SCALE annotation. */
  lemma NoScaleLine(s: string)
    requires NoLetterS(s)
    ensures !HasScaleLine(s)
  {
    assert forall k :: 0 <= k <= |s| ==> ScaleLineAt(s, k).None?;
  }

  /** Words without the letter s build a line without it. */
  lemma LineTextNoLetterS(lineWords: seq<Word>)
    requires forall w :: w in lineWords ==> NoLetterS(w.text)
    ensures NoLetterS(LineText(lineWords))
  {
    var sorted := SortBy(lineWords, WordOrder);
    SortByIsSortedPermutation(lineWords, WordOrder);
    assert forall i :: 0 <= i < |sorted| ==> sorted[i] in multiset(lineWords);
    var parts := Texts(sorted);
    forall i, k | 0 <= i < |parts| && 0 <= k < |parts[i]|
      ensures !IsLetterS(parts[i][k])
    {
      assert parts[i] == sorted[i].text && sorted[i] in lineWords;
    }
    JoinAvoids(parts, " ", IsLetterS);
  }

  /** When no word has the letter s, no reconstructed line is returned. */
  lemma NoReconstructedLine(words: seq<Word>)
    requires forall i :: 0 <= i < |words| ==> NoLetterS(words[i].text)
    ensures ReconstructedLine(words).None?
  {
    var groups := Grouped(LineKeys(words), words);
    var lines := ReconstructedLines(words);
    GroupedPartition(LineKeys(words), words);
    forall j | 0 <= j < |lines|
      ensures !HasScaleLine(lines[j])
    {
      forall w: Word | w in groups[j]
        ensures NoLetterS(w.text)
      {
        FlattenMember(groups, j, w);
        assert w in multiset(words);
      }
      LineTextNoLetterS(groups[j]);
      NoScaleLine(lines[j]);
    }
  }

  /** A page whose text has neither the letter s nor the digit 1, and whose
      words lack the letter s, is not to scale. */
  lemma NothingToScale(page: Page)
    requires NoLetterS(PageText(page))
    requires forall k :: 0 <= k < |PageText(page)| ==> PageText(page)[k] != '1'
    requires forall i :: 0 <= i < |page.words| ==> NoLetterS(page.words[i].text)
    ensures PageScale(page) == NotFound
  {
    var text := PageText(page);
    NoScaleWord(text);
    assert forall k :: 0 <= k <= |text| ==> InchToFeetAt(text, k).None?;
    NoReconstructedLine(page.words);
  }

  /** `NORTH ARROW`, with no scale word among the page's words either. */
  lemma NorthArrowScenario(page: Page)
    requires PageText(page) == "NORTH ARROW"
    requires forall i :: 0 <= i < |page.words| ==> NoLetterS(page.words[i].text)
    ensures PageScale(page) == NotFound
  {
    NothingToScale(page);
  }

  // ----- the proximity loop -----

  /** A bare `SCALE:` label next to the scale word is skipped, and the
      annotation after it is read by the value pattern: the quarter-inch
      annotation again gives 48. */
  lemma ProximitySkipsLabel()
    ensures ProximityScale(["SCALE:", "SCALE: 1/4\" = 1'-6\""]) == Found(ScaleInfo(Some(Feet), Some(48.0)))
  {
    var c := ["SCALE:", "SCALE: 1/4\" = 1'-6\""];
    BareLabel();
    QuarterCandidate();
    assert FirstSome(c, CandidateOutcome, 1) == Some((1, Found(ScaleInfo(Some(Feet), Some(48.0)))));
  }

  lemma BareLabel()
    ensures IsBareScaleLabel("SCALE:") && CandidateOutcome("SCALE:").None?
  {
    var s := "SCALE:";
    SkipWhileIs(s, 0, 0, IsSpace);
    SkipWhileIs(s, 5, 5, IsSpace);
    SkipWhileIs(s, 6, 6, IsSpace);
  }

  lemma QuarterCandidate()
    ensures CandidateOutcome("SCALE: 1/4\" = 1'-6\"") == Some(Found(ScaleInfo(Some(Feet), Some(48.0))))
  {
    var t := "SCALE: 1/4\" = 1'-6\"";
    SkipWhileIs(t, 0, 0, IsSpace);
    SkipWhileIs(t, 5, 5, IsSpace);
    SkipWhileIs(t, 6, 7, IsSpace);
    assert !IsBareScaleLabel(t);
    DashedInchesMatch();
    QuarterReading();
  }

  /** Text without `=` holds no value pattern. */
  lemma NoEqualsNoValue(s: string, i: nat)
    requires forall k :: 0 <= k < |s| ==> s[k] != '='
    ensures ValueAt(s, i).None?
  {
  }

  /** A plain `1:100` near the scale word is the unitless ratio 100. */
  lemma PairCandidate()
    ensures CandidateOutcome("1:100") == Some(Found(ScaleInfo(None, Some(100.0))))
  {
    var s := "1:100";
    SkipWhileIs(s, 0, 0, IsSpace);
    assert !ScaleWordAt(s, 0);
    NoValueInPair();
    PairSearchFinds();
  }

  lemma PairSearchFinds()
    ensures PairSearch("1:100") == Some((0, 100))
  {
    var s := "1:100";
    PairAtStart();
    SearchFindsFirst(s, k => PairRatioAt(s, k), 0);
  }

  lemma NoValueInPair()
    ensures ValueSearch("1:100").None?
  {
    var s := "1:100";
    assert s[0] == '1' && s[1] == ':' && s[2] == '1' && s[3] == '0' && s[4] == '0';
    NoEqualsNoValueSearch(s);
  }

  lemma NoEqualsNoValueSearch(s: string)
    requires forall k :: 0 <= k < |s| ==> s[k] != '='
    ensures ValueSearch(s).None?
  {
    forall k | 0 <= k <= |s|
      ensures ValueAt(s, k).None?
    {
      NoEqualsNoValue(s, k);
    }
  }

  lemma PairAtStart()
    ensures PairRatioAt("1:100", 0) == Some(100)
  {
    var s := "1:100";
    SkipWhileIs(s, 0, 1, IsDigit);
    SkipWhileIs(s, 1, 1, IsSpace);
    SkipWhileIs(s, 2, 2, IsSpace);
    SkipWhileIs(s, 2, 5, IsDigit);
    assert s[2..5] == "100";
    assert DigitsValue("100") == 100 by {
      assert "100"[..2] == "10" && "10"[..1] == "1" && "1"[..0] == "";
    }
  }
}
