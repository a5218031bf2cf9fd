/** The vectorizer service: the scale cascade run on each page's text, the
    line-reconstruction fallback over word boxes, the selection loop over text
    found near a scale label, and the assembly of the per-page response.
    PDF parsing is not modelled: a page arrives as the lines, text spans,
    paths and word boxes PyMuPDF extracted from it. */
module Vectorizer {
  import opened Utils
  import opened Scanner
  import opened StableSort
  import opened Grouping
  import opened ScalePatterns

  datatype Line = Line(start: seq<real>, end: seq<real>, length: Option<real>)
  datatype TextElement = TextElement(text: string, position: seq<real>, fontSize: Option<real>, bbox: Option<seq<real>>)
  datatype PathElement = PathElement(points: seq<seq<real>>)
  datatype ScaleInfo = ScaleInfo(units: Option<string>, ratio: Option<real>)
  datatype PageScaleInfo = PageScaleInfo(page: int, scale: Option<ScaleInfo>, nts: bool)
  datatype VectorizedPdfResponse = VectorizedPdfResponse(
    lines: seq<Line>, texts: seq<TextElement>, paths: seq<PathElement>,
    scales: seq<PageScaleInfo>, fallback: bool)

  /** How a scale lookup ends: with a scale, with none, or with the
      `ZeroDivisionError` that a fraction `a/0` raises. */
  datatype ScaleOutcome = Found(info: ScaleInfo) | NotFound | DivisionByZero

  /** A word box: its left edge, the key of its line (the rounded top edge,
      compared only for equality) and its text. */
  datatype Word = Word(x0: real, lineKey: real, text: string)

  /** What PyMuPDF extracts from a page. `texts` are the text spans, in block,
      line and span order. */
  datatype Page = Page(lines: seq<Line>, texts: seq<TextElement>, paths: seq<PathElement>, words: seq<Word>)

  datatype PdfOutcome = Returned(response: VectorizedPdfResponse) | RaisedDivisionByZero

  const Feet := "feet"

  /** The span texts joined with single spaces. */
  function PageText(page: Page): string {
    Join(seq(|page.texts|, i requires 0 <= i < |page.texts| => page.texts[i].text), " ")
  }

  // ----- the passes -----

  function ArchSearch(text: string): Option<(nat, ArchMatch)> {
    Search(text, k => ArchScaleAt(text, k), 0)
  }

  function RatioSearch(text: string): Option<(nat, nat)> {
    Search(text, k => RatioScaleAt(text, k), 0)
  }

  function InchSearch(text: string): Option<(nat, nat)> {
    Search(text, k => InchToFeetAt(text, k), 0)
  }

  function ValueSearch(text: string): Option<(nat, ValueMatch)> {
    Search(text, k => ValueAt(text, k), 0)
  }

  function PairSearch(text: string): Option<(nat, nat)> {
    Search(text, k => PairRatioAt(text, k), 0)
  }

  /** A feet-based scale from a left value and a right side in inches:
      always feet, and a ratio exactly when the left value is a positive
      number. A left side that raised propagates. */
  function FeetScale(left: LeftValue, inches: real): (r: ScaleOutcome)
    ensures !r.NotFound?
    ensures r.DivisionByZero? <==> left.LeftDivisionByZero?
    ensures r.Found? ==> r.info.units == Some(Feet)
    ensures r.Found? ==> (r.info.ratio.Some? <==> left.value.Some? && left.value.value > 0.0)
  {
    match left
    case LeftDivisionByZero => DivisionByZero
    case Decimal(v) =>
      if v.Some? && v.value > 0.0 then Found(ScaleInfo(Some(Feet), Some(inches / v.value)))
      else Found(ScaleInfo(Some(Feet), None))
  }

  /** The ratio is the right side over the left value: times the left value
      it gives back the right side, and it is not negative for a right side
      that is not. */
  lemma FeetScaleRatio(left: LeftValue, inches: real)
    ensures var r := FeetScale(left, inches);
      r.Found? && r.info.ratio.Some? ==>
        && r.info.ratio.value * left.value.value == inches
        && (inches >= 0.0 ==> r.info.ratio.value >= 0.0)
  {
    if left.Decimal? && left.value.Some? && left.value.value > 0.0 {
      DivTimes(inches, left.value.value);
    }
  }

  lemma DivTimes(a: real, b: real)
    requires b != 0.0
    ensures a / b * b == a
    ensures a >= 0.0 && b > 0.0 ==> a / b >= 0.0
  {
  }

  /** The architectural pass's reading of its match. */
  function ArchOutcome(m: ArchMatch): ScaleOutcome {
    FeetScale(ParseLeft(m.left), ParseRight(m.right))
  }

  predicate WellFormedValue(m: ValueMatch) {
    IsValueLeft(m.left) && AllDigits(m.feet) && (m.inches.Some? ==> AllDigits(m.inches.value))
  }

  /** `feet * 12 + inches`, with missing inches read as "0". */
  function ValueInches(m: ValueMatch): (r: real)
    requires WellFormedValue(m)
    ensures r >= 12.0 * DigitsValue(m.feet) as real
  {
    12.0 * DigitsValue(m.feet) as real + (match m.inches case Some(i) => DigitsValue(i) as real case None => 0.0)
  }

  /** The value pattern's reading, shared by the line fallback and the
      proximity loop. */
  function ValueOutcome(m: ValueMatch): ScaleOutcome
    requires WellFormedValue(m)
  {
    FeetScale(ValueLeft(m.left), ValueInches(m))
  }

  // ----- reconstructed lines -----

  function WordOrder(w: Word): SortKey {
    SortKey(w.x0, 0.0)
  }

  function LineKeys(words: seq<Word>): (r: seq<real>)
    ensures |r| == |words|
  {
    seq(|words|, i requires 0 <= i < |words| => words[i].lineKey)
  }

  /** The texts of `words`, in order. */
  function Texts(words: seq<Word>): (r: seq<string>)
    ensures |r| == |words|
    ensures forall i :: 0 <= i < |words| ==> r[i] == words[i].text
  {
    seq(|words|, i requires 0 <= i < |words| => words[i].text)
  }

  /** The words of a line in left-to-right order, joined with spaces. */
  function LineText(lineWords: seq<Word>): string {
    Join(Texts(SortBy(lineWords, WordOrder)), " ")
  }

  /** One text per line key, in the order the keys first occur. */
  function ReconstructedLines(words: seq<Word>): (r: seq<string>)
    ensures |r| == |FirstSeen(LineKeys(words))|
  {
    var groups := Grouped(LineKeys(words), words);
    seq(|groups|, j requires 0 <= j < |groups| => LineText(groups[j]))
  }

  /** What `extract_scale_by_reconstructing_lines` returns. */
  function ReconstructedLine(words: seq<Word>): Option<string> {
    var lines := ReconstructedLines(words);
    match FirstWhere(lines, HasScaleLine, 0)
    case Some(j) => Some(lines[j])
    case None => None
  }

  /** The fourth pass: the value pattern searched on the reconstructed line. */
  function ReconstructedOutcome(words: seq<Word>): ScaleOutcome {
    match ReconstructedLine(words)
    case None => NotFound
    case Some(line) =>
      match ValueSearch(line)
      case None => NotFound
      case Some((_, m)) => ValueOutcome(m)
  }

  /** `extract_scale`: the four passes in order; the first that matches decides. */
  function PageScale(page: Page): ScaleOutcome {
    var text := PageText(page);
    match ArchSearch(text)
    case Some((_, m)) => ArchOutcome(m)
    case None =>
      match RatioSearch(text)
      case Some((_, n)) => Found(ScaleInfo(None, Some(n as real)))
      case None =>
        match InchSearch(text)
        case Some((_, n)) => Found(ScaleInfo(Some(Feet), Some(n as real)))
        case None => ReconstructedOutcome(page.words)
  }

  /** Groups the words by line key, then returns the first line, in first-seen
      key order, that holds a SCALE annotation; no later line is built. */
  method ExtractScaleByReconstructingLines(words: seq<Word>) returns (line: Option<string>)
    ensures line == ReconstructedLine(words)
  {
    var groups := GroupByKey(LineKeys(words), words);
    ghost var lines := ReconstructedLines(words);
    assert |lines| == |groups|;
    for j := 0 to |groups|
      invariant FirstWhere(lines, HasScaleLine, j) == FirstWhere(lines, HasScaleLine, 0)
    {
      var fullLine := BuildLine(groups[j]);
      assert fullLine == lines[j];
      if HasScaleLine(fullLine) {
        return Some(fullLine);
      }
    }
    return None;
  }

  /** The words of one line sorted by x and joined with spaces: the texts, in
      order, of a rearrangement of the words that is sorted by `x0` and keeps
      words with equal `x0` in their original order. */
  method BuildLine(lineWords: seq<Word>) returns (fullLine: string)
    ensures fullLine == LineText(lineWords)
    ensures exists sorted: seq<Word> ::
      && SortedBy(sorted, WordOrder)
      && multiset(sorted) == multiset(lineWords)
      && (forall k :: WithKey(sorted, WordOrder, k) == WithKey(lineWords, WordOrder, k))
      && fullLine == Join(Texts(sorted), " ")
  {
    var sortedWords := SortBy(lineWords, WordOrder);
    SortByIsSortedPermutation(lineWords, WordOrder);
    forall k ensures WithKey(sortedWords, WordOrder, k) == WithKey(lineWords, WordOrder, k) {
      SortByIsStable(lineWords, WordOrder, k);
    }
    fullLine := Join(Texts(sortedWords), " ");
  }

  method ExtractScale(page: Page) returns (outcome: ScaleOutcome)
    ensures outcome == PageScale(page)
  {
    var pageText := PageText(page);
    var arch := ArchSearch(pageText);
    if arch.Some? {
      return ArchOutcome(arch.value.1);
    }
    var ratio := RatioSearch(pageText);
    if ratio.Some? {
      return Found(ScaleInfo(None, Some(ratio.value.1 as real)));
    }
    var inch := InchSearch(pageText);
    if inch.Some? {
      return Found(ScaleInfo(Some(Feet), Some(inch.value.1 as real)));
    }
    var reconstructedLine := ExtractScaleByReconstructingLines(page.words);
    if reconstructedLine.Some? {
      var value := ValueSearch(reconstructedLine.value);
      if value.Some? {
        return ValueOutcome(value.value.1);
      }
    }
    return NotFound;
  }

  // ----- the proximity loop -----

  /** The first element, from `from` on, for which `f` gives a value: its
      index and that value. */
  function FirstSome<T, R>(s: seq<T>, f: T -> Option<R>, from: nat): (r: Option<(nat, R)>)
    requires from <= |s|
    ensures r.Some? ==> from <= r.value.0 < |s| && f(s[r.value.0]) == Some(r.value.1)
    ensures r.Some? ==> forall j :: from <= j < r.value.0 ==> f(s[j]).None?
    ensures r.None? <==> forall j :: from <= j < |s| ==> f(s[j]).None?
    decreases |s| - from
  {
    if from == |s| then None
    else
      match f(s[from])
      case Some(v) => Some((from, v))
      case None => FirstSome(s, f, from + 1)
  }

  /** What one candidate text gives: nothing when it is a bare scale label or
      holds neither a value nor an `N:M` pair (the loop moves on), otherwise
      the outcome it returns. */
  function CandidateOutcome(text: string): (r: Option<ScaleOutcome>)
    ensures r.Some? ==> !r.value.NotFound?
    ensures IsBareScaleLabel(text) ==> r.None?
  {
    if IsBareScaleLabel(text) then None
    else
      match ValueSearch(text)
      case Some((_, m)) => Some(ValueOutcome(m))
      case None =>
        match PairSearch(text)
        case Some((_, n)) => Some(Found(ScaleInfo(None, Some(n as real))))
        case None => None
  }

  /** The candidates are tried in order; the first that gives an outcome
      decides, and no such candidate means no scale. */
  function ProximityScale(candidates: seq<string>): (r: ScaleOutcome)
    ensures r.NotFound? <==> forall i :: 0 <= i < |candidates| ==> CandidateOutcome(candidates[i]).None?
    ensures !r.NotFound? ==>
      exists i :: 0 <= i < |candidates| && CandidateOutcome(candidates[i]) == Some(r)
        && forall j :: 0 <= j < i ==> CandidateOutcome(candidates[j]).None?
  {
    match FirstSome(candidates, CandidateOutcome, 0)
    case Some((_, outcome)) => outcome
    case None => NotFound
  }

  /** The loop over the texts near a scale label, already in distance order. */
  method FindScaleByProximity(candidates: seq<string>) returns (outcome: ScaleOutcome)
    ensures outcome == ProximityScale(candidates)
  {
    for i := 0 to |candidates|
      invariant FirstSome(candidates, CandidateOutcome, i) == FirstSome(candidates, CandidateOutcome, 0)
    {
      var nearbyText := candidates[i];
      if IsBareScaleLabel(nearbyText) {
        continue;
      }
      var scaleMatch := ValueSearch(nearbyText);
      if scaleMatch.Some? {
        return ValueOutcome(scaleMatch.value.1);
      }
      var pair := PairSearch(nearbyText);
      if pair.Some? {
        return Found(ScaleInfo(None, Some(pair.value.1 as real)));
      }
    }
    return NotFound;
  }

  // ----- the response -----

  /** The concatenation of one extracted list over the pages. */
  function Collect<T>(pages: seq<Page>, part: Page -> seq<T>): (r: seq<T>)
    ensures pages == [] ==> r == []
  {
    if |pages| == 0 then [] else Collect(pages[..|pages| - 1], part) + part(pages[|pages| - 1])
  }

  function LinesOf(page: Page): seq<Line> { page.lines }
  function TextsOf(page: Page): seq<TextElement> { page.texts }
  function PathsOf(page: Page): seq<PathElement> { page.paths }

  /** The page's entry: its number, its scale, and `nts` when it has none. */
  function ScaleEntry(number: int, outcome: ScaleOutcome): (e: PageScaleInfo)
    ensures e.page == number && (e.nts <==> !outcome.Found?)
    ensures e.scale.Some? <==> outcome.Found?
    ensures outcome.Found? ==> e.scale == Some(outcome.info)
  {
    if outcome.Found? then PageScaleInfo(number, Some(outcome.info), false)
    else PageScaleInfo(number, None, true)
  }

  /** The page loop of `vectorize_pdf` for a vector document, with the scale
      lookup `scaleOf`: each page extends the three lists and adds its scale
      entry, and a lookup that raises aborts everything. */
  function Assemble(pages: seq<Page>, scaleOf: Page -> ScaleOutcome): PdfOutcome {
    if |pages| == 0 then Returned(VectorizedPdfResponse([], [], [], [], false))
    else
      var page := pages[|pages| - 1];
      match Assemble(pages[..|pages| - 1], scaleOf)
      case RaisedDivisionByZero => RaisedDivisionByZero
      case Returned(resp) =>
        if scaleOf(page).DivisionByZero? then RaisedDivisionByZero
        else Returned(VectorizedPdfResponse(
          resp.lines + page.lines, resp.texts + page.texts, resp.paths + page.paths,
          resp.scales + [ScaleEntry(|pages|, scaleOf(page))], false))
  }

  lemma AssembleStep(pages: seq<Page>, i: nat, scaleOf: Page -> ScaleOutcome)
    requires i < |pages|
    ensures Assemble(pages[..i + 1], scaleOf) ==
      match Assemble(pages[..i], scaleOf)
      case RaisedDivisionByZero => RaisedDivisionByZero
      case Returned(resp) =>
        if scaleOf(pages[i]).DivisionByZero? then RaisedDivisionByZero
        else Returned(VectorizedPdfResponse(
          resp.lines + pages[i].lines, resp.texts + pages[i].texts, resp.paths + pages[i].paths,
          resp.scales + [ScaleEntry(i + 1, scaleOf(pages[i]))], false))
  {
    assert pages[..i + 1][..i] == pages[..i];
  }

  /** Once a page has raised, so has every longer document. */
  lemma {:induction false} AssembleRaisedStays(pages: seq<Page>, k: nat, scaleOf: Page -> ScaleOutcome)
    requires k <= |pages| && Assemble(pages[..k], scaleOf).RaisedDivisionByZero?
    ensures Assemble(pages, scaleOf).RaisedDivisionByZero?
    decreases |pages| - k
  {
    if k < |pages| {
      AssembleStep(pages, k, scaleOf);
      AssembleRaisedStays(pages, k + 1, scaleOf);
    } else {
      assert pages[..k] == pages;
    }
  }

  /** The assembled document raises exactly when some page's lookup raises. */
  lemma {:induction false} AssembleRaises(pages: seq<Page>, scaleOf: Page -> ScaleOutcome)
    ensures Assemble(pages, scaleOf).RaisedDivisionByZero? <==>
      exists i :: 0 <= i < |pages| && scaleOf(pages[i]).DivisionByZero?
    decreases |pages|
  {
    if |pages| > 0 {
      var init := pages[..|pages| - 1];
      AssembleRaises(init, scaleOf);
      assert forall i :: 0 <= i < |init| ==> init[i] == pages[i];
    }
  }

  /** A document that does not raise yields, in page order, the concatenated
      lines, texts and paths, and one scale entry per page numbered from 1. */
  lemma {:induction false} AssembleReturns(pages: seq<Page>, scaleOf: Page -> ScaleOutcome)
    requires Assemble(pages, scaleOf).Returned?
    ensures var resp := Assemble(pages, scaleOf).response;
      && !resp.fallback
      && resp.lines == Collect(pages, LinesOf)
      && resp.texts == Collect(pages, TextsOf)
      && resp.paths == Collect(pages, PathsOf)
      && |resp.scales| == |pages|
      && forall i :: 0 <= i < |pages| ==> resp.scales[i] == ScaleEntry(i + 1, scaleOf(pages[i]))
    decreases |pages|
  {
    if |pages| > 0 {
      var init := pages[..|pages| - 1];
      AssembleReturns(init, scaleOf);
      assert forall i :: 0 <= i < |init| ==> init[i] == pages[i];
    }
  }

  /** `vectorize_pdf`: the empty fallback response for a document that is not
      a vector PDF, otherwise the page loop with `extract_scale` as the lookup. */
  method VectorizePdf(isVectorPdf: bool, pages: seq<Page>) returns (r: PdfOutcome)
    ensures !isVectorPdf ==> r == Returned(VectorizedPdfResponse([], [], [], [], true))
    ensures isVectorPdf ==> r == Assemble(pages, PageScale)
  {
    if !isVectorPdf {
      return Returned(VectorizedPdfResponse([], [], [], [], true));
    }
    var lines: seq<Line>, texts: seq<TextElement>, paths: seq<PathElement> := [], [], [];
    var pageScales: seq<PageScaleInfo> := [];
    for i := 0 to |pages|
      invariant Assemble(pages[..i], PageScale) == Returned(VectorizedPdfResponse(lines, texts, paths, pageScales, false))
    {
      AssembleStep(pages, i, PageScale);
      lines := lines + pages[i].lines;
      texts := texts + pages[i].texts;
      paths := paths + pages[i].paths;
      var scale := ExtractScale(pages[i]);
      if scale.DivisionByZero? {
        AssembleRaisedStays(pages, i + 1, PageScale);
        return RaisedDivisionByZero;
      }
      if scale.Found? {
        pageScales := pageScales + [PageScaleInfo(i + 1, Some(scale.info), false)];
      } else {
        pageScales := pageScales + [PageScaleInfo(i + 1, None, true)];
      }
    }
    assert pages[..|pages|] == pages;
    return Returned(VectorizedPdfResponse(lines, texts, paths, pageScales, false));
  }
}
