/** The two converters from EasyOCR detections to boxed text items: the
    PDF-to-image service's `format_easyocr_result` and the OCR service's
    `process_image` loop. A detection is a quadrilateral of real corner
    coordinates, a text and a confidence. The two truncate at different
    points: the first truncates the unrounded extent, the second subtracts
    the already truncated corner. */
module EasyOcr {
  import opened OcrModels

  datatype Corner = Corner(x: real, y: real)
  datatype Detection = Detection(quad: seq<Corner>, text: string, confidence: real)

  datatype BBox = BBox(x: int, y: int, width: int, height: int)
  datatype Pdf2ImageItem = Pdf2ImageItem(text: string, confidence: real, bbox: BBox, status: string)

  const DefaultConfidenceThreshold: real := 0.80
  const LowConfidence := "low_confidence"
  const Ok := "ok"

  /** Python's `int()` on a float: truncation towards zero. */
  function Trunc(v: real): (r: int)
    ensures v >= 0.0 ==> r as real <= v < r as real + 1.0
    ensures v < 0.0 ==> r as real - 1.0 < v <= r as real
  {
    if v >= 0.0 then v.Floor else -((-v).Floor)
  }

  /** Truncation keeps the sign and loses less than 1. */
  lemma TruncBounds(v: real)
    ensures v >= 0.0 ==> Trunc(v) >= 0
    ensures v > -1.0 ==> Trunc(v) >= 0
    ensures v <= 0.0 ==> Trunc(v) <= 0
  {
  }

  function Xs(quad: seq<Corner>): (r: seq<real>)
    ensures |r| == |quad| && forall k :: 0 <= k < |quad| ==> r[k] == quad[k].x
  {
    seq(|quad|, k requires 0 <= k < |quad| => quad[k].x)
  }

  function Ys(quad: seq<Corner>): (r: seq<real>)
    ensures |r| == |quad| && forall k :: 0 <= k < |quad| ==> r[k] == quad[k].y
  {
    seq(|quad|, k requires 0 <= k < |quad| => quad[k].y)
  }

  /** Python's `min` on the coordinates. */
  function MinOf(s: seq<real>): (r: real)
    requires |s| > 0
    ensures forall k :: 0 <= k < |s| ==> r <= s[k]
  {
    if |s| == 1 then s[0]
    else
      var m := MinOf(s[..|s| - 1]);
      assert forall k :: 0 <= k < |s| - 1 ==> s[..|s| - 1][k] == s[k];
      if s[|s| - 1] < m then s[|s| - 1] else m
  }

  /** Python's `max` on the coordinates. */
  function MaxOf(s: seq<real>): (r: real)
    requires |s| > 0
    ensures forall k :: 0 <= k < |s| ==> s[k] <= r
  {
    if |s| == 1 then s[0]
    else
      var m := MaxOf(s[..|s| - 1]);
      assert forall k :: 0 <= k < |s| - 1 ==> s[..|s| - 1][k] == s[k];
      if s[|s| - 1] > m then s[|s| - 1] else m
  }

  lemma MinAtMostMax(s: seq<real>)
    requires |s| > 0
    ensures MinOf(s) <= MaxOf(s)
  {
    assert MinOf(s) <= s[0] <= MaxOf(s);
  }

  // ----- format_easyocr_result -----

  /** `"low_confidence"` below the threshold, `"ok"` from it on. */
  function Status(confidence: real, threshold: real): (s: string)
    ensures s == LowConfidence <==> confidence < threshold
    ensures s == Ok <==> confidence >= threshold
  {
    if confidence < threshold then LowConfidence else Ok
  }

  /** Python's rounding of a number to a whole one: to the nearest, and on a
      tie to the even neighbour. */
  function RoundHalfEven(v: real): (n: int)
    ensures -0.5 <= n as real - v <= 0.5
    ensures (n as real - v == 0.5 || v - n as real == 0.5) ==> n % 2 == 0
  {
    var f := v.Floor;
    var d := v - f as real;
    if d < 0.5 then f else if d > 0.5 then f + 1 else if f % 2 == 0 then f else f + 1
  }

  /** `round(v, 4)` on the exact value: a multiple of 1/10000 within half of
      that from `v`. */
  function Round4(v: real): (r: real)
    ensures -0.00005 <= r - v <= 0.00005
    ensures (r * 10000.0).Floor as real == r * 10000.0
  {
    RoundHalfEven(v * 10000.0) as real / 10000.0
  }

  /** Rounding a rounded confidence again changes nothing. */
  lemma Round4Idempotent(v: real)
    ensures Round4(Round4(v)) == Round4(v)
  {
    var n := RoundHalfEven(v * 10000.0);
    assert Round4(v) * 10000.0 == n as real;
    assert RoundHalfEven(n as real) == n;
  }

  /** One item: the text unchanged, the confidence rounded to four decimals,
      the truncated lower corner, the truncated extents and the status, which
      compares the unrounded confidence. */
  function FormatItem(d: Detection, threshold: real): (item: Pdf2ImageItem)
    requires |d.quad| > 0
    ensures item.text == d.text && item.confidence == Round4(d.confidence)
    ensures item.bbox.x == Trunc(MinOf(Xs(d.quad))) && item.bbox.y == Trunc(MinOf(Ys(d.quad)))
    ensures item.bbox.width >= 0 && item.bbox.height >= 0
    ensures item.status == Status(d.confidence, threshold)
  {
    var xs, ys := Xs(d.quad), Ys(d.quad);
    var x, y := MinOf(xs), MinOf(ys);
    var width, height := MaxOf(xs) - x, MaxOf(ys) - y;
    MinAtMostMax(xs);
    MinAtMostMax(ys);
    TruncBounds(width);
    TruncBounds(height);
    Pdf2ImageItem(d.text, Round4(d.confidence), BBox(Trunc(x), Trunc(y), Trunc(width), Trunc(height)), Status(d.confidence, threshold))
  }

  /** The width and height are the truncated distances between the extreme
      coordinates. */
  lemma FormatItemExtents(d: Detection, threshold: real)
    requires |d.quad| > 0
    ensures var b := FormatItem(d, threshold).bbox;
      && b.width == Trunc(MaxOf(Xs(d.quad)) - MinOf(Xs(d.quad)))
      && b.height == Trunc(MaxOf(Ys(d.quad)) - MinOf(Ys(d.quad)))
  {
  }

  /** The loop of `format_easyocr_result`: one item per detection, in order. */
  method FormatEasyOcrResult(results: seq<Detection>, confidenceThreshold: real) returns (formatted: seq<Pdf2ImageItem>)
    requires forall i :: 0 <= i < |results| ==> |results[i].quad| > 0
    ensures |formatted| == |results|
    ensures forall i :: 0 <= i < |results| ==> formatted[i] == FormatItem(results[i], confidenceThreshold)
  {
    formatted := [];
    for i := 0 to |results|
      invariant |formatted| == i
      invariant forall k :: 0 <= k < i ==> formatted[k] == FormatItem(results[k], confidenceThreshold)
    {
      var d := results[i];
      var xCoords, yCoords := Xs(d.quad), Ys(d.quad);
      var x, y := MinOf(xCoords), MinOf(yCoords);
      var width, height := MaxOf(xCoords) - x, MaxOf(yCoords) - y;
      var status := if d.confidence < confidenceThreshold then LowConfidence else Ok;
      formatted := formatted + [Pdf2ImageItem(d.text, Round4(d.confidence), BBox(Trunc(x), Trunc(y), Trunc(width), Trunc(height)), status)];
    }
  }

  // ----- process_image -----

  /** One OCR item: the text and confidence unchanged, the truncated lower
      corner, and extents measured from that truncated corner. */
  function TextItem(d: Detection): (item: OcrTextItem)
    requires |d.quad| > 0
    ensures item.text == d.text && item.confidence == d.confidence
    ensures item.boundingBox.x == Trunc(MinOf(Xs(d.quad))) && item.boundingBox.y == Trunc(MinOf(Ys(d.quad)))
    ensures item.boundingBox.width == Trunc(MaxOf(Xs(d.quad)) - item.boundingBox.x as real)
    ensures item.boundingBox.height == Trunc(MaxOf(Ys(d.quad)) - item.boundingBox.y as real)
  {
    var xs, ys := Xs(d.quad), Ys(d.quad);
    var x, y := Trunc(MinOf(xs)), Trunc(MinOf(ys));
    OcrTextItem(d.text, BoundingBox(x, y, Trunc(MaxOf(xs) - x as real), Trunc(MaxOf(ys) - y as real)), d.confidence)
  }

  /** Measured from the truncated corner, which lies within 1 of the true
      minimum, the extents are still never negative. */
  lemma TextItemExtentsNotNegative(d: Detection)
    requires |d.quad| > 0
    ensures TextItem(d).boundingBox.width >= 0 && TextItem(d).boundingBox.height >= 0
  {
    var xs, ys := Xs(d.quad), Ys(d.quad);
    MinAtMostMax(xs);
    MinAtMostMax(ys);
    TruncedCornerExtent(MinOf(xs), MaxOf(xs));
    TruncedCornerExtent(MinOf(ys), MaxOf(ys));
  }

  lemma TruncedCornerExtent(lo: real, hi: real)
    requires lo <= hi
    ensures Trunc(hi - Trunc(lo) as real) >= 0
  {
    assert hi - Trunc(lo) as real > -1.0;
    TruncBounds(hi - Trunc(lo) as real);
  }

  /** The loop of `process_image`: one item per detection, in order. */
  method ProcessDetections(results: seq<Detection>) returns (ocrItems: seq<OcrTextItem>)
    requires forall i :: 0 <= i < |results| ==> |results[i].quad| > 0
    ensures |ocrItems| == |results|
    ensures forall i :: 0 <= i < |results| ==> ocrItems[i] == TextItem(results[i])
  {
    ocrItems := [];
    for i := 0 to |results|
      invariant |ocrItems| == i
      invariant forall k :: 0 <= k < i ==> ocrItems[k] == TextItem(results[k])
    {
      var d := results[i];
      var xCoords, yCoords := Xs(d.quad), Ys(d.quad);
      var x, y := Trunc(MinOf(xCoords)), Trunc(MinOf(yCoords));
      var width, height := Trunc(MaxOf(xCoords) - x as real), Trunc(MaxOf(yCoords) - y as real);
      ocrItems := ocrItems + [OcrTextItem(d.text, BoundingBox(x, y, width, height), d.confidence)];
    }
  }

  // ----- how the two converters differ -----

  /** On whole, non-negative coordinates the two converters give the same box. */
  lemma SameBoxOnWholeCoordinates(d: Detection, threshold: real)
    requires |d.quad| > 0
    requires forall k :: 0 <= k < |d.quad| ==> d.quad[k].x == d.quad[k].x.Floor as real && d.quad[k].x >= 0.0
    requires forall k :: 0 <= k < |d.quad| ==> d.quad[k].y == d.quad[k].y.Floor as real && d.quad[k].y >= 0.0
    ensures var a, b := FormatItem(d, threshold).bbox, TextItem(d).boundingBox;
      a.x == b.x && a.y == b.y && a.width == b.width && a.height == b.height
  {
    var xs, ys := Xs(d.quad), Ys(d.quad);
    WholeMinimum(xs);
    WholeMinimum(ys);
  }

  /** The minimum of whole, non-negative values is one of them, so it is whole. */
  lemma {:induction false} WholeMinimum(s: seq<real>)
    requires |s| > 0 && forall k :: 0 <= k < |s| ==> s[k] == s[k].Floor as real && s[k] >= 0.0
    ensures Trunc(MinOf(s)) as real == MinOf(s)
  {
    if |s| > 1 {
      var init := s[..|s| - 1];
      assert forall k :: 0 <= k < |init| ==> init[k] == s[k];
      WholeMinimum(init);
    }
  }

  /** Corners at 0.5 and 2.2: the first converter truncates the width 1.7 to
      1, the second measures 2.2 from the truncated corner 0 and gives 2. */
  lemma WidthsDiffer()
    ensures var d := Detection([Corner(0.5, 0.0), Corner(2.2, 0.0), Corner(2.2, 1.0), Corner(0.5, 1.0)], "A", 0.9);
      FormatItem(d, DefaultConfidenceThreshold).bbox.width == 1 && TextItem(d).boundingBox.width == 2
  {
    var d := Detection([Corner(0.5, 0.0), Corner(2.2, 0.0), Corner(2.2, 1.0), Corner(0.5, 1.0)], "A", 0.9);
    assert Xs(d.quad) == [0.5, 2.2, 2.2, 0.5];
    ExampleExtremes();
  }

  lemma ExampleExtremes()
    ensures MinOf([0.5, 2.2, 2.2, 0.5]) == 0.5 && MaxOf([0.5, 2.2, 2.2, 0.5]) == 2.2
  {
    var xs: seq<real> := [0.5, 2.2, 2.2, 0.5];
    assert xs[..3] == [0.5, 2.2, 2.2] && xs[..3][..2] == [0.5, 2.2] && xs[..3][..2][..1] == [0.5];
    assert MinOf([0.5]) == 0.5 && MaxOf([0.5]) == 0.5;
    assert MinOf([0.5, 2.2]) == 0.5 && MaxOf([0.5, 2.2]) == 2.2;
    assert MinOf([0.5, 2.2, 2.2]) == 0.5 && MaxOf([0.5, 2.2, 2.2]) == 2.2;
  }

  /** With a non-negative corner the second converter's width is the first's
      or one more. */
  lemma WidthsWithinOne(d: Detection, threshold: real)
    requires |d.quad| > 0 && MinOf(Xs(d.quad)) >= 0.0
    ensures var a, b := FormatItem(d, threshold).bbox.width, TextItem(d).boundingBox.width;
      a <= b <= a + 1
  {
    var xs := Xs(d.quad);
    MinAtMostMax(xs);
  }
}
