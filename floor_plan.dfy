/** The label-to-room matcher of the floor-plan processor: each OCR label's
    centre is matched to the first room contour that holds it, boundary
    included, and the matched room's extent is converted to metres with the
    processor's `scale` (pixels per metre). Contour detection with OpenCV is
    not modelled: the contours arrive as integer polygons, and OpenCV's
    `pointPolygonTest(...) >= 0` is stood in for by an integer
    boundary-inclusive crossing-number test. */
module FloorPlan {
  import opened Utils

  datatype Point = Point(x: int, y: int)
  datatype BoundingBox = BoundingBox(x: int, y: int, width: int, height: int)

  /** One OCR result: its text, its box and its confidence, if given. */
  datatype OcrLabel = OcrLabel(text: string, box: BoundingBox, confidence: Option<real>)

  datatype RealSize = RealSize(widthM: real, heightM: real)

  datatype RoomLabelResult = RoomLabelResult(
    labelText: string, box: BoundingBox, points: seq<Point>, realSize: Option<RealSize>, confidence: Option<real>)

  /** A room contour: at least three integer vertices, in order. */
  predicate IsContour(poly: seq<Point>) {
    |poly| >= 3
  }

  // ----- the centre -----

  /** Python's `a // b`, for a positive `b`. Dafny's `/` rounds towards minus
      infinity when the divisor is positive, as Python's floor division does. */
  function FloorDiv(a: int, b: int): (q: int)
    requires b > 0
    ensures q * b <= a < q * b + b
  {
    a / b
  }

  /** `(x + width // 2, y + height // 2)`. */
  function Center(box: BoundingBox): (c: Point)
    ensures 2 * (c.x - box.x) <= box.width < 2 * (c.x - box.x) + 2
    ensures 2 * (c.y - box.y) <= box.height < 2 * (c.y - box.y) + 2
  {
    Point(box.x + FloorDiv(box.width, 2), box.y + FloorDiv(box.height, 2))
  }

  // ----- containment -----

  /** The edge from vertex `k` to the next one, wrapping around. */
  function EdgeEnd(poly: seq<Point>, k: nat): Point
    requires k < |poly|
  {
    poly[(k + 1) % |poly|]
  }

  function Min(a: int, b: int): int { if a <= b then a else b }
  function Max(a: int, b: int): int { if a <= b then b else a }

  /** `p` lies on the segment from `a` to `b`. */
  predicate OnSegment(p: Point, a: Point, b: Point) {
    && (b.x - a.x) * (p.y - a.y) == (b.y - a.y) * (p.x - a.x)
    && Min(a.x, b.x) <= p.x <= Max(a.x, b.x)
    && Min(a.y, b.y) <= p.y <= Max(a.y, b.y)
  }

  /** The ray from `p` to the right crosses the edge from `a` to `b`: the edge
      straddles the ray's line (one end above, the other not) and meets it to
      the right of `p`. The comparison is the intersection test multiplied
      out by the edge's height. */
  predicate Crosses(p: Point, a: Point, b: Point) {
    && ((a.y > p.y) != (b.y > p.y))
    && if b.y > a.y then (p.x - a.x) * (b.y - a.y) < (p.y - a.y) * (b.x - a.x)
       else (p.x - a.x) * (b.y - a.y) > (p.y - a.y) * (b.x - a.x)
  }

  predicate OnBoundary(poly: seq<Point>, p: Point) {
    exists k :: 0 <= k < |poly| && OnSegment(p, poly[k], EdgeEnd(poly, k))
  }

  /** How many of the first `n` edges the ray from `p` crosses. */
  function Crossings(poly: seq<Point>, p: Point, n: nat): (r: nat)
    requires n <= |poly|
    ensures r <= n
  {
    if n == 0 then 0
    else Crossings(poly, p, n - 1) + if Crosses(p, poly[n - 1], EdgeEnd(poly, n - 1)) then 1 else 0
  }

  /** `pointPolygonTest(poly, p, False) >= 0`: on the boundary or inside. */
  predicate ContainsPoint(poly: seq<Point>, p: Point) {
    OnBoundary(poly, p) || Crossings(poly, p, |poly|) % 2 == 1
  }

  // ----- extents -----

  function Xs(poly: seq<Point>): (r: seq<int>)
    ensures |r| == |poly| && forall k :: 0 <= k < |poly| ==> r[k] == poly[k].x
  {
    seq(|poly|, k requires 0 <= k < |poly| => poly[k].x)
  }

  function Ys(poly: seq<Point>): (r: seq<int>)
    ensures |r| == |poly| && forall k :: 0 <= k < |poly| ==> r[k] == poly[k].y
  {
    seq(|poly|, k requires 0 <= k < |poly| => poly[k].y)
  }

  /** Python's `max`: an element no smaller than any other. */
  function MaxOf(s: seq<int>): (r: int)
    requires |s| > 0
    ensures forall k :: 0 <= k < |s| ==> s[k] <= r
  {
    if |s| == 1 then s[0]
    else
      var m := MaxOf(s[..|s| - 1]);
      assert forall k :: 0 <= k < |s| - 1 ==> s[..|s| - 1][k] == s[k];
      if s[|s| - 1] > m then s[|s| - 1] else m
  }

  /** Python's `min`: an element no larger than any other. */
  function MinOf(s: seq<int>): (r: int)
    requires |s| > 0
    ensures forall k :: 0 <= k < |s| ==> r <= s[k]
  {
    if |s| == 1 then s[0]
    else
      var m := MinOf(s[..|s| - 1]);
      assert forall k :: 0 <= k < |s| - 1 ==> s[..|s| - 1][k] == s[k];
      if s[|s| - 1] < m then s[|s| - 1] else m
  }

  /** The maximum and the minimum are elements. */
  lemma {:induction false} ExtremesAttained(s: seq<int>)
    requires |s| > 0
    ensures exists k :: 0 <= k < |s| && s[k] == MaxOf(s)
    ensures exists k :: 0 <= k < |s| && s[k] == MinOf(s)
  {
    if |s| > 1 {
      var init := s[..|s| - 1];
      ExtremesAttained(init);
      var i :| 0 <= i < |init| && init[i] == MaxOf(init);
      var j :| 0 <= j < |init| && init[j] == MinOf(init);
      assert s[i] == init[i] && s[j] == init[j];
      var last := |s| - 1;
      assert MaxOf(s) == if s[last] > MaxOf(init) then s[last] else MaxOf(init);
      assert MinOf(s) == if s[last] < MinOf(init) then s[last] else MinOf(init);
      if s[last] > MaxOf(init) { assert s[last] == MaxOf(s); } else { assert s[i] == MaxOf(s); }
      if s[last] < MinOf(init) { assert s[last] == MinOf(s); } else { assert s[j] == MinOf(s); }
    } else {
      assert s[0] == MaxOf(s) == MinOf(s);
    }
  }

  /** `max(coords) - min(coords)`: never negative. */
  function Extent(coords: seq<int>): (r: int)
    requires |coords| > 0
    ensures r >= 0
  {
    MaxOf(coords) - MinOf(coords)
  }

  /** The real size of a matched room: nothing when `scale` is missing or 0 (a
      falsy value), otherwise the pixel extents divided by `scale`. */
  function RealSizeOf(poly: seq<Point>, scale: Option<real>): (r: Option<RealSize>)
    requires |poly| > 0
    ensures r.Some? <==> scale.Some? && scale.value != 0.0
  {
    if scale.None? || scale.value == 0.0 then None
    else Some(RealSize(Extent(Xs(poly)) as real / scale.value, Extent(Ys(poly)) as real / scale.value))
  }

  /** The size times the scale gives back the pixel extents, and a positive
      scale gives a size that is not negative. */
  lemma RealSizeScales(poly: seq<Point>, scale: Option<real>)
    requires |poly| > 0
    ensures var r := RealSizeOf(poly, scale);
      r.Some? ==>
        && r.value.widthM * scale.value == Extent(Xs(poly)) as real
        && r.value.heightM * scale.value == Extent(Ys(poly)) as real
        && (scale.value > 0.0 ==> r.value.widthM >= 0.0 && r.value.heightM >= 0.0)
  {
    if scale.Some? && scale.value != 0.0 {
      ScaledExtents(Extent(Xs(poly)), Extent(Ys(poly)), scale.value);
    }
  }

  lemma ScaledExtents(w: nat, h: nat, s: real)
    requires s != 0.0
    ensures (w as real / s) * s == w as real && (h as real / s) * s == h as real
    ensures s > 0.0 ==> w as real / s >= 0.0 && h as real / s >= 0.0
  {
    DivScale(w as real, s);
    DivScale(h as real, s);
  }

  lemma DivScale(a: real, s: real)
    requires s != 0.0
    ensures a / s * s == a
    ensures a >= 0.0 && s > 0.0 ==> a / s >= 0.0
  {
  }

  // ----- the room of one label -----

  /** The predicate the inner loop tests, for one centre. */
  function HoldsCenter(c: Point): seq<Point> -> bool {
    poly => ContainsPoint(poly, c)
  }

  /** The first contour that passes `holds`, or no points when none does. */
  function MatchedPolygon(contours: seq<seq<Point>>, holds: seq<Point> -> bool): (r: seq<Point>)
    requires forall i :: 0 <= i < |contours| ==> IsContour(contours[i])
    ensures r == [] <==> forall i :: 0 <= i < |contours| ==> !holds(contours[i])
    ensures r != [] ==>
      exists i :: (0 <= i < |contours| && r == contours[i] && holds(contours[i])
        && forall j :: 0 <= j < i ==> !holds(contours[j]))
  {
    match FirstWhere(contours, holds, 0)
    case Some(i) => assert IsContour(contours[i]); contours[i]
    case None => []
  }

  /** The room result for one label: label, box and confidence copied, the
      contour matched by the label's centre, and a real size only for a
      matched contour and a non-zero scale. */
  function RoomFor(ocr: OcrLabel, contours: seq<seq<Point>>, scale: Option<real>): (r: RoomLabelResult)
    requires forall i :: 0 <= i < |contours| ==> IsContour(contours[i])
    ensures r.labelText == ocr.text && r.box == ocr.box && r.confidence == ocr.confidence
    ensures r.points == MatchedPolygon(contours, HoldsCenter(Center(ocr.box)))
    ensures r.realSize.Some? <==> r.points != [] && scale.Some? && scale.value != 0.0
    ensures r.realSize.Some? ==> r.realSize == RealSizeOf(r.points, scale)
  {
    var points := MatchedPolygon(contours, HoldsCenter(Center(ocr.box)));
    RoomLabelResult(ocr.text, ocr.box, points,
      if points != [] then RealSizeOf(points, scale) else None, ocr.confidence)
  }

  /** One result per label, in input order. */
  function Rooms(labels: seq<OcrLabel>, contours: seq<seq<Point>>, scale: Option<real>): (r: seq<RoomLabelResult>)
    requires forall i :: 0 <= i < |contours| ==> IsContour(contours[i])
    ensures |r| == |labels| && forall i :: 0 <= i < |labels| ==> r[i] == RoomFor(labels[i], contours, scale)
  {
    seq(|labels|, i requires 0 <= i < |labels| => RoomFor(labels[i], contours, scale))
  }

  lemma RoomsSnoc(labels: seq<OcrLabel>, i: nat, contours: seq<seq<Point>>, scale: Option<real>)
    requires i < |labels| && forall k :: 0 <= k < |contours| ==> IsContour(contours[k])
    ensures Rooms(labels[..i + 1], contours, scale) == Rooms(labels[..i], contours, scale) + [RoomFor(labels[i], contours, scale)]
  {
    assert labels[..i + 1][..i] == labels[..i];
  }

  lemma RoomForIs(ocr: OcrLabel, contours: seq<seq<Point>>, scale: Option<real>, points: seq<Point>, realSize: Option<RealSize>)
    requires forall k :: 0 <= k < |contours| ==> IsContour(contours[k])
    requires points == MatchedPolygon(contours, HoldsCenter(Center(ocr.box)))
    requires realSize == if points != [] then RealSizeOf(points, scale) else None
    ensures RoomLabelResult(ocr.text, ocr.box, points, realSize, ocr.confidence) == RoomFor(ocr, contours, scale)
  {
  }

  class FloorPlanProcessor {
    /** Pixels per metre, if known. */
    const scale: Option<real>

    constructor(scale: Option<real>)
      ensures this.scale == scale
    {
      this.scale := scale;
    }

    /** The label loop of `process`, with the inner loop over the contours
        that stops at the first one holding the centre. */
    method Process(contours: seq<seq<Point>>, labels: seq<OcrLabel>) returns (rooms: seq<RoomLabelResult>)
      requires forall i :: 0 <= i < |contours| ==> IsContour(contours[i])
      ensures rooms == Rooms(labels, contours, scale)
    {
      rooms := [];
      for i := 0 to |labels|
        invariant rooms == Rooms(labels[..i], contours, scale)
      {
        var ocr := labels[i];
        var center := Center(ocr.box);
        var matchedPolygon: seq<Point> := [];
        var j := 0;
        while j < |contours|
          invariant 0 <= j <= |contours| && matchedPolygon == []
          invariant FirstWhere(contours, HoldsCenter(center), j) == FirstWhere(contours, HoldsCenter(center), 0)
        {
          assert HoldsCenter(center)(contours[j]) == ContainsPoint(contours[j], center);
          if ContainsPoint(contours[j], center) {
            matchedPolygon := contours[j];
            break;
          }
          j := j + 1;
        }
        assert matchedPolygon == MatchedPolygon(contours, HoldsCenter(center));
        var realSize: Option<RealSize> := None;
        if matchedPolygon != [] && scale.Some? && scale.value != 0.0 {
          var xCoords, yCoords := Xs(matchedPolygon), Ys(matchedPolygon);
          var widthM := Extent(xCoords) as real / scale.value;
          var heightM := Extent(yCoords) as real / scale.value;
          realSize := Some(RealSize(widthM, heightM));
          assert realSize == RealSizeOf(matchedPolygon, scale);
        }
        assert realSize == if matchedPolygon != [] then RealSizeOf(matchedPolygon, scale) else None;
        RoomForIs(ocr, contours, scale, matchedPolygon, realSize);
        RoomsSnoc(labels, i, contours, scale);
        rooms := rooms + [RoomLabelResult(ocr.text, ocr.box, matchedPolygon, realSize, ocr.confidence)];
      }
      assert labels[..|labels|] == labels;
    }
  }

  // ----- what containment means -----

  /** Every vertex is on the boundary, so it is held. */
  lemma VertexContained(poly: seq<Point>, k: nat)
    requires k < |poly|
    ensures ContainsPoint(poly, poly[k])
  {
    var a, b := poly[k], EdgeEnd(poly, k);
    assert (b.x - a.x) * (a.y - a.y) == 0 == (b.y - a.y) * (a.x - a.x);
    assert OnSegment(a, a, b);
  }

  /** No edge with both ends left of `p` is crossed by the ray from `p`. */
  lemma NoCrossingLeftEdge(p: Point, a: Point, b: Point)
    requires a.x < p.x && b.x < p.x
    ensures !Crosses(p, a, b)
  {
    var u, w := p.x - a.x, b.x - a.x;
    if b.y > a.y && a.y <= p.y < b.y {
      var t, dy := p.y - a.y, b.y - a.y;
      MulLe(t, w, u);
      MulLt(u, t, dy);
    } else if b.y < a.y && b.y <= p.y < a.y {
      var t, dy := a.y - p.y, a.y - b.y;
      MulLe(t, w, u);
      MulLeq(u, t, dy);
    }
  }

  /** `t * w <= t * u` for `0 <= t` and `w < u`. */
  lemma MulLe(t: int, w: int, u: int)
    requires 0 <= t && w < u
    ensures t * w <= t * u
  {
    assert t * u - t * w == t * (u - w);
  }

  /** `t * u < dy * u` for `0 < u` and `t < dy`. */
  lemma MulLt(u: int, t: int, dy: int)
    requires 0 < u && t < dy
    ensures t * u < dy * u
  {
    assert dy * u - t * u == (dy - t) * u;
  }

  /** `t * u <= dy * u` for `0 < u` and `t <= dy`. */
  lemma MulLeq(u: int, t: int, dy: int)
    requires 0 < u && t <= dy
    ensures t * u <= dy * u
  {
    assert dy * u - t * u == (dy - t) * u;
  }

  lemma {:induction false} NoCrossings(poly: seq<Point>, p: Point, n: nat)
    requires n <= |poly|
    requires forall k :: 0 <= k < n ==> !Crosses(p, poly[k], EdgeEnd(poly, k))
    ensures Crossings(poly, p, n) == 0
  {
    if n > 0 {
      NoCrossings(poly, p, n - 1);
      assert !Crosses(p, poly[n - 1], EdgeEnd(poly, n - 1));
    }
  }

  /** A point above, below or to the right of every vertex is not held: a
      held centre lies within the vertical extent of its room and no further
      right than its rightmost vertex. */
  lemma OutsideExtent(poly: seq<Point>, p: Point)
    requires |poly| > 0
    requires p.y > MaxOf(Ys(poly)) || p.y < MinOf(Ys(poly)) || p.x > MaxOf(Xs(poly))
    ensures !ContainsPoint(poly, p)
  {
    var xs, ys := Xs(poly), Ys(poly);
    forall k | 0 <= k < |poly|
      ensures !OnSegment(p, poly[k], EdgeEnd(poly, k)) && !Crosses(p, poly[k], EdgeEnd(poly, k))
    {
      var a, b := poly[k], EdgeEnd(poly, k);
      assert xs[k] == a.x && ys[k] == a.y && xs[(k + 1) % |poly|] == b.x && ys[(k + 1) % |poly|] == b.y;
      if p.x > MaxOf(xs) && !(p.y > MaxOf(ys) || p.y < MinOf(ys)) {
        NoCrossingLeftEdge(p, a, b);
      }
    }
    NoCrossings(poly, p, |poly|);
  }

  /** The matched room of a label holds its centre within the room's extent. */
  lemma MatchedRoomSurroundsCenter(ocr: OcrLabel, contours: seq<seq<Point>>, scale: Option<real>)
    requires forall i :: 0 <= i < |contours| ==> IsContour(contours[i])
    ensures var r, c := RoomFor(ocr, contours, scale), Center(ocr.box);
      r.points != [] ==>
        && MinOf(Ys(r.points)) <= c.y <= MaxOf(Ys(r.points))
        && c.x <= MaxOf(Xs(r.points))
  {
    var r, c := RoomFor(ocr, contours, scale), Center(ocr.box);
    if r.points != [] && !(MinOf(Ys(r.points)) <= c.y <= MaxOf(Ys(r.points)) && c.x <= MaxOf(Xs(r.points))) {
      OutsideExtent(r.points, c);
    }
  }

  // ----- the two room scenarios -----

  lemma SquareExtremes()
    ensures MaxOf([100, 200, 200, 100]) == 200 && MinOf([100, 200, 200, 100]) == 100
    ensures MaxOf([100, 100, 200, 200]) == 200 && MinOf([100, 100, 200, 200]) == 100
  {
    var s: seq<int> := [100, 200, 200, 100];
    assert s[..3] == [100, 200, 200] && s[..3][..2] == [100, 200] && s[..3][..2][..1] == [100];
    assert MaxOf([100, 200]) == 200 && MinOf([100, 200]) == 100;
    assert MaxOf([100, 200, 200]) == 200 && MinOf([100, 200, 200]) == 100;
    var t: seq<int> := [100, 100, 200, 200];
    assert t[..3] == [100, 100, 200] && t[..3][..2] == [100, 100] && t[..3][..2][..1] == [100];
    assert MaxOf([100, 100]) == 100 && MinOf([100, 100]) == 100;
    assert MaxOf([100, 100, 200]) == 200 && MinOf([100, 100, 200]) == 100;
  }

  /** Of the square's four edges only the right one crosses the ray from the
      centre, so the centre is inside. */
  lemma SquareHoldsItsCentre()
    ensures ContainsPoint([Point(100, 100), Point(200, 100), Point(200, 200), Point(100, 200)], Point(150, 150))
  {
    var square, c := [Point(100, 100), Point(200, 100), Point(200, 200), Point(100, 200)], Point(150, 150);
    assert !Crosses(c, square[0], EdgeEnd(square, 0));
    assert Crosses(c, square[1], EdgeEnd(square, 1));
    assert !Crosses(c, square[2], EdgeEnd(square, 2));
    assert !Crosses(c, square[3], EdgeEnd(square, 3));
    assert Crossings(square, c, 4) == 1;
  }

  /** A 20-pixel label at (140, 140) has the centre (150, 150); the square
      from (100, 100) to (200, 200) holds it, and at 50 pixels per metre the
      room measures 2 by 2 metres. */
  lemma SquareScenario(text: string, confidence: Option<real>)
    ensures var box, square := BoundingBox(140, 140, 20, 20), [Point(100, 100), Point(200, 100), Point(200, 200), Point(100, 200)];
      RoomFor(OcrLabel(text, box, confidence), [square], Some(50.0))
        == RoomLabelResult(text, box, square, Some(RealSize(2.0, 2.0)), confidence)
  {
    var box, square := BoundingBox(140, 140, 20, 20), [Point(100, 100), Point(200, 100), Point(200, 200), Point(100, 200)];
    assert Center(box) == Point(150, 150);
    SquareMatched();
    SquareSize();
  }

  lemma SquareMatched()
    ensures var square := [Point(100, 100), Point(200, 100), Point(200, 200), Point(100, 200)];
      MatchedPolygon([square], HoldsCenter(Point(150, 150))) == square
  {
    var square := [Point(100, 100), Point(200, 100), Point(200, 200), Point(100, 200)];
    SquareHoldsItsCentre();
    assert HoldsCenter(Point(150, 150))([square][0]);
  }

  lemma SquareSize()
    ensures RealSizeOf([Point(100, 100), Point(200, 100), Point(200, 200), Point(100, 200)], Some(50.0))
      == Some(RealSize(2.0, 2.0))
  {
    var square := [Point(100, 100), Point(200, 100), Point(200, 200), Point(100, 200)];
    assert Xs(square) == [100, 200, 200, 100] && Ys(square) == [100, 100, 200, 200];
    SquareExtremes();
    assert Extent(Xs(square)) == 100 && Extent(Ys(square)) == 100;
  }

  /** The same label misses a room lying within (300, 300)-(400, 400): no
      points and no size. */
  lemma MissScenario(text: string, confidence: Option<real>, room: seq<Point>)
    requires IsContour(room)
    requires forall k :: 0 <= k < |room| ==> 300 <= room[k].x <= 400 && 300 <= room[k].y <= 400
    ensures var r := RoomFor(OcrLabel(text, BoundingBox(140, 140, 20, 20), confidence), [room], Some(50.0));
      r.points == [] && r.realSize.None?
  {
    assert Center(BoundingBox(140, 140, 20, 20)) == Point(150, 150);
    ExtremesAttained(Ys(room));
    OutsideExtent(room, Point(150, 150));
  }
}
