# aiSow core, modelled in Dafny

aiSow turns construction floor-plan PDFs and images into structured data. This
project models the parts of it that interpret geometry and text, and proves
properties of them:

- **OCR clustering** (`clustering.dfy`, with `stable_sort.dfy`, `grouping.dfy`
  and `chains.dfy`). `cluster_by_line` sorts fragments by `(y, x)`, splits
  them into lines by comparing each item with the previous one, and splits
  each line into phrases by the horizontal gap. `merge_cluster_text` rebuilds
  a phrase's text. The grouping step of `cluster_ocr_items` takes the cluster
  labels as input.
- **Scale extraction** (`scanner.dfy`, `scale_patterns.dfy`, `vectorizer.dfy`,
  `scale_facts.dfy`). This is the four-pass cascade of `extract_scale`:
  1. the architectural `a/b" = F'-I"`;
  2. `scale 1:N`;
  3. `1" = N'`;
  4. the line-reconstruction fallback over word boxes.

  These files also model the selection loop of `find_scale_by_proximity` and
  the per-page assembly of `vectorize_pdf`. Every regular expression is a
  hand-written scanner over `seq<char>` and every ratio is an exact `real`.
- **Room matching** (`floor_plan.dfy`). Each OCR label's integer centre is
  matched to the first room contour containing it, boundary included. The
  class `FloorPlanProcessor` keeps the constructor's scale, which turns the
  pixel extents into a real size.
- **EasyOCR conversion** (`easyocr.dfy`, `ocr_models.dfy`). These are the two
  quad-to-box converters, `format_easyocr_result` and the loop of
  `process_image`. They truncate at different points.
- **Login form** (`login.dfy`). It holds the five password rules,
  `getPasswordValidation`, the pre-check and error mapping of `handleSubmit`,
  and the state of the `Login` component as a class.
- **Project repository** (`project_repository.dfy`). `ProjectRepository` is a
  class over a map from id to project, with the five repository operations.
- `utils.dfy` holds:
  - `Option`;
  - `Join`, Python's `str.join` and JavaScript's `Array.prototype.join`;
  - `Includes`, JavaScript's `String.prototype.includes`;
  - `Flatten` and `FirstWhere`.

Each loop of the source is a method with invariants. The method is proved
against a specification function, and the properties are lemmas about that
function. Several short loops are split into a "step" method for the body and
a method for the loop.

### Behaviour of the code worth knowing

- **`a/0` raises.** A `SCALE: a/0" = …` annotation raises `ZeroDivisionError`
  in pass 1 (`vectorizer.py:97-99`) instead of falling through to the later
  passes. The model's outcome is `DivisionByZero`, and `vectorize_pdf` then
  raises too (`ZeroDenominatorRaises`, `AssembleRaises`).
- **Phrase breaks.** A phrase breaks when the gap is at least the threshold:
  an item joins the phrase only when `gap < x_gap_threshold`
  (`clustering.py:99`).
- **`SCALE 1=N` is caught by pass 1.** Pass 1's pattern also accepts this
  form (`vectorizer.py:88-124`), so it gives `units="feet"`, not the unitless
  ratio of pass 2 (`RatioEqualsIsArchitectural`).
- **Ratios need not be positive.** A ratio can be 0 or negative, e.g. from a
  right side `-5` (`vectorizer.py:114-124`, `NegativeRightGivesNegativeRatio`).
- **The fallback uses a different value pattern.** The line fallback finds
  its line with one pattern and reads the value with another
  (`vectorizer.py:137-159`). That second pattern stops the feet at `'` and
  cannot start the inches at `-`, so `SCALE: 1/4" = 1'-6"` is read as 72 by
  pass 1 but as 48 by the fallback (`QuarterInchFirstPass`,
  `DashedInchesDropped`).
- **Arguments are taken as given.** `y_tolerance`, `x_gap_threshold`
  (`clustering.py:55`) and `confidence_threshold` (`utils.py:5`) are used
  without any range check.
- **Password length.** `password.length` counts UTF-16 code units
  (`Login.tsx:44`), so an astral character counts twice
  (`AstralCharactersCountTwice`).

## Model

| member | source | states |
|---|---|---|
| Utils.JoinLength | backend/apps/services/VectorizerService/services/vectorizer.py:85 | joining n parts gives the sum of their lengths plus n-1 separators |
| Utils.Includes | frontend/src/pages/Login.tsx:98-104 | `includes` is true exactly when the substring occurs at some position |
| Utils.FirstWhere | backend/apps/services/VectorizerService/services/vectorizer.py:26-32 | the first index from `from` on that satisfies the test, none before it; none exactly when no index does |
| Scanner.Search | backend/apps/services/VectorizerService/services/vectorizer.py:88-90 | `re.search`: the leftmost start where the pattern matches, with every earlier start failing; none exactly when no start matches |
| Scanner.SearchFindsFirst | backend/apps/services/VectorizerService/services/vectorizer.py:88-90 | a pattern matching at k and at no earlier start is found at k |
| Scanner.ParseUnsigned | backend/apps/services/VectorizerService/services/vectorizer.py:101-104 | what `float()` reads from an unsigned number is never negative |
| Scanner.ShowValue | backend/apps/services/VectorizerService/services/vectorizer.py:128 | the decimal digits of n denote n |
| Scanner.ParseShow | backend/apps/services/VectorizerService/services/vectorizer.py:128 | `float` of the digits of n is n |
| Scanner.ParseNegative | backend/apps/services/VectorizerService/services/vectorizer.py:114-115 | `float("-" + digits of n)` is -n |
| Scanner.ParseRejectsSlash | backend/apps/services/VectorizerService/services/vectorizer.py:101-104 | `float()` fails on any text containing `/` |
| Scanner.ParseDecimal | backend/apps/services/VectorizerService/services/vectorizer.py:101-102 | `float("W.F")` is W plus the fraction F |
| ScalePatterns.ArchScaleAt | backend/apps/services/VectorizerService/services/vectorizer.py:88-90 | a match starts with the scale word, and both groups are non-empty runs of their character classes |
| ScalePatterns.ArchScaleAtIs | backend/apps/services/VectorizerService/services/vectorizer.py:88-90 | given where each run of the pattern ends, the match and its two groups are exactly those slices |
| ScalePatterns.ValueAt | backend/apps/services/VectorizerService/services/vectorizer.py:141-144 | a match has a left value of the shape `\d+/\d+` or `\d+\.?\d*`, non-empty feet digits and, if present, non-empty inches digits |
| ScalePatterns.FeetAt | backend/apps/services/VectorizerService/services/vectorizer.py:142 | feet and optional inches are non-empty digit runs |
| ScalePatterns.FeetAtIs | backend/apps/services/VectorizerService/services/vectorizer.py:142 | given the run boundaries, the feet and inches groups are exactly those slices; no inches when the second run is empty |
| ScalePatterns.ValueLeftEnd | backend/apps/services/VectorizerService/services/vectorizer.py:142 | group 1 ends inside the text and has one of the two shapes of its alternatives |
| ScalePatterns.ParseLeft | backend/apps/services/VectorizerService/services/vectorizer.py:97-104 | the left side raises exactly when it starts with a fraction whose denominator is 0 |
| ScalePatterns.LeadingFractionIs | backend/apps/services/VectorizerService/services/vectorizer.py:97 | `(\d+)/(\d+)` at the start of the left side reads the numerator and denominator digit runs |
| ScalePatterns.ParseLeftFraction | backend/apps/services/VectorizerService/services/vectorizer.py:97-99 | a left side `A/B…` is A/B, or raises when B is 0 |
| ScalePatterns.ParseLeftWhole | backend/apps/services/VectorizerService/services/vectorizer.py:101-102 | a left side of digits only is that number |
| ScalePatterns.ParseLeftSlashOnly | backend/apps/services/VectorizerService/services/vectorizer.py:101-104 | a left side with `/` but no leading fraction has no value (`None`) |
| ScalePatterns.ValueLeft | backend/apps/services/VectorizerService/services/vectorizer.py:152-156 | the fallback's left value, when a number, is non-negative |
| ScalePatterns.ValueLeftParses | backend/apps/services/VectorizerService/services/vectorizer.py:155-156 | a left value without `/` always parses, to a non-negative number |
| ScalePatterns.ValueLeftIsParseLeft | backend/apps/services/VectorizerService/services/vectorizer.py:152-156 | on the shapes group 1 can capture, the `split("/")` reading equals pass 1's `(\d+)/(\d+)` reading |
| ScalePatterns.FeetInchesIs | backend/apps/services/VectorizerService/services/vectorizer.py:108 | `(\d+)'[- ]?(\d+)?` reads the feet run and the inches run at their boundaries |
| ScalePatterns.ParseRightFeetInches | backend/apps/services/VectorizerService/services/vectorizer.py:106-118 | `F'I` and `F'-I` are 12F + I inches |
| ScalePatterns.ParseRightFeet | backend/apps/services/VectorizerService/services/vectorizer.py:108-112 | `F'` alone is 12F inches |
| ScalePatterns.ParseRightInches | backend/apps/services/VectorizerService/services/vectorizer.py:113-115 | a bare number is that many inches |
| ScalePatterns.ParseRightNegative | backend/apps/services/VectorizerService/services/vectorizer.py:113-115 | `-N` is -N inches |
| ScalePatterns.ParseRightUnreadable | backend/apps/services/VectorizerService/services/vectorizer.py:113-117 | a right side that is neither feet-inches nor a number is 0 inches |
| Vectorizer.FeetScale | backend/apps/services/VectorizerService/services/vectorizer.py:118-124 | always a result in feet (never "no scale"); raises exactly when the left side raised; a ratio exactly when the left value is a positive number |
| Vectorizer.FeetScaleRatio | backend/apps/services/VectorizerService/services/vectorizer.py:119-123 | the ratio times the left value is the right side in inches, and is non-negative for non-negative inches |
| Vectorizer.ValueInches | backend/apps/services/VectorizerService/services/vectorizer.py:148 | the fallback's right side is at least 12 times the feet, with missing inches read as "0" |
| Vectorizer.LineKeys | backend/apps/services/VectorizerService/services/vectorizer.py:20-21 | one line key per word |
| Vectorizer.ReconstructedLines | backend/apps/services/VectorizerService/services/vectorizer.py:19-28 | one reconstructed line per distinct line key |
| Vectorizer.ExtractScaleByReconstructingLines | backend/apps/services/VectorizerService/services/vectorizer.py:14-32 | the loop returns the first line, in first-seen key order, that holds a SCALE annotation, or none |
| Vectorizer.BuildLine | backend/apps/services/VectorizerService/services/vectorizer.py:27-28 | the line is the texts, joined by single spaces, of a rearrangement of its words that is sorted by `x0` and keeps words with equal `x0` in their original order |
| Vectorizer.ExtractScale | backend/apps/services/VectorizerService/services/vectorizer.py:76-160 | the method computes the four-pass cascade `PageScale` |
| Vectorizer.FirstSome | backend/apps/services/VectorizerService/services/vectorizer.py:187-229 | the first candidate that gives a value, with none before it; none exactly when none does |
| Vectorizer.CandidateOutcome | backend/apps/services/VectorizerService/services/vectorizer.py:194-227 | a bare scale label gives nothing; a candidate that decides never decides "no scale" |
| Vectorizer.ProximityScale | backend/apps/services/VectorizerService/services/vectorizer.py:187-229 | no scale exactly when no candidate decides; otherwise the outcome of the first candidate that does |
| Vectorizer.FindScaleByProximity | backend/apps/services/VectorizerService/services/vectorizer.py:187-229 | the loop, with `continue` and early returns, computes `ProximityScale` |
| Vectorizer.ScaleEntry | backend/apps/services/VectorizerService/services/vectorizer.py:245-249 | a page entry has its number, `nts` exactly when no scale was found, and the scale when one was |
| Vectorizer.AssembleStep | backend/apps/services/VectorizerService/services/vectorizer.py:241-249 | one page extends the three lists and appends its entry, or the raise propagates |
| Vectorizer.AssembleRaises | backend/apps/services/VectorizerService/services/vectorizer.py:241-249 | the call raises exactly when some page's scale lookup raises |
| Vectorizer.AssembleReturns | backend/apps/services/VectorizerService/services/vectorizer.py:239-253 | otherwise: no fallback, lines/texts/paths are the pages' lists concatenated in order, and entry i is page i+1's |
| Vectorizer.VectorizePdf | backend/apps/services/VectorizerService/services/vectorizer.py:231-253 | a non-vector PDF gives empty lists and `fallback=True`; otherwise the pages are assembled |
| ScaleFacts.ArchMatchAtStart | backend/apps/services/VectorizerService/services/vectorizer.py:88-124 | pass 1 matching at the start of the text decides the result |
| ScaleFacts.ArchitecturalReading | backend/apps/services/VectorizerService/services/vectorizer.py:97-124 | `a/b` and `F'-I` are read as the fraction a/b and 12F + I inches |
| ScaleFacts.ArchitecturalScale | backend/apps/services/VectorizerService/services/vectorizer.py:87-124 | a page `SCALE: A/B" = F'-I"` has the scale (12F+I)/(A/B) in feet, or raises / has no ratio as the left value dictates |
| ScaleFacts.EighthInchScale | backend/apps/services/VectorizerService/services/vectorizer.py:87-124 | `SCALE: 1/8" = 1'-0"` is 96 feet-based |
| ScaleFacts.QuarterInchFirstPass | backend/apps/services/VectorizerService/services/vectorizer.py:106-124 | `SCALE: 1/4" = 1'-6"` is 72 in pass 1 |
| ScaleFacts.DashedInchesMatch | backend/apps/services/VectorizerService/services/vectorizer.py:141-144 | the fallback's value pattern on that text captures `1/4` and feet `1` with no inches |
| ScaleFacts.DashedInchesDropped | backend/apps/services/VectorizerService/services/vectorizer.py:137-159 | so the fallback reads that annotation as 48 |
| ScaleFacts.ZeroDenominatorRaises | backend/apps/services/VectorizerService/services/vectorizer.py:97-99 | a page `SCALE: A/0" = …` raises instead of trying the later passes |
| ScaleFacts.ZeroLeftHasNoRatio | backend/apps/services/VectorizerService/services/vectorizer.py:119-124 | a left side of 0 gives feet with no ratio, not "no scale" |
| ScaleFacts.PageScaleSources | backend/apps/services/VectorizerService/services/vectorizer.py:88-160 | no scale exactly when all four passes fail; unitless exactly when pass 2 decides; a raise only from pass 1's or the fallback's zero denominator |
| ScaleFacts.ReconstructedSources | backend/apps/services/VectorizerService/services/vectorizer.py:137-160 | the fallback gives no scale exactly when there is no line or its value pattern fails; otherwise feet, or a raise from a zero denominator |
| ScaleFacts.NoScaleWord | backend/apps/services/VectorizerService/services/vectorizer.py:88-130 | text without the letter s matches neither pass 1 nor pass 2 |
| ScaleFacts.RatioTextNoArch | backend/apps/services/VectorizerService/services/vectorizer.py:88-90 | `scale 1:N` escapes pass 1 |
| ScaleFacts.RatioScale | backend/apps/services/VectorizerService/services/vectorizer.py:126-130 | a page `scale 1:N`, in any case, is the unitless ratio N |
| ScaleFacts.OneToFiftyScenario | backend/apps/services/VectorizerService/services/vectorizer.py:126-130 | `scale 1:50` is the unitless ratio 50 |
| ScaleFacts.InchScale | backend/apps/services/VectorizerService/services/vectorizer.py:131-135 | a page `1" = N'` is the feet ratio N |
| ScaleFacts.RatioEqualsIsArchitectural | backend/apps/services/VectorizerService/services/vectorizer.py:88-124 | `scale 1=N` is caught by pass 1 as the feet ratio N |
| ScaleFacts.NegativeRightGivesNegativeRatio | backend/apps/services/VectorizerService/services/vectorizer.py:114-124 | a positive left value with a negative right side gives a negative ratio |
| ScaleFacts.UnitLeftOutcome | backend/apps/services/VectorizerService/services/vectorizer.py:101-124 | a left side `1` gives the right side in inches as the ratio |
| ScaleFacts.NothingToScale | backend/apps/services/VectorizerService/services/vectorizer.py:76-160 | a page with no letter s and no `1` in its text, and no letter s in its words, has no scale |
| ScaleFacts.NorthArrowScenario | backend/apps/services/VectorizerService/services/vectorizer.py:76-160 | a page reading `NORTH ARROW` has no scale |
| ScaleFacts.ProximitySkipsLabel | backend/apps/services/VectorizerService/services/vectorizer.py:194-220 | a bare `SCALE:` candidate is skipped and the next one decides |
| ScaleFacts.QuarterCandidate | backend/apps/services/VectorizerService/services/vectorizer.py:199-220 | a candidate `SCALE: 1/4" = 1'-6"` gives 48 in feet |
| ScaleFacts.NoEqualsNoValueSearch | backend/apps/services/VectorizerService/services/vectorizer.py:199-202 | text without `=` holds no value pattern |
| ScaleFacts.PairCandidate | backend/apps/services/VectorizerService/services/vectorizer.py:222-227 | a candidate `1:100` is the unitless ratio 100 |
| StableSort.SortByIsSortedPermutation | backend/apps/services/ClusteringService/clustering.py:68-70 | `sorted` gives a permutation of its input in key order |
| StableSort.SortByIsStable | backend/apps/services/ClusteringService/clustering.py:68-70 | items with equal keys keep their input order |
| Grouping.FirstSeen | backend/apps/services/ClusteringService/clustering.py:31-35 | the dictionary's keys: every label, each once |
| Grouping.Grouped | backend/apps/services/ClusteringService/clustering.py:31-35 | one group per distinct label |
| Grouping.GroupsNonEmpty | backend/apps/services/ClusteringService/clustering.py:31-35 | every group is non-empty |
| Grouping.GroupedSnocSeen | backend/apps/services/ClusteringService/clustering.py:33 | an item with a seen label is appended to that label's group |
| Grouping.GroupedSnocNew | backend/apps/services/ClusteringService/clustering.py:33 | an item with a new label opens a new last group |
| Grouping.GroupedPartition | backend/apps/services/ClusteringService/clustering.py:31-35 | the groups together hold exactly the items |
| Grouping.GroupByKey | backend/apps/services/ClusteringService/clustering.py:31-35 | the `setdefault` loop computes `Grouped` |
| Grouping.BucketStep | backend/apps/services/ClusteringService/clustering.py:32-33 | one `setdefault(...).append` keeps key order and buckets in step with the prefix read |
| Chains.Split | backend/apps/services/ClusteringService/clustering.py:72-89 | at most one run per item, and no runs exactly for no items |
| Chains.SplitIsChainPartition | backend/apps/services/ClusteringService/clustering.py:75-89 | the runs are non-empty, flatten to the input, have no break inside and a break between consecutive runs |
| Chains.ChainPartitionIsSplit | backend/apps/services/ClusteringService/clustering.py:75-89 | that partition is unique |
| Chains.SweepStep | backend/apps/services/ClusteringService/clustering.py:75-87 | one step of the sweep (start, extend, or close and restart) keeps the state equal to the split of the prefix |
| Chains.SplitEachOfSplit | backend/apps/services/ClusteringService/clustering.py:92-105 | splitting each line into phrases is one split by "new line or wide gap" |
| Clustering.ClusterByLine | backend/apps/services/ClusteringService/clustering.py:54-107 | the method computes the phrases of the `(y, x)`-sorted items; empty input gives no phrases |
| Clustering.SweepLines | backend/apps/services/ClusteringService/clustering.py:72-89 | the line loop splits the sorted items where the y step exceeds the tolerance |
| Clustering.LineStep | backend/apps/services/ClusteringService/clustering.py:75-87 | one item of the line loop keeps the state equal to the split of the prefix, with a non-empty open line |
| Clustering.SweepPhrases | backend/apps/services/ClusteringService/clustering.py:92-105 | the phrase loop splits each line where the gap reaches the threshold |
| Clustering.SweepLine | backend/apps/services/ClusteringService/clustering.py:94-105 | one line's phrases are appended to the result |
| Clustering.SortedItemsProperties | backend/apps/services/ClusteringService/clustering.py:68-70 | the items are sorted by `(y, x)`, are a permutation of the input, and equal keys keep their order |
| Clustering.LinesAreChains | backend/apps/services/ClusteringService/clustering.py:75-89 | the lines are the one chain partition of the sorted items under "the y step exceeds the tolerance" |
| Clustering.PhrasesPartitionSortedItems | backend/apps/services/ClusteringService/clustering.py:68-105 | the phrases are the chain partition under "new line or gap >= threshold"; they flatten to the sorted items, a permutation of the input |
| Clustering.LineSplitScenario | backend/apps/services/ClusteringService/clustering.py:80-87 | items at y 100 and 125 fall on two lines in either input order, with the defaults 10 and 60 |
| Clustering.MergeClusterText | backend/apps/services/ClusteringService/clustering.py:38-51 | the method computes the merged text of the x-sorted cluster; an empty cluster gives "" |
| Clustering.MergeStep | backend/apps/services/ClusteringService/clustering.py:44-50 | one item keeps the text equal to the merge of the prefix, and the right edge of that item |
| Clustering.MergedTextLength | backend/apps/services/ClusteringService/clustering.py:43-50 | the length is the sum of the text lengths plus the number of gaps > 10 |
| Clustering.MergedTextAllWide | backend/apps/services/ClusteringService/clustering.py:45-49 | with every gap > 10 the texts are joined with single spaces |
| Clustering.MergedTextNoneWide | backend/apps/services/ClusteringService/clustering.py:45-49 | with no gap > 10 the texts are concatenated |
| Clustering.ClusterOcrItems | backend/apps/services/ClusteringService/clustering.py:13-35 | empty input gives no clusters; otherwise the items are grouped by label in first-seen order, up to the shorter of the two lists |
| Clustering.ClustersPartitionItems | backend/apps/services/ClusteringService/clustering.py:31-35 | the clusters are non-empty and together hold exactly the items |
| FloorPlan.FloorDiv | backend/apps/services/FloorPlanProcessor/services/processor.py:50 | Python's `//` by a positive number: the largest q with q·b <= a |
| FloorPlan.Center | backend/apps/services/FloorPlanProcessor/services/processor.py:50 | the centre is the box corner plus half the width and height, rounded down |
| FloorPlan.MaxOf | backend/apps/services/FloorPlanProcessor/services/processor.py:58-61 | `max` is at least every coordinate |
| FloorPlan.MinOf | backend/apps/services/FloorPlanProcessor/services/processor.py:58-61 | `min` is at most every coordinate |
| FloorPlan.ExtremesAttained | backend/apps/services/FloorPlanProcessor/services/processor.py:58-61 | `max` and `min` are coordinates of the polygon |
| FloorPlan.Extent | backend/apps/services/FloorPlanProcessor/services/processor.py:60-61 | `max - min` is never negative |
| FloorPlan.RealSizeOf | backend/apps/services/FloorPlanProcessor/services/processor.py:56-62 | a size exactly when the scale is present and non-zero |
| FloorPlan.RealSizeScales | backend/apps/services/FloorPlanProcessor/services/processor.py:60-62 | width and height times the scale are the pixel extents; both non-negative for a positive scale |
| FloorPlan.VertexContained | backend/apps/services/FloorPlanProcessor/services/processor.py:53 | a polygon contains each of its vertices (the test includes the boundary) |
| FloorPlan.OutsideExtent | backend/apps/services/FloorPlanProcessor/services/processor.py:53 | a point above, below or to the right of the polygon's extent is not contained |
| FloorPlan.SquareHoldsItsCentre | backend/apps/services/FloorPlanProcessor/services/processor.py:53 | the square 100..200 contains (150, 150) |
| FloorPlan.MatchedPolygon | backend/apps/services/FloorPlanProcessor/services/processor.py:51-55 | the first contour, in order, that holds the point; none exactly when no contour does |
| FloorPlan.RoomFor | backend/apps/services/FloorPlanProcessor/services/processor.py:46-73 | label, box and confidence are copied; the points are the first contour holding the centre; a size exactly when a contour matched and the scale is non-zero |
| FloorPlan.Rooms | backend/apps/services/FloorPlanProcessor/services/processor.py:45-74 | one result per label, in input order |
| FloorPlan.RoomsSnoc | backend/apps/services/FloorPlanProcessor/services/processor.py:63-73 | each label appends its result |
| FloorPlan.FloorPlanProcessor.constructor | backend/apps/services/FloorPlanProcessor/services/processor.py:14-15 | the scale is stored unchanged |
| FloorPlan.FloorPlanProcessor.Process | backend/apps/services/FloorPlanProcessor/services/processor.py:45-74 | the nested loop with `break` computes `Rooms` under the stored scale |
| FloorPlan.MatchedRoomSurroundsCenter | backend/apps/services/FloorPlanProcessor/services/processor.py:50-55 | a matched room's vertical extent covers the centre, and the centre is not right of it |
| FloorPlan.SquareScenario | backend/apps/services/FloorPlanProcessor/services/processor.py:45-73 | a 20-pixel label at (140, 140) in the square 100..200 at scale 50 gets that square and size 2 × 2 |
| FloorPlan.MissScenario | backend/apps/services/FloorPlanProcessor/services/processor.py:51-69 | the same label with only a room inside 300..400 gets no points and no size |
| EasyOcr.Trunc | backend/apps/services/Pdf2ImageService/utils/utils.py:30-33 | `int()` truncates toward zero |
| EasyOcr.TruncBounds | backend/apps/services/OcrService/services/ocr_service.py:25-28 | truncation keeps the sign, and anything above -1 truncates to at least 0 |
| EasyOcr.MinAtMostMax | backend/apps/services/Pdf2ImageService/utils/utils.py:20-23 | the minimum coordinate is at most the maximum |
| EasyOcr.Status | backend/apps/services/Pdf2ImageService/utils/utils.py:35 | `low_confidence` exactly below the threshold, `ok` exactly at or above it |
| EasyOcr.RoundHalfEven | backend/apps/services/Pdf2ImageService/utils/utils.py:28 | the nearest integer, ties to even |
| EasyOcr.Round4 | backend/apps/services/Pdf2ImageService/utils/utils.py:28 | `round(v, 4)` is within 0.00005 of v and has four decimals |
| EasyOcr.Round4Idempotent | backend/apps/services/Pdf2ImageService/utils/utils.py:28 | rounding twice is rounding once |
| EasyOcr.FormatItem | backend/apps/services/Pdf2ImageService/utils/utils.py:17-37 | text copied, confidence rounded, x and y the truncated minima, width and height non-negative, status from the unrounded confidence |
| EasyOcr.FormatItemExtents | backend/apps/services/Pdf2ImageService/utils/utils.py:20-34 | width and height truncate `max - min` of the untruncated coordinates |
| EasyOcr.FormatEasyOcrResult | backend/apps/services/Pdf2ImageService/utils/utils.py:5-38 | one item per detection, in order |
| EasyOcr.TextItem | backend/apps/services/OcrService/services/ocr_service.py:21-35 | text and confidence copied; x and y the truncated minima; width and height measured from the truncated x and y |
| EasyOcr.TextItemExtentsNotNegative | backend/apps/services/OcrService/services/ocr_service.py:25-28 | width and height are never negative |
| EasyOcr.ProcessDetections | backend/apps/services/OcrService/services/ocr_service.py:20-36 | one item per detection, in order |
| EasyOcr.SameBoxOnWholeCoordinates | backend/apps/services/OcrService/services/ocr_service.py:25-28 | on whole non-negative coordinates both converters give the same box |
| EasyOcr.WidthsDiffer | backend/apps/services/OcrService/services/ocr_service.py:27 | x from 0.5 to 2.2 gives width 1 in one converter and 2 in the other |
| EasyOcr.WidthsWithinOne | backend/apps/services/OcrService/services/ocr_service.py:25-28 | on non-negative coordinates the second width is the first or one more |
| Login.JsLength | frontend/src/pages/Login.tsx:44 | `length` in UTF-16 units: between one and two per character |
| Login.Any | frontend/src/pages/Login.tsx:45-48 | a character-class `test` holds exactly when some character is in the class |
| Login.Validate | frontend/src/pages/Login.tsx:51-56 | one entry per rule, in order, with its name and `isValid` exactly when the rule holds |
| Login.GetPasswordValidation | frontend/src/pages/Login.tsx:51-56 | five entries, for the five rules in order |
| Login.PasswordValidIff | frontend/src/pages/Login.tsx:43-49 | valid exactly when length >= 6 and it has an upper case letter, a lower case letter, a digit and a character outside `[A-Za-z0-9]` |
| Login.AllValid | frontend/src/pages/Login.tsx:113 | `every` is true exactly when every entry is valid |
| Login.FailedNames | frontend/src/pages/Login.tsx:78-81 | exactly the names of the failed entries |
| Login.ValidIffNoFailures | frontend/src/pages/Login.tsx:77-80 | valid exactly when no rule fails |
| Login.FailedNamesInRuleOrder | frontend/src/pages/Login.tsx:77-81 | the failed names are listed in rule order |
| Login.PreCheck | frontend/src/pages/Login.tsx:70-84 | the call goes ahead exactly when signing in, or when the passwords match and are valid |
| Login.SignInRunsNoChecks | frontend/src/pages/Login.tsx:70 | signing in runs no password check |
| Login.MismatchReportedFirst | frontend/src/pages/Login.tsx:71-74 | a mismatch is reported before any rule failure |
| Login.RuleFailuresReported | frontend/src/pages/Login.tsx:76-83 | rule failures are reported as the prefix and the failed names joined by ", " |
| Login.ShortLowercaseRules | frontend/src/pages/Login.tsx:43-49 | `abc` passes only the lower-case rule |
| Login.ShortLowercaseFailures | frontend/src/pages/Login.tsx:77-81 | so `abc` fails four rules, in rule order |
| Login.ShortLowercaseMessage | frontend/src/pages/Login.tsx:76-83 | and registering with `abc` reports those four |
| Login.AstralCharactersCountTwice | frontend/src/pages/Login.tsx:44 | three emoji pass the six-character rule |
| Login.DisabledIffPreCheckRejects | frontend/src/pages/Login.tsx:258 | the button is disabled exactly when the pre-check would reject |
| Login.MapError | frontend/src/pages/Login.tsx:96-108 | the shown error is never empty, and is either the raw message or one of the fixed messages |
| Login.MapErrorIsFirstMarker | frontend/src/pages/Login.tsx:98-107 | the markers are tried in order `Email`, `Password`, `already taken`, `Invalid login`, and the first present decides |
| Login.EmailMarkerShadowsTaken | frontend/src/pages/Login.tsx:98-103 | an "Email … already taken" error is shown as the invalid-email message |
| Login.SubmitError | frontend/src/pages/Login.tsx:66-108 | the error after a submit: the pre-check message, else the mapped failure, else empty |
| Login.LoginForm.constructor | frontend/src/pages/Login.tsx:32-40 | sign-in mode, empty fields, no error |
| Login.LoginForm.HandleSubmit | frontend/src/pages/Login.tsx:66-110 | the auth call is made exactly when the pre-check passes, is `register` or `loginLocal` by mode, and only the error changes |
| Projects.NewProject | backend/apps/api/AiSow.ProjectManagementService/Models/Project.cs:6-12 | name and description empty, no documents |
| Projects.Inserted | backend/apps/api/AiSow.ProjectManagementService/Repos/ProjectRepository.cs:28-34 | one new key, holding the project under it; the other entries unchanged |
| Projects.Updated | backend/apps/api/AiSow.ProjectManagementService/Repos/ProjectRepository.cs:36-44 | same keys; only that entry's name and description change; ids and documents are kept |
| Projects.Removed | backend/apps/api/AiSow.ProjectManagementService/Repos/ProjectRepository.cs:46-53 | that key gone, the rest unchanged |
| Projects.InsertKeepsKeying | backend/apps/api/AiSow.ProjectManagementService/Repos/ProjectRepository.cs:28-34 | insertion keeps every project filed under its own id |
| Projects.UpdateKeepsKeying | backend/apps/api/AiSow.ProjectManagementService/Repos/ProjectRepository.cs:40-41 | so does an update |
| Projects.UpdateMissingIsIdentity | backend/apps/api/AiSow.ProjectManagementService/Repos/ProjectRepository.cs:38-39 | updating a missing id changes nothing |
| Projects.UpdateIdempotent | backend/apps/api/AiSow.ProjectManagementService/Repos/ProjectRepository.cs:40-41 | updating twice is updating once |
| Projects.UpdateWithStoredIsIdentity | backend/apps/api/AiSow.ProjectManagementService/Repos/ProjectRepository.cs:40-41 | updating with the stored project changes nothing |
| Projects.RemoveUndoesInsert | backend/apps/api/AiSow.ProjectManagementService/Repos/ProjectRepository.cs:28-53 | removing what was added restores the table |
| Projects.RemoveMissingIsIdentity | backend/apps/api/AiSow.ProjectManagementService/Repos/ProjectRepository.cs:48-49 | removing a missing id changes nothing |
| Projects.FreshIdExists | backend/apps/api/AiSow.ProjectManagementService/Repos/ProjectRepository.cs:30 | an unused id always exists |
| Projects.ProjectRepository.constructor | backend/apps/api/AiSow.ProjectManagementService/Repos/ProjectRepository.cs:13-16 | an empty, well-keyed table |
| Projects.ProjectRepository.GetAll | backend/apps/api/AiSow.ProjectManagementService/Repos/ProjectRepository.cs:18-21 | every stored project exactly once |
| Projects.ProjectRepository.GetById | backend/apps/api/AiSow.ProjectManagementService/Repos/ProjectRepository.cs:23-26 | a result exactly when a stored project has that id, and then it is that project |
| Projects.ProjectRepository.Add | backend/apps/api/AiSow.ProjectManagementService/Repos/ProjectRepository.cs:28-34 | the id is replaced by an unused one; the table is `Inserted`; the stored project is returned |
| Projects.ProjectRepository.Update | backend/apps/api/AiSow.ProjectManagementService/Repos/ProjectRepository.cs:36-44 | null exactly for a missing id; the table is `Updated`; the updated entry is returned |
| Projects.ProjectRepository.Remove | backend/apps/api/AiSow.ProjectManagementService/Repos/ProjectRepository.cs:46-53 | true exactly when the id was stored; the table is `Removed` |

## Left out

- PDF reading with PyMuPDF is not modelled: `fitz.open`, `is_vector_pdf`, `extract_lines`, `extract_paths`, `extract_texts` and `page.get_text`.
  - A page arrives as its lines, text spans, paths and word boxes.
  - Whether the PDF is a vector PDF is a parameter of `VectorizePdf`.
- The Cypher query of `find_scale_by_proximity` is not modelled. The source never creates the driver it uses, and the query selects by a 400 × 100 window, orders by distance and keeps 10.
  - The query's result is a candidate list, already in distance order.
- `round(w[1], 1)`: the line key of a word is an abstract real, compared only for equality.
- ScalePatterns.ValueAt: only ASCII digits count as `\d`, while Python's `\d` also matches other Unicode decimal digits.
- The regular-expression engine is not modelled, only the specific patterns.
  - Each pattern is deterministic at a fixed start, so backtracking cannot change the outcome.
  - The quote class `[\"â€']` under IGNORECASE is the set of those characters and `Â`.
- `AgglomerativeClustering` is not modelled: the cluster labels are a parameter of `ClusterOcrItems`.
- OpenCV is not modelled: image filtering, edge and line detection, `findContours`, drawing and debug images.
  - The contours are a parameter.
  - FloorPlan.ContainsPoint: `pointPolygonTest(...) >= 0` is stood in for by an integer crossing-number test that counts the boundary as inside. It is not OpenCV's algorithm, and only its properties (vertices inside, points beyond the extent outside) are proved.
  - Contours must have at least three vertices. `squeeze()` turns a one-point contour into a bare point, which the source then fails on.
- EasyOcr.FormatItem, EasyOcr.TextItem, EasyOcr.FormatEasyOcrResult and EasyOcr.ProcessDetections require every detection to have at least one corner. EasyOCR returns four corners per detection, and with none the source's `min` of an empty list raises `ValueError` (`utils.py:20`, `ocr_service.py:25`); that error is not modelled.
- The callers of `format_easyocr_result` in the OCR and PDF-to-image services are not part of this model. They pass no threshold, so the default `0.80` applies, which is `EasyOcr.DefaultConfidenceThreshold`.
- Floating point is not modelled: coordinates, confidences, ratios and sizes are exact reals.
  - EasyOcr.Round4: rounds the exact real half to even. It does not model the binary doubles Python's `round` sees.
  - IEEE division is not modelled, and neither is the full `float()` grammar: only the characters the patterns can pass into `float()` are handled (digits, `.`, `/`, `-`).
- Debug printing, `_save_debug_image` and the `debug_images` response field are not modelled.
- In `Login.tsx` several parts are not modelled:
  - rendering;
  - the show-password toggles;
  - `handleInputChange`, which edits a field and clears the error;
  - navigation after a successful call;
  - `AuthContext`.
  - Whether the auth call fails, and its message, is a parameter of `HandleSubmit`.
- Entity Framework is not modelled: the `Projects` table is an in-memory map.
  - `Guid.NewGuid()` becomes a choice of an unused id.
  - Include(Documents) and relationship fix-up are not modelled.
  - Object identity and aliasing of the returned projects are not modelled.
  - Asynchronous calls run one at a time.
- Routing, controllers, start-up and the other services (agent, embedding, PDF-to-image, the OCR service's I/O) are not modelled.
