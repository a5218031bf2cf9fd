/** Text-fragment clustering: grouping OCR items by precomputed cluster labels,
    cutting the (y, x)-sorted items into lines and the lines into phrases, and
    rebuilding a cluster's text left to right. */
module Clustering {
  import opened Utils
  import opened StableSort
  import opened Chains
  import opened Grouping
  import opened OcrModels

  const DefaultYTolerance: int := 10
  const DefaultXGapThreshold: int := 60
  /** A horizontal gap wider than this gets a space in the merged text. */
  const SpaceGap: int := 10

  function Abs(n: int): nat {
    if n < 0 then -n else n
  }

  /** Top to bottom, then left to right: the key `(y, x)`. */
  function LineOrder(item: OcrTextItem): SortKey {
    SortKey(item.boundingBox.y as real, item.boundingBox.x as real)
  }

  /** Left to right: the key `x`. */
  function XOrder(item: OcrTextItem): SortKey {
    SortKey(item.boundingBox.x as real, 0.0)
  }

  /** The horizontal gap from the right edge of `prev` to the left edge of `curr`;
      negative when they overlap or `curr` lies to the left. */
  function Gap(prev: OcrTextItem, curr: OcrTextItem): int {
    curr.boundingBox.x - (prev.boundingBox.x + prev.boundingBox.width)
  }

  /** A new line starts when the vertical distance to the previous item exceeds the tolerance. */
  function LineBreak(yTolerance: int): (OcrTextItem, OcrTextItem) -> bool {
    (prev: OcrTextItem, curr: OcrTextItem) => Abs(curr.boundingBox.y - prev.boundingBox.y) > yTolerance
  }

  /** A new phrase starts when the gap is not below the threshold. */
  function PhraseBreak(xGapThreshold: int): (OcrTextItem, OcrTextItem) -> bool {
    (prev: OcrTextItem, curr: OcrTextItem) => Gap(prev, curr) >= xGapThreshold
  }

  function SortedItems(items: seq<OcrTextItem>): seq<OcrTextItem> {
    SortBy(items, LineOrder)
  }

  function Lines(items: seq<OcrTextItem>, yTolerance: int): seq<seq<OcrTextItem>> {
    Split(SortedItems(items), LineBreak(yTolerance))
  }

  function Phrases(items: seq<OcrTextItem>, yTolerance: int, xGapThreshold: int): seq<seq<OcrTextItem>> {
    SplitEach(Lines(items, yTolerance), PhraseBreak(xGapThreshold))
  }

  // ----- cluster_by_line -----

  /** `cluster_by_line`: items are sorted by `(y, x)`; each item joins the
      current line unless its y is too far from the line's last item, and within
      each line each item joins the current phrase unless its gap from the
      phrase's last item is too wide. The two loops are `SweepLines` and
      `SweepPhrases`. */
  method ClusterByLine(items: seq<OcrTextItem>, yTolerance: int, xGapThreshold: int)
    returns (clusteredPhrases: seq<seq<OcrTextItem>>)
    ensures clusteredPhrases == Phrases(items, yTolerance, xGapThreshold)
    ensures items == [] ==> clusteredPhrases == []
  {
    var sortedItems := SortedItems(items);
    var lines := SweepLines(sortedItems, yTolerance);
    SplitIsChainPartition(sortedItems, LineBreak(yTolerance));
    clusteredPhrases := SweepPhrases(lines, xGapThreshold);
  }

  /** The line loop of `cluster_by_line`. */
  method SweepLines(sortedItems: seq<OcrTextItem>, yTolerance: int) returns (lines: seq<seq<OcrTextItem>>)
    ensures lines == Split(sortedItems, LineBreak(yTolerance))
  {
    lines := [];
    var currentLine: seq<OcrTextItem> := [];
    for k := 0 to |sortedItems|
      invariant Pending(lines, currentLine) == Split(sortedItems[..k], LineBreak(yTolerance))
      invariant |currentLine| == 0 <==> k == 0
    {
      lines, currentLine := LineStep(sortedItems, k, yTolerance, lines, currentLine);
    }
    if |currentLine| > 0 {
      lines := lines + [currentLine];
    }
    FullPrefix(sortedItems);
  }

  /** One pass of the line loop: the item starts the first line, joins the
      current line, or closes it and starts the next. */
  method LineStep(sortedItems: seq<OcrTextItem>, k: nat, yTolerance: int, lines: seq<seq<OcrTextItem>>, currentLine: seq<OcrTextItem>)
    returns (lines': seq<seq<OcrTextItem>>, currentLine': seq<OcrTextItem>)
    requires k < |sortedItems|
    requires Pending(lines, currentLine) == Split(sortedItems[..k], LineBreak(yTolerance))
    requires |currentLine| == 0 <==> k == 0
    ensures Pending(lines', currentLine') == Split(sortedItems[..k + 1], LineBreak(yTolerance))
    ensures |currentLine'| > 0
  {
    var item := sortedItems[k];
    SweepStepAt(sortedItems, k, LineBreak(yTolerance), lines, currentLine);
    lines' := lines;
    if |currentLine| == 0 {
      currentLine' := [item];
    } else {
      var last := currentLine[|currentLine| - 1];
      var yDiff := Abs(item.boundingBox.y - last.boundingBox.y);
      assert LineBreak(yTolerance)(Last(currentLine), item) <==> yDiff > yTolerance;
      if yDiff <= yTolerance {
        currentLine' := currentLine + [item];
      } else {
        lines' := lines + [currentLine];
        currentLine' := [item];
      }
    }
  }

  /** The phrase loop of `cluster_by_line`, over lines that are never empty. */
  method SweepPhrases(lines: seq<seq<OcrTextItem>>, xGapThreshold: int) returns (clusteredPhrases: seq<seq<OcrTextItem>>)
    requires RunsNonEmpty(lines)
    ensures clusteredPhrases == SplitEach(lines, PhraseBreak(xGapThreshold))
  {
    clusteredPhrases := [];
    for j := 0 to |lines|
      invariant clusteredPhrases == SplitEach(lines[..j], PhraseBreak(xGapThreshold))
    {
      clusteredPhrases := SweepLine(clusteredPhrases, lines[j], xGapThreshold);
      SplitEachStep(lines, j, PhraseBreak(xGapThreshold));
    }
    FullPrefix(lines);
  }

  /** The body of the phrase loop: the phrases of one line are appended to
      `clusteredPhrases` as they close, the last one after the line ends. */
  method SweepLine(clustered: seq<seq<OcrTextItem>>, line: seq<OcrTextItem>, xGapThreshold: int)
    returns (clusteredPhrases: seq<seq<OcrTextItem>>)
    requires |line| > 0
    ensures clusteredPhrases == clustered + Split(line, PhraseBreak(xGapThreshold))
  {
    var phraseBreak := PhraseBreak(xGapThreshold);
    clusteredPhrases := clustered;
    var phrase := [line[0]];
    ghost var closed: seq<seq<OcrTextItem>> := [];
    SplitOne(line[..1], phraseBreak);
    for i := 1 to |line|
      invariant |phrase| > 0
      invariant Pending(closed, phrase) == Split(line[..i], phraseBreak)
      invariant clusteredPhrases == clustered + closed
    {
      var prev, curr := phrase[|phrase| - 1], line[i];
      SweepStepAt(line, i, phraseBreak, closed, phrase);
      var gap := curr.boundingBox.x - (prev.boundingBox.x + prev.boundingBox.width);
      assert phraseBreak(prev, curr) <==> gap >= xGapThreshold;
      if gap < xGapThreshold {
        phrase := phrase + [curr];
      } else {
        AppendAssoc(clustered, closed, [phrase]);
        clusteredPhrases := clusteredPhrases + [phrase];
        closed := closed + [phrase];
        phrase := [curr];
      }
    }
    AppendAssoc(clustered, closed, [phrase]);
    clusteredPhrases := clusteredPhrases + [phrase];
    FullPrefix(line);
  }

  lemma SplitOne<T>(s: seq<T>, brk: (T, T) -> bool)
    requires |s| == 1
    ensures Pending([], s) == Split(s, brk)
  {
    assert s == [s[0]];
  }

  /** The sort is Python's stable sort: ordered by `(y, x)`, a permutation of the
      input, and items with equal `(y, x)` keep their input order. */
  lemma SortedItemsProperties(items: seq<OcrTextItem>)
    ensures SortedBy(SortedItems(items), LineOrder)
    ensures multiset(SortedItems(items)) == multiset(items)
    ensures forall k :: WithKey(SortedItems(items), LineOrder, k) == WithKey(items, LineOrder, k)
  {
    SortByIsSortedPermutation(items, LineOrder);
    forall k ensures WithKey(SortedItems(items), LineOrder, k) == WithKey(items, LineOrder, k) {
      SortByIsStable(items, LineOrder, k);
    }
  }

  /** Lines are a chain split of the sorted items: consecutive sorted items share
      a line exactly when their y values differ by at most the tolerance. Any
      grouping with that property is this one. */
  lemma LinesAreChains(items: seq<OcrTextItem>, yTolerance: int)
    ensures IsChainPartition(Lines(items, yTolerance), SortedItems(items), LineBreak(yTolerance))
    ensures forall runs ::
              IsChainPartition(runs, SortedItems(items), LineBreak(yTolerance)) ==> runs == Lines(items, yTolerance)
  {
    SplitIsChainPartition(SortedItems(items), LineBreak(yTolerance));
    forall runs | IsChainPartition(runs, SortedItems(items), LineBreak(yTolerance))
      ensures runs == Lines(items, yTolerance)
    {
      ChainPartitionIsSplit(runs, SortedItems(items), LineBreak(yTolerance));
    }
  }

  /** The phrases are non-empty, flatten back to exactly the sorted items (nothing
      lost, duplicated or reordered), and a new phrase starts between two
      consecutive sorted items exactly when a line break or a phrase break falls
      there. */
  lemma PhrasesPartitionSortedItems(items: seq<OcrTextItem>, yTolerance: int, xGapThreshold: int)
    ensures var phrases := Phrases(items, yTolerance, xGapThreshold);
      IsChainPartition(phrases, SortedItems(items), Either(LineBreak(yTolerance), PhraseBreak(xGapThreshold)))
    ensures Flatten(Phrases(items, yTolerance, xGapThreshold)) == SortedItems(items)
    ensures multiset(Flatten(Phrases(items, yTolerance, xGapThreshold))) == multiset(items)
  {
    var s := SortedItems(items);
    SplitEachOfSplit(s, LineBreak(yTolerance), PhraseBreak(xGapThreshold));
    SplitIsChainPartition(s, Either(LineBreak(yTolerance), PhraseBreak(xGapThreshold)));
    SortByIsSortedPermutation(items, LineOrder);
  }

  // ----- merge_cluster_text -----

  /** The space that goes before `item` when it follows `before`. */
  function Separator(before: seq<OcrTextItem>, item: OcrTextItem): string {
    if |before| > 0 && Gap(Last(before), item) > SpaceGap then " " else ""
  }

  /** The text of items already in left-to-right order. */
  function MergedText(s: seq<OcrTextItem>): string {
    if |s| == 0 then ""
    else MergedText(s[..|s| - 1]) + Separator(s[..|s| - 1], Last(s)) + Last(s).text
  }

  function SumTextLengths(s: seq<OcrTextItem>): nat {
    if |s| == 0 then 0 else SumTextLengths(s[..|s| - 1]) + |Last(s).text|
  }

  /** The positions (after the first) whose gap from the previous item is wide. */
  function WideGaps(s: seq<OcrTextItem>): set<nat> {
    set i: nat | i < |s| && WideAt(s, i)
  }

  predicate WideAt(s: seq<OcrTextItem>, i: nat) {
    0 < i < |s| && Gap(s[i - 1], s[i]) > SpaceGap
  }

  function Texts(s: seq<OcrTextItem>): (r: seq<string>)
    ensures |r| == |s| && forall i :: 0 <= i < |s| ==> r[i] == s[i].text
  {
    seq(|s|, i requires 0 <= i < |s| => s[i].text)
  }

  /** `merge_cluster_text`: sort by x, then append each text, with one space
      before it when the gap from the previous item's right edge exceeds 10. */
  method MergeClusterText(cluster: seq<OcrTextItem>) returns (mergedText: string)
    ensures mergedText == MergedText(SortBy(cluster, XOrder))
    ensures cluster == [] ==> mergedText == ""
  {
    var sortedItems := SortBy(cluster, XOrder);
    mergedText := "";
    var prevXEnd: Option<int> := None;
    for k := 0 to |sortedItems|
      invariant mergedText == MergedText(sortedItems[..k])
      invariant prevXEnd == if k == 0 then None
        else Some(sortedItems[k - 1].boundingBox.x + sortedItems[k - 1].boundingBox.width)
    {
      mergedText, prevXEnd := MergeStep(sortedItems, k, mergedText, prevXEnd);
    }
    FullPrefix(sortedItems);
  }

  /** One pass of the merge loop: a space when the gap is wide, then the text. */
  method MergeStep(sortedItems: seq<OcrTextItem>, k: nat, mergedText: string, prevXEnd: Option<int>)
    returns (mergedText': string, prevXEnd': Option<int>)
    requires k < |sortedItems|
    requires mergedText == MergedText(sortedItems[..k])
    requires prevXEnd == if k == 0 then None
      else Some(sortedItems[k - 1].boundingBox.x + sortedItems[k - 1].boundingBox.width)
    ensures mergedText' == MergedText(sortedItems[..k + 1])
    ensures prevXEnd' == Some(sortedItems[k].boundingBox.x + sortedItems[k].boundingBox.width)
  {
    var item := sortedItems[k];
    assert sortedItems[..k + 1][..k] == sortedItems[..k];
    assert k > 0 ==> Last(sortedItems[..k]) == sortedItems[k - 1];
    var xStart := item.boundingBox.x;
    mergedText' := mergedText;
    if prevXEnd.Some? {
      var gap := xStart - prevXEnd.value;
      if gap > SpaceGap {
        mergedText' := mergedText' + " ";
      }
    }
    mergedText' := mergedText' + item.text;
    prevXEnd' := Some(xStart + item.boundingBox.width);
  }

  lemma WideGapsSnoc(s: seq<OcrTextItem>)
    requires |s| > 0
    ensures var t := s[..|s| - 1];
      WideGaps(s) == WideGaps(t) + (if |t| > 0 && Gap(Last(t), Last(s)) > SpaceGap then {|s| - 1} else {})
  {
  }

  /** The merged text is as long as all texts together plus one space per wide gap. */
  lemma {:induction false} MergedTextLength(s: seq<OcrTextItem>)
    ensures |MergedText(s)| == SumTextLengths(s) + |WideGaps(s)|
    decreases |s|
  {
    if |s| > 0 {
      var t := s[..|s| - 1];
      MergedTextLength(t);
      WideGapsSnoc(s);
      assert |s| - 1 !in WideGaps(t);
    }
  }

  /** When every gap is wide, the merged text is the texts joined by single spaces. */
  lemma {:induction false} MergedTextAllWide(s: seq<OcrTextItem>)
    requires forall i :: 0 < i < |s| ==> Gap(s[i - 1], s[i]) > SpaceGap
    ensures MergedText(s) == Join(Texts(s), " ")
    decreases |s|
  {
    if |s| > 1 {
      var t := s[..|s| - 1];
      MergedTextAllWide(t);
      assert Texts(s)[..|s| - 1] == Texts(t);
    }
  }

  /** When no gap is wide, the merged text is the texts run together. */
  lemma {:induction false} MergedTextNoneWide(s: seq<OcrTextItem>)
    requires NarrowGaps(s)
    ensures MergedText(s) == Flatten(Texts(s))
    decreases |s|
  {
    if |s| > 0 {
      var t := s[..|s| - 1];
      NarrowPrefix(s);
      MergedTextNoneWide(t);
      NarrowSnoc(s);
      TextsSnoc(s);
    }
  }

  /** No gap between neighbours is wide. */
  predicate NarrowGaps(s: seq<OcrTextItem>) {
    forall i :: 0 < i < |s| ==> Gap(s[i - 1], s[i]) <= SpaceGap
  }

  lemma NarrowPrefix(s: seq<OcrTextItem>)
    requires |s| > 0 && NarrowGaps(s)
    ensures NarrowGaps(s[..|s| - 1])
  {
    var t := s[..|s| - 1];
    forall i | 0 < i < |t|
      ensures Gap(t[i - 1], t[i]) <= SpaceGap
    {
      assert t[i - 1] == s[i - 1] && t[i] == s[i];
    }
  }

  /** A narrow last gap adds no space. */
  lemma NarrowSnoc(s: seq<OcrTextItem>)
    requires |s| > 0 && (|s| > 1 ==> Gap(s[|s| - 2], s[|s| - 1]) <= SpaceGap)
    ensures MergedText(s) == MergedText(s[..|s| - 1]) + Last(s).text
  {
    var t := s[..|s| - 1];
    if |t| > 0 {
      assert Last(t) == s[|s| - 2];
    }
  }

  lemma TextsSnoc(s: seq<OcrTextItem>)
    requires |s| > 0
    ensures Flatten(Texts(s)) == Flatten(Texts(s[..|s| - 1])) + Last(s).text
  {
    assert Texts(s) == Texts(s[..|s| - 1]) + [Last(s).text];
    FlattenSnoc(Texts(s[..|s| - 1]), Last(s).text);
  }

  // ----- cluster_ocr_items -----

  /** The grouping step of `cluster_ocr_items`. `labels` is the label sequence the
      agglomerative clustering assigned; `zip` pairs labels and items up to the
      shorter of the two. An empty item list gives no clusters. */
  method ClusterOcrItems(items: seq<OcrTextItem>, labels: seq<int>) returns (clusters: seq<seq<OcrTextItem>>)
    ensures var n := if |labels| < |items| then |labels| else |items|;
      clusters == (if |items| == 0 then [] else Grouped(labels[..n], items[..n]))
  {
    if |items| == 0 {
      return [];
    }
    var n := if |labels| < |items| then |labels| else |items|;
    clusters := GroupByKey(labels[..n], items[..n]);
  }

  /** With one label per item, the clusters partition the items into non-empty
      groups with distinct labels, in first-seen label order. */
  lemma ClustersPartitionItems(items: seq<OcrTextItem>, labels: seq<int>)
    requires |labels| == |items|
    ensures multiset(Flatten(Grouped(labels, items))) == multiset(items)
    ensures forall j :: 0 <= j < |Grouped(labels, items)| ==> |Grouped(labels, items)[j]| > 0
  {
    GroupedPartition(labels, items);
    GroupsNonEmpty(labels, items);
  }

  /** Items at y = 100 and y = 125 with the default tolerance of 10 fall on
      two lines, whatever their input order, and so form two phrases. */
  lemma LineSplitScenario(a: OcrTextItem, b: OcrTextItem)
    requires a.boundingBox.y == 100 && b.boundingBox.y == 125
    ensures Lines([a, b], DefaultYTolerance) == [[a], [b]]
    ensures Lines([b, a], DefaultYTolerance) == [[a], [b]]
    ensures Phrases([a, b], DefaultYTolerance, DefaultXGapThreshold) == [[a], [b]]
  {
    assert [a, b][..1] == [a] && [b, a][..1] == [b];
    assert [a][..0] == [] && [b][..0] == [];
    assert SortBy([a], LineOrder) == InsertBy(a, SortBy([], LineOrder), LineOrder) == [a];
    assert SortBy([b], LineOrder) == InsertBy(b, SortBy([], LineOrder), LineOrder) == [b];
    assert KeyLe(LineOrder(a), LineOrder(b)) && !KeyLe(LineOrder(b), LineOrder(a));
    assert SortedItems([a, b]) == InsertBy(b, [a], LineOrder) == [a, b];
    assert InsertBy(a, [b], LineOrder) == InsertBy(a, [], LineOrder) + [b];
    assert SortedItems([b, a]) == InsertBy(a, [b], LineOrder) == [a, b];
    assert LineBreak(DefaultYTolerance)(a, b);
    assert Split([a, b], LineBreak(DefaultYTolerance)) == [[a], [b]];
    var brk := PhraseBreak(DefaultXGapThreshold);
    assert [[a], [b]][..1] == [[a]];
    assert SplitEach([[a]], brk) == [[a]];
  }
}
