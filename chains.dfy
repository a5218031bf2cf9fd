/** Splitting a sequence into runs by comparing each element with the one
    before it: a new run starts exactly where `brk(previous, current)` holds.
    Both sweeps of `cluster_by_line` are of this kind: the line sweep compares
    an item with the last item of the open line (its predecessor in sorted
    order) and the phrase sweep compares it with the last item of the open
    phrase (its predecessor in the line). */
module Chains {
  import opened Utils

  function Last<T>(s: seq<T>): T
    requires |s| > 0
  {
    s[|s| - 1]
  }

  /** The left-to-right sweep, written over the prefix it has consumed. */
  function Split<T>(s: seq<T>, brk: (T, T) -> bool): (r: seq<seq<T>>)
    ensures |r| <= |s|
    ensures |r| == 0 <==> |s| == 0
    decreases |s|
  {
    if |s| == 0 then []
    else if |s| == 1 then [[s[0]]]
    else
      var init := Split(s[..|s| - 1], brk);
      var x := s[|s| - 1];
      if brk(s[|s| - 2], x) then init + [[x]]
      else init[..|init| - 1] + [Last(init) + [x]]
  }

  // ----- the declarative reading of a chain split -----

  ghost predicate RunsNonEmpty<T>(runs: seq<seq<T>>) {
    forall g :: 0 <= g < |runs| ==> |runs[g]| > 0
  }

  ghost predicate NoBreakWithin<T>(run: seq<T>, brk: (T, T) -> bool) {
    forall j :: 0 < j < |run| ==> !brk(run[j - 1], run[j])
  }

  ghost predicate NoBreakInside<T>(runs: seq<seq<T>>, brk: (T, T) -> bool) {
    forall g :: 0 <= g < |runs| ==> NoBreakWithin(runs[g], brk)
  }

  /** The run before run `g` ends with an element that breaks with run `g`'s first. */
  ghost predicate BreakBefore<T>(runs: seq<seq<T>>, g: nat, brk: (T, T) -> bool)
    requires 0 < g < |runs|
  {
    |runs[g - 1]| > 0 && |runs[g]| > 0 && brk(Last(runs[g - 1]), runs[g][0])
  }

  ghost predicate BreaksBetween<T>(runs: seq<seq<T>>, brk: (T, T) -> bool) {
    forall g: nat :: 0 < g < |runs| ==> BreakBefore(runs, g, brk)
  }

  /** The runs are non-empty, their concatenation is the input, consecutive
      elements inside a run never break, and the last element of each run
      breaks with the first element of the next. */
  ghost predicate IsChainPartition<T>(runs: seq<seq<T>>, s: seq<T>, brk: (T, T) -> bool) {
    Flatten(runs) == s && RunsNonEmpty(runs) && NoBreakInside(runs, brk) && BreaksBetween(runs, brk)
  }

  // ----- how the four properties behave when a run is added or extended -----

  lemma FlattenLast<T>(runs: seq<seq<T>>)
    requires |runs| > 0 && |Last(runs)| > 0
    ensures |Flatten(runs)| > 0 && Last(Flatten(runs)) == Last(Last(runs))
  {
  }

  lemma AddRun<T>(runs: seq<seq<T>>, x: T, brk: (T, T) -> bool)
    requires RunsNonEmpty(runs) && NoBreakInside(runs, brk) && BreaksBetween(runs, brk)
    requires |runs| > 0 ==> brk(Last(Last(runs)), x)
    ensures var r := runs + [[x]];
      Flatten(r) == Flatten(runs) + [x] && RunsNonEmpty(r) && NoBreakInside(r, brk) && BreaksBetween(r, brk)
  {
    var r, n := runs + [[x]], |runs|;
    FlattenSnoc(runs, [x]);
    forall g | 0 <= g <= n ensures |r[g]| > 0 && NoBreakWithin(r[g], brk) {
      if g < n {
        assert r[g] == runs[g];
        assert NoBreakWithin(runs[g], brk);
      }
    }
    forall g: nat | 0 < g <= n ensures BreakBefore(r, g, brk) {
      assert r[g - 1] == runs[g - 1];
      if g < n {
        assert BreakBefore(runs, g, brk);
        assert r[g] == runs[g];
      }
    }
  }

  /** A grouping that differs from a chain grouping only in its last run, which
      starts with the same element and has no break inside, keeps the three
      run properties. */
  lemma KeepFront<T>(runs: seq<seq<T>>, r: seq<seq<T>>, brk: (T, T) -> bool)
    requires |r| == |runs| > 0
    requires forall i :: 0 <= i < |r| - 1 ==> r[i] == runs[i]
    requires |Last(r)| > 0 && |Last(runs)| > 0 && Last(r)[0] == Last(runs)[0]
    requires NoBreakWithin(Last(r), brk)
    requires RunsNonEmpty(runs) && NoBreakInside(runs, brk) && BreaksBetween(runs, brk)
    ensures RunsNonEmpty(r) && NoBreakInside(r, brk) && BreaksBetween(r, brk)
  {
    var n := |r|;
    forall g | 0 <= g < n ensures |r[g]| > 0 && NoBreakWithin(r[g], brk) {
      if g < n - 1 {
        assert r[g] == runs[g];
        assert NoBreakWithin(runs[g], brk);
      }
    }
    forall g: nat | 0 < g < n ensures BreakBefore(r, g, brk) {
      assert BreakBefore(runs, g, brk);
      assert r[g - 1] == runs[g - 1];
      assert r[g][0] == runs[g][0];
    }
  }

  /** A prefix of a chain grouping keeps the three run properties. */
  lemma KeepPrefix<T>(runs: seq<seq<T>>, m: nat, brk: (T, T) -> bool)
    requires m <= |runs|
    requires RunsNonEmpty(runs) && NoBreakInside(runs, brk) && BreaksBetween(runs, brk)
    ensures var r := runs[..m]; RunsNonEmpty(r) && NoBreakInside(r, brk) && BreaksBetween(r, brk)
  {
    var r := runs[..m];
    forall g | 0 <= g < m ensures |r[g]| > 0 && NoBreakWithin(r[g], brk) {
      assert r[g] == runs[g];
      assert NoBreakWithin(runs[g], brk);
    }
    forall g: nat | 0 < g < m ensures BreakBefore(r, g, brk) {
      assert BreakBefore(runs, g, brk);
      assert r[g - 1] == runs[g - 1] && r[g] == runs[g];
    }
  }

  lemma NoBreakWithinSnoc<T>(run: seq<T>, x: T, brk: (T, T) -> bool)
    requires |run| > 0 && NoBreakWithin(run, brk) && !brk(Last(run), x)
    ensures NoBreakWithin(run + [x], brk)
  {
    forall j | 0 < j < |run| + 1 ensures !brk((run + [x])[j - 1], (run + [x])[j]) {
      if j < |run| {
        assert (run + [x])[j - 1] == run[j - 1] && (run + [x])[j] == run[j];
      }
    }
  }

  lemma NoBreakWithinFront<T>(run: seq<T>, brk: (T, T) -> bool)
    requires |run| > 0 && NoBreakWithin(run, brk)
    ensures NoBreakWithin(run[..|run| - 1], brk)
  {
    var front := run[..|run| - 1];
    forall j | 0 < j < |front| ensures !brk(front[j - 1], front[j]) {
      assert front[j - 1] == run[j - 1] && front[j] == run[j];
    }
  }

  lemma ExtendRun<T>(runs: seq<seq<T>>, x: T, brk: (T, T) -> bool)
    requires |runs| > 0
    requires RunsNonEmpty(runs) && NoBreakInside(runs, brk) && BreaksBetween(runs, brk)
    requires !brk(Last(Last(runs)), x)
    ensures var r := runs[..|runs| - 1] + [Last(runs) + [x]];
      Flatten(r) == Flatten(runs) + [x] && RunsNonEmpty(r) && NoBreakInside(r, brk) && BreaksBetween(r, brk)
  {
    var n := |runs|;
    var init, g := runs[..n - 1], Last(runs);
    var r := init + [g + [x]];
    FlattenSnoc(init, g + [x]);
    assert NoBreakWithin(runs[n - 1], brk);
    NoBreakWithinSnoc(g, x, brk);
    assert forall i :: 0 <= i < n - 1 ==> r[i] == runs[i];
    KeepFront(runs, r, brk);
  }

  /** The sweep computes a chain partition. */
  lemma {:induction false} SplitIsChainPartition<T>(s: seq<T>, brk: (T, T) -> bool)
    ensures IsChainPartition(Split(s, brk), s, brk)
    decreases |s|
  {
    if |s| == 1 {
      AddRun([], s[0], brk);
    } else if |s| > 1 {
      SplitIsChainPartition(s[..|s| - 1], brk);
      SplitGrows(s, brk);
    }
  }

  /** The last element either starts a new run or extends the last one. */
  lemma SplitGrows<T>(s: seq<T>, brk: (T, T) -> bool)
    requires |s| > 1 && IsChainPartition(Split(s[..|s| - 1], brk), s[..|s| - 1], brk)
    ensures IsChainPartition(Split(s, brk), s, brk)
  {
    var init, x := Split(s[..|s| - 1], brk), s[|s| - 1];
    Snoc(s);
    FlattenLast(init);
    if brk(s[|s| - 2], x) {
      AddRun(init, x, brk);
    } else {
      ExtendRun(init, x, brk);
    }
  }

  // ----- the sweep as a loop sees it -----

  /** The runs a sweep has produced so far: the closed runs, then the open run if any. */
  function Pending<T>(closed: seq<seq<T>>, open: seq<T>): seq<seq<T>> {
    if |open| == 0 then closed else closed + [open]
  }

  /** One step of the sweep: the next element either starts the first run, closes
      the open run and starts a new one, or joins the open run. */
  lemma SweepStep<T>(t: seq<T>, x: T, brk: (T, T) -> bool, closed: seq<seq<T>>, open: seq<T>)
    requires Pending(closed, open) == Split(t, brk)
    requires |open| == 0 <==> |t| == 0
    ensures |open| == 0 ==> Pending(closed, [x]) == Split(t + [x], brk)
    ensures |open| > 0 && brk(Last(open), x) ==> Pending(closed + [open], [x]) == Split(t + [x], brk)
    ensures |open| > 0 && !brk(Last(open), x) ==> Pending(closed, open + [x]) == Split(t + [x], brk)
  {
    if |t| == 0 {
      assert t + [x] == [x];
    } else if brk(Last(open), x) {
      SweepClose(t, x, brk, closed, open);
    } else {
      SweepExtend(t, x, brk, closed, open);
    }
  }

  /** `SweepStep` for the element at index `i`, stated over prefixes. */
  lemma SweepStepAt<T>(s: seq<T>, i: nat, brk: (T, T) -> bool, closed: seq<seq<T>>, open: seq<T>)
    requires i < |s|
    requires Pending(closed, open) == Split(s[..i], brk)
    requires |open| == 0 <==> i == 0
    ensures |open| == 0 ==> Pending(closed, [s[i]]) == Split(s[..i + 1], brk)
    ensures |open| > 0 && brk(Last(open), s[i]) ==> Pending(closed + [open], [s[i]]) == Split(s[..i + 1], brk)
    ensures |open| > 0 && !brk(Last(open), s[i]) ==> Pending(closed, open + [s[i]]) == Split(s[..i + 1], brk)
  {
    assert s[..i + 1] == s[..i] + [s[i]];
    SweepStep(s[..i], s[i], brk, closed, open);
  }

  lemma SweepClose<T>(t: seq<T>, x: T, brk: (T, T) -> bool, closed: seq<seq<T>>, open: seq<T>)
    requires |t| > 0 && |open| > 0 && closed + [open] == Split(t, brk) && brk(Last(open), x)
    ensures closed + [open] + [[x]] == Split(t + [x], brk)
  {
    SplitLast(t, brk);
    SplitSnoc(t, x, brk);
  }

  lemma SweepExtend<T>(t: seq<T>, x: T, brk: (T, T) -> bool, closed: seq<seq<T>>, open: seq<T>)
    requires |t| > 0 && |open| > 0 && closed + [open] == Split(t, brk) && !brk(Last(open), x)
    ensures closed + [open + [x]] == Split(t + [x], brk)
  {
    var r := Split(t, brk);
    SplitLast(t, brk);
    assert Last(r) == open && r[..|r| - 1] == closed;
    SplitSnoc(t, x, brk);
  }

  // ----- uniqueness -----

  lemma {:induction false} FlattenLength<T>(runs: seq<seq<T>>)
    requires RunsNonEmpty(runs)
    ensures |Flatten(runs)| >= |runs|
    decreases |runs|
  {
    if |runs| > 0 {
      FlattenLength(runs[..|runs| - 1]);
    }
  }

  lemma DropLastRun<T>(runs: seq<seq<T>>, brk: (T, T) -> bool)
    requires |runs| > 0
    requires RunsNonEmpty(runs) && NoBreakInside(runs, brk) && BreaksBetween(runs, brk)
    ensures var r := runs[..|runs| - 1];
      Flatten(runs) == Flatten(r) + Last(runs) && RunsNonEmpty(r) && NoBreakInside(r, brk) && BreaksBetween(r, brk)
  {
    KeepPrefix(runs, |runs| - 1, brk);
  }

  lemma ShrinkLastRun<T>(runs: seq<seq<T>>, brk: (T, T) -> bool)
    requires |runs| > 0 && |Last(runs)| > 1
    requires RunsNonEmpty(runs) && NoBreakInside(runs, brk) && BreaksBetween(runs, brk)
    ensures var g := Last(runs); var r := runs[..|runs| - 1] + [g[..|g| - 1]];
      Flatten(runs) == Flatten(r) + [Last(g)] && RunsNonEmpty(r) && NoBreakInside(r, brk) && BreaksBetween(r, brk)
      && !brk(g[|g| - 2], Last(g))
  {
    var n := |runs|;
    var init, g := runs[..n - 1], Last(runs);
    var g' := g[..|g| - 1];
    var r := init + [g'];
    Snoc(g);
    FlattenSnoc(init, g');
    assert NoBreakWithin(runs[n - 1], brk);
    NoBreakWithinFront(g, brk);
    assert forall i :: 0 <= i < n - 1 ==> r[i] == runs[i];
    KeepFront(runs, r, brk);
  }

  /** A chain partition is unique: any grouping with the four properties of
      `IsChainPartition` is the one the sweep produces. */
  lemma {:induction false} ChainPartitionIsSplit<T>(runs: seq<seq<T>>, s: seq<T>, brk: (T, T) -> bool)
    requires IsChainPartition(runs, s, brk)
    ensures runs == Split(s, brk)
    decreases |s|
  {
    FlattenLength(runs);
    if |s| > 0 {
      if |Last(runs)| == 1 {
        UniqueWhenLastRunSingle(runs, s, brk);
      } else {
        UniqueWhenLastRunLonger(runs, s, brk);
      }
    }
  }

  lemma {:induction false} UniqueWhenLastRunSingle<T>(runs: seq<seq<T>>, s: seq<T>, brk: (T, T) -> bool)
    requires IsChainPartition(runs, s, brk) && |s| > 0 && |runs| > 0 && |Last(runs)| == 1
    ensures runs == Split(s, brk)
    decreases |s|, 0
  {
    var n := |runs|;
    var init := runs[..n - 1];
    var s', x := s[..|s| - 1], s[|s| - 1];
    DropLastRun(runs, brk);
    Snoc(s);
    Snoc(runs);
    assert Last(runs) == [x];
    ChainPartitionIsSplit(init, s', brk);
    if |s| > 1 {
      FlattenLength(init);
      FlattenLast(init);
      assert BreakBefore(runs, n - 1, brk);
      assert runs[n - 2] == Last(init);
      SplitSnoc(s', x, brk);
    }
  }

  lemma {:induction false} UniqueWhenLastRunLonger<T>(runs: seq<seq<T>>, s: seq<T>, brk: (T, T) -> bool)
    requires IsChainPartition(runs, s, brk) && |s| > 0 && |runs| > 0 && |Last(runs)| > 1
    ensures runs == Split(s, brk)
    decreases |s|, 0
  {
    var n := |runs|;
    var init, g := runs[..n - 1], Last(runs);
    var g' := g[..|g| - 1];
    var runs' := init + [g'];
    var s', x := s[..|s| - 1], s[|s| - 1];
    ShrinkLastRun(runs, brk);
    Snoc(s);
    assert Last(g) == x;
    ChainPartitionIsSplit(runs', s', brk);
    FlattenLast(runs');
    assert Last(runs') == g';
    assert Last(s') == Last(g') == g[|g| - 2];
    SplitSnoc(s', x, brk);
    assert runs'[..n - 1] == init;
    Snoc(g);
    Snoc(runs);
  }

  /** `Split` unfolded on a sequence written as `t + [x]`. */
  lemma SplitSnoc<T>(t: seq<T>, x: T, brk: (T, T) -> bool)
    requires |t| > 0
    ensures var r := Split(t, brk);
      Split(t + [x], brk) == if brk(Last(t), x) then r + [[x]] else r[..|r| - 1] + [Last(r) + [x]]
  {
    assert (t + [x])[..|t|] == t;
  }

  // ----- composing two sweeps -----

  lemma SplitEachStep<T>(runs: seq<seq<T>>, j: nat, brk: (T, T) -> bool)
    requires j < |runs|
    ensures SplitEach(runs[..j + 1], brk) == SplitEach(runs[..j], brk) + Split(runs[j], brk)
  {
    assert runs[..j + 1] == runs[..j] + [runs[j]];
    SplitEachSnoc(runs[..j], runs[j], brk);
  }

  /** Splitting each run of a first split again, and concatenating. */
  function SplitEach<T>(runs: seq<seq<T>>, brk: (T, T) -> bool): seq<seq<T>> {
    if |runs| == 0 then [] else SplitEach(runs[..|runs| - 1], brk) + Split(Last(runs), brk)
  }

  /** Breaks where `outer` or `inner` does. */
  function Either<T>(outer: (T, T) -> bool, inner: (T, T) -> bool): (T, T) -> bool {
    (a, b) => outer(a, b) || inner(a, b)
  }

  /** Two chain splits in a row are the one chain split that breaks where
      either of them does. */
  lemma {:induction false} SplitEachOfSplit<T>(s: seq<T>, outer: (T, T) -> bool, inner: (T, T) -> bool)
    ensures SplitEach(Split(s, outer), inner) == Split(s, Either(outer, inner))
    decreases |s|
  {
    if |s| == 1 {
      assert [[s[0]]][..0] == [];
    } else if |s| > 1 {
      var t, x := s[..|s| - 1], s[|s| - 1];
      Snoc(s);
      SplitEachOfSplit(t, outer, inner);
      if outer(Last(t), x) {
        OuterBroken(t, x, outer, inner);
      } else {
        OuterExtended(t, x, outer, inner);
      }
    }
  }

  /** The step of `SplitEachOfSplit` where the new last element opens a new outer run. */
  lemma OuterBroken<T>(t: seq<T>, x: T, outer: (T, T) -> bool, inner: (T, T) -> bool)
    requires |t| > 0 && outer(Last(t), x)
    requires SplitEach(Split(t, outer), inner) == Split(t, Either(outer, inner))
    ensures SplitEach(Split(t + [x], outer), inner) == Split(t + [x], Either(outer, inner))
  {
    var runs := Split(t, outer);
    calc {
      SplitEach(Split(t + [x], outer), inner);
      { SplitSnoc(t, x, outer); }
      SplitEach(runs + [[x]], inner);
      { SplitEachSnoc(runs, [x], inner); }
      SplitEach(runs, inner) + Split([x], inner);
      { assert Split([x], inner) == [[x]]; }
      Split(t, Either(outer, inner)) + [[x]];
      { SplitSnoc(t, x, Either(outer, inner)); }
      Split(t + [x], Either(outer, inner));
    }
  }

  /** The last run of a split ends with the last element. */
  lemma SplitLast<T>(s: seq<T>, brk: (T, T) -> bool)
    requires |s| > 0
    ensures |Last(Split(s, brk))| > 0 && Last(Last(Split(s, brk))) == Last(s)
  {
    SplitIsChainPartition(s, brk);
    FlattenLast(Split(s, brk));
  }

  lemma SplitEachSnoc<T>(runs: seq<seq<T>>, run: seq<T>, brk: (T, T) -> bool)
    ensures SplitEach(runs + [run], brk) == SplitEach(runs, brk) + Split(run, brk)
  {
    assert (runs + [run])[..|runs|] == runs;
  }

  /** Appending `[x]` as a new run, or to the last run, commutes with a prefix `A`. */
  lemma SnocAfterPrefix<T>(A: seq<seq<T>>, B: seq<seq<T>>, x: T)
    requires |B| > 0
    ensures var R := A + B;
      A + (B + [[x]]) == R + [[x]] && A + (B[..|B| - 1] + [Last(B) + [x]]) == R[..|R| - 1] + [Last(R) + [x]]
  {
    var R := A + B;
    assert R[..|R| - 1] == A + B[..|B| - 1];
  }

  /** The step of `SplitEachOfSplit` where the new last element joins the open outer run. */
  lemma OuterExtended<T>(t: seq<T>, x: T, outer: (T, T) -> bool, inner: (T, T) -> bool)
    requires |t| > 0 && !outer(Last(t), x)
    requires SplitEach(Split(t, outer), inner) == Split(t, Either(outer, inner))
    ensures SplitEach(Split(t + [x], outer), inner) == Split(t + [x], Either(outer, inner))
  {
    var runs := Split(t, outer);
    var init, g := runs[..|runs| - 1], Last(runs);
    var A, B := SplitEach(init, inner), Split(g, inner);
    var R := Split(t, Either(outer, inner));
    assert R == A + B by {
      Snoc(runs);
      SplitEachSnoc(init, g, inner);
    }
    SplitLast(t, outer);
    assert |B| > 0;
    SnocAfterPrefix(A, B, x);
    if inner(Last(g), x) {
      calc {
        SplitEach(Split(t + [x], outer), inner);
        { SplitSnoc(t, x, outer); }
        SplitEach(init + [g + [x]], inner);
        { SplitEachSnoc(init, g + [x], inner); }
        A + Split(g + [x], inner);
        { SplitSnoc(g, x, inner); }
        A + (B + [[x]]);
        R + [[x]];
        { SplitSnoc(t, x, Either(outer, inner)); }
        Split(t + [x], Either(outer, inner));
      }
    } else {
      calc {
        SplitEach(Split(t + [x], outer), inner);
        { SplitSnoc(t, x, outer); }
        SplitEach(init + [g + [x]], inner);
        { SplitEachSnoc(init, g + [x], inner); }
        A + Split(g + [x], inner);
        { SplitSnoc(g, x, inner); }
        A + (B[..|B| - 1] + [Last(B) + [x]]);
        R[..|R| - 1] + [Last(R) + [x]];
        { SplitSnoc(t, x, Either(outer, inner)); }
        Split(t + [x], Either(outer, inner));
      }
    }
  }
}
