/** Source-range arithmetic shared by the EDL planners (crates/cli/src/plan_ranges.rs).
    Seconds are exact reals. */
module PlanRanges {
  import opened Numbers
  import opened Sequences

  datatype SourceRange = SourceRange(start: real, end: real)

  const MIN_RANGE_S: real := 0.010

  predicate StartsNoLater(a: SourceRange, b: SourceRange) { a.start <= b.start }

  // ---------------------------------------------------------------- meaning of a list of ranges

  /** `t` lies in one of the closed ranges. */
  ghost predicate Covers(rs: seq<SourceRange>, t: real) {
    exists r :: r in rs && r.start <= t <= r.end
  }

  ghost predicate SameCover(rs: seq<SourceRange>, ss: seq<SourceRange>) {
    forall t :: Covers(rs, t) <==> Covers(ss, t)
  }

  ghost predicate Proper(rs: seq<SourceRange>) { forall r :: r in rs ==> r.start <= r.end }

  /** Ordered, with a gap of positive length between neighbours. */
  ghost predicate Separated(rs: seq<SourceRange>) {
    forall i, j :: 0 <= i < j < |rs| ==> rs[i].end < rs[j].start
  }

  /** In order and disjoint. */
  ghost predicate Ordered(rs: seq<SourceRange>) {
    forall i, j :: 0 <= i < j < |rs| ==> rs[i].end <= rs[j].start
  }

  ghost predicate Within(rs: seq<SourceRange>, lo: real, hi: real) {
    forall r :: r in rs ==> lo <= r.start && r.end <= hi
  }

  /** `r` stays out of the interior of `[start, end]`. */
  predicate Avoids(r: SourceRange, start: real, end: real) { r.end <= start || end <= r.start }

  function Total(rs: seq<SourceRange>): real {
    if rs == [] then 0.0 else rs[0].end - rs[0].start + Total(rs[1..])
  }

  // ---------------------------------------------------------------- merge_ranges

  /** One turn of the merge loop. */
  function AddRange(merged: seq<SourceRange>, r: SourceRange): seq<SourceRange> {
    var n := |merged|;
    if n > 0 && r.start <= merged[n-1].end
    then merged[..n-1] + [merged[n-1].(end := Max(merged[n-1].end, r.end))]
    else merged + [r]
  }

  function MergeSorted(rs: seq<SourceRange>): seq<SourceRange> {
    if rs == [] then [] else AddRange(MergeSorted(rs[..|rs|-1]), rs[|rs|-1])
  }

  function Merged(rs: seq<SourceRange>): seq<SourceRange> {
    MergeSorted(SortBy(rs, StartsNoLater))
  }

  method MergeRanges(ranges: seq<SourceRange>) returns (merged: seq<SourceRange>)
    ensures merged == Merged(ranges)
  {
    hide SortBy, MergeSorted;
    var sorted := SortBy(ranges, StartsNoLater);
    MergeSortedStep(sorted, 0);
    merged := [];
    for i := 0 to |sorted|
      invariant merged == MergeSorted(sorted[..i])
    {
      var range := sorted[i];
      MergeSortedStep(sorted, i);
      if |merged| > 0 && range.start <= merged[|merged|-1].end {
        var last := merged[|merged|-1];
        merged := merged[|merged|-1 := last.(end := Max(last.end, range.end))];
        continue;
      }
      merged := merged + [range];
    }
    assert sorted[..|sorted|] == sorted;
  }

  lemma MergeSortedStep(rs: seq<SourceRange>, i: nat)
    requires i <= |rs|
    ensures MergeSorted(rs[..0]) == []
    ensures i < |rs| ==> MergeSorted(rs[..i+1]) == AddRange(MergeSorted(rs[..i]), rs[i])
  {
    if i < |rs| { assert rs[..i+1][..i] == rs[..i]; }
  }

  predicate Contains(m: SourceRange, r: SourceRange) { m.start <= r.start && r.end <= m.end }

  /** Some range of `ms` contains the whole of `r`. */
  ghost predicate Hosts(ms: seq<SourceRange>, r: SourceRange) { exists m :: m in ms && Contains(m, r) }

  /** What `merged` is to the ranges `rs` it was built from. */
  ghost predicate MergeOf(merged: seq<SourceRange>, rs: seq<SourceRange>) {
    && Separated(merged)
    && (forall r :: r in rs ==> Hosts(merged, r))
    && (forall t :: Covers(merged, t) ==> Covers(rs, t))
  }

  ghost predicate StartBy(rs: seq<SourceRange>, t: real) { forall r :: r in rs ==> r.start <= t }

  lemma MergeStep(rs: seq<SourceRange>, merged: seq<SourceRange>, r: SourceRange)
    requires MergeOf(merged, rs) && StartBy(merged, r.start)
    ensures MergeOf(AddRange(merged, r), rs + [r]) && StartBy(AddRange(merged, r), r.start)
  {
    var n := |merged|;
    var next := AddRange(merged, r);
    var last := next[|next|-1];
    assert last in next && Contains(last, r);
    forall q | q in rs + [r] ensures Hosts(next, q) {
      if q in rs { StillHosted(merged, r, q); }
    }
    forall t | Covers(next, t) ensures Covers(rs + [r], t) {
      CoverStep(merged, r, t);
      if Covers(merged, t) { var q :| q in rs && q.start <= t <= q.end; assert q in rs + [r]; }
      else { assert r in rs + [r]; }
    }
  }

  lemma StillHosted(merged: seq<SourceRange>, r: SourceRange, q: SourceRange)
    requires Hosts(merged, q)
    ensures Hosts(AddRange(merged, r), q)
  {
    var m :| m in merged && Contains(m, q);
    var i :| 0 <= i < |merged| && merged[i] == m;
    assert AddRange(merged, r)[i] in AddRange(merged, r);
  }

  lemma CoverStep(merged: seq<SourceRange>, r: SourceRange, t: real)
    requires StartBy(merged, r.start)
    requires Covers(AddRange(merged, r), t)
    ensures Covers(merged, t) || r.start <= t <= r.end
  {
    var n := |merged|;
    var m :| m in AddRange(merged, r) && m.start <= t <= m.end;
    if m !in merged && n > 0 { assert merged[n-1] in merged; }
  }

  lemma {:induction false} MergeSortedIsMerge(rs: seq<SourceRange>)
    requires SortedBy(rs, StartsNoLater)
    ensures MergeOf(MergeSorted(rs), rs)
    ensures rs != [] ==> StartBy(MergeSorted(rs), rs[|rs|-1].start)
  {
    if rs == [] {
    } else {
      var front, r := rs[..|rs|-1], rs[|rs|-1];
      MergeSortedIsMerge(front);
      if front != [] { assert StartsNoLater(rs[|front|-1], r); }
      MergeStep(front, MergeSorted(front), r);
      assert rs == front + [r];
    }
  }

  lemma StartOrder()
    ensures TotalOrder(StartsNoLater)
  {}

  /** `merge_ranges` on any list of ranges: same union, sorted with real gaps in between, and every
      input range ends up inside one output range. */
  lemma MergedIsMerge(rs: seq<SourceRange>)
    ensures Separated(Merged(rs)) && SameCover(rs, Merged(rs))
    ensures forall r :: r in rs ==> Hosts(Merged(rs), r)
  {
    var sorted := SortBy(rs, StartsNoLater);
    StartOrder();
    SortBySorted(rs, StartsNoLater);
    SameElements(rs, sorted);
    MergeSortedIsMerge(sorted);
    forall t | Covers(rs, t) ensures Covers(Merged(rs), t) {
      var r :| r in rs && r.start <= t <= r.end;
      assert Hosts(Merged(rs), r);
    }
    forall t | Covers(Merged(rs), t) ensures Covers(rs, t) {
      assert Covers(sorted, t);
    }
  }

  ghost predicate LongWithin(rs: seq<SourceRange>, lo: real, hi: real, len: real) {
    Within(rs, lo, hi) && forall r :: r in rs ==> r.end - r.start >= len
  }

  lemma {:induction false} MergeSortedBounds(rs: seq<SourceRange>, lo: real, hi: real, len: real)
    requires LongWithin(rs, lo, hi, len)
    ensures LongWithin(MergeSorted(rs), lo, hi, len)
  {
    if rs == [] {
    } else {
      MergeSortedBounds(rs[..|rs|-1], lo, hi, len);
    }
  }

  /** Merging keeps ranges inside any window and above any length that held of the input. */
  lemma MergedBounds(rs: seq<SourceRange>, lo: real, hi: real, len: real)
    requires LongWithin(rs, lo, hi, len)
    ensures LongWithin(Merged(rs), lo, hi, len)
  {
    SameElements(rs, SortBy(rs, StartsNoLater));
    MergeSortedBounds(SortBy(rs, StartsNoLater), lo, hi, len);
  }

  lemma {:induction false} MergeSortedProper(rs: seq<SourceRange>)
    requires Proper(rs)
    ensures Proper(MergeSorted(rs))
  {
    if rs == [] {
    } else {
      MergeSortedProper(rs[..|rs|-1]);
    }
  }

  lemma MergedProper(rs: seq<SourceRange>)
    requires Proper(rs)
    ensures Proper(Merged(rs))
  {
    SameElements(rs, SortBy(rs, StartsNoLater));
    MergeSortedProper(SortBy(rs, StartsNoLater));
  }

  /** Some range starts here. */
  ghost predicate StartsIn(rs: seq<SourceRange>, t: real) { exists r :: r in rs && r.start == t }

  ghost predicate EndsIn(rs: seq<SourceRange>, t: real) { exists r :: r in rs && r.end == t }

  /** Every range starts where one of the others does, and ends where one does. */
  ghost predicate EndpointsFrom(merged: seq<SourceRange>, rs: seq<SourceRange>) {
    forall m :: m in merged ==> StartsIn(rs, m.start) && EndsIn(rs, m.end)
  }

  lemma {:induction false} MergeSortedEndpoints(rs: seq<SourceRange>)
    ensures EndpointsFrom(MergeSorted(rs), rs)
  {
    if rs == [] {
    } else {
      var front, r := rs[..|rs|-1], rs[|rs|-1];
      MergeSortedEndpoints(front);
      assert rs == front + [r];
      EndpointStep(MergeSorted(front), front, r);
    }
  }

  lemma EndpointStep(merged: seq<SourceRange>, rs: seq<SourceRange>, r: SourceRange)
    requires EndpointsFrom(merged, rs)
    ensures EndpointsFrom(AddRange(merged, r), rs + [r])
  {
    assert r in rs + [r];
    forall m | m in AddRange(merged, r) ensures StartsIn(rs + [r], m.start) && EndsIn(rs + [r], m.end) {
      if m in merged {
        StillStarts(rs, r, m.start);
        StillEnds(rs, r, m.end);
      } else if merged != [] && m != r {
        var last := merged[|merged|-1];
        StillStarts(rs, r, last.start);
        StillEnds(rs, r, last.end);
      }
    }
  }

  lemma StillStarts(rs: seq<SourceRange>, r: SourceRange, t: real)
    requires StartsIn(rs, t)
    ensures StartsIn(rs + [r], t)
  {
    var q :| q in rs && q.start == t;
    assert q in rs + [r];
  }

  lemma StillEnds(rs: seq<SourceRange>, r: SourceRange, t: real)
    requires EndsIn(rs, t)
    ensures EndsIn(rs + [r], t)
  {
    var q :| q in rs && q.end == t;
    assert q in rs + [r];
  }

  /** Merging invents no end: every end of a merged range is an end of one of the ranges. */
  lemma MergedEndpoints(rs: seq<SourceRange>)
    ensures EndpointsFrom(Merged(rs), rs)
  {
    var sorted := SortBy(rs, StartsNoLater);
    SameElements(rs, sorted);
    MergeSortedEndpoints(sorted);
    forall m | m in Merged(rs) ensures StartsIn(rs, m.start) && EndsIn(rs, m.end) {
      assert StartsIn(sorted, m.start) && EndsIn(sorted, m.end);
    }
  }

  /** A list of separated, non-inverted ranges is determined by the set of instants it covers. */
  lemma {:induction false} CoverDetermines(a: seq<SourceRange>, b: seq<SourceRange>)
    requires Proper(a) && Proper(b) && Separated(a) && Separated(b)
    requires SameCover(a, b)
    ensures a == b
  {
    if a == [] {
    } else {
      assert a[0] in a && Covers(a, a[0].start);
    }
    if b == [] {
    } else {
      assert b[0] in b && Covers(b, b[0].start);
    }
    if a != [] && b != [] {
      FirstStartsFirst(a, b);
      FirstStartsFirst(b, a);
      FirstReachesAsFar(a, b);
      FirstReachesAsFar(b, a);
      assert a[0] == b[0];
      TailCover(a, b);
      TailCover(b, a);
      CoverDetermines(a[1..], b[1..]);
    }
  }

  lemma FirstStartsFirst(a: seq<SourceRange>, b: seq<SourceRange>)
    requires a != [] && b != []
    requires Proper(a) && Proper(b) && Separated(b) && SameCover(a, b)
    ensures b[0].start <= a[0].start
  {
    assert a[0] in a && Covers(a, a[0].start);
    var r :| r in b && r.start <= a[0].start <= r.end;
    assert b[0] in b;
  }

  lemma FirstReachesAsFar(a: seq<SourceRange>, b: seq<SourceRange>)
    requires a != [] && b != [] && a[0].start == b[0].start
    requires Proper(a) && Proper(b) && Separated(a) && Separated(b) && SameCover(a, b)
    ensures a[0].end <= b[0].end
  {
    if b[0].end < a[0].end {
      // an instant after b's first range and before b's second, still inside a's first
      var t := (b[0].end + (if |b| > 1 then Min(b[1].start, a[0].end) else a[0].end)) / 2.0;
      assert b[0] in b && a[0] in a && Covers(a, t);
      NotCoveredInGap(b, t);
    }
  }

  lemma NotCoveredInGap(b: seq<SourceRange>, t: real)
    requires b != [] && Proper(b) && Separated(b) && b[0].end < t && (|b| > 1 ==> t < b[1].start)
    ensures !Covers(b, t)
  {
    forall i | 0 <= i < |b| ensures !(b[i].start <= t <= b[i].end) {
      if i > 1 { assert b[1] in b; }
    }
  }

  lemma TailCover(a: seq<SourceRange>, b: seq<SourceRange>)
    requires a != [] && b != [] && a[0] == b[0]
    requires Separated(a) && Separated(b) && Proper(a) && SameCover(a, b)
    ensures forall t :: Covers(a[1..], t) ==> Covers(b[1..], t)
  {
    forall t | Covers(a[1..], t) ensures Covers(b[1..], t) {
      var r :| r in a[1..] && r.start <= t <= r.end;
      assert r in a && Covers(a, t);
      var q :| q in b && q.start <= t <= q.end;
      var i :| 0 <= i < |b| && b[i] == q;
      if i > 0 { assert b[1..][i-1] == q; }
    }
  }

  /** `merge_ranges` is a canonical form: two lists of non-inverted ranges give the same output
      exactly when they cover the same instants, whatever their order and overlaps. */
  lemma MergedCanonical(rs: seq<SourceRange>, ss: seq<SourceRange>)
    requires Proper(rs) && Proper(ss)
    ensures Merged(rs) == Merged(ss) <==> SameCover(rs, ss)
  {
    MergedIsMerge(rs); MergedIsMerge(ss);
    MergedProper(rs); MergedProper(ss);
    if SameCover(rs, ss) { CoverDetermines(Merged(rs), Merged(ss)); }
  }

  /** Merging what is already merged changes nothing. */
  lemma MergedFixpoint(rs: seq<SourceRange>)
    requires Proper(rs) && Separated(rs)
    ensures Merged(rs) == rs
  {
    MergedIsMerge(rs); MergedProper(rs);
    CoverDetermines(Merged(rs), rs);
  }

  // ---------------------------------------------------------------- kept_ranges_after_removing

  /** The clip a planner works on (crates/cli/src/plan_clip.rs). */
  datatype SelectedClip = SelectedClip(
    clipUuid: string, asset: string, trackName: string, trackPosition: nat,
    sourceStart: real, sourceEnd: real)

  /** `push_non_empty_range`: stretches shorter than 10 ms are dropped. */
  function NonEmpty(start: real, end: real): seq<SourceRange> {
    if end - start >= MIN_RANGE_S then [SourceRange(start, end)] else []
  }

  method PushNonEmptyRange(ranges: seq<SourceRange>, start: real, end: real) returns (pushed: seq<SourceRange>)
    ensures pushed == ranges + NonEmpty(start, end)
  {
    pushed := ranges;
    if end - start >= MIN_RANGE_S {
      pushed := pushed + [SourceRange(start, end)];
    }
  }

  /** The stretches of at least 10 ms of `[lo, hi]` left free by `blocked`. */
  function Uncovered(lo: real, hi: real, blocked: seq<SourceRange>): seq<SourceRange>
    decreases |blocked|
  {
    if blocked == [] then NonEmpty(lo, hi)
    else NonEmpty(lo, blocked[0].start) + Uncovered(Max(lo, blocked[0].end), hi, blocked[1..])
  }

  function KeptRanges(clip: SelectedClip, removed: seq<SourceRange>): seq<SourceRange> {
    var cuts := Merged(removed);
    if cuts == [] then [SourceRange(clip.sourceStart, clip.sourceEnd)]
    else Uncovered(clip.sourceStart, clip.sourceEnd, cuts)
  }

  method KeptRangesAfterRemoving(clip: SelectedClip, removed: seq<SourceRange>) returns (kept: seq<SourceRange>)
    ensures kept == KeptRanges(clip, removed)
  {
    hide Merged, Uncovered, NonEmpty;
    var cuts := MergeRanges(removed);
    if cuts == [] {
      return [SourceRange(clip.sourceStart, clip.sourceEnd)];
    }
    kept := [];
    var cursor := clip.sourceStart;
    for i := 0 to |cuts|
      invariant kept + Uncovered(cursor, clip.sourceEnd, cuts[i..])
             == Uncovered(clip.sourceStart, clip.sourceEnd, cuts)
    {
      UncoveredStep(cursor, clip.sourceEnd, cuts, i);
      kept := PushNonEmptyRange(kept, cursor, cuts[i].start);
      cursor := Max(cursor, cuts[i].end);
    }
    UncoveredStep(cursor, clip.sourceEnd, cuts, |cuts|);
    kept := PushNonEmptyRange(kept, cursor, clip.sourceEnd);
  }

  lemma UncoveredStep(cursor: real, hi: real, blocked: seq<SourceRange>, i: nat)
    requires i <= |blocked|
    ensures i < |blocked| ==>
      Uncovered(cursor, hi, blocked[i..])
      == NonEmpty(cursor, blocked[i].start) + Uncovered(Max(cursor, blocked[i].end), hi, blocked[i+1..])
    ensures i == |blocked| ==> Uncovered(cursor, hi, blocked[i..]) == NonEmpty(cursor, hi)
  {
    if i < |blocked| { assert blocked[i..][1..] == blocked[i+1..]; }
  }

  lemma {:induction false} UncoveredBounds(lo: real, hi: real, blocked: seq<SourceRange>)
    requires forall b :: b in blocked ==> b.start <= hi
    ensures LongWithin(Uncovered(lo, hi, blocked), lo, hi, MIN_RANGE_S)
    decreases |blocked|
  {
    if blocked == [] {
    } else {
      assert blocked[0] in blocked;
      UncoveredBounds(Max(lo, blocked[0].end), hi, blocked[1..]);
    }
  }

  lemma {:induction false} UncoveredAvoids(lo: real, hi: real, blocked: seq<SourceRange>)
    requires Proper(blocked) && Separated(blocked) && forall b :: b in blocked ==> b.start <= hi
    ensures forall r, b :: r in Uncovered(lo, hi, blocked) && b in blocked ==> Avoids(b, r.start, r.end)
    decreases |blocked|
  {
    if blocked == [] {
    } else {
      var b0, rest := blocked[0], blocked[1..];
      assert b0 in blocked;
      UncoveredAvoids(Max(lo, b0.end), hi, rest);
      UncoveredBounds(Max(lo, b0.end), hi, rest);
      forall b | b in rest ensures b0.end < b.start { var i :| 0 <= i < |rest| && rest[i] == b; }
      forall r, b | r in Uncovered(lo, hi, blocked) && b in blocked ensures Avoids(b, r.start, r.end) {
        if r in NonEmpty(lo, b0.start) { assert b == b0 || b in rest; }
        else { assert r in Uncovered(Max(lo, b0.end), hi, rest) && (b == b0 || b in rest); }
      }
    }
  }

  lemma {:induction false} UncoveredOrdered(lo: real, hi: real, blocked: seq<SourceRange>)
    requires Proper(blocked) && forall b :: b in blocked ==> b.start <= hi
    ensures Ordered(Uncovered(lo, hi, blocked))
    decreases |blocked|
  {
    if blocked == [] {
    } else {
      var b0, rest := blocked[0], blocked[1..];
      assert b0 in blocked;
      UncoveredOrdered(Max(lo, b0.end), hi, rest);
      UncoveredBounds(Max(lo, b0.end), hi, rest);
    }
  }

  /** What is left lies in the window, is at least 10 ms long, in order, and clear of every blocked range. */
  lemma UncoveredIsClear(lo: real, hi: real, blocked: seq<SourceRange>)
    requires Proper(blocked) && Separated(blocked) && forall b :: b in blocked ==> b.start <= hi
    ensures LongWithin(Uncovered(lo, hi, blocked), lo, hi, MIN_RANGE_S)
    ensures forall r, b :: r in Uncovered(lo, hi, blocked) && b in blocked ==> Avoids(b, r.start, r.end)
    ensures Ordered(Uncovered(lo, hi, blocked))
  {
    UncoveredBounds(lo, hi, blocked);
    UncoveredAvoids(lo, hi, blocked);
    UncoveredOrdered(lo, hi, blocked);
  }

  /** A stretch of at least 10 ms that no blocked range enters survives inside one kept range. */
  lemma {:induction false} FreeStretchSurvives(lo: real, hi: real, blocked: seq<SourceRange>, a: real, b: real)
    requires lo <= a && b <= hi && b - a >= MIN_RANGE_S
    requires forall r :: r in blocked ==> Avoids(r, a, b)
    ensures Hosts(Uncovered(lo, hi, blocked), SourceRange(a, b))
    decreases |blocked|
  {
    if blocked == [] {
      assert SourceRange(lo, hi) in Uncovered(lo, hi, blocked);
    } else {
      var b0, rest := blocked[0], blocked[1..];
      assert b0 in blocked;
      if b <= b0.start {
        assert NonEmpty(lo, b0.start)[0] in Uncovered(lo, hi, blocked);
      } else {
        FreeStretchSurvives(Max(lo, b0.end), hi, rest, a, b);
        var m :| m in Uncovered(Max(lo, b0.end), hi, rest) && Contains(m, SourceRange(a, b));
        assert m in Uncovered(lo, hi, blocked);
      }
    }
  }

  /** Every edge of what is left is an edge of the window or of a blocked range. */
  lemma {:induction false} UncoveredEdges(lo: real, hi: real, blocked: seq<SourceRange>)
    ensures forall r :: r in Uncovered(lo, hi, blocked) ==>
      && (r.start == lo || exists b :: b in blocked && r.start == b.end)
      && (r.end == hi || exists b :: b in blocked && r.end == b.start)
    decreases |blocked|
  {
    if blocked == [] {
    } else {
      var b0, rest := blocked[0], blocked[1..];
      assert b0 in blocked;
      UncoveredEdges(Max(lo, b0.end), hi, rest);
      forall r | r in Uncovered(lo, hi, blocked)
        ensures r.start == lo || exists b :: b in blocked && r.start == b.end
        ensures r.end == hi || exists b :: b in blocked && r.end == b.start
      {
        if r !in NonEmpty(lo, b0.start) {
          assert r in Uncovered(Max(lo, b0.end), hi, rest);
          assert forall b :: b in rest ==> b in blocked;
        }
      }
    }
  }

  /** No time is invented and only slivers are lost: less than 10 ms per blocked range, and one more. */
  lemma {:induction false} UncoveredConserves(lo: real, hi: real, blocked: seq<SourceRange>)
    requires lo <= hi && Proper(blocked) && Separated(blocked) && Within(blocked, lo, hi)
    ensures Total(Uncovered(lo, hi, blocked)) + Total(blocked) <= hi - lo
    ensures hi - lo - MIN_RANGE_S * (|blocked| + 1) as real
          < Total(Uncovered(lo, hi, blocked)) + Total(blocked)
    decreases |blocked|
  {
    if blocked == [] {
    } else {
      var b0, rest := blocked[0], blocked[1..];
      assert b0 in blocked;
      forall b | b in rest ensures b0.end <= b.start && b.end <= hi { assert b in blocked; }
      UncoveredConserves(b0.end, hi, rest);
      TotalConcat(NonEmpty(lo, b0.start), Uncovered(b0.end, hi, rest));
      assert (|blocked| + 1) as real == (|rest| + 1) as real + 1.0;
    }
  }

  lemma {:induction false} TotalConcat(rs: seq<SourceRange>, ss: seq<SourceRange>)
    ensures Total(rs + ss) == Total(rs) + Total(ss)
  {
    if rs == [] { assert rs + ss == ss; }
    else { TotalConcat(rs[1..], ss); assert (rs + ss)[1..] == rs[1..] + ss; }
  }

  // ---------------------------------------------------------------- what callers are promised

  /** Removed spans as every caller produces them: at least 10 ms long and inside the clip. */
  ghost predicate CutsOf(clip: SelectedClip, removed: seq<SourceRange>) {
    LongWithin(removed, clip.sourceStart, clip.sourceEnd, MIN_RANGE_S)
  }

  lemma MergedCuts(clip: SelectedClip, removed: seq<SourceRange>)
    requires CutsOf(clip, removed)
    ensures CutsOf(clip, Merged(removed)) && Separated(Merged(removed)) && Proper(Merged(removed))
    ensures SameCover(removed, Merged(removed))
    ensures forall r :: r in removed ==> Hosts(Merged(removed), r)
    ensures removed == [] <==> Merged(removed) == []
  {
    MergedBounds(removed, clip.sourceStart, clip.sourceEnd, MIN_RANGE_S);
    MergedIsMerge(removed);
    if removed != [] { assert removed[0] in removed && Hosts(Merged(removed), removed[0]); }
    if removed == [] { assert Merged(removed) == []; }
  }

  /** Kept ranges lie in the clip, in order, clear of every removed span; they are at least 10 ms
      long unless nothing was cut; and the clip's time is kept, cut, or lost in a sliver. */
  lemma KeptRangesConserveTime(clip: SelectedClip, removed: seq<SourceRange>)
    requires clip.sourceStart < clip.sourceEnd && CutsOf(clip, removed)
    ensures var kept, cuts := KeptRanges(clip, removed), Merged(removed);
      && Ordered(kept) && Within(kept, clip.sourceStart, clip.sourceEnd)
      && (removed != [] ==> forall r :: r in kept ==> r.end - r.start >= MIN_RANGE_S)
      && (forall r, c :: r in kept && c in removed ==> Avoids(c, r.start, r.end))
      && clip.sourceEnd - clip.sourceStart - MIN_RANGE_S * (|cuts| + 1) as real < Total(kept) + Total(cuts)
      && Total(kept) + Total(cuts) <= clip.sourceEnd - clip.sourceStart
  {
    var kept, cuts := KeptRanges(clip, removed), Merged(removed);
    MergedCuts(clip, removed);
    if removed != [] {
      UncoveredIsClear(clip.sourceStart, clip.sourceEnd, cuts);
      UncoveredConserves(clip.sourceStart, clip.sourceEnd, cuts);
      forall r, c | r in kept && c in removed ensures Avoids(c, r.start, r.end) {
        assert Hosts(cuts, c);
        var m :| m in cuts && Contains(m, c);
        assert Avoids(m, r.start, r.end);
      }
    }
  }

  /** Any stretch of the clip of at least 10 ms that no removed span enters is kept in one piece. */
  lemma UncutStretchIsKept(clip: SelectedClip, removed: seq<SourceRange>, a: real, b: real)
    requires CutsOf(clip, removed)
    requires clip.sourceStart <= a && b <= clip.sourceEnd && b - a >= MIN_RANGE_S
    requires forall r :: r in removed ==> Avoids(r, a, b)
    ensures Hosts(KeptRanges(clip, removed), SourceRange(a, b))
  {
    MergedCuts(clip, removed);
    forall m | m in Merged(removed) ensures Avoids(m, a, b) { MergeAvoids(removed, m, a, b); }
    if Merged(removed) == [] {
      assert SourceRange(clip.sourceStart, clip.sourceEnd) in KeptRanges(clip, removed);
    } else {
      FreeStretchSurvives(clip.sourceStart, clip.sourceEnd, Merged(removed), a, b);
    }
  }

  /** After a removal an instant is kept exactly when 10 ms of the clip that no removed span enters hold it, and
      the kept ranges have gaps between them: they are determined by the spans. */
  lemma KeptExactly(clip: SelectedClip, removed: seq<SourceRange>, x: real)
    requires clip.sourceStart < clip.sourceEnd && CutsOf(clip, removed)
    ensures removed == [] ==> KeptRanges(clip, removed) == [SourceRange(clip.sourceStart, clip.sourceEnd)]
    ensures removed != [] ==>
      (Covers(KeptRanges(clip, removed), x) <==> exists t :: FreeFrom(clip, removed, t) && t <= x <= t + 0.010)
    ensures Separated(KeptRanges(clip, removed))
  {
    if removed == [] {
      assert Merged([]) == [];
    } else {
      KeptAreSeparated(clip, removed);
      KeptAreFree(clip, removed, x);
      hide Merged, Uncovered, KeptRanges, FreeFrom;
      forall t | FreeFrom(clip, removed, t) && t <= x <= t + 0.010 ensures Covers(KeptRanges(clip, removed), x) {
        FreeIsKept(clip, removed, t);
        var m :| m in KeptRanges(clip, removed) && Contains(m, SourceRange(t, t + 0.010));
      }
    }
  }

  /** The 10 ms from `t` on lie in the clip and no removed span enters them. */
  predicate FreeFrom(clip: SelectedClip, removed: seq<SourceRange>, t: real) {
    && clip.sourceStart <= t && t + 0.010 <= clip.sourceEnd
    && forall r | r in removed :: r.end <= t || t + 0.010 <= r.start
  }

  lemma FreeIsKept(clip: SelectedClip, removed: seq<SourceRange>, t: real)
    requires CutsOf(clip, removed) && FreeFrom(clip, removed, t)
    ensures Hosts(KeptRanges(clip, removed), SourceRange(t, t + 0.010))
  {
    UncutStretchIsKept(clip, removed, t, t + 0.010);
  }

  lemma KeptAreFree(clip: SelectedClip, removed: seq<SourceRange>, x: real)
    requires clip.sourceStart < clip.sourceEnd && CutsOf(clip, removed) && removed != []
    ensures Covers(KeptRanges(clip, removed), x) ==> exists t :: FreeFrom(clip, removed, t) && t <= x <= t + 0.010
  {
    KeptRangesConserveTime(clip, removed);
    hide KeptRanges, Merged;
    if Covers(KeptRanges(clip, removed), x) {
      var m :| m in KeptRanges(clip, removed) && m.start <= x <= m.end;
      var t := if x + 0.010 <= m.end then x else m.end - 0.010;
      assert FreeFrom(clip, removed, t);
    }
  }

  lemma KeptAreSeparated(clip: SelectedClip, removed: seq<SourceRange>)
    requires clip.sourceStart < clip.sourceEnd && CutsOf(clip, removed) && removed != []
    ensures Separated(KeptRanges(clip, removed))
  {
    var cuts, kept := Merged(removed), KeptRanges(clip, removed);
    MergedCuts(clip, removed);
    UncoveredIsClear(clip.sourceStart, clip.sourceEnd, cuts);
    UncoveredEdges(clip.sourceStart, clip.sourceEnd, cuts);
    hide Merged, Uncovered;
    forall i, j | 0 <= i < j < |kept| ensures kept[i].end < kept[j].start {
      assert kept[i] in kept && kept[j] in kept;
      var b :| b in cuts && kept[i].end == b.start;
      assert Avoids(b, kept[j].start, kept[j].end);
    }
  }

  /** A stretch no range enters is not entered after merging either. */
  lemma MergeAvoids(rs: seq<SourceRange>, m: SourceRange, a: real, b: real)
    requires m in Merged(rs) && m.start < m.end && a < b
    requires forall r :: r in rs ==> Avoids(r, a, b)
    ensures Avoids(m, a, b)
  {
    MergedIsMerge(rs);
    var t := (Max(m.start, a) + Min(m.end, b)) / 2.0;
    assert m.start <= t <= m.end ==> Covers(Merged(rs), t);
    assert a < t < b ==> !Covers(rs, t);
  }
}
