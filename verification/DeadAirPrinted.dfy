/** The planner's promises once its times are printed to the millisecond
    (crates/cli/src/plan_ranges.rs, crates/cli/src/plan_dead_air_edl_cmd.rs). */
module DeadAirPrinted {
  import opened Numbers
  import opened Sequences
  import opened PlanRanges
  import opened DeadAir
  import opened DeadAirEdges
  import opened EdlPlan
  import opened EdlReplay

  function RoundedAll(kept: seq<SourceRange>): seq<SourceRange> {
    seq(|kept|, i requires 0 <= i < |kept| => PrintedRange(kept[i]))
  }

  /** What the timeline shows of the clip once the list is applied: the printed ranges, or the whole clip
      when the planner leaves it alone. */
  function Printed(clip: SelectedClip, kept: seq<SourceRange>): seq<SourceRange> {
    if Changes(clip, kept) then RoundedAll(kept) else [SourceRange(clip.sourceStart, clip.sourceEnd)]
  }

  function RangesOf(items: seq<TrackItem>): seq<SourceRange> {
    if items == [] then []
    else
      var last := items[|items|-1];
      RangesOf(items[..|items|-1]) + if last.ClipItem? && last.clip.range.Some? then [last.clip.range.value] else []
  }

  lemma {:induction false} InsertedRanges(c: SelectedClip, kept: seq<SourceRange>, prefix: string, n: nat,
                                          stamp: string -> string,
                                          head: TrackItem)
    requires 0 < n <= |kept| && head.ClipItem? && head.clip.range == Some(PrintedRange(kept[0]))
    ensures RangesOf([head] + InsertedItems(c, kept, prefix, n, stamp)) == RoundedAll(kept[..n])
  {
    var items := [head] + InsertedItems(c, kept, prefix, n, stamp);
    if n == 1 {
      assert items == [head] && items[..0] == [];
      assert RangesOf([]) == [];
    } else {
      InsertedRanges(c, kept, prefix, n-1, stamp, head);
      assert items[..|items|-1] == [head] + InsertedItems(c, kept, prefix, n-1, stamp);
      assert kept[..n] == kept[..n-1] + [kept[n-1]];
    }
  }

  /** In the timeline a plan aims at, each selected clip shows exactly its printed ranges. */
  lemma GoalShowsPrinted(p: Plan, ti: nat, pos: nat)
    requires p.At(ti, pos) && p.Pick(ti, pos).Some?
    ensures RangesOf(p.Replacement(ti, pos)) == Printed(p.Pick(ti, pos).value, p.kept(p.Pick(ti, pos).value))
  {
    var c := p.Pick(ti, pos).value;
    var kept := p.kept(c);
    if p.Changed(ti, pos) {
      InsertedRanges(c, kept, p.prefix, |kept|, p.stamp, p.TrimmedItem(ti, pos));
      assert kept[..|kept|] == kept;
    } else {
      var item := p.Item(ti, pos);
      assert [item][..0] == [] && RangesOf([]) == [];
      assert RangesOf([item]) == [] + [item.clip.range.value];
    }
  }

  // ---------------------------------------------------------------- times on whole milliseconds

  predicate OnGrid(t: real) { Millis(t) == t }

  lemma GridSums(a: real, b: real)
    requires OnGrid(a) && OnGrid(b)
    ensures OnGrid(a + b) && OnGrid(a - b)
  {
    var m, n := RoundHalfEven(a * 1000.0), RoundHalfEven(b * 1000.0);
    assert a * 1000.0 == m as real && b * 1000.0 == n as real;
    hide Millis, RoundHalfEven;
    MillisExact(a + b, m + n);
    MillisExact(a - b, m - n);
  }

  lemma MillisMonotone(a: real, b: real)
    requires a <= b
    ensures Millis(a) <= Millis(b)
  {
    RoundingIsMonotone(a * 1000.0, b * 1000.0);
  }

  /** An instant outside a word on the grid stays outside when it is rounded. */
  lemma RoundingStaysOutside(t: real, w: WhisperWord)
    requires OnGrid(w.start) && OnGrid(w.end) && !StrictlyInside(t, w)
    ensures !StrictlyInside(Millis(t), w)
  {
    if t <= w.start { MillisMonotone(t, w.start); }
    if w.end <= t { MillisMonotone(w.end, t); }
  }

  // ---------------------------------------------------------------- printed edges

  /** An edge inside a clip is printed: the planner changes such a clip. */
  lemma EdgesArePrinted(clip: SelectedClip, silences: seq<SilenceRange>, pad: real, words: seq<WhisperWord>,
                        maxGap: real, t: real)
    requires clip.sourceStart < clip.sourceEnd && pad >= 0.0
    requires IsEdge(Kept(clip, silences, pad, words, maxGap), clip, t)
    ensures var shown := Printed(clip, Kept(clip, silences, pad, words, maxGap));
      exists r :: r in shown && (r.start == Millis(t) || r.end == Millis(t))
  {
    hide Kept, RawCuts, Millis, Changes;
    var kept := Kept(clip, silences, pad, words, maxGap);
    var m :| m in kept && (t == m.start || t == m.end);
    var r := EdgeHasCut(clip, silences, pad, words, maxGap, m, t);
    CutClipChanges(clip, kept, m, r);
    PrintedHas(clip, kept, m);
  }

  /** A clip of which something is kept and something else is not is changed. */
  lemma CutClipChanges(clip: SelectedClip, kept: seq<SourceRange>, m: SourceRange, cut: SourceRange)
    requires m in kept && Avoids(cut, m.start, m.end) && cut.end - cut.start >= MIN_RANGE_S
    requires clip.sourceStart <= cut.start && cut.end <= clip.sourceEnd
    ensures Changes(clip, kept)
  {}

  lemma PrintedHas(clip: SelectedClip, kept: seq<SourceRange>, m: SourceRange)
    requires Changes(clip, kept) && m in kept
    ensures PrintedRange(m) in Printed(clip, kept)
  {
    hide Changes, PrintedRange;
    var i :| 0 <= i < |kept| && kept[i] == m;
    assert Printed(clip, kept)[i] == PrintedRange(m);
  }

  /** And nothing else is: every end of a shown range is a clip end, as it was or rounded, or such an edge. */
  lemma ShownEdgesAre(clip: SelectedClip, kept: seq<SourceRange>, r: SourceRange, at: real)
    requires r in Printed(clip, kept) && (at == r.start || at == r.end)
    ensures at in {clip.sourceStart, clip.sourceEnd, Millis(clip.sourceStart), Millis(clip.sourceEnd)}
      || exists t :: IsEdge(kept, clip, t) && at == Millis(t)
  {
    hide Changes, Millis;
    if Changes(clip, kept) {
      var i :| 0 <= i < |kept| && Printed(clip, kept)[i] == r;
      var t := if at == r.start then kept[i].start else kept[i].end;
      assert kept[i] in kept && at == Millis(t);
      assert t == clip.sourceStart || t == clip.sourceEnd || IsEdge(kept, clip, t);
    }
  }

  /** Every printed edge the planner can make in this clip, for whatever silences, is judged clean. */
  ghost predicate AlwaysPrintedClean(clip: SelectedClip, pad: real, words: seq<WhisperWord>, maxGap: real) {
    forall silences, t :: IsEdge(Kept(clip, silences, pad, words, maxGap), clip, t) ==>
      MidSentence(Millis(t), Some(words)) == Clean
  }

  /** No edge spot is rounded into a word. */
  ghost predicate NoSpotRoundsIntoWord(clip: SelectedClip, pad: real, words: seq<WhisperWord>, maxGap: real) {
    forall w, t :: w in words && EdgeSpot(clip, pad, words, maxGap, t) ==> !StrictlyInside(Millis(t), w)
  }

  /** All printed edges are clean for all silences exactly when no instant an edge can fall on is rounded
      into a word. */
  lemma AlwaysPrintedCleanExactly(clip: SelectedClip, pad: real, words: seq<WhisperWord>, maxGap: real)
    requires clip.sourceStart < clip.sourceEnd && pad >= 0.0
    ensures AlwaysPrintedClean(clip, pad, words, maxGap) <==> NoSpotRoundsIntoWord(clip, pad, words, maxGap)
  {
    hide EdgeSpot, Kept, IsEdge, Millis;
    if NoSpotRoundsIntoWord(clip, pad, words, maxGap) {
      forall silences, t | IsEdge(Kept(clip, silences, pad, words, maxGap), clip, t)
        ensures MidSentence(Millis(t), Some(words)) == Clean
      {
        EdgeSpotsExactly(clip, pad, words, maxGap, t);
      }
    } else {
      var w, t :| w in words && EdgeSpot(clip, pad, words, maxGap, t) && StrictlyInside(Millis(t), w);
      EdgeSpotsExactly(clip, pad, words, maxGap, t);
      var silences :| IsEdge(Kept(clip, silences, pad, words, maxGap), clip, t);
    }
  }

  /** When all words begin and end on whole milliseconds, printing keeps clean edges clean. */
  lemma GridWordsPrintClean(clip: SelectedClip, pad: real, words: seq<WhisperWord>, maxGap: real)
    requires forall w :: w in words ==> OnGrid(w.start) && OnGrid(w.end)
    ensures AlwaysClean(clip, pad, words, maxGap) ==> AlwaysPrintedClean(clip, pad, words, maxGap)
  {
    hide Kept, IsEdge, OnGrid, Millis;
    if AlwaysClean(clip, pad, words, maxGap) {
      forall silences, t | IsEdge(Kept(clip, silences, pad, words, maxGap), clip, t)
        ensures MidSentence(Millis(t), Some(words)) == Clean
      {
        assert MidSentence(t, Some(words)) == Clean;
        forall w | w in words ensures !StrictlyInside(Millis(t), w) { RoundingStaysOutside(t, w); }
      }
    }
  }

  /** Off the grid it need not: a word from 1.0006 to 2 s after a silence. The edge at its start is clean;
      printed it is 1.001, inside the word, and what is shown of the word begins 0.4 ms late. */
  lemma PrintingCutsIntoWords(w: WhisperWord)
    requires Usable(w) && w.start == 1.0006 && w.end == 2.0
    ensures var kept := Kept(TEN_SECONDS, [SilenceRange(0.2, 1.0006)], 0.0, [w], 1.0);
      && IsEdge(kept, TEN_SECONDS, 1.0006) && MidSentence(1.0006, Some([w])) == Clean
      && MidSentence(Millis(1.0006), Some([w])) == Dirty
      && KeepsWords(kept, TEN_SECONDS, [w]) && !KeepsWords(Printed(TEN_SECONDS, kept), TEN_SECONDS, [w])
  {
    hide Kept, Usable;
    assert w in [w];
    assert Millis(1.0006) == 1.001 && Millis(0.2) == 0.2 && Millis(0.0) == 0.0 && Millis(10.0) == 10.0;
    assert FreeOfWords([w], 0.2, 1.0006);
    OneSilenceCuts(TEN_SECONDS, SilenceRange(0.2, 1.0006), [w], 1.0);
    var kept := [SourceRange(0.0, 0.2), SourceRange(1.0006, 10.0)];
    assert kept[1] in kept && kept[1].start == 1.0006;
    assert Contains(kept[1], PartInClip(TEN_SECONDS, w));
    assert Printed(TEN_SECONDS, kept) == [SourceRange(0.0, 0.2), SourceRange(1.001, 10.0)];
  }

  // ---------------------------------------------------------------- printed words

  predicate NearlyContains(r: SourceRange, part: SourceRange) {
    r.start <= part.start + 0.0005 && part.end - 0.0005 <= r.end
  }

  /** Printing takes at most half a millisecond off each end of a kept word. */
  lemma PrintedKeepsWordsNearly(clip: SelectedClip, silences: seq<SilenceRange>, pad: real, words: seq<WhisperWord>,
                                maxGap: real,
                                w: WhisperWord)
    requires clip.sourceStart < clip.sourceEnd && pad >= 0.0
    requires NoWordReachesIntoGapCut(WordsInClip(clip, words), pad, maxGap)
    requires w in words && Usable(w) && PartInClip(clip, w).end - PartInClip(clip, w).start >= MIN_RANGE_S
    ensures var shown := Printed(clip, Kept(clip, silences, pad, words, maxGap));
      exists r :: r in shown && NearlyContains(r, PartInClip(clip, w))
  {
    hide Kept, Usable, NoWordReachesIntoGapCut, Printed, NearlyContains;
    PlannerKeepsWords(clip, silences, pad, words, maxGap);
    NearlyHosted(clip, Kept(clip, silences, pad, words, maxGap), PartInClip(clip, w));
  }

  lemma NearlyHosted(clip: SelectedClip, kept: seq<SourceRange>, part: SourceRange)
    requires Hosts(kept, part) && clip.sourceStart <= part.start && part.end <= clip.sourceEnd
    ensures exists r :: r in Printed(clip, kept) && NearlyContains(r, part)
  {
    hide Changes, Millis;
    var m :| m in kept && Contains(m, part);
    if Changes(clip, kept) {
      MillisClose(m.start); MillisClose(m.end);
      PrintedHas(clip, kept, m);
      assert NearlyContains(PrintedRange(m), part);
    } else {
      var whole := SourceRange(clip.sourceStart, clip.sourceEnd);
      assert Printed(clip, kept)[0] == whole && NearlyContains(whole, part);
    }
  }

  /** Clip, padding and usable words on whole milliseconds. */
  predicate AllOnGrid(clip: SelectedClip, pad: real, words: seq<WhisperWord>) {
    && OnGrid(clip.sourceStart) && OnGrid(clip.sourceEnd) && OnGrid(pad)
    && forall w :: w in words && Usable(w) ==> OnGrid(w.start) && OnGrid(w.end)
  }

  /** Then what is shown keeps every word whole exactly when no word reaches into a pause the gap rule cuts,
      for any silences, on or off the grid. */
  lemma PrintedKeepsWords(clip: SelectedClip, silences: seq<SilenceRange>, pad: real, words: seq<WhisperWord>,
                          maxGap: real)
    requires clip.sourceStart < clip.sourceEnd && pad >= 0.0 && AllOnGrid(clip, pad, words)
    ensures KeepsWords(Printed(clip, Kept(clip, silences, pad, words, maxGap)), clip, words)
       <==> NoWordReachesIntoGapCut(WordsInClip(clip, words), pad, maxGap)
  {
    if NoWordReachesIntoGapCut(WordsInClip(clip, words), pad, maxGap) {
      PlannerKeepsWords(clip, silences, pad, words, maxGap);
      GridWordsStayWhole(clip, pad, words, Kept(clip, silences, pad, words, maxGap));
    } else {
      GridWordIsLost(clip, silences, pad, words, maxGap);
    }
  }

  lemma GridWordsStayWhole(clip: SelectedClip, pad: real, words: seq<WhisperWord>, kept: seq<SourceRange>)
    requires AllOnGrid(clip, pad, words) && KeepsWords(kept, clip, words)
    ensures KeepsWords(Printed(clip, kept), clip, words)
  {
    hide Usable, Changes, OnGrid, Millis;
    forall w | w in words && Usable(w) && PartInClip(clip, w).end - PartInClip(clip, w).start >= MIN_RANGE_S
      ensures Hosts(Printed(clip, kept), PartInClip(clip, w))
    {
      var part := PartInClip(clip, w);
      assert OnGrid(part.start) && OnGrid(part.end);
      var m :| m in kept && Contains(m, part);
      if Changes(clip, kept) {
        RoundedHosts(m, part);
        PrintedHas(clip, kept, m);
      } else {
        assert Contains(Printed(clip, kept)[0], part);
      }
    }
  }

  lemma RoundedHosts(m: SourceRange, part: SourceRange)
    requires Contains(m, part) && OnGrid(part.start) && OnGrid(part.end)
    ensures Contains(PrintedRange(m), part)
  {
    MillisMonotone(m.start, part.start);
    MillisMonotone(part.end, m.end);
  }

  lemma GridWordIsLost(clip: SelectedClip, silences: seq<SilenceRange>, pad: real, words: seq<WhisperWord>,
                       maxGap: real)
    requires clip.sourceStart < clip.sourceEnd && pad >= 0.0 && AllOnGrid(clip, pad, words)
    requires !NoWordReachesIntoGapCut(WordsInClip(clip, words), pad, maxGap)
    ensures !KeepsWords(Printed(clip, Kept(clip, silences, pad, words, maxGap)), clip, words)
  {
    hide Kept, WordsInClip, GapCuts, NoWordReachesIntoGapCut, OnGrid, KeepsWords, Changes, Printed, RawCuts, Usable;
    var inClip, kept := WordsInClip(clip, words), Kept(clip, silences, pad, words, maxGap);
    WordsInClipFacts(clip, words);
    var k, w := ReachingTriple(clip, words, inClip, pad, maxGap);
    var cut := GapCut(inClip, k, pad);
    GapCutInClip(clip, words, inClip, k, pad);
    forall m | m in kept ensures Avoids(cut, m.start, m.end) {
      GapCutIsRaw(clip, silences, pad, words, maxGap, cut);
      KeptAvoidsRaw(clip, silences, pad, words, maxGap, cut, m);
    }
    StartIsKept(clip, silences, pad, words, maxGap, w);
    CutOnGrid(clip, pad, words, inClip[k], inClip[k+1]);
    PrintedAvoids(clip, kept, cut);
    ReachingWordIsCut(clip, Printed(clip, kept), words, w, cut);
  }

  lemma PrintedAvoids(clip: SelectedClip, kept: seq<SourceRange>, cut: SourceRange)
    requires kept != [] && forall m :: m in kept ==> Avoids(cut, m.start, m.end)
    requires clip.sourceStart <= cut.start && cut.end <= clip.sourceEnd && cut.end - cut.start >= MIN_RANGE_S
    requires OnGrid(cut.start) && OnGrid(cut.end)
    ensures forall m :: m in Printed(clip, kept) ==> Avoids(cut, m.start, m.end)
  {
    hide OnGrid, PrintedRange, Changes;
    CutClipChanges(clip, kept, kept[0], cut);
    forall m | m in Printed(clip, kept) ensures Avoids(cut, m.start, m.end) {
      var i :| 0 <= i < |kept| && Printed(clip, kept)[i] == m;
      RoundedAvoids(cut, kept[i]);
    }
  }

  lemma GapCutIsRaw(clip: SelectedClip, silences: seq<SilenceRange>, pad: real, words: seq<WhisperWord>, maxGap: real,
                    cut: SourceRange)
    requires cut in GapCuts(WordsInClip(clip, words), Pairs(WordsInClip(clip, words)), pad, maxGap)
    ensures cut in RawCuts(clip, silences, pad, words, maxGap)
  {
    hide CutsOfSilences, GapCuts, WordsInClip;
  }

  /** A word that reaches into the cut after word `k`. */
  lemma ReachingTriple(clip: SelectedClip, words: seq<WhisperWord>, inClip: seq<WhisperWord>, pad: real, maxGap: real)
    returns (k: nat, w: WhisperWord)
    requires pad >= 0.0 && AreWordsInClip(inClip, clip, words) && !NoWordReachesIntoGapCut(inClip, pad, maxGap)
    ensures k + 1 < |inClip| && w in words && w in inClip && Usable(w)
    ensures inClip[k] in words && inClip[k+1] in words && Usable(inClip[k]) && Usable(inClip[k+1])
    ensures var cut := GapCut(inClip, k, pad);
      && w.start < cut.start - MIN_RANGE_S && cut.start < w.end && cut.end - cut.start >= MIN_RANGE_S
      && clip.sourceStart < cut.start - MIN_RANGE_S && cut.end < clip.sourceEnd
      && cut in GapCuts(inClip, Pairs(inClip), pad, maxGap)
      && PartInClip(clip, w).end - PartInClip(clip, w).start >= MIN_RANGE_S
  {
    hide Usable, GapCuts;
    var j: nat;
    j, k :| ReachesIntoGapCut(inClip, j, k, pad, maxGap);
    w := inClip[j];
    assert w in inClip && inClip[k] in inClip && inClip[k+1] in inClip && WordStartsNoLater(w, inClip[k]);
    UsableIsProper(inClip[k]);
    GapCutInClip(clip, words, inClip, k, pad);
    GapCutPresent(inClip, Pairs(inClip), pad, maxGap, k);
  }

  lemma CutOnGrid(clip: SelectedClip, pad: real, words: seq<WhisperWord>, left: WhisperWord, right: WhisperWord)
    requires AllOnGrid(clip, pad, words) && left in words && right in words && Usable(left) && Usable(right)
    ensures OnGrid(GapCutStart(left, pad)) && OnGrid(GapCutEnd(right, pad))
  {
    assert OnGrid(TRANSCRIPT_WORD_GUARD_PADDING_S);
    hide OnGrid, Usable;
    GridSums(left.end, TRANSCRIPT_WORD_GUARD_PADDING_S);
    GridSums(left.end + TRANSCRIPT_WORD_GUARD_PADDING_S, pad);
    GridSums(right.start, TRANSCRIPT_WORD_GUARD_PADDING_S);
    GridSums(right.start - TRANSCRIPT_WORD_GUARD_PADDING_S, pad);
  }

  lemma RoundedAvoids(cut: SourceRange, m: SourceRange)
    requires OnGrid(cut.start) && OnGrid(cut.end) && Avoids(cut, m.start, m.end)
    ensures Avoids(cut, PrintedRange(m).start, PrintedRange(m).end)
  {
    if m.end <= cut.start { MillisMonotone(m.end, cut.start); }
    if cut.end <= m.start { MillisMonotone(cut.end, m.start); }
  }

  /** The first 10 ms the clip shows of a word are never cut. */
  lemma StartIsKept(clip: SelectedClip, silences: seq<SilenceRange>, pad: real, words: seq<WhisperWord>, maxGap: real,
                    w: WhisperWord)
    requires clip.sourceStart < clip.sourceEnd && pad >= 0.0 && w in words && Usable(w)
    requires PartInClip(clip, w).end - PartInClip(clip, w).start >= MIN_RANGE_S
    ensures var a := PartInClip(clip, w).start;
      Hosts(Kept(clip, silences, pad, words, maxGap), SourceRange(a, a + MIN_RANGE_S))
  {
    hide Kept, WordsInClip, AreWordsInClip, CutsOfSilences, GapCuts, Usable;
    var inClip, a, b := WordsInClip(clip, words), PartInClip(clip, w).start, PartInClip(clip, w).start + MIN_RANGE_S;
    WordsInClipFacts(clip, words);
    ShownWordIsInClip(clip, words, inClip, w);
    SilenceCutsSpareWords(clip, silences, pad, words);
    GapCutsAre(inClip, Pairs(inClip), pad, maxGap);
    forall r | r in GapCuts(inClip, Pairs(inClip), pad, maxGap) ensures Avoids(r, a, b) {
      var k: nat :| k < Pairs(inClip) && IsGapCut(inClip, k, pad, maxGap, r);
      GapCutSparesStart(clip, words, inClip, k, pad, w);
    }
    forall r | r in CutsOfSilences(clip, silences, pad, words) ensures Avoids(r, a, b) {
      assert Avoids(r, w.start, w.end);
    }
    UncutIsKept(clip, silences, pad, words, maxGap, a, b);
  }

  lemma ShownWordIsInClip(clip: SelectedClip, words: seq<WhisperWord>, inClip: seq<WhisperWord>, w: WhisperWord)
    requires AreWordsInClip(inClip, clip, words) && w in words && Usable(w)
    requires PartInClip(clip, w).end - PartInClip(clip, w).start >= MIN_RANGE_S
    ensures w in inClip
  {
    hide Usable;
  }

  lemma GapCutSparesStart(clip: SelectedClip, words: seq<WhisperWord>, inClip: seq<WhisperWord>, k: nat, pad: real,
                          w: WhisperWord)
    requires pad >= 0.0 && AreWordsInClip(inClip, clip, words) && k + 1 < |inClip| && w in inClip
    requires GapCut(inClip, k, pad).end - GapCut(inClip, k, pad).start >= MIN_RANGE_S
    ensures var a := PartInClip(clip, w).start; Avoids(GapCut(inClip, k, pad), a, a + MIN_RANGE_S)
  {
    var j :| 0 <= j < |inClip| && inClip[j] == w;
    assert inClip[k] in inClip && inClip[k+1] in inClip;
    if j < k { assert WordStartsNoLater(inClip[j], inClip[k]); }
    if k + 1 < j { assert WordStartsNoLater(inClip[k+1], inClip[j]); }
  }
}
