/** Where silences can put an edge, and what the continuity engine makes of it
    (crates/cli/src/plan_dead_air_edl_cmd.rs, crates/core/src/continuity.rs). */
module DeadAirEdges {
  import opened Numbers
  import opened Sequences
  import opened Strings
  import opened PlanRanges
  import opened DeadAir

  // ---------------------------------------------------------------- where an edge can fall

  /** No usable word reaches into this stretch. */
  ghost predicate FreeOfWords(words: seq<WhisperWord>, a: real, b: real) {
    forall w :: w in words && Usable(w) ==> Avoids(SourceRange(w.start, w.end), a, b)
  }

  ghost predicate FreeOfRanges(ranges: seq<SourceRange>, a: real, b: real) {
    forall r :: r in ranges ==> Avoids(r, a, b)
  }

  /** A cut can start here: a pause cut does, or 10 ms without words follow; and no pause cut takes any of the
      10 ms before. */
  ghost predicate CutCanStart(words: seq<WhisperWord>, gaps: seq<SourceRange>, t: real) {
    FreeOfRanges(gaps, t - MIN_RANGE_S, t) && (StartsIn(gaps, t) || FreeOfWords(words, t, t + MIN_RANGE_S))
  }

  ghost predicate CutCanEnd(words: seq<WhisperWord>, gaps: seq<SourceRange>, t: real) {
    FreeOfRanges(gaps, t, t + MIN_RANGE_S) && (EndsIn(gaps, t) || FreeOfWords(words, t - MIN_RANGE_S, t))
  }

  predicate WellInside(clip: SelectedClip, t: real) {
    clip.sourceStart <= t - MIN_RANGE_S && t + MIN_RANGE_S <= clip.sourceEnd
  }

  /** Instants of the clip, read off the words alone, at which a kept range can end. */
  ghost predicate EndSpot(clip: SelectedClip, pad: real, words: seq<WhisperWord>, maxGap: real, t: real) {
    WellInside(clip, t) && CutCanStart(words, GapCutsOf(clip, words, pad, maxGap), t)
  }

  /** At which one can start. */
  ghost predicate StartSpot(clip: SelectedClip, pad: real, words: seq<WhisperWord>, maxGap: real, t: real) {
    WellInside(clip, t) && CutCanEnd(words, GapCutsOf(clip, words, pad, maxGap), t)
  }

  ghost predicate EdgeSpot(clip: SelectedClip, pad: real, words: seq<WhisperWord>, maxGap: real, t: real) {
    EndSpot(clip, pad, words, maxGap, t) || StartSpot(clip, pad, words, maxGap, t)
  }

  /** What the planner keeps avoids every cut it made, of pauses as of silences. */
  lemma KeptAvoidsRaw(clip: SelectedClip, silences: seq<SilenceRange>, pad: real, words: seq<WhisperWord>, maxGap: real,
                      r: SourceRange, m: SourceRange)
    requires clip.sourceStart < clip.sourceEnd && pad >= 0.0
    requires r in RawCuts(clip, silences, pad, words, maxGap) && m in Kept(clip, silences, pad, words, maxGap)
    ensures Avoids(r, m.start, m.end)
  {
    RawCutsInClip(clip, silences, pad, words, maxGap);
    KeptRangesAvoid(clip, RawCuts(clip, silences, pad, words, maxGap), r);
    hide RawCuts, KeptRanges, Merged;
  }

  lemma KeptLiesInClip(clip: SelectedClip, silences: seq<SilenceRange>, pad: real, words: seq<WhisperWord>,
                       maxGap: real)
    requires clip.sourceStart < clip.sourceEnd && pad >= 0.0
    ensures Within(Kept(clip, silences, pad, words, maxGap), clip.sourceStart, clip.sourceEnd)
  {
    hide RawCuts, KeptRanges, Cuts;
    RawCutsInClip(clip, silences, pad, words, maxGap);
    KeptRangesConserveTime(clip, Cuts(clip, silences, pad, words, maxGap));
  }

  /** A stretch of at least 10 ms of the clip that no cut enters is kept in one piece. */
  lemma UncutIsKept(clip: SelectedClip, silences: seq<SilenceRange>, pad: real, words: seq<WhisperWord>, maxGap: real,
                    a: real, b: real)
    requires pad >= 0.0 && clip.sourceStart <= a && b <= clip.sourceEnd && b - a >= MIN_RANGE_S
    requires FreeOfRanges(RawCuts(clip, silences, pad, words, maxGap), a, b)
    ensures Hosts(Kept(clip, silences, pad, words, maxGap), SourceRange(a, b))
  {
    var raw := RawCuts(clip, silences, pad, words, maxGap);
    RawCutsInClip(clip, silences, pad, words, maxGap);
    forall m | m in Merged(raw) ensures Avoids(m, a, b) { MergeAvoids(raw, m, a, b); }
    UncutStretchIsKept(clip, Merged(raw), a, b);
  }

  /** The cut and the kept range meet at this instant. */
  predicate Meet(c: SourceRange, m: SourceRange, t: real) { t == m.start == c.end || t == m.end == c.start }

  lemma LeftMeetsCut(lo: real, hi: real, cuts: seq<SourceRange>, m: SourceRange, t: real) returns (c: SourceRange)
    requires LongWithin(cuts, lo, hi, MIN_RANGE_S) && Separated(cuts)
    requires m in Uncovered(lo, hi, cuts) && (t == m.start || t == m.end) && t != lo && t != hi
    ensures m.end - m.start >= MIN_RANGE_S && lo <= m.start && m.end <= hi
    ensures c in cuts && Meet(c, m, t)
  {
    hide Uncovered;
    UncoveredIsClear(lo, hi, cuts);
    UncoveredEdges(lo, hi, cuts);
    if t == m.start {
      c :| c in cuts && t == c.end;
    } else {
      c :| c in cuts && t == c.start;
    }
  }

  /** Of a clip that is cut, the leftovers are kept. */
  lemma KeptIsLeft(clip: SelectedClip, cuts: seq<SourceRange>, m: SourceRange)
    requires CutsOf(clip, cuts) && Separated(cuts) && m in KeptRanges(clip, cuts)
    ensures m in Uncovered(clip.sourceStart, clip.sourceEnd, cuts)
      || m == SourceRange(clip.sourceStart, clip.sourceEnd)
  {
    hide Merged, Uncovered;
    MergedFixpoint(cuts);
  }

  /** An edge of a kept range inside the clip has the range on one side and a raw cut on the other, each at
      least 10 ms long. */
  lemma EdgeHasCut(clip: SelectedClip, silences: seq<SilenceRange>, pad: real, words: seq<WhisperWord>, maxGap: real,
                   m: SourceRange, t: real) returns (r: SourceRange)
    requires clip.sourceStart < clip.sourceEnd && pad >= 0.0
    requires m in Kept(clip, silences, pad, words, maxGap) && (t == m.start || t == m.end)
    requires t != clip.sourceStart && t != clip.sourceEnd
    ensures m.end - m.start >= MIN_RANGE_S && WellInside(clip, t)
    ensures r in RawCuts(clip, silences, pad, words, maxGap) && Meet(r, m, t) && r.end - r.start >= MIN_RANGE_S
    ensures clip.sourceStart <= r.start && r.end <= clip.sourceEnd
  {
    hide KeptRanges, RawCuts, Merged;
    var raw := RawCuts(clip, silences, pad, words, maxGap);
    RawCutsInClip(clip, silences, pad, words, maxGap);
    MergedCuts(clip, raw);
    KeptIsLeft(clip, Merged(raw), m);
    var c := LeftMeetsCut(clip.sourceStart, clip.sourceEnd, Merged(raw), m, t);
    r := RawMeets(raw, c, m, t);
  }

  /** Where a kept range meets a merged cut it meets one of the cuts that were merged. */
  lemma RawMeets(raw: seq<SourceRange>, c: SourceRange, m: SourceRange, t: real) returns (r: SourceRange)
    requires c in Merged(raw) && Meet(c, m, t)
    ensures r in raw && Meet(r, m, t)
  {
    hide Merged;
    MergedEndpoints(raw);
    if t == m.start == c.end {
      r :| r in raw && r.end == t;
    } else {
      r :| r in raw && r.start == t;
    }
  }

  /** A raw cut is a pause cut or free of words. */
  lemma RawCutsAre(clip: SelectedClip, silences: seq<SilenceRange>, pad: real, words: seq<WhisperWord>, maxGap: real,
                   r: SourceRange)
    requires r in RawCuts(clip, silences, pad, words, maxGap)
    ensures r in GapCutsOf(clip, words, pad, maxGap) || FreeOfWords(words, r.start, r.end)
  {
    SilenceCutsSpareWords(clip, silences, pad, words);
    hide GapCutsOf, Usable, CutsOfSilences;
  }

  lemma GapsMissKept(clip: SelectedClip, silences: seq<SilenceRange>, pad: real, words: seq<WhisperWord>, maxGap: real,
                     m: SourceRange)
    requires clip.sourceStart < clip.sourceEnd && pad >= 0.0 && m in Kept(clip, silences, pad, words, maxGap)
    ensures FreeOfRanges(GapCutsOf(clip, words, pad, maxGap), m.start, m.end)
  {
    hide GapCutsOf, Kept, CutsOfSilences;
    forall g | g in GapCutsOf(clip, words, pad, maxGap) ensures Avoids(g, m.start, m.end) {
      KeptAvoidsRaw(clip, silences, pad, words, maxGap, g, m);
    }
  }

  lemma NarrowerIsFree(words: seq<WhisperWord>, ranges: seq<SourceRange>, a: real, b: real, c: real, d: real)
    requires a <= c <= d <= b
    ensures FreeOfRanges(ranges, a, b) ==> FreeOfRanges(ranges, c, d)
    ensures FreeOfWords(words, a, b) ==> FreeOfWords(words, c, d)
  {
    hide Usable;
  }

  lemma EndsAreSpots(clip: SelectedClip, silences: seq<SilenceRange>, pad: real, words: seq<WhisperWord>,
                     maxGap: real, m: SourceRange)
    requires clip.sourceStart < clip.sourceEnd && pad >= 0.0
    requires m in Kept(clip, silences, pad, words, maxGap) && clip.sourceStart < m.end != clip.sourceEnd
    ensures EndSpot(clip, pad, words, maxGap, m.end)
  {
    hide Kept, RawCuts, GapCutsOf, FreeOfRanges, FreeOfWords;
    var t := m.end;
    var r := EdgeHasCut(clip, silences, pad, words, maxGap, m, t);
    RawCutsAre(clip, silences, pad, words, maxGap, r);
    GapsMissKept(clip, silences, pad, words, maxGap, m);
    NarrowerIsFree(words, GapCutsOf(clip, words, pad, maxGap), m.start, m.end, t - MIN_RANGE_S, t);
    NarrowerIsFree(words, [], r.start, r.end, t, t + MIN_RANGE_S);
  }

  lemma StartsAreSpots(clip: SelectedClip, silences: seq<SilenceRange>, pad: real, words: seq<WhisperWord>,
                       maxGap: real, m: SourceRange)
    requires clip.sourceStart < clip.sourceEnd && pad >= 0.0
    requires m in Kept(clip, silences, pad, words, maxGap) && clip.sourceStart != m.start < clip.sourceEnd
    ensures StartSpot(clip, pad, words, maxGap, m.start)
  {
    hide Kept, RawCuts, GapCutsOf, FreeOfRanges, FreeOfWords;
    var t := m.start;
    var r := EdgeHasCut(clip, silences, pad, words, maxGap, m, t);
    RawCutsAre(clip, silences, pad, words, maxGap, r);
    GapsMissKept(clip, silences, pad, words, maxGap, m);
    NarrowerIsFree(words, GapCutsOf(clip, words, pad, maxGap), m.start, m.end, t, t + MIN_RANGE_S);
    NarrowerIsFree(words, [], r.start, r.end, t - MIN_RANGE_S, t);
  }

  /** The silence that cuts exactly these 10 ms. */
  function SilenceAt(t: real, pad: real): SilenceRange { SilenceRange(t - pad, t + MIN_RANGE_S + pad) }

  lemma WindowWithoutWords(a: real, b: real, words: seq<WhisperWord>)
    requires FreeOfWords(words, a, b) && b - a >= MIN_RANGE_S
    ensures WindowCuts(a, b, words) == [SourceRange(a, b)]
  {
    NoGuards(a, b, words);
    assert Merged([]) == [];
  }

  /** One silence whose padded part in the clip holds no usable word is cut as it is. */
  lemma OneSilenceRaw(clip: SelectedClip, silence: SilenceRange, pad: real, words: seq<WhisperWord>, maxGap: real,
                      a: real, b: real)
    requires a == Max(silence.start + pad, clip.sourceStart) && b == Min(silence.end - pad, clip.sourceEnd)
    requires FreeOfWords(words, a, b) && b - a >= MIN_RANGE_S
    ensures RawCuts(clip, [silence], pad, words, maxGap) == [SourceRange(a, b)] + GapCutsOf(clip, words, pad, maxGap)
  {
    hide WindowCuts, GapCutsOf, FreeOfWords, CutsOfSilences;
    WindowWithoutWords(a, b, words);
    SingleSilence(clip, silence, pad, words);
  }

  lemma SingleSilence(clip: SelectedClip, silence: SilenceRange, pad: real, words: seq<WhisperWord>)
    ensures CutsOfSilences(clip, [silence], pad, words) == CutsOfSilence(clip, silence, pad, words)
  {
    hide CutsOfSilence;
    assert [silence][..0] == [];
    assert CutsOfSilences(clip, [], pad, words) == [];
    assert [] + CutsOfSilence(clip, silence, pad, words) == CutsOfSilence(clip, silence, pad, words);
  }

  lemma SilenceCutsSpot(clip: SelectedClip, pad: real, words: seq<WhisperWord>, maxGap: real, t: real)
    requires clip.sourceStart <= t && t + MIN_RANGE_S <= clip.sourceEnd && FreeOfWords(words, t, t + MIN_RANGE_S)
    ensures RawCuts(clip, [SilenceAt(t, pad)], pad, words, maxGap)
      == [SourceRange(t, t + MIN_RANGE_S)] + GapCutsOf(clip, words, pad, maxGap)
  {
    hide RawCuts, GapCutsOf, FreeOfWords;
    OneSilenceRaw(clip, SilenceAt(t, pad), pad, words, maxGap, t, t + MIN_RANGE_S);
  }

  lemma {:induction false} NoGuards(a: real, b: real, words: seq<WhisperWord>)
    requires FreeOfWords(words, a, b)
    ensures Guards(a, b, words) == []
  {
    if words == [] {
    } else {
      assert words[0] in words;
      NoGuards(a, b, words[1..]);
    }
  }

  /** Silences that cut exactly the 10 ms from `a` on, besides the pauses. */
  lemma SilencesThatCut(clip: SelectedClip, pad: real, words: seq<WhisperWord>, maxGap: real, a: real)
    returns (silences: seq<SilenceRange>)
    requires clip.sourceStart <= a && a + MIN_RANGE_S <= clip.sourceEnd && FreeOfWords(words, a, a + MIN_RANGE_S)
    ensures RawCuts(clip, silences, pad, words, maxGap)
      == [SourceRange(a, a + MIN_RANGE_S)] + GapCutsOf(clip, words, pad, maxGap)
  {
    silences := [SilenceAt(a, pad)];
    SilenceCutsSpot(clip, pad, words, maxGap, a);
  }

  /** At an end spot a kept range ends, against a cut, for suitable silences. */
  lemma SpotsAreEnds(clip: SelectedClip, pad: real, words: seq<WhisperWord>, maxGap: real, t: real)
    returns (silences: seq<SilenceRange>, r: SourceRange, m: SourceRange)
    requires clip.sourceStart < clip.sourceEnd && pad >= 0.0 && EndSpot(clip, pad, words, maxGap, t)
    ensures r in RawCuts(clip, silences, pad, words, maxGap) && m in Kept(clip, silences, pad, words, maxGap)
    ensures t == r.start == m.end && r.end - r.start >= MIN_RANGE_S
  {
    hide GapCutsOf, RawCuts, Kept, FreeOfWords;
    var gaps, side := GapCutsOf(clip, words, pad, maxGap), SourceRange(t - MIN_RANGE_S, t);
    if StartsIn(gaps, t) {
      silences := [];
      NoSilencesRaw(clip, pad, words, maxGap);
      r :| r in gaps && r.start == t;
    } else {
      r := SourceRange(t, t + MIN_RANGE_S);
      silences := SilencesThatCut(clip, pad, words, maxGap, t);
      assert r in [r] + gaps;
    }
    UncutIsKept(clip, silences, pad, words, maxGap, side.start, side.end);
    m :| m in Kept(clip, silences, pad, words, maxGap) && Contains(m, side);
    RawCutsInClip(clip, silences, pad, words, maxGap);
    KeptAvoidsRaw(clip, silences, pad, words, maxGap, r, m);
  }

  lemma SpotsAreStarts(clip: SelectedClip, pad: real, words: seq<WhisperWord>, maxGap: real, t: real)
    returns (silences: seq<SilenceRange>, r: SourceRange, m: SourceRange)
    requires clip.sourceStart < clip.sourceEnd && pad >= 0.0 && StartSpot(clip, pad, words, maxGap, t)
    ensures r in RawCuts(clip, silences, pad, words, maxGap) && m in Kept(clip, silences, pad, words, maxGap)
    ensures t == r.end == m.start && r.end - r.start >= MIN_RANGE_S
  {
    hide GapCutsOf, RawCuts, Kept, FreeOfWords;
    var gaps, side := GapCutsOf(clip, words, pad, maxGap), SourceRange(t, t + MIN_RANGE_S);
    if EndsIn(gaps, t) {
      silences := [];
      NoSilencesRaw(clip, pad, words, maxGap);
      r :| r in gaps && r.end == t;
    } else {
      r := SourceRange(t - MIN_RANGE_S, t);
      silences := SilencesThatCut(clip, pad, words, maxGap, t - MIN_RANGE_S);
      assert r in [r] + gaps;
    }
    UncutIsKept(clip, silences, pad, words, maxGap, side.start, side.end);
    m :| m in Kept(clip, silences, pad, words, maxGap) && Contains(m, side);
    RawCutsInClip(clip, silences, pad, words, maxGap);
    KeptAvoidsRaw(clip, silences, pad, words, maxGap, r, m);
  }

  lemma NoSilencesRaw(clip: SelectedClip, pad: real, words: seq<WhisperWord>, maxGap: real)
    ensures RawCuts(clip, [], pad, words, maxGap) == GapCutsOf(clip, words, pad, maxGap)
  {
    hide GapCutsOf;
    assert CutsOfSilences(clip, [], pad, words) == [];
  }

  /** Silences can put an edge exactly on the edge spots. */
  lemma EdgeSpotsExactly(clip: SelectedClip, pad: real, words: seq<WhisperWord>, maxGap: real, t: real)
    requires clip.sourceStart < clip.sourceEnd && pad >= 0.0
    ensures (exists silences :: IsEdge(Kept(clip, silences, pad, words, maxGap), clip, t)) <==>
      EdgeSpot(clip, pad, words, maxGap, t)
  {
    hide CutCanStart, CutCanEnd, Kept;
    if EdgeSpot(clip, pad, words, maxGap, t) {
      SpotsGiveEdges(clip, pad, words, maxGap, t);
    } else {
      forall silences | IsEdge(Kept(clip, silences, pad, words, maxGap), clip, t) ensures false {
        EdgesAreSpots(clip, silences, pad, words, maxGap, t);
      }
    }
  }

  lemma SpotsGiveEdges(clip: SelectedClip, pad: real, words: seq<WhisperWord>, maxGap: real, t: real)
    requires clip.sourceStart < clip.sourceEnd && pad >= 0.0 && EdgeSpot(clip, pad, words, maxGap, t)
    ensures exists silences :: IsEdge(Kept(clip, silences, pad, words, maxGap), clip, t)
  {
    hide CutCanStart, CutCanEnd, Kept, RawCuts;
    var silences, r, m;
    if EndSpot(clip, pad, words, maxGap, t) {
      silences, r, m := SpotsAreEnds(clip, pad, words, maxGap, t);
    } else {
      silences, r, m := SpotsAreStarts(clip, pad, words, maxGap, t);
    }
    assert IsEdge(Kept(clip, silences, pad, words, maxGap), clip, t);
  }

  lemma EdgesAreSpots(clip: SelectedClip, silences: seq<SilenceRange>, pad: real, words: seq<WhisperWord>,
                      maxGap: real, t: real)
    requires clip.sourceStart < clip.sourceEnd && pad >= 0.0
    requires IsEdge(Kept(clip, silences, pad, words, maxGap), clip, t)
    ensures EdgeSpot(clip, pad, words, maxGap, t)
  {
    hide EndSpot, StartSpot, Kept, RawCuts;
    var m :| m in Kept(clip, silences, pad, words, maxGap) && (t == m.start || t == m.end);
    var r := EdgeHasCut(clip, silences, pad, words, maxGap, m, t);
    if t == m.end {
      EndsAreSpots(clip, silences, pad, words, maxGap, m);
    } else {
      StartsAreSpots(clip, silences, pad, words, maxGap, m);
    }
  }

  // ---------------------------------------------------------------- the ends of pause cuts

  /** Pause cuts have a word and its two guards between them. */
  lemma GapCutsApart(inClip: seq<WhisperWord>, clip: SelectedClip, words: seq<WhisperWord>, i: nat, j: nat, pad: real)
    requires pad >= 0.0 && AreWordsInClip(inClip, clip, words) && i < j && j + 1 < |inClip|
    ensures GapCut(inClip, i, pad).end + MIN_RANGE_S < GapCut(inClip, j, pad).start
  {
    assert inClip[j] in inClip;
    if i + 1 < j { assert WordStartsNoLater(inClip[i+1], inClip[j]); }
  }

  /** Where a pause cut starts a kept range can end. */
  lemma GapCutsStartAtSpots(clip: SelectedClip, pad: real, words: seq<WhisperWord>, maxGap: real, g: SourceRange)
    requires pad >= 0.0 && g in GapCutsOf(clip, words, pad, maxGap)
    ensures EndSpot(clip, pad, words, maxGap, g.start)
  {
    hide WordsInClip, AreWordsInClip, FreeOfWords, GapCuts;
    var inClip, gaps := WordsInClip(clip, words), GapCutsOf(clip, words, pad, maxGap);
    WordsInClipFacts(clip, words);
    GapCutsAre(inClip, Pairs(inClip), pad, maxGap);
    var k: nat :| k < Pairs(inClip) && IsGapCut(inClip, k, pad, maxGap, g);
    GapCutInClip(clip, words, inClip, k, pad);
    forall h | h in gaps ensures Avoids(h, g.start - MIN_RANGE_S, g.start) {
      var j: nat :| j < Pairs(inClip) && IsGapCut(inClip, j, pad, maxGap, h);
      GapCutStartIsFree(inClip, clip, words, j, k, pad, maxGap);
    }
    assert StartsIn(gaps, g.start);
  }

  lemma GapCutStartIsFree(inClip: seq<WhisperWord>, clip: SelectedClip, words: seq<WhisperWord>, j: nat, k: nat,
                          pad: real, maxGap: real)
    requires pad >= 0.0 && AreWordsInClip(inClip, clip, words) && j + 1 < |inClip| && k + 1 < |inClip|
    requires GapIsCut(inClip[j], inClip[j+1], pad, maxGap) && GapIsCut(inClip[k], inClip[k+1], pad, maxGap)
    ensures Avoids(GapCut(inClip, j, pad), GapCut(inClip, k, pad).start - MIN_RANGE_S, GapCut(inClip, k, pad).start)
  {
    hide AreWordsInClip;
    if j < k { GapCutsApart(inClip, clip, words, j, k, pad); }
    if k < j { GapCutsApart(inClip, clip, words, k, j, pad); }
  }

  // ---------------------------------------------------------------- what the engine makes of it

  /** Every edge the planner can make in this clip, for whatever silences, is judged clean. */
  ghost predicate AlwaysClean(clip: SelectedClip, pad: real, words: seq<WhisperWord>, maxGap: real) {
    forall silences, t :: IsEdge(Kept(clip, silences, pad, words, maxGap), clip, t) ==>
      MidSentence(t, Some(words)) == Clean
  }

  /** No edge spot lies inside a word of blank text. */
  ghost predicate BlankWordsAreOutOfReach(clip: SelectedClip, pad: real, words: seq<WhisperWord>, maxGap: real) {
    forall w, t :: w in words && Blank(w.text) && EdgeSpot(clip, pad, words, maxGap, t) ==> !StrictlyInside(t, w)
  }

  /** All edges are clean for all silences exactly when no word reaches into a pause that is cut and no edge can
      fall inside a word of blank text, which the planner does not protect and the engine does. */
  lemma AlwaysCleanExactly(clip: SelectedClip, pad: real, words: seq<WhisperWord>, maxGap: real)
    requires clip.sourceStart < clip.sourceEnd && pad >= 0.0
    ensures AlwaysClean(clip, pad, words, maxGap)
       <==> NoWordReachesIntoGapCut(WordsInClip(clip, words), pad, maxGap)
            && BlankWordsAreOutOfReach(clip, pad, words, maxGap)
  {
    hide EdgeSpot, Kept, IsEdge, MidSentence, Blank, NoWordReachesIntoGapCut, WordsInClip;
    if !NoWordReachesIntoGapCut(WordsInClip(clip, words), pad, maxGap) {
      ReachingWordIsDirty(clip, pad, words, maxGap);
    } else if BlankWordsAreOutOfReach(clip, pad, words, maxGap) {
      forall silences, t | IsEdge(Kept(clip, silences, pad, words, maxGap), clip, t)
        ensures MidSentence(t, Some(words)) == Clean
      {
        EdgeSpotsExactly(clip, pad, words, maxGap, t);
        PlannerEdgesAreClean(clip, silences, pad, words, maxGap, t);
      }
    } else {
      var w, t :| w in words && Blank(w.text) && EdgeSpot(clip, pad, words, maxGap, t) && StrictlyInside(t, w);
      EdgeSpotsExactly(clip, pad, words, maxGap, t);
      var silences :| IsEdge(Kept(clip, silences, pad, words, maxGap), clip, t);
      PlannerEdgesAreClean(clip, silences, pad, words, maxGap, t);
    }
  }

  /** A word that reaches into a cut pause has an edge inside it. */
  lemma ReachingWordIsDirty(clip: SelectedClip, pad: real, words: seq<WhisperWord>, maxGap: real)
    requires clip.sourceStart < clip.sourceEnd && pad >= 0.0
    requires !NoWordReachesIntoGapCut(WordsInClip(clip, words), pad, maxGap)
    ensures !AlwaysClean(clip, pad, words, maxGap)
  {
    hide EndSpot, Kept, IsEdge, NoWordReachesIntoGapCut, WordsInClip, AreWordsInClip, GapCuts;
    WordsInClipFacts(clip, words);
    var w, r := ReachingPair(clip, words, WordsInClip(clip, words), pad, maxGap);
    GapCutsStartAtSpots(clip, pad, words, maxGap, r);
    EdgeSpotsExactly(clip, pad, words, maxGap, r.start);
    var silences :| IsEdge(Kept(clip, silences, pad, words, maxGap), clip, r.start);
    assert StrictlyInside(r.start, w);
    assert MidSentence(r.start, Some(words)) == Dirty;
  }

  /** In particular when no blank word of any length overlaps the clip. */
  lemma NoBlankWordsNoDirt(clip: SelectedClip, pad: real, words: seq<WhisperWord>, maxGap: real)
    requires clip.sourceStart < clip.sourceEnd && pad >= 0.0
    requires NoWordReachesIntoGapCut(WordsInClip(clip, words), pad, maxGap)
    requires forall w :: w in words && Blank(w.text) && w.start < w.end ==>
      !Overlaps(w, clip.sourceStart, clip.sourceEnd)
    ensures AlwaysClean(clip, pad, words, maxGap)
  {
    hide CutCanStart, CutCanEnd, Blank, AlwaysClean, NoWordReachesIntoGapCut, WordsInClip;
    AlwaysCleanExactly(clip, pad, words, maxGap);
  }

  // ---------------------------------------------------------------- two inputs that go wrong

  const TEN_SECONDS := SelectedClip("c", "a.mp4", "V1", 0, 0.0, 10.0)

  /** A word of one space, silence from 2 to 5 s that starts inside it: so does the cut. */
  lemma BlankWordTakesAnEdge(w: WhisperWord)
    requires w.text == " " && w.start < 2.0 < w.end
    ensures IsEdge(Kept(TEN_SECONDS, [SilenceRange(2.0, 5.0)], 0.0, [w], 1.0), TEN_SECONDS, 2.0)
    ensures MidSentence(2.0, Some([w])) == Dirty
  {
    hide Kept, FreeOfWords, Blank;
    assert w in [w] && StrictlyInside(2.0, w);
    SpaceIsBlank(w, 2.0, 5.0);
    OneSilenceCuts(TEN_SECONDS, SilenceRange(2.0, 5.0), [w], 1.0);
    var kept := Kept(TEN_SECONDS, [SilenceRange(2.0, 5.0)], 0.0, [w], 1.0);
    assert kept[0] in kept && kept[0].end == 2.0;
  }

  lemma SpaceIsBlank(w: WhisperWord, a: real, b: real)
    requires w.text == " "
    ensures Blank(w.text) && FreeOfWords([w], a, b)
  {
  }

  /** A single silence without padding, clear of all usable words, in a clip without pause cuts. */
  lemma OneSilenceCuts(clip: SelectedClip, s: SilenceRange, words: seq<WhisperWord>, maxGap: real)
    requires clip.sourceStart + MIN_RANGE_S <= s.start && s.start + MIN_RANGE_S <= s.end
    requires s.end + MIN_RANGE_S <= clip.sourceEnd
    requires FreeOfWords(words, s.start, s.end) && |words| <= 1
    ensures Kept(clip, [s], 0.0, words, maxGap)
      == [SourceRange(clip.sourceStart, s.start), SourceRange(s.end, clip.sourceEnd)]
  {
    hide Uncovered, WindowCuts, GapCutsOf, FreeOfWords, RawCuts;
    OneSilenceRaw(clip, s, 0.0, words, maxGap, s.start, s.end);
    FewWordsNoGaps(clip, words, maxGap);
    var cut := SourceRange(s.start, s.end);
    assert RawCuts(clip, [s], 0.0, words, maxGap) == [cut];
    MergedFixpoint([cut]);
    hide Merged;
    OneCutLeavesTwo(clip.sourceStart, clip.sourceEnd, cut);
  }

  lemma OneCutLeavesTwo(lo: real, hi: real, cut: SourceRange)
    requires cut.start - lo >= MIN_RANGE_S && hi - cut.end >= MIN_RANGE_S && lo <= cut.end
    ensures Uncovered(lo, hi, [cut]) == [SourceRange(lo, cut.start), SourceRange(cut.end, hi)]
  {
    assert [cut][1..] == [];
  }

  lemma FewWordsNoGaps(clip: SelectedClip, words: seq<WhisperWord>, maxGap: real)
    requires |words| <= 1
    ensures GapCutsOf(clip, words, 0.0, maxGap) == []
  {
    var inClip := Filter(words, (w: WhisperWord) => Usable(w) && Overlaps(w, clip.sourceStart, clip.sourceEnd));
    FilterShrinks(words, (w: WhisperWord) => Usable(w) && Overlaps(w, clip.sourceStart, clip.sourceEnd));
    SameElements(inClip, WordsInClip(clip, words));
  }

  const LONG_WORD := WhisperWord(0.5, 6.0, "a")
  const SHORT_WORD := WhisperWord(1.0, 2.0, "b")
  const LATE_WORD := WhisperWord(8.0, 9.0, "c")

  /** One word from 0.5 to 6 s, one from 1 to 2 s and one from 8 s on: the planner sees a pause after the
      second, and cuts the end of the first. */
  lemma OverlappingWordIsLost()
    ensures var words := [LONG_WORD, SHORT_WORD, LATE_WORD];
      !KeepsWords(Kept(TEN_SECONDS, [], 0.0, words, 1.0), TEN_SECONDS, words)
  {
    hide Kept, KeepsWords, WordsInClip;
    var words := [LONG_WORD, SHORT_WORD, LATE_WORD];
    ThreeWordsInClip();
    assert ReachesIntoGapCut(words, 0, 1, 0.0, 1.0);
    PlannerKeepsWords(TEN_SECONDS, [], 0.0, words, 1.0);
  }

  lemma ThreeWordsInClip()
    ensures var words := [LONG_WORD, SHORT_WORD, LATE_WORD]; WordsInClip(TEN_SECONDS, words) == words
  {
    var words := [LONG_WORD, SHORT_WORD, LATE_WORD];
    LetterIsNotBlank("a"); LetterIsNotBlank("b"); LetterIsNotBlank("c");
    hide Blank, SortBy, Filter;
    FilterKeepsAll(words, (w: WhisperWord) => Usable(w) && Overlaps(w, TEN_SECONDS.sourceStart, TEN_SECONDS.sourceEnd));
    SortedStays(words, WordStartsNoLater);
  }
}
