/** Which words the timeline shows whole once the kept ranges are printed to the millisecond, whatever the silences
    (crates/cli/src/plan_ranges.rs, crates/cli/src/plan_dead_air_edl_cmd.rs). */
module DeadAirShown {
  import opened PlanRanges
  import opened DeadAir
  import opened DeadAirEdges
  import opened DeadAirPrinted
  import opened EdlPlan
  import opened EdlReplay

  /** The clip shows at least 10 ms of the word. */
  predicate IsShown(clip: SelectedClip, w: WhisperWord) {
    Usable(w) && PartInClip(clip, w).end - PartInClip(clip, w).start >= MIN_RANGE_S
  }

  /** For any silences, what is shown after the plan holds each shown word whole. */
  ghost predicate AlwaysShowsWords(clip: SelectedClip, pad: real, words: seq<WhisperWord>, maxGap: real) {
    forall silences :: KeepsWords(Printed(clip, Kept(clip, silences, pad, words, maxGap)), clip, words)
  }

  ghost predicate FreeFrom(clip: SelectedClip, words: seq<WhisperWord>, t: real) {
    clip.sourceStart <= t && t + MIN_RANGE_S <= clip.sourceEnd && FreeOfWords(words, t, t + MIN_RANGE_S)
  }

  /** There is something to cut for some silences: a pause, or 10 ms of the clip without words. */
  ghost predicate CanBeCut(clip: SelectedClip, pad: real, words: seq<WhisperWord>, maxGap: real) {
    GapCutsOf(clip, words, pad, maxGap) != [] || exists t :: FreeFrom(clip, words, t)
  }

  /** Where a kept range can end after the part's start, it is printed no earlier than the part's end. */
  ghost predicate EndsPrintAfter(clip: SelectedClip, pad: real, words: seq<WhisperWord>, maxGap: real,
                                 part: SourceRange) {
    forall t :: EndSpot(clip, pad, words, maxGap, t) && part.start < t ==> part.end <= Millis(t)
  }

  ghost predicate StartsPrintBefore(clip: SelectedClip, pad: real, words: seq<WhisperWord>, maxGap: real,
                                    part: SourceRange) {
    forall t :: StartSpot(clip, pad, words, maxGap, t) && t < part.end ==> Millis(t) <= part.start
  }

  predicate ClipPrintsAround(clip: SelectedClip, part: SourceRange) {
    Millis(clip.sourceStart) <= part.start && part.end <= Millis(clip.sourceEnd)
  }

  /** No end of a range is printed inside the word. */
  ghost predicate PrintsOutside(clip: SelectedClip, pad: real, words: seq<WhisperWord>, maxGap: real, w: WhisperWord) {
    var part := PartInClip(clip, w);
    && EndsPrintAfter(clip, pad, words, maxGap, part) && StartsPrintBefore(clip, pad, words, maxGap, part)
    && (CanBeCut(clip, pad, words, maxGap) ==> ClipPrintsAround(clip, part))
  }

  // ---------------------------------------------------------------- the condition is enough

  lemma ChangedWasCut(clip: SelectedClip, silences: seq<SilenceRange>, pad: real, words: seq<WhisperWord>, maxGap: real)
    requires pad >= 0.0 && Changes(clip, Kept(clip, silences, pad, words, maxGap))
    ensures CanBeCut(clip, pad, words, maxGap)
  {
    hide RawCuts, FreeOfWords, GapCutsOf, CutsOfSilences;
    var raw := RawCuts(clip, silences, pad, words, maxGap);
    if raw == [] {
      NothingCutNothingChanges(clip);
    } else {
      var r := raw[0];
      assert r in raw;
      RawCutsAre(clip, silences, pad, words, maxGap, r);
      RawCutsInClip(clip, silences, pad, words, maxGap);
      NarrowerIsFree(words, [], r.start, r.end, r.start, r.start + MIN_RANGE_S);
      assert r in GapCutsOf(clip, words, pad, maxGap) || FreeFrom(clip, words, r.start);
    }
  }

  lemma NothingCutNothingChanges(clip: SelectedClip)
    ensures !Changes(clip, KeptRanges(clip, Merged([])))
  {
    assert Merged([]) == [];
  }

  lemma WordIsShown(clip: SelectedClip, silences: seq<SilenceRange>, pad: real, words: seq<WhisperWord>, maxGap: real,
                    w: WhisperWord)
    requires clip.sourceStart < clip.sourceEnd && pad >= 0.0 && w in words && IsShown(clip, w)
    requires PrintsOutside(clip, pad, words, maxGap, w)
    ensures Hosts(Printed(clip, Kept(clip, silences, pad, words, maxGap)), PartInClip(clip, w))
  {
    hide Kept, Usable, Changes, Millis, EndSpot, StartSpot, CanBeCut;
    var kept, part := Kept(clip, silences, pad, words, maxGap), PartInClip(clip, w);
    if Changes(clip, kept) {
      ChangedWasCut(clip, silences, pad, words, maxGap);
      StartIsKept(clip, silences, pad, words, maxGap, w);
      var m :| m in kept && Contains(m, SourceRange(part.start, part.start + MIN_RANGE_S));
      if m.end != clip.sourceEnd { EndsAreSpots(clip, silences, pad, words, maxGap, m); }
      if m.start != clip.sourceStart { StartsAreSpots(clip, silences, pad, words, maxGap, m); }
      PrintedHas(clip, kept, m);
      assert Contains(PrintedRange(m), part);
    } else {
      assert Contains(Printed(clip, kept)[0], part);
    }
  }

  // ---------------------------------------------------------------- and needed

  /** Silences that cut something, when anything can be cut. */
  lemma SilencesForACut(clip: SelectedClip, pad: real, words: seq<WhisperWord>, maxGap: real)
    returns (silences: seq<SilenceRange>, r: SourceRange)
    requires pad >= 0.0 && CanBeCut(clip, pad, words, maxGap)
    ensures r in RawCuts(clip, silences, pad, words, maxGap)
    ensures clip.sourceStart <= r.start && r.end <= clip.sourceEnd && r.end - r.start >= MIN_RANGE_S
  {
    hide RawCuts, FreeOfWords, GapCutsOf;
    var gaps := GapCutsOf(clip, words, pad, maxGap);
    if gaps != [] {
      silences, r := [], gaps[0];
      NoSilencesRaw(clip, pad, words, maxGap);
    } else {
      var t :| FreeFrom(clip, words, t);
      silences := SilencesThatCut(clip, pad, words, maxGap, t);
      r := SourceRange(t, t + MIN_RANGE_S);
    }
    RawCutsInClip(clip, silences, pad, words, maxGap);
  }

  /** Once `r` is cut, a shown range that holds the part is the print of a kept range on one side of the cut. */
  lemma ShownBesideCut(clip: SelectedClip, silences: seq<SilenceRange>, pad: real, words: seq<WhisperWord>,
                       maxGap: real, w: WhisperWord, r: SourceRange) returns (k: SourceRange)
    requires clip.sourceStart < clip.sourceEnd && pad >= 0.0 && w in words && IsShown(clip, w)
    requires r in RawCuts(clip, silences, pad, words, maxGap)
    requires AlwaysShowsWords(clip, pad, words, maxGap)
    ensures k in Kept(clip, silences, pad, words, maxGap) && Avoids(r, k.start, k.end)
    ensures clip.sourceStart <= k.start && k.end <= clip.sourceEnd
    ensures Millis(k.start) <= PartInClip(clip, w).start && PartInClip(clip, w).end <= Millis(k.end)
  {
    hide Kept, Usable, Changes, Millis, RawCuts, PartInClip;
    var kept, part := Kept(clip, silences, pad, words, maxGap), PartInClip(clip, w);
    StartIsKept(clip, silences, pad, words, maxGap, w);
    var m :| m in kept && Contains(m, SourceRange(part.start, part.start + MIN_RANGE_S));
    RawCutsInClip(clip, silences, pad, words, maxGap);
    KeptAvoidsRaw(clip, silences, pad, words, maxGap, r, m);
    CutClipChanges(clip, kept, m, r);
    assert KeepsWords(Printed(clip, kept), clip, words) && Hosts(Printed(clip, kept), part);
    var q :| q in Printed(clip, kept) && Contains(q, part);
    var i :| 0 <= i < |kept| && Printed(clip, kept)[i] == q;
    k := kept[i];
    KeptAvoidsRaw(clip, silences, pad, words, maxGap, r, k);
    KeptLiesInClip(clip, silences, pad, words, maxGap);
  }

  lemma EndsMustPrintAfter(clip: SelectedClip, pad: real, words: seq<WhisperWord>, maxGap: real, w: WhisperWord)
    requires clip.sourceStart < clip.sourceEnd && pad >= 0.0 && w in words && IsShown(clip, w)
    requires AlwaysShowsWords(clip, pad, words, maxGap)
    ensures EndsPrintAfter(clip, pad, words, maxGap, PartInClip(clip, w))
  {
    hide EndSpot, Kept, RawCuts, Usable, Millis, PartInClip, AlwaysShowsWords;
    forall t | EndSpot(clip, pad, words, maxGap, t) && PartInClip(clip, w).start < t
      ensures PartInClip(clip, w).end <= Millis(t)
    {
      var silences, r, _ := SpotsAreEnds(clip, pad, words, maxGap, t);
      var k := ShownBesideCut(clip, silences, pad, words, maxGap, w, r);
      if k.end <= t {
        MillisMonotone(k.end, t);
      } else {
        MillisClose(k.start);
        assert false;
      }
    }
  }

  lemma StartsMustPrintBefore(clip: SelectedClip, pad: real, words: seq<WhisperWord>, maxGap: real, w: WhisperWord)
    requires clip.sourceStart < clip.sourceEnd && pad >= 0.0 && w in words && IsShown(clip, w)
    requires AlwaysShowsWords(clip, pad, words, maxGap)
    ensures StartsPrintBefore(clip, pad, words, maxGap, PartInClip(clip, w))
  {
    hide StartSpot, Kept, RawCuts, Usable, Millis, PartInClip, AlwaysShowsWords;
    forall t | StartSpot(clip, pad, words, maxGap, t) && t < PartInClip(clip, w).end
      ensures Millis(t) <= PartInClip(clip, w).start
    {
      var silences, r, _ := SpotsAreStarts(clip, pad, words, maxGap, t);
      var k := ShownBesideCut(clip, silences, pad, words, maxGap, w, r);
      if t <= k.start {
        MillisMonotone(t, k.start);
      } else {
        MillisClose(k.end);
        assert false;
      }
    }
  }

  lemma ClipMustPrintAround(clip: SelectedClip, pad: real, words: seq<WhisperWord>, maxGap: real, w: WhisperWord)
    requires clip.sourceStart < clip.sourceEnd && pad >= 0.0 && w in words && IsShown(clip, w)
    requires AlwaysShowsWords(clip, pad, words, maxGap) && CanBeCut(clip, pad, words, maxGap)
    ensures ClipPrintsAround(clip, PartInClip(clip, w))
  {
    hide CanBeCut, Kept, RawCuts, Usable, Millis, PartInClip, AlwaysShowsWords;
    var silences, r := SilencesForACut(clip, pad, words, maxGap);
    var k := ShownBesideCut(clip, silences, pad, words, maxGap, w, r);
    MillisMonotone(clip.sourceStart, k.start);
    MillisMonotone(k.end, clip.sourceEnd);
  }

  /** Every word the clip shows stays whole for all silences, printing included, exactly when no end a range can
      have is printed inside it: neither an edge the silences can make nor, once anything can be cut, an end of
      the clip. Nothing is asked of the words or of the grid. */
  lemma AlwaysShowsWordsExactly(clip: SelectedClip, pad: real, words: seq<WhisperWord>, maxGap: real)
    requires clip.sourceStart < clip.sourceEnd && pad >= 0.0
    ensures AlwaysShowsWords(clip, pad, words, maxGap)
       <==> forall w :: w in words && IsShown(clip, w) ==> PrintsOutside(clip, pad, words, maxGap, w)
  {
    hide EndsPrintAfter, StartsPrintBefore, ClipPrintsAround, CanBeCut, Kept, Printed, PartInClip, Usable;
    if AlwaysShowsWords(clip, pad, words, maxGap) {
      forall w | w in words && IsShown(clip, w) ensures PrintsOutside(clip, pad, words, maxGap, w) {
        EndsMustPrintAfter(clip, pad, words, maxGap, w);
        StartsMustPrintBefore(clip, pad, words, maxGap, w);
        if CanBeCut(clip, pad, words, maxGap) { ClipMustPrintAround(clip, pad, words, maxGap, w); }
      }
    }
    if forall w :: w in words && IsShown(clip, w) ==> PrintsOutside(clip, pad, words, maxGap, w) {
      forall silences, w | w in words && IsShown(clip, w)
        ensures Hosts(Printed(clip, Kept(clip, silences, pad, words, maxGap)), PartInClip(clip, w))
      {
        WordIsShown(clip, silences, pad, words, maxGap, w);
      }
    }
  }
}
