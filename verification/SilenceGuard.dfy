/** How clear the cuts of a silence stay of the words that overlap it
    (crates/cli/src/plan_dead_air_edl_cmd.rs). The guard goes by the padded silence, so a word that
    overlaps only the padding gets none. */
module SilenceGuard {
  import opened Numbers
  import opened Strings
  import opened PlanRanges
  import opened DeadAir

  /** The padded part of the silence inside the clip. */
  function Window(clip: SelectedClip, silence: SilenceRange, pad: real): SourceRange {
    SourceRange(Max(silence.start + pad, clip.sourceStart), Min(silence.end - pad, clip.sourceEnd))
  }

  /** The word with 80 ms on each side. */
  function Guarded(w: WhisperWord): SourceRange {
    SourceRange(w.start - TRANSCRIPT_WORD_GUARD_PADDING_S, w.end + TRANSCRIPT_WORD_GUARD_PADDING_S)
  }

  predicate InSilence(w: WhisperWord, silence: SilenceRange) { Usable(w) && Overlaps(w, silence.start, silence.end) }

  /** The cuts keep 80 ms clear of every usable word that overlaps the silence. */
  ghost predicate KeepsSilenceGuard(cuts: seq<SourceRange>, silence: SilenceRange, words: seq<WhisperWord>) {
    forall r, w :: r in cuts && w in words && InSilence(w, silence) ==> Avoids(r, Guarded(w).start, Guarded(w).end)
  }

  /** From `t` on, 10 ms of the window are clear of the guards of all words in the window. */
  predicate FreeSpot(window: SourceRange, words: seq<WhisperWord>, t: real) {
    && window.start <= t && t + MIN_RANGE_S <= window.end
    && forall v | v in words :: ProtectedIn(window.start, window.end, v) ==> Avoids(Guarded(v), t, t + MIN_RANGE_S)
  }

  /** The first and the last 10 ms of the window, and the 10 ms before and after each guard. */
  function Corners(window: SourceRange, words: seq<WhisperWord>): set<real> {
    {window.start, window.end - MIN_RANGE_S} + AfterGuards(window, words) + BeforeGuards(window, words)
  }

  function AfterGuards(window: SourceRange, words: seq<WhisperWord>): set<real> {
    set v | v in words && ProtectedIn(window.start, window.end, v) :: Guarded(v).end
  }

  function BeforeGuards(window: SourceRange, words: seq<WhisperWord>): set<real> {
    set v | v in words && ProtectedIn(window.start, window.end, v) :: Guarded(v).start - MIN_RANGE_S
  }

  /** Those that are free are at least 80 ms away from every word in the silence. */
  predicate FreeCornersAreFar(window: SourceRange, silence: SilenceRange, words: seq<WhisperWord>) {
    forall w, t | w in words && t in Corners(window, words) ::
      InSilence(w, silence) && FreeSpot(window, words, t) ==> Avoids(Guarded(w), t, t + MIN_RANGE_S)
  }

  lemma FreeSpotIsCut(clip: SelectedClip, silence: SilenceRange, pad: real, words: seq<WhisperWord>, t: real)
    requires FreeSpot(Window(clip, silence, pad), words, t)
    ensures Hosts(CutsOfSilence(clip, silence, pad, words), SourceRange(t, t + MIN_RANGE_S))
  {
    var start, end := Window(clip, silence, pad).start, Window(clip, silence, pad).end;
    var guards := Guards(start, end, words);
    GuardsAre(start, end, words);
    MergedIsMerge(guards);
    GuardsFacts(start, end, words);
    MergedBounds(guards, start, end, 0.0);
    MergedProper(guards);
    forall g | g in guards ensures Avoids(g, t, t + MIN_RANGE_S) {}
    hide Guards, Merged, FreeSpot;
    forall m | m in Merged(guards) ensures Avoids(m, t, t + MIN_RANGE_S) {
      if m.start < m.end { MergeAvoids(guards, m, t, t + MIN_RANGE_S); }
      else { assert Covers(Merged(guards), m.start); }
    }
    FreeStretchSurvives(start, end, Merged(guards), t, t + MIN_RANGE_S);
  }

  /** Every guard of a window is the part in it of a guarded word. */
  lemma {:induction false} GuardsAre(start: real, end: real, words: seq<WhisperWord>)
    ensures forall g :: g in Guards(start, end, words) ==>
      exists w :: w in words && ProtectedIn(start, end, w) && g == Guard(start, end, w)
  {
    if words == [] {
    } else {
      GuardsAre(start, end, words[1..]);
      forall g | g in Guards(start, end, words)
        ensures exists w :: w in words && ProtectedIn(start, end, w) && g == Guard(start, end, w)
      {
        if g in Guards(start, end, words[1..]) {
          var w :| w in words[1..] && ProtectedIn(start, end, w) && g == Guard(start, end, w);
          assert w in words;
        } else {
          assert words[0] in words;
        }
      }
    }
  }

  /** A cut of a window starts at the window's start or after a guard and ends likewise. */
  lemma CutsEndAtCorners(window: SourceRange, words: seq<WhisperWord>, r: SourceRange)
    requires window.start < window.end && r in WindowCuts(window.start, window.end, words)
    ensures r.start in Corners(window, words) && r.end - MIN_RANGE_S in Corners(window, words)
  {
    var guards := Guards(window.start, window.end, words);
    WindowCutsKeepGuard(window.start, window.end, words);
    UncoveredEdges(window.start, window.end, Merged(guards));
    hide Merged, Uncovered, Guards, ProtectedIn;
    if r.start != window.start {
      var c :| c in Merged(guards) && r.start == c.end;
      var v := GuardEnding(window, words, c);
    }
    if r.end != window.end {
      var c :| c in Merged(guards) && r.end == c.start;
      var v := GuardStarting(window, words, c);
    }
  }

  /** A merged guard that ends before the window does ends where a word's guard does. */
  lemma GuardEnding(window: SourceRange, words: seq<WhisperWord>, c: SourceRange) returns (v: WhisperWord)
    requires c in Merged(Guards(window.start, window.end, words)) && c.end < window.end
    ensures v in words && ProtectedIn(window.start, window.end, v) && c.end == Guarded(v).end
  {
    hide Merged, Guards, ProtectedIn;
    var guards := Guards(window.start, window.end, words);
    MergedEndpoints(guards);
    var g :| g in guards && g.end == c.end;
    GuardsAre(window.start, window.end, words);
    v :| v in words && ProtectedIn(window.start, window.end, v) && g == Guard(window.start, window.end, v);
  }

  lemma GuardStarting(window: SourceRange, words: seq<WhisperWord>, c: SourceRange) returns (v: WhisperWord)
    requires c in Merged(Guards(window.start, window.end, words)) && window.start < c.start
    ensures v in words && ProtectedIn(window.start, window.end, v) && c.start == Guarded(v).start
  {
    hide Merged, Guards, ProtectedIn;
    var guards := Guards(window.start, window.end, words);
    MergedEndpoints(guards);
    var g :| g in guards && g.start == c.start;
    GuardsAre(window.start, window.end, words);
    v :| v in words && ProtectedIn(window.start, window.end, v) && g == Guard(window.start, window.end, v);
  }

  lemma InsideCutIsFree(window: SourceRange, words: seq<WhisperWord>, r: SourceRange, t: real)
    requires r in WindowCuts(window.start, window.end, words) && r.start <= t && t + MIN_RANGE_S <= r.end
    ensures FreeSpot(window, words, t)
  {
    hide WindowCuts, Usable;
    WindowCutsKeepGuard(window.start, window.end, words);
    forall v | v in words && ProtectedIn(window.start, window.end, v) ensures Avoids(Guarded(v), t, t + MIN_RANGE_S) {
      assert Avoids(r, v.start - TRANSCRIPT_WORD_GUARD_PADDING_S, v.end + TRANSCRIPT_WORD_GUARD_PADDING_S);
    }
  }

  /** A word that a cut comes close to lies outside the window. */
  lemma NearWordIsOutside(window: SourceRange, words: seq<WhisperWord>, r: SourceRange, w: WhisperWord)
    requires r in WindowCuts(window.start, window.end, words) && w in words && Usable(w)
    requires !Avoids(r, Guarded(w).start, Guarded(w).end)
    ensures w.end <= window.start || window.end <= w.start
    ensures window.start <= r.start && r.end <= window.end && r.end - r.start >= MIN_RANGE_S
  {
    hide WindowCuts, Usable;
    WindowCutsKeepGuard(window.start, window.end, words);
  }

  /** A cut that comes within 80 ms of a word of the silence does so with its first or its last 10 ms. */
  lemma CornerNearWord(window: SourceRange, words: seq<WhisperWord>, r: SourceRange, w: WhisperWord)
    returns (t: real)
    requires r in WindowCuts(window.start, window.end, words) && w in words && Usable(w)
    requires !Avoids(r, Guarded(w).start, Guarded(w).end)
    ensures t in Corners(window, words) && FreeSpot(window, words, t) && !Avoids(Guarded(w), t, t + MIN_RANGE_S)
  {
    UsableIsProper(w);
    hide WindowCuts, Usable, Corners, FreeSpot;
    NearWordIsOutside(window, words, r, w);
    CutsEndAtCorners(window, words, r);
    t := if w.end <= window.start then r.start else r.end - MIN_RANGE_S;
    InsideCutIsFree(window, words, r, t);
  }

  /** The cuts of a silence keep 80 ms clear of every word that overlaps it exactly when, of the 10 ms at either
      end of the padded part and beside each guard in it, those that are free are that far from them. */
  lemma SilenceGuardExactly(clip: SelectedClip, silence: SilenceRange, pad: real, words: seq<WhisperWord>)
    ensures KeepsSilenceGuard(CutsOfSilence(clip, silence, pad, words), silence, words)
       <==> FreeCornersAreFar(Window(clip, silence, pad), silence, words)
  {
    var window, cuts := Window(clip, silence, pad), CutsOfSilence(clip, silence, pad, words);
    assert cuts == WindowCuts(window.start, window.end, words);
    hide Guarded, FreeSpot, Usable, WindowCuts, CutsOfSilence, Window, Corners;
    if FreeCornersAreFar(window, silence, words) {
      forall r, w | r in cuts && w in words && InSilence(w, silence)
        ensures Avoids(r, Guarded(w).start, Guarded(w).end)
      {
        if !Avoids(r, Guarded(w).start, Guarded(w).end) {
          var t := CornerNearWord(window, words, r, w);
        }
      }
    } else {
      var w, t :|
        && w in words && t in Corners(window, words) && InSilence(w, silence) && FreeSpot(window, words, t)
        && !Avoids(Guarded(w), t, t + MIN_RANGE_S);
      FreeSpotIsCut(clip, silence, pad, words, t);
      var r :| r in cuts && Contains(r, SourceRange(t, t + MIN_RANGE_S));
      assert !Avoids(r, Guarded(w).start, Guarded(w).end);
    }
  }

  /** So they do when every word that overlaps the silence overlaps its padded part in the clip, as with no
      padding and a silence inside the clip. */
  lemma SeenWordsAreGuarded(clip: SelectedClip, silence: SilenceRange, pad: real, words: seq<WhisperWord>)
    requires var window := Window(clip, silence, pad);
      forall w :: w in words && InSilence(w, silence) ==> Overlaps(w, window.start, window.end)
    ensures KeepsSilenceGuard(CutsOfSilence(clip, silence, pad, words), silence, words)
  {
    var window := Window(clip, silence, pad);
    WindowCutsKeepGuard(window.start, window.end, words);
  }

  /** Not in general: a word that runs 10 ms into a silence padded by 20 ms is followed by a cut after 10 ms. */
  lemma PaddingHidesWords()
    ensures var clip := SelectedClip("c", "a.mp4", "V1", 0, 0.0, 30.0);
      var silence, word := SilenceRange(10.0, 20.0), WhisperWord(9.5, 10.01, "so");
      && CutsOfSilence(clip, silence, 0.02, [word]) == [SourceRange(10.02, 19.98)]
      && !KeepsSilenceGuard(CutsOfSilence(clip, silence, 0.02, [word]), silence, [word])
  {
    var clip := SelectedClip("c", "a.mp4", "V1", 0, 0.0, 30.0);
    var silence, word := SilenceRange(10.0, 20.0), WhisperWord(9.5, 10.01, "so");
    assert Guards(10.02, 19.98, [word]) == [];
    assert Merged([]) == [];
    var cuts := CutsOfSilence(clip, silence, 0.02, [word]);
    assert cuts == [SourceRange(10.02, 19.98)];
    LetterIsNotBlank(word.text);
    assert cuts[0] in cuts && word in [word] && InSilence(word, silence);
  }
}
