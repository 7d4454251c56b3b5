/** Which instants the dead-air planner cuts and keeps, said of the silences and the words themselves
    (crates/cli/src/plan_dead_air_edl_cmd.rs, crates/cli/src/plan_ranges.rs). */
module DeadAirCover {
  import opened Numbers
  import opened Sequences
  import opened Strings
  import opened PlanRanges
  import opened DeadAir
  import opened SilenceGuard

  // ---------------------------------------------------------------- what should be cut

  predicate Spoken(w: WhisperWord) { w.start < w.end && !Blank(w.text) }

  /** The 10 ms from `t` on lie in the clip and in the silence less its padding, and 80 ms away from every word
      spoken there. */
  predicate SilentFrom(clip: SelectedClip, s: SilenceRange, pad: real, words: seq<WhisperWord>, t: real) {
    var a := if clip.sourceStart < s.start + pad then s.start + pad else clip.sourceStart;
    var b := if s.end - pad < clip.sourceEnd then s.end - pad else clip.sourceEnd;
    && a <= t && t + 0.010 <= b
    && forall w | w in words && Spoken(w) && a < w.end && w.start < b ::
         t + 0.010 <= w.start - 0.080 || w.end + 0.080 <= t
  }

  predicate SpokenInClip(clip: SelectedClip, w: WhisperWord) {
    Spoken(w) && clip.sourceStart < w.end && w.start < clip.sourceEnd
  }

  /** Of the words spoken in the clip none starts between these two, and of those that start with the first it
      is the last listed. */
  predicate Neighbours(clip: SelectedClip, words: seq<WhisperWord>, i: nat, j: nat)
    requires i < |words| && j < |words|
  {
    && SpokenInClip(clip, words[i]) && SpokenInClip(clip, words[j]) && words[i].start < words[j].start
    && forall k | 0 <= k < |words| && SpokenInClip(clip, words[k]) ::
         (words[k].start <= words[i].start || words[j].start <= words[k].start)
         && (words[k].start == words[i].start ==> k <= i)
  }

  /** The pause between these words is longer than the limit, and `x` lies in it, 80 ms and the padding away from
      either, where that leaves 10 ms. */
  predicate PauseHolds(clip: SelectedClip, words: seq<WhisperWord>, pad: real, maxGap: real, i: nat, j: nat, x: real)
    requires i < |words| && j < |words|
  {
    && Neighbours(clip, words, i, j) && words[j].start - words[i].end > maxGap
    && words[j].start - words[i].end >= 0.170 + 2.0 * pad
    && words[i].end + 0.080 + pad <= x <= words[j].start - 0.080 - pad
  }

  ghost predicate InSilence(clip: SelectedClip, silences: seq<SilenceRange>, pad: real, words: seq<WhisperWord>,
                            x: real) {
    exists s, t :: s in silences && SilentFrom(clip, s, pad, words, t) && t <= x <= t + 0.010
  }

  ghost predicate InPause(clip: SelectedClip, words: seq<WhisperWord>, pad: real, maxGap: real, x: real) {
    exists i: nat, j: nat :: i < |words| && j < |words| && PauseHolds(clip, words, pad, maxGap, i, j, x)
  }

  ghost predicate Dead(clip: SelectedClip, silences: seq<SilenceRange>, pad: real, words: seq<WhisperWord>,
                       maxGap: real, x: real) {
    InSilence(clip, silences, pad, words, x) || InPause(clip, words, pad, maxGap, x)
  }

  // ---------------------------------------------------------------- silences

  lemma FreeSpotIsSilent(clip: SelectedClip, s: SilenceRange, pad: real, words: seq<WhisperWord>, t: real)
    ensures FreeSpot(Window(clip, s, pad), words, t) <==> SilentFrom(clip, s, pad, words, t)
  {
    hide Blank;
  }

  /** An instant of a silence is cut exactly when 10 silent milliseconds hold it. */
  lemma SilenceCutsExactly(clip: SelectedClip, s: SilenceRange, pad: real, words: seq<WhisperWord>, x: real)
    ensures Covers(CutsOfSilence(clip, s, pad, words), x) <==>
      exists t :: SilentFrom(clip, s, pad, words, t) && t <= x <= t + 0.010
  {
    hide WindowCuts, SilentFrom, FreeSpot;
    var window, cuts := Window(clip, s, pad), CutsOfSilence(clip, s, pad, words);
    if Covers(cuts, x) {
      var r :| r in cuts && r.start <= x <= r.end;
      SilenceCutsAreLong(clip, s, pad, words, r);
      var t := if x + MIN_RANGE_S <= r.end then x else r.end - MIN_RANGE_S;
      InsideCutIsFree(window, words, r, t);
      FreeSpotIsSilent(clip, s, pad, words, t);
    }
    forall t | SilentFrom(clip, s, pad, words, t) && t <= x <= t + 0.010 ensures Covers(cuts, x) {
      FreeSpotIsSilent(clip, s, pad, words, t);
      FreeSpotIsCut(clip, s, pad, words, t);
    }
  }

  lemma SilenceCutsAreLong(clip: SelectedClip, s: SilenceRange, pad: real, words: seq<WhisperWord>, r: SourceRange)
    requires r in CutsOfSilence(clip, s, pad, words)
    ensures r.end - r.start >= MIN_RANGE_S
  {
    hide WindowCuts;
    var window := Window(clip, s, pad);
    WindowCutsKeepGuard(window.start, window.end, words);
  }

  lemma CoversConcat(rs: seq<SourceRange>, ss: seq<SourceRange>, x: real)
    ensures Covers(rs + ss, x) <==> Covers(rs, x) || Covers(ss, x)
  {
    forall r | r in rs ensures r in rs + ss {}
    forall r | r in ss ensures r in rs + ss {}
  }

  lemma {:induction false} SilencesCutExactly(clip: SelectedClip, silences: seq<SilenceRange>, pad: real,
                                              words: seq<WhisperWord>, x: real)
    ensures Covers(CutsOfSilences(clip, silences, pad, words), x) <==> InSilence(clip, silences, pad, words, x)
  {
    hide CutsOfSilence, SilentFrom, Covers;
    if silences == [] {
      assert !Covers([], x) by { NothingCovers(x); }
    } else {
      var front, last := silences[..|silences|-1], silences[|silences|-1];
      assert silences == front + [last];
      SilencesCutExactly(clip, front, pad, words, x);
      SilenceCutsExactly(clip, last, pad, words, x);
      CoversConcat(CutsOfSilences(clip, front, pad, words), CutsOfSilence(clip, last, pad, words), x);
      OneMoreSilence(clip, front, last, pad, words, x);
    }
  }

  lemma NothingCovers(x: real)
    ensures !Covers([], x)
  {}

  lemma OneMoreSilence(clip: SelectedClip, front: seq<SilenceRange>, last: SilenceRange, pad: real,
                       words: seq<WhisperWord>, x: real)
    ensures InSilence(clip, front + [last], pad, words, x) <==>
      InSilence(clip, front, pad, words, x)
      || exists t :: SilentFrom(clip, last, pad, words, t) && t <= x <= t + 0.010
  {
    hide SilentFrom;
    assert forall s :: s in front + [last] <==> s in front || s == last;
  }

  // ---------------------------------------------------------------- pauses

  /** The words that start when `w` does, of those spoken in the clip. */
  function StartsWith(clip: SelectedClip, w: WhisperWord): WhisperWord -> bool {
    (v: WhisperWord) => SpokenInClip(clip, v) && v.start == w.start
  }

  /** Sorting leaves the words that start together as they were listed. */
  lemma TiedWordsKeepOrder(clip: SelectedClip, words: seq<WhisperWord>, w: WhisperWord)
    ensures Filter(WordsInClip(clip, words), StartsWith(clip, w)) == Filter(words, StartsWith(clip, w))
  {
    var p := (v: WhisperWord) => Usable(v) && Overlaps(v, clip.sourceStart, clip.sourceEnd);
    SortIsStable(Filter(words, p), WordStartsNoLater, StartsWith(clip, w));
    FilterTwice(words, p, StartsWith(clip, w), StartsWith(clip, w));
    hide Blank, Filter, SortBy;
  }

  /** A word of the sorted list whose successor starts later is the last listed of its start. */
  lemma LastOfItsStart(clip: SelectedClip, words: seq<WhisperWord>, k: nat) returns (i: nat)
    requires k + 1 < |WordsInClip(clip, words)|
    requires WordsInClip(clip, words)[k].start < WordsInClip(clip, words)[k+1].start
    ensures i < |words| && words[i] == WordsInClip(clip, words)[k]
    ensures forall m :: i < m < |words| && SpokenInClip(clip, words[m]) ==> words[m].start != words[i].start
  {
    var inClip := WordsInClip(clip, words);
    var w, p := inClip[k], StartsWith(clip, inClip[k]);
    WordsInClipFacts(clip, words);
    hide WordsInClip, Blank, Filter;
    assert w in inClip && p(w);
    TiedWordsKeepOrder(clip, words, w);
    var last := LastPlace(inClip, p);
    forall m | k < m < |inClip| ensures !p(inClip[m]) {
      assert m > k + 1 ==> WordStartsNoLater(inClip[k+1], inClip[m]);
    }
    assert last == k;
    i := LastPlace(words, p);
  }

  lemma SortedNeighbours(clip: SelectedClip, words: seq<WhisperWord>, k: nat) returns (i: nat, j: nat)
    requires k + 1 < |WordsInClip(clip, words)|
    requires WordsInClip(clip, words)[k].start < WordsInClip(clip, words)[k+1].start
    ensures i < |words| && j < |words| && Neighbours(clip, words, i, j)
    ensures words[i] == WordsInClip(clip, words)[k] && words[j] == WordsInClip(clip, words)[k+1]
  {
    hide WordsInClip, Blank;
    var inClip := WordsInClip(clip, words);
    i := LastOfItsStart(clip, words, k);
    WordsInClipFacts(clip, words);
    assert inClip[k+1] in inClip && inClip[k] in inClip;
    j :| 0 <= j < |words| && words[j] == inClip[k+1];
    forall m | 0 <= m < |words| && SpokenInClip(clip, words[m])
      ensures words[m].start <= words[i].start || words[j].start <= words[m].start
    {
      assert words[m] in inClip;
      var n :| 0 <= n < |inClip| && inClip[n] == words[m];
      if n < k { assert WordStartsNoLater(inClip[n], inClip[k]); }
      if n > k + 1 { assert WordStartsNoLater(inClip[k+1], inClip[n]); }
    }
  }

  /** The last listed word of a start is the last of that start in the sorted list. */
  lemma LastInOrder(clip: SelectedClip, words: seq<WhisperWord>, i: nat) returns (k: nat)
    requires i < |words| && SpokenInClip(clip, words[i])
    requires forall m :: i < m < |words| && SpokenInClip(clip, words[m]) ==> words[m].start != words[i].start
    ensures k < |WordsInClip(clip, words)| && WordsInClip(clip, words)[k] == words[i]
    ensures forall m :: k < m < |WordsInClip(clip, words)| ==> WordsInClip(clip, words)[m].start != words[i].start
  {
    hide WordsInClip, Blank, Filter;
    var inClip, p := WordsInClip(clip, words), StartsWith(clip, words[i]);
    WordsInClipFacts(clip, words);
    TiedWordsKeepOrder(clip, words, words[i]);
    assert words[i] in words && p(words[i]);
    var last := LastPlace(words, p);
    assert words[i] in inClip;
    k := LastPlace(inClip, p);
    forall m | k < m < |inClip| ensures inClip[m].start != words[i].start { assert inClip[m] in inClip; }
  }

  /** In a sorted list, the word after place `k` starts first of those that start later. */
  lemma NextStart(sorted: seq<WhisperWord>, k: nat, w: WhisperWord)
    requires SortedBy(sorted, WordStartsNoLater) && k < |sorted| && w in sorted && sorted[k].start < w.start
    requires forall m :: k < m < |sorted| ==> sorted[m].start != sorted[k].start
    ensures k + 1 < |sorted| && sorted[k].start < sorted[k+1].start <= w.start
  {
    var n :| 0 <= n < |sorted| && sorted[n] == w;
    assert n < k ==> WordStartsNoLater(sorted[n], sorted[k]);
    assert k + 1 < n ==> WordStartsNoLater(sorted[k+1], sorted[n]);
    assert WordStartsNoLater(sorted[k], sorted[k+1]);
  }

  lemma NeighboursSorted(clip: SelectedClip, words: seq<WhisperWord>, i: nat, j: nat) returns (k: nat)
    requires i < |words| && j < |words| && Neighbours(clip, words, i, j)
    ensures k + 1 < |WordsInClip(clip, words)|
    ensures WordsInClip(clip, words)[k] == words[i] && WordsInClip(clip, words)[k+1].start == words[j].start
  {
    hide WordsInClip, Blank;
    var inClip := WordsInClip(clip, words);
    WordsInClipFacts(clip, words);
    k := LastInOrder(clip, words, i);
    assert words[j] in words;
    NextStart(inClip, k, words[j]);
    assert inClip[k+1] in inClip;
    var m :| 0 <= m < |words| && words[m] == inClip[k+1];
  }

  lemma CutPauseIsPause(clip: SelectedClip, words: seq<WhisperWord>, pad: real, maxGap: real, k: nat, x: real)
    requires pad >= 0.0 && k + 1 < |WordsInClip(clip, words)|
    requires GapIsCut(WordsInClip(clip, words)[k], WordsInClip(clip, words)[k+1], pad, maxGap)
    requires GapCut(WordsInClip(clip, words), k, pad).start <= x <= GapCut(WordsInClip(clip, words), k, pad).end
    ensures InPause(clip, words, pad, maxGap, x)
  {
    hide WordsInClip, Neighbours, Blank;
    WordsInClipFacts(clip, words);
    assert WordsInClip(clip, words)[k] in WordsInClip(clip, words);
    var i, j := SortedNeighbours(clip, words, k);
    assert PauseHolds(clip, words, pad, maxGap, i, j, x);
  }

  lemma PauseIsCut(clip: SelectedClip, words: seq<WhisperWord>, pad: real, maxGap: real, i: nat, j: nat, x: real)
    requires i < |words| && j < |words| && PauseHolds(clip, words, pad, maxGap, i, j, x)
    ensures Covers(GapCutsOf(clip, words, pad, maxGap), x)
  {
    hide WordsInClip, Neighbours, GapCuts;
    var k := NeighboursSorted(clip, words, i, j);
    var inClip := WordsInClip(clip, words);
    GapCutPresent(inClip, Pairs(inClip), pad, maxGap, k);
    assert GapCut(inClip, k, pad) in GapCutsOf(clip, words, pad, maxGap);
  }

  /** An instant is in a pause cut exactly when it lies in a long pause, 80 ms and the padding from its words. */
  lemma PausesCutExactly(clip: SelectedClip, words: seq<WhisperWord>, pad: real, maxGap: real, x: real)
    requires pad >= 0.0
    ensures Covers(GapCutsOf(clip, words, pad, maxGap), x) <==> InPause(clip, words, pad, maxGap, x)
  {
    hide WordsInClip, GapCuts, PauseHolds, GapIsCut;
    var inClip, gaps := WordsInClip(clip, words), GapCutsOf(clip, words, pad, maxGap);
    if Covers(gaps, x) {
      GapCutsAre(inClip, Pairs(inClip), pad, maxGap);
      var r :| r in gaps && r.start <= x <= r.end;
      var k: nat :| k < Pairs(inClip) && IsGapCut(inClip, k, pad, maxGap, r);
      CutPauseIsPause(clip, words, pad, maxGap, k, x);
    }
    if InPause(clip, words, pad, maxGap, x) {
      var i: nat, j: nat :| i < |words| && j < |words| && PauseHolds(clip, words, pad, maxGap, i, j, x);
      PauseIsCut(clip, words, pad, maxGap, i, j, x);
    }
  }

  // ---------------------------------------------------------------- the cuts and what is kept

  /** The planner cuts exactly the dead instants: those that 10 silent milliseconds of some silence hold, and
      those of the long pauses. With the gaps between cuts that merging leaves, this determines the cuts. */
  lemma CutsExactly(clip: SelectedClip, silences: seq<SilenceRange>, pad: real, words: seq<WhisperWord>, maxGap: real,
                    x: real)
    requires pad >= 0.0
    ensures Covers(Cuts(clip, silences, pad, words, maxGap), x) <==> Dead(clip, silences, pad, words, maxGap, x)
    ensures Separated(Cuts(clip, silences, pad, words, maxGap))
  {
    hide CutsOfSilences, GapCutsOf, Merged, InSilence, InPause, Covers;
    MergedIsMerge(RawCuts(clip, silences, pad, words, maxGap));
    CoversConcat(CutsOfSilences(clip, silences, pad, words), GapCutsOf(clip, words, pad, maxGap), x);
    SilencesCutExactly(clip, silences, pad, words, x);
    PausesCutExactly(clip, words, pad, maxGap, x);
  }

  /** The 10 ms from `t` on lie in the clip and hold no dead instant. */
  ghost predicate AliveFrom(clip: SelectedClip, silences: seq<SilenceRange>, pad: real, words: seq<WhisperWord>,
                            maxGap: real, t: real) {
    && clip.sourceStart <= t && t + 0.010 <= clip.sourceEnd
    && forall y :: t < y < t + 0.010 ==> !Dead(clip, silences, pad, words, maxGap, y)
  }

  ghost predicate AnyDead(clip: SelectedClip, silences: seq<SilenceRange>, pad: real, words: seq<WhisperWord>,
                          maxGap: real) {
    exists y :: Dead(clip, silences, pad, words, maxGap, y)
  }

  /** Of a clip with a dead instant an instant is kept exactly when 10 ms without dead ones hold it; any other
      clip is kept as it is. */
  lemma KeepsExactly(clip: SelectedClip, silences: seq<SilenceRange>, pad: real, words: seq<WhisperWord>, maxGap: real,
                     x: real)
    requires clip.sourceStart < clip.sourceEnd && pad >= 0.0
    ensures !AnyDead(clip, silences, pad, words, maxGap) ==>
      Kept(clip, silences, pad, words, maxGap) == [SourceRange(clip.sourceStart, clip.sourceEnd)]
    ensures AnyDead(clip, silences, pad, words, maxGap) ==>
      (Covers(Kept(clip, silences, pad, words, maxGap), x) <==>
         exists t :: AliveFrom(clip, silences, pad, words, maxGap, t) && t <= x <= t + 0.010)
  {
    hide Cuts, RawCuts, KeptRanges, Dead, FreeFrom, AliveFrom;
    var cuts := Cuts(clip, silences, pad, words, maxGap);
    RawCutsInClip(clip, silences, pad, words, maxGap);
    KeptExactly(clip, cuts, x);
    AnyDeadExactly(clip, silences, pad, words, maxGap);
    forall t ensures FreeFrom(clip, cuts, t) <==> AliveFrom(clip, silences, pad, words, maxGap, t) {
      FreeIsAlive(clip, silences, pad, words, maxGap, t);
    }
  }

  lemma AnyDeadExactly(
      clip: SelectedClip, silences: seq<SilenceRange>, pad: real, words: seq<WhisperWord>, maxGap: real)
    requires pad >= 0.0
    ensures AnyDead(clip, silences, pad, words, maxGap) <==> Cuts(clip, silences, pad, words, maxGap) != []
  {
    hide Cuts, RawCuts, Dead;
    var cuts := Cuts(clip, silences, pad, words, maxGap);
    RawCutsInClip(clip, silences, pad, words, maxGap);
    if cuts != [] {
      assert cuts[0] in cuts && Covers(cuts, cuts[0].start);
      CutsExactly(clip, silences, pad, words, maxGap, cuts[0].start);
    }
    forall y | Dead(clip, silences, pad, words, maxGap, y) ensures cuts != [] {
      CutsExactly(clip, silences, pad, words, maxGap, y);
    }
  }

  lemma FreeIsAlive(clip: SelectedClip, silences: seq<SilenceRange>, pad: real, words: seq<WhisperWord>, maxGap: real,
                    t: real)
    requires pad >= 0.0
    ensures FreeFrom(clip, Cuts(clip, silences, pad, words, maxGap), t) <==>
      AliveFrom(clip, silences, pad, words, maxGap, t)
  {
    hide Cuts, RawCuts, Dead;
    var cuts := Cuts(clip, silences, pad, words, maxGap);
    RawCutsInClip(clip, silences, pad, words, maxGap);
    forall y ensures Covers(cuts, y) <==> Dead(clip, silences, pad, words, maxGap, y) {
      CutsExactly(clip, silences, pad, words, maxGap, y);
    }
    if AliveFrom(clip, silences, pad, words, maxGap, t) {
      forall r | r in cuts ensures r.end <= t || t + 0.010 <= r.start {
        var y := (Max(r.start, t) + Min(r.end, t + 0.010)) / 2.0;
        if r.start <= y <= r.end { assert Covers(cuts, y); }
      }
    }
  }
}
