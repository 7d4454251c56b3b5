/** The dead-air planner's cut selection (crates/cli/src/plan_dead_air_edl_cmd.rs) and the
    mid-sentence rule of the continuity engine (crates/core/src/continuity.rs). */
module DeadAir {
  import opened Numbers
  import opened Sequences
  import opened Strings
  import opened PlanRanges

  const TRANSCRIPT_WORD_GUARD_PADDING_S: real := 0.080

  datatype WhisperWord = WhisperWord(start: real, end: real, text: string)
  datatype SilenceRange = SilenceRange(start: real, end: real)

  predicate Usable(w: WhisperWord) { !Blank(w.text) && w.start < w.end }

  lemma UsableIsProper(w: WhisperWord)
    requires Usable(w)
    ensures w.start < w.end
  {}

  /** The part of the open window `(start, end)` is touched by the word. */
  predicate Overlaps(w: WhisperWord, start: real, end: real) { w.end > start && w.start < end }

  // ---------------------------------------------------------------- silence cuts

  predicate ProtectedIn(start: real, end: real, w: WhisperWord) { Usable(w) && Overlaps(w, start, end) }

  function Guard(start: real, end: real, w: WhisperWord): SourceRange {
    SourceRange(Max(w.start - TRANSCRIPT_WORD_GUARD_PADDING_S, start),
                Min(w.end + TRANSCRIPT_WORD_GUARD_PADDING_S, end))
  }

  function Guards(start: real, end: real, words: seq<WhisperWord>): seq<SourceRange> {
    if words == [] then []
    else
      (if ProtectedIn(start, end, words[0]) then [Guard(start, end, words[0])] else []) +
      Guards(start, end, words[1..])
  }

  /** `transcript_word_protected_ranges` */
  function WordProtectedRanges(start: real, end: real, words: seq<WhisperWord>): seq<SourceRange> {
    Merged(Guards(start, end, words))
  }

  /** The cuts of one window: what its guarded words leave free. */
  function WindowCuts(start: real, end: real, words: seq<WhisperWord>): seq<SourceRange> {
    Uncovered(start, end, WordProtectedRanges(start, end, words))
  }

  method AppendTranscriptSafeSilenceCuts(cuts: seq<SourceRange>, start: real, end: real, words: seq<WhisperWord>)
    returns (appended: seq<SourceRange>)
    ensures appended == cuts + WindowCuts(start, end, words)
  {
    hide WordProtectedRanges, Uncovered, NonEmpty;
    var blocked := WordProtectedRanges(start, end, words);
    var cursor := start;
    appended := cuts;
    for i := 0 to |blocked|
      invariant appended + Uncovered(cursor, end, blocked[i..]) == cuts + Uncovered(start, end, blocked)
    {
      UncoveredStep(cursor, end, blocked, i);
      appended := PushNonEmptyRange(appended, cursor, blocked[i].start);
      cursor := Max(cursor, blocked[i].end);
    }
    UncoveredStep(cursor, end, blocked, |blocked|);
    appended := PushNonEmptyRange(appended, cursor, end);
  }

  /** The cuts one silence gives: its padded part inside the clip, minus the guarded words. */
  function CutsOfSilence(clip: SelectedClip, silence: SilenceRange, pad: real,
                         words: seq<WhisperWord>): seq<SourceRange> {
    var start := Max(silence.start + pad, clip.sourceStart);
    var end := Min(silence.end - pad, clip.sourceEnd);
    WindowCuts(start, end, words)
  }

  function CutsOfSilences(clip: SelectedClip, silences: seq<SilenceRange>, pad: real,
                          words: seq<WhisperWord>): seq<SourceRange> {
    if silences == [] then []
    else
      CutsOfSilences(clip, silences[..|silences|-1], pad, words) +
      CutsOfSilence(clip, silences[|silences|-1], pad, words)
  }

  // ---------------------------------------------------------------- transcript-gap cuts

  predicate WordStartsNoLater(a: WhisperWord, b: WhisperWord) { a.start <= b.start }

  /** `transcript_words_in_clip` */
  function WordsInClip(clip: SelectedClip, words: seq<WhisperWord>): seq<WhisperWord> {
    SortBy(Filter(words, (w: WhisperWord) => Usable(w) && Overlaps(w, clip.sourceStart, clip.sourceEnd)),
           WordStartsNoLater)
  }

  function GapCutStart(left: WhisperWord, pad: real): real { left.end + TRANSCRIPT_WORD_GUARD_PADDING_S + pad }
  function GapCutEnd(right: WhisperWord, pad: real): real { right.start - TRANSCRIPT_WORD_GUARD_PADDING_S - pad }

  /** The pause between these neighbours is cut. */
  predicate GapIsCut(left: WhisperWord, right: WhisperWord, pad: real, maxGap: real) {
    && right.start - left.end > maxGap
    && GapCutEnd(right, pad) - GapCutStart(left, pad) >= MIN_RANGE_S
  }

  /** Cuts of the first `n` neighbouring pairs of the sorted words. */
  function GapCuts(words: seq<WhisperWord>, n: nat, pad: real, maxGap: real): seq<SourceRange>
    requires n == 0 || n < |words|
  {
    if n == 0 then []
    else
      GapCuts(words, n-1, pad, maxGap) +
      (if GapIsCut(words[n-1], words[n], pad, maxGap)
       then [SourceRange(GapCutStart(words[n-1], pad), GapCutEnd(words[n], pad))] else [])
  }

  function Pairs<T>(xs: seq<T>): nat { if xs == [] then 0 else |xs| - 1 }

  function GapCutsOf(clip: SelectedClip, words: seq<WhisperWord>, pad: real, maxGap: real): seq<SourceRange> {
    var inClip := WordsInClip(clip, words);
    GapCuts(inClip, Pairs(inClip), pad, maxGap)
  }

  method TranscriptGapCuts(clip: SelectedClip, transcriptWords: seq<WhisperWord>, pad: real, maxGap: real)
    returns (cuts: seq<SourceRange>)
    ensures cuts == GapCutsOf(clip, transcriptWords, pad, maxGap)
  {
    hide WordsInClip;
    var words := WordsInClip(clip, transcriptWords);
    cuts := [];
    for i := 0 to Pairs(words)
      invariant cuts == GapCuts(words, i, pad, maxGap)
    {
      var left, right := words[i], words[i+1];
      var gap := right.start - left.end;
      if gap <= maxGap { continue; }
      cuts := PushNonEmptyRange(cuts, GapCutStart(left, pad), GapCutEnd(right, pad));
    }
  }

  // ---------------------------------------------------------------- dead_air_cuts

  function RawCuts(clip: SelectedClip, silences: seq<SilenceRange>, pad: real, transcriptWords: seq<WhisperWord>,
                   maxGap: real): seq<SourceRange> {
    CutsOfSilences(clip, silences, pad, transcriptWords) + GapCutsOf(clip, transcriptWords, pad, maxGap)
  }

  function Cuts(clip: SelectedClip, silences: seq<SilenceRange>, pad: real, transcriptWords: seq<WhisperWord>,
                maxGap: real): seq<SourceRange> {
    Merged(RawCuts(clip, silences, pad, transcriptWords, maxGap))
  }

  method DeadAirCuts(clip: SelectedClip, silences: seq<SilenceRange>, pad: real, transcriptWords: seq<WhisperWord>,
                     maxGap: real) returns (cuts: seq<SourceRange>)
    ensures cuts == Cuts(clip, silences, pad, transcriptWords, maxGap)
  {
    hide WindowCuts, GapCutsOf, Merged;
    cuts := [];
    for i := 0 to |silences|
      invariant cuts == CutsOfSilences(clip, silences[..i], pad, transcriptWords)
    {
      assert silences[..i+1][..i] == silences[..i];
      var start := Max(silences[i].start + pad, clip.sourceStart);
      var end := Min(silences[i].end - pad, clip.sourceEnd);
      cuts := AppendTranscriptSafeSilenceCuts(cuts, start, end, transcriptWords);
    }
    assert silences[..|silences|] == silences;
    var gaps := TranscriptGapCuts(clip, transcriptWords, pad, maxGap);
    cuts := MergeRanges(cuts + gaps);
  }

  // ---------------------------------------------------------------- silence cuts spare words

  lemma {:induction false} GuardsFacts(start: real, end: real, words: seq<WhisperWord>)
    requires start < end
    ensures Proper(Guards(start, end, words))
    ensures LongWithin(Guards(start, end, words), start, end, 0.0)
    ensures forall w :: w in words && ProtectedIn(start, end, w) ==> Guard(start, end, w) in Guards(start, end, words)
  {
    if words == [] {
    } else {
      GuardsFacts(start, end, words[1..]);
    }
  }

  /** A window with no room gives no cut, even when a word spans it. */
  lemma EmptyWindowGivesNothing(lo: real, hi: real, words: seq<WhisperWord>)
    requires hi <= lo
    ensures Uncovered(lo, hi, WordProtectedRanges(lo, hi, words)) == []
  {
    GuardsCollapse(lo, hi, words);
    var guards := Guards(lo, hi, words);
    SameElements(guards, SortBy(guards, StartsNoLater));
    CollapsedMerge(lo, SortBy(guards, StartsNoLater));
    CollapsedUncovered(lo, hi, Merged(guards));
  }

  /** All of these start at `t` and none reaches past it. */
  ghost predicate CollapsedAt(rs: seq<SourceRange>, t: real) { forall r :: r in rs ==> r.start == t && r.end <= t }

  lemma {:induction false} GuardsCollapse(lo: real, hi: real, words: seq<WhisperWord>)
    requires hi <= lo
    ensures CollapsedAt(Guards(lo, hi, words), lo)
  {
    if words == [] {
    } else {
      GuardsCollapse(lo, hi, words[1..]);
    }
  }

  lemma {:induction false} CollapsedMerge(t: real, rs: seq<SourceRange>)
    requires CollapsedAt(rs, t)
    ensures CollapsedAt(MergeSorted(rs), t)
  {
    if rs == [] {
    } else {
      CollapsedMerge(t, rs[..|rs|-1]);
    }
  }

  lemma {:induction false} CollapsedUncovered(lo: real, hi: real, blocked: seq<SourceRange>)
    requires hi <= lo && CollapsedAt(blocked, lo)
    ensures Uncovered(lo, hi, blocked) == []
  {
    if blocked == [] {
    } else {
      assert blocked[0] in blocked;
      assert Max(lo, blocked[0].end) == lo;
      CollapsedUncovered(lo, hi, blocked[1..]);
    }
  }

  /** The cuts keep 80 ms clear of every usable word that overlaps the window. */
  ghost predicate KeepsGuard(cuts: seq<SourceRange>, start: real, end: real, words: seq<WhisperWord>) {
    forall r, w :: r in cuts && w in words && ProtectedIn(start, end, w) ==>
      Avoids(r, w.start - TRANSCRIPT_WORD_GUARD_PADDING_S, w.end + TRANSCRIPT_WORD_GUARD_PADDING_S)
  }

  /** Cuts of one window lie in it, are at least 10 ms long, and keep 80 ms clear of the words in it. */
  lemma WindowCutsKeepGuard(start: real, end: real, words: seq<WhisperWord>)
    ensures LongWithin(WindowCuts(start, end, words), start, end, MIN_RANGE_S)
    ensures KeepsGuard(WindowCuts(start, end, words), start, end, words)
  {
    if end <= start {
      EmptyWindowGivesNothing(start, end, words);
    } else {
      var guards := Guards(start, end, words);
      var blocked := Merged(guards);
      GuardsFacts(start, end, words);
      MergedIsMerge(guards); MergedProper(guards);
      MergedBounds(guards, start, end, 0.0);
      UncoveredIsClear(start, end, blocked);
      forall r, w | r in Uncovered(start, end, blocked) && w in words && ProtectedIn(start, end, w)
        ensures Avoids(r, w.start - TRANSCRIPT_WORD_GUARD_PADDING_S, w.end + TRANSCRIPT_WORD_GUARD_PADDING_S)
      {
        var g := Guard(start, end, w);
        assert Hosts(blocked, g);
        var m :| m in blocked && Contains(m, g);
        assert Avoids(m, r.start, r.end);
      }
    }
  }

  ghost predicate SparesWords(cuts: seq<SourceRange>, words: seq<WhisperWord>) {
    forall r, w :: r in cuts && w in words && Usable(w) ==> Avoids(r, w.start, w.end)
  }

  lemma GuardedCutsSpareWords(cuts: seq<SourceRange>, start: real, end: real, words: seq<WhisperWord>)
    requires LongWithin(cuts, start, end, MIN_RANGE_S) && KeepsGuard(cuts, start, end, words)
    ensures SparesWords(cuts, words)
  {}

  lemma SilenceCutsInClip(clip: SelectedClip, s: SilenceRange, pad: real, words: seq<WhisperWord>)
    ensures CutsOf(clip, CutsOfSilence(clip, s, pad, words))
  {
    hide WindowCuts;
    var start, end := Max(s.start + pad, clip.sourceStart), Min(s.end - pad, clip.sourceEnd);
    var cuts := CutsOfSilence(clip, s, pad, words);
    assert clip.sourceStart <= start && end <= clip.sourceEnd;
    assert LongWithin(cuts, start, end, MIN_RANGE_S) by { WindowCutsKeepGuard(start, end, words); }
    forall r | r in cuts ensures clip.sourceStart <= r.start && r.end <= clip.sourceEnd {}
  }

  lemma SilenceCutSparesWords(clip: SelectedClip, s: SilenceRange, pad: real, words: seq<WhisperWord>)
    ensures SparesWords(CutsOfSilence(clip, s, pad, words), words)
  {
    hide WindowCuts;
    var start, end := Max(s.start + pad, clip.sourceStart), Min(s.end - pad, clip.sourceEnd);
    WindowCutsKeepGuard(start, end, words);
    GuardedCutsSpareWords(CutsOfSilence(clip, s, pad, words), start, end, words);
  }

  /** Silence-derived cuts lie in the clip and never enter a usable word, overlapping words or not. */
  lemma {:induction false} SilenceCutsSpareWords(clip: SelectedClip, silences: seq<SilenceRange>, pad: real,
                                                 words: seq<WhisperWord>)
    ensures CutsOf(clip, CutsOfSilences(clip, silences, pad, words))
    ensures SparesWords(CutsOfSilences(clip, silences, pad, words), words)
  {
    if silences == [] {
    } else {
      SilenceCutsSpareWords(clip, silences[..|silences|-1], pad, words);
      SilenceCutsInClip(clip, silences[|silences|-1], pad, words);
      SilenceCutSparesWords(clip, silences[|silences|-1], pad, words);
    }
  }

  // ---------------------------------------------------------------- gap cuts and overlapping words

  /** No word reaches past the start of a pause cut that comes after it in start order. */
  ghost predicate NoWordReachesIntoGapCut(words: seq<WhisperWord>, pad: real, maxGap: real) {
    forall j: nat, k: nat :: !ReachesIntoGapCut(words, j, k, pad, maxGap)
  }

  /** The pause after word `k` is cut although the earlier word `j` is still being spoken there. */
  predicate ReachesIntoGapCut(words: seq<WhisperWord>, j: nat, k: nat, pad: real, maxGap: real) {
    && j < k && k + 1 < |words| && GapIsCut(words[k], words[k+1], pad, maxGap)
    && words[j].end > GapCutStart(words[k], pad)
  }

  ghost predicate NonOverlapping(words: seq<WhisperWord>) {
    forall i, j :: 0 <= i < |words| && 0 <= j < |words| && i != j && Usable(words[i]) && Usable(words[j]) ==>
      words[i].end <= words[j].start || words[j].end <= words[i].start
  }

  /** `inClip` holds, in start order, exactly the usable words that overlap the clip. */
  ghost predicate AreWordsInClip(inClip: seq<WhisperWord>, clip: SelectedClip, words: seq<WhisperWord>) {
    && SortedBy(inClip, WordStartsNoLater)
    && forall w :: w in inClip <==> w in words && Usable(w) && Overlaps(w, clip.sourceStart, clip.sourceEnd)
  }

  lemma WordsInClipFacts(clip: SelectedClip, words: seq<WhisperWord>)
    ensures AreWordsInClip(WordsInClip(clip, words), clip, words)
  {
    assert TotalOrder(WordStartsNoLater);
    var inClip := Filter(words, (w: WhisperWord) => Usable(w) && Overlaps(w, clip.sourceStart, clip.sourceEnd));
    SortBySorted(inClip, WordStartsNoLater);
    SameElements(inClip, SortBy(inClip, WordStartsNoLater));
  }

  function GapCut(words: seq<WhisperWord>, k: nat, pad: real): SourceRange
    requires k + 1 < |words|
  {
    SourceRange(GapCutStart(words[k], pad), GapCutEnd(words[k+1], pad))
  }

  ghost predicate IsGapCut(words: seq<WhisperWord>, k: nat, pad: real, maxGap: real, r: SourceRange) {
    k + 1 < |words| && GapIsCut(words[k], words[k+1], pad, maxGap) && r == GapCut(words, k, pad)
  }

  lemma {:induction false} GapCutsAre(words: seq<WhisperWord>, n: nat, pad: real, maxGap: real)
    requires n == 0 || n < |words|
    ensures forall r :: r in GapCuts(words, n, pad, maxGap) ==>
      exists k: nat :: k < n && IsGapCut(words, k, pad, maxGap, r)
  {
    if n == 0 {
    } else {
      GapCutsAre(words, n-1, pad, maxGap);
      forall r | r in GapCuts(words, n, pad, maxGap)
        ensures exists k: nat :: k < n && IsGapCut(words, k, pad, maxGap, r)
      {
        if r !in GapCuts(words, n-1, pad, maxGap) { assert IsGapCut(words, n-1, pad, maxGap, r); }
      }
    }
  }

  lemma {:induction false} GapCutPresent(words: seq<WhisperWord>, n: nat, pad: real, maxGap: real, k: nat)
    requires k < n < |words| && GapIsCut(words[k], words[k+1], pad, maxGap)
    ensures GapCut(words, k, pad) in GapCuts(words, n, pad, maxGap)
  {
    if k == n - 1 {
    } else {
      GapCutPresent(words, n-1, pad, maxGap, k);
    }
  }

  /** A gap cut lies in the clip; a usable word stays out of it when no earlier word reaches in. */
  lemma GapCutInClip(clip: SelectedClip, words: seq<WhisperWord>, inClip: seq<WhisperWord>, k: nat, pad: real)
    requires pad >= 0.0 && AreWordsInClip(inClip, clip, words) && k + 1 < |inClip|
    ensures clip.sourceStart < GapCut(inClip, k, pad).start - MIN_RANGE_S && GapCut(inClip, k, pad).end < clip.sourceEnd
  {
    assert inClip[k] in inClip && inClip[k+1] in inClip;
  }

  lemma GapCutSparesWord(clip: SelectedClip, words: seq<WhisperWord>, inClip: seq<WhisperWord>, k: nat, pad: real,
                         maxGap: real, w: WhisperWord)
    requires pad >= 0.0 && AreWordsInClip(inClip, clip, words) && k + 1 < |inClip|
    requires NoWordReachesIntoGapCut(inClip, pad, maxGap) && GapIsCut(inClip[k], inClip[k+1], pad, maxGap)
    requires w in words && Usable(w)
    ensures Avoids(GapCut(inClip, k, pad), w.start, w.end)
  {
    if w in inClip {
      var j: nat :| j < |inClip| && inClip[j] == w;
      assert !ReachesIntoGapCut(inClip, j, k, pad, maxGap);
      if j > k + 1 { assert WordStartsNoLater(inClip[k+1], inClip[j]); }
    } else {
      GapCutInClip(clip, words, inClip, k, pad);
    }
  }

  lemma GapCutsFacts(clip: SelectedClip, words: seq<WhisperWord>, inClip: seq<WhisperWord>, pad: real, maxGap: real)
    requires pad >= 0.0 && AreWordsInClip(inClip, clip, words)
    ensures CutsOf(clip, GapCuts(inClip, Pairs(inClip), pad, maxGap))
    ensures NoWordReachesIntoGapCut(inClip, pad, maxGap) ==>
      SparesWords(GapCuts(inClip, Pairs(inClip), pad, maxGap), words)
  {
    var cuts := GapCuts(inClip, Pairs(inClip), pad, maxGap);
    GapCutsAre(inClip, Pairs(inClip), pad, maxGap);
    forall r | r in cuts
      ensures clip.sourceStart <= r.start && r.end <= clip.sourceEnd && r.end - r.start >= MIN_RANGE_S
    {
      var k: nat :| k < Pairs(inClip) && IsGapCut(inClip, k, pad, maxGap, r);
      GapCutInClip(clip, words, inClip, k, pad);
    }
    if NoWordReachesIntoGapCut(inClip, pad, maxGap) {
      forall r, w | r in cuts && w in words && Usable(w) ensures Avoids(r, w.start, w.end) {
        var k: nat :| k < Pairs(inClip) && IsGapCut(inClip, k, pad, maxGap, r);
        GapCutSparesWord(clip, words, inClip, k, pad, maxGap, w);
      }
    }
  }

  /** Words that do not overlap each other never reach into a gap cut. */
  lemma NonOverlappingWordsStayClear(clip: SelectedClip, transcriptWords: seq<WhisperWord>, pad: real, maxGap: real)
    requires pad >= 0.0 && NonOverlapping(transcriptWords)
    ensures NoWordReachesIntoGapCut(WordsInClip(clip, transcriptWords), pad, maxGap)
  {
    var words := WordsInClip(clip, transcriptWords);
    WordsInClipFacts(clip, transcriptWords);
    forall j: nat, k: nat | j < k && k + 1 < |words| && GapIsCut(words[k], words[k+1], pad, maxGap)
      ensures words[j].end <= GapCutStart(words[k], pad)
    {
      assert WordStartsNoLater(words[j], words[k]);
      assert words[j] in words && words[k] in words;
      if words[j] != words[k] { DistinctWordsApart(transcriptWords, words[j], words[k]); }
    }
  }

  lemma DistinctWordsApart(words: seq<WhisperWord>, v: WhisperWord, w: WhisperWord)
    requires NonOverlapping(words) && v in words && w in words && v != w && Usable(v) && Usable(w)
    ensures v.end <= w.start || w.end <= v.start
  {}

  lemma RawCutsInClip(clip: SelectedClip, silences: seq<SilenceRange>, pad: real, words: seq<WhisperWord>, maxGap: real)
    requires pad >= 0.0
    ensures CutsOf(clip, RawCuts(clip, silences, pad, words, maxGap))
    ensures CutsOf(clip, Cuts(clip, silences, pad, words, maxGap))
  {
    SilenceCutsSpareWords(clip, silences, pad, words);
    WordsInClipFacts(clip, words);
    GapCutsFacts(clip, words, WordsInClip(clip, words), pad, maxGap);
    MergedCuts(clip, RawCuts(clip, silences, pad, words, maxGap));
  }

  /** The cuts `dead_air_cuts` returns spare every usable word, whatever the silences. */
  lemma CutsSpareWords(clip: SelectedClip, silences: seq<SilenceRange>, pad: real, words: seq<WhisperWord>,
                       maxGap: real)
    requires pad >= 0.0 && NoWordReachesIntoGapCut(WordsInClip(clip, words), pad, maxGap)
    ensures SparesWords(Cuts(clip, silences, pad, words, maxGap), words)
  {
    SilenceCutsSpareWords(clip, silences, pad, words);
    WordsInClipFacts(clip, words);
    GapCutsFacts(clip, words, WordsInClip(clip, words), pad, maxGap);
    RawCutsInClip(clip, silences, pad, words, maxGap);
    var raw := RawCuts(clip, silences, pad, words, maxGap);
    forall m, w | m in Merged(raw) && w in words && Usable(w) ensures Avoids(m, w.start, w.end) {
      MergeAvoids(raw, m, w.start, w.end);
    }
  }

  // ---------------------------------------------------------------- the planner keeps words

  /** What the planner keeps of a clip. */
  function Kept(clip: SelectedClip, silences: seq<SilenceRange>, pad: real, words: seq<WhisperWord>,
                maxGap: real): seq<SourceRange> {
    KeptRanges(clip, Cuts(clip, silences, pad, words, maxGap))
  }

  /** The part of a word the clip shows. */
  function PartInClip(clip: SelectedClip, w: WhisperWord): SourceRange {
    SourceRange(Max(w.start, clip.sourceStart), Min(w.end, clip.sourceEnd))
  }

  /** Every usable word of which the clip shows at least 10 ms is kept whole, in one range. */
  ghost predicate KeepsWords(kept: seq<SourceRange>, clip: SelectedClip, words: seq<WhisperWord>) {
    forall w :: w in words && Usable(w) && PartInClip(clip, w).end - PartInClip(clip, w).start >= MIN_RANGE_S ==>
      Hosts(kept, PartInClip(clip, w))
  }

  lemma SparedWordsAreKept(clip: SelectedClip, cuts: seq<SourceRange>, words: seq<WhisperWord>)
    requires CutsOf(clip, cuts) && SparesWords(cuts, words)
    ensures KeepsWords(KeptRanges(clip, cuts), clip, words)
  {
    forall w | w in words && Usable(w) && PartInClip(clip, w).end - PartInClip(clip, w).start >= MIN_RANGE_S
      ensures Hosts(KeptRanges(clip, cuts), PartInClip(clip, w))
    {
      UncutStretchIsKept(clip, cuts, PartInClip(clip, w).start, PartInClip(clip, w).end);
    }
  }

  /** For any silences, padding and gap limit, the planner keeps every word whole exactly when no
      word reaches into a pause the gap rule cuts. */
  lemma PlannerKeepsWords(clip: SelectedClip, silences: seq<SilenceRange>, pad: real, words: seq<WhisperWord>,
                          maxGap: real)
    requires clip.sourceStart < clip.sourceEnd && pad >= 0.0
    ensures KeepsWords(Kept(clip, silences, pad, words, maxGap), clip, words)
       <==> NoWordReachesIntoGapCut(WordsInClip(clip, words), pad, maxGap)
  {
    var inClip := WordsInClip(clip, words);
    RawCutsInClip(clip, silences, pad, words, maxGap);
    if NoWordReachesIntoGapCut(inClip, pad, maxGap) {
      CutsSpareWords(clip, silences, pad, words, maxGap);
      SparedWordsAreKept(clip, Cuts(clip, silences, pad, words, maxGap), words);
    } else {
      WordsInClipFacts(clip, words);
      ReachingWordIsLost(clip, RawCuts(clip, silences, pad, words, maxGap), words, inClip, pad, maxGap);
    }
  }

  lemma ReachingWordIsLost(clip: SelectedClip, raw: seq<SourceRange>, words: seq<WhisperWord>,
                           inClip: seq<WhisperWord>, pad: real, maxGap: real)
    requires clip.sourceStart < clip.sourceEnd && pad >= 0.0
    requires AreWordsInClip(inClip, clip, words) && !NoWordReachesIntoGapCut(inClip, pad, maxGap)
    requires CutsOf(clip, raw) && forall r :: r in GapCuts(inClip, Pairs(inClip), pad, maxGap) ==> r in raw
    ensures !KeepsWords(KeptRanges(clip, Merged(raw)), clip, words)
  {
    var w, r := ReachingPair(clip, words, inClip, pad, maxGap);
    KeptRangesAvoid(clip, raw, r);
    ReachingWordIsCut(clip, KeptRanges(clip, Merged(raw)), words, w, r);
  }

  /** A word that reaches into a gap cut, and that cut. */
  lemma ReachingPair(clip: SelectedClip, words: seq<WhisperWord>, inClip: seq<WhisperWord>, pad: real, maxGap: real)
    returns (w: WhisperWord, r: SourceRange)
    requires pad >= 0.0 && AreWordsInClip(inClip, clip, words) && !NoWordReachesIntoGapCut(inClip, pad, maxGap)
    ensures w in words && Usable(w) && w.start < r.start - MIN_RANGE_S && r.start < w.end
    ensures r in GapCuts(inClip, Pairs(inClip), pad, maxGap)
    ensures clip.sourceStart < r.start - MIN_RANGE_S && r.start < r.end < clip.sourceEnd
  {
    var j: nat, k: nat :| ReachesIntoGapCut(inClip, j, k, pad, maxGap);
    w, r := inClip[j], GapCut(inClip, k, pad);
    GapCutPresent(inClip, Pairs(inClip), pad, maxGap, k);
    assert w in inClip && inClip[k] in inClip && WordStartsNoLater(w, inClip[k]);
    GapCutInClip(clip, words, inClip, k, pad);
  }

  /** A word that straddles the start of a removed span is not kept whole. */
  lemma ReachingWordIsCut(clip: SelectedClip, kept: seq<SourceRange>, words: seq<WhisperWord>, w: WhisperWord,
                          r: SourceRange)
    requires w in words && Usable(w) && clip.sourceStart < r.start - MIN_RANGE_S && r.start < r.end < clip.sourceEnd
    requires w.start < r.start - MIN_RANGE_S && r.start < w.end
    requires forall m :: m in kept ==> Avoids(r, m.start, m.end)
    ensures !KeepsWords(kept, clip, words)
  {
    var part := PartInClip(clip, w);
    assert part.start < r.start - MIN_RANGE_S && r.start < part.end;
    forall m | m in kept ensures !Contains(m, part) { assert Avoids(r, m.start, m.end); }
    assert !Hosts(kept, part);
  }

  /** What is kept after cutting the merged ranges stays clear of each range that was merged. */
  lemma KeptRangesAvoid(clip: SelectedClip, raw: seq<SourceRange>, r: SourceRange)
    requires clip.sourceStart < clip.sourceEnd && CutsOf(clip, raw) && r in raw
    ensures forall m :: m in KeptRanges(clip, Merged(raw)) ==> Avoids(r, m.start, m.end)
  {
    MergedCuts(clip, raw);
    KeptRangesConserveTime(clip, Merged(raw));
    assert Hosts(Merged(raw), r);
    var c :| c in Merged(raw) && Contains(c, r);
    forall m | m in KeptRanges(clip, Merged(raw)) ensures Avoids(r, m.start, m.end) {
      assert Avoids(c, m.start, m.end);
    }
  }

  // ---------------------------------------------------------------- the continuity engine agrees

  datatype Verdict = Clean | Dirty | Abstain

  /** `rule_mid_sentence` with a loaded transcript. */
  method RuleMidSentence(at: real, whisperWords: Option<seq<WhisperWord>>) returns (verdict: Verdict)
    ensures verdict == MidSentence(at, whisperWords)
    ensures verdict == Abstain <==> whisperWords.None?
    ensures verdict == Dirty <==> whisperWords.Some? && exists w :: w in whisperWords.value && w.start < at < w.end
  {
    match whisperWords {
      case None => return Abstain;
      case Some(words) =>
        for i := 0 to |words|
          invariant forall k :: 0 <= k < i ==> !StrictlyInside(at, words[k])
        {
          if StrictlyInside(at, words[i]) { return Dirty; }
        }
        return Clean;
    }
  }

  predicate StrictlyInside(at: real, w: WhisperWord) { w.start < at < w.end }

  ghost function MidSentence(at: real, whisperWords: Option<seq<WhisperWord>>): Verdict {
    match whisperWords
    case None => Abstain
    case Some(words) => if exists w :: w in words && StrictlyInside(at, w) then Dirty else Clean
  }

  ghost predicate IsEdge(kept: seq<SourceRange>, clip: SelectedClip, at: real) {
    at != clip.sourceStart && at != clip.sourceEnd && exists r :: r in kept && (at == r.start || at == r.end)
  }

  /** Every edge the planner makes is judged clean unless it lands inside a word of blank text,
      which the planner does not protect. */
  lemma PlannerEdgesAreClean(clip: SelectedClip, silences: seq<SilenceRange>, pad: real, words: seq<WhisperWord>,
                             maxGap: real, at: real)
    requires clip.sourceStart < clip.sourceEnd && pad >= 0.0
    requires NoWordReachesIntoGapCut(WordsInClip(clip, words), pad, maxGap)
    requires IsEdge(Kept(clip, silences, pad, words, maxGap), clip, at)
    ensures MidSentence(at, Some(words)) == Clean
       <==> forall w :: w in words && Blank(w.text) ==> !StrictlyInside(at, w)
  {
    hide RawCuts, Merged, Blank, KeptRanges;
    var cuts := Cuts(clip, silences, pad, words, maxGap);
    RawCutsInClip(clip, silences, pad, words, maxGap);
    CutsSpareWords(clip, silences, pad, words, maxGap);
    MergedCuts(clip, RawCuts(clip, silences, pad, words, maxGap));
    EdgesAreCutEdges(clip, cuts, at);
    SparedWordsStayOutside(cuts, words, at);
  }

  lemma SparedWordsStayOutside(cuts: seq<SourceRange>, words: seq<WhisperWord>, at: real)
    requires SparesWords(cuts, words) && Proper(cuts)
    requires exists c :: c in cuts && (at == c.start || at == c.end)
    ensures forall w :: w in words && Usable(w) ==> !StrictlyInside(at, w)
  {
    var c :| c in cuts && (at == c.start || at == c.end);
    forall w | w in words && Usable(w) ensures !StrictlyInside(at, w) {
      assert Avoids(c, w.start, w.end);
    }
  }

  lemma EdgesAreCutEdges(clip: SelectedClip, removed: seq<SourceRange>, at: real)
    requires CutsOf(clip, removed) && Separated(removed) && IsEdge(KeptRanges(clip, removed), clip, at)
    ensures exists c :: c in removed && (at == c.start || at == c.end)
  {
    MergedCuts(clip, removed);
    MergedFixpoint(removed);
    UncoveredEdges(clip.sourceStart, clip.sourceEnd, removed);
  }
}
