/** `plan-dead-air-edl` from timeline to applied edit list (crates/cli/src/plan_dead_air_edl_cmd.rs). */
module DeadAirRun {
  import opened Sequences
  import opened PlanRanges
  import opened DeadAir
  import opened DeadAirCover
  import opened DeadAirEdges
  import opened EdlPlan
  import opened EdlReplay
  import opened EdlLinks
  import EdlLimits

  const NAME_PREFIX := "after-dead-air"

  datatype PlanArgs = PlanArgs(minDuration: real, silenceThresholdDb: real, keepPadding: real,
                               maxTranscriptGap: Option<real>)
  {
    /** `validate_args` */
    predicate Valid() {
      && minDuration > 0.0 && silenceThresholdDb < 0.0 && keepPadding >= 0.0
      && (maxTranscriptGap.Some? ==> maxTranscriptGap.value > 0.0)
    }

    function MaxGap(): real { if maxTranscriptGap.Some? then maxTranscriptGap.value else minDuration }
  }

  /** What the planner reads from disk, per asset; silence detection can fail, a missing transcript
      counts as empty. */
  datatype Media = Media(detectSilences: string -> Option<seq<SilenceRange>>,
                         loadWords: string -> Option<seq<WhisperWord>>)
  {
    function Silences(asset: string): seq<SilenceRange> {
      if detectSilences(asset).Some? then detectSilences(asset).value else []
    }

    function Words(asset: string): seq<WhisperWord> {
      if loadWords(asset).Some? then loadWords(asset).value else []
    }
  }

  datatype PlanError = InvalidArgs | NoClip | SilenceDetectionFailed(asset: string)
  datatype PlanResult = Planned(edl: seq<EdlOp>) | Failed(error: PlanError)

  /** What the planner keeps of one clip. */
  function KeptOf(args: PlanArgs, media: Media): SelectedClip -> seq<SourceRange> {
    (clip: SelectedClip) =>
      Kept(clip, media.Silences(clip.asset), args.keepPadding, media.Words(clip.asset), args.MaxGap())
  }

  predicate AllDetected(clips: seq<SelectedClip>, media: Media) {
    forall clip :: clip in clips ==> media.detectSilences(clip.asset).Some?
  }

  method Run(tl: Timeline, wanted: SelectedClip -> bool, args: PlanArgs, media: Media) returns (result: PlanResult)
    ensures var clips := SelectedFrom(tl, 0, 0, wanted);
      && (result == Failed(InvalidArgs) <==>
            || args.minDuration <= 0.0 || args.silenceThresholdDb >= 0.0 || args.keepPadding < 0.0
            || (args.maxTranscriptGap.Some? && args.maxTranscriptGap.value <= 0.0))
      && (args.Valid() && clips == [] ==> result == Failed(NoClip))
      && (args.Valid() && clips != [] && !AllDetected(clips, media) ==>
            exists n :: 0 <= n < |clips| && AllDetected(clips[..n], media)
              && media.detectSilences(clips[n].asset).None? && result == Failed(SilenceDetectionFailed(clips[n].asset)))
      && (args.Valid() && clips != [] && AllDetected(clips, media) ==>
            result == Planned(RunOps(clips, KeptOf(args, media), "after-dead-air", map[])))
  {
    hide SelectedFrom, Cuts, KeptOf, Kept, KeptRanges, ClipOps, RunOps, InsertedCount, TrimsFit, Changes, TrimFits;
    if !args.Valid() { return Failed(InvalidArgs); }
    var selected := SelectClips(tl, wanted);
    if selected.None? { return Failed(NoClip); }
    var clips := selected.value;
    var silencesByAsset: map<string, seq<SilenceRange>> := map[];
    var wordsByAsset: map<string, seq<WhisperWord>> := map[];
    var insertedBefore: map<string, nat> := map[];
    var edl := [];
    for n := 0 to |clips|
      invariant AllDetected(clips[..n], media)
      invariant forall asset :: asset in silencesByAsset ==> media.detectSilences(asset) == Some(silencesByAsset[asset])
      invariant forall asset :: asset in wordsByAsset ==> wordsByAsset[asset] == media.Words(asset)
      invariant edl + RunOps(clips[n..], KeptOf(args, media), NAME_PREFIX, insertedBefore)
             == RunOps(clips, KeptOf(args, media), NAME_PREFIX, map[])
    {
      var clip := clips[n];
      if clip.asset !in silencesByAsset {
        var silences := media.detectSilences(clip.asset);
        if silences.None? { return Failed(SilenceDetectionFailed(clip.asset)); }
        silencesByAsset := silencesByAsset[clip.asset := silences.value];
      }
      if clip.asset !in wordsByAsset {
        wordsByAsset := wordsByAsset[clip.asset := media.Words(clip.asset)];
      }
      var silences, words := silencesByAsset[clip.asset], wordsByAsset[clip.asset];
      var removed := DeadAirCuts(clip, silences, args.keepPadding, words, args.MaxGap());
      var kept := KeptRangesAfterRemoving(clip, removed);
      KeptOfIs(args, media, clip);
      var offset := CountFor(insertedBefore, clip.trackName);
      RunOpsStep(clips, n, KeptOf(args, media), NAME_PREFIX, insertedBefore);
      var inserted;
      edl, inserted := AppendKeptRangesOps(edl, clip, kept, NAME_PREFIX, offset);
      insertedBefore := insertedBefore[clip.trackName := offset + inserted];
    }
    assert clips[|clips|..] == [] && clips[..|clips|] == clips;
    RunOpsNil(KeptOf(args, media), NAME_PREFIX, insertedBefore);
    return Planned(edl);
  }

  lemma KeptOfIs(args: PlanArgs, media: Media, clip: SelectedClip)
    ensures KeptOf(args, media)(clip)
      == KeptRanges(clip,
                    Cuts(clip, media.Silences(clip.asset), args.keepPadding, media.Words(clip.asset), args.MaxGap()))
  {}

  /** What a run keeps of each clip, said of its arguments and of what is on disk: the silences of the clip's asset,
      its words, none without a transcript, and as limit the one given or else the shortest silence. */
  lemma RunKeepsExactly(args: PlanArgs, media: Media, clip: SelectedClip, silences: seq<SilenceRange>,
                        words: seq<WhisperWord>, maxGap: real, x: real)
    requires clip.sourceStart < clip.sourceEnd && args.keepPadding >= 0.0
    requires media.detectSilences(clip.asset) == Some(silences)
    requires media.loadWords(clip.asset) == Some(words) || (media.loadWords(clip.asset).None? && words == [])
    requires args.maxTranscriptGap == Some(maxGap) || (args.maxTranscriptGap.None? && maxGap == args.minDuration)
    ensures !AnyDead(clip, silences, args.keepPadding, words, maxGap) ==>
      KeptOf(args, media)(clip) == [SourceRange(clip.sourceStart, clip.sourceEnd)]
    ensures AnyDead(clip, silences, args.keepPadding, words, maxGap) ==>
      (Covers(KeptOf(args, media)(clip), x) <==>
         exists t :: AliveFrom(clip, silences, args.keepPadding, words, maxGap, t) && t <= x <= t + 0.010)
  {
    hide Kept, Dead, AliveFrom, Covers;
    KeepsExactly(clip, silences, args.keepPadding, words, maxGap, x);
  }

  lemma RunOpsStep(clips: seq<SelectedClip>, n: nat, kept: SelectedClip -> seq<SourceRange>, prefix: string,
                   counts: map<string, nat>)
    requires n < |clips|
    ensures var c := clips[n];
      var before := CountFor(counts, c.trackName);
      RunOps(clips[n..], kept, prefix, counts)
      == ClipOps(c, kept(c), prefix, before)
       + RunOps(clips[n+1..], kept, prefix, counts[c.trackName := before + InsertedCount(c, kept(c))])
  {
    hide ClipOps, InsertedCount, RunOps, TrimsFit, CountFor;
    assert clips[n..] == [clips[n]] + clips[n+1..];
    RunOpsCons(clips[n], clips[n+1..], kept, prefix, counts);
  }

  lemma RunOpsNil(kept: SelectedClip -> seq<SourceRange>, prefix: string, counts: map<string, nat>)
    ensures RunOps([], kept, prefix, counts) == []
  {}

  // ---------------------------------------------------------------- the planner's ranges suit the applier

  lemma KeptIsSound(clip: SelectedClip, args: PlanArgs, media: Media)
    requires clip.sourceStart < clip.sourceEnd && args.Valid()
    ensures SoundKept(clip, KeptOf(args, media)(clip))
  {
    var silences, words := media.Silences(clip.asset), media.Words(clip.asset);
    var kept := Kept(clip, silences, args.keepPadding, words, args.MaxGap());
    hide Kept;
    KeptInOrder(clip, silences, args.keepPadding, words, args.MaxGap());
    forall r | r in kept
      ensures r.start == clip.sourceStart || r.start >= clip.sourceStart + MIN_RANGE_S
      ensures r.end == clip.sourceEnd || r.end <= clip.sourceEnd - MIN_RANGE_S
    {
      KeptEndsAreApart(clip, silences, args.keepPadding, words, args.MaxGap(), r);
    }
  }

  lemma KeptInOrder(clip: SelectedClip, silences: seq<SilenceRange>, pad: real, words: seq<WhisperWord>, maxGap: real)
    requires clip.sourceStart < clip.sourceEnd && pad >= 0.0
    ensures var kept, whole := Kept(clip, silences, pad, words, maxGap), SourceRange(clip.sourceStart, clip.sourceEnd);
      && Ordered(kept) && Within(kept, clip.sourceStart, clip.sourceEnd)
      && (kept != [whole] ==> forall r :: r in kept ==> r.end - r.start >= MIN_RANGE_S)
  {
    var cuts := Cuts(clip, silences, pad, words, maxGap);
    RawCutsInClip(clip, silences, pad, words, maxGap);
    KeptRangesConserveTime(clip, cuts);
    hide Cuts, RawCuts, Uncovered;
    if cuts == [] { assert Merged([]) == []; }
  }

  /** An end of a kept range that is not the clip's own is at least 10 ms inside the clip. */
  lemma KeptEndsAreApart(clip: SelectedClip, silences: seq<SilenceRange>, pad: real, words: seq<WhisperWord>,
                         maxGap: real, r: SourceRange)
    requires clip.sourceStart < clip.sourceEnd && pad >= 0.0 && r in Kept(clip, silences, pad, words, maxGap)
    ensures r.start == clip.sourceStart || r.start >= clip.sourceStart + MIN_RANGE_S
    ensures r.end == clip.sourceEnd || r.end <= clip.sourceEnd - MIN_RANGE_S
  {
    hide Kept, RawCuts;
    KeptInOrder(clip, silences, pad, words, maxGap);
    if r.start != clip.sourceStart {
      var cut := EdgeHasCut(clip, silences, pad, words, maxGap, r, r.start);
    }
    if r.end != clip.sourceEnd {
      var cut := EdgeHasCut(clip, silences, pad, words, maxGap, r, r.end);
    }
  }

  /** A first kept range that does not start at the clip's start begins at least 10 ms later, and
      likewise at the end: only untouched clip ends can be widened by rounding. */
  lemma TrimFitsWhen(clip: SelectedClip, removed: seq<SourceRange>, r: SourceRange)
    requires clip.sourceStart < clip.sourceEnd && CutsOf(clip, removed) && r in KeptRanges(clip, removed)
    ensures TrimFits(clip, r) <==>
      && (r.start == clip.sourceStart ==> Millis(clip.sourceStart) >= clip.sourceStart - TRIM_TOLERANCE_S)
      && (r.end == clip.sourceEnd ==> Millis(clip.sourceEnd) <= clip.sourceEnd + TRIM_TOLERANCE_S)
  {
    MergedCuts(clip, removed);
    UncoveredEdges(clip.sourceStart, clip.sourceEnd, Merged(removed));
    MillisClose(r.start); MillisClose(r.end);
    hide Millis, Merged;
  }

  /** Neither end of the clip is rounded outwards. */
  predicate EndsPrintInside(clip: SelectedClip) {
    && Millis(clip.sourceStart) >= clip.sourceStart - TRIM_TOLERANCE_S
    && Millis(clip.sourceEnd) <= clip.sourceEnd + TRIM_TOLERANCE_S
  }

  predicate FitsIfChanged(clip: SelectedClip, kept: seq<SourceRange>) {
    Changes(clip, kept) ==> TrimFits(clip, kept[0])
  }

  /** Whatever the media, the planner's trim of this clip passes the applier's check. */
  ghost predicate AlwaysFits(clip: SelectedClip, pad: real) {
    forall silences, words, maxGap :: FitsIfChanged(clip, Kept(clip, silences, pad, words, maxGap))
  }

  lemma EndsInsideFit(clip: SelectedClip, silences: seq<SilenceRange>, pad: real, words: seq<WhisperWord>, maxGap: real)
    requires clip.sourceStart < clip.sourceEnd && pad >= 0.0 && EndsPrintInside(clip)
    ensures FitsIfChanged(clip, Kept(clip, silences, pad, words, maxGap))
  {
    var kept := Kept(clip, silences, pad, words, maxGap);
    RawCutsInClip(clip, silences, pad, words, maxGap);
    if Changes(clip, kept) {
      assert kept[0] in kept;
      TrimFitsWhen(clip, Cuts(clip, silences, pad, words, maxGap), kept[0]);
    }
  }

  /** A clip shorter than two slivers is never changed. */
  lemma ShortClipsStay(clip: SelectedClip, silences: seq<SilenceRange>, pad: real, words: seq<WhisperWord>,
                       maxGap: real)
    requires clip.sourceStart < clip.sourceEnd < clip.sourceStart + 2.0 * MIN_RANGE_S && pad >= 0.0
    ensures !Changes(clip, Kept(clip, silences, pad, words, maxGap))
  {
    var cuts := Cuts(clip, silences, pad, words, maxGap);
    var kept := KeptRanges(clip, cuts);
    RawCutsInClip(clip, silences, pad, words, maxGap);
    MergedCuts(clip, cuts);
    KeptRangesConserveTime(clip, cuts);
    hide Cuts, Merged, Uncovered;
    if cuts != [] && kept != [] {
      LongTotal(kept, clip.sourceStart, clip.sourceEnd);
      LongTotal(Merged(cuts), clip.sourceStart, clip.sourceEnd);
    }
  }

  lemma {:induction false} LongTotal(rs: seq<SourceRange>, lo: real, hi: real)
    requires LongWithin(rs, lo, hi, MIN_RANGE_S)
    ensures Total(rs) >= if rs == [] then 0.0 else MIN_RANGE_S
  {
    if rs == [] {
    } else {
      LongTotal(rs[1..], lo, hi);
    }
  }

  /** Cutting 10 ms off the head or the tail of a clip leaves the rest. */
  lemma HeadOrTailCut(clip: SelectedClip, pad: real, head: bool)
    requires clip.sourceStart + 2.0 * MIN_RANGE_S <= clip.sourceEnd && pad >= 0.0
    ensures var t := if head then clip.sourceStart else clip.sourceEnd - MIN_RANGE_S;
      Kept(clip, [SilenceAt(t, pad)], pad, [], 1.0)
      == [if head then SourceRange(t + MIN_RANGE_S, clip.sourceEnd) else SourceRange(clip.sourceStart, t)]
  {
    var t := if head then clip.sourceStart else clip.sourceEnd - MIN_RANGE_S;
    var cut := SourceRange(t, t + MIN_RANGE_S);
    hide RawCuts, Merged, GapCutsOf, Uncovered;
    SilenceCutsSpot(clip, pad, [], 1.0, t);
    NoWordsNoGaps(clip, pad);
    assert RawCuts(clip, [SilenceAt(t, pad)], pad, [], 1.0) == [cut];
    MergedFixpoint([cut]);
    EndCutLeavesOne(clip.sourceStart, clip.sourceEnd, cut, head);
  }

  lemma EndCutLeavesOne(lo: real, hi: real, cut: SourceRange, head: bool)
    requires lo + 2.0 * MIN_RANGE_S <= hi
    requires cut == if head then SourceRange(lo, lo + MIN_RANGE_S) else SourceRange(hi - MIN_RANGE_S, hi)
    ensures Uncovered(lo, hi, [cut]) == [if head then SourceRange(cut.end, hi) else SourceRange(lo, cut.start)]
  {
    assert [cut][1..] == [];
  }

  lemma NoWordsNoGaps(clip: SelectedClip, pad: real)
    ensures GapCutsOf(clip, [], pad, 1.0) == []
  {
    assert WordsInClip(clip, []) == [];
  }

  /** A clip's trim passes for all media exactly when the clip is under 20 ms, or neither of its ends is
      rounded outwards. */
  lemma AlwaysFitsExactly(clip: SelectedClip, pad: real)
    requires clip.sourceStart < clip.sourceEnd && pad >= 0.0
    ensures AlwaysFits(clip, pad) <==> clip.sourceEnd - clip.sourceStart < 2.0 * MIN_RANGE_S || EndsPrintInside(clip)
  {
    hide Kept, FitsIfChanged, EndsPrintInside;
    if clip.sourceEnd - clip.sourceStart < 2.0 * MIN_RANGE_S {
      forall silences, words, maxGap ensures FitsIfChanged(clip, Kept(clip, silences, pad, words, maxGap)) {
        ShortClipsStay(clip, silences, pad, words, maxGap);
        UnchangedFits(clip, Kept(clip, silences, pad, words, maxGap));
      }
    } else if EndsPrintInside(clip) {
      forall silences, words, maxGap ensures FitsIfChanged(clip, Kept(clip, silences, pad, words, maxGap)) {
        EndsInsideFit(clip, silences, pad, words, maxGap);
      }
    } else {
      RoundedEndIsCut(clip, pad);
    }
  }

  lemma UnchangedFits(clip: SelectedClip, kept: seq<SourceRange>)
    requires !Changes(clip, kept)
    ensures FitsIfChanged(clip, kept)
  {}

  lemma RoundedEndIsCut(clip: SelectedClip, pad: real)
    requires clip.sourceStart + 2.0 * MIN_RANGE_S <= clip.sourceEnd && pad >= 0.0 && !EndsPrintInside(clip)
    ensures !AlwaysFits(clip, pad)
  {
    hide Kept, Millis;
    var head := Millis(clip.sourceStart) >= clip.sourceStart - TRIM_TOLERANCE_S;
    var t := if head then clip.sourceStart else clip.sourceEnd - MIN_RANGE_S;
    HeadOrTailCut(clip, pad, head);
    var kept := Kept(clip, [SilenceAt(t, pad)], pad, [], 1.0);
    assert Changes(clip, kept) && !TrimFits(clip, kept[0]) && !FitsIfChanged(clip, kept);
  }

  /** When no selected clip's end is rounded outwards, every trim passes, whatever the media. */
  lemma {:induction false} EndsInsideAllFit(clips: seq<SelectedClip>, args: PlanArgs, media: Media)
    requires args.Valid()
    requires forall c :: c in clips ==> c.sourceStart < c.sourceEnd && EndsPrintInside(c)
    ensures TrimsFit(clips, KeptOf(args, media))
  {
    if clips == [] {
    } else {
      assert clips[0] in clips;
      hide Kept, EndsPrintInside, Changes, TrimFits;
      var asset := clips[0].asset;
      EndsInsideFit(clips[0], media.Silences(asset), args.keepPadding, media.Words(asset), args.MaxGap());
      EndsInsideAllFit(clips[1..], args, media);
    }
  }

  /** The planner's kept ranges suit the replay. */
  lemma RunIsValid(p: Plan, args: PlanArgs, media: Media)
    requires args.Valid() && p.kept == KeptOf(args, media) && p.prefix == NAME_PREFIX
    requires p.AnchorsResolve() && p.InsertsStaySilent()
    ensures p.Valid()
  {
    forall ti, pos | p.At(ti, pos) && p.Pick(ti, pos).Some?
      ensures SoundKept(p.Pick(ti, pos).value, p.kept(p.Pick(ti, pos).value))
    {
      KeptIsSound(p.Pick(ti, pos).value, args, media);
    }
  }

  /** What the list printed by a run does, linked clips and all: its trims, and each changed clip's further
      ranges right behind it. */
  lemma RunReplays(p: Plan, args: PlanArgs, media: Media)
    requires args.Valid() && p.kept == KeptOf(args, media) && p.prefix == NAME_PREFIX
    requires p.AnchorsResolve() && p.InsertsStaySilent() && p.SplitsStandAlone()
    ensures var clips := SelectedFrom(p.tl, 0, 0, p.wanted);
      var trimmed := ApplyAll(Some(p.tl), TrimsOf(clips, p.kept), p.stamp);
      && ShapeKept(p, trimmed)
      && ApplyAll(Some(p.tl), RunOps(clips, p.kept, p.prefix, map[]), p.stamp) == FilledIfAny(p, trimmed)
  {
    RunIsValid(p, args, media);
    Replays(p);
  }

  /** When no trim takes a linked clip along, the list applies without error exactly when no changed clip is
      widened by rounding; it then puts each changed clip's kept ranges in the clip's place and moves nothing
      else. */
  lemma RunLands(p: Plan, args: PlanArgs, media: Media)
    requires args.Valid() && p.kept == KeptOf(args, media) && p.prefix == NAME_PREFIX
    requires p.AnchorsResolve() && p.InsertsStaySilent() && p.SplitsStandAlone() && TakesNothingAlong(p)
    ensures var clips := SelectedFrom(p.tl, 0, 0, p.wanted);
      ApplyAll(Some(p.tl), RunOps(clips, p.kept, p.prefix, map[]), p.stamp)
      == if TrimsFit(clips, p.kept) then Some(p.Goal()) else None
  {
    RunIsValid(p, args, media);
    PlanLands(p);
  }

  lemma {:induction false} SelectedArePositive(tl: Timeline, ti: nat, pos: nat, wanted: SelectedClip -> bool)
    requires ti <= |tl| && (ti < |tl| ==> pos <= |Items(tl, ti)|)
    ensures forall c :: c in SelectedFrom(tl, ti, pos, wanted) ==> c.sourceStart < c.sourceEnd
    decreases |tl| - ti, if ti < |tl| then |Items(tl, ti)| - pos else 0
  {
    if ti == |tl| {
    } else if pos == |Items(tl, ti)| {
      SelectedArePositive(tl, ti + 1, 0, wanted);
    } else {
      SelectedArePositive(tl, ti, pos + 1, wanted);
    }
  }

  /** Whatever the media, a run over clips none of whose ends is rounded outwards, as on whole milliseconds,
      lands exactly when it splits no clip on a track with an earlier namesake and no changed clip has on
      another track a clip of its group that covers its range. */
  lemma EndsInsideRunsLandExactly(p: Plan, args: PlanArgs, media: Media)
    requires args.Valid() && p.kept == KeptOf(args, media) && p.prefix == NAME_PREFIX
    requires p.AnchorsResolve() && p.InsertsStaySilent() && GroupsOnOneTrack(p)
    requires forall c :: c in SelectedFrom(p.tl, 0, 0, p.wanted) ==> EndsPrintInside(c)
    ensures EdlLimits.Lands(p) <==> p.SplitsStandAlone() && LeavesLinkedAlone(p)
  {
    SelectedArePositive(p.tl, 0, 0, p.wanted);
    EndsInsideAllFit(SelectedFrom(p.tl, 0, 0, p.wanted), args, media);
    RunIsValid(p, args, media);
    EdlLimits.PlanLandsExactly(p);
  }

  // ---------------------------------------------------------------- a run that is rejected

  const FRAME_CLIP := Clip("c", None, Some("a.mp4"), true, Some(SourceRange(0.0, 25.0 / 24.0)), None)
  const FRAME_TIMELINE: Timeline := [TrackNode(Track("V1", true, [ClipItem(FRAME_CLIP)]))]
  const FRAME_SELECTED := SelectedClip("c", "a.mp4", "V1", 0, 0.0, 25.0 / 24.0)
  const FRAME_ARGS := PlanArgs(0.5, -30.0, 0.0, None)

  function SilentHead(): Media { Media(_ => Some([SilenceRange(0.0, 0.5)]), _ => None) }
  function FramePlan(): Plan {
    Plan(FRAME_TIMELINE, _ => true, KeptOf(FRAME_ARGS, SilentHead()), NAME_PREFIX, name => name)
  }

  /** One clip of 25 frames at 24 frames per second, silent for its first half second: its end prints as
      1.042 s, past the clip, and the applier rejects the planner's list. */
  lemma RoundedRunIsRejected()
    ensures var clips := SelectedFrom(FRAME_TIMELINE, 0, 0, _ => true);
      var ops := RunOps(clips, KeptOf(FRAME_ARGS, SilentHead()), NAME_PREFIX, map[]);
      ApplyAll(Some(FRAME_TIMELINE), ops, name => name) == None
  {
    var p := FramePlan();
    FramePlanIsValid();
    RunLands(p, FRAME_ARGS, SilentHead());
    FrameIsSelected();
    FrameTrimFails();
  }

  lemma FrameIsSelected()
    ensures SelectedFrom(FRAME_TIMELINE, 0, 0, FramePlan().wanted) == [FRAME_SELECTED]
  {
    var wanted := FramePlan().wanted;
    assert Picked(FRAME_TIMELINE, 0, 0, wanted) == Some(FRAME_SELECTED);
    assert SelectedFrom(FRAME_TIMELINE, 0, 1, wanted) == SelectedFrom(FRAME_TIMELINE, 1, 0, wanted) == [];
  }

  lemma FramePlanIsValid()
    ensures var p := FramePlan();
      p.AnchorsResolve() && p.InsertsStaySilent() && p.SplitsStandAlone() && TakesNothingAlong(p)
  {
    var p := FramePlan();
    hide KeptOf;
    forall ti, pos | p.At(ti, pos) ensures ti == 0 && pos == 0 {}
  }

  lemma FrameTrimFails()
    ensures !TrimsFit([FRAME_SELECTED], KeptOf(FRAME_ARGS, SilentHead()))
  {
    var kept := KeptOf(FRAME_ARGS, SilentHead())(FRAME_SELECTED);
    assert kept == Kept(FRAME_SELECTED, [SilenceRange(0.0, 0.5)], 0.0, [], 0.5);
    FrameKept();
    hide Kept;
    assert kept == [SourceRange(0.5, 25.0 / 24.0)];
    assert Millis(25.0 / 24.0) == 1.042;
  }

  lemma FrameKept()
    ensures Kept(FRAME_SELECTED, [SilenceRange(0.0, 0.5)], 0.0, [], 0.5) == [SourceRange(0.5, 25.0 / 24.0)]
  {
    var cut := SourceRange(0.0, 0.5);
    hide RawCuts, Merged, GapCutsOf, Uncovered;
    OneSilenceRaw(FRAME_SELECTED, SilenceRange(0.0, 0.5), 0.0, [], 0.5, 0.0, 0.5);
    FewWordsNoGaps(FRAME_SELECTED, [], 0.5);
    assert RawCuts(FRAME_SELECTED, [SilenceRange(0.0, 0.5)], 0.0, [], 0.5) == [cut];
    MergedFixpoint([cut]);
    HeadCutLeavesRest(0.0, 25.0 / 24.0, cut);
  }

  lemma HeadCutLeavesRest(lo: real, hi: real, cut: SourceRange)
    requires cut.start == lo < cut.end && cut.end + MIN_RANGE_S <= hi
    ensures Uncovered(lo, hi, [cut]) == [SourceRange(cut.end, hi)]
  {
    assert [cut][1..] == [];
  }

  // ---------------------------------------------------------------- a run over an imported recording

  const IMPORTED_PICTURE :=
    Clip("rec", Some("v"), Some("raw/rec.mp4"), true, Some(SourceRange(0.0, 10.0)), Some("lg-1"))
  const IMPORTED_SOUND :=
    Clip("rec", Some("a"), Some("raw/rec.mp4"), true, Some(SourceRange(0.0, 10.0)), Some("lg-1"))
  const IMPORTED_SELECTED := SelectedClip("v", "raw/rec.mp4", "Video 1", 0, 0.0, 10.0)

  function PictureAndSound(picture: seq<TrackItem>, sound: seq<TrackItem>): Timeline {
    [TrackNode(Track("Video 1", true, picture)), TrackNode(Track("A1", false, sound))]
  }

  function Imported(): Timeline { PictureAndSound([ClipItem(IMPORTED_PICTURE)], [ClipItem(IMPORTED_SOUND)]) }
  function SilentMiddle(): Media { Media(_ => Some([SilenceRange(2.0, 5.0)]), _ => None) }

  function ImportPlan(): Plan {
    Plan(Imported(), _ => true, KeptOf(FRAME_ARGS, SilentMiddle()), NAME_PREFIX, name => name)
  }

  function Cut(clip: Clip, start: real, end: real): TrackItem {
    ClipItem(clip.(range := Some(SourceRange(start, end))))
  }

  /** A recording of 10 s imported with picture and sound linked, silent from 2 to 5 s: the picture keeps 0 to
      2 and 5 to 10 s, the sound only 0 to 2. */
  lemma ImportedSoundIsLost()
    ensures var p := ImportPlan();
      ApplyAll(Some(p.tl), RunOps(SelectedFrom(p.tl, 0, 0, p.wanted), p.kept, p.prefix, map[]), p.stamp)
      == Some(PictureAndSound([Cut(IMPORTED_PICTURE, 0.0, 2.0), ClipItem(IMPORTED_REST)],
                              [Cut(IMPORTED_SOUND, 0.0, 2.0)]))
  {
    var p := ImportPlan();
    ImportPlanIsValid();
    RunReplays(p, FRAME_ARGS, SilentMiddle());
    ImportTrims();
    ImportFilled();
    hide ApplyAll, RunOps, TrimsOf, SelectedFrom, Plan.Filled;
  }

  lemma ImportPlanIsValid()
    ensures var p := ImportPlan(); p.AnchorsResolve() && p.InsertsStaySilent() && p.SplitsStandAlone()
  {
    var p := ImportPlan();
    hide KeptOf, InsertedName;
    forall ti, pos | p.At(ti, pos) && p.Pick(ti, pos).Some?
      ensures ti == 0 && pos == 0 && p.Pick(ti, pos) == Some(IMPORTED_SELECTED)
    {}
    forall index: nat ensures |InsertedName(IMPORTED_SELECTED, NAME_PREFIX, index)| > 1 {
      InsertedNameIsLong(IMPORTED_SELECTED, index);
    }
  }

  lemma InsertedNameIsLong(c: SelectedClip, index: nat)
    ensures |InsertedName(c, NAME_PREFIX, index)| > |c.clipUuid|
  {}

  lemma ImportKept()
    ensures KeptOf(FRAME_ARGS, SilentMiddle())(IMPORTED_SELECTED) == [SourceRange(0.0, 2.0), SourceRange(5.0, 10.0)]
  {
    OneSilenceCuts(IMPORTED_SELECTED, SilenceRange(2.0, 5.0), [], 0.5);
    hide Kept;
    var c := IMPORTED_SELECTED;
    assert KeptOf(FRAME_ARGS, SilentMiddle())(c) == Kept(c, [SilenceRange(2.0, 5.0)], 0.0, [], 0.5);
  }

  function ImportTrimmed(): Timeline {
    PictureAndSound([Cut(IMPORTED_PICTURE, 0.0, 2.0)], [Cut(IMPORTED_SOUND, 0.0, 2.0)])
  }

  /** The one trim of the run takes the sound along. */
  lemma ImportTrims()
    ensures var p := ImportPlan();
      ApplyAll(Some(p.tl), TrimsOf(SelectedFrom(p.tl, 0, 0, p.wanted), p.kept), p.stamp) == Some(ImportTrimmed())
  {
    var p := ImportPlan();
    ImportIsSelected();
    ImportKept();
    hide KeptOf, SelectedFrom;
    var op := TrimClip("v", 0.0, 2.0);
    assert Millis(0.0) == 0.0 && Millis(2.0) == 2.0;
    assert [IMPORTED_SELECTED][1..] == [];
    assert TrimsOf([], p.kept) == [] && TrimsOf([IMPORTED_SELECTED], p.kept) == [op] + [];
    ApplyOne(Imported(), op, p.stamp);
    ImportTrimmedAlong();
  }

  lemma ImportTrimmedAlong()
    ensures ApplyOp(Imported(), TrimClip("v", 0.0, 2.0), ImportPlan().stamp) == Some(ImportTrimmed())
  {
    var tl, now := Imported(), SourceRange(0.0, 2.0);
    assert FindItem(Items(tl, 0), "v") == Some(0);
    assert FindClip(tl, 0, "v") == Some((0, 0));
    assert FindSibling([ClipItem(IMPORTED_SOUND)], "lg-1", SourceRange(0.0, 10.0)) == 0;
    assert TrimSibling(tl[1], "lg-1", SourceRange(0.0, 10.0), now) == ImportTrimmed()[1];
    var trimmed := TrimClipAt(tl, 0, 0, now);
    assert trimmed[0] == ImportTrimmed()[0] && trimmed[1] == ImportTrimmed()[1];
    assert trimmed == ImportTrimmed();
  }

  lemma ImportIsSelected()
    ensures SelectedFrom(Imported(), 0, 0, ImportPlan().wanted) == [IMPORTED_SELECTED]
  {
    var wanted := ImportPlan().wanted;
    var tl := Imported();
    assert Picked(tl, 0, 0, wanted) == Some(IMPORTED_SELECTED) && Picked(tl, 1, 0, wanted) == None;
    assert SelectedFrom(tl, 2, 0, wanted) == [];
    assert SelectedFrom(tl, 1, 1, wanted) == [];
    assert SelectedFrom(tl, 1, 0, wanted) == [] + [];
    assert SelectedFrom(tl, 0, 1, wanted) == [];
    assert SelectedFrom(tl, 0, 0, wanted) == [IMPORTED_SELECTED] + [];
  }

  const IMPORTED_REST :=
    Clip("v-after-dead-air-1", Some("v-after-dead-air-1"), Some("raw/rec.mp4"), true, Some(SourceRange(5.0, 10.0)),
         None)

  lemma ImportPieces()
    ensures var p := ImportPlan(); p.Pieces(0, 0) == [ClipItem(IMPORTED_REST)] && p.Pieces(1, 0) == []
  {
    var p := ImportPlan();
    ImportKept();
    hide KeptOf;
    var c, kept := IMPORTED_SELECTED, [SourceRange(0.0, 2.0), SourceRange(5.0, 10.0)];
    assert p.Pick(0, 0) == Some(c) && p.Pick(1, 0) == None;
    ImportInserted(p.stamp);
  }

  lemma ImportInserted(stamp: string -> string)
    requires stamp == ImportPlan().stamp
    ensures InsertedItems(IMPORTED_SELECTED, [SourceRange(0.0, 2.0), SourceRange(5.0, 10.0)], NAME_PREFIX, 2, stamp)
      == [ClipItem(IMPORTED_REST)]
  {
    var c, kept := IMPORTED_SELECTED, [SourceRange(0.0, 2.0), SourceRange(5.0, 10.0)];
    hide Millis, InsertedName;
    ImportTimesAndName();
    assert InsertedItems(c, kept, NAME_PREFIX, 2, stamp) == [] + [ClipItem(IMPORTED_REST)];
  }

  lemma ImportTimesAndName()
    ensures InsertedName(IMPORTED_SELECTED, NAME_PREFIX, 1) == "v-after-dead-air-1"
    ensures Millis(5.0) == 5.0 && Millis(10.0) == 10.0
  {}

  lemma WovenOne(p: Plan, ti: nat, x: TrackItem)
    requires ti < |p.tl| && p.tl[ti].TrackNode? && |p.tl[ti].track.items| == 1
    ensures p.Woven(ti, [x], 1) == [x] + p.Pieces(ti, 0)
  {
    hide Plan.Pieces;
    assert p.Woven(ti, [x], 0) == [];
  }

  lemma ImportFilled()
    ensures var p := ImportPlan();
      && SameShape(ImportTrimmed(), p.tl)
      && p.Filled(ImportTrimmed())
         == PictureAndSound([Cut(IMPORTED_PICTURE, 0.0, 2.0), ClipItem(IMPORTED_REST)], [Cut(IMPORTED_SOUND, 0.0, 2.0)])
  {
    var p, base := ImportPlan(), ImportTrimmed();
    hide KeptOf, Plan.Pieces;
    ImportPieces();
    WovenOne(p, 0, base[0].track.items[0]);
    WovenOne(p, 1, base[1].track.items[0]);
    var xs, ys := base[0].track.items, base[1].track.items;
    assert xs == [Cut(IMPORTED_PICTURE, 0.0, 2.0)] && ys == [Cut(IMPORTED_SOUND, 0.0, 2.0)];
    assert p.Filled(base)[0] == TrackNode(Track("Video 1", true, p.Woven(0, xs, 1)));
    assert p.Filled(base)[1] == TrackNode(Track("A1", false, p.Woven(1, ys, 1)));
    hide Plan.Filled, Plan.Woven;
    assert |p.Filled(base)| == 2;
    assert xs + [ClipItem(IMPORTED_REST)] == [Cut(IMPORTED_PICTURE, 0.0, 2.0), ClipItem(IMPORTED_REST)];
    assert ys + [] == [Cut(IMPORTED_SOUND, 0.0, 2.0)];
  }
}
