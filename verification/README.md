# Verification model

A Dafny model of the parts of this repository where a wrong branch silently loses speech, answers a
request twice or misreports a timeline. Times are exact reals, integers unbounded. Check it with
`dafny verify dfyconfig.toml`.

- **Planning cuts.** `PlanRanges` holds the interval arithmetic every planner shares, `DeadAir` the
  silence and pause cuts with their 80 ms word guards, `PhraseSearch` the removal of spoken phrases.
  `EdlPlan` turns kept ranges into Trim and Insert operations and says what applying them does;
  `EdlReplay` proves what the running position offset makes of a whole list, `EdlLinks` what its trims do to
  linked clips, `EdlLimits` exactly when the planned timeline results, and `DeadAirRun` that the dead-air
  planner meets their conditions. `DeadAirCover`, `PhraseTokens` and `EdlApply` say what is cut, found and applied
  in terms of the words, texts and timelines themselves. `SilenceGuard`, `DeadAirEdges`, `DeadAirPrinted` and `DeadAirShown` say
  exactly which words its cuts respect, before and after printing.
- **The Codex bridge.** `BridgeProtocol` is the life of a server request as a state machine with its
  history, `BridgeRuns` what its runs guarantee, `Bridge` the code that carries out its steps on the shared
  map, channel and pipe.
  `RpcProtocol` and `RpcClient` are the same for the client's own requests, `TextBuffers` for streamed
  text, `Toml` for the printed overrides. Each lock-protected map operation and each write is one step,
  and runs interleave steps freely.
- **The transcript aligner.** `AlignMatch`, `AlignSegments` and `AlignOverlaps`.
- **Kernels.** `CaptionVariance`, `Exclusions`, `Catalog`, `Durations` and `DurationsExact`.
- `Sequences`, `Strings`, `Numbers` and `Decimal` hold sorting, string order, rounding and number printing.

Loops and objects of the source are methods and classes here, each proved against a function of its
inputs or its old state; the lemmas are about those functions. Those named `...Exactly` say what a function
computes without the function itself, with the constants written out.

## What the proofs turned up

- The dead-air planner does lose speech when words overlap: a long word that is still being spoken in a
  pause between two later words is cut (`DeadAirEdges.OverlappingWordIsLost`; `DeadAir.PlannerKeepsWords`
  gives the exact condition).
- The 80 ms guard goes by the padded silence, so a word that only overlaps the padding gets none
  (`SilenceGuard.PaddingHidesWords`, exactly when: `SilenceGuard.SilenceGuardExactly`).
- Times are printed to the millisecond, and a clean edge can be rounded into a word
  (`DeadAirPrinted.PrintingCutsIntoWords`, exactly when: `DeadAirPrinted.AlwaysPrintedCleanExactly` and
  `DeadAirShown.AlwaysShowsWordsExactly`); on whole milliseconds this does not happen.
- A planned trim is refused when the clip's end does not fall on a millisecond and rounds up, for instance
  at 24 frames per second (`DeadAirRun.RoundedRunIsRejected`, exactly when: `DeadAirRun.AlwaysFitsExactly`).
- The planner ignores words of blank text and the continuity rule does not, so a planned edge can be
  judged dirty (`DeadAirEdges.BlankWordTakesAnEdge`, exactly when: `DeadAirEdges.AlwaysCleanExactly`).
- A recording imported with picture and sound loses its sound after the first cut: the trim of the picture
  takes the linked sound along, the inserts do not (`DeadAirRun.ImportedSoundIsLost`). So does a clip split on
  the later of two tracks of one name go astray. Exactly when: `EdlLimits.PlanLandsExactly`; what results in
  general: `EdlReplay.Replays`.
- An interrupt does not silence requests of its turn that are still in the channel
  (`BridgeRuns.InterruptedApprovalGoesOut`, exactly which: `BridgeRuns.InterruptedCanBeAnswered`);
  the turn end that follows does.
- The aligner is described as monotonic and is not (`AlignMatch.MatcherMayStepBack`, exactly when:
  `AlignMatch.RawIncreasesExactly`); the bound it does keep, one window back, is enough for the scopes of its
  cuts. Its keeps and cuts can overlap (`AlignOverlaps.KeepsAndCutsOverlap`, exactly when:
  `AlignOverlaps.KeepsAndCutsApartExactly`).
- The episode map can report a timeline as longer than the visual check when titles, captions or annotations
  end late (`Durations.SparseOverlayReachesFurther`, exactly when: `Durations.EpisodeWithinVisualExactly`).
- A printed override with U+007F is not valid TOML (`Toml.OverrideReadsBack`).
- Upserting an asset can leave it in a bin that does not exist (`Catalog.OnlyUpsertsDangle`).

## Model

| member | source | states |
|---|---|---|
| PlanRanges.MergeRanges | crates/cli/src/plan_ranges.rs:46-59 | The sorting merge loop computes `Merged`, the canonical form characterised below. |
| PlanRanges.MergedIsMerge | crates/cli/src/plan_ranges.rs:46-59 | For any ranges the merged list is sorted with positive gaps, covers the same instants, and holds each input range inside one output range. |
| PlanRanges.MergedCanonical | crates/cli/src/plan_ranges.rs:46-59 | Two lists of non-inverted ranges merge to the same list exactly when they cover the same instants, whatever their order and overlaps. |
| PlanRanges.CoverDetermines | crates/cli/src/plan_ranges.rs:46-59 | A separated list of non-inverted ranges is determined by the instants it covers. |
| PlanRanges.MergedFixpoint | crates/cli/src/plan_ranges.rs:46-59 | Merging a merged list changes nothing. |
| PlanRanges.MergedBounds | crates/cli/src/plan_ranges.rs:46-59 | Merging keeps ranges within any window and above any minimum length the inputs respect. |
| PlanRanges.MergeAvoids | crates/cli/src/plan_ranges.rs:46-59 | A stretch no input range enters is not entered after merging. |
| PlanRanges.MergedEndpoints | crates/cli/src/plan_ranges.rs:46-59 | Merging invents no end: every merged range starts where some input range starts and ends where some input range ends. |
| PlanRanges.PushNonEmptyRange | crates/cli/src/plan_ranges.rs:38-43 | Appends the range unless it is shorter than 10 ms, and nothing else. |
| PlanRanges.KeptRangesAfterRemoving | crates/cli/src/plan_ranges.rs:15-35 | The cursor loop computes `KeptRanges`, which the next rows characterise; without cuts the whole clip is kept. |
| PlanRanges.KeptRangesConserveTime | crates/cli/src/plan_ranges.rs:15-43 | For cuts of at least 10 ms inside the clip: kept ranges lie in the clip, in order, disjoint from each other and from every cut, are at least 10 ms long when something was cut, and kept plus cut time falls short of the clip by less than 10 ms times (merged cuts + 1). |
| PlanRanges.UncoveredIsClear | crates/cli/src/plan_ranges.rs:26-34 | What the cursor loop leaves lies in the window, in order, at least 10 ms long and clear of every blocked range. |
| PlanRanges.UncoveredConserves | crates/cli/src/plan_ranges.rs:26-34 | The loop invents no time and loses less than 10 ms per blocked range and one more. |
| PlanRanges.UncoveredEdges | crates/cli/src/plan_ranges.rs:26-34 | Every edge of a kept range is an edge of the window or of a blocked range. |
| PlanRanges.UncutStretchIsKept | crates/cli/src/plan_ranges.rs:15-35 | Any stretch of at least 10 ms that no cut enters is kept in one piece. |
| PlanRanges.KeptExactly | crates/cli/src/plan_ranges.rs:15-35 | For cuts of at least 10 ms inside the clip, an instant is kept exactly when 10 ms of the clip that no cut enters hold it; the kept ranges have gaps between them, so the cuts determine them. |
| DeadAir.AppendTranscriptSafeSilenceCuts | crates/cli/src/plan_dead_air_edl_cmd.rs:154-167 | Appends to the list exactly what the guarded words leave free of the window. |
| DeadAir.TranscriptGapCuts | crates/cli/src/plan_dead_air_edl_cmd.rs:192-213 | The loop over neighbouring words cuts exactly the pauses longer than the limit, less guard and padding on each side. |
| DeadAir.DeadAirCuts | crates/cli/src/plan_dead_air_edl_cmd.rs:132-152 | The cuts are the merge of all silence cuts and gap cuts; what that covers is the next rows. |
| DeadAirCover.SilencesCutExactly | crates/cli/src/plan_dead_air_edl_cmd.rs:132-190 | An instant is in a silence cut exactly when, for some silence, it lies in 10 ms of the clip and of the silence less its padding that keep 80 ms from every spoken word there. |
| DeadAirCover.PausesCutExactly | crates/cli/src/plan_dead_air_edl_cmd.rs:192-233 | An instant is in a pause cut exactly when it lies between two neighbouring spoken words of the clip more than the limit apart, 80 ms and the padding off each, where at least 10 ms remain. |
| DeadAirCover.CutsExactly | crates/cli/src/plan_dead_air_edl_cmd.rs:132-213 | What `dead_air_cuts` returns covers exactly the instants in such a silence or pause. |
| DeadAirCover.KeepsExactly | crates/cli/src/plan_dead_air_edl_cmd.rs:132-213 | The planner keeps the whole clip when there is no such instant, and otherwise exactly the instants in 10 ms of the clip that no such silence or pause enters. |
| DeadAir.WindowCutsKeepGuard | crates/cli/src/plan_dead_air_edl_cmd.rs:154-190 | Cuts of one window, possibly empty or inverted, lie in it, are at least 10 ms long, and keep 80 ms clear of every usable word that overlaps it. |
| SilenceGuard.SilenceGuardExactly | crates/cli/src/plan_dead_air_edl_cmd.rs:139-190 | The cuts of a silence keep 80 ms clear of every usable word that overlaps the silence exactly when, of finitely many 10 ms spots (at either end of the padded part in the clip and beside each guard in it), those that are free are that far from those words. |
| SilenceGuard.CutsEndAtCorners | crates/cli/src/plan_dead_air_edl_cmd.rs:154-190 | Every cut of a window starts and ends at one of these spots. |
| SilenceGuard.SeenWordsAreGuarded | crates/cli/src/plan_dead_air_edl_cmd.rs:139-190 | So they do when every word that overlaps the silence overlaps its padded part in the clip. |
| SilenceGuard.PaddingHidesWords | crates/cli/src/plan_dead_air_edl_cmd.rs:139-143 | Not in general: a silence from 10 to 20 s padded by 20 ms is cut 10 ms after a word that ends at 10.01 s. |
| DeadAir.SilenceCutsSpareWords | crates/cli/src/plan_dead_air_edl_cmd.rs:139-144 | Silence cuts lie in the clip and never enter a usable word, even when words overlap each other. |
| DeadAir.RawCutsInClip | crates/cli/src/plan_dead_air_edl_cmd.rs:132-152 | All cuts, raw and merged, are at least 10 ms long and inside the clip. |
| DeadAir.NonOverlappingWordsStayClear | crates/cli/src/plan_dead_air_edl_cmd.rs:192-233 | Words that do not overlap never reach into a gap cut; the planner is therefore safe on ordinary transcripts. |
| DeadAir.CutsSpareWords | crates/cli/src/plan_dead_air_edl_cmd.rs:132-213 | If no word reaches into a gap cut, the merged cuts enter no usable word, for any silences. |
| DeadAir.PlannerKeepsWords | crates/cli/src/plan_dead_air_edl_cmd.rs:132-213 | In the ranges the planner keeps, before they are printed: for any silences, padding and gap limit, every usable word of which the clip shows at least 10 ms is whole in one range exactly when no word reaches past the start of a pause the gap rule cuts. |
| DeadAir.RuleMidSentence | crates/core/src/continuity.rs:217-243 | The scan answers abstain exactly without a transcript, dirty exactly when some word strictly contains the instant, clean otherwise. |
| DeadAir.PlannerEdgesAreClean | crates/core/src/continuity.rs:217-243 | Before printing, an edge the planner makes that is not a clip edge can only be judged dirty by a word of blank text, which the planner ignores and the rule does not; which inputs lead there is `AlwaysCleanExactly`. |
| DeadAirEdges.OverlappingWordIsLost | crates/cli/src/plan_dead_air_edl_cmd.rs:192-213 | Three words, the first still spoken in the pause after the second: the first is not kept whole. |
| DeadAirEdges.EdgeSpotsExactly | crates/cli/src/plan_dead_air_edl_cmd.rs:132-213 | For any words, silences can put an edge exactly on the instants, at least 10 ms inside the clip, that have on one side 10 ms no pause cut takes and on the other 10 ms without usable words or a pause cut that begins there. |
| DeadAirEdges.AlwaysCleanExactly | crates/core/src/continuity.rs:217-243 | For any words, all edges are clean for all silences exactly when no word reaches into a pause that is cut and no such instant lies inside a word of blank text. |
| DeadAirEdges.GapCutsStartAtSpots | crates/cli/src/plan_dead_air_edl_cmd.rs:192-213 | The start of every pause cut is such an instant: a word and its guards keep pause cuts apart. |
| DeadAirEdges.NoBlankWordsNoDirt | crates/core/src/continuity.rs:217-243 | Where no word reaches into a cut pause, all edges are clean in particular when no blank word of any length overlaps the clip. |
| DeadAirEdges.BlankWordTakesAnEdge | crates/core/src/continuity.rs:217-243 | A silence that starts inside a word of one space puts a dirty edge there. |
| DeadAirPrinted.GoalShowsPrinted | crates/cli/src/plan_ranges.rs:97-107 | In the timeline a plan aims at, each selected clip shows its kept ranges rounded to milliseconds, or itself when it is left alone. |
| DeadAirPrinted.EdgesArePrinted | crates/cli/src/plan_ranges.rs:97-107 | Every edge inside a clip is shown rounded: the planner changes such a clip. |
| DeadAirPrinted.ShownEdgesAre | crates/cli/src/plan_ranges.rs:97-107 | Every end of a shown range is a clip end, as it was or rounded, or such an edge rounded. |
| DeadAirPrinted.AlwaysPrintedCleanExactly | crates/core/src/continuity.rs:217-243 | For any words, all printed edges are clean for all silences exactly when no instant an edge can fall on is rounded into a word. |
| DeadAirPrinted.GridWordsPrintClean | crates/core/src/continuity.rs:217-243 | When words begin and end on whole milliseconds, printing keeps clean edges clean. |
| DeadAirPrinted.PrintedKeepsWords | crates/cli/src/plan_ranges.rs:97-107 | With clip, padding and usable words on whole milliseconds, what is shown keeps every word whole exactly when no word reaches into a pause cut, for any silences. |
| DeadAirPrinted.PrintedKeepsWordsNearly | crates/cli/src/plan_ranges.rs:97-107 | Where no word reaches into a cut pause, for any times, printing takes at most half a millisecond off each end of a kept word. |
| DeadAirShown.AlwaysShowsWordsExactly | crates/cli/src/plan_ranges.rs:84-116 | For any words, on or off whole milliseconds: for all silences what is shown holds every word of which the clip shows 10 ms whole, exactly when no end a range can have is printed inside such a word: no instant where a kept range can end or start and, once anything can be cut, no end of the clip. |
| DeadAirShown.ChangedWasCut | crates/cli/src/plan_ranges.rs:65-95 | The planner changes a clip only where a pause is cut or 10 ms are free of words. |
| DeadAirPrinted.PrintingCutsIntoWords | crates/cli/src/plan_ranges.rs:97-107 | A word from 1.0006 s on after a silence: its edge is clean, the printed edge 1.001 is dirty, and the word is no longer shown whole. |
| EdlPlan.SelectClips | crates/cli/src/plan_clip.rs:35-64 | The nested loops return what the next row describes, or fail when there is nothing. |
| EdlPlan.SelectsExactly | crates/cli/src/plan_clip.rs:35-99 | A clip is selected exactly when it is wanted and some video track holds, at its position, an active clip of an external asset with a range of positive length, of that asset, range and track and with that uuid, or that name when it has none; in strict order of track and position, each place once. |
| EdlPlan.AppendKeptRangesOps | crates/cli/src/plan_ranges.rs:84-116 | Appends one trim for the first kept range and one insert per further range at position + offset + index, and returns the number of inserts; nothing for an unchanged or emptied clip. |
| EdlApply.ClipOpsExactly | crates/cli/src/plan_ranges.rs:84-130 | Nothing is emitted exactly when nothing is kept or the one kept range is within a millisecond of the clip at both ends; otherwise a trim to the first range and, for the i-th further range, an insert of the asset at position + offset + i named after the clip, the prefix and i, with times to the millisecond. |
| EdlPlan.MillisClose | crates/cli/src/plan_ranges.rs:97-107 | Printing with three decimals moves a time by at most half a millisecond. |
| EdlPlan.MillisExact | crates/cli/src/plan_ranges.rs:97-107 | A whole number of milliseconds prints as itself. |
| Numbers.TiesGoToEven | crates/cli/src/plan_ranges.rs:97-107 | A number half-way between two integers is rounded to the even one. |
| EdlApply.TrimAppliesExactly | crates/core/src/edl/apply.rs:2919-3093 | A trim of the first clip with its uuid or name applies exactly when the clip has a range and the new one narrows it, by a microsecond or more; then this clip shows the new range, on every other track the first clip of its group that covered the old one does, and nothing else changes. |
| EdlApply.LostTrimsFail | crates/core/src/edl/anchor.rs:458-463 | Without a clip of that uuid or name a trim is rejected. |
| EdlApply.InsertAppliesExactly | crates/core/src/edl/apply.rs:3269-3469 | An insert of a non-empty range puts one active clip on the first track of the name, at the position or at the end of a shorter track, and changes nothing else; it is rejected exactly for an empty range or a missing track. |
| EdlReplay.Replays | crates/cli/src/plan_dead_air_edl_cmd.rs:36-89 | For a plan that splits no clip on a track with an earlier namesake: applying the whole edit list gives what its trims alone give, linked clips and rejections included, with the further ranges of every changed clip filled in right behind it, in order. |
| EdlLinks.PlanLands | crates/cli/src/plan_dead_air_edl_cmd.rs:43-85 | When no trim takes a linked clip along: applying the whole list gives the original with every changed clip replaced in place by its kept ranges in order and all other items unmoved, and is rejected exactly when rounding to milliseconds widens a trimmed clip. |
| EdlLinks.TrimsLandExactly | crates/core/src/edl/apply.rs:3041-3093 | When the changed clips of one link group lie on one track: the trims alone leave exactly the changed clips trimmed exactly when no changed clip has on another track a clip of its group that covers its range, and none is widened by rounding. |
| EdlLinks.SiblingShrinks | crates/core/src/edl/apply.rs:3041-3093 | A linked clip that covered a trimmed one always shows less after the trim. |
| EdlReplay.ReplayFrom | crates/cli/src/plan_dead_air_edl_cmd.rs:71-84 | From any point of the run the operations still to come trim what the trims among them trim and fill in the pieces still missing, the offset table holding how far each track's items have moved. |
| EdlReplay.ClipReplays | crates/cli/src/plan_ranges.rs:84-116 | One clip's trim acts on the partly filled timeline as on the original, rejection included, and its inserts then fill in its pieces. |
| EdlReplay.InsertsLand | crates/core/src/edl/apply.rs:3269-3469 | Inserts at position + offset + index land right behind the trimmed clip, in order. |
| EdlReplay.TrimStep | crates/core/src/edl/apply.rs:2919-3093 | A planned trim, of the first clip that answers to its anchor and of its linked clips on other tracks, does to the partly filled timeline what it does to the original: inserted pieces are never mistaken for linked clips. |
| EdlReplay.TrimPassesThrough | crates/core/src/edl/apply.rs:3041-3093 | So for the trim of any clip, whatever its group. |
| EdlReplay.TrimAllowedWhenFits | crates/core/src/edl/apply.rs:2953-2991 | Of a planner's trim the applier's checks demand only that rounding does not pass the clip's ends by more than a microsecond. |
| EdlReplay.FindClipAt | crates/core/src/edl/anchor.rs:458-463 | An anchor resolves to the first clip that carries the uuid or the name. |
| EdlReplay.CountsStep | crates/cli/src/plan_dead_air_edl_cmd.rs:71-84 | Adding a clip's insert count keeps the per-track offset equal to the growth of the track so far. |
| DeadAirRun.Run | crates/cli/src/plan_dead_air_edl_cmd.rs:36-89 | With caches for silences and words, the run returns exactly the specified operations of the selected clips, named after dead air, or the first of: bad arguments (a duration or limit that is not positive, a threshold that is not negative, a negative padding), no clip, failed silence detection of the first such clip. |
| DeadAirRun.RunKeepsExactly | crates/cli/src/plan_dead_air_edl_cmd.rs:36-70 | Of each clip a run keeps what `KeepsExactly` says, with the silences and words of its own asset, no words when there is no transcript, and the limit given or else the shortest silence. |
| DeadAirRun.KeptIsSound | crates/cli/src/plan_dead_air_edl_cmd.rs:64-70 | What the planner keeps of any clip meets the conditions of the replay. |
| DeadAirRun.RunReplays | crates/cli/src/plan_dead_air_edl_cmd.rs:36-89 | What a dead-air run does when it splits no clip on a track with an earlier namesake, whatever the media and links: its trims, and each changed clip's further ranges right behind it. |
| DeadAirRun.RunLands | crates/cli/src/plan_dead_air_edl_cmd.rs:36-89 | When no trim takes a linked clip along, the run's list applies as planned or is rejected exactly when rounding widens a clip. |
| DeadAirRun.TrimFitsWhen | crates/core/src/edl/apply.rs:2960-2991 | Rounding can only widen a clip end the planner left where it was; cut edges are always accepted. |
| DeadAirRun.AlwaysFitsExactly | crates/core/src/edl/apply.rs:2953-2991 | A clip's trim is accepted for all media exactly when the clip is under 20 ms or neither of its ends is rounded outwards by more than a microsecond. |
| DeadAirRun.EndsInsideRunsLandExactly | crates/cli/src/plan_dead_air_edl_cmd.rs:36-89 | When no selected clip's end is rounded outwards, as on whole milliseconds, and changed clips of one link group lie on one track: the run lands exactly when no clip is split on a track with an earlier namesake and no changed clip has on another track a clip of its group that covers its range. |
| DeadAirRun.EndsInsideAllFit | crates/core/src/edl/apply.rs:2953-2991 | Then every trim of the run passes the applier's check. |
| DeadAirRun.RoundedRunIsRejected | crates/core/src/edl/apply.rs:2960-2971 | For one clip of 25 frames at 24 frames per second with a silent first half second, applying the operations the planner emits is rejected. |
| DeadAirRun.ImportedSoundIsLost | apps/desktop/src-tauri/src/commands/auto_insert.rs:107-143 | A recording of 10 s imported with picture and sound, silent from 2 to 5 s: the run leaves 0 to 2 and 5 to 10 s of the picture and only 0 to 2 s of the sound. |
| EdlLimits.PlanLandsExactly | crates/core/src/edl/apply.rs:3041-3093 | When the changed clips of one link group lie on one track, the list gives the planned timeline exactly when no clip is split on a track with an earlier namesake, no changed clip has on another track a clip of its group that covers its range, and no trimmed clip is widened by rounding. |
| EdlLimits.ShadowedSplitsGoAstray | crates/core/src/edl/apply.rs:3294-3304 | No list of these operations puts several pieces in the place of a clip on the later of two tracks of one name. |
| EdlLimits.OpSparesShadowed | crates/core/src/edl/apply.rs:3294-3304 | One operation never changes the number of items of a track that has an earlier namesake. |
| PhraseSearch.TokensAreStable | crates/cli/src/plan_transcript_trim_edl_cmd.rs:332-345 | Tokens are non-empty words of lower-case ASCII letters and digits, and joining them with spaces tokenizes to the same list. |
| PhraseTokens.TokensAreWritten | crates/cli/src/plan_transcript_trim_edl_cmd.rs:332-345 | The tokens of a text stand in it one after the other without touching, letters in lower case, and hold each of its ASCII letters and digits: they are its longest stretches of these. |
| PhraseTokens.WrittenDetermines | crates/cli/src/plan_transcript_trim_edl_cmd.rs:332-345 | No other list of words has this property. |
| PhraseTokens.StreamBySegment | crates/cli/src/plan_transcript_trim_edl_cmd.rs:264-284 | The stream holds of each segment exactly its own tokens in order. |
| PhraseTokens.SearchIgnoresCase | crates/cli/src/plan_transcript_trim_edl_cmd.rs:264-345 | Changing the case of letters in phrase or transcript changes nothing. |
| PhraseSearch.FindsEarliest | crates/cli/src/plan_transcript_trim_edl_cmd.rs:264-297 | The search returns the segments of the first and last word of the earliest place where the words of the phrase follow each other in the stream, and nothing exactly when the phrase has no word or they follow each other nowhere. |
| PhraseSearch.FoundByItsSegment | crates/cli/src/plan_transcript_trim_edl_cmd.rs:264-297 | A phrase spoken within one segment is found there or earlier. |
| PhraseSearch.TokensInOrder | crates/cli/src/plan_transcript_trim_edl_cmd.rs:272-284 | The token stream runs through the segments in order. |
| PhraseSearch.TranscriptRemovedRanges | crates/cli/src/plan_transcript_trim_edl_cmd.rs:347-363 | Collects the span of each phrase inside the clip, or fails on the first phrase that is nowhere. |
| PhraseSearch.RemovedPhrasesAreGone | crates/cli/src/plan_transcript_trim_edl_cmd.rs:104-118 | After a removal no kept range reaches into the span of a removed phrase where the clip shows at least 10 ms of it, and all other clip time is kept but for slivers under 10 ms. |
| PhraseSearch.ShortPhrasesStay | crates/cli/src/plan_transcript_trim_edl_cmd.rs:354-361 | A phrase is cut exactly when the clip shows at least 10 ms of its span, and then exactly that part. |
| PhraseTokens.PhrasesCutExactly | crates/cli/src/plan_transcript_trim_edl_cmd.rs:347-363 | An instant is cut exactly when, for some phrase, it lies in the clip between the start of the first segment found and the end of the last, where at least 10 ms of that are in the clip. |
| PhraseSearch.PlanRemoval | crates/cli/src/plan_transcript_trim_edl_cmd.rs:104-170 | Refuses exactly an empty list or a blank phrase, before anything else; then fails on the first phrase that is nowhere, and otherwise when nothing of the clip would be left. |
| BridgeProtocol.NextKeepsInv | crates/codex-bridge/src/lib.rs:265-379 | Every step keeps the protocol invariant: channel, pending map, begun replies and written answers each hold exactly the requests whose fate says so. |
| BridgeProtocol.RunKeepsInv | crates/codex-bridge/src/lib.rs:265-379 | So does every run. |
| BridgeRuns.AnsweredAtMostOnce | crates/codex-bridge/src/external.rs:475-509 | In every run each server request is answered at most once across reader and bridge, under its own id and with an answer its method allows; with distinct ids no id is answered twice. |
| BridgeRuns.EveryRequestIsInOnePlace | crates/codex-bridge/src/lib.rs:511-664 | In every run each request is in exactly the one place its fate names: channel, pending map, begun reply, written answers, or none. |
| BridgeRuns.EachRequestIsTreatedAsFated | crates/codex-bridge/src/lib.rs:287-379 | A step changes a request's fate exactly as the request's own view says: taken up in order, cleared by its turn, overwritten by its item id, consumed by a wrong-kind reply, dropped with the pump, answered or lost on write. |
| BridgeRuns.SettledForGood | crates/codex-bridge/src/lib.rs:265-379 | A settled request keeps its outcome in every continuation. |
| BridgeRuns.TurnEndSettles | crates/codex-bridge/src/lib.rs:419-472 | Once the pump handles a turn end, every request of that turn that arrived before it has left channel and map. |
| BridgeRuns.TurnEndTakesEffect | crates/codex-bridge/src/lib.rs:419-509 | Whatever happens meanwhile: once the pump has taken as many events as the channel held before a turn end and one more, every request of the turn that had arrived is settled or being answered. |
| BridgeRuns.RepliesAfterTurnEndAreSilent | crates/codex-bridge/src/lib.rs:419-472 | A request of a turn whose end the pump handles, not yet being answered, is never answered, whatever is replied later. |
| BridgeRuns.ClearedIsSilent | crates/codex-bridge/src/lib.rs:265-283 | A request cleared with its turn, by the turn's end or an interrupt, is never answered in any continuation. |
| BridgeRuns.WaitingCanBeAnswered | crates/codex-bridge/src/lib.rs:287-379 | A request that waits in the channel or in the map can still be answered. |
| BridgeRuns.InterruptedCanBeAnswered | crates/codex-bridge/src/lib.rs:265-283 | After an interrupt of its turn some continuation answers a request exactly when it was in the channel or being answered. |
| BridgeRuns.InterruptedApprovalGoesOut | crates/codex-bridge/src/lib.rs:265-283 | An approval asked for, interrupted in the channel, taken up and allowed is still accepted towards the server. |
| BridgeRuns.InterruptSilences | crates/codex-bridge/src/lib.rs:265-283 | At once, an interrupt settles all arrived requests of its turn exactly when none is in the channel or being answered. |
| BridgeRuns.RoundTrip | crates/codex-bridge/src/lib.rs:287-344 | From any state with the pump alive: a forwarded request, taken up after what is queued before it, and replied to, adds exactly what the reply means for its method under its own id, or nothing for a reply of the other kind. |
| BridgeProtocol.RepliesAsMeant | crates/codex-bridge/src/lib.rs:287-379 | Command and file approvals answer `accept`, `acceptForSession` or `decline`; permission requests the permissions asked for with `turn` or `session`, and an empty object with `turn` for a denial; user input the question asked and the reply text; replies of the other kind give nothing. |
| BridgeRuns.AnswersAsMeant | crates/codex-bridge/src/lib.rs:287-407 | In any state a reply to a waiting request, written at once, adds exactly this under the request's id. |
| BridgeRuns.ReadsExactly | crates/codex-bridge/src/external.rs:475-521 | A request is put on the channel exactly when it is well-formed and of one of the four methods; any other is answered on the spot with -32000 for a token refresh and -32601 otherwise. |
| BridgeProtocol.PendingExactly | crates/codex-bridge/src/lib.rs:523-664 | What is remembered of a request: its ids, its kind by its method, the question of a user input and the permissions of a permission request. |
| BridgeProtocol.RefusedExactly | crates/codex-bridge/src/external.rs:475-521 | Which requests wait for the desktop and with which code the reader refuses the others. |
| BridgeProtocol.RefusalFits | crates/codex-bridge/src/external.rs:475-509 | What the reader answers on the spot is an answer the method allows. |
| BridgeProtocol.ReplyFits | crates/codex-bridge/src/lib.rs:297-375 | What a reply of the right kind sends is an answer the method allows: a decision word, exactly the permissions asked for or none, an answer to the question asked. |
| Bridge.CodexBridge.HandleServerRequestMessage | crates/codex-bridge/src/external.rs:475-509 | Carries out the protocol step: one line refusing the request, or one event on the channel while the pump lives, and nothing else. |
| Bridge.CodexBridge.HandleTurnEndMessage | crates/codex-bridge/src/lib.rs:450-509 | Carries out the protocol step: a turn end goes on the channel behind the requests before it, while the pump lives. |
| Bridge.CodexBridge.PumpEvent | crates/codex-bridge/src/lib.rs:419-472 | Carries out the protocol step: the head of the channel leaves it, and the map gains the request under its item id or loses the entries of the ended turn. |
| Bridge.CodexBridge.HandleServerRequest | crates/codex-bridge/src/lib.rs:523-664 | The map gains the request under its item id, displacing an older one. |
| Bridge.CodexBridge.ClearPendingForTurn | crates/codex-bridge/src/lib.rs:511-519 | Exactly the entries of other turns remain. |
| Bridge.CodexBridge.Interrupt | crates/codex-bridge/src/lib.rs:265-283 | Carries out the protocol step whatever the interrupt request returned: the entries of the turn leave the map, channel and pipe stay. |
| Bridge.CodexBridge.StopPumping | crates/codex-bridge/src/lib.rs:419-448 | The pump ends and what was queued is dropped. |
| Bridge.CodexBridge.BeginReplyTo | crates/codex-bridge/src/lib.rs:287-379 | The entry leaves the map first; exactly a missing entry or one of the other kind is refused after that; what is begun says under the request's id what the reply means. |
| Bridge.CodexBridge.SendResolve | crates/codex-bridge/src/lib.rs:401-407 | Writes the begun answer under its id, or loses it when the write fails. |
| RpcProtocol.EachWaiterCompletesOnce | crates/codex-bridge/src/external.rs:191-205 | In every run request ids never collide although two counters issue them, each waiter is sent at most one message, a reply only under its own id, and is in the map exactly until completed or its write failed. |
| RpcProtocol.NextExactly | crates/codex-bridge/src/external.rs:191-205 | What each event changes: a request joins under its id, a failed write takes its id out, a reply completes the waiter of its id with its payload, anything too late or for no waiter changes nothing. |
| RpcProtocol.IdsAreInOrder | crates/codex-bridge/src/external.rs:139-148 | In every run the launch requests are numbered 1 and 2 in that order and the turn requests upwards from 100. |
| RpcProtocol.CloseWakesEveryone | crates/codex-bridge/src/external.rs:515-521 | Closing the stream fails every waiting request and empties the map. |
| RpcProtocol.NoWakeAfterClose | crates/codex-bridge/src/external.rs:409-461 | After the close nobody is completed: a request registered later is never woken by the stream. |
| RpcProtocol.CompletionIsFinal | crates/codex-bridge/src/external.rs:439-461 | What a waiter was told never changes. |
| RpcProtocol.NextKeepsInv | crates/codex-bridge/src/external.rs:191-205 | Every step keeps ids distinct, the map equal to the waiting requests, and one message per completed waiter. |
| RpcProtocol.RunKeepsInv | crates/codex-bridge/src/external.rs:191-205 | So does every run. |
| RpcClient.TurnCounter.NextRequestId | crates/codex-bridge/src/lib.rs:672-676 | Returns the counter and advances it by one. |
| RpcClient.AppServerClient.LaunchRequest | crates/codex-bridge/src/lib.rs:179-214 | Registers a waiter under the next per-connection id, displacing none. |
| RpcClient.AppServerClient.TurnRequest | crates/codex-bridge/src/lib.rs:240-275 | Registers a waiter under the next process-wide id, displacing none, whatever other connections took from the counter. |
| RpcClient.AppServerClient.RequestWritten | crates/codex-bridge/src/external.rs:191-205 | A failed write takes the id out of the map again. |
| RpcClient.AppServerClient.HandleResponse | crates/codex-bridge/src/external.rs:439-461 | A response goes to its waiter alone; one with an unknown id changes nothing. |
| RpcClient.AppServerClient.FailPending | crates/codex-bridge/src/external.rs:515-521 | Carries out the protocol's close: every waiter told, map empty. |
| RpcClient.AppServerClient.Drain | crates/codex-bridge/src/external.rs:515-521 | Draining in any order tells each held waiter once and no other. |
| TextBuffers.NotificationMapper.MapNotification | crates/codex-bridge/src/mappers.rs:22-67 | A delta appends to its buffer and emits the whole of it; a completion removes the buffer named by the item id. |
| TextBuffers.BuffersHoldDeltas | crates/codex-bridge/src/mappers.rs:22-67 | After any trace each buffer holds the deltas for its key since an item of that name last completed. |
| TextBuffers.DeltaShowsItsItem | crates/codex-bridge/src/mappers.rs:22-67 | For plain names, under the item's own id, a message delta carries all deltas of its item since it last completed; reasoning and summary deltas carry everything of that part ever. |
| TextBuffers.ParametersAre | crates/codex-bridge/src/mappers.rs:330-336 | A missing name or delta counts as the empty string and a missing number as zero. |
| TextBuffers.OthersShowNothing | crates/codex-bridge/src/mappers.rs:22-67 | Completions and other notifications emit no text. |
| TextBuffers.KeysApart | crates/codex-bridge/src/mappers.rs:346-352 | Exactly which keys collide for all items and numbers: those of the same part, and a part numbered below zero with the same number above zero of the item with a dash more; a summary counts as reasoning of an item named `summary-` and its own name. |
| Toml.FormatOverride | crates/codex-bridge/src/external.rs:337-359 | The character loop prints the key, an equals sign and the quoted text. |
| Toml.PrintedExactly | crates/codex-bridge/src/external.rs:337-359 | The key, an equals sign and, in quotes, each character in turn: five short escapes, `\u` and four upper-case digits for other control characters, the rest as it is. |
| Decimal.NatReadsBack | crates/codex-bridge/src/mappers.rs:346-352 | A number is printed in decimal without leading zeros. |
| Toml.OverrideReadsBack | crates/codex-bridge/src/external.rs:337-359 | Split at the first equals sign and read as a TOML v1.0.0 basic string, an override gives back key and text exactly when the key has no equals sign and the text no U+007F. |
| Toml.ValueIsOneLine | crates/codex-bridge/src/external.rs:338-341 | The printed value holds no control character below U+0020, so it stays on one line. |
| AlignMatch.MatchWindows | tools/taste-corpus/align.py:100-154 | The loop makes exactly the matches of a run: while locked the first best raw window at most two before and forty past the frontier, otherwise from the frontier on, kept when at least 0.18 alike; the lock holds exactly while a match exists and at most three windows with words missed since. |
| AlignMatch.MatchedExactly | tools/taste-corpus/align.py:119-154 | A window is matched to a raw window exactly when it has words and that one is in reach, at least 0.18 alike and the earliest of the most alike in reach: before the first match all, then those behind the last match, and while at most three windows with words were missed since only the next forty, the last match and the one before it. |
| AlignMatch.MissesCounted | tools/taste-corpus/align.py:146-153 | The misses are the published windows with words since the last match. |
| AlignMatch.BestInBand | tools/taste-corpus/align.py:141-145 | The inner loop finds the earliest best window of the band, if any is better than nothing. |
| AlignMatch.RunSteps | tools/taste-corpus/align.py:119-154 | Published indices strictly increase; a match made while locked lies at most one window back and forty ahead of the previous one, one made after losing the lock strictly after it. |
| AlignMatch.HistoryGrows | tools/taste-corpus/align.py:119-154 | Matches are never revised and a published window is matched at most once. |
| AlignMatch.RunsAgree | tools/taste-corpus/align.py:119-154 | The rules determine the matches. |
| AlignMatch.StepsBackExactly | tools/taste-corpus/align.py:128-154 | A window adds a match that does not increase the raw index exactly when, while locked, a raw window of the band at or before the previous match is similar enough and none of the band is more similar. |
| AlignMatch.RawIncreasesExactly | tools/taste-corpus/align.py:119-154 | Raw indices increase over a run exactly when no window does so. |
| AlignMatch.RawIncreasesWhenNothingCrosses | tools/taste-corpus/align.py:119-154 | They do whenever no later published window is at least 0.18 alike to the same raw window as an earlier one or to the window before it. |
| AlignMatch.MatcherMayStepBack | tools/taste-corpus/align.py:103-103 | The matcher is not monotonic as its description says: two topics told in the other order, and the empty last window both transcripts have, are matched backwards. |
| AlignSegments.KeepRuns | tools/taste-corpus/align.py:183-191 | The runs are maximal chains of close matches and join back to the match list. |
| AlignSegments.BreaksExactly | tools/taste-corpus/align.py:183-191 | A new run starts exactly where the next match is not 1 to 4 published and 1 to 8 raw windows ahead. |
| AlignSegments.ConcatJoins | tools/taste-corpus/align.py:183-191 | The runs follow one another in the match list. |
| AlignSegments.KeepRunSpeed | tools/taste-corpus/align.py:193-202 | In each run both indices strictly increase and the unrounded speed lies strictly between 1/4 and 8. |
| AlignSegments.CoveredFlags | tools/taste-corpus/align.py:216-218 | A flag is set exactly when some match has that raw index. |
| AlignSegments.LongGaps | tools/taste-corpus/align.py:220-242 | The gaps found are exactly the maximal unmatched stretches of at least 45 s, in order. |
| AlignSegments.CutsPartitionLongGaps | tools/taste-corpus/align.py:220-242 | No cut contains a matched window, and each window of a long stretch lies in exactly one cut. |
| AlignSegments.ScopesAreRight | tools/taste-corpus/align.py:213-230 | Although raw indices may step back, a cut is pre-show exactly when it precedes every matched window and post-show exactly when it follows every one. |
| AlignOverlaps.CutsInsideRuns | tools/taste-corpus/align.py:183-242 | A cut meets a keep run's stretch exactly when it lies between two linked matches of the run, whose step then leaves out at least 45 s. |
| AlignOverlaps.KeepsAndCutsApartExactly | tools/taste-corpus/align.py:157-245 | In the whole result every keep is clear of every cut exactly when no long gap lies between two consecutive linked matches. |
| AlignOverlaps.LongStepsAreCut | tools/taste-corpus/align.py:220-242 | A step that leaves out a long unmatched stretch gives such a cut. |
| AlignOverlaps.KeepsAndCutsOverlap | tools/taste-corpus/align.py:183-242 | At windows of 15 s with the empty last windows both transcripts have, the matcher can match two neighbouring published windows eight raw windows apart: one keep from 0 to 135 s with 15 to 120 s of it cut. |
| AlignSegments.BuildSegments | tools/taste-corpus/align.py:157-245 | The result is sorted by raw start, ties in the order keeps, cuts, and holds per run one keep, from the start of its first to the end of its last window in both recordings, at speed 1 where the raw time is less than the threshold times the published, otherwise within 0.005 of their ratio, with the mean similarity within 0.0005; and per long gap one cut; without matches one cut over everything. |
| AlignSegments.MatcherStepsBackByOne | tools/taste-corpus/align.py:119-154 | What the matcher produces meets the segmenter's needs. |
| CaptionVariance.LumaVarianceInRect | crates/core/src/caption_rendered_output_scorer.rs:249-270 | The one-pass result is the population variance of the box's pixels in the frame, 0 when there are none; every index is in bounds. |
| CaptionVariance.LumaVarianceInHalo | crates/core/src/caption_rendered_output_scorer.rs:272-305 | Likewise for the clamped outer box minus the box. |
| CaptionVariance.OnePassIsVariance | crates/core/src/caption_rendered_output_scorer.rs:264-269 | Mean of squares minus square of the mean is the mean squared distance from the mean. |
| CaptionVariance.RegionsAreExact | crates/core/src/caption_rendered_output_scorer.rs:249-315 | Both scans visit each pixel of their region exactly once and no other: the box in the frame; and the frame within 8 pixels of the box but not in it, a box near the upper or left edge reaching 16 further than its size. |
| CaptionVariance.ValuesAreExact | crates/core/src/caption_rendered_output_scorer.rs:249-305 | The two variances are over exactly these pixel values. |
| CaptionVariance.StoredByRow | crates/core/src/caption_rendered_output_scorer.rs:249-270 | The value of a pixel is at its row times the frame width plus its column, always within the frame. |
| CaptionVariance.ClampIsIntersection | crates/core/src/caption_rendered_output_scorer.rs:307-315 | Clamping keeps exactly the pixels of the box that are in the frame. |
| CaptionVariance.VarianceBounds | crates/core/src/caption_rendered_output_scorer.rs:249-305 | Any such variance lies between 0 and 255*255/4. |
| CaptionVariance.FlatIsZero | crates/core/src/caption_rendered_output_scorer.rs:249-270 | Pixels of one value have variance 0. |
| CaptionVariance.FlatBoxIsOccluded | crates/core/src/caption_rendered_output_scorer.rs:165-168 | A box of one brightness, or with no pixel in the frame, is always flagged. |
| CaptionVariance.BusySurroundingsOcclude | crates/core/src/caption_rendered_output_scorer.rs:165-168 | Surroundings close to the largest possible variance flag any box. |
| CaptionVariance.FlatSurroundings | crates/core/src/caption_rendered_output_scorer.rs:165-168 | Against surroundings of one brightness, or none, a box passes exactly when its own variance is 4 or more. |
| CaptionVariance.SomeBoxesPass | crates/core/src/caption_rendered_output_scorer.rs:165-168 | Two pixels that fill the frame pass exactly when they differ by 4 or more. |
| CaptionVariance.WithinInsetIsSafe | crates/core/src/caption_rendered_output_scorer.rs:238-247 | A non-empty box passes exactly when each of its pixels is in the safe area. |
| CaptionVariance.WithinInsetExactly | crates/core/src/caption_rendered_output_scorer.rs:238-247 | Any box, also an empty one, passes exactly when its edges keep to the insets, one without extent at zero excepted. |
| CaptionVariance.ScoreEvents | crates/core/src/caption_rendered_output_scorer.rs:146-213 | One finding per event in order, with counts that match the findings; fails exactly when every sample failed. |
| CaptionVariance.CountsAreExact | crates/core/src/caption_rendered_output_scorer.rs:190-213 | The counts are the numbers of findings that could be scored, lie in the safe area, are flagged. |
| CaptionVariance.ScoreEvent | crates/core/src/caption_rendered_output_scorer.rs:148-189 | The finding says what the sampled frame shows, or that sampling failed. |
| Exclusions.ExpandedExclusions | crates/cli/src/index_perf_cmd.rs:226-250 | The fixpoint loop terminates with the sorted least set that contains the base names and is closed under "depends on an excluded name". |
| Exclusions.OrderDoesNotMatter | crates/cli/src/index_perf_cmd.rs:226-250 | The result depends only on the sets of servers and base names. |
| Exclusions.ExcludedMeansReaching | crates/cli/src/index_perf_cmd.rs:226-250 | A name is excluded exactly when dependencies lead from it to a base name. |
| Exclusions.SelectIndexers | crates/cli/src/index_perf_cmd.rs:140-163 | Of the servers asked for, or all, exactly those are selected, in order, from which no chain of dependencies among them leads to an excluded indexer, or to whisper unless included; it fails exactly when there are none at all, or none left. |
| Exclusions.ConsideredExactly | crates/cli/src/index_perf_cmd.rs:140-163 | The servers considered are those of the names asked for, in order, or all when none is. |
| Catalog.MontageMetadata.Upsert | crates/core/src/media_catalog_mutation.rs:45-79 | Adds the path to the sorted sources, merges the record into its namesake or appends it, and sorts. |
| Catalog.MontageMetadata.Create | crates/core/src/media_catalog_mutation.rs:82-106 | Adds the bin and sorts; refuses a duplicate id or a missing parent. |
| Catalog.MontageMetadata.Move | crates/core/src/media_catalog_mutation.rs:109-127 | Sets the asset's bin; refuses a missing bin or asset, the bin first. |
| Catalog.MontageMetadata.EnsureAssetCatalog | crates/core/src/media_catalog_mutation.rs:40-42 | Creates an empty catalog when there is none and changes nothing otherwise. |
| Catalog.UpsertExactly | crates/core/src/media_catalog_mutation.rs:45-79 | An upsert adds its path to the sources and changes the asset of its id alone: each value it names replaces, label, rating and provenance it leaves out stay, tags are united and sorted; without such an asset the record is added. |
| Catalog.CreateExactly | crates/core/src/media_catalog_mutation.rs:82-106 | A creation is refused exactly for an existing id, then for a missing parent; otherwise the one bin is added. |
| Catalog.MoveExactly | crates/core/src/media_catalog_mutation.rs:109-127 | A move is refused exactly for a missing bin, then for a missing asset; otherwise the first asset of the id is in the bin and nothing else has changed. |
| Catalog.EnsuredExactly | crates/core/src/media_catalog_mutation.rs:40-42 | Without a catalog there are no assets and bins; every mutation, also a refused one, leaves a catalog behind. |
| Catalog.SoundIsSorted | crates/core/src/media_catalog_mutation.rs:45-106 | Sources, bins and assets of a sound catalog are sorted by string and distinct. |
| Strings.LeqExactly | crates/core/src/media_catalog_mutation.rs:45-79 | Strings are ordered by the first character in which they differ, a prefix first. |
| Strings.WhitespaceIs | crates/cli/src/plan_dead_air_edl_cmd.rs:215-233 | The characters that make a text blank are the 25 with the Unicode property White_Space. |
| Catalog.ApplyKeepsInv | crates/core/src/media_catalog_mutation.rs:45-127 | Every mutation, accepted or refused, keeps sources, bins and assets sorted and distinct, paths listed, and the bins ranked. |
| Catalog.CatalogStaysSound | crates/core/src/media_catalog_mutation.rs:45-127 | After any sequence of mutations from an empty catalog: unique sorted bins and assets, every path in the sorted sources, every parent exists, and from every bin the parents reach a root in fewer steps than there are bins. |
| Catalog.OnlyUpsertsDangle | crates/core/src/media_catalog_mutation.rs:45-127 | A mutation leaves every bin reference good exactly when it is not an upsert of a record that names a missing bin. |
| Durations.SummarizeTrack | crates/core/src/episode_map.rs:307-338 | The cursor loop counts the clips and trimmed clips at any depth and finds the furthest end of a clip or nested stack. |
| Durations.SummarizeStack | crates/core/src/episode_map.rs:278-305 | Likewise for a stack, whose children all start at zero. |
| Durations.Summarize | crates/core/src/episode_map.rs:229-245 | Likewise for the root, where only tracks are looked at. |
| Durations.TimelineSummary.AddClip | crates/core/src/episode_map.rs:255-269 | Counts the clip, counts it as trimmed when it shows over a millisecond less than its media, and extends the end. |
| Durations.TimelineSummary.MergeNested | crates/core/src/episode_map.rs:271-275 | Adds both counts and extends the end by the nested one, shifted. |
| DurationsExact.RootClipsExactly | crates/core/src/episode_map.rs:229-338 | The clips counted are those the ways down through the root's tracks lead to, every clip once for its one way. |
| DurationsExact.StackClipsExactly | crates/core/src/episode_map.rs:278-305 | Likewise for a stack, at any depth. |
| DurationsExact.TrimmedExactly | crates/core/src/episode_map.rs:255-269 | Those counted as trimmed leave out more than a millisecond of the range their media declares. |
| DurationsExact.TrackReachExactly | crates/core/src/episode_map.rs:307-362 | On a track the children stand end to end, and its duration is the largest of zero and the ends of its clips and stacks; clips of a track for titles, captions or annotations take no room and end where their source range ends. |
| DurationsExact.CursorIsEndToEnd | crates/core/src/episode_map.rs:307-338 | The running cursor is such a layout. |
| DurationsExact.StackReachExactly | crates/core/src/episode_map.rs:278-305 | A stack's duration is the largest of zero and its children's. |
| DurationsExact.RootReachExactly | crates/core/src/episode_map.rs:229-245 | The timeline's is the largest of zero and its tracks'. |
| DurationsExact.StackLengthExactly | crates/cli/src/visual_qa_cmd.rs:193-215 | The visual check takes a stack to last as long as its own source range, or as its longest child when it has none. |
| DurationsExact.TrackLengthExactly | crates/cli/src/visual_qa_cmd.rs:217-228 | Each child of a track adds its own length, a transition nothing. |
| Durations.EpisodeWithinVisual | crates/cli/src/visual_qa_cmd.rs:186-228 | With non-negative durations, stack source ranges that leave out nothing and no sparse overlays, the episode map's duration never exceeds the visual check's, and they are equal when the root holds only tracks, no stack has a source range and no track at any depth ends in a gap, transitions aside. |
| Durations.TrackReachWithin | crates/core/src/episode_map.rs:307-338 | On a track the furthest end never passes the cursor nor the cursor the length; they meet when the track does not end in a gap. |
| Durations.TrailingGap | crates/cli/src/visual_qa_cmd.rs:217-228 | A gap added at the end of any track lengthens the visual check's duration by itself and leaves the episode map's alone. |
| Durations.EpisodeWithinVisualExactly | crates/core/src/episode_map.rs:307-338 | With sparse overlay tracks on the root, and everything else plain as above, the episode map's duration stays within the visual check's exactly when no overlay clip's source range ends after it. |
| Durations.SparseOverlayReachesFurther | crates/core/src/episode_map.rs:313-318 | It need not: a title from 5 to 6 s on a track of its own. |

## Left out

- Floating point: rounding, infinities and NaN; times, cosines and variances are exact reals, so checks for finite numbers have no counterpart.
- EdlPlan.ApplyOp: does not model snapping, placement by time or the creation of a missing track, none of which a planner's operations ask for, nor the check that keeps generated visuals inside the timeline; of anchors only the uuid-or-name lookup, since the planner's anchors always name a clip.
- EdlReplay.Replays: assumes anchors that name no clip before the selected one, and assets that are not generated visuals; the uuid stamped on an inserted clip is a function of its name, and is assumed not to be the anchor of a selected clip.
- EdlLimits.PlanLandsExactly: is exact for plans whose changed clips of one link group lie on one track, as imports make them; for the others `EdlReplay.Replays` gives the timeline by its trims.
- DeadAirPrinted.AlwaysPrintedCleanExactly: speaks of edges inside the clip; a clip's own ends are printed rounded like any other time.
- EdlPlan.SelectClips: the selector is any predicate; matching file names and stems is not modelled.
- The printed text of edit lists; operations are values, with times as printed.
- DeadAirRun.Run: silence detection and transcript loading are functions of the asset.
- PhraseSearch: filler and false-start removal, which reuse the same kept-range code, and reading the sidecar.
- BridgeProtocol: the items shown to the desktop, JSON decoding, and the channel's capacity; a full channel only delays the reader.
- RpcProtocol.NoWakeAfterClose: no liveness is claimed; a request sent after the stream closed may wait forever. Wrap-around of the 64-bit counters is not modelled, and a launch sends its two requests once.
- TextBuffers: the other arms of the notification mapper, which keep no state.
- Toml.FormatOverride: the other override printers and path display.
- AlignSegments.BuildSegments: rounds exact numbers, not their binary approximations, and leaves out a segment's field names.
- AlignMatch: reading cues and the weights behind the cosine; the cosine is any function of two window indices.
- CaptionVariance.ScoreEvents: parsing the sidecar and laying out the caption box; boxes whose edges overflow 32 bits and frames without one byte per pixel are excluded, as the source would fail on them.
- Exclusions.SelectIndexers: reading the server configuration and running the indexers.
- Catalog: creating the project's metadata block around the catalog.
- Durations: the other lines of the episode map, and the visual check's file handling.
- Everything that is I/O, process control, authentication or user interface, and the scoring tables, classifiers and other continuity rules, each of which is a fact about one branch.
