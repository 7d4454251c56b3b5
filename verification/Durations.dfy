/** Two durations of one timeline: the episode map's (crates/core/src/episode_map.rs) and the visual
    check's (crates/cli/src/visual_qa_cmd.rs). Times are seconds, exact. */
module Durations {
  import opened Numbers
  import opened Sequences

  datatype TimeRange = TimeRange(start: real, duration: real)

  /** `available` is the declared range of an external media reference. */
  datatype Clip = Clip(sourceRange: Option<TimeRange>, available: Option<TimeRange>)

  datatype Stack = Stack(children: seq<StackChild>, sourceRange: Option<TimeRange>)
  datatype StackChild = HasTrack(track: Track) | HasStack(stack: Stack) | HasClip(clip: Clip) | HasGap(gap: real)

  /** `role` is the track's `montage_track_role`, when it is a string. */
  datatype Track = Track(children: seq<TrackChild>, role: Option<string>)
  datatype TrackChild = PutClip(clip: Clip) | PutGap(gap: real) | PutTransition | PutStack(stack: Stack)

  predicate SparseOverlay(t: Track) { t.role in {Some("titles"), Some("captions"), Some("annotations")} }

  function ClipLength(c: Clip): real { if c.sourceRange.Some? then c.sourceRange.value.duration else 0.0 }

  function SparseEnd(c: Clip): real {
    if c.sourceRange.Some? then c.sourceRange.value.start + c.sourceRange.value.duration else 0.0
  }

  predicate Trimmed(c: Clip) {
    c.sourceRange.Some? && c.available.Some? && c.sourceRange.value.duration + 0.001 < c.available.value.duration
  }

  // ---------------------------------------------------------------- what the episode map reports

  /** The clips at any depth below the first `n` children, in order. */
  function StackClips(s: Stack, n: nat): seq<Clip>
    requires n <= |s.children|
    decreases s, n
  {
    if n == 0 then []
    else
      var more :=
        match s.children[n-1]
        case HasTrack(t) => TrackClips(t, |t.children|)
        case HasStack(inner) => StackClips(inner, |inner.children|)
        case HasClip(c) => [c]
        case HasGap(_) => [];
      StackClips(s, n - 1) + more
  }

  function TrackClips(t: Track, n: nat): seq<Clip>
    requires n <= |t.children|
    decreases t, n
  {
    if n == 0 then []
    else
      var more :=
        match t.children[n-1]
        case PutClip(c) => [c]
        case PutStack(inner) => StackClips(inner, |inner.children|)
        case _ => [];
      TrackClips(t, n - 1) + more
  }

  /** The furthest end among the first `n` children, which all start at zero. */
  function StackReach(s: Stack, n: nat): (r: real)
    requires n <= |s.children|
    ensures r >= 0.0
    decreases s, n
  {
    if n == 0 then 0.0
    else Max(StackReach(s, n - 1),
      match s.children[n-1]
      case HasTrack(t) => TrackReach(t, |t.children|)
      case HasStack(inner) => StackReach(inner, |inner.children|)
      case HasClip(c) => ClipLength(c)
      case HasGap(d) => d)
  }

  /** Where the child after the first `n` starts; clips of a sparse overlay take no room. */
  function Cursor(t: Track, n: nat): real
    requires n <= |t.children|
    decreases t, n, 0
  {
    if n == 0 then 0.0
    else
      var room :=
        match t.children[n-1]
        case PutClip(c) => if SparseOverlay(t) then 0.0 else ClipLength(c)
        case PutGap(d) => d
        case PutTransition => 0.0
        case PutStack(inner) => StackReach(inner, |inner.children|);
      Cursor(t, n - 1) + room
  }

  /** The furthest end of a clip or nested stack among the first `n` children. */
  function TrackReach(t: Track, n: nat): (r: real)
    requires n <= |t.children|
    ensures r >= 0.0
    decreases t, n, 1
  {
    if n == 0 then 0.0
    else
      match t.children[n-1]
      case PutClip(c) => Max(TrackReach(t, n - 1), if SparseOverlay(t) then SparseEnd(c) else Cursor(t, n))
      case PutStack(_) => Max(TrackReach(t, n - 1), Cursor(t, n))
      case _ => TrackReach(t, n - 1)
  }

  /** The clips and the furthest end of the root's first `n` children, tracks only. */
  function RootClips(root: Stack, n: nat): seq<Clip>
    requires n <= |root.children|
  {
    if n == 0 then []
    else if root.children[n-1].HasTrack?
    then RootClips(root, n - 1) + TrackClips(root.children[n-1].track, |root.children[n-1].track.children|)
    else RootClips(root, n - 1)
  }

  function RootReach(root: Stack, n: nat): real
    requires n <= |root.children|
  {
    if n == 0 then 0.0
    else if root.children[n-1].HasTrack?
    then Max(RootReach(root, n - 1), TrackReach(root.children[n-1].track, |root.children[n-1].track.children|))
    else RootReach(root, n - 1)
  }

  function TrimmedCount(cs: seq<Clip>): nat {
    if cs == [] then 0 else TrimmedCount(cs[..|cs|-1]) + if Trimmed(cs[|cs|-1]) then 1 else 0
  }

  lemma {:induction false} TrimmedCountAdds(a: seq<Clip>, b: seq<Clip>)
    ensures TrimmedCount(a + b) == TrimmedCount(a) + TrimmedCount(b)
  {
    if b == [] {
      assert a + b == a;
    } else {
      assert (a + b)[..|a + b|-1] == a + b[..|b|-1];
      TrimmedCountAdds(a, b[..|b|-1]);
    }
  }

  /** `TimelineSummary` */
  class TimelineSummary {
    var clipCount: nat
    var duration: real
    var trimmedCount: nat

    /** It counts these clips and ends at `reach`. */
    ghost predicate Sums(clips: seq<Clip>, reach: real)
      reads this
    {
      clipCount == |clips| && trimmedCount == TrimmedCount(clips) && duration == reach
    }

    constructor ()
      ensures Sums([], 0.0)
    {
      clipCount, duration, trimmedCount := 0, 0.0, 0;
    }

    method AddClip(clip: Clip, timelineEnd: real, ghost clips: seq<Clip>)
      requires Sums(clips, duration)
      modifies this
      ensures Sums(clips + [clip], Max(old(duration), timelineEnd))
    {
      TrimmedCountAdds(clips, [clip]);
      assert [clip][..0] == [];
      clipCount := clipCount + 1;
      duration := Max(duration, timelineEnd);
      if
        && clip.sourceRange.Some? && clip.available.Some?
        && clip.sourceRange.value.duration + 0.001 < clip.available.value.duration
      {
        trimmedCount := trimmedCount + 1;
      }
    }

    method MergeNested(nested: TimelineSummary, timelineStart: real, ghost clips: seq<Clip>, ghost more: seq<Clip>)
      requires Sums(clips, duration) && nested.Sums(more, nested.duration) && nested != this
      modifies this
      ensures Sums(clips + more, Max(old(duration), timelineStart + nested.duration))
    {
      TrimmedCountAdds(clips, more);
      clipCount := clipCount + nested.clipCount;
      trimmedCount := trimmedCount + nested.trimmedCount;
      duration := Max(duration, timelineStart + nested.duration);
    }

    /** The three lines by which both summaries take in a child that starts at zero. */
    method TakeIn(child: TimelineSummary, ghost clips: seq<Clip>, ghost more: seq<Clip>)
      requires Sums(clips, duration) && child.Sums(more, child.duration) && child != this
      modifies this
      ensures Sums(clips + more, Max(old(duration), child.duration))
    {
      TrimmedCountAdds(clips, more);
      clipCount := clipCount + child.clipCount;
      trimmedCount := trimmedCount + child.trimmedCount;
      duration := Max(duration, child.duration);
    }
  }

  /** What one more child does to the three running values of a track. */
  lemma TrackStep(t: Track, i: nat)
    requires i < |t.children|
    ensures match t.children[i]
      case PutClip(c) =>
        && TrackClips(t, i + 1) == TrackClips(t, i) + [c]
        && Cursor(t, i + 1) == (if SparseOverlay(t) then Cursor(t, i) else Cursor(t, i) + ClipLength(c))
        && TrackReach(t, i + 1) == Max(TrackReach(t, i), if SparseOverlay(t) then SparseEnd(c) else Cursor(t, i + 1))
      case PutStack(inner) =>
        && TrackClips(t, i + 1) == TrackClips(t, i) + StackClips(inner, |inner.children|)
        && Cursor(t, i + 1) == Cursor(t, i) + StackReach(inner, |inner.children|)
        && TrackReach(t, i + 1) == Max(TrackReach(t, i), Cursor(t, i + 1))
      case _ =>
        && TrackClips(t, i + 1) == TrackClips(t, i)
        && Cursor(t, i + 1) == Cursor(t, i) + (if t.children[i].PutGap? then t.children[i].gap else 0.0)
        && TrackReach(t, i + 1) == TrackReach(t, i)
  {
    hide SparseOverlay, StackClips, StackReach;
    assert TrackClips(t, i) + [] == TrackClips(t, i);
  }

  /** `stack_summary` */
  method SummarizeStack(stack: Stack) returns (summary: TimelineSummary)
    ensures fresh(summary)
    ensures summary.Sums(StackClips(stack, |stack.children|), StackReach(stack, |stack.children|))
    decreases stack
  {
    summary := new TimelineSummary();
    for i := 0 to |stack.children|
      invariant fresh(summary)
      invariant summary.Sums(StackClips(stack, i), StackReach(stack, i))
    {
      ghost var clips := StackClips(stack, i);
      match stack.children[i] {
        case HasTrack(track) =>
          var child := SummarizeTrack(track);
          summary.TakeIn(child, clips, TrackClips(track, |track.children|));
          assert StackClips(stack, i + 1) == clips + TrackClips(track, |track.children|);
        case HasStack(inner) =>
          var child := SummarizeStack(inner);
          summary.TakeIn(child, clips, StackClips(inner, |inner.children|));
          assert StackClips(stack, i + 1) == clips + StackClips(inner, |inner.children|);
        case HasClip(clip) =>
          summary.AddClip(clip, ClipLength(clip), clips);
          assert StackClips(stack, i + 1) == clips + [clip];
        case HasGap(gap) =>
          summary.duration := Max(summary.duration, gap);
          assert StackClips(stack, i + 1) == clips;
      }
    }
  }

  /** `track_summary` */
  method SummarizeTrack(track: Track) returns (summary: TimelineSummary)
    ensures fresh(summary)
    ensures summary.Sums(TrackClips(track, |track.children|), TrackReach(track, |track.children|))
    decreases track
  {
    summary := new TimelineSummary();
    var cursor := 0.0;
    var sparseOverlay := SparseOverlay(track);
    assert TrackClips(track, 0) == [] && Cursor(track, 0) == 0.0 && TrackReach(track, 0) == 0.0;
    hide TrackClips, Cursor, TrackReach, StackClips, StackReach, SparseOverlay;
    for i := 0 to |track.children|
      invariant fresh(summary) && cursor == Cursor(track, i)
      invariant summary.Sums(TrackClips(track, i), TrackReach(track, i))
    {
      ghost var clips := TrackClips(track, i);
      TrackStep(track, i);
      match track.children[i] {
        case PutClip(clip) =>
          var end := if sparseOverlay then SparseEnd(clip) else cursor + ClipLength(clip);
          if !sparseOverlay { cursor := cursor + ClipLength(clip); }
          summary.AddClip(clip, end, clips);
        case PutGap(gap) => cursor := cursor + gap;
        case PutTransition =>
        case PutStack(inner) =>
          var nested := SummarizeStack(inner);
          cursor := cursor + nested.duration;
          summary.MergeNested(nested, cursor - nested.duration, clips, StackClips(inner, |inner.children|));
      }
    }
  }

  /** `timeline_summary`: clips, end of the furthest and trimmed clips of the root's tracks; what the
      root holds besides tracks is passed over. */
  method Summarize(root: Stack) returns (clipCount: nat, duration: real, trimmedCount: nat)
    ensures clipCount == |RootClips(root, |root.children|)|
    ensures trimmedCount == TrimmedCount(RootClips(root, |root.children|))
    ensures duration == RootReach(root, |root.children|)
  {
    var summary := new TimelineSummary();
    for i := 0 to |root.children|
      invariant fresh(summary)
      invariant summary.Sums(RootClips(root, i), RootReach(root, i))
    {
      match root.children[i] {
        case HasTrack(track) =>
          var child := SummarizeTrack(track);
          summary.TakeIn(child, RootClips(root, i), TrackClips(track, |track.children|));
        case _ =>
      }
    }
    return summary.clipCount, summary.duration, summary.trimmedCount;
  }

  // ---------------------------------------------------------------- what the visual check measures

  /** `stack_duration_s`: its own source range, or its longest child. */
  function StackLength(s: Stack): real
    decreases s, 1, 0
  {
    if s.sourceRange.Some? then s.sourceRange.value.duration else LongestChild(s, |s.children|)
  }

  function LongestChild(s: Stack, n: nat): real
    requires n <= |s.children|
    decreases s, 0, n
  {
    if n == 0 then 0.0
    else Max(LongestChild(s, n - 1),
      match s.children[n-1]
      case HasTrack(t) => TrackLength(t, |t.children|)
      case HasStack(inner) => StackLength(inner)
      case HasClip(c) => ClipLength(c)
      case HasGap(d) => d)
  }

  /** `track_duration_s`: the children of a track end to end. */
  function TrackLength(t: Track, n: nat): real
    requires n <= |t.children|
    decreases t, 0, n
  {
    if n == 0 then 0.0
    else
      var length :=
        match t.children[n-1]
        case PutClip(c) => ClipLength(c)
        case PutGap(d) => d
        case PutStack(inner) => StackLength(inner)
        case PutTransition => 0.0;
      TrackLength(t, n - 1) + length
  }

  // ---------------------------------------------------------------- the two compared

  /** Durations are not negative, a source range of a stack leaves out nothing, and no track is a sparse overlay. */
  predicate PlainStack(s: Stack)
    decreases s, 0
  {
    && (s.sourceRange.Some? ==> LongestChild(s, |s.children|) <= s.sourceRange.value.duration)
    && forall i :: 0 <= i < |s.children| ==>
      match s.children[i]
      case HasTrack(t) => PlainTrack(t)
      case HasStack(inner) => PlainStack(inner)
      case HasClip(c) => ClipLength(c) >= 0.0
      case HasGap(d) => d >= 0.0
  }

  predicate PlainTrack(t: Track)
    decreases t, 1
  {
    !SparseOverlay(t) && PlainItems(t)
  }

  predicate PlainItems(t: Track)
    decreases t, 0
  {
    forall i :: 0 <= i < |t.children| ==>
      match t.children[i]
      case PutClip(c) => ClipLength(c) >= 0.0
      case PutGap(d) => d >= 0.0
      case PutStack(inner) => PlainStack(inner)
      case PutTransition => true
  }

  /** Among the first `n` children the last that is not a transition is not a gap. */
  predicate EndsSolid(t: Track, n: nat)
    requires n <= |t.children|
  {
    n == 0 || (if t.children[n-1].PutTransition? then EndsSolid(t, n - 1) else !t.children[n-1].PutGap?)
  }

  /** No track at any depth ends in a gap, and no stack has a source range. */
  predicate SolidStack(s: Stack)
    decreases s
  {
    s.sourceRange.None? && forall i :: 0 <= i < |s.children| ==>
      match s.children[i]
      case HasTrack(t) => SolidTrack(t)
      case HasStack(inner) => SolidStack(inner)
      case _ => true
  }

  predicate SolidTrack(t: Track)
    decreases t
  {
    && EndsSolid(t, |t.children|)
    && forall i :: 0 <= i < |t.children| ==> t.children[i].PutStack? ==> SolidStack(t.children[i].stack)
  }

  lemma {:induction false} StackReachWithin(s: Stack, n: nat)
    requires PlainStack(s) && n <= |s.children|
    ensures StackReach(s, n) <= LongestChild(s, n)
    ensures SolidStack(s) ==> StackReach(s, n) == LongestChild(s, n)
    decreases s, n
  {
    if n == 0 {
    } else {
      StackReachWithin(s, n - 1);
      match s.children[n-1]
      case HasTrack(t) =>
        TrackReachWithin(t, |t.children|);
        assert SolidStack(s) ==> SolidTrack(t);
      case HasStack(inner) => StackReachWithin(inner, |inner.children|);
      case _ =>
    }
  }

  /** On a track the furthest end never passes the cursor, nor the cursor the length. */
  lemma {:induction false} TrackReachWithin(t: Track, n: nat)
    requires PlainTrack(t) && n <= |t.children|
    ensures TrackReach(t, n) <= Cursor(t, n) <= TrackLength(t, n)
    ensures SolidTrack(t) ==> Cursor(t, n) == TrackLength(t, n)
    ensures EndsSolid(t, n) ==> TrackReach(t, n) == Cursor(t, n)
    decreases t, n
  {
    if n == 0 {
    } else {
      TrackReachWithin(t, n - 1);
      match t.children[n-1]
      case PutStack(inner) =>
        StackReachWithin(inner, |inner.children|);
        assert SolidTrack(t) ==> SolidStack(inner);
      case _ =>
    }
  }

  lemma {:induction false} RootReachIsStackReach(root: Stack, n: nat)
    requires n <= |root.children|
    ensures 0.0 <= RootReach(root, n) <= StackReach(root, n)
    ensures (forall i :: 0 <= i < n ==> root.children[i].HasTrack?) ==> RootReach(root, n) == StackReach(root, n)
  {
    if n == 0 {
    } else {
      RootReachIsStackReach(root, n - 1);
    }
  }

  /** The episode map never reports a timeline as longer than the visual check measures it, and the two
      agree when the root holds only tracks and no track ends in a gap. */
  lemma EpisodeWithinVisual(root: Stack)
    requires PlainStack(root)
    ensures RootReach(root, |root.children|) <= StackLength(root)
    ensures (forall i :: 0 <= i < |root.children| ==> root.children[i].HasTrack?) && SolidStack(root) ==>
      RootReach(root, |root.children|) == StackLength(root)
  {
    RootReachIsStackReach(root, |root.children|);
    StackReachWithin(root, |root.children|);
    hide RootReach, StackReach, PlainStack, SolidStack;
  }

  /** A gap at the end of a track lengthens the one and leaves the other alone. */
  lemma TrailingGap(t: Track, gap: real)
    ensures var longer := t.(children := t.children + [PutGap(gap)]);
      && TrackReach(longer, |longer.children|) == TrackReach(t, |t.children|)
      && TrackLength(longer, |longer.children|) == TrackLength(t, |t.children|) + gap
  {
    SamePrefix(t, t.(children := t.children + [PutGap(gap)]), |t.children|);
  }

  lemma {:induction false} SamePrefix(t: Track, u: Track, n: nat)
    requires n <= |t.children| <= |u.children| && t.role == u.role && t.children == u.children[..|t.children|]
    ensures Cursor(t, n) == Cursor(u, n) && TrackReach(t, n) == TrackReach(u, n)
    ensures TrackLength(t, n) == TrackLength(u, n)
  {
    if n == 0 {
    } else {
      SamePrefix(t, u, n - 1);
      assert t.children[n-1] == u.children[n-1];
    }
  }

  // ---------------------------------------------------------------- sparse overlays

  /** The root may hold sparse overlays; besides, everything is plain. */
  predicate PlainRoot(root: Stack) {
    && (root.sourceRange.Some? ==> LongestChild(root, |root.children|) <= root.sourceRange.value.duration)
    && forall i :: 0 <= i < |root.children| ==>
      match root.children[i]
      case HasTrack(t) => PlainItems(t)
      case HasStack(inner) => PlainStack(inner)
      case HasClip(c) => ClipLength(c) >= 0.0
      case HasGap(d) => d >= 0.0
  }

  /** The source ranges of the track's own clips end by `limit`. */
  predicate ClipsEndBy(t: Track, n: nat, limit: real)
    requires n <= |t.children|
  {
    forall i :: 0 <= i < n && t.children[i].PutClip? ==> SparseEnd(t.children[i].clip) <= limit
  }

  predicate OverlaysEndBy(root: Stack, n: nat, limit: real)
    requires n <= |root.children|
  {
    forall i :: 0 <= i < n && root.children[i].HasTrack? && SparseOverlay(root.children[i].track) ==>
      ClipsEndBy(root.children[i].track, |root.children[i].track.children|, limit)
  }

  /** On an overlay only the clips can reach past the track's length: nested stacks end at the cursor. */
  lemma {:induction false} OverlayReaches(t: Track, n: nat, limit: real)
    requires PlainItems(t) && SparseOverlay(t) && n <= |t.children| && TrackLength(t, n) <= limit
    ensures 0.0 <= Cursor(t, n) <= TrackLength(t, n)
    ensures TrackReach(t, n) <= limit <==> ClipsEndBy(t, n, limit)
  {
    if n == 0 {
    } else {
      match t.children[n-1] {
        case PutStack(inner) => StackReachWithin(inner, |inner.children|);
        case _ =>
      }
      OverlayReaches(t, n - 1, limit);
    }
  }

  lemma {:induction false} RootReachesBy(root: Stack, n: nat, limit: real)
    requires PlainRoot(root) && n <= |root.children| && LongestChild(root, n) <= limit
    ensures RootReach(root, n) <= limit <==> OverlaysEndBy(root, n, limit)
  {
    if n == 0 {
    } else {
      RootReachesBy(root, n - 1, limit);
      if root.children[n-1].HasTrack? {
        var t := root.children[n-1].track;
        if SparseOverlay(t) {
          OverlayReaches(t, |t.children|, limit);
        } else {
          TrackReachWithin(t, |t.children|);
        }
      }
    }
  }

  /** With sparse overlays on the root the episode map stays within the visual check's length exactly when no
      overlay clip's source range ends after it: such clips lie where their source ranges say. */
  lemma EpisodeWithinVisualExactly(root: Stack)
    requires PlainRoot(root)
    ensures RootReach(root, |root.children|) <= StackLength(root)
       <==> OverlaysEndBy(root, |root.children|, StackLength(root))
  {
    RootReachesBy(root, |root.children|, StackLength(root));
  }

  /** One need not: a title from 5 to 6 s on a track of its own. */
  lemma SparseOverlayReachesFurther()
    ensures exists root: Stack :: PlainRoot(root) && RootReach(root, |root.children|) > StackLength(root)
  {
    var title := Clip(Some(TimeRange(5.0, 1.0)), None);
    var track := Track([PutClip(title)], Some("titles"));
    var root := Stack([HasTrack(track)], None);
    assert TrackReach(track, 1) == 6.0;
    assert TrackLength(track, 1) == 1.0;
    assert RootReach(root, 1) == 6.0;
    assert LongestChild(root, 1) == 1.0;
    assert PlainRoot(root);
  }
}
