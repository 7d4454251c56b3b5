/** From kept ranges to an edit decision list, and what applying that list does to the timeline
    (crates/cli/src/plan_clip.rs, crates/cli/src/plan_ranges.rs, the loop of
    crates/cli/src/plan_dead_air_edl_cmd.rs, and the Trim and Insert operations of
    crates/core/src/edl/apply.rs). */
module EdlPlan {
  import opened Numbers
  import opened Sequences
  import opened PlanRanges
  import Decimal

  // ---------------------------------------------------------------- timeline

  /** A clip; `asset` is its external media reference, `uuid` its stamped anchor, `link` its link group. */
  datatype Clip = Clip(
    name: string, uuid: Option<string>, asset: Option<string>, active: bool, range: Option<SourceRange>,
    link: Option<string>)

  /** Gaps, transitions and nested stacks are carried along untouched. */
  datatype TrackItem = ClipItem(clip: Clip) | OtherItem(tag: nat)
  datatype Track = Track(name: string, isVideo: bool, items: seq<TrackItem>)
  datatype RootChild = TrackNode(track: Track) | OtherNode(tag: nat)
  type Timeline = seq<RootChild>

  // ---------------------------------------------------------------- select_clips

  /** `clip_candidate` */
  function Candidate(track: Track, position: nat): Option<SelectedClip>
    requires position < |track.items|
  {
    match track.items[position]
    case OtherItem(_) => None
    case ClipItem(clip) =>
      if !clip.active || clip.asset.None? || clip.range.None? then None
      else if clip.range.value.end <= clip.range.value.start then None
      else Some(SelectedClip(Anchor(clip), clip.asset.value, track.name, position,
                             clip.range.value.start, clip.range.value.end))
  }

  function Anchor(clip: Clip): string { if clip.uuid.Some? then clip.uuid.value else clip.name }

  /** The candidate at this place when it is on a video track and wanted. */
  function Picked(tl: Timeline, ti: nat, position: nat, wanted: SelectedClip -> bool): Option<SelectedClip>
    requires ti < |tl| && tl[ti].TrackNode? && position < |tl[ti].track.items|
  {
    var candidate := Candidate(tl[ti].track, position);
    if tl[ti].track.isVideo && candidate.Some? && wanted(candidate.value) then candidate else None
  }

  function Items(tl: Timeline, ti: nat): seq<TrackItem>
    requires ti < |tl|
  {
    if tl[ti].TrackNode? then tl[ti].track.items else []
  }

  /** Selected clips from item `position` of root child `ti` on, in timeline order. */
  function SelectedFrom(tl: Timeline, ti: nat, position: nat, wanted: SelectedClip -> bool): seq<SelectedClip>
    requires ti <= |tl| && (ti < |tl| ==> position <= |Items(tl, ti)|)
    decreases |tl| - ti, if ti < |tl| then |Items(tl, ti)| - position else 0
  {
    if ti == |tl| then []
    else if position == |Items(tl, ti)| then SelectedFrom(tl, ti + 1, 0, wanted)
    else
      var picked := Picked(tl, ti, position, wanted);
      (if picked.Some? then [picked.value] else []) + SelectedFrom(tl, ti, position + 1, wanted)
  }

  method SelectClips(tl: Timeline, wanted: SelectedClip -> bool) returns (clips: Option<seq<SelectedClip>>)
    ensures var all := SelectedFrom(tl, 0, 0, wanted);
      clips == if all == [] then None else Some(all)
  {
    hide Candidate, SelectedFrom, Picked;
    var candidates := [];
    for ti := 0 to |tl|
      invariant candidates + SelectedFrom(tl, ti, 0, wanted) == SelectedFrom(tl, 0, 0, wanted)
    {
      if tl[ti].TrackNode? && tl[ti].track.isVideo {
        var track := tl[ti].track;
        for position := 0 to |track.items|
          invariant candidates + SelectedFrom(tl, ti, position, wanted) == SelectedFrom(tl, 0, 0, wanted)
        {
          var candidate := Candidate(track, position);
          SelectedStep(tl, ti, position, wanted);
          assert [] + SelectedFrom(tl, ti, position + 1, wanted) == SelectedFrom(tl, ti, position + 1, wanted);
          if candidate.None? { continue; }
          if wanted(candidate.value) {
            assert candidates + ([candidate.value] + SelectedFrom(tl, ti, position + 1, wanted))
                == candidates + [candidate.value] + SelectedFrom(tl, ti, position + 1, wanted);
            candidates := candidates + [candidate.value];
          }
        }
        SelectedTrackEnd(tl, ti, wanted);
      } else {
        SkippedChild(tl, ti, 0, wanted);
      }
    }
    SelectedEnd(tl, wanted);
    assert candidates == SelectedFrom(tl, 0, 0, wanted);
    return if candidates == [] then None else Some(candidates);
  }

  lemma SelectedStep(tl: Timeline, ti: nat, position: nat, wanted: SelectedClip -> bool)
    requires ti < |tl| && tl[ti].TrackNode? && tl[ti].track.isVideo && position < |tl[ti].track.items|
    ensures var candidate := Candidate(tl[ti].track, position);
      SelectedFrom(tl, ti, position, wanted)
      == (if candidate.Some? && wanted(candidate.value) then [candidate.value] else [])
       + SelectedFrom(tl, ti, position + 1, wanted)
  {}

  lemma SelectedTrackEnd(tl: Timeline, ti: nat, wanted: SelectedClip -> bool)
    requires ti < |tl|
    ensures SelectedFrom(tl, ti, |Items(tl, ti)|, wanted) == SelectedFrom(tl, ti + 1, 0, wanted)
  {}

  lemma SelectedEnd(tl: Timeline, wanted: SelectedClip -> bool)
    ensures SelectedFrom(tl, |tl|, 0, wanted) == []
  {}

  lemma {:induction false} SkippedChild(tl: Timeline, ti: nat, position: nat, wanted: SelectedClip -> bool)
    requires ti < |tl| && position <= |Items(tl, ti)| && !(tl[ti].TrackNode? && tl[ti].track.isVideo)
    ensures SelectedFrom(tl, ti, position, wanted) == SelectedFrom(tl, ti + 1, 0, wanted)
    decreases |Items(tl, ti)| - position
  {
    if position == |Items(tl, ti)| {
    } else {
      SkippedChild(tl, ti, position + 1, wanted);
    }
  }

  /** At this place of the timeline a video track holds an active clip of an external asset that shows something,
      and `c` says of it what the planners need. */
  predicate ShowsAt(tl: Timeline, ti: nat, position: nat, c: SelectedClip) {
    && ti < |tl| && tl[ti].TrackNode? && tl[ti].track.isVideo && position < |tl[ti].track.items|
    && tl[ti].track.items[position].ClipItem?
    && var clip := tl[ti].track.items[position].clip;
       && clip.active && clip.asset == Some(c.asset) && clip.range == Some(SourceRange(c.sourceStart, c.sourceEnd))
       && c.sourceStart < c.sourceEnd
       && (if clip.uuid.Some? then clip.uuid == Some(c.clipUuid) else c.clipUuid == clip.name)
       && c.trackName == tl[ti].track.name && c.trackPosition == position
  }

  /** In the order of tracks, then of positions. */
  predicate Before(a: (nat, nat), b: (nat, nat)) { a.0 < b.0 || (a.0 == b.0 && a.1 < b.1) }

  /** `clips` are those the timeline shows at `places`, in timeline order. */
  ghost predicate ShownInOrder(tl: Timeline, clips: seq<SelectedClip>, places: seq<(nat, nat)>) {
    && |clips| == |places|
    && (forall k :: 0 <= k < |clips| ==> ShowsAt(tl, places[k].0, places[k].1, clips[k]))
    && forall k, l :: 0 <= k < l < |places| ==> Before(places[k], places[l])
  }

  lemma CandidateShows(tl: Timeline, ti: nat, position: nat, wanted: SelectedClip -> bool, c: SelectedClip)
    requires ti < |tl| && tl[ti].TrackNode? && position < |tl[ti].track.items|
    ensures Picked(tl, ti, position, wanted) == Some(c) <==> ShowsAt(tl, ti, position, c) && wanted(c)
  {}

  /** `clips` are what is shown and wanted from this point of the timeline on, at `places`. */
  ghost predicate SelectedAt(tl: Timeline, from: (nat, nat), wanted: SelectedClip -> bool, clips: seq<SelectedClip>,
                             places: seq<(nat, nat)>) {
    && ShownInOrder(tl, clips, places)
    && (forall c :: c in clips ==> wanted(c))
    && (forall k :: 0 <= k < |places| ==> !Before(places[k], from))
    && forall ti: nat, q: nat, c :: ShowsAt(tl, ti, q, c) && wanted(c) && !Before((ti, q), from) ==> (ti, q) in places
  }

  lemma NotSelectedHere(tl: Timeline, ti: nat, position: nat, wanted: SelectedClip -> bool, rest: seq<SelectedClip>,
                        places: seq<(nat, nat)>)
    requires SelectedAt(tl, (ti, position + 1), wanted, rest, places)
    requires forall c :: ShowsAt(tl, ti, position, c) ==> !wanted(c)
    ensures SelectedAt(tl, (ti, position), wanted, rest, places)
  {
    hide ShowsAt, ShownInOrder;
  }

  lemma SelectedHere(tl: Timeline, ti: nat, position: nat, wanted: SelectedClip -> bool, rest: seq<SelectedClip>,
                     places: seq<(nat, nat)>, c: SelectedClip)
    requires SelectedAt(tl, (ti, position + 1), wanted, rest, places) && ShowsAt(tl, ti, position, c) && wanted(c)
    ensures SelectedAt(tl, (ti, position), wanted, [c] + rest, [(ti, position)] + places)
  {
    hide ShowsAt;
    ShownFirst(tl, (ti, position), c, rest, places);
    hide ShownInOrder;
    var more := [(ti, position)] + places;
    forall tj: nat, q: nat, d | ShowsAt(tl, tj, q, d) && wanted(d) && !Before((tj, q), (ti, position))
      ensures (tj, q) in more
    {
      if (tj, q) == (ti, position) { assert more[0] in more; } else { assert (tj, q) in places; }
    }
  }

  lemma ShownFirst(tl: Timeline, here: (nat, nat), c: SelectedClip, rest: seq<SelectedClip>, places: seq<(nat, nat)>)
    requires ShowsAt(tl, here.0, here.1, c) && ShownInOrder(tl, rest, places)
    requires forall k :: 0 <= k < |places| ==> !Before(places[k], (here.0, here.1 + 1))
    ensures ShownInOrder(tl, [c] + rest, [here] + places)
  {
    hide ShowsAt;
  }

  lemma SelectedNextTrack(tl: Timeline, ti: nat, wanted: SelectedClip -> bool, clips: seq<SelectedClip>,
                          places: seq<(nat, nat)>)
    requires ti < |tl| && SelectedAt(tl, (ti + 1, 0), wanted, clips, places)
    ensures SelectedAt(tl, (ti, |Items(tl, ti)|), wanted, clips, places)
  {}

  lemma {:induction false} SelectedPlaces(tl: Timeline, ti: nat, position: nat, wanted: SelectedClip -> bool)
    returns (places: seq<(nat, nat)>)
    requires ti <= |tl| && (ti < |tl| ==> position <= |Items(tl, ti)|) && (ti == |tl| ==> position == 0)
    ensures SelectedAt(tl, (ti, position), wanted, SelectedFrom(tl, ti, position, wanted), places)
    decreases |tl| - ti, if ti < |tl| then |Items(tl, ti)| - position else 0
  {
    if ti == |tl| {
      places := [];
    } else {
      hide SelectedAt, ShowsAt, Picked;
      if position == |Items(tl, ti)| {
        places := SelectedPlaces(tl, ti + 1, 0, wanted);
        SelectedNextTrack(tl, ti, wanted, SelectedFrom(tl, ti + 1, 0, wanted), places);
      } else {
        var rest := SelectedFrom(tl, ti, position + 1, wanted);
        places := SelectedPlaces(tl, ti, position + 1, wanted);
        forall c ensures Picked(tl, ti, position, wanted) == Some(c) <==> ShowsAt(tl, ti, position, c) && wanted(c) {
          CandidateShows(tl, ti, position, wanted, c);
        }
        if Picked(tl, ti, position, wanted).Some? {
          SelectedHere(tl, ti, position, wanted, rest, places, Picked(tl, ti, position, wanted).value);
          places := [(ti, position)] + places;
        } else {
          NotSelectedHere(tl, ti, position, wanted, rest, places);
          assert [] + rest == rest;
        }
      }
    }
  }

  /** What is selected is exactly what video tracks show and is wanted, in timeline order. */
  lemma SelectsExactly(tl: Timeline, wanted: SelectedClip -> bool) returns (places: seq<(nat, nat)>)
    ensures ShownInOrder(tl, SelectedFrom(tl, 0, 0, wanted), places)
    ensures forall c :: c in SelectedFrom(tl, 0, 0, wanted) <==>
      wanted(c) && exists ti: nat, q: nat :: ShowsAt(tl, ti, q, c)
    ensures forall ti: nat, q: nat, c :: ShowsAt(tl, ti, q, c) && wanted(c) ==> (ti, q) in places
  {
    places := SelectedPlaces(tl, 0, 0, wanted);
    var clips := SelectedFrom(tl, 0, 0, wanted);
    hide SelectedFrom;
    forall c | c in clips ensures exists ti: nat, q: nat :: ShowsAt(tl, ti, q, c) {
      var k :| 0 <= k < |clips| && clips[k] == c;
      assert ShowsAt(tl, places[k].0, places[k].1, c);
    }
    forall ti: nat, q: nat, c | ShowsAt(tl, ti, q, c) && wanted(c) ensures c in clips {
      assert (ti, q) in places;
      var k :| 0 <= k < |places| && places[k] == (ti, q);
      assert ShowsAt(tl, ti, q, clips[k]);
      OneShown(tl, ti, q, c, clips[k]);
    }
  }

  lemma OneShown(tl: Timeline, ti: nat, position: nat, c: SelectedClip, d: SelectedClip)
    requires ShowsAt(tl, ti, position, c) && ShowsAt(tl, ti, position, d)
    ensures c == d
  {}

  // ---------------------------------------------------------------- emitting operations

  datatype EdlOp =
    | TrimClip(anchor: string, start: real, end: real)
    | InsertClip(asset: string, track: string, atPosition: nat, start: real, end: real, name: string)

  /** Seconds as `{:.3}` prints them: the nearest millisecond, ties to even. */
  function Millis(t: real): real { RoundHalfEven(t * 1000.0) as real / 1000.0 }

  lemma MillisClose(t: real)
    ensures t - 0.0005 <= Millis(t) <= t + 0.0005
  {
    hide RoundHalfEven;
    RoundedIsClose(t * 1000.0);
  }

  /** A whole number of milliseconds is printed as it is. */
  lemma MillisExact(t: real, n: int)
    requires t * 1000.0 == n as real
    ensures Millis(t) == t
  {
    hide RoundHalfEven;
    IntegersStay(n);
  }

  const EPSILON_S: real := 0.001

  predicate KeptRangesMatchOriginal(clip: SelectedClip, kept: seq<SourceRange>) {
    |kept| == 1 && Abs(kept[0].start - clip.sourceStart) <= EPSILON_S && Abs(kept[0].end - clip.sourceEnd) <= EPSILON_S
  }

  /** The planner changes this clip: something was cut and something is kept. */
  predicate Changes(clip: SelectedClip, kept: seq<SourceRange>) { kept != [] && !KeptRangesMatchOriginal(clip, kept) }

  function InsertedName(clip: SelectedClip, prefix: string, index: nat): string {
    clip.clipUuid + "-" + prefix + "-" + Decimal.Nat(index)
  }

  function InsertOp(clip: SelectedClip, kept: seq<SourceRange>, prefix: string, offset: nat, index: nat): EdlOp
    requires index < |kept|
  {
    InsertClip(clip.asset, clip.trackName, clip.trackPosition + offset + index,
               Millis(kept[index].start), Millis(kept[index].end), InsertedName(clip, prefix, index))
  }

  /** Inserts for the kept ranges `1 .. n`. */
  function InsertOps(clip: SelectedClip, kept: seq<SourceRange>, prefix: string, offset: nat, n: nat): seq<EdlOp>
    requires n <= |kept|
  {
    if n <= 1 then []
    else InsertOps(clip, kept, prefix, offset, n-1) + [InsertOp(clip, kept, prefix, offset, n-1)]
  }

  function ClipOps(clip: SelectedClip, kept: seq<SourceRange>, prefix: string, offset: nat): seq<EdlOp> {
    if !Changes(clip, kept) then []
    else
      [TrimClip(clip.clipUuid, Millis(kept[0].start), Millis(kept[0].end))] +
      InsertOps(clip, kept, prefix, offset, |kept|)
  }

  function InsertedCount(clip: SelectedClip, kept: seq<SourceRange>): nat {
    if Changes(clip, kept) then |kept| - 1 else 0
  }

  method AppendKeptRangesOps(edl: seq<EdlOp>, clip: SelectedClip, kept: seq<SourceRange>, prefix: string, offset: nat)
    returns (appended: seq<EdlOp>, insertedCount: nat)
    ensures appended == edl + ClipOps(clip, kept, prefix, offset)
    ensures insertedCount == InsertedCount(clip, kept)
  {
    appended, insertedCount := edl, 0;
    if KeptRangesMatchOriginal(clip, kept) { return; }
    if kept != [] {
      appended := appended + [TrimClip(clip.clipUuid, Millis(kept[0].start), Millis(kept[0].end))];
      ghost var trimmed := appended;
      for index := 1 to |kept|
        invariant appended == trimmed + InsertOps(clip, kept, prefix, offset, index)
        invariant insertedCount == index - 1
      {
        appended := appended + [InsertOp(clip, kept, prefix, offset, index)];
        insertedCount := insertedCount + 1;
      }
    }
  }

  function CountFor(counts: map<string, nat>, track: string): nat {
    if track in counts then counts[track] else 0
  }

  /** The planner loop: each clip's positions are shifted by what was inserted earlier on its track. */
  function RunOps(clips: seq<SelectedClip>, kept: SelectedClip -> seq<SourceRange>, prefix: string,
                  counts: map<string, nat>): seq<EdlOp> {
    if clips == [] then []
    else
      var clip := clips[0];
      var before := CountFor(counts, clip.trackName);
      ClipOps(clip, kept(clip), prefix, before) +
      RunOps(clips[1..], kept, prefix, counts[clip.trackName := before + InsertedCount(clip, kept(clip))])
  }

  // ---------------------------------------------------------------- applying operations

  /** What an anchor of the form `clip_uuid` matches: the stamped uuid or the clip name. */
  predicate Answers(item: TrackItem, anchor: string) {
    item.ClipItem? && (item.clip.uuid == Some(anchor) || item.clip.name == anchor)
  }

  function FindItem(items: seq<TrackItem>, anchor: string): Option<nat> {
    if items == [] then None
    else if Answers(items[0], anchor) then Some(0)
    else
      var rest := FindItem(items[1..], anchor);
      if rest.None? then None else Some(rest.value + 1)
  }

  /** First clip, in timeline order, that answers to the anchor. */
  function FindClip(tl: Timeline, ti: nat, anchor: string): Option<(nat, nat)>
    requires ti <= |tl|
    decreases |tl| - ti
  {
    if ti == |tl| then None
    else
      var found := FindItem(Items(tl, ti), anchor);
      if found.Some? then Some((ti, found.value)) else FindClip(tl, ti + 1, anchor)
  }

  function FindTrack(tl: Timeline, ti: nat, name: string): (found: Option<nat>)
    requires ti <= |tl|
    ensures found.Some? ==> found.value < |tl| && tl[found.value].TrackNode?
    decreases |tl| - ti
  {
    if ti == |tl| then None
    else if tl[ti].TrackNode? && tl[ti].track.name == name then Some(ti)
    else FindTrack(tl, ti + 1, name)
  }

  predicate SameName(tl: Timeline, i: nat, j: nat)
    requires i < |tl| && j < |tl|
  {
    tl[i].TrackNode? && tl[j].TrackNode? && tl[i].track.name == tl[j].track.name
  }

  /** An earlier track has the same name. */
  ghost predicate Shadowed(tl: Timeline, ti: nat) {
    ti < |tl| && tl[ti].TrackNode? && exists j :: 0 <= j < ti && SameName(tl, j, ti)
  }

  const TRIM_TOLERANCE_S: real := 0.000001

  /** A trim may only narrow the clip, and must change it. */
  predicate TrimAllowed(range: SourceRange, start: real, end: real) {
    && start <= end
    && end <= range.end + TRIM_TOLERANCE_S
    && start >= range.start - TRIM_TOLERANCE_S
    && !(Abs(start - range.start) < TRIM_TOLERANCE_S && Abs(end - range.end) < TRIM_TOLERANCE_S)
  }

  function WithItems(tl: Timeline, ti: nat, items: seq<TrackItem>): Timeline
    requires ti < |tl| && tl[ti].TrackNode?
  {
    tl[ti := TrackNode(tl[ti].track.(items := items))]
  }

  /** The clip shows at least this range of its source. */
  predicate CoversRange(clip: Clip, range: SourceRange) {
    && clip.range.Some?
    && range.start >= clip.range.value.start - TRIM_TOLERANCE_S
    && range.end <= clip.range.value.end + TRIM_TOLERANCE_S
  }

  predicate IsSibling(item: TrackItem, group: string, range: SourceRange) {
    item.ClipItem? && item.clip.link == Some(group) && CoversRange(item.clip, range)
  }

  /** Index of the first clip of the group that covers the range, or the length. */
  function FindSibling(items: seq<TrackItem>, group: string, range: SourceRange): (q: nat)
    ensures q <= |items| && (q < |items| ==> IsSibling(items[q], group, range))
    ensures forall i :: 0 <= i < q ==> !IsSibling(items[i], group, range)
  {
    if items == [] || IsSibling(items[0], group, range) then 0 else 1 + FindSibling(items[1..], group, range)
  }

  function TrimSibling(child: RootChild, group: string, was: SourceRange, now: SourceRange): RootChild {
    if !child.TrackNode? then child
    else
      var items := child.track.items;
      var q := FindSibling(items, group, was);
      if q == |items| then child
      else TrackNode(child.track.(items := items[q := ClipItem(items[q].clip.(range := Some(now)))]))
  }

  /** `trim_linked_siblings`: on every other track the first clip of the group that covered what the
      trimmed clip showed is trimmed along. */
  function TrimSiblings(tl: Timeline, ti: nat, group: string, was: SourceRange, now: SourceRange): Timeline {
    seq(|tl|, i requires 0 <= i < |tl| => if i == ti then tl[i] else TrimSibling(tl[i], group, was, now))
  }

  /** The clip here shows this range from now on, and its siblings with it. */
  function TrimClipAt(tl: Timeline, ti: nat, ci: nat, now: SourceRange): Timeline
    requires ti < |tl| && tl[ti].TrackNode? && ci < |tl[ti].track.items|
    requires tl[ti].track.items[ci].ClipItem? && tl[ti].track.items[ci].clip.range.Some?
  {
    var clip := tl[ti].track.items[ci].clip;
    var trimmed := WithItems(tl, ti, tl[ti].track.items[ci := ClipItem(clip.(range := Some(now)))]);
    if clip.link.None? then trimmed else TrimSiblings(trimmed, ti, clip.link.value, clip.range.value, now)
  }

  /** One operation; `stamp` gives the fresh uuid stamped on an inserted clip. None when rejected. */
  function ApplyOp(tl: Timeline, op: EdlOp, stamp: string -> string): Option<Timeline> {
    match op
    case TrimClip(anchor, start, end) =>
      var found := FindClip(tl, 0, anchor);
      if found.None? then None
      else
        var (ti, ci) := found.value;
        if ti < |tl| && tl[ti].TrackNode? && ci < |tl[ti].track.items| && tl[ti].track.items[ci].ClipItem? then
          var clip := tl[ti].track.items[ci].clip;
          if clip.range.None? || !TrimAllowed(clip.range.value, start, end) then None
          else Some(TrimClipAt(tl, ti, ci, SourceRange(start, end)))
        else None
    case InsertClip(asset, name, at, start, end, clipName) =>
      var found := FindTrack(tl, 0, name);
      if end <= start || found.None? then None
      else
        var ti := found.value;
        var items := tl[ti].track.items;
        var position := if at < |items| then at else |items|;
        var clip := Clip(clipName, Some(stamp(clipName)), Some(asset), true, Some(SourceRange(start, end)), None);
        Some(WithItems(tl, ti, items[..position] + [ClipItem(clip)] + items[position..]))
  }

  function ApplyAll(tl: Option<Timeline>, ops: seq<EdlOp>, stamp: string -> string): Option<Timeline>
    decreases |ops|
  {
    if tl.None? || ops == [] then tl
    else ApplyAll(ApplyOp(tl.value, ops[0], stamp), ops[1..], stamp)
  }
}
