/** What the operations a planner emits are, and what applying one does, said of the timeline itself
    (crates/cli/src/plan_ranges.rs, crates/core/src/edl/apply.rs, crates/core/src/edl/anchor.rs). */
module EdlApply {
  import opened Sequences
  import opened PlanRanges
  import opened EdlPlan
  import Decimal

  // ---------------------------------------------------------------- what is emitted

  /** One clip's operations: none when nothing is kept, or the one kept range is within a millisecond of the clip
      at either end; otherwise a trim to the first range, and for every further range, in order, an insert behind
      it, all to the millisecond. */
  lemma ClipOpsExactly(clip: SelectedClip, kept: seq<SourceRange>, prefix: string, offset: nat)
    ensures var ops := ClipOps(clip, kept, prefix, offset);
      && (ops == [] <==>
            || kept == []
            || (|kept| == 1 && clip.sourceStart - 0.001 <= kept[0].start <= clip.sourceStart + 0.001
                && clip.sourceEnd - 0.001 <= kept[0].end <= clip.sourceEnd + 0.001))
      && InsertedCount(clip, kept) == (if ops == [] then 0 else |kept| - 1)
      && (ops != [] ==>
            |ops| == |kept| && ops[0] == TrimClip(clip.clipUuid, Millis(kept[0].start), Millis(kept[0].end)))
      && forall i :: 1 <= i < |ops| ==>
           ops[i] == InsertClip(clip.asset, clip.trackName, clip.trackPosition + offset + i, Millis(kept[i].start),
                                Millis(kept[i].end), clip.clipUuid + "-" + prefix + "-" + Decimal.Nat(i))
  {
    hide Millis, Decimal.Nat;
    InsertOpsAre(clip, kept, prefix, offset, |kept|);
    var ops, inserts := ClipOps(clip, kept, prefix, offset), InsertOps(clip, kept, prefix, offset, |kept|);
    forall i | 1 <= i < |ops| ensures ops[i] == InsertOp(clip, kept, prefix, offset, i) {
      assert ops[i] == inserts[i-1];
    }
  }

  lemma {:induction false} InsertOpsAre(clip: SelectedClip, kept: seq<SourceRange>, prefix: string, offset: nat, n: nat)
    requires n <= |kept|
    ensures var ops := InsertOps(clip, kept, prefix, offset, n);
      && |ops| == (if n == 0 then 0 else n - 1)
      && forall i :: 1 <= i < n ==> ops[i-1] == InsertOp(clip, kept, prefix, offset, i)
  {
    hide InsertOp;
    if n <= 1 {
    } else {
      InsertOpsAre(clip, kept, prefix, offset, n - 1);
    }
  }

  // ---------------------------------------------------------------- the clip an anchor names

  predicate Bears(item: TrackItem, anchor: string) {
    item.ClipItem? && (item.clip.name == anchor || item.clip.uuid == Some(anchor))
  }

  predicate BearsAt(tl: Timeline, ti: nat, ci: nat, anchor: string) {
    ti < |tl| && tl[ti].TrackNode? && ci < |tl[ti].track.items| && Bears(tl[ti].track.items[ci], anchor)
  }

  /** The first clip of the timeline with this uuid or name. */
  ghost predicate FirstToBear(tl: Timeline, ti: nat, ci: nat, anchor: string) {
    && BearsAt(tl, ti, ci, anchor)
    && forall tj: nat, q: nat :: BearsAt(tl, tj, q, anchor) ==> !Before((tj, q), (ti, ci))
  }

  lemma {:induction false} FoundItem(items: seq<TrackItem>, anchor: string)
    ensures match FindItem(items, anchor)
      case None => forall i :: 0 <= i < |items| ==> !Bears(items[i], anchor)
      case Some(k) => k < |items| && Bears(items[k], anchor) && forall i :: 0 <= i < k ==> !Bears(items[i], anchor)
  {
    if items == [] {
    } else {
      FoundItem(items[1..], anchor);
      forall i | 0 < i < |items| ensures items[i] == items[1..][i-1] {}
    }
  }

  lemma {:induction false} FoundClip(tl: Timeline, from: nat, anchor: string)
    requires from <= |tl| && forall tj: nat, q: nat :: tj < from ==> !BearsAt(tl, tj, q, anchor)
    ensures match FindClip(tl, from, anchor)
      case None => forall tj: nat, q: nat :: !BearsAt(tl, tj, q, anchor)
      case Some(place) => FirstToBear(tl, place.0, place.1, anchor)
    decreases |tl| - from
  {
    if from == |tl| {
    } else {
      FoundItem(Items(tl, from), anchor);
      hide Bears, FindItem;
      if FindItem(Items(tl, from), anchor).None? { FoundClip(tl, from + 1, anchor); }
    }
  }

  // ---------------------------------------------------------------- trims

  /** The range is a narrower one than this, give or take a microsecond. */
  predicate Narrows(was: Option<SourceRange>, start: real, end: real) {
    && was.Some? && start <= end && was.value.start - 0.000001 <= start && end <= was.value.end + 0.000001
    && (start >= was.value.start + 0.000001 || start <= was.value.start - 0.000001
        || end >= was.value.end + 0.000001 || end <= was.value.end - 0.000001)
  }

  /** A clip of the group that shows all of the range, give or take a microsecond. */
  predicate Linked(item: TrackItem, link: Option<string>, was: SourceRange) {
    && link.Some? && item.ClipItem? && item.clip.link == link && item.clip.range.Some?
    && item.clip.range.value.start <= was.start + 0.000001 && was.end <= item.clip.range.value.end + 0.000001
  }

  /** Of this track the first linked clip shows the new range afterwards, and nothing else changes. */
  ghost predicate FirstLinkedFollows(before: RootChild, after: RootChild, link: Option<string>, was: SourceRange,
                                     now: SourceRange) {
    if before.TrackNode? && exists i :: 0 <= i < |before.track.items| && Linked(before.track.items[i], link, was) then
      exists q ::
        && 0 <= q < |before.track.items| && Linked(before.track.items[q], link, was)
        && (forall i :: 0 <= i < q ==> !Linked(before.track.items[i], link, was))
        && after == Showing(before, q, now)
    else after == before
  }

  /** The track with the clip at `q` showing this range. */
  function Showing(child: RootChild, q: nat, now: SourceRange): RootChild
    requires child.TrackNode? && q < |child.track.items| && child.track.items[q].ClipItem?
  {
    var items := child.track.items;
    TrackNode(child.track.(items := items[q := ClipItem(items[q].clip.(range := Some(now)))]))
  }

  /** A trim applies exactly when the first clip its anchor names has a range and the new one is narrower; then this
      clip shows the new range, on every other track the first linked clip does, and nothing else changes. */
  lemma TrimAppliesExactly(tl: Timeline, anchor: string, start: real, end: real, stamp: string -> string, ti: nat,
                           ci: nat)
    requires FirstToBear(tl, ti, ci, anchor)
    ensures var next, clip := ApplyOp(tl, TrimClip(anchor, start, end), stamp), tl[ti].track.items[ci].clip;
      && (next.Some? <==> Narrows(clip.range, start, end))
      && (next.Some? ==>
            && |next.value| == |tl| && next.value[ti] == Showing(tl[ti], ci, SourceRange(start, end))
            && forall tj :: 0 <= tj < |tl| && tj != ti ==>
                 FirstLinkedFollows(tl[tj], next.value[tj], clip.link, clip.range.value, SourceRange(start, end)))
  {
    AnchorResolves(tl, anchor, ti, ci);
    hide FindClip, FirstToBear, FirstLinkedFollows, TrimClipAt, Bears;
    if tl[ti].track.items[ci].clip.range.Some? { TrimAtFollows(tl, ti, ci, SourceRange(start, end)); }
  }

  lemma AnchorResolves(tl: Timeline, anchor: string, ti: nat, ci: nat)
    requires FirstToBear(tl, ti, ci, anchor)
    ensures FindClip(tl, 0, anchor) == Some((ti, ci))
  {
    FoundClip(tl, 0, anchor);
    hide FindClip, Bears;
  }

  lemma TrimAtFollows(tl: Timeline, ti: nat, ci: nat, now: SourceRange)
    requires ti < |tl| && tl[ti].TrackNode? && ci < |tl[ti].track.items|
    requires tl[ti].track.items[ci].ClipItem? && tl[ti].track.items[ci].clip.range.Some?
    ensures var next, clip := TrimClipAt(tl, ti, ci, now), tl[ti].track.items[ci].clip;
      && |next| == |tl| && next[ti] == Showing(tl[ti], ci, now)
      && forall tj :: 0 <= tj < |tl| && tj != ti ==>
           FirstLinkedFollows(tl[tj], next[tj], clip.link, clip.range.value, now)
  {
    hide FirstLinkedFollows, TrimSibling;
    var clip := tl[ti].track.items[ci].clip;
    forall tj | 0 <= tj < |tl| && tj != ti
      ensures FirstLinkedFollows(tl[tj], TrimClipAt(tl, ti, ci, now)[tj], clip.link, clip.range.value, now)
    {
      LinkedFollows(tl[tj], clip.link, clip.range.value, now);
    }
  }

  lemma LinkedFollows(child: RootChild, link: Option<string>, was: SourceRange, now: SourceRange)
    ensures link.Some? ==> FirstLinkedFollows(child, TrimSibling(child, link.value, was, now), link, was, now)
    ensures link.None? ==> FirstLinkedFollows(child, child, link, was, now)
  {
    if link.Some? && child.TrackNode? {
      var q := FindSibling(child.track.items, link.value, was);
      forall i | 0 <= i < |child.track.items|
        ensures Linked(child.track.items[i], link, was) <==> IsSibling(child.track.items[i], link.value, was)
      {}
      if q < |child.track.items| { assert Linked(child.track.items[q], link, was); }
    }
  }

  /** With no clip of that uuid or name the trim is rejected. */
  lemma LostTrimsFail(tl: Timeline, anchor: string, start: real, end: real, stamp: string -> string)
    requires forall ti: nat, ci: nat :: !BearsAt(tl, ti, ci, anchor)
    ensures ApplyOp(tl, TrimClip(anchor, start, end), stamp).None?
  {
    FoundClip(tl, 0, anchor);
  }

  // ---------------------------------------------------------------- inserts

  predicate Named(child: RootChild, name: string) { child.TrackNode? && child.track.name == name }

  lemma {:induction false} FoundTrack(tl: Timeline, from: nat, name: string)
    requires from <= |tl| && forall i :: 0 <= i < from ==> !Named(tl[i], name)
    ensures match FindTrack(tl, from, name)
      case None => forall i :: 0 <= i < |tl| ==> !Named(tl[i], name)
      case Some(ti) => ti < |tl| && Named(tl[ti], name) && forall i :: 0 <= i < ti ==> !Named(tl[i], name)
    decreases |tl| - from
  {
    if from == |tl| {
    } else if !Named(tl[from], name) {
      FoundTrack(tl, from + 1, name);
    }
  }

  /** An insert of a range that is not empty puts one active clip of the asset on the first track of the name, at the
      position or at the end of a shorter track, and changes nothing else. */
  lemma InsertAppliesExactly(tl: Timeline, asset: string, track: string, at: nat, start: real, end: real, name: string,
                             stamp: string -> string)
    ensures var next := ApplyOp(tl, InsertClip(asset, track, at, start, end, name), stamp);
      && (next.Some? <==> start < end && exists ti :: 0 <= ti < |tl| && Named(tl[ti], track))
      && (next.Some? ==>
            exists ti: nat, p: nat ::
              && ti < |tl| && Named(tl[ti], track) && (forall i :: 0 <= i < ti ==> !Named(tl[i], track))
              && p <= |tl[ti].track.items| && (p == at || p == |tl[ti].track.items| < at)
              && var clip := Clip(name, Some(stamp(name)), Some(asset), true, Some(SourceRange(start, end)), None);
                 next.value == tl[ti := WithClip(tl[ti], p, clip)])
  {
    FoundTrack(tl, 0, track);
    var found := FindTrack(tl, 0, track);
    if start < end && found.Some? {
      var items := tl[found.value].track.items;
      var p := if at < |items| then at else |items|;
      var clip := Clip(name, Some(stamp(name)), Some(asset), true, Some(SourceRange(start, end)), None);
      var next := ApplyOp(tl, InsertClip(asset, track, at, start, end, name), stamp);
      assert next == Some(tl[found.value := WithClip(tl[found.value], p, clip)]);
    }
  }

  function WithClip(child: RootChild, p: nat, clip: Clip): RootChild
    requires child.TrackNode? && p <= |child.track.items|
  {
    TrackNode(child.track.(items := child.track.items[..p] + [ClipItem(clip)] + child.track.items[p..]))
  }
}
