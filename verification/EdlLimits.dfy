/** Exactly when a plan lands. Inserts name their track and the applier takes the first of that name, and a
    trim takes linked clips along (crates/core/src/edl/apply.rs). */
module EdlLimits {
  import opened Sequences
  import opened PlanRanges
  import opened EdlPlan
  import opened EdlReplay
  import opened EdlLinks

  lemma {:induction false} FirstOfItsName(tl: Timeline, from: nat, j: nat)
    requires from <= j < |tl| && tl[j].TrackNode?
    ensures FindTrack(tl, from, tl[j].track.name).Some? && FindTrack(tl, from, tl[j].track.name).value <= j
    decreases j - from
  {
    if from == j {
    } else {
      FirstOfItsName(tl, from + 1, j);
    }
  }

  lemma {:induction false} FoundByName(tl: Timeline, from: nat, name: string)
    requires from <= |tl| && FindTrack(tl, from, name).Some?
    ensures tl[FindTrack(tl, from, name).value].track.name == name
    decreases |tl| - from
  {
    if !(tl[from].TrackNode? && tl[from].track.name == name) { FoundByName(tl, from + 1, name); }
  }

  lemma WithItemsSparesShadowed(tl: Timeline, k: nat, items: seq<TrackItem>, ti: nat)
    requires Shadowed(tl, ti) && k < |tl| && tl[k].TrackNode? && (k == ti ==> |items| == |Items(tl, ti)|)
    ensures var next := WithItems(tl, k, items);
      Shadowed(next, ti) && |Items(next, ti)| == |Items(tl, ti)|
  {
    var j :| 0 <= j < ti && SameName(tl, j, ti);
    assert SameName(WithItems(tl, k, items), j, ti);
  }

  lemma SiblingsSpareShadowed(tl: Timeline, k: nat, group: string, was: SourceRange, now: SourceRange, ti: nat)
    requires Shadowed(tl, ti)
    ensures var next := TrimSiblings(tl, k, group, was, now);
      Shadowed(next, ti) && |Items(next, ti)| == |Items(tl, ti)|
  {
    var next := TrimSiblings(tl, k, group, was, now);
    var j :| 0 <= j < ti && SameName(tl, j, ti);
    assert SameName(next, j, ti);
  }

  /** One operation leaves every track its name and a shadowed track its number of items. */
  lemma OpSparesShadowed(tl: Timeline, op: EdlOp, stamp: string -> string, ti: nat)
    requires Shadowed(tl, ti) && ApplyOp(tl, op, stamp).Some?
    ensures var next := ApplyOp(tl, op, stamp).value;
      Shadowed(next, ti) && |Items(next, ti)| == |Items(tl, ti)|
  {
    hide FindClip, TrimAllowed, WithItems, TrimSiblings;
    match op
    case TrimClip(anchor, start, end) =>
      var (k, ci) := FindClip(tl, 0, anchor).value;
      var clip, now := tl[k].track.items[ci].clip, SourceRange(start, end);
      var items := tl[k].track.items[ci := ClipItem(clip.(range := Some(now)))];
      WithItemsSparesShadowed(tl, k, items, ti);
      if clip.link.Some? {
        SiblingsSpareShadowed(WithItems(tl, k, items), k, clip.link.value, clip.range.value, now, ti);
      }
    case InsertClip(asset, name, at, start, end, clipName) =>
      var k := FindTrack(tl, 0, name).value;
      FoundByName(tl, 0, name);
      var j :| 0 <= j < ti && SameName(tl, j, ti);
      FirstOfItsName(tl, 0, j);
      var items := tl[k].track.items;
      var position := if at < |items| then at else |items|;
      var clip := Clip(clipName, Some(stamp(clipName)), Some(asset), true, Some(SourceRange(start, end)), None);
      WithItemsSparesShadowed(tl, k, items[..position] + [ClipItem(clip)] + items[position..], ti);
  }

  lemma {:induction false} OpsSpareShadowed(tl: Timeline, ops: seq<EdlOp>, stamp: string -> string, ti: nat)
    requires Shadowed(tl, ti)
    ensures var done := ApplyAll(Some(tl), ops, stamp);
      done.Some? ==> Shadowed(done.value, ti) && |Items(done.value, ti)| == |Items(tl, ti)|
    decreases |ops|
  {
    if ops != [] && ApplyOp(tl, ops[0], stamp).Some? {
      OpSparesShadowed(tl, ops[0], stamp, ti);
      OpsSpareShadowed(ApplyOp(tl, ops[0], stamp).value, ops[1..], stamp, ti);
    } else if ops != [] {
      ApplyAllNone(ops[1..], stamp);
    }
  }

  lemma SplitHasPieces(p: Plan, ti: nat, pos: nat)
    requires p.At(ti, pos) && p.Splits(ti, pos)
    ensures |p.Pieces(ti, pos)| >= 1
  {
    hide Plan.Pick, Plan.Item;
    var c := p.Pick(ti, pos).value;
    InsertedItemsLength(c, p.kept(c), p.prefix, |p.kept(c)|, p.stamp);
  }

  lemma {:induction false} LengthGrows(p: Plan, ti: nat, n: nat, pos: nat)
    requires ti < |p.tl| && p.tl[ti].TrackNode? && n <= |p.tl[ti].track.items|
    requires p.At(ti, pos) && p.Splits(ti, pos)
    ensures p.Length(ti, n) >= if pos < n then n + 1 else n
  {
    hide Plan.Pieces, Plan.Splits;
    if n == 0 {
    } else {
      LengthGrows(p, ti, n - 1, pos);
      if n - 1 == pos { SplitHasPieces(p, ti, pos); }
    }
  }

  lemma FilledLength(p: Plan, base: Timeline, ti: nat)
    requires SameShape(base, p.tl) && ti < |p.tl| && p.tl[ti].TrackNode?
    ensures |Items(p.Filled(base), ti)| == p.Length(ti, |p.tl[ti].track.items|)
  {
    assert SameChild(base[ti], p.tl[ti]);
  }

  /** No list of these operations puts several pieces in the place of a clip on the later of two tracks
      of one name: the inserts go to the earlier track. */
  lemma ShadowedSplitsGoAstray(p: Plan, ti: nat, pos: nat, ops: seq<EdlOp>)
    requires Shadowed(p.tl, ti) && p.At(ti, pos) && p.Splits(ti, pos)
    ensures ApplyAll(Some(p.tl), ops, p.stamp) != Some(p.Goal())
  {
    OpsSpareShadowed(p.tl, ops, p.stamp, ti);
    LengthGrows(p, ti, |p.tl[ti].track.items|, pos);
    FilledLength(p, p.AllTrimmed(), ti);
    hide ApplyAll, Plan.Filled, Plan.AllTrimmed, Shadowed;
  }

  /** The filled timeline determines its base. */
  lemma FilledDetermines(p: Plan, a: Timeline, b: Timeline)
    requires SameShape(a, p.tl) && SameShape(b, p.tl) && p.Filled(a) == p.Filled(b)
    ensures a == b
  {
    forall i | 0 <= i < |p.tl| ensures a[i] == b[i] { ChildDetermines(p, a, b, i); }
  }

  lemma ChildDetermines(p: Plan, a: Timeline, b: Timeline, i: nat)
    requires SameShape(a, p.tl) && SameShape(b, p.tl) && i < |p.tl| && p.Filled(a)[i] == p.Filled(b)[i]
    ensures a[i] == b[i]
  {
    assert SameChild(a[i], p.tl[i]) && SameChild(b[i], p.tl[i]);
    if a[i].TrackNode? {
      var xs, ys := a[i].track.items, b[i].track.items;
      assert p.Woven(i, xs, |xs|) == p.Woven(i, ys, |ys|);
      forall q | 0 <= q < |xs| ensures xs[q] == ys[q] {
        WovenAt(p, i, xs, |xs|, q);
        WovenAt(p, i, ys, |ys|, q);
      }
      assert xs == ys;
      assert a[i].track.(items := []) == b[i].track.(items := []);
    }
  }

  /** The whole list of a plan, applied to the timeline, gives the planned one. */
  ghost predicate Lands(p: Plan) {
    ApplyAll(Some(p.tl), RunOps(SelectedFrom(p.tl, 0, 0, p.wanted), p.kept, p.prefix, map[]), p.stamp) == Some(p.Goal())
  }

  /** For a plan whose changed clips of one link group lie on one track: its list gives the planned timeline
      exactly when no clip is split on a track with an earlier namesake, no changed clip has on another
      track a clip of its group that covers its range, and no trimmed clip is widened by rounding. */
  lemma PlanLandsExactly(p: Plan)
    requires p.Valid() && GroupsOnOneTrack(p)
    ensures Lands(p) <==>
      p.SplitsStandAlone() && LeavesLinkedAlone(p) && TrimsFit(SelectedFrom(p.tl, 0, 0, p.wanted), p.kept)
  {
    hide ApplyAll, RunOps, TrimsOf, SelectedFrom, Plan.Filled, Plan.AllTrimmed, SameShape, Plan.Valid, GroupsOnOneTrack;
    hide TrimsFit, LeavesLinkedAlone;
    var clips := SelectedFrom(p.tl, 0, 0, p.wanted);
    if p.SplitsStandAlone() {
      Replays(p);
      TrimsLandExactly(p);
      var trimmed := ApplyAll(Some(p.tl), TrimsOf(clips, p.kept), p.stamp);
      if trimmed.Some? && p.Filled(trimmed.value) == p.Goal() { FilledDetermines(p, trimmed.value, p.AllTrimmed()); }
    } else {
      hide Plan.Splits;
      var ti, pos :| p.At(ti, pos) && p.Splits(ti, pos) && Shadowed(p.tl, ti);
      ShadowedSplitsGoAstray(p, ti, pos, RunOps(clips, p.kept, p.prefix, map[]));
    }
  }
}
