/** What the trims of a plan do to linked clips (crates/core/src/edl/apply.rs): a trim takes along, on every
    other track, the first clip of its group that covers what it trims. */
module EdlLinks {
  import opened Sequences
  import opened PlanRanges
  import opened EdlPlan
  import opened EdlReplay

  // ---------------------------------------------------------------- plans that touch no linked clip

  /** Trimming `x` takes none of these items along. */
  predicate NoSibling(items: seq<TrackItem>, x: TrackItem) {
    x.ClipItem? && x.clip.link.Some? && x.clip.range.Some? ==>
      FindSibling(items, x.clip.link.value, x.clip.range.value) == |items|
  }

  /** The guard of the applier, on the timeline as it was: no changed clip has, on another track, a clip of
      its group that covers its range. */
  ghost predicate LeavesLinkedAlone(p: Plan) {
    forall ti, pos, i :: p.At(ti, pos) && p.Changed(ti, pos) && 0 <= i < |p.tl| && i != ti ==>
      NoSibling(Items(p.tl, i), p.Item(ti, pos))
  }

  /** The items of root child `i` when a clip of child `ti` is trimmed: earlier tracks are done. */
  ghost function ItemsThen(p: Plan, i: nat, ti: nat): seq<TrackItem>
    requires i < |p.tl|
  {
    if i < ti then Items(p.AllTrimmed(), i) else Items(p.tl, i)
  }

  /** The same guard at the time of each trim. */
  ghost predicate TakesNothingAlong(p: Plan) {
    forall ti, pos, i :: p.At(ti, pos) && p.Changed(ti, pos) && 0 <= i < |p.tl| && i != ti ==>
      NoSibling(ItemsThen(p, i, ti), p.Item(ti, pos))
  }

  /** The timeline with the changed clips before this place trimmed. */
  function PartTrimmedChild(p: Plan, i: nat, ti: nat, pos: nat): RootChild
    requires i < |p.tl|
  {
    if i < ti then p.TrimmedChild(i)
    else if i > ti || !p.tl[i].TrackNode? then p.tl[i]
    else
      var items := p.tl[i].track.items;
      TrackNode(p.tl[i].track.(items :=
        seq(|items|, q requires 0 <= q < |items| => if q < pos then p.TrimmedItem(i, q) else items[q])))
  }

  ghost function PartTrimmed(p: Plan, ti: nat, pos: nat): (base: Timeline)
    ensures SameShape(base, p.tl)
  {
    seq(|p.tl|, i requires 0 <= i < |p.tl| => PartTrimmedChild(p, i, ti, pos))
  }

  lemma FindNone(items: seq<TrackItem>, x: TrackItem, group: string, was: SourceRange, now: SourceRange,
                 child: RootChild)
    requires child.TrackNode? && child.track.items == items && FindSibling(items, group, was) == |items|
    ensures TrimSibling(child, group, was, now) == child
  {}

  /** A trim that takes nothing along changes one item. */
  lemma TrimAlone(p: Plan, ti: nat, pos: nat)
    requires p.Valid() && TakesNothingAlong(p) && p.At(ti, pos) && p.Changed(ti, pos)
    ensures var c := p.Pick(ti, pos).value;
      ApplyOp(PartTrimmed(p, ti, pos), TrimOf(c, p.kept(c)), p.stamp)
      == if TrimFits(c, p.kept(c)[0]) then Some(PartTrimmed(p, ti, pos + 1)) else None
  {
    var c, base := p.Pick(ti, pos).value, PartTrimmed(p, ti, pos);
    AnchorFinds(p, base, ti, pos);
    PickedItem(p, base, ti, pos);
    assert base[ti].track.items[pos] == p.Item(ti, pos);
    TrimAllowedWhenFits(c, p.kept(c));
    var now := PrintedRange(p.kept(c)[0]);
    TrimAloneAt(p, ti, pos, now);
    hide TrimClipAt, PartTrimmed, FindClip, TrimAllowed, TrimFits, Millis, Plan.Valid, TakesNothingAlong, Plan.Pick;
  }

  lemma TrimAloneAt(p: Plan, ti: nat, pos: nat, now: SourceRange)
    requires TakesNothingAlong(p) && p.At(ti, pos) && p.Changed(ti, pos)
    requires now == PrintedRange(p.kept(p.Pick(ti, pos).value)[0])
    requires p.Item(ti, pos).ClipItem? && p.Item(ti, pos).clip.range.Some?
    ensures var base := PartTrimmed(p, ti, pos);
      && base[ti].TrackNode? && pos < |base[ti].track.items| && base[ti].track.items[pos] == p.Item(ti, pos)
      && TrimClipAt(base, ti, pos, now) == PartTrimmed(p, ti, pos + 1)
  {
    hide Plan.Pick, FindSibling;
    var base, next, x := PartTrimmed(p, ti, pos), PartTrimmed(p, ti, pos + 1), p.Item(ti, pos);
    var trimmed := TrimClipAt(base, ti, pos, now);
    forall i | 0 <= i < |p.tl| ensures trimmed[i] == next[i] {
      if i == ti {
        var y := ClipItem(x.clip.(range := Some(now)));
        assert p.TrimmedItem(ti, pos) == y;
        assert base[ti].track.items[pos := y] == next[ti].track.items;
      } else {
        assert NoSibling(ItemsThen(p, i, ti), x);
        assert base[i] == next[i];
        if base[i].TrackNode? {
          assert base[i].track.items == ItemsThen(p, i, ti);
          if x.clip.link.Some? {
            FindNone(base[i].track.items, x, x.clip.link.value, x.clip.range.value, now, base[i]);
          }
        }
      }
    }
  }

  lemma {:induction false} TrimsAloneFrom(p: Plan, ti: nat, pos: nat)
    requires p.Valid() && TakesNothingAlong(p)
    requires ti <= |p.tl| && (ti < |p.tl| ==> pos <= |Items(p.tl, ti)|) && (ti == |p.tl| ==> pos == 0)
    ensures var clips := SelectedFrom(p.tl, ti, pos, p.wanted);
      ApplyAll(Some(PartTrimmed(p, ti, pos)), TrimsOf(clips, p.kept), p.stamp)
      == if TrimsFit(clips, p.kept) then Some(p.AllTrimmed()) else None
    decreases |p.tl| - ti, if ti < |p.tl| then |Items(p.tl, ti)| - pos else 0
  {
    hide TrimsOf, TrimsFit, SelectedFrom, ApplyAll, PartTrimmed, Plan.AllTrimmed, Plan.Valid, TakesNothingAlong;
    hide Plan.TrimmedItem, TrimFits;
    if ti == |p.tl| {
      TrimsEnd(p);
    } else if pos == |Items(p.tl, ti)| {
      PartTrimmedTrack(p, ti);
      SelectedTrackEnd(p.tl, ti, p.wanted);
      TrimsAloneFrom(p, ti + 1, 0);
    } else {
      var rest := SelectedFrom(p.tl, ti, pos + 1, p.wanted);
      PickedComesFirst(p, ti, pos);
      if p.Pick(ti, pos).None? {
        NoPickNoChange(p, ti, pos);
        PartTrimmedSkip(p, ti, pos);
        TrimsAloneFrom(p, ti, pos + 1);
      } else {
        var c := p.Pick(ti, pos).value;
        RunOpsCons(c, rest, p.kept, p.prefix, map[]);
        if !p.Changed(ti, pos) {
          assert [] + TrimsOf(rest, p.kept) == TrimsOf(rest, p.kept);
          PartTrimmedSkip(p, ti, pos);
          TrimsAloneFrom(p, ti, pos + 1);
        } else {
          var op := TrimOf(c, p.kept(c));
          TrimAlone(p, ti, pos);
          ApplyOne(PartTrimmed(p, ti, pos), op, p.stamp);
          ApplyAllConcat(Some(PartTrimmed(p, ti, pos)), [op], TrimsOf(rest, p.kept), p.stamp);
          ApplyAllNone(TrimsOf(rest, p.kept), p.stamp);
          TrimsAloneFrom(p, ti, pos + 1);
        }
      }
    }
  }

  lemma TrimsEnd(p: Plan)
    ensures var clips := SelectedFrom(p.tl, |p.tl|, 0, p.wanted);
      && TrimsFit(clips, p.kept)
      && ApplyAll(Some(PartTrimmed(p, |p.tl|, 0)), TrimsOf(clips, p.kept), p.stamp) == Some(p.AllTrimmed())
  {
    assert PartTrimmed(p, |p.tl|, 0) == p.AllTrimmed();
  }

  lemma PartTrimmedTrack(p: Plan, ti: nat)
    requires ti < |p.tl|
    ensures PartTrimmed(p, ti, |Items(p.tl, ti)|) == PartTrimmed(p, ti + 1, 0)
  {
    forall i | 0 <= i < |p.tl|
      ensures PartTrimmedChild(p, i, ti, |Items(p.tl, ti)|) == PartTrimmedChild(p, i, ti + 1, 0)
    {
      if i == ti + 1 && p.tl[i].TrackNode? {
        assert PartTrimmedChild(p, i, ti + 1, 0).track.items == p.tl[i].track.items;
      }
    }
  }

  lemma PartTrimmedSkip(p: Plan, ti: nat, pos: nat)
    requires p.At(ti, pos) && !p.Changed(ti, pos)
    ensures PartTrimmed(p, ti, pos) == PartTrimmed(p, ti, pos + 1)
  {
    forall i | 0 <= i < |p.tl| ensures PartTrimmedChild(p, i, ti, pos) == PartTrimmedChild(p, i, ti, pos + 1) {
      if i == ti {
        assert PartTrimmedChild(p, i, ti, pos).track.items == PartTrimmedChild(p, i, ti, pos + 1).track.items;
      }
    }
  }

  lemma NothingTrimmedYet(p: Plan)
    ensures PartTrimmed(p, 0, 0) == p.tl
  {
    forall i | 0 <= i < |p.tl| ensures PartTrimmedChild(p, i, 0, 0) == p.tl[i] {
      if i == 0 && p.tl[i].TrackNode? {
        assert PartTrimmedChild(p, i, 0, 0).track.items == p.tl[i].track.items;
      }
    }
  }

  /** When no trim takes a linked clip along and no clip is split on a track with an earlier namesake, the
      planner's whole edit list gives exactly the planned timeline; it is rejected exactly when rounding to
      milliseconds widens some trimmed clip. */
  lemma PlanLands(p: Plan)
    requires p.Valid() && p.SplitsStandAlone() && TakesNothingAlong(p)
    ensures var clips := SelectedFrom(p.tl, 0, 0, p.wanted);
      ApplyAll(Some(p.tl), RunOps(clips, p.kept, p.prefix, map[]), p.stamp)
      == if TrimsFit(clips, p.kept) then Some(p.Goal()) else None
  {
    Replays(p);
    NothingTrimmedYet(p);
    TrimsAloneFrom(p, 0, 0);
    hide ApplyAll, RunOps, TrimsOf, TrimsFit, SelectedFrom, Plan.AllTrimmed, Plan.Filled;
  }

  // ---------------------------------------------------------------- plans that do

  /** Changed clips of one link group lie on one track. */
  ghost predicate GroupsOnOneTrack(p: Plan) {
    forall ti, pos, tj, q ::
      p.At(ti, pos) && p.Changed(ti, pos) && p.At(tj, q) && p.Changed(tj, q) ==>
        SameGroup(p.Item(ti, pos), p.Item(tj, q)) ==> ti == tj
  }

  predicate SameGroup(x: TrackItem, y: TrackItem) {
    x.ClipItem? && y.ClipItem? && x.clip.link.Some? && x.clip.link == y.clip.link
  }

  /** The guard reads the same on the timeline as it was: no clip of the group on another track is changed. */
  lemma GuardsAgree(p: Plan)
    requires GroupsOnOneTrack(p)
    ensures TakesNothingAlong(p) <==> LeavesLinkedAlone(p)
  {
    forall ti, pos, i | p.At(ti, pos) && p.Changed(ti, pos) && 0 <= i < |p.tl| && i != ti
      ensures NoSibling(ItemsThen(p, i, ti), p.Item(ti, pos)) <==> NoSibling(Items(p.tl, i), p.Item(ti, pos))
    {
      GuardAgrees(p, ti, pos, i);
    }
    hide NoSibling, ItemsThen, Plan.Changed;
  }

  lemma GuardAgrees(p: Plan, ti: nat, pos: nat, i: nat)
    requires GroupsOnOneTrack(p) && p.At(ti, pos) && p.Changed(ti, pos) && i < |p.tl| && i != ti
    ensures NoSibling(ItemsThen(p, i, ti), p.Item(ti, pos)) <==> NoSibling(Items(p.tl, i), p.Item(ti, pos))
  {
    var x := p.Item(ti, pos);
    if i < ti && p.tl[i].TrackNode? && x.ClipItem? && x.clip.link.Some? && x.clip.range.Some? {
      var was, then_ := Items(p.tl, i), ItemsThen(p, i, ti);
      var group, range := x.clip.link.value, x.clip.range.value;
      forall q | 0 <= q < |was| ensures IsSibling(was[q], group, range) <==> IsSibling(then_[q], group, range) {
        assert p.At(i, q) && then_[q] == p.TrimmedItem(i, q);
        if p.Changed(i, q) { assert !SameGroup(x, p.Item(i, q)); }
      }
      hide IsSibling, Plan.TrimmedItem;
      FindSiblingIs(then_, group, range, FindSibling(was, group, range));
    }
  }

  function Shows(x: TrackItem): real {
    if x.ClipItem? && x.clip.range.Some? then x.clip.range.value.end - x.clip.range.value.start else 0.0
  }

  /** As it was, or showing less. */
  predicate Shrunk(x: TrackItem, y: TrackItem) { x == y || Shows(y) < Shows(x) }

  /** Items the plan does not change are as they were or show less. */
  ghost predicate OthersShrunk(p: Plan, base: Timeline)
    requires SameShape(base, p.tl)
  {
    forall j, r :: p.At(j, r) && !p.Changed(j, r) ==> Shrunk(p.Item(j, r), ItemIn(p, base, j, r))
  }

  ghost function ItemIn(p: Plan, base: Timeline, j: nat, r: nat): TrackItem
    requires SameShape(base, p.tl) && p.At(j, r)
  {
    assert SameChild(base[j], p.tl[j]);
    base[j].track.items[r]
  }

  /** Clips to be changed from this place on still show what they did. */
  ghost predicate RestUntouched(p: Plan, base: Timeline, ti: nat, pos: nat)
    requires SameShape(base, p.tl)
  {
    forall j: nat, r: nat :: p.At(j, r) && p.Changed(j, r) && NotBefore(j, r, ti, pos) ==>
      ItemIn(p, base, j, r) == p.Item(j, r)
  }

  predicate NotBefore(j: nat, r: nat, ti: nat, pos: nat) { j > ti || (j == ti && r >= pos) }

  /** Some item the plan does not change shows less than it did. */
  ghost predicate Hit(p: Plan, base: Timeline)
    requires SameShape(base, p.tl)
  {
    exists j, r :: p.At(j, r) && !p.Changed(j, r) && ItemIn(p, base, j, r) != p.Item(j, r)
  }

  /** A changed clip from this place on had a sibling on another track. */
  ghost predicate WillHit(p: Plan, ti: nat, pos: nat) {
    exists j: nat, r: nat, i: nat ::
      p.At(j, r) && p.Changed(j, r) && NotBefore(j, r, ti, pos) && HasSiblingOn(p, j, r, i)
  }

  ghost predicate HasSiblingOn(p: Plan, ti: nat, pos: nat, i: nat)
    requires p.At(ti, pos)
  {
    i < |p.tl| && i != ti && !NoSibling(Items(p.tl, i), p.Item(ti, pos))
  }

  /** What a trim leaves of a clip that covered the trimmed one is less than it showed. */
  lemma SiblingShrinks(c: SelectedClip, kept: seq<SourceRange>, x: Clip)
    requires SoundKept(c, kept) && Changes(c, kept) && CoversRange(x, SourceRange(c.sourceStart, c.sourceEnd))
    ensures var now := PrintedRange(kept[0]); now.end - now.start < x.range.value.end - x.range.value.start
  {
    MillisClose(kept[0].start); MillisClose(kept[0].end);
    hide Millis;
    assert kept[0] in kept;
    if |kept| > 1 { assert kept[1] in kept; }
  }

  /** What one trim does to the item at another place. */
  lemma TrimOnItem(p: Plan, base: Timeline, ti: nat, pos: nat, now: SourceRange, j: nat, r: nat)
    requires SameShape(base, p.tl) && p.At(ti, pos) && p.At(j, r) && (j != ti || r != pos)
    requires ItemIn(p, base, ti, pos).ClipItem? && ItemIn(p, base, ti, pos).clip.range.Some?
    ensures base[ti].TrackNode? && pos < |base[ti].track.items|
    ensures base[ti].track.items[pos] == ItemIn(p, base, ti, pos)
    ensures SameShape(TrimClipAt(base, ti, pos, now), p.tl)
    ensures var x, y := ItemIn(p, base, ti, pos), ItemIn(p, base, j, r);
      var z := ItemIn(p, TrimClipAt(base, ti, pos, now), j, r);
      z == y || (j != ti && x.clip.link.Some? && IsSibling(y, x.clip.link.value, x.clip.range.value)
                 && z == ClipItem(y.clip.(range := Some(now))))
  {
    assert SameChild(base[ti], p.tl[ti]) && SameChild(base[j], p.tl[j]);
    TrimKeepsShape(base, p.tl, ti, pos, now);
    hide IsSibling;
  }

  /** The first sibling on another track is trimmed along. */
  lemma SiblingIsTrimmed(p: Plan, base: Timeline, ti: nat, pos: nat, now: SourceRange, i: nat)
    requires SameShape(base, p.tl) && p.At(ti, pos) && i < |p.tl| && i != ti
    requires ItemIn(p, base, ti, pos).ClipItem? && ItemIn(p, base, ti, pos).clip.range.Some?
    requires !NoSibling(Items(base, i), ItemIn(p, base, ti, pos))
    ensures base[ti].TrackNode? && pos < |base[ti].track.items|
    ensures base[ti].track.items[pos] == ItemIn(p, base, ti, pos)
    ensures SameShape(TrimClipAt(base, ti, pos, now), p.tl)
    ensures exists q :: p.At(i, q) && TrimmedAlong(p, base, ti, pos, now, i, q)
  {
    assert SameChild(base[ti], p.tl[ti]) && SameChild(base[i], p.tl[i]);
    TrimKeepsShape(base, p.tl, ti, pos, now);
    var x := ItemIn(p, base, ti, pos);
    var q := FindSibling(Items(base, i), x.clip.link.value, x.clip.range.value);
    assert p.At(i, q);
    hide IsSibling;
    assert TrimmedAlong(p, base, ti, pos, now, i, q);
  }

  /** The item at the second place is a sibling of the clip at the first and is trimmed with it. */
  ghost predicate TrimmedAlong(p: Plan, base: Timeline, ti: nat, pos: nat, now: SourceRange, i: nat, q: nat)
    requires SameShape(base, p.tl) && p.At(ti, pos) && p.At(i, q)
    requires base[ti].TrackNode? && pos < |base[ti].track.items|
    requires base[ti].track.items[pos].ClipItem? && base[ti].track.items[pos].clip.range.Some?
    requires SameShape(TrimClipAt(base, ti, pos, now), p.tl)
  {
    var x, y := base[ti].track.items[pos], ItemIn(p, base, i, q);
    && x.clip.link.Some? && IsSibling(y, x.clip.link.value, x.clip.range.value)
    && ItemIn(p, TrimClipAt(base, ti, pos, now), i, q) == ClipItem(y.clip.(range := Some(now)))
  }

  /** A changed clip about to be trimmed in the base shows its original range. */
  lemma UntouchedClip(p: Plan, base: Timeline, ti: nat, pos: nat)
    requires p.Valid() && p.At(ti, pos) && p.Changed(ti, pos)
    requires SameShape(base, p.tl) && RestUntouched(p, base, ti, pos)
    ensures var x, c := ItemIn(p, base, ti, pos), p.Pick(ti, pos).value;
      && x == p.Item(ti, pos) && x.ClipItem? && x.clip.range == Some(SourceRange(c.sourceStart, c.sourceEnd))
      && SoundKept(c, p.kept(c)) && Changes(c, p.kept(c))
  {
    PickedItem(p, base, ti, pos);
    assert NotBefore(ti, pos, ti, pos);
  }

  /** An item at another place that the trim reaches belongs to the clip's group and shows less afterwards. */
  lemma TrimShrinksItem(p: Plan, base: Timeline, ti: nat, pos: nat, j: nat, r: nat)
    requires p.Valid() && p.At(ti, pos) && p.Changed(ti, pos)
    requires SameShape(base, p.tl) && RestUntouched(p, base, ti, pos)
    requires p.At(j, r) && (j != ti || r != pos)
    ensures base[ti].TrackNode? && pos < |base[ti].track.items| && base[ti].track.items[pos] == p.Item(ti, pos)
    ensures p.Item(ti, pos).ClipItem? && p.Item(ti, pos).clip.range.Some?
    ensures var now := PrintedRange(p.kept(p.Pick(ti, pos).value)[0]);
      var next := TrimClipAt(base, ti, pos, now);
      && SameShape(next, p.tl)
      && (ItemIn(p, next, j, r) == ItemIn(p, base, j, r)
          || (j != ti && SameGroup(p.Item(ti, pos), p.Item(j, r))
              && Shows(ItemIn(p, next, j, r)) < Shows(ItemIn(p, base, j, r))))
  {
    var c := p.Pick(ti, pos).value;
    var now := PrintedRange(p.kept(c)[0]);
    UntouchedClip(p, base, ti, pos);
    TrimOnItem(p, base, ti, pos, now, j, r);
    var y := ItemIn(p, base, j, r);
    assert SameChild(base[j], p.tl[j]) && SameButRange(y, p.Item(j, r));
    hide TrimClipAt, PrintedRange, SoundKept, Changes, Plan.Valid, SameShape, Plan.Pick, Plan.Changed;
    var was := SourceRange(c.sourceStart, c.sourceEnd);
    if y.ClipItem? && CoversRange(y.clip, was) { SiblingShrinks(c, p.kept(c), y.clip); }
  }

  /** One trim of the run: nothing it should leave alone grows, and a sibling of the original timeline means
      that something has shrunk. */
  lemma TrimShrinks(p: Plan, base: Timeline, ti: nat, pos: nat)
    requires p.Valid() && GroupsOnOneTrack(p) && p.At(ti, pos) && p.Changed(ti, pos) && SameShape(base, p.tl)
    requires RestUntouched(p, base, ti, pos) && OthersShrunk(p, base)
    ensures base[ti].TrackNode? && pos < |base[ti].track.items|
    ensures base[ti].track.items[pos].ClipItem? && base[ti].track.items[pos].clip.range.Some?
    ensures var next := TrimClipAt(base, ti, pos, PrintedRange(p.kept(p.Pick(ti, pos).value)[0]));
      && SameShape(next, p.tl) && RestUntouched(p, next, ti, pos + 1) && OthersShrunk(p, next)
      && (Hit(p, base) ==> Hit(p, next))
      && forall i: nat :: HasSiblingOn(p, ti, pos, i) ==> Hit(p, next)
  {
    var now := PrintedRange(p.kept(p.Pick(ti, pos).value)[0]);
    UntouchedClip(p, base, ti, pos);
    assert SameChild(base[ti], p.tl[ti]) && ItemIn(p, base, ti, pos) == base[ti].track.items[pos];
    TrimKeepsShape(base, p.tl, ti, pos, now);
    var next := TrimClipAt(base, ti, pos, now);
    hide TrimClipAt, PrintedRange, SoundKept, Changes, SameShape, ItemIn;
    hide Plan.Valid, Plan.Pick, Plan.Changed, Plan.Item;
    forall j: nat, r: nat | p.At(j, r) && !p.Changed(j, r)
      ensures Shrunk(ItemIn(p, base, j, r), ItemIn(p, next, j, r))
    {
      TrimShrinksItem(p, base, ti, pos, j, r);
    }
    forall j: nat, r: nat | p.At(j, r) && p.Changed(j, r) && NotBefore(j, r, ti, pos + 1)
      ensures ItemIn(p, next, j, r) == p.Item(j, r)
    {
      TrimShrinksItem(p, base, ti, pos, j, r);
      assert NotBefore(j, r, ti, pos) && ItemIn(p, base, j, r) == p.Item(j, r);
    }
    forall i: nat | HasSiblingOn(p, ti, pos, i) ensures Hit(p, next) { SiblingMeansHit(p, base, ti, pos, i); }
  }

  lemma SiblingMeansHit(p: Plan, base: Timeline, ti: nat, pos: nat, i: nat)
    requires p.Valid() && GroupsOnOneTrack(p) && p.At(ti, pos) && p.Changed(ti, pos) && SameShape(base, p.tl)
    requires RestUntouched(p, base, ti, pos) && OthersShrunk(p, base) && HasSiblingOn(p, ti, pos, i)
    requires base[ti].TrackNode? && pos < |base[ti].track.items|
    requires base[ti].track.items[pos].ClipItem? && base[ti].track.items[pos].clip.range.Some?
    ensures var next := TrimClipAt(base, ti, pos, PrintedRange(p.kept(p.Pick(ti, pos).value)[0]));
      SameShape(next, p.tl) && Hit(p, next)
  {
    var now := PrintedRange(p.kept(p.Pick(ti, pos).value)[0]);
    var x := p.Item(ti, pos);
    UntouchedClip(p, base, ti, pos);
    TrimKeepsShape(base, p.tl, ti, pos, now);
    if NoSibling(Items(base, i), x) {
      ChangedSinceMeansHit(p, base, ti, pos, i);
      var j, r :| p.At(j, r) && !p.Changed(j, r) && ItemIn(p, base, j, r) != p.Item(j, r);
      TrimShrinksItem(p, base, ti, pos, j, r);
    } else {
      SiblingIsTrimmed(p, base, ti, pos, now, i);
      var q :| p.At(i, q) && TrimmedAlong(p, base, ti, pos, now, i, q);
      TrimmedAlongIsHit(p, base, ti, pos, i, q);
    }
  }

  lemma TrimmedAlongIsHit(p: Plan, base: Timeline, ti: nat, pos: nat, i: nat, q: nat)
    requires p.Valid() && GroupsOnOneTrack(p) && p.At(ti, pos) && p.Changed(ti, pos) && SameShape(base, p.tl)
    requires RestUntouched(p, base, ti, pos) && OthersShrunk(p, base) && p.At(i, q) && i != ti
    requires base[ti].TrackNode? && pos < |base[ti].track.items|
    requires base[ti].track.items[pos].ClipItem? && base[ti].track.items[pos].clip.range.Some?
    requires var now := PrintedRange(p.kept(p.Pick(ti, pos).value)[0]);
      SameShape(TrimClipAt(base, ti, pos, now), p.tl) && TrimmedAlong(p, base, ti, pos, now, i, q)
    ensures Hit(p, TrimClipAt(base, ti, pos, PrintedRange(p.kept(p.Pick(ti, pos).value)[0])))
  {
    var c := p.Pick(ti, pos).value;
    var now := PrintedRange(p.kept(c)[0]);
    UntouchedClip(p, base, ti, pos);
    var y, z := ItemIn(p, base, i, q), ItemIn(p, TrimClipAt(base, ti, pos, now), i, q);
    assert SameChild(base[i], p.tl[i]) && SameButRange(y, p.Item(i, q));
    assert base[ti].track.items[pos] == ItemIn(p, base, ti, pos);
    hide TrimClipAt, SoundKept, Changes, Plan.Valid, SameShape, Plan.Pick, PrintedRange;
    SiblingShrinks(c, p.kept(c), y.clip);
    assert SameGroup(p.Item(ti, pos), p.Item(i, q)) && !p.Changed(i, q);
    assert Shows(z) < Shows(y) && Shrunk(p.Item(i, q), y);
  }

  /** If the original timeline has a sibling and the base none, something the plan does not change differs. */
  lemma ChangedSinceMeansHit(p: Plan, base: Timeline, ti: nat, pos: nat, i: nat)
    requires GroupsOnOneTrack(p) && p.At(ti, pos) && p.Changed(ti, pos) && SameShape(base, p.tl)
    requires HasSiblingOn(p, ti, pos, i) && NoSibling(Items(base, i), p.Item(ti, pos))
    ensures Hit(p, base)
  {
    var x := p.Item(ti, pos);
    var group, range := x.clip.link.value, x.clip.range.value;
    var q := FindSibling(Items(p.tl, i), group, range);
    assert SameChild(base[i], p.tl[i]) && p.At(i, q);
    assert IsSibling(p.Item(i, q), group, range) && SameGroup(x, p.Item(i, q));
    assert !p.Changed(i, q);
    assert !IsSibling(Items(base, i)[q], group, range);
    assert ItemIn(p, base, i, q) != p.Item(i, q);
  }

  /** Over the rest of a run: what shrank stays shrunk, and a sibling still to come makes something shrink. */
  lemma {:induction false} ShrinksFrom(p: Plan, base: Timeline, ti: nat, pos: nat)
    requires p.Valid() && GroupsOnOneTrack(p) && SameShape(base, p.tl)
    requires ti <= |p.tl| && (ti < |p.tl| ==> pos <= |Items(p.tl, ti)|) && (ti == |p.tl| ==> pos == 0)
    requires RestUntouched(p, base, ti, pos) && OthersShrunk(p, base)
    ensures var done := ApplyAll(Some(base), TrimsOf(SelectedFrom(p.tl, ti, pos, p.wanted), p.kept), p.stamp);
      && ShapeKept(p, done)
      && (done.Some? && (Hit(p, base) || WillHit(p, ti, pos)) ==> Hit(p, done.value))
    decreases |p.tl| - ti, if ti < |p.tl| then |Items(p.tl, ti)| - pos else 0
  {
    hide TrimsOf, SelectedFrom, ApplyAll, Plan.Valid, SameShape, RestUntouched, OthersShrunk, Hit, GroupsOnOneTrack;
    hide WillHit, Plan.Changed;
    if ti == |p.tl| {
      NothingLeft(p, base);
    } else if pos == |Items(p.tl, ti)| {
      NextTrack(p, base, ti);
      SelectedTrackEnd(p.tl, ti, p.wanted);
      ShrinksFrom(p, base, ti + 1, 0);
    } else if p.Pick(ti, pos).None? {
      NoPickNoChange(p, ti, pos);
      SkipPlace(p, base, ti, pos);
      ShrinksFrom(p, base, ti, pos + 1);
    } else if !p.Changed(ti, pos) {
      UnchangedTrims(p, ti, pos);
      SkipPlace(p, base, ti, pos);
      ShrinksFrom(p, base, ti, pos + 1);
    } else {
      ShrinksAt(p, base, ti, pos);
    }
  }

  lemma {:induction false} ShrinksAt(p: Plan, base: Timeline, ti: nat, pos: nat)
    requires p.Valid() && GroupsOnOneTrack(p) && SameShape(base, p.tl) && p.At(ti, pos) && p.Changed(ti, pos)
    requires RestUntouched(p, base, ti, pos) && OthersShrunk(p, base)
    ensures var done := ApplyAll(Some(base), TrimsOf(SelectedFrom(p.tl, ti, pos, p.wanted), p.kept), p.stamp);
      && ShapeKept(p, done)
      && (done.Some? && (Hit(p, base) || WillHit(p, ti, pos)) ==> Hit(p, done.value))
    decreases |p.tl| - ti, |Items(p.tl, ti)| - pos, 0
  {
    hide TrimsOf, SelectedFrom, ApplyAll, ApplyOp, Plan.Valid, SameShape, RestUntouched;
    hide OthersShrunk, Hit, GroupsOnOneTrack, WillHit, TrimClipAt, TrimOf;
    var c, rest := p.Pick(ti, pos).value, SelectedFrom(p.tl, ti, pos + 1, p.wanted);
    var op := TrimOf(c, p.kept(c));
    ChangedTrims(p, ti, pos);
    ApplyOne(base, op, p.stamp);
    ApplyAllConcat(Some(base), [op], TrimsOf(rest, p.kept), p.stamp);
    TrimOpAt(p, base, ti, pos);
    TrimShrinks(p, base, ti, pos);
    if WillHit(p, ti, pos) { WillHitStep(p, ti, pos); }
    hide Plan.Changed, Plan.Pick, HasSiblingOn;
    var next := ApplyOp(base, op, p.stamp);
    if next.None? {
      ApplyAllNone(TrimsOf(rest, p.kept), p.stamp);
    } else {
      ShrinksFrom(p, next.value, ti, pos + 1);
    }
  }

  lemma TrimOpAt(p: Plan, base: Timeline, ti: nat, pos: nat)
    requires p.Valid() && p.At(ti, pos) && p.Changed(ti, pos) && SameShape(base, p.tl)
    ensures base[ti].TrackNode? && pos < |base[ti].track.items|
    ensures base[ti].track.items[pos].ClipItem? && base[ti].track.items[pos].clip.range.Some?
    ensures var c := p.Pick(ti, pos).value;
      var next := ApplyOp(base, TrimOf(c, p.kept(c)), p.stamp);
      next.Some? ==> next.value == TrimClipAt(base, ti, pos, PrintedRange(p.kept(c)[0]))
  {
    AnchorFinds(p, base, ti, pos);
    PickedItem(p, base, ti, pos);
    hide TrimClipAt, SameShape, FindClip, Plan.Valid, TrimAllowed, Millis, Plan.Pick, Plan.Changed;
  }

  lemma ChangedTrims(p: Plan, ti: nat, pos: nat)
    requires p.At(ti, pos) && p.Changed(ti, pos)
    ensures var c := p.Pick(ti, pos).value;
      TrimsOf(SelectedFrom(p.tl, ti, pos, p.wanted), p.kept)
      == [TrimOf(c, p.kept(c))] + TrimsOf(SelectedFrom(p.tl, ti, pos + 1, p.wanted), p.kept)
  {
    hide TrimsOf, SelectedFrom, TrimOf;
    PickedComesFirst(p, ti, pos);
    RunOpsCons(p.Pick(ti, pos).value, SelectedFrom(p.tl, ti, pos + 1, p.wanted), p.kept, p.prefix, map[]);
  }

  lemma UnchangedTrims(p: Plan, ti: nat, pos: nat)
    requires p.At(ti, pos) && p.Pick(ti, pos).Some? && !p.Changed(ti, pos)
    ensures var rest := SelectedFrom(p.tl, ti, pos + 1, p.wanted);
      TrimsOf(SelectedFrom(p.tl, ti, pos, p.wanted), p.kept) == TrimsOf(rest, p.kept)
  {
    hide TrimsOf, SelectedFrom;
    var rest := SelectedFrom(p.tl, ti, pos + 1, p.wanted);
    PickedComesFirst(p, ti, pos);
    RunOpsCons(p.Pick(ti, pos).value, rest, p.kept, p.prefix, map[]);
    assert [] + TrimsOf(rest, p.kept) == TrimsOf(rest, p.kept);
  }

  lemma NothingLeft(p: Plan, base: Timeline)
    requires SameShape(base, p.tl)
    ensures ApplyAll(Some(base), TrimsOf(SelectedFrom(p.tl, |p.tl|, 0, p.wanted), p.kept), p.stamp) == Some(base)
    ensures !WillHit(p, |p.tl|, 0)
  {}

  lemma NextTrack(p: Plan, base: Timeline, ti: nat)
    requires ti < |p.tl| && SameShape(base, p.tl) && RestUntouched(p, base, ti, |Items(p.tl, ti)|)
    ensures RestUntouched(p, base, ti + 1, 0) && (WillHit(p, ti, |Items(p.tl, ti)|) ==> WillHit(p, ti + 1, 0))
  {
    hide ItemIn, SameShape, HasSiblingOn, Plan.Changed;
    forall j: nat, r: nat | p.At(j, r) && NotBefore(j, r, ti + 1, 0) ensures NotBefore(j, r, ti, |Items(p.tl, ti)|) {}
    if WillHit(p, ti, |Items(p.tl, ti)|) {
      var j: nat, r: nat, i: nat :|
        p.At(j, r) && p.Changed(j, r) && NotBefore(j, r, ti, |Items(p.tl, ti)|) && HasSiblingOn(p, j, r, i);
      assert NotBefore(j, r, ti + 1, 0);
    }
  }

  lemma SkipPlace(p: Plan, base: Timeline, ti: nat, pos: nat)
    requires p.At(ti, pos) && !p.Changed(ti, pos) && SameShape(base, p.tl) && RestUntouched(p, base, ti, pos)
    ensures RestUntouched(p, base, ti, pos + 1) && (WillHit(p, ti, pos) ==> WillHit(p, ti, pos + 1))
  {
    hide ItemIn, SameShape, HasSiblingOn, Plan.Changed;
    forall j: nat, r: nat | NotBefore(j, r, ti, pos + 1) ensures NotBefore(j, r, ti, pos) {}
    if WillHit(p, ti, pos) {
      var j: nat, r: nat, i: nat :|
        p.At(j, r) && p.Changed(j, r) && NotBefore(j, r, ti, pos) && HasSiblingOn(p, j, r, i);
      assert NotBefore(j, r, ti, pos + 1);
    }
  }

  lemma WillHitStep(p: Plan, ti: nat, pos: nat)
    requires p.At(ti, pos) && p.Changed(ti, pos) && WillHit(p, ti, pos)
    ensures WillHit(p, ti, pos + 1) || exists i: nat :: HasSiblingOn(p, ti, pos, i)
  {
    hide HasSiblingOn, Plan.Changed;
    var j: nat, r: nat, i: nat :|
      p.At(j, r) && p.Changed(j, r) && NotBefore(j, r, ti, pos) && HasSiblingOn(p, j, r, i);
    if j == ti && r == pos { assert HasSiblingOn(p, ti, pos, i); } else { assert NotBefore(j, r, ti, pos + 1); }
  }

  /** With changed clips of a group on one track: the trims leave exactly the changed clips trimmed, exactly
      when no linked clip stands in their way and none is widened by rounding. */
  lemma TrimsLandExactly(p: Plan)
    requires p.Valid() && GroupsOnOneTrack(p)
    ensures var clips := SelectedFrom(p.tl, 0, 0, p.wanted);
      ApplyAll(Some(p.tl), TrimsOf(clips, p.kept), p.stamp) == Some(p.AllTrimmed())
      <==> TrimsFit(clips, p.kept) && LeavesLinkedAlone(p)
  {
    GuardsAgree(p);
    hide ApplyAll, TrimsOf, TrimsFit, SelectedFrom, Plan.Valid, GroupsOnOneTrack;
    if TakesNothingAlong(p) {
      NothingTrimmedYet(p);
      TrimsAloneFrom(p, 0, 0);
    } else {
      SomethingShrinks(p);
    }
  }

  lemma SomethingShrinks(p: Plan)
    requires p.Valid() && GroupsOnOneTrack(p) && !LeavesLinkedAlone(p)
    ensures ApplyAll(Some(p.tl), TrimsOf(SelectedFrom(p.tl, 0, 0, p.wanted), p.kept), p.stamp) != Some(p.AllTrimmed())
  {
    hide ApplyAll, TrimsOf, SelectedFrom, Plan.Valid, GroupsOnOneTrack, Plan.Changed, NoSibling;
    SameAsItself(p.tl);
    var ti: nat, pos: nat, i: nat :|
      p.At(ti, pos) && p.Changed(ti, pos) && i < |p.tl| && i != ti && !NoSibling(Items(p.tl, i), p.Item(ti, pos));
    assert HasSiblingOn(p, ti, pos, i) && NotBefore(ti, pos, 0, 0);
    ShrinksFrom(p, p.tl, 0, 0);
    AllTrimmedIsNoHit(p);
  }

  lemma AllTrimmedIsNoHit(p: Plan)
    ensures !Hit(p, p.AllTrimmed())
  {}
}
