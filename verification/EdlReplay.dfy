/** What the planner's edit list does when it is applied: it trims the changed clips, and their linked
    clips along with them, and puts the further kept ranges of each changed clip right behind it. */
module EdlReplay {
  import opened Sequences
  import opened PlanRanges
  import opened EdlPlan

  // ---------------------------------------------------------------- timelines of one shape

  /** The items differ at most in the range they show. */
  predicate SameButRange(x: TrackItem, y: TrackItem) {
    || x == y
    || (&& x.ClipItem? && y.ClipItem? && x.clip.(range := y.clip.range) == y.clip
        && (x.clip.range.Some? <==> y.clip.range.Some?))
  }

  ghost predicate SameItems(xs: seq<TrackItem>, ys: seq<TrackItem>) {
    |xs| == |ys| && forall q :: 0 <= q < |xs| ==> SameButRange(xs[q], ys[q])
  }

  ghost predicate SameChild(a: RootChild, b: RootChild) {
    if a.TrackNode? then
      && b.TrackNode? && a.track.name == b.track.name && a.track.isVideo == b.track.isVideo
      && SameItems(a.track.items, b.track.items)
    else a == b
  }

  /** The timelines differ at most in the ranges their clips show. */
  ghost predicate SameShape(a: Timeline, b: Timeline) {
    |a| == |b| && forall i :: 0 <= i < |a| ==> SameChild(a[i], b[i])
  }

  // ---------------------------------------------------------------- plans

  /** One planner run over a timeline: which clips it takes and what it keeps of each; `stamp` is
      the uuid the applier gives an inserted clip. */
  datatype Plan = Plan(tl: Timeline, wanted: SelectedClip -> bool, kept: SelectedClip -> seq<SourceRange>,
                       prefix: string, stamp: string -> string)
  {
    ghost predicate At(ti: nat, pos: nat) { ti < |tl| && tl[ti].TrackNode? && pos < |tl[ti].track.items| }

    function Item(ti: nat, pos: nat): TrackItem
      requires At(ti, pos)
    {
      tl[ti].track.items[pos]
    }

    function Pick(ti: nat, pos: nat): Option<SelectedClip>
      requires At(ti, pos)
    {
      Picked(tl, ti, pos, wanted)
    }

    /** The clip here is one the planner changes. */
    predicate Changed(ti: nat, pos: nat)
      requires At(ti, pos)
    {
      Pick(ti, pos).Some? && Changes(Pick(ti, pos).value, kept(Pick(ti, pos).value))
    }

    /** The item here with what is kept of it at first, to the millisecond. */
    function TrimmedItem(ti: nat, pos: nat): TrackItem
      requires At(ti, pos)
    {
      if Changed(ti, pos) then Trimmed(Item(ti, pos), kept(Pick(ti, pos).value)[0]) else Item(ti, pos)
    }

    /** The clips inserted behind it: its further kept ranges. */
    function Pieces(ti: nat, pos: nat): seq<TrackItem>
      requires At(ti, pos)
    {
      if !Changed(ti, pos) then []
      else
        var c := Pick(ti, pos).value;
        InsertedItems(c, kept(c), prefix, |kept(c)|, stamp)
    }

    /** What this item becomes: its kept ranges in order, to the millisecond, or itself. */
    function Replacement(ti: nat, pos: nat): seq<TrackItem>
      requires At(ti, pos)
    {
      [TrimmedItem(ti, pos)] + Pieces(ti, pos)
    }

    /** How many items the first `n` of a track become. */
    function Length(ti: nat, n: nat): nat
      requires ti < |tl| && tl[ti].TrackNode? && n <= |tl[ti].track.items|
    {
      if n == 0 then 0 else Length(ti, n-1) + 1 + |Pieces(ti, n-1)|
    }

    /** The first `n` of these items of a track, each followed by its pieces. */
    function Woven(ti: nat, items: seq<TrackItem>, n: nat): (woven: seq<TrackItem>)
      requires ti < |tl| && tl[ti].TrackNode? && n <= |items| == |tl[ti].track.items|
      ensures |woven| == Length(ti, n)
    {
      if n == 0 then [] else Woven(ti, items, n-1) + ([items[n-1]] + Pieces(ti, n-1))
    }

    /** Root child `i` of the base once the pieces of everything before item `pos` of child `ti` are in. */
    ghost function ChildAfter(base: Timeline, i: nat, ti: nat, pos: nat): RootChild
      requires SameShape(base, tl) && i < |tl| && (i == ti ==> pos <= |Items(tl, i)|)
    {
      if !base[i].TrackNode? || i > ti then base[i]
      else
        var items := base[i].track.items;
        var woven := if i < ti then Woven(i, items, |items|) else Woven(i, items, pos) + items[pos..];
        TrackNode(base[i].track.(items := woven))
    }

    ghost function After(base: Timeline, ti: nat, pos: nat): Timeline
      requires SameShape(base, tl) && ti <= |tl| && (ti < |tl| ==> pos <= |Items(tl, ti)|)
    {
      seq(|tl|, i requires 0 <= i < |tl| => ChildAfter(base, i, ti, pos))
    }

    /** The base with all pieces in. */
    ghost function Filled(base: Timeline): Timeline
      requires SameShape(base, tl)
    {
      After(base, |tl|, 0)
    }

    function TrimmedChild(i: nat): RootChild
      requires i < |tl|
    {
      if !tl[i].TrackNode? then tl[i]
      else
        var items := tl[i].track.items;
        TrackNode(tl[i].track.(items := seq(|items|, q requires 0 <= q < |items| => TrimmedItem(i, q))))
    }

    /** The timeline with every changed clip, and nothing else, trimmed. */
    ghost function AllTrimmed(): (base: Timeline)
      ensures SameShape(base, tl)
    {
      seq(|tl|, i requires 0 <= i < |tl| => TrimmedChild(i))
    }

    /** The timeline the plan aims at: every item replaced, nothing else moved. */
    ghost function Goal(): Timeline { Filled(AllTrimmed()) }

    // ------------------------------------------------------------ what the plan relies on

    /** No clip before a selected one, in timeline order, answers to its anchor. */
    ghost predicate AnchorsResolve() {
      forall ti, pos, tj, q :: At(ti, pos) && Pick(ti, pos).Some? && At(tj, q) && (tj < ti || (tj == ti && q < pos)) ==>
        !Answers(Item(tj, q), Pick(ti, pos).value.clipUuid)
    }

    /** No inserted clip answers to the anchor of a selected one. */
    ghost predicate InsertsStaySilent() {
      forall ti, pos, tj, q, index: nat :: At(ti, pos) && Pick(ti, pos).Some? && At(tj, q) && Pick(tj, q).Some? ==>
        var name := InsertedName(Pick(tj, q).value, prefix, index);
        name != Pick(ti, pos).value.clipUuid && stamp(name) != Pick(ti, pos).value.clipUuid
    }

    ghost predicate KeptIsSound() {
      forall ti, pos :: At(ti, pos) && Pick(ti, pos).Some? ==> SoundKept(Pick(ti, pos).value, kept(Pick(ti, pos).value))
    }

    ghost predicate Valid() { AnchorsResolve() && InsertsStaySilent() && KeptIsSound() }

    /** No clip is cut into several pieces on a track that has an earlier namesake. */
    ghost predicate SplitsStandAlone() {
      forall ti, pos :: At(ti, pos) && Splits(ti, pos) ==> !Shadowed(tl, ti)
    }

    ghost predicate Splits(ti: nat, pos: nat)
      requires At(ti, pos)
    {
      Changed(ti, pos) && |kept(Pick(ti, pos).value)| > 1
    }
  }

  function PrintedRange(r: SourceRange): SourceRange { SourceRange(Millis(r.start), Millis(r.end)) }

  function Trimmed(item: TrackItem, r: SourceRange): TrackItem {
    if item.ClipItem? && item.clip.range.Some? then ClipItem(item.clip.(range := Some(PrintedRange(r)))) else item
  }

  function InsertedItem(c: SelectedClip, r: SourceRange, name: string, stamp: string -> string): TrackItem {
    ClipItem(Clip(name, Some(stamp(name)), Some(c.asset), true, Some(PrintedRange(r)), None))
  }

  function InsertedItems(c: SelectedClip, kept: seq<SourceRange>, prefix: string, n: nat,
                         stamp: string -> string): seq<TrackItem>
    requires n <= |kept|
  {
    if n <= 1 then []
    else InsertedItems(c, kept, prefix, n-1, stamp) + [InsertedItem(c, kept[n-1], InsertedName(c, prefix, n-1), stamp)]
  }

  /** Kept ranges as the planners make them: an end that is not the clip's is at least 10 ms inside it. */
  ghost predicate SoundKept(c: SelectedClip, kept: seq<SourceRange>) {
    && Ordered(kept) && Within(kept, c.sourceStart, c.sourceEnd)
    && (kept == [SourceRange(c.sourceStart, c.sourceEnd)] || forall r :: r in kept ==> r.end - r.start >= MIN_RANGE_S)
    && forall r :: r in kept ==>
         && (r.start == c.sourceStart || r.start >= c.sourceStart + MIN_RANGE_S)
         && (r.end == c.sourceEnd || r.end <= c.sourceEnd - MIN_RANGE_S)
  }

  /** The applier accepts a trim only if rounding to milliseconds does not widen the clip. */
  predicate TrimFits(c: SelectedClip, first: SourceRange) {
    Millis(first.start) >= c.sourceStart - TRIM_TOLERANCE_S && Millis(first.end) <= c.sourceEnd + TRIM_TOLERANCE_S
  }

  /** Every clip the planner changes passes that check. */
  predicate TrimsFit(clips: seq<SelectedClip>, kept: SelectedClip -> seq<SourceRange>) {
    clips != [] ==>
      && (Changes(clips[0], kept(clips[0])) ==> TrimFits(clips[0], kept(clips[0])[0]))
      && TrimsFit(clips[1..], kept)
  }

  function TrimOf(c: SelectedClip, kept: seq<SourceRange>): EdlOp
    requires kept != []
  {
    TrimClip(c.clipUuid, Millis(kept[0].start), Millis(kept[0].end))
  }

  /** The trims among a run's operations. */
  function TrimsOf(clips: seq<SelectedClip>, kept: SelectedClip -> seq<SourceRange>): seq<EdlOp> {
    if clips == [] then []
    else
      (if Changes(clips[0], kept(clips[0])) then [TrimOf(clips[0], kept(clips[0]))] else []) +
      TrimsOf(clips[1..], kept)
  }

  // ---------------------------------------------------------------- finding the place

  lemma {:induction false} FindTrackByName(tl: Timeline, from: nat, ti: nat)
    requires from <= ti < |tl| && tl[ti].TrackNode?
    requires forall i :: from <= i < ti && tl[i].TrackNode? ==> tl[i].track.name != tl[ti].track.name
    ensures FindTrack(tl, from, tl[ti].track.name) == Some(ti)
    decreases ti - from
  {
    if from == ti {
    } else {
      FindTrackByName(tl, from + 1, ti);
    }
  }

  lemma {:induction false} FindItemAt(pre: seq<TrackItem>, x: TrackItem, post: seq<TrackItem>, anchor: string)
    requires Answers(x, anchor) && forall y :: y in pre ==> !Answers(y, anchor)
    ensures FindItem(pre + [x] + post, anchor) == Some(|pre|)
  {
    var all := pre + [x] + post;
    if pre == [] {
      assert all[0] == x;
    } else {
      assert all[0] == pre[0] && pre[0] in pre && all[1..] == pre[1..] + [x] + post;
      FindItemAt(pre[1..], x, post, anchor);
    }
  }

  lemma {:induction false} FindItemNone(items: seq<TrackItem>, anchor: string)
    requires forall y :: y in items ==> !Answers(y, anchor)
    ensures FindItem(items, anchor) == None
  {
    if items == [] {
    } else {
      assert items[0] in items;
      FindItemNone(items[1..], anchor);
    }
  }

  lemma {:induction false} FindClipAt(tl: Timeline, from: nat, ti: nat, anchor: string, ci: nat)
    requires from <= ti < |tl| && FindItem(Items(tl, ti), anchor) == Some(ci)
    requires forall i :: from <= i < ti ==> forall y :: y in Items(tl, i) ==> !Answers(y, anchor)
    ensures FindClip(tl, from, anchor) == Some((ti, ci))
    decreases ti - from
  {
    if from == ti {
    } else {
      FindItemNone(Items(tl, from), anchor);
      FindClipAt(tl, from + 1, ti, anchor, ci);
    }
  }

  // ---------------------------------------------------------------- inserts

  lemma {:induction false} ApplyAllConcat(tl: Option<Timeline>, a: seq<EdlOp>, b: seq<EdlOp>, stamp: string -> string)
    ensures ApplyAll(tl, a + b, stamp) == ApplyAll(ApplyAll(tl, a, stamp), b, stamp)
    decreases |a|
  {
    if a == [] { assert a + b == b; }
    else if tl.Some? {
      assert (a + b)[0] == a[0] && (a + b)[1..] == a[1..] + b;
      ApplyAllConcat(ApplyOp(tl.value, a[0], stamp), a[1..], b, stamp);
    }
  }

  /** Inserts land right behind the trimmed clip, in order. */
  lemma {:induction false} InsertsLand(tl: Timeline, ti: nat, pre: seq<TrackItem>, x: TrackItem, post: seq<TrackItem>,
      c: SelectedClip, kept: seq<SourceRange>, prefix: string, offset: nat, n: nat, stamp: string -> string)
    requires n <= |kept| && ti < |tl| && tl[ti].TrackNode? && tl[ti].track.name == c.trackName
    requires n > 1 ==> !Shadowed(tl, ti) && c.trackPosition + offset == |pre|
    requires forall r :: r in kept ==> r.end - r.start >= MIN_RANGE_S
    ensures ApplyAll(Some(WithItems(tl, ti, pre + [x] + post)), InsertOps(c, kept, prefix, offset, n), stamp)
         == Some(WithItems(tl, ti, pre + [x] + InsertedItems(c, kept, prefix, n, stamp) + post))
  {
    hide ApplyOp, FindTrack, Millis, InsertedName;
    var start := WithItems(tl, ti, pre + [x] + post);
    if n <= 1 {
      assert pre + [x] + [] + post == pre + [x] + post;
    } else {
      InsertsLand(tl, ti, pre, x, post, c, kept, prefix, offset, n-1, stamp);
      var done := InsertedItems(c, kept, prefix, n-1, stamp);
      InsertedItemsLength(c, kept, prefix, n-1, stamp);
      var op := InsertOp(c, kept, prefix, offset, n-1);
      ApplyAllConcat(Some(start), InsertOps(c, kept, prefix, offset, n-1), [op], stamp);
      var mid := WithItems(tl, ti, pre + [x] + done + post);
      forall i | 0 <= i < ti && tl[i].TrackNode? ensures tl[i].track.name != c.trackName {
        assert !SameName(tl, i, ti);
      }
      FindTrackByName(mid, 0, ti);
      assert kept[n-1] in kept;
      MillisClose(kept[n-1].start); MillisClose(kept[n-1].end);
      var next := InsertedItem(c, kept[n-1], InsertedName(c, prefix, n-1), stamp);
      InsertOpLands(mid, ti, pre + [x] + done, post, op, next, stamp);
      WithItemsTwice(tl, ti, pre + [x] + done + post, pre + [x] + done + [next] + post);
      assert pre + [x] + done + [next] + post == pre + [x] + (done + [next]) + post;
    }
  }

  lemma WithItemsTwice(tl: Timeline, ti: nat, a: seq<TrackItem>, b: seq<TrackItem>)
    requires ti < |tl| && tl[ti].TrackNode?
    ensures WithItems(WithItems(tl, ti, a), ti, b) == WithItems(tl, ti, b)
  {}

  lemma {:induction false} InsertedItemsLength(c: SelectedClip, kept: seq<SourceRange>, prefix: string, n: nat,
                                               stamp: string -> string)
    requires n <= |kept|
    ensures |InsertedItems(c, kept, prefix, n, stamp)| == if n == 0 then 0 else n - 1
  {
    if n > 1 { InsertedItemsLength(c, kept, prefix, n-1, stamp); }
  }

  lemma InsertOpLands(tl: Timeline, ti: nat, pre: seq<TrackItem>, post: seq<TrackItem>, op: EdlOp, item: TrackItem,
                      stamp: string -> string)
    requires op.InsertClip? && op.start < op.end && op.atPosition == |pre|
    requires ti < |tl| && tl[ti].TrackNode? && tl[ti].track.items == pre + post
    requires FindTrack(tl, 0, op.track) == Some(ti)
    requires var range := SourceRange(op.start, op.end);
      item == ClipItem(Clip(op.name, Some(stamp(op.name)), Some(op.asset), true, Some(range), None))
    ensures ApplyAll(Some(tl), [op], stamp) == Some(WithItems(tl, ti, pre + [item] + post))
  {
    var items := pre + post;
    assert items[..|pre|] == pre && items[|pre|..] == post;
    assert ApplyOp(tl, op, stamp) == Some(WithItems(tl, ti, pre + [item] + post));
  }

  // ---------------------------------------------------------------- weaving

  lemma {:induction false} WovenAt(p: Plan, ti: nat, items: seq<TrackItem>, n: nat, q: nat)
    requires ti < |p.tl| && p.tl[ti].TrackNode? && q < n <= |items| == |p.tl[ti].track.items|
    ensures p.Length(ti, q) < p.Length(ti, n) && p.Woven(ti, items, n)[p.Length(ti, q)] == items[q]
  {
    hide Plan.Pieces;
    if q == n - 1 {
    } else {
      WovenAt(p, ti, items, n-1, q);
    }
  }

  /** Changing one item changes the woven track where that item stands. */
  lemma {:induction false} WovenUpdate(p: Plan, ti: nat, items: seq<TrackItem>, n: nat, q: nat, x: TrackItem)
    requires ti < |p.tl| && p.tl[ti].TrackNode? && q < |items| == |p.tl[ti].track.items| && n <= |items|
    ensures n <= q ==> p.Woven(ti, items[q := x], n) == p.Woven(ti, items, n)
    ensures q < n ==> p.Length(ti, q) < p.Length(ti, n)
    ensures q < n ==> p.Woven(ti, items[q := x], n) == p.Woven(ti, items, n)[p.Length(ti, q) := x]
  {
    hide Plan.Pieces;
    if n == 0 {
    } else {
      WovenUpdate(p, ti, items, n-1, q, x);
    }
  }

  /** Before the place of item `n` stand earlier items and pieces. */
  lemma {:induction false} WovenMembers(p: Plan, ti: nat, items: seq<TrackItem>, n: nat)
    requires ti < |p.tl| && p.tl[ti].TrackNode? && n <= |items| == |p.tl[ti].track.items|
    ensures forall y :: y in p.Woven(ti, items, n) ==>
      (exists q :: 0 <= q < n && y == items[q]) || (exists q :: 0 <= q < n && y in p.Pieces(ti, q))
  {
    hide Plan.Pieces;
    if n == 0 {
    } else {
      WovenMembers(p, ti, items, n-1);
    }
  }

  lemma {:induction false} WovenPrefix(p: Plan, ti: nat, items: seq<TrackItem>, m: nat, n: nat)
    requires ti < |p.tl| && p.tl[ti].TrackNode? && m <= n <= |items| == |p.tl[ti].track.items|
    ensures p.Length(ti, m) <= p.Length(ti, n) && p.Woven(ti, items, n)[..p.Length(ti, m)] == p.Woven(ti, items, m)
  {
    hide Plan.Pieces;
    if m == n {
    } else {
      WovenPrefix(p, ti, items, m, n-1);
    }
  }

  lemma {:induction false} PiecesUnlinked(c: SelectedClip, kept: seq<SourceRange>, prefix: string, n: nat,
                                          stamp: string -> string)
    requires n <= |kept|
    ensures forall y, group, range :: y in InsertedItems(c, kept, prefix, n, stamp) ==> !IsSibling(y, group, range)
  {
    if n <= 1 {
    } else {
      PiecesUnlinked(c, kept, prefix, n-1, stamp);
    }
  }

  lemma FindSiblingIs(items: seq<TrackItem>, group: string, range: SourceRange, q: nat)
    requires q <= |items| && (q < |items| ==> IsSibling(items[q], group, range))
    requires forall i :: 0 <= i < q ==> !IsSibling(items[i], group, range)
    ensures FindSibling(items, group, range) == q
  {
    hide IsSibling;
  }

  /** Pieces are never siblings: the sibling of a woven track is that of its base. */
  lemma WovenSibling(p: Plan, ti: nat, items: seq<TrackItem>, group: string, range: SourceRange)
    requires ti < |p.tl| && p.tl[ti].TrackNode? && |items| == |p.tl[ti].track.items|
    ensures var q, woven := FindSibling(items, group, range), p.Woven(ti, items, |items|);
      && p.Length(ti, q) <= |woven| && (q < |items| ==> p.Length(ti, q) < |woven|)
      && FindSibling(woven, group, range) == p.Length(ti, q)
  {
    hide IsSibling;
    var q, woven := FindSibling(items, group, range), p.Woven(ti, items, |items|);
    WovenPrefix(p, ti, items, q, |items|);
    if q < |items| { WovenAt(p, ti, items, |items|, q); }
    WovenMembers(p, ti, items, q);
    forall i | 0 <= i < p.Length(ti, q) ensures !IsSibling(woven[i], group, range) {
      var y := p.Woven(ti, items, q)[i];
      assert woven[i] == woven[..p.Length(ti, q)][i] == y && y in p.Woven(ti, items, q);
      if r: nat :| r < q && y in p.Pieces(ti, r) { PiecesAreNoSiblings(p, ti, r, y, group, range); }
    }
    FindSiblingIs(woven, group, range, p.Length(ti, q));
  }

  lemma PiecesAreNoSiblings(p: Plan, ti: nat, pos: nat, y: TrackItem, group: string, range: SourceRange)
    requires p.At(ti, pos) && y in p.Pieces(ti, pos)
    ensures !IsSibling(y, group, range)
  {
    var c := p.Pick(ti, pos).value;
    PiecesUnlinked(c, p.kept(c), p.prefix, |p.kept(c)|, p.stamp);
  }

  // ---------------------------------------------------------------- the trimmed clip

  /** What the applier checks of a planner's trim comes down to the rounded ends staying inside. */
  lemma TrimAllowedWhenFits(c: SelectedClip, kept: seq<SourceRange>)
    requires SoundKept(c, kept) && Changes(c, kept)
    ensures TrimAllowed(SourceRange(c.sourceStart, c.sourceEnd), Millis(kept[0].start), Millis(kept[0].end))
       <==> TrimFits(c, kept[0])
  {
    MillisClose(kept[0].start); MillisClose(kept[0].end);
    ChangedKeptAreLong(c, kept);
    assert kept[0] in kept;
    if |kept| > 1 { assert kept[1] in kept; }
  }

  lemma ChangedKeptAreLong(c: SelectedClip, kept: seq<SourceRange>)
    requires SoundKept(c, kept) && Changes(c, kept)
    ensures forall r :: r in kept ==> r.end - r.start >= MIN_RANGE_S
  {}

  lemma {:induction false} InsertedSilent(c: SelectedClip, kept: seq<SourceRange>, prefix: string, n: nat,
                                          stamp: string -> string, anchor: string)
    requires n <= |kept|
    requires forall index: nat :: var name := InsertedName(c, prefix, index); name != anchor && stamp(name) != anchor
    ensures forall y :: y in InsertedItems(c, kept, prefix, n, stamp) ==> !Answers(y, anchor)
  {
    if n > 1 { InsertedSilent(c, kept, prefix, n-1, stamp, anchor); }
  }

  lemma SameAnswers(x: TrackItem, y: TrackItem, anchor: string)
    requires SameButRange(x, y)
    ensures Answers(x, anchor) <==> Answers(y, anchor)
  {}

  /** Nothing before item `n` of a track answers to the anchor, of the base or of what was inserted. */
  lemma WovenSilent(p: Plan, ti: nat, items: seq<TrackItem>, n: nat, anchor: string)
    requires ti < |p.tl| && p.tl[ti].TrackNode? && n <= |items| && SameItems(items, p.tl[ti].track.items)
    requires forall q :: 0 <= q < n ==> !Answers(p.Item(ti, q), anchor)
    requires forall q, index: nat :: 0 <= q < n && p.Pick(ti, q).Some? ==>
      var name := InsertedName(p.Pick(ti, q).value, p.prefix, index); name != anchor && p.stamp(name) != anchor
    ensures forall y :: y in p.Woven(ti, items, n) ==> !Answers(y, anchor)
  {
    hide Answers, InsertedName, Picked, Changes, InsertedItems, SameButRange;
    WovenMembers(p, ti, items, n);
    forall y | y in p.Woven(ti, items, n) ensures !Answers(y, anchor) {
      if q: nat :| q < n && y == items[q] {
        SameAnswers(items[q], p.Item(ti, q), anchor);
      } else if q: nat :| q < n && y in p.Pieces(ti, q) {
        var c := p.Pick(ti, q).value;
        InsertedSilent(c, p.kept(c), p.prefix, |p.kept(c)|, p.stamp, anchor);
      }
    }
  }

  /** A selected item answers to its anchor and shows its range, in any timeline of this shape. */
  lemma PickedItem(p: Plan, base: Timeline, ti: nat, pos: nat)
    requires p.At(ti, pos) && p.Pick(ti, pos).Some? && SameShape(base, p.tl)
    ensures base[ti].TrackNode? && |base[ti].track.items| == |p.tl[ti].track.items|
    ensures var x, c := base[ti].track.items[pos], p.Pick(ti, pos).value;
      && x.ClipItem? && x.clip.range.Some? && Answers(x, c.clipUuid) && p.Item(ti, pos).ClipItem?
      && p.Item(ti, pos).clip.range == Some(SourceRange(c.sourceStart, c.sourceEnd))
      && c.trackName == base[ti].track.name == p.tl[ti].track.name && c.trackPosition == pos
      && c.sourceStart < c.sourceEnd && x.clip.link == p.Item(ti, pos).clip.link
  {
    assert SameChild(base[ti], p.tl[ti]) && SameButRange(base[ti].track.items[pos], p.Item(ti, pos));
  }

  lemma EarlierItemsSilent(p: Plan, base: Timeline, ti: nat, pos: nat)
    requires p.AnchorsResolve() && p.InsertsStaySilent() && p.At(ti, pos) && p.Pick(ti, pos).Some?
    requires SameShape(base, p.tl)
    ensures base[ti].TrackNode? && |base[ti].track.items| == |p.tl[ti].track.items|
    ensures var items, anchor := base[ti].track.items, p.Pick(ti, pos).value.clipUuid;
      && (forall y :: y in items[..pos] ==> !Answers(y, anchor))
      && (forall y :: y in p.Woven(ti, items, pos) ==> !Answers(y, anchor))
  {
    assert SameChild(base[ti], p.tl[ti]);
    var items, anchor := base[ti].track.items, p.Pick(ti, pos).value.clipUuid;
    forall q | 0 <= q < pos ensures !Answers(items[q], anchor) && !Answers(p.Item(ti, q), anchor) {
      SameAnswers(items[q], p.Item(ti, q), anchor);
    }
    forall q, index: nat | 0 <= q < pos && p.Pick(ti, q).Some?
      ensures var name := InsertedName(p.Pick(ti, q).value, p.prefix, index); name != anchor && p.stamp(name) != anchor
    {
      assert p.At(ti, q);
    }
    WovenSilent(p, ti, items, pos, anchor);
  }

  /** A selected clip's anchor finds it in the base and in the partly filled timeline alike. */
  lemma AnchorFinds(p: Plan, base: Timeline, ti: nat, pos: nat)
    requires p.AnchorsResolve() && p.InsertsStaySilent() && p.At(ti, pos) && p.Pick(ti, pos).Some?
    requires SameShape(base, p.tl)
    ensures FindClip(base, 0, p.Pick(ti, pos).value.clipUuid) == Some((ti, pos))
    ensures FindClip(p.After(base, ti, pos), 0, p.Pick(ti, pos).value.clipUuid) == Some((ti, p.Length(ti, pos)))
  {
    var anchor, after := p.Pick(ti, pos).value.clipUuid, p.After(base, ti, pos);
    PickedItem(p, base, ti, pos);
    EarlierItemsSilent(p, base, ti, pos);
    forall i | 0 <= i < ti
      ensures forall y :: y in Items(base, i) ==> !Answers(y, anchor)
      ensures forall y :: y in Items(after, i) ==> !Answers(y, anchor)
    {
      EarlierTrackSilent(p, base, ti, pos, i);
    }
    var items := base[ti].track.items;
    var woven := p.Woven(ti, items, pos);
    assert Items(base, ti) == items && Items(after, ti) == woven + items[pos..];
    hide Answers, SameShape, Plan.After, Plan.Woven, Plan.AnchorsResolve, Plan.InsertsStaySilent, Plan.Pick, FindClip;
    FirstAnswer(base, ti, pos, anchor);
    assert (woven + items[pos..])[..|woven|] == woven;
    FirstAnswer(after, ti, |woven|, anchor);
  }

  lemma FirstAnswer(tl: Timeline, ti: nat, k: nat, anchor: string)
    requires ti < |tl| && k < |Items(tl, ti)| && Answers(Items(tl, ti)[k], anchor)
    requires forall y :: y in Items(tl, ti)[..k] ==> !Answers(y, anchor)
    requires forall i :: 0 <= i < ti ==> forall y :: y in Items(tl, i) ==> !Answers(y, anchor)
    ensures FindClip(tl, 0, anchor) == Some((ti, k))
  {
    hide Answers;
    var items := Items(tl, ti);
    FindItemAt(items[..k], items[k], items[k+1..], anchor);
    assert items == items[..k] + [items[k]] + items[k+1..];
    FindClipAt(tl, 0, ti, anchor, k);
  }

  lemma EarlierTrackSilent(p: Plan, base: Timeline, ti: nat, pos: nat, i: nat)
    requires p.AnchorsResolve() && p.InsertsStaySilent() && SameShape(base, p.tl)
    requires p.At(ti, pos) && p.Pick(ti, pos).Some? && i < ti
    ensures forall y :: y in Items(base, i) ==> !Answers(y, p.Pick(ti, pos).value.clipUuid)
    ensures forall y :: y in Items(p.After(base, ti, pos), i) ==> !Answers(y, p.Pick(ti, pos).value.clipUuid)
  {
    var anchor := p.Pick(ti, pos).value.clipUuid;
    assert SameChild(base[i], p.tl[i]);
    if base[i].TrackNode? {
      var items := base[i].track.items;
      forall q | 0 <= q < |items| ensures !Answers(items[q], anchor) {
        assert p.At(i, q);
        SameAnswers(items[q], p.Item(i, q), anchor);
      }
      forall q, index: nat | 0 <= q < |items| && p.Pick(i, q).Some?
        ensures var name := InsertedName(p.Pick(i, q).value, p.prefix, index); name != anchor && p.stamp(name) != anchor
      {
        assert p.At(i, q);
      }
      WovenSilent(p, i, items, |items|, anchor);
    }
  }

  // ---------------------------------------------------------------- trims pass through the weave

  lemma TrimKeepsShape(base: Timeline, tl: Timeline, ti: nat, ci: nat, now: SourceRange)
    requires SameShape(base, tl) && ti < |base| && base[ti].TrackNode? && ci < |base[ti].track.items|
    requires base[ti].track.items[ci].ClipItem? && base[ti].track.items[ci].clip.range.Some?
    ensures SameShape(TrimClipAt(base, ti, ci, now), tl)
  {
    var next := TrimClipAt(base, ti, ci, now);
    forall i | 0 <= i < |base| ensures SameChild(next[i], tl[i]) {
      assert SameChild(base[i], tl[i]);
    }
  }

  /** Trimming a clip of the partly filled timeline is trimming it in the base. */
  lemma TrimPassesThrough(p: Plan, base: Timeline, ti: nat, pos: nat, now: SourceRange)
    requires SameShape(base, p.tl) && p.At(ti, pos)
    requires base[ti].TrackNode? && pos < |base[ti].track.items|
    requires base[ti].track.items[pos].ClipItem? && base[ti].track.items[pos].clip.range.Some?
    ensures SameShape(TrimClipAt(base, ti, pos, now), p.tl)
    ensures var after := p.After(base, ti, pos);
      && after[ti].TrackNode? && p.Length(ti, pos) < |after[ti].track.items|
      && after[ti].track.items[p.Length(ti, pos)] == base[ti].track.items[pos]
      && TrimClipAt(after, ti, p.Length(ti, pos), now) == p.After(TrimClipAt(base, ti, pos, now), ti, pos)
  {
    TrimKeepsShape(base, p.tl, ti, pos, now);
    var after, next := p.After(base, ti, pos), TrimClipAt(base, ti, pos, now);
    var items, k := base[ti].track.items, p.Length(ti, pos);
    assert SameChild(base[ti], p.tl[ti]);
    var clip := items[pos].clip;
    var x := ClipItem(clip.(range := Some(now)));
    assert after[ti].track.items == p.Woven(ti, items, pos) + items[pos..];
    forall i | 0 <= i < |p.tl| ensures TrimClipAt(after, ti, k, now)[i] == p.ChildAfter(next, i, ti, pos) {
      if i == ti {
        WovenUpdate(p, ti, items, pos, pos, x);
        var woven := p.Woven(ti, items, pos);
        assert (woven + items[pos..])[k := x] == p.Woven(ti, items[pos := x], pos) + items[pos := x][pos..];
      } else if clip.link.Some? {
        ChildSibling(p, base, ti, pos, i, clip.link.value, clip.range.value, now);
      }
    }
  }

  lemma ChildSibling(p: Plan, base: Timeline, ti: nat, pos: nat, i: nat, group: string, was: SourceRange,
                     now: SourceRange)
    requires SameShape(base, p.tl) && p.At(ti, pos) && i < |p.tl| && i != ti
    ensures SameChild(TrimSibling(base[i], group, was, now), p.tl[i])
    ensures TrimSibling(p.ChildAfter(base, i, ti, pos), group, was, now)
      == if !base[i].TrackNode? || i > ti then TrimSibling(base[i], group, was, now)
         else
           var items := TrimSibling(base[i], group, was, now).track.items;
           TrackNode(base[i].track.(items := p.Woven(i, items, |items|)))
  {
    assert SameChild(base[i], p.tl[i]);
    if base[i].TrackNode? && i < ti {
      var items := base[i].track.items;
      var q := FindSibling(items, group, was);
      WovenSibling(p, i, items, group, was);
      if q < |items| {
        WovenAt(p, i, items, |items|, q);
        WovenUpdate(p, i, items, |items|, q, ClipItem(items[q].clip.(range := Some(now))));
      }
    }
  }

  /** A changed clip's trim does to the partly filled timeline what it does to the base. */
  lemma TrimStep(p: Plan, base: Timeline, ti: nat, pos: nat)
    requires p.Valid() && p.At(ti, pos) && p.Changed(ti, pos) && SameShape(base, p.tl)
    ensures var op := TrimOf(p.Pick(ti, pos).value, p.kept(p.Pick(ti, pos).value));
      var next := ApplyOp(base, op, p.stamp);
      && (next.Some? ==> SameShape(next.value, p.tl))
      && ApplyOp(p.After(base, ti, pos), op, p.stamp)
         == if next.None? then None else Some(p.After(next.value, ti, pos))
  {
    var c := p.Pick(ti, pos).value;
    var now := PrintedRange(p.kept(c)[0]);
    AnchorFinds(p, base, ti, pos);
    PickedItem(p, base, ti, pos);
    TrimPassesThrough(p, base, ti, pos, now);
    hide Plan.After, Plan.Woven, Plan.Valid, Plan.Pick, Plan.Changed;
    hide SameShape, TrimClipAt, FindClip, TrimAllowed, Millis;
  }

  // ---------------------------------------------------------------- inserts fill the weave

  lemma SameShadow(tl: Timeline, cur: Timeline, ti: nat)
    requires |cur| == |tl| && ti < |tl|
    requires forall i :: 0 <= i < |tl| ==>
      (cur[i].TrackNode? <==> tl[i].TrackNode?) && (tl[i].TrackNode? ==> cur[i].track.name == tl[i].track.name)
    ensures Shadowed(cur, ti) <==> Shadowed(tl, ti)
  {
    forall j: nat | j < ti ensures SameName(cur, j, ti) <==> SameName(tl, j, ti) {}
  }

  lemma AfterShadow(p: Plan, base: Timeline, ti: nat, pos: nat)
    requires SameShape(base, p.tl) && p.At(ti, pos)
    ensures var after := p.After(base, ti, pos);
      && after[ti].TrackNode? && after[ti].track.name == p.tl[ti].track.name
      && (Shadowed(after, ti) <==> Shadowed(p.tl, ti))
  {
    var after := p.After(base, ti, pos);
    forall i | 0 <= i < |p.tl|
      ensures after[i].TrackNode? <==> p.tl[i].TrackNode?
      ensures p.tl[i].TrackNode? ==> after[i].track.name == p.tl[i].track.name
    {
      assert SameChild(base[i], p.tl[i]);
    }
    SameShadow(p.tl, after, ti);
  }

  lemma StepFilled(p: Plan, base: Timeline, ti: nat, pos: nat)
    requires SameShape(base, p.tl) && p.At(ti, pos)
    ensures base[ti].TrackNode? && |base[ti].track.items| == |p.tl[ti].track.items|
    ensures var items, after := base[ti].track.items, p.After(base, ti, pos);
      var pre, x, post := p.Woven(ti, items, pos), items[pos], items[pos+1..];
      && after[ti].TrackNode? && WithItems(after, ti, pre + [x] + post) == after
      && WithItems(after, ti, pre + [x] + p.Pieces(ti, pos) + post) == p.After(base, ti, pos + 1)
  {
    hide Plan.Pieces;
    assert SameChild(base[ti], p.tl[ti]);
    var items, after := base[ti].track.items, p.After(base, ti, pos);
    var pre, x, post := p.Woven(ti, items, pos), items[pos], items[pos+1..];
    assert items[pos..] == [x] + post;
    assert pre + items[pos..] == pre + [x] + post;
    assert pre + ([x] + p.Pieces(ti, pos)) == p.Woven(ti, items, pos + 1);
    assert pre + [x] + p.Pieces(ti, pos) + post == p.Woven(ti, items, pos + 1) + items[pos+1..];
  }

  /** A changed clip's inserts put its pieces in. */
  lemma PiecesLand(p: Plan, base: Timeline, ti: nat, pos: nat, offset: nat)
    requires p.Valid() && p.At(ti, pos) && p.Changed(ti, pos) && SameShape(base, p.tl)
    requires p.Splits(ti, pos) ==> !Shadowed(p.tl, ti) && p.Length(ti, pos) == pos + offset
    ensures var c := p.Pick(ti, pos).value;
      ApplyAll(Some(p.After(base, ti, pos)), InsertOps(c, p.kept(c), p.prefix, offset, |p.kept(c)|), p.stamp)
      == Some(p.After(base, ti, pos + 1))
  {
    var c := p.Pick(ti, pos).value;
    var kept := p.kept(c);
    ChangedKeptAreLong(c, kept);
    PickedItem(p, base, ti, pos);
    AfterShadow(p, base, ti, pos);
    StepFilled(p, base, ti, pos);
    var items, after := base[ti].track.items, p.After(base, ti, pos);
    var woven := p.Woven(ti, items, pos);
    hide Plan.After, SameShape, Shadowed, WithItems, Plan.Woven, InsertOps, ApplyAll, Plan.Valid, Plan.Pick;
    InsertsLand(after, ti, woven, items[pos], items[pos+1..], c, kept, p.prefix, offset, |kept|, p.stamp);
  }

  lemma StepUnchanged(p: Plan, base: Timeline, ti: nat, pos: nat)
    requires p.At(ti, pos) && !p.Changed(ti, pos) && SameShape(base, p.tl)
    ensures p.After(base, ti, pos) == p.After(base, ti, pos + 1)
    ensures p.Length(ti, pos + 1) == p.Length(ti, pos) + 1
  {
    StepFilled(p, base, ti, pos);
    hide Picked, Changes, InsertedItems;
    var items, after := base[ti].track.items, p.After(base, ti, pos);
    assert p.Woven(ti, items, pos) + [items[pos]] + [] + items[pos+1..]
      == p.Woven(ti, items, pos) + [items[pos]] + items[pos+1..];
  }

  lemma StepTrack(p: Plan, base: Timeline, ti: nat)
    requires ti < |p.tl| && SameShape(base, p.tl)
    ensures p.After(base, ti, |Items(p.tl, ti)|) == p.After(base, ti + 1, 0)
  {
    forall i | 0 <= i < |p.tl|
      ensures p.ChildAfter(base, i, ti, |Items(p.tl, ti)|) == p.ChildAfter(base, i, ti + 1, 0)
    {
      assert SameChild(base[i], p.tl[i]);
      if base[i].TrackNode? {
        var items := base[i].track.items;
        assert p.Woven(i, items, |items|) + items[|items|..] == p.Woven(i, items, |items|);
        assert p.Woven(i, items, 0) + items[0..] == items;
      }
    }
  }

  lemma NothingFilled(p: Plan, base: Timeline)
    requires SameShape(base, p.tl)
    ensures p.After(base, 0, 0) == base
  {
    forall i | 0 <= i < |p.tl| ensures p.ChildAfter(base, i, 0, 0) == base[i] {
      assert SameChild(base[i], p.tl[i]);
      if i == 0 && base[i].TrackNode? {
        var items := base[0].track.items;
        assert p.Woven(0, items, 0) + items[0..] == items;
      }
    }
  }

  // ---------------------------------------------------------------- the whole list

  /** The offset table holds, for the current track, how far its items have moved, and nothing yet
      for the tracks to come; tracks with an earlier namesake need no offset. */
  ghost predicate CountsMatch(p: Plan, ti: nat, pos: nat, counts: map<string, nat>)
    requires ti < |p.tl| ==> pos <= |Items(p.tl, ti)|
  {
    && (ti < |p.tl| && p.tl[ti].TrackNode? && !Shadowed(p.tl, ti) ==>
          CountFor(counts, p.tl[ti].track.name) + pos == p.Length(ti, pos))
    && forall j :: ti < j < |p.tl| && p.tl[j].TrackNode? && !Shadowed(p.tl, j) ==> p.tl[j].track.name !in counts
  }

  lemma CountsStep(p: Plan, ti: nat, pos: nat, counts: map<string, nat>)
    requires p.At(ti, pos) && p.Pick(ti, pos).Some? && CountsMatch(p, ti, pos, counts)
    ensures var c := p.Pick(ti, pos).value;
      CountsMatch(p, ti, pos + 1, counts[c.trackName := CountFor(counts, c.trackName) + InsertedCount(c, p.kept(c))])
  {
    var c := p.Pick(ti, pos).value;
    forall j | ti < j < |p.tl| && p.tl[j].TrackNode? && !Shadowed(p.tl, j) ensures p.tl[j].track.name != c.trackName {
      assert !SameName(p.tl, ti, j);
    }
    if p.Changed(ti, pos) { InsertedItemsLength(c, p.kept(c), p.prefix, |p.kept(c)|, p.stamp); }
  }

  lemma CountsNextTrack(p: Plan, ti: nat, counts: map<string, nat>)
    requires ti < |p.tl| && CountsMatch(p, ti, |Items(p.tl, ti)|, counts)
    ensures CountsMatch(p, ti + 1, 0, counts)
  {}

  lemma CountsSkip(p: Plan, ti: nat, pos: nat, counts: map<string, nat>)
    requires p.At(ti, pos) && p.Pick(ti, pos).None? && CountsMatch(p, ti, pos, counts)
    ensures CountsMatch(p, ti, pos + 1, counts)
  {}

  lemma PickedComesFirst(p: Plan, ti: nat, pos: nat)
    requires p.At(ti, pos)
    ensures SelectedFrom(p.tl, ti, pos, p.wanted)
      == (if p.Pick(ti, pos).Some? then [p.Pick(ti, pos).value] else []) + SelectedFrom(p.tl, ti, pos + 1, p.wanted)
  {}

  lemma ApplyAllNone(ops: seq<EdlOp>, stamp: string -> string)
    ensures ApplyAll(None, ops, stamp) == None
  {}

  lemma RunOpsCons(c: SelectedClip, rest: seq<SelectedClip>, kept: SelectedClip -> seq<SourceRange>, prefix: string,
                   counts: map<string, nat>)
    ensures var before := CountFor(counts, c.trackName);
      RunOps([c] + rest, kept, prefix, counts)
      == ClipOps(c, kept(c), prefix, before)
       + RunOps(rest, kept, prefix, counts[c.trackName := before + InsertedCount(c, kept(c))])
    ensures TrimsFit([c] + rest, kept) <==>
      (Changes(c, kept(c)) ==> TrimFits(c, kept(c)[0])) && TrimsFit(rest, kept)
    ensures TrimsOf([c] + rest, kept)
      == (if Changes(c, kept(c)) then [TrimOf(c, kept(c))] else []) + TrimsOf(rest, kept)
  {
    hide ClipOps, InsertedCount, Changes, TrimFits, CountFor, TrimOf;
    assert ([c] + rest)[0] == c && ([c] + rest)[1..] == rest;
  }

  ghost predicate ShapeKept(p: Plan, base: Option<Timeline>) { base.Some? ==> SameShape(base.value, p.tl) }

  /** The base that the trims leave, with all pieces in. */
  ghost function FilledIfAny(p: Plan, base: Option<Timeline>): Option<Timeline>
    requires ShapeKept(p, base)
  {
    if base.None? then None else Some(p.Filled(base.value))
  }

  /** One clip's operations: its trim goes to the base, its inserts put the pieces in. */
  lemma ClipReplays(p: Plan, base: Timeline, ti: nat, pos: nat, offset: nat)
    requires p.Valid() && p.SplitsStandAlone() && p.At(ti, pos) && p.Pick(ti, pos).Some? && SameShape(base, p.tl)
    requires !Shadowed(p.tl, ti) ==> p.Length(ti, pos) == pos + offset
    ensures var c := p.Pick(ti, pos).value;
      var trims := if p.Changed(ti, pos) then [TrimOf(c, p.kept(c))] else [];
      var next := ApplyAll(Some(base), trims, p.stamp);
      && ShapeKept(p, next)
      && ApplyAll(Some(p.After(base, ti, pos)), ClipOps(c, p.kept(c), p.prefix, offset), p.stamp)
         == if next.None? then None else Some(p.After(next.value, ti, pos + 1))
  {
    var c := p.Pick(ti, pos).value;
    if !p.Changed(ti, pos) {
      StepUnchanged(p, base, ti, pos);
    } else {
      var op := TrimOf(c, p.kept(c));
      var after, inserts := p.After(base, ti, pos), InsertOps(c, p.kept(c), p.prefix, offset, |p.kept(c)|);
      TrimStep(p, base, ti, pos);
      ApplyOne(base, op, p.stamp);
      ApplyOne(after, op, p.stamp);
      ApplyAllConcat(Some(after), [op], inserts, p.stamp);
      var next := ApplyOp(base, op, p.stamp);
      if next.Some? { PiecesLand(p, next.value, ti, pos, offset); }
      hide ApplyOp, ApplyAll, InsertOps, SameShape, Plan.After, Plan.Valid, Plan.SplitsStandAlone, Plan.Pick;
      ApplyAllNone(inserts, p.stamp);
    }
  }

  lemma ApplyOne(tl: Timeline, op: EdlOp, stamp: string -> string)
    ensures ApplyAll(Some(tl), [op], stamp) == ApplyOp(tl, op, stamp)
  {
    hide ApplyOp;
    assert [op][1..] == [];
  }

  /** From any point of the run, the operations still to come trim the base and fill in the rest. */
  lemma {:induction false} ReplayFrom(p: Plan, base: Timeline, ti: nat, pos: nat, counts: map<string, nat>)
    requires p.Valid() && p.SplitsStandAlone() && SameShape(base, p.tl)
    requires ti <= |p.tl| && (ti < |p.tl| ==> pos <= |Items(p.tl, ti)|) && (ti == |p.tl| ==> pos == 0)
    requires CountsMatch(p, ti, pos, counts)
    ensures var clips := SelectedFrom(p.tl, ti, pos, p.wanted);
      var trimmed := ApplyAll(Some(base), TrimsOf(clips, p.kept), p.stamp);
      && ShapeKept(p, trimmed)
      && ApplyAll(Some(p.After(base, ti, pos)), RunOps(clips, p.kept, p.prefix, counts), p.stamp)
         == FilledIfAny(p, trimmed)
    decreases |p.tl| - ti, if ti < |p.tl| then |Items(p.tl, ti)| - pos else 0
  {
    hide Plan.After, Plan.Length, Plan.Valid, Plan.SplitsStandAlone, Plan.Changed, SameShape;
    hide RunOps, SelectedFrom, CountsMatch, ApplyAll, TrimsOf;
    if ti == |p.tl| {
      ReplayEnd(p, base, counts);
    } else if pos == |Items(p.tl, ti)| {
      StepTrack(p, base, ti);
      SelectedTrackEnd(p.tl, ti, p.wanted);
      CountsNextTrack(p, ti, counts);
      ReplayFrom(p, base, ti + 1, 0, counts);
    } else if p.Pick(ti, pos).None? {
      NoPickNoChange(p, ti, pos);
      StepUnchanged(p, base, ti, pos);
      CountsSkip(p, ti, pos, counts);
      ReplayFrom(p, base, ti, pos + 1, counts);
    } else {
      ReplayPicked(p, base, ti, pos, counts);
    }
  }

  lemma NoPickNoChange(p: Plan, ti: nat, pos: nat)
    requires p.At(ti, pos) && p.Pick(ti, pos).None?
    ensures !p.Changed(ti, pos)
    ensures SelectedFrom(p.tl, ti, pos, p.wanted) == SelectedFrom(p.tl, ti, pos + 1, p.wanted)
  {
    PickedComesFirst(p, ti, pos);
    assert [] + SelectedFrom(p.tl, ti, pos + 1, p.wanted) == SelectedFrom(p.tl, ti, pos + 1, p.wanted);
  }

  lemma ReplayEnd(p: Plan, base: Timeline, counts: map<string, nat>)
    requires SameShape(base, p.tl)
    ensures var clips := SelectedFrom(p.tl, |p.tl|, 0, p.wanted);
      && ApplyAll(Some(base), TrimsOf(clips, p.kept), p.stamp) == Some(base)
      && ApplyAll(Some(p.After(base, |p.tl|, 0)), RunOps(clips, p.kept, p.prefix, counts), p.stamp)
         == Some(p.Filled(base))
  {
    hide SameShape, Plan.After;
  }

  lemma {:induction false} ReplayPicked(p: Plan, base: Timeline, ti: nat, pos: nat, counts: map<string, nat>)
    requires p.Valid() && p.SplitsStandAlone() && SameShape(base, p.tl)
    requires p.At(ti, pos) && p.Pick(ti, pos).Some? && CountsMatch(p, ti, pos, counts)
    ensures var clips := SelectedFrom(p.tl, ti, pos, p.wanted);
      var trimmed := ApplyAll(Some(base), TrimsOf(clips, p.kept), p.stamp);
      && ShapeKept(p, trimmed)
      && ApplyAll(Some(p.After(base, ti, pos)), RunOps(clips, p.kept, p.prefix, counts), p.stamp)
         == FilledIfAny(p, trimmed)
    decreases |p.tl| - ti, |Items(p.tl, ti)| - pos, 0
  {
    hide Plan.After, Plan.Length, Plan.Filled, Plan.Valid, Plan.SplitsStandAlone, SameShape;
    hide RunOps, SelectedFrom, ClipOps, CountFor, InsertedCount, ApplyAll, TrimsOf, TrimOf;
    var c, rest := p.Pick(ti, pos).value, SelectedFrom(p.tl, ti, pos + 1, p.wanted);
    var before := CountFor(counts, c.trackName);
    var counts' := counts[c.trackName := before + InsertedCount(c, p.kept(c))];
    var trims := if p.Changed(ti, pos) then [TrimOf(c, p.kept(c))] else [];
    PickedComesFirst(p, ti, pos);
    RunOpsCons(c, rest, p.kept, p.prefix, counts);
    PickedOnTrack(p, ti, pos);
    ClipReplays(p, base, ti, pos, before);
    CountsStep(p, ti, pos, counts);
    hide CountsMatch, Plan.Pick, Plan.Changed;
    ApplyAllConcat(Some(base), trims, TrimsOf(rest, p.kept), p.stamp);
    ApplyAllConcat(Some(p.After(base, ti, pos)), ClipOps(c, p.kept(c), p.prefix, before),
                   RunOps(rest, p.kept, p.prefix, counts'), p.stamp);
    var next := ApplyAll(Some(base), trims, p.stamp);
    if next.None? {
      ApplyAllNone(TrimsOf(rest, p.kept), p.stamp);
      ApplyAllNone(RunOps(rest, p.kept, p.prefix, counts'), p.stamp);
    } else {
      ReplayFrom(p, next.value, ti, pos + 1, counts');
    }
  }

  lemma PickedOnTrack(p: Plan, ti: nat, pos: nat)
    requires p.At(ti, pos) && p.Pick(ti, pos).Some?
    ensures p.Pick(ti, pos).value.trackName == p.tl[ti].track.name
  {}

  lemma SameAsItself(tl: Timeline)
    ensures SameShape(tl, tl)
  {}

  /** For any plan that splits no clip on a track with an earlier namesake: the whole list does what its
      trims do, linked clips and rejections included, and fills in the pieces of every changed clip right
      behind it. */
  lemma Replays(p: Plan)
    requires p.Valid() && p.SplitsStandAlone()
    ensures var clips := SelectedFrom(p.tl, 0, 0, p.wanted);
      var trimmed := ApplyAll(Some(p.tl), TrimsOf(clips, p.kept), p.stamp);
      && ShapeKept(p, trimmed)
      && ApplyAll(Some(p.tl), RunOps(clips, p.kept, p.prefix, map[]), p.stamp) == FilledIfAny(p, trimmed)
  {
    SameAsItself(p.tl);
    NothingFilled(p, p.tl);
    hide SameShape, Plan.Valid, Plan.SplitsStandAlone, Plan.After, ApplyAll, RunOps, TrimsOf;
    ReplayFrom(p, p.tl, 0, 0, map[]);
  }
}
