/** What the two durations and the counts are, said without the functions that compute them: clips are told by
    where they stand in the tree, a duration is the largest of the ends it is taken over. */
module DurationsExact {
  import opened Durations
  import opened Numbers
  import opened Sequences

  // ---------------------------------------------------------------- the clips, by where they stand

  /** The way down to a clip: the child to take at each stack and track. */
  type Way = seq<nat>

  /** The clip of the stack that `way` leads to, if it leads to one. */
  ghost function InStack(s: Stack, way: Way): Option<Clip>
    decreases |way|
  {
    if way == [] || way[0] >= |s.children| then None
    else
      match s.children[way[0]]
      case HasTrack(t) => InTrack(t, way[1..])
      case HasStack(inner) => InStack(inner, way[1..])
      case HasClip(c) => if |way| == 1 then Some(c) else None
      case HasGap(_) => None
  }

  ghost function InTrack(t: Track, way: Way): Option<Clip>
    decreases |way|
  {
    if way == [] || way[0] >= |t.children| then None
    else
      match t.children[way[0]]
      case PutClip(c) => if |way| == 1 then Some(c) else None
      case PutGap(_) => None
      case PutTransition => None
      case PutStack(inner) => InStack(inner, way[1..])
  }

  ghost function ThroughStack(s: Stack): Way -> Option<Clip> { way => InStack(s, way) }
  ghost function ThroughTrack(t: Track): Way -> Option<Clip> { way => InTrack(t, way) }

  /** The ways listed are different and lead to the clips listed, one to each. */
  ghost predicate Lead(at: Way -> Option<Clip>, ways: seq<Way>, clips: seq<Clip>) {
    && |ways| == |clips|
    && (forall k :: 0 <= k < |ways| ==> at(ways[k]) == Some(clips[k]))
    && forall j, k :: 0 <= j < k < |ways| ==> ways[j] != ways[k]
  }

  /** They are all the ways to a clip that start at one of the first `n` children. */
  ghost predicate AllWays(at: Way -> Option<Clip>, ways: seq<Way>, n: nat) {
    && (forall way :: way in ways ==> way != [] && way[0] < n)
    && forall way: Way :: way != [] && way[0] < n && at(way).Some? ==> way in ways
  }

  /** The clips listed are those the ways lead to, every clip once for the one way to it. */
  ghost predicate Listed(at: Way -> Option<Clip>, clips: seq<Clip>, n: nat) {
    exists ways: seq<Way> :: Lead(at, ways, clips) && AllWays(at, ways, n)
  }

  /** Below child `i` of one level lie the clips of `inner`. */
  ghost predicate Below(at: Way -> Option<Clip>, inner: Way -> Option<Clip>, i: nat) {
    forall way: Way :: at([i] + way) == inner(way)
  }

  function Prefixed(i: nat, ways: seq<Way>): (r: seq<Way>)
    ensures |r| == |ways| && forall k :: 0 <= k < |ways| ==> r[k] == [i] + ways[k]
  {
    seq(|ways|, k requires 0 <= k < |ways| => [i] + ways[k])
  }

  lemma PrefixedLead(at: Way -> Option<Clip>, inner: Way -> Option<Clip>, i: nat, ways: seq<Way>, clips: seq<Clip>)
    requires Below(at, inner, i) && Lead(inner, ways, clips)
    ensures Lead(at, Prefixed(i, ways), clips)
  {
    var r := Prefixed(i, ways);
    forall j, k | 0 <= j < k < |r| ensures r[j] != r[k] {
      assert r[j][1..] == ways[j] && r[k][1..] == ways[k];
    }
  }

  lemma PrefixedAll(at: Way -> Option<Clip>, inner: Way -> Option<Clip>, i: nat, ways: seq<Way>, n: nat)
    requires Below(at, inner, i) && AllWays(inner, ways, n)
    requires Within(inner, n)
    ensures forall way: Way :: way != [] && way[0] == i && at(way).Some? ==> way in Prefixed(i, ways)
  {
    forall way: Way | way != [] && way[0] == i && at(way).Some? ensures way in Prefixed(i, ways) {
      assert way == [i] + way[1..];
      var k :| 0 <= k < |ways| && ways[k] == way[1..];
      assert Prefixed(i, ways)[k] == way;
    }
  }

  /** Two lists of ways, the second all longer at the front. */
  lemma LeadBoth(
      at: Way -> Option<Clip>, ways: seq<Way>, clips: seq<Clip>, added: seq<Way>, more: seq<Clip>, i: nat)
    requires Lead(at, ways, clips) && Lead(at, added, more) && AllWays(at, ways, i)
    requires forall k :: 0 <= k < |added| ==> added[k] != [] && added[k][0] == i
    ensures Lead(at, ways + added, clips + more)
  {
    var all := ways + added;
    forall j, k | 0 <= j < k < |all| ensures all[j] != all[k] {
      if j < |ways| <= k {
        assert ways[j] in ways && all[k] == added[k - |ways|];
      }
    }
  }

  lemma AllBoth(at: Way -> Option<Clip>, ways: seq<Way>, added: seq<Way>, i: nat)
    requires AllWays(at, ways, i)
    requires forall k :: 0 <= k < |added| ==> added[k] != [] && added[k][0] == i
    requires forall way: Way :: way != [] && way[0] == i && at(way).Some? ==> way in added
    ensures AllWays(at, ways + added, i + 1)
  {}

  /** Every way to a clip starts at one of the first `n` children. */
  ghost predicate Within(at: Way -> Option<Clip>, n: nat) {
    forall way: Way :: at(way).Some? ==> way != [] && way[0] < n
  }

  /** One more child, holding what `more` lists. */
  lemma ListedMore(
      at: Way -> Option<Clip>, inner: Way -> Option<Clip>, clips: seq<Clip>, more: seq<Clip>, i: nat, n: nat)
    requires Below(at, inner, i) && Listed(at, clips, i) && Listed(inner, more, n) && Within(inner, n)
    ensures Listed(at, clips + more, i + 1)
  {
    var ways: seq<Way> :| Lead(at, ways, clips) && AllWays(at, ways, i);
    var shorter: seq<Way> :| Lead(inner, shorter, more) && AllWays(inner, shorter, n);
    PrefixedLead(at, inner, i, shorter, more);
    PrefixedAll(at, inner, i, shorter, n);
    var added := Prefixed(i, shorter);
    hide Lead, AllWays, Below, Within, Prefixed;
    LeadBoth(at, ways, clips, added, more, i);
    AllBoth(at, ways, added, i);
  }

  /** One more child without clips. */
  lemma ListedNoMore(at: Way -> Option<Clip>, clips: seq<Clip>, i: nat)
    requires Listed(at, clips, i) && forall way: Way :: at([i] + way).None?
    ensures Listed(at, clips, i + 1)
  {
    var ways: seq<Way> :| Lead(at, ways, clips) && AllWays(at, ways, i);
    forall way: Way | way != [] && way[0] < i + 1 && at(way).Some? ensures way in ways {
      assert way == [way[0]] + way[1..];
    }
    assert AllWays(at, ways, i + 1);
  }

  /** One more child that is a clip. */
  lemma ListedOneMore(at: Way -> Option<Clip>, clips: seq<Clip>, i: nat, c: Clip)
    requires Listed(at, clips, i) && forall way: Way :: at([i] + way) == if way == [] then Some(c) else None
    ensures Listed(at, clips + [c], i + 1)
  {
    var ways: seq<Way> :| Lead(at, ways, clips) && AllWays(at, ways, i);
    OnlyWay(at, i, c);
    hide Lead, AllWays;
    OneLeads(at, i, c);
    LeadBoth(at, ways, clips, [[i]], [c], i);
    AllBoth(at, ways, [[i]], i);
  }

  lemma OnlyWay(at: Way -> Option<Clip>, i: nat, c: Clip)
    requires forall way: Way :: at([i] + way) == if way == [] then Some(c) else None
    ensures at([i]) == Some(c) && forall way: Way :: way != [] && way[0] == i && at(way).Some? ==> way in [[i]]
  {
    assert [i] + [] == [i];
    forall way: Way | way != [] && way[0] == i && at(way).Some? ensures way in [[i]] {
      assert way == [i] + way[1..];
    }
  }

  lemma OneLeads(at: Way -> Option<Clip>, i: nat, c: Clip)
    requires at([i]) == Some(c)
    ensures Lead(at, [[i]], [c])
  {}

  /** The clips counted in a stack are those the ways through it lead to, each once. */
  lemma {:induction false} StackClipsExactly(s: Stack, n: nat)
    requires n <= |s.children|
    ensures Listed(ThroughStack(s), StackClips(s, n), n)
    decreases s, n
  {
    hide Listed, TrackClips;
    var at := ThroughStack(s);
    if n == 0 {
      Nowhere(at);
    } else {
      StackClipsExactly(s, n - 1);
      var clips := StackClips(s, n - 1);
      match s.children[n-1]
      case HasTrack(t) =>
        TrackClipsExactly(t, |t.children|);
        ListedMore(at, ThroughTrack(t), clips, TrackClips(t, |t.children|), n - 1, |t.children|);
      case HasStack(inner) =>
        StackClipsExactly(inner, |inner.children|);
        var more := StackClips(inner, |inner.children|);
        ListedMore(at, ThroughStack(inner), clips, more, n - 1, |inner.children|);
      case HasClip(c) => ListedOneMore(at, clips, n - 1, c);
      case HasGap(_) =>
        ListedNoMore(at, clips, n - 1);
        assert clips + [] == clips;
    }
  }

  lemma {:induction false} TrackClipsExactly(t: Track, n: nat)
    requires n <= |t.children|
    ensures Listed(ThroughTrack(t), TrackClips(t, n), n)
    decreases t, n
  {
    hide Listed, StackClips;
    var at := ThroughTrack(t);
    if n == 0 {
      Nowhere(at);
    } else {
      TrackClipsExactly(t, n - 1);
      var clips := TrackClips(t, n - 1);
      match t.children[n-1]
      case PutStack(inner) =>
        StackClipsExactly(inner, |inner.children|);
        var more := StackClips(inner, |inner.children|);
        ListedMore(at, ThroughStack(inner), clips, more, n - 1, |inner.children|);
      case PutClip(c) => ListedOneMore(at, clips, n - 1, c);
      case _ =>
        ListedNoMore(at, clips, n - 1);
        assert clips + [] == clips;
    }
  }

  lemma Nowhere(at: Way -> Option<Clip>)
    ensures Listed(at, [], 0)
  {
    assert Lead(at, [], []) && AllWays(at, [], 0);
  }

  /** The clip of one of the root's tracks; what the root holds besides tracks is passed over. */
  ghost function OnRoot(root: Stack, way: Way): Option<Clip> {
    if way == [] || way[0] >= |root.children| || !root.children[way[0]].HasTrack? then None
    else InTrack(root.children[way[0]].track, way[1..])
  }

  ghost function ThroughRoot(root: Stack): Way -> Option<Clip> { way => OnRoot(root, way) }

  /** The clips counted of a timeline are those the ways through the root's tracks lead to, each once. */
  lemma {:induction false} RootClipsExactly(root: Stack, n: nat)
    requires n <= |root.children|
    ensures Listed(ThroughRoot(root), RootClips(root, n), n)
  {
    hide Listed, TrackClips;
    var at := ThroughRoot(root);
    if n == 0 {
      Nowhere(at);
    } else {
      RootClipsExactly(root, n - 1);
      var clips := RootClips(root, n - 1);
      match root.children[n-1]
      case HasTrack(t) =>
        TrackClipsExactly(t, |t.children|);
        ListedMore(at, ThroughTrack(t), clips, TrackClips(t, |t.children|), n - 1, |t.children|);
      case _ => ListedNoMore(at, clips, n - 1);
    }
  }

  /** A clip counts as trimmed when it leaves out more than a millisecond of the range its media declares. */
  lemma {:induction false} TrimmedExactly(cs: seq<Clip>)
    ensures TrimmedCount(cs) == |Places(cs, (c: Clip) => LeavesOut(c, 0.001))|
  {
    if cs == [] {
      assert Places(cs, (c: Clip) => LeavesOut(c, 0.001)) == {};
    } else {
      TrimmedExactly(cs[..|cs|-1]);
      PlacesGrow(cs, (c: Clip) => LeavesOut(c, 0.001));
      hide Places;
    }
  }

  predicate LeavesOut(c: Clip, limit: real) {
    match (c.sourceRange, c.available)
    case (Some(used), Some(all)) => all.duration - used.duration > limit
    case _ => false
  }

  // ---------------------------------------------------------------- the durations, by the ends they are taken over

  /** `r` is the largest of zero and the ends given for `i < n`, those that are none left out. */
  ghost predicate IsFurthest(r: real, ends: nat -> Option<real>, n: nat) {
    && r >= 0.0
    && (forall i: nat :: i < n && ends(i).Some? ==> ends(i).value <= r)
    && (r == 0.0 || exists i: nat :: i < n && ends(i) == Some(r))
  }

  /** Where the episode map sees child `i` of a stack end. */
  ghost function StackEnd(s: Stack, i: nat): Option<real> {
    if i >= |s.children| then None
    else
      match s.children[i]
      case HasTrack(t) => Some(TrackReach(t, |t.children|))
      case HasStack(inner) => Some(StackReach(inner, |inner.children|))
      case HasClip(c) => Some(if c.sourceRange.Some? then c.sourceRange.value.duration else 0.0)
      case HasGap(d) => Some(d)
  }

  predicate IsOverlay(t: Track) { t.role.Some? && t.role.value in ["titles", "captions", "annotations"] }

  lemma OverlayIs(t: Track)
    ensures SparseOverlay(t) <==> IsOverlay(t)
  {}

  /** The room child `i` takes on its track: none for a transition, nor for the clips of an overlay. */
  function Room(t: Track, i: nat): real
    requires i < |t.children|
  {
    match t.children[i]
    case PutClip(c) => if IsOverlay(t) || c.sourceRange.None? then 0.0 else c.sourceRange.value.duration
    case PutGap(d) => d
    case PutTransition => 0.0
    case PutStack(inner) => StackReach(inner, |inner.children|)
  }

  /** Where child `i` of a track ends when it starts at `from`: an overlay's clip where its source range ends,
      gaps and transitions nowhere. */
  ghost function TrackEnd(t: Track, i: nat, from: nat -> real): Option<real> {
    if i >= |t.children| then None
    else
      match t.children[i]
      case PutClip(c) =>
        Some(if c.sourceRange.None? then (if IsOverlay(t) then 0.0 else from(i))
          else c.sourceRange.value.duration + if IsOverlay(t) then c.sourceRange.value.start else from(i))
      case PutStack(inner) => Some(from(i) + StackReach(inner, |inner.children|))
      case _ => None
  }

  ghost function TrackEnds(t: Track, from: nat -> real): nat -> Option<real> { (i: nat) => TrackEnd(t, i, from) }

  /** The children follow one another without a break. */
  ghost predicate EndToEnd(t: Track, from: nat -> real) {
    from(0) == 0.0 && forall i: nat :: i < |t.children| ==> from(i + 1) == from(i) + Room(t, i)
  }

  /** What one more child does, from where it stands. */
  lemma TrackEndStep(t: Track, i: nat, from: nat -> real)
    requires i < |t.children| && Cursor(t, i) == from(i) && from(i + 1) == from(i) + Room(t, i)
    ensures Cursor(t, i + 1) == from(i + 1)
    ensures TrackReach(t, i + 1) == match TrackEnd(t, i, from)
      case Some(end) => Max(TrackReach(t, i), end)
      case None => TrackReach(t, i)
  {
    OverlayIs(t);
    hide SparseOverlay, IsOverlay, StackReach;
  }

  /** On a track the children stand end to end, and the duration is the furthest end of a clip or stack. */
  lemma {:induction false} TrackReachExactly(t: Track, n: nat, from: nat -> real)
    requires n <= |t.children| && EndToEnd(t, from)
    ensures Cursor(t, n) == from(n)
    ensures IsFurthest(TrackReach(t, n), TrackEnds(t, from), n)
  {
    if n == 0 {
    } else {
      TrackReachExactly(t, n - 1, from);
      assert from(n - 1 + 1) == from(n - 1) + Room(t, n - 1);
      TrackEndStep(t, n - 1, from);
      hide Cursor, TrackReach, Room, EndToEnd, TrackEnd, IsFurthest;
      FurthestStep(TrackReach(t, n - 1), TrackEnds(t, from), n - 1, TrackReach(t, n));
    }
  }

  /** There is one such layout: that of the running cursor. */
  lemma CursorIsEndToEnd(t: Track)
    ensures EndToEnd(t, (i: nat) => if i <= |t.children| then Cursor(t, i) else 0.0)
  {}

  lemma FurthestStep(r: real, ends: nat -> Option<real>, n: nat, next: real)
    requires IsFurthest(r, ends, n)
    requires next == if ends(n).Some? && ends(n).value > r then ends(n).value else r
    ensures IsFurthest(next, ends, n + 1)
  {}

  /** The children of a stack all start at zero. */
  lemma {:induction false} StackReachExactly(s: Stack, n: nat)
    requires n <= |s.children|
    ensures IsFurthest(StackReach(s, n), (i: nat) => StackEnd(s, i), n)
  {
    if n == 0 {
    } else {
      StackReachExactly(s, n - 1);
      FurthestStep(StackReach(s, n - 1), (i: nat) => StackEnd(s, i), n - 1, StackReach(s, n));
    }
  }

  ghost function RootEnd(root: Stack, i: nat): Option<real> {
    if i < |root.children| && root.children[i].HasTrack?
    then Some(TrackReach(root.children[i].track, |root.children[i].track.children|))
    else None
  }

  /** The timeline's duration is that of its longest track. */
  lemma {:induction false} RootReachExactly(root: Stack, n: nat)
    requires n <= |root.children|
    ensures IsFurthest(RootReach(root, n), (i: nat) => RootEnd(root, i), n)
  {
    if n == 0 {
    } else {
      RootReachExactly(root, n - 1);
      FurthestStep(RootReach(root, n - 1), (i: nat) => RootEnd(root, i), n - 1, RootReach(root, n));
    }
  }

  /** How long the visual check takes child `i` of a stack to be. */
  ghost function ChildLength(s: Stack, i: nat): Option<real> {
    if i >= |s.children| then None
    else
      match s.children[i]
      case HasTrack(t) => Some(TrackLength(t, |t.children|))
      case HasStack(inner) => Some(StackLength(inner))
      case HasClip(c) => Some(if c.sourceRange.Some? then c.sourceRange.value.duration else 0.0)
      case HasGap(d) => Some(d)
  }

  /** A stack's own source range decides its length; without one, its longest child. */
  lemma {:induction false} StackLengthExactly(s: Stack)
    ensures s.sourceRange.Some? ==> StackLength(s) == s.sourceRange.value.duration
    ensures s.sourceRange.None? ==> IsFurthest(StackLength(s), (i: nat) => ChildLength(s, i), |s.children|)
  {
    LongestExactly(s, |s.children|);
  }

  lemma {:induction false} LongestExactly(s: Stack, n: nat)
    requires n <= |s.children|
    ensures IsFurthest(LongestChild(s, n), (i: nat) => ChildLength(s, i), n)
  {
    if n == 0 {
    } else {
      LongestExactly(s, n - 1);
      FurthestStep(LongestChild(s, n - 1), (i: nat) => ChildLength(s, i), n - 1, LongestChild(s, n));
    }
  }

  /** One more child makes a track longer by the child's own length. */
  lemma TrackLengthExactly(t: Track, n: nat)
    requires n < |t.children|
    ensures TrackLength(t, 0) == 0.0
    ensures TrackLength(t, n + 1) - TrackLength(t, n) ==
      match t.children[n]
      case PutClip(c) => if c.sourceRange.Some? then c.sourceRange.value.duration else 0.0
      case PutGap(d) => d
      case PutTransition => 0.0
      case PutStack(inner) => StackLength(inner)
  {}
}
