/** Keep runs and cuts of the transcript aligner (tools/taste-corpus/align.py). */
module AlignSegments {
  import opened Numbers
  import opened Sequences
  import opened AlignMatch

  const MIN_CUT_S: real := 45.0
  const MAX_PUB_STEP := 4
  const MAX_RAW_STEP := 8

  // ---------------------------------------------------------------- keep runs

  /** The two matches are close enough to belong to one run. */
  predicate Linked(a: Match, b: Match) {
    1 <= b.pub - a.pub <= 4 && 1 <= b.raw - a.raw <= 8
  }

  predicate Chain(run: seq<Match>) { forall i :: 0 <= i < |run| - 1 ==> Linked(run[i], run[i+1]) }

  function Concat(runs: seq<seq<Match>>): seq<Match> {
    if runs == [] then [] else Concat(runs[..|runs|-1]) + runs[|runs|-1]
  }

  /** `runs` cut `matches` into maximal chains. */
  ghost predicate AreKeepRuns(runs: seq<seq<Match>>, matches: seq<Match>) {
    && Concat(runs) == matches
    && (forall i :: 0 <= i < |runs| ==> runs[i] != [] && Chain(runs[i]))
    && (forall i :: 0 <= i < |runs| - 1 ==> !Linked(runs[i][|runs[i]|-1], runs[i+1][0]))
  }

  lemma {:induction false} ConcatJoins(a: seq<seq<Match>>, run: seq<Match>, b: seq<seq<Match>>)
    ensures Concat(a + [run] + b) == Concat(a) + run + Concat(b)
  {
    var all := a + [run] + b;
    if b == [] {
      assert all[..|all|-1] == a && all[|all|-1] == run && Concat(b) == [];
    } else {
      ConcatJoins(a, run, b[..|b|-1]);
      assert all[..|all|-1] == a + [run] + b[..|b|-1];
    }
  }

  method KeepRuns(matches: seq<Match>) returns (runs: seq<seq<Match>>)
    requires matches != []
    ensures AreKeepRuns(runs, matches)
  {
    runs := [[matches[0]]];
    assert Concat(runs) == [matches[0]];
    for i := 1 to |matches|
      invariant runs != [] && AreKeepRuns(runs, matches[..i])
      invariant runs[|runs|-1][|runs[|runs|-1]|-1] == matches[i-1]
    {
      var prev, cur := matches[i-1], matches[i];
      var last := runs[|runs|-1];
      assert matches[..i+1] == matches[..i] + [cur];
      if 0 < cur.pub - prev.pub <= MAX_PUB_STEP && 0 < cur.raw - prev.raw <= MAX_RAW_STEP {
        ExtendRun(runs, matches[..i], cur);
        runs := runs[..|runs|-1] + [last + [cur]];
      } else {
        OpenRun(runs, matches[..i], cur);
        runs := runs + [[cur]];
      }
    }
    assert matches[..|matches|] == matches;
  }

  lemma ExtendRun(runs: seq<seq<Match>>, matches: seq<Match>, cur: Match)
    requires runs != [] && AreKeepRuns(runs, matches)
    requires Linked(runs[|runs|-1][|runs[|runs|-1]|-1], cur)
    ensures AreKeepRuns(runs[..|runs|-1] + [runs[|runs|-1] + [cur]], matches + [cur])
  {
    var last := runs[|runs|-1];
    var next := runs[..|runs|-1] + [last + [cur]];
    assert next[..|next|-1] == runs[..|runs|-1];
    assert Concat(next) == Concat(runs[..|runs|-1]) + (last + [cur]) == matches + [cur];
    assert Chain(last + [cur]);
  }

  lemma OpenRun(runs: seq<seq<Match>>, matches: seq<Match>, cur: Match)
    requires runs != [] && AreKeepRuns(runs, matches)
    requires !Linked(runs[|runs|-1][|runs[|runs|-1]|-1], cur)
    ensures AreKeepRuns(runs + [[cur]], matches + [cur])
  {
    assert (runs + [[cur]])[..|runs|] == runs;
    assert Chain([cur]);
  }

  /** Where in the matches run `r` starts. */
  function StartOf(runs: seq<seq<Match>>, r: nat): nat
    requires r <= |runs|
  {
    |Concat(runs[..r])|
  }

  /** A new run starts exactly where the next match is not 1 to 4 published windows and 1 to 8 raw windows ahead. */
  lemma {:induction false} BreaksExactly(runs: seq<seq<Match>>, matches: seq<Match>, k: nat)
    requires AreKeepRuns(runs, matches) && k + 1 < |matches|
    ensures var a, b := matches[k], matches[k+1];
      (exists r: nat :: r < |runs| && StartOf(runs, r) == k + 1) <==>
        !(a.pub < b.pub <= a.pub + 4 && a.raw < b.raw <= a.raw + 8)
  {
    var n := |runs| - 1;
    var front, last := runs[..n], runs[n];
    assert runs[..n] == front && Concat(front) + last == matches;
    assert StartOf(runs, n) == |Concat(front)|;
    forall r: nat | r <= n ensures StartOf(runs, r) == StartOf(front, r) { assert runs[..r] == front[..r]; }
    if k + 1 < |Concat(front)| {
      assert AreKeepRuns(front, Concat(front));
      BreaksExactly(front, Concat(front), k);
      assert Concat(front)[k] == matches[k] && Concat(front)[k+1] == matches[k+1];
    } else if k + 1 == |Concat(front)| {
      LastOfRuns(front);
      assert matches[k] == front[n-1][|front[n-1]|-1] && matches[k+1] == last[0];
      assert !Linked(runs[n-1][|runs[n-1]|-1], runs[n][0]);
    } else {
      var i := k - |Concat(front)|;
      assert matches[k] == last[i] && matches[k+1] == last[i+1] && Linked(last[i], last[i+1]);
      forall r: nat | r <= n ensures StartOf(runs, r) <= |Concat(front)| { StartsGrow(front, r); }
    }
  }

  lemma LastOfRuns(runs: seq<seq<Match>>)
    requires Concat(runs) != [] && forall i :: 0 <= i < |runs| ==> runs[i] != []
    ensures runs != [] && Concat(runs)[|Concat(runs)|-1] == runs[|runs|-1][|runs[|runs|-1]|-1]
  {}

  lemma {:induction false} StartsGrow(runs: seq<seq<Match>>, r: nat)
    requires r <= |runs|
    ensures StartOf(runs, r) <= |Concat(runs)|
  {
    if r == |runs| {
      assert runs[..r] == runs;
    } else {
      StartsGrow(runs[..|runs|-1], r);
      assert runs[..|runs|-1][..r] == runs[..r];
    }
  }

  /** Raw and published time a run spans, and their ratio: the speed before rounding. */
  function RawLength(run: seq<Match>, windowS: real): real
    requires run != []
  {
    (run[|run|-1].raw + 1 - run[0].raw) as real * windowS
  }

  function PubLength(run: seq<Match>, windowS: real): real
    requires run != []
  {
    (run[|run|-1].pub + 1 - run[0].pub) as real * windowS
  }

  lemma {:induction false} ChainSpans(run: seq<Match>, n: nat)
    requires Chain(run) && n < |run|
    ensures n <= run[n].pub - run[0].pub <= 4 * n
    ensures n <= run[n].raw - run[0].raw <= 8 * n
  {
    if n == 0 {
    } else {
      ChainSpans(run, n-1);
      assert Linked(run[n-1], run[n]);
    }
  }

  /** In every keep run both indices strictly increase, and the speed lies strictly between 1/4 and 8. */
  lemma KeepRunSpeed(run: seq<Match>, windowS: real)
    requires run != [] && Chain(run) && windowS > 0.0
    ensures forall i, j :: 0 <= i < j < |run| ==> run[i].raw < run[j].raw && run[i].pub < run[j].pub
    ensures PubLength(run, windowS) > 0.0
    ensures 0.25 < RawLength(run, windowS) / PubLength(run, windowS) < 8.0
  {
    forall i, j | 0 <= i < j < |run| ensures run[i].raw < run[j].raw && run[i].pub < run[j].pub {
      ChainSpans(run[i..], j - i);
    }
    ChainSpans(run, |run| - 1);
    var raw, pub := run[|run|-1].raw + 1 - run[0].raw, run[|run|-1].pub + 1 - run[0].pub;
    RatioBounds(raw, pub, windowS);
    assert RawLength(run, windowS) == raw as real * windowS && PubLength(run, windowS) == pub as real * windowS;
  }

  lemma RatioBounds(raw: int, pub: int, windowS: real)
    requires 0 < pub < 4 * raw && raw < 8 * pub && windowS > 0.0
    ensures pub as real * windowS > 0.0
    ensures 0.25 < (raw as real * windowS) / (pub as real * windowS) < 8.0
  {
    var x, y := raw as real * windowS, pub as real * windowS;
    assert y > 0.0;
    assert (4 * raw - pub) as real * windowS > 0.0;
    assert (8 * pub - raw) as real * windowS > 0.0;
    assert 4.0 * x > y && x < 8.0 * y;
    QuotientBounds(x, y);
  }

  lemma QuotientBounds(x: real, y: real)
    requires y > 0.0 && y < 4.0 * x && x < 8.0 * y
    ensures 0.25 < x / y < 8.0
  {
    var q := x / y;
    assert q * y == x;
    PositiveFactor(q - 0.25, y);
    PositiveFactor(8.0 - q, y);
  }

  lemma PositiveFactor(a: real, y: real)
    requires y > 0.0 && a * y > 0.0
    ensures a > 0.0
  {
    assert a <= 0.0 ==> a * y <= 0.0;
  }

  // ---------------------------------------------------------------- cuts

  predicate CoveredBy(matches: seq<Match>, window: nat) { exists m :: m in matches && m.raw == window }

  /** A stretch of unmatched raw windows that cannot be extended either way. */
  ghost predicate MaximalGap(matches: seq<Match>, rawWindows: nat, a: nat, b: nat) {
    && a < b <= rawWindows
    && (forall w: nat :: a <= w < b ==> !CoveredBy(matches, w))
    && (a == 0 || CoveredBy(matches, a - 1))
    && (b == rawWindows || CoveredBy(matches, b))
  }

  datatype Scope = PreShow | InShow | PostShow

  datatype Segment =
    | Keep(rawStart: real, rawEnd: real, pubStart: real, pubEnd: real, speed: real, confidence: real)
    | Cut(rawStart: real, rawEnd: real, scope: Scope)

  datatype Gap = Gap(start: nat, end: nat)

  /** The windows from `a` to `b` last 45 s. */
  predicate LongEnough(a: nat, b: nat, windowS: real) { (b - a) as real * windowS >= 45.0 }

  /** The gaps are the long maximal ones. */
  ghost predicate AreLongGaps(gaps: seq<Gap>, matches: seq<Match>, rawWindows: nat, windowS: real) {
    forall a: nat, b: nat :: Gap(a, b) in gaps <==>
      MaximalGap(matches, rawWindows, a, b) && LongEnough(a, b, windowS)
  }

  /** A gap is open at window `n`: it starts at `a` and has reached `n`. */
  ghost predicate OpenGap(matches: seq<Match>, a: nat, n: nat) {
    a < n && (forall w: nat :: a <= w < n ==> !CoveredBy(matches, w)) && (a == 0 || CoveredBy(matches, a - 1))
  }

  /** The covered flags of the source: one per raw window, set by every match. */
  method CoveredFlags(matches: seq<Match>, rawWindows: nat) returns (covered: array<bool>)
    requires forall m :: m in matches ==> m.raw < rawWindows
    ensures fresh(covered) && covered.Length == rawWindows
    ensures forall w: nat :: w < rawWindows ==> (covered[w] <==> CoveredBy(matches, w))
  {
    covered := new bool[rawWindows](_ => false);
    for i := 0 to |matches|
      invariant forall w: nat :: w < rawWindows ==> (covered[w] <==> CoveredBy(matches[..i], w))
    {
      covered[matches[i].raw] := true;
      assert matches[..i+1] == matches[..i] + [matches[i]];
    }
    assert matches[..|matches|] == matches;
  }

  /** The maximal unmatched stretches of at least 45 s, in order. */
  method LongGaps(matches: seq<Match>, rawWindows: nat, windowS: real) returns (gaps: seq<Gap>)
    requires forall m :: m in matches ==> m.raw < rawWindows
    ensures AreLongGaps(gaps, matches, rawWindows, windowS)
    ensures forall a: nat, b: nat :: Gap(a, b) in gaps <==>
      MaximalGap(matches, rawWindows, a, b) && (b - a) as real * windowS >= 45.0
    ensures forall i, j :: 0 <= i < j < |gaps| ==> gaps[i].end < gaps[j].start
  {
    var covered := CoveredFlags(matches, rawWindows);
    gaps := [];
    var gapStart: Option<nat> := None;
    for w := 0 to rawWindows
      invariant forall v: nat :: v < rawWindows ==> (covered[v] <==> CoveredBy(matches, v))
      invariant GapsSoFar(gaps, matches, rawWindows, windowS, w)
      invariant match gapStart case None => w == 0 || CoveredBy(matches, w - 1) case Some(a) => OpenGap(matches, a, w)
    {
      if !covered[w] {
        if gapStart.None? { gapStart := Some(w); }
        NoGapEndsHere(gaps, matches, rawWindows, windowS, w);
      } else {
        if gapStart.Some? {
          GapCloses(gaps, matches, rawWindows, windowS, w, gapStart.value);
          if (w - gapStart.value) as real * windowS >= MIN_CUT_S { gaps := gaps + [Gap(gapStart.value, w)]; }
        } else {
          NoGapCloses(gaps, matches, rawWindows, windowS, w);
        }
        gapStart := None;
      }
    }
    if gapStart.Some? {
      GapCloses(gaps, matches, rawWindows, windowS, rawWindows, gapStart.value);
      if (rawWindows - gapStart.value) as real * windowS >= MIN_CUT_S {
        gaps := gaps + [Gap(gapStart.value, rawWindows)];
      }
    } else {
      NoGapCloses(gaps, matches, rawWindows, windowS, rawWindows);
    }
  }

  /** `gaps` are the long gaps that end before window `n`, in order. */
  ghost predicate GapsSoFar(gaps: seq<Gap>, matches: seq<Match>, rawWindows: nat, windowS: real, n: nat) {
    && (forall a: nat, b: nat :: Gap(a, b) in gaps <==>
          MaximalGap(matches, rawWindows, a, b) && b < n && LongEnough(a, b, windowS))
    && (forall i, j :: 0 <= i < j < |gaps| ==> gaps[i].end < gaps[j].start)
  }

  lemma NoGapEndsHere(gaps: seq<Gap>, matches: seq<Match>, rawWindows: nat, windowS: real, n: nat)
    requires GapsSoFar(gaps, matches, rawWindows, windowS, n) && n < rawWindows && !CoveredBy(matches, n)
    ensures GapsSoFar(gaps, matches, rawWindows, windowS, n + 1)
  {
    forall a: nat ensures !MaximalGap(matches, rawWindows, a, n) {}
  }

  lemma NoGapCloses(gaps: seq<Gap>, matches: seq<Match>, rawWindows: nat, windowS: real, n: nat)
    requires GapsSoFar(gaps, matches, rawWindows, windowS, n) && (n == 0 || CoveredBy(matches, n - 1))
    ensures GapsSoFar(gaps, matches, rawWindows, windowS, n + 1)
  {
    forall a: nat ensures !MaximalGap(matches, rawWindows, a, n) {}
  }

  lemma GapCloses(gaps: seq<Gap>, matches: seq<Match>, rawWindows: nat, windowS: real, n: nat, a: nat)
    requires GapsSoFar(gaps, matches, rawWindows, windowS, n) && n <= rawWindows && OpenGap(matches, a, n)
    requires n == rawWindows || CoveredBy(matches, n)
    ensures GapsSoFar(gaps + if LongEnough(a, n, windowS) then [Gap(a, n)] else [], matches, rawWindows, windowS, n + 1)
  {
    forall other: nat ensures MaximalGap(matches, rawWindows, other, n) <==> other == a {
      if other < a < n { assert CoveredBy(matches, a - 1); }
      if a < other < n { assert !CoveredBy(matches, other - 1); }
    }
    forall g | g in gaps ensures g.end < a {
      assert Gap(g.start, g.end) in gaps;
      assert CoveredBy(matches, g.end);
    }
  }

  // ---------------------------------------------------------------- scopes

  /** `push_cut`: where a cut lies relative to the first and the last match. */
  function ScopeOf(matches: seq<Match>, gap: Gap): Scope
    requires matches != []
  {
    if gap.end <= matches[0].raw then PreShow
    else if gap.start >= matches[|matches|-1].raw + 1 then PostShow
    else InShow
  }

  /** Raw indices as the matcher produces them: each at most one window behind the one before. */
  ghost predicate StepsBackByOne(matches: seq<Match>) {
    forall i :: 0 <= i < |matches| - 1 ==> matches[i].raw - 1 <= matches[i+1].raw
  }

  /** Going down one window at a time skips none: between a match and a later, lower one every raw
      window is matched. */
  lemma {:induction false} DescentCovers(matches: seq<Match>, i: nat, j: nat, w: nat)
    requires StepsBackByOne(matches) && i <= j < |matches| && matches[j].raw <= w <= matches[i].raw
    ensures CoveredBy(matches, w)
    decreases j - i
  {
    if matches[i].raw == w { assert matches[i] in matches; }
    else { DescentCovers(matches, i + 1, j, w); }
  }

  /** The scopes mean what they say although raw indices may step back: a cut is pre-show exactly when
      it precedes every matched window, post-show exactly when it follows every one, and in-show when
      some lie on each side. */
  lemma ScopesAreRight(matches: seq<Match>, rawWindows: nat, gap: Gap)
    requires matches != [] && StepsBackByOne(matches) && MaximalGap(matches, rawWindows, gap.start, gap.end)
    ensures ScopeOf(matches, gap) == PreShow <==> forall m :: m in matches ==> gap.end <= m.raw
    ensures ScopeOf(matches, gap) == PostShow <==> forall m :: m in matches ==> m.raw < gap.start
  {
    var first, last := matches[0], matches[|matches|-1];
    assert first in matches && last in matches;
    forall m | m in matches ensures m.raw < gap.start || gap.end <= m.raw { assert CoveredBy(matches, m.raw); }
    forall m | m in matches && gap.end <= first.raw ensures gap.end <= m.raw {
      var j :| 0 <= j < |matches| && matches[j] == m;
      if m.raw < gap.start { DescentCovers(matches, 0, j, gap.start); }
    }
    forall m | m in matches && last.raw < gap.start ensures m.raw < gap.start {
      var i :| 0 <= i < |matches| && matches[i] == m;
      if gap.end <= m.raw { DescentCovers(matches, i, |matches| - 1, gap.start); }
    }
  }

  // ---------------------------------------------------------------- build_segments

  /** `round(x, 2)` and `round(x, 3)` */
  function Hundredths(x: real): real { RoundHalfEven(x * 100.0) as real / 100.0 }
  function Thousandths(x: real): real { RoundHalfEven(x * 1000.0) as real / 1000.0 }

  function SimSum(run: seq<Match>): real {
    if run == [] then 0.0 else SimSum(run[..|run|-1]) + run[|run|-1].sim
  }

  function KeepSegment(run: seq<Match>, windowS: real, speedTrust: real): Segment
    requires run != [] && PubLength(run, windowS) > 0.0
  {
    var first, last := run[0], run[|run|-1];
    var ratio := RawLength(run, windowS) / PubLength(run, windowS);
    Keep(first.raw as real * windowS, (last.raw + 1) as real * windowS,
         first.pub as real * windowS, (last.pub + 1) as real * windowS,
         if ratio >= speedTrust then Hundredths(ratio) else 1.0, Thousandths(SimSum(run) / |run| as real))
  }

  function CutSegment(gap: Gap, matches: seq<Match>, windowS: real): Segment
    requires matches != []
  {
    Cut(gap.start as real * windowS, gap.end as real * windowS, ScopeOf(matches, gap))
  }

  /** The similarities of a run, added up from its first match on. */
  function TotalSim(run: seq<Match>): real { if run == [] then 0.0 else run[0].sim + TotalSim(run[1..]) }

  lemma {:induction false} TotalSimSplits(front: seq<Match>, last: Match)
    ensures TotalSim(front + [last]) == TotalSim(front) + last.sim
  {
    if front == [] {
      assert [] + [last] == [last] && [last][1..] == [] && TotalSim([]) == 0.0;
    } else {
      TotalSimSplits(front[1..], last);
      assert (front + [last])[1..] == front[1..] + [last];
    }
  }

  lemma {:induction false} SumsAgree(run: seq<Match>)
    ensures SimSum(run) == TotalSim(run)
  {
    if run == [] {
    } else {
      SumsAgree(run[..|run|-1]);
      TotalSimSplits(run[..|run|-1], run[|run|-1]);
      assert run == run[..|run|-1] + [run[|run|-1]];
    }
  }

  /** `x` is the multiple of one `unit`th nearest to `y`. */
  ghost predicate RoundedTo(x: real, y: real, unit: real) {
    && (exists n: int :: IsMultiple(x, n, unit))
    && -0.5 <= (x - y) * unit <= 0.5
  }

  predicate IsMultiple(x: real, n: int, unit: real) { x * unit == n as real }

  lemma RoundsTo(y: real, unit: real)
    requires unit > 0.0
    ensures RoundedTo(RoundHalfEven(y * unit) as real / unit, y, unit)
  {
    var n := RoundHalfEven(y * unit);
    RoundedIsClose(y * unit);
    hide RoundHalfEven;
    var x := n as real / unit;
    assert x * unit == n as real;
    assert IsMultiple(x, n, unit);
    assert (x - y) * unit == x * unit - y * unit;
  }

  /** What a keep says of its run: from the start of the first matched window to the end of the last, in the raw
      recording and in the published one; how much faster the published one is, 1 where that is under the
      threshold; and the mean similarity. */
  ghost predicate IsKeepSegment(segment: Segment, run: seq<Match>, windowS: real, speedTrust: real) {
    && segment.Keep? && run != []
    && segment.rawStart == run[0].raw as real * windowS
    && segment.rawEnd == (run[|run|-1].raw + 1) as real * windowS
    && segment.pubStart == run[0].pub as real * windowS
    && segment.pubEnd == (run[|run|-1].pub + 1) as real * windowS
    && var raw, pub := segment.rawEnd - segment.rawStart, segment.pubEnd - segment.pubStart;
       && pub > 0.0
       && (raw < speedTrust * pub ==> segment.speed == 1.0)
       && (raw >= speedTrust * pub ==> RoundedTo(segment.speed, raw / pub, 100.0))
       && RoundedTo(segment.confidence, TotalSim(run) / |run| as real, 1000.0)
  }

  lemma KeepSegmentTells(run: seq<Match>, windowS: real, speedTrust: real)
    requires run != [] && PubLength(run, windowS) > 0.0
    ensures IsKeepSegment(KeepSegment(run, windowS, speedTrust), run, windowS, speedTrust)
  {
    hide RoundedTo, RawLength, PubLength, SimSum, TotalSim, Hundredths, Thousandths;
    var raw, pub := RawLength(run, windowS), PubLength(run, windowS);
    SumsAgree(run);
    HundredthsTell(raw / pub);
    ThousandthsTell(TotalSim(run) / |run| as real);
    SpansAre(run, windowS);
    QuotientAtLeast(raw, pub, speedTrust);
  }

  lemma HundredthsTell(y: real)
    ensures RoundedTo(Hundredths(y), y, 100.0)
  {
    RoundsTo(y, 100.0);
  }

  lemma ThousandthsTell(y: real)
    ensures RoundedTo(Thousandths(y), y, 1000.0)
  {
    RoundsTo(y, 1000.0);
  }

  lemma SpansAre(run: seq<Match>, windowS: real)
    requires run != []
    ensures RawLength(run, windowS) == (run[|run|-1].raw + 1) as real * windowS - run[0].raw as real * windowS
    ensures PubLength(run, windowS) == (run[|run|-1].pub + 1) as real * windowS - run[0].pub as real * windowS
  {}

  lemma QuotientAtLeast(x: real, y: real, trust: real)
    requires y > 0.0
    ensures x / y >= trust <==> x >= trust * y
  {
    var q := x / y;
    assert q * y == x;
    assert (q - trust) * y == x - trust * y;
    if q >= trust {
      assert (q - trust) * y >= 0.0;
    } else {
      assert (trust - q) * y > 0.0;
    }
  }

  predicate RawStartNoLater(a: Segment, b: Segment) { a.rawStart <= b.rawStart }

  /** Keep runs become keep segments, long gaps become cuts, and the whole is sorted by raw start. */
  method BuildSegments(matches: seq<Match>, rawWindows: nat, windowS: real, speedTrust: real)
    returns (segments: seq<Segment>, ghost runs: seq<seq<Match>>, ghost gaps: seq<Gap>)
    requires windowS > 0.0 && forall m :: m in matches ==> m.raw < rawWindows
    ensures matches == [] ==>
      segments == if rawWindows == 0 then [] else [Cut(0.0, rawWindows as real * windowS, PreShow)]
    ensures matches != [] ==>
      && AreKeepRuns(runs, matches)
      && AreLongGaps(gaps, matches, rawWindows, windowS)
      && (forall i, j :: 0 <= i < j < |gaps| ==> gaps[i].end < gaps[j].start)
      && (forall i, j :: 0 <= i < j < |segments| ==> segments[i].rawStart <= segments[j].rawStart)
      && AreSegmentsOf(segments, runs, gaps, matches, windowS, speedTrust)
  {
    hide IsKeepSegment, KeepSegment, CutSegment, AreLongGaps;
    segments, runs, gaps := [], [], [];
    if matches == [] {
      if rawWindows > 0 { segments := [Cut(0.0, rawWindows as real * windowS, PreShow)]; }
      return;
    }
    var keeps := KeepRuns(matches);
    runs := keeps;
    ghost var keepSegments := [];
    for i := 0 to |keeps|
      invariant |keepSegments| == i && segments == keepSegments
      invariant forall k :: 0 <= k < i ==> IsKeepSegment(keepSegments[k], runs[k], windowS, speedTrust)
    {
      KeepRunSpeed(keeps[i], windowS);
      KeepSegmentTells(keeps[i], windowS, speedTrust);
      segments := segments + [KeepSegment(keeps[i], windowS, speedTrust)];
      keepSegments := segments;
    }
    var cuts := LongGaps(matches, rawWindows, windowS);
    gaps := cuts;
    ghost var cutSegments := [];
    for i := 0 to |cuts|
      invariant |cutSegments| == i && segments == keepSegments + cutSegments
      invariant forall k :: 0 <= k < i ==> IsCutSegment(cutSegments[k], gaps[k], matches, windowS)
    {
      CutSegmentTells(cuts[i], matches, windowS);
      segments := segments + [CutSegment(cuts[i], matches, windowS)];
      cutSegments := cutSegments + [CutSegment(cuts[i], matches, windowS)];
    }
    assert TotalOrder(RawStartNoLater);
    SortBySorted(segments, RawStartNoLater);
    forall t ensures Filter(SortBy(segments, RawStartNoLater), StartsAt(t)) == Filter(segments, StartsAt(t)) {
      SortIsStable(segments, RawStartNoLater, StartsAt(t));
    }
    segments := SortBy(segments, RawStartNoLater);
    assert KeepsAre(keepSegments, runs, windowS, speedTrust) && CutsAre(cutSegments, gaps, matches, windowS);
  }

  /** What a cut says of its gap: its windows, and where they lie among the matches. */
  predicate IsCutSegment(segment: Segment, gap: Gap, matches: seq<Match>, windowS: real)
    requires matches != []
  {
    && segment.Cut? && segment.rawStart == gap.start as real * windowS && segment.rawEnd == gap.end as real * windowS
    && segment.scope == ScopeOf(matches, gap)
  }

  lemma CutSegmentTells(gap: Gap, matches: seq<Match>, windowS: real)
    requires matches != []
    ensures IsCutSegment(CutSegment(gap, matches, windowS), gap, matches, windowS)
  {}

  ghost predicate KeepsAre(keeps: seq<Segment>, runs: seq<seq<Match>>, windowS: real, speedTrust: real) {
    |keeps| == |runs| && forall k :: 0 <= k < |runs| ==> IsKeepSegment(keeps[k], runs[k], windowS, speedTrust)
  }

  ghost predicate CutsAre(cuts: seq<Segment>, gaps: seq<Gap>, matches: seq<Match>, windowS: real)
    requires matches != []
  {
    |cuts| == |gaps| && forall k :: 0 <= k < |gaps| ==> IsCutSegment(cuts[k], gaps[k], matches, windowS)
  }

  function StartsAt(t: real): Segment -> bool { (s: Segment) => s.rawStart == t }

  /** The segments are one keep per run and one cut per gap; those that start together stay in that order. */
  ghost predicate AreSegmentsOf(segments: seq<Segment>, runs: seq<seq<Match>>, gaps: seq<Gap>, matches: seq<Match>,
                                windowS: real, speedTrust: real)
    requires matches != []
  {
    exists keeps, cuts :: KeepsAre(keeps, runs, windowS, speedTrust) && CutsAre(cuts, gaps, matches, windowS)
      && multiset(segments) == multiset(keeps + cuts)
      && forall t :: Filter(segments, StartsAt(t)) == Filter(keeps + cuts, StartsAt(t))
  }

  /** Each window of a long unmatched stretch lies in exactly one cut, and no matched window in any. */
  lemma CutsPartitionLongGaps(gaps: seq<Gap>, matches: seq<Match>, rawWindows: nat, windowS: real, w: nat)
    requires AreLongGaps(gaps, matches, rawWindows, windowS)
    requires forall i, j :: 0 <= i < j < |gaps| ==> gaps[i].end < gaps[j].start
    ensures CoveredBy(matches, w) ==> forall g :: g in gaps ==> !(g.start <= w < g.end)
    ensures forall i, j ::
      (0 <= i < |gaps| && 0 <= j < |gaps| && gaps[i].start <= w < gaps[i].end && gaps[j].start <= w < gaps[j].end) ==>
      i == j
    ensures forall a: nat, b: nat ::
      MaximalGap(matches, rawWindows, a, b) && (b - a) as real * windowS >= 45.0 && a <= w < b ==>
      Gap(a, b) in gaps
  {
    forall g | g in gaps && CoveredBy(matches, w) ensures !(g.start <= w < g.end) {
      assert Gap(g.start, g.end) in gaps;
    }
    forall i, j | 0 <= i < j < |gaps| ensures gaps[i].start < gaps[i].end && gaps[j].start < gaps[j].end {
      assert Gap(gaps[i].start, gaps[i].end) in gaps && Gap(gaps[j].start, gaps[j].end) in gaps;
    }
  }

  // ---------------------------------------------------------------- what the matcher feeds it

  /** The matcher feeds the segmenter what it needs. */
  lemma MatcherStepsBackByOne(w: Windows, history: seq<seq<Match>>, n: nat)
    requires IsRun(w, history) && n < |history|
    ensures StepsBackByOne(history[n]) && forall m :: m in history[n] ==> m.raw < w.rawCount
  {
    RunSteps(w, history, n);
    forall i | 0 <= i < |history[n]| - 1 ensures history[n][i].raw - 1 <= history[n][i+1].raw {
      assert StepOk(w, history[n][i], history[n][i+1]);
    }
  }
}
