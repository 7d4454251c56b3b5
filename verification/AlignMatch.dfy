/** The banded matcher of the transcript aligner (tools/taste-corpus/align.py). The cosine of a
    published and a raw window is a parameter. */
module AlignMatch {

  const MIN_SIM: real := 0.18
  const LOOKBACK := 2
  const LOOKAHEAD := 40
  const MAX_MISSES_BEFORE_UNLOCK := 3

  datatype Match = Match(pub: nat, raw: nat, sim: real)

  /** The two transcripts as the matcher sees them: how many raw windows, which published windows
      hold words, and how similar each pair is. */
  datatype Windows = Windows(rawCount: nat, pubHasWords: seq<bool>, cos: (nat, nat) -> real)

  /** Published windows with words strictly between `a` and `b`. */
  function Misses(w: Windows, a: nat, b: nat): nat
    requires b <= |w.pubHasWords|
    decreases b
  {
    if b <= a + 1 then 0 else Misses(w, a, b - 1) + if w.pubHasWords[b - 1] then 1 else 0
  }

  /** They are counted. */
  lemma {:induction false} MissesCounted(w: Windows, a: nat, b: nat)
    requires b <= |w.pubHasWords|
    ensures Misses(w, a, b) == |set i | a < i < b && w.pubHasWords[i]|
  {
    var missed := set i | a < i < b && w.pubHasWords[i];
    if b <= a + 1 {
      assert missed == {};
    } else {
      MissesCounted(w, a, b - 1);
      var before := set i | a < i < b - 1 && w.pubHasWords[i];
      assert missed == if w.pubHasWords[b - 1] then before + {b - 1} else before;
    }
  }

  /** The lock holds when a match exists and at most three windows with words missed since. */
  predicate Locked(w: Windows, ms: seq<Match>, pi: nat)
    requires pi <= |w.pubHasWords|
  {
    ms != [] && Misses(w, ms[|ms|-1].pub, pi) <= 3
  }

  /** First raw window not matched yet: one past the last match. */
  function Frontier(ms: seq<Match>): nat { if ms == [] then 0 else ms[|ms|-1].raw + 1 }

  /** The raw windows searched for published window `pi`. */
  function BandStart(w: Windows, ms: seq<Match>, pi: nat): nat
    requires pi <= |w.pubHasWords|
  {
    if !Locked(w, ms, pi) then Frontier(ms) else if Frontier(ms) < 2 then 0 else Frontier(ms) - 2
  }

  function BandEnd(w: Windows, ms: seq<Match>, pi: nat): nat
    requires pi <= |w.pubHasWords|
  {
    if !Locked(w, ms, pi) || w.rawCount < Frontier(ms) + 40 then w.rawCount else Frontier(ms) + 40
  }

  /** The earliest of the best windows of a band, if any is better than nothing. */
  ghost predicate IsFirstBest(w: Windows, pi: nat, lo: nat, hi: nat, ri: int) {
    if ri < 0 then forall r: nat :: lo <= r < hi ==> w.cos(pi, r) <= 0.0
    else
      && lo <= ri < hi && w.cos(pi, ri) > 0.0
      && (forall r: nat :: lo <= r < hi ==> w.cos(pi, r) <= w.cos(pi, ri))
      && (forall r: nat :: lo <= r < ri ==> w.cos(pi, r) < w.cos(pi, ri))
  }

  /** Window `pi` is decided rightly after the matches `before` it: a window with words is matched to
      the first best raw window of its band when that is similar enough, and to nothing otherwise. */
  ghost predicate Decided(w: Windows, before: seq<Match>, pi: nat, after: seq<Match>)
    requires pi < |w.pubHasWords|
  {
    if !w.pubHasWords[pi] then after == before
    else exists ri: int :: DecidedBy(w, before, pi, after, ri)
  }

  ghost predicate DecidedBy(w: Windows, before: seq<Match>, pi: nat, after: seq<Match>, ri: int)
    requires pi < |w.pubHasWords|
  {
    && IsFirstBest(w, pi, BandStart(w, before, pi), BandEnd(w, before, pi), ri)
    && after == if ri >= 0 && w.cos(pi, ri) >= 0.18 then before + [Match(pi, ri, w.cos(pi, ri))] else before
  }

  /** The matches a whole run makes. */
  ghost predicate AreMatches(w: Windows, ms: seq<Match>) {
    exists history :: IsRun(w, history) && |history| == |w.pubHasWords| + 1 && ms == history[|w.pubHasWords|]
  }

  /** The inner loop of `match_windows`. */
  method BestInBand(w: Windows, pi: nat, lo: nat, hi: nat) returns (best: real, bestRi: int)
    requires lo <= hi
    ensures IsFirstBest(w, pi, lo, hi, bestRi)
    ensures bestRi < 0 || lo <= bestRi < hi
    ensures best == if bestRi < 0 then 0.0 else w.cos(pi, bestRi)
  {
    best, bestRi := 0.0, -1;
    for ri := lo to hi
      invariant IsFirstBest(w, pi, lo, ri, bestRi)
      invariant best == if bestRi < 0 then 0.0 else w.cos(pi, bestRi)
    {
      var s := w.cos(pi, ri);
      if s > best { best, bestRi := s, ri; }
    }
  }

  lemma RunExtends(w: Windows, history: seq<seq<Match>>, after: seq<Match>)
    requires IsRun(w, history) && |history| <= |w.pubHasWords|
    requires Decided(w, history[|history|-1], |history| - 1, after)
    ensures IsRun(w, history + [after])
  {}

  /** `history[pi]` are the matches made before published window `pi`; each window is decided in turn. */
  ghost predicate IsRun(w: Windows, history: seq<seq<Match>>) {
    && 0 < |history| <= |w.pubHasWords| + 1 && history[0] == []
    && forall pi :: 0 <= pi < |history| - 1 ==> Decided(w, history[pi], pi, history[pi+1])
  }

  method MatchWindows(w: Windows) returns (matches: seq<Match>)
    ensures AreMatches(w, matches)
  {
    matches := [];
    ghost var history: seq<seq<Match>> := [[]];
    assert IsRun(w, history);
    hide IsRun, IsFirstBest;
    var last, locked, misses := 0, false, 0;
    for pi := 0 to |w.pubHasWords|
      invariant IsRun(w, history) && |history| == pi + 1 && matches == history[pi]
      invariant forall m :: m in matches ==> m.pub < pi && m.raw < w.rawCount
      invariant matches != [] ==> matches[|matches|-1].pub < pi
      invariant last == Frontier(matches) <= w.rawCount
      invariant locked == Locked(w, matches, pi)
      invariant matches != [] ==> misses == Misses(w, matches[|matches|-1].pub, pi)
    {
      assert matches != [] ==>
        Misses(w, matches[|matches|-1].pub, pi + 1)
        == Misses(w, matches[|matches|-1].pub, pi) + if w.pubHasWords[pi] then 1 else 0;
      if !w.pubHasWords[pi] {
        RunExtends(w, history, matches);
        history := history + [matches];
        continue;
      }
      var lo, hi := last, w.rawCount;
      if locked {
        lo := if last < LOOKBACK then 0 else last - LOOKBACK;
        hi := if w.rawCount < last + LOOKAHEAD then w.rawCount else last + LOOKAHEAD;
      }
      var best, bestRi := BestInBand(w, pi, lo, hi);
      ghost var before := matches;
      assert bestRi >= 0 ==> bestRi < w.rawCount;
      if best >= MIN_SIM && bestRi >= 0 {
        matches := matches + [Match(pi, bestRi, best)];
        last := bestRi + 1;
        locked := true;
        misses := 0;
      } else {
        misses := misses + 1;
        if misses > MAX_MISSES_BEFORE_UNLOCK { locked := false; }
      }
      assert DecidedBy(w, before, pi, matches, bestRi);
      RunExtends(w, history, matches);
      history := history + [matches];
    }
  }

  // ---------------------------------------------------------------- what a run guarantees

  /** The gap between two consecutive matches: while locked at most one window back and forty ahead,
      after losing the lock strictly ahead. */
  ghost predicate StepOk(w: Windows, a: Match, b: Match)
    requires b.pub <= |w.pubHasWords|
  {
    && a.pub < b.pub
    && if Misses(w, a.pub, b.pub) <= 3 then a.raw - 1 <= b.raw <= a.raw + 40
       else a.raw < b.raw
  }

  ghost predicate MatchesOk(w: Windows, ms: seq<Match>, n: nat) {
    && n <= |w.pubHasWords|
    && (forall m :: m in ms ==>
          m.pub < n && w.pubHasWords[m.pub] && m.raw < w.rawCount && m.sim == w.cos(m.pub, m.raw) >= 0.18)
    && (forall i :: 0 <= i < |ms| - 1 ==> StepOk(w, ms[i], ms[i+1]))
  }

  lemma DecidedKeepsOk(w: Windows, before: seq<Match>, pi: nat, after: seq<Match>)
    requires pi < |w.pubHasWords| && MatchesOk(w, before, pi) && Decided(w, before, pi, after)
    ensures MatchesOk(w, after, pi + 1)
  {
    if after != before {
      var ri: int :| DecidedBy(w, before, pi, after, ri);
      AddedKeepsOk(w, before, pi, ri);
    }
  }

  lemma AddedKeepsOk(w: Windows, before: seq<Match>, pi: nat, ri: int)
    requires pi < |w.pubHasWords| && w.pubHasWords[pi] && MatchesOk(w, before, pi)
    requires BandStart(w, before, pi) <= ri < BandEnd(w, before, pi) && w.cos(pi, ri) >= 0.18
    ensures MatchesOk(w, before + [Match(pi, ri, w.cos(pi, ri))], pi + 1)
  {
    hide Misses;
    var match', after := Match(pi, ri, w.cos(pi, ri)), before + [Match(pi, ri, w.cos(pi, ri))];
    if before != [] {
      var last := before[|before|-1];
      assert last in before;
      assert StepOk(w, last, match');
    }
    forall i | 0 <= i < |after| - 1 ensures StepOk(w, after[i], after[i+1]) {
      if i + 1 < |before| { assert StepOk(w, before[i], before[i+1]); }
    }
  }

  /** In every run published indices strictly increase, every match is similar enough, and raw
      indices step as the lock allows. */
  lemma {:induction false} RunSteps(w: Windows, history: seq<seq<Match>>, n: nat)
    requires IsRun(w, history) && n < |history|
    ensures MatchesOk(w, history[n], n)
  {
    if n == 0 {
    } else {
      RunSteps(w, history, n-1);
      assert Decided(w, history[n-1], n-1, history[n]);
      hide MatchesOk, Decided, IsRun;
      DecidedKeepsOk(w, history[n-1], n-1, history[n]);
    }
  }

  /** Earlier matches are never revised, and a published window is matched at most once. */
  lemma {:induction false} HistoryGrows(w: Windows, history: seq<seq<Match>>, n: nat, k: nat)
    requires IsRun(w, history) && k <= n < |history|
    ensures |history[k]| <= |history[n]| && history[n][..|history[k]|] == history[k]
    ensures |history[n]| <= |history[k]| + (n - k)
  {
    if k == n {
    } else {
      HistoryGrows(w, history, n-1, k);
      assert Decided(w, history[n-1], n-1, history[n]);
      if w.pubHasWords[n-1] { var ri: int :| DecidedBy(w, history[n-1], n-1, history[n], ri); }
    }
  }

  /** The rules leave nothing open: two runs over the same windows make the same matches. */
  lemma {:induction false} RunsAgree(w: Windows, a: seq<seq<Match>>, b: seq<seq<Match>>, n: nat)
    requires IsRun(w, a) && IsRun(w, b) && n < |a| && n < |b|
    ensures a[n] == b[n]
  {
    if n == 0 {
    } else {
      RunsAgree(w, a, b, n-1);
      assert Decided(w, a[n-1], n-1, a[n]) && Decided(w, b[n-1], n-1, b[n]);
      if w.pubHasWords[n-1] {
        var r: int :| DecidedBy(w, a[n-1], n-1, a[n], r);
        var s: int :| DecidedBy(w, b[n-1], n-1, b[n], s);
        assert r < 0 <==> s < 0;
      }
    }
  }

  /** The raw windows looked at for published window `pi`: before the first match all of them, later those behind
      the last match, and, while at most three windows with words have been missed since, only the next forty and
      also the last match and the window before it. */
  ghost predicate InReach(w: Windows, before: seq<Match>, pi: nat, r: nat) {
    && r < w.rawCount
    && (before != [] ==>
          var last := before[|before|-1];
          if |set i | last.pub < i < pi && i < |w.pubHasWords| && w.pubHasWords[i]| <= 3
          then last.raw <= r + 1 && r <= last.raw + 40
          else last.raw < r)
  }

  /** A published window is matched to `r` exactly when `r` is in reach, similar enough and the earliest of the most
      similar in reach. */
  ghost predicate Chosen(w: Windows, before: seq<Match>, pi: nat, r: nat) {
    && InReach(w, before, pi, r) && w.cos(pi, r) >= 0.18
    && (forall q: nat :: InReach(w, before, pi, q) ==> w.cos(pi, q) <= w.cos(pi, r))
    && (forall q: nat :: InReach(w, before, pi, q) && q < r ==> w.cos(pi, q) < w.cos(pi, r))
  }

  lemma ReachIsBand(w: Windows, before: seq<Match>, pi: nat, r: nat)
    requires pi < |w.pubHasWords|
    ensures InReach(w, before, pi, r) <==> BandStart(w, before, pi) <= r < BandEnd(w, before, pi)
  {
    if before != [] {
      var a := before[|before|-1].pub;
      MissesCounted(w, a, pi);
      assert (set i | a < i < pi && w.pubHasWords[i])
        == set i | a < i < pi && i < |w.pubHasWords| && w.pubHasWords[i];
    }
  }

  /** What deciding one window does, without the band and its ends. */
  lemma MatchedExactly(w: Windows, before: seq<Match>, pi: nat, after: seq<Match>, r: nat)
    requires pi < |w.pubHasWords| && Decided(w, before, pi, after)
    ensures after == before + [Match(pi, r, w.cos(pi, r))] <==> w.pubHasWords[pi] && Chosen(w, before, pi, r)
    ensures after == before || exists q: nat :: after == before + [Match(pi, q, w.cos(pi, q))]
  {
    forall q: nat
      ensures InReach(w, before, pi, q) <==> BandStart(w, before, pi) <= q < BandEnd(w, before, pi)
    {
      ReachIsBand(w, before, pi, q);
    }
    hide InReach, BandStart, BandEnd;
    if w.pubHasWords[pi] {
      var ri: int :| DecidedBy(w, before, pi, after, ri);
      if ri >= 0 && w.cos(pi, ri) >= 0.18 {
        assert Chosen(w, before, pi, ri) && after[|before|] == Match(pi, ri, w.cos(pi, ri));
        if Chosen(w, before, pi, r) { assert r == ri; }
      } else {
        assert !Chosen(w, before, pi, r);
      }
    }
  }

  // ---------------------------------------------------------------- when raw indices increase

  ghost predicate RawIncreases(ms: seq<Match>) { forall i, j :: 0 <= i < j < |ms| ==> ms[i].raw < ms[j].raw }

  /** Published window `pi`, read while locked, is best matched at or before the previous match: a raw
      window there is similar enough and no window of the band is more similar. */
  ghost predicate StepsBack(w: Windows, before: seq<Match>, pi: nat)
    requires pi < |w.pubHasWords|
  {
    && w.pubHasWords[pi] && before != [] && Locked(w, before, pi)
    && exists r: nat :: BestAtOrBefore(w, before, pi, r)
  }

  ghost predicate BestAtOrBefore(w: Windows, before: seq<Match>, pi: nat, r: nat)
    requires pi < |w.pubHasWords| && before != []
  {
    && BandStart(w, before, pi) <= r <= before[|before|-1].raw && r < BandEnd(w, before, pi)
    && w.cos(pi, r) >= 0.18
    && forall q: nat :: BandStart(w, before, pi) <= q < BandEnd(w, before, pi) ==> w.cos(pi, q) <= w.cos(pi, r)
  }

  /** A window adds a match that does not increase the raw index exactly when it steps back. */
  lemma StepsBackExactly(w: Windows, before: seq<Match>, pi: nat, after: seq<Match>)
    requires pi < |w.pubHasWords| && Decided(w, before, pi, after)
    ensures StepsBack(w, before, pi) <==>
      before != [] && |after| == |before| + 1 && after[|before|].raw <= before[|before|-1].raw
  {
    if !w.pubHasWords[pi] || before == [] { return; }
    var ri: int :| DecidedBy(w, before, pi, after, ri);
    if StepsBack(w, before, pi) {
      var r: nat :| BestAtOrBefore(w, before, pi, r);
      assert ri >= 0;
      assert w.cos(pi, ri) == w.cos(pi, r);
    } else if ri >= 0 && ri <= before[|before|-1].raw && w.cos(pi, ri) >= 0.18 {
      assert BestAtOrBefore(w, before, pi, ri);
    }
  }

  /** Raw indices increase over a run exactly when none of its windows steps back. */
  lemma {:induction false} RawIncreasesExactly(w: Windows, history: seq<seq<Match>>, n: nat)
    requires IsRun(w, history) && n < |history|
    ensures RawIncreases(history[n]) <==> forall k :: 0 <= k < n ==> !StepsBack(w, history[k], k)
  {
    if n == 0 {
    } else {
      RawIncreasesExactly(w, history, n-1);
      HistoryGrows(w, history, n, n-1);
      var before, after := history[n-1], history[n];
      assert Decided(w, before, n-1, after);
      StepsBackExactly(w, before, n-1, after);
      hide IsRun, StepsBack, Decided;
      IncreasesByOne(before, after);
    }
  }

  lemma IncreasesByOne(before: seq<Match>, after: seq<Match>)
    requires |before| <= |after| <= |before| + 1 && after[..|before|] == before
    ensures RawIncreases(after) <==>
      RawIncreases(before) && (before != [] && |after| == |before| + 1 ==> before[|before|-1].raw < after[|before|].raw)
  {
    forall i | 0 <= i < |before| ensures after[i] == before[i] { assert after[..|before|][i] == before[i]; }
  }

  /** No two published windows are similar to the same raw window, or in the wrong order to neighbours. */
  ghost predicate NothingCrosses(w: Windows) {
    forall pi: nat, pj: nat, r: nat, q: nat ::
      pi < pj < |w.pubHasWords| && r < w.rawCount && r - 1 <= q <= r && w.cos(pi, r) >= 0.18 ==>
        w.cos(pj, q) < 0.18
  }

  /** Then raw indices increase in every run. */
  lemma {:induction false} RawIncreasesWhenNothingCrosses(w: Windows, history: seq<seq<Match>>, n: nat)
    requires IsRun(w, history) && n < |history| && NothingCrosses(w)
    ensures RawIncreases(history[n])
  {
    forall k | 0 <= k < n ensures !StepsBack(w, history[k], k) {
      RunSteps(w, history, k);
      var before := history[k];
      if before != [] {
        var last := before[|before|-1];
        assert last in before;
        forall r: nat ensures !BestAtOrBefore(w, before, k, r) {
          if last.raw - 1 <= r <= last.raw { assert w.cos(last.pub, last.raw) >= 0.18; }
        }
      }
    }
    RawIncreasesExactly(w, history, n);
  }

  /** Two windows with words, each similar only to the other's counterpart. */
  function Crossed(pub: nat, raw: nat): real { if pub + raw == 1 then 1.0 else 0.0 }

  /** The matcher is not monotonic, whatever its description says: told in the other order, a topic of
      its own per window, and the empty window both transcripts end with. */
  lemma MatcherMayStepBack()
    ensures var w := Windows(3, [true, true, false], Crossed);
      var first, both := [Match(0, 1, 1.0)], [Match(0, 1, 1.0), Match(1, 0, 1.0)];
      IsRun(w, [[], first, both, both]) && !RawIncreases(both)
  {
    var w := Windows(3, [true, true, false], Crossed);
    var first, both := [Match(0, 1, 1.0)], [Match(0, 1, 1.0), Match(1, 0, 1.0)];
    assert DecidedBy(w, [], 0, first, 1);
    assert Decided(w, [], 0, first);
    assert Misses(w, first[0].pub, 1) == 0;
    assert Locked(w, first, 1) && Frontier(first) == 2;
    assert DecidedBy(w, first, 1, both, 0);
    assert Decided(w, first, 1, both);
    assert Decided(w, both, 2, both);
    var history := [[], first, both, both];
    assert history[0] == [] && history[1] == first && history[2] == both && history[3] == both;
    assert both[1].raw < both[0].raw;
  }
}
