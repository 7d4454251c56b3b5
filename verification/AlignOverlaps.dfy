/** When the keeps and the cuts of the transcript aligner overlap (tools/taste-corpus/align.py). */
module AlignOverlaps {
  import opened AlignMatch
  import opened AlignSegments

  // ---------------------------------------------------------------- cuts inside keeps

  /** The gap lies between the two matches of a step. */
  predicate StepsOver(a: Match, b: Match, gap: Gap) { a.raw < gap.start && gap.end <= b.raw }

  /** Keeps and cuts can overlap: a cut meets a keep run's stretch exactly when it lies between two linked
      matches of the run, whose step then leaves out at least 45 s. */
  lemma CutsInsideRuns(matches: seq<Match>, run: seq<Match>, rawWindows: nat, windowS: real, gap: Gap)
    requires run != [] && Chain(run) && windowS > 0.0 && forall m :: m in run ==> m in matches
    requires MaximalGap(matches, rawWindows, gap.start, gap.end) && LongEnough(gap.start, gap.end, windowS)
    ensures gap.start <= run[|run|-1].raw && run[0].raw < gap.end <==>
      exists i :: 0 <= i < |run| - 1 && StepsOver(run[i], run[i+1], gap)
    ensures forall i :: 0 <= i < |run| - 1 && StepsOver(run[i], run[i+1], gap) ==>
      LongEnough(run[i].raw + 1, run[i+1].raw, windowS)
  {
    hide CoveredBy, Linked, Chain;
    if gap.start <= run[|run|-1].raw && run[0].raw < gap.end {
      var i := StepAcross(matches, run, gap, |run| - 1);
      assert StepsOver(run[i], run[i+1], gap);
    } else {
      NotSteppedOver(run, gap);
    }
    forall i | 0 <= i < |run| - 1 && StepsOver(run[i], run[i+1], gap)
      ensures LongEnough(run[i].raw + 1, run[i+1].raw, windowS)
    {
      LongerIsLonger(gap.end - gap.start, run[i+1].raw - run[i].raw - 1, windowS);
    }
  }

  /** A gap outside a run's stretch lies between no two of its matches. */
  lemma NotSteppedOver(run: seq<Match>, gap: Gap)
    requires run != [] && Chain(run) && gap.start < gap.end
    requires run[|run|-1].raw < gap.start || gap.end <= run[0].raw
    ensures forall i :: 0 <= i < |run| - 1 ==> !StepsOver(run[i], run[i+1], gap)
  {
    forall i | 0 <= i < |run| - 1 ensures !StepsOver(run[i], run[i+1], gap) {
      ChainIncreases(run, 0, i);
      ChainIncreases(run, i + 1, |run| - 1);
    }
  }

  lemma {:induction false} ChainIncreases(run: seq<Match>, i: nat, j: nat)
    requires Chain(run) && i <= j < |run|
    ensures run[i].raw <= run[j].raw
    decreases j - i
  {
    if i == j {
    } else {
      ChainIncreases(run, i, j - 1);
      assert Linked(run[j-1], run[j]);
    }
  }

  lemma LongerIsLonger(m: int, n: int, windowS: real)
    requires m <= n && windowS > 0.0
    ensures m as real * windowS <= n as real * windowS
  {
    assert (n - m) as real * windowS >= 0.0;
  }

  /** The step of the run that leads over the gap. */
  lemma {:induction false} StepAcross(matches: seq<Match>, run: seq<Match>, gap: Gap, n: nat) returns (i: nat)
    requires n < |run| && Chain(run) && forall m :: m in run ==> m in matches
    requires gap.start < gap.end && forall w: nat :: gap.start <= w < gap.end ==> !CoveredBy(matches, w)
    requires run[0].raw < gap.end && gap.start <= run[n].raw
    ensures i < n && run[i].raw < gap.start && gap.end <= run[i+1].raw
  {
    forall k | 0 <= k < |run| ensures run[k].raw < gap.start || gap.end <= run[k].raw {
      assert run[k] in run;
      assert CoveredBy(matches, run[k].raw);
    }
    if run[n-1].raw < gap.start {
      i := n - 1;
    } else {
      i := StepAcross(matches, run, gap, n - 1);
    }
  }

  /** The windows between the two matches are a long unmatched stretch. */
  ghost predicate LongStep(matches: seq<Match>, a: Match, b: Match, windowS: real) {
    && a.raw + 1 < b.raw && LongEnough(a.raw + 1, b.raw, windowS)
    && forall w: nat :: a.raw < w < b.raw ==> !CoveredBy(matches, w)
  }

  /** Such a step gives such a cut. */
  lemma LongStepsAreCut(matches: seq<Match>, a: Match, b: Match, rawWindows: nat, windowS: real)
    requires a in matches && b in matches && LongStep(matches, a, b, windowS) && b.raw < rawWindows
    ensures MaximalGap(matches, rawWindows, a.raw + 1, b.raw) && StepsOver(a, b, Gap(a.raw + 1, b.raw))
  {
    assert CoveredBy(matches, a.raw) && CoveredBy(matches, b.raw);
  }

  // ---------------------------------------------------------------- neighbours in runs and in the list

  lemma {:induction false} RunStepIsStep(runs: seq<seq<Match>>, k: nat, j: nat) returns (i: nat)
    requires k < |runs| && j + 1 < |runs[k]|
    ensures i + 1 < |Concat(runs)| && Concat(runs)[i] == runs[k][j] && Concat(runs)[i+1] == runs[k][j+1]
    decreases |runs|
  {
    var n := |runs| - 1;
    if k == n {
      i := |Concat(runs[..n])| + j;
    } else {
      i := RunStepIsStep(runs[..n], k, j);
    }
  }

  lemma {:induction false} ConcatLast(runs: seq<seq<Match>>)
    requires runs != [] && runs[|runs|-1] != []
    ensures var all, last := Concat(runs), runs[|runs|-1]; all != [] && all[|all|-1] == last[|last|-1]
  {
    var n := |runs| - 1;
    assert Concat(runs) == Concat(runs[..n]) + runs[n];
  }

  /** Two linked neighbours are neighbours in one run. */
  lemma {:induction false} LinkedStepIsInRun(runs: seq<seq<Match>>, matches: seq<Match>, i: nat)
    returns (k: nat, j: nat)
    requires AreKeepRuns(runs, matches) && i + 1 < |matches| && Linked(matches[i], matches[i+1])
    ensures k < |runs| && j + 1 < |runs[k]| && runs[k][j] == matches[i] && runs[k][j+1] == matches[i+1]
    decreases |runs|
  {
    hide Linked, Chain;
    var n := |runs| - 1;
    var front := runs[..n];
    var size := |Concat(front)|;
    assert matches == Concat(front) + runs[n];
    assert front != [] ==> !Linked(front[n-1][|front[n-1]|-1], runs[n][0]);
    if front != [] { ConcatLast(front); }
    if i + 1 < size {
      k, j := LinkedStepIsInRun(front, Concat(front), i);
    } else if i >= size {
      k, j := n, i - size;
    } else {
      assert false;
    }
  }

  // ---------------------------------------------------------------- the whole result

  /** The matches `i` and `i + 1` are linked and the gap lies between them. */
  predicate LinkedOver(matches: seq<Match>, i: nat, gap: Gap)
    requires i + 1 < |matches|
  {
    Linked(matches[i], matches[i+1]) && StepsOver(matches[i], matches[i+1], gap)
  }

  ghost predicate NoLongGapBetweenLinked(matches: seq<Match>, gaps: seq<Gap>) {
    forall i: nat, gap :: i + 1 < |matches| && gap in gaps ==> !LinkedOver(matches, i, gap)
  }

  predicate MissesGap(run: seq<Match>, gap: Gap)
    requires run != []
  {
    run[|run|-1].raw < gap.start || gap.end <= run[0].raw
  }

  ghost predicate RunsMissGaps(runs: seq<seq<Match>>, gaps: seq<Gap>)
    requires forall i :: 0 <= i < |runs| ==> runs[i] != []
  {
    forall i, gap :: 0 <= i < |runs| && gap in gaps ==> MissesGap(runs[i], gap)
  }

  lemma {:induction false} RunsAreMatches(runs: seq<seq<Match>>, run: seq<Match>)
    requires run in runs
    ensures forall m :: m in run ==> m in Concat(runs)
    decreases |runs|
  {
    var n := |runs| - 1;
    if run != runs[n] {
      assert run in runs[..n];
      RunsAreMatches(runs[..n], run);
    }
  }

  /** No run meets a gap exactly when no gap lies between two linked neighbours. */
  lemma RunsMissGapsExactly(runs: seq<seq<Match>>, gaps: seq<Gap>, matches: seq<Match>, rawWindows: nat, windowS: real)
    requires windowS > 0.0 && AreKeepRuns(runs, matches) && AreLongGaps(gaps, matches, rawWindows, windowS)
    ensures RunsMissGaps(runs, gaps) <==> NoLongGapBetweenLinked(matches, gaps)
  {
    hide MaximalGap, LongEnough, StepsOver, Linked;
    forall k, gap | 0 <= k < |runs| && gap in gaps
      ensures MissesGap(runs[k], gap) <==>
        forall j :: 0 <= j < |runs[k]| - 1 ==> !StepsOver(runs[k][j], runs[k][j+1], gap)
    {
      RunsAreMatches(runs, runs[k]);
      assert Gap(gap.start, gap.end) in gaps;
      CutsInsideRuns(matches, runs[k], rawWindows, windowS, gap);
    }
    if RunsMissGaps(runs, gaps) {
      forall i: nat, gap | i + 1 < |matches| && gap in gaps ensures !LinkedOver(matches, i, gap) {
        if Linked(matches[i], matches[i+1]) {
          var k, j := LinkedStepIsInRun(runs, matches, i);
          assert MissesGap(runs[k], gap);
        }
      }
    }
    if NoLongGapBetweenLinked(matches, gaps) {
      forall k, gap | 0 <= k < |runs| && gap in gaps ensures MissesGap(runs[k], gap) {
        StepsOfRunMiss(runs, matches, gaps, k, gap);
      }
    }
  }

  lemma StepsOfRunMiss(runs: seq<seq<Match>>, matches: seq<Match>, gaps: seq<Gap>, k: nat, gap: Gap)
    requires AreKeepRuns(runs, matches) && NoLongGapBetweenLinked(matches, gaps) && k < |runs| && gap in gaps
    ensures forall j :: 0 <= j < |runs[k]| - 1 ==> !StepsOver(runs[k][j], runs[k][j+1], gap)
  {
    hide StepsOver, Linked;
    forall j | 0 <= j < |runs[k]| - 1 ensures !StepsOver(runs[k][j], runs[k][j+1], gap) {
      var i := RunStepIsStep(runs, k, j);
      assert !LinkedOver(matches, i, gap);
    }
  }

  predicate Apart(k: Segment, c: Segment) { k.rawEnd <= c.rawStart || c.rawEnd <= k.rawStart }

  /** Every keep ends before each cut or starts after it. */
  ghost predicate KeepsAndCutsApart(segments: seq<Segment>) {
    forall k, c :: k in segments && c in segments && k.Keep? && c.Cut? ==> Apart(k, c)
  }

  ghost predicate AllApart(keeps: seq<Segment>, cuts: seq<Segment>) {
    forall k, c :: k in keeps && c in cuts ==> Apart(k, c)
  }

  lemma ApartByKind(segments: seq<Segment>, keeps: seq<Segment>, cuts: seq<Segment>)
    requires multiset(segments) == multiset(keeps + cuts)
    requires (forall k :: k in keeps ==> k.Keep?) && forall c :: c in cuts ==> c.Cut?
    ensures KeepsAndCutsApart(segments) <==> AllApart(keeps, cuts)
  {
    hide Apart;
    forall s ensures s in segments <==> s in keeps || s in cuts {
      assert s in segments <==> s in multiset(segments);
      assert s in keeps + cuts <==> s in multiset(keeps + cuts);
    }
  }

  /** In seconds as in windows. */
  lemma ApartInSeconds(run: seq<Match>, gap: Gap, matches: seq<Match>, k: Segment, c: Segment, windowS: real,
                       speedTrust: real)
    requires windowS > 0.0 && matches != [] && IsKeepSegment(k, run, windowS, speedTrust)
    requires IsCutSegment(c, gap, matches, windowS)
    ensures Apart(k, c) <==> MissesGap(run, gap)
  {
    hide RoundedTo, TotalSim, ScopeOf;
    ScaledOrder(run[|run|-1].raw + 1, gap.start, windowS);
    ScaledOrder(gap.end, run[0].raw, windowS);
  }

  lemma ScaledOrder(m: int, n: int, windowS: real)
    requires windowS > 0.0
    ensures m as real * windowS <= n as real * windowS <==> m <= n
  {
    if m <= n { LongerIsLonger(m, n, windowS); }
    else { assert (m - n) as real * windowS > 0.0; }
  }

  /** What the aligner returns has its keeps and cuts apart exactly when no long gap lies between two
      consecutive linked matches. */
  lemma KeepsAndCutsApartExactly(segments: seq<Segment>, runs: seq<seq<Match>>, gaps: seq<Gap>, matches: seq<Match>,
                                 rawWindows: nat, windowS: real, speedTrust: real)
    requires windowS > 0.0 && matches != []
    requires AreKeepRuns(runs, matches) && AreLongGaps(gaps, matches, rawWindows, windowS)
    ensures AreSegmentsOf(segments, runs, gaps, matches, windowS, speedTrust) ==>
      (KeepsAndCutsApart(segments) <==> NoLongGapBetweenLinked(matches, gaps))
  {
    hide Chain, Linked, AreLongGaps, IsKeepSegment, IsCutSegment, NoLongGapBetweenLinked, KeepsAndCutsApart, AllApart;
    RunsMissGapsExactly(runs, gaps, matches, rawWindows, windowS);
    if AreSegmentsOf(segments, runs, gaps, matches, windowS, speedTrust) {
      var keeps, cuts :| KeepsAre(keeps, runs, windowS, speedTrust) && CutsAre(cuts, gaps, matches, windowS)
        && multiset(segments) == multiset(keeps + cuts);
      KindsOf(keeps, cuts, runs, gaps, matches, windowS, speedTrust);
      ApartByKind(segments, keeps, cuts);
      AllApartExactly(keeps, cuts, runs, gaps, matches, windowS, speedTrust);
    }
  }

  lemma KindsOf(keeps: seq<Segment>, cuts: seq<Segment>, runs: seq<seq<Match>>, gaps: seq<Gap>, matches: seq<Match>,
                windowS: real, speedTrust: real)
    requires matches != [] && KeepsAre(keeps, runs, windowS, speedTrust) && CutsAre(cuts, gaps, matches, windowS)
    ensures (forall k :: k in keeps ==> k.Keep?) && forall c :: c in cuts ==> c.Cut?
  {
    hide RoundedTo, TotalSim, ScopeOf;
    forall k | k in keeps ensures k.Keep? {
      var i :| 0 <= i < |keeps| && keeps[i] == k;
      assert IsKeepSegment(keeps[i], runs[i], windowS, speedTrust);
    }
    forall c | c in cuts ensures c.Cut? {
      var i :| 0 <= i < |cuts| && cuts[i] == c;
      assert IsCutSegment(cuts[i], gaps[i], matches, windowS);
    }
  }

  lemma AllApartExactly(keeps: seq<Segment>, cuts: seq<Segment>, runs: seq<seq<Match>>, gaps: seq<Gap>,
                        matches: seq<Match>, windowS: real, speedTrust: real)
    requires windowS > 0.0 && matches != []
    requires KeepsAre(keeps, runs, windowS, speedTrust) && CutsAre(cuts, gaps, matches, windowS)
    requires forall i :: 0 <= i < |runs| ==> runs[i] != []
    ensures AllApart(keeps, cuts) <==> RunsMissGaps(runs, gaps)
  {
    hide Apart, MissesGap, IsKeepSegment, IsCutSegment;
    forall i, j | 0 <= i < |runs| && 0 <= j < |gaps|
      ensures Apart(keeps[i], cuts[j]) <==> MissesGap(runs[i], gaps[j])
    {
      assert IsKeepSegment(keeps[i], runs[i], windowS, speedTrust) && IsCutSegment(cuts[j], gaps[j], matches, windowS);
      ApartInSeconds(runs[i], gaps[j], matches, keeps[i], cuts[j], windowS, speedTrust);
    }
    if AllApart(keeps, cuts) {
      forall i, gap | 0 <= i < |runs| && gap in gaps ensures MissesGap(runs[i], gap) {
        var j :| 0 <= j < |gaps| && gaps[j] == gap;
        assert keeps[i] in keeps && cuts[j] in cuts;
      }
    } else if RunsMissGaps(runs, gaps) {
      forall k, c | k in keeps && c in cuts ensures Apart(k, c) {
        var i :| 0 <= i < |keeps| && keeps[i] == k;
        var j :| 0 <= j < |cuts| && cuts[j] == c;
        assert gaps[j] in gaps;
      }
    }
  }

  // ---------------------------------------------------------------- an alignment with an overlap

  /** The first two published windows are each similar to one raw window, eight apart. */
  function EightApart(pub: nat, raw: nat): real { if pub < 2 && raw == 8 * pub then 1.0 else 0.0 }

  const JUMP := [Match(0, 0, 1.0), Match(1, 8, 1.0)]

  /** At windows of 15 s, with ten raw and three published windows of which the last hold no words, the matcher
      finds two matches; they make one keep from 0 to 135 s, and 15 to 120 s of it are cut. */
  lemma KeepsAndCutsOverlap()
    ensures AreMatches(Windows(10, [true, true, false], EightApart), JUMP)
    ensures Chain(JUMP) && RawLength(JUMP, 15.0) == 135.0
    ensures MaximalGap(JUMP, 10, 1, 8) && LongEnough(1, 8, 15.0) && LinkedOver(JUMP, 0, Gap(1, 8))
  {
    assert JUMP[0] in JUMP && JUMP[1] in JUMP;
    assert CoveredBy(JUMP, 0) && CoveredBy(JUMP, 8);
    JumpIsMatched();
  }

  lemma JumpIsMatched()
    ensures AreMatches(Windows(10, [true, true, false], EightApart), JUMP)
  {
    var w, first := Windows(10, [true, true, false], EightApart), [JUMP[0]];
    assert DecidedBy(w, [], 0, first, 0);
    assert Misses(w, first[0].pub, 1) == 0;
    assert Locked(w, first, 1) && Frontier(first) == 1;
    assert JUMP == first + [JUMP[1]];
    assert DecidedBy(w, first, 1, JUMP, 8);
    var history := [[], first, JUMP, JUMP];
    assert Decided(w, history[0], 0, history[1]) && Decided(w, history[1], 1, history[2]);
    assert Decided(w, history[2], 2, history[3]);
    assert IsRun(w, history);
  }
}
