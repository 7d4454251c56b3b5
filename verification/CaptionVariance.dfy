/** Pixel variance inside and around a caption box, and the occlusion verdict
    (crates/core/src/caption_rendered_output_scorer.rs). Divisions are exact. */
module CaptionVariance {
  import opened Numbers
  import opened Sequences

  const U32_LIMIT := 0x1_0000_0000
  const HALO: nat := 8

  type Luma = v: int | 0 <= v < 256

  datatype Frame = Frame(width: nat, height: nat, luma: seq<Luma>)
  {
    /** One byte per pixel, and every pixel index fits the 32-bit index arithmetic. */
    predicate Valid() { |luma| == width * height && width * height <= U32_LIMIT }
  }

  datatype Rect = Rect(x: nat, y: nat, w: nat, h: nat)
  {
    /** The box arithmetic, halo included, stays within 32 bits. */
    predicate FitsU32() {
      && x + w < U32_LIMIT && y + h < U32_LIMIT
      && w + 2 * HALO < U32_LIMIT && h + 2 * HALO < U32_LIMIT
    }

    predicate Has(p: Pixel) { x <= p.x < x + w && y <= p.y < y + h }
  }

  datatype Pixel = Pixel(x: nat, y: nat)

  function SaturatingSub(a: nat, b: nat): nat { if a < b then 0 else a - b }

  function ClampRect(r: Rect, width: nat, height: nat): Rect {
    var x, y := MinNat(r.x, width), MinNat(r.y, height);
    Rect(x, y, MinNat(r.w, SaturatingSub(width, x)), MinNat(r.h, SaturatingSub(height, y)))
  }

  /** Clamping cuts a box down to its pixels that are in the frame. */
  lemma ClampIsIntersection(r: Rect, width: nat, height: nat, p: Pixel)
    ensures ClampRect(r, width, height).Has(p) <==> r.Has(p) && p.x < width && p.y < height
  {}

  // ---------------------------------------------------------------- sums and variance

  function Sum(vs: seq<Luma>): int { if vs == [] then 0 else Sum(vs[..|vs|-1]) + vs[|vs|-1] }

  function SumSq(vs: seq<Luma>): int { if vs == [] then 0 else SumSq(vs[..|vs|-1]) + Squared(vs[|vs|-1]) }

  function Squared(v: int): int { v * v }

  function Mean(vs: seq<Luma>): real
    requires vs != []
  {
    Sum(vs) as real / |vs| as real
  }

  function SquaredDeviations(vs: seq<Luma>, mean: real): real {
    if vs == [] then 0.0
    else
      var d := vs[|vs|-1] as real - mean;
      SquaredDeviations(vs[..|vs|-1], mean) + d * d
  }

  /** Population variance: the mean squared distance from the mean. */
  function Variance(vs: seq<Luma>): real {
    if vs == [] then 0.0 else SquaredDeviations(vs, Mean(vs)) / |vs| as real
  }

  function Expanded(sq: real, sum: real, n: real, m: real): real { sq - 2.0 * m * sum + n * m * m }

  lemma ExpandStep(sq: real, sum: real, n: real, v: real, m: real)
    ensures Expanded(sq, sum, n, m) + (v - m) * (v - m) == Expanded(sq + v * v, sum + v, n + 1.0, m)
  {}

  lemma SquaredAsReal(v: int)
    ensures Squared(v) as real == v as real * v as real
  {}

  lemma {:induction false} DeviationsExpand(vs: seq<Luma>, m: real)
    ensures SquaredDeviations(vs, m) == Expanded(SumSq(vs) as real, Sum(vs) as real, |vs| as real, m)
  {
    if vs == [] {
    } else {
      var front, v := vs[..|vs|-1], vs[|vs|-1] as real;
      DeviationsExpand(front, m);
      ExpandStep(SumSq(front) as real, Sum(front) as real, |front| as real, v, m);
      SquaredAsReal(vs[|vs|-1]);
      hide Expanded, Squared;
      assert |vs| as real == |front| as real + 1.0;
    }
  }

  lemma DivideOut(sq: real, sum: real, m: real, n: real)
    requires n > 0.0 && m == sum / n
    ensures Expanded(sq, sum, n, m) / n == sq / n - m * m
  {
    var q := sq / n;
    assert q * n == sq && m * n == sum;
    assert Expanded(sq, sum, n, m) == (q - m * m) * n;
  }

  /** The one-pass formula the scorer uses is the population variance. */
  lemma OnePassIsVariance(vs: seq<Luma>)
    requires vs != []
    ensures SumSq(vs) as real / |vs| as real - Mean(vs) * Mean(vs) == Variance(vs)
  {
    hide Expanded, SquaredDeviations, Sum, SumSq;
    DeviationsExpand(vs, Mean(vs));
    DivideOut(SumSq(vs) as real, Sum(vs) as real, Mean(vs), |vs| as real);
  }

  lemma {:induction false} SumBounds(vs: seq<Luma>)
    ensures SumSq(vs) <= 255 * Sum(vs)
  {
    if vs == [] {
    } else {
      hide Squared;
      SumBounds(vs[..|vs|-1]);
      SquareBound(vs[|vs|-1]);
    }
  }

  lemma SquareBound(v: int)
    requires 0 <= v <= 255
    ensures Squared(v) <= 255 * v
  {
    assert (255 - v) * v >= 0;
  }

  lemma {:induction false} DeviationsNonNegative(vs: seq<Luma>, m: real)
    ensures SquaredDeviations(vs, m) >= 0.0
  {
    if vs == [] {
    } else {
      DeviationsNonNegative(vs[..|vs|-1], m);
      SquareNonNegative(vs[|vs|-1] as real - m);
    }
  }

  lemma SquareNonNegative(x: real)
    ensures x * x >= 0.0
  {}

  lemma BhatiaDavis(sq: real, sum: real, n: real, m: real)
    requires n > 0.0 && sq <= 255.0 * sum && m == sum / n
    ensures sq / n - m * m <= 255.0 * 255.0 / 4.0
  {
    var q := sq / n;
    assert q * n == sq && m * n == sum;
    assert (255.0 * m - q) * n >= 0.0;
    NonNegativeFactor(255.0 * m - q, n);
    SquareNonNegative(m - 127.5);
  }

  lemma NonNegativeFactor(a: real, n: real)
    requires n > 0.0 && a * n >= 0.0
    ensures a >= 0.0
  {
    assert a < 0.0 ==> a * n < 0.0;
  }

  /** Any variance of pixel values lies between 0 and the square of half the pixel range. */
  lemma VarianceBounds(vs: seq<Luma>)
    ensures 0.0 <= Variance(vs) <= 255.0 * 255.0 / 4.0
  {
    hide SquaredDeviations, Sum, SumSq;
    if vs != [] {
      DeviationsNonNegative(vs, Mean(vs));
      NonNegativeQuotient(SquaredDeviations(vs, Mean(vs)), |vs| as real);
      OnePassIsVariance(vs);
      SumBounds(vs);
      BhatiaDavis(SumSq(vs) as real, Sum(vs) as real, |vs| as real, Mean(vs));
    }
  }

  lemma NonNegativeQuotient(a: real, n: real)
    requires n > 0.0 && a >= 0.0
    ensures a / n >= 0.0
  {
    assert (a / n) * n == a;
    NonNegativeFactor(a / n, n);
  }

  lemma {:induction false} FlatDeviations(vs: seq<Luma>, v: Luma)
    requires forall i :: 0 <= i < |vs| ==> vs[i] == v
    ensures Sum(vs) == |vs| * v && SquaredDeviations(vs, v as real) == 0.0
  {
    if vs == [] {
    } else {
      FlatDeviations(vs[..|vs|-1], v);
      assert |vs| * v == (|vs| - 1) * v + v;
    }
  }

  /** Pixels of one value have no variance. */
  lemma FlatIsZero(vs: seq<Luma>, v: Luma)
    requires forall i :: 0 <= i < |vs| ==> vs[i] == v
    ensures Variance(vs) == 0.0
  {
    if vs != [] {
      FlatDeviations(vs, v);
      FlatMean(|vs|, v);
    }
  }

  lemma FlatMean(n: nat, v: int)
    requires n > 0
    ensures (n * v) as real / n as real == v as real
  {
    assert (n * v) as real == v as real * n as real;
  }

  // ---------------------------------------------------------------- scanning a region

  lemma IndexInBounds(width: nat, height: nat, x: nat, y: nat)
    requires x < width && y < height
    ensures y * width + x < width * height
  {
    var below := height - y - 1;
    assert below * width >= 0;
    assert width * height == (y + 1 + below) * width == y * width + width + below * width;
  }

  function At(frame: Frame, p: Pixel): Luma
    requires frame.Valid() && p.x < frame.width && p.y < frame.height
  {
    IndexInBounds(frame.width, frame.height, p.x, p.y);
    frame.luma[p.y * frame.width + p.x]
  }

  /** The pixels of the first `n` columns of row `y` of a box that `skip` does not contain. */
  function RowPixels(r: Rect, y: nat, n: nat, skip: Rect): seq<Pixel> {
    if n == 0 then []
    else RowPixels(r, y, n-1, skip) + (if skip.Has(Pixel(r.x + n - 1, y)) then [] else [Pixel(r.x + n - 1, y)])
  }

  /** The pixels of the first `rows` rows, row by row. */
  function BoxPixels(r: Rect, rows: nat, skip: Rect): seq<Pixel> {
    if rows == 0 then [] else BoxPixels(r, rows-1, skip) + RowPixels(r, r.y + rows - 1, r.w, skip)
  }

  const NOTHING := Rect(0, 0, 0, 0)

  ghost predicate Distinct(ps: seq<Pixel>) { forall i, j :: 0 <= i < j < |ps| ==> ps[i] != ps[j] }

  lemma {:induction false} RowPixelsExact(r: Rect, y: nat, n: nat, skip: Rect)
    ensures Distinct(RowPixels(r, y, n, skip))
    ensures forall p :: p in RowPixels(r, y, n, skip) <==> p.y == y && r.x <= p.x < r.x + n && !skip.Has(p)
  {
    if n == 0 {
    } else {
      RowPixelsExact(r, y, n-1, skip);
    }
  }

  /** The scan visits each pixel of the box outside `skip` exactly once. */
  lemma {:induction false} BoxPixelsExact(r: Rect, rows: nat, skip: Rect)
    requires rows <= r.h
    ensures Distinct(BoxPixels(r, rows, skip))
    ensures forall p :: p in BoxPixels(r, rows, skip) <==> r.Has(p) && p.y < r.y + rows && !skip.Has(p)
  {
    if rows == 0 {
    } else {
      BoxPixelsExact(r, rows-1, skip);
      RowPixelsExact(r, r.y + rows - 1, r.w, skip);
    }
  }

  ghost predicate InFrame(frame: Frame, ps: seq<Pixel>) {
    forall p :: p in ps ==> p.x < frame.width && p.y < frame.height
  }

  ghost function Values(frame: Frame, ps: seq<Pixel>): seq<Luma>
    requires frame.Valid() && InFrame(frame, ps)
  {
    seq(|ps|, i requires 0 <= i < |ps| => At(frame, ps[i]))
  }

  // ---------------------------------------------------------------- the scorer's two scans

  /** What a scan has accumulated; `values` are the pixel values seen. */
  datatype Tally = Tally(sum: int, sumSq: int, count: nat)

  /** The tally is that of the values, and these are the frame's values of the pixels. */
  ghost predicate Tallies(frame: Frame, seen: seq<Pixel>, t: Tally)
    requires frame.Valid()
  {
    InFrame(frame, seen) && t == Tally(Sum(Values(frame, seen)), SumSq(Values(frame, seen)), |seen|)
  }

  /** Sum, sum of squares and number of the pixel values of a box outside `skip`. */
  method Scan(frame: Frame, r: Rect, skip: Rect) returns (tally: Tally)
    requires frame.Valid() && r.x + r.w <= frame.width && r.y + r.h <= frame.height
    ensures Tallies(frame, BoxPixels(r, r.h, skip), tally)
  {
    tally := Tally(0, 0, 0);
    NothingTallied(frame);
    VisitedStart(r, skip);
    hide Tallies, Visited, Frame.Valid, BoxPixels, RowPixels;
    for row := 0 to r.h
      invariant Tallies(frame, Visited(r, row, 0, skip), tally)
    {
      tally := ScanRow(frame, r, row, skip, tally);
      VisitedRow(r, row, skip);
    }
    VisitedEnd(r, skip);
  }

  /** The inner loop: one row of the box, column by column. */
  method ScanRow(frame: Frame, r: Rect, row: nat, skip: Rect, before: Tally) returns (tally: Tally)
    requires frame.Valid() && r.x + r.w <= frame.width && row < r.h && r.y + r.h <= frame.height
    requires Tallies(frame, Visited(r, row, 0, skip), before)
    ensures Tallies(frame, Visited(r, row, r.w, skip), tally)
  {
    hide Tallies, Visited, Frame.Valid, At, Squared;
    tally := before;
    for column := 0 to r.w
      invariant Tallies(frame, Visited(r, row, column, skip), tally)
    {
      var p := Pixel(r.x + column, r.y + row);
      VisitedStep(r, row, column, skip);
      if skip.Has(p) { continue; }
      var v := At(frame, p);
      TallyStep(frame, Visited(r, row, column, skip), tally, p);
      tally := Tally(tally.sum + v, tally.sumSq + Squared(v), tally.count + 1);
    }
  }

  /** The pixels the scan has visited after `rows` rows and `n` columns of the next. */
  function Visited(r: Rect, rows: nat, n: nat, skip: Rect): seq<Pixel> {
    BoxPixels(r, rows, skip) + RowPixels(r, r.y + rows, n, skip)
  }

  lemma VisitedStart(r: Rect, skip: Rect)
    ensures Visited(r, 0, 0, skip) == []
  {}

  lemma VisitedStep(r: Rect, rows: nat, n: nat, skip: Rect)
    ensures var p := Pixel(r.x + n, r.y + rows);
      Visited(r, rows, n + 1, skip)
      == if skip.Has(p) then Visited(r, rows, n, skip) else Visited(r, rows, n, skip) + [p]
  {}

  lemma VisitedRow(r: Rect, rows: nat, skip: Rect)
    ensures Visited(r, rows + 1, 0, skip) == Visited(r, rows, r.w, skip)
  {}

  lemma VisitedEnd(r: Rect, skip: Rect)
    ensures Visited(r, r.h, 0, skip) == BoxPixels(r, r.h, skip)
  {}

  lemma NothingTallied(frame: Frame)
    requires frame.Valid()
    ensures Tallies(frame, [], Tally(0, 0, 0))
  {}

  lemma TallyStep(frame: Frame, seen: seq<Pixel>, t: Tally, p: Pixel)
    requires frame.Valid() && Tallies(frame, seen, t) && p.x < frame.width && p.y < frame.height
    ensures var v := At(frame, p);
      Tallies(frame, seen + [p], Tally(t.sum + v, t.sumSq + Squared(v), t.count + 1))
  {
    AddValue(Values(frame, seen), At(frame, p));
    assert Values(frame, seen + [p]) == Values(frame, seen) + [At(frame, p)];
    hide At, Squared, Sum, SumSq;
  }

  lemma AddValue(values: seq<Luma>, v: Luma)
    ensures Sum(values + [v]) == Sum(values) + v && SumSq(values + [v]) == SumSq(values) + Squared(v)
  {
    assert (values + [v])[..|values|] == values;
  }

  /** The one-pass variance of what was scanned. */
  method OnePass(tally: Tally, ghost values: seq<Luma>) returns (variance: real)
    requires tally == Tally(Sum(values), SumSq(values), |values|)
    ensures variance == Variance(values)
  {
    if tally.count == 0 { return 0.0; }
    OnePassIsVariance(values);
    var mean := tally.sum as real / tally.count as real;
    return tally.sumSq as real / tally.count as real - mean * mean;
  }

  /** The values of the frame's pixels inside the box, and of those around it and not inside. */
  ghost function BoxValues(frame: Frame, rect: Rect): seq<Luma>
    requires frame.Valid()
  {
    var r := ClampRect(rect, frame.width, frame.height);
    BoxInFrame(frame, rect, NOTHING);
    Values(frame, BoxPixels(r, r.h, NOTHING))
  }

  function Outer(rect: Rect): Rect {
    Rect(SaturatingSub(rect.x, HALO), SaturatingSub(rect.y, HALO), rect.w + 2 * HALO, rect.h + 2 * HALO)
  }

  ghost function HaloValues(frame: Frame, rect: Rect): seq<Luma>
    requires frame.Valid()
  {
    var r := ClampRect(Outer(rect), frame.width, frame.height);
    BoxInFrame(frame, Outer(rect), rect);
    Values(frame, BoxPixels(r, r.h, rect))
  }

  lemma BoxInFrame(frame: Frame, rect: Rect, skip: Rect)
    ensures var r := ClampRect(rect, frame.width, frame.height); InFrame(frame, BoxPixels(r, r.h, skip))
  {
    var r := ClampRect(rect, frame.width, frame.height);
    BoxPixelsExact(r, r.h, skip);
  }

  method LumaVarianceInRect(frame: Frame, rect: Rect) returns (variance: real)
    requires frame.Valid()
    ensures variance == Variance(BoxValues(frame, rect))
  {
    var r := ClampRect(rect, frame.width, frame.height);
    if r.w == 0 || r.h == 0 {
      NoPixels(r, NOTHING);
      return 0.0;
    }
    var tally := Scan(frame, r, NOTHING);
    variance := OnePass(tally, BoxValues(frame, rect));
  }

  method LumaVarianceInHalo(frame: Frame, rect: Rect) returns (variance: real)
    requires frame.Valid() && rect.FitsU32()
    ensures variance == Variance(HaloValues(frame, rect))
  {
    var r := ClampRect(Outer(rect), frame.width, frame.height);
    if r.w == 0 || r.h == 0 {
      NoPixels(r, rect);
      return 0.0;
    }
    var tally := Scan(frame, r, rect);
    variance := OnePass(tally, HaloValues(frame, rect));
  }

  lemma {:induction false} NoPixels(r: Rect, skip: Rect)
    requires r.w == 0 || r.h == 0
    ensures BoxPixels(r, r.h, skip) == []
  {
    BoxPixelsExact(r, r.h, skip);
    if BoxPixels(r, r.h, skip) != [] { assert !r.Has(BoxPixels(r, r.h, skip)[0]); }
  }

  /** Both variances are over each pixel of their region exactly once: the box's part of the frame, and
      the part of the frame within the halo's width of the box but outside it. */
  lemma RegionsAreExact(frame: Frame, rect: Rect)
    ensures var r := ClampRect(rect, frame.width, frame.height);
      && Distinct(BoxPixels(r, r.h, NOTHING))
      && forall p :: p in BoxPixels(r, r.h, NOTHING) <==> rect.Has(p) && p.x < frame.width && p.y < frame.height
    ensures var o := ClampRect(Outer(rect), frame.width, frame.height);
      && Distinct(BoxPixels(o, o.h, rect))
      && forall p :: p in BoxPixels(o, o.h, rect) <==>
           p.x < frame.width && p.y < frame.height && !rect.Has(p)
           && rect.x <= p.x + 8 && (if rect.x < 8 then p.x < rect.w + 16 else p.x < rect.x + rect.w + 8)
           && rect.y <= p.y + 8 && (if rect.y < 8 then p.y < rect.h + 16 else p.y < rect.y + rect.h + 8)
  {
    var r, o := ClampRect(rect, frame.width, frame.height), ClampRect(Outer(rect), frame.width, frame.height);
    BoxPixelsExact(r, r.h, NOTHING);
    BoxPixelsExact(o, o.h, rect);
    forall p: Pixel ensures r.Has(p) <==> rect.Has(p) && p.x < frame.width && p.y < frame.height {
      ClampIsIntersection(rect, frame.width, frame.height, p);
    }
    forall p: Pixel ensures o.Has(p) <==> Outer(rect).Has(p) && p.x < frame.width && p.y < frame.height {
      ClampIsIntersection(Outer(rect), frame.width, frame.height, p);
    }
  }

  /** Pixels are stored row by row. */
  lemma StoredByRow(frame: Frame, p: Pixel)
    requires frame.Valid() && p.x < frame.width && p.y < frame.height
    ensures var i := p.y * frame.width + p.x; 0 <= i < |frame.luma| && At(frame, p) == frame.luma[i]
  {
    IndexInBounds(frame.width, frame.height, p.x, p.y);
  }

  /** The values are those of the frame's pixels that `region` holds of, each once. */
  ghost predicate AreValuesOf(frame: Frame, values: seq<Luma>, region: Pixel -> bool)
    requires frame.Valid()
  {
    exists ps: seq<Pixel> ::
      && Distinct(ps) && (forall p :: p in ps <==> p.x < frame.width && p.y < frame.height && region(p))
      && values == Values(frame, ps)
  }

  /** The pixels around a box: not in it, but within 8 of it on every side; a box nearer than that to the left or
      upper edge has its surroundings moved, not cut, so they reach 16 further than the box is wide or high. */
  ghost predicate Around(rect: Rect, p: Pixel) {
    && !(rect.x <= p.x < rect.x + rect.w && rect.y <= p.y < rect.y + rect.h)
    && rect.x <= p.x + 8 && (if rect.x < 8 then p.x < rect.w + 16 else p.x < rect.x + rect.w + 8)
    && rect.y <= p.y + 8 && (if rect.y < 8 then p.y < rect.h + 16 else p.y < rect.y + rect.h + 8)
  }

  ghost predicate Inside(rect: Rect, p: Pixel) { rect.x <= p.x < rect.x + rect.w && rect.y <= p.y < rect.y + rect.h }

  /** The two variances are over the pixels inside the box and those around it. */
  lemma ValuesAreExact(frame: Frame, rect: Rect)
    requires frame.Valid()
    ensures AreValuesOf(frame, BoxValues(frame, rect), p => Inside(rect, p))
    ensures AreValuesOf(frame, HaloValues(frame, rect), p => Around(rect, p))
  {
    RegionsAreExact(frame, rect);
    BoxInFrame(frame, rect, NOTHING);
    BoxInFrame(frame, Outer(rect), rect);
    var r, o := ClampRect(rect, frame.width, frame.height), ClampRect(Outer(rect), frame.width, frame.height);
    assert BoxValues(frame, rect) == Values(frame, BoxPixels(r, r.h, NOTHING));
    assert HaloValues(frame, rect) == Values(frame, BoxPixels(o, o.h, rect));
    hide Distinct, BoxPixels, BoxValues, HaloValues, Frame.Valid, InFrame, ClampRect, Outer;
  }

  // ---------------------------------------------------------------- the verdict

  const OCCLUSION_MARGIN: real := 4.0

  ghost predicate Occluded(frame: Frame, rect: Rect)
    requires frame.Valid()
  {
    Variance(BoxValues(frame, rect)) < Variance(HaloValues(frame, rect)) + 4.0
  }

  /** A box of one brightness, or with no pixel in the frame, is always flagged. */
  lemma FlatBoxIsOccluded(frame: Frame, rect: Rect, v: Luma)
    requires frame.Valid()
    requires forall p: Pixel :: rect.Has(p) && p.x < frame.width && p.y < frame.height ==> At(frame, p) == v
    ensures Occluded(frame, rect)
  {
    var r := ClampRect(rect, frame.width, frame.height);
    RegionsAreExact(frame, rect);
    BoxInFrame(frame, rect, NOTHING);
    FlatIsZero(BoxValues(frame, rect), v);
    VarianceBounds(HaloValues(frame, rect));
  }

  /** A box can only pass when its variance exceeds that of its surroundings by the margin; one whose
      surroundings vary as much as pixels can is flagged whatever it shows. */
  lemma BusySurroundingsOcclude(frame: Frame, rect: Rect)
    requires frame.Valid() && Variance(HaloValues(frame, rect)) > 255.0 * 255.0 / 4.0 - 4.0
    ensures Occluded(frame, rect)
  {
    VarianceBounds(BoxValues(frame, rect));
  }

  /** Against surroundings of one brightness, or none, a box passes exactly when its own variance is 4 or more. */
  lemma FlatSurroundings(frame: Frame, rect: Rect, v: Luma)
    requires frame.Valid()
    requires forall p: Pixel :: Around(rect, p) && p.x < frame.width && p.y < frame.height ==> At(frame, p) == v
    ensures Occluded(frame, rect) <==> Variance(BoxValues(frame, rect)) < 4.0
  {
    var o := ClampRect(Outer(rect), frame.width, frame.height);
    RegionsAreExact(frame, rect);
    BoxInFrame(frame, Outer(rect), rect);
    FlatIsZero(HaloValues(frame, rect), v);
  }

  /** The variance of two values is the square of half their difference. */
  lemma TwoValues(a: Luma, b: Luma)
    ensures Variance([a, b]) == (a - b) as real * (a - b) as real / 4.0
  {
    var vs: seq<Luma> := [a, b];
    assert vs[..1] == [a] && vs[..1][..0] == [];
    assert Sum(vs[..1]) == a && Sum(vs) == a + b;
    var m := Mean(vs);
    assert SquaredDeviations(vs[..1], m) == (a as real - m) * (a as real - m);
    assert SquaredDeviations(vs, m) == (a as real - m) * (a as real - m) + (b as real - m) * (b as real - m);
    assert a as real - m == (a - b) as real / 2.0 && b as real - m == -((a - b) as real / 2.0);
  }

  /** Two pixels that fill the frame pass exactly when they differ by four shades or more. */
  lemma SomeBoxesPass(a: Luma, b: Luma)
    ensures var frame := Frame(2, 1, [a, b]);
      Occluded(frame, Rect(0, 0, 2, 1)) <==> -4 < a - b < 4
  {
    hide Occluded, Variance, Squared, Around, BoxValues, At;
    FlatSurroundings(Frame(2, 1, [a, b]), Rect(0, 0, 2, 1), a) by { NothingAround(); }
    TwoPixels(a, b);
    TwoValues(a, b);
    SquareBelow((a - b) as real);
  }

  lemma NothingAround()
    ensures forall p: Pixel :: p.x < 2 && p.y < 1 ==> !Around(Rect(0, 0, 2, 1), p)
  {}

  lemma SquareBelow(d: real)
    ensures d * d / 4.0 < 4.0 <==> -4.0 < d < 4.0
  {
    if d >= 4.0 || d <= -4.0 { assert d * d >= 16.0; } else { assert (4.0 - d) * (4.0 + d) > 0.0; }
  }

  lemma TwoPixels(a: Luma, b: Luma)
    ensures BoxValues(Frame(2, 1, [a, b]), Rect(0, 0, 2, 1)) == [a, b]
  {
    var frame, r := Frame(2, 1, [a, b]), Rect(0, 0, 2, 1);
    BoxInFrame(frame, r, NOTHING);
    assert ClampRect(r, 2, 1) == r;
    assert RowPixels(r, 0, 0, NOTHING) == [] && RowPixels(r, 0, 1, NOTHING) == [Pixel(0, 0)];
    assert RowPixels(r, 0, 2, NOTHING) == [Pixel(0, 0), Pixel(1, 0)];
    assert BoxPixels(r, 0, NOTHING) == [] && BoxPixels(r, 1, NOTHING) == RowPixels(r, 0, 2, NOTHING);
    hide RowPixels, BoxPixels, ClampRect;
  }

  // ---------------------------------------------------------------- safe area and scoring

  datatype Inset = Inset(left: nat, top: nat, right: nat, bottom: nat)

  /** `bbox_within_inset` */
  predicate BoxWithinInset(box: Rect, width: nat, height: nat, inset: Inset) {
    && box.x >= inset.left && box.y >= inset.top
    && box.x + box.w <= SaturatingSub(width, inset.right) && box.y + box.h <= SaturatingSub(height, inset.bottom)
  }

  predicate SafePixel(p: Pixel, width: nat, height: nat, inset: Inset) {
    inset.left <= p.x && p.x + inset.right < width && inset.top <= p.y && p.y + inset.bottom < height
  }

  /** A box with pixels passes exactly when each of its pixels is in the safe area. */
  lemma WithinInsetIsSafe(box: Rect, width: nat, height: nat, inset: Inset)
    requires box.w > 0 && box.h > 0
    ensures BoxWithinInset(box, width, height, inset) <==>
      forall p: Pixel :: box.Has(p) ==> SafePixel(p, width, height, inset)
  {
    var first, last := Pixel(box.x, box.y), Pixel(box.x + box.w - 1, box.y + box.h - 1);
    assert box.Has(first) && box.Has(last);
    if SafePixel(first, width, height, inset) && SafePixel(last, width, height, inset) {
      assert BoxWithinInset(box, width, height, inset);
    }
  }

  /** Of any box, also one without pixels: it keeps clear of the left and upper inset, and of the right and lower
      one unless it lies at zero without extent. */
  lemma WithinInsetExactly(box: Rect, width: nat, height: nat, inset: Inset)
    ensures BoxWithinInset(box, width, height, inset) <==>
      && inset.left <= box.x && inset.top <= box.y
      && (box.x + box.w + inset.right <= width || (box.x == 0 && box.w == 0))
      && (box.y + box.h + inset.bottom <= height || (box.y == 0 && box.h == 0))
  {}

  datatype Event = Event(startMs: nat, endMs: nat, box: Rect)

  datatype Finding = Finding(event: Event, probeMs: nat, safeAreaPass: bool, occlusionFail: bool, scored: bool)

  datatype Evidence = Evidence(probeCount: nat, safeAreaPassCount: nat, occlusionFailCount: nat, findings: seq<Finding>)

  /** A finding says of its event what the sampled frame shows, or that sampling failed. */
  ghost predicate Finds(finding: Finding, event: Event, frame: Option<Frame>, width: nat, height: nat, inset: Inset) {
    && finding.event == event && finding.probeMs == (event.startMs + event.endMs) / 2
    && match frame
       case None => !finding.scored && !finding.safeAreaPass && !finding.occlusionFail
       case Some(f) =>
         f.Valid() && finding.scored && finding.safeAreaPass == BoxWithinInset(event.box, width, height, inset)
         && (finding.occlusionFail <==> Occluded(f, event.box))
  }

  function Count(findings: seq<Finding>, p: Finding -> bool): nat {
    if findings == [] then 0
    else Count(findings[..|findings|-1], p) + if p(findings[|findings|-1]) then 1 else 0
  }

  function Scored(): Finding -> bool { (f: Finding) => f.scored }
  function Passed(): Finding -> bool { (f: Finding) => f.safeAreaPass }
  function Failed(): Finding -> bool { (f: Finding) => f.occlusionFail }

  ghost predicate IsEvidence(e: Evidence, events: seq<Event>, frames: seq<Option<Frame>>, width: nat, height: nat,
                             inset: Inset)
    requires |frames| == |events|
  {
    && |e.findings| == |events|
    && (forall i :: 0 <= i < |events| ==> Finds(e.findings[i], events[i], frames[i], width, height, inset))
    && e.probeCount == Count(e.findings, Scored())
    && e.safeAreaPassCount == Count(e.findings, Passed())
    && e.occlusionFailCount == Count(e.findings, Failed())
  }

  lemma NoEvidence(events: seq<Event>, frames: seq<Option<Frame>>, width: nat, height: nat, inset: Inset)
    requires events == [] && frames == []
    ensures IsEvidence(Evidence(0, 0, 0, []), events, frames, width, height, inset)
  {}

  lemma CountStep(findings: seq<Finding>, f: Finding)
    ensures Count(findings + [f], Scored()) == Count(findings, Scored()) + if f.scored then 1 else 0
    ensures Count(findings + [f], Passed()) == Count(findings, Passed()) + if f.safeAreaPass then 1 else 0
    ensures Count(findings + [f], Failed()) == Count(findings, Failed()) + if f.occlusionFail then 1 else 0
  {
    assert (findings + [f])[..|findings|] == findings;
  }

  /** One more finding, counted. */
  lemma EvidenceStep(e: Evidence, events: seq<Event>, frames: seq<Option<Frame>>, f: Finding, event: Event,
                     frame: Option<Frame>,
                     width: nat, height: nat, inset: Inset)
    requires |frames| == |events| && IsEvidence(e, events, frames, width, height, inset)
    requires Finds(f, event, frame, width, height, inset)
    ensures IsEvidence(Evidence(e.probeCount + (if f.scored then 1 else 0),
                                e.safeAreaPassCount + (if f.safeAreaPass then 1 else 0),
                                e.occlusionFailCount + (if f.occlusionFail then 1 else 0), e.findings + [f]),
                       events + [event], frames + [frame], width, height, inset)
  {
    CountStep(e.findings, f);
    hide Finds, Count;
  }

  lemma {:induction false} CountIs(findings: seq<Finding>, p: Finding -> bool)
    ensures Count(findings, p) == |Places(findings, p)|
  {
    if findings == [] {
      assert Places(findings, p) == {};
    } else {
      CountIs(findings[..|findings|-1], p);
      PlacesGrow(findings, p);
      hide Places;
    }
  }

  /** The counts of the evidence: samples that could be scored, boxes in the safe area, boxes flagged. */
  lemma CountsAreExact(e: Evidence, events: seq<Event>, frames: seq<Option<Frame>>, width: nat, height: nat,
                       inset: Inset)
    requires |frames| == |events| && IsEvidence(e, events, frames, width, height, inset)
    ensures e.probeCount == |set i | 0 <= i < |e.findings| && e.findings[i].scored|
    ensures e.safeAreaPassCount == |set i | 0 <= i < |e.findings| && e.findings[i].safeAreaPass|
    ensures e.occlusionFailCount == |set i | 0 <= i < |e.findings| && e.findings[i].occlusionFail|
  {
    CountIs(e.findings, Scored());
    CountIs(e.findings, Passed());
    CountIs(e.findings, Failed());
    hide Count, Finds;
    var n := |e.findings|;
    assert Places(e.findings, Scored()) == set i | 0 <= i < n && e.findings[i].scored;
    assert Places(e.findings, Passed()) == set i | 0 <= i < n && e.findings[i].safeAreaPass;
    assert Places(e.findings, Failed()) == set i | 0 <= i < n && e.findings[i].occlusionFail;
  }

  /** The scoring loop over the events and the frame sampled for each (None when sampling failed);
      gives up when every sample failed. */
  method ScoreEvents(events: seq<Event>, frames: seq<Option<Frame>>, width: nat, height: nat, inset: Inset)
    returns (evidence: Option<Evidence>)
    requires events != [] && |frames| == |events|
    requires forall e :: e in events ==> e.box.FitsU32()
    requires forall f :: f in frames && f.Some? ==> f.value.Valid()
    ensures evidence.None? <==> forall i :: 0 <= i < |frames| ==> frames[i].None?
    ensures evidence.Some? ==> IsEvidence(evidence.value, events, frames, width, height, inset)
  {
    var findings := [];
    var probes, passes, fails := 0, 0, 0;
    hide Finds, Count, IsEvidence;
    NoEvidence(events[..0], frames[..0], width, height, inset);
    for i := 0 to |events|
      invariant IsEvidence(Evidence(probes, passes, fails, findings), events[..i], frames[..i], width, height, inset)
      invariant probes == 0 <==> forall k :: 0 <= k < i ==> frames[k].None?
    {
      assert frames[i] in frames && events[i] in events;
      ghost var before := Evidence(probes, passes, fails, findings);
      var finding := ScoreEvent(events[i], frames[i], width, height, inset);
      if finding.scored { probes := probes + 1; }
      if finding.safeAreaPass { passes := passes + 1; }
      if finding.occlusionFail { fails := fails + 1; }
      assert events[..i+1] == events[..i] + [events[i]] && frames[..i+1] == frames[..i] + [frames[i]];
      EvidenceStep(before, events[..i], frames[..i], finding, events[i], frames[i], width, height, inset);
      findings := findings + [finding];
    }
    assert events[..|events|] == events && frames[..|frames|] == frames;
    if probes == 0 { return None; }
    return Some(Evidence(probes, passes, fails, findings));
  }

  method ScoreEvent(event: Event, sample: Option<Frame>, width: nat, height: nat,
                    inset: Inset) returns (finding: Finding)
    requires event.box.FitsU32() && (sample.Some? ==> sample.value.Valid())
    ensures Finds(finding, event, sample, width, height, inset) && finding.scored == sample.Some?
  {
    var probeMs := (event.startMs + event.endMs) / 2;
    match sample {
      case None => return Finding(event, probeMs, false, false, false);
      case Some(frame) =>
        var safePass := BoxWithinInset(event.box, width, height, inset);
        var insideVar := LumaVarianceInRect(frame, event.box);
        var haloVar := LumaVarianceInHalo(frame, event.box);
        var occlusionFail := insideVar < haloVar + OCCLUSION_MARGIN;
        return Finding(event, probeMs, safePass, occlusionFail, true);
    }
  }
}
