/**
 The template search of app/worker/odr_worker/detection.py: a strided scan that compares
 sums of absolute differences and gives up early, proved to use the exact minimum.
 Scores are reals; the rounding of floating-point division is not modelled.
 */
module ImageSearch {
  import opened Common
  import opened PngFilter
  import opened PngRows
  import opened PngContainer

  const MAX_IMAGE_COMPARISONS: nat := 25_000_000

  /** What the decoder guarantees of its images: a positive size and one byte per pixel. */
  predicate Full(image: Image) {
    image.width >= 1 && image.height >= 1 && |image.pixels| == RowAt(image, image.height)
  }

  /** Where row `y` starts in the pixel list. */
  function RowAt(image: Image, y: nat): nat {
    Offset(y, image.width)
  }

  lemma DecodedIsFull(content: Bytes, inflate: Bytes -> Option<Bytes>)
    ensures Decode(content, inflate).Ok? ==> Full(Decode(content, inflate).value)
  {
    DecodedImageIsFull(content, inflate);
    var r := Decode(content, inflate);
    if r.Ok? {
      OffsetIsProduct(r.value.height, r.value.width);
    }
  }

  lemma RowInImage(image: Image, y: nat)
    requires Full(image) && y < image.height
    ensures RowAt(image, y) + image.width <= |image.pixels|
  {
    OffsetMonotone(y + 1, image.height, image.width);
  }

  function Pixel(image: Image, x: nat, y: nat): Byte
    requires Full(image) && x < image.width && y < image.height
  {
    RowInImage(image, y);
    image.pixels[RowAt(image, y) + x]
  }

  /** The template fits into the frame with its corner at (x, y). */
  predicate Fits(t: Image, f: Image, x: nat, y: nat) {
    Full(t) && Full(f) && x + t.width <= f.width && y + t.height <= f.height
  }

  // ----- Sums of absolute differences -------------------------------------------

  function PixelDiff(t: Image, f: Image, x: nat, y: nat, row: nat, column: nat): nat
    requires Fits(t, f, x, y) && row < t.height && column < t.width
  {
    Abs(Pixel(t, column, row) - Pixel(f, x + column, y + row))
  }

  /** The difference in the first `n` columns of a row. */
  function RowDiff(t: Image, f: Image, x: nat, y: nat, row: nat, n: nat): nat
    requires Fits(t, f, x, y) && row < t.height && n <= t.width
  {
    if n == 0 then 0 else RowDiff(t, f, x, y, row, n - 1) + PixelDiff(t, f, x, y, row, n - 1)
  }

  /** The difference in the first `n` rows. */
  function Diff(t: Image, f: Image, x: nat, y: nat, n: nat): nat
    requires Fits(t, f, x, y) && n <= t.height
  {
    if n == 0 then 0 else Diff(t, f, x, y, n - 1) + RowDiff(t, f, x, y, n - 1, t.width)
  }

  /** The whole sum of absolute differences at a position. */
  function Sad(t: Image, f: Image, x: nat, y: nat): nat
    requires Fits(t, f, x, y)
  {
    Diff(t, f, x, y, t.height)
  }

  lemma {:induction false} DiffGrows(t: Image, f: Image, x: nat, y: nat, n: nat)
    requires Fits(t, f, x, y) && n <= t.height
    ensures Diff(t, f, x, y, n) <= Sad(t, f, x, y)
    decreases t.height - n
  {
    if n < t.height {
      DiffGrows(t, f, x, y, n + 1);
    }
  }

  /** The template is an exact sub-image of the frame at (x, y). */
  predicate SubImageAt(t: Image, f: Image, x: nat, y: nat)
    requires Fits(t, f, x, y)
  {
    forall row, column :: 0 <= row < t.height && 0 <= column < t.width ==> PixelDiff(t, f, x, y, row, column) == 0
  }

  lemma {:induction false} RowDiffZero(t: Image, f: Image, x: nat, y: nat, row: nat, n: nat)
    requires Fits(t, f, x, y) && row < t.height && n <= t.width
    ensures RowDiff(t, f, x, y, row, n) == 0 <==> forall c :: 0 <= c < n ==> PixelDiff(t, f, x, y, row, c) == 0
    ensures RowDiff(t, f, x, y, row, n) <= 255 * n
  {
    if n > 0 {
      RowDiffZero(t, f, x, y, row, n - 1);
    }
  }

  lemma {:induction false} DiffZero(t: Image, f: Image, x: nat, y: nat, n: nat)
    requires Fits(t, f, x, y) && n <= t.height
    ensures Diff(t, f, x, y, n) == 0 <==>
            forall row :: 0 <= row < n ==> RowDiff(t, f, x, y, row, t.width) == 0
    ensures Diff(t, f, x, y, n) <= Offset(n, 255 * t.width)
  {
    if n > 0 {
      DiffZero(t, f, x, y, n - 1);
      RowDiffZero(t, f, x, y, n - 1, t.width);
    }
  }

  function MaxDiff(t: Image): nat {
    t.width * t.height * 255
  }

  lemma MaxDiffIsRowWise(t: Image)
    ensures Offset(t.height, 255 * t.width) == MaxDiff(t)
    ensures t.width >= 1 && t.height >= 1 ==> MaxDiff(t) > 0
  {
    OffsetIsProduct(t.height, 255 * t.width);
    assert t.height * (255 * t.width) == t.width * t.height * 255;
  }

  lemma SadBound(t: Image, f: Image, x: nat, y: nat)
    requires Fits(t, f, x, y)
    ensures Sad(t, f, x, y) <= MaxDiff(t)
  {
    DiffZero(t, f, x, y, t.height);
    MaxDiffIsRowWise(t);
  }

  /** No difference at all means an exact sub-image. */
  lemma SadZero(t: Image, f: Image, x: nat, y: nat)
    requires Fits(t, f, x, y)
    ensures Sad(t, f, x, y) == 0 <==> SubImageAt(t, f, x, y)
  {
    DiffZero(t, f, x, y, t.height);
    if Sad(t, f, x, y) == 0 {
      forall row, column | 0 <= row < t.height && 0 <= column < t.width
        ensures PixelDiff(t, f, x, y, row, column) == 0
      {
        RowDiffZero(t, f, x, y, row, t.width);
      }
    }
    if SubImageAt(t, f, x, y) {
      forall row | 0 <= row < t.height
        ensures RowDiff(t, f, x, y, row, t.width) == 0
      {
        RowDiffZero(t, f, x, y, row, t.width);
      }
    }
  }

  /**
   `_image_diff_at`: a result below the bound is the whole difference, and a result that
   reaches the bound means that the whole difference reaches it too.
   */
  method ImageDiffAt(t: Image, f: Image, x: nat, y: nat, bestDiff: nat) returns (total: nat)
    requires Fits(t, f, x, y)
    ensures total < bestDiff ==> total == Sad(t, f, x, y)
    ensures total >= bestDiff ==> Sad(t, f, x, y) >= bestDiff
  {
    total := 0;
    var row := 0;
    while row < t.height
      invariant 0 <= row <= t.height && total == Diff(t, f, x, y, row)
    {
      RowInImage(t, row);
      RowInImage(f, y + row);
      OffsetIsProduct(row, t.width);
      OffsetIsProduct(y + row, f.width);
      var templateOffset := row * t.width;
      var frameOffset := (y + row) * f.width + x;
      assert templateOffset == RowAt(t, row) && frameOffset == RowAt(f, y + row) + x;
      var column := 0;
      while column < t.width
        invariant 0 <= column <= t.width
        invariant total == Diff(t, f, x, y, row) + RowDiff(t, f, x, y, row, column)
      {
        var a: int := t.pixels[templateOffset + column];
        var b: int := f.pixels[frameOffset + column];
        assert a == Pixel(t, column, row) && b == Pixel(f, x + column, y + row);
        total := total + Abs(a - b);
        column := column + 1;
      }
      DiffGrows(t, f, x, y, row + 1);
      if total >= bestDiff {
        return;
      }
      row := row + 1;
    }
  }

  // ----- Scanned positions --------------------------------------------------------

  /** `range(from, count, step)`. */
  function Strides(from: nat, count: nat, step: nat): seq<nat>
    requires step >= 1
    decreases count - from
  {
    if from >= count then [] else [from] + Strides(from + step, count, step)
  }

  function ScanPositions(count: nat, step: nat): seq<nat>
    requires step >= 1
  {
    if step == 1 || count <= 1 then Strides(0, count, 1)
    else
      var values := Strides(0, count, step);
      if values[|values| - 1] == count - 1 then values else values + [count - 1]
  }

  /** Increasing positions from `from` on, below `count`, at most `step` apart. */
  predicate Spread(values: seq<nat>, from: nat, count: nat, step: nat) {
    && (values != [] ==> values[0] == from)
    && (forall i :: 0 <= i < |values| ==> from <= values[i] < count)
    && (forall i :: 0 < i < |values| ==> values[i - 1] < values[i] <= values[i - 1] + step)
  }

  lemma {:induction false} StridesSpread(from: nat, count: nat, step: nat)
    requires step >= 1
    ensures var values := Strides(from, count, step);
            && Spread(values, from, count, step)
            && (values != [] <==> from < count)
            && (values != [] ==> count <= values[|values| - 1] + step)
            && (forall i :: 0 <= i < |values| ==> values[i] == from + i * step)
    decreases count - from
  {
    if from < count {
      var values, tail := Strides(from, count, step), Strides(from + step, count, step);
      StridesSpread(from + step, count, step);
      assert forall i :: 0 < i < |values| ==> values[i] == tail[i - 1];
      forall i | 0 <= i < |values|
        ensures values[i] == from + i * step
      {
        if i > 0 {
          assert (i - 1) * step + step == i * step;
        }
      }
    }
  }

  /**
   The scanned positions: for every count of at least one and every step they increase,
   stay in range, contain the first and the last position and leave gaps of at most a step.
   */
  lemma ScanPositionsCover(count: nat, step: nat)
    requires count >= 1 && step >= 1
    ensures var values := ScanPositions(count, step);
            && values != [] && values[0] == 0 && values[|values| - 1] == count - 1
            && Spread(values, 0, count, step)
  {
    if step == 1 || count <= 1 {
      StridesSpread(0, count, 1);
    } else {
      StridesSpread(0, count, step);
      var values := Strides(0, count, step);
      if values[|values| - 1] != count - 1 {
        LastPositionAdded(values, count, step);
      }
    }
  }

  lemma LastPositionAdded(values: seq<nat>, count: nat, step: nat)
    requires values != [] && count >= 1 && Spread(values, 0, count, step)
    requires values[|values| - 1] < count - 1 && count <= values[|values| - 1] + step
    ensures Spread(values + [count - 1], 0, count, step)
  {
  }

  /** With step one, or with no position between the first and the last, nothing is left out. */
  predicate ScansAll(count: nat, step: nat) {
    step == 1 || count <= 2
  }

  lemma EveryPositionIsScanned(count: nat, step: nat, p: nat)
    requires step >= 1 && ScansAll(count, step) && p < count
    ensures p < |ScanPositions(count, step)| && ScanPositions(count, step)[p] == p
  {
    StridesSpread(0, count, step);
    if step == 1 {
      var values := Strides(0, count, 1);
      assert values[|values| - 1] == |values| - 1;
    } else if count == 2 {
      assert Strides(0, 2, step) == [0];
    }
  }

  lemma SecondPositionIsLeftOut(count: nat, step: nat)
    requires step >= 1 && !ScansAll(count, step)
    ensures 1 !in ScanPositions(count, step)
  {
    StridesSpread(0, count, step);
    var values := Strides(0, count, step);
    forall i | 0 <= i < |values|
      ensures values[i] != 1
    {
      assert values[i] == i * step;
      assert i >= 1 ==> i * step >= step;
    }
  }

  /** Every position is scanned if and only if the step is one or there are at most two positions. */
  lemma ScanIsCompleteExactly(count: nat, step: nat)
    requires step >= 1
    ensures ScansAll(count, step) <==> forall p :: 0 <= p < count ==> p in ScanPositions(count, step)
  {
    hide ScanPositions;
    if ScansAll(count, step) {
      forall p | 0 <= p < count
        ensures p in ScanPositions(count, step)
      {
        EveryPositionIsScanned(count, step, p);
      }
    } else {
      SecondPositionIsLeftOut(count, step);
    }
  }

  // ----- The step ------------------------------------------------------------------

  /** The integer part of the square root. */
  function FloorSqrt(n: nat): (r: nat)
    ensures r * r <= n < (r + 1) * (r + 1)
  {
    if n == 0 then 0
    else
      var r := FloorSqrt(n - 1);
      if (r + 1) * (r + 1) <= n then r + 1 else r
  }

  /** The number of pixel comparisons of an exhaustive search, for a template of `tw` by `th` in a frame of `fw` by `fh`. */
  function Work(tw: nat, th: nat, fw: nat, fh: nat): nat
    requires tw <= fw && th <= fh
  {
    (fw - tw + 1) * (fh - th + 1) * tw * th
  }

  function Comparisons(t: Image, f: Image): nat
    requires Fits(t, f, 0, 0)
  {
    Work(t.width, t.height, f.width, f.height)
  }

  /** For these sizes the search scans every position. */
  predicate Exhaustive(tw: nat, th: nat, fw: nat, fh: nat)
    requires tw <= fw && th <= fh
  {
    var step := StepFor(Work(tw, th, fw, fh));
    ScansAll(fw - tw + 1, step) && ScansAll(fh - th + 1, step)
  }

  function StepFor(comparisons: nat): (step: nat)
    ensures step >= 1
  {
    if comparisons <= MAX_IMAGE_COMPARISONS then 1
    else
      var root := FloorSqrt(comparisons / MAX_IMAGE_COMPARISONS);
      if root > 1 then root else 1
  }

  /** The scan is exhaustive exactly below four times the comparison budget. */
  lemma StepIsOne(comparisons: nat)
    ensures StepFor(comparisons) == 1 <==> comparisons < 4 * MAX_IMAGE_COMPARISONS
  {
    hide FloorSqrt;
    RootAboveOne(comparisons / MAX_IMAGE_COMPARISONS);
  }

  lemma RootAboveOne(n: nat)
    ensures FloorSqrt(n) > 1 <==> n >= 4
  {
    var r := FloorSqrt(n);
    if r >= 2 {
      assert r * r >= 2 * r >= 4;
    } else {
      assert (r + 1) * (r + 1) <= 4;
    }
  }

  // ----- The search ------------------------------------------------------------------

  /** The template fits at every pair of the listed positions. */
  predicate AllFit(t: Image, f: Image, xs: seq<nat>, ys: seq<nat>) {
    && Full(t) && Full(f)
    && (forall j :: 0 <= j < |xs| ==> xs[j] + t.width <= f.width)
    && (forall i :: 0 <= i < |ys| ==> ys[i] + t.height <= f.height)
  }

  /** A pair of places in the two lists of positions. */
  predicate Place(xs: seq<nat>, ys: seq<nat>, i: nat, j: nat) {
    i < |ys| && j < |xs|
  }

  function SadAt(t: Image, f: Image, xs: seq<nat>, ys: seq<nat>, i: nat, j: nat): nat
    requires AllFit(t, f, xs, ys) && Place(xs, ys, i, j)
  {
    Sad(t, f, xs[j], ys[i])
  }

  /** `m` is the least whole difference over all listed positions. */
  ghost predicate LeastSad(t: Image, f: Image, xs: seq<nat>, ys: seq<nat>, m: nat)
    requires AllFit(t, f, xs, ys)
  {
    && (exists i: nat, j: nat :: Place(xs, ys, i, j) && SadAt(t, f, xs, ys, i, j) == m)
    && (forall i: nat, j: nat :: Place(xs, ys, i, j) ==> m <= SadAt(t, f, xs, ys, i, j))
  }

  /** The best difference when the places before (row, column) are scanned. */
  ghost predicate Scanned(t: Image, f: Image, xs: seq<nat>, ys: seq<nat>, row: nat, column: nat, best: nat)
    requires AllFit(t, f, xs, ys)
  {
    && (forall i: nat, j: nat :: Place(xs, ys, i, j) && (i < row || (i == row && j < column)) ==>
          best <= SadAt(t, f, xs, ys, i, j))
    && (best == MaxDiff(t) + 1 || exists i: nat, j: nat :: Place(xs, ys, i, j) && SadAt(t, f, xs, ys, i, j) == best)
    && ((row > 0 || column > 0) ==> best <= MaxDiff(t))
  }

  lemma ScannedStep(t: Image, f: Image, xs: seq<nat>, ys: seq<nat>, i: nat, j: nat, best: nat)
    requires AllFit(t, f, xs, ys) && Place(xs, ys, i, j) && Scanned(t, f, xs, ys, i, j, best)
    ensures var sad := SadAt(t, f, xs, ys, i, j);
            Scanned(t, f, xs, ys, i, j + 1, if sad < best then sad else best)
  {
    SadBound(t, f, xs[j], ys[i]);
    assert SadAt(t, f, xs, ys, i, j) <= MaxDiff(t);
  }

  /** The nested loops over the positions, with both early exits. */
  method LeastDifference(t: Image, f: Image, xs: seq<nat>, ys: seq<nat>) returns (bestDiff: nat)
    requires AllFit(t, f, xs, ys) && xs != [] && ys != []
    ensures LeastSad(t, f, xs, ys, bestDiff)
  {
    bestDiff := MaxDiff(t) + 1;
    var i := 0;
    while i < |ys|
      invariant 0 <= i <= |ys|
      invariant Scanned(t, f, xs, ys, i, 0, bestDiff)
    {
      var j := 0;
      while j < |xs|
        invariant 0 <= j <= |xs|
        invariant Scanned(t, f, xs, ys, i, j, bestDiff)
      {
        var diff := ImageDiffAt(t, f, xs[j], ys[i], bestDiff);
        ScannedStep(t, f, xs, ys, i, j, bestDiff);
        if diff < bestDiff {
          bestDiff := diff;
          if bestDiff == 0 {
            assert SadAt(t, f, xs, ys, i, j) == 0;
            return;
          }
        }
        j := j + 1;
      }
      i := i + 1;
    }
  }

  function ScoreOf(t: Image, diff: nat): real
    requires MaxDiff(t) > 0
  {
    var score := 1.0 - diff as real / MaxDiff(t) as real;
    if score > 0.0 then score else 0.0
  }

  function PositionsX(t: Image, f: Image): seq<nat>
    requires Fits(t, f, 0, 0)
  {
    ScanPositions(f.width - t.width + 1, StepFor(Comparisons(t, f)))
  }

  function PositionsY(t: Image, f: Image): seq<nat>
    requires Fits(t, f, 0, 0)
  {
    ScanPositions(f.height - t.height + 1, StepFor(Comparisons(t, f)))
  }

  /** Every scanned position is one where the template fits, and there is one. */
  lemma ScannedFits(t: Image, f: Image)
    requires Fits(t, f, 0, 0)
    ensures AllFit(t, f, PositionsX(t, f), PositionsY(t, f))
    ensures PositionsX(t, f) != [] && PositionsY(t, f) != []
  {
    ScanPositionsCover(f.width - t.width + 1, StepFor(Comparisons(t, f)));
    ScanPositionsCover(f.height - t.height + 1, StepFor(Comparisons(t, f)));
  }

  /** `score` is made of the exact least difference over all scanned positions. */
  ghost predicate ExactScore(t: Image, f: Image, score: real)
    requires Fits(t, f, 0, 0) && MaxDiff(t) > 0
  {
    ScannedFits(t, f);
    exists least: nat :: LeastSad(t, f, PositionsX(t, f), PositionsY(t, f), least) && score == ScoreOf(t, least)
  }

  /**
   `_image_match_score`: in spite of the early exits per row and on a zero difference, the
   score is made of the exact least difference over all scanned positions.
   */
  method ImageMatchScore(t: Image, f: Image) returns (score: real)
    requires Full(t) && Full(f)
    ensures MaxDiff(t) > 0
    ensures if Fits(t, f, 0, 0) then ExactScore(t, f, score) else score == 0.0
  {
    MaxDiffIsRowWise(t);
    if t.width > f.width || t.height > f.height {
      return 0.0;
    }
    ScannedFits(t, f);
    var best := LeastDifference(t, f, PositionsX(t, f), PositionsY(t, f));
    return ScoreOf(t, best);
  }

  // ----- What the score says --------------------------------------------------------

  lemma DivisionOrder(a: real, b: real, m: real)
    requires m > 0.0
    ensures a < b <==> a / m < b / m
    ensures a == b <==> a / m == b / m
  {
    assert a / m * m == a && b / m * m == b;
  }

  /** The score lies in [0, 1], and a smaller difference gives a higher score. */
  lemma ScoreRange(t: Image, a: nat, b: nat)
    requires MaxDiff(t) > 0 && a <= MaxDiff(t) && b <= MaxDiff(t)
    ensures 0.0 <= ScoreOf(t, a) <= 1.0
    ensures a < b <==> ScoreOf(t, a) > ScoreOf(t, b)
    ensures ScoreOf(t, a) == 1.0 <==> a == 0
  {
    var m := MaxDiff(t) as real;
    DivisionOrder(0.0, a as real, m);
    DivisionOrder(a as real, m, m);
    DivisionOrder(0.0, b as real, m);
    DivisionOrder(b as real, m, m);
    DivisionOrder(a as real, b as real, m);
    assert 0.0 / m == 0.0 && m / m == 1.0;
  }

  /** There is an exact copy of the template at a scanned position. */
  ghost predicate FoundInScan(t: Image, f: Image, xs: seq<nat>, ys: seq<nat>)
    requires AllFit(t, f, xs, ys)
  {
    exists i: nat, j: nat :: Place(xs, ys, i, j) && CopyAt(t, f, xs, ys, i, j)
  }

  predicate CopyAt(t: Image, f: Image, xs: seq<nat>, ys: seq<nat>, i: nat, j: nat)
    requires AllFit(t, f, xs, ys) && Place(xs, ys, i, j)
  {
    SubImageAt(t, f, xs[j], ys[i])
  }

  /** A full score is one for which the least difference is zero: an exact copy at a scanned position. */
  lemma FullScoreIsExact(t: Image, f: Image, xs: seq<nat>, ys: seq<nat>, least: nat)
    requires AllFit(t, f, xs, ys) && MaxDiff(t) > 0 && LeastSad(t, f, xs, ys, least)
    ensures 0.0 <= ScoreOf(t, least) <= 1.0
    ensures ScoreOf(t, least) == 1.0 <==> FoundInScan(t, f, xs, ys)
  {
    var i: nat, j: nat :| Place(xs, ys, i, j) && SadAt(t, f, xs, ys, i, j) == least;
    SadZero(t, f, xs[j], ys[i]);
    SadBound(t, f, xs[j], ys[i]);
    ScoreRange(t, least, least);
    assert least == 0 ==> CopyAt(t, f, xs, ys, i, j);
    if FoundInScan(t, f, xs, ys) {
      var p: nat, q: nat :| Place(xs, ys, p, q) && CopyAt(t, f, xs, ys, p, q);
      SadZero(t, f, xs[q], ys[p]);
      assert SadAt(t, f, xs, ys, p, q) == 0;
    }
  }

  /** The template occurs somewhere in the frame. */
  ghost predicate Occurs(t: Image, f: Image) {
    exists x: nat, y: nat :: Fits(t, f, x, y) && SubImageAt(t, f, x, y)
  }

  predicate Complete(t: Image, f: Image)
    requires Fits(t, f, 0, 0)
  {
    Exhaustive(t.width, t.height, f.width, f.height)
  }

  /**
   The score lies in [0, 1], and a full score always means that the template occurs in the
   frame. Where the search is exhaustive, the score is full exactly when the template occurs.
   */
  lemma FullScoreIsComplete(t: Image, f: Image, score: real)
    requires Fits(t, f, 0, 0) && MaxDiff(t) > 0 && ExactScore(t, f, score)
    ensures 0.0 <= score <= 1.0
    ensures score == 1.0 ==> Occurs(t, f)
    ensures Complete(t, f) ==> (score == 1.0 <==> Occurs(t, f))
  {
    hide Complete, SubImageAt;
    var xs, ys := PositionsX(t, f), PositionsY(t, f);
    ScannedFits(t, f);
    var least: nat :| LeastSad(t, f, xs, ys, least) && score == ScoreOf(t, least);
    FullScoreIsExact(t, f, xs, ys, least);
    if FoundInScan(t, f, xs, ys) {
      var i: nat, j: nat :| Place(xs, ys, i, j) && CopyAt(t, f, xs, ys, i, j);
      assert Fits(t, f, xs[j], ys[i]);
    }
    if Complete(t, f) && Occurs(t, f) {
      var x: nat, y: nat :| Fits(t, f, x, y) && SubImageAt(t, f, x, y);
      ExhaustiveScan(t, f, x, y);
      assert CopyAt(t, f, xs, ys, y, x);
    }
  }

  lemma ExhaustiveScan(t: Image, f: Image, x: nat, y: nat)
    requires Fits(t, f, x, y) && Complete(t, f)
    ensures Place(PositionsX(t, f), PositionsY(t, f), y, x)
    ensures PositionsX(t, f)[x] == x && PositionsY(t, f)[y] == y
  {
    hide StepFor, ScanPositions, ScansAll;
    EveryPositionIsScanned(f.width - t.width + 1, StepFor(Comparisons(t, f)), x);
    EveryPositionIsScanned(f.height - t.height + 1, StepFor(Comparisons(t, f)), y);
  }

  /** Below four times the comparison budget the search is exhaustive for all sizes. */
  lemma BudgetIsExhaustive(tw: nat, th: nat, fw: nat, fh: nat)
    requires tw <= fw && th <= fh && Work(tw, th, fw, fh) < 4 * MAX_IMAGE_COMPARISONS
    ensures Exhaustive(tw, th, fw, fh)
  {
    hide StepFor, Work;
    StepIsOne(Work(tw, th, fw, fh));
  }

  // ----- For which sizes the search is complete ----------------------------------------

  /** The smallest sum over all places exists; the search for it starts at one of them. */
  lemma LeastExists(t: Image, f: Image, xs: seq<nat>, ys: seq<nat>, i: nat, j: nat)
    requires AllFit(t, f, xs, ys) && Place(xs, ys, i, j)
    ensures exists m: nat :: LeastSad(t, f, xs, ys, m)
    decreases SadAt(t, f, xs, ys, i, j)
  {
    hide SadAt;
    if p: nat, q: nat :| Place(xs, ys, p, q) && SadAt(t, f, xs, ys, p, q) < SadAt(t, f, xs, ys, i, j) {
      LeastExists(t, f, xs, ys, p, q);
    } else {
      assert LeastSad(t, f, xs, ys, SadAt(t, f, xs, ys, i, j));
    }
  }

  lemma ScoreExists(t: Image, f: Image)
    requires Fits(t, f, 0, 0) && MaxDiff(t) > 0
    ensures exists score :: ExactScore(t, f, score)
  {
    hide ScanPositions, StepFor, LeastSad;
    ScannedFits(t, f);
    var xs, ys := PositionsX(t, f), PositionsY(t, f);
    LeastExists(t, f, xs, ys, 0, 0);
    var least: nat :| LeastSad(t, f, xs, ys, least);
    assert ExactScore(t, f, ScoreOf(t, least));
  }

  /** A black image with one white pixel. */
  function Spot(width: nat, height: nat, x: nat, y: nat): Image {
    Image(width, height, seq(Offset(height, width), i => if i == Offset(y, width) + x then 255 else 0))
  }

  lemma {:induction false} OffsetIsInjective(width: nat, x: nat, y: nat, u: nat, v: nat)
    requires x < width && u < width
    ensures Offset(y, width) + x == Offset(v, width) + u <==> x == u && y == v
  {
    if y < v {
      OffsetMonotone(y + 1, v, width);
    } else if v < y {
      OffsetMonotone(v + 1, y, width);
    }
  }

  lemma PixelOfSpot(width: nat, height: nat, x: nat, y: nat, u: nat, v: nat)
    requires x < width && y < height && u < width && v < height
    ensures Full(Spot(width, height, x, y))
    ensures Pixel(Spot(width, height, x, y), u, v) == if u == x && v == y then 255 else 0
  {
    var spot := Spot(width, height, x, y);
    RowInImage(spot, v);
    OffsetIsInjective(width, u, v, x, y);
  }

  /** A white corner occurs exactly where the white pixel of the frame is. */
  lemma SpotOccursOnce(tw: nat, th: nat, fw: nat, fh: nat, x: nat, y: nat, u: nat, v: nat)
    requires 1 <= tw && 1 <= th && x + tw <= fw && y + th <= fh && u + tw <= fw && v + th <= fh
    ensures var t, f := Spot(tw, th, 0, 0), Spot(fw, fh, x, y);
            Fits(t, f, u, v) && (SubImageAt(t, f, u, v) <==> u == x && v == y)
  {
    hide Spot, Pixel, Full;
    var t, f := Spot(tw, th, 0, 0), Spot(fw, fh, x, y);
    SizeOfSpot(tw, th, 0, 0);
    SizeOfSpot(fw, fh, x, y);
    PixelOfSpot(tw, th, 0, 0, 0, 0);
    PixelOfSpot(fw, fh, x, y, u, v);
    if u == x && v == y {
      forall row, column | 0 <= row < th && 0 <= column < tw
        ensures PixelDiff(t, f, u, v, row, column) == 0
      {
        PixelOfSpot(tw, th, 0, 0, column, row);
        PixelOfSpot(fw, fh, x, y, x + column, y + row);
      }
    } else {
      assert PixelDiff(t, f, u, v, 0, 0) == 255;
    }
  }

  lemma SizeOfSpot(width: nat, height: nat, x: nat, y: nat)
    ensures Spot(width, height, x, y).width == width && Spot(width, height, x, y).height == height
  {
  }

  /** Two images of the given sizes, and the score of the search for the one in the other. */
  ghost predicate Scores(t: Image, f: Image, tw: nat, th: nat, fw: nat, fh: nat, score: real) {
    && t.width == tw && t.height == th && f.width == fw && f.height == fh
    && Fits(t, f, 0, 0) && MaxDiff(t) > 0 && ExactScore(t, f, score)
  }

  /** Where some position is left out, a template that occurs only there is missed. */
  lemma LeftOutIsMissed(tw: nat, th: nat, fw: nat, fh: nat, x: nat, y: nat)
    requires 1 <= tw && 1 <= th && x + tw <= fw && y + th <= fh
    requires var step := StepFor(Work(tw, th, fw, fh));
             x !in ScanPositions(fw - tw + 1, step) || y !in ScanPositions(fh - th + 1, step)
    ensures exists t, f, score :: Scores(t, f, tw, th, fw, fh, score) && score != 1.0 && Occurs(t, f)
  {
    hide Spot, ScanPositions, StepFor, SubImageAt, Full, LeastSad, ScoreOf;
    var t, f := Spot(tw, th, 0, 0), Spot(fw, fh, x, y);
    SizeOfSpot(tw, th, 0, 0);
    SizeOfSpot(fw, fh, x, y);
    SpotOccursOnce(tw, th, fw, fh, x, y, x, y);
    SpotOccursOnce(tw, th, fw, fh, x, y, 0, 0);
    assert Occurs(t, f);
    MaxDiffIsRowWise(t);
    ScoreExists(t, f);
    var score :| ExactScore(t, f, score);
    var xs, ys := PositionsX(t, f), PositionsY(t, f);
    ScannedFits(t, f);
    var least: nat :| LeastSad(t, f, xs, ys, least) && score == ScoreOf(t, least);
    FullScoreIsExact(t, f, xs, ys, least);
    if FoundInScan(t, f, xs, ys) {
      var i: nat, j: nat :| Place(xs, ys, i, j) && CopyAt(t, f, xs, ys, i, j);
      assert xs[j] in xs && ys[i] in ys;
      SpotOccursOnce(tw, th, fw, fh, x, y, xs[j], ys[i]);
    }
    assert Scores(t, f, tw, th, fw, fh, score);
  }

  /**
   The exact condition, by sizes: a full score means the same as occurrence for all images
   of the given sizes, if and only if the step is one or leaves out no position.
   */
  lemma SearchIsCompleteExactly(tw: nat, th: nat, fw: nat, fh: nat)
    requires 1 <= tw <= fw && 1 <= th <= fh
    ensures (forall t, f, score :: Scores(t, f, tw, th, fw, fh, score) ==> (score == 1.0 <==> Occurs(t, f)))
            <==> Exhaustive(tw, th, fw, fh)
  {
    hide ScanPositions, StepFor, Occurs, ExactScore, ScansAll, Work;
    var step := StepFor(Work(tw, th, fw, fh));
    if Exhaustive(tw, th, fw, fh) {
      forall t, f, score | Scores(t, f, tw, th, fw, fh, score)
        ensures score == 1.0 <==> Occurs(t, f)
      {
        FullScoreIsComplete(t, f, score);
      }
    } else {
      ScanIsCompleteExactly(fw - tw + 1, step);
      ScanIsCompleteExactly(fh - th + 1, step);
      if !ScansAll(fw - tw + 1, step) {
        var x :| 0 <= x < fw - tw + 1 && x !in ScanPositions(fw - tw + 1, step);
        LeftOutIsMissed(tw, th, fw, fh, x, 0);
      } else {
        var y :| 0 <= y < fh - th + 1 && y !in ScanPositions(fh - th + 1, step);
        LeftOutIsMissed(tw, th, fw, fh, 0, y);
      }
    }
  }

  // ----- Any threshold -----------------------------------------------------------------

  /** The largest difference that still reaches the threshold. */
  function Tolerance(t: Image, threshold: real): real {
    (1.0 - threshold) * MaxDiff(t) as real
  }

  lemma ScoreReaches(t: Image, diff: nat, threshold: real)
    requires MaxDiff(t) > 0 && diff <= MaxDiff(t) && 0.0 <= threshold <= 1.0
    ensures ScoreOf(t, diff) >= threshold <==> diff as real <= Tolerance(t, threshold)
  {
    var m, q := MaxDiff(t) as real, diff as real / MaxDiff(t) as real;
    ScoreRange(t, diff, diff);
    assert q * m == diff as real;
    assert q <= 1.0 - threshold <==> q * m <= (1.0 - threshold) * m;
  }

  /** The template is within tolerance at a place of the scan. */
  ghost predicate CloseInScan(t: Image, f: Image, threshold: real)
    requires Fits(t, f, 0, 0)
  {
    ScannedFits(t, f);
    var xs, ys := PositionsX(t, f), PositionsY(t, f);
    exists i: nat, j: nat :: Place(xs, ys, i, j) && SadAt(t, f, xs, ys, i, j) as real <= Tolerance(t, threshold)
  }

  predicate CloseAt(t: Image, f: Image, threshold: real, x: nat, y: nat) {
    Fits(t, f, x, y) && Sad(t, f, x, y) as real <= Tolerance(t, threshold)
  }

  ghost predicate Close(t: Image, f: Image, threshold: real) {
    exists x: nat, y: nat :: CloseAt(t, f, threshold, x, y)
  }

  /**
   For every threshold: the score reaches it if and only if the template is within the
   tolerance at some scanned position; where the search is exhaustive, at any position.
   */
  lemma ThresholdIsTolerance(t: Image, f: Image, score: real, threshold: real)
    requires Fits(t, f, 0, 0) && MaxDiff(t) > 0 && ExactScore(t, f, score) && 0.0 <= threshold <= 1.0
    ensures score >= threshold <==> CloseInScan(t, f, threshold)
    ensures Complete(t, f) ==> (score >= threshold <==> Close(t, f, threshold))
  {
    hide ScanPositions, StepFor, ScoreOf, Sad, Tolerance, Complete, Full;
    var xs, ys := PositionsX(t, f), PositionsY(t, f);
    ScannedFits(t, f);
    var least: nat :| LeastSad(t, f, xs, ys, least) && score == ScoreOf(t, least);
    var i: nat, j: nat :| Place(xs, ys, i, j) && SadAt(t, f, xs, ys, i, j) == least;
    SadBound(t, f, xs[j], ys[i]);
    ScoreReaches(t, least, threshold);
    if score >= threshold {
      assert CloseAt(t, f, threshold, xs[j], ys[i]);
    }
    if Complete(t, f) && Close(t, f, threshold) {
      var x: nat, y: nat :| CloseAt(t, f, threshold, x, y);
      ExhaustiveScan(t, f, x, y);
      assert SadAt(t, f, xs, ys, y, x) == Sad(t, f, x, y);
    }
  }
}
