/**
 PNG scan line filters (RFC 2083, sections 6.1 to 6.6) and the in-place unfiltering
 loops of app/worker/odr_worker/detection.py.
 */
module PngFilter {
  type Byte = b: int | 0 <= b < 256

  function Abs(x: int): nat {
    if x < 0 then -x else x
  }

  /** Byte addition, `& 0xFF`. */
  function AddByte(x: int, y: int): Byte {
    (x + y) % 256
  }

  // ----- Predictors -----------------------------------------------------------

  /**
   The predictor is the neighbour nearest to the estimate, and a tie goes to the left
   neighbour first and to the upper one second.
   */
  function PaethPredictor(left: int, up: int, upperLeft: int): (p: int)
    ensures p == left || p == up || p == upperLeft
    ensures var estimate := left + up - upperLeft;
            && Abs(estimate - p) <= Abs(estimate - left)
            && Abs(estimate - p) <= Abs(estimate - up)
            && Abs(estimate - p) <= Abs(estimate - upperLeft)
            && (Abs(estimate - left) == Abs(estimate - p) ==> p == left)
            && (Abs(estimate - left) != Abs(estimate - p) && Abs(estimate - up) == Abs(estimate - p) ==> p == up)
  {
    var estimate := left + up - upperLeft;
    var leftDistance, upDistance, upperLeftDistance :=
      Abs(estimate - left), Abs(estimate - up), Abs(estimate - upperLeft);
    if leftDistance <= upDistance && leftDistance <= upperLeftDistance then left
    else if upDistance <= upperLeftDistance then up
    else upperLeft
  }

  const NONE: int := 0
  const SUB: int := 1
  const UP: int := 2
  const AVERAGE: int := 3
  const PAETH: int := 4

  predicate KnownFilter(filter: int) {
    0 <= filter <= 4
  }

  /** The byte one pixel to the left, or zero before the first pixel. */
  function Left(row: seq<Byte>, i: nat, channels: nat): Byte
    requires i <= |row| && channels > 0
  {
    if i >= channels then row[i - channels] else 0
  }

  /**
   What the filter predicts for byte `i`, from the reconstructed bytes before it in the
   row and from the previous reconstructed row.
   */
  function Predict(filter: int, channels: nat, row: seq<Byte>, previous: seq<Byte>, i: nat): (p: int)
    requires channels > 0 && KnownFilter(filter) && i <= |row| && i < |previous|
    ensures 0 <= p < 256
  {
    var left, up := Left(row, i, channels), previous[i];
    if filter == NONE then 0
    else if filter == SUB then left
    else if filter == UP then up
    else if filter == AVERAGE then (left + up) / 2
    else PaethPredictor(left, up, Left(previous, i, channels))
  }

  lemma PredictDependsOnThePast(filter: int, channels: nat, a: seq<Byte>, b: seq<Byte>, previous: seq<Byte>, i: nat)
    requires channels > 0 && KnownFilter(filter) && i <= |a| && i <= |b| && i < |previous|
    requires forall k :: 0 <= k < i ==> a[k] == b[k]
    ensures Predict(filter, channels, a, previous, i) == Predict(filter, channels, b, previous, i)
  {
  }

  // ----- Filtering, as an encoder does it --------------------------------------

  /** RFC 2083, section 6.1: each byte minus its prediction from the original bytes, modulo 256. */
  function Filtered(filter: int, channels: nat, row: seq<Byte>, previous: seq<Byte>): (line: seq<Byte>)
    requires channels > 0 && KnownFilter(filter) && |row| == |previous|
    ensures |line| == |row|
    ensures forall i :: 0 <= i < |row| ==> line[i] == AddByte(row[i], -Predict(filter, channels, row, previous, i))
  {
    seq(|row|, i requires 0 <= i < |row| => AddByte(row[i], -Predict(filter, channels, row, previous, i)))
  }

  // ----- Unfiltering -----------------------------------------------------------

  /** The reconstructed bytes of a line, left to right. */
  function Unfiltered(filter: int, channels: nat, line: seq<Byte>, previous: seq<Byte>, n: nat): (row: seq<Byte>)
    requires channels > 0 && KnownFilter(filter) && n <= |line| == |previous|
    ensures |row| == n
  {
    if n == 0 then []
    else
      var done := Unfiltered(filter, channels, line, previous, n - 1);
      done + [AddByte(line[n - 1], Predict(filter, channels, done, previous, n - 1))]
  }

  lemma AddByteCases(x: int, y: int)
    requires -256 < x + y < 512
    ensures AddByte(x, y) == if x + y < 0 then x + y + 256 else if x + y < 256 then x + y else x + y - 256
  {
  }

  lemma ModUndone(raw: Byte, p: int)
    requires 0 <= p < 256
    ensures AddByte(AddByte(raw, -p), p) == raw
    ensures AddByte(AddByte(raw, p), -p) == raw
  {
    AddByteCases(raw, -p);
    AddByteCases(AddByte(raw, -p), p);
    AddByteCases(raw, p);
    AddByteCases(AddByte(raw, p), -p);
  }

  /** Unfiltering inverts filtering, whatever the filter, the pixel size and the rows. */
  lemma {:induction false} UnfilteringInvertsFiltering(filter: int, channels: nat, row: seq<Byte>, previous: seq<Byte>, n: nat)
    requires channels > 0 && KnownFilter(filter) && n <= |row| == |previous|
    ensures Unfiltered(filter, channels, Filtered(filter, channels, row, previous), previous, n) == row[..n]
  {
    hide Predict, AddByte;
    if n > 0 {
      var p := Predict(filter, channels, row, previous, n - 1);
      UnfilteringInvertsFiltering(filter, channels, row, previous, n - 1);
      assert Predict(filter, channels, row[..n - 1], previous, n - 1) == p by {
        PredictDependsOnThePast(filter, channels, row[..n - 1], row, previous, n - 1);
      }
      assert AddByte(AddByte(row[n - 1], -p), p) == row[n - 1] by { ModUndone(row[n - 1], p); }
      assert row[..n] == row[..n - 1] + [row[n - 1]];
    }
  }

  lemma {:induction false} UnfilteredPrefix(filter: int, channels: nat, line: seq<Byte>, previous: seq<Byte>, n: nat, k: nat)
    requires channels > 0 && KnownFilter(filter) && k <= n <= |line| == |previous|
    ensures Unfiltered(filter, channels, line, previous, n)[..k] == Unfiltered(filter, channels, line, previous, k)
  {
    var row := Unfiltered(filter, channels, line, previous, n);
    if k < n {
      UnfilteredPrefix(filter, channels, line, previous, n - 1, k);
      assert row[..k] == row[..n - 1][..k];
    } else {
      assert row[..k] == row;
    }
  }

  /** Filtering inverts unfiltering: no two lines decode to the same row. */
  lemma FilteringInvertsUnfiltering(filter: int, channels: nat, line: seq<Byte>, previous: seq<Byte>)
    requires channels > 0 && KnownFilter(filter) && |line| == |previous|
    ensures Filtered(filter, channels, Unfiltered(filter, channels, line, previous, |line|), previous) == line
  {
    var row := Unfiltered(filter, channels, line, previous, |line|);
    var again := Filtered(filter, channels, row, previous);
    forall i | 0 <= i < |line|
      ensures again[i] == line[i]
    {
      var before := Unfiltered(filter, channels, line, previous, i);
      UnfilteredPrefix(filter, channels, line, previous, |line|, i);
      UnfilteredPrefix(filter, channels, line, previous, |line|, i + 1);
      assert row[i] == row[..i + 1][i];
      PredictDependsOnThePast(filter, channels, before, row, previous, i);
      ModUndone(line[i], Predict(filter, channels, row, previous, i));
    }
  }

  /**
   `_unfilter_png_row`: the line is rewritten in place, byte by byte from the left. An
   unknown filter type is refused and leaves the line alone.
   */
  method UnfilterPngRow(row: array<Byte>, previous: array<Byte>, filter: int, channels: nat) returns (ok: bool)
    requires row != previous && row.Length == previous.Length && channels > 0
    modifies row
    ensures ok <==> KnownFilter(filter)
    ensures row[..] == if ok then Unfiltered(filter, channels, old(row[..]), previous[..], row.Length) else old(row[..])
  {
    if filter == NONE {
      NothingToUnfilter(channels, row[..], previous[..], row.Length);
    } else if filter == SUB {
      UnfilterSub(row, previous, channels);
    } else if filter == UP {
      UnfilterUp(row, previous, channels);
    } else if filter == AVERAGE {
      UnfilterAverage(row, previous, channels);
    } else if filter == PAETH {
      UnfilterPaeth(row, previous, channels);
    } else {
      return false;
    }
    return true;
  }

  method UnfilterSub(row: array<Byte>, previous: array<Byte>, channels: nat)
    requires row != previous && row.Length == previous.Length && channels > 0
    modifies row
    ensures row[..] == Unfiltered(SUB, channels, old(row[..]), previous[..], row.Length)
  {
    ghost var line, above := row[..], previous[..];
    var i := 0;
    while i < row.Length
      invariant Rewritten(SUB, channels, line, above, row, i)
    {
      var left: int := if i >= channels then row[i - channels] else 0;
      RewriteStep(SUB, channels, line, above, row, i);
      row[i] := AddByte(row[i], left);
      i := i + 1;
    }
    assert row[..] == row[..row.Length];
  }

  method UnfilterUp(row: array<Byte>, previous: array<Byte>, channels: nat)
    requires row != previous && row.Length == previous.Length && channels > 0
    modifies row
    ensures row[..] == Unfiltered(UP, channels, old(row[..]), previous[..], row.Length)
  {
    ghost var line, above := row[..], previous[..];
    var i := 0;
    while i < row.Length
      invariant Rewritten(UP, channels, line, above, row, i)
    {
      RewriteStep(UP, channels, line, above, row, i);
      row[i] := AddByte(row[i], previous[i]);
      i := i + 1;
    }
    assert row[..] == row[..row.Length];
  }

  method UnfilterAverage(row: array<Byte>, previous: array<Byte>, channels: nat)
    requires row != previous && row.Length == previous.Length && channels > 0
    modifies row
    ensures row[..] == Unfiltered(AVERAGE, channels, old(row[..]), previous[..], row.Length)
  {
    ghost var line, above := row[..], previous[..];
    var i := 0;
    while i < row.Length
      invariant Rewritten(AVERAGE, channels, line, above, row, i)
    {
      var left: int := if i >= channels then row[i - channels] else 0;
      var up: int := previous[i];
      RewriteStep(AVERAGE, channels, line, above, row, i);
      row[i] := AddByte(row[i], (left + up) / 2);
      i := i + 1;
    }
    assert row[..] == row[..row.Length];
  }

  method UnfilterPaeth(row: array<Byte>, previous: array<Byte>, channels: nat)
    requires row != previous && row.Length == previous.Length && channels > 0
    modifies row
    ensures row[..] == Unfiltered(PAETH, channels, old(row[..]), previous[..], row.Length)
  {
    hide Unfiltered, PaethPredictor, AddByte;
    ghost var line, above := row[..], previous[..];
    var i := 0;
    while i < row.Length
      invariant Rewritten(PAETH, channels, line, above, row, i)
    {
      var left: int := if i >= channels then row[i - channels] else 0;
      var up: int := previous[i];
      var upperLeft: int := if i >= channels then previous[i - channels] else 0;
      RewriteStep(PAETH, channels, line, above, row, i);
      row[i] := AddByte(row[i], PaethPredictor(left, up, upperLeft));
      i := i + 1;
    }
    assert row[..] == row[..row.Length];
  }

  /** The first `i` bytes are reconstructed and the rest are still those of the line. */
  ghost predicate Rewritten(filter: int, channels: nat, line: seq<Byte>, above: seq<Byte>, row: array<Byte>, i: nat)
    requires channels > 0 && KnownFilter(filter)
    reads row
  {
    && i <= row.Length == |line| == |above|
    && row[..i] == Unfiltered(filter, channels, line, above, i)
    && row[i..] == line[i..]
  }

  lemma RewriteStep(filter: int, channels: nat, line: seq<Byte>, above: seq<Byte>, row: array<Byte>, i: nat)
    requires channels > 0 && KnownFilter(filter) && i < row.Length && Rewritten(filter, channels, line, above, row, i)
    ensures row[i] == line[i]
    ensures Predict(filter, channels, row[..i], above, i) == Predict(filter, channels, Unfiltered(filter, channels, line, above, i), above, i)
    ensures i >= channels ==> row[..i][i - channels] == row[i - channels]
    ensures Unfiltered(filter, channels, line, above, i + 1) ==
            row[..i] + [AddByte(line[i], Predict(filter, channels, row[..i], above, i))]
  {
    assert row[i..][0] == line[i..][0];
  }

  lemma {:induction false} NothingToUnfilter(channels: nat, line: seq<Byte>, above: seq<Byte>, n: nat)
    requires channels > 0 && n <= |line| == |above|
    ensures Unfiltered(NONE, channels, line, above, n) == line[..n]
  {
    if n > 0 {
      NothingToUnfilter(channels, line, above, n - 1);
      assert line[..n] == line[..n - 1] + [line[n - 1]];
    }
  }
}
