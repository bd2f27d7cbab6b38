/**
 Images as PNG scan lines: the loop over the rows of app/worker/odr_worker/detection.py,
 the conversion to luma, and the encoder they invert.
 */
module PngRows {
  import opened Common
  import opened PngFilter

  // ----- Luma -----------------------------------------------------------------

  const GREY: int := 0
  const RGB: int := 2
  const RGBA: int := 6

  predicate KnownColor(color: int) {
    color == GREY || color == RGB || color == RGBA
  }

  function Channels(color: int): (n: nat)
    requires KnownColor(color)
    ensures n > 0
  {
    if color == GREY then 1 else if color == RGB then 3 else 4
  }

  /** The bytes of a row; a term that positions in the decompressed data can hang on. */
  function RowSize(width: nat, color: int): nat
    requires KnownColor(color)
  {
    if color == GREY then width else if color == RGB then 3 * width else 4 * width
  }

  /** The luma of one pixel; grey pixels are kept. */
  function Luma(row: seq<Byte>, color: int, x: nat): (v: Byte)
    requires KnownColor(color) && RowSize(x + 1, color) <= |row|
  {
    if color == GREY then row[x]
    else
      var i := RowSize(x, color);
      Weighted(row[i], row[i + 1], row[i + 2])
  }

  function Weighted(red: Byte, green: Byte, blue: Byte): (v: Byte)
    ensures red <= green && red <= blue ==> red <= v
    ensures green <= red && blue <= red ==> v <= red
  {
    (red * 299 + green * 587 + blue * 114) / 1000
  }

  function LumaRow(row: seq<Byte>, color: int, width: nat): (values: seq<Byte>)
    requires KnownColor(color) && |row| == RowSize(width, color)
    ensures |values| == width
    ensures forall x :: 0 <= x < width ==> values[x] == Luma(row, color, x)
  {
    seq(width, x requires 0 <= x < width => Luma(row, color, x))
  }

  /** `_png_row_to_luma`. */
  method PngRowToLuma(row: array<Byte>, color: int, width: nat) returns (values: seq<Byte>)
    requires KnownColor(color) && row.Length == RowSize(width, color)
    ensures values == LumaRow(row[..], color, width)
  {
    if color == GREY {
      return row[..];
    }
    values := [];
    ghost var target := LumaRow(row[..], color, width);
    var x := 0;
    while x < width
      invariant 0 <= x <= width
      invariant values == target[..x]
    {
      var index := RowSize(x, color);
      var value := Weighted(row[index], row[index + 1], row[index + 2]);
      assert Luma(row[..], color, x) == Weighted(row[..][index], row[..][index + 1], row[..][index + 2]);
      assert value == target[x];
      assert target[..x + 1] == target[..x] + [target[x]];
      values := values + [value];
      x := x + 1;
    }
  }

  // ----- Decoding the rows ------------------------------------------------------

  datatype PngError =
    | NotPng | TruncatedChunk | InvalidIhdr | MissingIhdr | InvalidSize | UnsupportedBitDepth
    | UnsupportedColor | UnsupportedInterlace | MissingIdat | InvalidCompression
    | InvalidDataSize | UnsupportedFilter

  /** Where element `k` starts when each takes `size` places: `k * size`, step by step. */
  function Offset(k: nat, size: nat): nat {
    if k == 0 then 0 else Offset(k - 1, size) + size
  }

  lemma {:induction false} OffsetIsProduct(k: nat, size: nat)
    ensures Offset(k, size) == k * size
  {
    if k > 0 {
      OffsetIsProduct(k - 1, size);
      assert k * size == (k - 1) * size + size;
    }
  }

  lemma {:induction false} OffsetMonotone(k: nat, n: nat, size: nat)
    requires k <= n
    ensures Offset(k, size) <= Offset(n, size)
    decreases n - k
  {
    if k < n {
      OffsetMonotone(k + 1, n, size);
    }
  }

  /** Where row `k` starts in the decompressed data; each row has one filter byte. */
  function RowStart(k: nat, rowSize: nat): nat {
    Offset(k, rowSize + 1)
  }

  /** The filtered bytes of the row that starts at `start`, after its filter byte. */
  function LineAt(raw: seq<Byte>, start: nat, size: nat): (line: seq<Byte>)
    requires start + size < |raw|
    ensures |line| == size
  {
    raw[start + 1..start + 1 + size]
  }

  function Zeros(n: nat): (z: seq<Byte>)
    ensures |z| == n
  {
    seq(n, _ => 0)
  }

  /** The pixels when `k` rows are done, `previous` is the last of them and `pixels` its output. */
  function DecodeRows(raw: seq<Byte>, color: int, width: nat, height: nat, k: nat, previous: seq<Byte>, pixels: seq<Byte>)
    : Result<seq<Byte>, PngError>
    requires KnownColor(color) && |previous| == RowSize(width, color) && k <= height
    requires |raw| == RowStart(height, RowSize(width, color))
    decreases height - k
  {
    var size := RowSize(width, color);
    if k == height then Ok(pixels)
    else
      OffsetMonotone(k + 1, height, size + 1);
      var start := RowStart(k, size);
      var filter := raw[start];
      if !KnownFilter(filter) then Err(UnsupportedFilter)
      else
        var row := Unfiltered(filter, Channels(color), LineAt(raw, start, size), previous, size);
        DecodeRows(raw, color, width, height, k + 1, row, pixels + LumaRow(row, color, width))
  }

  lemma DecodeStep(raw: seq<Byte>, color: int, width: nat, height: nat, k: nat, previous: seq<Byte>, pixels: seq<Byte>)
    requires KnownColor(color) && |previous| == RowSize(width, color) && k < height
    requires |raw| == RowStart(height, RowSize(width, color))
    ensures var size := RowSize(width, color);
            var start := RowStart(k, size);
            && start + size < |raw|
            && DecodeRows(raw, color, width, height, k, previous, pixels) ==
               if !KnownFilter(raw[start]) then Err(UnsupportedFilter)
               else
                 var row := Unfiltered(raw[start], Channels(color), LineAt(raw, start, size), previous, size);
                 DecodeRows(raw, color, width, height, k + 1, row, pixels + LumaRow(row, color, width))
  {
    OffsetMonotone(k + 1, height, RowSize(width, color) + 1);
  }

  lemma DecodingEnds(raw: seq<Byte>, color: int, width: nat, height: nat, previous: seq<Byte>, pixels: seq<Byte>)
    requires KnownColor(color) && |previous| == RowSize(width, color) && |raw| == RowStart(height, RowSize(width, color))
    ensures DecodeRows(raw, color, width, height, height, previous, pixels) == Ok(pixels)
  {
  }

  method CopyLine(raw: seq<Byte>, start: nat, size: nat) returns (row: array<Byte>)
    requires start + size < |raw|
    ensures fresh(row) && row.Length == size && row[..] == LineAt(raw, start, size)
  {
    row := new Byte[size](i requires 0 <= i < size => raw[start + 1 + i]);
    assert row[..] == raw[start + 1..start + 1 + size];
  }

  /** The loop over the rows of `_decode_png`. */
  method DecodePngRows(raw: seq<Byte>, color: int, width: nat, height: nat) returns (r: Result<seq<Byte>, PngError>)
    requires KnownColor(color) && |raw| == RowStart(height, RowSize(width, color))
    ensures r == DecodeRows(raw, color, width, height, 0, Zeros(RowSize(width, color)), [])
  {
    hide DecodeRows, Unfiltered, LumaRow, LineAt;
    var rowSize := RowSize(width, color);
    var pixels := [];
    var previous := new Byte[rowSize](_ => 0);
    assert previous[..] == Zeros(rowSize);
    var offset := 0;
    var k := 0;
    ghost var goal := DecodeRows(raw, color, width, height, 0, Zeros(rowSize), []);
    while k < height
      invariant 0 <= k <= height && previous.Length == rowSize && offset == RowStart(k, rowSize)
      invariant goal == DecodeRows(raw, color, width, height, k, previous[..], pixels)
    {
      OffsetMonotone(k + 1, height, rowSize + 1);
      DecodeStep(raw, color, width, height, k, previous[..], pixels);
      var filter := raw[offset];
      var row := CopyLine(raw, offset, rowSize);
      offset := offset + 1 + rowSize;
      var ok := UnfilterPngRow(row, previous, filter, Channels(color));
      if !ok {
        return Err(UnsupportedFilter);
      }
      var values := PngRowToLuma(row, color, width);
      pixels := pixels + values;
      previous := row;
      k := k + 1;
    }
    DecodingEnds(raw, color, width, height, previous[..], pixels);
    return Ok(pixels);
  }

  // ----- The encoder and the round trip -----------------------------------------

  /** The reconstructed row above row `k`. */
  function Above(rows: seq<seq<Byte>>, k: nat, rowSize: nat): seq<Byte>
    requires k <= |rows|
  {
    if k == 0 then Zeros(rowSize) else rows[k - 1]
  }

  predicate Rectangular(rows: seq<seq<Byte>>, rowSize: nat) {
    forall k :: 0 <= k < |rows| ==> |rows[k]| == rowSize
  }

  /** One filter per row, each of the five kinds. */
  predicate FilterChoice(filters: seq<Byte>, n: nat) {
    |filters| == n && forall k :: 0 <= k < n ==> KnownFilter(filters[k])
  }

  /** The first `n` scan lines, each with its filter byte. */
  function Scanlines(rows: seq<seq<Byte>>, filters: seq<Byte>, channels: nat, rowSize: nat, n: nat): (raw: seq<Byte>)
    requires Rectangular(rows, rowSize) && FilterChoice(filters, |rows|) && channels > 0 && n <= |rows|
    ensures |raw| == RowStart(n, rowSize)
  {
    if n == 0 then []
    else Scanlines(rows, filters, channels, rowSize, n - 1) + Scanline(rows, filters, channels, rowSize, n - 1)
  }

  function Scanline(rows: seq<seq<Byte>>, filters: seq<Byte>, channels: nat, rowSize: nat, k: nat): (line: seq<Byte>)
    requires Rectangular(rows, rowSize) && FilterChoice(filters, |rows|) && channels > 0 && k < |rows|
    ensures |line| == rowSize + 1
  {
    [filters[k]] + Filtered(filters[k], channels, rows[k], Above(rows, k, rowSize))
  }

  lemma {:induction false} ScanlineAt(rows: seq<seq<Byte>>, filters: seq<Byte>, channels: nat, rowSize: nat, n: nat, k: nat)
    requires Rectangular(rows, rowSize) && FilterChoice(filters, |rows|) && channels > 0 && k < n <= |rows|
    ensures RowStart(k, rowSize) + rowSize < RowStart(n, rowSize)
    ensures forall i :: 0 <= i <= rowSize ==>
              Scanlines(rows, filters, channels, rowSize, n)[RowStart(k, rowSize) + i] ==
              Scanline(rows, filters, channels, rowSize, k)[i]
  {
    var start := RowStart(k, rowSize);
    var before, last := Scanlines(rows, filters, channels, rowSize, n - 1), Scanline(rows, filters, channels, rowSize, n - 1);
    assert Scanlines(rows, filters, channels, rowSize, n) == before + last;
    OffsetMonotone(k + 1, n, rowSize + 1);
    if k < n - 1 {
      ScanlineAt(rows, filters, channels, rowSize, n - 1, k);
    }
  }

  /** The luma of the first `n` rows. */
  function Pixels(rows: seq<seq<Byte>>, color: int, width: nat, n: nat): (pixels: seq<Byte>)
    requires KnownColor(color) && Rectangular(rows, RowSize(width, color)) && n <= |rows|
    ensures |pixels| == Offset(n, width)
  {
    if n == 0 then [] else Pixels(rows, color, width, n - 1) + LumaRow(rows[n - 1], color, width)
  }

  lemma {:induction false} PixelAt(rows: seq<seq<Byte>>, color: int, width: nat, n: nat, y: nat, x: nat)
    requires KnownColor(color) && Rectangular(rows, RowSize(width, color)) && y < n <= |rows| && x < width
    ensures Offset(y, width) + x < Offset(n, width)
    ensures Pixels(rows, color, width, n)[Offset(y, width) + x] == LumaRow(rows[y], color, width)[x]
  {
    var before := Pixels(rows, color, width, n - 1);
    assert Pixels(rows, color, width, n) == before + LumaRow(rows[n - 1], color, width);
    if y < n - 1 {
      PixelAt(rows, color, width, n - 1, y, x);
    }
  }

  /** Row by row, decoding the scan lines of any image with any filters gives its luma. */
  lemma {:induction false} RowsRoundTrip(rows: seq<seq<Byte>>, filters: seq<Byte>, color: int, width: nat, k: nat)
    requires KnownColor(color) && Rectangular(rows, RowSize(width, color)) && FilterChoice(filters, |rows|) && k <= |rows|
    ensures var size := RowSize(width, color);
            DecodeRows(Scanlines(rows, filters, Channels(color), size, |rows|), color, width, |rows|, k,
                       Above(rows, k, size), Pixels(rows, color, width, k))
            == Ok(Pixels(rows, color, width, |rows|))
    decreases |rows| - k
  {
    hide DecodeRows, Unfiltered, Filtered, LumaRow, Scanlines, LineAt, Offset;
    if k == |rows| {
      DecodingEnds(Scanlines(rows, filters, Channels(color), RowSize(width, color), |rows|), color, width, k,
                   Above(rows, k, RowSize(width, color)), Pixels(rows, color, width, k));
    } else {
      var size := RowSize(width, color);
      var raw := Scanlines(rows, filters, Channels(color), size, |rows|);
      var above, pixels := Above(rows, k, size), Pixels(rows, color, width, k);
      assert DecodeRows(raw, color, width, |rows|, k, above, pixels) ==
             DecodeRows(raw, color, width, |rows|, k + 1, rows[k], pixels + LumaRow(rows[k], color, width)) by {
        DecodeStep(raw, color, width, |rows|, k, above, pixels);
        ScanlineIsDecoded(rows, filters, color, width, k);
      }
      RowsRoundTrip(rows, filters, color, width, k + 1);
    }
  }

  lemma ScanlineIsRead(rows: seq<seq<Byte>>, filters: seq<Byte>, channels: nat, size: nat, k: nat)
    requires Rectangular(rows, size) && FilterChoice(filters, |rows|) && channels > 0 && k < |rows|
    ensures var raw, start := Scanlines(rows, filters, channels, size, |rows|), RowStart(k, size);
            && start + size < |raw| && raw[start] == filters[k]
            && LineAt(raw, start, size) == Filtered(filters[k], channels, rows[k], Above(rows, k, size))
  {
    var raw, start := Scanlines(rows, filters, channels, size, |rows|), RowStart(k, size);
    var line := Scanline(rows, filters, channels, size, k);
    var filtered := Filtered(filters[k], channels, rows[k], Above(rows, k, size));
    ScanlineAt(rows, filters, channels, size, |rows|, k);
    assert raw[start + 0] == line[0];
    assert line == [filters[k]] + filtered;
    forall i | 0 <= i < size
      ensures LineAt(raw, start, size)[i] == filtered[i]
    {
      var m := i + 1;
      assert raw[start + m] == line[m];
    }
  }

  lemma ScanlineIsDecoded(rows: seq<seq<Byte>>, filters: seq<Byte>, color: int, width: nat, k: nat)
    requires KnownColor(color) && Rectangular(rows, RowSize(width, color)) && FilterChoice(filters, |rows|) && k < |rows|
    ensures var size := RowSize(width, color);
            var raw, start := Scanlines(rows, filters, Channels(color), size, |rows|), RowStart(k, size);
            && start + size < |raw| && raw[start] == filters[k]
            && Unfiltered(filters[k], Channels(color), LineAt(raw, start, size), Above(rows, k, size), size) == rows[k]
  {
    var size := RowSize(width, color);
    ScanlineIsRead(rows, filters, Channels(color), size, k);
    UnfilteringInvertsFiltering(filters[k], Channels(color), rows[k], Above(rows, k, size), size);
    assert rows[k][..size] == rows[k];
  }
}
