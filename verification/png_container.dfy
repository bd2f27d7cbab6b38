/**
 The chunk walk of `_decode_png` in app/worker/odr_worker/detection.py (RFC 2083,
 sections 3.1, 3.2 and 4.1) and the container round trip. Decompression is a parameter;
 checksums are four bytes that nobody reads.
 */
module PngContainer {
  import opened Common
  import opened PngFilter
  import opened PngRows

  type Bytes = seq<Byte>

  const SIGNATURE: Bytes := [0x89, 0x50, 0x4E, 0x47, 0x0D, 0x0A, 0x1A, 0x0A]
  const IHDR: Bytes := [0x49, 0x48, 0x44, 0x52]
  const IDAT: Bytes := [0x49, 0x44, 0x41, 0x54]
  const IEND: Bytes := [0x49, 0x45, 0x4E, 0x44]

  datatype Header = Header(width: nat, height: nat, bitDepth: Byte, color: Byte, interlace: Byte)

  datatype Image = Image(width: nat, height: nat, pixels: Bytes)

  /** What the walk has gathered: the last header and the data of the IDAT chunks so far. */
  datatype Gathered = Gathered(header: Option<Header>, parts: seq<Bytes>)

  // ----- Big-endian words -------------------------------------------------------

  function Word(content: Bytes, pos: nat): nat
    requires pos + 4 <= |content|
  {
    Append8(Append8(Append8(content[pos], content[pos + 1]), content[pos + 2]), content[pos + 3])
  }

  function Append8(high: nat, low: nat): nat {
    high * 256 + low
  }

  function WordBytes(n: nat): (w: Bytes)
    requires n < 0x1_0000_0000
    ensures |w| == 4
  {
    var n1 := n / 256;
    var n2 := n1 / 256;
    [n2 / 256, n2 % 256, n1 % 256, n % 256]
  }

  lemma WordRoundTrip(n: nat)
    requires n < 0x1_0000_0000
    ensures Word(WordBytes(n), 0) == n
  {
    var n1 := n / 256;
    var n2 := n1 / 256;
    assert Append8(n2 / 256, n2 % 256) == n2;
    assert Append8(n2, n1 % 256) == n1;
    assert Append8(n1, n % 256) == n;
  }

  // ----- The walk over the chunks -------------------------------------------------

  function ParseHeader(data: Bytes): Header
    requires |data| == 13
  {
    Header(Word(data, 0), Word(data, 4), data[8], data[9], data[12])
  }

  /** Where the chunk after one of the given length starts: eight bytes of head and four of checksum. */
  function NextChunk(pos: nat, length: nat): nat { pos + 12 + length }

  function Walk(content: Bytes, pos: nat, g: Gathered): Result<Gathered, PngError>
    decreases |content| - pos
  {
    if pos + 8 > |content| then Ok(g)
    else
      var length := Word(content, pos);
      var kind := content[pos + 4..pos + 8];
      if NextChunk(pos, length) > |content| then Err(TruncatedChunk)
      else
        var data := content[pos + 8..pos + 8 + length];
        if kind == IHDR then
          if length != 13 then Err(InvalidIhdr)
          else Walk(content, NextChunk(pos, length), g.(header := Some(ParseHeader(data))))
        else if kind == IDAT then Walk(content, NextChunk(pos, length), g.(parts := g.parts + [data]))
        else if kind == IEND then Ok(g)
        else Walk(content, NextChunk(pos, length), g)
  }

  method WalkChunks(content: Bytes, start: nat) returns (r: Result<Gathered, PngError>)
    ensures r == Walk(content, start, Gathered(None, []))
  {
    var pos := start;
    var header: Option<Header> := None;
    var parts: seq<Bytes> := [];
    while pos + 8 <= |content|
      invariant Walk(content, start, Gathered(None, [])) == Walk(content, pos, Gathered(header, parts))
      decreases |content| - pos
    {
      var length := Word(content, pos);
      var kind := content[pos + 4..pos + 8];
      var chunkEnd := pos + 8 + length;
      var crcEnd := chunkEnd + 4;
      if crcEnd > |content| {
        return Err(TruncatedChunk);
      }
      var chunk := content[pos + 8..chunkEnd];
      pos := crcEnd;
      if kind == IHDR {
        if length != 13 {
          return Err(InvalidIhdr);
        }
        header := Some(ParseHeader(chunk));
      } else if kind == IDAT {
        parts := parts + [chunk];
      } else if kind == IEND {
        break;
      }
    }
    return Ok(Gathered(header, parts));
  }

  function Concat(parts: seq<Bytes>, n: nat): Bytes
    requires n <= |parts|
  {
    if n == 0 then [] else Concat(parts, n - 1) + parts[n - 1]
  }

  /** The checks between the walk and the rows, in the order the code makes them. */
  function CheckHeader(g: Gathered): Result<Header, PngError> {
    if g.header.None? then Err(MissingIhdr)
    else
      var h := g.header.value;
      if h.width < 1 || h.height < 1 then Err(InvalidSize)
      else if h.bitDepth != 8 then Err(UnsupportedBitDepth)
      else if !KnownColor(h.color) then Err(UnsupportedColor)
      else if h.interlace != 0 then Err(UnsupportedInterlace)
      else if g.parts == [] then Err(MissingIdat)
      else Ok(h)
  }

  function Decode(content: Bytes, inflate: Bytes -> Option<Bytes>): Result<Image, PngError> {
    if |content| < 8 || content[..8] != SIGNATURE then Err(NotPng)
    else
      match Walk(content, 8, Gathered(None, []))
      case Err(e) => Err(e)
      case Ok(g) =>
        match CheckHeader(g)
        case Err(e) => Err(e)
        case Ok(h) => DecodeBody(h, inflate(Concat(g.parts, |g.parts|)))
  }

  function DecodeBody(h: Header, inflated: Option<Bytes>): Result<Image, PngError>
    requires KnownColor(h.color)
  {
    var size := RowSize(h.width, h.color);
    match inflated
    case None => Err(InvalidCompression)
    case Some(raw) =>
      if |raw| != RowStart(h.height, size) then Err(InvalidDataSize)
      else
        match DecodeRows(raw, h.color, h.width, h.height, 0, Zeros(size), [])
        case Err(e) => Err(e)
        case Ok(pixels) => Ok(Image(h.width, h.height, pixels))
  }

  /** `_decode_png`. */
  method DecodePng(content: Bytes, inflate: Bytes -> Option<Bytes>) returns (r: Result<Image, PngError>)
    ensures r == Decode(content, inflate)
  {
    if |content| < 8 || content[..8] != SIGNATURE {
      return Err(NotPng);
    }
    var walked := WalkChunks(content, 8);
    if walked.Err? {
      return Err(walked.error);
    }
    var g := walked.value;
    var checked := CheckHeader(g);
    if checked.Err? {
      return Err(checked.error);
    }
    var h := checked.value;
    var inflated := inflate(Concat(g.parts, |g.parts|));
    if inflated.None? {
      return Err(InvalidCompression);
    }
    var expected := h.height * (RowSize(h.width, h.color) + 1);
    OffsetIsProduct(h.height, RowSize(h.width, h.color) + 1);
    if |inflated.value| != expected {
      return Err(InvalidDataSize);
    }
    var pixels := DecodePngRows(inflated.value, h.color, h.width, h.height);
    return match pixels case Err(e) => Err(e) case Ok(p) => Ok(Image(h.width, h.height, p));
  }

  // ----- Every decoded image is well formed ---------------------------------------

  lemma {:induction false} DecodedRowsFillTheImage(raw: Bytes, color: int, width: nat, height: nat, k: nat, previous: Bytes, pixels: Bytes)
    requires KnownColor(color) && |previous| == RowSize(width, color) && k <= height
    requires |raw| == RowStart(height, RowSize(width, color)) && |pixels| == Offset(k, width)
    ensures var r := DecodeRows(raw, color, width, height, k, previous, pixels);
            r.Ok? ==> |r.value| == Offset(height, width)
    decreases height - k
  {
    if k < height {
      var size := RowSize(width, color);
      DecodeStep(raw, color, width, height, k, previous, pixels);
      var start := RowStart(k, size);
      if KnownFilter(raw[start]) {
        var row := Unfiltered(raw[start], Channels(color), LineAt(raw, start, size), previous, size);
        DecodedRowsFillTheImage(raw, color, width, height, k + 1, row, pixels + LumaRow(row, color, width));
      }
    }
  }

  /** Whatever the bytes are, an accepted image has a positive size and one byte per pixel. */
  lemma DecodedImageIsFull(content: Bytes, inflate: Bytes -> Option<Bytes>)
    ensures var r := Decode(content, inflate);
            r.Ok? ==> r.value.width >= 1 && r.value.height >= 1
                      && |r.value.pixels| == r.value.width * r.value.height
  {
    var r := Decode(content, inflate);
    if r.Ok? {
      var g := Walk(content, 8, Gathered(None, [])).value;
      var h := g.header.value;
      var raw := inflate(Concat(g.parts, |g.parts|)).value;
      DecodedRowsFillTheImage(raw, h.color, h.width, h.height, 0, Zeros(RowSize(h.width, h.color)), []);
      OffsetIsProduct(h.height, h.width);
    }
  }

  // ----- Chunk streams -------------------------------------------------------------

  datatype Chunk = Chunk(kind: Bytes, data: Bytes, crc: Bytes)

  predicate WellFormed(c: Chunk) {
    |c.kind| == 4 && |c.crc| == 4 && |c.data| < 0x1_0000_0000
  }

  function ChunkBytes(c: Chunk): (b: Bytes)
    requires WellFormed(c)
    ensures |b| == 12 + |c.data|
  {
    WordBytes(|c.data|) + (c.kind + (c.data + c.crc))
  }

  /** A chunk stands at `pos`. */
  predicate ChunkAt(content: Bytes, pos: nat, c: Chunk) {
    && NextChunk(pos, |c.data|) <= |content|
    && Word(content, pos) == |c.data|
    && content[pos + 4..pos + 8] == c.kind
    && content[pos + 8..pos + 8 + |c.data|] == c.data
  }

  /** The chunks from `k` on stand one after the other from `pos` on. */
  predicate ChunksAt(content: Bytes, pos: nat, chunks: seq<Chunk>, k: nat)
    requires k <= |chunks|
    decreases |chunks| - k
  {
    k < |chunks| ==>
      ChunkAt(content, pos, chunks[k]) && ChunksAt(content, NextChunk(pos, |chunks[k].data|), chunks, k + 1)
  }

  /** The bytes of the chunks from `k` on, followed by `rest`. */
  function ChunksBytes(chunks: seq<Chunk>, k: nat, rest: Bytes): Bytes
    requires k <= |chunks| && forall i :: 0 <= i < |chunks| ==> WellFormed(chunks[i])
    decreases |chunks| - k
  {
    if k == |chunks| then rest else ChunkBytes(chunks[k]) + ChunksBytes(chunks, k + 1, rest)
  }

  lemma ChunkStands(content: Bytes, pos: nat, c: Chunk, rest: Bytes)
    requires WellFormed(c) && pos <= |content| && content[pos..] == ChunkBytes(c) + rest
    ensures ChunkAt(content, pos, c) && content[NextChunk(pos, |c.data|)..] == rest
  {
    var b := ChunkBytes(c);
    var n := |c.data|;
    assert forall i :: 0 <= i < |b| ==> content[pos + i] == content[pos..][i] == b[i];
    WordRoundTrip(n);
    assert forall i :: 0 <= i < 4 ==> content[pos + i] == WordBytes(n)[i];
    assert content[pos + 0] == WordBytes(n)[0] && content[pos + 1] == WordBytes(n)[1];
    assert content[pos + 2] == WordBytes(n)[2] && content[pos + 3] == WordBytes(n)[3];
    assert b[4..8] == c.kind && b[8..8 + n] == c.data;
    assert content[pos + 4..pos + 8] == b[4..8];
    assert content[pos + 8..pos + 8 + n] == b[8..8 + n];
    assert content[NextChunk(pos, n)..] == content[pos..][12 + n..];
  }

  lemma {:induction false} ChunksStand(content: Bytes, pos: nat, chunks: seq<Chunk>, k: nat, rest: Bytes)
    requires k <= |chunks| && forall i :: 0 <= i < |chunks| ==> WellFormed(chunks[i])
    requires pos <= |content| && content[pos..] == ChunksBytes(chunks, k, rest)
    ensures ChunksAt(content, pos, chunks, k)
    decreases |chunks| - k
  {
    if k < |chunks| {
      ChunkStands(content, pos, chunks[k], ChunksBytes(chunks, k + 1, rest));
      ChunksStand(content, NextChunk(pos, |chunks[k].data|), chunks, k + 1, rest);
    }
  }

  // ----- What a stream means ---------------------------------------------------------

  /** The header of the last IHDR chunk among the first `n`. */
  function LastHeader(chunks: seq<Chunk>, n: nat): Option<Header>
    requires n <= |chunks|
  {
    if n == 0 then None
    else if chunks[n - 1].kind == IHDR && |chunks[n - 1].data| == 13 then Some(ParseHeader(chunks[n - 1].data))
    else LastHeader(chunks, n - 1)
  }

  /** The data of the IDAT chunks among the first `n`, in order. */
  function DataParts(chunks: seq<Chunk>, n: nat): seq<Bytes>
    requires n <= |chunks|
  {
    if n == 0 then []
    else if chunks[n - 1].kind == IDAT then DataParts(chunks, n - 1) + [chunks[n - 1].data]
    else DataParts(chunks, n - 1)
  }

  /** The last chunk, and no other, is IEND, and every header chunk has its fixed length. */
  predicate Stream(chunks: seq<Chunk>) {
    && |chunks| > 0
    && (forall i :: 0 <= i < |chunks| ==> WellFormed(chunks[i]))
    && (forall i :: 0 <= i < |chunks| ==> (chunks[i].kind == IEND <==> i == |chunks| - 1))
    && (forall i :: 0 <= i < |chunks| ==> chunks[i].kind == IHDR ==> |chunks[i].data| == 13)
  }

  lemma WalkStep(content: Bytes, pos: nat, c: Chunk, g: Gathered)
    requires ChunkAt(content, pos, c) && (c.kind == IHDR ==> |c.data| == 13)
    ensures Walk(content, pos, g) ==
            if c.kind == IHDR then Walk(content, NextChunk(pos, |c.data|), g.(header := Some(ParseHeader(c.data))))
            else if c.kind == IDAT then Walk(content, NextChunk(pos, |c.data|), g.(parts := g.parts + [c.data]))
            else if c.kind == IEND then Ok(g)
            else Walk(content, NextChunk(pos, |c.data|), g)
  {
  }

  /** On any stream the walk gathers the last header and the image data, and ignores what follows IEND. */
  lemma {:induction false} WalkGathers(content: Bytes, pos: nat, chunks: seq<Chunk>, k: nat)
    requires Stream(chunks) && k < |chunks| && ChunksAt(content, pos, chunks, k)
    ensures Walk(content, pos, Gathered(LastHeader(chunks, k), DataParts(chunks, k))) ==
            Ok(Gathered(LastHeader(chunks, |chunks| - 1), DataParts(chunks, |chunks| - 1)))
    decreases |chunks| - k
  {
    var c := chunks[k];
    assert WellFormed(c) && (c.kind == IEND <==> k == |chunks| - 1);
    WalkStep(content, pos, c, Gathered(LastHeader(chunks, k), DataParts(chunks, k)));
    if k < |chunks| - 1 {
      WalkGathers(content, NextChunk(pos, |c.data|), chunks, k + 1);
    }
  }

  /** A chunk stream that carries the rows of an image, each row with its own filter. */
  predicate Carries(chunks: seq<Chunk>, inflate: Bytes -> Option<Bytes>, rows: seq<Bytes>, filters: Bytes, color: int, width: nat)
    requires KnownColor(color) && Rectangular(rows, RowSize(width, color)) && FilterChoice(filters, |rows|)
  {
    var n := |chunks| - 1;
    && Stream(chunks)
    && LastHeader(chunks, n) == Some(Header(width, |rows|, 8, color, 0))
    && DataParts(chunks, n) != []
    && inflate(Concat(DataParts(chunks, n), |DataParts(chunks, n)|)) ==
       Some(Scanlines(rows, filters, Channels(color), RowSize(width, color), |rows|))
  }

  /**
   PNG container round trip. Whatever the split into IDAT chunks, the other chunks between
   them, the checksums, the filters and the bytes after IEND: decoding the stream of an
   image gives its size and its luma, pixel by pixel.
   */
  lemma ContainerRoundTrip(chunks: seq<Chunk>, inflate: Bytes -> Option<Bytes>, rows: seq<Bytes>, filters: Bytes,
                           color: int, width: nat, rest: Bytes)
    requires KnownColor(color) && Rectangular(rows, RowSize(width, color)) && FilterChoice(filters, |rows|)
    requires width >= 1 && |rows| >= 1 && Carries(chunks, inflate, rows, filters, color, width)
    ensures Decode(SIGNATURE + ChunksBytes(chunks, 0, rest), inflate) ==
            Ok(Image(width, |rows|, Pixels(rows, color, width, |rows|)))
  {
    var content := SIGNATURE + ChunksBytes(chunks, 0, rest);
    assert content[..8] == SIGNATURE && content[8..] == ChunksBytes(chunks, 0, rest);
    ChunksStand(content, 8, chunks, 0, rest);
    WalkGathers(content, 8, chunks, 0);
    RowsRoundTrip(rows, filters, color, width, 0);
  }

  /** Reading a pixel of the decoded image: it is the luma of the source pixel. */
  lemma DecodedPixel(rows: seq<Bytes>, color: int, width: nat, y: nat, x: nat)
    requires KnownColor(color) && Rectangular(rows, RowSize(width, color)) && y < |rows| && x < width
    ensures y * width + x < |Pixels(rows, color, width, |rows|)|
    ensures Pixels(rows, color, width, |rows|)[y * width + x] == Luma(rows[y], color, x)
  {
    PixelAt(rows, color, width, |rows|, y, x);
    OffsetIsProduct(y, width);
  }

  // ----- The plain encoder ------------------------------------------------------------

  function HeaderData(h: Header): (data: Bytes)
    requires h.width < 0x1_0000_0000 && h.height < 0x1_0000_0000
    ensures |data| == 13
  {
    WordBytes(h.width) + (WordBytes(h.height) + [h.bitDepth, h.color, 0, 0, h.interlace])
  }

  lemma HeaderRoundTrip(h: Header)
    requires h.width < 0x1_0000_0000 && h.height < 0x1_0000_0000
    ensures ParseHeader(HeaderData(h)) == h
  {
    var data := HeaderData(h);
    WordRoundTrip(h.width);
    WordRoundTrip(h.height);
    assert data[4] == WordBytes(h.height)[0] && data[5] == WordBytes(h.height)[1];
    assert data[6] == WordBytes(h.height)[2] && data[7] == WordBytes(h.height)[3];
  }

  /** The chunks of the reference encoder: header, one data chunk, end. */
  function PlainChunks(h: Header, z: Bytes, crc: Bytes -> Bytes): seq<Chunk>
    requires h.width < 0x1_0000_0000 && h.height < 0x1_0000_0000
  {
    [Chunk(IHDR, HeaderData(h), crc(IHDR + HeaderData(h))), Chunk(IDAT, z, crc(IDAT + z)), Chunk(IEND, [], crc(IEND))]
  }

  lemma PlainChunksCarry(h: Header, z: Bytes, crc: Bytes -> Bytes)
    requires h.width < 0x1_0000_0000 && h.height < 0x1_0000_0000 && |z| < 0x1_0000_0000
    requires forall data :: |crc(data)| == 4
    ensures var chunks := PlainChunks(h, z, crc);
            Stream(chunks) && LastHeader(chunks, 2) == Some(h) && DataParts(chunks, 2) == [z]
  {
    var chunks := PlainChunks(h, z, crc);
    HeaderRoundTrip(h);
    assert LastHeader(chunks, 1) == Some(h);
    assert DataParts(chunks, 1) == [];
  }

  /**
   The reference encoder's stream decodes to the image, for any compressor and
   decompressor that agree on its scan lines.
   */
  lemma PlainEncodingDecodes(rows: seq<Bytes>, filters: Bytes, color: int, width: nat,
                             z: Bytes, inflate: Bytes -> Option<Bytes>, crc: Bytes -> Bytes)
    requires KnownColor(color) && Rectangular(rows, RowSize(width, color)) && FilterChoice(filters, |rows|)
    requires 1 <= width < 0x1_0000_0000 && 1 <= |rows| < 0x1_0000_0000 && |z| < 0x1_0000_0000
    requires inflate(z) == Some(Scanlines(rows, filters, Channels(color), RowSize(width, color), |rows|))
    requires forall data :: |crc(data)| == 4
    ensures var chunks := PlainChunks(Header(width, |rows|, 8, color, 0), z, crc);
            && Stream(chunks)
            && Decode(SIGNATURE + ChunksBytes(chunks, 0, []), inflate) ==
               Ok(Image(width, |rows|, Pixels(rows, color, width, |rows|)))
  {
    var h := Header(width, |rows|, 8, color, 0);
    PlainChunksCarry(h, z, crc);
    assert Concat([z], 1) == Concat([z], 0) + z == z;
    ContainerRoundTrip(PlainChunks(h, z, crc), inflate, rows, filters, color, width, []);
  }
}
