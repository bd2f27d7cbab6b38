/**
 Matching templates against a frame, `match_templates` of
 app/worker/odr_worker/detection.py: decoder and search together, from the bytes of two
 PNG streams to the verdict.
 */
module TemplateMatching {
  import opened Common
  import opened Detection
  import opened ImageSearch
  import opened PngContainer
  import opened PngFilter
  import opened PngRows

  datatype Template = Template(name: string, kind: TemplateKind, threshold: real, content: Bytes)

  datatype Match = Match(name: string, score: real, seen: TemplateMatch)

  /** `_decode_png_or_none`. */
  function DecodeOrNone(content: Bytes, inflate: Bytes -> Option<Bytes>): (image: Option<Image>)
    ensures image.Some? ==> Full(image.value)
  {
    DecodedIsFull(content, inflate);
    match Decode(content, inflate)
    case Ok(decoded) => Some(decoded)
    case Err(_) => None
  }

  method DecodePngOrNone(content: Bytes, inflate: Bytes -> Option<Bytes>) returns (image: Option<Image>)
    ensures image == DecodeOrNone(content, inflate)
  {
    var decoded := DecodePng(content, inflate);
    return match decoded case Ok(picture) => Some(picture) case Err(_) => None;
  }

  /** Python's `part in whole` on bytes. */
  predicate Contains(whole: Bytes, part: Bytes) {
    exists i :: 0 <= i <= |whole| - |part| && StandsAt(whole, part, i)
  }

  predicate StandsAt(whole: Bytes, part: Bytes, i: nat)
    requires i + |part| <= |whole|
  {
    whole[i..i + |part|] == part
  }

  /** The score a template deserves: that of the exhaustive comparison of images, or of plain containment. */
  ghost predicate Deserves(content: Bytes, frame: Bytes, inflate: Bytes -> Option<Bytes>, score: real) {
    match (DecodeOrNone(content, inflate), DecodeOrNone(frame, inflate))
    case (Some(t), Some(f)) => ImageScore(t, f, score)
    case _ => score == if Contains(frame, content) then 1.0 else 0.0
  }

  ghost predicate ImageScore(t: Image, f: Image, score: real)
    requires Full(t) && Full(f)
  {
    MaxDiffIsRowWise(t);
    if Fits(t, f, 0, 0) then ExactScore(t, f, score) else score == 0.0
  }

  /** A match reports its template, the score the template deserves, and whether that reaches the threshold. */
  ghost predicate Reports(t: Template, frame: Bytes, inflate: Bytes -> Option<Bytes>, m: Match) {
    && m.name == t.name && m.seen.kind == t.kind
    && Deserves(t.content, frame, inflate, m.score)
    && (m.seen.matched <==> m.score >= t.threshold)
  }

  /** One round of `match_templates`: the image comparison if both sides are images, plain containment otherwise. */
  method ScoreTemplate(content: Bytes, frame: Bytes, framePng: Option<Image>, inflate: Bytes -> Option<Bytes>)
    returns (score: real)
    requires framePng == DecodeOrNone(frame, inflate)
    ensures Deserves(content, frame, inflate, score)
  {
    hide ExactScore, Fits, Contains, Full, Decode;
    if framePng.Some? {
      var templatePng := DecodePngOrNone(content, inflate);
      if templatePng.Some? {
        score := ImageMatchScore(templatePng.value, framePng.value);
        return;
      }
    }
    score := if Contains(frame, content) then 1.0 else 0.0;
  }

  /** `match_templates`. */
  method MatchTemplates(templates: seq<Template>, frame: Bytes, inflate: Bytes -> Option<Bytes>) returns (matches: seq<Match>)
    ensures |matches| == |templates|
    ensures forall i :: 0 <= i < |templates| ==> Reports(templates[i], frame, inflate, matches[i])
  {
    hide Deserves, DecodeOrNone;
    matches := [];
    var framePng := DecodePngOrNone(frame, inflate);
    var i := 0;
    while i < |templates|
      invariant 0 <= i == |matches| <= |templates|
      invariant forall k :: 0 <= k < i ==> Reports(templates[k], frame, inflate, matches[k])
    {
      var template := templates[i];
      var score := ScoreTemplate(template.content, frame, framePng, inflate);
      matches := matches + [Match(template.name, score, TemplateMatch(template.kind, score >= template.threshold))];
      i := i + 1;
    }
  }

  // ----- From the source images to the verdict --------------------------------------------

  /** An image before it is encoded: rows of pixels in a colour type. */
  datatype Picture = Picture(rows: seq<Bytes>, color: int, width: nat)

  predicate Proper(p: Picture) {
    KnownColor(p.color) && p.width >= 1 && |p.rows| >= 1 && Rectangular(p.rows, RowSize(p.width, p.color))
  }

  function LumaAt(p: Picture, x: nat, y: nat): Byte
    requires Proper(p) && x < p.width && y < |p.rows|
  {
    LumaRow(p.rows[y], p.color, p.width)[x]
  }

  /** The bytes are a PNG stream of the picture: some chunks, some filters, anything after the end. */
  ghost predicate Encodes(content: Bytes, inflate: Bytes -> Option<Bytes>, p: Picture)
    requires Proper(p)
  {
    exists chunks: seq<Chunk>, filters: Bytes, rest: Bytes :: EncodesAs(content, inflate, p, chunks, filters, rest)
  }

  predicate EncodesAs(content: Bytes, inflate: Bytes -> Option<Bytes>, p: Picture, chunks: seq<Chunk>, filters: Bytes, rest: Bytes)
    requires Proper(p)
  {
    && FilterChoice(filters, |p.rows|)
    && Carries(chunks, inflate, p.rows, filters, p.color, p.width)
    && content == SIGNATURE + ChunksBytes(chunks, 0, rest)
  }

  function Decoded(p: Picture): Image
    requires Proper(p)
  {
    Image(p.width, |p.rows|, Pixels(p.rows, p.color, p.width, |p.rows|))
  }

  lemma EncodedIsDecoded(content: Bytes, inflate: Bytes -> Option<Bytes>, p: Picture)
    requires Proper(p) && Encodes(content, inflate, p)
    ensures DecodeOrNone(content, inflate) == Some(Decoded(p)) && Full(Decoded(p))
  {
    hide Decode, Pixels, Full;
    var chunks: seq<Chunk>, filters: Bytes, rest: Bytes :| EncodesAs(content, inflate, p, chunks, filters, rest);
    ContainerRoundTrip(chunks, inflate, p.rows, filters, p.color, p.width, rest);
  }

  lemma PixelIsLuma(p: Picture, x: nat, y: nat)
    requires Proper(p) && Full(Decoded(p)) && x < p.width && y < |p.rows|
    ensures Pixel(Decoded(p), x, y) == LumaAt(p, x, y)
  {
    PixelAt(p.rows, p.color, p.width, |p.rows|, y, x);
  }

  /** The template picture shows in the frame picture, luma for luma, with its corner at (x, y). */
  predicate ShowsAt(t: Picture, f: Picture, x: nat, y: nat)
    requires Proper(t) && Proper(f)
  {
    && x + t.width <= f.width && y + |t.rows| <= |f.rows|
    && forall row: nat, column: nat :: row < |t.rows| && column < t.width ==>
         LumaAt(t, column, row) == LumaAt(f, x + column, y + row)
  }

  ghost predicate ShowsIn(t: Picture, f: Picture)
    requires Proper(t) && Proper(f)
  {
    exists x: nat, y: nat :: ShowsAt(t, f, x, y)
  }

  lemma SameLumaIsNoDifference(t: Picture, f: Picture, x: nat, y: nat, row: nat, column: nat)
    requires Proper(t) && Proper(f) && Full(Decoded(t)) && Full(Decoded(f))
    requires x + t.width <= f.width && y + |t.rows| <= |f.rows| && row < |t.rows| && column < t.width
    ensures PixelDiff(Decoded(t), Decoded(f), x, y, row, column) == 0 <==>
            LumaAt(t, column, row) == LumaAt(f, x + column, y + row)
  {
    hide LumaAt, Full, Pixels, Pixel;
    DifferenceOfPictures(t, f, x, y, row, column);
  }

  lemma ShowsIsSubImage(t: Picture, f: Picture, x: nat, y: nat)
    requires Proper(t) && Proper(f) && Full(Decoded(t)) && Full(Decoded(f))
    ensures ShowsAt(t, f, x, y) <==>
            Fits(Decoded(t), Decoded(f), x, y) && SubImageAt(Decoded(t), Decoded(f), x, y)
  {
    hide LumaAt, Full, Pixels, PixelDiff;
    if x + t.width <= f.width && y + |t.rows| <= |f.rows| {
      forall row: nat, column: nat | row < |t.rows| && column < t.width
        ensures PixelDiff(Decoded(t), Decoded(f), x, y, row, column) == 0 <==>
                LumaAt(t, column, row) == LumaAt(f, x + column, y + row)
      {
        SameLumaIsNoDifference(t, f, x, y, row, column);
      }
    }
  }

  predicate CanFit(t: Picture, f: Picture) {
    t.width <= f.width && |t.rows| <= |f.rows|
  }

  /** The search leaves out no position for pictures of these sizes, or there is none. */
  predicate Searched(t: Picture, f: Picture) {
    CanFit(t, f) ==> Exhaustive(t.width, |t.rows|, f.width, |f.rows|)
  }

  lemma ScoreOfPictures(t: Picture, f: Picture, score: real)
    requires Proper(t) && Proper(f) && Full(Decoded(t)) && Full(Decoded(f)) && ImageScore(Decoded(t), Decoded(f), score)
    ensures 0.0 <= score <= 1.0
    ensures score == 1.0 ==> ShowsIn(t, f)
    ensures Searched(t, f) ==> (score == 1.0 <==> ShowsIn(t, f))
  {
    hide Full, Pixels, ExactScore, ShowsAt, SubImageAt;
    var a, b := Decoded(t), Decoded(f);
    MaxDiffIsRowWise(a);
    if ShowsIn(t, f) {
      var x: nat, y: nat :| ShowsAt(t, f, x, y);
      ShowsIsSubImage(t, f, x, y);
      assert Occurs(a, b);
    }
    if Occurs(a, b) {
      var x: nat, y: nat :| Fits(a, b, x, y) && SubImageAt(a, b, x, y);
      ShowsIsSubImage(t, f, x, y);
    }
    if Fits(a, b, 0, 0) {
      FullScoreIsComplete(a, b, score);
    }
  }

  /**
   From bytes to score. Take any two PNG streams, of a template and of a frame, however they
   are split into chunks, filtered and compressed. The score lies in [0, 1]; a full score
   always means that the template picture shows in the frame, luma for luma; and where the
   search leaves out no position, the score is full if and only if it shows, and then a
   template with threshold one matches.
   */
  lemma FullScoreMeansShown(template: Template, frame: Bytes, inflate: Bytes -> Option<Bytes>, m: Match, t: Picture, f: Picture)
    requires Proper(t) && Proper(f) && Encodes(template.content, inflate, t) && Encodes(frame, inflate, f)
    requires Reports(template, frame, inflate, m)
    ensures 0.0 <= m.score <= 1.0
    ensures m.score == 1.0 ==> ShowsIn(t, f)
    ensures Searched(t, f) ==> (m.score == 1.0 <==> ShowsIn(t, f))
    ensures Searched(t, f) && template.threshold == 1.0 ==> (m.seen.matched <==> ShowsIn(t, f))
  {
    hide Encodes, DecodeOrNone, Full, Pixels, ImageScore, ShowsIn, Proper, Searched;
    EncodedIsDecoded(template.content, inflate, t);
    EncodedIsDecoded(frame, inflate, f);
    ScoreOfPictures(t, f, m.score);
  }

  /** The template matches within its threshold: at some position the luma differs by no more than the tolerance. */
  ghost predicate ShowsWithin(t: Picture, f: Picture, threshold: real)
    requires Proper(t) && Proper(f)
  {
    if CanFit(t, f) then Close(Decoded(t), Decoded(f), threshold) else threshold <= 0.0
  }

  /** The same, at the positions the search scans. */
  ghost predicate ScannedWithin(t: Picture, f: Picture, threshold: real)
    requires Proper(t) && Proper(f) && Full(Decoded(t)) && Full(Decoded(f))
  {
    if CanFit(t, f) then CloseInScan(Decoded(t), Decoded(f), threshold) else threshold <= 0.0
  }

  lemma VerdictOfPictures(t: Picture, f: Picture, score: real, threshold: real)
    requires Proper(t) && Proper(f) && Full(Decoded(t)) && Full(Decoded(f)) && ImageScore(Decoded(t), Decoded(f), score)
    requires 0.0 <= threshold <= 1.0
    ensures score >= threshold <==> ScannedWithin(t, f, threshold)
    ensures Searched(t, f) ==> (score >= threshold <==> ShowsWithin(t, f, threshold))
  {
    hide Full, Pixels, ExactScore, Close, CloseInScan;
    var a, b := Decoded(t), Decoded(f);
    MaxDiffIsRowWise(a);
    if Fits(a, b, 0, 0) {
      ThresholdIsTolerance(a, b, score, threshold);
    }
  }

  /**
   From bytes to verdict, for every threshold the configuration accepts: the template
   matches if and only if at some scanned position its luma differs from the frame's by at
   most (1 - threshold) of the largest possible difference; where the search leaves out no
   position, if and only if that is so at any position.
   */
  lemma MatchMeansShown(template: Template, frame: Bytes, inflate: Bytes -> Option<Bytes>, m: Match, t: Picture, f: Picture)
    requires Proper(t) && Proper(f) && Encodes(template.content, inflate, t) && Encodes(frame, inflate, f)
    requires Reports(template, frame, inflate, m) && 0.0 <= template.threshold <= 1.0
    ensures Full(Decoded(t)) && Full(Decoded(f))
    ensures m.seen.matched <==> ScannedWithin(t, f, template.threshold)
    ensures Searched(t, f) ==> (m.seen.matched <==> ShowsWithin(t, f, template.threshold))
  {
    hide Encodes, DecodeOrNone, Full, Pixels, ImageScore, ShowsWithin, ScannedWithin, Proper, Searched;
    EncodedIsDecoded(template.content, inflate, t);
    EncodedIsDecoded(frame, inflate, f);
    VerdictOfPictures(t, f, m.score, template.threshold);
  }

  /** The sum behind the tolerance is taken over the luma of the pictures, pixel by pixel. */
  lemma DifferenceOfPictures(t: Picture, f: Picture, x: nat, y: nat, row: nat, column: nat)
    requires Proper(t) && Proper(f) && Full(Decoded(t)) && Full(Decoded(f))
    requires x + t.width <= f.width && y + |t.rows| <= |f.rows| && row < |t.rows| && column < t.width
    ensures PixelDiff(Decoded(t), Decoded(f), x, y, row, column) == Abs(LumaAt(t, column, row) - LumaAt(f, x + column, y + row))
  {
    hide LumaAt, Full, Pixels, Pixel;
    PixelIsLuma(t, column, row);
    PixelIsLuma(f, x + column, y + row);
  }

  /** What the matches say to the debouncing. */
  function Seen(matches: seq<Match>): seq<TemplateMatch> {
    seq(|matches|, i requires 0 <= i < |matches| => matches[i].seen)
  }

  /** The templates are streams of the pictures, with thresholds in [0, 1], and the search leaves out no position. */
  ghost predicate Readable(templates: seq<Template>, pictures: seq<Picture>, f: Picture, inflate: Bytes -> Option<Bytes>)
    requires Proper(f)
  {
    && |templates| == |pictures|
    && forall i :: 0 <= i < |templates| ==>
         Proper(pictures[i]) && Encodes(templates[i].content, inflate, pictures[i])
         && 0.0 <= templates[i].threshold <= 1.0 && Searched(pictures[i], f)
  }

  /** A template of the kind shows in the frame, within its threshold. */
  ghost predicate SomeShows(templates: seq<Template>, pictures: seq<Picture>, f: Picture, kind: TemplateKind)
    requires Proper(f) && |templates| == |pictures| && forall i :: 0 <= i < |pictures| ==> Proper(pictures[i])
  {
    exists i :: 0 <= i < |templates| && templates[i].kind == kind && ShowsWithin(pictures[i], f, templates[i].threshold)
  }

  /** With such templates the debouncing is told of a start or an end exactly when one shows in the frame. */
  lemma FrameIsWhatShows(templates: seq<Template>, frame: Bytes, inflate: Bytes -> Option<Bytes>, matches: seq<Match>,
                         pictures: seq<Picture>, f: Picture)
    requires Proper(f) && Encodes(frame, inflate, f) && Readable(templates, pictures, f, inflate)
    requires |matches| == |templates| && forall i :: 0 <= i < |templates| ==> Reports(templates[i], frame, inflate, matches[i])
    ensures FrameOf(Seen(matches)) ==
            Frame(SomeShows(templates, pictures, f, StartTemplate), SomeShows(templates, pictures, f, EndTemplate))
  {
    hide Encodes, ShowsWithin, ScannedWithin, Proper, Searched, Deserves, Full;
    var seen := Seen(matches);
    forall i | 0 <= i < |templates|
      ensures seen[i].kind == templates[i].kind
      ensures seen[i].matched <==> ShowsWithin(pictures[i], f, templates[i].threshold)
    {
      MatchMeansShown(templates[i], frame, inflate, matches[i], pictures[i], f);
    }
  }
}
