/**
 * What the image validator reads, byte by byte: where each format keeps its dimensions, in which order their bytes
 * come, and which markers start a JPEG frame.
 */
module ImageOutcomes {
  import opened Wrappers
  import opened VisionImage

  /** The frame markers of ITU-T T.81, table B.1. */
  const FRAME_MARKERS: set<int> :=
    {0xC0, 0xC1, 0xC2, 0xC3, 0xC5, 0xC6, 0xC7, 0xC9, 0xCA, 0xCB, 0xCD, 0xCE, 0xCF}

  /** Two bytes, the first the more significant. */
  function Big(high: Byte, low: Byte): nat {
    high * 256 + low
  }

  /** A frame header that fits: marker, length, precision, then height and width. */
  predicate IsFrameHeader(tail: Bytes, image: Image) {
    && |tail| >= 9 && tail[0] == 0xFF && tail[1] in FRAME_MARKERS
    && 2 <= Big(tail[2], tail[3]) && 2 + Big(tail[2], tail[3]) <= |tail|
    && image.format == Jpeg && image.height == Big(tail[5], tail[6]) && image.width == Big(tail[7], tail[8])
  }

  /** What the walk steps over at once: a byte that is no marker, or a whole segment that is no frame header. */
  predicate IsSteppedOver(bytes: Bytes) {
    || (|bytes| == 1 && bytes[0] != 0xFF)
    || (|bytes| >= 4 && bytes[0] == 0xFF && bytes[1] !in FRAME_MARKERS && Big(bytes[2], bytes[3]) == |bytes| - 2)
  }

  ghost predicate IsSteppedOverInAll(bytes: Bytes)
    decreases |bytes|
  {
    bytes == [] || exists n | 0 < n <= |bytes| :: IsSteppedOver(bytes[..n]) && IsSteppedOverInAll(bytes[n..])
  }

  lemma FrameMarkers(marker: Byte)
    ensures IsStartOfFrame(marker) <==> marker in FRAME_MARKERS
  {}

  lemma FrameHeaderIff(tail: Bytes, image: Image)
    ensures StartsFrame(tail, image) <==> IsFrameHeader(tail, image)
  {
    if |tail| > 1 { FrameMarkers(tail[1]); }
  }

  lemma PieceIsSteppedOver(p: Piece)
    requires p.Valid()
    ensures IsSteppedOver(PieceBytes(p))
  {
    if p.Segment? {
      var n := 2 + |p.payload|;
      assert PieceBytes(p)[2] == n / 256 && PieceBytes(p)[3] == n % 256;
      FrameMarkers(p.marker);
    }
  }

  lemma {:induction false} PiecesAreSteppedOver(pieces: seq<Piece>)
    requires forall p <- pieces :: p.Valid()
    ensures IsSteppedOverInAll(PiecesBytes(pieces))
    decreases |pieces|
  {
    if pieces != [] {
      var bytes, n := PiecesBytes(pieces), |PieceBytes(pieces[0])|;
      PieceIsSteppedOver(pieces[0]);
      PiecesAreSteppedOver(pieces[1..]);
      assert bytes[..n] == PieceBytes(pieces[0]) && bytes[n..] == PiecesBytes(pieces[1..]);
    }
  }

  lemma SteppedOverIsAPiece(bytes: Bytes) returns (p: Piece)
    requires IsSteppedOver(bytes)
    ensures p.Valid() && PieceBytes(p) == bytes
  {
    if bytes[0] != 0xFF {
      p := Stray(bytes[0]);
    } else {
      FrameMarkers(bytes[1]);
      p := Segment(bytes[1], bytes[4..]);
      assert BE16(2 + |p.payload|) == [bytes[2], bytes[3]];
      assert bytes == [0xFF, bytes[1]] + [bytes[2], bytes[3]] + bytes[4..];
    }
  }

  lemma OnePieceMore(p: Piece, more: seq<Piece>)
    requires p.Valid() && forall q <- more :: q.Valid()
    ensures forall q <- [p] + more :: q.Valid()
    ensures PiecesBytes([p] + more) == PieceBytes(p) + PiecesBytes(more)
  {
    assert ([p] + more)[1..] == more;
  }

  lemma FirstStep(bytes: Bytes) returns (p: Piece, n: nat)
    requires bytes != [] && IsSteppedOverInAll(bytes)
    ensures 0 < n <= |bytes| && p.Valid() && PieceBytes(p) == bytes[..n] && IsSteppedOverInAll(bytes[n..])
  {
    n :| 0 < n <= |bytes| && IsSteppedOver(bytes[..n]) && IsSteppedOverInAll(bytes[n..]);
    p := SteppedOverIsAPiece(bytes[..n]);
  }

  lemma {:induction false} SteppedOverArePieces(bytes: Bytes) returns (pieces: seq<Piece>)
    requires IsSteppedOverInAll(bytes)
    ensures (forall p <- pieces :: p.Valid()) && PiecesBytes(pieces) == bytes
    decreases |bytes|
  {
    if bytes == [] {
      pieces := [];
    } else {
      var p, n := FirstStep(bytes);
      var more := SteppedOverArePieces(bytes[n..]);
      pieces := [p] + more;
      OnePieceMore(p, more);
    }
  }

  ghost predicate IsJpeg(b: Bytes, k: nat, image: Image)
    requires 2 <= k <= |b|
  {
    b[0] == 0xFF && b[1] == 0xD8 && IsSteppedOverInAll(b[2..k]) && IsFrameHeader(b[k..], image)
  }

  lemma JpegIsReached(b: Bytes, image: Image) returns (k: nat)
    requires JpegOf(b) == Some(image)
    ensures 2 <= k <= |b| && IsJpeg(b, k, image)
  {
    JpegIsExact(b, image);
    var pieces, tail :| Decomposes(b, pieces, tail) && StartsFrame(tail, image);
    k := 2 + |PiecesBytes(pieces)|;
    PiecesAreSteppedOver(pieces);
    FrameHeaderIff(tail, image);
    assert b[2..k] == PiecesBytes(pieces) && b[k..] == tail;
  }

  lemma ReachedIsJpeg(b: Bytes, k: nat, image: Image)
    requires 2 <= k <= |b| && IsJpeg(b, k, image)
    ensures JpegOf(b) == Some(image)
  {
    var pieces := SteppedOverArePieces(b[2..k]);
    FrameHeaderIff(b[k..], image);
    assert b == SOI + b[2..k] + b[k..];
    DecomposedIsRead(pieces, b[k..], image);
  }

  /** A JPEG is accepted exactly when stepping from its start reaches a frame header that fits, and reads as it says. */
  lemma JpegIff(b: Bytes, image: Image)
    ensures JpegOf(b) == Some(image) <==> exists k | 2 <= k <= |b| :: IsJpeg(b, k, image)
  {
    if JpegOf(b) == Some(image) { var k := JpegIsReached(b, image); }
    if k :| 2 <= k <= |b| && IsJpeg(b, k, image) { ReachedIsJpeg(b, k, image); }
  }

  /** A PNG: its signature, then width and height in four bytes each, most significant first, at 16 and 20. */
  lemma PngIff(b: Bytes, image: Image)
    ensures PngOf(b) == Some(image)
       <==> && |b| >= 24
            && b[0] == 137 && b[1] == 80 && b[2] == 78 && b[3] == 71
            && b[4] == 13 && b[5] == 10 && b[6] == 26 && b[7] == 10
            && image.format == Png
            && image.width == 16_777_216 * b[16] as int + 65_536 * b[17] as int + 256 * b[18] as int + b[19]
            && image.height == 16_777_216 * b[20] as int + 65_536 * b[21] as int + 256 * b[22] as int + b[23]
  {
    if |b| >= 24 {
      assert b[..8] == [b[0], b[1], b[2], b[3], b[4], b[5], b[6], b[7]];
    }
  }

  /** Four bytes that read as these characters, whatever their highest bit. */
  predicate Reads(b: Bytes, i: nat, text: string)
    requires |text| == 4 && i + 4 <= |b|
  {
    && (b[i] == text[0] as int || b[i] == text[0] as int + 128)
    && (b[i + 1] == text[1] as int || b[i + 1] == text[1] as int + 128)
    && (b[i + 2] == text[2] as int || b[i + 2] == text[2] as int + 128)
    && (b[i + 3] == text[3] as int || b[i + 3] == text[3] as int + 128)
  }

  lemma SpellsIff(b: Bytes, i: nat, text: string)
    requires |text| == 4 && i + 4 <= |b| && forall c <- text :: (c as int) < 128
    ensures Spells(b, i, text) <==> Reads(b, i, text)
  {
    forall k | 0 <= k < 4
      ensures b[i + k] % 0x80 == text[k] as int <==> b[i + k] == text[k] as int || b[i + k] == text[k] as int + 128
    {
      assert text[k] in text;
    }
    assert Reads(b, i, text) <==>
      forall k | 0 <= k < 4 :: b[i + k] == text[k] as int || b[i + k] == text[k] as int + 128 by {
      assert b[i + 0] == b[i];
    }
  }

  predicate IsWebp(b: Bytes, codec: string)
    requires |codec| == 4
  {
    |b| >= 30 && Reads(b, 0, "RIFF") && Reads(b, 8, "WEBP") && Reads(b, 12, codec)
  }

  lemma WebpSpells(b: Bytes, codec: string)
    requires codec == "VP8X" || codec == "VP8 " || codec == "VP8L"
    ensures IsWebp(b, codec)
       <==> |b| >= 30 && Spells(b, 0, "RIFF") && Spells(b, 8, "WEBP") && Spells(b, 12, codec)
  {
    if |b| >= 30 {
      SpellsIff(b, 0, "RIFF");
      SpellsIff(b, 8, "WEBP");
      SpellsIff(b, 12, codec);
    }
  }

  /** Only the three codecs are accepted, and they exclude one another. */
  lemma WebpIff(b: Bytes)
    ensures WebpOf(b).Some? <==> IsWebp(b, "VP8X") || IsWebp(b, "VP8 ") || IsWebp(b, "VP8L")
  {
    WebpSpells(b, "VP8X");
    WebpSpells(b, "VP8 ");
    WebpSpells(b, "VP8L");
  }

  /** Extended: both dimensions, less one, in three bytes each, least significant first, at 24 and 27. */
  lemma ExtendedWebpIsRead(b: Bytes)
    requires IsWebp(b, "VP8X")
    ensures WebpOf(b) == Some(Image(Webp, 1 + b[24] + 256 * b[25] as int + 65_536 * b[26] as int,
                                          1 + b[27] + 256 * b[28] as int + 65_536 * b[29] as int))
  {
    WebpSpells(b, "VP8X");
  }

  /** Lossy: the low fourteen bits of two bytes each, least significant first, at 26 and 28. */
  lemma LossyWebpIsRead(b: Bytes)
    requires IsWebp(b, "VP8 ")
    ensures WebpOf(b) == Some(Image(Webp, (b[26] + 256 * b[27] as int) % 16_384, (b[28] + 256 * b[29] as int) % 16_384))
  {
    WebpSpells(b, "VP8 ");
    assert b[12 + 3] % 0x80 == "VP8 "[3] as int != "VP8X"[3] as int;
  }

  /** Lossless: the four bytes at 21, least significant first, hold both dimensions, less one, in fourteen bits each. */
  lemma LosslessBytesAreRead(b: Bytes, width: nat, height: nat, alphaAndVersion: nat)
    requires IsWebp(b, "VP8L") && 1 <= width <= 16_384 && 1 <= height <= 16_384 && alphaAndVersion < 16
    requires b[21] + 256 * b[22] as int + 65_536 * b[23] as int + 16_777_216 * b[24] as int
      == (width - 1) + 16_384 * (height - 1) + 268_435_456 * alphaAndVersion
    ensures WebpOf(b) == Some(Image(Webp, width, height))
  {
    WebpSpells(b, "VP8L");
    LosslessWebpIsRead(b, width, height, alphaAndVersion);
  }
}
