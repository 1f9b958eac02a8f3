/** The image validator: which bytes are accepted, and that the dimensions read are the ones the encoder wrote. */
module VisionImage {
  import opened Wrappers
  import opened Sequences

  type Byte = x: int | 0 <= x < 256
  type Bytes = seq<Byte>

  datatype Format = Png | Jpeg | Webp
  datatype Image = Image(format: Format, width: nat, height: nat)

  // ---------------------------------------------------------------------
  // Buffer reads

  function UInt16BE(b: Bytes, i: nat): (r: nat)
    requires i + 2 <= |b|
    ensures r < 0x1_0000
  {
    256 * (b[i] as int) + b[i + 1]
  }

  function UInt32BE(b: Bytes, i: nat): nat
    requires i + 4 <= |b|
  {
    0x1_0000 * UInt16BE(b, i) + UInt16BE(b, i + 2)
  }

  function UInt16LE(b: Bytes, i: nat): nat
    requires i + 2 <= |b|
  {
    b[i] + 256 * (b[i + 1] as int)
  }

  function UInt24LE(b: Bytes, i: nat): nat
    requires i + 3 <= |b|
  {
    UInt16LE(b, i) + 0x1_0000 * (b[i + 2] as int)
  }

  function UInt32LE(b: Bytes, i: nat): nat
    requires i + 4 <= |b|
  {
    UInt16LE(b, i) + 0x1_0000 * UInt16LE(b, i + 2)
  }

  /** `toString('ascii', …) === text`: decoding clears the high bit of every byte. */
  predicate Spells(b: Bytes, i: nat, text: string)
    requires i + |text| <= |b|
  {
    forall k | 0 <= k < |text| :: b[i + k] % 0x80 == text[k] as int
  }

  // ---------------------------------------------------------------------
  // JPEG (ITU-T T.81)

  const SOI: Bytes := [0xFF, 0xD8]

  predicate IsStartOfFrame(marker: Byte) {
    0xC0 <= marker <= 0xCF && marker !in {0xC4, 0xC8, 0xCC}
  }

  /** What the walk answers from `offset` on. */
  function Walk(b: Bytes, offset: nat): Option<Image>
    decreases |b| - offset
  {
    if offset + 8 >= |b| then None
    else if b[offset] != 0xFF then Walk(b, offset + 1)
    else
      var length := UInt16BE(b, offset + 2);
      if length < 2 || offset + 2 + length > |b| then None
      else if IsStartOfFrame(b[offset + 1]) then Some(Image(Jpeg, UInt16BE(b, offset + 7), UInt16BE(b, offset + 5)))
      else Walk(b, offset + 2 + length)
  }

  function JpegOf(b: Bytes): Option<Image> {
    if |b| < 4 || b[..2] != SOI then None else Walk(b, 2)
  }

  method ParseJpeg(buffer: array<Byte>) returns (r: Option<Image>)
    ensures r == JpegOf(buffer[..])
  {
    ghost var b := buffer[..];
    if buffer.Length < 4 || buffer[0] != 0xFF || buffer[1] != 0xD8 { return None; }
    assert b[..2] == SOI;
    var offset := 2;
    while offset + 8 < buffer.Length
      invariant 2 <= offset && Walk(b, offset) == JpegOf(b)
      decreases buffer.Length - offset
    {
      if buffer[offset] != 0xFF {
        offset := offset + 1;
        continue;
      }
      var marker := buffer[offset + 1];
      var length := 256 * (buffer[offset + 2] as int) + buffer[offset + 3];
      if length < 2 || offset + 2 + length > buffer.Length { break; }
      if IsStartOfFrame(marker) {
        var height := 256 * (buffer[offset + 5] as int) + buffer[offset + 6];
        var width := 256 * (buffer[offset + 7] as int) + buffer[offset + 8];
        return Some(Image(Jpeg, width, height));
      }
      offset := offset + 2 + length;
    }
    r := None;
  }

  /**
   * What may stand between SOI and the frame header: a byte that
   * starts no marker, or a segment that carries its length.
   */
  datatype Piece = Stray(value: Byte) | Segment(marker: Byte, payload: Bytes) {
    ghost predicate Valid() {
      match this
      case Stray(value) => value != 0xFF
      case Segment(marker, payload) => !IsStartOfFrame(marker) && |payload| <= 0xFFFD
    }
  }

  function BE16(n: nat): Bytes
    requires n < 0x1_0000
  {
    [n / 256, n % 256]
  }

  ghost function PieceBytes(p: Piece): Bytes
    requires p.Valid()
  {
    match p
    case Stray(value) => [value]
    case Segment(marker, payload) => [0xFF, marker] + BE16(2 + |payload|) + payload
  }

  ghost function PiecesBytes(pieces: seq<Piece>): Bytes
    requires forall p <- pieces :: p.Valid()
  {
    if pieces == [] then [] else PieceBytes(pieces[0]) + PiecesBytes(pieces[1..])
  }

  datatype Component = Component(id: Byte, sampling: Byte, table: Byte)

  /** The frame header of section B.2.2. */
  datatype Frame = Frame(marker: Byte, precision: Byte, height: nat, width: nat, components: seq<Component>) {
    predicate Valid() {
      IsStartOfFrame(marker) && height < 0x1_0000 && width < 0x1_0000 && |components| < 256
    }
  }

  function ComponentBytes(cs: seq<Component>): (r: Bytes)
    ensures |r| == 3 * |cs|
  {
    if cs == [] then [] else [cs[0].id, cs[0].sampling, cs[0].table] + ComponentBytes(cs[1..])
  }

  function FrameBytes(f: Frame): (r: Bytes)
    requires f.Valid()
    ensures |r| == 10 + 3 * |f.components|
  {
    [0xFF, f.marker] + BE16(8 + 3 * |f.components|) + [f.precision] + BE16(f.height) + BE16(f.width)
    + [|f.components|] + ComponentBytes(f.components)
  }

  /** The bytes that make the walk stop with an answer. */
  predicate StartsFrame(tail: Bytes, image: Image) {
    && |tail| > 8 && tail[0] == 0xFF && IsStartOfFrame(tail[1])
    && 2 <= UInt16BE(tail, 2) <= |tail| - 2
    && image == Image(Jpeg, UInt16BE(tail, 7), UInt16BE(tail, 5))
  }

  lemma WalkStops(tail: Bytes, image: Image)
    requires StartsFrame(tail, image)
    ensures Walk(tail, 0) == Some(image)
  {}

  lemma FrameStarts(f: Frame, trailing: Bytes)
    requires f.Valid()
    ensures StartsFrame(FrameBytes(f) + trailing, Image(Jpeg, f.width, f.height))
  {
    var n := 8 + 3 * |f.components|;
    var fixed := [0xFF, f.marker, n / 256, n % 256, f.precision,
                  f.height / 256, f.height % 256, f.width / 256, f.width % 256];
    var rest := [|f.components|] + ComponentBytes(f.components) + trailing;
    var tail := FrameBytes(f) + trailing;
    assert tail == fixed + rest;
    assert UInt16BE(tail, 2) == n && UInt16BE(tail, 5) == f.height && UInt16BE(tail, 7) == f.width;
  }

  /** The walk looks only ahead. */
  lemma {:induction false} WalkIsLocal(head: Bytes, b: Bytes, offset: nat)
    ensures Walk(head + b, |head| + offset) == Walk(b, offset)
    decreases |b| - offset
  {
    var all := head + b;
    if offset + 8 < |b| {
      assert all[|head| + offset] == b[offset] && all[|head| + offset + 1] == b[offset + 1];
      assert UInt16BE(all, |head| + offset + 2) == UInt16BE(b, offset + 2);
      var length := UInt16BE(b, offset + 2);
      if b[offset] != 0xFF {
        WalkIsLocal(head, b, offset + 1);
        assert |head| + offset + 1 == |head| + (offset + 1);
      } else if length >= 2 && offset + 2 + length <= |b| && !IsStartOfFrame(b[offset + 1]) {
        WalkIsLocal(head, b, offset + 2 + length);
        assert |head| + offset + 2 + length == |head| + (offset + 2 + length);
      }
    }
  }

  lemma WalkSkipsPiece(p: Piece, tail: Bytes)
    requires p.Valid() && |tail| > 8
    ensures Walk(PieceBytes(p) + tail, 0) == Walk(tail, 0)
  {
    var bytes := PieceBytes(p);
    WalkIsLocal(bytes, tail, 0);
    if p.Segment? {
      var n := 2 + |p.payload|;
      assert (bytes + tail)[2] == n / 256 && (bytes + tail)[3] == n % 256;
      assert UInt16BE(bytes + tail, 2) == n;
    }
  }

  lemma {:induction false} WalkSkipsPieces(pieces: seq<Piece>, tail: Bytes)
    requires (forall p <- pieces :: p.Valid()) && |tail| > 8
    ensures Walk(PiecesBytes(pieces) + tail, 0) == Walk(tail, 0)
    decreases |pieces|
  {
    if pieces == [] {
      assert PiecesBytes(pieces) + tail == tail;
    } else {
      var rest := PiecesBytes(pieces[1..]) + tail;
      WalkSkipsPieces(pieces[1..], tail);
      WalkSkipsPiece(pieces[0], rest);
      assert PiecesBytes(pieces) + tail == PieceBytes(pieces[0]) + rest;
    }
  }

  lemma AfterSoi(b: Bytes)
    requires |b| >= 4 && b[..2] == SOI
    ensures JpegOf(b) == Walk(b, 2)
  {}

  lemma JpegIsTheWalkAfterSoi(b: Bytes)
    requires |b| >= 2
    ensures JpegOf(SOI + b) == Walk(b, 0)
  {
    AfterSoi(SOI + b);
    WalkIsLocal(SOI, b, 0);
  }

  lemma DecomposedIsRead(pieces: seq<Piece>, tail: Bytes, image: Image)
    requires (forall p <- pieces :: p.Valid()) && StartsFrame(tail, image)
    ensures JpegOf(SOI + PiecesBytes(pieces) + tail) == Some(image)
  {
    var b := PiecesBytes(pieces) + tail;
    assert SOI + PiecesBytes(pieces) + tail == SOI + b;
    JpegIsTheWalkAfterSoi(b);
    WalkSkipsPieces(pieces, tail);
    WalkStops(tail, image);
  }

  /**
   * A JPEG is read as its frame header says, whatever segments and stray bytes come before it and whatever comes after.
   */
  lemma FrameIsRead(pieces: seq<Piece>, f: Frame, trailing: Bytes)
    requires (forall p <- pieces :: p.Valid()) && f.Valid()
    ensures JpegOf(SOI + PiecesBytes(pieces) + FrameBytes(f) + trailing) == Some(Image(Jpeg, f.width, f.height))
  {
    FrameStarts(f, trailing);
    DecomposedIsRead(pieces, FrameBytes(f) + trailing, Image(Jpeg, f.width, f.height));
    Regroup(SOI + PiecesBytes(pieces), FrameBytes(f), trailing);
  }

  /** One step of a walk that answers later. */
  lemma StepsOverPiece(b: Bytes, image: Image) returns (p: Piece, rest: Bytes)
    requires Walk(b, 0) == Some(image) && !(b[0] == 0xFF && IsStartOfFrame(b[1]))
    ensures p.Valid() && b == PieceBytes(p) + rest && |rest| < |b| && Walk(rest, 0) == Some(image)
  {
    if b[0] != 0xFF {
      p, rest := Stray(b[0]), b[1..];
      assert b == [b[0]] + rest;
      WalkIsLocal([b[0]], rest, 0);
    } else {
      var length := UInt16BE(b, 2);
      p, rest := Segment(b[1], b[4..2 + length]), b[2 + length..];
      assert b[..2 + length] == [0xFF, b[1]] + [b[2], b[3]] + b[4..2 + length];
      assert BE16(length) == [b[2], b[3]];
      assert b == b[..2 + length] + rest;
      WalkIsLocal(b[..2 + length], rest, 0);
    }
  }

  /** Conversely the walk only answers with the dimensions of a frame header reached over whole pieces. */
  lemma {:induction false} WalkFindsFrame(b: Bytes, image: Image) returns (pieces: seq<Piece>, tail: Bytes)
    requires Walk(b, 0) == Some(image)
    ensures (forall p <- pieces :: p.Valid()) && b == PiecesBytes(pieces) + tail && StartsFrame(tail, image)
    decreases |b|
  {
    if b[0] == 0xFF && IsStartOfFrame(b[1]) {
      pieces, tail := [], b;
    } else {
      var p, rest := StepsOverPiece(b, image);
      var more;
      more, tail := WalkFindsFrame(rest, image);
      pieces := [p] + more;
      PiecesCons(p, more, tail);
    }
  }

  lemma PiecesCons(p: Piece, more: seq<Piece>, tail: Bytes)
    requires p.Valid() && forall q <- more :: q.Valid()
    ensures forall q <- [p] + more :: q.Valid()
    ensures PiecesBytes([p] + more) + tail == PieceBytes(p) + (PiecesBytes(more) + tail)
  {
    assert ([p] + more)[1..] == more;
  }

  ghost predicate Decomposes(b: Bytes, pieces: seq<Piece>, tail: Bytes) {
    (forall p <- pieces :: p.Valid()) && b == SOI + PiecesBytes(pieces) + tail
  }

  /** The walk accepts exactly SOI, then whole pieces, then a frame header whose length fits; and reads that header. */
  lemma JpegIsExact(b: Bytes, image: Image)
    ensures JpegOf(b) == Some(image)
       <==> exists pieces, tail :: Decomposes(b, pieces, tail) && StartsFrame(tail, image)
  {
    if JpegOf(b) == Some(image) {
      var rest := b[2..];
      assert b == SOI + rest;
      JpegIsTheWalkAfterSoi(rest);
      var pieces, tail := WalkFindsFrame(rest, image);
      assert SOI + PiecesBytes(pieces) + tail == SOI + rest;
      assert Decomposes(b, pieces, tail);
    }
    forall pieces, tail | Decomposes(b, pieces, tail) && StartsFrame(tail, image) ensures JpegOf(b) == Some(image) {
      DecomposedIsRead(pieces, tail, image);
    }
  }

  /** Where the walk goes on when a fill byte stands before a frame marker: it takes the marker for a length. */
  function AfterFillByte(rest: Bytes): nat
    requires |rest| >= 3
  {
    2 + 256 * (rest[1] as int) + rest[2]
  }

  lemma FillByteSkips(rest: Bytes)
    requires |rest| >= 8 && rest[0] == 0xFF && IsStartOfFrame(rest[1])
    ensures var skip := AfterFillByte(rest);
      && skip >= 0xC002
      && Walk([0xFF] + rest, 0) == if skip <= |rest| + 1 then Walk(([0xFF] + rest)[skip..], 0) else None
  {
    var tail := [0xFF] + rest;
    var skip := AfterFillByte(rest);
    assert tail[0] == 0xFF && tail[1] == rest[0] && tail[2] == rest[1] && tail[3] == rest[2];
    assert UInt16BE(tail, 2) == skip - 2;
    if skip <= |tail| {
      WalkIsLocal(tail[..skip], tail[skip..], 0);
      assert tail[..skip] + tail[skip..] == tail;
    }
  }

  /**
   * The standard lets fill bytes stand before a marker (section B.1.1.2). After one, the walker takes the frame's
   * marker for a length of 0xC000 or more: it goes on that far behind the frame header, whatever stands there, and
   * gives up when the file ends before. Either way the header is not read.
   */
  lemma FillByteHidesTheFrame(pieces: seq<Piece>, f: Frame, trailing: Bytes)
    requires (forall p <- pieces :: p.Valid()) && f.Valid()
    ensures var rest := FrameBytes(f) + trailing; var skip := AfterFillByte(rest);
      && skip > |FrameBytes(f)|
      && JpegOf(SOI + (PiecesBytes(pieces) + ([0xFF] + rest)))
         == if skip <= |rest| + 1 then Walk(([0xFF] + rest)[skip..], 0) else None
  {
    var rest := FrameBytes(f) + trailing;
    assert rest[0] == 0xFF && rest[1] == f.marker;
    FillByteSkips(rest);
    WalkSkipsPieces(pieces, [0xFF] + rest);
    JpegIsTheWalkAfterSoi(PiecesBytes(pieces) + ([0xFF] + rest));
  }

  // ---------------------------------------------------------------------
  // PNG and WebP: fixed offsets

  const PNG_SIGNATURE: Bytes := [0x89, 0x50, 0x4E, 0x47, 0x0D, 0x0A, 0x1A, 0x0A]

  function PngOf(b: Bytes): Option<Image> {
    if |b| < 24 || b[..8] != PNG_SIGNATURE then None
    else Some(Image(Png, UInt32BE(b, 16), UInt32BE(b, 20)))
  }

  /** ToInt32. */
  function Int32(n: nat): int
    requires n < 0x1_0000_0000
  {
    if n < 0x8000_0000 then n else n - 0x1_0000_0000
  }

  function WebpOf(b: Bytes): Option<Image> {
    if |b| < 30 || !Spells(b, 0, "RIFF") || !Spells(b, 8, "WEBP") then None
    else if Spells(b, 12, "VP8X") then Some(Image(Webp, 1 + UInt24LE(b, 24), 1 + UInt24LE(b, 27)))
    else if Spells(b, 12, "VP8 ") then Some(Image(Webp, UInt16LE(b, 26) % 0x4000, UInt16LE(b, 28) % 0x4000))
    else if Spells(b, 12, "VP8L") then
      var bits := Int32(UInt32LE(b, 21));
      Some(Image(Webp, bits % 0x4000 + 1, (bits / 0x4000) % 0x4000 + 1))
    else None
  }

  function ValidateVisionImage(b: Bytes): Option<Image> {
    if PngOf(b).Some? then PngOf(b) else if JpegOf(b).Some? then JpegOf(b) else WebpOf(b)
  }

  /** The formats exclude one another, so the order they are tried in does not matter. */
  lemma FormatsAreDisjoint(b: Bytes, image: Image)
    ensures ValidateVisionImage(b) == Some(image)
       <==> PngOf(b) == Some(image) || JpegOf(b) == Some(image) || WebpOf(b) == Some(image)
  {
    if PngOf(b).Some? { assert b[0] == b[..8][0] == 0x89; }
    if JpegOf(b).Some? { assert b[0] == b[..2][0] == 0xFF; }
    if WebpOf(b).Some? { assert b[0 + 0] % 0x80 == "RIFF"[0] as int; }
  }

  /** The three fields of a lossless header come apart again, through the signed shift too. */
  lemma FieldsComeApart(w: nat, h: nat, a: nat)
    requires w < 0x4000 && h < 0x4000 && a < 16
    ensures var n := w + 0x4000 * h + 0x1000_0000 * a;
      n < 0x1_0000_0000 && Int32(n) % 0x4000 == w && Int32(n) / 0x4000 % 0x4000 == h
  {
    var n := w + 0x4000 * h + 0x1000_0000 * a;
    var k := if n < 0x8000_0000 then a else a - 16;
    assert Int32(n) == w + 0x4000 * (h + 0x4000 * k);
    assert Int32(n) / 0x4000 == h + 0x4000 * k;
  }

  /** A lossless WebP header packs both dimensions, less one, in 14 bits each; they are read back. */
  lemma LosslessWebpIsRead(b: Bytes, width: nat, height: nat, alphaAndVersion: nat)
    requires |b| >= 30 && Spells(b, 0, "RIFF") && Spells(b, 8, "WEBP") && Spells(b, 12, "VP8L")
    requires 1 <= width <= 0x4000 && 1 <= height <= 0x4000 && alphaAndVersion < 16
    requires UInt32LE(b, 21) == (width - 1) + 0x4000 * (height - 1) + 0x1000_0000 * alphaAndVersion
    ensures WebpOf(b) == Some(Image(Webp, width, height))
  {
    assert "VP8L"[3] != "VP8X"[3] && "VP8L"[3] != "VP8 "[3];
    assert b[12 + 3] % 0x80 == "VP8L"[3] as int;
    FieldsComeApart(width - 1, height - 1, alphaAndVersion);
  }
}
