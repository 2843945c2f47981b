/** The facts read off a PNG file, and the encoder they are checked against. */
module PngFacts {
  import opened Wrappers
  import opened Bytes
  import opened PngRows
  import opened PngFilters
  import opened PngChunks

  type Image = seq<seq<bytes>>

  const STRIDE := 4

  predicate Supported(colorType: int) { colorType == 2 || colorType == 6 }

  function Channels(colorType: int): (n: nat)
    requires Supported(colorType)
    ensures n > 0
  {
    if colorType == 2 then 3 else 4
  }

  // ---- Sampled colours ----

  lemma Fits(x: nat, width: nat, channels: nat)
    requires x < width
    ensures x * channels + channels <= width * channels && 0 <= x * channels
  {
    assert (width - x - 1) * channels >= 0;
    assert width * channels == x * channels + channels + (width - x - 1) * channels;
  }

  function PixelAt(row: bytes, x: nat, width: nat, channels: nat): bytes
    requires x < width && |row| == width * channels
  {
    Fits(x, width, channels);
    row[x * channels..x * channels + channels]
  }

  /** RGB pixels are compared with an opaque alpha. */
  function Opaque(colorType: int, pixel: bytes): bytes {
    if colorType == 2 then pixel + [0xFF] else pixel
  }

  predicate Sampled(i: int) { i % STRIDE == 0 }

  ghost function SampledColors(rows: seq<bytes>, width: nat, colorType: int): set<bytes>
    requires Supported(colorType) && Rectangular(rows, width * Channels(colorType))
  {
    set y: nat, x: nat | y < |rows| && x < width && Sampled(y) && Sampled(x) ::
      Color(rows[y], x, width, colorType)
  }

  function Color(row: bytes, x: nat, width: nat, colorType: int): bytes
    requires Supported(colorType) && x < width && |row| == width * Channels(colorType)
  {
    Opaque(colorType, PixelAt(row, x, width, Channels(colorType)))
  }

  /** The colours of the sampled pixels among the first `n` of a row. */
  function RowColors(row: bytes, width: nat, colorType: int, n: nat): set<bytes>
    requires Supported(colorType) && n <= width && |row| == width * Channels(colorType)
  {
    if n == 0 then {}
    else RowColors(row, width, colorType, n - 1) + if Sampled(n - 1) then {Color(row, n - 1, width, colorType)} else {}
  }

  /** The colours of the sampled pixels in the first `n` rows. */
  ghost function GridColors(rows: seq<bytes>, width: nat, colorType: int, n: nat): set<bytes>
    requires Supported(colorType) && n <= |rows| && Rectangular(rows, width * Channels(colorType))
  {
    if n == 0 then {}
    else
      GridColors(rows, width, colorType, n - 1)
      + if Sampled(n - 1) then RowColors(rows[n - 1], width, colorType, width) else {}
  }

  lemma {:induction false} RowStays(row: bytes, width: nat, colorType: int, x: nat, n: nat)
    requires Supported(colorType) && |row| == width * Channels(colorType)
    requires x <= n <= width && forall i :: x <= i < n ==> !Sampled(i)
    ensures RowColors(row, width, colorType, n) == RowColors(row, width, colorType, x)
    decreases n
  {
    if x < n { RowStays(row, width, colorType, x, n - 1); }
  }

  lemma {:induction false} GridStays(rows: seq<bytes>, width: nat, colorType: int, y: nat, n: nat)
    requires Supported(colorType) && Rectangular(rows, width * Channels(colorType))
    requires y <= n <= |rows| && forall i :: y <= i < n ==> !Sampled(i)
    ensures GridColors(rows, width, colorType, n) == GridColors(rows, width, colorType, y)
    decreases n
  {
    if y < n { GridStays(rows, width, colorType, y, n - 1); }
  }

  /** Colour `c` is at a sampled place among the first `n` of the row. */
  ghost predicate InRow(row: bytes, width: nat, colorType: int, n: nat, c: bytes)
    requires Supported(colorType) && n <= width && |row| == width * Channels(colorType)
  {
    exists x: nat :: x < n && Sampled(x) && c == Color(row, x, width, colorType)
  }

  lemma {:induction false} RowColorsAre(row: bytes, width: nat, colorType: int, n: nat, c: bytes)
    requires Supported(colorType) && n <= width && |row| == width * Channels(colorType)
    ensures c in RowColors(row, width, colorType, n) <==> InRow(row, width, colorType, n, c)
    decreases n
  {
    if n > 0 { RowColorsAre(row, width, colorType, n - 1, c); }
  }

  lemma {:induction false} GridColorsAre(rows: seq<bytes>, width: nat, colorType: int, n: nat, c: bytes)
    requires Supported(colorType) && n <= |rows| && Rectangular(rows, width * Channels(colorType))
    ensures c in GridColors(rows, width, colorType, n) <==>
            exists y: nat :: y < n && Sampled(y) && InRow(rows[y], width, colorType, width, c)
    decreases n
  {
    if n > 0 {
      GridColorsAre(rows, width, colorType, n - 1, c);
      RowColorsAre(rows[n - 1], width, colorType, width, c);
    }
  }

  lemma Gap(x: nat)
    requires Sampled(x)
    ensures forall i :: x + 1 <= i < x + STRIDE ==> !Sampled(i)
    ensures Sampled(x + STRIDE)
  {
  }

  function Min(a: int, b: int): int { if a < b then a else b }

  method AddRow(row: bytes, width: nat, colorType: int, colors: set<bytes>) returns (r: set<bytes>)
    requires Supported(colorType) && |row| == width * Channels(colorType)
    ensures r == colors + RowColors(row, width, colorType, width)
  {
    var channels := Channels(colorType);
    r := colors;
    var x := 0;
    while x < width
      invariant Sampled(x)
      invariant r == colors + RowColors(row, width, colorType, Min(x, width))
    {
      var pixel := PixelAt(row, x, width, channels);
      if colorType == 2 {
        pixel := pixel + [0xFF];
      }
      r := r + {pixel};
      Gap(x);
      RowStays(row, width, colorType, x + 1, Min(x + STRIDE, width));
      x := x + STRIDE;
    }
  }

  lemma GridIsSampled(rows: seq<bytes>, width: nat, colorType: int)
    requires Supported(colorType) && Rectangular(rows, width * Channels(colorType))
    ensures GridColors(rows, width, colorType, |rows|) == SampledColors(rows, width, colorType)
  {
    forall c
      ensures c in GridColors(rows, width, colorType, |rows|) <==> c in SampledColors(rows, width, colorType)
    {
      GridColorsAre(rows, width, colorType, |rows|, c);
    }
  }

  method CountColors(rows: seq<bytes>, width: nat, colorType: int) returns (n: nat)
    requires Supported(colorType) && Rectangular(rows, width * Channels(colorType))
    ensures n == |SampledColors(rows, width, colorType)|
  {
    var colors: set<bytes> := {};
    var y := 0;
    while y < |rows|
      invariant Sampled(y)
      invariant colors == GridColors(rows, width, colorType, Min(y, |rows|))
    {
      colors := AddRow(rows[y], width, colorType, colors);
      Gap(y);
      GridStays(rows, width, colorType, y + 1, Min(y + STRIDE, |rows|));
      y := y + STRIDE;
    }
    GridIsSampled(rows, width, colorType);
    n := |colors|;
  }

  // ---- The parser ----

  datatype Header = Header(
    width: nat, height: nat, depth: byte, colorType: byte, compression: byte, filtering: byte, interlace: byte)

  function ReadHeader(b: bytes): Header
    requires |b| == 13
  {
    Header(FromU32(b[..4]), FromU32(b[4..8]), b[8], b[9], b[10], b[11], b[12])
  }

  function PackHeader(h: Header): (b: bytes)
    requires h.width < U32_LIMIT && h.height < U32_LIMIT
    ensures |b| == 13
  {
    U32(h.width) + U32(h.height) + [h.depth, h.colorType, h.compression, h.filtering, h.interlace]
  }

  lemma HeaderReadsBack(h: Header)
    requires h.width < U32_LIMIT && h.height < U32_LIMIT
    ensures ReadHeader(PackHeader(h)) == h
  {
    var b := PackHeader(h);
    assert b[..4] == U32(h.width) && b[4..8] == U32(h.height);
    U32RoundTrip(h.width);
    U32RoundTrip(h.height);
  }

  datatype Fault = Framing(error: PngChunks.Error) | EmptyDimensions | Unsupported | BadStream | WrongLength | BadFilter
  datatype Facts = Facts(width: nat, height: nat, bitDepth: int, colorType: int, sampleStride: int, distinctColors: nat)
  datatype Result = Rejected(fault: Fault) | Reported(facts: Facts)

  predicate Plain(h: Header) {
    h.depth == 8 && Supported(h.colorType) && h.compression == 0 && h.filtering == 0 && h.interlace == 0
  }

  lemma Product(a: nat, b: nat)
    requires a > 0 && b > 0
    ensures a * b > 0
  {
  }

  /** What is reported once the chunks are read. */
  ghost function Grade(h: Header, inflated: Option<bytes>): Result {
    if h.width < 1 || h.height < 1 then Rejected(EmptyDimensions)
    else if !Plain(h) then Rejected(Unsupported)
    else if inflated.None? then Rejected(BadStream)
    else
      var channels := Channels(h.colorType);
      Product(h.width, channels);
      var rowBytes := h.width * channels;
      LinesAre(|inflated.value|, rowBytes, h.height);
      if |inflated.value| != h.height * (rowBytes + 1) then Rejected(WrongLength)
      else
        var rows := Decode(Undoing(channels), inflated.value, Zeros(rowBytes), h.height);
        DecodedRows(Undoing(channels), inflated.value, Zeros(rowBytes), h.height);
        if rows.None? then Rejected(BadFilter)
        else
          var colors := SampledColors(rows.value, h.width, h.colorType);
          Reported(Facts(h.width, h.height, 8, h.colorType, STRIDE, |colors|))
  }

  lemma AcceptedHeader(data: bytes)
    ensures ReadFile(data).Accepted? ==> |ReadFile(data).header| == 13
  {
    if ReadFile(data).Accepted? {
      AcceptsLegalFiles(data, ReadFile(data).header, ReadFile(data).compressed);
    }
  }

  ghost function Parse(inflate: bytes -> Option<bytes>, data: bytes): Result {
    AcceptedHeader(data);
    match ReadFile(data)
    case Refused(e) => Rejected(Framing(e))
    case Accepted(header, compressed) => Grade(ReadHeader(header), inflate(compressed))
  }

  function Then(rows: seq<bytes>, rest: Option<seq<bytes>>): Option<seq<bytes>> {
    if rest.None? then None else Some(rows + rest.value)
  }

  lemma Regroup(rows: seq<bytes>, row: bytes, rest: Option<seq<bytes>>)
    ensures Then(rows + [row], rest) == Then(rows, if rest.None? then None else Some([row] + rest.value))
  {
    if rest.Some? {
      assert rows + [row] + rest.value == rows + ([row] + rest.value);
    }
  }

  /** Names the row decoder without unfolding it. */
  ghost predicate IsUndoing(undo: Undo, channels: nat) {
    forall f: byte, e: bytes, p: bytes {:trigger UndoRow(channels, f, e, p)} ::
      undo(f, e, p) == UndoRow(channels, f, e, p)
  }

  method DecodeRow(ghost undo: Undo, channels: nat, filter: byte, encoded: bytes, previous: bytes)
    returns (r: Option<bytes>)
    requires IsUndoing(undo, channels) && channels > 0 && |encoded| == |previous| > 0
    ensures r == undo(filter, encoded, previous) && (r.Some? ==> |r.value| == |previous|)
  {
    r := UnfilterRow(channels, filter, encoded, previous);
    assert r == UndoRow(channels, filter, encoded, previous);
  }

  lemma Window(z: bytes, at: nat, n: nat)
    requires at + n < |z|
    ensures z[at..][0] == z[at] && z[at..][1..n + 1] == z[at + 1..at + 1 + n] && z[at..][n + 1..] == z[at + n + 1..]
  {
  }

  type Decoder = (bytes, bytes, nat) -> Option<seq<bytes>>

  function Decoding(undo: Undo): Decoder {
    (z: bytes, previous: bytes, height: nat) =>
      if Lines(|z|, |previous|, height) then Decode(undo, z, previous, height) else None
  }

  /** Names the decoding of all rows without unfolding it. */
  ghost predicate IsDecoding(decode: Decoder, undo: Undo) {
    forall z: bytes, p: bytes, h: nat {:trigger Decode(undo, z, p, h)} ::
      Lines(|z|, |p|, h) ==> decode(z, p, h) == Decode(undo, z, p, h)
  }

  lemma DecodeStep(decode: Decoder, undo: Undo, rows: seq<bytes>, z: bytes, at: nat, previous: bytes, height: nat)
    requires IsDecoding(decode, undo) && height > 0 && at <= |z| && Lines(|z| - at, |previous|, height)
    requires var n := |previous|;
             var row := undo(z[at], z[at + 1..at + 1 + n], previous); row.Some? ==> |row.value| == n
    ensures Lines(|z| - at - |previous| - 1, |previous|, height - 1)
    ensures var n := |previous|;
            var row := undo(z[at], z[at + 1..at + 1 + n], previous);
            Then(rows, decode(z[at..], previous, height)) ==
              if row.None? then None else Then(rows + [row.value], decode(z[at + n + 1..], row.value, height - 1))
  {
    var n := |previous|;
    Window(z, at, n);
    var row := undo(z[at], z[at + 1..at + 1 + n], previous);
    assert decode(z[at..], previous, height) == Decode(undo, z[at..], previous, height);
    if row.Some? {
      assert decode(z[at + n + 1..], row.value, height - 1) == Decode(undo, z[at + n + 1..], row.value, height - 1);
      Regroup(rows, row.value, decode(z[at + n + 1..], row.value, height - 1));
    }
  }

  lemma DecodeEnds(decode: Decoder, undo: Undo, rows: seq<bytes>, previous: bytes)
    requires IsDecoding(decode, undo)
    ensures Then(rows, decode([], previous, 0)) == Some(rows)
  {
    assert decode([], previous, 0) == Decode(undo, [], previous, 0);
    assert rows + [] == rows;
  }

  method DecodeRows(
      ghost decode: Decoder, ghost undo: Undo, channels: nat, rowBytes: nat, inflated: bytes, height: nat)
    returns (r: Option<seq<bytes>>)
    requires IsDecoding(decode, undo) && IsUndoing(undo, channels) && channels > 0 && rowBytes > 0
    requires Lines(|inflated|, rowBytes, height)
    ensures r == decode(inflated, Zeros(rowBytes), height)
  {
    var rows: seq<bytes> := [];
    var previous := Zeros(rowBytes);
    var cursor := 0;
    ghost var goal := decode(inflated, previous, height);
    assert inflated[0..] == inflated && (goal.Some? ==> [] + goal.value == goal.value);
    for k := 0 to height
      invariant 0 <= cursor <= |inflated| && |previous| == rowBytes && Lines(|inflated| - cursor, rowBytes, height - k)
      invariant Then(rows, decode(inflated[cursor..], previous, height - k)) == goal
    {
      var filter := inflated[cursor];
      var encoded := inflated[cursor + 1..cursor + 1 + rowBytes];
      var decoded := DecodeRow(undo, channels, filter, encoded, previous);
      DecodeStep(decode, undo, rows, inflated, cursor, previous, height - k);
      cursor := cursor + rowBytes + 1;
      if decoded.None? {
        return None;
      }
      previous := decoded.value;
      rows := rows + [previous];
    }
    assert inflated[cursor..] == [];
    DecodeEnds(decode, undo, rows, previous);
    r := Some(rows);
  }

  method GradePixels(h: Header, inflated: Option<bytes>) returns (r: Result)
    ensures r == Grade(h, inflated)
  {
    if h.width < 1 || h.height < 1 {
      return Rejected(EmptyDimensions);
    }
    if !Plain(h) {
      return Rejected(Unsupported);
    }
    var channels := Channels(h.colorType);
    Product(h.width, channels);
    var rowBytes := h.width * channels;
    if inflated.None? {
      return Rejected(BadStream);
    }
    LinesAre(|inflated.value|, rowBytes, h.height);
    if |inflated.value| != h.height * (rowBytes + 1) {
      return Rejected(WrongLength);
    }
    var rows := DecodeRows(
      Decoding(Undoing(channels)), Undoing(channels), channels, rowBytes, inflated.value, h.height);
    DecodedRows(Undoing(channels), inflated.value, Zeros(rowBytes), h.height);
    if rows.None? {
      return Rejected(BadFilter);
    }
    var n := CountColors(rows.value, h.width, h.colorType);
    return Reported(Facts(h.width, h.height, h.depth, h.colorType, STRIDE, n));
  }

  method ParsePng(inflate: bytes -> Option<bytes>, data: bytes) returns (r: Result)
    ensures r == Parse(inflate, data)
  {
    var chunks := ReadChunks(data);
    if chunks.Refused? {
      return Rejected(Framing(chunks.error));
    }
    AcceptedHeader(data);
    r := GradePixels(ReadHeader(chunks.header), inflate(chunks.compressed));
  }

  // ---- The encoder ----

  function Raw(pixels: seq<bytes>): bytes {
    if pixels == [] then [] else pixels[0] + Raw(pixels[1..])
  }

  ghost predicate RowOf(pixels: seq<bytes>, width: nat, channels: nat) {
    |pixels| == width && forall x :: 0 <= x < width ==> |pixels[x]| == channels
  }

  ghost predicate ImageOf(image: Image, width: nat, channels: nat) {
    forall y :: 0 <= y < |image| ==> RowOf(image[y], width, channels)
  }

  lemma {:induction false} RawLength(pixels: seq<bytes>, width: nat, channels: nat)
    requires RowOf(pixels, width, channels)
    ensures |Raw(pixels)| == width * channels
    decreases width
  {
    if width > 0 {
      RawLength(pixels[1..], width - 1, channels);
      OneMore(width, channels);
    }
  }

  lemma Head(a: bytes, b: bytes)
    ensures (a + b)[0..|a|] == a
  {
  }

  lemma Shifted(a: bytes, b: bytes, i: nat, n: nat)
    requires i + n <= |b|
    ensures (a + b)[i + |a|..i + |a| + n] == b[i..i + n]
  {
  }

  ghost predicate SliceAt(raw: bytes, at: int, n: nat, p: bytes) {
    0 <= at && at + n <= |raw| && raw[at..at + n] == p
  }

  lemma FirstSlice(a: bytes, b: bytes)
    ensures SliceAt(a + b, 0, |a|, a)
  {
    Head(a, b);
  }

  lemma LaterSlice(a: bytes, b: bytes, at: int, n: nat, p: bytes)
    requires SliceAt(b, at, n, p)
    ensures SliceAt(a + b, at + |a|, n, p)
  {
    Shifted(a, b, at, n);
  }

  /** Where pixel `x` starts in the raw row. */
  ghost function Offset(pixels: seq<bytes>, x: nat): nat
    requires x < |pixels|
  {
    if x == 0 then 0 else Offset(pixels[1..], x - 1) + |pixels[0]|
  }

  lemma {:induction false} RawSlice(pixels: seq<bytes>, x: nat)
    requires x < |pixels|
    ensures SliceAt(Raw(pixels), Offset(pixels, x), |pixels[x]|, pixels[x])
    decreases x
  {
    if x == 0 {
      FirstSlice(pixels[0], Raw(pixels[1..]));
    } else {
      RawSlice(pixels[1..], x - 1);
      LaterSlice(pixels[0], Raw(pixels[1..]), Offset(pixels[1..], x - 1), |pixels[x]|, pixels[x]);
    }
  }

  lemma {:induction false} OffsetIs(pixels: seq<bytes>, channels: nat, x: nat)
    requires RowOf(pixels, |pixels|, channels) && x < |pixels|
    ensures Offset(pixels, x) == x * channels
    decreases x
  {
    if x > 0 {
      OffsetIs(pixels[1..], channels, x - 1);
      OneMore(x, channels);
    }
  }

  lemma SliceIsPixel(row: bytes, x: nat, width: nat, channels: nat, at: nat, p: bytes)
    requires x < width && |row| == width * channels && at == x * channels
    requires at + channels <= |row| && row[at..at + channels] == p
    ensures PixelAt(row, x, width, channels) == p
  {
  }

  lemma RawAt(pixels: seq<bytes>, raw: bytes, width: nat, channels: nat, x: nat, at: nat, total: nat)
    requires RowOf(pixels, width, channels) && x < width && raw == Raw(pixels)
    requires at == x * channels && total == width * channels
    ensures |raw| == total && at + channels <= total && raw[at..at + channels] == pixels[x]
  {
    RawLength(pixels, width, channels);
    OffsetIs(pixels, channels, x);
    RawSlice(pixels, x);
  }

  /** Slicing the raw row at `x` gives back pixel `x`. */
  lemma PixelReadsBack(pixels: seq<bytes>, raw: bytes, width: nat, channels: nat, x: nat)
    requires RowOf(pixels, width, channels) && x < width && raw == Raw(pixels)
    ensures |raw| == width * channels && PixelAt(raw, x, width, channels) == pixels[x]
  {
    Fits(x, width, channels);
    RawAt(pixels, raw, width, channels, x, x * channels, width * channels);
    SliceIsPixel(raw, x, width, channels, x * channels, pixels[x]);
  }

  ghost function RowsBy(flat: seq<bytes> -> bytes, image: Image): (rows: seq<bytes>)
    ensures |rows| == |image|
    ensures forall y :: 0 <= y < |image| ==> rows[y] == flat(image[y])
  {
    seq(|image|, y requires 0 <= y < |image| => flat(image[y]))
  }

  ghost function RawRows(image: Image): (rows: seq<bytes>)
    ensures |rows| == |image|
    ensures forall y :: 0 <= y < |image| ==> rows[y] == Raw(image[y])
  {
    RowsBy(Raw, image)
  }

  lemma RawRowsFit(image: Image, width: nat, channels: nat)
    requires ImageOf(image, width, channels)
    ensures Rectangular(RawRows(image), width * channels)
  {
    forall y | 0 <= y < |image|
      ensures |RawRows(image)[y]| == width * channels
    {
      RawLength(image[y], width, channels);
    }
  }

  ghost function FileChunks(h: Header, compressed: bytes): seq<Chunk>
    requires h.width < U32_LIMIT && h.height < U32_LIMIT
  {
    [Chunk(IHDR, PackHeader(h)), Chunk(IDAT, compressed), Chunk(IEND, [])]
  }

  /** The rows the encoder compresses. */
  ghost function EncodedRows(image: Image, width: nat, colorType: byte, filters: seq<byte>): bytes
    requires Supported(colorType) && |filters| == |image|
  {
    Scanlines(Doing(Channels(colorType)), RawRows(image), filters, Zeros(width * Channels(colorType)))
  }

  /** `filters or [0] * height`. */
  function Chosen(filters: seq<byte>, height: nat): seq<byte> { if filters == [] then Zeros(height) else filters }

  /** Names the row encoder without unfolding it. */
  ghost predicate IsDoing(do: Do, channels: nat) {
    forall f: byte, r: bytes, p: bytes {:trigger DoRow(channels, f, r, p)} :: do(f, r, p) == DoRow(channels, f, r, p)
  }

  /** A row is filtered when it is no longer than the row above and its filter, where it is used, is known. */
  predicate LineFits(filter: byte, length: nat, above: nat) {
    length <= above && (length == 0 || filter <= LAST_FILTER)
  }

  function Above(rows: seq<bytes>, n: nat, y: nat): nat
    requires y <= |rows|
  {
    if y == 0 then n else |rows[y - 1]|
  }

  ghost predicate LinesFit(rows: seq<bytes>, filters: seq<byte>, n: nat, y: nat)
    requires y <= |rows| && y <= |filters|
  {
    forall k :: 0 <= k < y ==> LineFits(filters[k], |rows[k]|, Above(rows, n, k))
  }

  method EncodeRow(ghost do: Do, channels: nat, filter: byte, raw: bytes, previous: bytes) returns (r: Option<bytes>)
    requires IsDoing(do, channels) && channels > 0
    ensures r == if LineFits(filter, |raw|, |previous|) then Some([filter] + do(filter, raw, previous)) else None
  {
    var encoded := FilterRow(channels, filter, raw, previous);
    assert LineFits(filter, |raw|, |previous|) ==> encoded == Some(DoRow(channels, filter, raw, previous));
    r := if encoded.None? then None else Some([filter] + encoded.value);
  }

  type Lining = (seq<bytes>, seq<byte>, bytes) -> bytes

  function Scanning(do: Do): Lining {
    (rows: seq<bytes>, filters: seq<byte>, previous: bytes) =>
      if |filters| == |rows| then Scanlines(do, rows, filters, previous) else []
  }

  /** Names the scanlines of rows without unfolding them. */
  ghost predicate IsScanning(lines: Lining, do: Do) {
    forall rows: seq<bytes>, fs: seq<byte>, p: bytes {:trigger Scanlines(do, rows, fs, p)} ::
      |fs| == |rows| ==> lines(rows, fs, p) == Scanlines(do, rows, fs, p)
  }

  lemma ScanlinesStep(
      lines: Lining, pre: bytes, do: Do, rows: seq<bytes>, filters: seq<byte>, y: nat, previous: bytes, whole: bytes)
    requires IsScanning(lines, do) && y < |rows| == |filters| && pre + lines(rows[y..], filters[y..], previous) == whole
    ensures pre + ([filters[y]] + do(filters[y], rows[y], previous)) + lines(rows[y + 1..], filters[y + 1..], rows[y])
            == whole
  {
    assert rows[y..][1..] == rows[y + 1..] && filters[y..][1..] == filters[y + 1..];
    assert lines(rows[y..], filters[y..], previous) == Scanlines(do, rows[y..], filters[y..], previous);
    assert lines(rows[y + 1..], filters[y + 1..], rows[y])
           == Scanlines(do, rows[y + 1..], filters[y + 1..], rows[y]);
    Reassociate(pre, [filters[y]] + do(filters[y], rows[y], previous),
                lines(rows[y + 1..], filters[y + 1..], rows[y]));
  }

  lemma ScanlinesEnd(lines: Lining, do: Do, pre: bytes, rows: seq<bytes>, filters: seq<byte>, previous: bytes)
    requires IsScanning(lines, do) && rows == [] && filters == []
    ensures pre + lines(rows, filters, previous) == pre
  {
    assert lines(rows, filters, previous) == Scanlines(do, rows, filters, previous);
  }

  /** What is encoded after `y` rows: the rows passed fit, and the scanlines of the others are still to come. */
  ghost predicate Encoding(
      lines: Lining, raws: seq<bytes>, filters: seq<byte>, n: nat, y: nat, rows: bytes, previous: bytes) {
    && y <= |raws| && y <= |filters| && |previous| == Above(raws, n, y) && LinesFit(raws, filters, n, y)
    && (|filters| >= |raws| ==>
          var used := filters[..|raws|];
          rows + lines(raws[y..], used[y..], previous) == lines(raws, used, Zeros(n)))
  }

  lemma EncodingStarts(lines: Lining, raws: seq<bytes>, filters: seq<byte>, n: nat)
    ensures Encoding(lines, raws, filters, n, 0, [], Zeros(n))
  {
    assert raws[0..] == raws;
    if |filters| >= |raws| {
      var used := filters[..|raws|];
      assert used[0..] == used && [] + lines(raws, used, Zeros(n)) == lines(raws, used, Zeros(n));
    }
  }

  lemma EncodingGoesOn(
      lines: Lining, do: Do, raws: seq<bytes>, filters: seq<byte>, n: nat, y: nat, rows: bytes, previous: bytes)
    requires IsScanning(lines, do) && Encoding(lines, raws, filters, n, y, rows, previous)
    requires y < |raws| && y < |filters| && LineFits(filters[y], |raws[y]|, |previous|)
    ensures Encoding(lines, raws, filters, n, y + 1,
                     rows + ([filters[y]] + do(filters[y], raws[y], previous)), raws[y])
  {
    if |filters| >= |raws| {
      var used := filters[..|raws|];
      ScanlinesStep(lines, rows, do, raws, used, y, previous, lines(raws, used, Zeros(n)));
    }
  }

  lemma EncodingStops(
      lines: Lining, raws: seq<bytes>, filters: seq<byte>, n: nat, y: nat, rows: bytes, previous: bytes)
    requires Encoding(lines, raws, filters, n, y, rows, previous) && y < |raws|
    requires y < |filters| ==> !LineFits(filters[y], |raws[y]|, |previous|)
    ensures !(|filters| >= |raws| && LinesFit(raws, filters, n, |raws|))
  {
  }

  lemma EncodingEnds(
      lines: Lining, do: Do, raws: seq<bytes>, filters: seq<byte>, n: nat, rows: bytes, previous: bytes)
    requires IsScanning(lines, do) && Encoding(lines, raws, filters, n, |raws|, rows, previous)
    ensures LinesFit(raws, filters, n, |raws|) && rows == lines(raws, filters[..|raws|], Zeros(n))
  {
    ScanlinesEnd(lines, do, rows, raws[|raws|..], filters[..|raws|][|raws|..], previous);
  }

  method EncodeRows(
      ghost lines: Lining, ghost do: Do, flat: seq<bytes> -> bytes,
      channels: nat, image: Image, rowBytes: nat, filters: seq<byte>)
    returns (r: Option<bytes>)
    requires IsScanning(lines, do) && IsDoing(do, channels) && channels > 0
    ensures r.Some? <==> |filters| >= |image| && LinesFit(RowsBy(flat, image), filters, rowBytes, |image|)
    ensures r.Some? ==> r.value == lines(RowsBy(flat, image), filters[..|image|], Zeros(rowBytes))
  {
    ghost var raws := RowsBy(flat, image);
    var rows: bytes := [];
    var previous := Zeros(rowBytes);
    EncodingStarts(lines, raws, filters, rowBytes);
    for y := 0 to |image|
      invariant Encoding(lines, raws, filters, rowBytes, y, rows, previous)
    {
      var raw := flat(image[y]);
      if y >= |filters| {
        EncodingStops(lines, raws, filters, rowBytes, y, rows, previous);
        return None;
      }
      var encoded := EncodeRow(do, channels, filters[y], raw, previous);
      if encoded.None? {
        EncodingStops(lines, raws, filters, rowBytes, y, rows, previous);
        return None;
      }
      EncodingGoesOn(lines, do, raws, filters, rowBytes, y, rows, previous);
      rows := rows + encoded.value;
      previous := raw;
    }
    EncodingEnds(lines, do, raws, filters, rowBytes, rows, previous);
    r := Some(rows);
  }

  /** The file for an image, under the height that its header is to state. */
  ghost function FileFor(deflate: bytes -> bytes, width: nat, height: nat, colorType: byte, image: Image,
                         filters: seq<byte>): bytes
    requires Supported(colorType) && |filters| == |image| && width < U32_LIMIT && height < U32_LIMIT
    requires |deflate(EncodedRows(image, width, colorType, filters))| < U32_LIMIT
  {
    var h := Header(width, height, 8, colorType, 0, 0, 0);
    SIGNATURE + FrameAll(FileChunks(h, deflate(EncodedRows(image, width, colorType, filters))))
  }

  /** Nothing on the way raises: colour type, filters, rows no longer than the ones above, sizes of 32 bits. */
  ghost predicate Encodes(deflate: bytes -> bytes, width: nat, height: nat, colorType: byte, image: Image,
                          filters: seq<byte>) {
    && Supported(colorType) && |filters| >= |image| && width < U32_LIMIT && height < U32_LIMIT
    && LinesFit(RawRows(image), filters, width * Channels(colorType), |image|)
    && |deflate(EncodedRows(image, width, colorType, filters[..|image|]))| < U32_LIMIT
  }

  method EncodePng(deflate: bytes -> bytes, width: nat, height: nat, colorType: byte, image: Image, filters: seq<byte>)
    returns (r: Option<bytes>)
    ensures r.Some? <==> Encodes(deflate, width, height, colorType, image, Chosen(filters, height))
    ensures r.Some? ==>
              r.value == FileFor(deflate, width, height, colorType, image, Chosen(filters, height)[..|image|])
  {
    if !Supported(colorType) {
      return None;
    }
    var channels := Channels(colorType);
    var rows := EncodeRows(
      Scanning(Doing(channels)), Doing(channels), Raw, channels, image, width * channels, Chosen(filters, height));
    if rows.None? || width >= U32_LIMIT || height >= U32_LIMIT {
      return None;
    }
    var compressed := deflate(rows.value);
    if |compressed| >= U32_LIMIT {
      return None;
    }
    var header := Chunk(IHDR, PackHeader(Header(width, height, 8, colorType, 0, 0, 0)));
    ThreeFrames(header, Chunk(IDAT, compressed), Chunk(IEND, []));
    return Some(SIGNATURE + Frame(header) + Frame(Chunk(IDAT, compressed)) + Frame(Chunk(IEND, [])));
  }

  /** An image of the stated width is encoded under every choice of known filters. */
  lemma ImagesEncode(
      deflate: bytes -> bytes, width: nat, height: nat, colorType: byte, image: Image, filters: seq<byte>)
    requires Supported(colorType) && ImageOf(image, width, Channels(colorType))
    requires |filters| == |image| && GoodFilters(filters) && width < U32_LIMIT && height < U32_LIMIT
    requires |deflate(EncodedRows(image, width, colorType, filters))| < U32_LIMIT
    ensures Encodes(deflate, width, height, colorType, image, filters)
  {
    RawRowsFit(image, width, Channels(colorType));
    assert filters[..|image|] == filters;
  }

  lemma ThreeFrames(a: Chunk, b: Chunk, c: Chunk)
    requires Framable(a) && Framable(b) && Framable(c)
    ensures SIGNATURE + FrameAll([a, b, c]) == SIGNATURE + Frame(a) + Frame(b) + Frame(c)
  {
    assert [a, b, c][1..] == [b, c] && [b, c][1..] == [c] && [c][1..] == [];
    assert FrameAll([c]) == Frame(c);
    assert FrameAll([b, c]) == Frame(b) + Frame(c);
    assert FrameAll([a, b, c]) == Frame(a) + (Frame(b) + Frame(c));
  }

  // ---- The parser undoes the encoder ----

  /** The distinct pixels at multiples of the stride. */
  ghost function Distinct(image: Image, width: nat): set<bytes>
    requires forall y :: 0 <= y < |image| ==> |image[y]| == width
  {
    set y: nat, x: nat | y < |image| && x < width && Sampled(y) && Sampled(x) :: image[y][x]
  }

  ghost function OpaqueAll(colorType: int, s: set<bytes>): set<bytes> {
    set p | p in s :: Opaque(colorType, p)
  }

  lemma OpaqueInjective(colorType: int, p: bytes, q: bytes)
    requires Opaque(colorType, p) == Opaque(colorType, q)
    ensures p == q
  {
    if colorType == 2 {
      assert p == (p + [0xFF])[..|p + [0xFF]| - 1] && q == (q + [0xFF])[..|q + [0xFF]| - 1];
    }
  }

  lemma {:induction false} OpaqueKeepsCount(colorType: int, s: set<bytes>)
    ensures |OpaqueAll(colorType, s)| == |s|
    decreases |s|
  {
    if s == {} {
      assert OpaqueAll(colorType, s) == {};
    } else {
      var p :| p in s;
      var rest := s - {p};
      OpaqueKeepsCount(colorType, rest);
      forall q | q in rest
        ensures Opaque(colorType, q) != Opaque(colorType, p)
      {
        if Opaque(colorType, q) == Opaque(colorType, p) { OpaqueInjective(colorType, p, q); }
      }
      assert OpaqueAll(colorType, s) == OpaqueAll(colorType, rest) + {Opaque(colorType, p)};
    }
  }

  lemma SampledAreDistinct(image: Image, width: nat, colorType: int)
    requires Supported(colorType) && ImageOf(image, width, Channels(colorType))
    requires Rectangular(RawRows(image), width * Channels(colorType))
    ensures SampledColors(RawRows(image), width, colorType) == OpaqueAll(colorType, Distinct(image, width))
  {
    forall y: nat, x: nat | y < |image| && x < width
      ensures Color(RawRows(image)[y], x, width, colorType) == Opaque(colorType, image[y][x])
    {
      PixelReadsBack(image[y], RawRows(image)[y], width, Channels(colorType), x);
    }
  }

  lemma FileIsLegal(h: Header, compressed: bytes)
    requires h.width < U32_LIMIT && h.height < U32_LIMIT && 0 < |compressed| < U32_LIMIT
    ensures Legal(FileChunks(h, compressed)) && Idat(FileChunks(h, compressed)) == compressed
  {
    var cs := FileChunks(h, compressed);
    assert cs[1..] == [cs[1], cs[2]] && cs[1..][1..] == [cs[2]] && cs[1..][1..][1..] == [];
    assert Idat([cs[2]]) == [];
    assert Idat([cs[1], cs[2]]) == compressed;
    assert IHDR != IEND && IDAT != IHDR && IDAT != IEND;
  }

  /** The zlib law the round trip rests on: decompression undoes compression, which never gives an empty string. */
  ghost predicate Inverts(inflate: bytes -> Option<bytes>, deflate: bytes -> bytes) {
    forall z :: inflate(deflate(z)) == Some(z) && deflate(z) != []
  }

  lemma EncodedDecodes(image: Image, width: nat, colorType: byte, filters: seq<byte>, n: nat)
    requires Supported(colorType) && ImageOf(image, width, Channels(colorType)) && n == width * Channels(colorType)
    requires |filters| == |image| && GoodFilters(filters)
    ensures Rectangular(RawRows(image), n)
    ensures var z := EncodedRows(image, width, colorType, filters);
            && Lines(|z|, n, |image|) && |z| == |image| * (n + 1)
            && Decode(Undoing(Channels(colorType)), z, Zeros(n), |image|) == Some(RawRows(image))
  {
    var channels, z := Channels(colorType), EncodedRows(image, width, colorType, filters);
    RawRowsFit(image, width, channels);
    FiltersAreInverse(channels, n);
    DecodeInvertsScanlines(Undoing(channels), Doing(channels), z, RawRows(image), filters, Zeros(n));
    LinesAre(|z|, n, |image|);
  }

  lemma GradeOf(h: Header, z: bytes, rows: seq<bytes>, n: nat)
    requires h.width >= 1 && h.height >= 1 && Plain(h) && n == h.width * Channels(h.colorType)
    requires Lines(|z|, n, h.height) && |z| == h.height * (n + 1) && Rectangular(rows, n)
    requires Decode(Undoing(Channels(h.colorType)), z, Zeros(n), h.height) == Some(rows)
    ensures Grade(h, Some(z))
            == Reported(Facts(h.width, h.height, 8, h.colorType, STRIDE, |SampledColors(rows, h.width, h.colorType)|))
  {
  }

  lemma GradeReports(image: Image, width: nat, colorType: byte, filters: seq<byte>)
    requires Supported(colorType) && ImageOf(image, width, Channels(colorType)) && width > 0 && |image| > 0
    requires |filters| == |image| && GoodFilters(filters)
    ensures Grade(Header(width, |image|, 8, colorType, 0, 0, 0), Some(EncodedRows(image, width, colorType, filters)))
            == Reported(Facts(width, |image|, 8, colorType, STRIDE, |Distinct(image, width)|))
  {
    var n := width * Channels(colorType);
    EncodedDecodes(image, width, colorType, filters, n);
    GradeOf(Header(width, |image|, 8, colorType, 0, 0, 0), EncodedRows(image, width, colorType, filters),
            RawRows(image), n);
    SampledAreDistinct(image, width, colorType);
    OpaqueKeepsCount(colorType, Distinct(image, width));
  }

  lemma Grows(a: nat, b: nat, n: nat)
    requires a < b
    ensures a * (n + 1) < b * (n + 1)
  {
    assert (b - a) * (n + 1) > 0;
  }

  lemma WrongLengthRefused(h: Header, z: bytes, n: nat)
    requires h.width >= 1 && h.height >= 1 && Plain(h) && n == h.width * Channels(h.colorType)
    requires |z| != h.height * (n + 1)
    ensures Grade(h, Some(z)) == Rejected(WrongLength)
  {
  }

  lemma GradeRefuses(image: Image, width: nat, height: nat, colorType: byte, filters: seq<byte>)
    requires Supported(colorType) && ImageOf(image, width, Channels(colorType))
    requires width > 0 && height > 0 && height != |image|
    requires |filters| == |image| && GoodFilters(filters)
    ensures Grade(Header(width, height, 8, colorType, 0, 0, 0), Some(EncodedRows(image, width, colorType, filters)))
            == Rejected(WrongLength)
  {
    var n := width * Channels(colorType);
    EncodedDecodes(image, width, colorType, filters, n);
    if height < |image| {
      Grows(height, |image|, n);
    } else {
      Grows(|image|, height, n);
    }
    WrongLengthRefused(Header(width, height, 8, colorType, 0, 0, 0), EncodedRows(image, width, colorType, filters), n);
  }

  lemma ParsesFile(inflate: bytes -> Option<bytes>, deflate: bytes -> bytes, h: Header, z: bytes)
    requires Inverts(inflate, deflate) && h.width < U32_LIMIT && h.height < U32_LIMIT && |deflate(z)| < U32_LIMIT
    ensures Parse(inflate, SIGNATURE + FrameAll(FileChunks(h, deflate(z)))) == Grade(h, Some(z))
  {
    var cs := FileChunks(h, deflate(z));
    FileIsLegal(h, deflate(z));
    assert FileOf(SIGNATURE + FrameAll(cs), cs);
    AcceptsLegalFiles(SIGNATURE + FrameAll(cs), PackHeader(h), deflate(z));
    HeaderReadsBack(h);
  }

  /**
   * For every image and every choice of filters, parsing the encoded file reports the exact number of distinct sampled
   * pixels, exactly when the header states the image's own height.
   */
  lemma ParseUndoesEncode(
      inflate: bytes -> Option<bytes>, deflate: bytes -> bytes,
      image: Image, width: nat, height: nat, colorType: byte, filters: seq<byte>)
    requires Inverts(inflate, deflate)
    requires Supported(colorType) && ImageOf(image, width, Channels(colorType))
    requires width < U32_LIMIT && height < U32_LIMIT
    requires |filters| == |image| && GoodFilters(filters)
    requires |deflate(EncodedRows(image, width, colorType, filters))| < U32_LIMIT
    ensures Parse(inflate, FileFor(deflate, width, height, colorType, image, filters)) ==
            if width < 1 || height < 1 then Rejected(EmptyDimensions)
            else if height != |image| then Rejected(WrongLength)
            else Reported(Facts(width, height, 8, colorType, STRIDE, |Distinct(image, width)|))
  {
    ParsesFile(inflate, deflate, Header(width, height, 8, colorType, 0, 0, 0),
               EncodedRows(image, width, colorType, filters));
    if width >= 1 && height >= 1 {
      if height == |image| {
        GradeReports(image, width, colorType, filters);
      } else {
        GradeRefuses(image, width, height, colorType, filters);
      }
    }
  }

  // ---- An RGB image and its opaque lift ----

  function LiftRow(pixels: seq<bytes>): (r: seq<bytes>)
    ensures |r| == |pixels| && forall x :: 0 <= x < |pixels| ==> r[x] == pixels[x] + [0xFF]
  {
    seq(|pixels|, x requires 0 <= x < |pixels| => pixels[x] + [0xFF])
  }

  /** The RGBA image with every pixel opaque. */
  function Lift(image: Image): (r: Image)
    ensures |r| == |image| && forall y :: 0 <= y < |image| ==> r[y] == LiftRow(image[y])
  {
    seq(|image|, y requires 0 <= y < |image| => LiftRow(image[y]))
  }

  lemma LiftKeepsCount(image: Image, width: nat)
    requires ImageOf(image, width, 3)
    ensures ImageOf(Lift(image), width, 4)
    ensures |Distinct(Lift(image), width)| == |Distinct(image, width)|
  {
    forall y | 0 <= y < |image|
      ensures RowOf(Lift(image)[y], width, 4)
    {
      assert RowOf(image[y], width, 3);
    }
    forall y: nat, x: nat | y < |image| && x < width
      ensures Lift(image)[y][x] == Opaque(2, image[y][x])
    {
    }
    assert Distinct(Lift(image), width) == OpaqueAll(2, Distinct(image, width));
    OpaqueKeepsCount(2, Distinct(image, width));
  }

  /** An RGB file and the RGBA file of its opaque lift report the same number of colours, whatever their filters. */
  lemma LiftReportsSameCount(
      inflate: bytes -> Option<bytes>, deflate: bytes -> bytes,
      image: Image, width: nat, filters: seq<byte>, others: seq<byte>)
    requires Inverts(inflate, deflate) && ImageOf(image, width, 3)
    requires 0 < width < U32_LIMIT && 0 < |image| < U32_LIMIT
    requires |filters| == |others| == |image| && GoodFilters(filters) && GoodFilters(others)
    requires |deflate(EncodedRows(image, width, 2, filters))| < U32_LIMIT
    requires ImageOf(Lift(image), width, 4) && |deflate(EncodedRows(Lift(image), width, 6, others))| < U32_LIMIT
    ensures var rgb := FileFor(deflate, width, |image|, 2, image, filters);
            var rgba := FileFor(deflate, width, |image|, 6, Lift(image), others);
            var r, s := Parse(inflate, rgb), Parse(inflate, rgba);
            r.Reported? && s.Reported? && r.facts.distinctColors == s.facts.distinctColors
  {
    LiftKeepsCount(image, width);
    ParseUndoesEncode(inflate, deflate, image, width, |image|, 2, filters);
    ParseUndoesEncode(inflate, deflate, Lift(image), width, |image|, 6, others);
  }

  // ---- What is reported on ----

  ghost predicate Gradable(h: Header, inflated: Option<bytes>) {
    && h.width >= 1 && h.height >= 1 && Plain(h) && inflated.Some?
    && var rowBytes := h.width * Channels(h.colorType);
       && |inflated.value| == h.height * (rowBytes + 1)
       && forall i :: 0 <= i < h.height ==> !UnknownFilter(inflated.value, rowBytes, i)
  }

  lemma GradeAccepts(h: Header, inflated: Option<bytes>)
    ensures Grade(h, inflated).Reported? <==> Gradable(h, inflated)
  {
    if h.width >= 1 && h.height >= 1 && Plain(h) && inflated.Some? {
      var channels := Channels(h.colorType);
      Product(h.width, channels);
      LinesAre(|inflated.value|, h.width * channels, h.height);
      if |inflated.value| == h.height * (h.width * channels + 1) {
        FiltersAreInverse(channels, h.width * channels);
        DecodeFails(Undoing(channels), Doing(channels), inflated.value, Zeros(h.width * channels), h.height);
      }
    }
  }

  /** A report is made exactly for legal, plain files whose data inflates to known-filter lines of the right size. */
  lemma ParseAccepts(inflate: bytes -> Option<bytes>, data: bytes)
    ensures Parse(inflate, data).Reported? <==>
            exists cs: seq<Chunk> :: FileOf(data, cs) && Gradable(ReadHeader(cs[0].body), inflate(Idat(cs)))
  {
    AcceptedHeader(data);
    var o := ReadFile(data);
    if o.Accepted? {
      AcceptsLegalFiles(data, o.header, o.compressed);
      GradeAccepts(ReadHeader(o.header), inflate(o.compressed));
    }
    forall cs: seq<Chunk> | FileOf(data, cs)
      ensures o == Accepted(cs[0].body, Idat(cs))
    {
      AcceptsLegalFiles(data, cs[0].body, Idat(cs));
    }
  }
}
