/** The report on a file in terms of its bytes alone. */
module PngReport {
  import opened Wrappers
  import opened Bytes
  import opened PngRows
  import opened PngFilters
  import opened PngChunks
  import opened PngFacts

  // ---- One row ----

  lemma ByteIs(filter: byte, encoded: byte, left: byte, up: byte, upperLeft: byte, value: byte)
    requires filter <= 4 && ByteUnfiltered(filter, encoded, left, up, upperLeft, value)
    ensures value == (encoded as int + Predict(filter, left, up, upperLeft)) % 256
  {
  }

  lemma NextByteIs(channels: nat, filter: byte, encoded: bytes, previous: bytes, row: bytes, i: nat)
    requires channels > 0 && filter <= 4 && IsUnfiltered(channels, filter, encoded, previous, row) && i < |row|
    ensures row[i] == (encoded[i] + PredictAt(channels, filter, row[..i], previous, i)) % 256
  {
    ByteIs(filter, encoded[i], Left(row, channels, i), previous[i], Left(previous, channels, i), row[i]);
  }

  /** The relation of a row to its filtered bytes fixes the row. */
  lemma {:induction false} RowIsUnfilter(
      channels: nat, filter: byte, encoded: bytes, previous: bytes, row: bytes, n: nat)
    requires channels > 0 && filter <= 4 && IsUnfiltered(channels, filter, encoded, previous, row) && n <= |row|
    ensures row[..n] == Unfilter(channels, filter, encoded[..n], previous)
    decreases n
  {
    if n > 0 {
      RowIsUnfilter(channels, filter, encoded, previous, row, n - 1);
      NextByteIs(channels, filter, encoded, previous, row, n - 1);
      UnfilterStep(channels, filter, encoded, previous, n - 1, row[..n - 1]);
      assert row[..n] == row[..n - 1] + [row[n - 1]];
    }
  }

  lemma UndoneExactly(channels: nat, filter: byte, encoded: bytes, previous: bytes, row: bytes)
    requires channels > 0 && |encoded| == |previous|
    ensures Undoing(channels)(filter, encoded, previous) == Some(row)
            <==> filter <= 4 && IsUnfiltered(channels, filter, encoded, previous, row)
  {
    if filter <= 4 {
      UnfilterIs(channels, filter, encoded, previous, Unfilter(channels, filter, encoded, previous));
      if IsUnfiltered(channels, filter, encoded, previous, row) {
        RowIsUnfilter(channels, filter, encoded, previous, row, |row|);
        assert row[..|row|] == row && encoded[..|row|] == encoded;
      }
    }
  }

  // ---- All rows ----

  /** Line by line: a known filter, and the row that its bytes stand for below the row before. */
  ghost predicate RowsBehind(channels: nat, z: bytes, previous: bytes, rows: seq<bytes>)
    requires channels > 0
    decreases |rows|
  {
    if rows == [] then z == []
    else
      var n := |previous|;
      && |z| > n && z[0] <= 4 && IsUnfiltered(channels, z[0], z[1..n + 1], previous, rows[0])
      && RowsBehind(channels, z[n + 1..], rows[0], rows[1..])
  }

  lemma DecodeStepExactly(undo: Undo, z: bytes, previous: bytes, height: nat, rows: seq<bytes>)
    requires Lines(|z|, |previous|, height) && height > 0
    ensures Decode(undo, z, previous, height) == Some(rows) <==>
            && rows != [] && |rows[0]| == |previous|
            && undo(z[0], z[1..|previous| + 1], previous) == Some(rows[0])
            && Decode(undo, z[|previous| + 1..], rows[0], height - 1) == Some(rows[1..])
  {
    if rows != [] { assert rows == [rows[0]] + rows[1..]; }
  }

  /** Decoding gives exactly the rows behind the lines. */
  lemma {:induction false} DecodedExactly(channels: nat, z: bytes, previous: bytes, height: nat, rows: seq<bytes>)
    requires channels > 0 && Lines(|z|, |previous|, height)
    ensures Decode(Undoing(channels), z, previous, height) == Some(rows)
            <==> |rows| == height && RowsBehind(channels, z, previous, rows)
    decreases height
  {
    if height > 0 {
      var n := |previous|;
      DecodeStepExactly(Undoing(channels), z, previous, height, rows);
      if rows != [] {
        UndoneExactly(channels, z[0], z[1..n + 1], previous, rows[0]);
        if |rows[0]| == n { DecodedExactly(channels, z[n + 1..], rows[0], height - 1, rows[1..]); }
      }
    }
  }

  // ---- The pixels counted ----

  /** The pixels of every fourth row at every fourth place. */
  ghost function Fourths(rows: seq<bytes>, width: nat, channels: nat): set<bytes>
    requires forall y :: 0 <= y < |rows| ==> |rows[y]| == width * channels
  {
    set y: nat, x: nat | y < |rows| && x < width && 4 * y < |rows| && 4 * x < width ::
      Pixel(rows[4 * y], 4 * x, width, channels)
  }

  function Pixel(row: bytes, x: nat, width: nat, channels: nat): bytes
    requires |row| == width * channels && x < width
  {
    Fits(x, width, channels);
    row[x * channels..x * channels + channels]
  }

  lemma SampledIsFourth(i: nat)
    ensures Sampled(i) <==> i == 4 * (i / 4)
    ensures Sampled(4 * i)
  {
  }

  lemma SampledIn(rows: seq<bytes>, width: nat, colorType: int, y: nat, x: nat)
    requires (colorType == 2 || colorType == 6) && Rectangular(rows, width * Channels(colorType))
    requires y < |rows| && x < width && Sampled(y) && Sampled(x)
    ensures Color(rows[y], x, width, colorType) in OpaqueAll(colorType, Fourths(rows, width, Channels(colorType)))
  {
    var j, i := y / 4, x / 4;
    SampledIsFourth(y);
    SampledIsFourth(x);
    assert Pixel(rows[4 * j], 4 * i, width, Channels(colorType)) in Fourths(rows, width, Channels(colorType));
  }

  lemma FourthIn(rows: seq<bytes>, width: nat, colorType: int, y: nat, x: nat)
    requires (colorType == 2 || colorType == 6) && Rectangular(rows, width * Channels(colorType))
    requires 4 * y < |rows| && 4 * x < width
    ensures Opaque(colorType, Pixel(rows[4 * y], 4 * x, width, Channels(colorType)))
            in SampledColors(rows, width, colorType)
  {
    SampledIsFourth(y);
    SampledIsFourth(x);
    var j, i := 4 * y, 4 * x;
    assert Color(rows[j], i, width, colorType) in SampledColors(rows, width, colorType);
  }

  lemma FourthsAreSampled(rows: seq<bytes>, width: nat, colorType: int)
    requires (colorType == 2 || colorType == 6) && Rectangular(rows, width * Channels(colorType))
    ensures SampledColors(rows, width, colorType) == OpaqueAll(colorType, Fourths(rows, width, Channels(colorType)))
  {
    var channels := Channels(colorType);
    forall c | c in SampledColors(rows, width, colorType)
      ensures c in OpaqueAll(colorType, Fourths(rows, width, channels))
    {
      var y: nat, x: nat :|
        y < |rows| && x < width && Sampled(y) && Sampled(x) && c == Color(rows[y], x, width, colorType);
      SampledIn(rows, width, colorType, y, x);
    }
    forall p | p in Fourths(rows, width, channels)
      ensures Opaque(colorType, p) in SampledColors(rows, width, colorType)
    {
      var y: nat, x: nat :| 4 * y < |rows| && 4 * x < width && p == Pixel(rows[4 * y], 4 * x, width, channels);
      FourthIn(rows, width, colorType, y, x);
    }
  }

  lemma FourthsCount(rows: seq<bytes>, width: nat, colorType: int)
    requires (colorType == 2 || colorType == 6) && Rectangular(rows, width * Channels(colorType))
    ensures |SampledColors(rows, width, colorType)| == |Fourths(rows, width, Channels(colorType))|
  {
    FourthsAreSampled(rows, width, colorType);
    OpaqueKeepsCount(colorType, Fourths(rows, width, Channels(colorType)));
  }

  // ---- The report ----

  function BigEndian(b: bytes, at: nat): nat
    requires at + 4 <= |b|
  {
    b[at] as int * 0x100_0000 + b[at + 1] as int * 0x1_0000 + b[at + 2] as int * 0x100 + b[at + 3]
  }

  /** Three bytes to a pixel without alpha, four with it. */
  ghost predicate PixelBytes(colorType: byte, n: nat) { (colorType == 2 && n == 3) || (colorType == 6 && n == 4) }

  /**
   The header states sizes, depth 8, colour type 2 or 6 and three zeros; the data inflates to one line for each row; and
   the report holds the sizes and the number of different pixels at multiples of four.
   */
  ghost predicate Reports(header: bytes, inflated: Option<bytes>, n: nat, rows: seq<bytes>, f: Facts) {
    && |header| == 13 && header[8] == 8 && header[10] == 0 && header[11] == 0 && header[12] == 0
    && var width, height, colorType := BigEndian(header, 0), BigEndian(header, 4), header[9];
       && width >= 1 && height >= 1 && PixelBytes(colorType, n) && inflated.Some? && |rows| == height
       && RowsBehind(n, inflated.value, Zeros(width * n), rows)
       && (forall y :: 0 <= y < |rows| ==> |rows[y]| == width * n)
       && f == Facts(width, height, 8, colorType, 4, |Fourths(rows, width, n)|)
  }

  lemma {:induction false} RowsBehindLines(channels: nat, z: bytes, previous: bytes, rows: seq<bytes>)
    requires channels > 0 && RowsBehind(channels, z, previous, rows)
    ensures Lines(|z|, |previous|, |rows|)
    decreases |rows|
  {
    if rows != [] { RowsBehindLines(channels, z[|previous| + 1..], rows[0], rows[1..]); }
  }

  lemma HeaderSays(header: bytes)
    requires |header| == 13
    ensures var h := ReadHeader(header);
            && h.width == BigEndian(header, 0) && h.height == BigEndian(header, 4)
            && (Plain(h) <==> && header[8] == 8 && (header[9] == 2 || header[9] == 6)
                              && header[10] == 0 && header[11] == 0 && header[12] == 0)
            && h.colorType == header[9]
  {
  }

  lemma GradeIs(h: Header, z: bytes, f: Facts)
    requires h.width >= 1 && h.height >= 1 && Plain(h)
    ensures var n := Channels(h.colorType);
            Grade(h, Some(z)) == Reported(f) <==>
            exists rows: seq<bytes> ::
              && |rows| == h.height && RowsBehind(n, z, Zeros(h.width * n), rows) && Rectangular(rows, h.width * n)
              && f == Facts(h.width, h.height, 8, h.colorType, 4, |Fourths(rows, h.width, n)|)
  {
    var n := Channels(h.colorType);
    var size := h.width * n;
    Product(h.width, n);
    LinesAre(|z|, size, h.height);
    if Lines(|z|, size, h.height) {
      var d := Decode(Undoing(n), z, Zeros(size), h.height);
      DecodedRows(Undoing(n), z, Zeros(size), h.height);
      if d.Some? {
        DecodedExactly(n, z, Zeros(size), h.height, d.value);
        FourthsCount(d.value, h.width, h.colorType);
      }
      forall rows: seq<bytes> | |rows| == h.height && RowsBehind(n, z, Zeros(size), rows)
        ensures d == Some(rows)
      {
        DecodedExactly(n, z, Zeros(size), h.height, rows);
      }
    }
    forall rows: seq<bytes> | |rows| == h.height && RowsBehind(n, z, Zeros(size), rows)
      ensures Lines(|z|, size, h.height)
    {
      RowsBehindLines(n, z, Zeros(size), rows);
    }
  }

  ghost predicate ReportsOn(header: bytes, inflated: Option<bytes>, f: Facts) {
    exists n: nat, rows: seq<bytes> :: Reports(header, inflated, n, rows, f)
  }

  lemma GradeReportsOn(header: bytes, inflated: Option<bytes>, f: Facts)
    requires |header| == 13
    ensures Grade(ReadHeader(header), inflated) == Reported(f) <==> ReportsOn(header, inflated, f)
  {
    var h := ReadHeader(header);
    HeaderSays(header);
    if h.width >= 1 && h.height >= 1 && Plain(h) && inflated.Some? {
      var n := Channels(h.colorType);
      GradeIs(h, inflated.value, f);
      if Grade(h, inflated) == Reported(f) {
        var rows: seq<bytes> :|
          && |rows| == h.height && RowsBehind(n, inflated.value, Zeros(h.width * n), rows)
          && Rectangular(rows, h.width * n)
          && f == Facts(h.width, h.height, 8, h.colorType, 4, |Fourths(rows, h.width, n)|);
        assert Reports(header, inflated, n, rows, f);
      }
    }
  }

  /** A report is exactly what the bytes of a legal file say. */
  lemma ParseReports(inflate: bytes -> Option<bytes>, data: bytes, f: Facts)
    ensures Parse(inflate, data) == Reported(f) <==>
            exists cs: seq<Chunk> :: FileOf(data, cs) && ReportsOn(cs[0].body, inflate(Idat(cs)), f)
  {
    AcceptedHeader(data);
    var o := ReadFile(data);
    if o.Accepted? {
      AcceptsLegalFiles(data, o.header, o.compressed);
      GradeReportsOn(o.header, inflate(o.compressed), f);
    }
    forall cs: seq<Chunk> | FileOf(data, cs)
      ensures o == Accepted(cs[0].body, Idat(cs))
    {
      AcceptsLegalFiles(data, cs[0].body, Idat(cs));
    }
  }

  lemma IdatOne(c: Chunk)
    ensures Idat([c]) == if c.kind == [73, 68, 65, 84] then c.body else []
  {
    assert [c][1..] == [];
  }

  lemma IdatStep(c: Chunk, cs: seq<Chunk>)
    ensures Idat([c] + cs) == Idat([c]) + Idat(cs)
  {
    IdatOne(c);
    assert ([c] + cs)[1..] == cs;
  }

  lemma Associates(a: bytes, b: bytes, c: bytes)
    ensures (a + b) + c == a + (b + c)
  {
  }

  /** The image data is the bodies of the data chunks one after the other. */
  lemma {:induction false} IdatConcat(a: seq<Chunk>, b: seq<Chunk>)
    ensures Idat(a + b) == Idat(a) + Idat(b)
    decreases |a|
  {
    if a == [] {
      assert a + b == b && [] + Idat(b) == Idat(b);
    } else {
      var c, tail := a[0], a[1..];
      IdatConcat(tail, b);
      IdatStep(c, tail);
      IdatStep(c, tail + b);
      assert a == [c] + tail && a + b == [c] + (tail + b);
      Associates(Idat([c]), Idat(tail), Idat(b));
    }
  }
}
