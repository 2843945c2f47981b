/** Which complaint the chunk loop makes about a file, and when. */
module PngErrors {
  import opened Wrappers
  import opened Bytes
  import Crc
  import opened PngChunks
  import opened PngRows
  import opened PngFacts
  import opened PngReport

  /** Chunks that a file may begin with: IHDR of 13 bytes first and only there, and no IEND yet. */
  ghost predicate Begins(cs: seq<Chunk>) {
    && AllFramable(cs)
    && (cs != [] ==> |cs[0].body| == 13)
    && (forall i :: 0 <= i < |cs| ==> (cs[i].kind == IHDR <==> i == 0))
    && (forall i :: 0 <= i < |cs| ==> cs[i].kind != IEND)
  }

  /** What the loop has after these chunks. */
  function After(cs: seq<Chunk>): State {
    if cs == [] then START else State(false, [cs[0].body], Idat(cs))
  }

  ghost predicate StartsWith(d: bytes, c: Chunk, rest: bytes) { Framable(c) && d == Frame(c) + rest }

  /** A chunk at the front that the loop stops at. */
  ghost predicate StopsAt(cs: seq<Chunk>, c: Chunk, rest: bytes, e: Error) {
    || (e == HeaderNotFirst && cs == [] && c.kind != IHDR)
    || (e == BadHeader && c.kind == IHDR && (cs != [] || |c.body| != 13))
    || (e == BadEnd && cs != [] && c.kind == IEND && c.body != [])
    || (e == Incomplete && cs != [] && c.kind == IEND && c.body == [] && (Idat(cs) == [] || rest != []))
  }

  /** The bytes left after `cs` give rise to the complaint. */
  ghost predicate Stops(cs: seq<Chunk>, d: bytes, e: Error) {
    || (e == Incomplete && d == [])
    || (e == TruncatedHeader && 0 < |d| < 12)
    || (e == TruncatedBody && |d| >= 12 && 12 + BigEndian(d, 0) > |d|)
    || (e == CrcMismatch && |d| >= 12 && WrongSeal(d, BigEndian(d, 0)))
    || exists c: Chunk, rest: bytes :: StartsWith(d, c, rest) && StopsAt(cs, c, rest, e)
  }

  /** The CRC field is not that of kind and body. */
  ghost predicate WrongSeal(d: bytes, n: nat) {
    && 12 + n <= |d|
    && Sealed(Chunk(d[4..8], d[8..8 + n])) != BigEndian(d, 8 + n)
  }

  // ---- Passing over chunks ----

  lemma BeginsSnoc(cs: seq<Chunk>, c: Chunk, last: bool)
    requires Begins(cs) && Framable(c) && Take(After(cs), c, last).Go?
    ensures Begins(cs + [c])
  {
    var all := cs + [c];
    forall i | 0 <= i < |all|
      ensures all[i].kind == IHDR <==> i == 0
      ensures all[i].kind != IEND
    {
      if i < |cs| { assert all[i] == cs[i]; }
    }
  }

  lemma BeginsInit(cs: seq<Chunk>)
    requires Begins(cs) && cs != []
    ensures Begins(cs[..|cs| - 1]) && Framable(cs[|cs| - 1])
  {
    var init := cs[..|cs| - 1];
    forall c | c in init ensures Framable(c) { assert c in cs; }
    assert cs[|cs| - 1] in cs;
  }

  lemma TakesNext(cs: seq<Chunk>, c: Chunk, last: bool)
    requires Begins(cs + [c])
    ensures Take(After(cs), c, last) == Go(After(cs + [c]))
  {
    var all := cs + [c];
    assert all[|cs|] == c;
    IdatConcat(cs, [c]);
    IdatOne(c);
    if cs == [] {
      assert Idat(cs) == [];
    } else {
      assert all[0] == cs[0];
    }
  }

  lemma {:induction false} FrameAllSnoc(cs: seq<Chunk>, c: Chunk)
    requires AllFramable(cs) && Framable(c)
    ensures AllFramable(cs + [c]) && FrameAll(cs + [c]) == FrameAll(cs) + Frame(c)
    decreases |cs|
  {
    if cs == [] {
      assert cs + [c] == [c] && FrameAll([c][1..]) == [];
    } else {
      assert (cs + [c])[1..] == cs[1..] + [c];
      FrameAllSnoc(cs[1..], c);
      Reassociate(Frame(cs[0]), FrameAll(cs[1..]), Frame(c));
    }
  }

  lemma {:induction false} PassesOver(cs: seq<Chunk>, d: bytes)
    requires Begins(cs)
    ensures Chunks(FrameAll(cs) + d, START) == Chunks(d, After(cs))
    decreases |cs|
  {
    if cs == [] {
      assert FrameAll(cs) + d == d;
    } else {
      var init, c := cs[..|cs| - 1], cs[|cs| - 1];
      assert cs == init + [c];
      BeginsInit(cs);
      FrameAllSnoc(init, c);
      Reassociate(FrameAll(init), Frame(c), d);
      PassesOver(init, Frame(c) + d);
      ChunksStep(c, d, After(init));
      TakesNext(init, c, d == []);
    }
  }

  // ---- Stopping ----

  lemma FieldIsLength(d: bytes)
    requires |d| >= 4
    ensures BigEndian(d, 0) == FromU32(d[..4])
  {
  }

  lemma SealIs(d: bytes, n: nat)
    requires 12 + n <= |d|
    ensures WrongSeal(d, n) <==> Crc.Crc32(d[8..8 + n], Crc.Crc32(d[4..8], 0)) != FromU32(d[8 + n..12 + n])
  {
    Crc.CrcResumes(d[4..8], d[8..8 + n], 0);
  }

  lemma FailsExactly(d: bytes, e: Error)
    requires d != []
    ensures ReadFrame(d) == Failed(e) <==>
            || (e == TruncatedHeader && |d| < 12)
            || (e == TruncatedBody && |d| >= 12 && 12 + BigEndian(d, 0) > |d|)
            || (e == CrcMismatch && |d| >= 12 && WrongSeal(d, BigEndian(d, 0)))
  {
    if |d| >= 12 {
      FieldIsLength(d);
      if 12 + BigEndian(d, 0) <= |d| { SealIs(d, BigEndian(d, 0)); }
    }
  }

  lemma StopsTake(cs: seq<Chunk>, c: Chunk, rest: bytes, e: Error)
    requires Begins(cs)
    ensures Take(After(cs), c, rest == []) == Stop(Refused(e)) <==> StopsAt(cs, c, rest, e)
  {
  }

  lemma StopsHere(cs: seq<Chunk>, d: bytes, e: Error)
    requires Begins(cs) && Stops(cs, d, e)
    ensures Chunks(d, After(cs)) == Refused(e)
  {
    if c: Chunk, rest: bytes :| StartsWith(d, c, rest) && StopsAt(cs, c, rest, e) {
      ChunksStep(c, rest, After(cs));
      StopsTake(cs, c, rest, e);
    } else if d != [] {
      FailsExactly(d, e);
    }
  }

  lemma {:induction false} FindStop(cs: seq<Chunk>, d: bytes, e: Error) returns (ds: seq<Chunk>, left: bytes)
    requires Begins(cs) && Chunks(d, After(cs)) == Refused(e)
    ensures Begins(ds) && FrameAll(ds) + left == FrameAll(cs) + d && Stops(ds, left, e)
    decreases |d|, 0
  {
    ds, left := cs, d;
    if d != [] {
      FailsExactly(d, e);
      if ReadFrame(d).Read? {
        ReadingIsFrame(d);
        var c := ReadFrame(d).chunk;
        var rest := d[12 + |c.body|..];
        assert StartsWith(d, c, rest);
        StopsTake(cs, c, rest, e);
        if Take(After(cs), c, rest == []).Go? {
          ds, left := GoOn(cs, c, rest, e);
        }
      }
    }
  }

  lemma GoOn(cs: seq<Chunk>, c: Chunk, rest: bytes, e: Error) returns (ds: seq<Chunk>, left: bytes)
    requires Begins(cs) && Framable(c) && Take(After(cs), c, rest == []).Go?
    requires Resume(Take(After(cs), c, rest == []), rest) == Refused(e)
    ensures Begins(ds) && FrameAll(ds) + left == FrameAll(cs) + (Frame(c) + rest) && Stops(ds, left, e)
    decreases |rest|, 1
  {
    BeginsSnoc(cs, c, rest == []);
    TakesNext(cs, c, rest == []);
    FrameAllSnoc(cs, c);
    Reassociate(FrameAll(cs), Frame(c), rest);
    ds, left := FindStop(cs + [c], rest, e);
  }

  ghost predicate StopsAfter(data: bytes, cs: seq<Chunk>, d: bytes, e: Error) {
    Begins(cs) && data == SIGNATURE + (FrameAll(cs) + d) && Stops(cs, d, e)
  }

  /** The complaint about a file is that of the first place where it stops being the beginning of a legal one. */
  lemma RefusedExactly(data: bytes, e: Error)
    ensures ReadFile(data) == Refused(e) <==>
            || (e == NoSignature && !(SIGNATURE <= data))
            || exists cs: seq<Chunk>, d: bytes :: StopsAfter(data, cs, d, e)
  {
    if SIGNATURE <= data && ReadFile(data) == Refused(e) {
      assert FrameAll([]) + data[8..] == data[8..];
      var cs, d := FindStop([], data[8..], e);
      assert data == SIGNATURE + data[8..];
      assert StopsAfter(data, cs, d, e);
    }
    if cs: seq<Chunk>, d: bytes :| StopsAfter(data, cs, d, e) {
      Signed(FrameAll(cs) + d);
      PassesOver(cs, d);
      StopsHere(cs, d, e);
    }
  }

  // ---- What comes after the chunks ----

  /** Depth 8, colour type 2 or 6, and no other compression, filtering or interlacing. */
  predicate PlainBytes(header: bytes)
    requires |header| == 13
  {
    header[8] == 8 && (header[9] == 2 || header[9] == 6) && header[10] == 0 && header[11] == 0 && header[12] == 0
  }

  function PixelSize(colorType: byte): nat { if colorType == 2 then 3 else 4 }

  /** Line `y` of the inflated data names a filter that there is not. */
  ghost predicate NoSuchFilter(z: bytes, line: nat, y: nat) { y * line < |z| && z[y * line] > 4 }

  /** The first of the checks on header and data that fails, in the order of the code. */
  ghost predicate Fails(header: bytes, inflated: Option<bytes>, f: Fault) {
    && |header| == 13
    && var width, height := BigEndian(header, 0), BigEndian(header, 4);
       var line := width * PixelSize(header[9]) + 1;
       match f
       case Framing(_) => false
       case EmptyDimensions => width == 0 || height == 0
       case Unsupported => width > 0 && height > 0 && !PlainBytes(header)
       case BadStream => width > 0 && height > 0 && PlainBytes(header) && inflated.None?
       case WrongLength =>
         && width > 0 && height > 0 && PlainBytes(header) && inflated.Some?
         && |inflated.value| != height * line
       case BadFilter =>
         && width > 0 && height > 0 && PlainBytes(header) && inflated.Some?
         && |inflated.value| == height * line
         && SomeUnknown(inflated.value, line, height)
  }

  lemma UnknownIs(z: bytes, n: nat, y: nat)
    ensures NoSuchFilter(z, n + 1, y) <==> UnknownFilter(z, n, y)
  {
  }

  ghost predicate SomeUnknown(z: bytes, line: nat, height: nat) {
    exists y :: 0 <= y < height && NoSuchFilter(z, line, y)
  }

  lemma AllKnown(z: bytes, n: nat, height: nat)
    ensures SomeUnknown(z, n + 1, height) <==> !forall i :: 0 <= i < height ==> !UnknownFilter(z, n, i)
  {
    var line := n + 1;
    if y :| 0 <= y < height && NoSuchFilter(z, line, y) {
      UnknownIs(z, n, y);
    }
    if i :| 0 <= i < height && UnknownFilter(z, n, i) {
      UnknownIs(z, n, i);
    }
  }

  /** Lines of the right size are reported on or have an unknown filter. */
  lemma SizedLines(h: Header, z: bytes)
    requires h.width > 0 && h.height > 0 && Plain(h) && |z| == h.height * (h.width * Channels(h.colorType) + 1)
    ensures Grade(h, Some(z)).Reported? || Grade(h, Some(z)) == Rejected(BadFilter)
    ensures Grade(h, Some(z)) == Rejected(BadFilter) <==>
            SomeUnknown(z, h.width * Channels(h.colorType) + 1, h.height)
  {
    GradeAccepts(h, Some(z));
    AllKnown(z, h.width * Channels(h.colorType), h.height);
  }

  lemma ChannelsAre(h: Header, colorType: byte)
    requires Plain(h) && h.colorType == colorType
    ensures Channels(h.colorType) == PixelSize(colorType)
  {
  }

  lemma GradeFails(header: bytes, inflated: Option<bytes>, f: Fault)
    requires |header| == 13
    ensures Grade(ReadHeader(header), inflated) == Rejected(f) <==> Fails(header, inflated, f)
  {
    var h := ReadHeader(header);
    HeaderSays(header);
    if h.width >= 1 && h.height >= 1 && Plain(h) {
      ChannelsAre(h, header[9]);
      var line := h.width * PixelSize(header[9]) + 1;
      if inflated.Some? && |inflated.value| == h.height * line {
        SizedLines(h, inflated.value);
      }
    }
  }

  ghost predicate FailsIn(inflate: bytes -> Option<bytes>, data: bytes, cs: seq<Chunk>, f: Fault) {
    FileOf(data, cs) && Fails(cs[0].body, inflate(Idat(cs)), f)
  }

  /** Every fault, exactly: where the chunks stop, or what header and data of a legal file fail first. */
  lemma RejectedExactly(inflate: bytes -> Option<bytes>, data: bytes, f: Fault)
    ensures Parse(inflate, data) == Rejected(f) <==>
            || (f.Framing? && ReadFile(data) == Refused(f.error))
            || exists cs: seq<Chunk> :: FailsIn(inflate, data, cs, f)
  {
    AcceptedHeader(data);
    var o := ReadFile(data);
    if o.Accepted? {
      AcceptsLegalFiles(data, o.header, o.compressed);
      GradeFails(o.header, inflate(o.compressed), f);
      var cs: seq<Chunk> :| FileOf(data, cs) && o.header == cs[0].body && o.compressed == Idat(cs);
      assert FailsIn(inflate, data, cs, f) <==> Fails(o.header, inflate(o.compressed), f);
    }
    forall cs: seq<Chunk> | FileOf(data, cs)
      ensures o == Accepted(cs[0].body, Idat(cs))
    {
      AcceptsLegalFiles(data, cs[0].body, Idat(cs));
    }
  }
}
