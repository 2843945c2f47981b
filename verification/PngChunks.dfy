/** The CRC of PNG section 5.5, a bit at a time over unsigned integers. */
module Crc {
  import opened Bytes

  type Register = r: nat | r < U32_LIMIT

  const POLYNOMIAL: Register := 0xEDB8_8320

  function Pow2(n: nat): (p: nat)
    ensures p > 0
  {
    if n == 0 then 1 else 2 * Pow2(n - 1)
  }

  /** Exclusive or of two numbers, bit by bit. */
  function Xor(a: nat, b: nat): nat
    decreases a + b
  {
    if a == 0 && b == 0 then 0 else (if a % 2 != b % 2 then 1 else 0) + 2 * Xor(a / 2, b / 2)
  }

  lemma Powers()
    ensures Pow2(31) == 0x8000_0000 && Pow2(32) == U32_LIMIT
  {
    assert Pow2(8) == 0x100 && Pow2(16) == 0x1_0000 && Pow2(24) == 0x100_0000;
  }

  lemma {:induction false} XorBound(a: nat, b: nat, n: nat)
    requires a < Pow2(n) && b < Pow2(n)
    ensures Xor(a, b) < Pow2(n)
    decreases n
  {
    if n > 0 { XorBound(a / 2, b / 2, n - 1); }
  }

  /** A top bit of one side only stays. */
  lemma {:induction false} XorTop(a: nat, b: nat, n: nat)
    requires a < Pow2(n) <= b < Pow2(n + 1)
    ensures Xor(a, b) >= Pow2(n)
    decreases n
  {
    if n > 0 { XorTop(a / 2, b / 2, n - 1); }
  }

  lemma {:induction false} XorTwice(a: nat, b: nat)
    ensures Xor(Xor(a, b), b) == a
    decreases a + b
  {
    if a > 0 || b > 0 {
      var x := Xor(a, b);
      assert x / 2 == Xor(a / 2, b / 2) && (x % 2 == 1 <==> a % 2 != b % 2);
      XorTwice(a / 2, b / 2);
    }
  }

  lemma {:induction false} XorCommutes(a: nat, b: nat)
    ensures Xor(a, b) == Xor(b, a)
    decreases a + b
  {
    if a > 0 || b > 0 { XorCommutes(a / 2, b / 2); }
  }

  function XorWord(a: Register, b: Register): Register {
    Powers();
    XorBound(a, b, 32);
    Xor(a, b)
  }

  function Complement(r: Register): Register { U32_LIMIT - 1 - r }

  /** One shift, with the polynomial folded in when the low bit falls out. */
  function Shift(r: Register): Register {
    if r % 2 == 1 then XorWord(r / 2, POLYNOMIAL) else r / 2
  }

  function Shifts(r: Register, n: nat): Register
    decreases n, r
  {
    if n == 0 then r else Shifts(Shift(r), n - 1)
  }

  function Absorb(r: Register, b: byte): Register { Shifts(XorWord(r, b), 8) }

  function Feed(r: Register, bs: bytes): Register
    decreases |bs|
  {
    if bs == [] then r else Feed(Absorb(r, bs[0]), bs[1..])
  }

  /** `crc32(bs, start)`: a running value goes in and comes out complemented. */
  function Crc32(bs: bytes, start: Register): Register { Complement(Feed(Complement(start), bs)) }

  lemma {:induction false} FeedConcat(r: Register, a: bytes, b: bytes)
    ensures Feed(r, a + b) == Feed(Feed(r, a), b)
    decreases |a|
  {
    if a == [] {
      assert a + b == b;
    } else {
      assert (a + b)[1..] == a[1..] + b;
      FeedConcat(Absorb(r, a[0]), a[1..], b);
    }
  }

  /** Feeding the second part with the CRC of the first gives the CRC of the whole. */
  lemma CrcResumes(a: bytes, b: bytes, start: Register)
    ensures Crc32(b, Crc32(a, start)) == Crc32(a + b, start)
  {
    FeedConcat(Complement(start), a, b);
  }

  // ---- One shift is one step of the division by the standard polynomial ----

  predicate Bit(r: nat, i: nat) { if i == 0 then r % 2 == 1 else Bit(r / 2, i - 1) }

  /** The terms of the CRC polynomial below x^32. */
  predicate HasTerm(k: int) { k in {0, 1, 2, 4, 5, 7, 8, 10, 11, 12, 16, 22, 23, 26} }

  lemma {:induction false} XorBit(a: nat, b: nat, i: nat)
    ensures Bit(Xor(a, b), i) <==> Bit(a, i) != Bit(b, i)
    decreases i
  {
    var x := Xor(a, b);
    assert x / 2 == Xor(a / 2, b / 2) && (x % 2 == 1 <==> a % 2 != b % 2);
    if i > 0 { XorBit(a / 2, b / 2, i - 1); }
  }

  lemma FourBits(r: nat, n: nat, d: nat)
    requires r == 16 * n + d && d < 16
    ensures (Bit(r, 0) <==> d % 2 == 1) && (Bit(r, 1) <==> d / 2 % 2 == 1)
    ensures (Bit(r, 2) <==> d / 4 % 2 == 1) && (Bit(r, 3) <==> d / 8 % 2 == 1)
  {
    assert r / 2 == 8 * n + d / 2 && r / 2 / 2 == 4 * n + d / 4 && r / 2 / 2 / 2 == 2 * n + d / 8;
    assert Bit(r, 1) == Bit(r / 2, 0) && Bit(r, 2) == Bit(r / 2, 1) == Bit(r / 2 / 2, 0);
    assert Bit(r, 3) == Bit(r / 2, 2) == Bit(r / 2 / 2, 1) == Bit(r / 2 / 2 / 2, 0);
  }

  lemma BitAbove(r: nat, n: nat, d: nat, i: nat)
    requires r == 16 * n + d && d < 16
    ensures Bit(r, i + 4) <==> Bit(n, i)
  {
    assert Bit(r, i + 4) == Bit(r / 2, i + 3) == Bit(r / 2 / 2, i + 2);
    assert Bit(r / 2 / 2, i + 2) == Bit(r / 2 / 2 / 2, i + 1) == Bit(r / 2 / 2 / 2 / 2, i);
    assert r / 2 / 2 / 2 / 2 == n;
  }

  /** Bit `i + 4 * j` of the polynomial is bit `i` of its hexadecimal digit `j`. */
  lemma DigitTerms(r: nat, n: nat, d: nat, top: int, i: nat)
    requires r == 16 * n + d && d < 16 && i < 4
    requires (d % 2 == 1 <==> HasTerm(top)) && (d / 2 % 2 == 1 <==> HasTerm(top - 1))
    requires (d / 4 % 2 == 1 <==> HasTerm(top - 2)) && (d / 8 % 2 == 1 <==> HasTerm(top - 3))
    ensures Bit(r, i) <==> HasTerm(top - i)
  {
    FourBits(r, n, d);
  }

  lemma HighTerms(i: nat)
    requires i < 16
    ensures Bit(0xEDB8, i) <==> HasTerm(15 - i)
  {
    if i < 4 {
      DigitTerms(0xEDB8, 0xEDB, 8, 15, i);
    } else {
      BitAbove(0xEDB8, 0xEDB, 8, i - 4);
      if i < 8 {
        DigitTerms(0xEDB, 0xED, 11, 11, i - 4);
      } else {
        BitAbove(0xEDB, 0xED, 11, i - 8);
        if i < 12 {
          DigitTerms(0xED, 0xE, 13, 7, i - 8);
        } else {
          BitAbove(0xED, 0xE, 13, i - 12);
          DigitTerms(0xE, 0, 14, 3, i - 12);
        }
      }
    }
  }

  lemma PolynomialTerms(i: nat)
    requires i < 32
    ensures Bit(POLYNOMIAL, i) <==> HasTerm(31 - i)
  {
    if i < 4 {
      DigitTerms(0xEDB8_8320, 0xEDB_8832, 0, 31, i);
    } else {
      BitAbove(0xEDB8_8320, 0xEDB_8832, 0, i - 4);
      if i < 8 {
        DigitTerms(0xEDB_8832, 0xED_B883, 2, 27, i - 4);
      } else {
        BitAbove(0xEDB_8832, 0xED_B883, 2, i - 8);
        if i < 12 {
          DigitTerms(0xED_B883, 0xE_DB88, 3, 23, i - 8);
        } else {
          BitAbove(0xED_B883, 0xE_DB88, 3, i - 12);
          if i < 16 {
            DigitTerms(0xE_DB88, 0xEDB8, 8, 19, i - 12);
          } else {
            BitAbove(0xE_DB88, 0xEDB8, 8, i - 16);
            HighTerms(i - 16);
          }
        }
      }
    }
  }

  /**
   With bit `i` standing for x^(31 - i), one shift multiplies by x and, when x^32 falls out, takes the standard
   polynomial away.
   */
  lemma ShiftDivides(r: Register, i: nat)
    requires i < 32
    ensures Bit(Shift(r), i) <==> (Bit(r, i + 1) != (Bit(r, 0) && HasTerm(31 - i)))
  {
    PolynomialTerms(i);
    XorBit(r / 2, POLYNOMIAL, i);
  }

  // ---- A changed byte changes the CRC ----

  lemma ShiftInjective(r: Register, s: Register)
    requires Shift(r) == Shift(s)
    ensures r == s
  {
    Powers();
    XorTop(r / 2, POLYNOMIAL, 31);
    XorTop(s / 2, POLYNOMIAL, 31);
    XorTwice(r / 2, POLYNOMIAL);
    XorTwice(s / 2, POLYNOMIAL);
  }

  lemma {:induction false} ShiftsInjective(r: Register, s: Register, n: nat)
    requires Shifts(r, n) == Shifts(s, n)
    ensures r == s
    decreases n
  {
    if n > 0 {
      ShiftsInjective(Shift(r), Shift(s), n - 1);
      ShiftInjective(r, s);
    }
  }

  lemma AbsorbInjective(r: Register, s: Register, b: byte)
    requires Absorb(r, b) == Absorb(s, b)
    ensures r == s
  {
    ShiftsInjective(XorWord(r, b), XorWord(s, b), 8);
    XorTwice(r, b);
    XorTwice(s, b);
  }

  lemma AbsorbDistinguishes(r: Register, a: byte, b: byte)
    requires Absorb(r, a) == Absorb(r, b)
    ensures a == b
  {
    ShiftsInjective(XorWord(r, a), XorWord(r, b), 8);
    XorCommutes(r, a);
    XorCommutes(r, b);
    XorTwice(a, r);
    XorTwice(b, r);
  }

  lemma {:induction false} FeedInjective(r: Register, s: Register, bs: bytes)
    requires Feed(r, bs) == Feed(s, bs)
    ensures r == s
    decreases |bs|
  {
    if bs != [] {
      FeedInjective(Absorb(r, bs[0]), Absorb(s, bs[0]), bs[1..]);
      AbsorbInjective(r, s, bs[0]);
    }
  }

  lemma OneByte(before: bytes, a: byte, after: bytes, r: Register)
    ensures Feed(r, before + [a] + after) == Feed(Absorb(Feed(r, before), a), after)
  {
    FeedConcat(r, before + [a], after);
    FeedConcat(r, before, [a]);
  }

  /** Byte strings that differ in exactly one place have different CRC values. */
  lemma OneByteChangesCrc(before: bytes, a: byte, b: byte, after: bytes, start: Register)
    requires Crc32(before + [a] + after, start) == Crc32(before + [b] + after, start)
    ensures a == b
  {
    var r := Complement(start);
    OneByte(before, a, after, r);
    OneByte(before, b, after, r);
    FeedInjective(Absorb(Feed(r, before), a), Absorb(Feed(r, before), b), after);
    AbsorbDistinguishes(Feed(r, before), a, b);
  }
}

/** Chunk framing and the chunk loop of PNG sections 5.3 and 5.5. */
module PngChunks {
  import opened Bytes
  import opened Crc

  const SIGNATURE: bytes := [0x89, 0x50, 0x4E, 0x47, 0x0D, 0x0A, 0x1A, 0x0A]
  const IHDR: bytes := [73, 72, 68, 82]
  const IDAT: bytes := [73, 68, 65, 84]
  const IEND: bytes := [73, 69, 78, 68]

  datatype Chunk = Chunk(kind: bytes, body: bytes)

  predicate Framable(c: Chunk) { |c.kind| == 4 && |c.body| < U32_LIMIT }

  function Sealed(c: Chunk): Register { Crc32(c.kind + c.body, 0) }

  function Frame(c: Chunk): (b: bytes)
    requires Framable(c)
    ensures |b| == 12 + |c.body|
  {
    U32(|c.body|) + c.kind + c.body + U32(Sealed(c))
  }

  function FrameAll(cs: seq<Chunk>): bytes
    requires forall c :: c in cs ==> Framable(c)
  {
    if cs == [] then [] else Frame(cs[0]) + FrameAll(cs[1..])
  }

  datatype Error =
    | NoSignature | TruncatedHeader | TruncatedBody | CrcMismatch
    | HeaderNotFirst | BadHeader | BadEnd | Incomplete
  datatype Outcome = Refused(error: Error) | Accepted(header: bytes, compressed: bytes)
  datatype Reading = Failed(error: Error) | Read(chunk: Chunk)

  function ReadFrame(d: bytes): (r: Reading)
    ensures r.Read? ==> 12 + |r.chunk.body| <= |d|
  {
    if |d| < 12 then Failed(TruncatedHeader)
    else
      var n := FromU32(d[..4]);
      if 12 + n > |d| then Failed(TruncatedBody)
      else
        var kind, body := d[4..8], d[8..8 + n];
        if Crc32(body, Crc32(kind, 0)) != FromU32(d[8 + n..12 + n]) then Failed(CrcMismatch)
        else Read(Chunk(kind, body))
  }

  /** The loop's variables: whether no chunk was read yet, the header if any, the image data so far. */
  datatype State = State(first: bool, header: seq<bytes>, idat: bytes)
  datatype Step = Stop(outcome: Outcome) | Go(state: State)

  const START := State(true, [], [])

  datatype Kind = HeaderChunk | DataChunk | EndChunk | OtherChunk

  function KindOf(kind: bytes): Kind {
    if kind == IHDR then HeaderChunk
    else if kind == IDAT then DataChunk
    else if kind == IEND then EndChunk
    else OtherChunk
  }

  /** One chunk; `last` says that no bytes follow it. */
  function Take(st: State, c: Chunk, last: bool): Step {
    var kind := KindOf(c.kind);
    if st.first && kind != HeaderChunk then Stop(Refused(HeaderNotFirst))
    else
      match kind
      case HeaderChunk =>
        if st.header != [] || |c.body| != 13 then Stop(Refused(BadHeader)) else Go(State(false, [c.body], st.idat))
      case DataChunk => Go(State(false, st.header, st.idat + c.body))
      case EndChunk =>
        if |c.body| != 0 then Stop(Refused(BadEnd))
        else if st.header == [] || st.idat == [] || !last then Stop(Refused(Incomplete))
        else Stop(Accepted(st.header[0], st.idat))
      case OtherChunk => Go(State(false, st.header, st.idat))
  }

  /** What the loop makes of the bytes that are left. */
  function Chunks(d: bytes, st: State): Outcome
    decreases |d|
  {
    if d == [] then Refused(Incomplete)
    else
      match ReadFrame(d)
      case Failed(e) => Refused(e)
      case Read(c) =>
        var rest := d[12 + |c.body|..];
        match Take(st, c, rest == [])
        case Stop(o) => o
        case Go(next) => Chunks(rest, next)
  }

  function ReadFile(data: bytes): Outcome {
    if !(SIGNATURE <= data) then Refused(NoSignature) else Chunks(data[8..], START)
  }

  lemma Window(data: bytes, offset: nat, n: nat)
    requires offset + 12 + n <= |data|
    ensures var d := data[offset..];
            && d[..4] == data[offset..offset + 4] && d[4..8] == data[offset + 4..offset + 8]
            && d[8..8 + n] == data[offset + 8..offset + 8 + n]
            && d[8 + n..12 + n] == data[offset + 8 + n..offset + 12 + n]
            && d[12 + n..] == data[offset + 12 + n..]
  {
  }

  method ReadFrameAt(data: bytes, offset: nat) returns (r: Reading)
    requires offset < |data|
    ensures r == ReadFrame(data[offset..])
  {
    if offset + 12 > |data| {
      return Failed(TruncatedHeader);
    }
    Window(data, offset, 0);
    var length := FromU32(data[offset..offset + 4]);
    var kind := data[offset + 4..offset + 8];
    var end := offset + 12 + length;
    if end > |data| {
      return Failed(TruncatedBody);
    }
    Window(data, offset, length);
    var body := data[offset + 8..offset + 8 + length];
    var claimed := FromU32(data[offset + 8 + length..end]);
    var actual := Crc32(kind, 0);
    actual := Crc32(body, actual);
    if actual != claimed {
      return Failed(CrcMismatch);
    }
    return Read(Chunk(kind, body));
  }

  lemma DropMore(data: bytes, at: nat, n: nat)
    requires at + n <= |data|
    ensures data[at..][n..] == data[at + n..]
  {
  }

  /** The branches on one good chunk; IEND ends the loop with the checks that follow it. */
  method TakeChunk(index: nat, header: seq<bytes>, compressed: bytes, chunk: Chunk, atEnd: bool) returns (step: Step)
    ensures step == Take(State(index == 0, header, compressed), chunk, atEnd)
  {
    var kind := KindOf(chunk.kind);
    if index == 0 && kind != HeaderChunk {
      return Stop(Refused(HeaderNotFirst));
    }
    if kind == HeaderChunk {
      if header != [] || |chunk.body| != 13 {
        return Stop(Refused(BadHeader));
      }
      return Go(State(false, [chunk.body], compressed));
    } else if kind == DataChunk {
      return Go(State(false, header, compressed + chunk.body));
    } else if kind == EndChunk {
      if |chunk.body| != 0 {
        return Stop(Refused(BadEnd));
      }
      if header == [] || compressed == [] || !atEnd {
        return Stop(Refused(Incomplete));
      }
      return Stop(Accepted(header[0], compressed));
    }
    return Go(State(false, header, compressed));
  }

  /** Names the specification of the loop without unfolding it. */
  ghost predicate IsRun(run: (bytes, State) -> Outcome) {
    forall d: bytes, st: State {:trigger Chunks(d, st)} :: run(d, st) == Chunks(d, st)
  }

  function Next(run: (bytes, State) -> Outcome, d: bytes, st: State, frame: Reading): Outcome
    requires frame.Read? ==> 12 + |frame.chunk.body| <= |d|
  {
    if frame.Failed? then Refused(frame.error)
    else
      var end := 12 + |frame.chunk.body|;
      match Take(st, frame.chunk, end == |d|)
      case Stop(o) => o
      case Go(next) => run(d[end..], next)
  }

  lemma RunNext(run: (bytes, State) -> Outcome, d: bytes, st: State)
    requires IsRun(run) && d != []
    ensures run(d, st) == Next(run, d, st, ReadFrame(d))
  {
    assert run(d, st) == Chunks(d, st);
    var frame := ReadFrame(d);
    if frame.Read? {
      var end := 12 + |frame.chunk.body|;
      var step := Take(st, frame.chunk, end == |d|);
      if step.Go? { assert run(d[end..], step.state) == Chunks(d[end..], step.state); }
    }
  }

  /** One pass of the loop body. */
  method ReadStep(
      ghost run: (bytes, State) -> Outcome, data: bytes, offset: nat, index: nat, header: seq<bytes>, compressed: bytes)
    returns (step: Step, end: nat)
    requires IsRun(run) && offset < |data|
    ensures step.Stop? ==> run(data[offset..], State(index == 0, header, compressed)) == step.outcome
    ensures step.Go? ==> offset < end <= |data| && !step.state.first
                         && run(data[offset..], State(index == 0, header, compressed)) == run(data[end..], step.state)
  {
    ghost var st := State(index == 0, header, compressed);
    RunNext(run, data[offset..], st);
    var frame := ReadFrameAt(data, offset);
    if frame.Failed? {
      return Stop(Refused(frame.error)), offset;
    }
    end := offset + 12 + |frame.chunk.body|;
    DropMore(data, offset, 12 + |frame.chunk.body|);
    step := TakeChunk(index, header, compressed, frame.chunk, end == |data|);
  }

  method ReadLoop(ghost run: (bytes, State) -> Outcome, data: bytes) returns (r: Outcome)
    requires IsRun(run) && |data| >= 8
    ensures r == run(data[8..], START)
  {
    var offset := |SIGNATURE|;
    var header: seq<bytes>, compressed: bytes := [], [];
    var index := 0;
    while offset < |data|
      invariant 8 <= offset <= |data| && index >= 0
      invariant run(data[offset..], State(index == 0, header, compressed)) == run(data[8..], START)
    {
      var step, end := ReadStep(run, data, offset, index, header, compressed);
      if step.Stop? {
        return step.outcome;
      }
      header, compressed := step.state.header, step.state.idat;
      offset := end;
      index := index + 1;
    }
    assert data[offset..] == [];
    assert run([], State(index == 0, header, compressed)) == Chunks([], State(index == 0, header, compressed));
    return Refused(Incomplete);
  }

  method ReadChunks(data: bytes) returns (r: Outcome)
    ensures r == ReadFile(data)
  {
    if !(SIGNATURE <= data) {
      return Refused(NoSignature);
    }
    r := ReadLoop((d, st) => Chunks(d, st), data);
  }

  // ---- Framing is inverted ----

  lemma Slices(a: bytes, b: bytes, c: bytes, d: bytes, rest: bytes)
    requires |a| == |b| == |d| == 4
    ensures var s := a + b + c + d + rest;
            && |s| == 12 + |c| + |rest|
            && s[..4] == a && s[4..8] == b && s[8..8 + |c|] == c
            && s[8 + |c|..12 + |c|] == d && s[12 + |c|..] == rest
  {
  }

  /** Every frame passes the length and CRC checks and reads back, whatever follows it. */
  lemma ReadsFrame(c: Chunk, rest: bytes)
    requires Framable(c)
    ensures ReadFrame(Frame(c) + rest) == Read(c)
    ensures (Frame(c) + rest)[12 + |c.body|..] == rest
  {
    Slices(U32(|c.body|), c.kind, c.body, U32(Sealed(c)), rest);
    U32RoundTrip(|c.body|);
    U32RoundTrip(Sealed(c));
    CrcResumes(c.kind, c.body, 0);
  }

  lemma Whole(d: bytes, n: nat)
    requires 12 + n <= |d|
    ensures d == d[..4] + d[4..8] + d[8..8 + n] + d[8 + n..12 + n] + d[12 + n..]
  {
  }

  /** A successful reading is of a frame, and of nothing else. */
  lemma ReadingIsFrame(d: bytes)
    requires ReadFrame(d).Read?
    ensures var c := ReadFrame(d).chunk;
            Framable(c) && d == Frame(c) + d[12 + |c.body|..]
  {
    var c := ReadFrame(d).chunk;
    var n := |c.body|;
    Whole(d, n);
    FromU32RoundTrip(d[..4]);
    FromU32RoundTrip(d[8 + n..12 + n]);
    CrcResumes(c.kind, c.body, 0);
  }

  // ---- What is accepted ----

  ghost predicate AllFramable(cs: seq<Chunk>) { forall c :: c in cs ==> Framable(c) }

  function Idat(cs: seq<Chunk>): bytes {
    if cs == [] then [] else (if cs[0].kind == IDAT then cs[0].body else []) + Idat(cs[1..])
  }

  /** The chunks of a file: IHDR of 13 bytes first and only there, some image data, empty IEND last and only there. */
  ghost predicate Legal(cs: seq<Chunk>) {
    && AllFramable(cs)
    && |cs| > 0
    && (forall i :: 0 <= i < |cs| ==> (cs[i].kind == IHDR <==> i == 0))
    && (forall i :: 0 <= i < |cs| ==> (cs[i].kind == IEND <==> i == |cs| - 1))
    && |cs[0].body| == 13 && cs[|cs| - 1].body == []
    && Idat(cs) != []
  }

  /** The same walk over chunks instead of bytes. */
  function Walk(cs: seq<Chunk>, st: State): Outcome {
    if cs == [] then Refused(Incomplete)
    else
      match Take(st, cs[0], |cs| == 1)
      case Stop(o) => o
      case Go(next) => Walk(cs[1..], next)
  }

  function Resume(step: Step, rest: bytes): Outcome {
    match step
    case Stop(o) => o
    case Go(next) => Chunks(rest, next)
  }

  lemma ChunksStep(c: Chunk, rest: bytes, st: State)
    requires Framable(c)
    ensures Chunks(Frame(c) + rest, st) == Resume(Take(st, c, rest == []), rest)
  {
    ReadsFrame(c, rest);
  }

  lemma {:induction false} ChunksWalk(cs: seq<Chunk>, st: State)
    requires AllFramable(cs)
    ensures Chunks(FrameAll(cs), st) == Walk(cs, st)
    decreases |cs|
  {
    if cs != [] {
      var c, rest := cs[0], cs[1..];
      ChunksStep(c, FrameAll(rest), st);
      var step := Take(st, c, rest == []);
      if step.Go? { ChunksWalk(rest, step.state); }
    }
  }

  /** Accepted bytes are the frames of some chunks. */
  lemma {:induction false} Unframe(d: bytes, st: State) returns (cs: seq<Chunk>)
    requires Chunks(d, st).Accepted?
    ensures AllFramable(cs) && d == FrameAll(cs)
    decreases |d|
  {
    ReadingIsFrame(d);
    var c := ReadFrame(d).chunk;
    var rest := d[12 + |c.body|..];
    var step := Take(st, c, rest == []);
    if step.Go? {
      var tail := Unframe(rest, step.state);
      cs := [c] + tail;
    } else {
      cs := [c];
      assert FrameAll([]) == [];
    }
  }

  /** What may follow the header: no further IHDR, and IEND last, empty and only there. */
  ghost predicate LegalTail(cs: seq<Chunk>) {
    && |cs| > 0
    && (forall i :: 0 <= i < |cs| ==> cs[i].kind != IHDR)
    && (forall i :: 0 <= i < |cs| ==> (cs[i].kind == IEND <==> i == |cs| - 1))
    && cs[|cs| - 1].body == []
  }

  lemma LegalTailStep(cs: seq<Chunk>)
    requires |cs| > 1
    ensures LegalTail(cs) <==> cs[0].kind != IHDR && cs[0].kind != IEND && LegalTail(cs[1..])
  {
    var t := cs[1..];
    if LegalTail(cs) {
      assert forall i :: 0 <= i < |t| ==> t[i] == cs[i + 1];
    }
    if cs[0].kind != IHDR && cs[0].kind != IEND && LegalTail(t) {
      forall i | 0 <= i < |cs|
        ensures cs[i].kind != IHDR && (cs[i].kind == IEND <==> i == |cs| - 1)
      {
        if i > 0 { assert cs[i] == t[i - 1]; }
      }
    }
  }

  lemma {:induction false} WalkTail(cs: seq<Chunk>, h: bytes, idat: bytes, o: Outcome)
    requires o.Accepted?
    ensures Walk(cs, State(false, [h], idat)) == o <==>
            LegalTail(cs) && idat + Idat(cs) != [] && o == Accepted(h, idat + Idat(cs))
    decreases |cs|
  {
    if cs != [] {
      var c, rest := cs[0], cs[1..];
      if |cs| > 1 { LegalTailStep(cs); }
      if c.kind == IDAT {
        WalkTail(rest, h, idat + c.body, o);
        assert idat + c.body + Idat(rest) == idat + (c.body + Idat(rest));
      } else {
        WalkTail(rest, h, idat, o);
        assert [] + Idat(rest) == Idat(rest);
      }
    }
  }

  lemma LegalSplits(cs: seq<Chunk>)
    requires AllFramable(cs) && |cs| > 0
    ensures Legal(cs) <==> cs[0].kind == IHDR && |cs[0].body| == 13 && LegalTail(cs[1..]) && Idat(cs) != []
  {
    var t := cs[1..];
    assert forall i :: 0 <= i < |t| ==> t[i] == cs[i + 1];
    if cs[0].kind == IHDR && LegalTail(t) {
      forall i | 0 <= i < |cs|
        ensures (cs[i].kind == IHDR <==> i == 0) && (cs[i].kind == IEND <==> i == |cs| - 1)
      {
        if i > 0 { assert cs[i] == t[i - 1]; }
      }
    }
  }

  lemma WalkAccepts(cs: seq<Chunk>, h: bytes, z: bytes)
    requires AllFramable(cs)
    ensures Walk(cs, START) == Accepted(h, z) <==> Legal(cs) && h == cs[0].body && z == Idat(cs)
  {
    if cs != [] {
      LegalSplits(cs);
      WalkTail(cs[1..], cs[0].body, [], Accepted(h, z));
      assert [] + Idat(cs[1..]) == Idat(cs[1..]);
    }
  }

  ghost predicate FileOf(data: bytes, cs: seq<Chunk>) {
    Legal(cs) && data == SIGNATURE + FrameAll(cs)
  }

  /** The loop accepts exactly the signature and the frames of a legal chunk list, and returns its header and data. */
  lemma AcceptsLegalFiles(data: bytes, h: bytes, z: bytes)
    ensures ReadFile(data) == Accepted(h, z) <==>
            exists cs: seq<Chunk> :: FileOf(data, cs) && h == cs[0].body && z == Idat(cs)
  {
    if ReadFile(data) == Accepted(h, z) {
      var cs := Unframe(data[8..], START);
      ChunksWalk(cs, START);
      WalkAccepts(cs, h, z);
      assert data == SIGNATURE + data[8..];
    }
    if cs: seq<Chunk> :| FileOf(data, cs) && h == cs[0].body && z == Idat(cs) {
      assert data[8..] == FrameAll(cs);
      ChunksWalk(cs, START);
      WalkAccepts(cs, h, z);
    }
  }

  // ---- A damaged chunk is refused ----

  /** The frame of `c` with other bytes where its kind and body were. */
  function Damaged(c: Chunk, seen: Chunk): bytes
    requires Framable(c)
  {
    U32(|c.body|) + seen.kind + seen.body + U32(Sealed(c))
  }

  /** Same shape, and exactly one byte of kind and body differs. */
  ghost predicate OneByteOff(c: Chunk, seen: Chunk) {
    && |c.kind| == |seen.kind| && |c.body| == |seen.body|
    && exists before: bytes, a: byte, b: byte, after: bytes ::
         a != b && c.kind + c.body == before + [a] + after && seen.kind + seen.body == before + [b] + after
  }

  lemma DamageIsSeen(c: Chunk, seen: Chunk, rest: bytes)
    requires Framable(c) && OneByteOff(c, seen)
    ensures ReadFrame(Damaged(c, seen) + rest) == Failed(CrcMismatch)
  {
    var before: bytes, a: byte, b: byte, after: bytes :|
      a != b && c.kind + c.body == before + [a] + after && seen.kind + seen.body == before + [b] + after;
    Slices(U32(|c.body|), seen.kind, seen.body, U32(Sealed(c)), rest);
    U32RoundTrip(|c.body|);
    U32RoundTrip(Sealed(c));
    CrcResumes(seen.kind, seen.body, 0);
    if Sealed(c) == Sealed(seen) {
      OneByteChangesCrc(before, a, b, after, 0);
    }
  }

  /** Chunks that the loop passes without stopping, from a given state. */
  ghost predicate Passes(cs: seq<Chunk>, st: State)
    decreases |cs|
  {
    cs == [] || (Take(st, cs[0], false).Go? && Passes(cs[1..], Take(st, cs[0], false).state))
  }

  lemma Reassociate(a: bytes, b: bytes, c: bytes)
    ensures a + b + c == a + (b + c)
  {
  }

  lemma {:induction false} DamageStopsTheLoop(cs: seq<Chunk>, st: State, d: bytes)
    requires AllFramable(cs) && Passes(cs, st) && d != [] && ReadFrame(d) == Failed(CrcMismatch)
    ensures Chunks(FrameAll(cs) + d, st) == Refused(CrcMismatch)
    decreases |cs|
  {
    if cs == [] {
      assert FrameAll(cs) + d == d;
    } else {
      var c, rest := cs[0], cs[1..];
      Reassociate(Frame(c), FrameAll(rest), d);
      ChunksStep(c, FrameAll(rest) + d, st);
      DamageStopsTheLoop(rest, Take(st, c, false).state, d);
    }
  }

  lemma {:induction false} TailPasses(cs: seq<Chunk>, n: nat, st: State)
    requires !st.first && LegalTail(cs) && n < |cs|
    ensures Passes(cs[..n], st)
    decreases n
  {
    if n > 0 {
      LegalTailStep(cs);
      var next := Take(st, cs[0], false);
      TailPasses(cs[1..], n - 1, next.state);
      assert cs[..n][1..] == cs[1..][..n - 1];
    }
  }

  lemma PrefixPasses(cs: seq<Chunk>, n: nat)
    requires Legal(cs) && n < |cs|
    ensures Passes(cs[..n], START)
  {
    if n > 0 {
      LegalSplits(cs);
      TailPasses(cs[1..], n - 1, State(false, [cs[0].body], []));
      assert cs[..n][1..] == cs[1..][..n - 1];
    }
  }

  lemma Signed(d: bytes)
    ensures ReadFile(SIGNATURE + d) == Chunks(d, START)
  {
    assert (SIGNATURE + d)[8..] == d;
  }

  /** Changing any one byte of any chunk's kind or body turns a readable file into one refused for its CRC. */
  lemma DamagedFileIsRefused(cs: seq<Chunk>, n: nat, seen: Chunk)
    requires Legal(cs) && n < |cs| && OneByteOff(cs[n], seen)
    ensures ReadFile(SIGNATURE + (FrameAll(cs[..n]) + (Damaged(cs[n], seen) + FrameAll(cs[n + 1..]))))
            == Refused(CrcMismatch)
  {
    var d := Damaged(cs[n], seen) + FrameAll(cs[n + 1..]);
    DamageIsSeen(cs[n], seen, FrameAll(cs[n + 1..]));
    PrefixPasses(cs, n);
    DamageStopsTheLoop(cs[..n], START, d);
    Signed(FrameAll(cs[..n]) + d);
  }
}
