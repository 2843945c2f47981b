/** Small value types shared by the models. */
module Wrappers {
  datatype Option<+T> = None | Some(value: T)
}

/** JavaScript strings: sequences of UTF-16 code units. */
module JsText {
  import Bytes

  type CodeUnit = u: int | 0 <= u < 0x1_0000
  type Text = seq<CodeUnit>

  const QUOTE: CodeUnit := 34
  const COMMA: CodeUnit := 44
  const COLON: CodeUnit := 58
  const OPEN_BRACKET: CodeUnit := 91
  const BACKSLASH: CodeUnit := 92
  const CLOSE_BRACKET: CodeUnit := 93
  const OPEN_BRACE: CodeUnit := 123
  const CLOSE_BRACE: CodeUnit := 125

  /** The code units of an ASCII literal. */
  function Ascii(s: string): (t: Text)
    ensures |t| == |s|
    ensures forall i :: 0 <= i < |s| && s[i] < 128 as char ==> t[i] == s[i] as int
  {
    Bytes.AsciiBytes(s)
  }

  /** Two texts with one digest. */
  ghost predicate Collision(digest: Text -> Text, s: Text, t: Text) { s != t && digest(s) == digest(t) }
}

/** Byte strings and big-endian 32-bit integers. */
module Bytes {
  type byte = b: int | 0 <= b < 256
  type bytes = seq<byte>

  function Zeros(n: nat): (b: bytes)
    ensures |b| == n
  {
    seq(n, _ => 0)
  }

  const U32_LIMIT := 0x1_0000_0000

  function U32(v: nat): (b: bytes)
    requires v < U32_LIMIT
    ensures |b| == 4
  {
    [v / 0x100_0000, v / 0x1_0000 % 256, v / 0x100 % 256, v % 256]
  }

  function FromU32(b: bytes): (v: nat)
    requires |b| == 4
    ensures v < U32_LIMIT
  {
    b[0] as int * 0x100_0000 + b[1] as int * 0x1_0000 + b[2] as int * 0x100 + b[3]
  }

  lemma U32RoundTrip(v: nat)
    requires v < U32_LIMIT
    ensures FromU32(U32(v)) == v
  {
    var h, l := v / 0x1_0000, v % 0x1_0000;
    assert v / 0x100_0000 == h / 256;
    assert v / 0x100 == h * 256 + l / 256;
    assert v / 0x100 % 256 == l / 256;
    assert v % 256 == l % 256;
  }

  lemma FromU32RoundTrip(b: bytes)
    requires |b| == 4
    ensures U32(FromU32(b)) == b
  {
    var v := FromU32(b);
    assert v / 0x100_0000 == b[0];
    assert v / 0x1_0000 == b[0] as int * 256 + b[1];
    assert v / 0x100 == b[0] as int * 0x1_0000 + b[1] as int * 256 + b[2];
  }

  /** The bytes of an ASCII literal. */
  function AsciiBytes(s: string): (b: bytes)
    ensures |b| == |s|
    ensures forall i :: 0 <= i < |s| && s[i] < 128 as char ==> b[i] == s[i] as int
  {
    seq(|s|, i requires 0 <= i < |s| => if s[i] < 128 as char then s[i] as int else 63)
  }
}
