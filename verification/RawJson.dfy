/** Signed raw bytes: base64url text, bound by a digest, holding canonical JSON. */
module RawJson {
  import opened Wrappers
  import opened JsText
  import opened Bytes
  import Base64url
  import opened CanonicalJson
  import opened CanonicalJsonProofs

  /** The platform: SHA-256 in lower-case hex, UTF-8 decoding and `JSON.parse`. */
  datatype Platform = Platform(
    sha256Hex: bytes -> Text,
    decodeUtf8: bytes -> Text,
    jsonParse: Text -> Option<Json>)

  predicate IsSha256(t: Text) {
    |t| == 64 && forall i :: 0 <= i < 64 ==> IsDigit(t[i]) || 97 <= t[i] <= 102
  }

  /** `JSON.parse` reads canonical text back as a proper object tree with the same value. */
  ghost predicate ParsesCanonicalText(p: Platform) {
    forall v :: Proper(v) ==>
      && p.jsonParse(Print(v)).Some?
      && Proper(p.jsonParse(Print(v)).value)
      && SameValue(p.jsonParse(Print(v)).value, v)
  }

  function ParseRawJson(p: Platform, encoded: Text, expectedDigest: Text): (r: Option<Json>) {
    if encoded == [] || !Base64url.AllInAlphabet(encoded) then None
    else
      var data := Base64url.Decode(encoded);
      if !IsSha256(expectedDigest) || p.sha256Hex(data) != expectedDigest then None
      else
        var text := p.decodeUtf8(data);
        var parsed := p.jsonParse(text);
        if parsed.None? || Print(parsed.value) != text then None else parsed
  }

  /** The bytes are bound by the digest and hold the canonical text of some proper value. */
  ghost predicate HoldsCanonical(p: Platform, encoded: Text, expectedDigest: Text, v: Json) {
    && encoded != [] && Base64url.AllInAlphabet(encoded)
    && IsSha256(expectedDigest) && p.sha256Hex(Base64url.Decode(encoded)) == expectedDigest
    && p.decodeUtf8(Base64url.Decode(encoded)) == Print(v)
  }

  /** Accepted text is the canonical print of what is returned, and canonical text is accepted as its own value. */
  lemma RawJsonIsCanonical(p: Platform, encoded: Text, expectedDigest: Text, v: Json)
    requires ParsesCanonicalText(p) && Proper(v)
    ensures var r := ParseRawJson(p, encoded, expectedDigest);
            r.Some? ==> HoldsCanonical(p, encoded, expectedDigest, r.value)
    ensures var r := ParseRawJson(p, encoded, expectedDigest);
            r.Some? && Proper(r.value) && SameValue(r.value, v) <==> HoldsCanonical(p, encoded, expectedDigest, v)
  {
    var r := ParseRawJson(p, encoded, expectedDigest);
    if r.Some? && Proper(r.value) && SameValue(r.value, v) {
      PrintDecidesValue(r.value, v);
    }
    if HoldsCanonical(p, encoded, expectedDigest, v) {
      PrintDecidesValue(p.jsonParse(Print(v)).value, v);
    }
  }

  /** The parser of this project is a `JSON.parse` in that sense. */
  lemma ParserQualifies(p: Platform)
    requires forall t :: p.jsonParse(t) == Parse(t)
    ensures ParsesCanonicalText(p)
  {
    forall v | Proper(v)
      ensures p.jsonParse(Print(v)) == Some(Normal(v)) && Proper(Normal(v)) && SameValue(Normal(v), v)
    {
      ParsePrint(v);
      NormalIsProper(v);
      NormalTwice(v);
      SameNormalSameValue(Normal(v), v);
    }
  }
}

/** Canonical objects written to the tail come out of the splitter as the values that were printed. */
module CanonicalTail {
  import opened Wrappers
  import opened JsText
  import opened CanonicalJson
  import opened CanonicalJsonProofs
  import opened TailSplitter
  import opened Sorting

  /** The text is made of legal pieces. */
  ghost predicate Pieceable(t: Text) {
    exists ps :: LegalAll(ps) && ShowAll(ps) == t
  }

  lemma {:induction false} ShowAllConcat(a: seq<Piece>, b: seq<Piece>)
    ensures ShowAll(a + b) == ShowAll(a) + ShowAll(b)
    decreases |a|
  {
    if a == [] {
      assert a + b == b;
    } else {
      assert (a + b)[1..] == a[1..] + b;
      ShowAllConcat(a[1..], b);
    }
  }

  lemma PieceableConcat(a: Text, b: Text)
    requires Pieceable(a) && Pieceable(b)
    ensures Pieceable(a + b)
  {
    var p :| LegalAll(p) && ShowAll(p) == a;
    var q :| LegalAll(q) && ShowAll(q) == b;
    ShowAllConcat(p, q);
    assert LegalAll(p + q);
  }

  lemma OnePiece(p: Piece)
    requires Legal(p)
    ensures Pieceable(Show(p))
  {
    assert ShowAll([p]) == Show(p);
    assert LegalAll([p]);
  }

  lemma {:induction false} PlainText(t: Text)
    requires forall i :: 0 <= i < |t| ==> t[i] != QUOTE && t[i] != OPEN_BRACE && t[i] != CLOSE_BRACE
    ensures Pieceable(t)
    decreases |t|
  {
    if t == [] {
      assert ShowAll([]) == t;
    } else {
      PlainText(t[1..]);
      OnePiece(Plain(t[0]));
      PieceableConcat([t[0]], t[1..]);
      assert t == [t[0]] + t[1..];
    }
  }

  /** The text is the body of a legal quoted string. */
  ghost predicate Quotable(t: Text) {
    exists q :: LegalQuoted(q) && ShowQuoted(q) == t
  }

  lemma {:induction false} ShowQuotedConcat(a: seq<QuotedUnit>, b: seq<QuotedUnit>)
    ensures ShowQuoted(a + b) == ShowQuoted(a) + ShowQuoted(b)
    decreases |a|
  {
    if a == [] {
      assert a + b == b;
    } else {
      assert (a + b)[1..] == a[1..] + b;
      ShowQuotedConcat(a[1..], b);
    }
  }

  lemma QuotableConcat(a: Text, b: Text)
    requires Quotable(a) && Quotable(b)
    ensures Quotable(a + b)
  {
    var p :| LegalQuoted(p) && ShowQuoted(p) == a;
    var q :| LegalQuoted(q) && ShowQuoted(q) == b;
    ShowQuotedConcat(p, q);
    assert LegalQuoted(p + q);
  }

  lemma {:induction false} RawQuotable(t: Text)
    requires forall i :: 0 <= i < |t| ==> t[i] != QUOTE && t[i] != BACKSLASH
    ensures Quotable(t)
    decreases |t|
  {
    if t == [] {
      assert ShowQuoted([]) == t;
    } else {
      RawQuotable(t[1..]);
      assert ShowQuoted([Raw(t[0])]) == [t[0]] && LegalQuoted([Raw(t[0])]);
      QuotableConcat([t[0]], t[1..]);
      assert t == [t[0]] + t[1..];
    }
  }

  lemma EscapeUnitQuotable(u: CodeUnit)
    ensures Quotable(EscapeUnit(u))
  {
    var t := EscapeUnit(u);
    if ShortEscape(u).Some? {
      assert ShowQuoted([Escaped(t[1])]) == t && LegalQuoted([Escaped(t[1])]);
    } else if u < 32 || IsHigh(u) || IsLow(u) {
      assert ShowQuoted([Escaped(117)]) == [BACKSLASH, 117] && LegalQuoted([Escaped(117)]);
      RawQuotable(Hex4(u));
      QuotableConcat([BACKSLASH, 117], Hex4(u));
    } else {
      RawQuotable(t);
    }
  }

  lemma {:induction false} EscapeQuotable(s: Text)
    ensures Quotable(Escape(s))
    decreases |s|
  {
    if s == [] {
      RawQuotable([]);
    } else if |s| >= 2 && IsHigh(s[0]) && IsLow(s[1]) {
      EscapeQuotable(s[2..]);
      RawQuotable([s[0], s[1]]);
      QuotableConcat([s[0], s[1]], Escape(s[2..]));
    } else {
      EscapeQuotable(s[1..]);
      EscapeUnitQuotable(s[0]);
      QuotableConcat(EscapeUnit(s[0]), Escape(s[1..]));
    }
  }

  lemma QuotePieceable(s: Text)
    ensures Pieceable(Quote(s))
  {
    EscapeQuotable(s);
    var q :| LegalQuoted(q) && ShowQuoted(q) == Escape(s);
    OnePiece(Quoted(q));
  }

  lemma {:induction false} JoinPieceable(parts: seq<Text>)
    requires forall i :: 0 <= i < |parts| ==> Pieceable(parts[i])
    ensures Pieceable(Join(parts))
    decreases |parts|
  {
    if parts == [] {
      PlainText([]);
    } else if |parts| > 1 {
      JoinPieceable(parts[1..]);
      PlainText([COMMA]);
      PieceableConcat(parts[0], [COMMA]);
      PieceableConcat(parts[0] + [COMMA], Join(parts[1..]));
    }
  }

  lemma {:induction false} DecimalDigits(n: nat)
    ensures forall i :: 0 <= i < |Decimal(n)| ==> IsDigit(Decimal(n)[i])
  {
    if n >= 10 {
      DecimalDigits(n / 10);
    }
  }

  lemma FieldPieceable(key: Text, value: Text)
    requires Pieceable(value)
    ensures Pieceable(Quote(key) + [COLON] + value)
  {
    QuotePieceable(key);
    PlainText([COLON]);
    PieceableConcat(Quote(key), [COLON]);
    PieceableConcat(Quote(key) + [COLON], value);
  }

  /** The text between the braces of a printed object. */
  function Inner(members: seq<(Text, Json)>): Text {
    Join(Fields(SortByKey(PrintMembers(members), TextLeq)))
  }

  ghost predicate ValuesPieceable(parts: seq<(Text, Text)>) {
    forall i :: 0 <= i < |parts| ==> Pieceable(parts[i].1)
  }

  lemma SortedPieceable(parts: seq<(Text, Text)>, sorted: seq<(Text, Text)>)
    requires multiset(parts) == multiset(sorted) && ValuesPieceable(parts)
    ensures ValuesPieceable(sorted)
  {
    forall i | 0 <= i < |sorted|
      ensures Pieceable(sorted[i].1)
    {
      SameMembers(parts, sorted, sorted[i]);
    }
  }

  lemma FieldsPieceable(sorted: seq<(Text, Text)>)
    requires ValuesPieceable(sorted)
    ensures Pieceable(Join(Fields(sorted)))
  {
    forall i | 0 <= i < |sorted|
      ensures Pieceable(Fields(sorted)[i])
    {
      FieldPieceable(sorted[i].0, sorted[i].1);
    }
    JoinPieceable(Fields(sorted));
  }

  lemma InnerPieceable(members: seq<(Text, Json)>)
    requires ValuesPieceable(PrintMembers(members))
    ensures Pieceable(Inner(members))
  {
    var parts := PrintMembers(members);
    SortPermutes(parts, TextLeq);
    SortedPieceable(parts, SortByKey(parts, TextLeq));
    FieldsPieceable(SortByKey(parts, TextLeq));
  }

  lemma {:induction false} PrintPieceable(v: Json)
    ensures Pieceable(Print(v))
    ensures v.Obj? ==> Pieceable(Inner(v.members))
  {
    match v {
      case Null => PlainText(NULL);
      case Bool(_) => PlainText(Print(v));
      case Num(n) =>
        DecimalDigits(if n < 0 then -n else n);
        PlainText(PrintInt(n));
      case Str(s) => QuotePieceable(s);
      case Arr(items) =>
        forall i | 0 <= i < |items| ensures Pieceable(PrintAll(items)[i]) { PrintPieceable(items[i]); }
        JoinPieceable(PrintAll(items));
        PlainText([OPEN_BRACKET]);
        PlainText([CLOSE_BRACKET]);
        PieceableConcat([OPEN_BRACKET], Join(PrintAll(items)));
        PieceableConcat([OPEN_BRACKET] + Join(PrintAll(items)), [CLOSE_BRACKET]);
      case Obj(members) =>
        forall i | 0 <= i < |members| ensures Pieceable(PrintMembers(members)[i].1) {
          assert members[i].1 < members[i];
          PrintPieceable(members[i].1);
        }
        InnerPieceable(members);
        var ps :| LegalAll(ps) && ShowAll(ps) == Inner(members);
        OnePiece(Nested(ps));
    }
  }

  /** The objects' canonical texts, each behind its own filler, and a last filler. */
  function Written(fillers: seq<Text>, objects: seq<Json>, tail: Text): Text
    requires |fillers| == |objects|
  {
    if objects == [] then tail
    else fillers[0] + Print(objects[0]) + Written(fillers[1..], objects[1..], tail)
  }

  lemma {:induction false} AsPieces(fillers: seq<Text>, objects: seq<Json>, tail: Text)
    returns (pieces: seq<seq<Piece>>)
    requires |fillers| == |objects| && forall i :: 0 <= i < |objects| ==> objects[i].Obj?
    ensures |pieces| == |objects| && forall i :: 0 <= i < |pieces| ==> LegalAll(pieces[i])
    ensures Stream(fillers, pieces, tail) == Written(fillers, objects, tail)
    ensures Texts(pieces) == PrintAll(objects)
    decreases |objects|
  {
    if objects == [] {
      pieces := [];
    } else {
      PrintPieceable(objects[0]);
      var ps :| LegalAll(ps) && ShowAll(ps) == Inner(objects[0].members);
      var rest := AsPieces(fillers[1..], objects[1..], tail);
      pieces := [ps] + rest;
      assert pieces[1..] == rest;
      assert Show(Nested(ps)) == Print(objects[0]);
    }
  }

  lemma ValuesOfPrints(objects: seq<Json>)
    ensures Values(Parse, PrintAll(objects)) == Some(NormalAll(objects))
  {
    forall i | 0 <= i < |objects| ensures Parse(PrintAll(objects)[i]) == Some(NormalAll(objects)[i]) {
      ParsePrint(objects[i]);
    }
    ValuesFrom(Parse, PrintAll(objects), NormalAll(objects));
  }

  /** Whatever brace-free text surrounds them and however the stream is chunked, the printed objects are read back. */
  lemma CanonicalObjectsComeOut(chunks: seq<Text>, fillers: seq<Text>, objects: seq<Json>, tail: Text)
    requires |fillers| == |objects| && NoBrace(tail)
    requires forall i :: 0 <= i < |fillers| ==> NoBrace(fillers[i]) && objects[i].Obj?
    requires Flatten(chunks) == Written(fillers, objects, tail)
    ensures Feed([], chunks) == Cut(PrintAll(objects), tail)
    ensures Interpret(Parse, Feed([], chunks)) == Extracted(NormalAll(objects), tail)
  {
    var pieces := AsPieces(fillers, objects, tail);
    SplitFindsObjects(fillers, pieces, tail);
    ChunkingIsInvisible(chunks);
    ValuesOfPrints(objects);
  }
}
