/** Unpadded base64url (section 5 of RFC 4648): the hand-written encoder, the lenient decoder and the strict one. */
module Base64url {
  import opened Wrappers
  import opened JsText
  import opened Bytes

  type Sextet = i: int | 0 <= i < 64

  /** The alphabet: upper case, lower case, digits, `-` and `_`. */
  function Letter(i: Sextet): (c: CodeUnit)
    ensures InAlphabet(c) && Index(c) == i
  {
    if i < 26 then 65 + i
    else if i < 52 then 71 + i
    else if i < 62 then i - 4
    else if i == 62 then 45
    else 95
  }

  /** The character class of the strict-base64url regular expression. */
  predicate InAlphabet(c: CodeUnit) {
    65 <= c <= 90 || 97 <= c <= 122 || 48 <= c <= 57 || c == 45 || c == 95
  }

  function Index(c: CodeUnit): (i: Sextet)
    requires InAlphabet(c)
  {
    if 65 <= c <= 90 then c - 65
    else if 97 <= c <= 122 then c - 71
    else if 48 <= c <= 57 then c + 4
    else if c == 45 then 62
    else 63
  }

  predicate AllInAlphabet(t: Text) {
    forall i :: 0 <= i < |t| ==> InAlphabet(t[i])
  }

  function Letters(s: seq<Sextet>): (t: Text)
    ensures |t| == |s| && AllInAlphabet(t)
    ensures forall i :: 0 <= i < |s| ==> t[i] == Letter(s[i])
  {
    seq(|s|, i requires 0 <= i < |s| => Letter(s[i]))
  }

  function Indices(t: Text): (s: seq<Sextet>)
    requires AllInAlphabet(t)
    ensures |s| == |t|
    ensures forall i :: 0 <= i < |t| ==> s[i] == Index(t[i])
  {
    seq(|t|, i requires 0 <= i < |t| => Index(t[i]))
  }

  lemma IndicesOfLetters(s: seq<Sextet>)
    ensures Indices(Letters(s)) == s
  {
  }

  lemma LettersOfIndices(t: Text)
    requires AllInAlphabet(t)
    ensures Letters(Indices(t)) == t
  {
  }

  // ---- Bytes and sextets ----

  function Quad(a: byte, b: byte, c: byte): (q: seq<Sextet>)
    ensures |q| == 4
  {
    [a / 4, a % 4 * 16 + b / 16, b % 16 * 4 + c / 64, c % 64]
  }

  function Triple(i: Sextet, j: Sextet, k: Sextet, l: Sextet): (b: bytes)
    ensures |b| == 3
  {
    [i * 4 + j / 16, j % 16 * 16 + k / 4, k % 4 * 64 + l]
  }

  function ToSextets(b: bytes): (s: seq<Sextet>)
    decreases |b|
  {
    if |b| == 0 then []
    else if |b| == 1 then Quad(b[0], 0, 0)[..2]
    else if |b| == 2 then Quad(b[0], b[1], 0)[..3]
    else Quad(b[0], b[1], b[2]) + ToSextets(b[3..])
  }

  /** A lone last sextet, and spare low bits, are dropped. */
  function FromSextets(s: seq<Sextet>): (b: bytes)
    decreases |s|
  {
    if |s| <= 1 then []
    else if |s| == 2 then Triple(s[0], s[1], 0, 0)[..1]
    else if |s| == 3 then Triple(s[0], s[1], s[2], 0)[..2]
    else Triple(s[0], s[1], s[2], s[3]) + FromSextets(s[4..])
  }

  lemma Split16(h: nat, l: nat)
    requires l < 16
    ensures (h * 16 + l) / 16 == h && (h * 16 + l) % 16 == l
  {
  }

  lemma Split4(h: nat, l: nat)
    requires l < 4
    ensures (h * 4 + l) / 4 == h && (h * 4 + l) % 4 == l
  {
  }

  lemma GroupRoundTrip(a: byte, b: byte, c: byte)
    ensures var q := Quad(a, b, c); Triple(q[0], q[1], q[2], q[3]) == [a, b, c]
  {
    Split16(a % 4, b / 16);
    Split4(b % 16, c / 64);
    var q := Quad(a, b, c);
    assert q[1] / 16 == a % 4 && q[1] % 16 == b / 16 && q[2] / 4 == b % 16 && q[2] % 4 == c / 64;
    Joined(a, b, c);
  }

  lemma Joined(a: nat, b: nat, c: nat)
    ensures a / 4 * 4 + a % 4 == a && b / 16 * 16 + b % 16 == b && c / 64 * 64 + c % 64 == c
  {
  }

  lemma QuadOfTriple(i: Sextet, j: Sextet, k: Sextet, l: Sextet)
    ensures var b := Triple(i, j, k, l); Quad(b[0], b[1], b[2]) == [i, j, k, l]
  {
    assert (i * 4 + j / 16) / 4 == i && (i * 4 + j / 16) % 4 == j / 16;
    assert (j % 16 * 16 + k / 4) / 16 == j % 16 && (j % 16 * 16 + k / 4) % 16 == k / 4;
    assert (k % 4 * 64 + l) / 64 == k % 4 && (k % 4 * 64 + l) % 64 == l;
  }

  lemma {:induction false} SextetsRoundTrip(b: bytes)
    ensures FromSextets(ToSextets(b)) == b
    decreases |b|
  {
    if |b| == 0 {
    } else if |b| == 1 {
      GroupRoundTrip(b[0], 0, 0);
    } else if |b| == 2 {
      GroupRoundTrip(b[0], b[1], 0);
    } else {
      var q, rest := Quad(b[0], b[1], b[2]), ToSextets(b[3..]);
      GroupRoundTrip(b[0], b[1], b[2]);
      SextetsRoundTrip(b[3..]);
      assert (q + rest)[4..] == rest;
      assert b == [b[0], b[1], b[2]] + b[3..];
    }
  }

  lemma {:induction false} SextetCount(b: bytes)
    ensures |ToSextets(b)| == (4 * |b| + 2) / 3
    decreases |b|
  {
    if |b| > 2 {
      SextetCount(b[3..]);
    }
  }

  /** No lone last sextet, and no spare low bits set in the last one. */
  predicate TidyEnd(s: seq<Sextet>) {
    && |s| % 4 != 1
    && (|s| % 4 == 2 ==> s[|s| - 1] % 16 == 0)
    && (|s| % 4 == 3 ==> s[|s| - 1] % 4 == 0)
  }

  lemma TidyTail(s: seq<Sextet>)
    requires |s| >= 4
    ensures TidyEnd(s) <==> TidyEnd(s[4..])
  {
    assert |s[4..]| % 4 == |s| % 4;
  }

  lemma FromTwo(s: seq<Sextet>)
    requires |s| == 2
    ensures FromSextets(s) == [Triple(s[0], s[1], 0, 0)[0]]
  {
  }

  lemma FromThree(s: seq<Sextet>)
    requires |s| == 3
    ensures FromSextets(s) == [Triple(s[0], s[1], s[2], 0)[0], Triple(s[0], s[1], s[2], 0)[1]]
  {
  }

  lemma ToOne(b: bytes)
    requires |b| == 1
    ensures ToSextets(b) == Quad(b[0], 0, 0)[..2]
  {
  }

  lemma ToTwo(b: bytes)
    requires |b| == 2
    ensures ToSextets(b) == Quad(b[0], b[1], 0)[..3]
  {
  }

  lemma TwoBack(i: Sextet, j: Sextet)
    requires j % 16 == 0
    ensures Quad(Triple(i, j, 0, 0)[0], 0, 0)[..2] == [i, j]
  {
    QuadOfTriple(i, j, 0, 0);
    assert Triple(i, j, 0, 0)[1] == 0 && Triple(i, j, 0, 0)[2] == 0;
  }

  lemma ThreeBack(i: Sextet, j: Sextet, k: Sextet)
    requires k % 4 == 0
    ensures Quad(Triple(i, j, k, 0)[0], Triple(i, j, k, 0)[1], 0)[..3] == [i, j, k]
  {
    QuadOfTriple(i, j, k, 0);
    assert Triple(i, j, k, 0)[2] == 0;
  }

  lemma PackTwo(s: seq<Sextet>) returns (b: byte)
    requires |s| == 2 && s[1] % 16 == 0
    ensures FromSextets(s) == [b] && Quad(b, 0, 0)[..2] == s
  {
    b := Triple(s[0], s[1], 0, 0)[0];
    FromTwo(s);
    TwoBack(s[0], s[1]);
  }

  lemma PackThree(s: seq<Sextet>) returns (b: byte, c: byte)
    requires |s| == 3 && s[2] % 4 == 0
    ensures FromSextets(s) == [b, c] && Quad(b, c, 0)[..3] == s
  {
    b, c := Triple(s[0], s[1], s[2], 0)[0], Triple(s[0], s[1], s[2], 0)[1];
    FromThree(s);
    ThreeBack(s[0], s[1], s[2]);
  }

  lemma ShortReencodes(s: seq<Sextet>)
    requires TidyEnd(s) && |s| < 4
    ensures ToSextets(FromSextets(s)) == s
  {
    if |s| == 2 {
      var b := PackTwo(s);
      ToOne([b]);
    } else if |s| == 3 {
      var b, c := PackThree(s);
      ToTwo([b, c]);
    }
  }

  lemma ReencodesOn(s: seq<Sextet>)
    requires |s| >= 4 && ToSextets(FromSextets(s[4..])) == s[4..]
    ensures ToSextets(FromSextets(s)) == s
  {
    var g, rest := Triple(s[0], s[1], s[2], s[3]), FromSextets(s[4..]);
    QuadOfTriple(s[0], s[1], s[2], s[3]);
    assert (g + rest)[3..] == rest;
    assert s == [s[0], s[1], s[2], s[3]] + s[4..];
  }

  lemma {:induction false} TidyReencodes(s: seq<Sextet>)
    requires TidyEnd(s)
    ensures ToSextets(FromSextets(s)) == s
    decreases |s|
  {
    if |s| < 4 {
      ShortReencodes(s);
    } else {
      TidyTail(s);
      TidyReencodes(s[4..]);
      ReencodesOn(s);
    }
  }

  lemma {:induction false} SextetsAreTidy(b: bytes)
    ensures TidyEnd(ToSextets(b))
    decreases |b|
  {
    if |b| > 2 {
      SextetsAreTidy(b[3..]);
      var s := ToSextets(b);
      assert s[4..] == ToSextets(b[3..]);
      TidyTail(s);
    }
  }

  // ---- Text ----

  function Encode(b: bytes): (t: Text) {
    Letters(ToSextets(b))
  }

  /** The lenient decoder behind the character-class check. */
  function Decode(t: Text): (b: bytes)
    requires AllInAlphabet(t)
  {
    FromSextets(Indices(t))
  }

  /** The strict decoder: the character class, then the re-encode check. */
  function StrictBase64url(t: Text): (r: Option<bytes>) {
    if t == [] || !AllInAlphabet(t) then None
    else if Encode(Decode(t)) != t then None
    else Some(Decode(t))
  }

  lemma DecodeEncode(b: bytes)
    ensures Decode(Encode(b)) == b
  {
    IndicesOfLetters(ToSextets(b));
    SextetsRoundTrip(b);
  }

  lemma EncodeLength(b: bytes)
    ensures |Encode(b)| == (4 * |b| + 2) / 3 && AllInAlphabet(Encode(b))
  {
    SextetCount(b);
  }

  /** The strict decoder accepts exactly the encodings of nonempty byte strings, each as its own bytes. */
  lemma StrictInvertsEncode(t: Text, b: bytes)
    ensures StrictBase64url(t) == Some(b) <==> b != [] && t == Encode(b)
  {
    EncodeLength(b);
    if b != [] && t == Encode(b) {
      DecodeEncode(b);
    }
  }

  /** The re-encode check is exactly the rule on the last character. */
  lemma StrictIsTidy(t: Text)
    ensures StrictBase64url(t).Some? <==> t != [] && AllInAlphabet(t) && TidyEnd(Indices(t))
  {
    if t != [] && AllInAlphabet(t) {
      LettersOfIndices(t);
      if TidyEnd(Indices(t)) {
        TidyReencodes(Indices(t));
      }
      if Encode(Decode(t)) == t {
        IndicesOfLetters(ToSextets(Decode(t)));
        SextetsAreTidy(Decode(t));
      }
    }
  }

  // ---- Which texts the lenient decoder takes for the same bytes ----

  /** Without a lone last sextet, and with the spare low bits of the last one cleared. */
  function Tidied(s: seq<Sextet>): (r: seq<Sextet>) {
    var n := |s| - 1;
    if |s| % 4 == 1 then s[..n]
    else if |s| % 4 == 2 then s[..n] + [s[n] / 16 * 16]
    else if |s| % 4 == 3 then s[..n] + [s[n] / 4 * 4]
    else s
  }

  lemma TidiedTail(s: seq<Sextet>)
    requires |s| >= 4
    ensures |Tidied(s)| >= 4 && Tidied(s)[..4] == s[..4] && Tidied(s)[4..] == Tidied(s[4..])
  {
    assert |s[4..]| % 4 == |s| % 4;
  }

  lemma SameHeadDecodes(s: seq<Sextet>, t: seq<Sextet>)
    requires |s| >= 4 && |t| >= 4 && t[..4] == s[..4] && FromSextets(t[4..]) == FromSextets(s[4..])
    ensures FromSextets(t) == FromSextets(s)
  {
    assert forall i :: 0 <= i < 4 ==> t[i] == t[..4][i] && s[i] == s[..4][i];
  }

  lemma SameFirst(i: Sextet, j: Sextet, t: Sextet)
    requires t / 16 == j / 16
    ensures Triple(i, t, 0, 0)[0] == Triple(i, j, 0, 0)[0]
  {
  }

  lemma SameTwo(i: Sextet, j: Sextet, k: Sextet, t: Sextet)
    requires t / 4 == k / 4
    ensures Triple(i, j, t, 0)[0] == Triple(i, j, k, 0)[0] && Triple(i, j, t, 0)[1] == Triple(i, j, k, 0)[1]
  {
  }

  lemma LastTidied(s: seq<Sextet>, t: seq<Sextet>)
    requires t == Tidied(s)
    ensures |s| == 2 ==> |t| == 2 && t[0] == s[0] && t[1] / 16 == s[1] / 16
    ensures |s| == 3 ==> |t| == 3 && t[0] == s[0] && t[1] == s[1] && t[2] / 4 == s[2] / 4
  {
  }

  lemma ShortTidiedDecodes(s: seq<Sextet>, t: seq<Sextet>)
    requires |s| < 4 && t == Tidied(s)
    ensures FromSextets(t) == FromSextets(s)
  {
    LastTidied(s, t);
    if |s| == 2 {
      FromTwo(s);
      FromTwo(t);
      SameFirst(s[0], s[1], t[1]);
    } else if |s| == 3 {
      FromThree(s);
      FromThree(t);
      SameTwo(s[0], s[1], s[2], t[2]);
    }
  }

  lemma {:induction false} TidiedDecodes(s: seq<Sextet>)
    ensures FromSextets(Tidied(s)) == FromSextets(s)
    decreases |s|
  {
    if |s| < 4 {
      ShortTidiedDecodes(s, Tidied(s));
    } else {
      TidiedTail(s);
      TidiedDecodes(s[4..]);
      SameHeadDecodes(s, Tidied(s));
    }
  }

  lemma TidiedIsTidy(s: seq<Sextet>)
    ensures TidyEnd(Tidied(s))
  {
  }

  lemma SameSextetBytes(s: seq<Sextet>, r: seq<Sextet>)
    ensures FromSextets(s) == FromSextets(r) <==> Tidied(s) == Tidied(r)
  {
    TidiedDecodes(s);
    TidiedDecodes(r);
    TidiedIsTidy(s);
    TidiedIsTidy(r);
    TidyReencodes(Tidied(s));
    TidyReencodes(Tidied(r));
  }

  /** Two texts of any lengths decode alike exactly when they differ in what the decoder drops, and in nothing else. */
  lemma LenientIsAmbiguous(t: Text, u: Text)
    requires AllInAlphabet(t) && AllInAlphabet(u)
    ensures Decode(t) == Decode(u) <==> Tidied(Indices(t)) == Tidied(Indices(u))
  {
    SameSextetBytes(Indices(t), Indices(u));
  }

  lemma {:induction false} DecodedCount(s: seq<Sextet>)
    ensures |FromSextets(s)| == 3 * |s| / 4
    decreases |s|
  {
    if |s| >= 4 { DecodedCount(s[4..]); }
  }

  const KEY_TEXT := 43

  /** Texts of 43 characters that differ at most in the two spare bits of the last one. */
  predicate SpareTwins(t: Text, u: Text) {
    && |t| == |u| == KEY_TEXT && AllInAlphabet(t) && AllInAlphabet(u)
    && t[..KEY_TEXT - 1] == u[..KEY_TEXT - 1]
    && Index(t[KEY_TEXT - 1]) / 4 == Index(u[KEY_TEXT - 1]) / 4
  }

  lemma TidiedKey(s: seq<Sextet>, r: seq<Sextet>)
    requires |s| == |r| == KEY_TEXT
    ensures Tidied(s) == Tidied(r) <==>
            s[..KEY_TEXT - 1] == r[..KEY_TEXT - 1] && s[KEY_TEXT - 1] / 4 == r[KEY_TEXT - 1] / 4
  {
    var n := KEY_TEXT - 1;
    assert Tidied(s) == s[..n] + [s[n] / 4 * 4] && Tidied(r) == r[..n] + [r[n] / 4 * 4];
    assert Tidied(s)[..n] == s[..n] && Tidied(r)[..n] == r[..n];
    assert Tidied(s)[n] == s[n] / 4 * 4 && Tidied(r)[n] == r[n] / 4 * 4;
  }

  lemma SamePrefixIndices(t: Text, u: Text, n: nat)
    requires AllInAlphabet(t) && AllInAlphabet(u) && n <= |t| && n <= |u|
    ensures Indices(t)[..n] == Indices(u)[..n] <==> t[..n] == u[..n]
  {
    LettersOfIndices(t);
    LettersOfIndices(u);
    if Indices(t)[..n] == Indices(u)[..n] {
      forall i | 0 <= i < n
        ensures t[i] == u[i]
      {
        assert Indices(t)[i] == Indices(t)[..n][i] == Indices(u)[..n][i] == Indices(u)[i];
        assert t[i] == Letters(Indices(t))[i] && u[i] == Letters(Indices(u))[i];
      }
    }
    if t[..n] == u[..n] {
      forall i | 0 <= i < n
        ensures Indices(t)[i] == Indices(u)[i]
      {
        assert t[i] == t[..n][i] == u[..n][i] == u[i];
      }
    }
  }

  lemma KeyTextLength(t: Text)
    requires AllInAlphabet(t) && |Decode(t)| == 32
    ensures |t| == KEY_TEXT
  {
    DecodedCount(Indices(t));
  }

  lemma TidiedTexts(t: Text, u: Text)
    requires AllInAlphabet(t) && AllInAlphabet(u) && |t| == |u| == KEY_TEXT
    ensures Tidied(Indices(t)) == Tidied(Indices(u)) <==> SpareTwins(t, u)
  {
    TidiedKey(Indices(t), Indices(u));
    SamePrefixIndices(t, u, KEY_TEXT - 1);
  }

  /** Texts of 32-byte keys have 43 characters, and are one key exactly when they differ at most in spare bits. */
  lemma SameKeyExactly(t: Text, u: Text)
    requires AllInAlphabet(t) && AllInAlphabet(u) && |Decode(t)| == |Decode(u)| == 32
    ensures Decode(t) == Decode(u) <==> SpareTwins(t, u)
  {
    KeyTextLength(t);
    KeyTextLength(u);
    LenientIsAmbiguous(t, u);
    TidiedTexts(t, u);
  }

  /** The last bit of a sextet, flipped. */
  function Flip(i: Sextet): (j: Sextet)
    ensures j != i && j / 4 == i / 4
  {
    if i % 2 == 0 then i + 1 else i - 1
  }

  lemma IndexOfLetter(i: Sextet)
    ensures InAlphabet(Letter(i)) && Index(Letter(i)) == i
  {
    IndicesOfLetters([i]);
    assert Letters([i])[0] == Letter(i) && Indices(Letters([i]))[0] == i;
  }

  /** The text of a key with one spare bit flipped. */
  function Twin(t: Text): (u: Text)
    requires |t| == KEY_TEXT && AllInAlphabet(t)
    ensures |u| == KEY_TEXT && AllInAlphabet(u)
  {
    IndexOfLetter(Flip(Index(t[KEY_TEXT - 1])));
    t[KEY_TEXT - 1 := Letter(Flip(Index(t[KEY_TEXT - 1])))]
  }

  lemma TwinIsTwin(t: Text)
    requires |t| == KEY_TEXT && AllInAlphabet(t)
    ensures SpareTwins(t, Twin(t)) && Twin(t) != t
  {
    IndexOfLetter(Flip(Index(t[KEY_TEXT - 1])));
  }

  lemma KeyTextIsKey(t: Text)
    requires |t| == KEY_TEXT && AllInAlphabet(t)
    ensures |Decode(t)| == 32
  {
    DecodedCount(Indices(t));
  }

  /** Every key has a second text. */
  lemma TwinIsSameKey(t: Text)
    requires |t| == KEY_TEXT && AllInAlphabet(t)
    ensures Twin(t) != t && |Decode(t)| == 32 && Decode(Twin(t)) == Decode(t)
  {
    TwinIsTwin(t);
    KeyTextIsKey(t);
    KeyTextIsKey(Twin(t));
    SameKeyExactly(t, Twin(t));
  }

  /** Distinct texts that both pass the strict check name distinct bytes. */
  lemma StrictIsInjective(t: Text, u: Text)
    requires StrictBase64url(t).Some? && StrictBase64url(u).Some?
    ensures StrictBase64url(t) == StrictBase64url(u) ==> t == u
  {
  }

  // ---- The loop ----

  function At(b: bytes, i: nat): byte {
    if i < |b| then b[i] else 0
  }

  /** What one turn of the loop appends: two characters, and one more for each further byte present. */
  function Turn(b: bytes, offset: nat): seq<Sextet>
    requires offset < |b|
  {
    var q := Quad(b[offset], At(b, offset + 1), At(b, offset + 2));
    q[..2] + (if offset + 1 < |b| then [q[2]] else []) + (if offset + 2 < |b| then [q[3]] else [])
  }

  lemma TurnEncodes(b: bytes, offset: nat)
    requires offset < |b|
    ensures ToSextets(b[offset..]) == Turn(b, offset) + (if offset + 3 <= |b| then ToSextets(b[offset + 3..]) else [])
  {
    var rest := b[offset..];
    if offset + 3 <= |b| {
      assert rest[3..] == b[offset + 3..];
    }
  }

  lemma LettersConcat(s: seq<Sextet>, r: seq<Sextet>)
    ensures Letters(s + r) == Letters(s) + Letters(r)
  {
  }

  lemma TurnLetters(b: bytes, offset: nat)
    requires offset < |b|
    ensures var q := Quad(b[offset], At(b, offset + 1), At(b, offset + 2));
            Letters(Turn(b, offset))
            == [Letter(q[0]), Letter(q[1])]
             + (if offset + 1 < |b| then [Letter(q[2])] else [])
             + (if offset + 2 < |b| then [Letter(q[3])] else [])
  {
  }

  lemma TurnStep(b: bytes, offset: nat, done: seq<Sextet>)
    requires offset < |b| && ToSextets(b) == done + ToSextets(b[offset..])
    ensures Letters(done + Turn(b, offset)) == Letters(done) + Letters(Turn(b, offset))
    ensures ToSextets(b) == done + Turn(b, offset) + (if offset + 3 <= |b| then ToSextets(b[offset + 3..]) else [])
  {
    TurnEncodes(b, offset);
    LettersConcat(done, Turn(b, offset));
    Regroup(ToSextets(b), done, ToSextets(b[offset..]), Turn(b, offset),
            if offset + 3 <= |b| then ToSextets(b[offset + 3..]) else []);
  }

  lemma Regroup<T>(all: seq<T>, done: seq<T>, tail: seq<T>, turn: seq<T>, rest: seq<T>)
    requires all == done + tail && tail == turn + rest
    ensures all == done + turn + rest
  {
  }

  /** The three-byte-step loop, one character at a time. */
  method EncodeLoop(b: bytes) returns (encoded: Text)
    ensures encoded == Encode(b)
  {
    encoded := [];
    var offset := 0;
    ghost var done: seq<Sextet> := [];
    assert b[0..] == b;
    while offset < |b|
      invariant 0 <= offset && encoded == Letters(done)
      invariant offset <= |b| ==> ToSextets(b) == done + ToSextets(b[offset..])
      invariant offset > |b| ==> ToSextets(b) == done
    {
      var q := Quad(b[offset], At(b, offset + 1), At(b, offset + 2));
      ghost var before := encoded;
      encoded := encoded + [Letter(q[0])];
      encoded := encoded + [Letter(q[1])];
      if offset + 1 < |b| {
        encoded := encoded + [Letter(q[2])];
      }
      if offset + 2 < |b| {
        encoded := encoded + [Letter(q[3])];
      }
      TurnLetters(b, offset);
      assert encoded == before + Letters(Turn(b, offset));
      TurnStep(b, offset, done);
      done := done + Turn(b, offset);
      offset := offset + 3;
    }
  }

  // ---- The letters as bits ----

  /** Table 2 of RFC 4648: capitals, small letters, digits, then `-` and `_`. */
  lemma AlphabetIs(i: Sextet)
    ensures i < 26 ==> Letter(i) == 'A' as int + i
    ensures 26 <= i < 52 ==> Letter(i) == 'a' as int + (i - 26)
    ensures 52 <= i < 62 ==> Letter(i) == '0' as int + (i - 52)
    ensures Letter(62) == '-' as int && Letter(63) == '_' as int
  {
  }

  /** Three bytes, or four sextets, as one number. */
  function Bits24(a: int, b: int, c: int): int { a * 0x10000 + b * 0x100 + c }
  function Bits6(i: int, j: int, k: int, l: int): int { i * 0x40000 + j * 0x1000 + k * 0x40 + l }

  lemma QuadBits(a: byte, b: byte, c: byte)
    ensures var q := Quad(a, b, c); Bits6(q[0], q[1], q[2], q[3]) == Bits24(a, b, c)
  {
  }

  lemma TripleBits(i: Sextet, j: Sextet, k: Sextet, l: Sextet)
    ensures var b := Triple(i, j, k, l); Bits24(b[0], b[1], b[2]) == Bits6(i, j, k, l)
  {
  }

  /** Group `g` of the letters holds the bits of group `g` of the bytes, most significant first, then zeros. */
  ghost predicate GroupEncodes(b: bytes, s: seq<Sextet>, g: nat) {
    var i, o := 3 * g, 4 * g;
    && (i + 3 <= |b| ==> o + 4 <= |s| && Bits6(s[o], s[o + 1], s[o + 2], s[o + 3]) == Bits24(b[i], b[i + 1], b[i + 2]))
    && (i + 2 == |b| ==> o + 3 == |s| && Bits6(s[o], s[o + 1], s[o + 2], 0) == Bits24(b[i], b[i + 1], 0))
    && (i + 1 == |b| ==> o + 2 == |s| && Bits6(s[o], s[o + 1], 0, 0) == Bits24(b[i], 0, 0))
    && (i == |b| ==> o == |s|)
  }

  lemma ShortEncodes(b: bytes)
    requires |b| <= 2
    ensures GroupEncodes(b, ToSextets(b), 0)
  {
    if |b| == 1 { QuadBits(b[0], 0, 0); }
    if |b| == 2 { QuadBits(b[0], b[1], 0); }
  }

  lemma LaterGroup(b: bytes, s: seq<Sextet>, g: nat)
    requires g > 0 && |b| >= 3 && |s| >= 4 && GroupEncodes(b[3..], s[4..], g - 1)
    ensures GroupEncodes(b, s, g)
  {
  }

  lemma {:induction false} EncodeBits(b: bytes, g: nat)
    ensures GroupEncodes(b, ToSextets(b), g)
    decreases |b|
  {
    if |b| >= 3 {
      if g == 0 {
        QuadBits(b[0], b[1], b[2]);
        if |b| == 3 { assert ToSextets(b[3..]) == []; }
      } else {
        EncodeBits(b[3..], g - 1);
        assert ToSextets(b)[4..] == ToSextets(b[3..]);
        LaterGroup(b, ToSextets(b), g);
      }
    } else if g == 0 {
      ShortEncodes(b);
    }
  }

  /** Group `g` of the bytes holds the bits of group `g` of the letters; spare bits and a lone letter are dropped. */
  ghost predicate GroupDecodes(s: seq<Sextet>, b: bytes, g: nat) {
    var i, o := 4 * g, 3 * g;
    && (i + 4 <= |s| ==> o + 3 <= |b| && Bits24(b[o], b[o + 1], b[o + 2]) == Bits6(s[i], s[i + 1], s[i + 2], s[i + 3]))
    && (i + 3 == |s| ==> o + 2 == |b| && Bits24(0, b[o], b[o + 1]) == Bits6(s[i], s[i + 1], s[i + 2], 0) / 0x100)
    && (i + 2 == |s| ==> o + 1 == |b| && b[o] == Bits6(s[i], s[i + 1], 0, 0) / 0x10000)
    && (i <= |s| <= i + 1 ==> o == |b|)
  }

  lemma FirstByte(i: Sextet, j: Sextet)
    ensures Bits6(i, j, 0, 0) / 0x10000 == i * 4 + j / 16
  {
    var q, r := j / 16, j % 16;
    assert Bits6(i, j, 0, 0) == (i * 4 + q) * 0x10000 + r * 0x1000;
  }

  lemma FirstTwo(i: Sextet, j: Sextet, k: Sextet)
    ensures Bits6(i, j, k, 0) / 0x100 == Bits24(0, i * 4 + j / 16, j % 16 * 16 + k / 4)
  {
    var q, r := k / 4, k % 4;
    var y, z := j / 16, j % 16;
    assert Bits6(i, j, k, 0) == ((i * 4 + y) * 0x100 + (z * 16 + q)) * 0x100 + r * 0x40;
  }

  lemma ShortDecodes(s: seq<Sextet>)
    requires |s| <= 3
    ensures GroupDecodes(s, FromSextets(s), 0)
  {
    if |s| == 2 {
      FirstByte(s[0], s[1]);
    } else if |s| == 3 {
      FirstTwo(s[0], s[1], s[2]);
    }
  }

  lemma LaterDecoded(s: seq<Sextet>, b: bytes, g: nat)
    requires g > 0 && |s| >= 4 && |b| >= 3 && GroupDecodes(s[4..], b[3..], g - 1)
    ensures GroupDecodes(s, b, g)
  {
  }

  lemma FirstDecoded(s: seq<Sextet>, rest: bytes, b: bytes)
    requires |s| >= 4 && b == Triple(s[0], s[1], s[2], s[3]) + rest
    ensures GroupDecodes(s, b, 0)
  {
    TripleBits(s[0], s[1], s[2], s[3]);
  }

  lemma RestDecoded(s: seq<Sextet>, b: bytes)
    requires |s| >= 4 && b == FromSextets(s)
    ensures b == Triple(s[0], s[1], s[2], s[3]) + FromSextets(s[4..]) && b[3..] == FromSextets(s[4..])
  {
  }

  lemma {:induction false} DecodeBits(s: seq<Sextet>, g: nat)
    ensures GroupDecodes(s, FromSextets(s), g)
    decreases |s|
  {
    var b := FromSextets(s);
    if |s| < 4 {
      if g == 0 { ShortDecodes(s); }
    } else {
      RestDecoded(s, b);
      if g == 0 {
        FirstDecoded(s, FromSextets(s[4..]), b);
      } else {
        DecodeBits(s[4..], g - 1);
        LaterDecoded(s, b, g);
      }
    }
  }
}
