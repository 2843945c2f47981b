/**
 The splitter that cuts JSON objects out of the scheduler's tail output, and the
 carry loop that feeds it chunk by chunk.
 */
module TailSplitter {
  import opened Wrappers
  import opened JsText

  const MAX_CAPTURE := 2 * 1024 * 1024

  /** Where the scan stands inside an object whose opening brace has been read. */
  datatype Lex = Lex(depth: nat, inString: bool, escaped: bool)

  const AFTER_BRACE := Lex(1, false, false)

  function Step(l: Lex, c: CodeUnit): (r: Lex)
    requires l.depth >= 1
  {
    if l.inString then
      if l.escaped then l.(escaped := false)
      else if c == BACKSLASH then l.(escaped := true)
      else if c == QUOTE then l.(inString := false)
      else l
    else if c == QUOTE then l.(inString := true)
    else if c == OPEN_BRACE then l.(depth := l.depth + 1)
    else if c == CLOSE_BRACE then l.(depth := l.depth - 1)
    else l
  }

  /**
   What a prefix of the stream has produced: the closed objects, the text not yet
   given up (from the open brace, or since the last closed object), and the lexer
   state when an object is open.
   */
  datatype Scan = Scan(objects: seq<Text>, pending: Text, open: Option<Lex>)

  const START := Scan([], [], None)

  ghost predicate Sound(st: Scan) {
    st.open.Some? ==> st.open.value.depth >= 1
  }

  function Next(st: Scan, c: CodeUnit): (r: Scan)
    requires Sound(st)
    ensures Sound(r)
  {
    if st.open.None? then
      if c == OPEN_BRACE then Scan(st.objects, [c], Some(AFTER_BRACE))
      else Scan(st.objects, st.pending + [c], None)
    else
      var m := Step(st.open.value, c);
      if m.depth == 0 then Scan(st.objects + [st.pending + [c]], [], None)
      else Scan(st.objects, st.pending + [c], Some(m))
  }

  function Run(st: Scan, s: Text): (r: Scan)
    requires Sound(st)
    ensures Sound(r)
  {
    if s == [] then st else Next(Run(st, s[..|s| - 1]), s[|s| - 1])
  }

  datatype Cut = Cut(objects: seq<Text>, remainder: Text)

  /** What one pass over the whole text yields. */
  function Split(s: Text): Cut {
    var r := Run(START, s);
    Cut(r.objects, r.pending)
  }

  // ---- Chunks ----

  lemma {:induction false} RunConcat(st: Scan, a: Text, b: Text)
    requires Sound(st)
    ensures Run(st, a + b) == Run(Run(st, a), b)
    decreases |b|
  {
    if b == [] {
      assert a + b == a;
    } else {
      var n := |b| - 1;
      assert (a + b)[..|a| + n] == a + b[..n];
      RunConcat(st, a, b[..n]);
    }
  }

  lemma {:induction false} RunKeepsObjects(objects: seq<Text>, st: Scan, s: Text)
    requires Sound(st)
    ensures Run(st.(objects := objects + st.objects), s)
         == Run(st, s).(objects := objects + Run(st, s).objects)
    decreases |s|
  {
    if s != [] {
      var n := |s| - 1;
      RunKeepsObjects(objects, st, s[..n]);
      var r := Run(st, s[..n]);
      assert objects + (r.objects + [r.pending + [s[n]]])
          == (objects + r.objects) + [r.pending + [s[n]]];
    }
  }

  /** Rescanning the carried text restores the lexer exactly where it stood. */
  lemma {:induction false} Rescan(s: Text)
    ensures Run(START, Run(START, s).pending) == Run(START, s).(objects := [])
    decreases |s|
  {
    if s != [] {
      var n := |s| - 1;
      var r := Run(START, s[..n]);
      Rescan(s[..n]);
      var q := Next(r, s[n]);
      if q.pending == [] {
      } else {
        var k := |q.pending| - 1;
        assert q.pending[..k] == (if r.open.None? && s[n] == OPEN_BRACE then [] else r.pending);
        assert q.pending[k] == s[n];
      }
    }
  }

  /** One pass over `a + b` is a pass over `a`, then a pass over what `a` left with `b` appended. */
  lemma SplitResumes(a: Text, b: Text)
    ensures Split(a + b).objects == Split(a).objects + Split(Split(a).remainder + b).objects
    ensures Split(a + b).remainder == Split(Split(a).remainder + b).remainder
  {
    var r := Run(START, a);
    var blank := r.(objects := []);
    RunConcat(START, a, b);
    Rescan(a);
    RunConcat(START, r.pending, b);
    RunKeepsObjects(r.objects, blank, b);
    assert r.objects + blank.objects == r.objects;
  }

  function Flatten(chunks: seq<Text>): Text {
    if chunks == [] then [] else chunks[0] + Flatten(chunks[1..])
  }

  /** The carry loop: every chunk is appended to what the previous pass left. */
  function Feed(carry: Text, chunks: seq<Text>): (c: Cut)
    decreases |chunks|
  {
    if chunks == [] then Cut([], carry)
    else
      var c := Split(carry + chunks[0]);
      var rest := Feed(c.remainder, chunks[1..]);
      Cut(c.objects + rest.objects, rest.remainder)
  }

  lemma {:induction false} FeedIsSplit(carry: Text, chunks: seq<Text>)
    requires Split(carry) == Cut([], carry)
    ensures Feed(carry, chunks) == Split(carry + Flatten(chunks))
    decreases |chunks|
  {
    if chunks == [] {
      assert carry + Flatten(chunks) == carry;
    } else {
      var a := carry + chunks[0];
      Rescan(a);
      FeedIsSplit(Split(a).remainder, chunks[1..]);
      SplitResumes(a, Flatten(chunks[1..]));
      assert carry + Flatten(chunks) == a + Flatten(chunks[1..]);
    }
  }

  /** Whatever the chunk boundaries, the carry loop yields what one pass over the stream yields. */
  lemma ChunkingIsInvisible(chunks: seq<Text>)
    ensures Feed([], chunks) == Split(Flatten(chunks))
  {
    FeedIsSplit([], chunks);
    assert [] + Flatten(chunks) == Flatten(chunks);
  }

  // ---- Which texts come out ----

  /** One unit, or one escape, of a quoted string. */
  datatype QuotedUnit = Raw(u: CodeUnit) | Escaped(u: CodeUnit)

  /** A piece of an object's text: a plain unit, a quoted string, or a nested object. */
  datatype Piece =
    | Plain(u: CodeUnit)
    | Quoted(body: seq<QuotedUnit>)
    | Nested(pieces: seq<Piece>)

  function ShowQuoted(q: seq<QuotedUnit>): Text {
    if q == [] then []
    else (if q[0].Raw? then [q[0].u] else [BACKSLASH, q[0].u]) + ShowQuoted(q[1..])
  }

  predicate LegalQuoted(q: seq<QuotedUnit>) {
    forall i :: 0 <= i < |q| && q[i].Raw? ==> q[i].u != QUOTE && q[i].u != BACKSLASH
  }

  function Show(p: Piece): Text {
    match p
    case Plain(u) => [u]
    case Quoted(body) => [QUOTE] + ShowQuoted(body) + [QUOTE]
    case Nested(pieces) => [OPEN_BRACE] + ShowAll(pieces) + [CLOSE_BRACE]
  }

  function ShowAll(ps: seq<Piece>): Text {
    if ps == [] then [] else Show(ps[0]) + ShowAll(ps[1..])
  }

  predicate Legal(p: Piece) {
    match p
    case Plain(u) => u != QUOTE && u != OPEN_BRACE && u != CLOSE_BRACE
    case Quoted(body) => LegalQuoted(body)
    case Nested(pieces) => LegalAll(pieces)
  }

  predicate LegalAll(ps: seq<Piece>) {
    forall i :: 0 <= i < |ps| ==> Legal(ps[i])
  }

  lemma {:induction false} RunUnit(st: Scan, c: CodeUnit)
    requires Sound(st)
    ensures Run(st, [c]) == Next(st, c)
  {
    assert [c][..0] == [];
    assert Run(st, [c][..0]) == st;
  }

  function Inside(objects: seq<Text>, pending: Text, l: Lex): Scan {
    Scan(objects, pending, Some(l))
  }

  /** Reading `t` inside an object only moves the lexer from `a` to `b`. */
  ghost predicate Carries(t: Text, a: Lex, b: Lex)
    requires a.depth >= 1
  {
    forall o, p :: Run(Inside(o, p, a), t) == Inside(o, p + t, b)
  }

  lemma CarriesUnit(c: CodeUnit, a: Lex)
    requires a.depth >= 1 && Step(a, c).depth >= 1
    ensures Carries([c], a, Step(a, c))
  {
    forall o, p ensures Run(Inside(o, p, a), [c]) == Inside(o, p + [c], Step(a, c)) {
      RunUnit(Inside(o, p, a), c);
    }
  }

  lemma Carried(t: Text, a: Lex, b: Lex, o: seq<Text>, p: Text)
    requires a.depth >= 1 && Carries(t, a, b)
    ensures Run(Inside(o, p, a), t) == Inside(o, p + t, b)
  {
  }

  lemma CarriedOn(t: Text, u: Text, s: Scan, m: Scan, e: Scan)
    requires Sound(s) && Run(s, t) == m && Run(m, u) == e
    ensures Run(s, t + u) == e
  {
    RunConcat(s, t, u);
  }

  lemma CarriesConcat(t: Text, u: Text, a: Lex, b: Lex, c: Lex)
    requires a.depth >= 1 && b.depth >= 1 && Carries(t, a, b) && Carries(u, b, c)
    ensures Carries(t + u, a, c)
  {
    forall o: seq<Text>, p: Text
      ensures Run(Inside(o, p, a), t + u) == Inside(o, p + (t + u), c)
    {
      Carried(t, a, b, o, p);
      Carried(u, b, c, o, p + t);
      CarriedOn(t, u, Inside(o, p, a), Inside(o, p + t, b), Inside(o, p + t + u, c));
      Associates(p, t, u);
    }
  }

  lemma Associates(a: Text, b: Text, c: Text)
    ensures a + b + c == a + (b + c)
  {
  }

  lemma CarriesNothing(a: Lex)
    requires a.depth >= 1
    ensures Carries([], a, a)
  {
    forall o, p: Text ensures Run(Inside(o, p, a), []) == Inside(o, p + [], a) {
      assert p + [] == p;
    }
  }

  lemma {:induction false} QuotedCarries(q: seq<QuotedUnit>, d: nat)
    requires d >= 1 && LegalQuoted(q)
    ensures Carries(ShowQuoted(q), Lex(d, true, false), Lex(d, true, false))
    decreases |q|
  {
    var l := Lex(d, true, false);
    if q == [] {
      CarriesNothing(l);
    } else {
      QuotedCarries(q[1..], d);
      if q[0].Raw? {
        CarriesUnit(q[0].u, l);
        CarriesConcat([q[0].u], ShowQuoted(q[1..]), l, l, l);
      } else {
        CarriesUnit(BACKSLASH, l);
        CarriesUnit(q[0].u, l.(escaped := true));
        CarriesConcat([BACKSLASH], [q[0].u], l, l.(escaped := true), l);
        assert [BACKSLASH] + [q[0].u] == [BACKSLASH, q[0].u];
        CarriesConcat([BACKSLASH, q[0].u], ShowQuoted(q[1..]), l, l, l);
      }
    }
  }

  lemma CarriesEnclosed(open: CodeUnit, t: Text, close: CodeUnit, a: Lex, b: Lex)
    requires a.depth >= 1 && b.depth >= 1 && Step(a, open) == b && Step(b, close) == a && Carries(t, b, b)
    ensures Carries([open] + t + [close], a, a)
  {
    CarriesUnit(open, a);
    CarriesUnit(close, b);
    CarriesConcat([open], t, a, b, b);
    CarriesConcat([open] + t, [close], a, b, a);
  }

  lemma {:induction false} PieceCarries(piece: Piece, d: nat)
    requires d >= 1 && Legal(piece)
    ensures Carries(Show(piece), Lex(d, false, false), Lex(d, false, false))
    decreases piece, 1
  {
    var l := Lex(d, false, false);
    match piece {
      case Plain(u) =>
        CarriesUnit(u, l);
      case Quoted(body) =>
        QuotedCarries(body, d);
        CarriesEnclosed(QUOTE, ShowQuoted(body), QUOTE, l, Lex(d, true, false));
      case Nested(pieces) =>
        PiecesCarry(pieces, d + 1);
        CarriesEnclosed(OPEN_BRACE, ShowAll(pieces), CLOSE_BRACE, l, Lex(d + 1, false, false));
    }
  }

  lemma {:induction false} PiecesCarry(ps: seq<Piece>, d: nat)
    requires d >= 1 && LegalAll(ps)
    ensures Carries(ShowAll(ps), Lex(d, false, false), Lex(d, false, false))
    decreases ps, 0
  {
    var l := Lex(d, false, false);
    if ps == [] {
      CarriesNothing(l);
    } else {
      PieceCarries(ps[0], d);
      PiecesCarry(ps[1..], d);
      CarriesConcat(Show(ps[0]), ShowAll(ps[1..]), l, l, l);
    }
  }

  lemma {:induction false} RunFiller(f: Text, o: seq<Text>, p: Text)
    requires NoBrace(f)
    ensures Run(Scan(o, p, None), f) == Scan(o, p + f, None)
    decreases |f|
  {
    if f == [] {
      assert p + [] == p;
    } else {
      var n := |f| - 1;
      RunFiller(f[..n], o, p);
      assert p + f[..n] + [f[n]] == p + f;
    }
  }

  /** A whole object text closes exactly at its last brace, wherever it starts. */
  lemma RunObject(ps: seq<Piece>, o: seq<Text>, p: Text)
    requires LegalAll(ps)
    ensures Run(Scan(o, p, None), Show(Nested(ps))) == Scan(o + [Show(Nested(ps))], [], None)
  {
    var st, b := Scan(o, p, None), ShowAll(ps);
    RunConcat(st, [OPEN_BRACE] + b, [CLOSE_BRACE]);
    RunConcat(st, [OPEN_BRACE], b);
    RunUnit(st, OPEN_BRACE);
    PiecesCarry(ps, 1);
    assert Run(Inside(o, [OPEN_BRACE], AFTER_BRACE), b) == Inside(o, [OPEN_BRACE] + b, AFTER_BRACE);
    RunUnit(Inside(o, [OPEN_BRACE] + b, AFTER_BRACE), CLOSE_BRACE);
  }

  predicate NoBrace(s: Text) {
    forall i :: 0 <= i < |s| ==> s[i] != OPEN_BRACE
  }

  /** The objects, each behind its own filler, and a last filler. */
  function Stream(fillers: seq<Text>, objects: seq<seq<Piece>>, tail: Text): Text
    requires |fillers| == |objects|
  {
    if objects == [] then tail
    else fillers[0] + Show(Nested(objects[0])) + Stream(fillers[1..], objects[1..], tail)
  }

  function Texts(objects: seq<seq<Piece>>): seq<Text> {
    if objects == [] then [] else [Show(Nested(objects[0]))] + Texts(objects[1..])
  }

  lemma RunFilledObject(f: Text, ps: seq<Piece>, o: seq<Text>)
    requires NoBrace(f) && LegalAll(ps)
    ensures Run(Scan(o, [], None), f + Show(Nested(ps))) == Scan(o + [Show(Nested(ps))], [], None)
  {
    RunConcat(Scan(o, [], None), f, Show(Nested(ps)));
    RunFiller(f, o, []);
    RunObject(ps, o, [] + f);
  }

  lemma Joined(o: seq<Text>, t: Text, ts: seq<Text>)
    ensures o + [t] + ts == o + ([t] + ts)
  {
  }

  lemma {:induction false} RunStream(fillers: seq<Text>, objects: seq<seq<Piece>>, tail: Text, o: seq<Text>)
    requires |fillers| == |objects|
    requires forall i :: 0 <= i < |fillers| ==> NoBrace(fillers[i])
    requires forall i :: 0 <= i < |objects| ==> LegalAll(objects[i])
    requires NoBrace(tail)
    ensures Run(Scan(o, [], None), Stream(fillers, objects, tail)) == Scan(o + Texts(objects), tail, None)
    decreases |objects|
  {
    var st := Scan(o, [], None);
    if objects == [] {
      RunFiller(tail, o, []);
      assert [] + tail == tail && o + [] == o;
    } else {
      var f, t := fillers[0], Show(Nested(objects[0]));
      RunConcat(st, f + t, Stream(fillers[1..], objects[1..], tail));
      RunFilledObject(f, objects[0], o);
      RunStream(fillers[1..], objects[1..], tail, o + [t]);
      Joined(o, t, Texts(objects[1..]));
    }
  }

  /** Every list of object texts comes out whole and in order, and the last filler is what is left. */
  lemma SplitFindsObjects(fillers: seq<Text>, objects: seq<seq<Piece>>, tail: Text)
    requires |fillers| == |objects|
    requires forall i :: 0 <= i < |fillers| ==> NoBrace(fillers[i])
    requires forall i :: 0 <= i < |objects| ==> LegalAll(objects[i])
    requires NoBrace(tail)
    ensures Split(Stream(fillers, objects, tail)) == Cut(Texts(objects), tail)
    ensures Run(START, Stream(fillers, objects, tail)).open.None?
  {
    RunStream(fillers, objects, tail, []);
    assert [] + Texts(objects) == Texts(objects);
  }

  // ---- What comes out is cut from the stream ----

  /** Each filler, then its object. */
  function Interleave(fillers: seq<Text>, objects: seq<Text>): Text
    requires |fillers| == |objects|
  {
    if objects == [] then []
    else
      var n := |objects| - 1;
      Interleave(fillers[..n], objects[..n]) + (fillers[n] + objects[n])
  }

  lemma InterleaveSnoc(fillers: seq<Text>, objects: seq<Text>, f: Text, o: Text)
    requires |fillers| == |objects|
    ensures Interleave(fillers + [f], objects + [o]) == Interleave(fillers, objects) + (f + o)
  {
    assert (fillers + [f])[..|fillers|] == fillers && (objects + [o])[..|objects|] == objects;
  }

  lemma Longer(a: Text, f: Text, p: Text, c: CodeUnit)
    ensures a + (f + p) + [c] == a + (f + (p + [c]))
    ensures a + (f + p) + [c] == a + ((f + p) + ([c]))
  {
  }

  ghost predicate NoBraces(ts: seq<Text>) { forall i :: 0 <= i < |ts| ==> NoBrace(ts[i]) }

  /** The text read so far is the objects in order with brace-free text between them, then what is pending. */
  ghost predicate Cuts(s: Text, r: Scan, fillers: seq<Text>, f: Text) {
    && |fillers| == |r.objects| && NoBrace(f) && NoBraces(fillers)
    && s == Interleave(fillers, r.objects) + (f + r.pending)
    && (r.open.None? ==> f == [] && NoBrace(r.pending))
  }

  lemma Empty(a: Text)
    ensures a + ([] + []) == a && [] + a == a && a + [] == a
  {
  }

  lemma CloseCuts(s: Text, r: Scan, c: CodeUnit, fillers: seq<Text>, f: Text)
    requires Sound(r) && Cuts(s, r, fillers, f) && r.open.Some? && Step(r.open.value, c).depth == 0
    ensures Cuts(s + [c], Next(r, c), fillers + [f], [])
  {
    Longer(Interleave(fillers, r.objects), f, r.pending, c);
    InterleaveSnoc(fillers, r.objects, f, r.pending + [c]);
    Empty(Interleave(fillers + [f], r.objects + [r.pending + [c]]));
  }

  lemma CutNext(s: Text, r: Scan, c: CodeUnit, fillers: seq<Text>, f: Text) returns (gs: seq<Text>, g: Text)
    requires Sound(r) && Cuts(s, r, fillers, f)
    ensures Cuts(s + [c], Next(r, c), gs, g)
  {
    gs, g := fillers, f;
    Longer(Interleave(fillers, r.objects), f, r.pending, c);
    if r.open.None? {
      if c == OPEN_BRACE {
        g := r.pending;
        Empty(r.pending);
      }
    } else if Step(r.open.value, c).depth == 0 {
      CloseCuts(s, r, c, fillers, f);
      gs, g := fillers + [f], [];
    }
  }

  lemma {:induction false} RunCuts(s: Text) returns (fillers: seq<Text>, f: Text)
    ensures Cuts(s, Run(START, s), fillers, f)
    decreases |s|
  {
    if s == [] {
      fillers, f := [], [];
    } else {
      var n := |s| - 1;
      fillers, f := RunCuts(s[..n]);
      fillers, f := CutNext(s[..n], Run(START, s[..n]), s[n], fillers, f);
      assert s == s[..n] + [s[n]];
    }
  }

  /** The stream is the objects in order with brace-free text between them, then an open object or brace-free text. */
  lemma StreamIsCut(s: Text) returns (fillers: seq<Text>, f: Text)
    ensures |fillers| == |Split(s).objects| && NoBrace(f) && NoBraces(fillers)
    ensures s == Interleave(fillers, Split(s).objects) + (f + Split(s).remainder)
    ensures Run(START, s).open.None? ==> f == [] && NoBrace(Split(s).remainder)
  {
    fillers, f := RunCuts(s);
  }

  /** Every object returned is, by itself, exactly one object to the splitter. */
  lemma {:induction false} ObjectsAreClosed(s: Text, i: nat)
    requires i < |Split(s).objects|
    ensures Split(Split(s).objects[i]) == Cut([Split(s).objects[i]], [])
    decreases |s|
  {
    if s != [] {
      var n := |s| - 1;
      var r, c := Run(START, s[..n]), s[n];
      if i < |r.objects| {
        ObjectsAreClosed(s[..n], i);
      } else {
        Rescan(s[..n]);
        var o := r.pending + [c];
        assert o[..|o| - 1] == r.pending;
      }
    }
  }

  // ---- The loop ----

  datatype Extraction<V> = Malformed | Extracted(values: seq<V>, remainder: Text)

  function Values<V>(parse: Text -> Option<V>, objects: seq<Text>): (r: Option<seq<V>>)
  {
    if objects == [] then Some([])
    else
      var rest := Values(parse, objects[..|objects| - 1]);
      var last := parse(objects[|objects| - 1]);
      if rest.Some? && last.Some? then Some(rest.value + [last.value]) else None
  }

  lemma {:induction false} ValuesAre<V>(parse: Text -> Option<V>, objects: seq<Text>)
    ensures Values(parse, objects).Some? <==> forall i :: 0 <= i < |objects| ==> parse(objects[i]).Some?
    ensures var r := Values(parse, objects);
            r.Some? ==> && |r.value| == |objects|
                        && forall i :: 0 <= i < |objects| ==> parse(objects[i]) == Some(r.value[i])
  {
    if objects != [] {
      ValuesAre(parse, objects[..|objects| - 1]);
    }
  }

  lemma ValuesFrom<V>(parse: Text -> Option<V>, objects: seq<Text>, values: seq<V>)
    requires |objects| == |values| && forall i :: 0 <= i < |objects| ==> parse(objects[i]) == Some(values[i])
    ensures Values(parse, objects) == Some(values)
  {
    ValuesAre(parse, objects);
    var r := Values(parse, objects).value;
    forall i | 0 <= i < |objects| ensures r[i] == values[i] {
      assert parse(objects[i]) == Some(r[i]) && parse(objects[i]) == Some(values[i]);
    }
    assert r == values;
  }

  /** `JSON.parse` on every object of a cut; one failure fails the whole call. */
  function Interpret<V>(parse: Text -> Option<V>, c: Cut): Extraction<V> {
    var v := Values(parse, c.objects);
    if v.Some? then Extracted(v.value, c.remainder) else Malformed
  }

  lemma {:induction false} ValuesConcat<V>(parse: Text -> Option<V>, a: seq<Text>, b: seq<Text>)
    ensures var va, vb := Values(parse, a), Values(parse, b);
            Values(parse, a + b) == if va.Some? && vb.Some? then Some(va.value + vb.value) else None
    decreases |b|
  {
    var va, vb := Values(parse, a), Values(parse, b);
    if b == [] {
      assert a + b == a;
      assert va.Some? ==> va.value + [] == va.value;
    } else {
      var n := |b| - 1;
      assert (a + b)[..|a| + n] == a + b[..n];
      ValuesConcat(parse, a, b[..n]);
      var vn, last := Values(parse, b[..n]), parse(b[n]);
      if va.Some? && vn.Some? && last.Some? {
        assert va.value + (vn.value + [last.value]) == va.value + vn.value + [last.value];
      }
    }
  }

  /** The loop's variables describe a scan of the first `index` units. */
  ghost predicate Tracks(buffer: Text, index: int, start: int, consumed: int, l: Lex, st: Scan) {
    && 0 <= consumed <= index <= |buffer| && start < index && Sound(st)
    && (start < 0 ==> st.open == None && st.pending == buffer[consumed..index])
    && (start >= 0 ==> st.open == Some(l) && st.pending == buffer[start..index])
  }

  lemma RunsOn(buffer: Text, index: nat)
    requires index < |buffer|
    ensures Run(START, buffer[..index + 1]) == Next(Run(START, buffer[..index]), buffer[index])
  {
    assert buffer[..index + 1][..index] == buffer[..index] && buffer[..index + 1][index] == buffer[index];
  }

  lemma Grown(buffer: Text, from: nat, index: nat)
    requires from <= index < |buffer|
    ensures buffer[from..index] + [buffer[index]] == buffer[from..index + 1]
  {
  }

  lemma TracksNext(buffer: Text, index: int, start: int, consumed: int, l: Lex, st: Scan)
    requires Tracks(buffer, index, start, consumed, l, st) && index < |buffer|
    ensures start < 0 && buffer[index] == OPEN_BRACE
      ==> Tracks(buffer, index + 1, index, consumed, AFTER_BRACE, Next(st, buffer[index]))
    ensures start < 0 && buffer[index] != OPEN_BRACE
      ==> Tracks(buffer, index + 1, start, consumed, l, Next(st, buffer[index]))
    ensures start >= 0 && Step(l, buffer[index]).depth > 0
      ==> Tracks(buffer, index + 1, start, consumed, Step(l, buffer[index]), Next(st, buffer[index]))
    ensures start >= 0 && Step(l, buffer[index]).depth == 0
      ==> && Next(st, buffer[index]).objects == st.objects + [buffer[start..index + 1]]
          && Tracks(buffer, index + 1, -1, index + 1, Step(l, buffer[index]), Next(st, buffer[index]))
  {
    if start < 0 {
      Grown(buffer, consumed, index);
      assert [buffer[index]] == buffer[index..index + 1];
    } else {
      Grown(buffer, start, index);
    }
  }

  lemma ValuesSnoc<V>(parse: Text -> Option<V>, objects: seq<Text>, o: Text)
    ensures Values(parse, objects + [o]) ==
            var rest, last := Values(parse, objects), parse(o);
            if rest.Some? && last.Some? then Some(rest.value + [last.value]) else None
  {
    assert (objects + [o])[..|objects|] == objects;
  }

  /** `run` is the scan of each prefix of the buffer, one unit after the other. */
  ghost predicate Scans(run: nat -> Scan, buffer: Text) {
    && run(0) == START
    && forall i: nat {:trigger run(i + 1)} :: i < |buffer| ==> Sound(run(i)) && run(i + 1) == Next(run(i), buffer[i])
  }

  /** `read` is the values of a list of objects, one object after the other. */
  ghost predicate Reads<V>(read: seq<Text> -> Option<seq<V>>, parse: Text -> Option<V>) {
    && read([]) == Some([])
    && forall os: seq<Text>, o: Text {:trigger read(os + [o])} ::
         read(os + [o]) == if read(os).Some? && parse(o).Some? then Some(read(os).value + [parse(o).value]) else None
  }

  /** Scans the buffer once, keeping `start`, `depth`, `inString`, `escaped` and `consumed`. */
  method ScanBuffer<V>(ghost run: nat -> Scan, ghost read: seq<Text> -> Option<seq<V>>,
                       buffer: Text, parse: Text -> Option<V>)
    returns (r: Extraction<V>)
    requires Scans(run, buffer) && Reads(read, parse)
    ensures r.Malformed? ==> exists i: nat :: i <= |buffer| && read(run(i).objects).None?
    ensures r.Extracted? ==> read(run(|buffer|).objects) == Some(r.values) && run(|buffer|).pending == r.remainder
  {
    var values: seq<V> := [];
    var start, depth, inString, escaped, consumed := -1, 0, false, false, 0;
    var index := 0;
    while index < |buffer|
      invariant 0 <= depth && -1 <= start && (inString ==> start >= 0) && (escaped ==> inString)
      invariant 0 <= index && Tracks(buffer, index, start, consumed, Lex(depth, inString, escaped), run(index))
      invariant read(run(index).objects) == Some(values)
    {
      var c := buffer[index];
      TracksNext(buffer, index, start, consumed, Lex(depth, inString, escaped), run(index));
      index := index + 1;
      assert run(index) == Next(run(index - 1), c);
      if start < 0 {
        if c == OPEN_BRACE {
          start := index - 1;
          depth := 1;
        }
        continue;
      }
      if inString {
        if escaped { escaped := false; }
        else if c == BACKSLASH { escaped := true; }
        else if c == QUOTE { inString := false; }
        continue;
      }
      if c == QUOTE { inString := true; }
      else if c == OPEN_BRACE { depth := depth + 1; }
      else if c == CLOSE_BRACE {
        depth := depth - 1;
        if depth == 0 {
          var candidate := buffer[start..index];
          assert run(index).objects == run(index - 1).objects + [candidate];
          var v := parse(candidate);
          if v.None? {
            return Malformed;
          }
          values := values + [v.value];
          consumed := index;
          start := -1;
        }
      }
    }
    r := Extracted(values, if start >= 0 then buffer[start..] else buffer[consumed..]);
  }

  /** The prefix of a text, or all of it. */
  ghost function Prefix(s: Text, n: nat): Text { if n <= |s| then s[..n] else s }

  lemma RunScans(run: nat -> Scan, buffer: Text)
    requires forall i: nat :: run(i) == Run(START, Prefix(buffer, i))
    ensures Scans(run, buffer)
  {
    forall i: nat | i < |buffer|
      ensures Sound(run(i)) && run(i + 1) == Next(run(i), buffer[i])
    {
      RunsOn(buffer, i);
    }
  }

  lemma ValuesReads<V>(read: seq<Text> -> Option<seq<V>>, parse: Text -> Option<V>)
    requires forall os: seq<Text> :: read(os) == Values(parse, os)
    ensures Reads(read, parse)
  {
    forall os: seq<Text>, o: Text
      ensures read(os + [o]) ==
              if read(os).Some? && parse(o).Some? then Some(read(os).value + [parse(o).value]) else None
    {
      ValuesSnoc(parse, os, o);
    }
  }

  /** The loop computes the objects and the remainder of one pass, or fails when an object does not parse. */
  method JsonObjectsFromBuffer<V>(buffer: Text, parse: Text -> Option<V>) returns (r: Extraction<V>)
    ensures r == Interpret(parse, Split(buffer))
  {
    ghost var run := (i: nat) => Run(START, Prefix(buffer, i));
    ghost var read := (os: seq<Text>) => Values(parse, os);
    RunScans(run, buffer);
    ValuesReads(read, parse);
    r := ScanBuffer(run, read, buffer, parse);
    if r.Malformed? {
      ghost var i: nat :| i <= |buffer| && read(run(i).objects).None?;
      FailureSticks(parse, buffer, i);
    } else {
      assert Prefix(buffer, |buffer|) == buffer;
    }
  }

  /** An object that does not parse fails the call, whatever follows it. */
  lemma FailureSticks<V>(parse: Text -> Option<V>, buffer: Text, index: nat)
    requires index <= |buffer| && Values(parse, Run(START, buffer[..index]).objects).None?
    ensures Interpret(parse, Split(buffer)).Malformed?
  {
    SplitResumes(buffer[..index], buffer[index..]);
    assert buffer[..index] + buffer[index..] == buffer;
    var a := Split(buffer[..index]);
    ValuesConcat(parse, a.objects, Split(a.remainder + buffer[index..]).objects);
  }

  datatype Signal = Rejected | Waiting | Resolved

  /** The capture of one tail process: the carried text and the witnesses read so far. */
  class TailCapture<W> {
    const parse: Text -> Option<W>
    var buffer: Text
    var witnesses: seq<W>
    ghost var received: Text

    ghost predicate Valid()
      reads this
    {
      Interpret(parse, Split(received)) == Extracted(witnesses, buffer)
    }

    constructor (parse: Text -> Option<W>)
      ensures Valid() && this.parse == parse && received == []
    {
      this.parse := parse;
      buffer, witnesses, received := [], [], [];
    }

    /** Whatever chunks came before, the state is that of one call on everything received. */
    method OnData(chunk: Text) returns (signal: Signal)
      requires Valid()
      modifies this
      ensures received == old(received) + chunk
      ensures signal == Rejected
        <==> |old(buffer) + chunk| > MAX_CAPTURE || Interpret(parse, Split(received)).Malformed?
      ensures signal != Rejected ==> Valid() && (signal == Resolved <==> witnesses != [])
    {
      SplitResumes(received, chunk);
      ghost var carried := buffer;
      ghost var before := Split(received);
      received := received + chunk;
      buffer := buffer + chunk;
      if |buffer| > MAX_CAPTURE {
        return Rejected;
      }
      var extracted := JsonObjectsFromBuffer(buffer, parse);
      ValuesConcat(parse, before.objects, Split(carried + chunk).objects);
      if extracted.Malformed? {
        return Rejected;
      }
      buffer := extracted.remainder;
      witnesses := witnesses + extracted.values;
      return if witnesses != [] then Resolved else Waiting;
    }
  }
}
