/** The parser undoes the printer, so equal canonical text means equal value. */
module CanonicalJsonProofs {
  import opened Wrappers
  import opened JsText
  import opened Sorting
  import opened CanonicalJson

  // ---- Numbers and strings ----

  lemma {:induction false} ReadsDecimal(n: nat, rest: Text)
    ensures ReadDigits(Decimal(n) + rest, 0) == ReadDigits(rest, n)
  {
    if n < 10 {
      assert (Decimal(n) + rest)[1..] == rest;
    } else {
      var last := [48 + n % 10];
      ReadsDecimal(n / 10, last + rest);
      assert Decimal(n) + rest == Decimal(n / 10) + (last + rest);
      assert (last + rest)[1..] == rest;
    }
  }

  /** What may follow a number. */
  predicate Ends(rest: Text) {
    rest == [] || !IsDigit(rest[0])
  }

  lemma ReadsInt(n: int, rest: Text)
    requires Ends(rest)
    ensures ReadNumber(PrintInt(n) + rest) == Some((n, rest))
  {
    if n < 0 {
      ReadsDecimal(-n, rest);
      Negated(Decimal(-n), rest);
    } else {
      ReadsDecimal(n, rest);
    }
    DigitsEnd(rest, if n < 0 then -n else n);
  }

  lemma DigitsEnd(rest: Text, n: nat)
    requires Ends(rest)
    ensures ReadDigits(rest, n) == (n, rest)
  {
  }

  lemma Negated(d: Text, rest: Text)
    requires d != []
    ensures var t := [45] + d + rest; t[0] == 45 && |t| >= 2 && t[1] == d[0] && t[1..] == d + rest
  {
  }

  lemma ReadsHexDigit(d: nat)
    requires d < 16
    ensures HexValue(HexDigit(d)) == Some(d)
  {
  }

  lemma FourDigits(u: CodeUnit)
    ensures u / 4096 < 16
    ensures u / 4096 * 4096 + u / 256 % 16 * 256 + u / 16 % 16 * 16 + u % 16 == u
  {
    assert u / 256 == u / 4096 * 16 + u / 256 % 16;
    assert u / 16 == u / 256 * 16 + u / 16 % 16;
  }

  lemma ReadsHex4(u: CodeUnit)
    ensures ReadHex4(Hex4(u)) == Some(u)
  {
    FourDigits(u);
    ReadsHexDigit(u / 4096);
    ReadsHexDigit(u / 256 % 16);
    ReadsHexDigit(u / 16 % 16);
    ReadsHexDigit(u % 16);
  }

  lemma ReadsUnit(u: CodeUnit, rest: Text)
    ensures ReadUnit(EscapeUnit(u) + rest) == Some((u, rest))
  {
    var t := EscapeUnit(u) + rest;
    if ShortEscape(u).Some? {
      assert t[2..] == rest;
    } else if u < 32 || IsHigh(u) || IsLow(u) {
      ReadsHex4(u);
      assert t[2..6] == Hex4(u) && t[6..] == rest;
      assert t[0] == BACKSLASH && t[1] == 117 && |t| >= 6;
    } else {
      assert t[1..] == rest;
    }
  }

  lemma ReadStringUnit(t: Text, u: CodeUnit, rest: Text)
    requires ReadUnit(t) == Some((u, rest)) && ReadString(rest).Some?
    ensures ReadString(t) == Some(([u] + ReadString(rest).value.0, ReadString(rest).value.1))
  {
  }

  /** The body's text with its closing quote and what follows. */
  function Closed(body: Text, rest: Text): Text {
    body + ([QUOTE] + rest)
  }

  lemma ClosedConcat(a: Text, b: Text, rest: Text)
    ensures Closed(a + b, rest) == a + Closed(b, rest)
  {
  }

  lemma TwoUnits(h: CodeUnit, l: CodeUnit, tail: Text)
    ensures [h] + ([l] + tail) == [h, l] + tail
  {
  }

  lemma ReadsPair(h: CodeUnit, l: CodeUnit, tail: Text)
    requires IsHigh(h) && IsLow(l) && ReadString(tail).Some?
    ensures ReadString([h, l] + tail) == Some(([h, l] + ReadString(tail).value.0, ReadString(tail).value.1))
  {
    ReadsRaw(l, tail);
    ReadsRaw(h, [l] + tail);
    TwoUnits(h, l, tail);
    TwoUnits(h, l, ReadString(tail).value.0);
  }

  ghost predicate StringReadsBack(s: Text, rest: Text) {
    ReadString(Closed(Escape(s), rest)) == Some((s, rest))
  }

  lemma PairReadsOn(s: Text, rest: Text)
    requires |s| >= 2 && IsHigh(s[0]) && IsLow(s[1]) && StringReadsBack(s[2..], rest)
    ensures StringReadsBack(s, rest)
  {
    ClosedConcat([s[0], s[1]], Escape(s[2..]), rest);
    ReadsPair(s[0], s[1], Closed(Escape(s[2..]), rest));
    assert s == [s[0], s[1]] + s[2..];
  }

  lemma UnitReadsOn(s: Text, rest: Text)
    requires s != [] && !(|s| >= 2 && IsHigh(s[0]) && IsLow(s[1])) && StringReadsBack(s[1..], rest)
    ensures StringReadsBack(s, rest)
  {
    var tail := Closed(Escape(s[1..]), rest);
    ClosedConcat(EscapeUnit(s[0]), Escape(s[1..]), rest);
    ReadsUnit(s[0], tail);
    ReadStringUnit(EscapeUnit(s[0]) + tail, s[0], tail);
    assert s == [s[0]] + s[1..];
  }

  lemma {:induction false} ReadsString(s: Text, rest: Text)
    ensures ReadString(Closed(Escape(s), rest)) == Some((s, rest))
    decreases |s|
  {
    if s == [] {
      assert Closed([], rest) == [QUOTE] + rest && ([QUOTE] + rest)[1..] == rest;
    } else if |s| >= 2 && IsHigh(s[0]) && IsLow(s[1]) {
      ReadsString(s[2..], rest);
      PairReadsOn(s, rest);
    } else {
      ReadsString(s[1..], rest);
      UnitReadsOn(s, rest);
    }
  }

  lemma ReadsRaw(u: CodeUnit, tail: Text)
    requires u != QUOTE && u != BACKSLASH && ReadString(tail).Some?
    ensures ReadString([u] + tail) == Some(([u] + ReadString(tail).value.0, ReadString(tail).value.1))
  {
    assert ([u] + tail)[1..] == tail;
    ReadStringUnit([u] + tail, u, tail);
  }

  // ---- Values ----

  /** The parser reads the print of `v` back, up to member order. */
  ghost predicate ReadsBack(v: Json) {
    forall rest :: Ends(rest) ==> ReadValue(Print(v) + rest) == Some((Normal(v), rest))
  }

  lemma Reads(v: Json, rest: Text)
    requires ReadsBack(v) && Ends(rest)
    ensures ReadValue(Print(v) + rest) == Some((Normal(v), rest))
  {
  }

  lemma BracketTail(open: CodeUnit, body: Text, close: CodeUnit, rest: Text)
    ensures var t := [open] + body + [close] + rest;
            && t[0] == open && t[1..] == body + ([close] + rest)
            && t[1] == (if body == [] then close else body[0])
            && (body == [] ==> t[2..] == rest)
  {
  }

  lemma PrintHead(v: Json)
    ensures Print(v) != [] && Print(v)[0] != CLOSE_BRACKET
  {
    match v {
      case Null =>
      case Bool(_) =>
      case Num(n) => assert PrintInt(n)[0] != CLOSE_BRACKET;
      case Str(_) =>
      case Arr(_) =>
      case Obj(_) =>
    }
  }

  lemma ReadsWord(word: Text, v: Json, rest: Text)
    requires word != []
    ensures ReadLiteral(word + rest, word, v) == Some((v, rest)) && (word + rest)[0] == word[0]
  {
    assert (word + rest)[|word|..] == rest;
  }

  lemma ReadsStr(s: Text, rest: Text)
    ensures ReadValue(Quote(s) + rest) == Some((Str(s), rest))
  {
    var t := Quote(s) + rest;
    assert t[1..] == Closed(Escape(s), rest);
    ReadsString(s, rest);
  }

  lemma ReadsNum(n: SafeInt, rest: Text)
    requires Ends(rest)
    ensures ReadValue(PrintInt(n) + rest) == Some((Num(n), rest))
  {
    ReadsInt(n, rest);
  }

  lemma ReadsScalar(v: Json)
    requires !v.Arr? && !v.Obj?
    ensures ReadsBack(v)
  {
    forall rest: Text | Ends(rest)
      ensures ReadValue(Print(v) + rest) == Some((Normal(v), rest))
    {
      match v {
        case Null => ReadsWord(NULL, Null, rest);
        case Bool(b) => ReadsWord(if b then TRUE else FALSE, v, rest);
        case Num(n) => ReadsNum(n, rest);
        case Str(s) => ReadsStr(s, rest);
      }
    }
  }

  /** Separated texts and what ends them, seen from the first. */
  lemma JoinHead(parts: seq<Text>, end: Text)
    requires parts != []
    ensures Join(parts) + end
         == parts[0] + (if |parts| == 1 then end else [COMMA] + (Join(parts[1..]) + end))
  {
  }

  lemma ReadItemsLast(t: Text, v: Json, rest: Text)
    requires ReadValue(t) == Some((v, [CLOSE_BRACKET] + rest))
    ensures ReadItems(t) == Some(([v], rest))
  {
    assert ([CLOSE_BRACKET] + rest)[1..] == rest;
  }

  lemma ReadItemsMore(t: Text, v: Json, tail: Text, vs: seq<Json>, rest: Text)
    requires ReadValue(t) == Some((v, [COMMA] + tail)) && ReadItems(tail) == Some((vs, rest))
    ensures ReadItems(t) == Some(([v] + vs, rest))
  {
    assert ([COMMA] + tail)[1..] == tail;
  }

  lemma {:induction false} ReadsItems(items: seq<Json>, rest: Text)
    requires items != [] && forall i :: 0 <= i < |items| ==> ReadsBack(items[i])
    ensures ReadItems(Join(PrintAll(items)) + ([CLOSE_BRACKET] + rest)) == Some((NormalAll(items), rest))
    decreases |items|
  {
    var end := [CLOSE_BRACKET] + rest;
    var t := Join(PrintAll(items)) + end;
    JoinHead(PrintAll(items), end);
    if |items| == 1 {
      Reads(items[0], end);
      ReadItemsLast(t, Normal(items[0]), rest);
      assert NormalAll(items) == [Normal(items[0])];
    } else {
      var tail := Join(PrintAll(items[1..])) + end;
      assert PrintAll(items)[1..] == PrintAll(items[1..]);
      ReadsItems(items[1..], rest);
      Reads(items[0], [COMMA] + tail);
      ReadItemsMore(t, Normal(items[0]), tail, NormalAll(items[1..]), rest);
    }
  }

  /** A field and what follows it. */
  function FieldText(key: Text, v: Json, rest: Text): Text {
    Quote(key) + [COLON] + Print(v) + rest
  }

  lemma FieldTail(key: Text, value: Text, rest: Text)
    ensures var t := [QUOTE] + key + [QUOTE] + [COLON] + value + rest;
            t[0] == QUOTE && t[1..] == Closed(key, [COLON] + (value + rest))
    ensures ([COLON] + (value + rest))[1..] == value + rest
  {
  }

  lemma ReadsField(key: Text, v: Json, rest: Text)
    requires ReadsBack(v) && Ends(rest)
    ensures ReadField(FieldText(key, v, rest)) == Some(((key, Normal(v)), rest))
  {
    var t := FieldText(key, v, rest);
    var tail := [COLON] + (Print(v) + rest);
    FieldTail(Escape(key), Print(v), rest);
    ReadsString(key, tail);
  }

  lemma ReadMembersLast(t: Text, f: (Text, Json), rest: Text)
    requires ReadField(t) == Some((f, [CLOSE_BRACE] + rest))
    ensures ReadMembers(t) == Some(([f], rest))
  {
    assert ([CLOSE_BRACE] + rest)[1..] == rest;
  }

  lemma ReadMembersMore(t: Text, f: (Text, Json), tail: Text, fs: seq<(Text, Json)>, rest: Text)
    requires ReadField(t) == Some((f, [COMMA] + tail)) && ReadMembers(tail) == Some((fs, rest))
    ensures ReadMembers(t) == Some(([f] + fs, rest))
  {
    assert ([COMMA] + tail)[1..] == tail;
  }

  lemma {:induction false} ReadsMembers(members: seq<(Text, Json)>, rest: Text)
    requires members != [] && forall i :: 0 <= i < |members| ==> ReadsBack(members[i].1)
    ensures ReadMembers(Join(Fields(PrintMembers(members))) + ([CLOSE_BRACE] + rest))
            == Some((NormalMembers(members), rest))
    decreases |members|
  {
    var parts, end := Fields(PrintMembers(members)), [CLOSE_BRACE] + rest;
    var t := Join(parts) + end;
    var key, v := members[0].0, members[0].1;
    JoinHead(parts, end);
    if |members| == 1 {
      ReadsField(key, v, end);
      ReadMembersLast(t, (key, Normal(v)), rest);
      assert NormalMembers(members) == [(key, Normal(v))];
    } else {
      var tail := Join(Fields(PrintMembers(members[1..]))) + end;
      assert parts[1..] == Fields(PrintMembers(members[1..]));
      ReadsMembers(members[1..], rest);
      ReadsField(key, v, [COMMA] + tail);
      ReadMembersMore(t, (key, Normal(v)), tail, NormalMembers(members[1..]), rest);
    }
  }

  lemma SortedPrint(members: seq<(Text, Json)>)
    ensures SortByKey(PrintMembers(members), TextLeq) == PrintMembers(SortByKey(members, TextLeq))
  {
    SortAligned(members, PrintMembers(members), TextLeq, (v: Json, t: Text) => t == Print(v));
  }

  lemma SortedNormal(members: seq<(Text, Json)>)
    ensures SortByKey(NormalMembers(members), TextLeq) == NormalMembers(SortByKey(members, TextLeq))
  {
    SortAligned(members, NormalMembers(members), TextLeq, (v: Json, w: Json) => w == Normal(v));
  }

  lemma ReadsArray(items: seq<Json>)
    requires forall i :: 0 <= i < |items| ==> ReadsBack(items[i])
    ensures ReadsBack(Arr(items))
  {
    forall rest: Text | Ends(rest) ensures ReadValue(Print(Arr(items)) + rest) == Some((Normal(Arr(items)), rest)) {
      var t, body := Print(Arr(items)) + rest, Join(PrintAll(items));
      BracketTail(OPEN_BRACKET, body, CLOSE_BRACKET, rest);
      if items != [] {
        PrintHead(items[0]);
        assert body[0] == Print(items[0])[0];
        ReadsItems(items, rest);
      }
    }
  }

  lemma ReadsSorted(members: seq<(Text, Json)>)
    requires forall i :: 0 <= i < |members| ==> ReadsBack(members[i].1)
    ensures forall i :: 0 <= i < |members| ==> ReadsBack(SortByKey(members, TextLeq)[i].1)
  {
    var sorted := SortByKey(members, TextLeq);
    SortPermutes(members, TextLeq);
    forall i | 0 <= i < |sorted| ensures ReadsBack(sorted[i].1) {
      SameMembers(members, sorted, sorted[i]);
    }
  }

  lemma FieldsHead(s: seq<(Text, Text)>)
    requires s != []
    ensures Join(Fields(s)) != [] && Join(Fields(s))[0] == QUOTE
  {
    assert Fields(s)[0] == Quote(s[0].0) + [COLON] + s[0].1;
  }

  /** An object is read by reading its members, when there are some. */
  lemma ReadsBody(body: Text, rest: Text, members: seq<(Text, Json)>)
    requires body != [] && body[0] == QUOTE && ReadMembers(body + ([CLOSE_BRACE] + rest)) == Some((members, rest))
    ensures ReadValue([OPEN_BRACE] + body + [CLOSE_BRACE] + rest) == Some((Obj(members), rest))
  {
    BracketTail(OPEN_BRACE, body, CLOSE_BRACE, rest);
  }

  lemma ReadsNoMembers(rest: Text)
    ensures ReadValue([OPEN_BRACE] + [] + [CLOSE_BRACE] + rest) == Some((Obj([]), rest))
  {
    BracketTail(OPEN_BRACE, [], CLOSE_BRACE, rest);
  }

  lemma ReadsBraced(members: seq<(Text, Json)>, rest: Text)
    requires forall i :: 0 <= i < |members| ==> ReadsBack(members[i].1)
    ensures ReadValue([OPEN_BRACE] + Join(Fields(PrintMembers(members))) + [CLOSE_BRACE] + rest)
         == Some((Obj(NormalMembers(members)), rest))
  {
    if members == [] {
      ReadsNoMembers(rest);
      assert Join(Fields(PrintMembers(members))) == [];
    } else {
      FieldsHead(PrintMembers(members));
      ReadsMembers(members, rest);
      ReadsBody(Join(Fields(PrintMembers(members))), rest, NormalMembers(members));
    }
  }

  lemma ReadsObject(members: seq<(Text, Json)>)
    requires forall i :: 0 <= i < |members| ==> ReadsBack(members[i].1)
    ensures ReadsBack(Obj(members))
  {
    SortedPrint(members);
    SortedNormal(members);
    ReadsSorted(members);
    forall rest: Text | Ends(rest) ensures ReadValue(Print(Obj(members)) + rest) == Some((Normal(Obj(members)), rest)) {
      ReadsBraced(SortByKey(members, TextLeq), rest);
    }
  }

  lemma {:induction false} EveryValueReadsBack(v: Json)
    ensures ReadsBack(v)
  {
    match v {
      case Arr(items) =>
        forall i | 0 <= i < |items| ensures ReadsBack(items[i]) { EveryValueReadsBack(items[i]); }
        ReadsArray(items);
      case Obj(members) =>
        forall i | 0 <= i < |members| ensures ReadsBack(members[i].1) {
          assert members[i].1 < members[i];
          EveryValueReadsBack(members[i].1);
        }
        ReadsObject(members);
      case _ => ReadsScalar(v);
    }
  }

  /** Parsing the canonical text gives the value back with its members in key order. */
  lemma ParsePrint(v: Json)
    ensures Parse(Print(v)) == Some(Normal(v))
  {
    EveryValueReadsBack(v);
    assert Print(v) + [] == Print(v);
  }

  // ---- Equal text, equal value ----

  /** No object repeats a key. */
  ghost predicate Proper(v: Json) {
    match v
    case Arr(items) => forall i :: 0 <= i < |items| ==> Proper(items[i])
    case Obj(members) =>
      && DistinctKeys(members)
      && forall i :: 0 <= i < |members| ==> assert members[i].1 < members[i]; Proper(members[i].1)
    case _ => true
  }

  /** The same value: arrays element by element, objects key by key. */
  ghost predicate SameValue(v: Json, w: Json) {
    if v.Arr? && w.Arr? then
      |v.items| == |w.items| && forall i :: 0 <= i < |v.items| ==> SameValue(v.items[i], w.items[i])
    else if v.Obj? && w.Obj? then
      && |v.members| == |w.members|
      && forall i :: 0 <= i < |v.members| ==>
           assert v.members[i].1 < v.members[i];
           exists j :: && 0 <= j < |w.members| && v.members[i].0 == w.members[j].0
                       && SameValue(v.members[i].1, w.members[j].1)
    else v == w
  }

  lemma TextOrder()
    ensures TotalOrder<Text>(TextLeq)
  {
    forall a: Text, b: Text
      ensures TextLeq(a, b) || TextLeq(b, a)
      ensures TextLeq(a, b) && TextLeq(b, a) ==> a == b
    {
      LexTotal(a, b);
    }
    forall a: Text, b: Text, c: Text | TextLeq(a, b) && TextLeq(b, c) ensures TextLeq(a, c) {
      LexTransitive(a, b, c);
    }
  }

  lemma SameMembersPrint(a: seq<(Text, Json)>, b: seq<(Text, Json)>)
    requires |a| == |b| && DistinctKeys(a) && DistinctKeys(b)
    requires forall i :: 0 <= i < |a| ==> PrintMembers(a)[i] in PrintMembers(b)
    ensures SortByKey(PrintMembers(a), TextLeq) == SortByKey(PrintMembers(b), TextLeq)
  {
    SubsetIsPermutation(PrintMembers(a), PrintMembers(b));
    TextOrder();
    SortIgnoresOrder(PrintMembers(a), PrintMembers(b), TextLeq);
  }

  lemma {:induction false} SameValuePrints(v: Json, w: Json)
    requires Proper(v) && Proper(w) && SameValue(v, w)
    ensures Print(v) == Print(w)
  {
    if v.Arr? {
      forall i | 0 <= i < |v.items| ensures Print(v.items[i]) == Print(w.items[i]) {
        SameValuePrints(v.items[i], w.items[i]);
      }
      assert PrintAll(v.items) == PrintAll(w.items);
    } else if v.Obj? {
      var a, b := v.members, w.members;
      forall i | 0 <= i < |a| ensures PrintMembers(a)[i] in PrintMembers(b) {
        assert a[i].1 < a[i];
        var j :| 0 <= j < |b| && a[i].0 == b[j].0 && SameValue(a[i].1, b[j].1);
        SameValuePrints(a[i].1, b[j].1);
        assert PrintMembers(a)[i] == PrintMembers(b)[j];
      }
      SameMembersPrint(a, b);
    }
  }

  lemma NormalMemberIn(a: seq<(Text, Json)>, b: seq<(Text, Json)>, i: nat) returns (j: nat)
    requires i < |a| && SortByKey(NormalMembers(a), TextLeq) == SortByKey(NormalMembers(b), TextLeq)
    ensures j < |b| && a[i].0 == b[j].0 && Normal(a[i].1) == Normal(b[j].1)
  {
    var x := NormalMembers(a)[i];
    SortPermutes(NormalMembers(a), TextLeq);
    SortPermutes(NormalMembers(b), TextLeq);
    SameMembers(NormalMembers(a), NormalMembers(b), x);
    j :| 0 <= j < |b| && NormalMembers(b)[j] == x;
  }

  lemma {:induction false} SameNormalSameValue(v: Json, w: Json)
    requires Normal(v) == Normal(w)
    ensures SameValue(v, w)
  {
    if v.Arr? {
      forall i | 0 <= i < |v.items| ensures SameValue(v.items[i], w.items[i]) {
        assert NormalAll(v.items)[i] == NormalAll(w.items)[i];
        SameNormalSameValue(v.items[i], w.items[i]);
      }
    } else if v.Obj? {
      var a, b := v.members, w.members;
      assert |SortByKey(NormalMembers(a), TextLeq)| == |a| && |SortByKey(NormalMembers(b), TextLeq)| == |b|;
      forall i | 0 <= i < |a|
        ensures exists j :: 0 <= j < |b| && a[i].0 == b[j].0 && SameValue(a[i].1, b[j].1)
      {
        var j := NormalMemberIn(a, b, i);
        assert a[i].1 < a[i];
        SameNormalSameValue(a[i].1, b[j].1);
      }
    }
  }

  lemma {:induction false} NormalTwice(v: Json)
    ensures Normal(Normal(v)) == Normal(v)
  {
    match v {
      case Arr(items) =>
        forall i | 0 <= i < |items|
          ensures Normal(NormalAll(items)[i]) == NormalAll(items)[i]
        {
          NormalTwice(items[i]);
        }
        assert NormalAll(NormalAll(items)) == NormalAll(items);
      case Obj(members) =>
        var ns := NormalMembers(members);
        forall i | 0 <= i < |members| ensures Normal(ns[i].1) == ns[i].1 {
          assert members[i].1 < members[i];
          NormalTwice(members[i].1);
        }
        assert NormalMembers(ns) == ns;
        SortedNormal(ns);
        TextOrder();
        SortSorts(ns, TextLeq);
        SortIdempotent(SortByKey(ns, TextLeq), TextLeq);
      case _ =>
    }
  }

  lemma {:induction false} NormalIsProper(v: Json)
    requires Proper(v)
    ensures Proper(Normal(v))
  {
    match v {
      case Arr(items) =>
        forall i | 0 <= i < |items| ensures Proper(NormalAll(items)[i]) { NormalIsProper(items[i]); }
      case Obj(members) =>
        var ns := NormalMembers(members);
        var sorted := SortByKey(ns, TextLeq);
        SortPermutes(ns, TextLeq);
        SortDistinct(ns, TextLeq);
        forall i | 0 <= i < |sorted| ensures Proper(sorted[i].1) {
          SameMembers(ns, sorted, sorted[i]);
          var j :| 0 <= j < |ns| && ns[j] == sorted[i];
          assert members[j].1 < members[j];
          NormalIsProper(members[j].1);
        }
      case _ =>
    }
  }

  /** Canonical text ignores member order and nothing else. */
  lemma PrintDecidesValue(v: Json, w: Json)
    requires Proper(v) && Proper(w)
    ensures Print(v) == Print(w) <==> SameValue(v, w)
  {
    if Print(v) == Print(w) {
      ParsePrint(v);
      ParsePrint(w);
      SameNormalSameValue(v, w);
    }
    if SameValue(v, w) {
      SameValuePrints(v, w);
    }
  }

  // ---- The members come out in ascending order ----

  /** A proper prefix, or a smaller code unit at the first place where the two differ. */
  predicate Precedes(a: Text, b: Text) {
    || (|a| < |b| && a == b[..|a|])
    || exists k :: 0 <= k < |a| && k < |b| && a[..k] == b[..k] && a[k] < b[k]
  }

  /** The keys of every object, at every depth, ascend. */
  ghost predicate InOrder(v: Json) {
    match v
    case Arr(items) => forall i :: 0 <= i < |items| ==> InOrder(items[i])
    case Obj(members) =>
      && (forall i, j :: 0 <= i < j < |members| ==> Precedes(members[i].0, members[j].0))
      && forall i :: 0 <= i < |members| ==> assert members[i].1 < members[i]; InOrder(members[i].1)
    case _ => true
  }

  lemma PrecedesOn(a: Text, b: Text)
    requires a != [] && b != [] && a[0] == b[0] && Precedes(a[1..], b[1..])
    ensures Precedes(a, b)
  {
    var x, y := a[1..], b[1..];
    assert a == [a[0]] + x && b == [b[0]] + y;
    if |x| < |y| && x == y[..|x|] {
      assert b[..|a|] == [b[0]] + y[..|x|];
    } else {
      var k :| 0 <= k < |x| && k < |y| && x[..k] == y[..k] && x[k] < y[k];
      assert a[..k + 1] == [a[0]] + x[..k] && b[..k + 1] == [b[0]] + y[..k];
      assert a[k + 1] < b[k + 1];
    }
  }

  lemma {:induction false} LeqPrecedes(a: Text, b: Text)
    requires LexLeq(a, b) && a != b
    ensures Precedes(a, b)
    decreases |a|
  {
    if a == [] {
      assert b[..0] == [];
    } else if a[0] == b[0] {
      assert a == [a[0]] + a[1..] && b == [b[0]] + b[1..];
      LeqPrecedes(a[1..], b[1..]);
      PrecedesOn(a, b);
    } else {
      assert a[..0] == b[..0] && a[0] < b[0];
    }
  }

  lemma SortedAscends(ns: seq<(Text, Json)>, i: nat, j: nat)
    requires DistinctKeys(ns) && i < j < |ns|
    ensures Precedes(SortByKey(ns, TextLeq)[i].0, SortByKey(ns, TextLeq)[j].0)
  {
    TextOrder();
    SortSorts(ns, TextLeq);
    SortDistinct(ns, TextLeq);
    LeqPrecedes(SortByKey(ns, TextLeq)[i].0, SortByKey(ns, TextLeq)[j].0);
  }

  lemma {:induction false} NormalInOrder(v: Json)
    requires Proper(v)
    ensures InOrder(Normal(v))
  {
    match v {
      case Arr(items) =>
        forall i | 0 <= i < |items| ensures InOrder(NormalAll(items)[i]) { NormalInOrder(items[i]); }
      case Obj(members) =>
        var ns := NormalMembers(members);
        var sorted := SortByKey(ns, TextLeq);
        SortPermutes(ns, TextLeq);
        forall i, j | 0 <= i < j < |sorted|
          ensures Precedes(sorted[i].0, sorted[j].0)
        {
          SortedAscends(ns, i, j);
        }
        forall i | 0 <= i < |sorted|
          ensures InOrder(sorted[i].1)
        {
          SameMembers(ns, sorted, sorted[i]);
          var j :| 0 <= j < |ns| && ns[j] == sorted[i];
          assert members[j].1 < members[j];
          NormalInOrder(members[j].1);
        }
      case _ =>
    }
  }

  /** Read back, canonical text gives the same value with the keys of every object in ascending code-unit order. */
  lemma PrintIsInOrder(v: Json)
    requires Proper(v)
    ensures Parse(Print(v)).Some? && InOrder(Parse(Print(v)).value) && SameValue(v, Parse(Print(v)).value)
  {
    ParsePrint(v);
    NormalInOrder(v);
    NormalTwice(v);
    SameNormalSameValue(v, Normal(v));
  }

  // ---- What is escaped ----

  /** The lower-case hexadecimal digits of a code unit, most significant first. */
  predicate IsHex4(t: Text, u: CodeUnit) {
    && |t| == 4 && (forall i :: 0 <= i < 4 ==> 48 <= t[i] <= 57 || 97 <= t[i] <= 102)
    && HexOf(t[0]) * 4096 + HexOf(t[1]) * 256 + HexOf(t[2]) * 16 + HexOf(t[3]) == u
  }

  function HexOf(c: CodeUnit): int { if c <= 57 then c - 48 else c - 87 }

  lemma EscapedAsHex(u: CodeUnit, e: Text)
    requires e == [92, 117] + Hex4(u)
    ensures |e| == 6 && e[..2] == [92, 117] && IsHex4(e[2..], u)
  {
    FourDigits(u);
    assert e[2..] == Hex4(u);
  }

  /** Quote, backslash and five controls have short forms; other controls and lone surrogates are spelled out. */
  lemma EscapeUnitIs(u: CodeUnit)
    ensures u == 34 || u == 92 ==> EscapeUnit(u) == [92, u]
    ensures u == 8 ==> EscapeUnit(u) == [92, 98]
    ensures u == 9 ==> EscapeUnit(u) == [92, 116]
    ensures u == 10 ==> EscapeUnit(u) == [92, 110]
    ensures u == 12 ==> EscapeUnit(u) == [92, 102]
    ensures u == 13 ==> EscapeUnit(u) == [92, 114]
    ensures (u < 32 && u !in {8, 9, 10, 12, 13}) || 0xD800 <= u <= 0xDFFF ==>
              |EscapeUnit(u)| == 6 && EscapeUnit(u)[..2] == [92, 117] && IsHex4(EscapeUnit(u)[2..], u)
    ensures u >= 32 && u != 34 && u != 92 && !(0xD800 <= u <= 0xDFFF) ==> EscapeUnit(u) == [u]
  {
    if (u < 32 && u !in {8, 9, 10, 12, 13}) || 0xD800 <= u <= 0xDFFF {
      EscapedAsHex(u, EscapeUnit(u));
    }
  }

  /** A string of paired surrogates without quotes, backslashes and controls is its own escape. */
  lemma {:induction false} PlainStays(s: Text)
    requires WellFormed(s) && forall i :: 0 <= i < |s| ==> s[i] >= 32 && s[i] != 34 && s[i] != 92
    ensures Escape(s) == s
    decreases |s|
  {
    if |s| >= 2 && IsHigh(s[0]) && IsLow(s[1]) {
      PlainStays(s[2..]);
      assert s == [s[0], s[1]] + s[2..];
    } else if s != [] {
      EscapeUnitIs(s[0]);
      PlainStays(s[1..]);
      assert s == [s[0]] + s[1..];
    }
  }

  // ---- The text survives UTF-8 ----

  /** Every surrogate is part of a pair, so encoding the text as UTF-8 loses nothing. */
  predicate WellFormed(t: Text)
    decreases |t|
  {
    if t == [] then true
    else if |t| >= 2 && IsHigh(t[0]) && IsLow(t[1]) then WellFormed(t[2..])
    else !IsHigh(t[0]) && !IsLow(t[0]) && WellFormed(t[1..])
  }

  predicate Plain(t: Text) {
    forall i :: 0 <= i < |t| ==> t[i] < 0xD800
  }

  lemma {:induction false} PlainIsWellFormed(t: Text)
    requires Plain(t)
    ensures WellFormed(t)
    decreases |t|
  {
    if t != [] {
      PlainIsWellFormed(t[1..]);
    }
  }

  lemma Dropped(a: Text, b: Text, n: nat)
    requires 0 < n <= |a|
    ensures (a + b)[n..] == a[n..] + b && (a + b)[..n] == a[..n]
    ensures forall i :: 0 <= i < n ==> (a + b)[i] == a[i]
  {
  }

  lemma {:induction false} WellFormedConcat(a: Text, b: Text)
    requires WellFormed(a) && WellFormed(b)
    ensures WellFormed(a + b)
    decreases |a|
  {
    if a == [] {
      assert a + b == b;
    } else if |a| >= 2 && IsHigh(a[0]) && IsLow(a[1]) {
      WellFormedConcat(a[2..], b);
      Dropped(a, b, 2);
    } else {
      WellFormedConcat(a[1..], b);
      Dropped(a, b, 1);
    }
  }

  lemma {:induction false} EscapeIsWellFormed(s: Text)
    ensures WellFormed(Escape(s))
    decreases |s|
  {
    if s == [] {
    } else if |s| >= 2 && IsHigh(s[0]) && IsLow(s[1]) {
      EscapeIsWellFormed(s[2..]);
      assert Escape(s)[2..] == Escape(s[2..]);
    } else {
      EscapeIsWellFormed(s[1..]);
      EscapedUnitIsWellFormed(s[0]);
      WellFormedConcat(EscapeUnit(s[0]), Escape(s[1..]));
    }
  }

  lemma EscapedUnitIsWellFormed(u: CodeUnit)
    ensures WellFormed(EscapeUnit(u))
  {
    if ShortEscape(u).Some? || u < 32 || IsHigh(u) || IsLow(u) {
      PlainIsWellFormed(EscapeUnit(u));
    } else {
      assert EscapeUnit(u)[1..] == [];
    }
  }

  lemma EnclosedIsWellFormed(open: CodeUnit, body: Text, close: CodeUnit)
    requires open < 0xD800 && close < 0xD800 && WellFormed(body)
    ensures WellFormed([open] + body + [close])
  {
    PlainIsWellFormed([open]);
    PlainIsWellFormed([close]);
    WellFormedConcat([open], body);
    WellFormedConcat([open] + body, [close]);
  }

  lemma {:induction false} JoinIsWellFormed(parts: seq<Text>)
    requires forall i :: 0 <= i < |parts| ==> WellFormed(parts[i])
    ensures WellFormed(Join(parts))
    decreases |parts|
  {
    if |parts| > 1 {
      JoinIsWellFormed(parts[1..]);
      PlainIsWellFormed([COMMA]);
      WellFormedConcat(parts[0], [COMMA]);
      WellFormedConcat(parts[0] + [COMMA], Join(parts[1..]));
    }
  }

  lemma FieldIsWellFormed(key: Text, value: Text)
    requires WellFormed(value)
    ensures WellFormed(Quote(key) + [COLON] + value)
  {
    EscapeIsWellFormed(key);
    EnclosedIsWellFormed(QUOTE, Escape(key), QUOTE);
    PlainIsWellFormed([COLON]);
    WellFormedConcat(Quote(key), [COLON]);
    WellFormedConcat(Quote(key) + [COLON], value);
  }

  lemma {:induction false} DecimalIsPlain(n: nat)
    ensures Plain(Decimal(n))
  {
    if n >= 10 {
      DecimalIsPlain(n / 10);
    }
  }

  /** Canonical text never holds a lone surrogate, even when its strings do. */
  lemma {:induction false} PrintIsWellFormed(v: Json)
    ensures WellFormed(Print(v))
  {
    match v {
      case Null => PlainIsWellFormed(NULL);
      case Bool(b) => PlainIsWellFormed(Print(v));
      case Num(n) =>
        DecimalIsPlain(if n < 0 then -n else n);
        PlainIsWellFormed(PrintInt(n));
      case Str(s) =>
        EscapeIsWellFormed(s);
        EnclosedIsWellFormed(QUOTE, Escape(s), QUOTE);
      case Arr(items) =>
        forall i | 0 <= i < |items| ensures WellFormed(PrintAll(items)[i]) { PrintIsWellFormed(items[i]); }
        JoinIsWellFormed(PrintAll(items));
        EnclosedIsWellFormed(OPEN_BRACKET, Join(PrintAll(items)), CLOSE_BRACKET);
      case Obj(members) =>
        var sorted := SortByKey(PrintMembers(members), TextLeq);
        SortPermutes(PrintMembers(members), TextLeq);
        forall i | 0 <= i < |sorted| ensures WellFormed(Fields(sorted)[i]) {
          SameMembers(PrintMembers(members), sorted, sorted[i]);
          var j :| 0 <= j < |members| && PrintMembers(members)[j] == sorted[i];
          assert members[j].1 < members[j];
          PrintIsWellFormed(members[j].1);
          FieldIsWellFormed(sorted[i].0, sorted[i].1);
        }
        JoinIsWellFormed(Fields(sorted));
        EnclosedIsWellFormed(OPEN_BRACE, Join(Fields(sorted)), CLOSE_BRACE);
    }
  }
}
