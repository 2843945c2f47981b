/** The canonical JSON printer, a parser that undoes it, and what equal output means. */
module CanonicalJson {
  import opened Wrappers
  import opened JsText
  import opened Sorting

  const MAX_SAFE := 0x1F_FFFF_FFFF_FFFF

  type SafeInt = n: int | -MAX_SAFE <= n <= MAX_SAFE

  /** JSON values; members are in insertion order. */
  datatype Json =
    | Null
    | Bool(b: bool)
    | Num(n: SafeInt)
    | Str(s: Text)
    | Arr(items: seq<Json>)
    | Obj(members: seq<(Text, Json)>)

  /** An object with this value under this name. */
  ghost predicate Has(v: Json, name: string, w: Json) { v.Obj? && (Ascii(name), w) in v.members }

  const NULL: Text := [110, 117, 108, 108]
  const TRUE: Text := [116, 114, 117, 101]
  const FALSE: Text := [102, 97, 108, 115, 101]

  // ---- Numbers ----

  predicate IsDigit(c: CodeUnit) { 48 <= c <= 57 }

  function Decimal(n: nat): (t: Text)
    ensures t != [] && IsDigit(t[0])
  {
    if n < 10 then [48 + n] else Decimal(n / 10) + [48 + n % 10]
  }

  function PrintInt(n: int): (t: Text)
    ensures t != [] && (t[0] == 45 || IsDigit(t[0]))
  {
    if n < 0 then [45] + Decimal(-n) else Decimal(n)
  }

  // ---- Strings ----

  predicate IsHigh(u: CodeUnit) { 0xD800 <= u < 0xDC00 }
  predicate IsLow(u: CodeUnit) { 0xDC00 <= u < 0xE000 }

  function HexDigit(d: nat): (c: CodeUnit)
    requires d < 16
  {
    if d < 10 then 48 + d else 87 + d
  }

  function Hex4(u: CodeUnit): (t: Text)
    ensures |t| == 4
  {
    [HexDigit(u / 4096), HexDigit(u / 256 % 16), HexDigit(u / 16 % 16), HexDigit(u % 16)]
  }

  /** The letter of a two-character escape, for the units that have one. */
  function ShortEscape(u: CodeUnit): Option<CodeUnit> {
    if u == 34 then Some(34)
    else if u == 92 then Some(92)
    else if u == 8 then Some(98)
    else if u == 9 then Some(116)
    else if u == 10 then Some(110)
    else if u == 12 then Some(102)
    else if u == 13 then Some(114)
    else None
  }

  function EscapeUnit(u: CodeUnit): (t: Text)
    ensures t != []
  {
    if ShortEscape(u).Some? then [BACKSLASH, ShortEscape(u).value]
    else if u < 32 || IsHigh(u) || IsLow(u) then [BACKSLASH, 117] + Hex4(u)
    else [u]
  }

  /** Surrogate pairs are kept; a surrogate outside a pair is escaped. */
  function Escape(s: Text): Text
    decreases |s|
  {
    if s == [] then []
    else if |s| >= 2 && IsHigh(s[0]) && IsLow(s[1]) then [s[0], s[1]] + Escape(s[2..])
    else EscapeUnit(s[0]) + Escape(s[1..])
  }

  function Quote(s: Text): Text {
    [QUOTE] + Escape(s) + [QUOTE]
  }

  // ---- The printer ----

  /** JavaScript's order on strings. */
  predicate TextLeq(a: Text, b: Text) {
    LexLeq(a, b)
  }

  function Join(parts: seq<Text>): Text {
    if parts == [] then []
    else if |parts| == 1 then parts[0]
    else parts[0] + [COMMA] + Join(parts[1..])
  }

  function Fields(s: seq<(Text, Text)>): (r: seq<Text>)
    ensures |r| == |s|
    ensures forall i :: 0 <= i < |s| ==> r[i] == Quote(s[i].0) + [COLON] + s[i].1
  {
    seq(|s|, i requires 0 <= i < |s| => Quote(s[i].0) + [COLON] + s[i].1)
  }

  function Print(v: Json): (t: Text)
    decreases v, 0
  {
    match v
    case Null => NULL
    case Bool(b) => if b then TRUE else FALSE
    case Num(n) => PrintInt(n)
    case Str(s) => Quote(s)
    case Arr(items) => [OPEN_BRACKET] + Join(PrintAll(items)) + [CLOSE_BRACKET]
    case Obj(members) =>
      [OPEN_BRACE] + Join(Fields(SortByKey(PrintMembers(members), TextLeq))) + [CLOSE_BRACE]
  }

  function PrintAll(items: seq<Json>): (r: seq<Text>)
    ensures |r| == |items|
    ensures forall i :: 0 <= i < |items| ==> r[i] == Print(items[i])
    decreases items, 1
  {
    if items == [] then [] else [Print(items[0])] + PrintAll(items[1..])
  }

  function PrintMembers(members: seq<(Text, Json)>): (r: seq<(Text, Text)>)
    ensures |r| == |members|
    ensures forall i :: 0 <= i < |members| ==>
      assert members[i].1 < members[i]; r[i] == (members[i].0, Print(members[i].1))
    decreases members, 1
  {
    if members == [] then []
    else
      assert members[0].1 < members[0];
      [(members[0].0, Print(members[0].1))] + PrintMembers(members[1..])
  }

  /** The value with the members of every object in key order. */
  function Normal(v: Json): (r: Json)
    decreases v, 0
  {
    match v
    case Arr(items) => Arr(NormalAll(items))
    case Obj(members) => Obj(SortByKey(NormalMembers(members), TextLeq))
    case _ => v
  }

  function NormalAll(items: seq<Json>): (r: seq<Json>)
    ensures |r| == |items|
    ensures forall i :: 0 <= i < |items| ==> r[i] == Normal(items[i])
    decreases items, 1
  {
    if items == [] then [] else [Normal(items[0])] + NormalAll(items[1..])
  }

  function NormalMembers(members: seq<(Text, Json)>): (r: seq<(Text, Json)>)
    ensures |r| == |members|
    ensures forall i :: 0 <= i < |members| ==>
      assert members[i].1 < members[i]; r[i] == (members[i].0, Normal(members[i].1))
    decreases members, 1
  {
    if members == [] then []
    else
      assert members[0].1 < members[0];
      [(members[0].0, Normal(members[0].1))] + NormalMembers(members[1..])
  }

  // ---- The parser ----

  function ReadDigits(t: Text, acc: nat): (r: (nat, Text))
    ensures |r.1| <= |t|
    ensures t != [] && IsDigit(t[0]) ==> |r.1| < |t|
    decreases |t|
  {
    if t == [] || !IsDigit(t[0]) then (acc, t) else ReadDigits(t[1..], acc * 10 + (t[0] - 48))
  }

  function ReadNumber(t: Text): (r: Option<(int, Text)>)
    ensures r.Some? ==> |r.value.1| < |t|
  {
    if t == [] then None
    else if t[0] == 45 then
      if |t| < 2 || !IsDigit(t[1]) then None
      else var d := ReadDigits(t[1..], 0); Some((0 - d.0 as int, d.1))
    else if !IsDigit(t[0]) then None
    else var d := ReadDigits(t, 0); Some((d.0 as int, d.1))
  }

  function HexValue(c: CodeUnit): (d: Option<nat>)
    ensures d.Some? ==> d.value < 16
  {
    if IsDigit(c) then Some(c - 48) else if 97 <= c <= 102 then Some(c - 87) else None
  }

  function ReadHex4(t: Text): (u: Option<CodeUnit>)
    requires |t| == 4
  {
    var a, b, c, d := HexValue(t[0]), HexValue(t[1]), HexValue(t[2]), HexValue(t[3]);
    if a.None? || b.None? || c.None? || d.None? then None
    else Some(a.value * 4096 + b.value * 256 + c.value * 16 + d.value)
  }

  function ShortUnescape(c: CodeUnit): Option<CodeUnit> {
    if c == 34 then Some(34)
    else if c == 92 then Some(92)
    else if c == 98 then Some(8)
    else if c == 116 then Some(9)
    else if c == 110 then Some(10)
    else if c == 102 then Some(12)
    else if c == 114 then Some(13)
    else None
  }

  /** One unit of a string body, escaped or not. */
  function ReadUnit(t: Text): (r: Option<(CodeUnit, Text)>)
    ensures r.Some? ==> |r.value.1| < |t|
  {
    if t == [] || t[0] == QUOTE then None
    else if t[0] != BACKSLASH then Some((t[0], t[1..]))
    else if |t| >= 2 && ShortUnescape(t[1]).Some? then Some((ShortUnescape(t[1]).value, t[2..]))
    else if |t| >= 6 && t[1] == 117 && ReadHex4(t[2..6]).Some? then Some((ReadHex4(t[2..6]).value, t[6..]))
    else None
  }

  /** A string body and its closing quote. */
  function ReadString(t: Text): (r: Option<(Text, Text)>)
    ensures r.Some? ==> |r.value.1| < |t|
    decreases |t|
  {
    if t != [] && t[0] == QUOTE then Some(([], t[1..]))
    else
      var u := ReadUnit(t);
      if u.None? then None
      else
        var rest := ReadString(u.value.1);
        if rest.None? then None else Some(([u.value.0] + rest.value.0, rest.value.1))
  }

  function ReadLiteral(t: Text, word: Text, v: Json): (r: Option<(Json, Text)>)
    requires word != []
    ensures r.Some? ==> |r.value.1| < |t|
  {
    if word <= t then Some((v, t[|word|..])) else None
  }

  function ReadValue(t: Text): (r: Option<(Json, Text)>)
    ensures r.Some? ==> |r.value.1| < |t|
    decreases |t|, 0
  {
    if t == [] then None
    else if t[0] == NULL[0] then ReadLiteral(t, NULL, Null)
    else if t[0] == TRUE[0] then ReadLiteral(t, TRUE, Bool(true))
    else if t[0] == FALSE[0] then ReadLiteral(t, FALSE, Bool(false))
    else if t[0] == QUOTE then
      var s := ReadString(t[1..]);
      if s.None? then None else Some((Str(s.value.0), s.value.1))
    else if t[0] == OPEN_BRACKET then
      if |t| >= 2 && t[1] == CLOSE_BRACKET then Some((Arr([]), t[2..]))
      else
        var s := ReadItems(t[1..]);
        if s.None? then None else Some((Arr(s.value.0), s.value.1))
    else if t[0] == OPEN_BRACE then
      if |t| >= 2 && t[1] == CLOSE_BRACE then Some((Obj([]), t[2..]))
      else
        var s := ReadMembers(t[1..]);
        if s.None? then None else Some((Obj(s.value.0), s.value.1))
    else
      var n := ReadNumber(t);
      if n.None? || !(-MAX_SAFE <= n.value.0 <= MAX_SAFE) then None else Some((Num(n.value.0), n.value.1))
  }

  function ReadItems(t: Text): (r: Option<(seq<Json>, Text)>)
    ensures r.Some? ==> |r.value.1| < |t|
    decreases |t|, 1
  {
    var v := ReadValue(t);
    if v.None? || v.value.1 == [] then None
    else if v.value.1[0] == CLOSE_BRACKET then Some(([v.value.0], v.value.1[1..]))
    else if v.value.1[0] != COMMA then None
    else
      var rest := ReadItems(v.value.1[1..]);
      if rest.None? then None else Some(([v.value.0] + rest.value.0, rest.value.1))
  }

  function ReadField(t: Text): (r: Option<((Text, Json), Text)>)
    ensures r.Some? ==> |r.value.1| < |t|
    decreases |t|, 1
  {
    if t == [] || t[0] != QUOTE then None
    else
      var k := ReadString(t[1..]);
      if k.None? || k.value.1 == [] || k.value.1[0] != COLON then None
      else
        var v := ReadValue(k.value.1[1..]);
        if v.None? then None else Some(((k.value.0, v.value.0), v.value.1))
  }

  function ReadMembers(t: Text): (r: Option<(seq<(Text, Json)>, Text)>)
    ensures r.Some? ==> |r.value.1| < |t|
    decreases |t|, 2
  {
    var f := ReadField(t);
    if f.None? || f.value.1 == [] then None
    else if f.value.1[0] == CLOSE_BRACE then Some(([f.value.0], f.value.1[1..]))
    else if f.value.1[0] != COMMA then None
    else
      var rest := ReadMembers(f.value.1[1..]);
      if rest.None? then None else Some(([f.value.0] + rest.value.0, rest.value.1))
  }

  /** A whole text as one value. */
  function Parse(t: Text): Option<Json> {
    var r := ReadValue(t);
    if r.Some? && r.value.1 == [] then Some(r.value.0) else None
  }
}
