/** The length-prefixed encodings that the key server signs and verifies, with decoders that undo them. */
module KeyserverCodec {
  import opened Wrappers
  import opened Bytes
  import opened Sorting

  /** A string as its UTF-8 bytes; Node's strings are far shorter than four gigabytes. */
  type Str = s: bytes | |s| < U32_LIMIT

  const REPLENISH_DOMAIN: Str := AsciiBytes("discord-privacy-client/prekey-replenish/v1")
  const BURN_DOMAIN: Str := AsciiBytes("discord-privacy-client/burn/v1")
  const MANIFEST_DOMAIN: Str := AsciiBytes("discord-privacy-client/selector-manifest/v1")
  const SINGLE: Str := AsciiBytes("single")
  const TO_USER: Str := AsciiBytes("to_user")
  const ALL: Str := AsciiBytes("all")

  // ---- Length prefixes ----

  function LP(s: Str): (b: bytes)
    ensures |b| == 4 + |s|
  {
    U32(|s|) + s
  }

  function ReadLP(b: bytes): (r: Option<(Str, bytes)>)
    ensures r.Some? ==> |r.value.1| < |b|
  {
    if |b| < 4 then None
    else
      var n := FromU32(b[..4]);
      if |b| < 4 + n then None else Some((b[4..4 + n], b[4 + n..]))
  }

  lemma ReadsLP(s: Str, rest: bytes)
    ensures ReadLP(LP(s) + rest) == Some((s, rest))
  {
    var b := LP(s) + rest;
    U32RoundTrip(|s|);
    assert b[..4] == U32(|s|);
    assert b[4..4 + |s|] == s && b[4 + |s|..] == rest;
  }

  /** Two texts that start with a length prefix agree only when the strings and the tails agree. */
  lemma LPSplits(s: Str, a: bytes, t: Str, b: bytes)
    requires LP(s) + a == LP(t) + b
    ensures s == t && a == b
  {
    ReadsLP(s, a);
    ReadsLP(t, b);
  }

  function ReadU32(b: bytes): (r: Option<(nat, bytes)>)
    ensures r.Some? ==> |r.value.1| < |b| && r.value.0 < U32_LIMIT
  {
    if |b| < 4 then None else Some((FromU32(b[..4]), b[4..]))
  }

  lemma ReadsU32(v: nat, rest: bytes)
    requires v < U32_LIMIT
    ensures ReadU32(U32(v) + rest) == Some((v, rest))
  {
    U32RoundTrip(v);
    assert (U32(v) + rest)[..4] == U32(v) && (U32(v) + rest)[4..] == rest;
  }

  /** `Buffer.concat` over the pushed pieces. */
  function Concat(buf: seq<bytes>): bytes {
    if buf == [] then [] else buf[0] + Concat(buf[1..])
  }

  lemma {:induction false} ConcatAppend(a: seq<bytes>, b: seq<bytes>)
    ensures Concat(a + b) == Concat(a) + Concat(b)
    decreases |a|
  {
    if a == [] {
      assert a + b == b;
    } else {
      assert (a + b)[1..] == a[1..] + b;
      ConcatAppend(a[1..], b);
    }
  }

  lemma ConcatOne(p: bytes, b: seq<bytes>)
    ensures Concat([p] + b) == p + Concat(b)
    ensures Concat([p]) == p
  {
    assert ([p] + b)[1..] == b;
    assert p + [] == p;
  }

  // ---- Replenish ----

  datatype Spk = Spk(pub: Str, signature: Str, rotatedAt: Str)
  datatype Opk = Opk(id: int, pub: Str)
  datatype Fresh = Fresh(timestamp: Str, requestId: Str)
  datatype ReplenishMessage = ReplenishMessage(userId: Str, freshness: Option<Fresh>, spk: Option<Spk>, opks: seq<Opk>)

  predicate IsU32(v: int) { 0 <= v < U32_LIMIT }

  /** `writeUInt32BE` throws outside this range. */
  predicate Encodable(m: ReplenishMessage) {
    |m.opks| < U32_LIMIT && forall i :: 0 <= i < |m.opks| ==> IsU32(m.opks[i].id)
  }

  function EncodeFresh(f: Option<Fresh>): bytes {
    if f.None? then [] else LP(f.value.timestamp) + LP(f.value.requestId)
  }

  function EncodeSpk(s: Option<Spk>): bytes {
    if s.None? then [0] else [1] + (LP(s.value.pub) + (LP(s.value.signature) + LP(s.value.rotatedAt)))
  }

  function EncodeOpks(opks: seq<Opk>): bytes
    requires forall i :: 0 <= i < |opks| ==> IsU32(opks[i].id)
  {
    if opks == [] then []
    else
      assert IsU32(opks[0].id);
      U32(opks[0].id) + (LP(opks[0].pub) + EncodeOpks(opks[1..]))
  }

  function EncodeReplenish(m: ReplenishMessage): bytes
    requires Encodable(m)
  {
    LP(REPLENISH_DOMAIN)
    + (LP(m.userId) + (EncodeFresh(m.freshness) + (EncodeSpk(m.spk) + (U32(|m.opks|) + EncodeOpks(m.opks)))))
  }

  function ReadFresh(form: bool, b: bytes): Option<(Option<Fresh>, bytes)> {
    if !form then Some((None, b))
    else
      var t := ReadLP(b);
      if t.None? then None
      else
        var r := ReadLP(t.value.1);
        if r.None? then None else Some((Some(Fresh(t.value.0, r.value.0)), r.value.1))
  }

  function ReadSpk(b: bytes): Option<(Option<Spk>, bytes)> {
    if b == [] then None
    else if b[0] == 0 then Some((None, b[1..]))
    else if b[0] != 1 then None
    else
      var p := ReadLP(b[1..]);
      if p.None? then None
      else
        var s := ReadLP(p.value.1);
        if s.None? then None
        else
          var r := ReadLP(s.value.1);
          if r.None? then None else Some((Some(Spk(p.value.0, s.value.0, r.value.0)), r.value.1))
  }

  function ReadOpks(n: nat, b: bytes): Option<(seq<Opk>, bytes)> {
    if n == 0 then Some(([], b))
    else
      var i := ReadU32(b);
      if i.None? then None
      else
        var p := ReadLP(i.value.1);
        if p.None? then None
        else
          var rest := ReadOpks(n - 1, p.value.1);
          if rest.None? then None
          else Some(([Opk(i.value.0, p.value.0)] + rest.value.0, rest.value.1))
  }

  /** Reads one form of the request: with or without the freshness fields. */
  function DecodeReplenish(form: bool, b: bytes): Option<ReplenishMessage> {
    var d := ReadLP(b);
    if d.None? || d.value.0 != REPLENISH_DOMAIN then None
    else
      var u := ReadLP(d.value.1);
      if u.None? then None
      else
        var f := ReadFresh(form, u.value.1);
        if f.None? then None
        else
          var s := ReadSpk(f.value.1);
          if s.None? then None
          else
            var n := ReadU32(s.value.1);
            if n.None? then None
            else
              var o := ReadOpks(n.value.0, n.value.1);
              if o.None? || o.value.1 != [] then None
              else Some(ReplenishMessage(u.value.0, f.value.0, s.value.0, o.value.0))
  }

  lemma ReadsFresh(f: Option<Fresh>, rest: bytes)
    ensures ReadFresh(f.Some?, EncodeFresh(f) + rest) == Some((f, rest))
  {
    if f.None? {
      assert [] + rest == rest;
    } else {
      var t, r := f.value.timestamp, f.value.requestId;
      assert LP(t) + LP(r) + rest == LP(t) + (LP(r) + rest);
      ReadsLP(t, LP(r) + rest);
      ReadsLP(r, rest);
    }
  }

  lemma SpkTail(flag: byte, p: bytes, g: bytes, r: bytes, rest: bytes)
    ensures var b := [flag] + (p + (g + r)) + rest; b[0] == flag && b[1..] == p + (g + (r + rest))
  {
  }

  lemma ReadsSpk(s: Option<Spk>, rest: bytes)
    ensures ReadSpk(EncodeSpk(s) + rest) == Some((s, rest))
  {
    if s.None? {
      assert ([0] + rest)[1..] == rest;
    } else {
      var Spk(p, g, r) := s.value;
      SpkTail(1, LP(p), LP(g), LP(r), rest);
      ReadsLP(p, LP(g) + (LP(r) + rest));
      ReadsLP(g, LP(r) + rest);
      ReadsLP(r, rest);
    }
  }

  lemma Regroup(a: bytes, b: bytes, c: bytes, d: bytes)
    ensures (a + (b + c)) + d == a + (b + (c + d))
  {
  }

  lemma ReadOpksStep(opks: seq<Opk>, t: bytes, b: bytes, rest: bytes)
    requires opks != [] && IsU32(opks[0].id) && t == U32(opks[0].id) + (LP(opks[0].pub) + b)
    requires ReadOpks(|opks| - 1, b) == Some((opks[1..], rest))
    ensures ReadOpks(|opks|, t) == Some((opks, rest))
  {
    ReadsU32(opks[0].id, LP(opks[0].pub) + b);
    ReadsLP(opks[0].pub, b);
    assert opks == [opks[0]] + opks[1..];
  }

  lemma {:induction false} ReadsOpks(opks: seq<Opk>, t: bytes, rest: bytes)
    requires forall i :: 0 <= i < |opks| ==> IsU32(opks[i].id)
    requires t == EncodeOpks(opks) + rest
    ensures ReadOpks(|opks|, t) == Some((opks, rest))
    decreases |opks|
  {
    if opks == [] {
      assert t == rest;
    } else {
      assert IsU32(opks[0].id);
      var b := EncodeOpks(opks[1..]) + rest;
      ReadsOpks(opks[1..], b, rest);
      Regroup(U32(opks[0].id), LP(opks[0].pub), EncodeOpks(opks[1..]), rest);
      ReadOpksStep(opks, t, b, rest);
    }
  }

  /** Each form of the replenish encoding is undone by its decoder. */
  lemma ReplenishDecodes(m: ReplenishMessage)
    requires Encodable(m)
    ensures DecodeReplenish(m.freshness.Some?, EncodeReplenish(m)) == Some(m)
  {
    var o := EncodeOpks(m.opks);
    var n := U32(|m.opks|) + o;
    var s := EncodeSpk(m.spk) + n;
    var f := EncodeFresh(m.freshness) + s;
    ReadsLP(REPLENISH_DOMAIN, LP(m.userId) + f);
    ReadsLP(m.userId, f);
    ReadsFresh(m.freshness, s);
    ReadsSpk(m.spk, n);
    ReadsU32(|m.opks|, o);
    assert o == o + [];
    ReadsOpks(m.opks, o, []);
  }

  function FreshParts(f: Option<Fresh>): seq<bytes> {
    if f.None? then [] else [LP(f.value.timestamp), LP(f.value.requestId)]
  }

  function SpkParts(s: Option<Spk>): seq<bytes> {
    if s.None? then [[0]] else [[1], LP(s.value.pub), LP(s.value.signature), LP(s.value.rotatedAt)]
  }

  lemma FreshConcat(f: Option<Fresh>)
    ensures Concat(FreshParts(f)) == EncodeFresh(f)
  {
    if f.Some? {
      var t, r := LP(f.value.timestamp), LP(f.value.requestId);
      ConcatOne(t, [r]);
      ConcatOne(r, []);
      assert [t] + [r] == [t, r];
    }
  }

  lemma SpkConcat(s: Option<Spk>)
    ensures Concat(SpkParts(s)) == EncodeSpk(s)
  {
    if s.None? {
      ConcatOne([0], []);
    } else {
      var p, g, r := LP(s.value.pub), LP(s.value.signature), LP(s.value.rotatedAt);
      ConcatOne([1], [p, g, r]);
      ConcatOne(p, [g, r]);
      ConcatOne(g, [r]);
      ConcatOne(r, []);
      assert [[1]] + [p, g, r] == SpkParts(s) && [p] + [g, r] == [p, g, r] && [g] + [r] == [g, r];
    }
  }

  /** The pieces pushed before the one-time prekeys. */
  function HeadParts(m: ReplenishMessage): seq<bytes>
    requires |m.opks| < U32_LIMIT
  {
    [LP(REPLENISH_DOMAIN), LP(m.userId)] + (FreshParts(m.freshness) + (SpkParts(m.spk) + [U32(|m.opks|)]))
  }

  lemma HeadConcat(m: ReplenishMessage)
    requires Encodable(m)
    ensures Concat(HeadParts(m)) + EncodeOpks(m.opks) == EncodeReplenish(m)
  {
    var d, u, f, k, n := LP(REPLENISH_DOMAIN), LP(m.userId), EncodeFresh(m.freshness), EncodeSpk(m.spk), U32(|m.opks|);
    var tail := FreshParts(m.freshness) + (SpkParts(m.spk) + [n]);
    ConcatAppend([d, u], tail);
    ConcatOne(d, [u]);
    ConcatOne(u, []);
    assert [d] + [u] == [d, u];
    ConcatAppend(FreshParts(m.freshness), SpkParts(m.spk) + [n]);
    ConcatAppend(SpkParts(m.spk), [n]);
    ConcatOne(n, []);
    FreshConcat(m.freshness);
    SpkConcat(m.spk);
    Nest5(d, u, f, k, n, EncodeOpks(m.opks));
  }

  lemma Nest5(d: bytes, u: bytes, f: bytes, k: bytes, n: bytes, o: bytes)
    ensures (d + u) + (f + (k + n)) + o == d + (u + (f + (k + (n + o))))
  {
  }

  /** Pushes the fields onto the buffer in order; an out-of-range id throws. */
  method CanonicalReplenishBytes(m: ReplenishMessage) returns (r: Option<bytes>)
    ensures r == if Encodable(m) then Some(EncodeReplenish(m)) else None
  {
    var buf: seq<bytes> := [LP(REPLENISH_DOMAIN)];
    buf := buf + [LP(m.userId)];
    if m.freshness.Some? {
      buf := buf + [LP(m.freshness.value.timestamp)];
      buf := buf + [LP(m.freshness.value.requestId)];
    }
    assert buf == [LP(REPLENISH_DOMAIN), LP(m.userId)] + FreshParts(m.freshness);
    ghost var before := buf;
    buf := buf + [[if m.spk.Some? then 1 else 0]];
    if m.spk.Some? {
      buf := buf + [LP(m.spk.value.pub)];
      buf := buf + [LP(m.spk.value.signature)];
      buf := buf + [LP(m.spk.value.rotatedAt)];
    }
    assert buf == before + SpkParts(m.spk);
    if |m.opks| >= U32_LIMIT {
      return None;
    }
    buf := buf + [U32(|m.opks|)];
    assert buf == HeadParts(m);
    r := PushOpks(m, buf);
  }

  /** The loop over the one-time prekeys and the final concatenation. */
  method PushOpks(m: ReplenishMessage, head: seq<bytes>) returns (r: Option<bytes>)
    requires |m.opks| < U32_LIMIT && head == HeadParts(m)
    ensures r == if Encodable(m) then Some(EncodeReplenish(m)) else None
  {
    var buf := head;
    assert m.opks[0..] == m.opks;
    for i := 0 to |m.opks|
      invariant forall k :: 0 <= k < i ==> IsU32(m.opks[k].id)
      invariant Encodable(m) ==> Concat(head) + EncodeOpks(m.opks) == Concat(buf) + EncodeOpks(m.opks[i..])
    {
      if !IsU32(m.opks[i].id) {
        return None;
      }
      var id, pub := U32(m.opks[i].id), LP(m.opks[i].pub);
      PushTwo(buf, id, pub);
      if Encodable(m) {
        assert m.opks[i..][1..] == m.opks[i + 1..];
        EntryStep(Concat(buf), id, pub, EncodeOpks(m.opks[i + 1..]));
      }
      buf := buf + [id];
      buf := buf + [pub];
    }
    assert m.opks[|m.opks|..] == [];
    assert Concat(buf) + [] == Concat(buf);
    HeadConcat(m);
    r := Some(Concat(buf));
  }

  lemma PushTwo(buf: seq<bytes>, x: bytes, y: bytes)
    ensures Concat(buf + [x] + [y]) == Concat(buf) + (x + y)
  {
    ConcatAppend(buf, [x, y]);
    ConcatOne(x, [y]);
    ConcatOne(y, []);
    assert [x] + [y] == [x, y];
    assert buf + [x] + [y] == buf + [x, y];
  }

  lemma EntryStep(b: bytes, k: bytes, v: bytes, e: bytes)
    ensures b + (k + v) + e == b + (k + (v + e))
  {
  }

  // ---- Burn ----

  datatype Scope = Single(contentId: Str) | ToUser(userId: Str) | All
  datatype BurnMessage = BurnMessage(userId: Str, freshness: Option<Fresh>, scope: Scope)

  function ScopeName(s: Scope): Str {
    match s
    case Single(_) => SINGLE
    case ToUser(_) => TO_USER
    case All => ALL
  }

  function EncodeTarget(s: Scope): bytes {
    match s
    case Single(c) => [1] + LP(c)
    case ToUser(u) => [2] + LP(u)
    case All => [0]
  }

  function EncodeBurn(m: BurnMessage): bytes {
    LP(BURN_DOMAIN) + (LP(m.userId) + (EncodeFresh(m.freshness) + (LP(ScopeName(m.scope)) + EncodeTarget(m.scope))))
  }

  function TargetParts(s: Scope): seq<bytes> {
    match s
    case Single(c) => [[1], LP(c)]
    case ToUser(u) => [[2], LP(u)]
    case All => [[0]]
  }

  lemma TargetConcat(s: Scope)
    ensures Concat(TargetParts(s)) == EncodeTarget(s)
  {
    var flag := TargetParts(s)[0];
    ConcatOne(flag, TargetParts(s)[1..]);
    assert [flag] + TargetParts(s)[1..] == TargetParts(s);
    ConcatOne(LP(Target(s)), []);
  }

  lemma BurnConcat(m: BurnMessage)
    ensures Concat([LP(BURN_DOMAIN), LP(m.userId)] + FreshParts(m.freshness)
                   + ([LP(ScopeName(m.scope))] + TargetParts(m.scope)))
         == EncodeBurn(m)
  {
    var d, u, f, n := LP(BURN_DOMAIN), LP(m.userId), FreshParts(m.freshness), LP(ScopeName(m.scope));
    ConcatAppend([d, u] + f, [n] + TargetParts(m.scope));
    ConcatAppend([d, u], f);
    ConcatOne(d, [u]);
    ConcatOne(u, []);
    assert [d] + [u] == [d, u];
    ConcatOne(n, TargetParts(m.scope));
    TargetConcat(m.scope);
    FreshConcat(m.freshness);
    Nest3(d, u, EncodeFresh(m.freshness), n + EncodeTarget(m.scope));
  }

  lemma Nest3(d: bytes, u: bytes, f: bytes, rest: bytes)
    ensures ((d + u) + f) + rest == d + (u + (f + rest))
  {
  }

  method CanonicalBurnBytes(m: BurnMessage) returns (r: bytes)
    ensures r == EncodeBurn(m)
  {
    var buf: seq<bytes> := [LP(BURN_DOMAIN)];
    buf := buf + [LP(m.userId)];
    if m.freshness.Some? {
      buf := buf + [LP(m.freshness.value.timestamp)];
      buf := buf + [LP(m.freshness.value.requestId)];
    }
    ghost var before := buf;
    assert before == [LP(BURN_DOMAIN), LP(m.userId)] + FreshParts(m.freshness);
    buf := buf + [LP(ScopeName(m.scope))];
    match m.scope {
      case Single(c) =>
        buf := buf + [[1]];
        buf := buf + [LP(c)];
      case ToUser(u) =>
        buf := buf + [[2]];
        buf := buf + [LP(u)];
      case All =>
        buf := buf + [[0]];
    }
    assert buf == before + ([LP(ScopeName(m.scope))] + TargetParts(m.scope));
    BurnConcat(m);
    r := Concat(buf);
  }

  lemma TargetSplits(s: Scope, t: Scope)
    requires ScopeName(s) == ScopeName(t) && EncodeTarget(s) == EncodeTarget(t)
    ensures s == t
  {
    var a, b := EncodeTarget(s), EncodeTarget(t);
    assert a[0] == b[0];
    if !s.All? {
      assert a[1..] == b[1..];
      var x, y := Target(s), Target(t);
      assert a[1..] == LP(x) + [] && b[1..] == LP(y) + [];
      LPSplits(x, [], y, []);
    }
  }

  function Target(s: Scope): Str {
    match s
    case Single(c) => c
    case ToUser(u) => u
    case All => []
  }

  /** What is left of a burn after the domain and the user. */
  function BurnTail(m: BurnMessage): bytes {
    EncodeFresh(m.freshness) + (LP(ScopeName(m.scope)) + EncodeTarget(m.scope))
  }

  lemma SameUser(a: BurnMessage, b: BurnMessage)
    requires EncodeBurn(a) == EncodeBurn(b)
    ensures a.userId == b.userId && BurnTail(a) == BurnTail(b)
  {
    LPSplits(BURN_DOMAIN, LP(a.userId) + BurnTail(a), BURN_DOMAIN, LP(b.userId) + BurnTail(b));
    LPSplits(a.userId, BurnTail(a), b.userId, BurnTail(b));
  }

  /** Burns of one form are told apart by their bytes. */
  lemma SameFormBurns(a: BurnMessage, b: BurnMessage)
    requires a.freshness.Some? == b.freshness.Some? && EncodeBurn(a) == EncodeBurn(b)
    ensures a == b
  {
    SameUser(a, b);
    var sa, sb := LP(ScopeName(a.scope)) + EncodeTarget(a.scope), LP(ScopeName(b.scope)) + EncodeTarget(b.scope);
    ReadsFresh(a.freshness, sa);
    ReadsFresh(b.freshness, sb);
    LPSplits(ScopeName(a.scope), EncodeTarget(a.scope), ScopeName(b.scope), EncodeTarget(b.scope));
    TargetSplits(a.scope, b.scope);
  }

  function Flag(s: Scope): nat {
    if s.Single? then 1 else if s.ToUser? then 2 else 0
  }

  /** The length a request id must have to stand where the flag and the length of a target stand. */
  function Overlap(s: Scope): nat {
    Flag(s) * 0x100_0000 + |Target(s)| / 256
  }

  /**
   The plain burns whose bytes may also be read as a fresh burn: what is left after the
   request id is exactly as long as some scope name with its target. The target has
   more than sixteen million bytes.
   */
  predicate Ambiguous(s: Scope) {
    !s.All? && (|Target(s)| + 1 - Overlap(s) == 8 || |Target(s)| + 1 - Overlap(s) >= 15)
  }

  lemma AmbiguousIsHuge(s: Scope)
    requires Ambiguous(s)
    ensures |Target(s)| > 0x100_0000
  {
  }

  lemma DivDiv(n: nat)
    ensures n / 256 / 0x1_0000 == n / 0x100_0000 && n / 256 / 0x100 == n / 0x1_0000
  {
  }

  /** A flag byte and the length of `n` begin like the length `flag * 2^24 + n / 256`. */
  lemma LengthOverlap(flag: nat, n: nat)
    requires flag < 256 && n < U32_LIMIT
    ensures U32(flag * 0x100_0000 + n / 256) == [flag] + U32(n)[..3]
  {
    var k := n / 256;
    DivDiv(n);
    FlagAbove(flag, k);
  }

  lemma FlagAbove(flag: nat, k: nat)
    requires flag < 256 && k < 0x100_0000
    ensures U32(flag * 0x100_0000 + k) == [flag, k / 0x1_0000, k / 0x100 % 256, k % 256]
  {
    var b: bytes := [flag, k / 0x1_0000, k / 0x100 % 256, k % 256];
    assert k / 0x100 == k / 0x1_0000 * 256 + k / 0x100 % 256;
    assert FromU32(b) == flag * 0x100_0000 + k;
    FromU32RoundTrip(b);
  }

  lemma U32Injective(v: nat, w: nat)
    requires v < U32_LIMIT && w < U32_LIMIT && U32(v) == U32(w)
    ensures v == w
  {
    U32RoundTrip(v);
    U32RoundTrip(w);
  }

  lemma Assoc(a: bytes, b: bytes, c: bytes)
    ensures (a + b) + c == a + (b + c)
  {
  }

  lemma ScopeLength(s: Scope)
    ensures var n := |LP(ScopeName(s)) + EncodeTarget(s)|;
            n == if s.All? then 8 else if s.Single? then 15 + |s.contentId| else 16 + |s.userId|
  {
  }

  /** A scope and its target as the encoder ends with them. */
  function ScopeText(s: Scope): bytes { LP(ScopeName(s)) + EncodeTarget(s) }

  lemma TargetMeets(s: Scope, q: Str, rest: bytes)
    requires EncodeTarget(s) == LP(q) + rest && |rest| >= 4
    ensures !s.All? && |q| == Overlap(s) && |rest| == |Target(s)| + 1 - Overlap(s)
    ensures q == [|Target(s)| % 256] + Target(s)[..Overlap(s) - 1] && rest == Target(s)[Overlap(s) - 1..]
  {
    assert |EncodeTarget(s)| == 4 + |q| + |rest|;
    var n := |Target(s)|;
    LengthOverlap(Flag(s), n);
    Shifted(Flag(s), U32(n), Target(s), U32(|q|), q + rest);
    U32Injective(|q|, Overlap(s));
    SplitHead(q, rest, n % 256, Target(s));
  }

  lemma Shifted(flag: byte, n: bytes, target: bytes, m: bytes, text: bytes)
    requires |n| == |m| == 4 && [flag] + (n + target) == m + text
    ensures m == [flag] + n[..3] && text == [n[3]] + target
  {
    var all := m + text;
    assert all[..4] == m && all[4..] == text;
    assert ([flag] + (n + target))[..4] == [flag] + n[..3];
    assert ([flag] + (n + target))[4..] == [n[3]] + target;
  }

  lemma SplitHead(q: bytes, rest: bytes, h: byte, t: bytes)
    requires q != [] && q + rest == [h] + t
    ensures q == [h] + t[..|q| - 1] && rest == t[|q| - 1..]
  {
    var all := [h] + t;
    assert q == all[..|q|] && rest == all[|q|..];
  }

  lemma FormsMeet(a: BurnMessage, b: BurnMessage)
    requires a.freshness.None? && b.freshness.Some? && EncodeBurn(a) == EncodeBurn(b)
    ensures a.userId == b.userId && b.freshness.value.timestamp == ScopeName(a.scope)
    ensures EncodeTarget(a.scope) == LP(b.freshness.value.requestId) + ScopeText(b.scope)
    ensures |ScopeText(b.scope)| >= 8
  {
    SameUser(a, b);
    var t, q := b.freshness.value.timestamp, b.freshness.value.requestId;
    assert [] + ScopeText(a.scope) == ScopeText(a.scope);
    Assoc(LP(t), LP(q), ScopeText(b.scope));
    LPSplits(ScopeName(a.scope), EncodeTarget(a.scope), t, LP(q) + ScopeText(b.scope));
    ScopeLength(b.scope);
  }

  /** A plain burn and a fresh one share bytes only when the timestamp is a scope name and the target is ambiguous. */
  lemma FormsMeetOnlyWhenAmbiguous(a: BurnMessage, b: BurnMessage)
    requires a.freshness.None? && b.freshness.Some? && EncodeBurn(a) == EncodeBurn(b)
    ensures b.freshness.value.timestamp == ScopeName(a.scope) && Ambiguous(a.scope)
  {
    FormsMeet(a, b);
    ScopeLength(b.scope);
    TargetMeets(a.scope, b.freshness.value.requestId, ScopeText(b.scope));
  }

  function WithTarget(s: Scope, t: Str): Scope
    requires !s.All?
  {
    if s.Single? then Single(t) else ToUser(t)
  }

  lemma MeetTarget(s: Scope, x: bytes, rest: bytes)
    requires !s.All? && |x| == Overlap(s) - 1 && |x| + |rest| == |Target(s)|
    ensures EncodeTarget(WithTarget(s, x + rest)) == LP([|Target(s)| % 256] + x) + rest
  {
    var n, w := |Target(s)|, [|Target(s)| % 256] + x;
    TargetText(s, x + rest);
    LengthOverlap(Flag(s), n);
    assert |w| == Overlap(s);
    calc {
      EncodeTarget(WithTarget(s, x + rest));
      [Flag(s)] + (U32(n) + (x + rest));
      { OverlapText(Flag(s), n, x, rest); }
      ([Flag(s)] + U32(n)[..3]) + w + rest;
      LP(w) + rest;
    }
  }

  lemma TargetText(s: Scope, t: Str)
    requires !s.All?
    ensures EncodeTarget(WithTarget(s, t)) == [Flag(s)] + (U32(|t|) + t)
  {
  }

  lemma MeetBurns(a: BurnMessage, b: BurnMessage)
    requires a.freshness.None? && b.freshness.Some? && a.userId == b.userId
    requires b.freshness.value.timestamp == ScopeName(a.scope)
    requires EncodeTarget(a.scope) == LP(b.freshness.value.requestId) + ScopeText(b.scope)
    ensures EncodeBurn(a) == EncodeBurn(b)
  {
    var t, q := LP(b.freshness.value.timestamp), LP(b.freshness.value.requestId);
    Assoc(t, q, LP(ScopeName(b.scope)) + EncodeTarget(b.scope));
    assert [] + (t + EncodeTarget(a.scope)) == t + EncodeTarget(a.scope);
  }

  // ---- Exactly when the bytes decide a burn ----

  /** The scope that a text ends a burn with, if it is one. */
  function ReadScope(b: bytes): Option<Scope> {
    var r := ReadLP(b);
    if r.None? || r.value.1 == [] then None
    else
      var name, flag, t := r.value.0, r.value.1[0], r.value.1[1..];
      if name == ALL && flag == 0 && t == [] then Some(All)
      else
        var target := ReadLP(t);
        if target.None? || target.value.1 != [] then None
        else if name == SINGLE && flag == 1 then Some(Single(target.value.0))
        else if name == TO_USER && flag == 2 then Some(ToUser(target.value.0))
        else None
  }

  lemma NamesDiffer()
    ensures SINGLE[0] == 115 && TO_USER[0] == 116 && ALL[0] == 97
    ensures SINGLE != TO_USER && SINGLE != ALL && TO_USER != ALL
  {
  }

  lemma ReadsScope(s: Scope)
    ensures ReadScope(ScopeText(s)) == Some(s)
  {
    NamesDiffer();
    ReadsLP(ScopeName(s), EncodeTarget(s));
    if !s.All? {
      assert EncodeTarget(s)[1..] == LP(Target(s)) + [];
      ReadsLP(Target(s), []);
    }
  }

  lemma LPOfReading(b: bytes)
    requires ReadLP(b).Some?
    ensures b == LP(ReadLP(b).value.0) + ReadLP(b).value.1
  {
    FromU32RoundTrip(b[..4]);
    var n := FromU32(b[..4]);
    assert b == b[..4] + b[4..4 + n] + b[4 + n..];
  }

  lemma ScopeOfReading(b: bytes)
    requires ReadScope(b).Some?
    ensures b == ScopeText(ReadScope(b).value)
  {
    NamesDiffer();
    LPOfReading(b);
    var rest := ReadLP(b).value.1;
    assert rest == [rest[0]] + rest[1..];
    if !ReadScope(b).value.All? {
      LPOfReading(rest[1..]);
      assert LP(ReadLP(rest[1..]).value.0) + [] == LP(ReadLP(rest[1..]).value.0);
    }
  }

  /** The plain burn's target, after as many bytes as a request id would take, is the text of a scope. */
  predicate MeetsPlain(s: Scope) {
    && !s.All? && Overlap(s) <= |Target(s)| + 1
    && ReadScope(Target(s)[Overlap(s) - 1..]).Some?
  }

  /** The fresh burn's timestamp is a scope name, and its request id begins like the length of what follows. */
  predicate MeetsFresh(f: Fresh, s: Scope) {
    var n := |f.requestId| + |ScopeText(s)| - 1;
    && (f.timestamp == SINGLE || f.timestamp == TO_USER)
    && n < U32_LIMIT && f.requestId != []
    && |f.requestId| == (if f.timestamp == SINGLE then 1 else 2) * 0x100_0000 + n / 256
    && f.requestId[0] == n % 256
  }

  lemma MeetAs(a: BurnMessage, x: bytes, s: Scope) returns (b: BurnMessage)
    requires a.freshness.None? && !a.scope.All? && |x| == Overlap(a.scope) - 1 && Target(a.scope) == x + ScopeText(s)
    ensures b.freshness.Some? && EncodeBurn(a) == EncodeBurn(b)
  {
    MeetTarget(a.scope, x, ScopeText(s));
    assert WithTarget(a.scope, Target(a.scope)) == a.scope;
    b := BurnMessage(a.userId, Some(Fresh(ScopeName(a.scope), [|Target(a.scope)| % 256] + x)), s);
    MeetBurns(a, b);
  }

  lemma PlainMeets(a: BurnMessage) returns (b: BurnMessage)
    requires a.freshness.None? && MeetsPlain(a.scope)
    ensures b.freshness.Some? && EncodeBurn(a) == EncodeBurn(b)
  {
    var t, k := Target(a.scope), Overlap(a.scope) - 1;
    ScopeOfReading(t[k..]);
    assert t == t[..k] + t[k..];
    b := MeetAs(a, t[..k], ReadScope(t[k..]).value);
  }

  lemma FreshMeets(b: BurnMessage) returns (a: BurnMessage)
    requires b.freshness.Some? && MeetsFresh(b.freshness.value, b.scope)
    ensures a.freshness.None? && EncodeBurn(a) == EncodeBurn(b)
  {
    NamesDiffer();
    var f, rest := b.freshness.value, ScopeText(b.scope);
    var x := f.requestId[1..];
    var scope := if f.timestamp == SINGLE then Single(x + rest) else ToUser(x + rest);
    MeetTarget(scope, x, rest);
    assert f.requestId == [f.requestId[0]] + x;
    a := BurnMessage(b.userId, None, scope);
    MeetBurns(a, b);
  }

  lemma MeetingIsSeen(a: BurnMessage, b: BurnMessage)
    requires a.freshness.None? && b.freshness.Some? && EncodeBurn(a) == EncodeBurn(b)
    ensures MeetsPlain(a.scope) && MeetsFresh(b.freshness.value, b.scope) && a.scope != b.scope
  {
    NamesDiffer();
    FormsMeet(a, b);
    TargetMeets(a.scope, b.freshness.value.requestId, ScopeText(b.scope));
    ReadsScope(b.scope);
    ScopeLength(b.scope);
  }

  predicate Decided(m: BurnMessage) {
    if m.freshness.Some? then !MeetsFresh(m.freshness.value, m.scope) else !MeetsPlain(m.scope)
  }

  /** The bytes decide who burns and what, across both forms, exactly when they cannot be read in the other form. */
  lemma BurnDecidedExactly(m: BurnMessage)
    ensures Decided(m) <==>
            forall o :: EncodeBurn(o) == EncodeBurn(m) ==> o.userId == m.userId && o.scope == m.scope
  {
    forall o | EncodeBurn(o) == EncodeBurn(m)
      ensures Decided(m) ==> o.userId == m.userId && o.scope == m.scope
    {
      if o.freshness.Some? == m.freshness.Some? {
        SameFormBurns(o, m);
      } else if o.freshness.None? {
        MeetingIsSeen(o, m);
      } else {
        MeetingIsSeen(m, o);
      }
    }
    if !Decided(m) {
      var o;
      if m.freshness.Some? {
        o := FreshMeets(m);
        MeetingIsSeen(o, m);
      } else {
        o := PlainMeets(m);
        MeetingIsSeen(m, o);
      }
      assert EncodeBurn(o) == EncodeBurn(m) && o.scope != m.scope;
    }
  }

  lemma BurnBytesDecide(a: BurnMessage, b: BurnMessage)
    requires EncodeBurn(a) == EncodeBurn(b)
    requires a.freshness.Some? == b.freshness.Some? || Decided(a) || Decided(b)
    ensures a.userId == b.userId && a.scope == b.scope
  {
    if a.freshness.Some? == b.freshness.Some? {
      SameFormBurns(a, b);
    } else {
      BurnDecidedExactly(a);
      BurnDecidedExactly(b);
    }
  }

  /** A timestamp that starts like a number's text is no scope name. */
  lemma NumbersAreDecided(m: BurnMessage)
    requires m.freshness.Some?
    requires var t := m.freshness.value.timestamp; t != [] && (48 <= t[0] <= 57 || t[0] == 45 || t[0] == 73)
    ensures Decided(m)
  {
    NamesDiffer();
  }

  /** Whatever the timestamp, nothing shorter than sixteen million bytes can be read in the other form. */
  lemma SmallBurnsAreDecided(m: BurnMessage)
    requires if m.freshness.Some? then |m.freshness.value.requestId| < 0x100_0000 else |Target(m.scope)| <= 0x100_0000
    ensures Decided(m)
  {
    if m.freshness.None? && MeetsPlain(m.scope) {
      var b := PlainMeets(m);
      FormsMeetOnlyWhenAmbiguous(m, b);
    }
  }

  /** For every ambiguous kind and length there is a burn whose bytes are also those of a different, fresh burn. */
  lemma FormsCanMeet(user: Str, s: Scope) returns (a: BurnMessage, b: BurnMessage)
    requires Ambiguous(s)
    ensures a.freshness.None? && b.freshness.Some? && a.userId == b.userId == user
    ensures Flag(a.scope) == Flag(s) && |Target(a.scope)| == |Target(s)| && a.scope != b.scope
    ensures EncodeBurn(a) == EncodeBurn(b)
  {
    var n, k := |Target(s)|, Overlap(s);
    var other := if n + 1 - k == 8 then All else Single(Zeros(n + 1 - k - 15));
    ScopeLength(other);
    var rest := LP(ScopeName(other)) + EncodeTarget(other);
    var x := Zeros(k - 1);
    a := BurnMessage(user, None, WithTarget(s, x + rest));
    b := BurnMessage(user, Some(Fresh(ScopeName(s), [n % 256] + x)), other);
    MeetTarget(s, x, rest);
    MeetBurns(a, b);
  }

  lemma OverlapText(flag: byte, n: nat, x: bytes, rest: bytes)
    requires n < U32_LIMIT
    ensures [flag] + (U32(n) + (x + rest)) == ([flag] + U32(n)[..3]) + ([n % 256] + x) + rest
  {
  }

  // ---- Selector manifest ----

  datatype Manifest = Manifest(version: int, issuedAt: int, minVersion: Str, selectors: seq<(Str, Str)>)

  const U64_LIMIT := U32_LIMIT * U32_LIMIT

  /** Record keys are distinct, and the fixed-width fields are in range. */
  ghost predicate Publishable(m: Manifest) {
    IsU32(m.version) && 0 <= m.issuedAt < U64_LIMIT && |m.selectors| < U32_LIMIT && DistinctKeys(m.selectors)
  }

  /** The order of the record keys: of their UTF-16 code units, as `<` has it. */
  type KeyOrder = (Str, Str) -> bool

  function EncodeEntries(s: seq<(Str, Str)>): bytes {
    if s == [] then [] else LP(s[0].0) + (LP(s[0].1) + EncodeEntries(s[1..]))
  }

  function U64(v: nat): (b: bytes)
    requires v < U64_LIMIT
    ensures |b| == 8
  {
    U32(v / U32_LIMIT) + U32(v % U32_LIMIT)
  }

  function ReadU64(b: bytes): Option<(nat, bytes)> {
    if |b| < 8 then None else Some((FromU32(b[..4]) * U32_LIMIT + FromU32(b[4..8]), b[8..]))
  }

  lemma ReadsU64(v: nat, rest: bytes)
    requires v < U64_LIMIT
    ensures ReadU64(U64(v) + rest) == Some((v, rest))
  {
    var hi, lo := v / U32_LIMIT, v % U32_LIMIT;
    U32RoundTrip(hi);
    U32RoundTrip(lo);
    var b := U64(v) + rest;
    assert b[..4] == U32(hi) && b[4..8] == U32(lo) && b[8..] == rest;
  }

  ghost function EncodeManifest(leq: KeyOrder, m: Manifest): bytes
    requires Publishable(m)
  {
    LP(MANIFEST_DOMAIN) + (U32(m.version) + (U64(m.issuedAt) + (LP(m.minVersion)
      + (U32(|m.selectors|) + EncodeEntries(SortByKey(m.selectors, leq))))))
  }

  function ReadEntries(n: nat, b: bytes): Option<(seq<(Str, Str)>, bytes)> {
    if n == 0 then Some(([], b))
    else
      var k := ReadLP(b);
      if k.None? then None
      else
        var v := ReadLP(k.value.1);
        if v.None? then None
        else
          var rest := ReadEntries(n - 1, v.value.1);
          if rest.None? then None else Some(([(k.value.0, v.value.0)] + rest.value.0, rest.value.1))
  }

  function DecodeManifest(b: bytes): Option<Manifest> {
    var d := ReadLP(b);
    if d.None? || d.value.0 != MANIFEST_DOMAIN then None
    else
      var v := ReadU32(d.value.1);
      if v.None? then None
      else
        var t := ReadU64(v.value.1);
        if t.None? then None
        else
          var c := ReadLP(t.value.1);
          if c.None? then None
          else
            var n := ReadU32(c.value.1);
            if n.None? then None
            else
              var e := ReadEntries(n.value.0, n.value.1);
              if e.None? || e.value.1 != [] then None
              else Some(Manifest(v.value.0, t.value.0, c.value.0, e.value.0))
  }

  lemma ReadEntriesStep(s: seq<(Str, Str)>, t: bytes, u: bytes, b: bytes, rest: bytes)
    requires s != [] && ReadLP(t) == Some((s[0].0, u)) && ReadLP(u) == Some((s[0].1, b))
    requires ReadEntries(|s| - 1, b) == Some((s[1..], rest))
    ensures ReadEntries(|s|, t) == Some((s, rest))
  {
    assert s == [(s[0].0, s[0].1)] + s[1..];
  }

  lemma ReadsEntry(k: Str, v: Str, b: bytes)
    ensures ReadLP(LP(k) + (LP(v) + b)) == Some((k, LP(v) + b)) && ReadLP(LP(v) + b) == Some((v, b))
  {
    ReadsLP(k, LP(v) + b);
    ReadsLP(v, b);
  }

  lemma FirstEntry(s: seq<(Str, Str)>, t: bytes, rest: bytes) returns (u: bytes)
    requires s != [] && t == EncodeEntries(s) + rest
    ensures ReadLP(t) == Some((s[0].0, u)) && ReadLP(u) == Some((s[0].1, EncodeEntries(s[1..]) + rest))
  {
    var b := EncodeEntries(s[1..]) + rest;
    Regroup(LP(s[0].0), LP(s[0].1), EncodeEntries(s[1..]), rest);
    u := LP(s[0].1) + b;
    ReadsEntry(s[0].0, s[0].1, b);
  }

  /** Names the reader without unfolding it. */
  ghost predicate IsReader(read: (nat, bytes) -> Option<(seq<(Str, Str)>, bytes)>) {
    forall n: nat, b: bytes {:trigger ReadEntries(n, b)} :: read(n, b) == ReadEntries(n, b)
  }

  lemma ReadMore(read: (nat, bytes) -> Option<(seq<(Str, Str)>, bytes)>,
                 s: seq<(Str, Str)>, t: bytes, u: bytes, b: bytes, rest: bytes)
    requires IsReader(read) && s != [] && ReadLP(t) == Some((s[0].0, u)) && ReadLP(u) == Some((s[0].1, b))
    requires read(|s| - 1, b) == Some((s[1..], rest))
    ensures read(|s|, t) == Some((s, rest))
  {
    assert read(|s| - 1, b) == ReadEntries(|s| - 1, b) && read(|s|, t) == ReadEntries(|s|, t);
    ReadEntriesStep(s, t, u, b, rest);
  }

  lemma {:induction false} ReadsEntries(read: (nat, bytes) -> Option<(seq<(Str, Str)>, bytes)>,
                                        s: seq<(Str, Str)>, t: bytes, rest: bytes)
    requires IsReader(read) && t == EncodeEntries(s) + rest
    ensures read(|s|, t) == Some((s, rest))
    decreases |s|
  {
    if s == [] {
      assert t == rest && read(0, t) == ReadEntries(0, t);
    } else {
      var b := EncodeEntries(s[1..]) + rest;
      ReadsEntries(read, s[1..], b, rest);
      var u := FirstEntry(s, t, rest);
      ReadMore(read, s, t, u, b, rest);
    }
  }

  /** The bytes give back the version, the issue time, the minimum version and the entries in key order. */
  lemma ManifestDecodes(leq: KeyOrder, m: Manifest)
    requires Publishable(m)
    ensures DecodeManifest(EncodeManifest(leq, m)) == Some(m.(selectors := SortByKey(m.selectors, leq)))
  {
    var e := EncodeEntries(SortByKey(m.selectors, leq));
    var n := U32(|m.selectors|) + e;
    var c := LP(m.minVersion) + n;
    var t := U64(m.issuedAt) + c;
    ReadsLP(MANIFEST_DOMAIN, U32(m.version) + t);
    ReadsU32(m.version, t);
    ReadsU64(m.issuedAt, c);
    ReadsLP(m.minVersion, n);
    ReadsU32(|m.selectors|, e);
    assert e == e + [];
    ReadsEntries((n, b) => ReadEntries(n, b), SortByKey(m.selectors, leq), e, []);
  }

  /** Equal bytes mean the same header and the same selectors, in whatever order they were inserted. */
  lemma ManifestBytesDecide(leq: KeyOrder, m: Manifest, n: Manifest)
    requires TotalOrder(leq) && Publishable(m) && Publishable(n)
    ensures EncodeManifest(leq, m) == EncodeManifest(leq, n)
       <==> && m.version == n.version && m.issuedAt == n.issuedAt && m.minVersion == n.minVersion
            && SameEntries(m.selectors, n.selectors)
  {
    if EncodeManifest(leq, m) == EncodeManifest(leq, n) {
      ManifestDecodes(leq, m);
      ManifestDecodes(leq, n);
      SortPermutes(m.selectors, leq);
      SortPermutes(n.selectors, leq);
    }
    if && m.version == n.version && m.issuedAt == n.issuedAt && m.minVersion == n.minVersion
       && SameEntries(m.selectors, n.selectors) {
      SameLength(m.selectors, n.selectors);
      SortIgnoresOrder(m.selectors, n.selectors, leq);
    }
  }

  lemma ManifestConcat(d: bytes, v: bytes, t: bytes, c: bytes, n: bytes, e: bytes)
    ensures Concat([d, v, t, c, n]) + e == d + (v + (t + (c + (n + e))))
  {
    ConcatOne(d, [v, t, c, n]);
    ConcatOne(v, [t, c, n]);
    ConcatOne(t, [c, n]);
    ConcatOne(c, [n]);
    ConcatOne(n, []);
    assert [d] + [v, t, c, n] == [d, v, t, c, n] && [v] + [t, c, n] == [v, t, c, n];
    assert [t] + [c, n] == [t, c, n] && [c] + [n] == [c, n];
    Nest4(d, v, t, c, n, e);
  }

  lemma Nest4(d: bytes, v: bytes, t: bytes, c: bytes, n: bytes, e: bytes)
    ensures (d + (v + (t + (c + n)))) + e == d + (v + (t + (c + (n + e))))
  {
  }

  /** Sorts the entries, then pushes them; out-of-range fields throw. */
  method CanonicalManifestBytes(leq: KeyOrder, m: Manifest) returns (r: Option<bytes>)
    requires |m.selectors| < U32_LIMIT && DistinctKeys(m.selectors)
    ensures r == if Publishable(m) then Some(EncodeManifest(leq, m)) else None
  {
    if !IsU32(m.version) || !(0 <= m.issuedAt < U64_LIMIT) {
      return None;
    }
    var buf: seq<bytes> := [LP(MANIFEST_DOMAIN)];
    buf := buf + [U32(m.version)];
    buf := buf + [U64(m.issuedAt)];
    buf := buf + [LP(m.minVersion)];
    var entries := SortByKey(m.selectors, leq);
    buf := buf + [U32(|entries|)];
    assert buf == [LP(MANIFEST_DOMAIN), U32(m.version), U64(m.issuedAt), LP(m.minVersion), U32(|entries|)];
    ManifestConcat(
      LP(MANIFEST_DOMAIN), U32(m.version), U64(m.issuedAt), LP(m.minVersion), U32(|entries|), EncodeEntries(entries));
    assert Concat(buf) + EncodeEntries(entries) == EncodeManifest(leq, m);
    var body := PushEntries(buf, entries);
    r := Some(body);
  }

  method PushEntries(head: seq<bytes>, entries: seq<(Str, Str)>) returns (r: bytes)
    ensures r == Concat(head) + EncodeEntries(entries)
  {
    var buf := head;
    assert entries[0..] == entries;
    for i := 0 to |entries|
      invariant Concat(head) + EncodeEntries(entries) == Concat(buf) + EncodeEntries(entries[i..])
    {
      var k, v := LP(entries[i].0), LP(entries[i].1);
      assert entries[i..][1..] == entries[i + 1..];
      PushTwo(buf, k, v);
      EntryStep(Concat(buf), k, v, EncodeEntries(entries[i + 1..]));
      buf := buf + [k];
      buf := buf + [v];
    }
    assert entries[|entries|..] == [];
    assert Concat(buf) + [] == Concat(buf);
    r := Concat(buf);
  }

  // ---- Domains ----

  /** No output of one encoder is an output of another. */
  lemma DomainsSeparate(m: ReplenishMessage, b: BurnMessage, leq: KeyOrder, s: Manifest)
    requires Encodable(m) && Publishable(s)
    ensures EncodeReplenish(m) != EncodeBurn(b)
    ensures EncodeReplenish(m) != EncodeManifest(leq, s)
    ensures EncodeBurn(b) != EncodeManifest(leq, s)
  {
    var x, y, z := EncodeReplenish(m), EncodeBurn(b), EncodeManifest(leq, s);
    assert x[..4] == U32(42) && y[..4] == U32(30) && z[..4] == U32(43);
    assert U32(42)[3] == 42 && U32(30)[3] == 30 && U32(43)[3] == 43;
  }
}
