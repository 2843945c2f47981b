/** The two forms of a replenish, with and without the freshness fields: when their bytes can and cannot coincide. */
module ReplenishForms {
  import opened Wrappers
  import opened Bytes
  import opened KeyserverCodec

  const LIMIT := 0x100_0000

  /** The bytes of base64 texts, padding included, lie in this range. */
  predicate IsChar(b: byte) { 43 <= b <= 122 }

  predicate Chars(s: bytes) { forall i :: 0 <= i < |s| ==> IsChar(s[i]) }

  /** A prekey text as the handler accepts it, within the body limit. */
  predicate GoodPub(o: Opk) { IsU32(o.id) && Chars(o.pub) && 0 < |o.pub| < LIMIT }

  ghost predicate GoodPubs(os: seq<Opk>) { forall i :: 0 <= i < |os| ==> GoodPub(os[i]) && IsU32(os[i].id) }

  function Entry(o: Opk): bytes
    requires IsU32(o.id)
  {
    U32(o.id) + (U32(|o.pub|) + o.pub)
  }

  lemma Assoc3(a: bytes, b: bytes, c: bytes, d: bytes)
    ensures a + (b + (c + d)) == (a + (b + c)) + d
  {
  }

  lemma OneOpk(o: Opk)
    requires IsU32(o.id)
    ensures EncodeOpks([o]) == [] + Entry(o)
  {
    assert [o][1..] == [] && LP(o.pub) + [] == LP(o.pub);
  }

  lemma OpksHead(o: Opk, os: seq<Opk>)
    requires IsU32(o.id) && forall i :: 0 <= i < |os| ==> IsU32(os[i].id)
    ensures EncodeOpks([o] + os) == U32(o.id) + (LP(o.pub) + EncodeOpks(os))
  {
    assert ([o] + os)[1..] == os;
  }

  lemma {:induction false} OpksSnoc(os: seq<Opk>, o: Opk)
    requires IsU32(o.id) && forall i :: 0 <= i < |os| ==> IsU32(os[i].id)
    ensures EncodeOpks(os + [o]) == EncodeOpks(os) + Entry(o)
    decreases |os|
  {
    if os == [] {
      OneOpk(o);
      assert os + [o] == [o];
    } else {
      var head, tail := os[0], os[1..];
      OpksSnoc(tail, o);
      assert IsU32(head.id) && os == [head] + tail && os + [o] == [head] + (tail + [o]);
      OpksHead(head, tail);
      OpksHead(head, tail + [o]);
      Assoc3(U32(head.id), LP(head.pub), EncodeOpks(tail), Entry(o));
    }
  }

  // ---- The last entry can be read from the end ----

  lemma NoCarry(a: nat, d: nat)
    requires a % 256 + d < 256 && a + d < U32_LIMIT
    ensures U32(a + d)[1] == U32(a)[1] && U32(a + d)[2] == U32(a)[2] && U32(a + d)[3] == U32(a)[3] + d
  {
    var h := a / 256;
    assert a + d == h * 256 + (a % 256 + d);
    assert (a + d) / 256 == h && (a + d) % 256 == a % 256 + d;
    assert a / 0x1_0000 == h / 256 && (a + d) / 0x1_0000 == h / 256;
  }

  /** The length of a shorter text cannot lie inside a longer text and the end of its length. */
  lemma NoShift(a: nat, b: nat, v: bytes)
    requires a < b < LIMIT && b - a < 4 && |v| == b && Chars(v)
    ensures !(forall k :: 0 <= k < 4 ==> U32(a)[k] == (U32(b) + v)[k + (b - a)])
  {
    var d := b - a;
    var all := U32(b) + v;
    if forall k :: 0 <= k < 4 ==> U32(a)[k] == all[k + d] {
      assert U32(a)[0] == 0 && U32(a)[0] == all[d] && U32(a)[1] == all[1 + d];
      assert U32(a)[2] == all[2 + d] && U32(a)[3] == all[3 + d] == v[d - 1];
      NoCarry(a, d);
    }
  }

  lemma FromTheEnd(x: bytes, u: bytes, k: nat)
    requires |u| < U32_LIMIT && k < 4 + |u|
    ensures var s := x + (U32(|u|) + u);
            |s| - |u| - 4 + k >= 0 && s[|s| - |u| - 4 + k] == (U32(|u|) + u)[k]
  {
  }

  lemma NotLonger(x: bytes, u: bytes, y: bytes, v: bytes)
    requires |u| < |v| < LIMIT && Chars(v)
    ensures x + (U32(|u|) + u) != y + (U32(|v|) + v)
  {
    var d := |v| - |u|;
    if d >= 4 {
      FromTheEnd(x, u, 0);
      FromTheEnd(y, v, d);
      assert U32(|u|)[0] == 0 && (U32(|v|) + v)[d] == v[d - 4];
    } else {
      NoShift(|u|, |v|, v);
      var k :| 0 <= k < 4 && U32(|u|)[k] != (U32(|v|) + v)[k + d];
      FromTheEnd(x, u, k);
      FromTheEnd(y, v, k + d);
    }
  }

  lemma SameEnds(x: bytes, a: bytes, y: bytes, b: bytes)
    requires x + a == y + b && |a| == |b|
    ensures x == y && a == b
  {
    assert (x + a)[..|x|] == x && (y + b)[..|y|] == y;
    assert (x + a)[|x|..] == a && (y + b)[|y|..] == b;
  }

  lemma LastEntry(x: bytes, o: Opk, y: bytes, p: Opk)
    requires GoodPub(o) && GoodPub(p) && x + Entry(o) == y + Entry(p)
    ensures x == y && o == p
  {
    var s := x + Entry(o);
    var xo, yp := x + U32(o.id), y + U32(p.id);
    assert s == xo + (U32(|o.pub|) + o.pub) && s == yp + (U32(|p.pub|) + p.pub);
    if |o.pub| < |p.pub| {
      NotLonger(xo, o.pub, yp, p.pub);
    } else if |p.pub| < |o.pub| {
      NotLonger(yp, p.pub, xo, o.pub);
    }
    SameEnds(xo, U32(|o.pub|) + o.pub, yp, U32(|p.pub|) + p.pub);
    SameEnds(U32(|o.pub|), o.pub, U32(|p.pub|), p.pub);
    SameEnds(x, U32(o.id), y, U32(p.id));
    U32Injective(o.id, p.id);
  }

  lemma Fitting(os: seq<Opk>)
    requires GoodPubs(os)
    ensures forall i :: 0 <= i < |os| ==> IsU32(os[i].id)
  {
  }

  lemma Last(x: bytes, os: seq<Opk>, o: Opk)
    requires GoodPubs(os) && GoodPub(o) && GoodPubs(os + [o])
    ensures x + EncodeOpks(os + [o]) == (x + EncodeOpks(os)) + Entry(o)
  {
    Fitting(os);
    OpksSnoc(os, o);
    Regrouped(x, EncodeOpks(os), Entry(o));
  }

  lemma Split(os: seq<Opk>) returns (init: seq<Opk>, o: Opk)
    requires os != [] && GoodPubs(os)
    ensures os == init + [o] && GoodPubs(init) && GoodPub(o)
  {
    init, o := os[..|os| - 1], os[|os| - 1];
  }

  /** Equal texts end in the same prekeys, as far as both have them. */
  lemma {:induction false} Aligned(x: bytes, os: seq<Opk>, y: bytes, ps: seq<Opk>)
    requires GoodPubs(os) && GoodPubs(ps) && |ps| <= |os| && x + EncodeOpks(os) == y + EncodeOpks(ps)
    ensures var n := |os| - |ps|;
            GoodPubs(os[..n]) && os[n..] == ps && x + EncodeOpks(os[..n]) == y
    decreases |os|
  {
    if ps == [] {
      assert os[..|os|] == os && y + [] == y;
    } else {
      var oi, o := Split(os);
      var pi, p := Split(ps);
      Last(x, oi, o);
      Last(y, pi, p);
      LastEntry(x + EncodeOpks(oi), o, y + EncodeOpks(pi), p);
      Aligned(x, oi, y, pi);
      var n := |os| - |ps|;
      assert oi[..n] == os[..n] && os[n..] == oi[n..] + [o];
    }
  }

  lemma Regrouped(x: bytes, a: bytes, b: bytes)
    ensures x + (a + b) == (x + a) + b
  {
  }

  // ---- Exactly when the forms meet ----

  /** Counts, timestamp and prekey texts below 2^24, which any body within the server's default limit has. */
  ghost predicate Receivable(m: ReplenishMessage) {
    && |m.opks| < LIMIT && GoodPubs(m.opks)
    && (m.freshness.Some? ==> |m.freshness.value.timestamp| < LIMIT)
  }

  function Front(m: ReplenishMessage): bytes { EncodeFresh(m.freshness) + EncodeSpk(m.spk) }

  lemma Counted(m: ReplenishMessage)
    requires Encodable(m)
    ensures EncodeReplenish(m)
         == LP(REPLENISH_DOMAIN) + (LP(m.userId) + ((Front(m) + U32(|m.opks|)) + EncodeOpks(m.opks)))
  {
    var f, s, n, o := EncodeFresh(m.freshness), EncodeSpk(m.spk), U32(|m.opks|), EncodeOpks(m.opks);
    assert f + (s + (n + o)) == ((f + s) + n) + o;
  }

  /** The length and text of a prekey, cut before the last four bytes. */
  function Head(o: Opk): bytes
  {
    (U32(|o.pub|) + o.pub)[..|o.pub|]
  }

  /** The number that the last four bytes of a prekey's length and text spell. */
  function Spelled(o: Opk): nat
  {
    FromU32((U32(|o.pub|) + o.pub)[|o.pub|..])
  }

  /** What comes before those four bytes, for prekey `k` of a plain message. */
  function Before(a: ReplenishMessage, k: nat): bytes
    requires Encodable(a) && k < |a.opks|
  {
    ((Front(a) + U32(|a.opks|)) + EncodeOpks(a.opks[..k])) + (U32(a.opks[k].id) + Head(a.opks[k]))
  }

  /** Freshness fields and signed prekey, and nothing else. */
  function ReadFront(b: bytes): Option<(Option<Fresh>, Option<Spk>)> {
    var f := ReadFresh(true, b);
    if f.None? then None
    else
      var s := ReadSpk(f.value.1);
      if s.None? || s.value.1 != [] then None else Some((f.value.0, s.value.0))
  }

  /** Prekey `k` ends in the number of prekeys after it, and what comes before reads as a fresh message's front. */
  predicate MeetsAt(a: ReplenishMessage, k: nat)
    requires Encodable(a) && k < |a.opks|
  {
    a.spk.None? && Spelled(a.opks[k]) == |a.opks| - 1 - k && ReadFront(Before(a, k)).Some?
  }

  ghost predicate Meets(a: ReplenishMessage)
    requires Encodable(a)
  {
    exists k :: 0 <= k < |a.opks| && MeetsAt(a, k)
  }

  lemma ReadsFront(m: ReplenishMessage)
    requires m.freshness.Some?
    ensures ReadFront(Front(m)) == Some((m.freshness, m.spk))
  {
    ReadsFresh(m.freshness, EncodeSpk(m.spk));
    assert EncodeSpk(m.spk) == EncodeSpk(m.spk) + [];
    ReadsSpk(m.spk, []);
  }

  lemma FrontOfReading(b: bytes, m: ReplenishMessage)
    requires ReadFront(b) == Some((m.freshness, m.spk))
    ensures m.freshness.Some? && b == Front(m)
  {
    LPOfReading(b);
    var r := ReadLP(b).value.1;
    LPOfReading(r);
    var t := ReadLP(r).value.1;
    SpkOfReading(t);
    assert EncodeSpk(m.spk) + [] == EncodeSpk(m.spk);
    Regrouped(LP(ReadLP(b).value.0), LP(ReadLP(r).value.0), t);
  }

  lemma SpkOfReading(b: bytes)
    requires ReadSpk(b).Some?
    ensures b == EncodeSpk(ReadSpk(b).value.0) + ReadSpk(b).value.1
  {
    assert b == [b[0]] + b[1..];
    if b[0] == 1 {
      var u := b[1..];
      LPOfReading(u);
      var v := ReadLP(u).value.1;
      LPOfReading(v);
      var w := ReadLP(v).value.1;
      LPOfReading(w);
      Nested([1], LP(ReadLP(u).value.0), LP(ReadLP(v).value.0), LP(ReadLP(w).value.0), ReadLP(w).value.1);
    }
  }

  lemma Nested(a: bytes, b: bytes, c: bytes, d: bytes, e: bytes)
    ensures a + (b + (c + (d + e))) == a + (b + (c + d)) + e
  {
  }

  lemma U32OfReading(b: bytes)
    requires ReadU32(b).Some?
    ensures IsU32(ReadU32(b).value.0) && b == U32(ReadU32(b).value.0) + ReadU32(b).value.1
  {
    FromU32RoundTrip(b[..4]);
  }

  lemma {:induction false} OpksOfReading(n: nat, b: bytes)
    requires ReadOpks(n, b).Some?
    ensures var os := ReadOpks(n, b).value.0;
            && |os| == n && (forall i :: 0 <= i < n ==> IsU32(os[i].id))
            && b == EncodeOpks(os) + ReadOpks(n, b).value.1
    decreases n
  {
    if n == 0 {
      assert b == [] + b;
    } else {
      U32OfReading(b);
      var i := ReadU32(b).value;
      LPOfReading(i.1);
      var p := ReadLP(i.1).value;
      OpksOfReading(n - 1, p.1);
      var tail := ReadOpks(n - 1, p.1).value;
      OpksHead(Opk(i.0, p.0), tail.0);
      Assoc3(U32(i.0), LP(p.0), EncodeOpks(tail.0), tail.1);
    }
  }

  lemma FreshOfReading(form: bool, b: bytes)
    requires ReadFresh(form, b).Some?
    ensures ReadFresh(form, b).value.0.Some? == form
    ensures b == EncodeFresh(ReadFresh(form, b).value.0) + ReadFresh(form, b).value.1
  {
    if form {
      LPOfReading(b);
      LPOfReading(ReadLP(b).value.1);
      Regrouped(LP(ReadLP(b).value.0), LP(ReadLP(ReadLP(b).value.1).value.0), ReadFresh(form, b).value.1);
    } else {
      assert b == [] + b;
    }
  }

  lemma CountedOfReading(s: bytes, n: nat, t: bytes, os: seq<Opk>)
    requires ReadU32(s) == Some((n, t)) && ReadOpks(n, t) == Some((os, []))
    ensures |os| == n < U32_LIMIT && (forall i :: 0 <= i < n ==> IsU32(os[i].id)) && s == U32(|os|) + EncodeOpks(os)
  {
    U32OfReading(s);
    OpksOfReading(n, t);
    assert EncodeOpks(os) + [] == EncodeOpks(os);
  }

  lemma HeadOfReading(b: bytes, d: (Str, bytes), u: (Str, bytes))
    requires ReadLP(b) == Some(d) && ReadLP(d.1) == Some(u)
    ensures b == LP(d.0) + (LP(u.0) + u.1)
  {
    LPOfReading(b);
    LPOfReading(d.1);
  }

  lemma MiddleOfReading(form: bool, u: bytes, f: (Option<Fresh>, bytes), s: (Option<Spk>, bytes))
    requires ReadFresh(form, u) == Some(f) && ReadSpk(f.1) == Some(s)
    ensures f.0.Some? == form && u == EncodeFresh(f.0) + (EncodeSpk(s.0) + s.1)
  {
    FreshOfReading(form, u);
    SpkOfReading(f.1);
  }

  /** What a decoder accepts is the encoding of what it returns. */
  lemma ReplenishOfReading(form: bool, b: bytes, m: ReplenishMessage)
    requires DecodeReplenish(form, b) == Some(m)
    ensures m.freshness.Some? == form && Encodable(m) && EncodeReplenish(m) == b
  {
    var d := ReadLP(b).value;
    var u := ReadLP(d.1).value;
    HeadOfReading(b, d, u);
    var f := ReadFresh(form, u.1).value;
    var s := ReadSpk(f.1).value;
    MiddleOfReading(form, u.1, f, s);
    var n := ReadU32(s.1).value;
    CountedOfReading(s.1, n.0, n.1, m.opks);
  }

  lemma EntrySplits(x: bytes, o: Opk)
    requires GoodPub(o)
    ensures x + Entry(o) == (x + (U32(o.id) + Head(o))) + U32(Spelled(o))
  {
    var t := U32(|o.pub|) + o.pub;
    assert t == t[..|o.pub|] + t[|o.pub|..];
    FromU32RoundTrip(t[|o.pub|..]);
  }

  /** The plain text up to and including prekey `k` is what comes before, then the number it spells. */
  lemma PlainSplits(a: ReplenishMessage, k: nat)
    requires Encodable(a) && GoodPubs(a.opks) && k < |a.opks|
    ensures (Front(a) + U32(|a.opks|)) + EncodeOpks(a.opks[..k + 1]) == Before(a, k) + U32(Spelled(a.opks[k]))
  {
    var x := Front(a) + U32(|a.opks|);
    assert a.opks[..k + 1] == a.opks[..k] + [a.opks[k]];
    Last(x, a.opks[..k], a.opks[k]);
    EntrySplits(x + EncodeOpks(a.opks[..k]), a.opks[k]);
  }

  lemma {:induction false} OpksConcat(os: seq<Opk>, ps: seq<Opk>)
    requires GoodPubs(os) && GoodPubs(ps) && GoodPubs(os + ps)
    ensures EncodeOpks(os + ps) == EncodeOpks(os) + EncodeOpks(ps)
    decreases |os|
  {
    if os == [] {
      assert os + ps == ps && [] + EncodeOpks(ps) == EncodeOpks(ps);
    } else {
      var head, tail := os[0], os[1..];
      assert IsU32(head.id) && os == [head] + tail && os + ps == [head] + (tail + ps);
      OpksConcat(tail, ps);
      OpksHead(head, tail);
      OpksHead(head, tail + ps);
      Assoc3(U32(head.id), LP(head.pub), EncodeOpks(tail), EncodeOpks(ps));
    }
  }

  lemma PlainIsFresh(a: ReplenishMessage, k: nat, os: seq<Opk>)
    requires Encodable(a) && GoodPubs(a.opks) && k < |a.opks| && os == a.opks[k + 1..] && GoodPubs(os)
    ensures (Front(a) + U32(|a.opks|)) + EncodeOpks(a.opks)
            == (Before(a, k) + U32(Spelled(a.opks[k]))) + EncodeOpks(os)
  {
    PlainSplits(a, k);
    assert a.opks == a.opks[..k + 1] + os;
    OpksConcat(a.opks[..k + 1], os);
    Regrouped(Front(a) + U32(|a.opks|), EncodeOpks(a.opks[..k + 1]), EncodeOpks(os));
  }

  lemma SameTexts(a: ReplenishMessage, k: nat, b: ReplenishMessage)
    requires Encodable(a) && GoodPubs(a.opks) && k < |a.opks| && Spelled(a.opks[k]) == |a.opks| - 1 - k
    requires Encodable(b) && b.opks == a.opks[k + 1..] && Front(b) == Before(a, k) && a.userId == b.userId
    ensures EncodeReplenish(a) == EncodeReplenish(b)
  {
    PlainIsFresh(a, k, b.opks);
    Counted(a);
    Counted(b);
  }

  lemma BeforeStarts(a: ReplenishMessage, k: nat, b: ReplenishMessage)
    requires Encodable(a) && k < |a.opks| && a.freshness.None? && a.spk.None?
    requires b.freshness.Some? && Front(b) == Before(a, k)
    ensures |b.freshness.value.timestamp| < LIMIT
  {
    FrontStarts(a);
    FrontStarts(b);
    assert Before(a, k)[0] == Front(a)[0];
    HighByte(|b.freshness.value.timestamp|);
  }

  /** The fresh message that has the bytes of a plain one. */
  lemma PlainMeets(a: ReplenishMessage, k: nat) returns (b: ReplenishMessage)
    requires Encodable(a) && Receivable(a) && a.freshness.None? && k < |a.opks| && MeetsAt(a, k)
    ensures b.freshness.Some? && Encodable(b) && Receivable(b) && EncodeReplenish(a) == EncodeReplenish(b)
    ensures b.userId == a.userId && ReadFront(Before(a, k)) == Some((b.freshness, b.spk)) && b.opks == a.opks[k + 1..]
  {
    var front := ReadFront(Before(a, k)).value;
    b := ReplenishMessage(a.userId, front.0, front.1, a.opks[k + 1..]);
    FrontOfReading(Before(a, k), b);
    SameTexts(a, k, b);
    BeforeStarts(a, k, b);
  }

  lemma HighByte(n: nat)
    requires n < U32_LIMIT
    ensures U32(n)[0] == 0 <==> n < LIMIT
  {
  }

  lemma FrontsDiffer(fa: bytes, ca: bytes, fb: bytes, cb: bytes, e: bytes)
    requires |ca| == |cb| == 4 && fa != [] && (|fa| == 1 || fa[0] == 1) && |fb| >= 9 && fb[0] == 0
    ensures fa + ca != (fb + cb) + e
  {
    assert (fa + ca)[0] == fa[0] && ((fb + cb) + e)[0] == fb[0];
  }

  lemma FrontStarts(a: ReplenishMessage)
    ensures |Front(a)| >= 1
    ensures a.freshness.None? ==> Front(a)[0] == if a.spk.None? then 0 else 1
    ensures a.freshness.None? && a.spk.None? ==> |Front(a)| == 1
    ensures a.freshness.Some? ==> |Front(a)| >= 9 && Front(a)[0] == U32(|a.freshness.value.timestamp|)[0]
  {
  }

  lemma Tail(a: ReplenishMessage, b: ReplenishMessage)
    requires Encodable(a) && Encodable(b) && EncodeReplenish(a) == EncodeReplenish(b)
    ensures a.userId == b.userId
    ensures (Front(a) + U32(|a.opks|)) + EncodeOpks(a.opks) == (Front(b) + U32(|b.opks|)) + EncodeOpks(b.opks)
  {
    Counted(a);
    Counted(b);
    var x := (Front(a) + U32(|a.opks|)) + EncodeOpks(a.opks);
    var y := (Front(b) + U32(|b.opks|)) + EncodeOpks(b.opks);
    LPSplits(REPLENISH_DOMAIN, LP(a.userId) + x, REPLENISH_DOMAIN, LP(b.userId) + y);
    LPSplits(a.userId, x, b.userId, y);
  }

  lemma SameUser(a: ReplenishMessage, b: ReplenishMessage)
    requires Encodable(a) && Encodable(b) && EncodeReplenish(a) == EncodeReplenish(b)
    ensures a.userId == b.userId
  {
    Tail(a, b);
  }

  lemma FreshHoldsFewer(a: ReplenishMessage, b: ReplenishMessage)
    requires Encodable(a) && Encodable(b) && Receivable(a) && Receivable(b)
    requires a.freshness.None? && b.freshness.Some? && |a.opks| <= |b.opks|
    ensures (Front(a) + U32(|a.opks|)) + EncodeOpks(a.opks) != (Front(b) + U32(|b.opks|)) + EncodeOpks(b.opks)
  {
    FrontStarts(a);
    FrontStarts(b);
    HighByte(|b.freshness.value.timestamp|);
    var x, y := Front(a) + U32(|a.opks|), Front(b) + U32(|b.opks|);
    if x + EncodeOpks(a.opks) == y + EncodeOpks(b.opks) {
      Aligned(y, b.opks, x, a.opks);
      FrontsDiffer(Front(a), U32(|a.opks|), Front(b), U32(|b.opks|), EncodeOpks(b.opks[..|b.opks| - |a.opks|]));
    }
  }

  /** A fresh message with the bytes of a plain one holds fewer prekeys, and the plain one meets it where they begin. */
  lemma MeetingIsSeen(a: ReplenishMessage, b: ReplenishMessage)
    requires Encodable(a) && Encodable(b) && Receivable(a) && Receivable(b)
    requires a.freshness.None? && b.freshness.Some? && EncodeReplenish(a) == EncodeReplenish(b)
    ensures |b.opks| < |a.opks|
    ensures var k := |a.opks| - 1 - |b.opks|;
            && MeetsAt(a, k) && a.spk.None? && a.userId == b.userId
            && ReadFront(Before(a, k)) == Some((b.freshness, b.spk)) && b.opks == a.opks[k + 1..]
  {
    Tail(a, b);
    if |a.opks| <= |b.opks| {
      FreshHoldsFewer(a, b);
    } else {
      MeetingAt(a, b, |a.opks| - 1 - |b.opks|);
    }
  }

  lemma MeetingAt(a: ReplenishMessage, b: ReplenishMessage, k: nat)
    requires Encodable(a) && Encodable(b) && Receivable(a) && Receivable(b) && |a.opks| == |b.opks| + 1 + k
    requires a.freshness.None? && b.freshness.Some?
    requires (Front(a) + U32(|a.opks|)) + EncodeOpks(a.opks) == (Front(b) + U32(|b.opks|)) + EncodeOpks(b.opks)
    ensures MeetsAt(a, k) && a.spk.None? && ReadFront(Before(a, k)) == Some((b.freshness, b.spk))
    ensures b.opks == a.opks[k + 1..]
  {
    FrontIsBefore(a, b, k);
    ReadsFront(b);
    NoSigned(a, b, k);
  }

  lemma FrontIsBefore(a: ReplenishMessage, b: ReplenishMessage, k: nat)
    requires Encodable(a) && Encodable(b) && GoodPubs(a.opks) && GoodPubs(b.opks) && |a.opks| == |b.opks| + 1 + k
    requires (Front(a) + U32(|a.opks|)) + EncodeOpks(a.opks) == (Front(b) + U32(|b.opks|)) + EncodeOpks(b.opks)
    ensures Front(b) == Before(a, k) && Spelled(a.opks[k]) == |b.opks| && b.opks == a.opks[k + 1..]
  {
    Aligned(Front(a) + U32(|a.opks|), a.opks, Front(b) + U32(|b.opks|), b.opks);
    PlainSplits(a, k);
    SameEnds(Before(a, k), U32(Spelled(a.opks[k])), Front(b), U32(|b.opks|));
    U32Injective(Spelled(a.opks[k]), |b.opks|);
  }

  lemma NoSigned(a: ReplenishMessage, b: ReplenishMessage, k: nat)
    requires Encodable(a) && k < |a.opks| && a.freshness.None? && b.freshness.Some? && Front(b) == Before(a, k)
    requires |b.freshness.value.timestamp| < LIMIT
    ensures a.spk.None?
  {
    FrontStarts(a);
    FrontStarts(b);
    assert Before(a, k)[0] == Front(a)[0];
    HighByte(|b.freshness.value.timestamp|);
  }

  /** A receivable plain replenish shares its bytes with a receivable fresh one exactly when it meets one. */
  lemma FormsMeetExactly(a: ReplenishMessage)
    requires Encodable(a) && Receivable(a) && a.freshness.None?
    ensures Meets(a) <==>
            exists b: ReplenishMessage ::
              b.freshness.Some? && Encodable(b) && Receivable(b) && EncodeReplenish(b) == EncodeReplenish(a)
  {
    if Meets(a) {
      var k :| 0 <= k < |a.opks| && MeetsAt(a, k);
      var b := PlainMeets(a, k);
    }
    if b: ReplenishMessage :|
      b.freshness.Some? && Encodable(b) && Receivable(b) && EncodeReplenish(b) == EncodeReplenish(a)
    {
      MeetingIsSeen(a, b);
    }
  }

  lemma LongTextSpellsMore(o: Opk)
    requires GoodPub(o) && |o.pub| >= 3
    ensures Spelled(o) >= LIMIT
  {
    var t := (U32(|o.pub|) + o.pub)[|o.pub|..];
    assert t[0] == if |o.pub| == 3 then 3 else o.pub[|o.pub| - 4];
  }

  /** With prekey texts of three characters or more, and a 32-byte key has forty-four, the forms never meet. */
  lemma LongTextsNeverMeet(a: ReplenishMessage)
    requires Encodable(a) && Receivable(a) && forall i :: 0 <= i < |a.opks| ==> |a.opks[i].pub| >= 3
    ensures !Meets(a)
  {
    forall k | 0 <= k < |a.opks|
      ensures !MeetsAt(a, k)
    {
      LongTextSpellsMore(a.opks[k]);
    }
  }

  /** No plain message that a receivable fresh one shares its bytes with. */
  ghost predicate Decided(m: ReplenishMessage)
    requires Encodable(m)
  {
    m.freshness.Some? || !Meets(m)
  }

  /** Receivable replenishes of any forms are told apart by their bytes, when the plain one meets no other. */
  lemma ReceivableBytesDecide(a: ReplenishMessage, b: ReplenishMessage)
    requires Encodable(a) && Encodable(b) && Receivable(a) && Receivable(b) && EncodeReplenish(a) == EncodeReplenish(b)
    requires a.freshness.Some? == b.freshness.Some? || (Decided(a) && Decided(b))
    ensures a == b
  {
    if a.freshness.Some? == b.freshness.Some? {
      ReplenishDecodes(a);
      ReplenishDecodes(b);
    } else if a.freshness.None? {
      MeetingIsSeen(a, b);
    } else {
      MeetingIsSeen(b, a);
    }
  }

  // ---- A pair that meets ----

  const PLUS: Str := [43]
  const ZERO: Str := [48]

  /** The request id that reads like the text of one prekey, three more, and the id of a fifth. */
  function Request(pub: Str, three: seq<Opk>, id: int): bytes
    requires GoodPubs(three) && IsU32(id)
  {
    LP(pub) + (EncodeOpks(three) + U32(id))
  }

  lemma SameLetters(z: bytes, n: bytes, p: bytes, t: bytes, i: bytes)
    ensures ((([0] + z) + (n + (p + t))) + (i + [0])) == (([0] + z) + (n + (p + (t + i)))) + [0]
  {
  }

  lemma Literals()
    ensures [0] + U32(304) == U32(1) + ZERO && Head(Opk(0, PLUS)) == [0] && Spelled(Opk(0, PLUS)) == 299
  {
    assert U32(304) == [0, 0, 1, 48] && U32(1) == [0, 0, 0, 1];
    assert (U32(1) + PLUS)[..1] == [0] && (U32(1) + PLUS)[1..] == [0, 0, 1, 43];
  }

  lemma PlusSpells(id: int)
    ensures Head(Opk(id, PLUS)) == [0] && Spelled(Opk(id, PLUS)) == 299
  {
    Literals();
  }

  lemma MeetingText(a: ReplenishMessage, b: ReplenishMessage, pub: Str, three: seq<Opk>, id: int, request: Str)
    requires GoodPubs(three) && IsU32(id) && |three| == 3 && request == Request(pub, three, id)
    requires Encodable(a) && |a.opks| == 304 && a.freshness.None? && a.spk.None?
    requires a.opks[..4] == [Opk(|request|, pub)] + three && a.opks[4] == Opk(id, PLUS)
    requires b.freshness == Some(Fresh(ZERO, request)) && b.spk.None?
    ensures Before(a, 4) == Front(b) && Spelled(a.opks[4]) == 299
  {
    Literals();
    PlusSpells(id);
    OpksHead(Opk(|request|, pub), three);
    SameLetters(U32(304), U32(|request|), LP(pub), EncodeOpks(three), U32(id));
    assert Front(a) == [0];
    assert Front(b) == ((U32(1) + ZERO) + (U32(|request|) + request)) + [0];
  }

  /** With a text of one character the forms can meet, even at a numeric timestamp: the plain one adds five more. */
  lemma ShortTextsCanMeet(user: Str, pub: Str, three: seq<Opk>, id: int, request: Str, common: seq<Opk>)
    returns (a: ReplenishMessage, b: ReplenishMessage)
    requires GoodPubs(three) && |three| == 3 && IsU32(id) && request == Request(pub, three, id)
    requires GoodPubs([Opk(|request|, pub)]) && |common| == 299 && GoodPubs(common)
    ensures a == ReplenishMessage(user, None, None, [Opk(|request|, pub)] + three + [Opk(id, PLUS)] + common)
    ensures b == ReplenishMessage(user, Some(Fresh(ZERO, request)), None, common)
    ensures Encodable(a) && Receivable(a) && Encodable(b) && Receivable(b) && EncodeReplenish(a) == EncodeReplenish(b)
  {
    var five := [Opk(|request|, pub)] + three + [Opk(id, PLUS)];
    a := ReplenishMessage(user, None, None, five + common);
    b := ReplenishMessage(user, Some(Fresh(ZERO, request)), None, common);
    GoodConcat([Opk(|request|, pub)], three);
    GoodConcat([Opk(|request|, pub)] + three, [Opk(id, PLUS)]);
    GoodConcat(five, common);
    assert a.opks[..4] == [Opk(|request|, pub)] + three && a.opks[4] == Opk(id, PLUS) && a.opks[5..] == common;
    MeetingText(a, b, pub, three, id, request);
    SameTexts(a, 4, b);
  }

  lemma GoodConcat(os: seq<Opk>, ps: seq<Opk>)
    requires GoodPubs(os) && GoodPubs(ps)
    ensures GoodPubs(os + ps)
  {
  }
}
