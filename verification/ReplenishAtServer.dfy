/** Replenishes of any forms at the server: exactly when the signed bytes decide what they change. */
module ReplenishAtServer {
  import opened Wrappers
  import opened Bytes
  import opened KeyserverCodec
  import opened KeyDatabase
  import opened KeyServer
  import Forms = ReplenishForms

  /** Shorter than 2^24, as all that a body of one mebibyte holds is, and all that `String` makes of its fields. */
  ghost predicate WithinBody(m: ReplenishMessage) {
    && |m.opks| < Forms.LIMIT && (forall i :: 0 <= i < |m.opks| ==> |m.opks[i].pub| < Forms.LIMIT)
    && (m.freshness.Some? ==> |m.freshness.value.timestamp| < Forms.LIMIT)
  }

  // ---- What the handler asks of a message, signature apart ----

  predicate GoodSpkTexts(p: Platform, s: Spk) {
    IsBase64(s.pub) && IsBase64(s.signature) && s.rotatedAt != [] && p.isDate(s.rotatedAt)
  }

  ghost predicate IsShown(p: Platform, s: Str) { exists f: Field :: !f.Absent? && p.show(f) == Some(s) }
  ghost predicate IsBuffer(p: Platform, s: Str) { exists f: Field :: !f.Absent? && p.bufferFrom(f) == Some(s) }

  ghost predicate GoodFront(p: Platform, f: Option<Fresh>, s: Option<Spk>) {
    && (f.Some? ==> IsShown(p, f.value.timestamp) && IsBuffer(p, f.value.requestId))
    && (s.Some? ==> GoodSpkTexts(p, s.value))
  }

  ghost predicate Base64Pubs(os: seq<Opk>) { forall i :: 0 <= i < |os| ==> IsBase64(os[i].pub) }

  /** Some body with this message passes every check but that of the signature. */
  ghost predicate Admits(p: Platform, db: Db, m: ReplenishMessage) {
    && m.userId != [] && m.userId in db.users && Encodable(m) && WithinBody(m)
    && GoodFront(p, m.freshness, m.spk) && Base64Pubs(m.opks) && Fits(PoolIn(db.pools, m.userId), m.opks)
  }

  ghost predicate Accepted(p: Platform, db: Db, b: ReplenishBody) {
    ReplenishReply(p, db, b) == Ok && WithinBody(ReplenishMessageOf(p, b))
  }

  lemma AcceptedAdmits(p: Platform, db: Db, b: ReplenishBody)
    requires Accepted(p, db, b)
    ensures Admits(p, db, ReplenishMessageOf(p, b))
  {
    var m, bodies := ReplenishMessageOf(p, b), b.opks.value;
    forall i | 0 <= i < |m.opks|
      ensures IsBase64(m.opks[i].pub)
    {
      assert GoodOpk(bodies[i]);
    }
  }

  function OpkBodies(os: seq<Opk>): (r: seq<OpkBody>)
    ensures |r| == |os| && forall i :: 0 <= i < |os| ==> r[i] == OpkBody(Integer(os[i].id), Text(os[i].pub))
  {
    seq(|os|, i requires 0 <= i < |os| => OpkBody(Integer(os[i].id), Text(os[i].pub)))
  }

  function SpkBodyOf(s: Option<Spk>): Option<SpkBody> {
    if s.None? then None else Some(SpkBody(Text(s.value.pub), Text(s.value.signature), Text(s.value.rotatedAt)))
  }

  function BodyOf(m: ReplenishMessage, signature: Str, timestamp: Field, requestId: Field): ReplenishBody {
    ReplenishBody(
      Text(m.userId), Text(signature), timestamp, requestId, SpkBodyOf(m.spk), Some(OpkBodies(m.opks)))
  }

  ghost predicate Fields(p: Platform, f: Option<Fresh>, timestamp: Field, requestId: Field) {
    FreshOf(p, timestamp, requestId) == f && !FreshThrows(p, timestamp, requestId)
  }

  lemma FieldsExist(p: Platform, f: Option<Fresh>) returns (timestamp: Field, requestId: Field)
    requires f.Some? ==> IsShown(p, f.value.timestamp) && IsBuffer(p, f.value.requestId)
    ensures Fields(p, f, timestamp, requestId)
  {
    timestamp, requestId := Absent, Absent;
    if f.Some? {
      timestamp :| !timestamp.Absent? && p.show(timestamp) == Some(f.value.timestamp);
      requestId :| !requestId.Absent? && p.bufferFrom(requestId) == Some(f.value.requestId);
    }
  }

  lemma BodyHasMessage(p: Platform, db: Db, m: ReplenishMessage, signature: Str, timestamp: Field, requestId: Field)
    requires Admits(p, db, m) && IsBase64(signature) && Fields(p, m.freshness, timestamp, requestId)
    ensures var b := BodyOf(m, signature, timestamp, requestId);
            GoodReplenish(p, b) && ReplenishMessageOf(p, b) == m
  {
    var b := BodyOf(m, signature, timestamp, requestId);
    forall i | 0 <= i < |m.opks|
      ensures GoodOpk(b.opks.value[i])
    {
      assert IsBase64(m.opks[i].pub) && IsU32(m.opks[i].id);
    }
    assert OpksOf(b.opks.value) == m.opks;
  }

  /** And conversely, given a signature that verifies. */
  lemma AdmittedIsAccepted(p: Platform, db: Db, m: ReplenishMessage, signature: Str, timestamp: Field, requestId: Field)
    requires Admits(p, db, m) && IsBase64(signature) && Fields(p, m.freshness, timestamp, requestId)
    requires p.verify(db.users[m.userId].identity.ed25519, EncodeReplenish(m), signature)
    ensures var b := BodyOf(m, signature, timestamp, requestId);
            Accepted(p, db, b) && ReplenishMessageOf(p, b) == m
  {
    BodyHasMessage(p, db, m, signature, timestamp, requestId);
  }

  lemma Base64IsText(s: Str)
    requires IsBase64(s)
    ensures s != [] && Forms.Chars(s)
  {
  }

  lemma AdmittedIsReceivable(p: Platform, db: Db, m: ReplenishMessage)
    requires Admits(p, db, m)
    ensures Forms.Receivable(m)
  {
    forall i | 0 <= i < |m.opks|
      ensures Forms.GoodPub(m.opks[i]) && IsU32(m.opks[i].id)
    {
      assert IsBase64(m.opks[i].pub);
      Base64IsText(m.opks[i].pub);
    }
  }

  // ---- Fewer prekeys are another change ----

  lemma FewerIsAnother(db: Db, u: Str, os: seq<Opk>, n: nat, spk: Option<Spk>)
    requires u in db.users && Fits(PoolIn(db.pools, u), os) && 0 < n <= |os|
    ensures AfterUpsert(db, u, None, os) != AfterUpsert(db, u, spk, os[n..])
  {
    var pool, id, rest := PoolIn(db.pools, u), os[0].id, os[n..];
    AddedIds(pool, os);
    AddedIds(pool, rest);
    assert os[0].id == id;
    assert Fits(pool, rest);
    forall i | 0 <= i < |rest|
      ensures rest[i].id != id
    {
      assert rest[i] == os[n + i];
    }
    assert id in AfterUpsert(db, u, None, os).pools[u] && id !in AfterUpsert(db, u, spk, rest).pools[u];
  }

  // ---- Exactly when the bytes decide ----

  /** Another accepted body with the same signed bytes. */
  ghost predicate Shares(p: Platform, db: Db, a: ReplenishBody, b: ReplenishBody) {
    && Accepted(p, db, a) && Accepted(p, db, b)
    && EncodeReplenish(ReplenishMessageOf(p, a)) == EncodeReplenish(ReplenishMessageOf(p, b))
  }

  /** Whatever accepted body the signed bytes came with, the change is this one. */
  ghost predicate BytesDecide(p: Platform, db: Db, a: ReplenishBody) {
    forall b :: Shares(p, db, a, b) ==> AfterReplenish(p, db, a) == AfterReplenish(p, db, b)
  }

  /** A fresh body with the bytes of a plain one is what the plain one reads as, and changes something else. */
  lemma SharingIsSeen(p: Platform, db: Db, a: ReplenishBody, b: ReplenishBody)
    requires Shares(p, db, a, b)
    requires ReplenishMessageOf(p, a).freshness.None? && ReplenishMessageOf(p, b).freshness.Some?
    ensures var m, n := ReplenishMessageOf(p, a), ReplenishMessageOf(p, b);
            |n.opks| < |m.opks| && ReadableAt(p, m, |m.opks| - 1 - |n.opks|)
    ensures AfterReplenish(p, db, a) != AfterReplenish(p, db, b)
  {
    var m, n := ReplenishMessageOf(p, a), ReplenishMessageOf(p, b);
    AcceptedAdmits(p, db, a);
    AcceptedAdmits(p, db, b);
    AdmittedIsReceivable(p, db, m);
    AdmittedIsReceivable(p, db, n);
    Forms.MeetingIsSeen(m, n);
    FewerIsAnother(db, m.userId, m.opks, |m.opks| - |n.opks|, n.spk);
  }

  /** The forms meet at prekey `k`, and the handler takes the freshness fields and signed prekey read there. */
  ghost predicate ReadableAt(p: Platform, m: ReplenishMessage, k: nat) {
    && Encodable(m) && k < |m.opks| && Forms.MeetsAt(m, k)
    && var front := Forms.ReadFront(Forms.Before(m, k)).value;
       GoodFront(p, front.0, front.1)
  }

  lemma FreshReading(p: Platform, db: Db, a: ReplenishBody, k: nat) returns (b: ReplenishBody)
    requires Accepted(p, db, a) && ReplenishMessageOf(p, a).freshness.None?
    requires ReadableAt(p, ReplenishMessageOf(p, a), k)
    ensures Shares(p, db, a, b) && ReplenishMessageOf(p, b).freshness.Some?
  {
    var m := ReplenishMessageOf(p, a);
    AcceptedAdmits(p, db, a);
    AdmittedIsReceivable(p, db, m);
    var n := Forms.PlainMeets(m, k);
    SuffixIsAdmitted(p, db, m, k, n);
    var timestamp, requestId := FieldsExist(p, n.freshness);
    AdmittedIsAccepted(p, db, n, a.batchSignature.s, timestamp, requestId);
    b := BodyOf(n, a.batchSignature.s, timestamp, requestId);
  }

  lemma SuffixIsAdmitted(p: Platform, db: Db, m: ReplenishMessage, k: nat, n: ReplenishMessage)
    requires Admits(p, db, m) && k < |m.opks| && Encodable(n) && Forms.Receivable(n)
    requires n.userId == m.userId && n.opks == m.opks[k + 1..] && GoodFront(p, n.freshness, n.spk)
    ensures Admits(p, db, n)
  {
  }

  /**
   For an accepted plain replenish the bytes decide the change exactly when no prekey of it ends in the number of
   prekeys after it with freshness fields and a signed prekey before it that the handler takes.
   */
  lemma PlainDecidesExactly(p: Platform, db: Db, a: ReplenishBody)
    requires Accepted(p, db, a) && ReplenishMessageOf(p, a).freshness.None?
    ensures BytesDecide(p, db, a) <==> !exists k: nat :: ReadableAt(p, ReplenishMessageOf(p, a), k)
  {
    var m := ReplenishMessageOf(p, a);
    if k: nat :| ReadableAt(p, m, k) {
      var b := FreshReading(p, db, a, k);
      SharingIsSeen(p, db, a, b);
    } else {
      forall b | Shares(p, db, a, b)
        ensures AfterReplenish(p, db, a) == AfterReplenish(p, db, b)
      {
        if ReplenishMessageOf(p, b).freshness.Some? {
          SharingIsSeen(p, db, a, b);
        } else {
          ReplenishBytesDecideEffect(p, db, a, b);
        }
      }
    }
  }

  /** The bytes of a message read as a plain replenish that the handler takes. */
  ghost predicate ReadsPlain(p: Platform, db: Db, m: ReplenishMessage) {
    && Encodable(m)
    && var plain := DecodeReplenish(false, EncodeReplenish(m));
       plain.Some? && Admits(p, db, plain.value)
  }

  lemma PlainReading(p: Platform, db: Db, a: ReplenishBody) returns (b: ReplenishBody)
    requires Accepted(p, db, a) && ReplenishMessageOf(p, a).freshness.Some?
    requires ReadsPlain(p, db, ReplenishMessageOf(p, a))
    ensures Shares(p, db, b, a) && ReplenishMessageOf(p, b).freshness.None?
  {
    var m := ReplenishMessageOf(p, a);
    var n := DecodeReplenish(false, EncodeReplenish(m)).value;
    Forms.ReplenishOfReading(false, EncodeReplenish(m), n);
    Forms.SameUser(m, n);
    AdmittedIsAccepted(p, db, n, a.batchSignature.s, Absent, Absent);
    b := BodyOf(n, a.batchSignature.s, Absent, Absent);
  }

  /** For an accepted fresh replenish they do exactly when its bytes do not read as a plain one the handler takes. */
  lemma FreshDecidesExactly(p: Platform, db: Db, a: ReplenishBody)
    requires Accepted(p, db, a) && ReplenishMessageOf(p, a).freshness.Some?
    ensures BytesDecide(p, db, a) <==> !ReadsPlain(p, db, ReplenishMessageOf(p, a))
  {
    if ReadsPlain(p, db, ReplenishMessageOf(p, a)) {
      var b := PlainReading(p, db, a);
      SharingIsSeen(p, db, b, a);
      assert Shares(p, db, a, b);
    } else {
      forall b | Shares(p, db, a, b)
        ensures AfterReplenish(p, db, a) == AfterReplenish(p, db, b)
      {
        if ReplenishMessageOf(p, b).freshness.None? {
          AcceptedAdmits(p, db, b);
          ReplenishDecodes(ReplenishMessageOf(p, b));
        } else {
          ReplenishBytesDecideEffect(p, db, a, b);
        }
      }
    }
  }

  /** With prekey texts of three characters or more, as every real key has, the bytes always decide. */
  lemma LongTextsDecide(p: Platform, db: Db, a: ReplenishBody)
    requires Accepted(p, db, a) && ReplenishMessageOf(p, a).freshness.None?
    requires forall i :: 0 <= i < |ReplenishMessageOf(p, a).opks| ==> |ReplenishMessageOf(p, a).opks[i].pub| >= 3
    ensures BytesDecide(p, db, a)
  {
    AcceptedAdmits(p, db, a);
    AdmittedIsReceivable(p, db, ReplenishMessageOf(p, a));
    Forms.LongTextsNeverMeet(ReplenishMessageOf(p, a));
    PlainDecidesExactly(p, db, a);
  }

  /** A plain message with prekey texts of three characters or more, or any fresh one. */
  ghost predicate LongTexts(m: ReplenishMessage) {
    m.freshness.None? ==> forall i :: 0 <= i < |m.opks| ==> |m.opks[i].pub| >= 3
  }

  /** Two accepted replenishes of any forms with such texts and the same signed bytes make the same change. */
  lemma LongTextsDecideEffect(p: Platform, db: Db, a: ReplenishBody, b: ReplenishBody)
    requires Shares(p, db, a, b) && LongTexts(ReplenishMessageOf(p, a)) && LongTexts(ReplenishMessageOf(p, b))
    ensures AfterReplenish(p, db, a) == AfterReplenish(p, db, b)
  {
    if ReplenishMessageOf(p, a).freshness.None? {
      LongTextsDecide(p, db, a);
    } else if ReplenishMessageOf(p, b).freshness.None? {
      LongTextsDecide(p, db, b);
      assert Shares(p, db, b, a);
    } else {
      ReplenishBytesDecideEffect(p, db, a, b);
    }
  }

  // ---- Two accepted bodies, one signature, two changes ----

  /** Prekeys with consecutive ids, each of one character. */
  function Plusses(id: nat, n: nat): (os: seq<Opk>)
    ensures |os| == n && forall i :: 0 <= i < n ==> os[i] == Opk(id + i, Forms.PLUS)
  {
    seq(n, i requires 0 <= i < n => Opk(id + i, Forms.PLUS))
  }

  lemma PlussesAreGood(id: nat, n: nat)
    requires id + n < U32_LIMIT
    ensures Forms.GoodPubs(Plusses(id, n)) && Base64Pubs(Plusses(id, n))
  {
    assert Padded(Forms.PLUS, 0);
  }

  /** Thirty-six characters, the bytes of which are prekey entries. */
  ghost function RequestId(): Str {
    PlussesAreGood(1, 3);
    Forms.Request(Forms.PLUS, Plusses(1, 3), 4)
  }

  lemma {:induction false} PlussesLength(os: seq<Opk>)
    requires Forms.GoodPubs(os) && forall i :: 0 <= i < |os| ==> os[i].pub == Forms.PLUS
    ensures |EncodeOpks(os)| == 9 * |os|
    decreases |os|
  {
    if os != [] { PlussesLength(os[1..]); }
  }

  lemma RequestLength()
    ensures |RequestId()| == 36
  {
    PlussesAreGood(1, 3);
    PlussesLength(Plusses(1, 3));
  }

  /** The prekeys of the plain body: five, then those of the fresh one. */
  function PlainOpks(n: nat, common: seq<Opk>): seq<Opk> {
    [Opk(n, Forms.PLUS)] + Plusses(1, 3) + [Opk(4, Forms.PLUS)] + common
  }

  lemma PlainOpksFit(pool: Pool, n: nat, common: seq<Opk>)
    requires 4 < n < 100 && common == Plusses(100, 299) && forall id :: id in pool ==> id >= 400
    ensures Fits(pool, PlainOpks(n, common)) && Base64Pubs(PlainOpks(n, common))
  {
    PlussesAreGood(n, 1);
    assert Plusses(n, 1)[0].pub == Forms.PLUS;
  }

  function PlainPart(user: Str, n: nat, common: seq<Opk>): ReplenishMessage {
    ReplenishMessage(user, None, None, PlainOpks(n, common))
  }

  function FreshPart(user: Str, request: Str, common: seq<Opk>): ReplenishMessage {
    ReplenishMessage(user, Some(Fresh(Forms.ZERO, request)), None, common)
  }

  lemma PartsMeet(user: Str, request: Str, common: seq<Opk>)
    requires request == RequestId() && common == Plusses(100, 299)
    ensures var a, b := PlainPart(user, |request|, common), FreshPart(user, request, common);
            && |request| == 36 && Encodable(a) && Encodable(b) && EncodeReplenish(a) == EncodeReplenish(b)
            && Forms.Receivable(a) && Forms.Receivable(b)
  {
    RequestLength();
    PlussesAreGood(1, 3);
    PlussesAreGood(36, 1);
    PlussesAreGood(100, 299);
    assert Plusses(36, 1) == [Opk(36, Forms.PLUS)];
    var a, b := Forms.ShortTextsCanMeet(user, Forms.PLUS, Plusses(1, 3), 4, request, common);
  }

  lemma PartsAreAdmitted(p: Platform, db: Db, user: Str, request: Str, common: seq<Opk>)
    requires user != [] && user in db.users && (forall id :: id in PoolIn(db.pools, user) ==> id >= 400)
    requires request == RequestId() && common == Plusses(100, 299)
    requires IsShown(p, Forms.ZERO) && IsBuffer(p, request)
    ensures Admits(p, db, PlainPart(user, |request|, common)) && Admits(p, db, FreshPart(user, request, common))
  {
    var m, n := PlainPart(user, |request|, common), FreshPart(user, request, common);
    PartsMeet(user, request, common);
    PlainOpksFit(PoolIn(db.pools, user), |request|, common);
    assert n.opks == m.opks[5..];
    SuffixIsAdmitted(p, db, m, 4, n);
  }

  lemma TwoBodies(
      p: Platform, db: Db, m: ReplenishMessage, n: ReplenishMessage, signature: Str, timestamp: Field, requestId: Field)
    requires Admits(p, db, m) && Admits(p, db, n) && EncodeReplenish(m) == EncodeReplenish(n) && m.userId == n.userId
    requires m.freshness.None? && n.freshness.Some? && Fields(p, n.freshness, timestamp, requestId)
    requires IsBase64(signature) && p.verify(db.users[n.userId].identity.ed25519, EncodeReplenish(n), signature)
    ensures var a, b := BodyOf(m, signature, Absent, Absent), BodyOf(n, signature, timestamp, requestId);
            Shares(p, db, a, b) && AfterReplenish(p, db, a) != AfterReplenish(p, db, b)
  {
    AdmittedIsAccepted(p, db, m, signature, Absent, Absent);
    AdmittedIsAccepted(p, db, n, signature, timestamp, requestId);
    SharingIsSeen(p, db, BodyOf(m, signature, Absent, Absent), BodyOf(n, signature, timestamp, requestId));
  }

  /**
   A plain body with 304 prekeys and a fresh one with 299, at timestamp 0, are accepted with one signature and make
   different changes, for every registered user without pooled ids below 400.
   */
  lemma OneSignatureTwoChanges(p: Platform, db: Db, user: Str, signature: Str, request: Str, common: seq<Opk>)
    returns (a: ReplenishBody, b: ReplenishBody)
    requires user != [] && user in db.users && (forall id :: id in PoolIn(db.pools, user) ==> id >= 400)
    requires request == RequestId() && common == Plusses(100, 299) && p.bufferFrom(Text(request)) == Some(request)
    requires p.show(Integer(0)) == Some(Forms.ZERO) && IsBase64(signature)
    requires Encodable(FreshPart(user, request, common))
    requires p.verify(db.users[user].identity.ed25519, EncodeReplenish(FreshPart(user, request, common)), signature)
    ensures a.timestamp == Absent && b.timestamp == Integer(0) && b.requestId == Text(request)
    ensures a.batchSignature == b.batchSignature == Text(signature)
    ensures Shares(p, db, a, b) && AfterReplenish(p, db, a) != AfterReplenish(p, db, b)
  {
    var m, n := PlainPart(user, |request|, common), FreshPart(user, request, common);
    PartsMeet(user, request, common);
    PartsAreAdmitted(p, db, user, request, common);
    TwoBodies(p, db, m, n, signature, Integer(0), Text(request));
    a := BodyOf(m, signature, Absent, Absent);
    b := BodyOf(n, signature, Integer(0), Text(request));
  }
}
