/** The signed requests of the key server: validation, canonical bytes, verification, write. */
module KeyServer {
  import opened Wrappers
  import opened Bytes
  import opened KeyserverCodec
  import opened KeyDatabase
  import Runs = PrekeyRuns
  import Wrapped = WrappedRuns

  /** A field of a request body, as JSON delivers it; a literal out of range reads as an infinity. */
  datatype Field =
    | Absent
    | Integer(n: int)
    | Fraction(x: real)
    | Infinity(negative: bool)
    | Text(s: Str)
    | Other(json: Str)

  datatype OpkBody = OpkBody(id: Field, pub: Field)
  datatype SpkBody = SpkBody(pub: Field, signature: Field, rotatedAt: Field)

  /** `opks` is absent when the field is no array, `spk` when it is null or missing. */
  datatype ReplenishBody = ReplenishBody(
    userId: Field, batchSignature: Field, timestamp: Field, requestId: Field,
    spk: Option<SpkBody>, opks: Option<seq<OpkBody>>)

  datatype BurnBody = BurnBody(
    scope: Field, userId: Field, burnSignature: Field, timestamp: Field, requestId: Field,
    targetContentId: Field, targetUserId: Field)

  /**
   Ed25519 (section 5.1 of RFC 8032) over base64 keys, `Date.parse`, and on a field `String`
   and `Buffer.from`, either of which may throw.
   */
  datatype Platform = Platform(
    verify: (Str, bytes, Str) -> bool,
    isDate: Str -> bool,
    show: Field -> Option<Str>,
    bufferFrom: Field -> Option<Str>)

  datatype Reply = Ok | BadRequest | Unauthorized | UnknownUser | Conflict | ServerError

  predicate IsPlainString(f: Field) { f.Text? && f.s != [] }

  predicate InBase64(b: byte) {
    65 <= b <= 90 || 97 <= b <= 122 || 48 <= b <= 57 || b == 43 || b == 47
  }

  predicate Padded(s: Str, n: nat) {
    && n < |s|
    && (forall i :: 0 <= i < |s| - n ==> InBase64(s[i]))
    && (forall i :: |s| - n <= i < |s| ==> s[i] == 61)
  }

  /** One or more alphabet characters, then at most two `=`. */
  predicate IsBase64(s: Str) { Padded(s, 0) || Padded(s, 1) || Padded(s, 2) }

  predicate IsNonEmptyBase64(f: Field) { f.Text? && IsBase64(f.s) }

  // ---- Replenish ----

  predicate GoodOpk(o: OpkBody) {
    o.id.Integer? && o.id.n >= 0 && IsNonEmptyBase64(o.pub)
  }

  predicate GoodSpk(p: Platform, s: SpkBody) {
    IsNonEmptyBase64(s.pub) && IsNonEmptyBase64(s.signature) && IsPlainString(s.rotatedAt) && p.isDate(s.rotatedAt.s)
  }

  predicate GoodReplenish(p: Platform, b: ReplenishBody) {
    && IsPlainString(b.userId) && IsNonEmptyBase64(b.batchSignature)
    && b.opks.Some? && (forall i :: 0 <= i < |b.opks.value| ==> GoodOpk(b.opks.value[i]))
    && (b.spk.Some? ==> GoodSpk(p, b.spk.value))
  }

  function OpksOf(bodies: seq<OpkBody>): (r: seq<Opk>)
    requires forall i :: 0 <= i < |bodies| ==> GoodOpk(bodies[i])
    ensures |r| == |bodies|
    ensures forall i :: 0 <= i < |bodies| ==> GoodOpk(bodies[i]) && r[i] == Opk(bodies[i].id.n, bodies[i].pub.s)
  {
    seq(|bodies|, i requires 0 <= i < |bodies| && GoodOpk(bodies[i]) => Opk(bodies[i].id.n, bodies[i].pub.s))
  }

  predicate HasFreshness(timestamp: Field, requestId: Field) { !timestamp.Absent? && !requestId.Absent? }

  predicate FreshThrows(p: Platform, timestamp: Field, requestId: Field) {
    HasFreshness(timestamp, requestId) && (p.show(timestamp).None? || p.bufferFrom(requestId).None?)
  }

  /** The freshness fields as they are encoded, when both are present. */
  function FreshOf(p: Platform, timestamp: Field, requestId: Field): Option<Fresh> {
    if !HasFreshness(timestamp, requestId) || FreshThrows(p, timestamp, requestId) then None
    else Some(Fresh(p.show(timestamp).value, p.bufferFrom(requestId).value))
  }

  function ReplenishMessageOf(p: Platform, b: ReplenishBody): ReplenishMessage
    requires GoodReplenish(p, b)
  {
    ReplenishMessage(
      b.userId.s,
      FreshOf(p, b.timestamp, b.requestId),
      if b.spk.Some? then Some(Spk(b.spk.value.pub.s, b.spk.value.signature.s, b.spk.value.rotatedAt.s)) else None,
      OpksOf(b.opks.value))
  }

  ghost function ReplenishReply(p: Platform, db: Db, b: ReplenishBody): Reply {
    if !GoodReplenish(p, b) then BadRequest
    else
      var m := ReplenishMessageOf(p, b);
      if m.userId !in db.users then UnknownUser
      else if FreshThrows(p, b.timestamp, b.requestId) || !Encodable(m) then ServerError
      else if !p.verify(db.users[m.userId].identity.ed25519, EncodeReplenish(m), b.batchSignature.s) then Unauthorized
      else
        match UpsertOutcome(db, m.userId, m.spk, m.opks)
        case Stored => Ok
        case PrimaryKeyTaken => Conflict
        case NoSuchUser => ServerError
  }

  ghost function AfterReplenish(p: Platform, db: Db, b: ReplenishBody): Db {
    if ReplenishReply(p, db, b) != Ok then db
    else
      var m := ReplenishMessageOf(p, b);
      AfterUpsert(db, m.userId, m.spk, m.opks)
  }

  method HandleReplenish(p: Platform, tables: Tables, b: ReplenishBody) returns (reply: Reply)
    modifies tables
    ensures reply == ReplenishReply(p, old(tables.Contents()), b)
    ensures tables.Contents() == AfterReplenish(p, old(tables.Contents()), b)
  {
    if !IsPlainString(b.userId) { return BadRequest; }
    if !IsNonEmptyBase64(b.batchSignature) { return BadRequest; }
    if b.opks.None? { return BadRequest; }
    var bodies := b.opks.value;
    for i := 0 to |bodies|
      invariant forall k :: 0 <= k < i ==> GoodOpk(bodies[k])
    {
      if !bodies[i].id.Integer? || bodies[i].id.n < 0 { return BadRequest; }
      if !IsNonEmptyBase64(bodies[i].pub) { return BadRequest; }
    }
    if b.spk.Some? && !GoodSpk(p, b.spk.value) { return BadRequest; }
    var m := ReplenishMessageOf(p, b);
    if m.userId !in tables.users { return UnknownUser; }
    if FreshThrows(p, b.timestamp, b.requestId) { return ServerError; }
    var message := CanonicalReplenishBytes(m);
    if message.None? { return ServerError; }
    if !p.verify(tables.users[m.userId].identity.ed25519, message.value, b.batchSignature.s) { return Unauthorized; }
    var r := tables.UpsertPrekeyBundle(m.userId, m.spk, m.opks);
    match r {
      case Stored => reply := Ok;
      case PrimaryKeyTaken => reply := Conflict;
      case NoSuchUser => reply := ServerError;
    }
  }

  // ---- Burn ----

  /** The scope and its target, when the fields fit together. */
  function ScopeOf(b: BurnBody): Option<Scope> {
    if !b.scope.Text? then None
    else if b.scope.s == SINGLE then
      if IsPlainString(b.targetContentId) then Some(Single(b.targetContentId.s)) else None
    else if b.scope.s == TO_USER then
      if IsPlainString(b.targetUserId) then Some(ToUser(b.targetUserId.s)) else None
    else if b.scope.s == ALL then
      if b.targetContentId.Absent? && b.targetUserId.Absent? then Some(All) else None
    else None
  }

  predicate GoodBurn(b: BurnBody) {
    ScopeOf(b).Some? && IsPlainString(b.userId) && IsNonEmptyBase64(b.burnSignature)
  }

  function BurnMessageOf(p: Platform, b: BurnBody): BurnMessage
    requires GoodBurn(b)
  {
    BurnMessage(b.userId.s, FreshOf(p, b.timestamp, b.requestId), ScopeOf(b).value)
  }

  function BurnReply(p: Platform, db: Db, b: BurnBody): Reply {
    if !GoodBurn(b) then BadRequest
    else
      var m := BurnMessageOf(p, b);
      if m.userId !in db.users then UnknownUser
      else if FreshThrows(p, b.timestamp, b.requestId) then ServerError
      else if !p.verify(db.users[m.userId].identity.ed25519, EncodeBurn(m), b.burnSignature.s) then Unauthorized
      else Ok
  }

  function AfterBurn(p: Platform, db: Db, b: BurnBody): Db {
    if BurnReply(p, db, b) != Ok then db
    else
      var m := BurnMessageOf(p, b);
      db.(wrapped := db.wrapped - Matched(db.wrapped, m.userId, m.scope))
  }

  method HandleBurn(p: Platform, tables: Tables, b: BurnBody) returns (reply: Reply, deleted: nat)
    modifies tables
    ensures reply == BurnReply(p, old(tables.Contents()), b)
    ensures tables.Contents() == AfterBurn(p, old(tables.Contents()), b)
    ensures reply == Ok ==> deleted == |Matched(old(tables.wrapped), b.userId.s, ScopeOf(b).value)|
  {
    deleted := 0;
    if !b.scope.Text? || (b.scope.s != SINGLE && b.scope.s != TO_USER && b.scope.s != ALL) {
      return BadRequest, 0;
    }
    if !IsPlainString(b.userId) { return BadRequest, 0; }
    if !IsNonEmptyBase64(b.burnSignature) { return BadRequest, 0; }
    var scope := All;
    if b.scope.s == SINGLE {
      if !IsPlainString(b.targetContentId) { return BadRequest, 0; }
      scope := Single(b.targetContentId.s);
    } else if b.scope.s == TO_USER {
      if !IsPlainString(b.targetUserId) { return BadRequest, 0; }
      scope := ToUser(b.targetUserId.s);
    } else if !b.targetContentId.Absent? || !b.targetUserId.Absent? {
      return BadRequest, 0;
    }
    assert ScopeOf(b) == Some(scope);
    if b.userId.s !in tables.users { return UnknownUser, 0; }
    if FreshThrows(p, b.timestamp, b.requestId) { return ServerError, 0; }
    var message := CanonicalBurnBytes(BurnMessage(b.userId.s, FreshOf(p, b.timestamp, b.requestId), scope));
    if !p.verify(tables.users[b.userId.s].identity.ed25519, message, b.burnSignature.s) { return Unauthorized, 0; }
    deleted := tables.BurnWrappedKeys(b.userId.s, scope);
    reply := Ok;
  }

  /** Afterwards exactly the rows of the user named that the body targets are gone, and nothing else has changed. */
  ghost predicate Burned(before: Db, after: Db, b: BurnBody) {
    && b.scope.Text? && b.userId.Text?
    && (b.scope.s == AsciiBytes("single") ==> b.targetContentId.Text?)
    && (b.scope.s == AsciiBytes("to_user") ==> b.targetUserId.Text?)
    && after.users == before.users && after.bundles == before.bundles && after.pools == before.pools
    && (forall id :: id in after.wrapped ==> id in before.wrapped && after.wrapped[id] == before.wrapped[id])
    && (forall id :: id in before.wrapped ==>
          (id !in after.wrapped <==>
             && before.wrapped[id].sender == b.userId.s
             && (b.scope.s == AsciiBytes("single") ==> id == b.targetContentId.s)
             && (b.scope.s == AsciiBytes("to_user") ==> before.wrapped[id].recipient == b.targetUserId.s)))
  }

  lemma ServedBurnIs(p: Platform, db: Db, b: BurnBody)
    requires BurnReply(p, db, b) == Ok
    ensures Burned(db, AfterBurn(p, db, b), b)
  {
    var scope := ScopeOf(b).value;
    NamesDiffer();
    var doomed := Matched(db.wrapped, b.userId.s, scope);
    BurnsExactly(db.wrapped, db.wrapped - doomed, b.userId.s, scope, |doomed|);
  }

  /** A target for each scope, and none for all. */
  predicate TargetFits(b: BurnBody) {
    && b.scope.Text?
    && (|| (b.scope.s == AsciiBytes("single") && b.targetContentId.Text? && b.targetContentId.s != [])
        || (b.scope.s == AsciiBytes("to_user") && b.targetUserId.Text? && b.targetUserId.s != [])
        || (b.scope.s == AsciiBytes("all") && b.targetContentId.Absent? && b.targetUserId.Absent?))
  }

  /** Which refusal a burn gets. */
  lemma BurnRefusals(p: Platform, db: Db, b: BurnBody)
    ensures var r, both := BurnReply(p, db, b), !b.timestamp.Absent? && !b.requestId.Absent?;
            && (r == BadRequest <==>
                  !(TargetFits(b) && b.userId.Text? && b.userId.s != [] && IsNonEmptyBase64(b.burnSignature)))
            && (r == UnknownUser <==> r != BadRequest && b.userId.s !in db.users)
            && (r == ServerError <==>
                  && r != BadRequest && b.userId.s in db.users
                  && both && (p.show(b.timestamp).None? || p.bufferFrom(b.requestId).None?))
            && (r == Ok || r == Unauthorized ==>
                  && b.userId.s in db.users
                  && (r == Ok <==> p.verify(db.users[b.userId.s].identity.ed25519, EncodeBurn(BurnMessageOf(p, b)),
                                            b.burnSignature.s)))
            && r != Conflict
  {
    NamesDiffer();
  }

  /** What is signed is the body: user, prekeys and signed prekey, and the freshness fields when both are there. */
  lemma SignedIsBody(p: Platform, b: ReplenishBody)
    requires GoodReplenish(p, b) && !FreshThrows(p, b.timestamp, b.requestId)
    ensures var m := ReplenishMessageOf(p, b);
            && m.userId == b.userId.s && |m.opks| == |b.opks.value|
            && (forall i :: 0 <= i < |m.opks| ==>
                  b.opks.value[i] == OpkBody(Integer(m.opks[i].id), Text(m.opks[i].pub)))
            && (m.spk.Some? <==> b.spk.Some?)
            && (m.spk.Some? ==>
                  b.spk.value
                  == SpkBody(Text(m.spk.value.pub), Text(m.spk.value.signature), Text(m.spk.value.rotatedAt)))
            && (m.freshness.Some? <==> !b.timestamp.Absent? && !b.requestId.Absent?)
            && (m.freshness.Some? ==>
                  && p.show(b.timestamp) == Some(m.freshness.value.timestamp)
                  && p.bufferFrom(b.requestId) == Some(m.freshness.value.requestId))
  {
    var bodies := b.opks.value;
    forall i | 0 <= i < |bodies|
      ensures bodies[i] == OpkBody(Integer(OpksOf(bodies)[i].id), Text(OpksOf(bodies)[i].pub))
    {
      assert GoodOpk(bodies[i]);
    }
  }

  /** Which refusal a replenish gets, and that of a registered user is refused by the tables only over its ids. */
  lemma ReplenishRefusals(p: Platform, db: Db, b: ReplenishBody)
    ensures var r := ReplenishReply(p, db, b);
            && (r == BadRequest <==> !GoodReplenish(p, b))
            && (r == UnknownUser <==> GoodReplenish(p, b) && b.userId.s !in db.users)
            && (r == ServerError ==> FreshThrows(p, b.timestamp, b.requestId) || !Encodable(ReplenishMessageOf(p, b)))
            && (r == Ok || r == Conflict || r == Unauthorized ==>
                  var m := ReplenishMessageOf(p, b);
                  && !FreshThrows(p, b.timestamp, b.requestId) && Encodable(m)
                  && (r != Unauthorized <==>
                        p.verify(db.users[b.userId.s].identity.ed25519, EncodeReplenish(m), b.batchSignature.s))
                  && (r == Ok ==> NewIds(PoolIn(db.pools, b.userId.s), m.opks))
                  && (r == Conflict ==> !NewIds(PoolIn(db.pools, b.userId.s), m.opks)))
  {
    if GoodReplenish(p, b) {
      var m := ReplenishMessageOf(p, b);
      UpsertsAsPromised(db, m.userId, m.spk, m.opks);
    }
  }

  // ---- The signed bytes decide the effect ----

  /** Two accepted replenishes of the same form with the same signed bytes make the same change. */
  lemma ReplenishBytesDecideEffect(p: Platform, db: Db, a: ReplenishBody, b: ReplenishBody)
    requires ReplenishReply(p, db, a) == Ok && ReplenishReply(p, db, b) == Ok
    requires FreshOf(p, a.timestamp, a.requestId).Some? == FreshOf(p, b.timestamp, b.requestId).Some?
    requires EncodeReplenish(ReplenishMessageOf(p, a)) == EncodeReplenish(ReplenishMessageOf(p, b))
    ensures AfterReplenish(p, db, a) == AfterReplenish(p, db, b)
    ensures ReplenishMessageOf(p, a) == ReplenishMessageOf(p, b)
  {
    ReplenishDecodes(ReplenishMessageOf(p, a));
    ReplenishDecodes(ReplenishMessageOf(p, b));
  }

  predicate IsNumber(f: Field) { f.Integer? || f.Fraction? || f.Infinity? }

  /** `String` of a number starts with a digit, a minus sign, or the I of Infinity. */
  ghost predicate ShowsNumbers(p: Platform) {
    forall f :: IsNumber(f) ==>
      && p.show(f).Some? && p.show(f).value != []
      && var c := p.show(f).value[0]; 48 <= c <= 57 || c == 45 || c == 73
  }

  lemma NumericTimestampsDecide(p: Platform, b: BurnBody)
    requires ShowsNumbers(p) && GoodBurn(b) && IsNumber(b.timestamp)
    requires !b.requestId.Absent? && !FreshThrows(p, b.timestamp, b.requestId)
    ensures Decided(BurnMessageOf(p, b))
  {
    NumbersAreDecided(BurnMessageOf(p, b));
  }

  /** Accepted burns with the same signed bytes make the same change, in any forms, when either reads one way only. */
  lemma BurnBytesDecideEffect(p: Platform, db: Db, a: BurnBody, b: BurnBody)
    requires BurnReply(p, db, a) == Ok && BurnReply(p, db, b) == Ok
    requires EncodeBurn(BurnMessageOf(p, a)) == EncodeBurn(BurnMessageOf(p, b))
    requires var m, n := BurnMessageOf(p, a), BurnMessageOf(p, b);
             m.freshness.Some? == n.freshness.Some? || Decided(m) || Decided(n)
    ensures AfterBurn(p, db, a) == AfterBurn(p, db, b)
  {
    BurnBytesDecide(BurnMessageOf(p, a), BurnMessageOf(p, b));
  }

  /** Two accepted burns with numeric timestamps, or none, and the same signed bytes make the same change. */
  lemma NumericBurnsDecideEffect(p: Platform, db: Db, a: BurnBody, b: BurnBody)
    requires ShowsNumbers(p) && BurnReply(p, db, a) == Ok && BurnReply(p, db, b) == Ok
    requires EncodeBurn(BurnMessageOf(p, a)) == EncodeBurn(BurnMessageOf(p, b))
    requires (a.timestamp.Absent? || IsNumber(a.timestamp)) && (b.timestamp.Absent? || IsNumber(b.timestamp))
    ensures AfterBurn(p, db, a) == AfterBurn(p, db, b)
  {
    var m, n := BurnMessageOf(p, a), BurnMessageOf(p, b);
    if m.freshness.Some? { NumericTimestampsDecide(p, a); }
    if n.freshness.Some? { NumericTimestampsDecide(p, b); }
    BurnBytesDecideEffect(p, db, a, b);
  }

  /** Within the body limit accepted burns with the same bytes make the same change, in any forms, at any timestamps. */
  lemma ReceivedBurnsDecideEffect(p: Platform, db: Db, a: BurnBody, b: BurnBody)
    requires BurnReply(p, db, a) == Ok && BurnReply(p, db, b) == Ok
    requires EncodeBurn(BurnMessageOf(p, a)) == EncodeBurn(BurnMessageOf(p, b))
    requires |Target(BurnMessageOf(p, a).scope)| <= 0x100_0000 && |Target(BurnMessageOf(p, b).scope)| <= 0x100_0000
    ensures AfterBurn(p, db, a) == AfterBurn(p, db, b)
  {
    var m, n := BurnMessageOf(p, a), BurnMessageOf(p, b);
    if m.freshness.None? {
      SmallBurnsAreDecided(m);
    } else if n.freshness.None? {
      SmallBurnsAreDecided(n);
    }
    BurnBytesDecideEffect(p, db, a, b);
  }

  // ---- Runs of the server ----

  datatype Request =
    | PostReplenish(replenish: ReplenishBody)
    | DeleteWrapped(burn: BurnBody)
    | Unsigned(op: Runs.Op)

  /** Unsigned requests never replenish. */
  ghost function Serve(p: Platform, db: Db, r: Request): Db {
    match r
    case PostReplenish(b) => AfterReplenish(p, db, b)
    case DeleteWrapped(b) => AfterBurn(p, db, b)
    case Unsigned(op) => if op.Replenish? || op.Burn? then db else Runs.Apply(db, op)
  }

  ghost function ServeAll(p: Platform, rs: seq<Request>): Db {
    if rs == [] then EMPTY else Serve(p, ServeAll(p, rs[..|rs| - 1]), rs[|rs| - 1])
  }

  /** A request is one table operation, or none. */
  ghost function Effect(p: Platform, db: Db, r: Request): seq<Runs.Op> {
    match r
    case PostReplenish(b) =>
      if ReplenishReply(p, db, b) != Ok then []
      else var m := ReplenishMessageOf(p, b); [Runs.Replenish(m.userId, m.spk, m.opks)]
    case DeleteWrapped(b) =>
      if BurnReply(p, db, b) != Ok then []
      else var m := BurnMessageOf(p, b); [Runs.Burn(m.userId, m.scope)]
    case Unsigned(op) => if op.Replenish? || op.Burn? then [] else [op]
  }

  ghost function Trace(p: Platform, rs: seq<Request>): seq<Runs.Op> {
    if rs == [] then []
    else
      var q := rs[..|rs| - 1];
      Trace(p, q) + Effect(p, ServeAll(p, q), rs[|rs| - 1])
  }

  /** A run of the server is a run of the tables, so everything proved of table runs holds of it. */
  lemma {:induction false} ServerRunsTheTables(p: Platform, rs: seq<Request>)
    ensures ServeAll(p, rs) == Runs.Run(EMPTY, Trace(p, rs))
    decreases |rs|
  {
    if rs != [] {
      var q, r := rs[..|rs| - 1], rs[|rs| - 1];
      ServerRunsTheTables(p, q);
      var db, t := ServeAll(p, q), Trace(p, q);
      EffectIsOneStep(p, db, r);
      RunStep(t, Effect(p, db, r));
    }
  }

  lemma EffectIsOneStep(p: Platform, db: Db, r: Request)
    ensures var e := Effect(p, db, r);
            |e| <= 1 && Serve(p, db, r) == if e == [] then db else Runs.Apply(db, e[0])
  {
  }

  lemma RunStep(t: seq<Runs.Op>, e: seq<Runs.Op>)
    requires |e| <= 1
    ensures Runs.Run(EMPTY, t + e) == if e == [] then Runs.Run(EMPTY, t) else Runs.Apply(Runs.Run(EMPTY, t), e[0])
  {
    if e == [] {
      assert t + e == t;
    } else {
      assert (t + e)[..|t|] == t && (t + e)[|t|] == e[0];
    }
  }

  ghost predicate IdsFit(db: Db) {
    forall u, id :: u in db.pools && id in db.pools[u] ==> IsU32(id)
  }

  lemma ServeKeepsIds(p: Platform, db: Db, r: Request)
    requires IdsFit(db)
    ensures IdsFit(Serve(p, db, r))
  {
    if r.PostReplenish? && ReplenishReply(p, db, r.replenish) == Ok {
      var m := ReplenishMessageOf(p, r.replenish);
      AddedIds(PoolIn(db.pools, m.userId), m.opks);
    }
  }

  /** Every pooled id fits in 32 bits: the handler checks only the lower bound, but encoding precedes the write. */
  lemma {:induction false} PooledIdsFit(p: Platform, rs: seq<Request>)
    ensures IdsFit(ServeAll(p, rs))
    decreases |rs|
  {
    if rs != [] {
      PooledIdsFit(p, rs[..|rs| - 1]);
      ServeKeepsIds(p, ServeAll(p, rs[..|rs| - 1]), rs[|rs| - 1]);
    }
  }

  // ---- Every effect in a run is signed ----

  /** Request `k` is a replenish or burn with this effect, signed by the identity key its user had at that time. */
  ghost predicate SignedAt(p: Platform, rs: seq<Request>, k: nat, op: Runs.Op) {
    && k < |rs|
    && var db := ServeAll(p, rs[..k]);
       match rs[k]
       case PostReplenish(b) =>
         && GoodReplenish(p, b) && b.userId.s in db.users && Encodable(ReplenishMessageOf(p, b))
         && var m := ReplenishMessageOf(p, b);
            && op == Runs.Replenish(m.userId, m.spk, m.opks)
            && p.verify(db.users[m.userId].identity.ed25519, EncodeReplenish(m), b.batchSignature.s)
       case DeleteWrapped(b) =>
         && GoodBurn(b) && b.userId.s in db.users
         && var m := BurnMessageOf(p, b);
            && op == Runs.Burn(m.userId, m.scope)
            && p.verify(db.users[m.userId].identity.ed25519, EncodeBurn(m), b.burnSignature.s)
       case Unsigned(_) => false
  }

  lemma LastIsSigned(p: Platform, rs: seq<Request>, op: Runs.Op)
    requires rs != [] && (op.Replenish? || op.Burn?)
    requires Effect(p, ServeAll(p, rs[..|rs| - 1]), rs[|rs| - 1]) == [op]
    ensures SignedAt(p, rs, |rs| - 1, op)
  {
  }

  lemma SignedEarlier(p: Platform, rs: seq<Request>, k: nat, op: Runs.Op)
    requires rs != [] && SignedAt(p, rs[..|rs| - 1], k, op)
    ensures SignedAt(p, rs, k, op)
  {
    assert rs[..|rs| - 1][..k] == rs[..k];
  }

  /** Every replenish and every burn that a run performs was signed, over exactly its canonical bytes. */
  lemma {:induction false} EffectsAreSigned(p: Platform, rs: seq<Request>, i: nat) returns (k: nat)
    requires i < |Trace(p, rs)| && (Trace(p, rs)[i].Replenish? || Trace(p, rs)[i].Burn?)
    ensures SignedAt(p, rs, k, Trace(p, rs)[i])
    decreases |rs|
  {
    var before, r := rs[..|rs| - 1], rs[|rs| - 1];
    var t, e := Trace(p, before), Effect(p, ServeAll(p, before), r);
    if i < |t| {
      k := EffectsAreSigned(p, before, i);
      SignedEarlier(p, rs, k, Trace(p, rs)[i]);
    } else {
      EffectIsOneStep(p, ServeAll(p, before), r);
      k := |rs| - 1;
      assert e == [Trace(p, rs)[i]];
      LastIsSigned(p, rs, Trace(p, rs)[i]);
    }
  }

  // ---- Wrapped keys over server runs ----

  /** The requests of a table run that concern wrapped keys. */
  function Project(ops: seq<Runs.Op>): seq<Wrapped.Op> {
    if ops == [] then []
    else
      var before, op := Project(ops[..|ops| - 1]), ops[|ops| - 1];
      match op
      case Insert(id, row) => before + [Wrapped.Insert(id, row)]
      case Fetch(id, now) => before + [Wrapped.Fetch(id, now)]
      case Burn(u, scope) => before + [Wrapped.Burn(u, scope)]
      case _ => before
  }

  lemma TableSnoc(ops: seq<Wrapped.Op>, op: Wrapped.Op)
    ensures Wrapped.Table(ops + [op]) == Wrapped.Apply(Wrapped.Table(ops), op)
  {
    assert (ops + [op])[..|ops|] == ops;
  }

  lemma {:induction false} ProjectionRuns(ops: seq<Runs.Op>)
    ensures Runs.Run(EMPTY, ops).wrapped == Wrapped.Table(Project(ops))
    decreases |ops|
  {
    if ops != [] {
      var before, op := ops[..|ops| - 1], ops[|ops| - 1];
      ProjectionRuns(before);
      match op
      case Insert(id, row) => TableSnoc(Project(before), Wrapped.Insert(id, row));
      case Fetch(id, now) => TableSnoc(Project(before), Wrapped.Fetch(id, now));
      case Burn(u, scope) => TableSnoc(Project(before), Wrapped.Burn(u, scope));
      case _ =>
    }
  }

  /** What a run of the server did to the wrapped keys. */
  ghost function WrappedTrace(p: Platform, rs: seq<Request>): seq<Wrapped.Op> { Project(Trace(p, rs)) }

  /** The wrapped keys of a server run are those of its wrapped-key requests, so every upload has one fate. */
  lemma EveryUploadHasOneFate(p: Platform, rs: seq<Request>, t: nat)
    requires Wrapped.Accepted(WrappedTrace(p, rs), t)
    ensures ServeAll(p, rs).wrapped == Wrapped.Table(WrappedTrace(p, rs))
    ensures var ops := WrappedTrace(p, rs);
            && (ops[t].row.singleUse ==>
                  Wrapped.One(Wrapped.Live(ops, t)) + Wrapped.Deliveries(ops, t)
                  + Wrapped.Tombstonings(ops, t) + Wrapped.Burnings(ops, t) == 1)
            && (!ops[t].row.singleUse ==>
                  Wrapped.One(Wrapped.Live(ops, t)) + Wrapped.Tombstonings(ops, t) + Wrapped.Burnings(ops, t) == 1)
            && (Wrapped.Live(ops, t) ==>
                  ops[t].id in ServeAll(p, rs).wrapped && ServeAll(p, rs).wrapped[ops[t].id] == ops[t].row)
  {
    ServerRunsTheTables(p, rs);
    ProjectionRuns(Trace(p, rs));
    Wrapped.EveryInsertionHasOneFate(WrappedTrace(p, rs), t);
    Wrapped.RowsAreTraced(WrappedTrace(p, rs));
  }

  /** In every run of the server a bundle carries the last identity registered and the last signed prekey accepted. */
  lemma ServerGivesTheLatest(p: Platform, rs: seq<Request>, u: Str)
    ensures Runs.IsLatest(PopReply(ServeAll(p, rs), u), Runs.Registrations(Trace(p, rs), u),
                          Runs.Spks(EMPTY, Trace(p, rs), u))
  {
    ServerRunsTheTables(p, rs);
    Runs.PopGivesTheLatest(Trace(p, rs), u);
  }
}
